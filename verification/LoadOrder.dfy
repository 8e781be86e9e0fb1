/** Loading sorts the publications of a store by domain and generation, keeping the
    order of the file within each: neither compaction nor recovery can tell. */
module LoadOrder {
  import opened Model
  import opened Compaction
  import opened ControllerRuns

  /** The records of one domain and generation, in order. */
  function Within(s: seq<PublicationRecord>, d: MemberDomainKey, g: u64): seq<PublicationRecord> {
    if s == [] then []
    else
      var before, r := Within(s[..|s| - 1], d, g), s[|s| - 1];
      if r.domain == d && r.generation == g then before + [r] else before
  }

  /** What a stable sort by domain and generation keeps. */
  ghost predicate SortedFrom(p: seq<PublicationRecord>, q: seq<PublicationRecord>) {
    forall d: MemberDomainKey, g: u64 :: Within(p, d, g) == Within(q, d, g)
  }

  /** The first record of the highest acceptance number. */
  function FirstHighest(s: seq<PublicationRecord>): PublicationRecord
    requires s != []
  {
    if |s| == 1 then s[0]
    else
      var before, r := FirstHighest(s[..|s| - 1]), s[|s| - 1];
      if before.acceptance < r.acceptance then r else before
  }

  lemma {:induction false} WithinMembership(s: seq<PublicationRecord>, d: MemberDomainKey, g: u64, r: PublicationRecord)
    ensures r in Within(s, d, g) <==> r in s && r.domain == d && r.generation == g
  {
    if s != [] {
      var front, last := s[..|s| - 1], s[|s| - 1];
      assert s == front + [last];
      WithinMembership(front, d, g, r);
    }
  }

  /** `g` is the highest generation recorded for the domain. */
  ghost predicate Highest(s: seq<PublicationRecord>, d: MemberDomainKey, g: u64) {
    Within(s, d, g) != [] && forall h: u64 | h > g :: Within(s, d, h) == []
  }

  lemma {:induction false} NewestIsFirstHighest(s: seq<PublicationRecord>, d: MemberDomainKey)
    ensures d in NewestOf(s) ==>
      (var n := NewestOf(s)[d]; Highest(s, d, n.generation) && n == FirstHighest(Within(s, d, n.generation)))
    ensures d !in NewestOf(s) ==> forall g: u64 :: Within(s, d, g) == []
  {
    if s != [] {
      var front, r := s[..|s| - 1], s[|s| - 1];
      NewestIsFirstHighest(front, d);
      if r.domain == d {
        var before, w := Within(front, d, r.generation), Within(s, d, r.generation);
        assert w == before + [r] && w[..|w| - 1] == before;
        assert FirstHighest(w) == if before == [] || FirstHighest(before).acceptance < r.acceptance then r else FirstHighest(before);
      }
    }
  }

  lemma {:induction false} RecoveredIsFirst(s: seq<PublicationRecord>, d: MemberDomainKey)
    ensures d in RecoveredPublications(s) ==>
      (var n := RecoveredPublications(s)[d]; Highest(s, d, n.generation) && n == Within(s, d, n.generation)[0])
    ensures d !in RecoveredPublications(s) ==> forall g: u64 :: Within(s, d, g) == []
  {
    if s != [] {
      RecoveredIsFirst(s[..|s| - 1], d);
    }
  }

  lemma SameHighest(p: seq<PublicationRecord>, q: seq<PublicationRecord>, d: MemberDomainKey, g: u64, h: u64)
    requires SortedFrom(p, q) && Highest(p, d, g) && Highest(q, d, h)
    ensures g == h
  {
    assert Within(p, d, h) == Within(q, d, h) && Within(p, d, g) == Within(q, d, g);
  }

  lemma SameNewest(p: seq<PublicationRecord>, q: seq<PublicationRecord>, d: MemberDomainKey)
    requires SortedFrom(p, q)
    ensures d in NewestOf(p) <==> d in NewestOf(q)
    ensures d in NewestOf(p) ==> NewestOf(p)[d] == NewestOf(q)[d]
    ensures d in RecoveredPublications(p) <==> d in RecoveredPublications(q)
    ensures d in RecoveredPublications(p) ==> RecoveredPublications(p)[d] == RecoveredPublications(q)[d]
  {
    hide NewestOf, RecoveredPublications, FirstHighest, Within;
    NewestIsFirstHighest(p, d);
    NewestIsFirstHighest(q, d);
    RecoveredIsFirst(p, d);
    RecoveredIsFirst(q, d);
    if d in NewestOf(p) && d in NewestOf(q) { SameHighest(p, q, d, NewestOf(p)[d].generation, NewestOf(q)[d].generation); }
    if d in RecoveredPublications(p) && d in RecoveredPublications(q) {
      SameHighest(p, q, d, RecoveredPublications(p)[d].generation, RecoveredPublications(q)[d].generation);
    }
  }

  lemma {:induction false} HighestAcceptanceIs(s: seq<PublicationRecord>)
    ensures forall r | r in s :: r.acceptance <= HighestAcceptance(s)
    ensures HighestAcceptance(s) == 0 || exists r :: r in s && r.acceptance == HighestAcceptance(s)
  {
    if s != [] {
      var front, last := s[..|s| - 1], s[|s| - 1];
      assert s == front + [last];
      HighestAcceptanceIs(front);
      assert last in s;
    }
  }

  lemma SameRecords(p: seq<PublicationRecord>, q: seq<PublicationRecord>, r: PublicationRecord)
    requires SortedFrom(p, q)
    ensures r in p <==> r in q
  {
    WithinMembership(p, r.domain, r.generation, r);
    WithinMembership(q, r.domain, r.generation, r);
  }

  /** Sorting on load is immaterial: the newest publications, the kept ones, the
      recovered ones, the recovered domains and the highest acceptance number are
      the same for the sorted list and for the list in file order. */
  lemma LoadOrderIsImmaterial(p: seq<PublicationRecord>, q: seq<PublicationRecord>)
    requires SortedFrom(p, q)
    ensures NewestOf(p) == NewestOf(q) && KeptPublications(p) == KeptPublications(q)
    ensures RecoveredPublications(p) == RecoveredPublications(q)
    ensures forall d :: d in RecoveredDomains(p) <==> d in RecoveredDomains(q)
    ensures HighestAcceptance(p) == HighestAcceptance(q)
  {
    hide NewestOf, RecoveredPublications, RecoveredDomains, HighestAcceptance, SortedFrom, InDomainOrder;
    forall d
      ensures d in NewestOf(p) <==> d in NewestOf(q)
      ensures d in NewestOf(p) ==> NewestOf(p)[d] == NewestOf(q)[d]
      ensures d in RecoveredPublications(p) <==> d in RecoveredPublications(q)
      ensures d in RecoveredPublications(p) ==> RecoveredPublications(p)[d] == RecoveredPublications(q)[d]
    {
      SameNewest(p, q, d);
    }
    assert NewestOf(p) == NewestOf(q);
    assert RecoveredPublications(p) == RecoveredPublications(q);
    forall r ensures r in p <==> r in q { SameRecords(p, q, r); }
    HighestAcceptanceIs(p);
    HighestAcceptanceIs(q);
  }
}
