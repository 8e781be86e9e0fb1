/** Sets of sources as the site keeps them: sorted vectors with a bound. */
module SourceSets {
  import opened Model
  import opened Order

  // ----- The order of sources -----------------------------------------------

  /** By domain, then generation, then digest. */
  predicate Below(a: SourceRef, b: SourceRef) {
    if a.domain != b.domain then Less(DomainText(a.domain), DomainText(b.domain))
    else if a.generation != b.generation then a.generation < b.generation
    else Less(a.digest, b.digest)
  }

  lemma BelowIsTotal(a: SourceRef, b: SourceRef)
    ensures Below(a, b) ==> !Below(b, a) && a != b
    ensures Below(a, b) || Below(b, a) || a == b
  {
    KeysAreInjective();
    if Below(a, b) {
      if a.domain != b.domain { LessAsymmetric(DomainText(a.domain), DomainText(b.domain)); }
      else if a.generation == b.generation { LessAsymmetric(a.digest, b.digest); }
    }
    LessTotal(DomainText(a.domain), DomainText(b.domain));
    LessTotal(a.digest, b.digest);
    if DomainText(a.domain) == DomainText(b.domain) { assert a.domain == b.domain; }
    hide Less, DomainText;
  }

  lemma BelowIsTransitive(a: SourceRef, b: SourceRef, c: SourceRef)
    requires Below(a, b) && Below(b, c)
    ensures Below(a, c)
  {
    KeysAreInjective();
    if a.domain != b.domain && b.domain != c.domain {
      LessTransitive(DomainText(a.domain), DomainText(b.domain), DomainText(c.domain));
      if a.domain == c.domain { LessAsymmetric(DomainText(a.domain), DomainText(b.domain)); }
    } else if a.domain == b.domain == c.domain && a.generation == b.generation == c.generation {
      LessTransitive(a.digest, b.digest, c.digest);
    }
    hide Less, DomainText;
  }

  ghost predicate Ascending(s: seq<SourceRef>) {
    forall i, j | 0 <= i < j < |s| :: Below(s[i], s[j])
  }

  function Elements(s: seq<SourceRef>): set<SourceRef> { set x | x in s }

  /** A set of sources has one vector: equal contents are identical vectors. */
  lemma {:induction false} SameContentsSameVector(a: seq<SourceRef>, b: seq<SourceRef>)
    requires Ascending(a) && Ascending(b) && Elements(a) == Elements(b)
    ensures a == b
  {
    EmptyIff(a);
    EmptyIff(b);
    if a != [] && b != [] {
      SameFirst(a, b);
      RestOf(a);
      RestOf(b);
      SameContentsSameVector(a[1..], b[1..]);
      assert a == [a[0]] + a[1..] && b == [b[0]] + b[1..];
    }
  }

  lemma EmptyIff(a: seq<SourceRef>)
    ensures Elements(a) == {} <==> a == []
  {
    if a != [] { assert a[0] in Elements(a); }
  }

  lemma SameFirst(a: seq<SourceRef>, b: seq<SourceRef>)
    requires a != [] && b != [] && Ascending(a) && Ascending(b) && Elements(a) == Elements(b)
    ensures a[0] == b[0]
  {
    hide Below;
    assert a[0] in Elements(b) && b[0] in Elements(a);
    var i :| 0 <= i < |b| && b[i] == a[0];
    var j :| 0 <= j < |a| && a[j] == b[0];
    BelowIsTotal(a[0], b[0]);
  }

  lemma RestOf(a: seq<SourceRef>)
    requires a != [] && Ascending(a)
    ensures Ascending(a[1..]) && Elements(a[1..]) == Elements(a) - {a[0]}
  {
    hide Below;
    forall x ensures x in Elements(a[1..]) <==> x in Elements(a) - {a[0]} {
      if x in a[1..] {
        var i :| 0 <= i < |a[1..]| && a[1..][i] == x;
        assert a[i + 1] == x;
        BelowIsTotal(a[0], x);
      }
      if x in a && x != a[0] {
        var i :| 0 <= i < |a| && a[i] == x;
        assert a[1..][i - 1] == x;
      }
    }
  }

  lemma {:induction false} AsMany(a: seq<SourceRef>)
    requires Ascending(a)
    ensures |Elements(a)| == |a|
  {
    hide Below;
    if a == [] {
      assert Elements(a) == {};
    } else {
      RestOf(a);
      AsMany(a[1..]);
      assert a[0] in Elements(a);
    }
  }

  // ----- What is kept -------------------------------------------------------

  /** A full set drops what it does not have. */
  function Inserting(s: set<SourceRef>, x: SourceRef): set<SourceRef> {
    if |s| >= MAX_DECISION_SOURCES then s else s + {x}
  }

  function KeptOf(xs: seq<SourceRef>): (s: set<SourceRef>)
    ensures |s| <= MAX_DECISION_SOURCES && s <= Elements(xs)
  {
    if xs == [] then {} else Inserting(KeptOf(xs[..|xs| - 1]), xs[|xs| - 1])
  }

  /** What does not fit is what is missing: everything is kept when there is room. */
  lemma {:induction false} KeptIff(xs: seq<SourceRef>)
    ensures KeptOf(xs) == Elements(xs) <==> |Elements(xs)| <= MAX_DECISION_SOURCES
    ensures KeptOf(xs) != Elements(xs) ==> |KeptOf(xs)| == MAX_DECISION_SOURCES
  {
    if xs != [] {
      var front, x := xs[..|xs| - 1], xs[|xs| - 1];
      assert xs == front + [x];
      assert Elements(xs) == Elements(front) + {x};
      KeptIff(front);
      if KeptOf(front) != Elements(front) || x in Elements(front) {
        SubsetSize(KeptOf(xs), Elements(xs));
        SubsetSize(Elements(front), Elements(xs));
      }
      if KeptOf(xs) != Elements(xs) {
        var y :| y in Elements(xs) && y !in KeptOf(xs);
        SmallerSet(KeptOf(xs), Elements(xs), y);
      }
    }
  }

  /** The order of insertion is irrelevant exactly when everything fits. */
  lemma InsertionOrderIrrelevantIff(xs: seq<SourceRef>)
    ensures |Elements(xs)| <= MAX_DECISION_SOURCES <==>
      forall ys | Elements(ys) == Elements(xs) :: KeptOf(ys) == KeptOf(xs)
  {
    hide KeptOf;
    KeptIff(xs);
    if |Elements(xs)| <= MAX_DECISION_SOURCES {
      forall ys | Elements(ys) == Elements(xs) ensures KeptOf(ys) == KeptOf(xs) { KeptIff(ys); }
    } else {
      var r :| r in Elements(xs) && r !in KeptOf(xs);
      var ys := [r] + xs;
      assert Elements(ys) == Elements(xs);
      FirstIsKept(r, xs);
    }
  }

  lemma {:induction false} FirstIsKept(r: SourceRef, xs: seq<SourceRef>)
    ensures r in KeptOf([r] + xs)
  {
    var ys := [r] + xs;
    if xs == [] {
      assert ys[..0] == [];
      assert KeptOf(ys) == Inserting(KeptOf([]), r);
    } else {
      assert ys[..|ys| - 1] == [r] + xs[..|xs| - 1];
      FirstIsKept(r, xs[..|xs| - 1]);
    }
  }

  // ----- The vector ---------------------------------------------------------

  function Placed(items: seq<SourceRef>, x: SourceRef): seq<SourceRef> {
    if items == [] || Below(items[|items| - 1], x) then items + [x]
    else Placed(items[..|items| - 1], x) + [items[|items| - 1]]
  }

  /** The vector after one more source: unchanged when it is there or there is no
      room. */
  function Taking(items: seq<SourceRef>, x: SourceRef): seq<SourceRef> {
    if x in items || |items| >= MAX_DECISION_SOURCES then items else Placed(items, x)
  }

  function VectorOf(xs: seq<SourceRef>): seq<SourceRef> {
    if xs == [] then [] else Taking(VectorOf(xs[..|xs| - 1]), xs[|xs| - 1])
  }

  lemma VectorOfMore(xs: seq<SourceRef>, x: SourceRef)
    ensures VectorOf(xs + [x]) == Taking(VectorOf(xs), x)
  {
    hide Taking;
    assert (xs + [x])[..|xs|] == xs;
  }

  lemma {:induction false} PlacedIsAscending(items: seq<SourceRef>, x: SourceRef)
    requires Ascending(items) && x !in items
    ensures Ascending(Placed(items, x)) && Elements(Placed(items, x)) == Elements(items) + {x}
  {
    hide Below;
    if items != [] {
      var front, last := items[..|items| - 1], items[|items| - 1];
      assert items == front + [last];
      if Below(last, x) {
        forall i | 0 <= i < |front| ensures Below(front[i], x) { BelowIsTransitive(items[i], last, x); }
      } else {
        PlacedIsAscending(front, x);
        BelowIsTotal(last, x);
        var placed := Placed(front, x);
        forall i | 0 <= i < |placed| ensures Below(placed[i], last) {
          assert placed[i] in Elements(placed);
          if placed[i] != x {
            var j :| 0 <= j < |front| && front[j] == placed[i];
            assert Below(items[j], items[|items| - 1]);
          }
        }
      }
    }
  }

  lemma TakingIsInserting(items: seq<SourceRef>, x: SourceRef)
    requires Ascending(items) && |items| <= MAX_DECISION_SOURCES
    ensures Ascending(Taking(items, x)) && |Taking(items, x)| <= MAX_DECISION_SOURCES
    ensures Elements(Taking(items, x)) == Inserting(Elements(items), x)
  {
    hide Below, Ascending, Placed;
    AsMany(items);
    if x !in items && |items| < MAX_DECISION_SOURCES {
      PlacedIsAscending(items, x);
      AsMany(Placed(items, x));
    } else if x in items {
      assert Elements(items) + {x} == Elements(items);
    }
  }

  lemma {:induction false} VectorHolds(xs: seq<SourceRef>)
    ensures Ascending(VectorOf(xs)) && |VectorOf(xs)| <= MAX_DECISION_SOURCES && Elements(VectorOf(xs)) == KeptOf(xs)
  {
    hide Below, Ascending, Taking, Inserting;
    if xs == [] {
      NothingAscends();
    } else {
      VectorHolds(xs[..|xs| - 1]);
      TakingIsInserting(VectorOf(xs[..|xs| - 1]), xs[|xs| - 1]);
    }
  }

  lemma NothingAscends()
    ensures Ascending([])
  {
  }

  /** Sources read one after another are the vector they make exactly when they are
      strictly ascending and fit. */
  lemma VectorIsItselfIff(xs: seq<SourceRef>)
    ensures VectorOf(xs) == xs <==> Ascending(xs) && |xs| <= MAX_DECISION_SOURCES
  {
    hide Below, Ascending, VectorOf;
    VectorHolds(xs);
    if Ascending(xs) && |xs| <= MAX_DECISION_SOURCES {
      AsMany(xs);
      KeptIff(xs);
      SameContentsSameVector(VectorOf(xs), xs);
    }
  }

  /** No longer than what was inserted. */
  lemma {:induction false} VectorIsNoLonger(xs: seq<SourceRef>)
    ensures |VectorOf(xs)| <= |xs| && forall x | x in VectorOf(xs) :: x in xs
  {
    hide Below;
    if xs != [] {
      var front, x := xs[..|xs| - 1], xs[|xs| - 1];
      assert xs == front + [x];
      VectorIsNoLonger(front);
      PlacedAdds(VectorOf(front), x);
    }
  }

  lemma {:induction false} PlacedAdds(items: seq<SourceRef>, x: SourceRef)
    ensures |Placed(items, x)| == |items| + 1 && forall y | y in Placed(items, x) :: y in items || y == x
  {
    if items != [] { PlacedAdds(items[..|items| - 1], x); }
  }

  // ----- The class ----------------------------------------------------------

  class SourceSet {
    var items: seq<SourceRef>
    var truncated: bool
    var dropped: nat

    ghost predicate Valid()
      reads this
    {
      Ascending(items) && |items| <= MAX_DECISION_SOURCES && (truncated <==> dropped > 0)
    }

    ghost function Contents(): set<SourceRef>
      reads this
    {
      Elements(items)
    }

    constructor ()
      ensures Valid() && items == [] && dropped == 0
    {
      items, truncated, dropped := [], false, 0;
    }

    /** The first position whose source is not below `x`, by halving. */
    method LowerBound(x: SourceRef) returns (position: nat)
      requires Valid()
      ensures position <= |items|
      ensures forall i | 0 <= i < position :: Below(items[i], x)
      ensures forall i | position <= i < |items| :: !Below(items[i], x)
    {
      hide Below;
      position := 0;
      var high := |items|;
      while position < high
        invariant position <= high <= |items|
        invariant forall i | 0 <= i < position :: Below(items[i], x)
        invariant forall i | high <= i < |items| :: !Below(items[i], x)
      {
        var middle := (position + high) / 2;
        if Below(items[middle], x) {
          forall i | 0 <= i < middle ensures Below(items[i], x) { BelowIsTransitive(items[i], items[middle], x); }
          position := middle + 1;
        } else {
          forall i | middle < i < |items| ensures !Below(items[i], x) {
            if Below(items[i], x) { BelowIsTransitive(items[middle], items[i], x); }
          }
          high := middle;
        }
      }
    }

    method Contains(x: SourceRef) returns (found: bool)
      requires Valid()
      ensures found <==> x in Contents()
    {
      hide Below;
      var position := LowerBound(x);
      found := position < |items| && items[position] == x;
      FoundAt(items, x, position);
    }

    method Insert(x: SourceRef)
      requires Valid()
      modifies this
      ensures Valid()
      ensures Contents() == Inserting(old(Contents()), x) && items == Taking(old(items), x)
      ensures dropped == old(dropped) + (if x in Contents() then 0 else 1)
    {
      hide Below, Ascending, Elements, Taking;
      var position := LowerBound(x);
      FoundAt(items, x, position);
      TakenInPlace(items, x, position);
      AsMany(items);
      if position < |items| && items[position] == x {
        assert Contents() == Inserting(Contents(), x);
        return;
      }
      if |items| >= MAX_DECISION_SOURCES {
        truncated, dropped := true, dropped + 1;
        return;
      }
      PutInPlace(items, x, position);
      items := items[..position] + [x] + items[position..];
    }

    /** Inserts every source of another set, and takes over what that one dropped. */
    method InsertAll(other: SourceSet)
      requires Valid() && other.Valid() && other != this
      modifies this
      ensures Valid()
      ensures old(Contents()) <= Contents() <= old(Contents()) + other.Contents()
      ensures |old(Contents()) + other.Contents()| <= MAX_DECISION_SOURCES ==>
        Contents() == old(Contents()) + other.Contents() && dropped == old(dropped) + other.dropped
    {
      hide Below, Ascending, Elements, Inserting, Took;
      ghost var start, theirs, was := Contents(), other.Contents(), dropped;
      var n := 0;
      TookNothing(start, theirs, other.items);
      while n < |other.items|
        invariant n <= |other.items| && Valid()
        invariant Took(start, theirs, Elements(other.items[..n]), Contents())
        invariant |start + theirs| <= MAX_DECISION_SOURCES ==> dropped == was
      {
        TookMore(start, theirs, other.items, n, Contents());
        Insert(other.items[n]);
        n := n + 1;
      }
      assert other.items[..n] == other.items;
      TookAll(start, theirs, Contents());
      if other.truncated {
        truncated, dropped := true, dropped + other.dropped;
      }
    }

    method ContainsDomain(key: MemberDomainKey) returns (found: bool)
      ensures found <==> exists x :: x in Contents() && x.domain == key
    {
      for n := 0 to |items|
        invariant forall i | 0 <= i < n :: items[i].domain != key
      {
        if items[n].domain == key {
          assert items[n] in Contents();
          return true;
        }
      }
      return false;
    }

    method IntersectsDifference(other: SourceSet) returns (found: bool)
      requires other.Valid()
      ensures found <==> !(Contents() <= other.Contents())
    {
      for n := 0 to |items|
        invariant forall i | 0 <= i < n :: items[i] in other.Contents()
      {
        var there := other.Contains(items[n]);
        if !there {
          assert items[n] in Contents();
          return true;
        }
      }
      return false;
    }
  }

  /** What a set holds after it took some of another set's sources. */
  ghost predicate Took(start: set<SourceRef>, theirs: set<SourceRef>, taken: set<SourceRef>, now: set<SourceRef>) {
    && start <= now <= start + taken && taken <= theirs
    && (|start + theirs| <= MAX_DECISION_SOURCES ==> now == start + taken)
  }

  lemma TookNothing(start: set<SourceRef>, theirs: set<SourceRef>, items: seq<SourceRef>)
    ensures Took(start, theirs, Elements(items[..0]), start)
  {
  }

  lemma TookMore(start: set<SourceRef>, theirs: set<SourceRef>, items: seq<SourceRef>, n: nat, now: set<SourceRef>)
    requires n < |items| && theirs == Elements(items) && Took(start, theirs, Elements(items[..n]), now)
    ensures Took(start, theirs, Elements(items[..n + 1]), Inserting(now, items[n]))
    ensures |start + theirs| <= MAX_DECISION_SOURCES ==> items[n] in Inserting(now, items[n])
  {
    var x := items[n];
    assert items[..n + 1] == items[..n] + [x];
    assert Elements(items[..n + 1]) == Elements(items[..n]) + {x};
    if |start + theirs| <= MAX_DECISION_SOURCES && x !in now {
      SmallerSet(now, start + theirs, x);
    }
  }

  lemma TookAll(start: set<SourceRef>, theirs: set<SourceRef>, now: set<SourceRef>)
    requires Took(start, theirs, theirs, now)
    ensures start <= now <= start + theirs && (|start + theirs| <= MAX_DECISION_SOURCES ==> now == start + theirs)
  {
  }

  lemma FoundAt(items: seq<SourceRef>, x: SourceRef, position: nat)
    requires Ascending(items) && position <= |items|
    requires forall i | 0 <= i < position :: Below(items[i], x)
    requires forall i | position <= i < |items| :: !Below(items[i], x)
    ensures x in Elements(items) <==> position < |items| && items[position] == x
  {
    hide Below;
    if x in items {
      var i :| 0 <= i < |items| && items[i] == x;
      if i < position { BelowIsTotal(items[i], x); }
    }
  }

  lemma TakenInPlace(items: seq<SourceRef>, x: SourceRef, position: nat)
    requires Ascending(items) && position <= |items|
    requires forall i | 0 <= i < position :: Below(items[i], x)
    requires forall i | position <= i < |items| :: !Below(items[i], x)
    ensures Taking(items, x) == if (position < |items| && items[position] == x) || |items| >= MAX_DECISION_SOURCES then items
                                else items[..position] + [x] + items[position..]
  {
    hide Below, Ascending, Placed;
    FoundAt(items, x, position);
    if x !in items {
      PutInPlace(items, x, position);
      PlacedIsAscending(items, x);
      SameContentsSameVector(Placed(items, x), items[..position] + [x] + items[position..]);
    }
  }

  lemma PutInPlace(items: seq<SourceRef>, x: SourceRef, position: nat)
    requires Ascending(items) && position <= |items| && x !in Elements(items)
    requires forall i | 0 <= i < position :: Below(items[i], x)
    requires forall i | position <= i < |items| :: !Below(items[i], x)
    ensures var more := items[..position] + [x] + items[position..];
            Ascending(more) && Elements(more) == Elements(items) + {x}
  {
    hide Below;
    var more := items[..position] + [x] + items[position..];
    forall i | position <= i < |items| ensures Below(x, items[i]) {
      assert items[i] in Elements(items);
      BelowIsTotal(x, items[i]);
    }
    forall i, j | 0 <= i < j < |more| ensures Below(more[i], more[j]) {
      if i < position < j { BelowIsTransitive(items[i], x, items[j - 1]); }
    }
    forall y ensures y in more <==> y in items || y == x {
      if y in items {
        assert items == items[..position] + items[position..];
      }
    }
  }
}

/** Every set of sources that a composition makes fits the bound. */
module SourceBounds {
  import opened Model
  import opened Order
  import opened Admission
  import opened Attribution
  import opened Decisions
  import opened Compose

  /** No composition ever drops a source: every decision has room for its own. */
  lemma NoSourceIsDropped(env: Env, input: CompositionInput)
    requires Readable(env, input) && ComposeSite(env, input).Success?
    ensures var site := ComposeSite(env, input).value;
            && (forall d | d in site.decisions :: |d.sources| <= MAX_DECISION_SOURCES)
            && (forall k | k in site.ownership :: |site.ownership[k].attestors| <= MAX_DECISION_SOURCES)
            && |AllSources(site.decisions)| <= MAX_DECISION_SOURCES
  {
    hide *;
    var e := PreparedFor(env, input);
    ProvenanceIsAdmitted(env, input);
    var site := ComposeSite(env, input).value;
    var admissions := AdmissionsFor(env, input, e);
    FewAdmitted(env, input, e);
    forall d | d in site.decisions ensures |d.sources| <= MAX_DECISION_SOURCES {
      InWithin(site.decisions, AdmittedSources(admissions), d);
      SubsetSize(d.sources, AdmittedSources(admissions));
    }
    forall k | k in site.ownership ensures |site.ownership[k].attestors| <= MAX_DECISION_SOURCES {
      SubsetSize(site.ownership[k].attestors, AdmittedSources(admissions));
    }
    AllWithin(site.decisions, AdmittedSources(admissions));
    SubsetSize(AllSources(site.decisions), AdmittedSources(admissions));
  }

  lemma FewAdmissions(env: Env, input: CompositionInput, e: SiteExpectation)
    requires |input.publications| <= MAX_MEMBER_DOMAINS
    ensures |AdmissionsFor(env, input, e)| <= MAX_MEMBER_DOMAINS
  {
    var admissions := AdmissionsFor(env, input, e);
    FewSelected(input.publications);
    assert |admissions| == |admissions.Keys| && |Best(input.publications)| == |Best(input.publications).Keys|;
  }

  lemma FewAdmitted(env: Env, input: CompositionInput, e: SiteExpectation)
    requires |input.publications| <= MAX_MEMBER_DOMAINS
    ensures |AdmittedSources(AdmissionsFor(env, input, e))| <= MAX_DECISION_SOURCES
  {
    hide Admit, AdmissionsFor;
    FewAdmissions(env, input, e);
    FewSources(AdmissionsFor(env, input, e));
  }

  lemma {:induction false} FewSelected(publications: seq<PublicationRecord>)
    ensures |Best(publications)| <= |publications|
  {
    if publications != [] {
      var front, r := publications[..|publications| - 1], publications[|publications| - 1];
      FewSelected(front);
      assert Consider(Best(front), r).Keys <= Best(front).Keys + {r.domain};
      SubsetSize(Consider(Best(front), r).Keys, Best(front).Keys + {r.domain});
    }
  }

  lemma InWithin(decisions: seq<Decision>, s: set<SourceRef>, d: Decision)
    requires Within(decisions, s) && d in decisions
    ensures d.sources <= s
  {
  }

  lemma AllWithin(decisions: seq<Decision>, s: set<SourceRef>)
    requires Within(decisions, s)
    ensures AllSources(decisions) <= s
  {
    hide AllSources, Within;
    forall x | x in AllSources(decisions) ensures x in s {
      AllSourcesAt(decisions, x);
      var d :| d in decisions && x in d.sources;
      InWithin(decisions, s, d);
    }
  }
}
