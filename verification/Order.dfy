/** Byte-wise ordering, and the two sorts the site uses: "sort and drop exact
    duplicates" (which depends only on the set of elements) and the stable sort
    of a list by a key. */
module Order {
  import opened Model

  /** The `<` of two byte strings. */
  predicate Less(a: Text, b: Text) {
    if b == [] then false
    else if a == [] then true
    else if a[0] != b[0] then a[0] < b[0]
    else Less(a[1..], b[1..])
  }

  lemma {:induction false} LessAsymmetric(a: Text, b: Text)
    requires Less(a, b)
    ensures !Less(b, a) && a != b
  {
    if a != [] && a[0] == b[0] {
      LessAsymmetric(a[1..], b[1..]);
    }
  }

  lemma {:induction false} LessTransitive(a: Text, b: Text, c: Text)
    requires Less(a, b) && Less(b, c)
    ensures Less(a, c)
  {
    if a != [] && a[0] == b[0] == c[0] {
      LessTransitive(a[1..], b[1..], c[1..]);
    }
  }

  lemma {:induction false} LessTotal(a: Text, b: Text)
    ensures Less(a, b) || Less(b, a) || a == b
  {
    if a != [] && b != [] && a[0] == b[0] {
      LessTotal(a[1..], b[1..]);
      assert a == [a[0]] + a[1..] && b == [b[0]] + b[1..];
    }
  }

  // ----- Keys as byte strings ----------------------------------------------

  function DomainCode(k: DomainKind): u8 {
    match k
    case UnknownDomain => 0 case ClusterDomain => 1 case PodDomain => 2
    case RackDomain => 3 case SharedDomain => 4
  }

  function ResourceCode(k: ResourceKind): u8 {
    match k
    case UnknownResource => 0 case ClusterKind => 1 case PodKind => 2 case RackKind => 3
    case SharedLinkKind => 4 case GatewayKind => 5 case CapacityPoolKind => 6
    case FailureDomainKind => 7 case MaintenanceZoneKind => 8 case ObligationKindOfResource => 9
  }

  /** A key ordered first by kind and then by id is its kind followed by its id. */
  function DomainText(k: MemberDomainKey): Text { [DomainCode(k.kind)] + k.id }

  function ResourceText(k: ResourceKey): Text { [ResourceCode(k.kind)] + k.id }

  function Identity(t: Text): Text { t }

  ghost predicate Injective<K(!new)>(text: K -> Text) {
    forall x, y :: text(x) == text(y) ==> x == y
  }

  lemma KeysAreInjective()
    ensures Injective(DomainText) && Injective(ResourceText) && Injective(Identity)
  {
    forall x, y | DomainText(x) == DomainText(y) ensures x == y {
      assert x.id == DomainText(x)[1..] && y.id == DomainText(y)[1..];
      assert DomainText(x)[0] == DomainText(y)[0];
    }
    forall x, y | ResourceText(x) == ResourceText(y) ensures x == y {
      assert x.id == ResourceText(x)[1..] && y.id == ResourceText(y)[1..];
      assert ResourceText(x)[0] == ResourceText(y)[0];
    }
  }

  // ----- Sort and drop duplicates ------------------------------------------

  ghost predicate StrictlySorted<K>(s: seq<K>, text: K -> Text) {
    forall i, j | 0 <= i < j < |s| :: Less(text(s[i]), text(s[j]))
  }

  predicate IsLeast<K>(m: K, s: set<K>, text: K -> Text) {
    m in s && forall x | x in s :: x == m || Less(text(m), text(x))
  }

  lemma {:induction false} LeastExists<K(!new)>(s: set<K>, text: K -> Text)
    requires s != {} && Injective(text)
    ensures exists m :: IsLeast(m, s, text)
  {
    var x :| x in s;
    if s == {x} {
      assert IsLeast(x, s, text);
    } else {
      var rest := s - {x};
      assert s == {x} + rest;
      LeastExists(rest, text);
      var m :| IsLeast(m, rest, text);
      LessTotal(text(x), text(m));
      if Less(text(x), text(m)) {
        forall y | y in s ensures y == x || Less(text(x), text(y)) {
          if y != x && y != m { LessTransitive(text(x), text(m), text(y)); }
        }
        assert IsLeast(x, s, text);
      } else {
        assert IsLeast(m, s, text);
      }
    }
  }

  function Least<K(!new)>(s: set<K>, text: K -> Text): (m: K)
    requires s != {} && Injective(text)
    ensures IsLeast(m, s, text)
  {
    LeastExists(s, text);
    assert forall a, b | IsLeast(a, s, text) && IsLeast(b, s, text) :: a == b by {
      forall a, b | IsLeast(a, s, text) && IsLeast(b, s, text) ensures a == b {
        if a != b { LessAsymmetric(text(a), text(b)); }
      }
    }
    var m :| IsLeast(m, s, text);
    m
  }

  /** The elements of a set in key order: what `std::sort` followed by
      `std::unique` leaves, and the order in which a `std::map` is visited. */
  function Sorted<K(!new)>(s: set<K>, text: K -> Text): (r: seq<K>)
    requires Injective(text)
    ensures |r| == |s|
    ensures forall x :: x in r <==> x in s
    ensures StrictlySorted(r, text)
  {
    if s == {} then []
    else
      var m := Least(s, text);
      var rest := Sorted(s - {m}, text);
      assert s == {m} + (s - {m});
      [m] + rest
  }

  lemma SortedHasNoRepeats<K(!new)>(r: seq<K>, text: K -> Text)
    requires StrictlySorted(r, text)
    ensures forall i, j | 0 <= i < j < |r| :: r[i] != r[j]
  {
    forall i, j | 0 <= i < j < |r| ensures r[i] != r[j] {
      LessAsymmetric(text(r[i]), text(r[j]));
    }
  }

  /** There is only one way to list a set in strict key order. */
  lemma {:induction false} SortedIsUnique<K(!new)>(r: seq<K>, s: set<K>, text: K -> Text)
    requires Injective(text) && StrictlySorted(r, text)
    requires s == set x | x in r
    ensures r == Sorted(s, text)
  {
    if r != [] {
      var m, rest := r[0], r[1..];
      assert r == [m] + rest;
      SortedHasNoRepeats(r, text);
      FirstIsLeast(r, s, text);
      var least := Least(s, text);
      if least != m { LessAsymmetric(text(m), text(least)); }
      assert s - {m} == set x | x in rest;
      SortedIsUnique(rest, s - {m}, text);
    }
  }

  lemma FirstIsLeast<K(!new)>(r: seq<K>, s: set<K>, text: K -> Text)
    requires r != [] && StrictlySorted(r, text) && s == set x | x in r
    ensures IsLeast(r[0], s, text)
  {
    forall x | x in s ensures x == r[0] || Less(text(r[0]), text(x)) {
      var i :| 0 <= i < |r| && r[i] == x;
    }
  }

  // ----- Stable sort --------------------------------------------------------

  ghost predicate Ordered<T>(s: seq<T>, key: T -> Text) {
    forall i, j | 0 <= i < j < |s| :: !Less(key(s[j]), key(s[i]))
  }

  /** Where a new last element of a stably sorted list goes: after everything
      that is not above it. */
  function InsertLast<T>(s: seq<T>, x: T, key: T -> Text): seq<T> {
    if s == [] || !Less(key(x), key(s[|s| - 1])) then s + [x]
    else InsertLast(s[..|s| - 1], x, key) + [s[|s| - 1]]
  }

  function StableSort<T>(s: seq<T>, key: T -> Text): seq<T> {
    if s == [] then [] else InsertLast(StableSort(s[..|s| - 1], key), s[|s| - 1], key)
  }

  lemma {:induction false} InsertLastSorts<T>(s: seq<T>, x: T, key: T -> Text)
    requires Ordered(s, key)
    ensures Ordered(InsertLast(s, x, key), key)
    ensures multiset(InsertLast(s, x, key)) == multiset(s) + multiset{x}
  {
    var r := InsertLast(s, x, key);
    if s == [] {
    } else if !Less(key(x), key(s[|s| - 1])) {
      forall i | 0 <= i < |s| ensures !Less(key(x), key(s[i])) {
        if Less(key(x), key(s[i])) {
          LessTotal(key(s[i]), key(s[|s| - 1]));
          if Less(key(s[i]), key(s[|s| - 1])) { LessTransitive(key(x), key(s[i]), key(s[|s| - 1])); }
        }
      }
    } else {
      var front, last := s[..|s| - 1], s[|s| - 1];
      assert s == front + [last];
      InsertLastSorts(front, x, key);
      var t := InsertLast(front, x, key);
      forall i | 0 <= i < |t| ensures !Less(key(last), key(t[i])) {
        assert t[i] in multiset(t);
        if t[i] == x {
          LessAsymmetric(key(x), key(last));
        } else {
          assert t[i] in front;
        }
      }
    }
  }

  lemma {:induction false} StableSortSorts<T>(s: seq<T>, key: T -> Text)
    ensures Ordered(StableSort(s, key), key)
    ensures multiset(StableSort(s, key)) == multiset(s)
    ensures |StableSort(s, key)| == |s|
  {
    if s != [] {
      var front := s[..|s| - 1];
      StableSortSorts(front, key);
      InsertLastSorts(StableSort(front, key), s[|s| - 1], key);
      assert s == front + [s[|s| - 1]];
    }
    SameSize(StableSort(s, key), s);
  }

  lemma SameSize<T>(a: seq<T>, b: seq<T>)
    requires multiset(a) == multiset(b)
    ensures |a| == |b|
  {
    assert |multiset(a)| == |a| && |multiset(b)| == |b|;
  }

  lemma SameElements<T>(a: seq<T>, b: seq<T>)
    requires multiset(a) == multiset(b)
    ensures forall x :: x in a <==> x in b
  {
    forall x ensures x in a <==> x in b {
      assert x in a <==> x in multiset(a);
      assert x in b <==> x in multiset(b);
    }
  }

  lemma SmallerSet<T>(a: set<T>, b: set<T>, x: T)
    requires a <= b && x in b && x !in a
    ensures |a| < |b|
  {
    SubsetSize(a + {x}, b);
  }

  lemma {:induction false} SubsetSize<T>(a: set<T>, b: set<T>)
    requires a <= b
    ensures |a| <= |b|
  {
    if a != {} {
      var x :| x in a;
      SubsetSize(a - {x}, b - {x});
    }
  }
}
