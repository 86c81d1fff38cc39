/**
 Stable sorting by a total preorder, and the lexicographic orders the digests sort by.

 The source sorts with the standard library; what is needed of it is that a sort is a stable
 permutation, hence determined by its input up to the order of what the key tells apart.
 */
module Sorting {
  /** A total preorder: everything is comparable. */
  ghost predicate Preorder<T(!new)>(leq: (T, T) -> bool) {
    && (forall x, y :: leq(x, y) || leq(y, x))
    && (forall x, y, z :: leq(x, y) && leq(y, z) ==> leq(x, z))
  }

  /** A total order: only equal things tie. */
  ghost predicate Order<T(!new)>(leq: (T, T) -> bool) {
    Preorder(leq) && forall x, y :: leq(x, y) && leq(y, x) ==> x == y
  }

  function Insert<T>(leq: (T, T) -> bool, x: T, s: seq<T>): seq<T> {
    if s == [] || leq(x, s[0]) then [x] + s else [s[0]] + Insert(leq, x, s[1..])
  }

  /** `slice::sort_by`: stable, so elements that tie keep their order. */
  function Sort<T>(leq: (T, T) -> bool, s: seq<T>): seq<T> {
    if s == [] then [] else Insert(leq, s[0], Sort(leq, s[1..]))
  }

  ghost predicate Sorted<T>(leq: (T, T) -> bool, s: seq<T>) {
    forall i, j :: 0 <= i < j < |s| ==> leq(s[i], s[j])
  }

  predicate Tie<T>(leq: (T, T) -> bool, x: T, y: T) {
    leq(x, y) && leq(y, x)
  }

  /** The elements that tie with `x`, in order. */
  function Ties<T>(leq: (T, T) -> bool, s: seq<T>, x: T): seq<T> {
    if s == [] then [] else (if Tie(leq, s[0], x) then [s[0]] else []) + Ties(leq, s[1..], x)
  }

  lemma {:induction false} InsertKeeps<T(!new)>(leq: (T, T) -> bool, x: T, s: seq<T>)
    requires Preorder(leq) && Sorted(leq, s)
    ensures Sorted(leq, Insert(leq, x, s)) && multiset(Insert(leq, x, s)) == multiset{x} + multiset(s)
  {
    if s != [] && !leq(x, s[0]) {
      InsertKeeps(leq, x, s[1..]);
      var t := Insert(leq, x, s[1..]);
      assert s == [s[0]] + s[1..];
      InsertAbove(leq, x, s, t);
    } else if s != [] {
      assert forall i :: 0 <= i < |s| ==> leq(x, s[i]);
    }
  }

  lemma InsertAbove<T(!new)>(leq: (T, T) -> bool, x: T, s: seq<T>, t: seq<T>)
    requires Preorder(leq) && Sorted(leq, s) && s != [] && !leq(x, s[0])
    requires multiset(t) == multiset{x} + multiset(s[1..])
    ensures forall i :: 0 <= i < |t| ==> leq(s[0], t[i])
  {
    forall i | 0 <= i < |t| ensures leq(s[0], t[i]) {
      assert t[i] in multiset(t);
    }
  }

  lemma {:induction false} SortKeeps<T(!new)>(leq: (T, T) -> bool, s: seq<T>)
    requires Preorder(leq)
    ensures Sorted(leq, Sort(leq, s)) && multiset(Sort(leq, s)) == multiset(s)
  {
    if s != [] {
      SortKeeps(leq, s[1..]);
      InsertKeeps(leq, s[0], Sort(leq, s[1..]));
      assert s == [s[0]] + s[1..];
    }
  }

  lemma {:induction false} InsertTies<T(!new)>(leq: (T, T) -> bool, x: T, s: seq<T>, y: T)
    requires Preorder(leq)
    ensures Ties(leq, Insert(leq, x, s), y) == Ties(leq, [x] + s, y)
  {
    assert ([x] + s)[1..] == s;
    if s != [] && !leq(x, s[0]) {
      InsertTies(leq, x, s[1..], y);
      assert ([x] + s[1..])[1..] == s[1..];
      assert ([s[0]] + Insert(leq, x, s[1..]))[1..] == Insert(leq, x, s[1..]);
    }
  }

  /** Stability: sorting keeps the order of everything that ties. */
  lemma {:induction false} SortIsStable<T(!new)>(leq: (T, T) -> bool, s: seq<T>, y: T)
    requires Preorder(leq)
    ensures Ties(leq, Sort(leq, s), y) == Ties(leq, s, y)
  {
    if s != [] {
      SortIsStable(leq, s[1..], y);
      InsertTies(leq, s[0], Sort(leq, s[1..]), y);
      assert ([s[0]] + Sort(leq, s[1..]))[1..] == Sort(leq, s[1..]);
    }
  }

  lemma {:induction false} TiesPresent<T>(leq: (T, T) -> bool, s: seq<T>, y: T)
    requires Ties(leq, s, y) != []
    ensures exists i :: 0 <= i < |s| && Tie(leq, s[i], y)
  {
    if !Tie(leq, s[0], y) {
      TiesPresent(leq, s[1..], y);
      var i :| 0 <= i < |s[1..]| && Tie(leq, s[1..][i], y);
      assert Tie(leq, s[i + 1], y);
    }
  }

  lemma HeadIsLeast<T(!new)>(leq: (T, T) -> bool, s: seq<T>, y: T)
    requires Preorder(leq) && Sorted(leq, s) && Ties(leq, s, y) != []
    ensures leq(s[0], y)
  {
    TiesPresent(leq, s, y);
    var i :| 0 <= i < |s| && Tie(leq, s[i], y);
    assert leq(s[0], s[i]);
  }

  /** A sorted sequence is determined by its groups of ties. */
  lemma {:induction false} SortedDetermined<T(!new)>(leq: (T, T) -> bool, a: seq<T>, b: seq<T>)
    requires Preorder(leq) && Sorted(leq, a) && Sorted(leq, b)
    requires forall y :: Ties(leq, a, y) == Ties(leq, b, y)
    ensures a == b
  {
    if a != [] {
      assert Ties(leq, b, a[0]) == Ties(leq, a, a[0]) != [];
      HeadIsLeast(leq, b, a[0]);
      assert b != [];
      assert Ties(leq, a, b[0]) == Ties(leq, b, b[0]) != [];
      HeadIsLeast(leq, a, b[0]);
      assert Tie(leq, b[0], a[0]);
      assert Ties(leq, a, a[0])[0] == a[0] && Ties(leq, b, a[0])[0] == b[0];
      forall y ensures Ties(leq, a[1..], y) == Ties(leq, b[1..], y) {
        assert Ties(leq, a, y) == Ties(leq, b, y);
        TailTies(leq, a, y);
        TailTies(leq, b, y);
      }
      SortedDetermined(leq, a[1..], b[1..]);
      assert a == [a[0]] + a[1..] && b == [b[0]] + b[1..];
    } else {
      assert forall y :: Ties(leq, b, y) == [];
      assert b == [] || Ties(leq, b, b[0]) != [];
    }
  }

  lemma TailTies<T>(leq: (T, T) -> bool, s: seq<T>, y: T)
    requires s != []
    ensures Ties(leq, s[1..], y) == if Tie(leq, s[0], y) then Ties(leq, s, y)[1..] else Ties(leq, s, y)
  {
  }

  /** Every group of ties has the same members in the same order. */
  ghost predicate TiesAgree<T(!new)>(leq: (T, T) -> bool, a: seq<T>, b: seq<T>) {
    forall y :: Ties(leq, a, y) == Ties(leq, b, y)
  }

  lemma SortTiesAgree<T(!new)>(leq: (T, T) -> bool, s: seq<T>)
    requires Preorder(leq)
    ensures TiesAgree(leq, Sort(leq, s), s)
  {
    forall y ensures Ties(leq, Sort(leq, s), y) == Ties(leq, s, y) {
      SortIsStable(leq, s, y);
    }
  }

  /** Two sequences sort to the same one exactly when their ties agree. */
  lemma SortsAgreeExactly<T(!new)>(leq: (T, T) -> bool, a: seq<T>, b: seq<T>)
    requires Preorder(leq)
    ensures Sort(leq, a) == Sort(leq, b) <==> TiesAgree(leq, a, b)
  {
    SortKeeps(leq, a);
    SortKeeps(leq, b);
    SortTiesAgree(leq, a);
    SortTiesAgree(leq, b);
    if TiesAgree(leq, a, b) {
      assert TiesAgree(leq, Sort(leq, a), Sort(leq, b));
      SortedDetermined(leq, Sort(leq, a), Sort(leq, b));
    }
  }

  /** Sorting what is sorted changes nothing. */
  lemma SortIsIdempotent<T(!new)>(leq: (T, T) -> bool, s: seq<T>)
    requires Preorder(leq)
    ensures Sort(leq, Sort(leq, s)) == Sort(leq, s)
  {
    SortTiesAgree(leq, s);
    SortsAgreeExactly(leq, Sort(leq, s), s);
  }

  lemma TailMultiset<T>(s: seq<T>)
    requires s != []
    ensures multiset(s[1..]) == multiset(s) - multiset{s[0]} && s[0] in multiset(s)
  {
    assert s == [s[0]] + s[1..];
  }

  lemma LeastFirst<T(!new)>(leq: (T, T) -> bool, s: seq<T>, x: T)
    requires Preorder(leq) && Sorted(leq, s) && x in multiset(s)
    ensures leq(s[0], x)
  {
    var i :| 0 <= i < |s| && s[i] == x;
  }

  lemma {:induction false} SortedUnique<T(!new)>(leq: (T, T) -> bool, a: seq<T>, b: seq<T>)
    requires Order(leq) && Sorted(leq, a) && Sorted(leq, b) && multiset(a) == multiset(b)
    ensures a == b
  {
    hide Sorted, Order, Preorder;
    assert |a| == |multiset(a)| && |b| == |multiset(b)|;
    if a != [] {
      assert a[0] == b[0] by { SameFirst(leq, a, b); }
      TailMultiset(a);
      TailMultiset(b);
      TailSorted(leq, a);
      TailSorted(leq, b);
      SortedUnique(leq, a[1..], b[1..]);
      assert a == [a[0]] + a[1..] && b == [b[0]] + b[1..];
    }
  }

  lemma TailSorted<T>(leq: (T, T) -> bool, s: seq<T>)
    requires Sorted(leq, s) && s != []
    ensures Sorted(leq, s[1..])
  {
  }

  lemma SameFirst<T(!new)>(leq: (T, T) -> bool, a: seq<T>, b: seq<T>)
    requires Order(leq) && Sorted(leq, a) && Sorted(leq, b) && multiset(a) == multiset(b) && a != [] && b != []
    ensures a[0] == b[0]
  {
    hide Sorted;
    assert a[0] in multiset(a) && b[0] in multiset(b);
    LeastFirst(leq, a, b[0]);
    LeastFirst(leq, b, a[0]);
  }

  /** Under a total order, sorting forgets the order and nothing else. */
  lemma SortForgetsOrder<T(!new)>(leq: (T, T) -> bool, a: seq<T>, b: seq<T>)
    requires Order(leq)
    ensures Sort(leq, a) == Sort(leq, b) <==> multiset(a) == multiset(b)
  {
    SortKeeps(leq, a);
    SortKeeps(leq, b);
    if multiset(a) == multiset(b) { SortedUnique(leq, Sort(leq, a), Sort(leq, b)); }
  }

  // Mapping.

  function Map<S, T>(f: S -> T, s: seq<S>): seq<T> {
    seq(|s|, i requires 0 <= i < |s| => f(s[i]))
  }

  lemma MapCut<S, T>(f: S -> T, s: seq<S>, i: nat)
    requires i < |s|
    ensures Map(f, s) == Map(f, s[..i]) + [f(s[i])] + Map(f, s[i + 1..])
    ensures multiset(Map(f, s)) == multiset{f(s[i])} + multiset(Map(f, s[..i] + s[i + 1..]))
  {
    assert Map(f, s[..i] + s[i + 1..]) == Map(f, s[..i]) + Map(f, s[i + 1..]);
  }

  lemma CutMultiset<T>(s: seq<T>, i: nat)
    requires i < |s|
    ensures multiset(s[..i] + s[i + 1..]) == multiset(s) - multiset{s[i]}
  {
    assert s == s[..i] + [s[i]] + s[i + 1..];
  }

  lemma {:induction false} MapKeepsMultiset<S, T>(f: S -> T, a: seq<S>, b: seq<S>)
    requires multiset(a) == multiset(b)
    ensures multiset(Map(f, a)) == multiset(Map(f, b))
    decreases |a|, 1
  {
    hide Map;
    assert |a| == |multiset(a)| && |b| == |multiset(b)|;
    if a != [] {
      TailMultiset(a);
      var i :| 0 <= i < |b| && b[i] == a[0];
      MapMatched(f, a, b, i);
    } else {
      assert a == b;
    }
  }

  lemma {:induction false} MapMatched<S, T>(f: S -> T, a: seq<S>, b: seq<S>, i: nat)
    requires multiset(a) == multiset(b) && a != [] && i < |b| && b[i] == a[0]
    ensures multiset(Map(f, a)) == multiset(Map(f, b))
    decreases |a|, 0
  {
    hide Map;
    var rest := b[..i] + b[i + 1..];
    CutMultiset(b, i);
    TailMultiset(a);
    MapKeepsMultiset(f, a[1..], rest);
    MapCut(f, a, 0);
    assert a[..0] + a[0 + 1..] == a[1..];
    MapCut(f, b, i);
  }

  // Removing repetitions.

  /** `Vec::dedup`: repeated neighbours are dropped. */
  function Dedup<T(==)>(s: seq<T>): seq<T> {
    if |s| <= 1 then s
    else if s[0] == s[1] then Dedup(s[1..])
    else [s[0]] + Dedup(s[1..])
  }

  ghost predicate Strict<T>(leq: (T, T) -> bool, s: seq<T>) {
    Sorted(leq, s) && forall i, j :: 0 <= i < j < |s| ==> s[i] != s[j]
  }

  lemma {:induction false} DedupStrict<T(!new)>(leq: (T, T) -> bool, s: seq<T>)
    requires Order(leq) && Sorted(leq, s)
    ensures Strict(leq, Dedup(s)) && forall x :: x in Dedup(s) <==> x in s
  {
    if |s| > 1 {
      DedupStrict(leq, s[1..]);
      assert s == [s[0]] + s[1..];
      var t := Dedup(s[1..]);
      forall i | 0 <= i < |t| ensures leq(s[0], t[i]) && (s[0] != s[1] ==> t[i] != s[0]) {
        assert t[i] in s[1..];
        assert leq(s[1], t[i]);
      }
    }
  }

  lemma SomeElement<T>(s: seq<T>)
    ensures s == [] || exists x :: x in s
  {
    if s != [] { assert s[0] in s; }
  }

  lemma {:induction false} StrictUnique<T(!new)>(leq: (T, T) -> bool, a: seq<T>, b: seq<T>)
    requires Order(leq) && Strict(leq, a) && Strict(leq, b) && forall x :: x in a <==> x in b
    ensures a == b
  {
    if a == [] {
      SomeElement(b);
    } else {
      assert a[0] in b;
      assert b[0] in a;
      assert leq(a[0], b[0]) && leq(b[0], a[0]);
      forall x ensures x in a[1..] <==> x in b[1..] {
        assert x in a <==> x == a[0] || x in a[1..];
        assert x in b <==> x == b[0] || x in b[1..];
        assert a[0] !in a[1..] && b[0] !in b[1..];
      }
      StrictUnique(leq, a[1..], b[1..]);
      assert a == [a[0]] + a[1..] && b == [b[0]] + b[1..];
    }
  }

  /** Comparing sorted lists without repetitions compares the sets of their elements. */
  lemma SortDedupIsSet<T(!new)>(leq: (T, T) -> bool, a: seq<T>, b: seq<T>)
    requires Order(leq)
    ensures Dedup(Sort(leq, a)) == Dedup(Sort(leq, b)) <==> forall x :: x in a <==> x in b
  {
    SortKeeps(leq, a);
    SortKeeps(leq, b);
    assert forall x :: x in a <==> x in multiset(a);
    assert forall x :: x in b <==> x in multiset(b);
    assert forall x :: x in Sort(leq, a) <==> x in multiset(Sort(leq, a));
    assert forall x :: x in Sort(leq, b) <==> x in multiset(Sort(leq, b));
    DedupStrict(leq, Sort(leq, a));
    DedupStrict(leq, Sort(leq, b));
    if forall x :: x in a <==> x in b {
      StrictUnique(leq, Dedup(Sort(leq, a)), Dedup(Sort(leq, b)));
    }
  }

  // Lexicographic orders.

  predicate Lex<T(==)>(leq: (T, T) -> bool, a: seq<T>, b: seq<T>) {
    if a == [] then true
    else if b == [] then false
    else if a[0] == b[0] then Lex(leq, a[1..], b[1..])
    else leq(a[0], b[0])
  }

  lemma {:induction false} LexTotal<T(!new)>(leq: (T, T) -> bool, a: seq<T>, b: seq<T>)
    requires Order(leq)
    ensures Lex(leq, a, b) || Lex(leq, b, a)
    ensures Lex(leq, a, b) && Lex(leq, b, a) ==> a == b
  {
    if a != [] && b != [] && a[0] == b[0] {
      LexTotal(leq, a[1..], b[1..]);
      assert a == [a[0]] + a[1..] && b == [b[0]] + b[1..];
    }
  }

  lemma {:induction false} LexTransitive<T(!new)>(leq: (T, T) -> bool, a: seq<T>, b: seq<T>, c: seq<T>)
    requires Order(leq) && Lex(leq, a, b) && Lex(leq, b, c)
    ensures Lex(leq, a, c)
  {
    if a != [] && b != [] && c != [] && a[0] == b[0] == c[0] {
      LexTransitive(leq, a[1..], b[1..], c[1..]);
    }
  }

  predicate CharLeq(c: char, d: char) {
    c <= d
  }

  /** Strings by their bytes. */
  predicate TextLeq(a: string, b: string) {
    Lex(CharLeq, a, b)
  }

  /** Paths by their components. */
  predicate PathLeq(a: seq<string>, b: seq<string>) {
    Lex(TextLeq, a, b)
  }

  lemma TextOrder()
    ensures Order(TextLeq)
  {
    forall a, b ensures (TextLeq(a, b) || TextLeq(b, a)) && (TextLeq(a, b) && TextLeq(b, a) ==> a == b) {
      LexTotal(CharLeq, a, b);
    }
    forall a, b, c | TextLeq(a, b) && TextLeq(b, c) ensures TextLeq(a, c) {
      LexTransitive(CharLeq, a, b, c);
    }
  }

  lemma PathOrder()
    ensures Order(PathLeq)
  {
    hide TextLeq;
    TextOrder();
    forall a, b ensures (PathLeq(a, b) || PathLeq(b, a)) && (PathLeq(a, b) && PathLeq(b, a) ==> a == b) {
      LexTotal(TextLeq, a, b);
    }
    forall a, b, c | PathLeq(a, b) && PathLeq(b, c) ensures PathLeq(a, c) {
      LexTransitive(TextLeq, a, b, c);
    }
  }
}
