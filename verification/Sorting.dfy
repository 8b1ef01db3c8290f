/** Stable sorting by a comparator, as `Array.prototype.sort` and `list.sort` provide it. */
module Sorting {

  /** A comparator that is usable for sorting: total and transitive. */
  ghost predicate TotalPreorder<T(!new)>(le: (T, T) -> bool) {
    && (forall a, b :: le(a, b) || le(b, a))
    && (forall a, b, c :: le(a, b) && le(b, c) ==> le(a, c))
  }

  predicate Tied<T>(le: (T, T) -> bool, a: T, b: T) {
    le(a, b) && le(b, a)
  }

  /** Every element stands in `rel` to every later one. */
  ghost predicate Pairwise<T>(s: seq<T>, rel: (T, T) -> bool) {
    forall i, j :: 0 <= i < j < |s| ==> rel(s[i], s[j])
  }

  ghost predicate Sorted<T>(s: seq<T>, le: (T, T) -> bool) {
    Pairwise(s, le)
  }

  function Filter<T>(s: seq<T>, p: T -> bool): (r: seq<T>)
    ensures forall x :: x in r ==> x in s && p(x)
    ensures |r| <= |s|
  {
    if s == [] then []
    else (if p(s[0]) then [s[0]] else []) + Filter(s[1..], p)
  }

  function Map<A, B>(f: A -> B, s: seq<A>): (r: seq<B>)
    ensures |r| == |s| && forall i :: 0 <= i < |s| ==> r[i] == f(s[i])
  {
    if s == [] then [] else [f(s[0])] + Map(f, s[1..])
  }

  function TiesWith<T>(le: (T, T) -> bool, t: T): T -> bool {
    x => Tied(le, x, t)
  }

  /** The elements of `s` that tie with `t`, in their order in `s`. */
  function TieClass<T>(s: seq<T>, le: (T, T) -> bool, t: T): seq<T> {
    Filter(s, TiesWith(le, t))
  }

  /** What a stable sort promises: the result is ordered, and within every class of ties
      the elements are exactly those of the input in their input order. */
  ghost predicate IsStableSortOf<T(!new)>(r: seq<T>, s: seq<T>, le: (T, T) -> bool) {
    && Sorted(r, le)
    && forall t :: TieClass(r, le, t) == TieClass(s, le, t)
  }

  function Insert<T>(x: T, s: seq<T>, le: (T, T) -> bool): (r: seq<T>) {
    if s == [] || le(x, s[0]) then [x] + s else [s[0]] + Insert(x, s[1..], le)
  }

  function StableSort<T>(s: seq<T>, le: (T, T) -> bool): (r: seq<T>) {
    if s == [] then [] else Insert(s[0], StableSort(s[1..], le), le)
  }

  lemma {:induction false} InsertBag<T>(x: T, s: seq<T>, le: (T, T) -> bool)
    ensures multiset(Insert(x, s, le)) == multiset(s) + multiset{x}
  {
    if s != [] && !le(x, s[0]) {
      InsertBag(x, s[1..], le);
      assert s == [s[0]] + s[1..];
    }
  }

  lemma {:induction false} SortBag<T>(s: seq<T>, le: (T, T) -> bool)
    ensures multiset(StableSort(s, le)) == multiset(s)
  {
    if s != [] {
      SortBag(s[1..], le);
      InsertBag(s[0], StableSort(s[1..], le), le);
      assert s == [s[0]] + s[1..];
    }
  }

  lemma {:induction false} InsertSorted<T(!new)>(x: T, s: seq<T>, le: (T, T) -> bool)
    requires TotalPreorder(le) && Sorted(s, le)
    ensures Sorted(Insert(x, s, le), le)
  {
    if s != [] && !le(x, s[0]) {
      InsertSorted(x, s[1..], le);
      InsertBag(x, s[1..], le);
      var rest := Insert(x, s[1..], le);
      forall j | 0 <= j < |rest| ensures le(s[0], rest[j]) {
        assert rest[j] in multiset(rest);
        assert rest[j] == x || rest[j] in s[1..];
      }
    }
  }

  lemma {:induction false} InsertTies<T(!new)>(x: T, s: seq<T>, le: (T, T) -> bool, t: T)
    requires TotalPreorder(le)
    ensures TieClass(Insert(x, s, le), le, t) == (if Tied(le, x, t) then [x] else []) + TieClass(s, le, t)
  {
    var p := TiesWith(le, t);
    if s == [] || le(x, s[0]) {
      FilterCons(x, s, p);
    } else {
      var first, rest := s[0], s[1..];
      InsertTies(x, rest, le, t);
      NotBothTied(le, x, first, t);
      assert s == [first] + rest;
      FilterCons(first, Insert(x, rest, le), p);
      FilterCons(first, rest, p);
    }
  }

  lemma NotBothTied<T(!new)>(le: (T, T) -> bool, x: T, y: T, t: T)
    requires TotalPreorder(le) && !le(x, y)
    ensures !(Tied(le, x, t) && Tied(le, y, t))
  {
  }

  lemma {:induction false} StableSortIsStable<T(!new)>(s: seq<T>, le: (T, T) -> bool)
    requires TotalPreorder(le)
    ensures IsStableSortOf(StableSort(s, le), s, le)
  {
    if s != [] {
      StableSortIsStable(s[1..], le);
      InsertSorted(s[0], StableSort(s[1..], le), le);
      forall t ensures TieClass(StableSort(s, le), le, t) == TieClass(s, le, t) {
        InsertTies(s[0], StableSort(s[1..], le), le, t);
      }
    }
  }

  /** Two stable sorts of one input agree: the promise above pins the result down, so no
      result below depends on which stable algorithm an engine uses. */
  lemma {:induction false} StableSortUnique<T(!new)>(a: seq<T>, b: seq<T>, le: (T, T) -> bool)
    requires TotalPreorder(le)
    requires Sorted(a, le) && Sorted(b, le)
    requires forall t :: TieClass(a, le, t) == TieClass(b, le, t)
    ensures a == b
  {
    assert a != [] ==> TieClass(a, le, a[0]) != [];
    assert b != [] ==> TieClass(b, le, b[0]) != [];
    if a != [] {
      SameHead(a, b, le);
      forall t ensures TieClass(a[1..], le, t) == TieClass(b[1..], le, t) {
        TieHead(a, le, t);
        TieHead(b, le, t);
        var head := if Tied(le, a[0], t) then [a[0]] else [];
        assert TieClass(a[1..], le, t) == TieClass(a, le, t)[|head|..];
        assert TieClass(b[1..], le, t) == TieClass(b, le, t)[|head|..];
      }
      StableSortUnique(a[1..], b[1..], le);
      assert a == [a[0]] + a[1..] && b == [b[0]] + b[1..];
    }
  }

  lemma TieHead<T>(s: seq<T>, le: (T, T) -> bool, t: T)
    requires s != []
    ensures TieClass(s, le, t) == (if Tied(le, s[0], t) then [s[0]] else []) + TieClass(s[1..], le, t)
  {
  }

  lemma SameHead<T(!new)>(a: seq<T>, b: seq<T>, le: (T, T) -> bool)
    requires TotalPreorder(le)
    requires a != [] && b != []
    requires Sorted(a, le) && Sorted(b, le)
    requires forall t :: TieClass(a, le, t) == TieClass(b, le, t)
    ensures a[0] == b[0]
  {
    assert TieClass(a, le, a[0])[0] == a[0];
    assert a[0] in TieClass(b, le, a[0]);
    assert le(b[0], a[0]);
    assert TieClass(b, le, b[0])[0] == b[0];
    assert b[0] in TieClass(a, le, b[0]);
    assert le(a[0], b[0]);
    assert TieClass(b, le, a[0])[0] == b[0];
  }

  /** Anything that keeps the promise is `StableSort`. */
  lemma StableSortIsTheOnlyOne<T(!new)>(r: seq<T>, s: seq<T>, le: (T, T) -> bool)
    requires TotalPreorder(le) && IsStableSortOf(r, s, le)
    ensures r == StableSort(s, le)
  {
    StableSortIsStable(s, le);
    StableSortUnique(r, StableSort(s, le), le);
  }

  lemma SortMembers<T>(s: seq<T>, le: (T, T) -> bool, x: T)
    ensures x in StableSort(s, le) <==> x in s
  {
    SortBag(s, le);
    assert x in StableSort(s, le) <==> x in multiset(StableSort(s, le));
    assert x in s <==> x in multiset(s);
  }

  lemma {:induction false} InsertPairwise<T(!new)>(x: T, s: seq<T>, le: (T, T) -> bool, rel: (T, T) -> bool)
    requires forall a, b :: rel(a, b) ==> rel(b, a)
    requires Pairwise(s, rel) && forall y :: y in s ==> rel(x, y)
    ensures Pairwise(Insert(x, s, le), rel)
  {
    if s != [] && !le(x, s[0]) {
      InsertPairwise(x, s[1..], le, rel);
      InsertBag(x, s[1..], le);
      var rest := Insert(x, s[1..], le);
      forall j | 0 <= j < |rest| ensures rel(s[0], rest[j]) {
        assert rest[j] in multiset(rest);
        assert rest[j] == x || rest[j] in s[1..];
      }
    }
  }

  /** Sorting keeps what holds between any two elements in either order. */
  lemma {:induction false} SortPairwise<T(!new)>(s: seq<T>, le: (T, T) -> bool, rel: (T, T) -> bool)
    requires forall a, b :: rel(a, b) ==> rel(b, a)
    requires Pairwise(s, rel)
    ensures Pairwise(StableSort(s, le), rel)
  {
    if s != [] {
      SortPairwise(s[1..], le, rel);
      SortBag(s[1..], le);
      var rest := StableSort(s[1..], le);
      forall y | y in rest ensures rel(s[0], y) {
        assert y in multiset(rest);
        assert y in s[1..];
      }
      InsertPairwise(s[0], rest, le, rel);
    }
  }

  // ----- Sorting a part, and sorting an image -----

  lemma FilterCons<T>(x: T, s: seq<T>, p: T -> bool)
    ensures Filter([x] + s, p) == if p(x) then [x] + Filter(s, p) else Filter(s, p)
  {
    assert ([x] + s)[1..] == s;
  }

  lemma InsertCons<T>(x: T, first: T, s: seq<T>, le: (T, T) -> bool)
    ensures Insert(x, [first] + s, le) == if le(x, first) then [x] + ([first] + s) else [first] + Insert(x, s, le)
  {
    assert ([first] + s)[1..] == s;
  }

  lemma {:induction false} FilterInsert<T(!new)>(x: T, s: seq<T>, le: (T, T) -> bool, p: T -> bool)
    requires TotalPreorder(le) && Sorted(s, le)
    ensures Filter(Insert(x, s, le), p) == if p(x) then Insert(x, Filter(s, p), le) else Filter(s, p)
  {
    if s == [] || le(x, s[0]) {
      FilterCons(x, s, p);
      var kept := Filter(s, p);
      assert kept != [] ==> kept[0] in s && le(x, kept[0]);
    } else {
      var first, rest := s[0], s[1..];
      FilterInsert(x, rest, le, p);
      assert s == [first] + rest;
      InsertCons(x, first, rest, le);
      FilterCons(first, Insert(x, rest, le), p);
      FilterCons(first, rest, p);
      InsertCons(x, first, Filter(rest, p), le);
    }
  }

  /** Sorting and then keeping a part is keeping the part and then sorting. */
  lemma {:induction false} FilterSort<T(!new)>(s: seq<T>, le: (T, T) -> bool, p: T -> bool)
    requires TotalPreorder(le)
    ensures Filter(StableSort(s, le), p) == StableSort(Filter(s, p), le)
  {
    if s != [] {
      var rest := Filter(s[1..], p);
      FilterSort(s[1..], le, p);
      StableSortIsStable(s[1..], le);
      FilterInsert(s[0], StableSort(s[1..], le), le, p);
      assert ([s[0]] + rest)[1..] == rest;
      assert Filter(s, p) == if p(s[0]) then [s[0]] + rest else rest;
    }
  }

  lemma {:induction false} MapInsert<A, B>(f: A -> B, x: A, s: seq<A>, le: (A, A) -> bool, le': (B, B) -> bool)
    requires forall y :: y in s ==> (le(x, y) <==> le'(f(x), f(y)))
    ensures Map(f, Insert(x, s, le)) == Insert(f(x), Map(f, s), le')
  {
    if s == [] || le(x, s[0]) {
      assert ([x] + s)[1..] == s;
    } else {
      MapInsert(f, x, s[1..], le, le');
    }
  }

  /** An image that keeps the order may be taken before or after sorting. */
  lemma {:induction false} MapSort<A, B>(f: A -> B, s: seq<A>, le: (A, A) -> bool, le': (B, B) -> bool)
    requires forall x, y :: x in s && y in s ==> (le(x, y) <==> le'(f(x), f(y)))
    ensures Map(f, StableSort(s, le)) == StableSort(Map(f, s), le')
  {
    if s != [] {
      MapSort(f, s[1..], le, le');
      forall y | y in StableSort(s[1..], le) ensures y in s {
        SortMembers(s[1..], le, y);
      }
      MapInsert(f, s[0], StableSort(s[1..], le), le, le');
    }
  }

  lemma {:induction false} MapInsertBag<A, B>(f: A -> B, x: A, s: seq<A>, le: (A, A) -> bool)
    ensures multiset(Map(f, Insert(x, s, le))) == multiset(Map(f, s)) + multiset{f(x)}
  {
    if s == [] || le(x, s[0]) {
      assert ([x] + s)[1..] == s;
    } else {
      MapInsertBag(f, x, s[1..], le);
      assert ([s[0]] + Insert(x, s[1..], le))[1..] == Insert(x, s[1..], le);
    }
  }

  lemma {:induction false} MapSortBag<A, B>(f: A -> B, s: seq<A>, le: (A, A) -> bool)
    ensures multiset(Map(f, StableSort(s, le))) == multiset(Map(f, s))
  {
    if s != [] {
      MapSortBag(f, s[1..], le);
      MapInsertBag(f, s[0], StableSort(s[1..], le), le);
    }
  }

  // ----- Filter algebra -----

  lemma ConcatAssociates<T>(a: seq<T>, b: seq<T>, c: seq<T>)
    ensures a + (b + c) == (a + b) + c
  {
  }

  lemma {:induction false} FilterConcat<T>(a: seq<T>, b: seq<T>, p: T -> bool)
    ensures Filter(a + b, p) == Filter(a, p) + Filter(b, p)
  {
    if a == [] {
      assert a + b == b;
    } else {
      FilterConcat(a[1..], b, p);
      var head := if p(a[0]) then [a[0]] else [];
      assert Filter(a + b, p) == head + Filter(a[1..] + b, p) by {
        assert (a + b)[1..] == a[1..] + b;
      }
      ConcatAssociates(head, Filter(a[1..], p), Filter(b, p));
    }
  }

  lemma {:induction false} MapConcat<A, B>(f: A -> B, a: seq<A>, b: seq<A>)
    ensures Map(f, a + b) == Map(f, a) + Map(f, b)
  {
  }

  lemma {:induction false} MapMember<A, B>(f: A -> B, s: seq<A>, x: A)
    requires x in s
    ensures f(x) in Map(f, s)
  {
    if s[0] != x {
      MapMember(f, s[1..], x);
    }
  }

  lemma {:induction false} FilterMap<A, B>(f: A -> B, s: seq<A>, p: B -> bool, q: A -> bool)
    requires forall x :: x in s ==> (q(x) <==> p(f(x)))
    ensures Filter(Map(f, s), p) == Map(f, Filter(s, q))
  {
    if s != [] {
      FilterMap(f, s[1..], p, q);
      FilterCons(f(s[0]), Map(f, s[1..]), p);
      assert ([s[0]] + Filter(s[1..], q))[1..] == Filter(s[1..], q);
    }
  }

  lemma {:induction false} FilterMembers<T>(s: seq<T>, p: T -> bool, x: T)
    ensures x in Filter(s, p) <==> x in s && p(x)
  {
    if s != [] {
      FilterMembers(s[1..], p, x);
    }
  }

  lemma {:induction false} FilterCommutes<T>(s: seq<T>, p: T -> bool, q: T -> bool)
    ensures Filter(Filter(s, p), q) == Filter(Filter(s, q), p)
  {
    if s != [] {
      FilterCommutes(s[1..], p, q);
      FilterConcat(if p(s[0]) then [s[0]] else [], Filter(s[1..], p), q);
      FilterConcat(if q(s[0]) then [s[0]] else [], Filter(s[1..], q), p);
    }
  }

  lemma {:induction false} FilterAll<T>(s: seq<T>, p: T -> bool)
    requires forall x :: x in s ==> p(x)
    ensures Filter(s, p) == s
  {
    if s != [] {
      FilterAll(s[1..], p);
    }
  }

  lemma {:induction false} FilterNone<T>(s: seq<T>, p: T -> bool)
    requires forall x :: x in s ==> !p(x)
    ensures Filter(s, p) == []
  {
    if s != [] {
      FilterNone(s[1..], p);
    }
  }

  lemma {:induction false} FilterPairwise<T>(s: seq<T>, p: T -> bool, rel: (T, T) -> bool)
    requires Pairwise(s, rel)
    ensures Pairwise(Filter(s, p), rel)
  {
    if s != [] {
      FilterPairwise(s[1..], p, rel);
      var rest := Filter(s[1..], p);
      forall j | 0 <= j < |rest| ensures rel(s[0], rest[j]) {
        assert rest[j] in s[1..];
      }
    }
  }

  lemma {:induction false} FilterCounts<T>(s: seq<T>, p: T -> bool, x: T)
    ensures multiset(Filter(s, p))[x] == if p(x) then multiset(s)[x] else 0
  {
    if s != [] {
      FilterCounts(s[1..], p, x);
      assert s == [s[0]] + s[1..];
    }
  }

  // ----- The order of texts -----

  /** Lexicographic by code unit. */
  predicate TextLe(a: string, b: string) {
    a == [] || (b != [] && (a[0] < b[0] || (a[0] == b[0] && TextLe(a[1..], b[1..]))))
  }

  lemma {:induction false} TextLeTotal(a: string, b: string)
    ensures TextLe(a, b) || TextLe(b, a)
    ensures TextLe(a, b) && TextLe(b, a) ==> a == b
  {
    if a != [] && b != [] && a[0] == b[0] {
      TextLeTotal(a[1..], b[1..]);
      assert a == [a[0]] + a[1..] && b == [b[0]] + b[1..];
    }
  }

  lemma {:induction false} TextLeTransitive(a: string, b: string, c: string)
    requires TextLe(a, b) && TextLe(b, c)
    ensures TextLe(a, c)
  {
    if a != [] && a[0] == b[0] == c[0] {
      TextLeTransitive(a[1..], b[1..], c[1..]);
    }
  }

  /** The texts agree before `i`; there `a` ends, or has the smaller character. */
  predicate DivergeAt(a: string, b: string, i: nat) {
    i <= |a| && i < |b| && a[..i] == b[..i] && (i == |a| || a[i] < b[i])
  }

  /** `a` is a proper prefix of `b`, or has the smaller character at the first difference. */
  ghost predicate Below(a: string, b: string) {
    exists i: nat :: DivergeAt(a, b, i)
  }

  lemma DivergeLater(a: string, b: string, i: nat)
    requires a != [] && b != [] && a[0] == b[0]
    ensures DivergeAt(a, b, i + 1) <==> DivergeAt(a[1..], b[1..], i)
  {
    if i + 1 <= |a| && i + 1 <= |b| {
      assert a[..i + 1] == [a[0]] + a[1..][..i] && b[..i + 1] == [b[0]] + b[1..][..i];
    }
  }

  lemma BelowAtHead(a: string, b: string)
    ensures Below(a, b)
       <==> b != [] && (a == [] || a[0] < b[0] || (a[0] == b[0] && Below(a[1..], b[1..])))
  {
    if i: nat :| DivergeAt(a, b, i) {
      if i > 0 {
        assert a[..i][0] == a[0] && b[..i][0] == b[0];
        DivergeLater(a, b, i - 1);
      }
    }
    if b != [] && (a == [] || a[0] < b[0]) {
      assert DivergeAt(a, b, 0);
    } else if a != [] && b != [] && a[0] == b[0] {
      if i: nat :| DivergeAt(a[1..], b[1..], i) {
        DivergeLater(a, b, i);
      }
    }
  }

  /** Ascending: a text is not after another exactly if the other is not below it. */
  lemma {:induction false} TextLeIffNotBelow(a: string, b: string)
    ensures TextLe(a, b) <==> !Below(b, a)
    ensures TextLe(a, b) && a != b ==> Below(a, b)
  {
    BelowAtHead(a, b);
    BelowAtHead(b, a);
    if a != [] && b != [] && a[0] == b[0] {
      TextLeIffNotBelow(a[1..], b[1..]);
      assert a == [a[0]] + a[1..] && b == [b[0]] + b[1..];
    }
  }
}
