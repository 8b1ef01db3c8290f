/** The Studio session stream: the capped ring buffer, and the merge of a server replay
    with the live lines (board-ui/src/studio/activity.ts). */
module Activity {
  import opened Sorting

  datatype Source = Live | Audit | Ledger

  datatype Line = Line(ts: string, kind: string, text: string, source: Source, detail: string, runId: string)

  /** De-duplication key. It is not injective: a `|` inside a field can make two keys meet. */
  function Key(l: Line): string {
    l.ts + "|" + l.kind + "|" + l.text
  }

  // ----- Order by time stamp -----

  predicate Earlier(a: Line, b: Line) {
    TextLe(a.ts, b.ts)
  }

  lemma EarlierIsTotalPreorder()
    ensures TotalPreorder(Earlier)
  {
    forall a, b ensures Earlier(a, b) || Earlier(b, a) {
      TextLeTotal(a.ts, b.ts);
    }
    forall a, b, c | Earlier(a, b) && Earlier(b, c) ensures Earlier(a, c) {
      TextLeTransitive(a.ts, b.ts, c.ts);
    }
  }

  // ----- Ring buffer -----

  function Max(a: int, b: int): int {
    if a >= b then a else b
  }

  /** The last `n` elements of `s`, or all of `s` when it is shorter. */
  function Last<T>(s: seq<T>, n: int): (r: seq<T>)
    requires n >= 0
  {
    if |s| > n then s[|s| - n..] else s
  }

  /** `Array.prototype.slice(start)` for a start that is not negative. */
  function Slice<T>(s: seq<T>, start: int): seq<T>
    requires start >= 0
  {
    if start >= |s| then [] else s[start..]
  }

  function PushLine(buffer: seq<Line>, line: Line, cap: int): (next: seq<Line>) {
    (if |buffer| >= cap then Slice(buffer, Max(0, |buffer| - cap + 1)) else buffer) + [line]
  }

  function PushAll(buffer: seq<Line>, stream: seq<Line>, cap: int): seq<Line>
    decreases |stream|
  {
    if stream == [] then buffer
    else PushLine(PushAll(buffer, stream[..|stream| - 1], cap), stream[|stream| - 1], cap)
  }

  lemma PushOnAny(s: seq<Line>, line: Line, cap: int)
    ensures PushLine(s, line, cap) == Last(s + [line], Max(cap, 1))
  {
  }

  lemma PushOnLast(s: seq<Line>, line: Line, cap: int)
    ensures PushLine(Last(s, Max(cap, 1)), line, cap) == Last(s + [line], Max(cap, 1))
  {
    PushOnAny(Last(s, Max(cap, 1)), line, cap);
    LastOfLast(s, line, Max(cap, 1));
  }

  lemma LastOfLast<T>(s: seq<T>, x: T, n: nat)
    requires n > 0
    ensures Last(Last(s, n) + [x], n) == Last(s + [x], n)
  {
    if |s| > n {
      assert Last(s, n) + [x] == (s + [x])[|s| - n..];
    }
  }

  /** A stream fed line by line leaves exactly the newest `cap` lines, whatever the buffer
      held and however long it was. A cap below one still keeps the newest line. */
  lemma {:induction false} StreamKeepsTheNewest(buffer: seq<Line>, stream: seq<Line>, cap: int)
    requires stream != []
    ensures PushAll(buffer, stream, cap) == Last(buffer + stream, Max(cap, 1))
  {
    var earlier, line := stream[..|stream| - 1], stream[|stream| - 1];
    assert buffer + stream == (buffer + earlier) + [line];
    if earlier == [] {
      assert buffer + earlier == buffer;
      PushOnAny(buffer, line, cap);
    } else {
      StreamKeepsTheNewest(buffer, earlier, cap);
      PushOnLast(buffer + earlier, line, cap);
    }
  }

  // ----- Merging a replay with the live lines -----

  function KeySet(s: seq<Line>): set<string> {
    if s == [] then {} else {Key(s[0])} + KeySet(s[1..])
  }

  /** The lines of `live` whose key is not yet in `seen`, each key once. */
  function Fresh(seen: set<string>, live: seq<Line>): seq<Line>
    decreases |live|
  {
    if live == [] then []
    else if Key(live[0]) in seen then Fresh(seen, live[1..])
    else [live[0]] + Fresh(seen + {Key(live[0])}, live[1..])
  }

  /** The live lines that a merge adds to the replay. */
  function Added(replay: seq<Line>, live: seq<Line>): seq<Line> {
    Fresh(KeySet(replay), live)
  }

  /** Everything the merge shows before the cap is applied, in display order. */
  function Timeline(replay: seq<Line>, live: seq<Line>): seq<Line> {
    StableSort(replay + Added(replay, live), Earlier)
  }

  function Merged(replay: seq<Line>, live: seq<Line>, cap: int): seq<Line> {
    Last(Timeline(replay, live), Max(cap, 0))
  }

  ghost predicate NotAfter(a: Line, b: Line) {
    !Below(b.ts, a.ts)
  }

  /** No line comes before one with a lesser time stamp. */
  ghost predicate Ascending(lines: seq<Line>) {
    Pairwise(lines, NotAfter)
  }

  method MergeBackfill(replay: seq<Line>, live: seq<Line>, cap: int) returns (r: seq<Line>)
    ensures r == Merged(replay, live, cap) && Ascending(r)
  {
    var seen := KeySet(replay);
    var merged := replay;
    for i := 0 to |live|
      invariant merged + Fresh(seen, live[i..]) == replay + Added(replay, live)
    {
      var k := Key(live[i]);
      assert live[i..][1..] == live[i + 1..];
      if k !in seen {
        ConcatAssociates(merged, [live[i]], Fresh(seen + {k}, live[i + 1..]));
        seen := seen + {k};
        merged := merged + [live[i]];
      }
    }
    assert merged + [] == merged;
    merged := StableSort(merged, Earlier);
    r := if |merged| > cap then Slice(merged, |merged| - cap) else merged;
    ghost var dropped := MergedKeepsTheLatest(replay, live, cap);
  }

  lemma TimelineIsSorted(replay: seq<Line>, live: seq<Line>)
    ensures Sorted(Timeline(replay, live), Earlier)
  {
    EarlierIsTotalPreorder();
    StableSortIsStable(replay + Added(replay, live), Earlier);
  }

  /** Whatever the cap, the merged lines ascend in time, and the ones it dropped are not later than any
      line that is shown; nothing else is dropped, and nothing is added to replay and new lines. */
  lemma MergedKeepsTheLatest(replay: seq<Line>, live: seq<Line>, cap: int) returns (dropped: seq<Line>)
    ensures var r := Merged(replay, live, cap);
            && multiset(dropped + r) == multiset(replay + Added(replay, live))
            && Ascending(r) && (dropped != [] ==> |r| == Max(cap, 0))
            && forall x, y :: x in dropped && y in r ==> NotAfter(x, y)
  {
    var t := Timeline(replay, live);
    TimelineAscends(replay, live);
    SortBag(replay + Added(replay, live), Earlier);
    dropped := t[..|t| - |Last(t, Max(cap, 0))|];
    LastOfPairwise(t, Max(cap, 0), NotAfter);
  }

  lemma TimelineAscends(replay: seq<Line>, live: seq<Line>)
    ensures Ascending(Timeline(replay, live))
  {
    var t := Timeline(replay, live);
    TimelineIsSorted(replay, live);
    forall i, j | 0 <= i < j < |t| ensures NotAfter(t[i], t[j]) {
      assert Earlier(t[i], t[j]);
      TextLeIffNotBelow(t[i].ts, t[j].ts);
    }
  }

  lemma LastOfPairwise<T>(t: seq<T>, n: nat, rel: (T, T) -> bool)
    requires Pairwise(t, rel)
    ensures var r := Last(t, n);
            var dropped := t[..|t| - |r|];
            && t == dropped + r && Pairwise(r, rel) && (dropped != [] ==> |r| == n)
            && forall x, y :: x in dropped && y in r ==> rel(x, y)
  {
    var r := Last(t, n);
    var k := |t| - |r|;
    assert forall i :: 0 <= i < |r| ==> r[i] == t[k + i];
    forall x, y | x in t[..k] && y in r ensures rel(x, y) {
      var i :| 0 <= i < k && t[i] == x;
      var j :| 0 <= j < |r| && r[j] == y;
      assert t[k + j] == y;
    }
  }

  /** Which live lines are kept: line `i` survives iff its key is new at that point, so
      every key is shown once, by its first live line, and no replay key is repeated. */
  lemma {:induction false} FreshIsFirstSeen(seen: set<string>, live: seq<Line>, i: nat)
    requires i < |live| && Key(live[i]) !in seen
    requires forall j :: 0 <= j < i ==> Key(live[j]) != Key(live[i])
    ensures Filter(Fresh(seen, live), l => Key(l) == Key(live[i])) == [live[i]]
    decreases i
  {
    var k := Key(live[i]);
    var p := (l: Line) => Key(l) == k;
    if i == 0 {
      var rest := Fresh(seen + {k}, live[1..]);
      FreshKeys(seen + {k}, live[1..]);
      FilterNone(rest, p);
      FilterConcat([live[0]], rest, p);
    } else {
      var seen' := if Key(live[0]) in seen then seen else seen + {Key(live[0])};
      assert live[1..][i - 1] == live[i];
      FreshIsFirstSeen(seen', live[1..], i - 1);
      FilterConcat(if Key(live[0]) in seen then [] else [live[0]], Fresh(seen', live[1..]), p);
    }
  }

  // ----- Counting keys -----

  /** How many lines of `s` carry the key `k`. */
  function Count(s: seq<Line>, k: string): nat {
    if s == [] then 0 else (if Key(s[0]) == k then 1 else 0) + Count(s[1..], k)
  }

  lemma {:induction false} CountConcat(a: seq<Line>, b: seq<Line>, k: string)
    ensures Count(a + b, k) == Count(a, k) + Count(b, k)
  {
    if a == [] {
      assert a + b == b;
    } else {
      CountConcat(a[1..], b, k);
      assert (a + b)[1..] == a[1..] + b;
    }
  }

  lemma {:induction false} CountMember(s: seq<Line>, k: string)
    ensures Count(s, k) > 0 <==> k in KeySet(s)
  {
    if s != [] {
      CountMember(s[1..], k);
    }
  }

  lemma {:induction false} KeyOfMember(s: seq<Line>, l: Line)
    requires l in s
    ensures Key(l) in KeySet(s)
  {
    if s[0] != l {
      KeyOfMember(s[1..], l);
    }
  }

  lemma {:induction false} InsertCount(x: Line, s: seq<Line>, k: string)
    ensures Count(Insert(x, s, Earlier), k) == (if Key(x) == k then 1 else 0) + Count(s, k)
  {
    if s == [] || Earlier(x, s[0]) {
      assert ([x] + s)[1..] == s;
    } else {
      InsertCount(x, s[1..], k);
      assert ([s[0]] + Insert(x, s[1..], Earlier))[1..] == Insert(x, s[1..], Earlier);
    }
  }

  lemma {:induction false} SortCount(s: seq<Line>, k: string)
    ensures Count(StableSort(s, Earlier), k) == Count(s, k)
  {
    if s != [] {
      SortCount(s[1..], k);
      InsertCount(s[0], StableSort(s[1..], Earlier), k);
    }
  }

  /** Every live key outside `seen` is kept once; every other key is not kept. */
  lemma {:induction false} FreshCount(seen: set<string>, live: seq<Line>, k: string)
    ensures Count(Fresh(seen, live), k) == if k in KeySet(live) && k !in seen then 1 else 0
    decreases |live|
  {
    if live != [] {
      var l := live[0];
      if Key(l) in seen {
        FreshCount(seen, live[1..], k);
      } else {
        FreshCount(seen + {Key(l)}, live[1..], k);
        assert Fresh(seen, live)[1..] == Fresh(seen + {Key(l)}, live[1..]);
      }
    }
  }

  lemma {:induction false} FreshKeys(seen: set<string>, live: seq<Line>)
    ensures forall l :: l in Fresh(seen, live) ==> Key(l) !in seen
    decreases |live|
  {
    if live != [] {
      FreshKeys(seen, live[1..]);
      FreshKeys(seen + {Key(live[0])}, live[1..]);
    }
  }

  // ----- Merging twice -----

  lemma {:induction false} FilterSame<T>(s: seq<T>, p: T -> bool, q: T -> bool)
    requires forall x :: x in s ==> p(x) == q(x)
    ensures Filter(s, p) == Filter(s, q)
  {
    if s != [] {
      FilterSame(s[1..], p, q);
    }
  }

  function NotIn(keys: set<string>): Line -> bool {
    l => Key(l) !in keys
  }

  function In(keys: set<string>): Line -> bool {
    l => Key(l) in keys
  }

  /** A list whose new keys do not repeat loses only the lines whose key was seen before. */
  lemma {:induction false} FreshOfDistinct(seen: set<string>, s: seq<Line>)
    requires forall k :: k !in seen ==> Count(s, k) <= 1
    ensures Fresh(seen, s) == Filter(s, NotIn(seen))
    decreases |s|
  {
    if s != [] {
      var k := Key(s[0]);
      if k in seen {
        FreshOfDistinct(seen, s[1..]);
      } else {
        FreshOfDistinct(seen + {k}, s[1..]);
        assert Count(s[1..], k) == 0;
        forall l | l in s[1..] ensures NotIn(seen + {k})(l) == NotIn(seen)(l) {
          KeyOfMember(s[1..], l);
          CountMember(s[1..], k);
        }
        FilterSame(s[1..], NotIn(seen + {k}), NotIn(seen));
      }
    }
  }

  lemma SplitInOld<T>(p: seq<T>, m: seq<T>, y: seq<T>, isNew: T -> bool, isOld: T -> bool)
    requires forall a :: a in p || a in m ==> isOld(a) && !isNew(a)
    requires forall a :: a in y ==> isNew(a)
    ensures Filter(p, isOld) + (m + y) == (p + m) + Filter(m + y, isNew)
  {
    FilterAll(p, isOld);
    FilterKeepsTail(m, y, isNew);
    ConcatIsAssociative(p, m, y);
  }

  lemma ConcatIsAssociative<T>(x: seq<T>, y: seq<T>, z: seq<T>)
    ensures x + (y + z) == (x + y) + z
  {
  }

  lemma FilterKeepsTail<T>(m: seq<T>, y: seq<T>, p: T -> bool)
    requires forall a :: a in m ==> !p(a)
    requires forall a :: a in y ==> p(a)
    ensures Filter(m + y, p) == y
  {
    FilterConcat(m, y, p);
    FilterNone(m, p);
    FilterAll(y, p);
    assert [] + y == y;
  }

  lemma SplitInNew<T>(x: seq<T>, m: seq<T>, q: seq<T>, isNew: T -> bool, isOld: T -> bool)
    requires forall a :: a in x ==> isOld(a)
    requires forall a :: a in m || a in q ==> isNew(a) && !isOld(a)
    ensures Filter(x + m, isOld) + q == x + Filter(q, isNew)
  {
    FilterConcat(x, m, isOld);
    FilterAll(x, isOld);
    FilterNone(m, isOld);
    FilterAll(q, isNew);
    assert x + [] == x;
  }

  /** Split one class of ties, old part first, anywhere: dropping the new lines before the cut
      and the old lines after it puts the same class back together. */
  lemma SplitClass<T>(p: seq<T>, q: seq<T>, x: seq<T>, y: seq<T>, isNew: T -> bool, isOld: T -> bool)
    requires p + q == x + y
    requires forall a :: a in x ==> isOld(a) && !isNew(a)
    requires forall a :: a in y ==> isNew(a) && !isOld(a)
    ensures Filter(p, isOld) + q == x + Filter(q, isNew)
  {
    if |p| <= |x| {
      var m := x[|p|..];
      assert x == p + m by { assert p == (p + q)[..|p|] == x[..|p|]; }
      assert q == m + y by { assert q == (p + q)[|p|..]; }
      SplitInOld(p, m, y, isNew, isOld);
    } else {
      var m := p[|x|..];
      assert p == x + m by { assert x == (x + y)[..|x|] == p[..|x|]; }
      assert y == m + q by { assert y == (x + y)[|x|..]; }
      SplitInNew(x, m, q, isNew, isOld);
    }
  }

  /** Where the cap cuts the timeline: `dropped` is lost, `kept` is shown. */
  lemma TimelineSplit(replay: seq<Line>, live: seq<Line>, cap: int)
    returns (dropped: seq<Line>, kept: seq<Line>)
    ensures Timeline(replay, live) == dropped + kept && kept == Merged(replay, live, cap)
    ensures |kept| < Max(cap, 0) ==> dropped == []
    ensures forall k :: k !in KeySet(replay) ==> Count(kept, k) <= 1
  {
    var t := Timeline(replay, live);
    var n := if |t| > Max(cap, 0) then |t| - Max(cap, 0) else 0;
    dropped, kept := t[..n], t[n..];
    assert t == dropped + kept;
    forall k | k !in KeySet(replay) ensures Count(kept, k) <= 1 {
      TimelineCount(replay, live, k);
      CountConcat(dropped, kept, k);
    }
  }

  lemma TimelineCount(replay: seq<Line>, live: seq<Line>, k: string)
    requires k !in KeySet(replay)
    ensures Count(Timeline(replay, live), k) <= 1
  {
    SortCount(replay + Added(replay, live), k);
    CountConcat(replay, Added(replay, live), k);
    FreshCount(KeySet(replay), live, k);
    CountMember(replay, k);
  }

  /** The timeline of the second merge: the replay lines that the first cap dropped, then
      exactly what the first merge showed. */
  lemma RemergedTimeline(replay: seq<Line>, live: seq<Line>, dropped: seq<Line>, kept: seq<Line>)
    requires Timeline(replay, live) == dropped + kept
    requires forall k :: k !in KeySet(replay) ==> Count(kept, k) <= 1
    ensures Timeline(replay, kept) == Filter(dropped, In(KeySet(replay))) + kept
  {
    var keys := KeySet(replay);
    var result := Filter(dropped, In(keys)) + kept;
    FreshOfDistinct(keys, kept);
    EarlierIsTotalPreorder();
    StableSortIsStable(replay + Added(replay, live), Earlier);
    RemergedSorted(dropped, kept, In(keys));
    forall t ensures TieClass(result, Earlier, t) == TieClass(replay + Filter(kept, NotIn(keys)), Earlier, t) {
      assert TieClass(dropped + kept, Earlier, t) == TieClass(replay + Added(replay, live), Earlier, t);
      RemergedClass(replay, Added(replay, live), dropped, kept, TiesWith(Earlier, t));
    }
    StableSortIsTheOnlyOne(result, replay + Filter(kept, NotIn(keys)), Earlier);
  }

  /** The same for one class `p` of ties. */
  lemma RemergedClass(replay: seq<Line>, added: seq<Line>, dropped: seq<Line>, kept: seq<Line>, p: Line -> bool)
    requires Filter(dropped + kept, p) == Filter(replay + added, p)
    requires exists live :: added == Added(replay, live)
    ensures Filter(Filter(dropped, In(KeySet(replay))) + kept, p)
         == Filter(replay + Filter(kept, NotIn(KeySet(replay))), p)
  {
    var old', new' := In(KeySet(replay)), NotIn(KeySet(replay));
    var live :| added == Added(replay, live);
    FreshKeys(KeySet(replay), live);
    forall l | l in replay ensures Key(l) in KeySet(replay) {
      KeyOfMember(replay, l);
    }
    FilterConcat(dropped, kept, p);
    FilterConcat(replay, added, p);
    SplitClass(Filter(dropped, p), Filter(kept, p), Filter(replay, p), Filter(added, p), new', old');
    FilterConcat(Filter(dropped, old'), kept, p);
    FilterCommutes(dropped, old', p);
    FilterConcat(replay, Filter(kept, new'), p);
    FilterCommutes(kept, new', p);
  }

  lemma RemergedSorted(dropped: seq<Line>, kept: seq<Line>, isOld: Line -> bool)
    requires Sorted(dropped + kept, Earlier)
    ensures Sorted(Filter(dropped, isOld) + kept, Earlier)
  {
    var s := dropped + kept;
    assert Sorted(dropped, Earlier) by {
      assert forall i :: 0 <= i < |dropped| ==> dropped[i] == s[i];
    }
    FilterPairwise(dropped, isOld, Earlier);
    var front := Filter(dropped, isOld);
    forall i, j | 0 <= i < |front| && 0 <= j < |kept| ensures Earlier(front[i], kept[j]) {
      assert front[i] in dropped;
      var m :| 0 <= m < |dropped| && dropped[m] == front[i];
      assert s[m] == front[i] && s[|dropped| + j] == kept[j];
    }
    assert forall i :: 0 <= i < |kept| ==> kept[i] == s[|dropped| + i];
  }

  /** Merging the same replay again changes nothing, even where the cap dropped lines. */
  lemma MergeIsIdempotent(replay: seq<Line>, live: seq<Line>, cap: int)
    ensures Merged(replay, Merged(replay, live, cap), cap) == Merged(replay, live, cap)
  {
    var dropped, kept := TimelineSplit(replay, live, cap);
    RemergedTimeline(replay, live, dropped, kept);
    if dropped == [] {
      assert [] + kept == kept;
    }
  }

  // ----- Which lines are the same -----

  predicate NoBar(s: string) {
    forall i :: 0 <= i < |s| ==> s[i] != '|'
  }

  /** Where the first bar is. */
  function BarIn(s: string): nat {
    if s == "" || s[0] == '|' then 0 else 1 + BarIn(s[1..])
  }

  lemma {:induction false} BarAfter(a: string, rest: string)
    requires NoBar(a)
    ensures BarIn(a + "|" + rest) == |a|
  {
    if a == "" {
      assert a + "|" + rest == "|" + rest;
    } else {
      assert (a + "|" + rest)[1..] == a[1..] + "|" + rest;
      BarAfter(a[1..], rest);
    }
  }

  lemma BarEnds(a: string, rest: string, b: string, other: string)
    requires NoBar(a) && NoBar(b) && a + "|" + rest == b + "|" + other
    ensures a == b && rest == other
  {
    BarAfter(a, rest);
    BarAfter(b, other);
    var left, right := a + "|" + rest, b + "|" + other;
    assert left[..|a|] == a && right[..|b|] == b;
    assert left[|a| + 1..] == rest && right[|b| + 1..] == other;
  }

  /** Two lines count as one exactly if time stamp, kind and text agree, as long as no stamp and no kind holds
      the separator. */
  lemma SameKeyIff(a: Line, b: Line)
    requires NoBar(a.ts) && NoBar(b.ts) && NoBar(a.kind) && NoBar(b.kind)
    ensures Key(a) == Key(b) <==> a.ts == b.ts && a.kind == b.kind && a.text == b.text
  {
    if Key(a) == Key(b) {
      assert Key(a) == a.ts + "|" + (a.kind + "|" + a.text) && Key(b) == b.ts + "|" + (b.kind + "|" + b.text);
      BarEnds(a.ts, a.kind + "|" + a.text, b.ts, b.kind + "|" + b.text);
      BarEnds(a.kind, a.text, b.kind, b.text);
    }
  }

  predicate SameLine(a: Line, b: Line) {
    a.ts == b.ts && a.kind == b.kind && a.text == b.text
  }

  /** A live line that differs from every replayed and every earlier live line in stamp, kind or text is in the
      merged lines when nothing is cut off. */
  lemma NewLineIsMerged(replay: seq<Line>, live: seq<Line>, i: nat)
    requires i < |live|
    requires forall l :: l in replay || l in live ==> NoBar(l.ts) && NoBar(l.kind)
    requires forall l :: l in replay ==> !SameLine(l, live[i])
    requires forall j :: 0 <= j < i ==> !SameLine(live[j], live[i])
    ensures live[i] in Timeline(replay, live)
  {
    forall l | l in replay ensures Key(l) != Key(live[i]) {
      SameKeyIff(l, live[i]);
    }
    NotInKeySet(replay, Key(live[i]));
    forall j | 0 <= j < i ensures Key(live[j]) != Key(live[i]) {
      SameKeyIff(live[j], live[i]);
    }
    FreshIsFirstSeen(KeySet(replay), live, i);
    assert live[i] in Filter(Added(replay, live), l => Key(l) == Key(live[i]));
    SortMembers(replay + Added(replay, live), Earlier, live[i]);
  }

  lemma {:induction false} NotInKeySet(s: seq<Line>, key: string)
    requires forall l :: l in s ==> Key(l) != key
    ensures key !in KeySet(s)
  {
    if s != [] {
      NotInKeySet(s[1..], key);
    }
  }
}
