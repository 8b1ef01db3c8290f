/** The post-processing of distilled patterns (kompany/src/kompany/agents/cos_distillation.py). */
module Distillation {
  import Sorting

  /** Role and pattern key. */
  type Key = (string, string)

  datatype Pattern = Pattern(role: string, name: string, evidence: seq<string>, summary: string)

  datatype Reason = UnknownRole | Duplicate

  datatype Warning = Warning(reason: Reason, key: Key)

  datatype Rejection = Rejection(key: Key, claim: string)

  const KNOWN_ROLES: set<string> :=
    {"ceo", "cfo", "cto", "cpo", "cmo", "cro", "coo", "csa", "ciso", "cos", "cv"}

  predicate Known(p: Pattern) {
    p.role in KNOWN_ROLES
  }

  function KeyOf(p: Pattern): Key {
    (p.role, p.name)
  }

  predicate HasEvidence(p: Pattern) {
    p.evidence != []
  }

  // ----- Keeping the last pattern of each key -----

  /** The keys with a known role, each once, in the order of their first occurrence. */
  function FirstKeys(patterns: seq<Pattern>): seq<Key> {
    if patterns == [] then []
    else
      var last := patterns[|patterns| - 1];
      var before := FirstKeys(patterns[..|patterns| - 1]);
      if Known(last) && KeyOf(last) !in before then before + [KeyOf(last)] else before
  }

  function Table(patterns: seq<Pattern>): map<Key, Pattern> {
    if patterns == [] then map[]
    else
      var last := patterns[|patterns| - 1];
      var before := Table(patterns[..|patterns| - 1]);
      if Known(last) then before[KeyOf(last) := last] else before
  }

  function Warnings(patterns: seq<Pattern>): seq<Warning> {
    if patterns == [] then []
    else
      var last := patterns[|patterns| - 1];
      var before := patterns[..|patterns| - 1];
      if !Known(last) then Warnings(before) + [Warning(UnknownRole, KeyOf(last))]
      else if KeyOf(last) in FirstKeys(before) then Warnings(before) + [Warning(Duplicate, KeyOf(last))]
      else Warnings(before)
  }

  function Lookup(table: map<Key, Pattern>, keys: seq<Key>): (r: seq<Pattern>)
    requires forall key :: key in keys ==> key in table
    ensures |r| == |keys| && forall i :: 0 <= i < |r| ==> r[i] == table[keys[i]]
  {
    if keys == [] then [] else Lookup(table, keys[..|keys| - 1]) + [table[keys[|keys| - 1]]]
  }

  lemma {:induction false} TableHoldsTheKeys(patterns: seq<Pattern>)
    ensures forall key :: key in Table(patterns) <==> key in FirstKeys(patterns)
  {
    if patterns != [] {
      TableHoldsTheKeys(patterns[..|patterns| - 1]);
    }
  }

  function Kept(patterns: seq<Pattern>): seq<Pattern> {
    TableHoldsTheKeys(patterns);
    Lookup(Table(patterns), FirstKeys(patterns))
  }

  method FilterPatterns(patterns: seq<Pattern>) returns (kept: seq<Pattern>, warnings: seq<Warning>)
    ensures kept == Kept(patterns)
    ensures warnings == Warnings(patterns)
  {
    warnings := [];
    var byKey: map<Key, Pattern> := map[];
    var order: seq<Key> := [];
    for i := 0 to |patterns|
      invariant warnings == Warnings(patterns[..i])
      invariant byKey == Table(patterns[..i])
      invariant order == FirstKeys(patterns[..i])
    {
      assert patterns[..i + 1][..i] == patterns[..i];
      TableHoldsTheKeys(patterns[..i]);
      var pattern := patterns[i];
      if pattern.role !in KNOWN_ROLES {
        warnings := warnings + [Warning(UnknownRole, (pattern.role, pattern.name))];
        continue;
      }
      var key := (pattern.role, pattern.name);
      if key !in byKey {
        order := order + [key];
      } else {
        warnings := warnings + [Warning(Duplicate, key)];
      }
      byKey := byKey[key := pattern];
    }
    assert patterns[..|patterns|] == patterns;
    TableHoldsTheKeys(patterns);
    kept := Lookup(byKey, order);
  }

  // ----- Dropping what has no evidence -----

  function RejectionOf(p: Pattern): Rejection {
    Rejection(KeyOf(p), if |p.summary| > 200 then p.summary[..200] else p.summary)
  }

  function Rejections(patterns: seq<Pattern>): seq<Rejection> {
    if patterns == [] then []
    else
      var last := patterns[|patterns| - 1];
      var before := Rejections(patterns[..|patterns| - 1]);
      if HasEvidence(last) then before else before + [RejectionOf(last)]
  }

  /** The patterns with evidence, in their order. */
  function Sourced(patterns: seq<Pattern>): seq<Pattern> {
    Sorting.Filter(patterns, HasEvidence)
  }

  lemma SourcedAppend(patterns: seq<Pattern>, p: Pattern)
    ensures Sourced(patterns + [p]) == Sourced(patterns) + if HasEvidence(p) then [p] else []
  {
    Sorting.FilterConcat(patterns, [p], HasEvidence);
    assert [p][1..] == [];
  }

  method FilterInferredOnly(patterns: seq<Pattern>) returns (sourced: seq<Pattern>, rejected: seq<Rejection>)
    ensures sourced == Sourced(patterns)
    ensures rejected == Rejections(patterns)
  {
    sourced, rejected := [], [];
    for i := 0 to |patterns|
      invariant sourced == Sourced(patterns[..i])
      invariant rejected == Rejections(patterns[..i])
    {
      var pattern := patterns[i];
      assert patterns[..i + 1][..i] == patterns[..i] && patterns[..i + 1] == patterns[..i] + [pattern];
      SourcedAppend(patterns[..i], pattern);
      if pattern.evidence == [] {
        rejected := rejected + [RejectionOf(pattern)];
        continue;
      }
      sourced := sourced + [pattern];
    }
    assert patterns[..|patterns|] == patterns;
  }

  // ----- The kept patterns, by position -----

  /** The pattern at `i` is the last one with its key. */
  ghost predicate IsLast(patterns: seq<Pattern>, i: int) {
    0 <= i < |patterns| && forall j :: i < j < |patterns| ==> KeyOf(patterns[j]) != KeyOf(patterns[i])
  }

  /** Where a key occurs first; the length of the list if it does not occur. */
  function FirstIndex(patterns: seq<Pattern>, key: Key): (i: nat)
    ensures i <= |patterns| && forall j :: 0 <= j < i ==> KeyOf(patterns[j]) != key
    ensures i < |patterns| ==> KeyOf(patterns[i]) == key
  {
    if patterns == [] || KeyOf(patterns[0]) == key then 0 else 1 + FirstIndex(patterns[1..], key)
  }

  /** `p` names a known role and is the last pattern with its key. */
  ghost predicate IsLastKnown(patterns: seq<Pattern>, p: Pattern) {
    Known(p) && exists i :: IsLast(patterns, i) && patterns[i] == p
  }

  lemma IsLastKnownAfter(before: seq<Pattern>, last: Pattern, p: Pattern)
    ensures IsLastKnown(before + [last], p)
       <==> if KeyOf(last) == KeyOf(p) then last == p && Known(p) else IsLastKnown(before, p)
  {
    var all := before + [last];
    assert IsLast(all, |before|);
    if KeyOf(last) != KeyOf(p) {
      if i :| IsLast(before, i) && before[i] == p {
        assert forall j :: i < j < |before| ==> KeyOf(all[j]) == KeyOf(before[j]);
        assert IsLast(all, i);
      }
      if i :| IsLast(all, i) && all[i] == p {
        forall j | i < j < |before| ensures KeyOf(before[j]) != KeyOf(before[i]) {
          assert all[j] == before[j];
        }
        assert IsLast(before, i);
      }
    } else if IsLastKnown(all, p) {
      var i :| IsLast(all, i) && all[i] == p;
      assert KeyOf(all[|before|]) == KeyOf(p);
    }
  }

  lemma {:induction false} TableHoldsTheLast(patterns: seq<Pattern>, p: Pattern)
    ensures KeyOf(p) in Table(patterns) && Table(patterns)[KeyOf(p)] == p <==> IsLastKnown(patterns, p)
  {
    if patterns != [] {
      var n := |patterns| - 1;
      TableHoldsTheLast(patterns[..n], p);
      assert patterns == patterns[..n] + [patterns[n]];
      IsLastKnownAfter(patterns[..n], patterns[n], p);
    }
  }

  lemma {:induction false} KnownKeysAreListed(patterns: seq<Pattern>, i: nat)
    requires i < |patterns| && Known(patterns[i])
    ensures KeyOf(patterns[i]) in FirstKeys(patterns)
  {
    if i < |patterns| - 1 {
      KnownKeysAreListed(patterns[..|patterns| - 1], i);
    }
  }

  lemma NewKeyComesLast(patterns: seq<Pattern>)
    requires patterns != [] && Known(patterns[|patterns| - 1])
    requires KeyOf(patterns[|patterns| - 1]) !in FirstKeys(patterns[..|patterns| - 1])
    ensures FirstIndex(patterns, KeyOf(patterns[|patterns| - 1])) == |patterns| - 1
  {
    var n := |patterns| - 1;
    var i := FirstIndex(patterns, KeyOf(patterns[n]));
    if i < n {
      KnownKeysAreListed(patterns[..n], i);
    }
  }

  lemma {:induction false} KeysAreInFirstOrder(patterns: seq<Pattern>)
    ensures forall i :: 0 <= i < |FirstKeys(patterns)| ==> FirstIndex(patterns, FirstKeys(patterns)[i]) < |patterns|
    ensures forall i, j :: 0 <= i < j < |FirstKeys(patterns)| ==>
      FirstIndex(patterns, FirstKeys(patterns)[i]) < FirstIndex(patterns, FirstKeys(patterns)[j])
  {
    if patterns != [] {
      var n := |patterns| - 1;
      var keys := FirstKeys(patterns[..n]);
      KeysAreInFirstOrder(patterns[..n]);
      forall i | 0 <= i < |keys| ensures FirstIndex(patterns, keys[i]) == FirstIndex(patterns[..n], keys[i]) < n {
        FirstIndexIn(patterns, n, keys[i]);
      }
      if Known(patterns[n]) && KeyOf(patterns[n]) !in keys {
        NewKeyComesLast(patterns);
      }
    }
  }

  lemma FirstIndexIn(patterns: seq<Pattern>, n: nat, key: Key)
    requires n <= |patterns| && FirstIndex(patterns[..n], key) < n
    ensures FirstIndex(patterns, key) == FirstIndex(patterns[..n], key)
  {
    var i, k := FirstIndex(patterns, key), FirstIndex(patterns[..n], key);
    assert KeyOf(patterns[k]) == key;
    assert forall j :: 0 <= j < k ==> patterns[j] == patterns[..n][j];
  }

  /** What is kept: exactly the last pattern of every key with a known role, one per key, in the
      order in which the keys first occurred. */
  lemma KeptIsTheLastOfEachKey(patterns: seq<Pattern>)
    ensures forall p :: p in Kept(patterns) <==> IsLastKnown(patterns, p)
    ensures forall i, j :: 0 <= i < j < |Kept(patterns)| ==>
      FirstIndex(patterns, KeyOf(Kept(patterns)[i])) < FirstIndex(patterns, KeyOf(Kept(patterns)[j]))
  {
    var kept, keys, table := Kept(patterns), FirstKeys(patterns), Table(patterns);
    TableHoldsTheKeys(patterns);
    forall i | 0 <= i < |kept| ensures KeyOf(kept[i]) == keys[i] {
      TableIsFiled(patterns, keys[i]);
    }
    forall p ensures p in kept <==> IsLastKnown(patterns, p) {
      TableHoldsTheLast(patterns, p);
      if KeyOf(p) in table && table[KeyOf(p)] == p {
        var i :| 0 <= i < |keys| && keys[i] == KeyOf(p);
        assert kept[i] == p;
      }
    }
    KeysAreInFirstOrder(patterns);
  }

  lemma {:induction false} TableIsFiled(patterns: seq<Pattern>, key: Key)
    requires key in Table(patterns)
    ensures KeyOf(Table(patterns)[key]) == key
  {
    var n := |patterns| - 1;
    if !(Known(patterns[n]) && KeyOf(patterns[n]) == key) {
      TableIsFiled(patterns[..n], key);
    }
  }

  /** A key reaches memory exactly when the last pattern with that key names a known role and has
      evidence: an earlier pattern with evidence does not help. */
  lemma SourcedIffTheLastHasEvidence(patterns: seq<Pattern>, p: Pattern)
    ensures p in Sourced(Kept(patterns))
       <==> HasEvidence(p) && IsLastKnown(patterns, p)
  {
    KeptIsTheLastOfEachKey(patterns);
    Sorting.FilterMembers(Kept(patterns), HasEvidence, p);
  }

  // ----- Nothing is lost -----

  function Named(patterns: seq<Pattern>, key: Key): nat {
    if patterns == [] then 0
    else (if KeyOf(patterns[|patterns| - 1]) == key then 1 else 0) + Named(patterns[..|patterns| - 1], key)
  }

  function Warned(warnings: seq<Warning>, key: Key): nat {
    if warnings == [] then 0
    else (if warnings[|warnings| - 1].key == key then 1 else 0) + Warned(warnings[..|warnings| - 1], key)
  }

  function Rejected(rejections: seq<Rejection>, key: Key): nat {
    if rejections == [] then 0
    else (if rejections[|rejections| - 1].key == key then 1 else 0) + Rejected(rejections[..|rejections| - 1], key)
  }

  lemma NamedAppend(patterns: seq<Pattern>, p: Pattern, key: Key)
    ensures Named(patterns + [p], key) == Named(patterns, key) + if KeyOf(p) == key then 1 else 0
  {
    assert (patterns + [p])[..|patterns|] == patterns;
  }

  lemma RejectedAppend(rejections: seq<Rejection>, r: Rejection, key: Key)
    ensures Rejected(rejections + [r], key) == Rejected(rejections, key) + if r.key == key then 1 else 0
  {
    assert (rejections + [r])[..|rejections|] == rejections;
  }

  lemma {:induction false} FirstFilterConserves(patterns: seq<Pattern>, key: Key)
    ensures Named(patterns, key) == (if key in FirstKeys(patterns) then 1 else 0) + Warned(Warnings(patterns), key)
    ensures |patterns| == |FirstKeys(patterns)| + |Warnings(patterns)|
  {
    if patterns != [] {
      var n := |patterns| - 1;
      FirstFilterConserves(patterns[..n], key);
      var before, after := Warnings(patterns[..n]), Warnings(patterns);
      assert after != before ==> after[..|after| - 1] == before;
    }
  }

  lemma {:induction false} NamedOnce(table: map<Key, Pattern>, keys: seq<Key>, key: Key)
    requires forall k :: k in keys ==> k in table && KeyOf(table[k]) == k
    requires forall i, j :: 0 <= i < j < |keys| ==> keys[i] != keys[j]
    ensures Named(Lookup(table, keys), key) == if key in keys then 1 else 0
  {
    if keys != [] {
      var n := |keys| - 1;
      NamedOnce(table, keys[..n], key);
      NamedAppend(Lookup(table, keys[..n]), table[keys[n]], key);
      assert keys == keys[..n] + [keys[n]];
    }
  }

  lemma {:induction false} SecondFilterConserves(patterns: seq<Pattern>, key: Key)
    ensures Named(patterns, key) == Named(Sourced(patterns), key) + Rejected(Rejections(patterns), key)
    ensures |patterns| == |Sourced(patterns)| + |Rejections(patterns)|
  {
    if patterns != [] {
      var before, p := patterns[..|patterns| - 1], patterns[|patterns| - 1];
      SecondFilterConserves(before, key);
      assert patterns == before + [p];
      NamedAppend(before, p, key);
      SourcedAppend(before, p);
      if HasEvidence(p) {
        NamedAppend(Sourced(before), p, key);
      } else {
        assert Sourced(before) + [] == Sourced(before);
        RejectedAppend(Rejections(before), RejectionOf(p), key);
      }
    }
  }

  lemma {:induction false} FirstKeysAreDistinct(patterns: seq<Pattern>)
    ensures forall i, j :: 0 <= i < j < |FirstKeys(patterns)| ==> FirstKeys(patterns)[i] != FirstKeys(patterns)[j]
  {
    if patterns != [] {
      FirstKeysAreDistinct(patterns[..|patterns| - 1]);
    }
  }

  /** The two filters together lose nothing: for every key, the sourced patterns, the rejections
      and the warnings account for all patterns of the input, and so do their counts. */
  lemma FiltersConserve(patterns: seq<Pattern>, key: Key)
    ensures Named(patterns, key) == Named(Sourced(Kept(patterns)), key)
                                  + Rejected(Rejections(Kept(patterns)), key) + Warned(Warnings(patterns), key)
    ensures |patterns| == |Sourced(Kept(patterns))| + |Rejections(Kept(patterns))| + |Warnings(patterns)|
  {
    FirstFilterConserves(patterns, key);
    TableHoldsTheKeys(patterns);
    FirstKeysAreDistinct(patterns);
    forall k | k in FirstKeys(patterns) ensures KeyOf(Table(patterns)[k]) == k {
      TableIsFiled(patterns, k);
    }
    NamedOnce(Table(patterns), FirstKeys(patterns), key);
    SecondFilterConserves(Kept(patterns), key);
  }

  // ----- What the records say -----

  /** A warning calls the role unknown exactly if it is none of the eleven; otherwise the key was named before. */
  lemma {:induction false} WarningsSayWhy(patterns: seq<Pattern>, w: Warning)
    requires w in Warnings(patterns)
    ensures w.reason == UnknownRole
       <==> w.key.0 !in {"ceo", "cfo", "cto", "cpo", "cmo", "cro", "coo", "csa", "ciso", "cos", "cv"}
    ensures exists p :: p in patterns && (p.role, p.name) == w.key
    ensures w.reason == Duplicate ==>
              exists i, j :: 0 <= i < j < |patterns| && KeyOf(patterns[i]) == w.key == KeyOf(patterns[j])
  {
    var k := |patterns| - 1;
    var before, last := patterns[..k], patterns[k];
    if w in Warnings(before) {
      WarningsSayWhy(before, w);
      if w.reason == Duplicate {
        var i, j :| 0 <= i < j < |before| && KeyOf(before[i]) == w.key == KeyOf(before[j]);
        assert KeyOf(patterns[i]) == w.key == KeyOf(patterns[j]);
      }
    } else {
      assert w.key == KeyOf(last);
      if w.reason == Duplicate {
        var i := NamedBefore(before, w.key);
        assert KeyOf(patterns[i]) == w.key == KeyOf(patterns[k]);
      }
    }
  }

  lemma {:induction false} NamedBefore(patterns: seq<Pattern>, key: Key) returns (i: nat)
    requires key in FirstKeys(patterns)
    ensures i < |patterns| && KeyOf(patterns[i]) == key
  {
    var k := |patterns| - 1;
    if key in FirstKeys(patterns[..k]) {
      i := NamedBefore(patterns[..k], key);
    } else {
      i := k;
    }
  }

  /** A rejection quotes the first 200 characters of the summary of a pattern without evidence. */
  lemma {:induction false} RejectionsQuote(patterns: seq<Pattern>, r: Rejection)
    requires r in Rejections(patterns)
    ensures exists p :: p in patterns && p.evidence == [] && (p.role, p.name) == r.key && r.claim <= p.summary
                        && (|r.claim| == 200 || (|r.claim| < 200 && r.claim == p.summary))
  {
    var k := |patterns| - 1;
    if r in Rejections(patterns[..k]) {
      RejectionsQuote(patterns[..k], r);
    } else {
      assert r == RejectionOf(patterns[k]);
    }
  }
}
