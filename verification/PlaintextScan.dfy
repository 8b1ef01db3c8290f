/** Rejecting broker responses that carry plaintext secrets
    (kompany/src/kompany/core/credential_broker.py). */
module PlaintextScan {

  /** An object is its keys and its values; the scan never looks up a value by its key. */
  datatype Json = Scalar | Arr(items: seq<Json>) | Obj(keys: seq<string>, values: seq<Json>)

  const FORBIDDEN: set<string> :=
    {"credential", "password", "plaintext", "raw_secret", "secret", "secret_value"}

  predicate HasForbiddenKey(keys: seq<string>) {
    exists key :: key in keys && key in FORBIDDEN
  }

  /** What the scan puts on its worklist for one value. */
  function Children(j: Json): seq<Json> {
    match j
    case Scalar => []
    case Arr(items) => items
    case Obj(_, values) => values
  }

  predicate Bad(j: Json) {
    j.Obj? && HasForbiddenKey(j.keys)
  }

  // ----- The recursive definition -----

  function Size(j: Json): nat {
    1 + match j
      case Scalar => 0
      case Arr(items) => Sizes(items)
      case Obj(_, values) => Sizes(values)
  }

  function Sizes(s: seq<Json>): nat {
    if s == [] then 0 else Size(s[0]) + Sizes(s[1..])
  }

  /** Some object at any depth has a forbidden key. */
  predicate Forbidden(j: Json) {
    match j
    case Scalar => false
    case Arr(items) => AnyForbidden(items)
    case Obj(keys, values) => HasForbiddenKey(keys) || AnyForbidden(values)
  }

  predicate AnyForbidden(s: seq<Json>) {
    s != [] && (Forbidden(s[0]) || AnyForbidden(s[1..]))
  }

  lemma {:induction false} SizeInside(s: seq<Json>, i: nat)
    requires i < |s|
    ensures Sizes(s) == Size(s[i]) + Sizes(s[..i] + s[i + 1..])
  {
    if i == 0 {
      assert s[..0] + s[1..] == s[1..];
    } else {
      SizeInside(s[1..], i - 1);
      assert (s[..i] + s[i + 1..])[1..] == s[1..][..i - 1] + s[1..][i..];
    }
  }

  lemma {:induction false} SizesConcat(a: seq<Json>, b: seq<Json>)
    ensures Sizes(a + b) == Sizes(a) + Sizes(b)
  {
    if a == [] {
      assert a + b == b;
    } else {
      SizesConcat(a[1..], b);
      assert (a + b)[1..] == a[1..] + b;
    }
  }

  lemma {:induction false} AnyForbiddenConcat(a: seq<Json>, b: seq<Json>)
    ensures AnyForbidden(a + b) <==> AnyForbidden(a) || AnyForbidden(b)
  {
    if a == [] {
      assert a + b == b;
    } else {
      AnyForbiddenConcat(a[1..], b);
      assert (a + b)[1..] == a[1..] + b;
    }
  }

  // ----- The same, by paths -----

  predicate Path(j: Json, path: seq<nat>) {
    path == [] || (path[0] < |Children(j)| && Path(Children(j)[path[0]], path[1..]))
  }

  function At(j: Json, path: seq<nat>): Json
    requires Path(j, path)
  {
    if path == [] then j else At(Children(j)[path[0]], path[1..])
  }

  ghost predicate BadSomewhere(j: Json) {
    exists path :: Path(j, path) && Bad(At(j, path))
  }

  lemma {:induction false} AnyForbiddenHasIndex(s: seq<Json>)
    ensures AnyForbidden(s) <==> exists i :: 0 <= i < |s| && Forbidden(s[i])
  {
    if s != [] {
      AnyForbiddenHasIndex(s[1..]);
      if i :| 0 <= i < |s| && Forbidden(s[i]) {
        assert i > 0 ==> s[1..][i - 1] == s[i];
      }
      if i :| 0 <= i < |s[1..]| && Forbidden(s[1..][i]) {
        assert s[i + 1] == s[1..][i];
      }
    }
  }

  lemma SmallerInside(s: seq<Json>, i: nat)
    requires i < |s|
    ensures Size(s[i]) <= Sizes(s)
  {
    SizeInside(s, i);
  }

  /** The recursive definition says what it should: following children from the response, some
      path ends at an object with a forbidden key. */
  lemma {:induction false} ForbiddenIffSomePath(j: Json)
    ensures Forbidden(j) <==> BadSomewhere(j)
    decreases Size(j)
  {
    AnyForbiddenHasIndex(Children(j));
    if Bad(j) {
      assert Path(j, []) && At(j, []) == j;
    }
    if i :| 0 <= i < |Children(j)| && Forbidden(Children(j)[i]) {
      SmallerInside(Children(j), i);
      ForbiddenIffSomePath(Children(j)[i]);
      var path :| Path(Children(j)[i], path) && Bad(At(Children(j)[i], path));
      assert ([i] + path)[1..] == path;
      assert Path(j, [i] + path) && At(j, [i] + path) == At(Children(j)[i], path);
    }
    if path :| Path(j, path) && Bad(At(j, path)) && path != [] {
      SmallerInside(Children(j), path[0]);
      ForbiddenIffSomePath(Children(j)[path[0]]);
      assert Path(Children(j)[path[0]], path[1..]);
    }
  }

  // ----- The worklist -----

  /** Takes one value off the worklist and puts its children on. */
  function Expand(pending: seq<Json>, i: nat): seq<Json>
    requires i < |pending|
  {
    pending[..i] + pending[i + 1..] + Children(pending[i])
  }

  lemma ExpandShrinks(pending: seq<Json>, i: nat)
    requires i < |pending|
    ensures Sizes(Expand(pending, i)) == Sizes(pending) - 1
  {
    SizeInside(pending, i);
    SizesConcat(pending[..i] + pending[i + 1..], Children(pending[i]));
  }

  lemma AnyForbiddenSplit(s: seq<Json>, i: nat)
    requires i < |s|
    ensures AnyForbidden(s) <==> Forbidden(s[i]) || AnyForbidden(s[..i] + s[i + 1..])
  {
    var before, rest, after := s[..i], s[i..], s[i + 1..];
    assert s == before + rest && rest[1..] == after;
    AnyForbiddenConcat(before, rest);
    AnyForbiddenConcat(before, after);
  }

  lemma ExpandKeeps(pending: seq<Json>, i: nat)
    requires i < |pending|
    ensures AnyForbidden(pending) <==> Bad(pending[i]) || AnyForbidden(Expand(pending, i))
  {
    AnyForbiddenSplit(pending, i);
    AnyForbiddenConcat(pending[..i] + pending[i + 1..], Children(pending[i]));
  }

  /** True when the response is rejected. The worklist is popped from its end. */
  method RejectPlaintext(payload: Json) returns (rejected: bool)
    ensures rejected <==> Forbidden(payload)
  {
    var pending := [payload];
    assert AnyForbidden(pending) == Forbidden(payload);
    while pending != []
      invariant AnyForbidden(pending) <==> Forbidden(payload)
      decreases Sizes(pending)
    {
      var value := pending[|pending| - 1];
      ExpandKeeps(pending, |pending| - 1);
      ExpandShrinks(pending, |pending| - 1);
      assert Expand(pending, |pending| - 1) == pending[..|pending| - 1] + Children(value);
      pending := pending[..|pending| - 1];
      match value {
        case Obj(keys, values) =>
          if HasForbiddenKey(keys) {
            return true;
          }
          pending := pending + values;
        case Arr(items) =>
          pending := pending + items;
        case Scalar =>
          assert pending + [] == pending;
      }
    }
    return false;
  }

  /** The scan with any rule for which pending value to take next. */
  predicate ScanBy(pick: seq<Json> -> nat, pending: seq<Json>)
    decreases Sizes(pending)
  {
    if pending == [] then false
    else
      var i := pick(pending) % |pending|;
      ExpandShrinks(pending, i);
      Bad(pending[i]) || ScanBy(pick, Expand(pending, i))
  }

  /** Every order terminates and gives the same answer. */
  lemma {:induction false} OrderIsIrrelevant(pick: seq<Json> -> nat, pending: seq<Json>)
    ensures ScanBy(pick, pending) <==> AnyForbidden(pending)
    decreases Sizes(pending)
  {
    if pending != [] {
      var i := pick(pending) % |pending|;
      ExpandShrinks(pending, i);
      ExpandKeeps(pending, i);
      OrderIsIrrelevant(pick, Expand(pending, i));
    }
  }

  predicate OneOfTheSix(key: string) {
    key in {"credential", "password", "plaintext", "raw_secret", "secret", "secret_value"}
  }

  predicate HasOneOfTheSix(j: Json) {
    j.Obj? && exists i | 0 <= i < |j.keys| :: OneOfTheSix(j.keys[i])
  }

  lemma BadIff(j: Json)
    ensures Bad(j) <==> HasOneOfTheSix(j)
  {
    if j.Obj? {
      if key :| key in j.keys && key in FORBIDDEN {
        var i :| 0 <= i < |j.keys| && j.keys[i] == key;
        assert OneOfTheSix(j.keys[i]);
      }
      if i :| 0 <= i < |j.keys| && OneOfTheSix(j.keys[i]) {
        assert j.keys[i] in j.keys && j.keys[i] in FORBIDDEN;
      }
    }
  }

  ghost predicate SixSomewhere(j: Json) {
    exists path :: Path(j, path) && HasOneOfTheSix(At(j, path))
  }

  /** A document is refused exactly if some object in it, at any depth, has one of the six keys. */
  lemma RefusedIff(j: Json)
    ensures Forbidden(j) <==> SixSomewhere(j)
  {
    ForbiddenIffSomePath(j);
    if BadSomewhere(j) {
      var path :| Path(j, path) && Bad(At(j, path));
      BadIff(At(j, path));
      assert HasOneOfTheSix(At(j, path));
    }
    if SixSomewhere(j) {
      var path :| Path(j, path) && HasOneOfTheSix(At(j, path));
      BadIff(At(j, path));
      assert Bad(At(j, path));
    }
  }
}
