/** Release comparison (board-ui/src/panes/settings/updateVersions.ts). */
module Versions {
  import opened Wrappers
  import opened TargetIds

  /** A version as the feeds publish it; `None` is an absent one. */
  type Version = Option<string>

  // ----- Reading a version -----

  /** The text before the first '+' or '-'. */
  function Core(v: string): string {
    if v == "" || v[0] == '+' || v[0] == '-' then "" else [v[0]] + Core(v[1..])
  }

  function SplitDots(v: string): (r: seq<string>)
    ensures r != []
  {
    if v == "" then [""]
    else
      var rest := SplitDots(v[1..]);
      if v[0] == '.' then [""] + rest else [[v[0]] + rest[0]] + rest[1..]
  }

  predicate IsDigit(c: char) {
    '0' <= c <= '9'
  }

  predicate IsBlank(c: char) {
    c == ' ' || '\t' <= c <= '\r'
  }

  /** The value of the leading digits, 0 when there are none. */
  function Leading(s: string, sofar: nat): nat {
    if s == "" || !IsDigit(s[0]) then sofar else Leading(s[1..], 10 * sofar + (s[0] - '0') as int)
  }

  function SkipBlanks(s: string): string {
    if s != "" && IsBlank(s[0]) then SkipBlanks(s[1..]) else s
  }

  function Number(s: string): nat {
    Leading(SkipBlanks(s), 0)
  }

  function Numbers(parts: seq<string>): (r: seq<nat>)
    ensures |r| == |parts|
  {
    if parts == [] then [] else [Number(parts[0])] + Numbers(parts[1..])
  }

  function Parts(v: string): (r: seq<nat>)
    ensures r != []
  {
    Numbers(SplitDots(Core(v)))
  }

  // ----- The order -----

  function At(x: seq<nat>, i: nat): nat {
    if i < |x| then x[i] else 0
  }

  /** `i` is the first place at which the two differ, missing numbers counting as 0. */
  ghost predicate FirstDifference(x: seq<nat>, y: seq<nat>, i: nat) {
    At(x, i) != At(y, i) && forall j: nat :: j < i ==> At(x, j) == At(y, j)
  }

  /** Lexicographic order after padding with zeros. */
  ghost predicate Above(x: seq<nat>, y: seq<nat>) {
    exists i: nat :: FirstDifference(x, y, i) && At(x, i) > At(y, i)
  }

  ghost predicate SamePadded(x: seq<nat>, y: seq<nat>) {
    forall i: nat :: At(x, i) == At(y, i)
  }

  predicate Present(v: Version) {
    v.Some? && v.value != ""
  }

  ghost predicate NewerThan(a: Version, b: Version) {
    Present(a) && Present(b) && Above(Parts(a.value), Parts(b.value))
  }

  method Newer(a: Version, b: Version) returns (r: bool)
    ensures r <==> NewerThan(a, b)
  {
    if a.None? || b.None? || a.value == "" || b.value == "" {
      return false;
    }
    var x, y := Parts(a.value), Parts(b.value);
    var n := if |x| > |y| then |x| else |y|;
    for i := 0 to n
      invariant forall j: nat :: j < i ==> At(x, j) == At(y, j)
    {
      var p, q := if i < |x| then x[i] else 0, if i < |y| then y[i] else 0;
      if p != q {
        assert FirstDifference(x, y, i);
        if Above(x, y) {
          var k: nat :| FirstDifference(x, y, k) && At(x, k) > At(y, k);
          FirstDifferenceIsUnique(x, y, i, k);
        }
        return p > q;
      }
    }
    assert SamePadded(x, y);
    return false;
  }

  lemma FirstDifferenceIsUnique(x: seq<nat>, y: seq<nat>, i: nat, k: nat)
    requires FirstDifference(x, y, i) && FirstDifference(x, y, k)
    ensures i == k
  {
  }

  lemma DifferentHasFirst(x: seq<nat>, y: seq<nat>, i: nat) returns (k: nat)
    requires At(x, i) != At(y, i)
    ensures FirstDifference(x, y, k) && k <= i
  {
    k := 0;
    while At(x, k) == At(y, k)
      invariant k <= i && forall j: nat :: j < k ==> At(x, j) == At(y, j)
      decreases i - k
    {
      k := k + 1;
    }
  }

  /** Two number lists are incomparable exactly when they are equal after padding with zeros. */
  lemma NeitherAboveIffSame(x: seq<nat>, y: seq<nat>)
    ensures !Above(x, y) && !Above(y, x) <==> SamePadded(x, y)
  {
    if !SamePadded(x, y) {
      var i: nat :| At(x, i) != At(y, i);
      var k := DifferentHasFirst(x, y, i);
      assert FirstDifference(y, x, k);
    }
  }

  lemma AboveIsAsymmetric(x: seq<nat>, y: seq<nat>)
    requires Above(x, y)
    ensures !Above(y, x)
  {
    var i: nat :| FirstDifference(x, y, i) && At(x, i) > At(y, i);
    forall k: nat | FirstDifference(y, x, k) ensures At(y, k) <= At(x, k) {
      FirstDifferenceIsUnique(x, y, i, k);
    }
  }

  lemma AboveIsTransitive(x: seq<nat>, y: seq<nat>, z: seq<nat>)
    requires Above(x, y) && Above(y, z)
    ensures Above(x, z)
  {
    var i: nat :| FirstDifference(x, y, i) && At(x, i) > At(y, i);
    var k: nat :| FirstDifference(y, z, k) && At(y, k) > At(z, k);
    var first := if i < k then i else k;
    assert forall j: nat :: j < first ==> At(x, j) == At(y, j) && At(y, j) == At(z, j);
    assert FirstDifference(x, z, first);
  }

  /** `newer` is a strict order on versions of any lengths: irreflexive, asymmetric, transitive. */
  lemma NewerIsAStrictOrder(a: Version, b: Version, c: Version)
    ensures !NewerThan(a, a)
    ensures NewerThan(a, b) ==> !NewerThan(b, a)
    ensures NewerThan(a, b) && NewerThan(b, c) ==> NewerThan(a, c)
  {
    if NewerThan(a, b) {
      AboveIsAsymmetric(Parts(a.value), Parts(b.value));
      if NewerThan(b, c) {
        AboveIsTransitive(Parts(a.value), Parts(b.value), Parts(c.value));
      }
    }
  }

  ghost predicate Incomparable(a: Version, b: Version) {
    !NewerThan(a, b) && !NewerThan(b, a)
  }

  /** Versions that are present are incomparable exactly when their numbers are equal after padding
      with zeros. */
  lemma IncomparableIffSame(a: Version, b: Version)
    requires Present(a) && Present(b)
    ensures Incomparable(a, b) <==> SamePadded(Parts(a.value), Parts(b.value))
  {
    NeitherAboveIffSame(Parts(a.value), Parts(b.value));
  }

  /** So the order is weak: among present versions, being incomparable is transitive. */
  lemma IncomparabilityIsTransitive(a: Version, b: Version, c: Version)
    requires Present(a) && Present(b) && Present(c)
    requires Incomparable(a, b) && Incomparable(b, c)
    ensures Incomparable(a, c)
  {
    IncomparableIffSame(a, b);
    IncomparableIffSame(b, c);
    IncomparableIffSame(a, c);
  }

  /** With absent versions let in, being incomparable is no longer transitive: an absent version
      is incomparable to all others. */
  lemma AbsentBreaksIncomparability()
    ensures Incomparable(Some("2"), None) && Incomparable(None, Some("1"))
    ensures NewerThan(Some("2"), Some("1"))
  {
    SingleDigit('1');
    SingleDigit('2');
    assert FirstDifference(Parts("2"), Parts("1"), 0);
  }

  /** The exact condition is on the middle version alone: incomparability goes through it for all
      others exactly if it is present. */
  lemma IncomparabilityPassesIffPresent(b: Version)
    ensures (forall a, c :: Incomparable(a, b) && Incomparable(b, c) ==> Incomparable(a, c)) <==> Present(b)
  {
    if Present(b) {
      forall a, c | Incomparable(a, b) && Incomparable(b, c) ensures Incomparable(a, c) {
        if Present(a) && Present(c) {
          IncomparabilityIsTransitive(a, b, c);
        }
      }
    } else {
      AbsentBreaksIncomparability();
      assert Incomparable(Some("2"), b) && Incomparable(b, Some("1"));
    }
  }

  lemma SingleDigit(c: char)
    requires IsDigit(c)
    ensures Parts([c]) == [(c - '0') as int]
  {
    assert Core([c]) == [c];
    assert SplitDots([c]) == [[c]];
    assert [c][1..] == "" && SkipBlanks([c]) == [c];
    assert Leading([c], 0) == Leading("", (c - '0') as int) == (c - '0') as int;
  }

  // ----- Versions as they are written -----

  predicate Digits(s: string) {
    forall i :: 0 <= i < |s| ==> s[i] in "0123456789"
  }

  predicate Blanks(s: string) {
    forall i :: 0 <= i < |s| ==> s[i] in " \t\n\r\U{0B}\U{0C}"
  }

  /** The part begins with the decimal numeral of `n`, after blanks, or has none and counts as 0. */
  ghost predicate Spells(part: string, blanks: string, n: nat, junk: string) {
    && Blanks(blanks) && (junk == "" || junk[0] !in "0123456789")
    && (part == blanks + Decimal(n) + junk
        || (n == 0 && part == blanks + junk && (junk == "" || !Blanks(junk[..1]))))
  }

  lemma {:induction false} LeadingThrough(s: string, t: string, sofar: nat)
    requires Digits(s)
    ensures Leading(s + t, sofar) == Leading(t, Leading(s, sofar))
    decreases |s|
  {
    if s == "" {
      assert s + t == t;
    } else {
      assert (s + t)[1..] == s[1..] + t;
      LeadingThrough(s[1..], t, 10 * sofar + (s[0] - '0') as int);
    }
  }

  lemma {:induction false} DecimalDigits(n: nat)
    ensures Digits(Decimal(n))
  {
    if n >= 10 {
      DecimalDigits(n / 10);
    }
  }

  /** A numeral reads as its number. */
  lemma {:induction false} DecimalReads(n: nat)
    ensures Leading(Decimal(n), 0) == n
  {
    if n < 10 {
      assert Decimal(n)[1..] == "";
    } else {
      DecimalReads(n / 10);
      DecimalDigits(n / 10);
      LeadingThrough(Decimal(n / 10), [Digit(n % 10)], 0);
      assert [Digit(n % 10)][1..] == "";
    }
  }

  lemma {:induction false} SkipsBlanks(blanks: string, s: string)
    requires Blanks(blanks) && (s == "" || !Blanks(s[..1]))
    ensures SkipBlanks(blanks + s) == s
  {
    if blanks == "" {
      assert blanks + s == s && (s != "" ==> s[..1][0] == s[0]);
    } else {
      assert (blanks + s)[1..] == blanks[1..] + s;
      SkipsBlanks(blanks[1..], s);
    }
  }

  lemma PartReads(part: string, blanks: string, n: nat, junk: string)
    requires Spells(part, blanks, n, junk)
    ensures Number(part) == n
  {
    if part == blanks + Decimal(n) + junk {
      var s := Decimal(n) + junk;
      DecimalDigits(n);
      assert s[..1][0] == Decimal(n)[0];
      assert part == blanks + s;
      SkipsBlanks(blanks, s);
      LeadingThrough(Decimal(n), junk, 0);
      DecimalReads(n);
    } else {
      SkipsBlanks(blanks, junk);
    }
  }

  predicate Without(s: string, stops: string) {
    forall i :: 0 <= i < |s| ==> s[i] !in stops
  }

  lemma {:induction false} CoreStops(s: string, tail: string)
    requires Without(s, "+-") && (tail == "" || tail[0] in "+-")
    ensures Core(s + tail) == s
  {
    if s == "" {
      assert s + tail == tail;
    } else {
      assert (s + tail)[1..] == s[1..] + tail;
      CoreStops(s[1..], tail);
    }
  }

  lemma {:induction false} SplitPart(part: string, rest: string)
    requires Without(part, ".")
    ensures SplitDots(part) == [part]
    ensures SplitDots(part + "." + rest) == [part] + SplitDots(rest)
  {
    if part == "" {
      assert part + "." + rest == "." + rest && ("." + rest)[1..] == rest;
    } else {
      SplitPart(part[1..], rest);
      assert (part + "." + rest)[1..] == part[1..] + "." + rest;
      assert [part[0]] + part[1..] == part;
    }
  }

  lemma {:induction false} SplitOfJoin(parts: seq<string>)
    requires parts != [] && forall i :: 0 <= i < |parts| ==> Without(parts[i], ".")
    ensures SplitDots(Join(parts, ".")) == parts
  {
    if |parts| == 1 {
      SplitPart(parts[0], "");
    } else {
      SplitOfJoin(parts[1..]);
      SplitPart(parts[0], Join(parts[1..], "."));
      assert [parts[0]] + parts[1..] == parts;
    }
  }

  lemma {:induction false} JoinWithout(parts: seq<string>, stops: string)
    requires '.' !in stops && forall i :: 0 <= i < |parts| ==> Without(parts[i], stops)
    ensures Without(Join(parts, "."), stops)
  {
    if |parts| > 1 {
      JoinWithout(parts[1..], stops);
    }
  }

  /** A dotted version reads as the numbers that its parts spell, at any number of parts and digits; text after
      a numeral, and everything from the first `+` or `-` on, is ignored. */
  lemma VersionReadsItsNumbers(parts: seq<string>, numbers: seq<nat>, blanks: seq<string>, junk: seq<string>,
                               tail: string)
    requires |parts| == |numbers| == |blanks| == |junk| > 0
    requires forall i :: 0 <= i < |parts| ==> Spells(parts[i], blanks[i], numbers[i], junk[i])
    requires forall i :: 0 <= i < |parts| ==> Without(parts[i], ".+-")
    requires tail == "" || tail[0] in "+-"
    ensures Parts(Join(parts, ".") + tail) == numbers
  {
    forall i | 0 <= i < |parts| ensures Without(parts[i], ".") && Without(parts[i], "+-") {
    }
    JoinWithout(parts, "+-");
    CoreStops(Join(parts, "."), tail);
    SplitOfJoin(parts);
    forall i | 0 <= i < |parts| ensures Number(parts[i]) == numbers[i] {
      PartReads(parts[i], blanks[i], numbers[i], junk[i]);
    }
    NumbersAre(parts, numbers);
  }

  lemma {:induction false} NumbersAre(parts: seq<string>, numbers: seq<nat>)
    requires |parts| == |numbers| && forall i :: 0 <= i < |parts| ==> Number(parts[i]) == numbers[i]
    ensures Numbers(parts) == numbers
  {
    if parts != [] {
      NumbersAre(parts[1..], numbers[1..]);
    }
  }

  /** A release tag. */
  function Tag(x: nat, y: nat, z: nat): string {
    Join([Decimal(x), Decimal(y), Decimal(z)], ".")
  }

  lemma TagReads(x: nat, y: nat, z: nat, tail: string)
    requires tail == "" || tail[0] in "+-"
    ensures Parts(Tag(x, y, z) + tail) == [x, y, z] && Tag(x, y, z) + tail != ""
  {
    DecimalDigits(x);
    DecimalDigits(y);
    DecimalDigits(z);
    var parts, numbers, none := [Decimal(x), Decimal(y), Decimal(z)], [x, y, z], ["", "", ""];
    forall i | 0 <= i < 3 ensures Spells(parts[i], none[i], numbers[i], none[i]) && Without(parts[i], ".+-") {
      assert parts[i] == "" + Decimal(numbers[i]) + "";
    }
    VersionReadsItsNumbers(parts, numbers, none, none, tail);
    assert |Tag(x, y, z)| >= |Decimal(x)|;
  }

  /** Release tags compare by their numbers, the first one first, whatever follows a `+` or `-`. */
  lemma TagsCompareByNumbers(x: nat, y: nat, z: nat, tail: string, x': nat, y': nat, z': nat, tail': string)
    requires (tail == "" || tail[0] in "+-") && (tail' == "" || tail'[0] in "+-")
    ensures NewerThan(Some(Tag(x, y, z) + tail), Some(Tag(x', y', z') + tail'))
       <==> x > x' || (x == x' && (y > y' || (y == y' && z > z')))
  {
    TagReads(x, y, z, tail);
    TagReads(x', y', z', tail');
    var a, b := [x, y, z], [x', y', z'];
    assert At(a, 0) == x && At(a, 1) == y && At(a, 2) == z;
    assert At(b, 0) == x' && At(b, 1) == y' && At(b, 2) == z';
    var i := if x != x' then 0 else if y != y' then 1 else 2;
    if (x, y, z) != (x', y', z') {
      assert FirstDifference(a, b, i);
      if Above(a, b) {
        var k: nat :| FirstDifference(a, b, k) && At(a, k) > At(b, k);
        FirstDifferenceIsUnique(a, b, i, k);
      }
    }
  }

  // ----- What the next apply would move -----

  /** The parts of the message, before they are joined with " · ". */
  method PendingUpdates(core: Version, latestCore: Version, pro: Version, latestPro: Version)
    returns (parts: seq<string>)
    ensures parts == (if NewerThan(latestCore, core) then ["kompany " + latestCore.value] else [])
                   + (if NewerThan(latestPro, pro) then ["pro " + latestPro.value] else [])
    ensures parts == [] <==> !NewerThan(latestCore, core) && !NewerThan(latestPro, pro)
  {
    parts := [];
    var coreBehind := Newer(latestCore, core);
    if coreBehind {
      parts := parts + ["kompany " + latestCore.value];
    }
    if pro.Some? && pro.value != "" {
      var proBehind := Newer(latestPro, pro);
      if proBehind {
        parts := parts + ["pro " + latestPro.value];
      }
    }
  }

  function Join(parts: seq<string>, separator: string): string {
    if parts == [] then ""
    else if |parts| == 1 then parts[0]
    else parts[0] + separator + Join(parts[1..], separator)
  }

  /** Nothing is announced exactly when neither installed package is behind. */
  lemma NothingPendingIff(core: Version, latestCore: Version, pro: Version, latestPro: Version, separator: string)
    ensures Join((if NewerThan(latestCore, core) then ["kompany " + latestCore.value] else [])
               + (if NewerThan(latestPro, pro) then ["pro " + latestPro.value] else []), separator) == ""
       <==> !NewerThan(latestCore, core) && !NewerThan(latestPro, pro)
  {
  }
}
