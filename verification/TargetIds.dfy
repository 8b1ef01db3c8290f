/** Profile ids: the accepted shape, and the ids generated from a profile name
    (tauri/src-tauri/src/target_registry.rs). */
module TargetIds {

  newtype Byte = x: int | 0 <= x < 256

  const LOCAL := "local"
  const LEGACY := "legacy-remote"
  const ENV := "env-remote"

  predicate IdChar(c: char) {
    'a' <= c <= 'z' || '0' <= c <= '9' || c == '-'
  }

  predicate ValidId(id: string) {
    && 0 < |id| <= 64
    && (forall i :: 0 <= i < |id| ==> IdChar(id[i]))
    && id[0] != '-' && id[|id| - 1] != '-'
  }

  // ----- slug -----

  predicate Alphanumeric(b: Byte) {
    ('a' as int <= b as int <= 'z' as int) || ('A' as int <= b as int <= 'Z' as int)
        || ('0' as int <= b as int <= '9' as int)
  }

  function Lower(b: Byte): (c: char)
    requires Alphanumeric(b)
    ensures IdChar(c) && c != '-'
  {
    if 'A' as int <= b as int <= 'Z' as int then (b as int + 32) as char else b as int as char
  }

  datatype Scan = Scan(text: string, pending: bool)

  function Feed(s: Scan, b: Byte): Scan {
    if Alphanumeric(b) then
      var separator := if s.pending && |s.text| > 7 && s.text[|s.text| - 1] != '-' then "-" else "";
      Scan(s.text + separator + [Lower(b)], false)
    else if |s.text| > 7 then s.(pending := true)
    else s
  }

  /** Feeds bytes until the text has 48 characters. */
  function FeedAll(s: Scan, name: seq<Byte>): Scan
    decreases |name|
  {
    if name == [] then s
    else
      var next := Feed(s, name[0]);
      if |next.text| >= 48 then next else FeedAll(next, name[1..])
  }

  function DropTrailingHyphens(s: string): string {
    if s != "" && s[|s| - 1] == '-' then DropTrailingHyphens(s[..|s| - 1]) else s
  }

  function SlugOf(name: seq<Byte>): string {
    var text := DropTrailingHyphens(FeedAll(Scan("remote-", false), name).text);
    if text == "remote" then text + "target" else text
  }

  method Slug(name: seq<Byte>) returns (result: string)
    ensures result == SlugOf(name)
    ensures ValidId(result) && |result| <= 49
  {
    result := "remote-";
    var pending := false;
    var i := 0;
    while i < |name|
      invariant 0 <= i <= |name|
      invariant |result| < 48
      invariant FeedAll(Scan("remote-", false), name) == FeedAll(Scan(result, pending), name[i..])
    {
      ghost var before := Scan(result, pending);
      assert name[i..][1..] == name[i + 1..];
      if Alphanumeric(name[i]) {
        if pending && |result| > 7 && result[|result| - 1] != '-' {
          result := result + "-";
        }
        result := result + [Lower(name[i])];
        pending := false;
      } else if |result| > 7 {
        pending := true;
      }
      assert Feed(before, name[i]) == Scan(result, pending);
      i := i + 1;
      if |result| >= 48 {
        break;
      }
    }
    ghost var scanned := result;
    assert scanned == FeedAll(Scan("remote-", false), name).text;
    while result != "" && result[|result| - 1] == '-'
      invariant DropTrailingHyphens(scanned) == DropTrailingHyphens(result)
      decreases |result|
    {
      result := result[..|result| - 1];
    }
    if result == "remote" {
      result := result + "target";
    }
    SlugIsValid(name);
  }

  /** While a name is scanned: `remote-`, then lower-case words joined by single hyphens. */
  ghost predicate Partial(text: string) {
    && 7 <= |text| <= 49 && text[..7] == "remote-"
    && (forall i :: 0 <= i < |text| ==> IdChar(text[i]))
    && (|text| > 7 ==> text[|text| - 1] != '-')
  }

  lemma FeedStaysPartial(s: Scan, b: Byte)
    requires Partial(s.text) && |s.text| < 48
    ensures Partial(Feed(s, b).text) && |s.text| <= |Feed(s, b).text|
    ensures Alphanumeric(b) ==> |Feed(s, b).text| > 7
    ensures !Alphanumeric(b) ==> Feed(s, b).text == s.text
  {
  }

  lemma {:induction false} FeedAllStaysPartial(s: Scan, name: seq<Byte>)
    requires Partial(s.text) && |s.text| < 48
    ensures Partial(FeedAll(s, name).text) && |s.text| <= |FeedAll(s, name).text|
    ensures |FeedAll(s, name).text| == 7 <==> |s.text| == 7 && forall b :: b in name ==> !Alphanumeric(b)
    decreases |name|
  {
    if name != [] {
      FeedStaysPartial(s, name[0]);
      var next := Feed(s, name[0]);
      if |next.text| < 48 {
        FeedAllStaysPartial(next, name[1..]);
      }
      if forall b :: b in name ==> !Alphanumeric(b) {
        assert name[0] in name;
      }
    }
  }

  lemma SlugWithoutWords()
    ensures DropTrailingHyphens("remote-") == "remote"
  {
    assert "remote-"[..6] == "remote";
  }

  lemma SlugWithWords(text: string)
    requires Partial(text) && |text| > 7
    ensures ValidId(text) && DropTrailingHyphens(text) == text
    ensures text[..6] == "remote" && text[6] == '-'
  {
    assert text[..6] == text[..7][..6] == "remote";
    assert text[6] == text[..7][6];
  }

  /** Every name gives an accepted id of at most 49 characters that starts with `remote`.
      A name without a single ASCII letter or digit gives `remotetarget`, with no hyphen. */
  lemma SlugIsValid(name: seq<Byte>)
    ensures ValidId(SlugOf(name)) && 8 <= |SlugOf(name)| <= 49 && SlugOf(name)[..6] == "remote"
    ensures SlugOf(name) == "remotetarget" <==> forall b :: b in name ==> !Alphanumeric(b)
  {
    var text := FeedAll(Scan("remote-", false), name).text;
    FeedAllStaysPartial(Scan("remote-", false), name);
    if |text| == 7 {
      assert text == text[..7] == "remote-";
      SlugWithoutWords();
      assert SlugOf(name) == "remotetarget";
    } else {
      SlugWithWords(text);
      assert SlugOf(name) == text;
      assert text[6] != "remotetarget"[6];
    }
  }

  // ----- unique ids -----

  function Digit(d: nat): (c: char)
    requires d < 10
    ensures IdChar(c) && c != '-'
  {
    ('0' as int + d) as char
  }

  function Decimal(n: nat): (s: string)
    ensures |s| > 0 && forall i :: 0 <= i < |s| ==> IdChar(s[i]) && s[i] != '-'
  {
    if n < 10 then [Digit(n)] else Decimal(n / 10) + [Digit(n % 10)]
  }

  function Pow10(k: nat): (p: nat)
    ensures p > 0
  {
    if k == 0 then 1 else 10 * Pow10(k - 1)
  }

  lemma {:induction false} DecimalLength(n: nat, k: nat)
    requires k > 0 && n < Pow10(k)
    ensures |Decimal(n)| <= k
  {
    if n >= 10 {
      assert k > 1;
      DecimalLength(n / 10, k - 1);
    }
  }

  function Candidate(name: seq<Byte>, millis: nat): string {
    SlugOf(name) + "-" + Decimal(millis % 1_000_000_000)
  }

  function UniqueId(taken: set<string>, name: seq<Byte>, millis: nat): string {
    var base := SlugOf(name);
    if base !in taken then base
    else if Candidate(name, millis) !in taken then Candidate(name, millis)
    else base + "-1"
  }

  /** A generated id is always accepted, never a reserved one, and at most 59 characters.
      It is free unless all three forms are taken: the last form is used without a check. */
  lemma UniqueIdIsUsable(taken: set<string>, name: seq<Byte>, millis: nat)
    ensures ValidId(UniqueId(taken, name, millis)) && |UniqueId(taken, name, millis)| <= 59
    ensures UniqueId(taken, name, millis) !in {LOCAL, ENV, LEGACY}
    ensures UniqueId(taken, name, millis) in taken
       <==> SlugOf(name) in taken && Candidate(name, millis) in taken && SlugOf(name) + "-1" in taken
  {
    SlugIsValid(name);
    var base := SlugOf(name);
    var n := millis % 1_000_000_000;
    assert n < Pow10(9) by {
      assert Pow10(3) == 1000;
      assert Pow10(6) == 1000 * Pow10(3);
      assert Pow10(9) == 1000 * Pow10(6);
    }
    DecimalLength(n, 9);
    assert base[0] == base[..6][0] == 'r';
    assert UniqueId(taken, name, millis)[0] == 'r';
    assert LOCAL[0] == 'l' && ENV[0] == 'e' && LEGACY[0] == 'l';
  }
}
