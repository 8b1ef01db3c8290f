/** What the generated id of a profile spells (tauri/src-tauri/src/target_registry.rs). */
module SlugText {
  import opened TargetIds
  import opened Versions

  // ----- Names made of words -----

  predicate Letters(word: seq<Byte>) {
    forall i :: 0 <= i < |word| ==> Alphanumeric(word[i])
  }

  predicate Gap(bytes: seq<Byte>) {
    forall i :: 0 <= i < |bytes| ==> !Alphanumeric(bytes[i])
  }

  /** Words, each followed by a gap, which can be empty only at the end. */
  predicate Spaced(words: seq<seq<Byte>>, gaps: seq<seq<Byte>>) {
    && |words| == |gaps|
    && (forall i :: 0 <= i < |words| ==> words[i] != [] && Letters(words[i]) && Gap(gaps[i]))
    && (forall i :: 0 <= i < |words| - 1 ==> gaps[i] != [])
  }

  function Written(words: seq<seq<Byte>>, gaps: seq<seq<Byte>>): seq<Byte>
    requires |words| == |gaps|
  {
    if words == [] then [] else words[0] + gaps[0] + Written(words[1..], gaps[1..])
  }

  const UPPER := "ABCDEFGHIJKLMNOPQRSTUVWXYZ"
  const LOWER := "abcdefghijklmnopqrstuvwxyz"

  /** The same letter, small: `A` for `a` and so on; digits and small letters stay. */
  predicate SmallOf(b: Byte, c: char) {
    || (c as int == b as int && (c in LOWER || c in "0123456789"))
    || exists i :: 0 <= i < 26 && b as int == UPPER[i] as int && c == LOWER[i]
  }

  ghost predicate SmallWord(word: seq<Byte>, text: string) {
    |text| == |word| && forall i :: 0 <= i < |word| ==> SmallOf(word[i], text[i])
  }

  lemma SmallStays(b: Byte)
    requires 'a' as int <= b as int <= 'z' as int || '0' as int <= b as int <= '9' as int
    ensures Lower(b) as int == b as int && (Lower(b) in LOWER || Lower(b) in "0123456789")
  {
    if 'a' as int <= b as int {
      assert Lower(b) == LOWER[b as int - 'a' as int];
    } else {
      assert Lower(b) == "0123456789"[b as int - '0' as int];
    }
  }

  lemma LowerIsSmall(b: Byte)
    requires Alphanumeric(b)
    ensures SmallOf(b, Lower(b))
  {
    if 'A' as int <= b as int <= 'Z' as int {
      var i := b as int - 'A' as int;
      assert b as int == UPPER[i] as int && Lower(b) == LOWER[i];
    } else {
      SmallStays(b);
    }
  }

  function LowerAll(word: seq<Byte>): string
    requires Letters(word)
  {
    if word == [] then "" else [Lower(word[0])] + LowerAll(word[1..])
  }

  lemma {:induction false} LowerAllIsSmall(word: seq<Byte>)
    requires Letters(word)
    ensures SmallWord(word, LowerAll(word))
  {
    if word != [] {
      LowerIsSmall(word[0]);
      LowerAllIsSmall(word[1..]);
    }
  }

  lemma {:induction false} LowerAllEnds(word: seq<Byte>)
    requires Letters(word) && word != []
    ensures LowerAll(word) != "" && LowerAll(word)[|LowerAll(word)| - 1] != '-'
  {
    if |word| > 1 {
      LowerAllEnds(word[1..]);
    }
  }

  function LowerWords(words: seq<seq<Byte>>): (r: seq<string>)
    requires forall i :: 0 <= i < |words| ==> Letters(words[i])
    ensures |r| == |words| && forall i :: 0 <= i < |r| ==> r[i] == LowerAll(words[i])
  {
    if words == [] then [] else [LowerAll(words[0])] + LowerWords(words[1..])
  }

  // ----- The scan without a limit -----

  function FeedOn(s: Scan, name: seq<Byte>): Scan
    decreases |name|
  {
    if name == [] then s else FeedOn(Feed(s, name[0]), name[1..])
  }

  lemma {:induction false} FeedOnConcat(s: Scan, a: seq<Byte>, b: seq<Byte>)
    ensures FeedOn(s, a + b) == FeedOn(FeedOn(s, a), b)
    decreases |a|
  {
    if a == [] {
      assert a + b == b;
    } else {
      assert (a + b)[1..] == a[1..] + b;
      FeedOnConcat(Feed(s, a[0]), a[1..], b);
    }
  }

  lemma {:induction false} FeedOnGrows(s: Scan, name: seq<Byte>)
    ensures s.text <= FeedOn(s, name).text
    decreases |name|
  {
    if name != [] {
      FeedOnGrows(Feed(s, name[0]), name[1..]);
    }
  }

  /** The limit only cuts: what is kept is a beginning of the whole, of 48 or 49 characters if not all of it. */
  lemma {:induction false} LimitCuts(s: Scan, name: seq<Byte>)
    requires |s.text| < 48
    ensures var all, kept := FeedOn(s, name).text, FeedAll(s, name).text;
            kept <= all && (if |all| <= 48 then kept == all else 48 <= |kept| <= 49)
    decreases |name|
  {
    if name != [] {
      var next := Feed(s, name[0]);
      FeedOnGrows(next, name[1..]);
      if |next.text| < 48 {
        LimitCuts(next, name[1..]);
      }
    }
  }

  lemma Associative<T>(x: seq<T>, y: seq<T>, z: seq<T>)
    ensures (x + y) + z == x + (y + z)
  {
  }

  lemma FeedLetter(s: Scan, b: Byte)
    requires Alphanumeric(b) && (s.pending ==> |s.text| > 7 && s.text[|s.text| - 1] != '-')
    ensures Feed(s, b) == Scan(s.text + (if s.pending then "-" else "") + [Lower(b)], false)
  {
  }

  /** The letters of a word are appended as they come, behind one hyphen if there was a gap. */
  lemma {:induction false} FeedWord(s: Scan, word: seq<Byte>)
    requires Letters(word) && word != [] && (s.pending ==> |s.text| > 7 && s.text[|s.text| - 1] != '-')
    ensures FeedOn(s, word) == Scan(s.text + (if s.pending then "-" else "") + LowerAll(word), false)
    decreases |word|
  {
    var start := s.text + if s.pending then "-" else "";
    FeedLetter(s, word[0]);
    if |word| == 1 {
      assert word[1..] == [];
      assert LowerAll(word) == [Lower(word[0])];
    } else {
      FeedWord(Scan(start + [Lower(word[0])], false), word[1..]);
      assert (start + [Lower(word[0])]) + "" == start + [Lower(word[0])];
      Associative(start, [Lower(word[0])], LowerAll(word[1..]));
    }
  }

  lemma {:induction false} FeedGap(s: Scan, bytes: seq<Byte>)
    requires Gap(bytes)
    ensures FeedOn(s, bytes) == if bytes != [] && |s.text| > 7 then s.(pending := true) else s
    decreases |bytes|
  {
    if bytes != [] {
      FeedGap(Feed(s, bytes[0]), bytes[1..]);
    }
  }

  /** The words from `s` on: the first one, behind a hyphen if there was a gap, and the others behind one each. */
  lemma {:induction false} FeedWords(s: Scan, words: seq<seq<Byte>>, gaps: seq<seq<Byte>>)
    requires Spaced(words, gaps) && words != []
    requires |s.text| >= 7 && (s.pending ==> |s.text| > 7 && s.text[|s.text| - 1] != '-')
    ensures FeedOn(s, Written(words, gaps)).text
         == s.text + (if s.pending then "-" else "") + Join(LowerWords(words), "-")
    decreases |words|
  {
    var start, word := s.text + (if s.pending then "-" else ""), LowerAll(words[0]);
    var next := FeedOn(FeedOn(s, words[0]), gaps[0]);
    FeedFirst(s, words, gaps);
    if |words| == 1 {
      assert LowerWords(words) == [word];
    } else {
      SpacedRest(words, gaps);
      FeedWords(next, words[1..], gaps[1..]);
      assert LowerWords(words)[1..] == LowerWords(words[1..]);
      JoinedLater(start, word, Join(LowerWords(words[1..]), "-"));
    }
  }

  lemma JoinedLater(start: string, word: string, rest: string)
    ensures (start + word) + "-" + rest == start + (word + "-" + rest)
  {
  }

  lemma SpacedRest(words: seq<seq<Byte>>, gaps: seq<seq<Byte>>)
    requires Spaced(words, gaps) && |words| > 1
    ensures Spaced(words[1..], gaps[1..]) && gaps[0] != []
  {
  }

  lemma FeedFirst(s: Scan, words: seq<seq<Byte>>, gaps: seq<seq<Byte>>)
    requires Spaced(words, gaps) && words != []
    requires |s.text| >= 7 && (s.pending ==> |s.text| > 7 && s.text[|s.text| - 1] != '-')
    ensures var next := FeedOn(FeedOn(s, words[0]), gaps[0]);
            && FeedOn(s, Written(words, gaps)) == FeedOn(next, Written(words[1..], gaps[1..]))
            && next.text == s.text + (if s.pending then "-" else "") + LowerAll(words[0])
            && |next.text| > 7 && next.text[|next.text| - 1] != '-' && (next.pending <==> gaps[0] != [])
  {
    FeedOnConcat(s, words[0] + gaps[0], Written(words[1..], gaps[1..]));
    FeedOnConcat(s, words[0], gaps[0]);
    FeedWord(s, words[0]);
    LowerAllEnds(words[0]);
    FeedGap(FeedOn(s, words[0]), gaps[0]);
  }

  // ----- The id -----

  lemma {:induction false} JoinEnds(parts: seq<string>)
    requires parts != [] && parts[|parts| - 1] != ""
    ensures var text, last := Join(parts, "-"), parts[|parts| - 1];
            text != "" && text[|text| - 1] == last[|last| - 1]
  {
    if |parts| > 1 {
      JoinEnds(parts[1..]);
    }
  }

  /** The id of a name made of words is `remote-` and the words in small letters, joined by single hyphens, cut
      after 48 or 49 characters if it is longer than 48. */
  lemma SlugSpellsTheWords(lead: seq<Byte>, words: seq<seq<Byte>>, gaps: seq<seq<Byte>>) returns (small: seq<string>)
    requires Gap(lead) && Spaced(words, gaps) && words != []
    ensures |small| == |words| && forall i :: 0 <= i < |words| ==> SmallWord(words[i], small[i])
    ensures var slug, full := SlugOf(lead + Written(words, gaps)), "remote-" + Join(small, "-");
            if |full| <= 48 then slug == full else slug <= full && 48 <= |slug| <= 49
  {
    small := LowerWords(words);
    forall i | 0 <= i < |words| ensures SmallWord(words[i], small[i]) {
      LowerAllIsSmall(words[i]);
    }
    SlugOfWords(lead, words, gaps);
  }

  lemma WholeText(lead: seq<Byte>, words: seq<seq<Byte>>, gaps: seq<seq<Byte>>)
    requires Gap(lead) && Spaced(words, gaps) && words != []
    ensures FeedOn(Scan("remote-", false), lead + Written(words, gaps)).text
         == "remote-" + Join(LowerWords(words), "-")
  {
    var s := Scan("remote-", false);
    FeedOnConcat(s, lead, Written(words, gaps));
    FeedGap(s, lead);
    FeedWords(s, words, gaps);
    assert "remote-" + "" == "remote-";
  }

  lemma SlugOfWords(lead: seq<Byte>, words: seq<seq<Byte>>, gaps: seq<seq<Byte>>)
    requires Gap(lead) && Spaced(words, gaps) && words != []
    ensures var slug, full := SlugOf(lead + Written(words, gaps)), "remote-" + Join(LowerWords(words), "-");
            if |full| <= 48 then slug == full else slug <= full && 48 <= |slug| <= 49
  {
    var name := lead + Written(words, gaps);
    WholeText(lead, words, gaps);
    LimitCuts(Scan("remote-", false), name);
    LowerAllEnds(words[|words| - 1]);
    JoinEnds(LowerWords(words));
    KeptIsTheSlug(name);
  }

  lemma KeptIsTheSlug(name: seq<Byte>)
    requires |FeedAll(Scan("remote-", false), name).text| > 7
    ensures SlugOf(name) == FeedAll(Scan("remote-", false), name).text
  {
    FeedAllStaysPartial(Scan("remote-", false), name);
    SlugWithWords(FeedAll(Scan("remote-", false), name).text);
  }

  /** Two instants give a name different second choices exactly if they differ in their last nine digits. */
  lemma CandidatesDifferIff(name: seq<Byte>, millis: nat, millis': nat)
    ensures Candidate(name, millis) == Candidate(name, millis')
       <==> millis % 1_000_000_000 == millis' % 1_000_000_000
  {
    DecimalReads(millis % 1_000_000_000);
    DecimalReads(millis' % 1_000_000_000);
    var start := SlugOf(name) + "-";
    assert Candidate(name, millis)[|start|..] == Decimal(millis % 1_000_000_000);
    assert Candidate(name, millis')[|start|..] == Decimal(millis' % 1_000_000_000);
  }
}
