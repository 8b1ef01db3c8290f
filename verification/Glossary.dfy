/** The company glossary that the drift scan reads (kompany/src/kompany/state/glossary.py). */
module Glossary {
  import opened Wrappers
  import opened GlossaryScan

  /** Case folding, which stays abstract. */
  type Fold = string -> string

  // ----- One entry -----

  /** Synonyms stripped, without blanks, and each only once up to case. */
  function Normalized(t: Text, fold: Fold, seen: set<string>, raw: seq<string>): seq<string>
    decreases |raw|
  {
    if raw == [] then []
    else
      var s := t.strip(raw[0]);
      if s == "" || fold(s) in seen then Normalized(t, fold, seen, raw[1..])
      else [s] + Normalized(t, fold, seen + {fold(s)}, raw[1..])
  }

  method NormalizeSynonyms(t: Text, fold: Fold, raw: seq<string>) returns (out: seq<string>)
    ensures out == Normalized(t, fold, {}, raw)
  {
    out := [];
    var seen: set<string> := {};
    for k := 0 to |raw|
      invariant out + Normalized(t, fold, seen, raw[k..]) == Normalized(t, fold, {}, raw)
    {
      assert raw[k..][1..] == raw[k + 1..];
      var stripped := t.strip(raw[k]);
      if stripped == "" {
        continue;
      }
      if fold(stripped) in seen {
        continue;
      }
      Sorting.ConcatAssociates(out, [stripped], Normalized(t, fold, seen + {fold(stripped)}, raw[k + 1..]));
      seen := seen + {fold(stripped)};
      out := out + [stripped];
    }
    assert out + [] == out;
  }

  predicate Names(fold: Fold, synonyms: seq<string>, key: string) {
    exists s | s in synonyms :: fold(s) == key
  }

  /** A term that is blank, or among its own synonyms, is refused. */
  function MakeEntry(t: Text, fold: Fold, term: string, raw: seq<string>): Option<Entry> {
    var synonyms := Normalized(t, fold, {}, raw);
    if t.strip(term) == "" || Names(fold, synonyms, fold(t.strip(term))) then None
    else Some(Entry(t.strip(term), synonyms))
  }

  /** Stripping twice is stripping once. */
  ghost predicate StripsOnce(t: Text) {
    forall s :: t.strip(t.strip(s)) == t.strip(s)
  }

  lemma {:induction false} NormalizedIsStripped(t: Text, fold: Fold, seen: set<string>, raw: seq<string>)
    requires StripsOnce(t)
    ensures Stripped(t, Normalized(t, fold, seen, raw)) == Normalized(t, fold, seen, raw)
    ensures forall s :: s in Normalized(t, fold, seen, raw) ==> fold(s) !in seen
    ensures NoRepeats(Normalized(t, fold, seen, raw))
    decreases |raw|
  {
    if raw != [] {
      var s := t.strip(raw[0]);
      if s == "" || fold(s) in seen {
        NormalizedIsStripped(t, fold, seen, raw[1..]);
      } else {
        NormalizedIsStripped(t, fold, seen + {fold(s)}, raw[1..]);
        var rest := Normalized(t, fold, seen + {fold(s)}, raw[1..]);
        assert ([s] + rest)[1..] == rest;
        assert t.strip(s) == s;
      }
    }
  }

  // ----- The glossary -----

  function IndexOfTerm(fold: Fold, entries: seq<Entry>, key: string): (i: nat)
    ensures i <= |entries| && (i < |entries| ==> fold(entries[i].term) == key)
    ensures forall j :: 0 <= j < i ==> fold(entries[j].term) != key
  {
    if entries == [] || fold(entries[0].term) == key then 0
    else
      var rest := IndexOfTerm(fold, entries[1..], key);
      assert forall j :: 0 < j < rest + 1 ==> entries[j] == entries[1..][j - 1];
      rest + 1
  }

  /** No two terms are equal up to case. */
  ghost predicate DistinctTerms(fold: Fold, entries: seq<Entry>) {
    forall i, j :: 0 <= i < j < |entries| ==> fold(entries[i].term) != fold(entries[j].term)
  }

  ghost predicate Clean(t: Text, entries: seq<Entry>) {
    forall e :: e in entries ==> t.strip(e.term) == e.term && NoRepeats(Stripped(t, e.forbidden))
  }

  lemma MadeEntryIsClean(t: Text, fold: Fold, term: string, raw: seq<string>)
    requires StripsOnce(t) && MakeEntry(t, fold, term, raw).Some?
    ensures NoRepeats(Stripped(t, MakeEntry(t, fold, term, raw).value.forbidden))
  {
    NormalizedIsStripped(t, fold, {}, raw);
  }

  class CompanyGlossary {
    const text: Text
    const fold: Fold
    var entries: seq<Entry>

    ghost predicate Valid()
      reads this
    {
      StripsOnce(text) && DistinctTerms(fold, entries) && Clean(text, entries)
    }

    constructor (text: Text, fold: Fold)
      requires StripsOnce(text)
      ensures Valid() && entries == [] && this.text == text && this.fold == fold
    {
      this.text, this.fold, entries := text, fold, [];
    }

    /** Refused for a bad entry, and for a term that is there already. */
    method Add(term: string, raw: seq<string>) returns (ok: bool)
      requires Valid()
      modifies this
      ensures Valid()
      ensures var made := MakeEntry(text, fold, term, raw);
              && ok == (made.Some? && forall e :: e in old(entries) ==> fold(e.term) != fold(made.value.term))
              && entries == if ok then old(entries) + [made.value] else old(entries)
    {
      var made := MakeEntry(text, fold, term, raw);
      if made.None? {
        return false;
      }
      var at := IndexOfTerm(fold, entries, fold(made.value.term));
      if at < |entries| {
        assert entries[at] in entries;
        return false;
      }
      MadeEntryIsClean(text, fold, term, raw);
      entries := entries + [made.value];
      return true;
    }

    /** New synonyms for a term that is there. */
    method Update(term: string, raw: seq<string>) returns (ok: bool)
      requires Valid()
      modifies this
      ensures Valid()
      ensures var at := IndexOfTerm(fold, old(entries), fold(text.strip(term)));
              && |entries| == |old(entries)|
              && ok == (at < |entries| && MakeEntry(text, fold, old(entries)[at].term, raw).Some?)
              && (ok ==> MakeEntry(text, fold, old(entries)[at].term, raw) == Some(entries[at]))
              && forall i :: 0 <= i < |entries| && !(ok && i == at) ==> entries[i] == old(entries)[i]
    {
      var at := IndexOfTerm(fold, entries, fold(text.strip(term)));
      if at == |entries| {
        return false;
      }
      var made := MakeEntry(text, fold, entries[at].term, raw);
      if made.None? {
        return false;
      }
      MadeEntryIsClean(text, fold, entries[at].term, raw);
      entries := entries[at := made.value];
      return true;
    }

    method Remove(term: string) returns (ok: bool)
      requires Valid()
      modifies this
      ensures Valid()
      ensures var at := IndexOfTerm(fold, old(entries), fold(text.strip(term)));
              && ok == (at < |old(entries)|)
              && entries == if ok then old(entries)[..at] + old(entries)[at + 1..] else old(entries)
    {
      var at := IndexOfTerm(fold, entries, fold(text.strip(term)));
      if at == |entries| {
        return false;
      }
      entries := entries[..at] + entries[at + 1..];
      return true;
    }
  }

  /** What the operations above keep is what the scan needs to count once. */
  lemma KeptGlossaryCountsOnce(t: Text, fold: Fold, entries: seq<Entry>, key: Key)
    requires DistinctTerms(fold, entries) && Clean(t, entries)
    ensures Listed(Pairs(t, entries), key) <= 1
  {
    assert Validated(t, entries);
    ValidatedGlossaryCountsOnce(t, entries, key);
  }

  // ----- A stored glossary -----

  /** Reading the stored rows: bad rows are skipped, and repeated terms are not looked for. */
  function Loaded(t: Text, fold: Fold, rows: seq<(string, seq<string>)>): seq<Entry> {
    if rows == [] then []
    else
      var made := MakeEntry(t, fold, rows[0].0, rows[0].1);
      (if made.Some? then [made.value] else []) + Loaded(t, fold, rows[1..])
  }

  const LETTERS := Text((s: string) => s, (text: string, synonym: string) => if text == synonym then 1 else 0,
                        (text: string, synonym: string) => text)

  const SAME := (s: string) => s

  const TWICE: seq<(string, seq<string>)> := [("customer", ["user"]), ("customer", ["user"])]

  lemma LoadedTwice()
    ensures Loaded(LETTERS, SAME, TWICE) == [Entry("customer", ["user"]), Entry("customer", ["user"])]
  {
    assert Normalized(LETTERS, SAME, {}, ["user"]) == ["user"] by {
      assert ["user"][1..] == [];
    }
    assert !Names(SAME, ["user"], "customer");
    assert MakeEntry(LETTERS, SAME, "customer", ["user"]) == Some(Entry("customer", ["user"]));
    assert TWICE[1..] == [TWICE[1]] && TWICE[1..][1..] == [];
  }

  /** A stored term that was written twice is loaded twice, and the scan reports two occurrences of a
      synonym that occurs once. */
  lemma RepeatedRowIsCountedTwice()
    ensures var glossary, samples := Loaded(LETTERS, SAME, TWICE), [Sample("user", "cmo", Reflection)];
            var key := GlossaryScan.Key("cmo", "customer", "user");
            Occurrences(LETTERS, samples, "cmo", "user") == 1
            && Owed(LETTERS, glossary, samples, key) == Some(Hit(key, 2, "user", Reflection))
  {
    LoadedTwice();
    var e := Entry("customer", ["user"]);
    var pair := ("customer", "user");
    assert Stripped(LETTERS, ["user"]) == ["user"] by {
      assert ["user"][1..] == [];
    }
    assert EntryPairs(LETTERS, e) == [pair];
    assert [e, e][1..] == [e] && [e][1..] == [];
    assert Pairs(LETTERS, [e]) == [pair];
    assert Pairs(LETTERS, [e, e]) == [pair, pair];
    assert [pair, pair][1..] == [pair] && [pair][1..] == [];
    assert Listed([pair], GlossaryScan.Key("cmo", "customer", "user")) == 1;
    assert [Sample("user", "cmo", Reflection)][1..] == [];
  }

  // ----- What an entry keeps -----

  /** A synonym is kept under every key that some given synonym, not blank, has, and under no other. */
  lemma {:induction false} KeptKeys(t: Text, fold: Fold, seen: set<string>, raw: seq<string>, key: string)
    ensures Names(fold, Normalized(t, fold, seen, raw), key)
       <==> key !in seen && exists s :: s in raw && t.strip(s) != "" && fold(t.strip(s)) == key
    decreases |raw|
  {
    if raw != [] {
      var s := t.strip(raw[0]);
      if s == "" || fold(s) in seen {
        KeptKeys(t, fold, seen, raw[1..], key);
      } else {
        KeptKeys(t, fold, seen + {fold(s)}, raw[1..], key);
        var rest := Normalized(t, fold, seen + {fold(s)}, raw[1..]);
        assert Normalized(t, fold, seen, raw)[1..] == rest;
      }
    }
  }

  /** An entry is refused exactly if its term is blank or one of its synonyms is the term again, up to case; otherwise
      it has the stripped term, and a synonym for each key of those given. */
  lemma EntryIsRefusedIff(t: Text, fold: Fold, term: string, raw: seq<string>, key: string)
    ensures var made, stripped := MakeEntry(t, fold, term, raw), t.strip(term);
            && (made.None?
                <==> stripped == "" || exists s :: s in raw && t.strip(s) != "" && fold(t.strip(s)) == fold(stripped))
            && (made.Some? ==>
                  && made.value.term == stripped
                  && (Names(fold, made.value.forbidden, key)
                      <==> exists s :: s in raw && t.strip(s) != "" && fold(t.strip(s)) == key))
  {
    KeptKeys(t, fold, {}, raw, fold(t.strip(term)));
    KeptKeys(t, fold, {}, raw, key);
  }

  lemma {:induction false} LoadedConcat(t: Text, fold: Fold, a: seq<(string, seq<string>)>,
                                        b: seq<(string, seq<string>)>)
    ensures Loaded(t, fold, a + b) == Loaded(t, fold, a) + Loaded(t, fold, b)
  {
    if a == [] {
      assert a + b == b;
    } else {
      assert (a + b)[1..] == a[1..] + b;
      LoadedConcat(t, fold, a[1..], b);
    }
  }

  /** Loading skips a row that is refused and keeps all others, in their order. */
  lemma LoadedRows(t: Text, fold: Fold, rows: seq<(string, seq<string>)>, i: nat)
    requires i < |rows|
    ensures var made := MakeEntry(t, fold, rows[i].0, rows[i].1);
            Loaded(t, fold, rows)
            == Loaded(t, fold, rows[..i]) + (if made.Some? then [made.value] else []) + Loaded(t, fold, rows[i + 1..])
  {
    assert rows == rows[..i] + ([rows[i]] + rows[i + 1..]);
    LoadedConcat(t, fold, rows[..i], [rows[i]] + rows[i + 1..]);
    LoadedConcat(t, fold, [rows[i]], rows[i + 1..]);
    assert [rows[i]][1..] == [];
  }
}
