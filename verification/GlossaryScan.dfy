/** The glossary drift scan (kompany/src/kompany/agents/cos_glossary_scan.py). */
module GlossaryScan {
  import opened Wrappers
  import Sorting

  datatype Entry = Entry(term: string, forbidden: seq<string>)

  datatype CompiledTerm = CompiledTerm(term: string, patterns: seq<string>)

  datatype Source = Reflection | Decision | AuditEvent

  datatype Key = Key(role: string, term: string, synonym: string)

  datatype Hit = Hit(key: Key, count: nat, excerpt: string, source: Source)

  /** Text handling that is left abstract: stripping blanks, counting the matches of one
      synonym in one text, and the excerpt around the first of them. */
  datatype Text = Text(strip: string -> string,
                       matches: (string, string) -> nat,
                       excerpt: (string, string) -> string)

  // ----- The streams -----

  datatype ReflectionEntry = ReflectionEntry(role: Option<string>, content: Option<string>)

  datatype DecisionEntry = DecisionEntry(summary: Option<string>, agents: seq<string>)

  /** A value inside an audit event's detail, as far as the scan looks at it. */
  datatype Field = Falsy | Word(word: string) | Other

  datatype Event = Event(detail: string, agentRole: Field, agent: Field)

  /** One text with the role it is attributed to. */
  datatype Sample = Sample(text: string, role: string, source: Source)

  function OrElse(o: Option<string>, default: string): string {
    if o.Some? then o.value else default
  }

  predicate Truthy(f: Field) {
    match f
    case Falsy => false
    case Word(w) => w != ""
    case Other => true
  }

  function OfReflection(r: ReflectionEntry): Sample {
    Sample(OrElse(r.content, ""), OrElse(r.role, "unknown"), Reflection)
  }

  function OfDecision(d: DecisionEntry): Sample {
    Sample(OrElse(d.summary, ""), if d.agents == [] then "unknown" else d.agents[0], Decision)
  }

  function OfEvent(e: Event): Sample {
    var candidate := if Truthy(e.agentRole) then e.agentRole else e.agent;
    Sample(e.detail, if candidate.Word? && candidate.word != "" then candidate.word else "unknown", AuditEvent)
  }

  /** Every text in scan order. */
  function Samples(reflections: seq<ReflectionEntry>, decisions: seq<DecisionEntry>, events: seq<Event>): seq<Sample> {
    Sorting.Map(OfReflection, reflections) + Sorting.Map(OfDecision, decisions) + Sorting.Map(OfEvent, events)
  }

  // ----- Compiling the glossary -----

  /** Blank synonyms are dropped. */
  function Keep(t: Text, synonym: string): seq<string> {
    if t.strip(synonym) == "" then [] else [t.strip(synonym)]
  }

  function Stripped(t: Text, forbidden: seq<string>): seq<string> {
    if forbidden == [] then [] else Keep(t, forbidden[0]) + Stripped(t, forbidden[1..])
  }

  function EntryPairs(t: Text, e: Entry): seq<(string, string)> {
    WithTerm(e.term, Stripped(t, e.forbidden))
  }

  /** Every (term, synonym) pair to look for, in order. */
  function Pairs(t: Text, glossary: seq<Entry>): seq<(string, string)> {
    if glossary == [] then []
    else EntryPairs(t, glossary[0]) + Pairs(t, glossary[1..])
  }

  function WithTerm(term: string, synonyms: seq<string>): (r: seq<(string, string)>)
    ensures |r| == |synonyms| && forall i :: 0 <= i < |r| ==> r[i] == (term, synonyms[i])
  {
    if synonyms == [] then [] else [(term, synonyms[0])] + WithTerm(term, synonyms[1..])
  }

  function PairsOf(compiled: seq<CompiledTerm>): seq<(string, string)> {
    if compiled == [] then [] else WithTerm(compiled[0].term, compiled[0].patterns) + PairsOf(compiled[1..])
  }

  lemma {:induction false} PairsOfAppend(compiled: seq<CompiledTerm>, c: CompiledTerm)
    ensures PairsOf(compiled + [c]) == PairsOf(compiled) + WithTerm(c.term, c.patterns)
  {
    if compiled == [] {
      assert [c][1..] == [];
    } else {
      PairsOfAppend(compiled[1..], c);
      assert (compiled + [c])[1..] == compiled[1..] + [c];
      Sorting.ConcatAssociates(WithTerm(compiled[0].term, compiled[0].patterns), PairsOf(compiled[1..]),
                               WithTerm(c.term, c.patterns));
    }
  }

  lemma {:induction false} NextEntry(t: Text, glossary: seq<Entry>, i: nat)
    requires i < |glossary|
    ensures Pairs(t, glossary[..i + 1]) == Pairs(t, glossary[..i]) + EntryPairs(t, glossary[i])
  {
    if i == 0 {
      assert glossary[..1][1..] == [];
    } else {
      NextEntry(t, glossary[1..], i - 1);
      assert glossary[..i + 1][1..] == glossary[1..][..i];
      assert glossary[..i][1..] == glossary[1..][..i - 1];
      Sorting.ConcatAssociates(EntryPairs(t, glossary[0]), Pairs(t, glossary[1..][..i - 1]),
                               EntryPairs(t, glossary[i]));
    }
  }

  lemma {:induction false} NextSynonym(t: Text, forbidden: seq<string>, j: nat)
    requires j < |forbidden|
    ensures Stripped(t, forbidden[..j + 1]) == Stripped(t, forbidden[..j]) + Keep(t, forbidden[j])
  {
    if j == 0 {
      assert forbidden[..1][1..] == [];
    } else {
      NextSynonym(t, forbidden[1..], j - 1);
      assert forbidden[..j + 1][1..] == forbidden[1..][..j];
      assert forbidden[..j][1..] == forbidden[1..][..j - 1];
      Sorting.ConcatAssociates(Keep(t, forbidden[0]), Stripped(t, forbidden[1..][..j - 1]), Keep(t, forbidden[j]));
    }
  }

  method CompileGlossary(t: Text, glossary: seq<Entry>) returns (compiled: seq<CompiledTerm>)
    ensures PairsOf(compiled) == Pairs(t, glossary)
    ensures compiled == [] <==> Pairs(t, glossary) == []
  {
    compiled := [];
    for i := 0 to |glossary|
      invariant PairsOf(compiled) == Pairs(t, glossary[..i])
      invariant compiled == [] <==> PairsOf(compiled) == []
    {
      var entry := glossary[i];
      NextEntry(t, glossary, i);
      if entry.forbidden == [] {
        continue;
      }
      var patterns := [];
      for j := 0 to |entry.forbidden|
        invariant patterns == Stripped(t, entry.forbidden[..j])
      {
        NextSynonym(t, entry.forbidden, j);
        var stripped := t.strip(entry.forbidden[j]);
        if stripped == "" {
          continue;
        }
        patterns := patterns + [stripped];
      }
      assert entry.forbidden[..|entry.forbidden|] == entry.forbidden;
      if patterns != [] {
        PairsOfAppend(compiled, CompiledTerm(entry.term, patterns));
        compiled := compiled + [CompiledTerm(entry.term, patterns)];
      }
    }
    assert glossary[..|glossary|] == glossary;
  }

  // ----- The aggregator -----

  /** One synonym looked for in one text. */
  datatype Probe = Probe(key: Key, count: nat, excerpt: string, source: Source)

  /** A dictionary with its insertion order. */
  datatype Hits = Hits(table: map<Key, Hit>, order: seq<Key>)

  function Record(h: Hits, p: Probe): Hits {
    if p.count == 0 then h
    else if p.key in h.table then
      h.(table := h.table[p.key := h.table[p.key].(count := h.table[p.key].count + p.count)])
    else Hits(h.table[p.key := Hit(p.key, p.count, p.excerpt, p.source)], h.order + [p.key])
  }

  function RecordAll(h: Hits, probes: seq<Probe>): Hits
    decreases |probes|
  {
    if probes == [] then h else RecordAll(Record(h, probes[0]), probes[1..])
  }

  function ProbeOf(t: Text, s: Sample, pair: (string, string)): Probe {
    Probe(Key(s.role, pair.0, pair.1), t.matches(s.text, pair.1), t.excerpt(s.text, pair.1), s.source)
  }

  function ProbesOf(t: Text, s: Sample, pairs: seq<(string, string)>): seq<Probe> {
    if s.text == "" || pairs == [] then [] else [ProbeOf(t, s, pairs[0])] + ProbesOf(t, s, pairs[1..])
  }

  function AllProbes(t: Text, samples: seq<Sample>, pairs: seq<(string, string)>): seq<Probe> {
    if samples == [] then [] else ProbesOf(t, samples[0], pairs) + AllProbes(t, samples[1..], pairs)
  }

  lemma RecordFirst(h: Hits, p: Probe, rest: seq<Probe>)
    ensures RecordAll(h, [p] + rest) == RecordAll(Record(h, p), rest)
  {
    assert ([p] + rest)[1..] == rest;
  }

  lemma {:induction false} RecordConcat(h: Hits, a: seq<Probe>, b: seq<Probe>)
    ensures RecordAll(h, a + b) == RecordAll(RecordAll(h, a), b)
    decreases |a|
  {
    if a == [] {
      assert a + b == b;
    } else {
      assert (a + b)[1..] == a[1..] + b;
      RecordConcat(Record(h, a[0]), a[1..], b);
    }
  }

  class Aggregator {
    var table: map<Key, Hit>
    var order: seq<Key>

    constructor ()
      ensures State() == Hits(map[], [])
    {
      table, order := map[], [];
    }

    ghost function State(): Hits
      reads this
    {
      Hits(table, order)
    }

    /** The first match of a key fixes excerpt and source; later ones only add to its count. */
    method Note(p: Probe)
      modifies this
      ensures State() == Record(old(State()), p)
    {
      if p.count == 0 {
        return;
      }
      if p.key !in table {
        table := table[p.key := Hit(p.key, p.count, p.excerpt, p.source)];
        order := order + [p.key];
      } else {
        table := table[p.key := table[p.key].(count := table[p.key].count + p.count)];
      }
    }

    method ScanText(t: Text, s: Sample, compiled: seq<CompiledTerm>)
      modifies this
      ensures State() == RecordAll(old(State()), ProbesOf(t, s, PairsOf(compiled)))
    {
      if s.text == "" {
        return;
      }
      ghost var goal := RecordAll(State(), ProbesOf(t, s, PairsOf(compiled)));
      for i := 0 to |compiled|
        invariant RecordAll(State(), ProbesOf(t, s, PairsOf(compiled[i..]))) == goal
      {
        var term, patterns := compiled[i].term, compiled[i].patterns;
        ghost var after := PairsOf(compiled[i + 1..]);
        assert compiled[i..][1..] == compiled[i + 1..] && patterns[0..] == patterns;
        for j := 0 to |patterns|
          invariant RecordAll(State(), ProbesOf(t, s, WithTerm(term, patterns[j..]) + after)) == goal
        {
          NextPair(t, State(), s, term, patterns, j, after);
          Note(Probe(Key(s.role, term, patterns[j]), t.matches(s.text, patterns[j]),
                     t.excerpt(s.text, patterns[j]), s.source));
        }
        assert WithTerm(term, patterns[|patterns|..]) + after == after;
      }
    }

    method ScanReflections(t: Text, reflections: seq<ReflectionEntry>, compiled: seq<CompiledTerm>)
      modifies this
      ensures State()
           == RecordAll(old(State()), AllProbes(t, Sorting.Map(OfReflection, reflections), PairsOf(compiled)))
    {
      ghost var pairs := PairsOf(compiled);
      ghost var goal := RecordAll(State(), AllProbes(t, Sorting.Map(OfReflection, reflections), pairs));
      assert reflections[0..] == reflections;
      for k := 0 to |reflections|
        invariant RecordAll(State(), AllProbes(t, Sorting.Map(OfReflection, reflections[k..]), pairs)) == goal
      {
        NextSample(t, State(), OfReflection, reflections, k, pairs);
        ScanText(t, OfReflection(reflections[k]), compiled);
      }
    }

    method ScanDecisions(t: Text, decisions: seq<DecisionEntry>, compiled: seq<CompiledTerm>)
      modifies this
      ensures State() == RecordAll(old(State()), AllProbes(t, Sorting.Map(OfDecision, decisions), PairsOf(compiled)))
    {
      ghost var pairs := PairsOf(compiled);
      ghost var goal := RecordAll(State(), AllProbes(t, Sorting.Map(OfDecision, decisions), pairs));
      assert decisions[0..] == decisions;
      for k := 0 to |decisions|
        invariant RecordAll(State(), AllProbes(t, Sorting.Map(OfDecision, decisions[k..]), pairs)) == goal
      {
        NextSample(t, State(), OfDecision, decisions, k, pairs);
        ScanText(t, OfDecision(decisions[k]), compiled);
      }
    }

    method ScanEvents(t: Text, events: seq<Event>, compiled: seq<CompiledTerm>)
      modifies this
      ensures State() == RecordAll(old(State()), AllProbes(t, Sorting.Map(OfEvent, events), PairsOf(compiled)))
    {
      ghost var pairs := PairsOf(compiled);
      ghost var goal := RecordAll(State(), AllProbes(t, Sorting.Map(OfEvent, events), pairs));
      assert events[0..] == events;
      for k := 0 to |events|
        invariant RecordAll(State(), AllProbes(t, Sorting.Map(OfEvent, events[k..]), pairs)) == goal
      {
        NextSample(t, State(), OfEvent, events, k, pairs);
        ScanText(t, OfEvent(events[k]), compiled);
      }
    }
  }

  /** Recording what is left of a stream, one text at a time. */
  lemma NextSample<A>(t: Text, h: Hits, f: A -> Sample, stream: seq<A>, k: nat, pairs: seq<(string, string)>)
    requires k < |stream|
    ensures RecordAll(h, AllProbes(t, Sorting.Map(f, stream[k..]), pairs))
         == RecordAll(RecordAll(h, ProbesOf(t, f(stream[k]), pairs)),
                      AllProbes(t, Sorting.Map(f, stream[k + 1..]), pairs))
  {
    assert stream[k..][1..] == stream[k + 1..];
    assert Sorting.Map(f, stream[k..])[1..] == Sorting.Map(f, stream[k + 1..]);
    RecordConcat(h, ProbesOf(t, f(stream[k]), pairs), AllProbes(t, Sorting.Map(f, stream[k + 1..]), pairs));
  }

  lemma {:induction false} AllProbesConcat(t: Text, a: seq<Sample>, b: seq<Sample>, pairs: seq<(string, string)>)
    ensures AllProbes(t, a + b, pairs) == AllProbes(t, a, pairs) + AllProbes(t, b, pairs)
  {
    if a == [] {
      assert a + b == b;
    } else {
      AllProbesConcat(t, a[1..], b, pairs);
      assert (a + b)[1..] == a[1..] + b;
      Sorting.ConcatAssociates(ProbesOf(t, a[0], pairs), AllProbes(t, a[1..], pairs), AllProbes(t, b, pairs));
    }
  }

  lemma NextPair(t: Text, h: Hits, s: Sample, term: string, patterns: seq<string>, j: nat, after: seq<(string, string)>)
    requires j < |patterns| && s.text != ""
    ensures RecordAll(h, ProbesOf(t, s, WithTerm(term, patterns[j..]) + after))
         == RecordAll(Record(h, ProbeOf(t, s, (term, patterns[j]))),
                      ProbesOf(t, s, WithTerm(term, patterns[j + 1..]) + after))
  {
    var rest := WithTerm(term, patterns[j + 1..]) + after;
    assert WithTerm(term, patterns[j..]) + after == [(term, patterns[j])] + rest;
    assert ([(term, patterns[j])] + rest)[1..] == rest;
    RecordFirst(h, ProbeOf(t, s, (term, patterns[j])), ProbesOf(t, s, rest));
  }

  // ----- What the aggregator holds -----

  function Total(probes: seq<Probe>, key: Key): nat {
    if probes == [] then 0 else (if probes[0].key == key then probes[0].count else 0) + Total(probes[1..], key)
  }

  function FirstProbe(probes: seq<Probe>, key: Key): Option<Probe> {
    if probes == [] then None
    else if probes[0].key == key && probes[0].count > 0 then Some(probes[0])
    else FirstProbe(probes[1..], key)
  }

  predicate FiledUnderItsKey(h: Hits, key: Key) {
    key in h.table ==> h.table[key].key == key
  }

  /** The entry of a key after any probes: its total, with the excerpt of its first match. */
  lemma {:induction false} RecordedEntry(h: Hits, probes: seq<Probe>, key: Key)
    requires FiledUnderItsKey(h, key)
    ensures FirstProbe(probes, key).Some? <==> Total(probes, key) > 0
    ensures key in RecordAll(h, probes).table <==> key in h.table || FirstProbe(probes, key).Some?
    ensures key in h.table ==>
      RecordAll(h, probes).table[key] == h.table[key].(count := h.table[key].count + Total(probes, key))
    ensures key !in h.table && FirstProbe(probes, key).Some? ==>
      var first := FirstProbe(probes, key).value;
      RecordAll(h, probes).table[key] == Hit(key, Total(probes, key), first.excerpt, first.source)
    decreases |probes|
  {
    if probes != [] {
      RecordedEntry(Record(h, probes[0]), probes[1..], key);
    }
  }

  ghost predicate Ordered(h: Hits) {
    && (forall i, j :: 0 <= i < j < |h.order| ==> h.order[i] != h.order[j])
    && (forall key :: key in h.order <==> key in h.table)
  }

  lemma RecordKeepsOrdered(h: Hits, p: Probe)
    requires Ordered(h)
    ensures Ordered(Record(h, p))
  {
  }

  lemma {:induction false} RecordAllKeepsOrdered(h: Hits, probes: seq<Probe>)
    requires Ordered(h)
    ensures Ordered(RecordAll(h, probes))
    decreases |probes|
  {
    if probes != [] {
      RecordKeepsOrdered(h, probes[0]);
      RecordAllKeepsOrdered(Record(h, probes[0]), probes[1..]);
    }
  }

  // ----- What the texts contain -----

  function MatchesIn(t: Text, s: Sample, role: string, synonym: string): nat {
    if s.role == role && s.text != "" then t.matches(s.text, synonym) else 0
  }

  /** All matches of a synonym in the texts of one role. */
  function Occurrences(t: Text, samples: seq<Sample>, role: string, synonym: string): nat {
    if samples == [] then 0
    else MatchesIn(t, samples[0], role, synonym) + Occurrences(t, samples[1..], role, synonym)
  }

  function FirstText(t: Text, samples: seq<Sample>, role: string, synonym: string): Option<Sample> {
    if samples == [] then None
    else if MatchesIn(t, samples[0], role, synonym) > 0 then Some(samples[0])
    else FirstText(t, samples[1..], role, synonym)
  }

  /** How often the compiled glossary lists a pair. */
  function Listed(pairs: seq<(string, string)>, key: Key): nat {
    if pairs == [] then 0
    else (if pairs[0] == (key.term, key.synonym) then 1 else 0) + Listed(pairs[1..], key)
  }

  lemma {:induction false} TotalConcat(a: seq<Probe>, b: seq<Probe>, key: Key)
    ensures Total(a + b, key) == Total(a, key) + Total(b, key)
    ensures FirstProbe(a + b, key) == if FirstProbe(a, key).Some? then FirstProbe(a, key) else FirstProbe(b, key)
  {
    if a == [] {
      assert a + b == b;
    } else {
      TotalConcat(a[1..], b, key);
      assert (a + b)[1..] == a[1..] + b;
    }
  }

  lemma Distribute(a: nat, b: nat, c: nat)
    ensures (a + b) * c == a * c + b * c && c * (a + b) == c * a + c * b
  {
  }

  lemma {:induction false} TotalOfSample(t: Text, s: Sample, pairs: seq<(string, string)>, key: Key)
    ensures Total(ProbesOf(t, s, pairs), key) == Listed(pairs, key) * MatchesIn(t, s, key.role, key.synonym)
    ensures FirstProbe(ProbesOf(t, s, pairs), key)
         == if Listed(pairs, key) > 0 && MatchesIn(t, s, key.role, key.synonym) > 0
            then Some(ProbeOf(t, s, (key.term, key.synonym))) else None
  {
    if pairs != [] {
      TotalOfSample(t, s, pairs[1..], key);
      var n := MatchesIn(t, s, key.role, key.synonym);
      var one := if pairs[0] == (key.term, key.synonym) then 1 else 0;
      Distribute(one, Listed(pairs[1..], key), n);
    }
  }

  lemma {:induction false} TotalOfSamples(t: Text, samples: seq<Sample>, pairs: seq<(string, string)>, key: Key)
    ensures Total(AllProbes(t, samples, pairs), key)
         == Listed(pairs, key) * Occurrences(t, samples, key.role, key.synonym)
  {
    if samples != [] {
      TotalOfSample(t, samples[0], pairs, key);
      TotalOfSamples(t, samples[1..], pairs, key);
      TotalConcat(ProbesOf(t, samples[0], pairs), AllProbes(t, samples[1..], pairs), key);
      Distribute(MatchesIn(t, samples[0], key.role, key.synonym),
                 Occurrences(t, samples[1..], key.role, key.synonym), Listed(pairs, key));
    }
  }

  lemma {:induction false} FirstOfSamples(t: Text, samples: seq<Sample>, pairs: seq<(string, string)>, key: Key)
    ensures FirstProbe(AllProbes(t, samples, pairs), key)
         == var first := FirstText(t, samples, key.role, key.synonym);
            if Listed(pairs, key) > 0 && first.Some?
            then Some(ProbeOf(t, first.value, (key.term, key.synonym))) else None
  {
    if samples != [] {
      TotalOfSample(t, samples[0], pairs, key);
      FirstOfSamples(t, samples[1..], pairs, key);
      TotalConcat(ProbesOf(t, samples[0], pairs), AllProbes(t, samples[1..], pairs), key);
    }
  }

  /** What the scan owes for a key: nothing unless the glossary lists the pair and a text of the
      role matches; then the total, with excerpt and source of the first matching text. */
  function Owed(t: Text, glossary: seq<Entry>, samples: seq<Sample>, key: Key): Option<Hit> {
    var listed := Listed(Pairs(t, glossary), key);
    var first := FirstText(t, samples, key.role, key.synonym);
    if listed == 0 || first.None? then None
    else Some(Hit(key, listed * Occurrences(t, samples, key.role, key.synonym),
                  t.excerpt(first.value.text, key.synonym), first.value.source))
  }

  // ----- The order of the result -----

  /** Lexicographic: the later parts decide only between equal earlier ones. */
  predicate KeyLe(a: Key, b: Key) {
    if a.role != b.role then Sorting.TextLe(a.role, b.role)
    else if a.term != b.term then Sorting.TextLe(a.term, b.term)
    else Sorting.TextLe(a.synonym, b.synonym)
  }

  predicate HitLe(a: Hit, b: Hit) {
    KeyLe(a.key, b.key)
  }

  predicate DifferentKeys(a: Hit, b: Hit) {
    a.key != b.key
  }

  /** By role; of equal roles by term; of equal terms by synonym. */
  ghost predicate KeyBelow(a: Key, b: Key) {
    || Sorting.Below(a.role, b.role)
    || (a.role == b.role && Sorting.Below(a.term, b.term))
    || (a.role == b.role && a.term == b.term && Sorting.Below(a.synonym, b.synonym))
  }

  ghost predicate StrictlySorted(r: seq<Hit>) {
    forall i, j :: 0 <= i < j < |r| ==> KeyBelow(r[i].key, r[j].key)
  }

  lemma KeyLeIsBelow(a: Key, b: Key)
    requires KeyLe(a, b) && a != b
    ensures KeyBelow(a, b)
  {
    Sorting.TextLeIffNotBelow(a.role, b.role);
    Sorting.TextLeIffNotBelow(a.term, b.term);
    Sorting.TextLeIffNotBelow(a.synonym, b.synonym);
  }

  lemma KeyLeTotal(a: Key, b: Key)
    ensures KeyLe(a, b) || KeyLe(b, a)
  {
    Sorting.TextLeTotal(a.role, b.role);
    Sorting.TextLeTotal(a.term, b.term);
    Sorting.TextLeTotal(a.synonym, b.synonym);
  }

  lemma KeyLeTransitive(a: Key, b: Key, c: Key)
    requires KeyLe(a, b) && KeyLe(b, c)
    ensures KeyLe(a, c)
  {
    Sorting.TextLeTotal(a.role, b.role);
    Sorting.TextLeTotal(a.term, b.term);
    if a.role != b.role && b.role != c.role {
      Sorting.TextLeTransitive(a.role, b.role, c.role);
      Sorting.TextLeTotal(b.role, c.role);
    } else if a.role == b.role == c.role {
      if a.term != b.term && b.term != c.term {
        Sorting.TextLeTransitive(a.term, b.term, c.term);
        Sorting.TextLeTotal(b.term, c.term);
      } else if a.term == b.term == c.term {
        Sorting.TextLeTransitive(a.synonym, b.synonym, c.synonym);
      }
    }
  }

  lemma HitLeIsAnOrder()
    ensures Sorting.TotalPreorder(HitLe)
  {
    forall a, b ensures HitLe(a, b) || HitLe(b, a) {
      KeyLeTotal(a.key, b.key);
    }
    forall a, b, c | HitLe(a, b) && HitLe(b, c) ensures HitLe(a, c) {
      KeyLeTransitive(a.key, b.key, c.key);
    }
  }

  // ----- The scan -----

  function HitsInOrder(table: map<Key, Hit>, order: seq<Key>): (r: seq<Hit>)
    requires forall key :: key in order ==> key in table
    ensures |r| == |order| && forall i :: 0 <= i < |r| ==> r[i] == table[order[i]]
  {
    if order == [] then [] else [table[order[0]]] + HitsInOrder(table, order[1..])
  }

  lemma TableIsExact(t: Text, glossary: seq<Entry>, samples: seq<Sample>, h: Hits, key: Key)
    requires h == RecordAll(Hits(map[], []), AllProbes(t, samples, Pairs(t, glossary)))
    ensures Owed(t, glossary, samples, key) == if key in h.table then Some(h.table[key]) else None
  {
    RecordedEntry(Hits(map[], []), AllProbes(t, samples, Pairs(t, glossary)), key);
    TotalOfSamples(t, samples, Pairs(t, glossary), key);
    FirstOfSamples(t, samples, Pairs(t, glossary), key);
  }

  lemma HitsInOrderMembers(h: Hits, hit: Hit)
    requires Ordered(h) && forall key :: FiledUnderItsKey(h, key)
    ensures hit in HitsInOrder(h.table, h.order) <==> hit.key in h.table && h.table[hit.key] == hit
  {
    var hits := HitsInOrder(h.table, h.order);
    if hit in hits {
      var i :| 0 <= i < |hits| && hits[i] == hit;
      assert FiledUnderItsKey(h, h.order[i]);
    }
    if hit.key in h.table && h.table[hit.key] == hit {
      assert hit.key in h.order;
      var i :| 0 <= i < |h.order| && h.order[i] == hit.key;
      assert hits[i] == hit;
    }
  }

  lemma SortedStrictly(h: Hits)
    requires Ordered(h) && forall key :: FiledUnderItsKey(h, key)
    ensures StrictlySorted(Sorting.StableSort(HitsInOrder(h.table, h.order), HitLe))
  {
    var hits := HitsInOrder(h.table, h.order);
    forall i | 0 <= i < |hits| ensures hits[i].key == h.order[i] {
      assert FiledUnderItsKey(h, h.order[i]);
    }
    HitLeIsAnOrder();
    Sorting.StableSortIsStable(hits, HitLe);
    Sorting.SortPairwise(hits, HitLe, DifferentKeys);
    var r := Sorting.StableSort(hits, HitLe);
    forall i, j | 0 <= i < j < |r| ensures KeyBelow(r[i].key, r[j].key) {
      assert HitLe(r[i], r[j]) && DifferentKeys(r[i], r[j]);
      KeyLeIsBelow(r[i].key, r[j].key);
    }
  }

  /** The sorted result holds exactly what is owed. */
  lemma SortedHitsAreExact(t: Text, glossary: seq<Entry>, samples: seq<Sample>, h: Hits)
    requires h == RecordAll(Hits(map[], []), AllProbes(t, samples, Pairs(t, glossary)))
    ensures Ordered(h)
    ensures var r := Sorting.StableSort(HitsInOrder(h.table, h.order), HitLe);
      StrictlySorted(r) && forall hit :: hit in r <==> Owed(t, glossary, samples, hit.key) == Some(hit)
  {
    RecordAllKeepsOrdered(Hits(map[], []), AllProbes(t, samples, Pairs(t, glossary)));
    forall key ensures FiledUnderItsKey(h, key) {
      TableIsExact(t, glossary, samples, h, key);
    }
    SortedStrictly(h);
    forall hit ensures hit in Sorting.StableSort(HitsInOrder(h.table, h.order), HitLe)
                  <==> Owed(t, glossary, samples, hit.key) == Some(hit) {
      TableIsExact(t, glossary, samples, h, hit.key);
      HitsInOrderMembers(h, hit);
      Sorting.SortMembers(HitsInOrder(h.table, h.order), HitLe, hit);
    }
  }

  lemma ThreeStreams(t: Text, a: seq<Sample>, b: seq<Sample>, c: seq<Sample>, pairs: seq<(string, string)>)
    ensures RecordAll(Hits(map[], []), AllProbes(t, a + b + c, pairs))
         == RecordAll(RecordAll(RecordAll(Hits(map[], []), AllProbes(t, a, pairs)), AllProbes(t, b, pairs)),
             AllProbes(t, c, pairs))
  {
    AllProbesConcat(t, a + b, c, pairs);
    AllProbesConcat(t, a, b, pairs);
    RecordConcat(Hits(map[], []), AllProbes(t, a, pairs) + AllProbes(t, b, pairs), AllProbes(t, c, pairs));
    RecordConcat(Hits(map[], []), AllProbes(t, a, pairs), AllProbes(t, b, pairs));
  }

  lemma NothingListed(t: Text, glossary: seq<Entry>, samples: seq<Sample>)
    requires Pairs(t, glossary) == []
    ensures forall key :: Owed(t, glossary, samples, key) == None
  {
  }

  method ScanDrift(t: Text, glossary: seq<Entry>, reflections: seq<ReflectionEntry>,
                   decisions: seq<DecisionEntry>, events: seq<Event>)
    returns (r: seq<Hit>)
    ensures StrictlySorted(r)
    ensures forall hit :: hit in r <==> Owed(t, glossary, Samples(reflections, decisions, events), hit.key) == Some(hit)
  {
    var compiled := CompileGlossary(t, glossary);
    ghost var pairs := Pairs(t, glossary);
    ghost var samples := Samples(reflections, decisions, events);
    if compiled == [] {
      NothingListed(t, glossary, samples);
      return [];
    }
    var agg := new Aggregator();
    agg.ScanReflections(t, reflections, compiled);
    agg.ScanDecisions(t, decisions, compiled);
    agg.ScanEvents(t, events, compiled);
    ThreeStreams(t, Sorting.Map(OfReflection, reflections), Sorting.Map(OfDecision, decisions),
                 Sorting.Map(OfEvent, events), pairs);
    SortedHitsAreExact(t, glossary, samples, agg.State());
    r := Sorting.StableSort(HitsInOrder(agg.table, agg.order), HitLe);
  }

  // ----- Consequences -----

  lemma {:induction false} OccurrencesWithout(t: Text, samples: seq<Sample>, i: nat, role: string, synonym: string)
    requires i < |samples|
    ensures Occurrences(t, samples, role, synonym)
         == MatchesIn(t, samples[i], role, synonym) + Occurrences(t, samples[..i] + samples[i + 1..], role, synonym)
  {
    if i == 0 {
      assert samples[..0] + samples[1..] == samples[1..];
    } else {
      OccurrencesWithout(t, samples[1..], i - 1, role, synonym);
      assert (samples[..i] + samples[i + 1..])[1..] == samples[1..][..i - 1] + samples[1..][i..];
    }
  }

  lemma BagWithout<T>(s: seq<T>, i: nat)
    requires i < |s|
    ensures multiset(s[..i] + s[i + 1..]) == multiset(s) - multiset{s[i]}
  {
    assert s == s[..i] + ([s[i]] + s[i + 1..]);
  }

  lemma {:induction false} OccurrencesIgnoreOrder(t: Text, a: seq<Sample>, b: seq<Sample>, role: string,
                                                  synonym: string)
    requires multiset(a) == multiset(b)
    ensures Occurrences(t, a, role, synonym) == Occurrences(t, b, role, synonym)
    decreases |a|
  {
    if a == [] {
      assert |multiset(b)| == 0;
    } else {
      var i := SameBagSameHead(a, b);
      OccurrencesIgnoreOrder(t, a[1..], b[..i] + b[i + 1..], role, synonym);
      OccurrencesWithout(t, b, i, role, synonym);
    }
  }

  lemma SameBagSameHead<T>(a: seq<T>, b: seq<T>) returns (i: nat)
    requires a != [] && multiset(a) == multiset(b)
    ensures i < |b| && b[i] == a[0] && multiset(a[1..]) == multiset(b[..i] + b[i + 1..])
  {
    assert a[0] in multiset(b);
    i :| 0 <= i < |b| && b[i] == a[0];
    BagWithout(b, i);
    assert multiset(a[1..]) == multiset(a) - multiset{a[0]} by {
      assert a == [a[0]] + a[1..];
    }
  }

  lemma {:induction false} FirstTextIff(t: Text, samples: seq<Sample>, role: string, synonym: string)
    ensures FirstText(t, samples, role, synonym).Some? <==> Occurrences(t, samples, role, synonym) > 0
  {
    if samples != [] {
      FirstTextIff(t, samples[1..], role, synonym);
    }
  }

  /** The order of the texts decides excerpts and sources only: which keys are reported, and with
      which counts, is the same for any permutation of them. */
  lemma CountsIgnoreTheOrderOfTexts(t: Text, glossary: seq<Entry>, a: seq<Sample>, b: seq<Sample>, key: Key)
    requires multiset(a) == multiset(b)
    ensures Owed(t, glossary, a, key).Some? <==> Owed(t, glossary, b, key).Some?
    ensures Owed(t, glossary, a, key).Some? ==>
      Owed(t, glossary, a, key).value.count == Owed(t, glossary, b, key).value.count
  {
    OccurrencesIgnoreOrder(t, a, b, key.role, key.synonym);
    FirstTextIff(t, a, key.role, key.synonym);
    FirstTextIff(t, b, key.role, key.synonym);
  }

  /** A reported count is the total number of occurrences exactly when the compiled glossary lists
      the pair once; a pair listed twice is counted twice. */
  lemma CountIsTheTotalIff(t: Text, glossary: seq<Entry>, samples: seq<Sample>, key: Key)
    requires Owed(t, glossary, samples, key).Some?
    ensures Owed(t, glossary, samples, key).value.count == Occurrences(t, samples, key.role, key.synonym)
       <==> Listed(Pairs(t, glossary), key) == 1
  {
    FirstTextIff(t, samples, key.role, key.synonym);
    var n, listed := Occurrences(t, samples, key.role, key.synonym), Listed(Pairs(t, glossary), key);
    Distribute(1, listed - 1, n);
  }

  /** A term once, and under each term no synonym twice, as the glossary's own validation has it. */
  ghost predicate Validated(t: Text, glossary: seq<Entry>) {
    && (forall i, j :: 0 <= i < j < |glossary| ==> glossary[i].term != glossary[j].term)
    && (forall e :: e in glossary ==> NoRepeats(Stripped(t, e.forbidden)))
  }

  predicate NoRepeats(s: seq<string>) {
    s != [] ==> s[0] !in s[1..] && NoRepeats(s[1..])
  }

  lemma {:induction false} ListedConcat(a: seq<(string, string)>, b: seq<(string, string)>, key: Key)
    ensures Listed(a + b, key) == Listed(a, key) + Listed(b, key)
  {
    if a == [] {
      assert a + b == b;
    } else {
      ListedConcat(a[1..], b, key);
      assert (a + b)[1..] == a[1..] + b;
    }
  }

  lemma {:induction false} ListedUnderOneTerm(term: string, synonyms: seq<string>, key: Key)
    requires NoRepeats(synonyms)
    ensures Listed(WithTerm(term, synonyms), key) == if term == key.term && key.synonym in synonyms then 1 else 0
  {
    if synonyms != [] {
      ListedUnderOneTerm(term, synonyms[1..], key);
    }
  }

  lemma {:induction false} NotListedWithoutItsTerm(t: Text, glossary: seq<Entry>, key: Key)
    requires forall e :: e in glossary ==> e.term != key.term
    requires forall e :: e in glossary ==> NoRepeats(Stripped(t, e.forbidden))
    ensures Listed(Pairs(t, glossary), key) == 0
  {
    if glossary != [] {
      var e := glossary[0];
      assert e in glossary;
      ListedUnderOneTerm(e.term, Stripped(t, e.forbidden), key);
      ListedConcat(EntryPairs(t, e), Pairs(t, glossary[1..]), key);
      NotListedWithoutItsTerm(t, glossary[1..], key);
    }
  }

  /** A validated glossary lists no pair twice, so its counts are the true totals. */
  lemma {:induction false} ValidatedGlossaryCountsOnce(t: Text, glossary: seq<Entry>, key: Key)
    requires Validated(t, glossary)
    ensures Listed(Pairs(t, glossary), key) <= 1
  {
    if glossary != [] {
      var e := glossary[0];
      assert e in glossary;
      ListedUnderOneTerm(e.term, Stripped(t, e.forbidden), key);
      ListedConcat(EntryPairs(t, e), Pairs(t, glossary[1..]), key);
      if e.term == key.term {
        NotListedWithoutItsTerm(t, glossary[1..], key);
      } else {
        ValidatedGlossaryCountsOnce(t, glossary[1..], key);
      }
    }
  }

  // ----- Who is reported, and from where -----

  predicate Said(t: Text, text: Option<string>, synonym: string) {
    text.Some? && text.value != "" && t.matches(text.value, synonym) > 0
  }

  /** A reflection counts for its role. */
  predicate SaidReflecting(t: Text, r: ReflectionEntry, key: Key) {
    (r.role == Some(key.role) || (r.role == None && key.role == "unknown")) && Said(t, r.content, key.synonym)
  }

  /** A decision counts for the first agent listed, and for nobody else. */
  predicate SaidDeciding(t: Text, d: DecisionEntry, key: Key) {
    key.role == (if d.agents == [] then "unknown" else d.agents[0]) && Said(t, d.summary, key.synonym)
  }

  /** An event counts for the role that its detail names, or else for the agent it names. */
  predicate SaidInEvent(t: Text, e: Event, key: Key) {
    && (|| (key.role != "" && e.agentRole == Word(key.role))
        || (key.role != "" && e.agentRole in {Falsy, Word("")} && e.agent == Word(key.role))
        || (key.role == "unknown" && (e.agentRole == Other
                                      || (e.agentRole in {Falsy, Word("")} && e.agent in {Falsy, Word(""), Other}))))
    && Said(t, Some(e.detail), key.synonym)
  }

  lemma {:induction false} FirstTextConcat(t: Text, a: seq<Sample>, b: seq<Sample>, role: string, synonym: string)
    ensures FirstText(t, a + b, role, synonym)
         == if FirstText(t, a, role, synonym).Some? then FirstText(t, a, role, synonym)
            else FirstText(t, b, role, synonym)
  {
    if a == [] {
      assert a + b == b;
    } else {
      assert (a + b)[1..] == a[1..] + b;
      FirstTextConcat(t, a[1..], b, role, synonym);
    }
  }

  lemma {:induction false} FirstTextOfMap<A>(t: Text, f: A -> Sample, xs: seq<A>, role: string, synonym: string)
    ensures var first := FirstText(t, Sorting.Map(f, xs), role, synonym);
            && (first.Some? <==> exists x :: x in xs && MatchesIn(t, f(x), role, synonym) > 0)
            && (first.Some? ==> exists x :: x in xs && first.value == f(x))
  {
    if xs != [] {
      FirstTextOfMap(t, f, xs[1..], role, synonym);
      assert Sorting.Map(f, xs)[1..] == Sorting.Map(f, xs[1..]);
    }
  }

  lemma {:induction false} ListedIff(pairs: seq<(string, string)>, key: Key)
    ensures Listed(pairs, key) > 0 <==> (key.term, key.synonym) in pairs
  {
    if pairs != [] {
      ListedIff(pairs[1..], key);
    }
  }

  lemma {:induction false} StrippedIff(t: Text, forbidden: seq<string>, synonym: string)
    ensures synonym in Stripped(t, forbidden) <==> synonym != "" && exists f :: f in forbidden && t.strip(f) == synonym
  {
    if forbidden != [] {
      StrippedIff(t, forbidden[1..], synonym);
    }
  }

  lemma {:induction false} PairsIff(t: Text, glossary: seq<Entry>, term: string, synonym: string)
    ensures (term, synonym) in Pairs(t, glossary)
       <==> exists e :: e in glossary && e.term == term && synonym in Stripped(t, e.forbidden)
  {
    if glossary != [] {
      PairsIff(t, glossary[1..], term, synonym);
      var e := glossary[0];
      var own := EntryPairs(t, e);
      if synonym in Stripped(t, e.forbidden) && e.term == term {
        var i :| 0 <= i < |own| && Stripped(t, e.forbidden)[i] == synonym;
        assert own[i] == (term, synonym);
      }
    }
  }

  lemma MatchesOfEntries(t: Text, r: ReflectionEntry, d: DecisionEntry, e: Event, key: Key)
    ensures MatchesIn(t, OfReflection(r), key.role, key.synonym) > 0 <==> SaidReflecting(t, r, key)
    ensures MatchesIn(t, OfDecision(d), key.role, key.synonym) > 0 <==> SaidDeciding(t, d, key)
    ensures MatchesIn(t, OfEvent(e), key.role, key.synonym) > 0 <==> SaidInEvent(t, e, key)
  {
  }

  /** A role is reported for a term and a synonym exactly if an entry lists that synonym, not blank, for the term, and a
      reflection, decision or event that counts for the role uses it. It is shown from a reflection if one
      does, else from a decision, else from an event. */
  lemma ReportedIff(t: Text, glossary: seq<Entry>, reflections: seq<ReflectionEntry>, decisions: seq<DecisionEntry>,
                    events: seq<Event>, key: Key)
    ensures var hit := Owed(t, glossary, Samples(reflections, decisions, events), key);
            var reflecting := exists r :: r in reflections && SaidReflecting(t, r, key);
            var deciding := exists d :: d in decisions && SaidDeciding(t, d, key);
            && (hit.Some?
                <==> && key.synonym != ""
                     && (exists e :: e in glossary && e.term == key.term
                                     && exists f :: f in e.forbidden && t.strip(f) == key.synonym)
                     && (reflecting || deciding || exists e :: e in events && SaidInEvent(t, e, key)))
            && (hit.Some? ==> hit.value.source
                              == if reflecting then Reflection else if deciding then Decision else AuditEvent)
  {
    var a, b := Sorting.Map(OfReflection, reflections), Sorting.Map(OfDecision, decisions);
    var c := Sorting.Map(OfEvent, events);
    FirstTextConcat(t, a + b, c, key.role, key.synonym);
    FirstTextConcat(t, a, b, key.role, key.synonym);
    FirstTextOfMap(t, OfReflection, reflections, key.role, key.synonym);
    FirstTextOfMap(t, OfDecision, decisions, key.role, key.synonym);
    FirstTextOfMap(t, OfEvent, events, key.role, key.synonym);
    EntriesMatchIff(t, reflections, decisions, events, key);
    ListsIff(t, glossary, key);
  }

  lemma ListsIff(t: Text, glossary: seq<Entry>, key: Key)
    ensures Listed(Pairs(t, glossary), key) > 0
       <==> && key.synonym != ""
            && exists e :: e in glossary && e.term == key.term
                           && exists f :: f in e.forbidden && t.strip(f) == key.synonym
  {
    ListedIff(Pairs(t, glossary), key);
    PairsIff(t, glossary, key.term, key.synonym);
    forall e | e in glossary
      ensures key.synonym in Stripped(t, e.forbidden)
         <==> key.synonym != "" && exists f :: f in e.forbidden && t.strip(f) == key.synonym
    {
      StrippedIff(t, e.forbidden, key.synonym);
    }
  }

  lemma EntriesMatchIff(t: Text, reflections: seq<ReflectionEntry>, decisions: seq<DecisionEntry>, events: seq<Event>,
                        key: Key)
    ensures (exists r :: r in reflections && MatchesIn(t, OfReflection(r), key.role, key.synonym) > 0)
       <==> exists r :: r in reflections && SaidReflecting(t, r, key)
    ensures (exists d :: d in decisions && MatchesIn(t, OfDecision(d), key.role, key.synonym) > 0)
       <==> exists d :: d in decisions && SaidDeciding(t, d, key)
    ensures (exists e :: e in events && MatchesIn(t, OfEvent(e), key.role, key.synonym) > 0)
       <==> exists e :: e in events && SaidInEvent(t, e, key)
  {
    forall r, d, e {
      MatchesOfEntries(t, r, d, e, key);
    }
  }
}
