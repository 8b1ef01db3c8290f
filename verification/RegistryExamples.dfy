/** Concrete stores, over one concrete reading of URLs, in which the registry and the desktop do not
    do what is said of them (tauri/src-tauri/src/target_registry.rs, tauri/src-tauri/src/desktop.rs). */
module RegistryExamples {
  import opened Wrappers
  import opened Sorting
  import opened TargetIds
  import opened TargetRegistry
  import opened RegistrySafety
  import opened Desktop

  // ----- A reading of URLs -----

  predicate Trimmable(c: char) {
    Space(c) || c == '/'
  }

  /** URLs are texts that begin with `h`; the second character names the host. */
  function LetterHost(v: string): string {
    if |v| > 1 && !Trimmable(v[1]) then [v[1]] else ""
  }

  function LetterParse(v: string): Option<Parsed> {
    if v != "" && v[0] == 'h' then Some(Parsed("https", Some(LetterHost(v)), Some(443), false)) else None
  }

  lemma {:induction false} TrimEndDrops(s: string)
    ensures TrimEnd(s) <= s && forall i :: |TrimEnd(s)| <= i < |s| ==> Trimmable(s[i])
  {
    if s != "" && Space(s[|s| - 1]) {
      TrimEndDrops(s[..|s| - 1]);
    }
  }

  lemma {:induction false} TrimSlashesDrops(s: string)
    ensures TrimSlashes(s) <= s && forall i :: |TrimSlashes(s)| <= i < |s| ==> Trimmable(s[i])
  {
    if s != "" && s[|s| - 1] == '/' {
      TrimSlashesDrops(s[..|s| - 1]);
    }
  }

  lemma StripDrops(v: string)
    requires v != "" && v[0] == 'h'
    ensures StripUrl(v) <= v && StripUrl(v) != "" && StripUrl(v)[0] == 'h'
    ensures forall i :: |StripUrl(v)| <= i < |v| ==> Trimmable(v[i])
  {
    assert TrimStart(v) == v;
    TrimEndDrops(v);
    TrimSlashesDrops(TrimEnd(v));
    var t := TrimEnd(v);
    assert forall i :: |StripUrl(v)| <= i < |t| ==> Trimmable(t[i]) && t[i] == v[i];
    assert |StripUrl(v)| == 0 ==> Trimmable(v[0]);
  }

  /** It meets what is assumed of the URL library. */
  lemma LetterContract()
    ensures ParserContract(LetterParse)
  {
    forall v ensures EndIsIrrelevant(LetterParse, v) {
      if Accepted(LetterParse, v) {
        StripDrops(v);
        StripDrops(StripUrl(v));
        assert LetterHost(StripUrl(v)) == LetterHost(v);
      }
    }
  }

  /** The URL of one letter's host. */
  function UrlFor(c: char): string {
    "h" + [c]
  }

  lemma LetterUrl(c: char)
    requires !Trimmable(c)
    ensures StripUrl(UrlFor(c)) == UrlFor(c) && Accepted(LetterParse, UrlFor(c))
    ensures TargetOrigin(LetterParse, UrlFor(c)) == Ok(Origin("https", [c], 443))
  {
    StripDrops(UrlFor(c));
    assert UrlFor(c)[1] == c;
    assert StripUrl(UrlFor(c)) == UrlFor(c);
  }

  lemma NameN()
    ensures ValidateName("n").Ok? && Trim("n") == "n"
  {
    assert TrimStart("n") == "n" && TrimEnd("n") == "n";
  }

  /** A profile under any usable id, at one letter's host. */
  lemma LetterProfile(id: string, c: char)
    requires ValidId(id) && id !in {LOCAL, ENV} && !Trimmable(c)
    ensures WellFormed(LetterParse, Target(id, "n", UrlFor(c)))
  {
    LetterUrl(c);
    NameN();
  }

  // ----- The generated ids run out -----

  lemma GeneratedIdsAreUsable(utf8: seq<Byte>, millis: nat)
    ensures ValidId(SlugOf(utf8)) && ValidId(Candidate(utf8, millis)) && ValidId(SlugOf(utf8) + "-1")
    ensures {SlugOf(utf8), Candidate(utf8, millis), SlugOf(utf8) + "-1"} !! {LOCAL, ENV, LEGACY}
    ensures Candidate(utf8, millis) != SlugOf(utf8) && SlugOf(utf8) + "-1" != SlugOf(utf8)
  {
    var slug, candidate := SlugOf(utf8), Candidate(utf8, millis);
    UniqueIdIsUsable({}, utf8, millis);
    UniqueIdIsUsable({slug}, utf8, millis);
    assert |candidate| > |slug| && |slug + "-1"| > |slug|;
    assert UniqueId({slug}, utf8, millis) == candidate;
    UniqueIdIsUsable({slug, candidate}, utf8, millis);
  }

  /** Three profiles at three hosts. */
  function House(a: string, b: string, c: string): Registry {
    Registry(LOCAL, [Target(a, "n", UrlFor('a')), Target(b, "n", UrlFor('b')), Target(c, "n", UrlFor('c'))])
  }

  predicate Usable(id: string) {
    ValidId(id) && id !in {LOCAL, ENV}
  }

  lemma LettersDiffer(c: char, d: char)
    requires !Trimmable(c) && !Trimmable(d) && c != d
    ensures TargetOrigin(LetterParse, UrlFor(c)) != TargetOrigin(LetterParse, UrlFor(d))
  {
    LetterUrl(c);
    LetterUrl(d);
    assert [c][0] != [d][0];
  }

  lemma ThreePairwise<T>(x: T, y: T, z: T, p: (T, T) -> bool)
    requires p(x, y) && p(x, z) && p(y, z)
    ensures Pairwise([x, y, z], p)
  {
  }

  /** Three well-formed profiles with distinct ids and origins are a registry in good shape. */
  lemma ThreeInShape(parse: Parser, x: Target, y: Target, z: Target)
    requires WellFormed(parse, x) && WellFormed(parse, y) && WellFormed(parse, z)
    requires Apart(parse)(x, y) && Apart(parse)(x, z) && Apart(parse)(y, z)
    ensures Shape(parse, Registry(LOCAL, [x, y, z]))
  {
    ThreePairwise(x, y, z, Apart(parse));
  }

  lemma HouseIsInShape(a: string, b: string, c: string)
    requires Usable(a) && Usable(b) && Usable(c) && a != b && a != c && b != c
    ensures Shape(LetterParse, House(a, b, c))
  {
    LetterProfile(a, 'a');
    LetterProfile(b, 'b');
    LetterProfile(c, 'c');
    LettersDiffer('a', 'b');
    LettersDiffer('a', 'c');
    LettersDiffer('b', 'c');
    ThreeInShape(LetterParse, Target(a, "n", UrlFor('a')), Target(b, "n", UrlFor('b')), Target(c, "n", UrlFor('c')));
  }

  lemma HouseAccepts(a: string, b: string, c: string, name: string, millis: nat)
    requires Shape(LetterParse, House(a, b, c)) && 0 < |Trim(name)| <= 80
    ensures SaveDecision(LetterParse, House(a, b, c), None, name, UrlFor('d'), millis).Ok?
    ensures StripUrl(UrlFor('d')) == UrlFor('d')
  {
    LetterContract();
    LetterUrl('d');
    LettersDiffer('a', 'd');
    LettersDiffer('b', 'd');
    LettersDiffer('c', 'd');
    CreateNeverFailsOnItsId(LetterParse, House(a, b, c), name, UrlFor('d'), millis);
  }

  lemma HouseIds(a: string, b: string, c: string)
    ensures Ids(House(a, b, c).targets) == {a, b, c}
  {
    var ts := House(a, b, c).targets;
    assert ts[0] in ts && ts[1] in ts && ts[2] in ts;
  }

  lemma ReplacesTheThird(a: string, b: string, c: string, t: Target)
    requires t.id == c && a != c && b != c
    ensures Upsert(House(a, b, c).targets, t) == House(a, b, c).targets[2 := t]
  {
    var ts := House(a, b, c).targets;
    assert ts[2].id == c && IndexOf(ts, c) == 2;
  }

  /** For every name, at almost every instant, there is a registry in good shape in which creating a
      profile of that name replaces one of three others instead of adding a fourth. */
  lemma CreateCanReplace(name: string, millis: nat)
    requires 0 < |Trim(name)| <= 80 && Candidate(Utf8(name), millis) != SlugOf(Utf8(name)) + "-1"
    ensures var reg := House(SlugOf(Utf8(name)), Candidate(Utf8(name), millis), SlugOf(Utf8(name)) + "-1");
            var created := Target(SlugOf(Utf8(name)) + "-1", Trim(name), UrlFor('d'));
            && Shape(LetterParse, reg) && IdsRunOut(Ids(reg.targets), Utf8(name), millis)
            && SaveTarget(LetterParse, Store(Stored(reg), map[], None), None, name, UrlFor('d'), millis)
               == (Ok(created), Store(Stored(reg.(targets := reg.targets[2 := created])), map[], None))
  {
    var a, b, c := SlugOf(Utf8(name)), Candidate(Utf8(name), millis), SlugOf(Utf8(name)) + "-1";
    GeneratedIdsAreUsable(Utf8(name), millis);
    HouseIsInShape(a, b, c);
    HouseAccepts(a, b, c, name, millis);
    HouseIds(a, b, c);
    ThirdIsReplaced(LetterParse, a, b, c, name, UrlFor('d'), millis);
  }

  /** A create that is accepted writes the generated id, the trimmed name and the stripped URL. */
  lemma DecidedFor(parse: Parser, reg: Registry, name: string, url: string, millis: nat, id: string)
    requires SaveDecision(parse, reg, None, name, url, millis).Ok?
    requires UniqueId(Ids(reg.targets), Utf8(name), millis) == id && StripUrl(url) == url
    ensures SaveDecision(parse, reg, None, name, url, millis) == Ok(Target(id, Trim(name), url))
  {
    DecisionIsAsAsked(parse, reg, None, name, url, millis);
  }

  /** If the generated id is that of a profile, that profile is replaced. */
  lemma CreatedAt(parse: Parser, reg: Registry, name: string, url: string, millis: nat, id: string, i: nat)
    requires Shape(parse, reg) && SaveDecision(parse, reg, None, name, url, millis).Ok?
    requires UniqueId(Ids(reg.targets), Utf8(name), millis) == id && StripUrl(url) == url
    requires i < |reg.targets| && Upsert(reg.targets, Target(id, Trim(name), url))
                                  == reg.targets[i := Target(id, Trim(name), url)]
    ensures var created := Target(id, Trim(name), url);
            SaveTarget(parse, Store(Stored(reg), map[], None), None, name, url, millis)
            == (Ok(created), Store(Stored(reg.(targets := reg.targets[i := created])), map[], None))
  {
    DecidedFor(parse, reg, name, url, millis, id);
    SaveOfHealthy(parse, Store(Stored(reg), map[], None), None, name, url, millis);
    WrittenWithoutTokens(reg, Target(id, Trim(name), url));
  }

  lemma ThirdIsReplaced(parse: Parser, a: string, b: string, c: string, name: string, url: string, millis: nat)
    requires a != c && b != c && StripUrl(url) == url && UniqueId({a, b, c}, Utf8(name), millis) == c
    requires Shape(parse, House(a, b, c)) && SaveDecision(parse, House(a, b, c), None, name, url, millis).Ok?
    ensures var reg, created := House(a, b, c), Target(c, Trim(name), url);
            SaveTarget(parse, Store(Stored(reg), map[], None), None, name, url, millis)
            == (Ok(created), Store(Stored(reg.(targets := reg.targets[2 := created])), map[], None))
  {
    HouseIds(a, b, c);
    ReplacesTheThird(a, b, c, Target(c, Trim(name), url));
    CreatedAt(parse, House(a, b, c), name, url, millis, c, 2);
  }

  lemma WrittenWithoutTokens(reg: Registry, t: Target)
    ensures WriteProfile(Store(Stored(reg), map[], None), reg, t)
         == Store(Stored(reg.(targets := Upsert(reg.targets, t))), map[], None)
  {
    var none: map<string, string> := map[];
    assert none - {t.id} == none;
  }

  // ----- The next pick does not log in again -----

  const SESSION := Session(LetterParse, None, None)

  /** One profile `p`, with the token `o`. */
  const ONE_PROFILE := Store(Stored(Registry(LOCAL, [Target("p", "n", UrlFor('a'))])), map["p" := "o"], None)

  const AT_REST := Desk(ONE_PROFILE, LOCAL, map[], false, map[])

  /** The profile gets the token `x`, and nothing else changes. */
  const NEW_TOKEN := SaveProfile(Some("p"), "n", UrlFor('a'), 0, Some("x"))

  lemma TrimChar(c: char)
    requires !Space(c)
    ensures Trim([c]) == [c]
  {
    assert TrimStart([c]) == [c] && TrimEnd([c]) == [c];
  }

  lemma AtRestIsFine()
    ensures Inv(SESSION, AT_REST) && ViewsCurrent(AT_REST) && Has(ONE_PROFILE.file.registry.targets, "p")
    ensures UrlOf(ONE_PROFILE.file.registry.targets, "p") == UrlFor('a') && ReadToken(ONE_PROFILE, "p") == Some("o")
  {
    LetterProfile("p", 'a');
    TrimChar('o');
    assert ONE_PROFILE.file.registry.targets[0].id == "p";
  }

  lemma NewTokenIsSaved()
    ensures SaveTarget(LetterParse, ONE_PROFILE, Some("p"), "n", UrlFor('a'), 0).0 == Ok(Target("p", "n", UrlFor('a')))
  {
    var reg := ONE_PROFILE.file.registry;
    LetterContract();
    LetterUrl('a');
    NameN();
    AtRestIsFine();
    SaveUnderAnIdSucceedsIff(LetterParse, reg, "p", "n", UrlFor('a'), 0);
    DecisionIsAsAsked(LetterParse, reg, Some("p"), "n", UrlFor('a'), 0);
    SaveOfHealthy(LetterParse, ONE_PROFILE, Some("p"), "n", UrlFor('a'), 0);
  }

  /** A pick of `p` waits, `p` gets another token, the pick completes with the old one; the next pick
      shows that view without logging in. */
  lemma NextPickDoesNotLogInAgain()
    ensures var end := PickThroughSave(SESSION, AT_REST, 0, "p", false, true, NEW_TOKEN);
            var again := DoStep(SESSION, end, StartPick(1, "p", false, true));
            && !ViewsCurrent(end) && again.picks == map[] && again.active == "p"
            && "p" in again.views && again.views["p"].token == Some("o") && ReadToken(again.store, "p") == Some("x")
  {
    LetterContract();
    AtRestIsFine();
    NewTokenIsSaved();
    TrimChar('x');
    SaveDuringPickIsMissedIff(SESSION, AT_REST, 0, "p", false, true, NEW_TOKEN);
    MissedLoginIsNotMadeUp(SESSION, AT_REST, 0, "p", false, true, NEW_TOKEN, 1);
  }
}
