/** What the registry's operations answer, and what loading keeps, in terms of texts and servers
    (tauri/src-tauri/src/target_registry.rs). */
module RegistryOutcomes {
  import opened Wrappers
  import opened Sorting
  import opened TargetIds
  import opened TargetRegistry
  import opened RegistrySafety

  // ----- Texts -----

  /** The code points that Unicode calls white space. */
  const WHITE_SPACE :=
    "\t\n\U{0B}\U{0C}\r \U{85}\U{A0}\U{1680}\U{2000}\U{2001}\U{2002}\U{2003}\U{2004}\U{2005}\U{2006}\U{2007}"
    + "\U{2008}\U{2009}\U{200A}\U{2028}\U{2029}\U{202F}\U{205F}\U{3000}"

  /** `trim` takes exactly these for white space. */
  lemma SpaceIff(c: char)
    ensures Space(c) <==> c in WHITE_SPACE
  {
    if Space(c) {
      var n := c as int;
      if 0x09 <= n <= 0x0D {
        assert WHITE_SPACE[n - 0x09] == c;
      } else if 0x2000 <= n <= 0x200A {
        assert WHITE_SPACE[n - 0x2000 + 9] == c;
      }
    }
  }

  predicate Blank(s: string) {
    forall i :: 0 <= i < |s| ==> Space(s[i])
  }

  lemma {:induction false} TrimStartDrops(s: string) returns (front: string)
    ensures s == front + TrimStart(s) && Blank(front)
    ensures TrimStart(s) != "" ==> !Space(TrimStart(s)[0])
  {
    if s != "" && Space(s[0]) {
      var rest := TrimStartDrops(s[1..]);
      front := [s[0]] + rest;
    } else {
      front := "";
    }
  }

  lemma {:induction false} TrimEndDrops(s: string) returns (back: string)
    ensures s == TrimEnd(s) + back && Blank(back)
    ensures TrimEnd(s) != "" ==> !Space(TrimEnd(s)[|TrimEnd(s)| - 1])
  {
    if s != "" && Space(s[|s| - 1]) {
      var rest := TrimEndDrops(s[..|s| - 1]);
      back := rest + [s[|s| - 1]];
    } else {
      back := "";
    }
  }

  /** Trimming takes white space off both ends, all of it, and nothing else. */
  lemma TrimIsExact(s: string) returns (front: string, back: string)
    ensures s == front + Trim(s) + back && Blank(front) && Blank(back)
    ensures Trim(s) != "" ==> !Space(Trim(s)[0]) && !Space(Trim(s)[|Trim(s)| - 1])
  {
    front := TrimStartDrops(s);
    back := TrimEndDrops(TrimStart(s));
  }

  lemma {:induction false} TrimSlashesDrops(s: string) returns (back: string)
    ensures s == TrimSlashes(s) + back && forall i :: 0 <= i < |back| ==> back[i] == '/'
    ensures TrimSlashes(s) != "" ==> TrimSlashes(s)[|TrimSlashes(s)| - 1] != '/'
  {
    if s != "" && s[|s| - 1] == '/' {
      var rest := TrimSlashesDrops(s[..|s| - 1]);
      back := rest + ['/'];
    } else {
      back := "";
    }
  }

  /** A stored URL is the given one without the white space around it and the slashes at its end. */
  lemma StripUrlIsExact(url: string) returns (front: string, slashes: string, back: string)
    ensures url == front + StripUrl(url) + slashes + back && Blank(front) && Blank(back)
    ensures forall i :: 0 <= i < |slashes| ==> slashes[i] == '/'
    ensures StripUrl(url) != "" ==> !Space(StripUrl(url)[0]) && StripUrl(url)[|StripUrl(url)| - 1] != '/'
  {
    front, back := TrimIsExact(url);
    slashes := TrimSlashesDrops(Trim(url));
    assert StripUrl(url) != "" ==> StripUrl(url)[0] == Trim(url)[0];
  }

  /** The bytes of a code point decode to it, and are as many as it needs. */
  lemma Utf8CharDecodes(n: int)
    requires 0 <= n < 0x11_0000
    ensures var b := Utf8Char(n);
            match |b|
            case 1 => n < 0x80 && b[0] as int == n
            case 2 =>
              && 0x80 <= n < 0x800 && 0xC0 <= b[0] as int < 0xE0 && 0x80 <= b[1] as int < 0xC0
              && n == (b[0] as int - 0xC0) * 0x40 + (b[1] as int - 0x80)
            case 3 =>
              && 0x800 <= n < 0x1_0000 && 0xE0 <= b[0] as int < 0xF0
              && 0x80 <= b[1] as int < 0xC0 && 0x80 <= b[2] as int < 0xC0
              && n == ((b[0] as int - 0xE0) * 0x40 + (b[1] as int - 0x80)) * 0x40 + (b[2] as int - 0x80)
            case 4 =>
              && 0x1_0000 <= n && 0xF0 <= b[0] as int < 0xF5
              && 0x80 <= b[1] as int < 0xC0 && 0x80 <= b[2] as int < 0xC0 && 0x80 <= b[3] as int < 0xC0
              && n == (((b[0] as int - 0xF0) * 0x40 + (b[1] as int - 0x80)) * 0x40 + (b[2] as int - 0x80)) * 0x40
                      + (b[3] as int - 0x80)
            case _ => false
  {
    if n >= 0x1_0000 {
      assert n / 0x1000 == n / 0x4_0000 * 0x40 + n / 0x1000 % 0x40;
    }
    if n >= 0x800 {
      assert n / 0x40 == n / 0x1000 * 0x40 + n / 0x40 % 0x40;
    }
  }

  // ----- Loading -----

  /** What loading asks of a stored profile. */
  predicate Sensible(parse: Parser, t: Target) {
    t.id != LOCAL && ValidId(t.id) && 0 < |Trim(t.name)| <= 80 && Accepted(parse, StripUrl(t.url))
  }

  /** Loading a stored registry keeps every sensible profile as often as it is there and no other, in their order,
      and the active choice exactly if it is the local engine or kept; it rewrites the file only to give
      up the choice. */
  lemma LoadKeepsTheSensible(parse: Parser, s: Store, t: Target)
    requires s.file.Stored?
    ensures var stored, (loaded, s') := s.file.registry, LoadStored(parse, s);
            && multiset(loaded.targets)[t] == (if Sensible(parse, t) then multiset(stored.targets)[t] else 0)
            && loaded.active == (if stored.active == LOCAL || Has(loaded.targets, stored.active) then stored.active
                                 else LOCAL)
            && s' == (if loaded.active == stored.active then s else s.(file := Stored(loaded)))
  {
    FilterCounts(s.file.registry.targets, Loadable(parse), t);
  }

  /** Without a readable registry file the first load makes the old remote URL, if there is an accepted one, the only
      profile and the active target, and otherwise leaves the local engine alone; it persists that. */
  lemma FirstLoad(parse: Parser, s: Store)
    requires ParserContract(parse) && !s.file.Stored?
    ensures var (loaded, s') := LoadStored(parse, s);
            && s' == s.(file := Stored(loaded))
            && if s.legacyUrl.Some? && Accepted(parse, StripUrl(s.legacyUrl.value))
               then loaded == Registry(LEGACY, [Target(LEGACY, "Remote", StripUrl(s.legacyUrl.value))])
               else loaded == Registry(LOCAL, [])
  {
    FirstLoadKeepsMigrated(parse, s);
  }

  // ----- Saving -----

  function HostOf(p: Parsed): string {
    if p.host.Some? then p.host.value else ""
  }

  /** One server: the scheme, the host and the port that the URL library finds. */
  predicate SameServer(parse: Parser, u: string, v: string) {
    && parse(u).Some? && parse(v).Some? && parse(u).value.port.Some?
    && parse(u).value.scheme == parse(v).value.scheme && HostOf(parse(u).value) == HostOf(parse(v).value)
    && parse(u).value.port == parse(v).value.port
  }

  /** The answer to a save: the URL is looked at first, then whether another profile has its server, then the id
      that was asked for, then the name; if nothing is wrong, the profile as asked for. */
  lemma SaveAnswers(parse: Parser, s: Store, id: Option<string>, name: string, url: string, millis: nat)
    requires ParserContract(parse) && Healthy(parse, s)
    ensures var answer, v := SaveTarget(parse, s, id, name, url, millis).0, StripUrl(url);
            if v == "" then answer == Err(UrlRequired)
            else if parse(v).None? || parse(v).value.scheme !in {"http", "https"} || parse(v).value.host.None?
            then answer == Err(UrlInvalid)
            else if parse(v).value.credentials then answer == Err(UrlHasCredentials)
            else if exists t :: t in s.file.registry.targets && Some(t.id) != id && SameServer(parse, t.url, v)
            then answer == Err(OriginTaken)
            else if id.Some? && !ValidId(id.value) then answer == Err(IdInvalid)
            else if id == Some(LOCAL) then answer == Err(LocalIsFixed)
            else if id == Some(ENV) then answer == Err(EnvIsManaged)
            else if Trim(name) == "" then answer == Err(NameRequired)
            else if |Trim(name)| > 80 then answer == Err(NameTooLong)
            else
              && answer.Ok? && answer.value.name == Trim(name) && answer.value.url == StripUrl(v)
              && (id.Some? ==> answer.value.id == id.value)
  {
    var v := StripUrl(url);
    SaveOfHealthy(parse, s, id, name, url, millis);
    if Accepted(parse, v) {
      assert EndIsIrrelevant(parse, v);
      TakenIff(parse, s.file.registry, id, v);
      if id.None? {
        UniqueIdIsUsable(Ids(s.file.registry.targets), Utf8(name), millis);
      }
    }
  }

  lemma TakenIff(parse: Parser, reg: Registry, id: Option<string>, v: string)
    requires ParserContract(parse) && Shape(parse, reg) && Accepted(parse, v) && TargetOrigin(parse, v).Ok?
    ensures OriginUsed(parse, reg.targets, if id.Some? then id.value else "", TargetOrigin(parse, v).value)
       <==> exists t :: t in reg.targets && Some(t.id) != id && SameServer(parse, t.url, v)
  {
    forall t | t in reg.targets
      ensures t.id != "" && (TargetOrigin(parse, t.url) == TargetOrigin(parse, v) <==> SameServer(parse, t.url, v))
    {
      assert WellFormed(parse, t);
    }
  }
}
