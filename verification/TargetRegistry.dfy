/** The desktop's persisted profile registry and the token files beside it
    (tauri/src-tauri/src/target_registry.rs). */
module TargetRegistry {
  import opened Wrappers
  import opened Sorting
  import opened TargetIds

  // ----- Text -----

  /** Unicode white space, which `trim` removes. */
  predicate Space(c: char) {
    var n := c as int;
    || 0x09 <= n <= 0x0D || n == 0x20 || n == 0x85 || n == 0xA0 || n == 0x1680
    || 0x2000 <= n <= 0x200A || n == 0x2028 || n == 0x2029 || n == 0x202F || n == 0x205F || n == 0x3000
  }

  function TrimStart(s: string): string {
    if s != "" && Space(s[0]) then TrimStart(s[1..]) else s
  }

  function TrimEnd(s: string): string {
    if s != "" && Space(s[|s| - 1]) then TrimEnd(s[..|s| - 1]) else s
  }

  function Trim(s: string): string {
    TrimEnd(TrimStart(s))
  }

  function TrimSlashes(s: string): string {
    if s != "" && s[|s| - 1] == '/' then TrimSlashes(s[..|s| - 1]) else s
  }

  lemma {:induction false} TrimEndKeepsFront(s: string)
    ensures TrimEnd(s) <= s
    ensures TrimEnd(s) != "" ==> !Space(TrimEnd(s)[|TrimEnd(s)| - 1])
  {
    if s != "" && Space(s[|s| - 1]) {
      TrimEndKeepsFront(s[..|s| - 1]);
    }
  }

  lemma {:induction false} TrimStartStops(s: string)
    ensures TrimStart(s) != "" ==> !Space(TrimStart(s)[0])
  {
    if s != "" && Space(s[0]) {
      TrimStartStops(s[1..]);
    }
  }

  lemma TrimTwice(s: string)
    ensures Trim(Trim(s)) == Trim(s)
  {
    TrimStartStops(s);
    TrimEndKeepsFront(TrimStart(s));
  }

  /** The UTF-8 bytes of a name. */
  function Utf8(s: string): seq<Byte> {
    if s == "" then [] else Utf8Char(s[0] as int) + Utf8(s[1..])
  }

  function Utf8Char(n: int): seq<Byte>
    requires 0 <= n < 0x11_0000
  {
    if n < 0x80 then [n as Byte]
    else if n < 0x800 then [(0xC0 + n / 0x40) as Byte, (0x80 + n % 0x40) as Byte]
    else if n < 0x1_0000 then
      [(0xE0 + n / 0x1000) as Byte, (0x80 + n / 0x40 % 0x40) as Byte, (0x80 + n % 0x40) as Byte]
    else
      [(0xF0 + n / 0x4_0000) as Byte, (0x80 + n / 0x1000 % 0x40) as Byte,
       (0x80 + n / 0x40 % 0x40) as Byte, (0x80 + n % 0x40) as Byte]
  }

  // ----- URLs -----

  /** What the URL library reports. `port` is the explicit or the scheme's default port. */
  datatype Parsed = Parsed(scheme: string, host: Option<string>, port: Option<nat>, credentials: bool)

  /** The URL library, which this model does not contain. */
  type Parser = string -> Option<Parsed>

  datatype Origin = Origin(scheme: string, host: string, port: nat)

  datatype Problem =
    | UrlRequired | UrlInvalid | UrlHasCredentials | PortUnknown
    | NameRequired | NameTooLong
    | IdInvalid | LocalIsFixed | EnvIsManaged
    | OriginTaken | NotFound

  function StripUrl(url: string): string {
    TrimSlashes(Trim(url))
  }

  predicate Accepted(parse: Parser, v: string) {
    && v != "" && parse(v).Some?
    && parse(v).value.scheme in {"http", "https"} && parse(v).value.host.Some?
    && !parse(v).value.credentials
  }

  function NormalizeUrl(parse: Parser, url: string): (r: Result<string, Problem>)
    ensures r.Ok? <==> Accepted(parse, StripUrl(url))
    ensures r.Ok? ==> r.value == StripUrl(url)
  {
    var v := StripUrl(url);
    if v == "" then Err(UrlRequired)
    else match parse(v)
      case None => Err(UrlInvalid)
      case Some(p) =>
        if p.scheme !in {"http", "https"} || p.host.None? then Err(UrlInvalid)
        else if p.credentials then Err(UrlHasCredentials)
        else Ok(v)
  }

  function TargetOrigin(parse: Parser, url: string): Result<Origin, Problem> {
    match parse(url)
    case None => Err(UrlInvalid)
    case Some(p) =>
      if p.port.None? then Err(PortUnknown)
      else Ok(Origin(p.scheme, if p.host.Some? then p.host.value else "", p.port.value))
  }

  predicate EndIsIrrelevant(parse: Parser, v: string) {
    Accepted(parse, v) ==>
      && parse(v).value.port.Some?
      && Accepted(parse, StripUrl(v))
      && TargetOrigin(parse, StripUrl(v)) == TargetOrigin(parse, v)
  }

  /** What is assumed of the URL library: an accepted URL has a known port (`http` and `https`
      have default ports), and white space or slashes at its end say nothing about its
      scheme, host, port or credentials. */
  ghost predicate ParserContract(parse: Parser) {
    forall v :: EndIsIrrelevant(parse, v)
  }

  // ----- Profiles and the registry -----

  datatype Target = Target(id: string, name: string, url: string)

  datatype Registry = Registry(active: string, targets: seq<Target>)

  /** The registry file: absent, not parseable, or holding a registry. */
  datatype File = Missing | Corrupt | Stored(registry: Registry)

  /** Everything on disk: the registry file, one token file per id, and the URL file that
      older versions wrote. */
  datatype Store = Store(file: File, tokens: map<string, string>, legacyUrl: Option<string>)

  function ValidateName(name: string): (r: Result<string, Problem>)
    ensures r.Ok? <==> 0 < |Trim(name)| <= 80
    ensures r.Ok? ==> r.value == Trim(name)
  {
    if Trim(name) == "" then Err(NameRequired)
    else if |Trim(name)| > 80 then Err(NameTooLong)
    else Ok(Trim(name))
  }

  function ValidateTarget(parse: Parser, id: string, name: string, url: string): (r: Result<Target, Problem>)
    ensures r.Ok? ==> r.value == Target(id, Trim(name), StripUrl(url))
    ensures r.Ok? <==> ValidId(id) && id !in {LOCAL, ENV} && 0 < |Trim(name)| <= 80 && Accepted(parse, StripUrl(url))
  {
    if !ValidId(id) then Err(IdInvalid)
    else if id == LOCAL then Err(LocalIsFixed)
    else if id == ENV then Err(EnvIsManaged)
    else if ValidateName(name).Err? then Err(ValidateName(name).error)
    else if NormalizeUrl(parse, url).Err? then Err(NormalizeUrl(parse, url).error)
    else Ok(Target(id, ValidateName(name).value, NormalizeUrl(parse, url).value))
  }

  function IndexOf(targets: seq<Target>, id: string): (i: nat)
    ensures i <= |targets|
    ensures i < |targets| ==> targets[i].id == id
    ensures forall j :: 0 <= j < i ==> targets[j].id != id
  {
    if targets == [] || targets[0].id == id then 0
    else
      var rest := IndexOf(targets[1..], id);
      assert forall j :: 0 < j < rest + 1 ==> targets[j] == targets[1..][j - 1];
      rest + 1
  }

  predicate Has(targets: seq<Target>, id: string) {
    IndexOf(targets, id) < |targets|
  }

  function UrlOf(targets: seq<Target>, id: string): string
    requires Has(targets, id)
  {
    targets[IndexOf(targets, id)].url
  }

  function Upsert(targets: seq<Target>, t: Target): seq<Target> {
    if Has(targets, t.id) then targets[IndexOf(targets, t.id) := t] else targets + [t]
  }

  function OtherThan(id: string): Target -> bool {
    (t: Target) => t.id != id
  }

  /** What loading keeps of a stored list. The environment id is not filtered out. */
  function Loadable(parse: Parser): Target -> bool {
    (t: Target) => t.id != LOCAL && ValidId(t.id) && ValidateName(t.name).Ok? && NormalizeUrl(parse, t.url).Ok?
  }

  // ----- Operations on the store -----

  const EMPTY_REGISTRY := Registry(LOCAL, [])

  /** What an older version's URL file turns into. */
  function Migrated(parse: Parser, legacyUrl: Option<string>): Registry {
    if legacyUrl.Some? && NormalizeUrl(parse, legacyUrl.value).Ok? then
      Registry(LEGACY, [Target(LEGACY, "Remote", NormalizeUrl(parse, legacyUrl.value).value)])
    else EMPTY_REGISTRY
  }

  function LoadStored(parse: Parser, s: Store): (Registry, Store) {
    var found := if s.file.Stored? then s.file.registry else Migrated(parse, s.legacyUrl);
    var kept := Registry(found.active, Filter(found.targets, Loadable(parse)));
    var lost := kept.active != LOCAL && !Has(kept.targets, kept.active);
    var registry := if lost then kept.(active := LOCAL) else kept;
    (registry, if lost || !s.file.Stored? then s.(file := Stored(registry)) else s)
  }

  predicate OriginUsed(parse: Parser, targets: seq<Target>, self: string, origin: Origin) {
    exists t | t in targets :: t.id != self && TargetOrigin(parse, t.url) == Ok(origin)
  }

  function Ids(targets: seq<Target>): set<string> {
    set t | t in targets :: t.id
  }

  /** The profile that a save writes, or why it is refused. */
  function SaveDecision(parse: Parser, reg: Registry, id: Option<string>, name: string, url: string, millis: nat)
    : Result<Target, Problem>
  {
    var normalized := NormalizeUrl(parse, url);
    if normalized.Err? then Err(normalized.error) else
    var origin := TargetOrigin(parse, normalized.value);
    if origin.Err? then Err(origin.error) else
    if OriginUsed(parse, reg.targets, if id.Some? then id.value else "", origin.value) then Err(OriginTaken) else
    if id.Some? && !ValidId(id.value) then Err(IdInvalid) else
    var targetId := if id.Some? then id.value else UniqueId(Ids(reg.targets), Utf8(name), millis);
    ValidateTarget(parse, targetId, name, normalized.value)
  }

  /** Writing a profile drops its token when its URL changes. */
  function WriteProfile(s: Store, reg: Registry, t: Target): Store {
    var urlChanged := Has(reg.targets, t.id) && UrlOf(reg.targets, t.id) != t.url;
    s.(file := Stored(reg.(targets := Upsert(reg.targets, t))),
       tokens := if urlChanged then s.tokens - {t.id} else s.tokens)
  }

  function SaveTarget(parse: Parser, s: Store, id: Option<string>, name: string, url: string, millis: nat)
    : (Result<Target, Problem>, Store)
  {
    var (reg, s1) := LoadStored(parse, s);
    var r := SaveDecision(parse, reg, id, name, url, millis);
    (r, if r.Ok? then WriteProfile(s1, reg, r.value) else s1)
  }

  function RemoveTarget(parse: Parser, s: Store, id: string): (Result<(), Problem>, Store) {
    if !ValidId(id) then (Err(IdInvalid), s) else
    if id == LOCAL then (Err(LocalIsFixed), s) else
    var (reg, s1) := LoadStored(parse, s);
    var rest := Filter(reg.targets, OtherThan(id));
    if |rest| == |reg.targets| then (Err(NotFound), s1) else
    var active := if reg.active == id then LOCAL else reg.active;
    (Ok(()), Store(Stored(Registry(active, rest)), s1.tokens - {id},
                   if id == LEGACY then None else s1.legacyUrl))
  }

  function SetActive(parse: Parser, s: Store, id: string): (Result<(), Problem>, Store) {
    if id != LOCAL && !ValidId(id) then (Err(IdInvalid), s) else
    var (reg, s1) := LoadStored(parse, s);
    if id != LOCAL && !Has(reg.targets, id) then (Err(NotFound), s1) else
    (Ok(()), s1.(file := Stored(reg.(active := id))))
  }

  function SaveToken(parse: Parser, s: Store, id: string, token: string): (Result<(), Problem>, Store) {
    if !ValidId(id) then (Err(IdInvalid), s) else
    if id == LOCAL then (Err(LocalIsFixed), s) else
    var (reg, s1) := LoadStored(parse, s);
    if id == ENV || !Has(reg.targets, id) then (Err(NotFound), s1) else
    if Trim(token) == "" then (Ok(()), s1) else
    (Ok(()), s1.(tokens := s1.tokens[id := Trim(token)]))
  }

  function ReadToken(s: Store, id: string): Option<string> {
    if id == LOCAL || !ValidId(id) || id !in s.tokens || Trim(s.tokens[id]) == "" then None
    else Some(Trim(s.tokens[id]))
  }

  /** The store as the program changes it: files rewritten one after the other. */
  class Disk {
    const parse: Parser
    var file: File
    var tokens: map<string, string>
    var legacyUrl: Option<string>

    constructor (parse: Parser, file: File, tokens: map<string, string>, legacyUrl: Option<string>)
      ensures this.parse == parse && State() == Store(file, tokens, legacyUrl)
    {
      this.parse, this.file, this.tokens, this.legacyUrl := parse, file, tokens, legacyUrl;
    }

    function State(): Store
      reads this
    {
      Store(file, tokens, legacyUrl)
    }

    method Load() returns (registry: Registry)
      modifies this`file
      ensures (registry, State()) == LoadStored(parse, old(State()))
    {
      var migrated := false;
      match file {
        case Stored(found) =>
          registry := found;
        case _ =>
          migrated := true;
          registry := Registry(LOCAL, []);
          if legacyUrl.Some? {
            var url := NormalizeUrl(parse, legacyUrl.value);
            if url.Ok? {
              registry := Registry(LEGACY, registry.targets + [Target(LEGACY, "Remote", url.value)]);
            }
          }
      }
      registry := registry.(targets := Filter(registry.targets, Loadable(parse)));
      if registry.active != LOCAL && !Has(registry.targets, registry.active) {
        registry := registry.(active := LOCAL);
        migrated := true;
      }
      if migrated {
        file := Stored(registry);
      }
    }

    method Save(id: Option<string>, name: string, url: string, millis: nat) returns (r: Result<Target, Problem>)
      modifies this
      ensures (r, State()) == SaveTarget(parse, old(State()), id, name, url, millis)
    {
      var registry := Load();
      var normalized := NormalizeUrl(parse, url);
      if normalized.Err? { return Err(normalized.error); }
      var origin := TargetOrigin(parse, normalized.value);
      if origin.Err? { return Err(origin.error); }
      if OriginUsed(parse, registry.targets, if id.Some? then id.value else "", origin.value) {
        return Err(OriginTaken);
      }
      var targetId;
      if id.Some? {
        if !ValidId(id.value) { return Err(IdInvalid); }
        targetId := id.value;
      } else {
        targetId := UniqueId(Ids(registry.targets), Utf8(name), millis);
      }
      r := ValidateTarget(parse, targetId, name, normalized.value);
      assert r == SaveDecision(parse, registry, id, name, url, millis);
      if r.Ok? {
        var target := r.value;
        var at := IndexOf(registry.targets, target.id);
        var urlChanged := at < |registry.targets| && registry.targets[at].url != target.url;
        if at < |registry.targets| {
          registry := registry.(targets := registry.targets[at := target]);
        } else {
          registry := registry.(targets := registry.targets + [target]);
        }
        file := Stored(registry);
        if urlChanged {
          tokens := tokens - {target.id};
        }
      }
    }

    method Remove(id: string) returns (r: Result<(), Problem>)
      modifies this
      ensures (r, State()) == RemoveTarget(parse, old(State()), id)
    {
      if !ValidId(id) { return Err(IdInvalid); }
      if id == LOCAL { return Err(LocalIsFixed); }
      var registry := Load();
      var previous := |registry.targets|;
      registry := registry.(targets := Filter(registry.targets, OtherThan(id)));
      if |registry.targets| == previous { return Err(NotFound); }
      if registry.active == id {
        registry := registry.(active := LOCAL);
      }
      file := Stored(registry);
      tokens := tokens - {id};
      if id == LEGACY {
        legacyUrl := None;
      }
      return Ok(());
    }

    method Activate(id: string) returns (r: Result<(), Problem>)
      modifies this
      ensures (r, State()) == SetActive(parse, old(State()), id)
    {
      if id != LOCAL && !ValidId(id) { return Err(IdInvalid); }
      var registry := Load();
      if id != LOCAL && !Has(registry.targets, id) { return Err(NotFound); }
      file := Stored(registry.(active := id));
      return Ok(());
    }

    method WriteToken(id: string, token: string) returns (r: Result<(), Problem>)
      modifies this
      ensures (r, State()) == SaveToken(parse, old(State()), id, token)
    {
      if !ValidId(id) { return Err(IdInvalid); }
      if id == LOCAL { return Err(LocalIsFixed); }
      var registry := Load();
      if id == ENV || !Has(registry.targets, id) { return Err(NotFound); }
      if Trim(token) != "" {
        tokens := tokens[id := Trim(token)];
      }
      return Ok(());
    }
  }
}
