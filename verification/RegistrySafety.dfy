/** What every run of the registry operations keeps: the shape of the registry, and the tie
    between each stored token and the URL it was entered for. */
module RegistrySafety {
  import opened Wrappers
  import opened Sorting
  import opened TargetIds
  import opened TargetRegistry

  /** Two profiles with neither id nor origin (scheme, host, port) in common. */
  function Apart(parse: Parser): (Target, Target) -> bool {
    (a: Target, b: Target) => a.id != b.id && TargetOrigin(parse, a.url) != TargetOrigin(parse, b.url)
  }

  predicate WellFormed(parse: Parser, t: Target) {
    Loadable(parse)(t) && t.id != ENV && TargetOrigin(parse, t.url).Ok?
  }

  ghost predicate Shape(parse: Parser, reg: Registry) {
    && Pairwise(reg.targets, Apart(parse))
    && (forall t :: t in reg.targets ==> WellFormed(parse, t))
    && (reg.active == LOCAL || Has(reg.targets, reg.active))
  }

  ghost predicate Healthy(parse: Parser, s: Store) {
    s.file.Stored? && Shape(parse, s.file.registry)
  }

  // ----- Loading -----

  /** Loading returns what is stored, unchanged, exactly when the filter keeps every profile
      and the active id is local or kept. */
  lemma LoadReturnsTheFile(parse: Parser, s: Store)
    requires s.file.Stored?
    ensures LoadStored(parse, s) == (s.file.registry, s)
       <==> && (forall t :: t in s.file.registry.targets ==> Loadable(parse)(t))
            && (s.file.registry.active == LOCAL || Has(s.file.registry.targets, s.file.registry.active))
  {
    var ts := s.file.registry.targets;
    if forall t :: t in ts ==> Loadable(parse)(t) {
      FilterAll(ts, Loadable(parse));
    }
  }

  /** Loading changes nothing. */
  predicate Loads(parse: Parser, s: Store) {
    s.file.Stored? && LoadStored(parse, s) == (s.file.registry, s)
  }

  /** What an operation persisted in good shape is what the next one loads. */
  lemma LoadOfHealthy(parse: Parser, s: Store)
    requires Healthy(parse, s)
    ensures Loads(parse, s)
  {
    assert forall t :: t in s.file.registry.targets ==> Loadable(parse)(t) by {
      forall t | t in s.file.registry.targets ensures Loadable(parse)(t) {
        assert WellFormed(parse, t);
      }
    }
    LoadReturnsTheFile(parse, s);
  }

  /** A first start, or a start with an unreadable file, persists a registry in good shape. */
  lemma LoadOfNothing(parse: Parser, s: Store)
    requires ParserContract(parse) && !s.file.Stored?
    ensures Healthy(parse, LoadStored(parse, s).1)
  {
    var reg := Migrated(parse, s.legacyUrl);
    if reg.targets != [] {
      var t := reg.targets[0];
      assert EndIsIrrelevant(parse, t.url) && Accepted(parse, t.url);
      assert ValidId(LEGACY) && LEGACY != LOCAL && LEGACY != ENV;
      RemoteIsAName();
      FilterAll(reg.targets, Loadable(parse));
      assert WellFormed(parse, t);
    }
  }

  lemma RemoteIsAName()
    ensures ValidateName("Remote").Ok?
  {
    assert TrimStart("Remote") == "Remote";
    assert TrimEnd("Remote") == "Remote";
  }

  // ----- The profile list -----

  lemma HasIffMember(ts: seq<Target>, id: string)
    ensures Has(ts, id) <==> exists t :: t in ts && t.id == id
  {
    if t :| t in ts && t.id == id {
      var j :| 0 <= j < |ts| && ts[j] == t;
    }
  }

  lemma UpsertKeepsIds(ts: seq<Target>, t: Target, id: string)
    ensures Has(Upsert(ts, t), id) <==> id == t.id || Has(ts, id)
    ensures id != t.id && Has(ts, id) ==> UrlOf(Upsert(ts, t), id) == UrlOf(ts, id)
    ensures Has(Upsert(ts, t), t.id) && UrlOf(Upsert(ts, t), t.id) == t.url
  {
    var us := Upsert(ts, t);
    var i := IndexOf(ts, t.id);
    assert us[i] == t;
    assert IndexOf(us, t.id) == i;
    if id != t.id {
      if Has(ts, id) {
        assert us[IndexOf(ts, id)] == ts[IndexOf(ts, id)];
        assert IndexOf(us, id) == IndexOf(ts, id);
      }
    }
  }

  lemma UpsertKeepsApart(parse: Parser, ts: seq<Target>, t: Target)
    requires Pairwise(ts, Apart(parse))
    requires forall e :: e in ts && e.id != t.id ==> TargetOrigin(parse, e.url) != TargetOrigin(parse, t.url)
    ensures Pairwise(Upsert(ts, t), Apart(parse))
  {
    var us := Upsert(ts, t);
    var k := IndexOf(ts, t.id);
    forall i, j | 0 <= i < j < |us| ensures Apart(parse)(us[i], us[j]) {
      if i != k && j != k {
        assert us[i] == ts[i] && us[j] == ts[j];
      } else {
        var m := if i == k then j else i;
        assert us[m] == ts[m] && us[m] in ts;
        assert us[m].id != t.id by {
          if k < m {
            assert k < |ts| && Apart(parse)(ts[k], ts[m]);
          }
        }
      }
    }
  }

  lemma HeadOrTail(ts: seq<Target>, id: string)
    requires ts != []
    ensures Has(ts, id) <==> ts[0].id == id || Has(ts[1..], id)
    ensures ts[0].id == id ==> UrlOf(ts, id) == ts[0].url
    ensures ts[0].id != id && Has(ts, id) ==> UrlOf(ts, id) == UrlOf(ts[1..], id)
  {
  }

  lemma {:induction false} RemovalKeeps(ts: seq<Target>, gone: string, id: string)
    ensures Has(Filter(ts, OtherThan(gone)), id) <==> Has(ts, id) && id != gone
    ensures Has(ts, id) && id != gone ==> UrlOf(Filter(ts, OtherThan(gone)), id) == UrlOf(ts, id)
  {
    if ts != [] {
      RemovalKeeps(ts[1..], gone, id);
      var rest := Filter(ts[1..], OtherThan(gone));
      HeadOrTail(ts, id);
      if ts[0].id != gone {
        assert Filter(ts, OtherThan(gone)) == [ts[0]] + rest;
        HeadOrTail([ts[0]] + rest, id);
        assert ([ts[0]] + rest)[1..] == rest;
      } else {
        assert Filter(ts, OtherThan(gone)) == rest;
      }
    }
  }

  lemma {:induction false} RemovalShrinks(ts: seq<Target>, gone: string)
    ensures |Filter(ts, OtherThan(gone))| == |ts| <==> !Has(ts, gone)
  {
    if ts != [] {
      RemovalShrinks(ts[1..], gone);
    }
  }

  // ----- What each operation writes -----

  function WithActive(s: Store, id: string): Store
    requires s.file.Stored?
  {
    s.(file := Stored(s.file.registry.(active := id)))
  }

  function Removed(s: Store, id: string): Store
    requires s.file.Stored?
  {
    var reg := s.file.registry;
    Store(Stored(Registry(if reg.active == id then LOCAL else reg.active, Filter(reg.targets, OtherThan(id)))),
          s.tokens - {id}, if id == LEGACY then None else s.legacyUrl)
  }

  lemma RemoveOfLoaded(parse: Parser, s: Store, id: string)
    requires Loads(parse, s)
    ensures RemoveTarget(parse, s, id).0.Ok? <==> ValidId(id) && id != LOCAL && Has(s.file.registry.targets, id)
    ensures RemoveTarget(parse, s, id).1 == if RemoveTarget(parse, s, id).0.Ok? then Removed(s, id) else s
  {
    RemovalShrinks(s.file.registry.targets, id);
  }

  lemma SetActiveOfLoaded(parse: Parser, s: Store, id: string)
    requires Loads(parse, s)
    ensures SetActive(parse, s, id).0.Ok? <==> id == LOCAL || (ValidId(id) && Has(s.file.registry.targets, id))
    ensures SetActive(parse, s, id).1
         == if SetActive(parse, s, id).0.Ok? then WithActive(s, id) else s
  {
  }

  lemma SaveTokenOfLoaded(parse: Parser, s: Store, id: string, token: string)
    requires Loads(parse, s)
    ensures SaveToken(parse, s, id, token).0.Ok?
       <==> ValidId(id) && id != LOCAL && id != ENV && Has(s.file.registry.targets, id)
    ensures SaveToken(parse, s, id, token).1
         == if SaveToken(parse, s, id, token).0.Ok? && Trim(token) != ""
            then s.(tokens := s.tokens[id := Trim(token)]) else s
  {
  }

  // ----- Shape is kept -----

  /** What a save writes, when it is not refused, keeps origins apart. */
  lemma DecisionIsApart(parse: Parser, reg: Registry, id: Option<string>, name: string, url: string, millis: nat,
                        e: Target)
    requires ParserContract(parse) && e in reg.targets && WellFormed(parse, e)
    requires SaveDecision(parse, reg, id, name, url, millis).Ok?
    ensures var t := SaveDecision(parse, reg, id, name, url, millis).value;
            id.None? || e.id != t.id ==> TargetOrigin(parse, e.url) != TargetOrigin(parse, t.url)
  {
    var v := StripUrl(url);
    assert EndIsIrrelevant(parse, v);
    assert SaveDecision(parse, reg, id, name, url, millis).value.url == StripUrl(v);
    assert e.id != "";
  }

  lemma DecisionIsWellFormed(parse: Parser, reg: Registry, id: Option<string>, name: string, url: string, millis: nat)
    requires ParserContract(parse)
    requires SaveDecision(parse, reg, id, name, url, millis).Ok?
    ensures WellFormed(parse, SaveDecision(parse, reg, id, name, url, millis).value)
  {
    var v := StripUrl(url);
    var t := SaveDecision(parse, reg, id, name, url, millis).value;
    assert EndIsIrrelevant(parse, v) && EndIsIrrelevant(parse, t.url);
    assert Accepted(parse, v) && t.url == StripUrl(v) && t.name == Trim(name);
    TrimTwice(name);
  }

  lemma WriteKeepsShape(parse: Parser, s: Store, t: Target)
    requires Healthy(parse, s) && WellFormed(parse, t)
    requires forall e :: e in s.file.registry.targets && e.id != t.id ==>
               TargetOrigin(parse, e.url) != TargetOrigin(parse, t.url)
    ensures Healthy(parse, WriteProfile(s, s.file.registry, t))
  {
    var reg := s.file.registry;
    UpsertKeepsApart(parse, reg.targets, t);
    UpsertKeepsIds(reg.targets, t, reg.active);
    forall e | e in Upsert(reg.targets, t) ensures WellFormed(parse, e) {
      assert e == t || e in reg.targets;
    }
  }

  lemma SaveOfHealthy(parse: Parser, s: Store, id: Option<string>, name: string, url: string, millis: nat)
    requires Healthy(parse, s)
    ensures var r := SaveDecision(parse, s.file.registry, id, name, url, millis);
            SaveTarget(parse, s, id, name, url, millis)
            == (r, if r.Ok? then WriteProfile(s, s.file.registry, r.value) else s)
  {
    LoadOfHealthy(parse, s);
  }

  lemma SaveKeepsShape(parse: Parser, s: Store, id: Option<string>, name: string, url: string, millis: nat)
    requires ParserContract(parse) && Healthy(parse, s)
    ensures Healthy(parse, SaveTarget(parse, s, id, name, url, millis).1)
  {
    SaveOfHealthy(parse, s, id, name, url, millis);
    var reg := s.file.registry;
    var r := SaveDecision(parse, reg, id, name, url, millis);
    if r.Ok? {
      DecisionIsWellFormed(parse, reg, id, name, url, millis);
      forall e | e in reg.targets && e.id != r.value.id
        ensures TargetOrigin(parse, e.url) != TargetOrigin(parse, r.value.url)
      {
        DecisionIsApart(parse, reg, id, name, url, millis, e);
      }
      WriteKeepsShape(parse, s, r.value);
    }
  }

  lemma RemovedKeepsShape(parse: Parser, s: Store, id: string)
    requires Healthy(parse, s)
    ensures Healthy(parse, Removed(s, id))
  {
    var reg := s.file.registry;
    FilterPairwise(reg.targets, OtherThan(id), Apart(parse));
    RemovalKeeps(reg.targets, id, reg.active);
  }

  lemma RemoveKeepsShape(parse: Parser, s: Store, id: string)
    requires Healthy(parse, s)
    ensures Healthy(parse, RemoveTarget(parse, s, id).1)
  {
    LoadOfHealthy(parse, s);
    RemoveOfLoaded(parse, s, id);
    RemovedKeepsShape(parse, s, id);
  }

  // ----- Runs -----

  datatype Op =
    | Save(id: Option<string>, name: string, url: string, millis: nat)
    | Remove(target: string)
    | Activate(target: string)
    | WriteToken(target: string, token: string)

  /** The store together with a history variable: for every token, the URL its profile had
      when the token was entered. */
  datatype World = World(store: Store, enteredFor: map<string, string>)

  function StoreAfter(parse: Parser, s: Store, op: Op): Store {
    match op
    case Save(id, name, url, millis) => SaveTarget(parse, s, id, name, url, millis).1
    case Remove(id) => RemoveTarget(parse, s, id).1
    case Activate(id) => SetActive(parse, s, id).1
    case WriteToken(id, token) => SaveToken(parse, s, id, token).1
  }

  /** The token that `op` writes, if it writes one. */
  predicate Writes(parse: Parser, s: Store, op: Op, id: string) {
    op.WriteToken? && op.target == id && Trim(op.token) != "" && SaveToken(parse, s, id, op.token).0.Ok?
  }

  ghost function Apply(parse: Parser, w: World, op: Op): World {
    var s := StoreAfter(parse, w.store, op);
    World(s, map id | id in s.tokens ::
      if Writes(parse, w.store, op, id) && s.file.Stored? && Has(s.file.registry.targets, id)
      then UrlOf(s.file.registry.targets, id)
      else if id in w.enteredFor then w.enteredFor[id] else "")
  }

  ghost function Run(parse: Parser, w: World, ops: seq<Op>): World
    decreases |ops|
  {
    if ops == [] then w else Run(parse, Apply(parse, w, ops[0]), ops[1..])
  }

  /** Every token belongs to a registered profile and was entered for its present URL. */
  ghost predicate TokensOwned(w: World) {
    && w.store.file.Stored?
    && forall id :: id in w.store.tokens ==>
         && id in w.enteredFor
         && Has(w.store.file.registry.targets, id)
         && w.enteredFor[id] == UrlOf(w.store.file.registry.targets, id)
  }

  lemma ApplyKeepsShape(parse: Parser, w: World, op: Op)
    requires ParserContract(parse) && Healthy(parse, w.store)
    ensures Healthy(parse, Apply(parse, w, op).store)
  {
    LoadOfHealthy(parse, w.store);
    match op {
      case Save(id, name, url, millis) => SaveKeepsShape(parse, w.store, id, name, url, millis);
      case Remove(id) => RemoveKeepsShape(parse, w.store, id);
      case Activate(id) =>
      case WriteToken(id, token) =>
    }
  }

  lemma WriteKeepsTokens(s: Store, t: Target, enteredFor: map<string, string>)
    requires TokensOwned(World(s, enteredFor))
    ensures TokensOwned(World(WriteProfile(s, s.file.registry, t), enteredFor))
  {
    var s' := WriteProfile(s, s.file.registry, t);
    forall id | id in s'.tokens
      ensures Has(s'.file.registry.targets, id) && enteredFor[id] == UrlOf(s'.file.registry.targets, id)
    {
      UpsertKeepsIds(s.file.registry.targets, t, id);
    }
  }

  /** What an operation that writes no token does to the history: nothing. */
  lemma HistoryUnchanged(parse: Parser, w: World, op: Op)
    requires !op.WriteToken?
    requires TokensOwned(World(StoreAfter(parse, w.store, op), w.enteredFor))
    ensures TokensOwned(Apply(parse, w, op))
  {
  }

  lemma SaveKeepsTokens(parse: Parser, w: World, op: Op)
    requires Healthy(parse, w.store) && TokensOwned(w) && op.Save?
    ensures TokensOwned(Apply(parse, w, op))
  {
    SaveOfHealthy(parse, w.store, op.id, op.name, op.url, op.millis);
    var r := SaveDecision(parse, w.store.file.registry, op.id, op.name, op.url, op.millis);
    if r.Ok? {
      WriteKeepsTokens(w.store, r.value, w.enteredFor);
    }
    HistoryUnchanged(parse, w, op);
  }

  lemma RemovedKeepsTokens(s: Store, id: string, enteredFor: map<string, string>)
    requires TokensOwned(World(s, enteredFor))
    ensures TokensOwned(World(Removed(s, id), enteredFor))
  {
    var s' := Removed(s, id);
    forall k | k in s'.tokens
      ensures Has(s'.file.registry.targets, k) && enteredFor[k] == UrlOf(s'.file.registry.targets, k)
    {
      RemovalKeeps(s.file.registry.targets, id, k);
    }
  }

  lemma RemoveKeepsTokens(parse: Parser, w: World, op: Op)
    requires Healthy(parse, w.store) && TokensOwned(w) && op.Remove?
    ensures TokensOwned(Apply(parse, w, op))
  {
    LoadOfHealthy(parse, w.store);
    RemoveOfLoaded(parse, w.store, op.target);
    RemovedKeepsTokens(w.store, op.target, w.enteredFor);
    HistoryUnchanged(parse, w, op);
  }

  lemma SaveTokenOfHealthy(parse: Parser, s: Store, id: string, token: string)
    requires Healthy(parse, s)
    ensures SaveToken(parse, s, id, token).1.file == s.file
    ensures forall k :: k in SaveToken(parse, s, id, token).1.tokens && k !in s.tokens ==>
              k == id && Trim(token) != "" && SaveToken(parse, s, id, token).0.Ok?
    ensures SaveToken(parse, s, id, token).0.Ok? ==> Has(s.file.registry.targets, id)
  {
    LoadOfHealthy(parse, s);
  }

  lemma WriteTokenKeepsTokens(parse: Parser, w: World, op: Op)
    requires Healthy(parse, w.store) && TokensOwned(w) && op.WriteToken?
    ensures TokensOwned(Apply(parse, w, op))
  {
    SaveTokenOfHealthy(parse, w.store, op.target, op.token);
    var w' := Apply(parse, w, op);
    var ts := w.store.file.registry.targets;
    forall id | id in w'.store.tokens
      ensures Has(ts, id) && w'.enteredFor[id] == UrlOf(ts, id)
    {
      if Writes(parse, w.store, op, id) {
      } else {
        assert id in w.store.tokens;
      }
    }
  }

  lemma ApplyKeepsTokens(parse: Parser, w: World, op: Op)
    requires Healthy(parse, w.store) && TokensOwned(w)
    ensures TokensOwned(Apply(parse, w, op))
  {
    match op {
      case Save(_, _, _, _) => SaveKeepsTokens(parse, w, op);
      case Remove(_) => RemoveKeepsTokens(parse, w, op);
      case Activate(_) =>
        LoadOfHealthy(parse, w.store);
        HistoryUnchanged(parse, w, op);
      case WriteToken(_, _) => WriteTokenKeepsTokens(parse, w, op);
    }
  }

  /** Every run keeps the registry in shape and every token with the URL it was entered for. */
  lemma {:induction false} RunsAreSafe(parse: Parser, w: World, ops: seq<Op>)
    requires ParserContract(parse) && Healthy(parse, w.store) && TokensOwned(w)
    ensures Healthy(parse, Run(parse, w, ops).store)
    ensures TokensOwned(Run(parse, w, ops))
    ensures LoadStored(parse, Run(parse, w, ops).store)
         == (Run(parse, w, ops).store.file.registry, Run(parse, w, ops).store)
    decreases |ops|
  {
    if ops == [] {
      LoadOfHealthy(parse, w.store);
    } else {
      ApplyKeepsShape(parse, w, ops[0]);
      ApplyKeepsTokens(parse, w, ops[0]);
      RunsAreSafe(parse, Apply(parse, w, ops[0]), ops[1..]);
    }
  }

  /** There is no token but the legacy one, the legacy URL is accepted, and the token was entered
      for it. */
  ghost predicate OnlyTheLegacyToken(parse: Parser, s: Store, enteredFor: map<string, string>) {
    forall id :: id in s.tokens ==>
      && id == LEGACY && s.legacyUrl.Some? && Accepted(parse, StripUrl(s.legacyUrl.value))
      && id in enteredFor && enteredFor[id] == StripUrl(s.legacyUrl.value)
  }

  /** The tokens that lie beside a registry file that is missing or unreadable are owned after the
      file is loaded exactly under that condition. */
  lemma FirstLoadOwnsTokensIff(parse: Parser, s: Store, enteredFor: map<string, string>)
    requires ParserContract(parse) && !s.file.Stored?
    ensures TokensOwned(World(LoadStored(parse, s).1, enteredFor)) <==> OnlyTheLegacyToken(parse, s, enteredFor)
  {
    var found := Migrated(parse, s.legacyUrl);
    LoadOfNothing(parse, s);
    FirstLoadKeepsMigrated(parse, s);
    forall id ensures Has(found.targets, id) <==> found.targets != [] && id == LEGACY {
      if found.targets != [] {
        assert found.targets[1..] == [];
      }
    }
  }

  /** What a first load persists is what the migration found: the filter keeps it. */
  lemma FirstLoadKeepsMigrated(parse: Parser, s: Store)
    requires ParserContract(parse) && !s.file.Stored?
    ensures LoadStored(parse, s) == (Migrated(parse, s.legacyUrl), s.(file := Stored(Migrated(parse, s.legacyUrl))))
  {
    var reg := Migrated(parse, s.legacyUrl);
    if reg.targets != [] {
      var t := reg.targets[0];
      assert EndIsIrrelevant(parse, t.url) && Accepted(parse, t.url);
      RemoteIsAName();
      assert ValidId(LEGACY) && LEGACY != LOCAL && Loadable(parse)(t);
      FilterAll(reg.targets, Loadable(parse));
      assert Has(reg.targets, LEGACY);
    }
  }

  /** From such a start, every run is safe. */
  lemma RunsFromAFirstLoadAreSafe(parse: Parser, s: Store, enteredFor: map<string, string>, ops: seq<Op>)
    requires ParserContract(parse) && !s.file.Stored?
    requires OnlyTheLegacyToken(parse, s, enteredFor)
    ensures var w := Run(parse, World(LoadStored(parse, s).1, enteredFor), ops);
            Healthy(parse, w.store) && TokensOwned(w)
  {
    LoadOfNothing(parse, s);
    FirstLoadOwnsTokensIff(parse, s, enteredFor);
    RunsAreSafe(parse, World(LoadStored(parse, s).1, enteredFor), ops);
  }

  // ----- Creating a profile -----

  lemma IdsAreMembers(ts: seq<Target>, id: string)
    ensures id in Ids(ts) <==> Has(ts, id)
  {
    HasIffMember(ts, id);
  }

  predicate IdsRunOut(taken: set<string>, utf8: seq<Byte>, millis: nat) {
    SlugOf(utf8) in taken && Candidate(utf8, millis) in taken && SlugOf(utf8) + "-1" in taken
  }

  /** Creating a profile adds one, exactly unless the three generated ids are all taken. */
  lemma CreateAddsUnlessIdsRunOut(parse: Parser, s: Store, name: string, url: string, millis: nat)
    requires Healthy(parse, s)
    ensures var (r, s') := SaveTarget(parse, s, None, name, url, millis);
            r.Ok? ==>
              && s'.file.Stored?
              && (|s'.file.registry.targets| == |s.file.registry.targets| + 1
                  <==> !IdsRunOut(Ids(s.file.registry.targets), Utf8(name), millis))
  {
    SaveOfHealthy(parse, s, None, name, url, millis);
    var reg := s.file.registry;
    if SaveDecision(parse, reg, None, name, url, millis).Err? {
      return;
    }
    var t := SaveDecision(parse, reg, None, name, url, millis).value;
    UniqueIdIsUsable(Ids(reg.targets), Utf8(name), millis);
    assert t.id == UniqueId(Ids(reg.targets), Utf8(name), millis);
    IdsAreMembers(reg.targets, t.id);
  }

  /** Then it replaces the profile that holds the last of them, always with another URL, because
      the origin is new, and so drops that profile's token. */
  lemma CollidingCreateDropsTheToken(parse: Parser, s: Store, name: string, url: string, millis: nat)
    requires ParserContract(parse) && Healthy(parse, s)
    ensures var (r, s') := SaveTarget(parse, s, None, name, url, millis);
            r.Ok? && Has(s.file.registry.targets, r.value.id) ==>
              UrlOf(s.file.registry.targets, r.value.id) != r.value.url && r.value.id !in s'.tokens
  {
    SaveOfHealthy(parse, s, None, name, url, millis);
    var ts := s.file.registry.targets;
    var r := SaveDecision(parse, s.file.registry, None, name, url, millis);
    if r.Err? || !Has(ts, r.value.id) {
      return;
    }
    var t := SaveDecision(parse, s.file.registry, None, name, url, millis).value;
    assert ts[IndexOf(ts, t.id)] in ts && WellFormed(parse, ts[IndexOf(ts, t.id)]);
    DecisionIsApart(parse, s.file.registry, None, name, url, millis, ts[IndexOf(ts, t.id)]);
  }

  /** A create is refused only for its URL, its origin or its name, never for its generated id. */
  lemma CreateNeverFailsOnItsId(parse: Parser, reg: Registry, name: string, url: string, millis: nat)
    requires ParserContract(parse) && Shape(parse, reg)
    ensures SaveDecision(parse, reg, None, name, url, millis).Ok?
       <==> && Accepted(parse, StripUrl(url)) && 0 < |Trim(name)| <= 80
            && forall t :: t in reg.targets ==> TargetOrigin(parse, t.url) != TargetOrigin(parse, StripUrl(url))
  {
    forall t | t in reg.targets ensures t.id != "" && TargetOrigin(parse, t.url).Ok? {
      assert WellFormed(parse, t);
    }
    assert EndIsIrrelevant(parse, StripUrl(url));
    UniqueIdIsUsable(Ids(reg.targets), Utf8(name), millis);
  }

  /** A token file without a profile is adopted, whatever its origin was, by the next profile that
      gets its id, given or generated. */
  lemma NewProfileAdoptsOrphan(parse: Parser, s: Store, id: Option<string>, name: string, url: string, millis: nat)
    requires Healthy(parse, s)
    ensures var (r, s') := SaveTarget(parse, s, id, name, url, millis);
            r.Ok? && !Has(s.file.registry.targets, r.value.id) ==> ReadToken(s', r.value.id) == ReadToken(s, r.value.id)
  {
    SaveOfHealthy(parse, s, id, name, url, millis);
  }

  /** After the registry file became unreadable, creating a profile again under its old name hands
      it the old token, for any accepted URL. */
  lemma LostRegistryHandsOverTokens(parse: Parser, s: Store, name: string, url: string, millis: nat)
    requires ParserContract(parse) && !s.file.Stored? && s.legacyUrl == None
    requires Accepted(parse, StripUrl(url)) && 0 < |Trim(name)| <= 80
    ensures var (r, s') := SaveTarget(parse, s, None, name, url, millis);
            && r.Ok? && r.value.id == SlugOf(Utf8(name)) && r.value.url == StripUrl(StripUrl(url))
            && ReadToken(s', r.value.id) == ReadToken(s, r.value.id)
  {
    FirstLoadKeepsMigrated(parse, s);
    LoadOfNothing(parse, s);
    var s1 := s.(file := Stored(EMPTY_REGISTRY));
    LoadOfHealthy(parse, s1);
    assert SaveTarget(parse, s, None, name, url, millis) == SaveTarget(parse, s1, None, name, url, millis);
    CreateNeverFailsOnItsId(parse, EMPTY_REGISTRY, name, url, millis);
    SaveOfHealthy(parse, s1, None, name, url, millis);
    DecisionIsAsAsked(parse, EMPTY_REGISTRY, None, name, url, millis);
    assert SaveDecision(parse, EMPTY_REGISTRY, None, name, url, millis).value.id
        == UniqueId({}, Utf8(name), millis) by {
      assert Ids([]) == {};
    }
    NewProfileAdoptsOrphan(parse, s1, None, name, url, millis);
  }

  // ----- Exactly what changes -----

  /** An edit, or a create under a given id, succeeds exactly for an accepted URL and name, an id
      that is valid and not reserved, and an origin that no other profile has. */
  lemma SaveUnderAnIdSucceedsIff(parse: Parser, reg: Registry, id: string, name: string, url: string, millis: nat)
    requires ParserContract(parse) && Shape(parse, reg)
    ensures SaveDecision(parse, reg, Some(id), name, url, millis).Ok?
       <==> && Accepted(parse, StripUrl(url)) && 0 < |Trim(name)| <= 80
            && ValidId(id) && id !in {LOCAL, ENV}
            && forall t :: t in reg.targets && t.id != id
                ==> TargetOrigin(parse, t.url) != TargetOrigin(parse, StripUrl(url))
  {
    forall t | t in reg.targets ensures TargetOrigin(parse, t.url).Ok? {
      assert WellFormed(parse, t);
    }
    assert EndIsIrrelevant(parse, StripUrl(url));
  }

  /** What happens to one id: it keeps its profile's URL and its token. */
  predicate SameAt(s: Store, s': Store, k: string)
    requires s.file.Stored? && s'.file.Stored?
  {
    && Has(s.file.registry.targets, k) == Has(s'.file.registry.targets, k)
    && (Has(s.file.registry.targets, k) ==> UrlOf(s.file.registry.targets, k) == UrlOf(s'.file.registry.targets, k))
    && ReadToken(s, k) == ReadToken(s', k)
  }

  lemma WriteChangesOneProfile(s: Store, t: Target, k: string)
    requires s.file.Stored?
    ensures var s' := WriteProfile(s, s.file.registry, t);
            var ts := s.file.registry.targets;
            && s'.file.Stored? && s'.file.registry.active == s.file.registry.active && s'.legacyUrl == s.legacyUrl
            && Has(s'.file.registry.targets, t.id) && UrlOf(s'.file.registry.targets, t.id) == t.url
            && ReadToken(s', t.id) == (if Has(ts, t.id) && UrlOf(ts, t.id) != t.url then None else ReadToken(s, t.id))
            && (k != t.id ==> SameAt(s, s', k))
  {
    UpsertKeepsIds(s.file.registry.targets, t, k);
    UpsertKeepsIds(s.file.registry.targets, t, t.id);
  }

  lemma DecisionIsAsAsked(parse: Parser, reg: Registry, id: Option<string>, name: string, url: string, millis: nat)
    requires SaveDecision(parse, reg, id, name, url, millis).Ok?
    ensures var t := SaveDecision(parse, reg, id, name, url, millis).value;
            && t.name == Trim(name) && t.url == StripUrl(StripUrl(url))
            && t.id == if id.Some? then id.value else UniqueId(Ids(reg.targets), Utf8(name), millis)
  {
  }

  /** A refused save changes nothing. Any other writes one profile, with the given name and URL, and
      leaves all others and the active choice alone; the token of the profile survives unless its URL changed. */
  lemma SaveChangesOneProfile(parse: Parser, s: Store, id: Option<string>, name: string, url: string, millis: nat,
                              k: string)
    requires Healthy(parse, s)
    ensures var (r, s') := SaveTarget(parse, s, id, name, url, millis);
            var ts := s.file.registry.targets;
            if r.Err? then s' == s else
            && s'.file.Stored? && s'.file.registry.active == s.file.registry.active && s'.legacyUrl == s.legacyUrl
            && r.value.name == Trim(name) && r.value.url == StripUrl(StripUrl(url))
            && (id.Some? ==> r.value.id == id.value)
            && Has(s'.file.registry.targets, r.value.id) && UrlOf(s'.file.registry.targets, r.value.id) == r.value.url
            && ReadToken(s', r.value.id) == (if Has(ts, r.value.id) && UrlOf(ts, r.value.id) != r.value.url
                                             then None else ReadToken(s, r.value.id))
            && (k != r.value.id ==> SameAt(s, s', k))
  {
    SaveOfHealthy(parse, s, id, name, url, millis);
    if SaveTarget(parse, s, id, name, url, millis).0.Err? {
      return;
    }
    DecisionIsAsAsked(parse, s.file.registry, id, name, url, millis);
    WriteChangesOneProfile(s, SaveTarget(parse, s, id, name, url, millis).0.value, k);
  }

  /** A refused removal changes nothing. Any other takes one profile with its token, falls back to
      the local engine if it was the active one, and leaves all others alone. */
  lemma RemovalChangesOneProfile(parse: Parser, s: Store, id: string, k: string)
    requires Healthy(parse, s)
    ensures var (r, s') := RemoveTarget(parse, s, id);
            if r.Err? then s' == s else
            && s'.file.Stored? && !Has(s'.file.registry.targets, id) && ReadToken(s', id) == None
            && s'.file.registry.active == (if s.file.registry.active == id then LOCAL else s.file.registry.active)
            && s'.legacyUrl == (if id == LEGACY then None else s.legacyUrl)
            && (k != id ==> SameAt(s, s', k))
  {
    LoadOfHealthy(parse, s);
    RemoveOfLoaded(parse, s, id);
    if k != id {
      RemovedSparesOthers(s, id, k);
    }
    RemovalKeeps(s.file.registry.targets, id, id);
  }

  lemma RemovedSparesOthers(s: Store, id: string, k: string)
    requires s.file.Stored? && k != id
    ensures SameAt(s, Removed(s, id), k)
  {
    RemovalKeeps(s.file.registry.targets, id, k);
  }

  /** A token that is saved is read back, trimmed; a blank one changes nothing. Nothing else moves. */
  lemma TokenRoundTrip(parse: Parser, s: Store, id: string, token: string, k: string)
    requires Healthy(parse, s)
    ensures var (r, s') := SaveToken(parse, s, id, token);
            if r.Err? then s' == s else
            && s'.file == s.file && s'.legacyUrl == s.legacyUrl
            && ReadToken(s', id) == (if Trim(token) == "" then ReadToken(s, id) else Some(Trim(token)))
            && (k != id ==> SameAt(s, s', k))
  {
    LoadOfHealthy(parse, s);
    SaveTokenOfLoaded(parse, s, id, token);
    TrimTwice(token);
  }
}
