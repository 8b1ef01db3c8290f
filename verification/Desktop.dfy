/** Switching between connection targets: the single-flight `pick_target`, which awaits, and
    the commands `save_target` and `remove_target`, which may run while it waits
    (tauri/src-tauri/src/desktop.rs). Code between two awaits is one step. */
module Desktop {
  import opened Wrappers
  import opened TargetIds
  import opened TargetRegistry
  import opened RegistrySafety

  /** Fixed for one session: the URL library, the local engine and the environment override. */
  datatype Session = Session(parse: Parser, localBase: Option<string>, envUrl: Option<string>)

  /** A loaded target view: the base URL and the token it was logged in with. The program
      stores only the base; the token is kept here as history. */
  datatype View = View(base: string, token: Option<string>)

  /** A pick that waits for the health check and the login. */
  datatype Pick = Preparing(id: string, base: string, token: Option<string>)

  datatype Desk = Desk(store: Store, active: string, views: map<string, View>,
                       switching: bool, picks: map<nat, Pick>)

  datatype Step =
    | StartPick(call: nat, id: string, reload: bool, viewOpen: bool)
    | ContinuePick(call: nat, prepared: bool)
    | SaveProfile(target: Option<string>, name: string, url: string, millis: nat, token: Option<string>)
    | RemoveProfile(gone: string)

  function Resolve(e: Session, s: Store, id: string): Option<(string, Option<string>)> {
    if id == LOCAL then
      if e.localBase.Some? then Some((e.localBase.value, None)) else None
    else if id == ENV then
      if e.envUrl.Some? then Some((e.envUrl.value, None)) else None
    else
      var ts := LoadStored(e.parse, s).0.targets;
      if Has(ts, id) then Some((UrlOf(ts, id), ReadToken(s, id))) else None
  }

  /** The end of a pick: persist the choice, unless it is the environment target, then
      publish it to the runtime. */
  function Commit(e: Session, d: Desk, id: string): Desk {
    if id == ENV then d.(active := id)
    else
      var (r, s) := SetActive(e.parse, d.store, id);
      if r.Ok? then d.(store := s, active := id) else d.(store := s)
  }

  function Release(d: Desk, call: nat): Desk {
    d.(switching := false, picks := d.picks - {call})
  }

  predicate Warm(d: Desk, id: string, base: string, viewOpen: bool) {
    viewOpen && id in d.views && d.views[id].base == base
  }

  function DoStep(e: Session, d: Desk, step: Step): Desk {
    match step
    case StartPick(call, id, reload, viewOpen) =>
      if d.switching || call in d.picks then d
      else
        var resolved := Resolve(e, d.store, id);
        if resolved.None? then d
        else if !reload && Warm(d, id, resolved.value.0, viewOpen) then Commit(e, d, id)
        else d.(switching := true, picks := d.picks[call := Preparing(id, resolved.value.0, resolved.value.1)])
    case ContinuePick(call, prepared) =>
      if call !in d.picks then d
      else if !prepared then Release(d, call)
      else
        var p := d.picks[call];
        Release(Commit(e, d.(views := d.views[p.id := View(p.base, p.token)]), p.id), call)
    case SaveProfile(target, name, url, millis, token) =>
      var (r, s) := SaveTarget(e.parse, d.store, target, name, url, millis);
      if r.Err? then d.(store := s)
      else if token.None? then d.(store := s, views := d.views - {r.value.id})
      else
        var (wrote, s2) := SaveToken(e.parse, s, r.value.id, token.value);
        if wrote.Err? then d.(store := s2) else d.(store := s2, views := d.views - {r.value.id})
    case RemoveProfile(gone) =>
      if d.active == gone then d
      else
        var (r, s) := RemoveTarget(e.parse, d.store, gone);
        if r.Err? then d.(store := s) else d.(store := s, views := d.views - {gone})
  }

  function DoSteps(e: Session, d: Desk, steps: seq<Step>): Desk
    decreases |steps|
  {
    if steps == [] then d else DoSteps(e, DoStep(e, d, steps[0]), steps[1..])
  }

  // ----- Invariant -----

  /** The flag is set exactly while one pick is in flight, and never two are. */
  ghost predicate SingleFlight(d: Desk) {
    if d.switching then exists c :: d.picks.Keys == {c} else d.picks == map[]
  }

  ghost predicate ActiveKnown(d: Desk) {
    && d.store.file.Stored?
    && (d.active in {LOCAL, ENV} || Has(d.store.file.registry.targets, d.active))
  }

  ghost predicate Agree(d: Desk) {
    d.store.file.Stored? && (d.active == ENV || d.store.file.registry.active == d.active)
  }

  ghost predicate Inv(e: Session, d: Desk) {
    Healthy(e.parse, d.store) && SingleFlight(d) && ActiveKnown(d) && Agree(d)
  }

  /** A commit changes the active id, in the registry and in the runtime, or nothing. */
  lemma CommitWrites(e: Session, d: Desk, id: string)
    requires Loads(e.parse, d.store)
    ensures Commit(e, d, id)
         == if id == ENV then d.(active := id)
            else if id == LOCAL || (ValidId(id) && Has(d.store.file.registry.targets, id))
            then d.(store := WithActive(d.store, id), active := id) else d
  {
    SetActiveOfLoaded(e.parse, d.store, id);
  }

  lemma CommitKeeps(e: Session, d: Desk, id: string)
    requires Healthy(e.parse, d.store) && ActiveKnown(d) && Agree(d)
    ensures var d' := Commit(e, d, id);
            && Healthy(e.parse, d'.store) && ActiveKnown(d') && Agree(d')
            && d'.picks == d.picks && d'.switching == d.switching && d'.views == d.views
            && d'.store.tokens == d.store.tokens
            && d'.store.file.registry.targets == d.store.file.registry.targets
  {
    LoadOfHealthy(e.parse, d.store);
    CommitWrites(e, d, id);
  }

  lemma SaveKeeps(e: Session, d: Desk, step: Step)
    requires ParserContract(e.parse) && Inv(e, d) && step.SaveProfile?
    ensures Inv(e, DoStep(e, d, step))
  {
    SaveWrites(e, d, step);
    var (r, s) := SaveTarget(e.parse, d.store, step.target, step.name, step.url, step.millis);
    if r.Ok? {
      SaveOfHealthy(e.parse, d.store, step.target, step.name, step.url, step.millis);
      SaveKeepsShape(e.parse, d.store, step.target, step.name, step.url, step.millis);
      UpsertKeepsIds(d.store.file.registry.targets, r.value, d.active);
      var d' := DoStep(e, d, step);
      assert s.file == WriteProfile(d.store, d.store.file.registry, r.value).file;
      assert d'.store.file == s.file;
      assert Healthy(e.parse, d'.store);
    }
  }

  lemma RemoveWrites(e: Session, d: Desk, gone: string)
    requires Loads(e.parse, d.store)
    ensures DoStep(e, d, RemoveProfile(gone))
         == if d.active != gone && ValidId(gone) && gone != LOCAL && Has(d.store.file.registry.targets, gone)
            then d.(store := Removed(d.store, gone), views := d.views - {gone}) else d
  {
    RemoveOfLoaded(e.parse, d.store, gone);
  }

  lemma RemoveKeeps(e: Session, d: Desk, step: Step)
    requires Inv(e, d) && step.RemoveProfile?
    ensures Inv(e, DoStep(e, d, step))
  {
    LoadOfHealthy(e.parse, d.store);
    RemoveWrites(e, d, step.gone);
    RemovedKeepsShape(e.parse, d.store, step.gone);
    RemovalKeeps(d.store.file.registry.targets, step.gone, d.active);
  }

  lemma PickKeeps(e: Session, d: Desk, step: Step)
    requires Inv(e, d) && (step.StartPick? || step.ContinuePick?)
    ensures Inv(e, DoStep(e, d, step))
  {
    match step {
      case StartPick(call, id, reload, viewOpen) =>
        CommitKeeps(e, d, id);
        var started := DoStep(e, d, step);
        if started.switching && !d.switching {
          assert started.picks.Keys == {call};
        }
      case ContinuePick(call, prepared) =>
        if call in d.picks {
          var p := d.picks[call];
          CommitKeeps(e, d.(views := d.views[p.id := View(p.base, p.token)]), p.id);
          assert d.picks.Keys == {call};
          assert d.picks - {call} == map[];
        }
    }
  }

  /** In every interleaving of picks, saves and removals: at most one pick is in flight and the
      flag says so; the active target is local, the environment's, or registered; and the
      persisted choice is the shown one unless the environment's is shown. */
  lemma {:induction false} EveryInterleavingIsConsistent(e: Session, d: Desk, steps: seq<Step>)
    requires ParserContract(e.parse) && Inv(e, d)
    ensures Inv(e, DoSteps(e, d, steps))
    decreases |steps|
  {
    if steps != [] {
      match steps[0] {
        case SaveProfile(_, _, _, _, _) => SaveKeeps(e, d, steps[0]);
        case RemoveProfile(_) => RemoveKeeps(e, d, steps[0]);
        case _ => PickKeeps(e, d, steps[0]);
      }
      EveryInterleavingIsConsistent(e, DoStep(e, d, steps[0]), steps[1..]);
    }
  }

  /** What the setup code leaves: the environment target if set, else the saved choice. */
  lemma StartupIsConsistent(e: Session, s: Store)
    requires Healthy(e.parse, s)
    ensures var saved := LoadStored(e.parse, s).0.active;
            Inv(e, Desk(s, if e.envUrl.Some? then ENV else saved, map[], false, map[]))
  {
    LoadOfHealthy(e.parse, s);
  }

  // ----- The next pick logs in again -----

  /** A view that the next pick would show without a login was logged in with the token
      that is stored now. */
  ghost predicate ViewCurrent(s: Store, id: string, v: View) {
    (s.file.Stored? && Has(s.file.registry.targets, id) && v.base == UrlOf(s.file.registry.targets, id))
    ==> v.token == ReadToken(s, id)
  }

  ghost predicate ViewsCurrent(d: Desk) {
    forall id :: id in d.views ==> ViewCurrent(d.store, id, d.views[id])
  }

  ghost predicate PicksCurrent(d: Desk) {
    forall c :: c in d.picks ==> ViewCurrent(d.store, d.picks[c].id, View(d.picks[c].base, d.picks[c].token))
  }

  /** The token of a profile after it was saved as `t`, with or without a new token. */
  function TokenAfter(s: Store, t: Target, token: Option<string>): Option<string>
    requires s.file.Stored?
  {
    if token.Some? && Trim(token.value) != "" then Some(Trim(token.value))
    else if Has(s.file.registry.targets, t.id) && UrlOf(s.file.registry.targets, t.id) != t.url then None
    else ReadToken(s, t.id)
  }

  /** The step saves a profile that a pick in flight logs in to, at the URL of that login and with
      another token than that login uses. */
  predicate OvertakesPick(e: Session, d: Desk, step: Step) {
    && step.SaveProfile? && d.store.file.Stored?
    && var r := SaveTarget(e.parse, d.store, step.target, step.name, step.url, step.millis).0;
       r.Ok? && exists c | c in d.picks :: Overtaken(d.store, d.picks[c], r.value, step.token)
  }

  predicate Overtaken(s: Store, p: Pick, t: Target, token: Option<string>)
    requires s.file.Stored?
  {
    p.id == t.id && p.base == t.url && p.token != TokenAfter(s, t, token)
  }

  /** When a pick completes, its view is current exactly when the profile it logged in to was
      not given another token, at the same URL, since the pick read it. */
  lemma CompletedViewIsCurrentIff(e: Session, d: Desk, call: nat)
    requires Inv(e, d) && ViewsCurrent(d) && call in d.picks
    ensures ViewsCurrent(DoStep(e, d, ContinuePick(call, true)))
       <==> ViewCurrent(d.store, d.picks[call].id, View(d.picks[call].base, d.picks[call].token))
  {
    var p := d.picks[call];
    CommitKeeps(e, d.(views := d.views[p.id := View(p.base, p.token)]), p.id);
    var d' := DoStep(e, d, ContinuePick(call, true));
    assert d'.views == d.views[p.id := View(p.base, p.token)];
    forall id | id in d'.views
      ensures ViewCurrent(d'.store, id, d'.views[id]) <==> ViewCurrent(d.store, id, d'.views[id])
    {
    }
    assert p.id in d'.views;
  }

  /** Writing a profile touches the URL and the token of that profile only. */
  lemma WriteTouchesOne(s: Store, t: Target, id: string, v: View)
    requires s.file.Stored? && ViewCurrent(s, id, v) && id != t.id
    ensures ViewCurrent(WriteProfile(s, s.file.registry, t), id, v)
  {
    UpsertKeepsIds(s.file.registry.targets, t, id);
  }

  lemma TokenTouchesOne(s: Store, written: string, token: string, id: string, v: View)
    requires ViewCurrent(s, id, v) && id != written
    ensures ViewCurrent(s.(tokens := s.tokens[written := token]), id, v)
  {
  }

  lemma RemovalTouchesNone(s: Store, gone: string, id: string, v: View)
    requires s.file.Stored? && ViewCurrent(s, id, v)
    ensures ViewCurrent(Removed(s, gone), id, v)
  {
    RemovalKeeps(s.file.registry.targets, gone, id);
  }

  /** What a save does, step by step: the profile, then its token, then its view is dropped. */
  lemma SaveWrites(e: Session, d: Desk, step: Step)
    requires ParserContract(e.parse) && Healthy(e.parse, d.store) && step.SaveProfile?
    ensures var r := SaveTarget(e.parse, d.store, step.target, step.name, step.url, step.millis).0;
            if r.Err? then DoStep(e, d, step) == d
            else
              var written := WriteProfile(d.store, d.store.file.registry, r.value);
              DoStep(e, d, step) == d.(
                store := if step.token.Some? && Trim(step.token.value) != ""
                         then written.(tokens := written.tokens[r.value.id := Trim(step.token.value)])
                         else written,
                views := d.views - {r.value.id})
  {
    SaveOfHealthy(e.parse, d.store, step.target, step.name, step.url, step.millis);
    var (r, s) := SaveTarget(e.parse, d.store, step.target, step.name, step.url, step.millis);
    if r.Ok? {
      SaveKeepsShape(e.parse, d.store, step.target, step.name, step.url, step.millis);
      LoadOfHealthy(e.parse, s);
      DecisionIsWellFormed(e.parse, d.store.file.registry, step.target, step.name, step.url, step.millis);
      UpsertKeepsIds(d.store.file.registry.targets, r.value, r.value.id);
      if step.token.Some? {
        SaveTokenOfLoaded(e.parse, s, r.value.id, step.token.value);
      }
    }
  }

  lemma SaveTouchesOne(e: Session, d: Desk, step: Step, id: string, v: View)
    requires ParserContract(e.parse) && Inv(e, d) && step.SaveProfile?
    requires ViewCurrent(d.store, id, v)
    ensures var r := SaveTarget(e.parse, d.store, step.target, step.name, step.url, step.millis).0;
            (r.Ok? && r.value.id == id) || ViewCurrent(DoStep(e, d, step).store, id, v)
  {
    SaveWrites(e, d, step);
    var r := SaveTarget(e.parse, d.store, step.target, step.name, step.url, step.millis).0;
    if r.Ok? && r.value.id != id {
      WriteTouchesOne(d.store, r.value, id, v);
      if step.token.Some? {
        TokenTouchesOne(WriteProfile(d.store, d.store.file.registry, r.value), r.value.id, Trim(step.token.value),
            id, v);
      }
    }
  }

  /** The stored URL and token of a profile after it was saved. */
  lemma SavedProfile(e: Session, d: Desk, save: Step)
    requires ParserContract(e.parse) && Inv(e, d) && save.SaveProfile?
    ensures var r := SaveTarget(e.parse, d.store, save.target, save.name, save.url, save.millis).0;
            var s' := DoStep(e, d, save).store;
            r.Ok? ==>
              && s'.file.Stored? && Has(s'.file.registry.targets, r.value.id)
              && UrlOf(s'.file.registry.targets, r.value.id) == r.value.url
              && ReadToken(s', r.value.id) == TokenAfter(d.store, r.value, save.token)
  {
    SaveWrites(e, d, save);
    SaveOfHealthy(e.parse, d.store, save.target, save.name, save.url, save.millis);
    var r := SaveDecision(e.parse, d.store.file.registry, save.target, save.name, save.url, save.millis);
    if r.Ok? {
      WriteChangesOneProfile(d.store, r.value, r.value.id);
      if save.token.Some? && Trim(save.token.value) != "" {
        TokenIsRead(WriteProfile(d.store, d.store.file.registry, r.value), r.value.id, save.token.value);
      }
    }
  }

  lemma TokenIsRead(s: Store, id: string, token: string)
    requires ValidId(id) && id != LOCAL && Trim(token) != ""
    ensures ReadToken(s.(tokens := s.tokens[id := Trim(token)]), id) == Some(Trim(token))
  {
    TrimTwice(token);
  }

  /** A save leaves the shown views current, and the picks in flight exactly unless it overtakes one. */
  lemma SaveKeepsCurrentIff(e: Session, d: Desk, step: Step)
    requires ParserContract(e.parse) && Inv(e, d) && ViewsCurrent(d) && PicksCurrent(d) && step.SaveProfile?
    ensures ViewsCurrent(DoStep(e, d, step))
    ensures PicksCurrent(DoStep(e, d, step)) <==> !OvertakesPick(e, d, step)
  {
    SaveWrites(e, d, step);
    SavedProfile(e, d, step);
    var d' := DoStep(e, d, step);
    var r := SaveTarget(e.parse, d.store, step.target, step.name, step.url, step.millis).0;
    forall id | id in d'.views ensures ViewCurrent(d'.store, id, d'.views[id]) {
      SaveTouchesOne(e, d, step, id, d.views[id]);
    }
    forall c | c in d.picks
      ensures ViewCurrent(d'.store, d.picks[c].id, View(d.picks[c].base, d.picks[c].token))
         <==> !(r.Ok? && Overtaken(d.store, d.picks[c], r.value, step.token))
    {
      SaveTouchesOne(e, d, step, d.picks[c].id, View(d.picks[c].base, d.picks[c].token));
    }
  }

  lemma RemoveKeepsCurrent(e: Session, d: Desk, step: Step)
    requires Inv(e, d) && ViewsCurrent(d) && PicksCurrent(d) && step.RemoveProfile?
    ensures ViewsCurrent(DoStep(e, d, step)) && PicksCurrent(DoStep(e, d, step))
  {
    LoadOfHealthy(e.parse, d.store);
    RemoveWrites(e, d, step.gone);
    forall id | id in d.views ensures ViewCurrent(Removed(d.store, step.gone), id, d.views[id]) {
      RemovalTouchesNone(d.store, step.gone, id, d.views[id]);
    }
    forall c | c in d.picks
      ensures ViewCurrent(Removed(d.store, step.gone), d.picks[c].id, View(d.picks[c].base, d.picks[c].token))
    {
      RemovalTouchesNone(d.store, step.gone, d.picks[c].id, View(d.picks[c].base, d.picks[c].token));
    }
  }

  lemma CurrentAfterCommit(e: Session, d: Desk, id: string)
    requires Loads(e.parse, d.store) && ViewsCurrent(d) && PicksCurrent(d)
    ensures ViewsCurrent(Commit(e, d, id)) && PicksCurrent(Commit(e, d, id))
  {
    CommitWrites(e, d, id);
  }

  lemma StartKeepsCurrent(e: Session, d: Desk, step: Step)
    requires Inv(e, d) && ViewsCurrent(d) && PicksCurrent(d) && step.StartPick?
    ensures ViewsCurrent(DoStep(e, d, step)) && PicksCurrent(DoStep(e, d, step))
  {
    LoadOfHealthy(e.parse, d.store);
    CurrentAfterCommit(e, d, step.id);
    var resolved := Resolve(e, d.store, step.id);
    if resolved.Some? {
      assert ViewCurrent(d.store, step.id, View(resolved.value.0, resolved.value.1)) by {
        ReservedAreNotProfiles(e.parse, d.store);
      }
    }
  }

  lemma ReservedAreNotProfiles(parse: Parser, s: Store)
    requires Healthy(parse, s)
    ensures !Has(s.file.registry.targets, LOCAL) && !Has(s.file.registry.targets, ENV)
  {
    var ts := s.file.registry.targets;
    forall id | Has(ts, id) ensures id != LOCAL && id != ENV {
      assert ts[IndexOf(ts, id)] in ts;
      assert WellFormed(parse, ts[IndexOf(ts, id)]);
    }
  }

  lemma ContinueKeepsCurrent(e: Session, d: Desk, step: Step)
    requires Inv(e, d) && ViewsCurrent(d) && PicksCurrent(d) && step.ContinuePick?
    ensures ViewsCurrent(DoStep(e, d, step)) && PicksCurrent(DoStep(e, d, step))
  {
    if step.call in d.picks && step.prepared {
      CompletedViewIsCurrentIff(e, d, step.call);
      var p := d.picks[step.call];
      CommitKeeps(e, d.(views := d.views[p.id := View(p.base, p.token)]), p.id);
      assert d.picks.Keys == {step.call};
    }
  }

  ghost predicate Undisturbed(e: Session, d: Desk, steps: seq<Step>)
    decreases |steps|
  {
    steps == [] || (!OvertakesPick(e, d, steps[0]) && Undisturbed(e, DoStep(e, d, steps[0]), steps[1..]))
  }

  /** Every view, and every login in flight, is current in every state of the run. */
  ghost predicate AlwaysCurrent(e: Session, d: Desk, steps: seq<Step>)
    decreases |steps|
  {
    ViewsCurrent(d) && PicksCurrent(d) && (steps == [] || AlwaysCurrent(e, DoStep(e, d, steps[0]), steps[1..]))
  }

  lemma StepIsCurrentIff(e: Session, d: Desk, step: Step)
    requires ParserContract(e.parse) && Inv(e, d) && ViewsCurrent(d) && PicksCurrent(d)
    ensures Inv(e, DoStep(e, d, step)) && ViewsCurrent(DoStep(e, d, step))
    ensures PicksCurrent(DoStep(e, d, step)) <==> !OvertakesPick(e, d, step)
  {
    match step {
      case SaveProfile(_, _, _, _, _) =>
        SaveKeeps(e, d, step);
        SaveKeepsCurrentIff(e, d, step);
      case RemoveProfile(_) =>
        RemoveKeeps(e, d, step);
        RemoveKeepsCurrent(e, d, step);
      case StartPick(_, _, _, _) =>
        PickKeeps(e, d, step);
        StartKeepsCurrent(e, d, step);
      case ContinuePick(_, _) =>
        PickKeeps(e, d, step);
        ContinueKeepsCurrent(e, d, step);
    }
  }

  /** In every interleaving, all logins stay current exactly if no save overtakes a pick in flight. */
  lemma {:induction false} LoginsAreCurrentIff(e: Session, d: Desk, steps: seq<Step>)
    requires ParserContract(e.parse) && Inv(e, d) && ViewsCurrent(d) && PicksCurrent(d)
    ensures AlwaysCurrent(e, d, steps) <==> Undisturbed(e, d, steps)
    decreases |steps|
  {
    if steps != [] {
      StepIsCurrentIff(e, d, steps[0]);
      if !OvertakesPick(e, d, steps[0]) {
        LoginsAreCurrentIff(e, DoStep(e, d, steps[0]), steps[1..]);
      }
    }
  }

  /** So without such a save no pick ever shows a view that was logged in with an outdated token. */
  lemma {:induction false} UndisturbedPicksLogInAgain(e: Session, d: Desk, steps: seq<Step>)
    requires ParserContract(e.parse) && Inv(e, d) && ViewsCurrent(d) && PicksCurrent(d)
    requires Undisturbed(e, d, steps)
    ensures ViewsCurrent(DoSteps(e, d, steps))
    decreases |steps|
  {
    if steps != [] {
      StepIsCurrentIff(e, d, steps[0]);
      UndisturbedPicksLogInAgain(e, DoStep(e, d, steps[0]), steps[1..]);
    }
  }

  // ----- A save during the pick of the same profile -----

  /** The save gives the profile another token than it has, at the URL it has. */
  predicate ChangesTokenOnly(s: Store, id: string, savedUrl: string, token: Option<string>)
    requires s.file.Stored? && Has(s.file.registry.targets, id)
  {
    && savedUrl == UrlOf(s.file.registry.targets, id)
    && token.Some? && Trim(token.value) != "" && Some(Trim(token.value)) != ReadToken(s, id)
  }

  /** What a pick of a registered profile starts with. */
  lemma StartWrites(e: Session, d: Desk, call: nat, id: string, reload: bool, viewOpen: bool)
    requires Inv(e, d) && !d.switching && Has(d.store.file.registry.targets, id)
    requires var url := UrlOf(d.store.file.registry.targets, id); reload || !Warm(d, id, url, viewOpen)
    ensures var pick := Preparing(id, UrlOf(d.store.file.registry.targets, id), ReadToken(d.store, id));
            DoStep(e, d, StartPick(call, id, reload, viewOpen)) == d.(switching := true, picks := map[call := pick])
  {
    ResolvesToProfile(e, d.store, id);
    assert d.picks[call := Preparing(id, UrlOf(d.store.file.registry.targets, id), ReadToken(d.store, id))]
        == map[call := Preparing(id, UrlOf(d.store.file.registry.targets, id), ReadToken(d.store, id))];
  }

  /** The desk after a pick of `id` has waited through one save. */
  function PickThroughSave(e: Session, d: Desk, call: nat, id: string, reload: bool, viewOpen: bool, save: Step): Desk {
    DoStep(e, DoStep(e, DoStep(e, d, StartPick(call, id, reload, viewOpen)), save), ContinuePick(call, true))
  }

  /** The next pick is said to log in again after a save. When the profile is saved while its own
      pick waits, that fails exactly if the save changes its token and not its URL. */
  lemma SaveDuringPickIsMissedIff(e: Session, d: Desk, call: nat, id: string, reload: bool, viewOpen: bool, save: Step)
    requires ParserContract(e.parse) && Inv(e, d) && ViewsCurrent(d) && !d.switching && save.SaveProfile?
    requires Has(d.store.file.registry.targets, id)
    requires reload || !Warm(d, id, UrlOf(d.store.file.registry.targets, id), viewOpen)
    requires var r := SaveTarget(e.parse, d.store, save.target, save.name, save.url, save.millis).0;
             r.Ok? && r.value.id == id
    ensures var url := SaveTarget(e.parse, d.store, save.target, save.name, save.url, save.millis).0.value.url;
            !ViewsCurrent(PickThroughSave(e, d, call, id, reload, viewOpen, save))
            <==> ChangesTokenOnly(d.store, id, url, save.token)
  {
    var start := StartPick(call, id, reload, viewOpen);
    var started := DoStep(e, d, start);
    StartWrites(e, d, call, id, reload, viewOpen);
    PickKeeps(e, d, start);
    SaveKeeps(e, started, save);
    SaveWrites(e, started, save);
    SavedProfile(e, started, save);
    var saved := DoStep(e, started, save);
    forall k | k in saved.views ensures ViewCurrent(saved.store, k, saved.views[k]) {
      SaveTouchesOne(e, started, save, k, d.views[k]);
    }
    CompletedViewIsCurrentIff(e, saved, call);
  }

  /** A missed login stays missed: the next pick of the profile finds its view warm and shows it
      without another login. */
  lemma MissedLoginIsNotMadeUp(e: Session, d: Desk, call: nat, id: string, reload: bool, viewOpen: bool, save: Step,
                               next: nat)
    requires ParserContract(e.parse) && Inv(e, d) && ViewsCurrent(d) && !d.switching && save.SaveProfile?
    requires Has(d.store.file.registry.targets, id)
    requires reload || !Warm(d, id, UrlOf(d.store.file.registry.targets, id), viewOpen)
    requires var r := SaveTarget(e.parse, d.store, save.target, save.name, save.url, save.millis).0;
             r.Ok? && r.value.id == id && ChangesTokenOnly(d.store, id, r.value.url, save.token)
    ensures var end := PickThroughSave(e, d, call, id, reload, viewOpen, save);
            var again := DoStep(e, end, StartPick(next, id, false, true));
            && again.picks == map[] && again.active == id && again.views == end.views
            && id in again.views && again.views[id].token == ReadToken(d.store, id)
            && ReadToken(again.store, id) == Some(Trim(save.token.value))
  {
    var start := StartPick(call, id, reload, viewOpen);
    var started := DoStep(e, d, start);
    StartWrites(e, d, call, id, reload, viewOpen);
    PickKeeps(e, d, start);
    SaveKeeps(e, started, save);
    SaveWrites(e, started, save);
    SavedProfile(e, started, save);
    AgainIsWarm(e, DoStep(e, started, save), call, next);
  }

  /** After a completed pick, the next pick of the same profile at the same URL does not wait. */
  lemma AgainIsWarm(e: Session, d: Desk, call: nat, next: nat)
    requires Inv(e, d) && call in d.picks && Has(d.store.file.registry.targets, d.picks[call].id)
    requires d.picks[call].base == UrlOf(d.store.file.registry.targets, d.picks[call].id)
    ensures var p := d.picks[call];
            var end := DoStep(e, d, ContinuePick(call, true));
            var again := DoStep(e, end, StartPick(next, p.id, false, true));
            && again.picks == map[] && again.active == p.id && again.views == end.views
            && p.id in again.views && again.views[p.id] == View(p.base, p.token)
            && again.store.tokens == d.store.tokens
  {
    var p := d.picks[call];
    var end := DoStep(e, d, ContinuePick(call, true));
    Completed(e, d, call);
    WarmStart(e, end, p.id, next);
    CommitKeeps(e, end, p.id);
    CommitOfProfile(e, end, p.id);
  }

  /** What a completed pick leaves. */
  lemma Completed(e: Session, d: Desk, call: nat)
    requires Inv(e, d) && call in d.picks
    ensures var end := DoStep(e, d, ContinuePick(call, true));
            && Inv(e, end) && !end.switching && end.picks == map[]
            && end.views == d.views[d.picks[call].id := View(d.picks[call].base, d.picks[call].token)]
            && end.store.tokens == d.store.tokens
            && end.store.file.registry.targets == d.store.file.registry.targets
  {
    var p := d.picks[call];
    CommitKeeps(e, d.(views := d.views[p.id := View(p.base, p.token)]), p.id);
    PickKeeps(e, d, ContinuePick(call, true));
  }

  /** A warm pick is a commit and nothing else. */
  lemma WarmStart(e: Session, d: Desk, id: string, next: nat)
    requires Inv(e, d) && !d.switching && Has(d.store.file.registry.targets, id)
    requires Warm(d, id, UrlOf(d.store.file.registry.targets, id), true)
    ensures DoStep(e, d, StartPick(next, id, false, true)) == Commit(e, d, id)
  {
    ResolvesToProfile(e, d.store, id);
  }

  lemma ResolvesToProfile(e: Session, s: Store, id: string)
    requires Healthy(e.parse, s) && Has(s.file.registry.targets, id)
    ensures Resolve(e, s, id) == Some((UrlOf(s.file.registry.targets, id), ReadToken(s, id)))
  {
    LoadOfHealthy(e.parse, s);
    ReservedAreNotProfiles(e.parse, s);
  }

  lemma CommitOfProfile(e: Session, d: Desk, id: string)
    requires Healthy(e.parse, d.store) && Has(d.store.file.registry.targets, id)
    ensures Commit(e, d, id).active == id
  {
    LoadOfHealthy(e.parse, d.store);
    ReservedAreNotProfiles(e.parse, d.store);
    ProfileIdIsValid(e.parse, d.store, id);
    CommitWrites(e, d, id);
  }

  lemma ProfileIdIsValid(parse: Parser, s: Store, id: string)
    requires Healthy(parse, s) && Has(s.file.registry.targets, id)
    ensures ValidId(id)
  {
    var ts := s.file.registry.targets;
    assert ts[IndexOf(ts, id)] in ts && WellFormed(parse, ts[IndexOf(ts, id)]);
  }

  // ----- Persisting and publishing are two writes -----

  function Publish(d: Desk, id: string): Desk {
    d.(active := id)
  }

  /** If another command can run between the write of the registry file and the write of the
      runtime's active id, agreement survives unless that command removes the picked profile,
      which is still removable because it is not yet shown. */
  lemma WindowBetweenPersistAndPublish(e: Session, d: Desk, id: string, step: Step)
    requires ParserContract(e.parse) && Healthy(e.parse, d.store)
    requires d.store.file.registry.active == id && id != ENV && id != d.active
    requires step.SaveProfile? || step.RemoveProfile?
    ensures var d' := Publish(DoStep(e, d, step), id);
            ActiveKnown(d') && Agree(d') <==> !(step == RemoveProfile(id) && id != LOCAL)
  {
    if step.SaveProfile? {
      SaveInTheWindow(e, d, id, step);
    } else {
      RemoveInTheWindow(e, d, id, step.gone);
    }
  }

  lemma SaveInTheWindow(e: Session, d: Desk, id: string, step: Step)
    requires ParserContract(e.parse) && Healthy(e.parse, d.store)
    requires d.store.file.registry.active == id && id != ENV && id != d.active && step.SaveProfile?
    ensures var d' := Publish(DoStep(e, d, step), id); ActiveKnown(d') && Agree(d')
  {
    SaveWrites(e, d, step);
    var r := SaveTarget(e.parse, d.store, step.target, step.name, step.url, step.millis).0;
    if r.Ok? {
      UpsertKeepsIds(d.store.file.registry.targets, r.value, id);
      assert DoStep(e, d, step).store.file == WriteProfile(d.store, d.store.file.registry, r.value).file;
    }
  }

  /** One token is entered, some may go, and the profiles stay as they were. */
  lemma OwnedAfterEntry(w: World, end: Store, t: Target)
    requires TokensOwned(w) && end.file.Stored? && end.file.registry.targets == w.store.file.registry.targets
    requires t.id in end.tokens && forall k :: k in end.tokens && k != t.id ==> k in w.store.tokens
    ensures var targets := w.store.file.registry.targets;
            TokensOwned(World(end, w.enteredFor[t.id := t.url]))
            <==> Has(targets, t.id) && UrlOf(targets, t.id) == t.url
  {
  }

  /** Choosing a target loads the registry, changes the active id and persists what it loaded. A save with
      a token between the load and the persist is lost; its token stays. Every token still belongs to a
      profile and its URL exactly if the save neither created the profile nor changed its URL. */
  lemma SaveInsideActivationIsLost(e: Session, d: Desk, id: string, save: Step, enteredFor: map<string, string>)
    requires ParserContract(e.parse) && Inv(e, d) && TokensOwned(World(d.store, enteredFor))
    requires SetActive(e.parse, d.store, id).0.Ok?
    requires save.SaveProfile? && save.token.Some? && Trim(save.token.value) != ""
    requires SaveTarget(e.parse, d.store, save.target, save.name, save.url, save.millis).0.Ok?
    ensures var t := SaveTarget(e.parse, d.store, save.target, save.name, save.url, save.millis).0.value;
            var loaded := d.store.file.registry;
            var end := DoStep(e, d, save).store.(file := SetActive(e.parse, d.store, id).1.file);
            && end.file.Stored? && end.file.registry.targets == loaded.targets
            && ReadToken(end, t.id) == Some(Trim(save.token.value))
            && (TokensOwned(World(end, enteredFor[t.id := t.url]))
                <==> Has(loaded.targets, t.id) && UrlOf(loaded.targets, t.id) == t.url)
  {
    LoadOfHealthy(e.parse, d.store);
    SaveWrites(e, d, save);
    SavedProfile(e, d, save);
    var t := SaveTarget(e.parse, d.store, save.target, save.name, save.url, save.millis).0.value;
    var end := DoStep(e, d, save).store.(file := SetActive(e.parse, d.store, id).1.file);
    OwnedAfterEntry(World(d.store, enteredFor), end, t);
  }

  lemma RemoveInTheWindow(e: Session, d: Desk, id: string, gone: string)
    requires Healthy(e.parse, d.store)
    requires d.store.file.registry.active == id && id != ENV && id != d.active
    ensures var d' := Publish(DoStep(e, d, RemoveProfile(gone)), id);
            ActiveKnown(d') && Agree(d') <==> !(gone == id && id != LOCAL)
  {
    ActiveIsAProfile(e.parse, d.store);
    LoadOfHealthy(e.parse, d.store);
    RemoveWrites(e, d, gone);
    RemovalKeeps(d.store.file.registry.targets, gone, id);
  }

  lemma ActiveIsAProfile(parse: Parser, s: Store)
    requires Healthy(parse, s)
    ensures var id := s.file.registry.active;
            id == LOCAL || (ValidId(id) && Has(s.file.registry.targets, id))
  {
    var ts := s.file.registry.targets;
    var id := s.file.registry.active;
    if id != LOCAL {
      assert ts[IndexOf(ts, id)] in ts;
      assert WellFormed(parse, ts[IndexOf(ts, id)]);
    }
  }
}
