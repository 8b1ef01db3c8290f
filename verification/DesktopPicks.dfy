/** What a pick, a save and a removal leave on the desk: which target is shown, which choice is persisted,
    which views stay (tauri/src-tauri/src/desktop.rs). */
module DesktopPicks {
  import opened Wrappers
  import opened TargetIds
  import opened TargetRegistry
  import opened RegistrySafety
  import opened Desktop

  /** The local engine runs, the environment names a URL, or the profile is registered. */
  predicate Available(e: Session, d: Desk, id: string)
    requires d.store.file.Stored?
  {
    if id == LOCAL then e.localBase.Some?
    else if id == ENV then e.envUrl.Some?
    else Has(d.store.file.registry.targets, id)
  }

  function BaseOf(e: Session, d: Desk, id: string): string
    requires d.store.file.Stored? && Available(e, d, id)
  {
    if id == LOCAL then e.localBase.value
    else if id == ENV then e.envUrl.value
    else UrlOf(d.store.file.registry.targets, id)
  }

  /** Only a profile has a token. */
  function TokenOf(d: Desk, id: string): Option<string> {
    if id in {LOCAL, ENV} then None else ReadToken(d.store, id)
  }

  /** The view is open at the URL that the target has now. */
  predicate Open(e: Session, d: Desk, id: string, viewOpen: bool)
    requires d.store.file.Stored? && Available(e, d, id)
  {
    viewOpen && id in d.views && d.views[id].base == BaseOf(e, d, id)
  }

  /** `d'` shows `id`, and has persisted it unless it is the environment's; apart from views and picks
      nothing else changed. */
  predicate SwitchedTo(d: Desk, d': Desk, id: string) {
    && d.store.file.Stored? && d'.active == id
    && d'.store.file == (if id == ENV then d.store.file else Stored(d.store.file.registry.(active := id)))
    && d'.store.tokens == d.store.tokens && d'.store.legacyUrl == d.store.legacyUrl
  }

  /** `d'` is `d` but for views and picks. */
  predicate NotSwitched(d: Desk, d': Desk) {
    d'.active == d.active && d'.store == d.store
  }

  lemma UsableIds(e: Session, d: Desk, id: string)
    requires Healthy(e.parse, d.store)
    ensures !Has(d.store.file.registry.targets, LOCAL) && !Has(d.store.file.registry.targets, ENV)
    ensures Has(d.store.file.registry.targets, id) ==> ValidId(id)
  {
    ReservedAreNotProfiles(e.parse, d.store);
    if Has(d.store.file.registry.targets, id) {
      ProfileIdIsValid(e.parse, d.store, id);
    }
  }

  lemma ReleaseTheOnlyPick(d: Desk, call: nat)
    requires SingleFlight(d) && call in d.picks
    ensures d.switching && d.picks - {call} == map[]
  {
    assert d.picks.Keys == {call};
  }

  /** A pick that completes makes its target the active one and persists that, unless the profile was removed
      while it waited; its view is the one it logged in to, and all other views stay. A pick that fails
      leaves target, choice and views as they were. */
  lemma CompletedPickSwitches(e: Session, d: Desk, call: nat, prepared: bool)
    requires Inv(e, d) && call in d.picks
    ensures var p, d' := d.picks[call], DoStep(e, d, ContinuePick(call, prepared));
            && !d'.switching && d'.picks == map[]
            && d'.views == (if prepared then d.views[p.id := View(p.base, p.token)] else d.views)
            && if prepared && (p.id in {LOCAL, ENV} || Has(d.store.file.registry.targets, p.id))
               then SwitchedTo(d, d', p.id) else NotSwitched(d, d')
  {
    var p := d.picks[call];
    LoadOfHealthy(e.parse, d.store);
    UsableIds(e, d, p.id);
    ReleaseTheOnlyPick(d, call);
    CommitWrites(e, d.(views := d.views[p.id := View(p.base, p.token)]), p.id);
  }

  /** Picking an available target whose view is open switches to it at once; any other waits with its URL
      and its token. A target that is not available, or a pick while another waits, changes nothing. */
  lemma StartedPick(e: Session, d: Desk, call: nat, id: string, reload: bool, viewOpen: bool)
    requires Inv(e, d)
    ensures var d' := DoStep(e, d, StartPick(call, id, reload, viewOpen));
            if d.switching || !Available(e, d, id) then d' == d
            else if !reload && Open(e, d, id, viewOpen) then
              SwitchedTo(d, d', id) && d'.views == d.views && d'.picks == map[] && !d'.switching
            else
              && NotSwitched(d, d') && d'.views == d.views && d'.switching
              && d'.picks == map[call := Preparing(id, BaseOf(e, d, id), TokenOf(d, id))]
  {
    StartIs(e, d, call, id, reload, viewOpen);
    if !d.switching && Available(e, d, id) {
      if !reload && Open(e, d, id, viewOpen) {
        CommitSwitches(e, d, id);
      }
    }
  }

  lemma StartIs(e: Session, d: Desk, call: nat, id: string, reload: bool, viewOpen: bool)
    requires Inv(e, d)
    ensures DoStep(e, d, StartPick(call, id, reload, viewOpen))
         == if d.switching || !Available(e, d, id) then d
            else if !reload && Open(e, d, id, viewOpen) then Commit(e, d, id)
            else d.(switching := true, picks := map[call := Preparing(id, BaseOf(e, d, id), TokenOf(d, id))])
  {
    ResolvesIff(e, d, id);
    assert !d.switching ==> d.picks == map[];
  }

  lemma ResolvesIff(e: Session, d: Desk, id: string)
    requires Inv(e, d)
    ensures Resolve(e, d.store, id)
         == if Available(e, d, id) then Some((BaseOf(e, d, id), TokenOf(d, id))) else None
  {
    LoadOfHealthy(e.parse, d.store);
  }

  lemma CommitSwitches(e: Session, d: Desk, id: string)
    requires Inv(e, d) && Available(e, d, id)
    ensures var d' := Commit(e, d, id);
            SwitchedTo(d, d', id) && d'.views == d.views && d'.picks == d.picks && d'.switching == d.switching
  {
    LoadOfHealthy(e.parse, d.store);
    UsableIds(e, d, id);
    CommitWrites(e, d, id);
  }

  /** A pick that nothing interrupts shows the target if it is available: it is active, persisted unless it
      is the environment's, and its view is at the URL it has now; unless the view was open already it is
      logged in with the token stored now. */
  lemma PickShowsTheTarget(e: Session, d: Desk, call: nat, id: string, reload: bool, viewOpen: bool)
    requires Inv(e, d) && !d.switching
    ensures var end := DoStep(e, DoStep(e, d, StartPick(call, id, reload, viewOpen)), ContinuePick(call, true));
            if !Available(e, d, id) then end == d
            else
              && SwitchedTo(d, end, id) && !end.switching && id in end.views
              && end.views[id].base == BaseOf(e, d, id)
              && (reload || !Open(e, d, id, viewOpen) ==> end.views[id].token == TokenOf(d, id))
  {
    var started := DoStep(e, d, StartPick(call, id, reload, viewOpen));
    StartedPick(e, d, call, id, reload, viewOpen);
    PickKeeps(e, d, StartPick(call, id, reload, viewOpen));
    if call in started.picks {
      CompletedPickSwitches(e, started, call, true);
    }
  }

  /** A save that succeeds drops the view of its profile and of no other, and switches nothing; one that is
      refused changes nothing. */
  lemma SaveDropsTheView(e: Session, d: Desk, step: Step)
    requires ParserContract(e.parse) && Inv(e, d) && step.SaveProfile?
    ensures var r, d' := SaveTarget(e.parse, d.store, step.target, step.name, step.url, step.millis).0,
                         DoStep(e, d, step);
            if r.Err? then d' == d
            else
              && d'.active == d.active && d'.picks == d.picks && d'.switching == d.switching
              && d'.views == d.views - {r.value.id}
              && d'.store.file.Stored? && d'.store.file.registry.active == d.store.file.registry.active
              && Has(d'.store.file.registry.targets, r.value.id)
  {
    SaveWrites(e, d, step);
    var r := SaveTarget(e.parse, d.store, step.target, step.name, step.url, step.millis).0;
    if r.Ok? {
      UpsertKeepsIds(d.store.file.registry.targets, r.value, r.value.id);
    }
  }

  /** The shown target cannot be removed. Any other profile is, with its token and its view; nothing is switched. */
  lemma RemovalDropsTheView(e: Session, d: Desk, gone: string)
    requires Inv(e, d)
    ensures var d' := DoStep(e, d, RemoveProfile(gone));
            if d.active == gone || !Has(d.store.file.registry.targets, gone) then d' == d
            else
              && d'.active == d.active && d'.picks == d.picks && d'.switching == d.switching
              && d'.views == d.views - {gone}
              && d'.store.file.Stored? && !Has(d'.store.file.registry.targets, gone)
              && ReadToken(d'.store, gone) == None
  {
    LoadOfHealthy(e.parse, d.store);
    UsableIds(e, d, gone);
    RemoveWrites(e, d, gone);
    RemovalKeeps(d.store.file.registry.targets, gone, gone);
  }
}
