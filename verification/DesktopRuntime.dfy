/** The commands of the desktop as they change the runtime and the disk, each tied to its step
    in `Desktop` (tauri/src-tauri/src/desktop.rs). A pick that has to wait is cut at its await. */
module DesktopRuntime {
  import opened Wrappers
  import opened TargetIds
  import opened TargetRegistry
  import opened RegistrySafety
  import opened Desktop
  import opened DesktopPicks

  class Runtime {
    const session: Session
    const disk: Disk
    var active: string
    var switching: bool
    var views: map<string, View>
    var picks: map<nat, Pick>

    function State(): Desk
      reads this, disk
    {
      Desk(disk.State(), active, views, switching, picks)
    }

    /** What every command may rely on, and keeps. */
    ghost predicate Valid()
      reads this, disk
    {
      disk.parse == session.parse && ParserContract(session.parse) && Inv(session, State())
    }

    /** The setup code: the environment's target if there is one, else the saved choice. */
    constructor (session: Session, disk: Disk)
      requires disk.parse == session.parse && ParserContract(session.parse) && Healthy(session.parse, disk.State())
      ensures Valid() && this.session == session && this.disk == disk
      ensures active == if session.envUrl.Some? then ENV else disk.State().file.registry.active
      ensures !switching && picks == map[] && views == map[]
    {
      StartupIsConsistent(session, disk.State());
      LoadOfHealthy(session.parse, disk.State());
      this.session, this.disk := session, disk;
      active := if session.envUrl.Some? then ENV else LoadStored(session.parse, disk.State()).0.active;
      switching, views, picks := false, map[], map[];
    }

    method ResolveNow(id: string) returns (r: Option<(string, Option<string>)>)
      requires disk.parse == session.parse && Healthy(session.parse, disk.State())
      modifies disk
      ensures State() == old(State()) && r == Resolve(session, State().store, id)
    {
      if id == LOCAL {
        return if session.localBase.Some? then Some((session.localBase.value, None)) else None;
      }
      if id == ENV {
        return if session.envUrl.Some? then Some((session.envUrl.value, None)) else None;
      }
      LoadOfHealthy(session.parse, disk.State());
      var registry := disk.Load();
      var at := IndexOf(registry.targets, id);
      if at == |registry.targets| {
        return None;
      }
      return Some((registry.targets[at].url, ReadToken(disk.State(), id)));
    }

    method Publish(id: string)
      requires disk.parse == session.parse
      modifies this`active, disk
      ensures State() == Commit(session, old(State()), id)
    {
      if id != ENV {
        var stored := disk.Activate(id);
        if stored.Err? {
          return;
        }
      }
      active := id;
    }

    /** Up to the await: `waiting` says whether the pick now waits for health check and login.
        A pick that fails or switches at once releases the flag before it returns. */
    method StartPick(call: nat, id: string, reload: bool, viewOpen: bool) returns (waiting: bool)
      requires Valid() && call !in picks
      modifies this, disk
      ensures Valid() && State() == DoStep(session, old(State()), Step.StartPick(call, id, reload, viewOpen))
      ensures waiting == (call in picks) && switching == (old(switching) || waiting)
    {
      PickKeeps(session, State(), Step.StartPick(call, id, reload, viewOpen));
      if switching {
        return false;
      }
      switching := true;
      var resolved := ResolveNow(id);
      if resolved.None? {
        switching := false;
        return false;
      }
      var (base, token) := resolved.value;
      var warm := viewOpen && id in views && views[id].base == base;
      if reload || !warm {
        picks := picks[call := Preparing(id, base, token)];
        return true;
      }
      Publish(id);
      switching := false;
      return false;
    }

    /** From the await on: `prepared` says whether health check, login and loading succeeded. */
    method ContinuePick(call: nat, prepared: bool)
      requires Valid() && call in picks
      modifies this, disk
      ensures Valid() && State() == DoStep(session, old(State()), Step.ContinuePick(call, prepared))
      ensures !switching && picks == map[]
      ensures var id := old(picks)[call].id;
              active == if prepared && (id in {LOCAL, ENV} || Has(old(State()).store.file.registry.targets, id)) then id
                        else old(active)
    {
      CompletedPickSwitches(session, State(), call, prepared);
      PickKeeps(session, State(), Step.ContinuePick(call, prepared));
      var pick := picks[call];
      if prepared {
        views := views[pick.id := View(pick.base, pick.token)];
        Publish(pick.id);
      }
      switching := false;
      picks := picks - {call};
    }

    method SaveProfile(id: Option<string>, name: string, url: string, millis: nat, token: Option<string>)
      returns (ok: bool)
      requires Valid()
      modifies this, disk
      ensures Valid() && State() == DoStep(session, old(State()), Step.SaveProfile(id, name, url, millis, token))
      ensures active == old(active) && switching == old(switching) && picks == old(picks)
    {
      SaveKeeps(session, State(), Step.SaveProfile(id, name, url, millis, token));
      var saved := disk.Save(id, name, url, millis);
      if saved.Err? {
        return false;
      }
      if token.Some? {
        var wrote := disk.WriteToken(saved.value.id, token.value);
        if wrote.Err? {
          return false;
        }
      }
      views := views - {saved.value.id};
      return true;
    }

    method RemoveProfile(id: string) returns (ok: bool)
      requires Valid()
      modifies this, disk
      ensures Valid() && State() == DoStep(session, old(State()), Step.RemoveProfile(id))
      ensures active == old(active) && switching == old(switching) && picks == old(picks)
      ensures id == active ==> !ok && State() == old(State())
    {
      RemoveKeeps(session, State(), Step.RemoveProfile(id));
      if active == id {
        return false;
      }
      var removed := disk.Remove(id);
      if removed.Err? {
        return false;
      }
      views := views - {id};
      return true;
    }
  }
}
