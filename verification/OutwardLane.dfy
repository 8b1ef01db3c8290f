/** How often the outward lane dispatches a row (kompany/src/kompany/core/outward_lane.py,
    kompany/src/kompany/core/lane_registry.py). */
module OutwardLane {
  import opened Outbox
  import opened OutboxProtocol

  // ----- Ticks that may still dispatch -----

  /** The tick replaced the lease for the row and has not dispatched it yet. */
  predicate MayDispatch(t: Tick, id: string) {
    t == Working(id) || t == Cleared(id)
  }

  function Busy(ticks: map<nat, Tick>, id: string): set<nat> {
    set t | t in ticks && MayDispatch(ticks[t], id)
  }

  /** Some tick has dispatched the row and not stored its status yet. */
  predicate Recording(ticks: map<nat, Tick>, id: string) {
    exists t | t in ticks :: ticks[t].Sending? && ticks[t].id == id
  }

  lemma BusyAfterMove(ticks: map<nat, Tick>, t: nat, to: Tick, id: string)
    ensures Busy(ticks[t := to], id) == if MayDispatch(to, id) then Busy(ticks, id) + {t} else Busy(ticks, id) - {t}
  {
  }

  lemma BusyAfterEnd(ticks: map<nat, Tick>, t: nat, id: string)
    ensures Busy(ticks - {t}, id) == Busy(ticks, id) - {t}
  {
  }

  lemma RecordingAfterMove(ticks: map<nat, Tick>, t: nat, to: Tick, id: string)
    requires t in ticks ==> !ticks[t].Sending?
    ensures Recording(ticks[t := to], id) <==> Recording(ticks, id) || (to.Sending? && to.id == id)
  {
    var after := ticks[t := to];
    if u :| u in ticks && ticks[u].Sending? && ticks[u].id == id {
      assert after[u] == ticks[u];
    }
    if to.Sending? && to.id == id {
      assert after[t] == to;
    }
  }

  lemma RecordingAfterEnd(ticks: map<nat, Tick>, t: nat, id: string)
    requires t in ticks ==> !(ticks[t].Sending? && ticks[t].id == id)
    ensures Recording(ticks - {t}, id) <==> Recording(ticks, id)
  {
    if u :| u in ticks && ticks[u].Sending? && ticks[u].id == id {
      assert (ticks - {t})[u] == ticks[u];
    }
  }

  // ----- The dispatch bound -----

  /** Dispatches of a row that can still follow without another lease being taken; one more when
      the row waits and no tick is at work on it. */
  function Owed(waits: bool, recording: bool, busy: nat): nat {
    if busy > 0 then busy else if waits && !recording then 1 else 0
  }

  predicate SafeFor(s: State, id: string) {
    s.dispatched[id] + Owed(WaitingRow(s.rows, id), Recording(s.ticks, id), |Busy(s.ticks, id)|) <= s.entered[id]
  }

  /** No row was, or is about to be, dispatched more often than it entered the queue. */
  ghost predicate Safe(s: State) {
    forall id :: SafeFor(s, id)
  }

  /** What a tick that replaces the lease would have to check: that its row entered the queue once
      more than it was dispatched or is being worked on. */
  predicate Guarded(s: State, step: Step) {
    step.ReplaceLease? && step.tick in s.ticks && s.ticks[step.tick].SawNoLease? ==>
      var id := s.ticks[step.tick].id;
      s.dispatched[id] + |Busy(s.ticks, id)| < s.entered[id]
  }

  lemma UpdateMovesOne(t: Table, id: string, status: Status, k: string)
    requires Update(t, id, status).Some?
    ensures var u := Update(t, id, status).value;
            WaitingRow(u, k) == if k == id && Present(t, id) then Waiting(status) else WaitingRow(t, k)
  {
    var u := Update(t, id, status).value;
    assert forall j :: 0 <= j < |t| ==> u[j].id == t[j].id;
    assert Position(u, k) == Position(t, k);
  }

  lemma InsertMovesOne(t: Table, row: Row, k: string)
    requires Insert(t, row).Some?
    ensures !Present(t, row.id)
    ensures var u := Insert(t, row).value;
            WaitingRow(u, k) == if k == row.id then Waiting(row.status) else WaitingRow(t, k)
  {
    var u := Insert(t, row).value;
    assert Present(t, row.id) ==> Get(t, row.id) in t && Clash(Get(t, row.id), row);
    assert forall j :: 0 <= j < |t| ==> u[j] == t[j];
    assert u[|t|] == row;
    assert Present(t, k) ==> Position(u, k) == Position(t, k);
    assert k == row.id ==> Position(u, k) == |t|;
  }

  /** An update changes waiting and entries of its row only, and each new wait is an entry. */
  lemma UpdatedEffect(s: State, rowId: string, status: Status, id: string)
    ensures var s' := Updated(s, rowId, status);
            && s'.ticks == s.ticks && s'.dispatched == s.dispatched && s'.calls == s.calls && s'.lease == s.lease
            && s'.entered[id] == s.entered[id] + (if WaitingRow(s'.rows, id) && !WaitingRow(s.rows, id) then 1 else 0)
  {
    if Update(s.rows, rowId, status).Some? {
      UpdateMovesOne(s.rows, rowId, status, id);
    }
  }

  lemma InsertedEffect(s: State, row: Row, id: string)
    requires Insert(s.rows, row).Some?
    ensures var s' := Inserted(s, Insert(s.rows, row).value, row);
            s'.entered[id] == s.entered[id] + (if WaitingRow(s'.rows, id) && !WaitingRow(s.rows, id) then 1 else 0)
  {
    InsertMovesOne(s.rows, row, id);
  }

  /** Steps of callers and the founder touch no tick and no dispatch, and each new wait is an entry. */
  lemma CallEffect(s: State, step: Step, id: string)
    requires !OfLane(step)
    ensures var s' := Next(s, step);
            && s'.ticks == s.ticks && s'.dispatched == s.dispatched && s'.lease == s.lease
            && s'.entered[id] == s.entered[id] + (if WaitingRow(s'.rows, id) && !WaitingRow(s.rows, id) then 1 else 0)
  {
    match step {
      case InsertRow(call, newId, now) =>
        if call in s.calls && s.calls[call].progress.Inserting? {
          var row := RowOf(s.calls[call], newId, now);
          if Insert(s.rows, row).Some? {
            InsertedEffect(s, row, id);
          }
        }
      case AddDraft(draftId, draftKey, created, draft) =>
        var row := Row(draftId, draftKey, Draft, created, draft);
        if Insert(s.rows, row).Some? {
          InsertedEffect(s, row, id);
        }
      case Verdict(rowId, status) => UpdatedEffect(s, rowId, status, id);
      case _ =>
    }
  }

  lemma CallKeepsSafe(s: State, step: Step, id: string)
    requires !OfLane(step) && SafeFor(s, id)
    ensures SafeFor(Next(s, step), id)
  {
    CallEffect(s, step, id);
  }

  /** Parking or storing a status takes the row out of the queue. */
  lemma ResolvedIsNotWaiting(s: State, id: string, status: Status)
    requires Indexed(s.rows) && status in {Parked, Sent, Failed}
    ensures !WaitingRow(Updated(s, id, status).rows, id)
  {
    UpdateRefusedIff(s.rows, id, status);
    if Update(s.rows, id, status).Some? {
      UpdateMovesOne(s.rows, id, status, id);
    }
  }

  /** A tick that stands at `t` ends with a status update of its row. */
  lemma EndKeepsSafe(s: State, tick: nat, status: Status, id: string)
    requires Indexed(s.rows) && SafeFor(s, id) && status in {Parked, Sent, Failed}
    requires tick in s.ticks && (s.ticks[tick].Working? || s.ticks[tick].Sending?)
    ensures SafeFor(Done(Updated(s, s.ticks[tick].id, status), tick), id)
  {
    var rowId := s.ticks[tick].id;
    UpdatedEffect(s, rowId, status, id);
    ResolvedIsNotWaiting(s, rowId, status);
    BusyAfterEnd(s.ticks, tick, id);
    if id == rowId {
      assert |Busy(s.ticks, id) - {tick}| <= |Busy(s.ticks, id)|;
    } else {
      RecordingAfterEnd(s.ticks, tick, id);
      assert Busy(s.ticks, id) - {tick} == Busy(s.ticks, id);
      OtherStays(s, rowId, status, id);
    }
  }

  lemma OtherStays(s: State, rowId: string, status: Status, id: string)
    requires id != rowId
    ensures WaitingRow(Updated(s, rowId, status).rows, id) == WaitingRow(s.rows, id)
    ensures Updated(s, rowId, status).entered[id] == s.entered[id]
  {
    if Update(s.rows, rowId, status).Some? {
      UpdateMovesOne(s.rows, rowId, status, id);
    }
  }

  /** Handing the row over spends one dispatch that was owed. */
  lemma ExecuteSpends(s: State, tick: nat, ok: bool)
    requires tick in s.ticks && s.ticks[tick].Cleared? && SafeFor(s, s.ticks[tick].id)
    ensures SafeFor(Next(s, Execute(tick, ok)), s.ticks[tick].id)
  {
    var id := s.ticks[tick].id;
    BusyAfterMove(s.ticks, tick, Sending(id, ok), id);
    RecordingAfterMove(s.ticks, tick, Sending(id, ok), id);
    assert tick in Busy(s.ticks, id);
    assert |Busy(s.ticks, id) - {tick}| == |Busy(s.ticks, id)| - 1;
  }

  lemma ExecuteSparesOthers(s: State, tick: nat, ok: bool, id: string)
    requires SafeFor(s, id) && tick in s.ticks && s.ticks[tick].Cleared? && s.ticks[tick].id != id
    ensures SafeFor(Next(s, Execute(tick, ok)), id)
  {
    var rowId := s.ticks[tick].id;
    BusyAfterMove(s.ticks, tick, Sending(rowId, ok), id);
    RecordingAfterMove(s.ticks, tick, Sending(rowId, ok), id);
    assert Busy(s.ticks, id) - {tick} == Busy(s.ticks, id);
  }

  /** A tick that moves without dispatching, and without a lease being taken. */
  lemma MoveKeepsSafe(s: State, tick: nat, to: Tick, id: string)
    requires SafeFor(s, id) && !to.Sending?
    requires tick in s.ticks ==> !s.ticks[tick].Sending?
    requires MayDispatch(to, id) <==> tick in s.ticks && MayDispatch(s.ticks[tick], id)
    ensures SafeFor(Move(s, tick, to), id)
  {
    BusyAfterMove(s.ticks, tick, to, id);
    RecordingAfterMove(s.ticks, tick, to, id);
    assert Busy(s.ticks[tick := to], id) == Busy(s.ticks, id);
  }

  lemma QuitKeepsSafe(s: State, tick: nat, id: string)
    requires SafeFor(s, id) && tick in s.ticks && (s.ticks[tick].Looked? || s.ticks[tick].Pulled?)
    ensures SafeFor(s.(ticks := s.ticks - {tick}), id)
  {
    BusyAfterEnd(s.ticks, tick, id);
    RecordingAfterEnd(s.ticks, tick, id);
    assert Busy(s.ticks, id) - {tick} == Busy(s.ticks, id);
  }

  /** Replacing the lease keeps the bound of its row exactly when it is guarded. */
  lemma ReplaceKeepsSafeIff(s: State, tick: nat, id: string)
    requires SafeFor(s, id) && tick in s.ticks && s.ticks[tick].SawNoLease?
    ensures SafeFor(Next(s, ReplaceLease(tick)), id) <==> s.ticks[tick].id != id || Guarded(s, ReplaceLease(tick))
  {
    var rowId := s.ticks[tick].id;
    BusyAfterMove(s.ticks, tick, Working(rowId), id);
    RecordingAfterMove(s.ticks, tick, Working(rowId), id);
    assert tick !in Busy(s.ticks, id);
    if rowId != id {
      assert Busy(s.ticks, id) - {tick} == Busy(s.ticks, id);
    } else {
      assert |Busy(s.ticks, id) + {tick}| == |Busy(s.ticks, id)| + 1;
    }
  }

  lemma LaneKeepsSafe(s: State, step: Step, id: string)
    requires Indexed(s.rows) && OfLane(step) && SafeFor(s, id)
    ensures Guarded(s, step) ==> SafeFor(Next(s, step), id)
  {
    if step.Look? {
      if step.tick !in s.ticks {
        MoveKeepsSafe(s, step.tick, Looked, id);
      }
    } else if !step.Expire? && step.tick in s.ticks {
      var tick, t := step.tick, s.ticks[step.tick];
      match step {
        case Pull(_) =>
          if t.Looked? {
            QuitKeepsSafe(s, tick, id);
            if Oldest(s.rows, IsWaiting()).Some? {
              MoveKeepsSafe(s, tick, Pulled(Oldest(s.rows, IsWaiting()).value.id), id);
            }
          }
        case ReadLease(_) =>
          if t.Pulled? {
            QuitKeepsSafe(s, tick, id);
            MoveKeepsSafe(s, tick, SawNoLease(t.id), id);
          }
        case ReplaceLease(_) => if t.SawNoLease? { ReplaceKeepsSafeIff(s, tick, id); }
        case Park(_) => if t.Working? { EndKeepsSafe(s, tick, Parked, id); }
        case Clear(_) => if t.Working? { MoveKeepsSafe(s, tick, Cleared(t.id), id); }
        case Execute(_, ok) =>
          if t.Cleared? {
            if t.id == id {
              ExecuteSpends(s, tick, ok);
            } else {
              ExecuteSparesOthers(s, tick, ok, id);
            }
          }
        case Record(_) => if t.Sending? { EndKeepsSafe(s, tick, if t.ok then Sent else Failed, id); }
      }
    }
  }

  /** The one step that can endanger the bound is the replacement of the lease, and it does so
      exactly when it is not guarded. */
  lemma StepKeepsSafeIff(s: State, step: Step)
    requires Indexed(s.rows) && Safe(s)
    ensures Safe(Next(s, step)) <==> Guarded(s, step)
  {
    if Guarded(s, step) {
      forall id ensures SafeFor(Next(s, step), id) {
        assert SafeFor(s, id);
        if OfLane(step) {
          LaneKeepsSafe(s, step, id);
        } else {
          CallKeepsSafe(s, step, id);
        }
      }
    } else {
      var id := s.ticks[step.tick].id;
      assert SafeFor(s, id);
      ReplaceKeepsSafeIff(s, step.tick, id);
    }
  }

  /** In a safe state a replacement is unguarded only if the row no longer waits, or another tick has
      it in hand: it may dispatch it, or has dispatched it and not stored the status yet. */
  lemma UnguardedOnlyIf(s: State, tick: nat)
    requires Safe(s) && tick in s.ticks && s.ticks[tick].SawNoLease? && !Guarded(s, ReplaceLease(tick))
    ensures var id := s.ticks[tick].id;
            !WaitingRow(s.rows, id) || Busy(s.ticks, id) != {} || Recording(s.ticks, id)
  {
    assert SafeFor(s, s.ticks[tick].id);
  }

  ghost predicate AllSafe(tr: seq<State>) {
    forall n :: 0 <= n < |tr| ==> Safe(tr[n])
  }

  ghost predicate AllGuarded(s: State, steps: seq<Step>) {
    forall i :: 0 <= i < |steps| ==> Guarded(Trace(s, steps)[i], steps[i])
  }

  /** For every interleaving of callers, founder and lane ticks: every state is safe exactly when
      every replacement of the lease was guarded. */
  lemma {:induction false} RunIsSafeIff(s: State, steps: seq<Step>)
    requires Indexed(s.rows) && Safe(s)
    ensures AllSafe(Trace(s, steps)) <==> AllGuarded(s, steps)
  {
    if steps != [] {
      var k := |steps| - 1;
      var earlier, tr := Trace(s, steps[..k]), Trace(s, steps);
      RunIsSafeIff(s, steps[..k]);
      KeysStayUnique(s, steps[..k]);
      assert forall i :: 0 <= i <= k ==> tr[i] == earlier[i];
      assert AllGuarded(s, steps) <==> AllGuarded(s, steps[..k]) && Guarded(earlier[k], steps[k]) by {
        assert forall i :: 0 <= i < k ==> steps[..k][i] == steps[i];
      }
      if AllSafe(earlier) {
        assert Safe(earlier[k]);
        StepKeepsSafeIff(earlier[k], steps[k]);
        assert tr[k + 1] == Next(earlier[k], steps[k]);
      }
      assert AllSafe(tr) ==> AllSafe(earlier) && Safe(tr[k + 1]);
    }
  }

  /** So a guarded run dispatches no row more often than it entered the queue. */
  lemma DispatchesAreBounded(s: State, steps: seq<Step>)
    requires Indexed(s.rows) && Safe(s) && AllGuarded(s, steps)
    ensures forall id :: Last(Trace(s, steps)).dispatched[id] <= Last(Trace(s, steps)).entered[id]
  {
    RunIsSafeIff(s, steps);
    forall id ensures Last(Trace(s, steps)).dispatched[id] <= Last(Trace(s, steps)).entered[id] {
      assert SafeFor(Last(Trace(s, steps)), id);
    }
  }

  /** Nobody at work, and every waiting row undispatched: the bound holds. */
  lemma QuietIsSafe(s: State)
    requires s.ticks == map[]
    requires forall id :: s.dispatched[id] + (if WaitingRow(s.rows, id) then 1 else 0) <= s.entered[id]
    ensures Safe(s)
  {
    forall id ensures SafeFor(s, id) {
      assert Busy(s.ticks, id) == {};
    }
  }
}
