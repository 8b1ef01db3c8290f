/** Concurrent use of the outward queue: any number of `enqueue_outward` calls, each split into
    its database statements, founder verdicts, and ticks of the outward lane
    (kompany/src/kompany/channels/outbox.py, kompany/src/kompany/core/outward_lane.py,
    kompany/src/kompany/core/lane_registry.py). */
module OutboxProtocol {
  import opened Wrappers
  import opened OutwardPolicy
  import opened Outbox

  /** Where one `enqueue_outward` call stands. */
  datatype Progress =
    | Looking
    | Inserting
    | Fetching(id: string)
    | Retrying
    | Returned(row: Row)
    | Raised

  datatype Call = Call(key: string, action: Action, progress: Progress)

  /** Where one tick of the lane stands. Taking the lease is two statements, a read and a
      replacement; handing the row to an executor and storing its status are two more. */
  datatype Tick =
    | Looked
    | Pulled(id: string)
    | SawNoLease(id: string)
    | Working(id: string)
    | Cleared(id: string)
    | Sending(id: string, ok: bool)

  /** `dispatched` and `entered` are history: how often a row was handed to an executor, and
      how often it came to wait in the queue. */
  datatype State = State(
    rows: Table, calls: map<nat, Call>, policy: Policy, ticks: map<nat, Tick>, lease: Option<nat>,
    dispatched: multiset<string>, entered: multiset<string>)

  datatype Step =
    | Begin(call: nat, given: string, digest: string, request: Action)
    | Lookup(call: nat)
    | InsertRow(call: nat, newId: string, now: int)
    | Fetch(call: nat)
    | LookupAgain(call: nat)
    | AddDraft(draftId: string, draftKey: string, created: int, draft: Action)
    | Verdict(rowId: string, status: Status)
    | SetPolicy(policy: Policy)
    | Look(tick: nat)
    | Pull(tick: nat)
    | ReadLease(tick: nat)
    | ReplaceLease(tick: nat)
    | Park(tick: nat)
    | Clear(tick: nat)
    | Execute(tick: nat, ok: bool)
    | Record(tick: nat)
    | Expire

  /** Steps of the lane and its lease; all others are those of callers and the founder. */
  predicate OfLane(step: Step) {
    step.Expire? || step.Look? || step.Pull? || step.ReadLease? || step.ReplaceLease?
    || step.Park? || step.Clear? || step.Execute? || step.Record?
  }

  predicate InProgress(c: Call) {
    !c.progress.Returned? && !c.progress.Raised?
  }

  function With(s: State, call: nat, p: Progress): State
    requires call in s.calls
  {
    s.(calls := s.calls[call := s.calls[call].(progress := p)])
  }

  predicate WaitingRow(t: Table, id: string) {
    Present(t, id) && Waiting(Get(t, id).status)
  }

  /** Adds a row, and counts it when it comes to wait. */
  function Inserted(s: State, t: Table, row: Row): State {
    s.(rows := t, entered := if Waiting(row.status) then s.entered + multiset{row.id} else s.entered)
  }

  /** Runs one status update; a refused one changes nothing. */
  function Updated(s: State, id: string, status: Status): State {
    match Update(s.rows, id, status)
    case None => s
    case Some(t) =>
      s.(rows := t,
         entered := if Present(s.rows, id) && !WaitingRow(s.rows, id) && Waiting(status)
                    then s.entered + multiset{id} else s.entered)
  }

  /** The row that `call` would insert. */
  function RowOf(c: Call, id: string, now: int): Row {
    Row(id, c.key, Queued, now, c.action)
  }

  function CallNext(s: State, step: Step): State
    requires !OfLane(step)
  {
    match step
    case Begin(call, given, digest, request) =>
      if call in s.calls then s else s.(calls := s.calls[call := Call(KeyOf(given, digest), request, Looking)])
    case Lookup(call) =>
      if call in s.calls && s.calls[call].progress.Looking? then
        match FindLive(s.rows, s.calls[call].key)
        case Some(row) => With(s, call, Returned(row))
        case None => With(s, call, Inserting)
      else s
    case InsertRow(call, newId, now) =>
      if call in s.calls && s.calls[call].progress.Inserting? then
        var row := RowOf(s.calls[call], newId, now);
        match Insert(s.rows, row)
        case Some(t) => With(Inserted(s, t, row), call, Fetching(newId))
        case None => With(s, call, Retrying)
      else s
    case Fetch(call) =>
      if call in s.calls && s.calls[call].progress.Fetching? && Present(s.rows, s.calls[call].progress.id) then
        With(s, call, Returned(Get(s.rows, s.calls[call].progress.id)))
      else s
    case LookupAgain(call) =>
      if call in s.calls && s.calls[call].progress.Retrying? then
        match FindLive(s.rows, s.calls[call].key)
        case Some(row) => With(s, call, Returned(row))
        case None => With(s, call, Raised)
      else s
    case AddDraft(draftId, draftKey, created, draft) =>
      var row := Row(draftId, draftKey, Draft, created, draft);
      (match Insert(s.rows, row)
       case Some(t) => Inserted(s, t, row)
       case None => s)
    case Verdict(rowId, status) => Updated(s, rowId, status)
    case SetPolicy(policy) => s.(policy := policy)
  }

  predicate At(s: State, tick: nat, t: Tick) {
    tick in s.ticks && s.ticks[tick] == t
  }

  function Move(s: State, tick: nat, t: Tick): State {
    s.(ticks := s.ticks[tick := t])
  }

  /** The end of a tick that worked: the lane's lease is dropped, whoever holds it. */
  function Done(s: State, tick: nat): State {
    s.(ticks := s.ticks - {tick}, lease := None)
  }

  /** The mode that the policy gives the row. */
  function RowMode(s: State, id: string): Mode {
    if Present(s.rows, id) then ModeOf(s.policy, Get(s.rows, id).action) else Gated
  }

  function LaneNext(s: State, step: Step): State
    requires OfLane(step)
  {
    if step.Expire? then s.(lease := None)
    else if step.Look? then
      if step.tick in s.ticks || s.lease.Some? then s else Move(s, step.tick, Looked)
    else if step.tick !in s.ticks then s
    else TickNext(s, step, s.ticks[step.tick])
  }

  /** One statement of the tick that stands at `t`. A row that is gated cannot be cleared; a
      cleared row passed its pre-flight gates and has an executor. */
  function TickNext(s: State, step: Step, t: Tick): State
    requires OfLane(step) && !step.Expire? && !step.Look?
  {
    match step
    case Pull(tick) =>
      if !t.Looked? then s
      else
        (match Oldest(s.rows, IsWaiting())
         case Some(row) => Move(s, tick, Pulled(row.id))
         case None => s.(ticks := s.ticks - {tick}))
    case ReadLease(tick) =>
      if !t.Pulled? then s
      else if s.lease.Some? then s.(ticks := s.ticks - {tick})
      else Move(s, tick, SawNoLease(t.id))
    case ReplaceLease(tick) =>
      if !t.SawNoLease? then s else Move(s, tick, Working(t.id)).(lease := Some(tick))
    case Park(tick) =>
      if !t.Working? then s else Done(Updated(s, t.id, Parked), tick)
    case Clear(tick) =>
      if !t.Working? || RowMode(s, t.id).Gated? then s else Move(s, tick, Cleared(t.id))
    case Execute(tick, ok) =>
      if !t.Cleared? then s
      else Move(s, tick, Sending(t.id, ok)).(dispatched := s.dispatched + multiset{t.id})
    case Record(tick) =>
      if !t.Sending? then s else Done(Updated(s, t.id, if t.ok then Sent else Failed), tick)
  }

  function Next(s: State, step: Step): State {
    if OfLane(step) then LaneNext(s, step) else CallNext(s, step)
  }

  /** All states of a run, the first one included. */
  function Trace(s: State, steps: seq<Step>): (tr: seq<State>)
    ensures |tr| == |steps| + 1 && tr[0] == s
  {
    if steps == [] then [s]
    else
      var tr := Trace(s, steps[..|steps| - 1]);
      tr + [Next(tr[|steps| - 1], steps[|steps| - 1])]
  }

  function Last(tr: seq<State>): State
    requires tr != []
  {
    tr[|tr| - 1]
  }

  // ----- One live row per key -----

  lemma UpdatedKeepsIndexed(s: State, id: string, status: Status)
    requires Indexed(s.rows)
    ensures Indexed(Updated(s, id, status).rows)
  {
    if Update(s.rows, id, status).Some? {
      UpdateKeepsIndexed(s.rows, id, status);
    }
  }

  /** The status update that a lane step runs, if it runs one. */
  function LaneUpdate(s: State, step: Step): Option<(string, Status)> {
    if step.Park? && step.tick in s.ticks && s.ticks[step.tick].Working? then Some((s.ticks[step.tick].id, Parked))
    else if step.Record? && step.tick in s.ticks && s.ticks[step.tick].Sending? then
      Some((s.ticks[step.tick].id, if s.ticks[step.tick].ok then Sent else Failed))
    else None
  }

  function RowsAfter(s: State, update: Option<(string, Status)>): Table {
    if update.None? then s.rows else Updated(s, update.value.0, update.value.1).rows
  }

  /** A lane step changes rows by that update at most, and neither calls nor policy. */
  lemma LaneTouches(s: State, step: Step)
    requires OfLane(step)
    ensures Next(s, step).calls == s.calls && Next(s, step).policy == s.policy
    ensures Next(s, step).rows == RowsAfter(s, LaneUpdate(s, step))
  {
    if !step.Expire? && !step.Look? && step.tick in s.ticks {
      TickTouches(s, step, s.ticks[step.tick]);
      TickWrites(s, step, s.ticks[step.tick]);
    }
  }

  lemma TickTouches(s: State, step: Step, t: Tick)
    requires OfLane(step) && !step.Expire? && !step.Look?
    ensures TickNext(s, step, t).calls == s.calls && TickNext(s, step, t).policy == s.policy
  {
    if step.Park? && t.Working? {
      UpdatedTouches(s, t.id, Parked);
    } else if step.Record? && t.Sending? {
      UpdatedTouches(s, t.id, if t.ok then Sent else Failed);
    }
  }

  lemma UpdatedTouches(s: State, id: string, status: Status)
    ensures Updated(s, id, status).calls == s.calls && Updated(s, id, status).policy == s.policy
  {
  }

  lemma TickWrites(s: State, step: Step, t: Tick)
    requires OfLane(step) && !step.Expire? && !step.Look?
    ensures TickNext(s, step, t).rows
         == if step.Park? && t.Working? then Updated(s, t.id, Parked).rows
            else if step.Record? && t.Sending? then Updated(s, t.id, if t.ok then Sent else Failed).rows
            else s.rows
  {
  }

  lemma NextKeepsIndexed(s: State, step: Step)
    requires Indexed(s.rows)
    ensures Indexed(Next(s, step).rows)
  {
    if OfLane(step) {
      LaneTouches(s, step);
      var update := LaneUpdate(s, step);
      if update.Some? {
        UpdatedKeepsIndexed(s, update.value.0, update.value.1);
      }
    } else {
      match step {
        case InsertRow(call, newId, now) =>
          if call in s.calls && s.calls[call].progress.Inserting? {
            var row := RowOf(s.calls[call], newId, now);
            if Insert(s.rows, row).Some? {
              InsertKeepsIndexed(s.rows, row);
            }
          }
        case AddDraft(draftId, draftKey, created, draft) =>
          var row := Row(draftId, draftKey, Draft, created, draft);
          if Insert(s.rows, row).Some? {
            InsertKeepsIndexed(s.rows, row);
          }
        case Verdict(rowId, status) => UpdatedKeepsIndexed(s, rowId, status);
        case _ =>
      }
    }
  }

  /** In every interleaving, at most one live row holds any key, and row ids stay distinct. */
  lemma {:induction false} KeysStayUnique(s: State, steps: seq<Step>)
    requires Indexed(s.rows)
    ensures forall n :: 0 <= n <= |steps| ==> Indexed(Trace(s, steps)[n].rows)
  {
    if steps != [] {
      var k := |steps| - 1;
      KeysStayUnique(s, steps[..k]);
      NextKeepsIndexed(Trace(s, steps[..k])[k], steps[k]);
    }
  }

  // ----- What rows keep -----

  /** What a row keeps for ever. */
  predicate SameRow(t: Table, u: Table, id: string) {
    Present(t, id) ==> Present(u, id) && Get(u, id).key == Get(t, id).key && Get(u, id).action == Get(t, id).action
  }

  lemma SamePositions(t: Table, u: Table, id: string)
    requires |t| <= |u|
    requires forall j :: 0 <= j < |t| ==> u[j].id == t[j].id && u[j].key == t[j].key && u[j].action == t[j].action
    ensures SameRow(t, u, id)
  {
    if Present(t, id) {
      assert Position(u, id) == Position(t, id);
    }
  }

  lemma UpdatedPersists(s: State, rowId: string, status: Status, id: string)
    ensures SameRow(s.rows, Updated(s, rowId, status).rows, id)
  {
    SamePositions(s.rows, Updated(s, rowId, status).rows, id);
  }

  /** No statement removes a row, renames it, or changes its key or its action. */
  lemma RowsPersist(s: State, step: Step, id: string)
    ensures SameRow(s.rows, Next(s, step).rows, id)
  {
    if OfLane(step) {
      LaneTouches(s, step);
      var update := LaneUpdate(s, step);
      if update.Some? {
        UpdatedPersists(s, update.value.0, update.value.1, id);
      }
    } else {
      match step {
        case Verdict(rowId, status) => UpdatedPersists(s, rowId, status, id);
        case InsertRow(_, _, _) => SamePositions(s.rows, Next(s, step).rows, id);
        case AddDraft(_, _, _, _) => SamePositions(s.rows, Next(s, step).rows, id);
        case _ =>
      }
    }
  }
}
