/** What the outward lane can be made to do: dispatching too often, what the policy gate stops, and
    what a founder's verdict stops (kompany/src/kompany/core/outward_lane.py,
    kompany/src/kompany/channels/outbox.py). */
module OutwardRuns {
  import opened Wrappers
  import opened OutwardPolicy
  import opened Outbox
  import opened OutboxProtocol
  import opened EnqueueCalls
  import opened OutboxRuns
  import opened OutwardLane

  // ----- Stretches of a run -----

  /** The lane itself is never held back. */
  ghost predicate LaneFree(allowed: Step -> bool) {
    forall step :: OfLane(step) && !step.Expire? ==> allowed(step)
  }

  lemma NextLook(s: State, t: nat)
    requires t !in s.ticks && s.lease.None?
    ensures Next(s, Look(t)) == Move(s, t, Looked)
  {
  }

  lemma NextPull(s: State, t: nat, row: Row)
    requires At(s, t, Looked) && Oldest(s.rows, IsWaiting()) == Some(row)
    ensures Next(s, Pull(t)) == Move(s, t, Pulled(row.id))
  {
  }

  lemma NextRead(s: State, t: nat, id: string)
    requires At(s, t, Pulled(id)) && s.lease.None?
    ensures Next(s, ReadLease(t)) == Move(s, t, SawNoLease(id))
  {
  }

  lemma NextReplace(s: State, t: nat, id: string)
    requires At(s, t, SawNoLease(id))
    ensures Next(s, ReplaceLease(t)) == Move(s, t, Working(id)).(lease := Some(t))
  {
  }

  lemma NextPark(s: State, t: nat, id: string)
    requires At(s, t, Working(id))
    ensures Next(s, Park(t)) == Done(Updated(s, id, Parked), t)
  {
  }

  lemma NextClear(s: State, t: nat, id: string)
    requires At(s, t, Working(id)) && RowMode(s, id) == Auto
    ensures Next(s, Clear(t)) == Move(s, t, Cleared(id))
  {
  }

  lemma NextExecute(s: State, t: nat, id: string)
    requires At(s, t, Cleared(id))
    ensures Next(s, Execute(t, true)) == Dispatched(s, t, id)
  {
  }

  lemma NextVerdict(s: State, id: string, status: Status)
    ensures Next(s, Verdict(id, status)) == Updated(s, id, status)
  {
  }

  /** A second move of a tick hides the first. */
  lemma MoveTwice(s: State, t: nat, a: Tick, b: Tick)
    ensures Move(Move(s, t, a), t, b) == Move(s, t, b)
  {
    assert s.ticks[t := a][t := b] == s.ticks[t := b];
  }

  lemma Reads(s: State, mid: State, t: nat, id: string, allowed: Step -> bool)
    requires LaneFree(allowed) && Reaches(s, mid, allowed) && At(mid, t, Pulled(id)) && mid.lease.None?
    ensures Reaches(s, Move(mid, t, SawNoLease(id)), allowed)
  {
    NextRead(mid, t, id);
    ReachesNext(s, mid, ReadLease(t), allowed);
  }

  lemma Replaces(s: State, mid: State, t: nat, id: string, allowed: Step -> bool)
    requires LaneFree(allowed) && Reaches(s, mid, allowed) && At(mid, t, SawNoLease(id))
    ensures Reaches(s, Move(mid, t, Working(id)).(lease := Some(t)), allowed)
  {
    NextReplace(mid, t, id);
    ReachesNext(s, mid, ReplaceLease(t), allowed);
  }

  /** A tick that holds a row, and finds no lease, takes it. */
  lemma TakeLease(s: State, mid: State, t: nat, id: string, allowed: Step -> bool)
    requires LaneFree(allowed) && Reaches(s, mid, allowed) && At(mid, t, Pulled(id)) && mid.lease.None?
    ensures Reaches(s, Move(mid, t, Working(id)).(lease := Some(t)), allowed)
  {
    Reads(s, mid, t, id, allowed);
    Replaces(s, Move(mid, t, SawNoLease(id)), t, id, allowed);
    MoveTwice(mid, t, SawNoLease(id), Working(id));
  }

  /** A new tick pulls the row that is next in line. */
  lemma PullNext(s: State, mid: State, t: nat, row: Row, allowed: Step -> bool)
    requires LaneFree(allowed) && Reaches(s, mid, allowed) && t !in mid.ticks && mid.lease.None?
    requires Oldest(mid.rows, IsWaiting()) == Some(row)
    ensures Reaches(s, Move(mid, t, Pulled(row.id)), allowed)
  {
    NextLook(mid, t);
    ReachesNext(s, mid, Look(t), allowed);
    NextPull(Move(mid, t, Looked), t, row);
    ReachesNext(s, Move(mid, t, Looked), Pull(t), allowed);
    MoveTwice(mid, t, Looked, Pulled(row.id));
  }

  function Dispatched(s: State, t: nat, id: string): State {
    Move(s, t, Sending(id, true)).(dispatched := s.dispatched + multiset{id})
  }

  /** A tick at work on an auto row dispatches it. */
  lemma Dispatch(s: State, mid: State, t: nat, id: string, allowed: Step -> bool)
    requires LaneFree(allowed) && Reaches(s, mid, allowed)
    requires At(mid, t, Cleared(id)) || (At(mid, t, Working(id)) && RowMode(mid, id) == Auto)
    ensures Reaches(s, Dispatched(mid, t, id), allowed)
  {
    if At(mid, t, Cleared(id)) {
      NextExecute(mid, t, id);
      ReachesNext(s, mid, Execute(t, true), allowed);
    } else {
      NextClear(mid, t, id);
      ReachesNext(s, mid, Clear(t), allowed);
      NextExecute(Move(mid, t, Cleared(id)), t, id);
      ReachesNext(s, Move(mid, t, Cleared(id)), Execute(t, true), allowed);
      MoveTwice(mid, t, Cleared(id), Sending(id, true));
    }
  }

  // ----- An unguarded lease dispatches too often -----

  /** All ticks at work on a row can dispatch it, each once. */
  lemma {:induction false} AllBusyDispatch(s: State, mid: State, id: string, allowed: Step -> bool) returns (end: State)
    requires LaneFree(allowed) && Reaches(s, mid, allowed) && RowMode(mid, id) == Auto
    ensures Reaches(s, end, allowed)
    ensures end.dispatched[id] == mid.dispatched[id] + |Busy(mid.ticks, id)| && end.entered == mid.entered
    decreases |Busy(mid.ticks, id)|
  {
    if Busy(mid.ticks, id) == {} {
      end := mid;
    } else {
      var t :| t in Busy(mid.ticks, id);
      Dispatch(s, mid, t, id, allowed);
      BusyAfterMove(mid.ticks, t, Sending(id, true), id);
      end := AllBusyDispatch(s, Dispatched(mid, t, id), id, allowed);
    }
  }

  predicate NoExpiry(step: Step) {
    !step.Expire?
  }

  /** Every unguarded replacement of the lease for an auto row can be followed by more dispatches of
      the row than it had entries, without any further help. */
  lemma UnguardedReplaceDispatchesTooOften(s: State, t: nat)
    requires t in s.ticks && s.ticks[t].SawNoLease? && !Guarded(s, ReplaceLease(t))
    requires RowMode(s, s.ticks[t].id) == Auto
    ensures exists end :: Reaches(s, end, NoExpiry) && end.dispatched[s.ticks[t].id] > end.entered[s.ticks[t].id]
  {
    var id := s.ticks[t].id;
    ReachesItself(s, NoExpiry);
    ReachesNext(s, s, ReplaceLease(t), NoExpiry);
    BusyAfterMove(s.ticks, t, Working(id), id);
    assert t !in Busy(s.ticks, id);
    assert |Busy(s.ticks, id) + {t}| == |Busy(s.ticks, id)| + 1;
    var end := AllBusyDispatch(s, Next(s, ReplaceLease(t)), id, NoExpiry);
  }

  // ----- The policy gate -----

  ghost predicate NobodyCleared(s: State, id: string) {
    forall t :: t in s.ticks ==> s.ticks[t] != Cleared(id)
  }

  lemma GatedStep(s: State, step: Step, id: string)
    requires NobodyCleared(s, id) && RowMode(s, id) == Gated
    ensures NobodyCleared(Next(s, step), id) && Next(s, step).dispatched[id] == s.dispatched[id]
  {
    if !OfLane(step) {
      CallEffect(s, step, id);
    }
  }

  /** In every run in which the policy gates a row throughout, the row is never dispatched, however
      often it is approved, parked and queued again. */
  lemma {:induction false} GatedRowIsNeverDispatched(s: State, steps: seq<Step>, id: string)
    requires NobodyCleared(s, id)
    requires forall n :: 0 <= n < |steps| ==> RowMode(Trace(s, steps)[n], id) == Gated
    ensures Last(Trace(s, steps)).dispatched[id] == s.dispatched[id] && NobodyCleared(Last(Trace(s, steps)), id)
  {
    if steps != [] {
      var k := |steps| - 1;
      assert forall n :: 0 <= n <= k ==> Trace(s, steps)[n] == Trace(s, steps[..k])[n];
      GatedRowIsNeverDispatched(s, steps[..k], id);
      GatedStep(Trace(s, steps)[k], steps[k], id);
    }
  }

  lemma {:induction false} RowsPersistInRuns(s: State, steps: seq<Step>, id: string)
    ensures forall n :: 0 <= n <= |steps| ==> SameRow(s.rows, Trace(s, steps)[n].rows, id)
  {
    if steps != [] {
      var k := |steps| - 1;
      RowsPersistInRuns(s, steps[..k], id);
      RowsPersist(Trace(s, steps[..k])[k], steps[k], id);
    }
  }

  /** The founder has not set the class of the row to auto, or caps automatic actions below its cost. */
  predicate Barred(p: Policy, a: Action) {
    a.kind !in p.auto || p.cap < a.cost
  }

  /** A row is never dispatched in a run in which every policy lacks its class or has a cap below its cost. */
  lemma BarredRowIsNeverDispatched(s: State, steps: seq<Step>, id: string)
    requires Present(s.rows, id) && NobodyCleared(s, id)
    requires forall n :: 0 <= n < |steps| ==> Barred(Trace(s, steps)[n].policy, Get(s.rows, id).action)
    ensures Last(Trace(s, steps)).dispatched[id] == s.dispatched[id]
  {
    RowsPersistInRuns(s, steps, id);
    forall n | 0 <= n < |steps| ensures RowMode(Trace(s, steps)[n], id) == Gated {
      assert SameRow(s.rows, Trace(s, steps)[n].rows, id);
      assert Barred(Trace(s, steps)[n].policy, Get(s.rows, id).action);
    }
    GatedRowIsNeverDispatched(s, steps, id);
  }

  /** A floored row is never dispatched in any run, whatever policies the founder sets in it. */
  lemma FlooredRowIsNeverDispatched(s: State, steps: seq<Step>, id: string)
    requires Present(s.rows, id) && Floored(Get(s.rows, id).action) && NobodyCleared(s, id)
    ensures Last(Trace(s, steps)).dispatched[id] == s.dispatched[id]
  {
    RowsPersistInRuns(s, steps, id);
    forall n | 0 <= n < |steps| ensures RowMode(Trace(s, steps)[n], id) == Gated {
      assert SameRow(s.rows, Trace(s, steps)[n].rows, id);
    }
    GatedRowIsNeverDispatched(s, steps, id);
  }

  predicate KeepsPolicy(step: Step) {
    !step.SetPolicy?
  }

  lemma {:induction false} PolicyIsKept(s: State, steps: seq<Step>)
    requires AllAllowed(steps, KeepsPolicy)
    ensures forall n :: 0 <= n <= |steps| ==> Trace(s, steps)[n].policy == s.policy
  {
    if steps != [] {
      var k := |steps| - 1;
      PolicyIsKept(s, steps[..k]);
      if OfLane(steps[k]) {
        LaneTouches(Trace(s, steps[..k])[k], steps[k]);
      }
    }
  }

  /** The row is next in line, and a tick and the lease are free for it. */
  predicate NextInLine(s: State, row: Row, t: nat) {
    Oldest(s.rows, IsWaiting()) == Some(row) && t !in s.ticks && s.lease.None?
  }

  lemma NextInLineDispatches(s: State, mid: State, row: Row, t: nat, allowed: Step -> bool)
    requires LaneFree(allowed) && Reaches(s, mid, allowed) && NextInLine(mid, row, t) && RowMode(mid, row.id) == Auto
    ensures exists end :: Reaches(s, end, allowed) && end.dispatched[row.id] == mid.dispatched[row.id] + 1
  {
    PullNext(s, mid, t, row, allowed);
    TakeLease(s, Move(mid, t, Pulled(row.id)), t, row.id, allowed);
    var taken := Move(Move(mid, t, Pulled(row.id)), t, Working(row.id)).(lease := Some(t));
    Dispatch(s, taken, t, row.id, allowed);
    assert Dispatched(taken, t, row.id).dispatched[row.id] == mid.dispatched[row.id] + 1;
  }

  /** While the policy stays as it is, a row that is next in line can be dispatched exactly if the
      policy makes it auto: its class is set to auto, no floor applies, and its cost is within the
      cap. No verdict of the founder is among the conditions. */
  lemma DispatchableIffAuto(s: State, row: Row, t: nat)
    requires Indexed(s.rows) && NextInLine(s, row, t) && NobodyCleared(s, row.id)
    ensures (exists end :: Reaches(s, end, KeepsPolicy) && end.dispatched[row.id] > s.dispatched[row.id])
       <==> && row.action.kind in s.policy.auto && row.action.cost <= s.policy.cap
            && row.action.kind != FOUNDER_IDENTITY && !row.action.spends
  {
    OneRowPerId(s.rows, row);
    if ModeOf(s.policy, row.action) == Auto {
      ReachesItself(s, KeepsPolicy);
      NextInLineDispatches(s, s, row, t, KeepsPolicy);
    } else if end :| Reaches(s, end, KeepsPolicy) && end.dispatched[row.id] > s.dispatched[row.id] {
      var steps :| AllAllowed(steps, KeepsPolicy) && Last(Trace(s, steps)) == end;
      PolicyIsKept(s, steps);
      RowsPersistInRuns(s, steps, row.id);
      forall n | 0 <= n < |steps| ensures RowMode(Trace(s, steps)[n], row.id) == Gated {
        assert SameRow(s.rows, Trace(s, steps)[n].rows, row.id);
      }
      GatedRowIsNeverDispatched(s, steps, row.id);
      assert false;
    }
  }

  /** The founder may set a policy that lets the row pass. */
  lemma OpenPolicyDispatches(s: State, row: Row, t: nat)
    requires Indexed(s.rows) && NextInLine(s, row, t) && !Floored(row.action)
    ensures exists end :: Reaches(s, end, AnyStep) && end.dispatched[row.id] > s.dispatched[row.id]
  {
    var policy := Policy({row.action.kind}, row.action.cost);
    OneRowPerId(s.rows, row);
    ReachesItself(s, AnyStep);
    NextPolicy(s, policy);
    ReachesNext(s, s, SetPolicy(policy), AnyStep);
    NextInLineDispatches(s, s.(policy := policy), row, t, AnyStep);
  }

  lemma NextPolicy(s: State, policy: Policy)
    ensures Next(s, SetPolicy(policy)) == s.(policy := policy)
  {
  }

  /** With policies that may change, it can be dispatched exactly if no floor applies. */
  lemma EverDispatchableIffNotFloored(s: State, row: Row, t: nat)
    requires Indexed(s.rows) && NextInLine(s, row, t) && NobodyCleared(s, row.id)
    ensures (exists end :: Reaches(s, end, AnyStep) && end.dispatched[row.id] > s.dispatched[row.id])
       <==> !Floored(row.action)
  {
    OneRowPerId(s.rows, row);
    if !Floored(row.action) {
      OpenPolicyDispatches(s, row, t);
    } else if end :| Reaches(s, end, AnyStep) && end.dispatched[row.id] > s.dispatched[row.id] {
      var steps :| AllAllowed(steps, AnyStep) && Last(Trace(s, steps)) == end;
      FlooredRowIsNeverDispatched(s, steps, row.id);
      assert false;
    }
  }

  // ----- Approved, parked, approved -----

  function LaneOrApproval(id: string): Step -> bool {
    (step: Step) => (OfLane(step) && !step.Expire?) || step == Verdict(id, Queued)
  }

  /** Parking a queued row and queueing it again gives the same table. */
  lemma ParkThenQueue(t: Table, row: Row)
    requires Indexed(t) && row in t && row.status == Queued
    ensures Update(t, row.id, Parked).Some?
    ensures Update(Update(t, row.id, Parked).value, row.id, Queued) == Some(t)
    ensures var parked := Update(t, row.id, Parked).value; Present(parked, row.id) && !WaitingRow(parked, row.id)
  {
    OneRowPerId(t, row);
    UpdateRefusedIff(t, row.id, Parked);
    UpdateKeepsIndexed(t, row.id, Parked);
    var parked := Update(t, row.id, Parked).value;
    UpdateMovesOne(t, row.id, Parked, row.id);
    var k := Position(t, row.id);
    assert parked == t[k := row.(status := Parked)];
    SamePositions(t, parked, row.id);
    assert forall j :: 0 <= j < |t| ==> parked[j].id == t[j].id;
    assert Position(parked, row.id) == k;
    UpdateRefusedIff(parked, row.id, Queued);
    assert parked[k := row] == t;
  }

  function Reentered(s: State, id: string, n: nat): State {
    s.(entered := s.entered[id := s.entered[id] + n])
  }

  lemma ParkedAndQueued(s: State, t: nat, row: Row)
    requires Indexed(s.rows) && row in s.rows && row.status == Queued && t !in s.ticks && s.lease.None?
    ensures var taken := Move(s, t, Working(row.id)).(lease := Some(t));
            Next(Next(taken, Park(t)), Verdict(row.id, Queued)) == Reentered(s, row.id, 1)
  {
    ParkThenQueue(s.rows, row);
    var taken := Move(s, t, Working(row.id)).(lease := Some(t));
    ParkedNow(s, t, row);
    QueuedNow(s, row);
    NextPark(taken, t, row.id);
    NextVerdict(s.(rows := Update(s.rows, row.id, Parked).value), row.id, Queued);
  }

  lemma ParkedNow(s: State, t: nat, row: Row)
    requires Update(s.rows, row.id, Parked).Some? && t !in s.ticks && s.lease.None?
    ensures var taken := Move(s, t, Working(row.id)).(lease := Some(t));
            Done(Updated(taken, row.id, Parked), t) == s.(rows := Update(s.rows, row.id, Parked).value)
  {
    assert s.ticks[t := Working(row.id)] - {t} == s.ticks;
  }

  lemma QueuedNow(s: State, row: Row)
    requires Indexed(s.rows) && row in s.rows && row.status == Queued
    requires Update(s.rows, row.id, Parked).Some?
    ensures Updated(s.(rows := Update(s.rows, row.id, Parked).value), row.id, Queued) == Reentered(s, row.id, 1)
  {
    ParkThenQueue(s.rows, row);
    assert s.entered + multiset{row.id} == s.entered[row.id := s.entered[row.id] + 1];
  }

  lemma ApprovedOnce(s: State, mid: State, row: Row, t: nat)
    requires Indexed(mid.rows) && NextInLine(mid, row, t) && row.status == Queued
    requires Reaches(s, mid, LaneOrApproval(row.id))
    ensures Reaches(s, Reentered(mid, row.id, 1), LaneOrApproval(row.id))
  {
    var allowed := LaneOrApproval(row.id);
    PullNext(s, mid, t, row, allowed);
    TakeLease(s, Move(mid, t, Pulled(row.id)), t, row.id, allowed);
    MoveTwice(mid, t, Pulled(row.id), Working(row.id));
    var taken := Move(mid, t, Working(row.id)).(lease := Some(t));
    ReachesNext(s, taken, Park(t), allowed);
    ReachesNext(s, Next(taken, Park(t)), Verdict(row.id, Queued), allowed);
    ParkedAndQueued(mid, t, row);
  }

  lemma ReenteredTwice(s: State, id: string, n: nat)
    ensures Reentered(s, id, 0) == s && Reentered(Reentered(s, id, n), id, 1) == Reentered(s, id, n + 1)
  {
    assert s.entered[id := s.entered[id]] == s.entered;
    assert s.entered[id := s.entered[id] + n][id := s.entered[id] + n + 1] == s.entered[id := s.entered[id] + n + 1];
  }

  /** A queued row that is next in line can be parked and approved any number of times, each time
      coming back to exactly where it was, undispatched. For a gated row nothing else can happen. */
  lemma {:induction false} ApprovedAgainAndAgain(s: State, row: Row, t: nat, n: nat)
    requires Indexed(s.rows) && NextInLine(s, row, t) && row.status == Queued
    ensures Reaches(s, Reentered(s, row.id, n), LaneOrApproval(row.id))
  {
    if n == 0 {
      ReachesItself(s, LaneOrApproval(row.id));
      ReenteredTwice(s, row.id, 0);
    } else {
      ApprovedAgainAndAgain(s, row, t, n - 1);
      ApprovedOnce(s, Reentered(s, row.id, n - 1), row, t);
      ReenteredTwice(s, row.id, n - 1);
    }
  }

  // ----- Approvals of rows that are not parked -----

  /** The founder approves a row that was stopped. */
  predicate ApprovesParked(s: State, step: Step, id: string) {
    step == Verdict(id, Queued) && Present(s.rows, id) && Get(s.rows, id).status == Parked
  }

  /** The founder approves a row that is resolved already, and whose key is free. */
  predicate ApprovesResolved(s: State, step: Step, id: string) {
    && step == Verdict(id, Queued) && Present(s.rows, id)
    && !Live(Get(s.rows, id).status) && FindLive(s.rows, Get(s.rows, id).key).None?
  }

  /** A row comes back to the queue when it is approved, parked or not, unless it waits already or is
      resolved and another live row holds its key. */
  lemma ApprovalEntersIff(s: State, id: string)
    requires Indexed(s.rows) && Present(s.rows, id)
    ensures Next(s, Verdict(id, Queued)).entered[id] == s.entered[id] + 1
       <==> ApprovesParked(s, Verdict(id, Queued), id) || ApprovesResolved(s, Verdict(id, Queued), id)
    ensures Next(s, Verdict(id, Queued)).entered[id] <= s.entered[id] + 1
  {
    UpdateRefusedIff(s.rows, id, Queued);
  }

  /** A row is queued again by approvals only. */
  function ByApproval(id: string): Step -> bool {
    (step: Step) => step.Verdict? && step.rowId == id && Waiting(step.status) ==> step.status == Queued
  }

  lemma OthersEnterNothing(s: State, step: Step, id: string)
    requires Indexed(s.rows) && Present(s.rows, id) && ByApproval(id)(step) && step != Verdict(id, Queued)
    ensures Next(s, step).entered[id] == s.entered[id]
  {
    if !OfLane(step) {
      CallEffect(s, step, id);
      CallQueuesNothing(s, step, id);
    } else if LaneUpdate(s, step).Some? {
      var (rowId, status) := LaneUpdate(s, step).value;
      UpdatedEffect(s, rowId, status, id);
      ResolvedIsNotWaiting(s, rowId, status);
      if rowId != id {
        OtherStays(s, rowId, status, id);
      }
    }
  }

  lemma CallQueuesNothing(s: State, step: Step, id: string)
    requires Present(s.rows, id) && !OfLane(step) && ByApproval(id)(step) && step != Verdict(id, Queued)
    ensures WaitingRow(Next(s, step).rows, id) ==> WaitingRow(s.rows, id)
  {
    match step {
      case InsertRow(call, newId, now) =>
        if call in s.calls && s.calls[call].progress.Inserting? {
          var row := RowOf(s.calls[call], newId, now);
          if Insert(s.rows, row).Some? {
            InsertMovesOne(s.rows, row, id);
          }
        }
      case AddDraft(draftId, draftKey, created, draft) =>
        var row := Row(draftId, draftKey, Draft, created, draft);
        if Insert(s.rows, row).Some? {
          InsertMovesOne(s.rows, row, id);
        }
      case Verdict(rowId, status) =>
        if Update(s.rows, rowId, status).Some? {
          UpdateMovesOne(s.rows, rowId, status, id);
        }
      case _ =>
    }
  }

  /** How many steps of a run find what `p` asks for. */
  ghost function Count(s: State, steps: seq<Step>, id: string, p: (State, Step, string) -> bool): nat {
    if steps == [] then 0
    else
      var k := |steps| - 1;
      Count(s, steps[..k], id, p) + if p(Last(Trace(s, steps[..k])), steps[k], id) then 1 else 0
  }

  /** In every interleaving a row enters the queue once for every approval that found it parked, and once
      for every approval that found it resolved with its key free. So it enters more often than the
      founder decided on a parked row exactly if an approval found it resolved. */
  lemma {:induction false} EntriesAreApprovals(s: State, steps: seq<Step>, id: string)
    requires Indexed(s.rows) && Present(s.rows, id) && AllAllowed(steps, ByApproval(id))
    ensures Last(Trace(s, steps)).entered[id]
         == s.entered[id] + Count(s, steps, id, ApprovesParked) + Count(s, steps, id, ApprovesResolved)
  {
    if steps != [] {
      var k := |steps| - 1;
      var before := Last(Trace(s, steps[..k]));
      EntriesAreApprovals(s, steps[..k], id);
      KeysStayUnique(s, steps[..k]);
      RowsPersistInRuns(s, steps[..k], id);
      assert SameRow(s.rows, before.rows, id);
      if steps[k] == Verdict(id, Queued) {
        ApprovalEntersIff(before, id);
        CallEffect(before, steps[k], id);
      } else {
        OthersEnterNothing(before, steps[k], id);
      }
    }
  }

  /** A row that two ticks parked has two cards. When it was sent after the first approval, the second
      approval sends it again. */
  lemma SecondCardSendsAgain(s: State, row: Row, t: nat)
    requires s.rows == [row] && row.status == Sent && t !in s.ticks && s.lease.None?
    requires ModeOf(s.policy, row.action) == Auto
    ensures exists end :: Reaches(s, end, LaneOrApproval(row.id))
                          && end.dispatched[row.id] == s.dispatched[row.id] + 1
  {
    var queued := row.(status := Queued);
    assert !HoldsKey(row.key)(row) && [row][1..] == [];
    UpdateRefusedIff(s.rows, row.id, Queued);
    var approved := Next(s, Verdict(row.id, Queued));
    assert approved.rows == [queued];
    assert IsWaiting()(queued) && [queued][1..] == [];
    ReachesItself(s, LaneOrApproval(row.id));
    ReachesNext(s, s, Verdict(row.id, Queued), LaneOrApproval(row.id));
    NextInLineDispatches(s, approved, queued, t, LaneOrApproval(row.id));
  }

  // ----- What a discard stops -----

  /** Some tick holds the row and has not dispatched it yet. */
  predicate Held(s: State, id: string) {
    exists t | t in s.ticks :: s.ticks[t] in {Pulled(id), SawNoLease(id), Working(id), Cleared(id)}
  }

  /** No verdict puts the row back into the queue. */
  function NoRevival(id: string): Step -> bool {
    (step: Step) => !(step.Verdict? && step.rowId == id && Waiting(step.status))
  }

  ghost predicate Settled(s: State, id: string) {
    Indexed(s.rows) && Present(s.rows, id) && !WaitingRow(s.rows, id) && !Held(s, id)
  }

  lemma CallKeepsSettled(s: State, step: Step, id: string)
    requires Settled(s, id) && !OfLane(step) && NoRevival(id)(step)
    ensures !WaitingRow(Next(s, step).rows, id)
  {
    match step {
      case InsertRow(call, newId, now) =>
        if call in s.calls && s.calls[call].progress.Inserting? {
          var row := RowOf(s.calls[call], newId, now);
          if Insert(s.rows, row).Some? {
            InsertMovesOne(s.rows, row, id);
          }
        }
      case AddDraft(draftId, draftKey, created, draft) =>
        var row := Row(draftId, draftKey, Draft, created, draft);
        if Insert(s.rows, row).Some? {
          InsertMovesOne(s.rows, row, id);
        }
      case Verdict(rowId, status) =>
        if Update(s.rows, rowId, status).Some? {
          UpdateMovesOne(s.rows, rowId, status, id);
        }
      case _ =>
    }
  }

  lemma LaneKeepsUnheld(s: State, step: Step, id: string)
    requires Settled(s, id) && OfLane(step)
    ensures !Held(Next(s, step), id) && Next(s, step).dispatched[id] == s.dispatched[id]
  {
    if step.Pull? && step.tick in s.ticks && Oldest(s.rows, IsWaiting()).Some? {
      var row := Oldest(s.rows, IsWaiting()).value;
      OneRowPerId(s.rows, row);
      assert IsWaiting()(row);
    }
    var s' := Next(s, step);
    forall t | t in s'.ticks ensures s'.ticks[t] !in {Pulled(id), SawNoLease(id), Working(id), Cleared(id)} {
      assert t in s.ticks ==> s.ticks[t] !in {Pulled(id), SawNoLease(id), Working(id), Cleared(id)};
    }
  }

  lemma StepKeepsSettled(s: State, step: Step, id: string)
    requires Settled(s, id) && NoRevival(id)(step)
    ensures Settled(Next(s, step), id) && Next(s, step).dispatched[id] == s.dispatched[id]
  {
    NextKeepsIndexed(s, step);
    RowsPersist(s, step, id);
    if OfLane(step) {
      LaneKeepsUnheld(s, step, id);
      LaneTouches(s, step);
      var update := LaneUpdate(s, step);
      if update.Some? && Update(s.rows, update.value.0, update.value.1).Some? {
        UpdateMovesOne(s.rows, update.value.0, update.value.1, id);
      }
    } else {
      CallEffect(s, step, id);
      CallKeepsSettled(s, step, id);
    }
  }

  lemma {:induction false} RunKeepsSettled(s: State, steps: seq<Step>, id: string)
    requires Settled(s, id) && AllAllowed(steps, NoRevival(id))
    ensures Settled(Last(Trace(s, steps)), id) && Last(Trace(s, steps)).dispatched[id] == s.dispatched[id]
  {
    if steps != [] {
      var k := |steps| - 1;
      assert AllAllowed(steps[..k], NoRevival(id));
      RunKeepsSettled(s, steps[..k], id);
      StepKeepsSettled(Last(Trace(s, steps[..k])), steps[k], id);
    }
  }

  lemma HolderDispatches(s: State, t: nat, id: string)
    requires t in s.ticks && s.ticks[t] in {Pulled(id), SawNoLease(id), Working(id), Cleared(id)}
    requires RowMode(s, id) == Auto
    ensures exists end :: Reaches(s, end, NoRevival(id)) && end.dispatched[id] == s.dispatched[id] + 1
  {
    var allowed := NoRevival(id);
    ReachesItself(s, allowed);
    var end := Dispatched(s, t, id);
    if s.ticks[t] == Pulled(id) {
      ReachesNext(s, s, Expire, allowed);
      TakeLease(s, s.(lease := None), t, id, allowed);
      end := Dispatched(Move(s, t, Working(id)).(lease := Some(t)), t, id);
      Dispatch(s, Move(s, t, Working(id)).(lease := Some(t)), t, id, allowed);
    } else if s.ticks[t] == SawNoLease(id) {
      NextReplace(s, t, id);
      ReachesNext(s, s, ReplaceLease(t), allowed);
      end := Dispatched(Move(s, t, Working(id)).(lease := Some(t)), t, id);
      Dispatch(s, Move(s, t, Working(id)).(lease := Some(t)), t, id, allowed);
    } else {
      Dispatch(s, s, t, id, allowed);
    }
    assert end.dispatched[id] == s.dispatched[id] + 1;
  }

  /** A row that the founder discarded, or any other that no longer waits, can still be dispatched
      without being queued again exactly if a tick holds it already. */
  lemma DiscardedIsDispatchedIffHeld(s: State, id: string)
    requires Indexed(s.rows) && Present(s.rows, id) && !WaitingRow(s.rows, id) && RowMode(s, id) == Auto
    ensures (exists end :: Reaches(s, end, NoRevival(id)) && end.dispatched[id] > s.dispatched[id]) <==> Held(s, id)
  {
    if Held(s, id) {
      var t :| t in s.ticks && s.ticks[t] in {Pulled(id), SawNoLease(id), Working(id), Cleared(id)};
      HolderDispatches(s, t, id);
    } else if end :| Reaches(s, end, NoRevival(id)) && end.dispatched[id] > s.dispatched[id] {
      var steps :| AllAllowed(steps, NoRevival(id)) && Last(Trace(s, steps)) == end;
      RunKeepsSettled(s, steps, id);
      assert false;
    }
  }

  lemma StatusAfter(t: Table, id: string, status: Status)
    requires Indexed(t) && Present(t, id) && !Live(status)
    ensures Update(t, id, status).Some?
    ensures var u := Update(t, id, status).value;
            Indexed(u) && Present(u, id) && Get(u, id).status == status
  {
    UpdateRefusedIff(t, id, status);
    UpdateKeepsIndexed(t, id, status);
    var u := Update(t, id, status).value;
    assert forall j :: 0 <= j < |t| ==> u[j].id == t[j].id;
    assert Position(u, id) == Position(t, id);
  }

  /** A discard while a tick is sending the row is overwritten when the tick stores its status. */
  lemma DiscardIsOverwritten(s: State, t: nat, id: string, ok: bool)
    requires Indexed(s.rows) && Present(s.rows, id) && At(s, t, Sending(id, ok))
    ensures var end := Next(Next(s, Verdict(id, Discarded)), Record(t));
            Present(end.rows, id) && Get(end.rows, id).status == if ok then Sent else Failed
  {
    StatusAfter(s.rows, id, Discarded);
    StatusAfter(Next(s, Verdict(id, Discarded)).rows, id, if ok then Sent else Failed);
  }

  // ----- The loser of a race for a key -----

  /** The loser is about to look again, and the winner's row is sent. */
  predicate LoserIsLate(s: State) {
    && 1 in s.calls && s.calls[1].progress.Retrying? && s.calls[1].key == "k"
    && s.rows == [QUEUED_ROW.(status := Sent)]
  }

  lemma WinnerIsSent()
    ensures exists end :: Reaches(START, end, AnyStep) && LoserIsLate(end)
  {
    RaceToTheRefusal();
    assert IsWaiting()(QUEUED_ROW) && REFUSED.rows[1..] == [];
    PullNext(START, REFUSED, 0, QUEUED_ROW, AnyStep);
    TakeLease(START, Move(REFUSED, 0, Pulled("a")), 0, "a", AnyStep);
    var taken := Move(Move(REFUSED, 0, Pulled("a")), 0, Working("a")).(lease := Some(0));
    assert Get(taken.rows, "a") == QUEUED_ROW;
    Dispatch(START, taken, 0, "a", AnyStep);
    var sending := Dispatched(taken, 0, "a");
    ReachesNext(START, sending, Record(0), AnyStep);
    WinnerIsRecorded(sending);
    assert LoserIsLate(Next(sending, Record(0)));
  }

  lemma WinnerIsRecorded(s: State)
    requires s.rows == [QUEUED_ROW] && At(s, 0, Sending("a", true))
    ensures Next(s, Record(0)).rows == [QUEUED_ROW.(status := Sent)] && Next(s, Record(0)).calls == s.calls
  {
    assert Position(s.rows, "a") == 0;
  }

  /** The winner of the race is sent before the loser looks again, so the loser raises although the
      row that made its insert fail was live. */
  lemma LoserOfTheRaceCanRaise()
    ensures exists end :: Reaches(START, end, AnyStep) && 1 in end.calls && end.calls[1].progress.Raised?
  {
    WinnerIsSent();
    var end :| Reaches(START, end, AnyStep) && LoserIsLate(end);
    ReachesNext(START, end, LookupAgain(1), AnyStep);
    RaisesIff(end, 1);
  }
}
