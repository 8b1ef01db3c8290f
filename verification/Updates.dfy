/** The desktop self-update gate: manual and periodic checks share one compare-and-exchange
    flag and one status record (tauri/src-tauri/src/updates.rs). */
module Updates {
  import opened Wrappers

  datatype Phase = Idle | Checking | Downloading | Verifying | Installing | Ready | Error

  datatype Status = Status(phase: Phase, ready: Option<string>, error: Option<string>,
                           bytes: nat, total: Option<nat>)

  const MAX_BYTES := 0xFFFF_FFFF_FFFF_FFFF

  function WithPhase(s: Status, phase: Phase, ready: Option<string>, error: Option<string>): Status {
    var t := s.(phase := phase, ready := ready, error := error);
    if phase == Checking then t.(bytes := 0, total := None) else t
  }

  function WithChunk(s: Status, chunk: nat, total: Option<nat>): Status {
    s.(bytes := if s.bytes + chunk > MAX_BYTES then MAX_BYTES else s.bytes + chunk,
       total := if total.Some? && total.value > 0 then total else None)
  }

  /** The record as the program updates it under its lock. */
  class UpdateState {
    var phase: Phase
    var ready: Option<string>
    var error: Option<string>
    var bytes: nat
    var total: Option<nat>

    constructor ()
      ensures Snapshot() == Status(Idle, None, None, 0, None)
    {
      phase, ready, error, bytes, total := Idle, None, None, 0, None;
    }

    function Snapshot(): Status
      reads this
    {
      Status(phase, ready, error, bytes, total)
    }

    method Set(to: Phase, version: Option<string>, problem: Option<string>)
      modifies this
      ensures Snapshot() == WithPhase(old(Snapshot()), to, version, problem)
    {
      phase, ready, error := to, version, problem;
      if to == Checking {
        bytes, total := 0, None;
      }
    }

    method Downloaded(chunk: nat, size: Option<nat>)
      modifies this`bytes, this`total
      ensures Snapshot() == WithChunk(old(Snapshot()), chunk, size)
    {
      bytes := if bytes + chunk > MAX_BYTES then MAX_BYTES else bytes + chunk;
      total := match size case Some(n) => (if n > 0 then size else None) case None => None;
    }
  }

  /** Where one run of the check stands. All but `AtGate` are between taking and dropping the flag. */
  datatype Progress =
    | AtGate
    | Entered
    | AskingFeed
    | Fetching(version: string)
    | Fetched(version: string)
    | Leaving

  datatype Feed = Failed(reason: string) | UpToDate | Newer(version: string)

  datatype State = State(gate: bool, status: Status, checks: map<nat, Progress>)

  datatype Step =
    | Spawn(check: nat)
    | TakeGate(check: nat)
    | LookAtStatus(check: nat)
    | FeedReplied(check: nat, reply: Feed)
    | ChunkArrived(check: nat, chunk: nat, size: Option<nat>)
    | AllBytesArrived(check: nat)
    | DownloadEnded(check: nat, problem: Option<string>)
    | InstallEnded(check: nat, problem: Option<string>)
    | DropGate(check: nat)

  predicate At(s: State, check: nat, p: Progress) {
    check in s.checks && s.checks[check] == p
  }

  function Move(s: State, check: nat, p: Progress, status: Status): State {
    s.(checks := s.checks[check := p], status := status)
  }

  function Next(s: State, step: Step): State {
    var st := s.status;
    match step
    case Spawn(c) =>
      if c in s.checks then s else s.(checks := s.checks[c := AtGate])
    case TakeGate(c) =>
      if !At(s, c, AtGate) then s
      else if s.gate then s.(checks := s.checks - {c})
      else Move(s, c, Entered, st).(gate := true)
    case LookAtStatus(c) =>
      if !At(s, c, Entered) then s
      else if st.phase == Ready then Move(s, c, Leaving, st)
      else Move(s, c, AskingFeed, WithPhase(st, Checking, None, None))
    case FeedReplied(c, reply) =>
      if !At(s, c, AskingFeed) then s
      else
        (match reply
         case Failed(reason) => Move(s, c, Leaving, WithPhase(st, Error, None, Some(reason)))
         case UpToDate => Move(s, c, Leaving, WithPhase(st, Idle, None, None))
         case Newer(v) => Move(s, c, Fetching(v), WithPhase(st, Downloading, None, None)))
    case ChunkArrived(c, chunk, size) =>
      if c in s.checks && s.checks[c].Fetching? then s.(status := WithChunk(st, chunk, size)) else s
    case AllBytesArrived(c) =>
      if c in s.checks && s.checks[c].Fetching? then s.(status := WithPhase(st, Verifying, None, None)) else s
    case DownloadEnded(c, problem) =>
      if !(c in s.checks && s.checks[c].Fetching?) then s
      else if problem.Some? then Move(s, c, Leaving, WithPhase(st, Error, None, problem))
      else Move(s, c, Fetched(s.checks[c].version), WithPhase(st, Installing, None, None))
    case InstallEnded(c, problem) =>
      if !(c in s.checks && s.checks[c].Fetched?) then s
      else if problem.Some? then Move(s, c, Leaving, WithPhase(st, Error, None, problem))
      else Move(s, c, Leaving, WithPhase(st, Ready, Some(s.checks[c].version), None))
    case DropGate(c) =>
      if At(s, c, Leaving) then s.(gate := false, checks := s.checks - {c}) else s
  }

  function Trace(s: State, steps: seq<Step>): (tr: seq<State>)
    ensures |tr| == |steps| + 1 && tr[0] == s
    decreases |steps|
  {
    if steps == [] then [s] else [s] + Trace(Next(s, steps[0]), steps[1..])
  }

  predicate Inside(s: State, c: nat) {
    c in s.checks && !s.checks[c].AtGate?
  }

  /** The check has seen that no update is ready, and may write the status. */
  predicate Writing(s: State, c: nat) {
    c in s.checks && (s.checks[c].AskingFeed? || s.checks[c].Fetching? || s.checks[c].Fetched?)
  }

  ghost predicate Inv(s: State) {
    && (s.gate <==> exists c :: Inside(s, c))
    && (forall c, d :: Inside(s, c) && Inside(s, d) ==> c == d)
    && (s.status.phase == Ready <==> s.status.ready.Some?)
    && (s.status.phase == Ready ==> forall c :: !Writing(s, c))
  }

  /** One check changes its place; the others stay. */
  lemma NextIsSafe(s: State, step: Step)
    requires Inv(s)
    ensures Inv(Next(s, step))
    ensures s.status.phase == Ready ==> Next(s, step).status == s.status
  {
    var s' := Next(s, step);
    var c := step.check;
    assert forall d :: d != c ==> Inside(s', d) == Inside(s, d) && Writing(s', d) == Writing(s, d);
    assert Writing(s, c) ==> Inside(s, c);
    if Inside(s', c) {
      if Inside(s, c) {
        assert s.gate;
        assert s'.gate;
      } else {
        assert step.TakeGate?;
        assert s'.gate;
      }
    } else if Inside(s, c) {
      assert forall d :: !Inside(s', d);
    }
  }

  ghost predicate AllSafe(tr: seq<State>) {
    forall n :: 0 <= n < |tr| ==> Inv(tr[n])
  }

  /** Once a state is ready, every later state has the same status. */
  ghost predicate ReadyIsFinal(tr: seq<State>) {
    forall i, j :: 0 <= i <= j < |tr| && tr[i].status.phase == Ready ==> tr[j].status == tr[i].status
  }

  lemma SafeFront(s: State, rest: seq<State>)
    requires Inv(s) && rest != [] && AllSafe(rest) && ReadyIsFinal(rest)
    requires s.status.phase == Ready ==> rest[0].status == s.status
    ensures AllSafe([s] + rest) && ReadyIsFinal([s] + rest)
  {
    var tr := [s] + rest;
    assert forall n :: 0 < n < |tr| ==> tr[n] == rest[n - 1];
    forall i, j | 0 <= i <= j < |tr| && tr[i].status.phase == Ready ensures tr[j].status == tr[i].status {
      if i == 0 && j > 0 {
        assert rest[0].status.phase == Ready;
      }
    }
  }

  /** In every interleaving of manual and periodic checks: at most one is between taking and
      dropping the gate, a version is announced exactly in the ready phase, and once the
      ready phase is reached no later state has another status. */
  lemma {:induction false} EveryInterleavingIsSafe(s: State, steps: seq<Step>)
    requires Inv(s)
    ensures AllSafe(Trace(s, steps)) && ReadyIsFinal(Trace(s, steps))
    decreases |steps|
  {
    if steps != [] {
      NextIsSafe(s, steps[0]);
      EveryInterleavingIsSafe(Next(s, steps[0]), steps[1..]);
      SafeFront(s, Trace(Next(s, steps[0]), steps[1..]));
    }
  }

  /** What the setup leaves: no check is running, and nothing is ready. */
  const AT_START := State(false, Status(Idle, None, None, 0, None), map[])

  lemma StartIsSafe()
    ensures Inv(AT_START)
  {
    assert forall c :: !Inside(AT_START, c);
  }

  /** So every interleaving after the start is safe. */
  lemma EveryRunFromTheStartIsSafe(steps: seq<Step>)
    ensures AllSafe(Trace(AT_START, steps)) && ReadyIsFinal(Trace(AT_START, steps))
  {
    StartIsSafe();
    EveryInterleavingIsSafe(AT_START, steps);
  }

  /** The version that becomes ready is the one the feed offered to the check that holds the gate. */
  lemma ReadyComesFromTheHolder(s: State, step: Step)
    requires Inv(s) && s.status.phase != Ready && Next(s, step).status.phase == Ready
    ensures step.InstallEnded? && Inside(s, step.check)
        && s.checks[step.check] == Fetched(Next(s, step).status.ready.value)
  {
  }

  // ----- What a check leaves -----

  /** One whole check: the feed replies, a newer version is fetched and installed. */
  function WholeCheck(c: nat, reply: Feed, chunks: seq<Step>, fetching: Option<string>, installing: Option<string>)
    : seq<Step>
  {
    [Spawn(c), TakeGate(c), LookAtStatus(c), FeedReplied(c, reply)] + chunks
    + [AllBytesArrived(c), DownloadEnded(c, fetching), InstallEnded(c, installing), DropGate(c)]
  }

  predicate ChunksOf(c: nat, chunks: seq<Step>) {
    forall i :: 0 <= i < |chunks| ==> chunks[i].ChunkArrived? && chunks[i].check == c
  }

  function Run(s: State, steps: seq<Step>): State
    decreases |steps|
  {
    if steps == [] then s else Run(Next(s, steps[0]), steps[1..])
  }

  lemma {:induction false} RunConcat(s: State, a: seq<Step>, b: seq<Step>)
    ensures Run(s, a + b) == Run(Run(s, a), b)
    decreases |a|
  {
    if a == [] {
      assert a + b == b;
    } else {
      assert (a + b)[1..] == a[1..] + b;
      RunConcat(Next(s, a[0]), a[1..], b);
    }
  }

  lemma RunFour(s: State, a: Step, b: Step, c: Step, d: Step)
    ensures Run(s, [a, b, c, d]) == Next(Next(Next(Next(s, a), b), c), d)
  {
    assert [a, b, c, d][1..] == [b, c, d] && [b, c, d][1..] == [c, d] && [c, d][1..] == [d] && [d][1..] == [];
    assert Run(s, [a, b, c, d]) == Run(Next(s, a), [b, c, d]);
    assert Run(Next(s, a), [b, c, d]) == Run(Next(Next(s, a), b), [c, d]);
    assert Run(Next(Next(s, a), b), [c, d]) == Run(Next(Next(Next(s, a), b), c), [d]);
  }

  function BytesIn(chunks: seq<Step>): nat
    requires forall i :: 0 <= i < |chunks| ==> chunks[i].ChunkArrived?
  {
    if chunks == [] then 0 else chunks[0].chunk + BytesIn(chunks[1..])
  }

  /** The total that a chunk announces; one of zero says nothing. */
  function TotalAfter(before: Option<nat>, chunks: seq<Step>): Option<nat>
    requires forall i :: 0 <= i < |chunks| ==> chunks[i].ChunkArrived?
  {
    if chunks == [] then before
    else
      var size := chunks[|chunks| - 1].size;
      if size == Some(0) then None else size
  }

  /** While a version is fetched the counter adds up the chunks, up to its maximum, the total is the one that the last
      chunk announced, and nothing else changes. */
  lemma {:induction false} ChunksAddUp(s: State, c: nat, chunks: seq<Step>)
    requires ChunksOf(c, chunks) && c in s.checks && s.checks[c].Fetching? && s.status.bytes <= MAX_BYTES
    ensures var end, sum := Run(s, chunks), s.status.bytes + BytesIn(chunks);
            && end == s.(status := end.status) && end.status.bytes == (if sum > MAX_BYTES then MAX_BYTES else sum)
            && end.status == s.status.(bytes := end.status.bytes, total := TotalAfter(s.status.total, chunks))
    decreases |chunks|
  {
    if chunks != [] {
      var next := Next(s, chunks[0]);
      assert forall i :: 0 <= i < |chunks[1..]| ==> chunks[1..][i] == chunks[i + 1];
      ChunksAddUp(next, c, chunks[1..]);
    }
  }

  lemma {:induction false} ChunksElsewhere(s: State, c: nat, chunks: seq<Step>)
    requires ChunksOf(c, chunks) && (c in s.checks ==> !s.checks[c].Fetching?)
    ensures Run(s, chunks) == s
    decreases |chunks|
  {
    if chunks != [] {
      assert forall i :: 0 <= i < |chunks[1..]| ==> chunks[1..][i] == chunks[i + 1];
      ChunksElsewhere(s, c, chunks[1..]);
    }
  }

  /** The status that a check leaves which nothing interrupts: a version that is ready stays; a reply that failed, a
      download or an installation that failed is shown as that error; nothing newer leaves no trace; and the
      version that the feed offered becomes ready if both end well. */
  lemma CheckLeaves(s: State, c: nat, reply: Feed, chunks: seq<Step>, fetching: Option<string>,
                    installing: Option<string>)
    requires !s.gate && c !in s.checks && ChunksOf(c, chunks)
    ensures var end, st := Run(s, WholeCheck(c, reply, chunks, fetching, installing)), s.status;
            && !end.gate && end.checks == s.checks
            && if st.phase == Ready then end.status == st
               else match reply
                 case Failed(reason) => end.status == Status(Error, None, Some(reason), 0, None)
                 case UpToDate => end.status == Status(Idle, None, None, 0, None)
                 case Newer(v) =>
                   && (end.status.bytes == if BytesIn(chunks) > MAX_BYTES then MAX_BYTES else BytesIn(chunks))
                   && (end.status.phase, end.status.ready, end.status.error)
                      == if fetching.Some? then (Error, None, fetching)
                         else if installing.Some? then (Error, None, installing)
                         else (Ready, Some(v), None)
  {
    var before := [Spawn(c), TakeGate(c), LookAtStatus(c), FeedReplied(c, reply)];
    var after := [AllBytesArrived(c), DownloadEnded(c, fetching), InstallEnded(c, installing), DropGate(c)];
    RunConcat(s, before + chunks, after);
    RunConcat(s, before, chunks);
    RunFour(s, before[0], before[1], before[2], before[3]);
    var replied := Run(s, before);
    CheckAsks(s, c, reply);
    if replied.checks[c].Fetching? {
      ChunksAddUp(replied, c, chunks);
    } else {
      ChunksElsewhere(replied, c, chunks);
    }
    RunFour(Run(replied, chunks), after[0], after[1], after[2], after[3]);
    CheckEnds(Run(replied, chunks), c, fetching, installing);
    assert replied.checks - {c} == s.checks;
  }

  lemma CheckAsks(s: State, c: nat, reply: Feed)
    requires !s.gate && c !in s.checks
    ensures var replied := Next(Next(Next(Next(s, Spawn(c)), TakeGate(c)), LookAtStatus(c)), FeedReplied(c, reply));
            && replied.gate && c in replied.checks && replied.checks - {c} == s.checks
            && if s.status.phase == Ready then replied.checks[c] == Leaving && replied.status == s.status
               else match reply
                 case Failed(reason) =>
                   replied.checks[c] == Leaving && replied.status == Status(Error, None, Some(reason), 0, None)
                 case UpToDate => replied.checks[c] == Leaving && replied.status == Status(Idle, None, None, 0, None)
                 case Newer(v) =>
                   replied.checks[c] == Fetching(v) && replied.status == Status(Downloading, None, None, 0, None)
  {
    assert s.checks[c := AtGate] - {c} == s.checks;
    var entered := Next(Next(s, Spawn(c)), TakeGate(c));
    assert At(entered, c, Entered);
  }

  lemma CheckEnds(s: State, c: nat, fetching: Option<string>, installing: Option<string>)
    requires c in s.checks && (s.checks[c].Fetching? || s.checks[c].Leaving?)
    ensures var end := Next(Next(Next(Next(s, AllBytesArrived(c)), DownloadEnded(c, fetching)),
                                 InstallEnded(c, installing)), DropGate(c));
            && !end.gate && end.checks == s.checks - {c}
            && if s.checks[c].Leaving? then end.status == s.status
               else
                 && (end.status.bytes, end.status.total) == (s.status.bytes, s.status.total)
                 && (end.status.phase, end.status.ready, end.status.error)
                    == if fetching.Some? then (Error, None, fetching)
                       else if installing.Some? then (Error, None, installing)
                       else (Ready, Some(s.checks[c].version), None)
  {
    if s.checks[c].Fetching? {
      var ended := Next(Next(s, AllBytesArrived(c)), DownloadEnded(c, fetching));
      assert c in ended.checks && ended.checks - {c} == s.checks - {c};
    }
  }

  /** A check that finds another one inside goes away without a trace. */
  lemma SecondCheckGivesUp(s: State, c: nat)
    requires s.gate && c !in s.checks
    ensures Next(Next(s, Spawn(c)), TakeGate(c)) == s
  {
    assert s.checks[c := AtGate] - {c} == s.checks;
  }
}
