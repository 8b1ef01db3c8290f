/** One task going round between the team, the review and the founder
    (kompany/src/kompany/core/csuite_rework.py, kompany/src/kompany/core/harness_execution/retry.py,
    kompany/src/kompany/core/harness_execution/executor.py). */
module ReviewLoop {
  import opened Wrappers
  import opened Review

  datatype Phase = Waiting | Finished | Blocked | Carded | LeftToParent

  /** `rounds` is the rework counter in the stored task result; `retries` is the task row's. */
  datatype Task = Task(phase: Phase, rounds: nat, retries: nat, delegated: bool)

  /** `carry` says whether a run keeps the rework counter when it stores its result. */
  datatype Config = Config(maxRounds: int, maxRetries: nat, carry: bool, tooling: Tooling)

  datatype Attempt = RunFailed | Delivered(work: Deliverable, findings: seq<Finding>)

  /** A run that produced no work is retried within the budget, then blocked. */
  function RequeueOrBlock(cfg: Config, t: Task): Task {
    if t.delegated then t.(phase := LeftToParent)
    else if t.retries < cfg.maxRetries then t.(retries := t.retries + 1)
    else t.(phase := Blocked)
  }

  /** One run and what follows it. The run stores its result before it is judged. */
  function Step(cfg: Config, t: Task, a: Attempt): Task {
    var stored := if cfg.carry then t else t.(rounds := 0);
    match a
    case RunFailed => RequeueOrBlock(cfg, stored)
    case Delivered(work, findings) =>
      match Decide(cfg.tooling, work, findings, stored.rounds, cfg.maxRounds)
      case EmptyRequeued => RequeueOrBlock(cfg, stored)
      case Cleared => stored.(phase := Finished)
      case Carded => stored.(phase := Phase.Carded)
      case Rework(_) => stored.(rounds := stored.rounds + 1, retries := 0)
  }

  function RunTask(cfg: Config, t: Task, attempts: seq<Attempt>): Task
    decreases |attempts|
  {
    if attempts == [] || t.phase != Waiting then t else RunTask(cfg, Step(cfg, t, attempts[0]), attempts[1..])
  }

  function RoundsLeft(cfg: Config, t: Task): nat {
    if cfg.maxRounds > t.rounds then cfg.maxRounds - t.rounds else 0
  }

  function RetriesLeft(cfg: Config, t: Task): nat {
    if cfg.maxRetries > t.retries then cfg.maxRetries - t.retries else 0
  }

  /** How many more attempts a waiting task can have. */
  function Bound(cfg: Config, t: Task): nat {
    RoundsLeft(cfg, t) * (cfg.maxRetries + 1) + RetriesLeft(cfg, t) + 1
  }

  const FRESH := Task(Waiting, 0, 0, false)

  lemma FreshBound(cfg: Config)
    ensures Bound(cfg, FRESH) == ((if cfg.maxRounds > 0 then cfg.maxRounds else 0) + 1) * (cfg.maxRetries + 1)
  {
    var m := RoundsLeft(cfg, FRESH);
    assert (m + 1) * (cfg.maxRetries + 1) == m * (cfg.maxRetries + 1) + (cfg.maxRetries + 1);
  }

  lemma RoundSpendsMore(m: nat, r: nat)
    requires m > 0
    ensures m * (r + 1) == (m - 1) * (r + 1) + r + 1
  {
  }

  /** An attempt that leaves the task waiting spent a retry, or spent a round and reset the retries. */
  lemma StepEffect(cfg: Config, t: Task, a: Attempt)
    requires t.phase == Waiting && Step(cfg, t, a).phase == Waiting
    ensures var stored := if cfg.carry then t else t.(rounds := 0);
            || (t.retries < cfg.maxRetries && Step(cfg, t, a) == stored.(retries := t.retries + 1))
            || (stored.rounds < cfg.maxRounds && Step(cfg, t, a) == stored.(rounds := stored.rounds + 1, retries := 0))
  {
  }

  /** The pair (rounds left, retries left) falls with every attempt that leaves the task waiting. */
  lemma StepSpends(cfg: Config, t: Task, a: Attempt)
    requires t.phase == Waiting && (cfg.carry || (cfg.maxRounds <= 0 && t.rounds == 0))
    requires Step(cfg, t, a).phase == Waiting
    ensures var t' := Step(cfg, t, a);
            && (cfg.carry || t'.rounds == 0)
            && (RoundsLeft(cfg, t') < RoundsLeft(cfg, t)
                || (RoundsLeft(cfg, t') == RoundsLeft(cfg, t) && RetriesLeft(cfg, t') < RetriesLeft(cfg, t)))
            && Bound(cfg, t') < Bound(cfg, t)
  {
    StepEffect(cfg, t, a);
    BoundFalls(cfg, t, Step(cfg, t, a));
  }

  lemma BoundFalls(cfg: Config, t: Task, t': Task)
    requires RoundsLeft(cfg, t') == RoundsLeft(cfg, t) - 1
          || (RoundsLeft(cfg, t') == RoundsLeft(cfg, t) && RetriesLeft(cfg, t') < RetriesLeft(cfg, t))
    ensures Bound(cfg, t') < Bound(cfg, t)
  {
    var m := RoundsLeft(cfg, t);
    if RoundsLeft(cfg, t') != m {
      RoundSpendsMore(m, cfg.maxRetries);
    }
  }

  lemma {:induction false} RunEnds(cfg: Config, t: Task, attempts: seq<Attempt>)
    requires cfg.carry || (cfg.maxRounds <= 0 && t.rounds == 0)
    requires |attempts| >= Bound(cfg, t)
    ensures RunTask(cfg, t, attempts).phase != Waiting
    decreases |attempts|
  {
    if t.phase == Waiting {
      var t' := Step(cfg, t, attempts[0]);
      if t'.phase == Waiting {
        StepSpends(cfg, t, attempts[0]);
        RunEnds(cfg, t', attempts[1..]);
      }
    }
  }

  /** With a preserved round counter the task is settled within
      (maxRounds + 1) * (maxRetries + 1) attempts, whatever runs and reviewers do. */
  lemma SettledWithinTheBound(cfg: Config, attempts: seq<Attempt>)
    requires cfg.carry
    requires |attempts| >= ((if cfg.maxRounds > 0 then cfg.maxRounds else 0) + 1) * (cfg.maxRetries + 1)
    ensures RunTask(cfg, FRESH, attempts).phase != Waiting
  {
    FreshBound(cfg);
    RunEnds(cfg, FRESH, attempts);
  }

  // ----- The bound is met -----

  /** A reviewer holds without naming a defect. */
  const HELD_BACK := Delivered(Deliverable("work", []), [Finding("cto", Hold, [], false, None)])

  lemma HeldBackGoesBack(cfg: Config, t: Task)
    requires t.phase == Waiting
    ensures var rounds := if cfg.carry then t.rounds else 0;
            Step(cfg, t, HELD_BACK)
            == if rounds < cfg.maxRounds then t.(rounds := rounds + 1, retries := 0)
               else t.(rounds := rounds, phase := Phase.Carded)
  {
    var f := HELD_BACK.findings[0];
    var cleaned := CleanAll(cfg.tooling, HELD_BACK.findings);
    assert cleaned[0] == f && cleaned[0] in cleaned;
    assert AnyHold(cleaned);
  }

  function WorstCase(cfg: Config, t: Task): seq<Attempt>
    decreases RoundsLeft(cfg, t), RetriesLeft(cfg, t)
  {
    if t.retries < cfg.maxRetries then [RunFailed] + WorstCase(cfg, t.(retries := t.retries + 1))
    else if t.rounds < cfg.maxRounds then [HELD_BACK] + WorstCase(cfg, t.(rounds := t.rounds + 1, retries := 0))
    else []
  }

  /** The bound is exact: some task is still waiting one attempt earlier. */
  lemma {:induction false} BoundIsMet(cfg: Config, t: Task)
    requires cfg.carry && t.phase == Waiting && !t.delegated
    ensures |WorstCase(cfg, t)| == Bound(cfg, t) - 1
    ensures RunTask(cfg, t, WorstCase(cfg, t)).phase == Waiting
    decreases RoundsLeft(cfg, t), RetriesLeft(cfg, t)
  {
    if t.retries < cfg.maxRetries {
      var t' := t.(retries := t.retries + 1);
      BoundIsMet(cfg, t');
      assert WorstCase(cfg, t)[1..] == WorstCase(cfg, t');
    } else if t.rounds < cfg.maxRounds {
      var t' := t.(rounds := t.rounds + 1, retries := 0);
      BoundIsMet(cfg, t');
      HeldBackGoesBack(cfg, t);
      RoundSpendsMore(RoundsLeft(cfg, t), cfg.maxRetries);
      assert WorstCase(cfg, t)[1..] == WorstCase(cfg, t');
    }
  }

  // ----- Without the counter -----

  function Again(n: nat): seq<Attempt> {
    if n == 0 then [] else [HELD_BACK] + Again(n - 1)
  }

  /** The runs store a fresh result without the counter. Then a reviewer who always holds sends
      the task back for ever. */
  lemma {:induction false} WithoutCounterNeverEnds(cfg: Config, t: Task, n: nat)
    requires !cfg.carry && cfg.maxRounds > 0 && t.phase == Waiting
    ensures |Again(n)| == n && RunTask(cfg, t, Again(n)).phase == Waiting
    decreases n
  {
    if n > 0 {
      HeldBackGoesBack(cfg, t);
      WithoutCounterNeverEnds(cfg, Step(cfg, t, HELD_BACK), n - 1);
      assert Again(n)[1..] == Again(n - 1);
    }
  }

  ghost predicate AlwaysSettledBy(cfg: Config, n: nat) {
    forall attempts :: |attempts| >= n ==> RunTask(cfg, FRESH, attempts).phase != Waiting
  }

  /** The loop is bounded exactly when runs keep the counter, or rework is switched off. */
  lemma LoopIsBoundedIff(cfg: Config)
    ensures (exists n: nat :: AlwaysSettledBy(cfg, n)) <==> cfg.carry || cfg.maxRounds <= 0
  {
    if cfg.carry || cfg.maxRounds <= 0 {
      forall attempts: seq<Attempt> | |attempts| >= Bound(cfg, FRESH)
        ensures RunTask(cfg, FRESH, attempts).phase != Waiting
      {
        RunEnds(cfg, FRESH, attempts);
      }
      assert AlwaysSettledBy(cfg, Bound(cfg, FRESH));
    } else {
      forall n: nat ensures !AlwaysSettledBy(cfg, n) {
        WithoutCounterNeverEnds(cfg, FRESH, n);
      }
    }
  }

  // ----- Runs without work -----

  /** The run failed, or left nothing to review. */
  predicate NoWork(a: Attempt) {
    a.RunFailed? || (a.work.output == "" && a.work.files == [])
  }

  /** A task whose runs leave no work is run again as often as there are retries, and is then blocked; a delegated
      one is left to its parent at once. Reviewers are never asked, and no card is filed. */
  lemma {:induction false} NoWorkIsRetried(cfg: Config, t: Task, attempts: seq<Attempt>)
    requires t.phase == Waiting && t.retries <= cfg.maxRetries
    requires forall i :: 0 <= i < |attempts| ==> NoWork(attempts[i])
    ensures var end := RunTask(cfg, t, attempts);
            if attempts == [] then end == t
            else if t.delegated then end.phase == LeftToParent
            else if t.retries + |attempts| <= cfg.maxRetries
            then end.phase == Waiting && end.retries == t.retries + |attempts|
            else end.phase == Blocked
    decreases |attempts|
  {
    if attempts != [] {
      var next := Step(cfg, t, attempts[0]);
      assert NoWork(attempts[0]);
      if next.phase == Waiting {
        NoWorkIsRetried(cfg, next, attempts[1..]);
      }
    }
  }

  /** What one reviewed run does to a waiting task: it is finished if every reply clears the work; otherwise, if all
      reviewers answered and a round is left, it waits for its next round with all retries; otherwise
      the founder gets a card. */
  lemma ReviewedRun(cfg: Config, t: Task, work: Deliverable, roles: seq<string>, replies: seq<Reply>)
    requires |roles| == |replies| && (work.output != "" || work.files != [])
    ensures var next := Step(cfg, t, Delivered(work, Findings(roles, replies)));
            var rounds := if cfg.carry then t.rounds else 0;
            if forall i :: 0 <= i < |replies| ==> Clears(cfg.tooling, replies[i]) then next.phase == Finished
            else if (forall i :: 0 <= i < |replies| ==> replies[i].Answered?) && rounds < cfg.maxRounds
            then next == t.(rounds := rounds + 1, retries := 0)
            else next.phase == Phase.Carded
  {
    var rounds := if cfg.carry then t.rounds else 0;
    OutcomeIs(cfg.tooling, work, roles, replies, rounds, cfg.maxRounds);
    StepFollows(cfg, t, work, Findings(roles, replies), rounds);
  }

  lemma StepFollows(cfg: Config, t: Task, work: Deliverable, findings: seq<Finding>, rounds: nat)
    requires rounds == if cfg.carry then t.rounds else 0
    ensures var next := Step(cfg, t, Delivered(work, findings));
            match Decide(cfg.tooling, work, findings, rounds, cfg.maxRounds)
            case Cleared => next.phase == Finished
            case Carded => next.phase == Phase.Carded
            case Rework(_) => next == t.(rounds := rounds + 1, retries := 0)
            case EmptyRequeued => true
  {
  }
}
