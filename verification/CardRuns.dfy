/** Calls on one card statement by statement: one that nothing interrupts, and two that overlap
    (kompany/src/kompany/state/approvals_parts/_transitions.py, kompany/src/kompany/core/approval_effects.py). */
module CardRuns {
  import opened Wrappers
  import opened FounderCards
  import opened CardCalls

  // ----- Single statements -----

  lemma StepRead<W>(effect: Effect<W>, s: State<W>, c: nat)
    requires At(s, c, Arrived)
    ensures Next(effect, s, ReadStatus(c))
         == if s.status == s.calls[c].target then Decide(s, c)
            else if Terminal(s.status) then Moved(s, c, Gone) else Moved(s, c, Writing)
  {
  }

  lemma StepWrite<W>(effect: Effect<W>, s: State<W>, c: nat)
    requires At(s, c, Writing)
    ensures Next(effect, s, WriteStatus(c)) == Moved(s, c, Written).(status := s.calls[c].target)
  {
  }

  lemma StepDecide<W>(effect: Effect<W>, s: State<W>, c: nat)
    requires At(s, c, Written)
    ensures Next(effect, s, ReadPayload(c)) == Decide(s, c)
  {
  }

  lemma StepAct<W>(effect: Effect<W>, s: State<W>, c: nat)
    requires At(s, c, Decided(true))
    ensures var done := effect(s.world, s.calls[c].target);
            Next(effect, s, Act(c))
            == if done.None? then Moved(s, c, Gone).(short := s.short + 1)
               else Moved(s, c, Stamping).(world := done.value, acted := s.acted + [s.calls[c].target])
  {
  }

  lemma StepStamp<W>(effect: Effect<W>, s: State<W>, c: nat)
    requires At(s, c, Stamping)
    ensures Next(effect, s, StampCard(c)) == Moved(s, c, Gone).(applied := true)
  {
  }

  /** A step for which the call is in another place changes nothing. */
  lemma StepElsewhere<W>(effect: Effect<W>, s: State<W>, c: nat)
    ensures !At(s, c, Writing) ==> Next(effect, s, WriteStatus(c)) == s
    ensures !At(s, c, Written) ==> Next(effect, s, ReadPayload(c)) == s
    ensures !At(s, c, Decided(true)) && !At(s, c, Decided(false)) ==> Next(effect, s, Act(c)) == s
    ensures !At(s, c, Stamping) ==> Next(effect, s, StampCard(c)) == s
  {
  }

  // ----- One call that nothing interrupts -----

  /** Reading the card, with the status written in between if it has to change. */
  function ReadAlone<W>(effect: Effect<W>, s: State<W>, c: nat): State<W> {
    Next(effect, Next(effect, Next(effect, s, ReadStatus(c)), WriteStatus(c)), ReadPayload(c))
  }

  function ActAlone<W>(effect: Effect<W>, s: State<W>, c: nat): State<W> {
    Next(effect, Next(effect, s, Act(c)), StampCard(c))
  }

  function Alone<W>(effect: Effect<W>, s: State<W>, c: nat, target: CardStatus): State<W> {
    ActAlone(effect, ReadAlone(effect, Next(effect, s, Arrive(c, target)), c), c)
  }

  lemma ReadAloneResolves<W>(effect: Effect<W>, s: State<W>, c: nat)
    requires At(s, c, Arrived) && s.calls[c].target in {Approved, Rejected}
    ensures var end, resolved := ReadAlone(effect, s, c), Resolve(s.status, s.calls[c].target);
            && end.world == s.world && end.applied == s.applied
            && c in end.calls && end.calls[c].target == s.calls[c].target
            && end.status == (if resolved.Some? then resolved.value else s.status)
            && end.calls[c].place == (if resolved.Some? then Decided(!s.applied) else Gone)
  {
    var read := Next(effect, s, ReadStatus(c));
    StepRead(effect, s, c);
    if At(read, c, Writing) {
      StepWrite(effect, read, c);
      StepDecide(effect, Next(effect, read, WriteStatus(c)), c);
    } else {
      StepElsewhere(effect, read, c);
    }
  }

  lemma ActAloneActs<W>(effect: Effect<W>, s: State<W>, c: nat)
    requires At(s, c, Decided(!s.applied)) || At(s, c, Gone)
    ensures var end := ActAlone(effect, s, c);
            var done := if s.applied || At(s, c, Gone) then None else effect(s.world, s.calls[c].target);
            && end.status == s.status && end.world == (if done.Some? then done.value else s.world)
            && end.applied == (s.applied || done.Some?)
  {
    if At(s, c, Decided(true)) {
      StepAct(effect, s, c);
      var acted := Next(effect, s, Act(c));
      if At(acted, c, Stamping) {
        StepStamp(effect, acted, c);
      } else {
        StepElsewhere(effect, acted, c);
      }
    } else {
      StepElsewhere(effect, s, c);
      StepElsewhere(effect, Next(effect, s, Act(c)), c);
    }
  }

  /** It moves the card and runs the effect as if it were one step. */
  lemma AloneIsOneStep<W>(effect: Effect<W>, s: State<W>, c: nat, target: CardStatus)
    requires c !in s.calls && target in {Approved, Rejected}
    ensures var end := Alone(effect, s, c, target);
            var done := if s.applied then None else effect(s.world, target);
            match Resolve(s.status, target)
            case None => end.world == s.world && end.status == s.status && end.applied == s.applied
            case Some(status) =>
              && end.status == status
              && end.world == (if done.Some? then done.value else s.world)
              && end.applied == (s.applied || done.Some?)
  {
    var arrived := Next(effect, s, Arrive(c, target));
    assert arrived == s.(calls := s.calls[c := Call(target, Arrived)]);
    ReadAloneResolves(effect, arrived, c);
    ActAloneActs(effect, ReadAlone(effect, arrived, c), c);
  }

  // ----- Two calls at once -----

  function Two<W>(w: W, status: CardStatus, applied: bool, p: Call, q: Call, unstamped: nat, short: nat,
                  acted: seq<CardStatus>): State<W>
  {
    State(w, status, applied, map[0 := p, 1 := q], unstamped, short, acted)
  }

  lemma TwoMoves<W>(w: W, status: CardStatus, applied: bool, p: Call, q: Call, unstamped: nat, short: nat,
                    acted: seq<CardStatus>, place: Place)
    ensures var s := Two(w, status, applied, p, q, unstamped, short, acted);
            && Moved(s, 0, place) == Two(w, status, applied, p.(place := place), q, unstamped, short, acted)
            && Moved(s, 1, place) == Two(w, status, applied, p, q.(place := place), unstamped, short, acted)
  {
    assert map[0 := p, 1 := q][0 := p.(place := place)] == map[0 := p.(place := place), 1 := q];
    assert map[0 := p, 1 := q][1 := q.(place := place)] == map[0 := p, 1 := q.(place := place)];
  }

  /** Both calls read the card before either writes, and both read it again before either acts. */
  function Overlap<W>(t: CardStatus, u: CardStatus): seq<Step<W>> {
    OverlapReads(t, u) + [Act(0), Act(1)] + [StampCard(0), StampCard(1)]
  }

  lemma RunTwoMore<W>(effect: Effect<W>, s: State<W>, steps: seq<Step<W>>, a: Step<W>, b: Step<W>)
    ensures Run(effect, s, steps + [a, b]) == Next(effect, Next(effect, Run(effect, s, steps), a), b)
  {
    assert (steps + [a, b])[..|steps| + 1] == steps + [a];
    assert (steps + [a])[..|steps|] == steps;
  }

  lemma BothArrive<W>(effect: Effect<W>, w: W, t: CardStatus, u: CardStatus)
    requires t in {Approved, Rejected} && u in {Approved, Rejected}
    ensures Run(effect, Fresh(w), [Arrive(0, t), Arrive(1, u)])
         == Two(w, Pending, false, Call(t, Arrived), Call(u, Arrived), 0, 0, [])
  {
    var none: seq<Step<W>> := [];
    RunTwoMore(effect, Fresh(w), none, Arrive(0, t), Arrive(1, u));
    assert none + [Arrive(0, t), Arrive(1, u)] == [Arrive(0, t), Arrive(1, u)];
    var first := Next(effect, Fresh(w), Arrive(0, t));
    assert first == Fresh(w).(calls := map[0 := Call(t, Arrived)]);
  }

  lemma BothRead<W>(effect: Effect<W>, w: W, t: CardStatus, u: CardStatus)
    requires t in {Approved, Rejected} && u in {Approved, Rejected}
    ensures var s := Two(w, Pending, false, Call(t, Arrived), Call(u, Arrived), 0, 0, []);
            Next(effect, Next(effect, s, ReadStatus(0)), ReadStatus(1))
            == Two(w, Pending, false, Call(t, Writing), Call(u, Writing), 0, 0, [])
  {
    var s := Two(w, Pending, false, Call(t, Arrived), Call(u, Arrived), 0, 0, []);
    StepRead(effect, s, 0);
    TwoMoves(w, Pending, false, Call(t, Arrived), Call(u, Arrived), 0, 0, [], Writing);
    StepRead(effect, Moved(s, 0, Writing), 1);
    TwoMoves(w, Pending, false, Call(t, Writing), Call(u, Arrived), 0, 0, [], Writing);
  }

  lemma BothWrite<W>(effect: Effect<W>, w: W, t: CardStatus, u: CardStatus)
    ensures var s := Two(w, Pending, false, Call(t, Writing), Call(u, Writing), 0, 0, []);
            Next(effect, Next(effect, s, WriteStatus(0)), WriteStatus(1))
            == Two(w, u, false, Call(t, Written), Call(u, Written), 0, 0, [])
  {
    var s := Two(w, Pending, false, Call(t, Writing), Call(u, Writing), 0, 0, []);
    StepWrite(effect, s, 0);
    TwoMoves(w, Pending, false, Call(t, Writing), Call(u, Writing), 0, 0, [], Written);
    StepWrite(effect, Two(w, t, false, Call(t, Written), Call(u, Writing), 0, 0, []), 1);
    TwoMoves(w, t, false, Call(t, Written), Call(u, Writing), 0, 0, [], Written);
  }

  lemma BothDecide<W>(effect: Effect<W>, w: W, t: CardStatus, u: CardStatus)
    ensures var s := Two(w, u, false, Call(t, Written), Call(u, Written), 0, 0, []);
            Next(effect, Next(effect, s, ReadPayload(0)), ReadPayload(1))
            == Two(w, u, false, Call(t, Decided(true)), Call(u, Decided(true)), 2, 0, [])
  {
    var s := Two(w, u, false, Call(t, Written), Call(u, Written), 0, 0, []);
    StepDecide(effect, s, 0);
    TwoMoves(w, u, false, Call(t, Written), Call(u, Written), 0, 0, [], Decided(true));
    StepDecide(effect, Two(w, u, false, Call(t, Decided(true)), Call(u, Written), 1, 0, []), 1);
    TwoMoves(w, u, false, Call(t, Decided(true)), Call(u, Written), 1, 0, [], Decided(true));
  }

  /** The first call acts, the second acts if it finds something to do. */
  function Acted<W>(effect: Effect<W>, w: W, t: CardStatus, u: CardStatus): State<W>
    requires effect(w, t).Some?
  {
    var w1 := effect(w, t).value;
    match effect(w1, u)
    case Some(w2) => Two(w2, u, false, Call(t, Stamping), Call(u, Stamping), 2, 0, [t, u])
    case None => Two(w1, u, false, Call(t, Stamping), Call(u, Gone), 2, 1, [t])
  }

  lemma BothAct<W>(effect: Effect<W>, w: W, t: CardStatus, u: CardStatus)
    requires effect(w, t).Some?
    ensures var s := Two(w, u, false, Call(t, Decided(true)), Call(u, Decided(true)), 2, 0, []);
            Next(effect, Next(effect, s, Act(0)), Act(1)) == Acted(effect, w, t, u)
  {
    var s := Two(w, u, false, Call(t, Decided(true)), Call(u, Decided(true)), 2, 0, []);
    var w1 := effect(w, t).value;
    StepAct(effect, s, 0);
    TwoMoves(w, u, false, Call(t, Decided(true)), Call(u, Decided(true)), 2, 0, [], Stamping);
    var first := Two(w1, u, false, Call(t, Stamping), Call(u, Decided(true)), 2, 0, [t]);
    assert Next(effect, s, Act(0)) == first by {
      assert [] + [t] == [t];
    }
    StepAct(effect, first, 1);
    TwoMoves(w1, u, false, Call(t, Stamping), Call(u, Decided(true)), 2, 0, [t], Stamping);
    TwoMoves(w1, u, false, Call(t, Stamping), Call(u, Decided(true)), 2, 0, [t], Gone);
    assert [t] + [u] == [t, u];
  }

  lemma BothStamp<W>(effect: Effect<W>, w: W, t: CardStatus, u: CardStatus)
    requires effect(w, t).Some?
    ensures var s := Acted(effect, w, t, u);
            var end := Next(effect, Next(effect, s, StampCard(0)), StampCard(1));
            end == s.(applied := true, calls := map[0 := Call(t, Gone), 1 := Call(u, Gone)])
  {
    var s := Acted(effect, w, t, u);
    StepStamp(effect, s, 0);
    var first := s.(applied := true, calls := map[0 := Call(t, Gone), 1 := s.calls[1]]);
    assert s.calls[0 := Call(t, Gone)] == first.calls;
    if s.calls[1].place == Stamping {
      StepStamp(effect, first, 1);
      assert first.calls[1 := Call(u, Gone)] == map[0 := Call(t, Gone), 1 := Call(u, Gone)];
    } else {
      StepElsewhere(effect, first, 1);
    }
  }

  /** The overlapping calls up to where both have decided to act. */
  function OverlapReads<W>(t: CardStatus, u: CardStatus): seq<Step<W>> {
    [Arrive(0, t), Arrive(1, u)] + [ReadStatus(0), ReadStatus(1)] + [WriteStatus(0), WriteStatus(1)]
    + [ReadPayload(0), ReadPayload(1)]
  }

  lemma OverlapDecides<W>(effect: Effect<W>, w: W, t: CardStatus, u: CardStatus)
    requires t in {Approved, Rejected} && u in {Approved, Rejected}
    ensures Run(effect, Fresh(w), OverlapReads(t, u))
         == Two(w, u, false, Call(t, Decided(true)), Call(u, Decided(true)), 2, 0, [])
  {
    var steps: seq<Step<W>> := [Arrive(0, t), Arrive(1, u)];
    BothArrive(effect, w, t, u);
    RunTwoMore(effect, Fresh(w), steps, ReadStatus(0), ReadStatus(1));
    BothRead(effect, w, t, u);
    steps := steps + [ReadStatus(0), ReadStatus(1)];
    RunTwoMore(effect, Fresh(w), steps, WriteStatus(0), WriteStatus(1));
    BothWrite(effect, w, t, u);
    steps := steps + [WriteStatus(0), WriteStatus(1)];
    RunTwoMore(effect, Fresh(w), steps, ReadPayload(0), ReadPayload(1));
    BothDecide(effect, w, t, u);
  }

  /** Two calls that overlap both act, if the effect of the second finds something to do after the
      first; the card ends with the status that was written last. */
  lemma OverlappingCallsBothAct<W>(effect: Effect<W>, w: W, t: CardStatus, u: CardStatus)
    requires t in {Approved, Rejected} && u in {Approved, Rejected} && effect(w, t).Some?
    ensures var end := Run(effect, Fresh(w), Overlap(t, u));
            var second := effect(effect(w, t).value, u);
            && end.status == u && end.applied && Holding(end.calls) == {}
            && end.acted == (if second.Some? then [t, u] else [t])
            && end.world == (if second.Some? then second.value else effect(w, t).value)
  {
    OverlapDecides(effect, w, t, u);
    RunTwoMore(effect, Fresh(w), OverlapReads(t, u), Act(0), Act(1));
    BothAct(effect, w, t, u);
    RunTwoMore(effect, Fresh(w), OverlapReads(t, u) + [Act(0), Act(1)], StampCard(0), StampCard(1));
    BothStamp(effect, w, t, u);
  }
}
