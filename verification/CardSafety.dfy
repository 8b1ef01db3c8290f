/** How often overlapping calls on one card act (kompany/src/kompany/core/approval_effects.py). */
module CardSafety {
  import opened CardCalls

  // ----- Every open read acts or finds nothing to do -----

  lemma HoldingAfter(calls: map<nat, Call>, c: nat, to: Call)
    ensures Holding(calls[c := to]) == if to.place == Decided(true) then Holding(calls) + {c} else Holding(calls) - {c}
  {
  }

  predicate Balanced<W>(s: State<W>) {
    s.unstamped == |s.acted| + s.short + |Holding(s.calls)|
  }

  lemma MoveKeepsHolding<W>(s: State<W>, c: nat, p: Place)
    requires c in s.calls && s.calls[c].place != Decided(true) && p != Decided(true)
    ensures Holding(Moved(s, c, p).calls) == Holding(s.calls)
  {
    HoldingAfter(s.calls, c, s.calls[c].(place := p));
    assert c !in Holding(s.calls);
  }

  lemma DecideKeepsBalance<W>(s: State<W>, c: nat)
    requires Balanced(s) && c in s.calls && s.calls[c].place != Decided(true)
    ensures Balanced(Decide(s, c))
  {
    HoldingAfter(s.calls, c, s.calls[c].(place := Decided(!s.applied)));
    assert c !in Holding(s.calls);
    assert Holding(s.calls) - {c} == Holding(s.calls);
    assert |Holding(s.calls) + {c}| == |Holding(s.calls)| + 1;
  }

  lemma ActKeepsBalance<W>(effect: Effect<W>, s: State<W>, c: nat)
    requires Balanced(s)
    ensures Balanced(Next(effect, s, Act(c)))
  {
    if At(s, c, Decided(true)) {
      HoldingAfter(s.calls, c, s.calls[c].(place := Gone));
      HoldingAfter(s.calls, c, s.calls[c].(place := Stamping));
      assert c in Holding(s.calls);
      assert |Holding(s.calls) - {c}| == |Holding(s.calls)| - 1;
    } else if At(s, c, Decided(false)) {
      MoveKeepsHolding(s, c, Gone);
    }
  }

  lemma NextKeepsBalance<W>(effect: Effect<W>, s: State<W>, step: Step<W>)
    requires Balanced(s)
    ensures Balanced(Next(effect, s, step))
  {
    match step {
      case Arrive(c, target) =>
        HoldingAfter(s.calls, c, Call(target, Arrived));
        if c !in s.calls {
          assert Holding(s.calls) - {c} == Holding(s.calls);
        }
      case ReadStatus(c) =>
        if At(s, c, Arrived) {
          DecideKeepsBalance(s, c);
          MoveKeepsHolding(s, c, Gone);
          MoveKeepsHolding(s, c, Writing);
        }
      case WriteStatus(c) => if At(s, c, Writing) { MoveKeepsHolding(s, c, Written); }
      case ReadPayload(c) => if At(s, c, Written) { DecideKeepsBalance(s, c); }
      case Act(c) => ActKeepsBalance(effect, s, c);
      case StampCard(c) => if At(s, c, Stamping) { MoveKeepsHolding(s, c, Gone); }
      case WorldBecomes(_) =>
    }
  }

  lemma {:induction false} RunKeepsBalance<W>(effect: Effect<W>, w: W, steps: seq<Step<W>>)
    ensures Balanced(Run(effect, Fresh(w), steps))
  {
    if steps == [] {
      assert Holding(map[]) == {};
    } else {
      RunKeepsBalance(effect, w, steps[..|steps| - 1]);
      NextKeepsBalance(effect, Run(effect, Fresh(w), steps[..|steps| - 1]), steps[|steps| - 1]);
    }
  }

  /** For every interleaving, when no call is about to act: the effect ran more than once exactly if
      more than one call read the card before its first stamp and found something to do. */
  lemma ActsMoreThanOnceIff<W>(effect: Effect<W>, w: W, steps: seq<Step<W>>)
    requires Holding(Run(effect, Fresh(w), steps).calls) == {}
    ensures var end := Run(effect, Fresh(w), steps);
            |end.acted| > 1 <==> end.unstamped > end.short + 1
  {
    RunKeepsBalance(effect, w, steps);
  }

  lemma StampIsForEver<W>(effect: Effect<W>, s: State<W>, step: Step<W>)
    requires s.applied
    ensures Next(effect, s, step).applied && Next(effect, s, step).unstamped == s.unstamped
  {
  }

  /** After the first stamp no read is open any more: only the calls that had read the card before
      it can still act, each once. */
  lemma {:induction false} OnlyEarlierReadersAct<W>(effect: Effect<W>, w: W, before: seq<Step<W>>, after: seq<Step<W>>)
    requires Run(effect, Fresh(w), before).applied
    ensures var s, end := Run(effect, Fresh(w), before), Run(effect, Fresh(w), before + after);
            end.applied && end.unstamped == s.unstamped && |end.acted| <= |s.acted| + |Holding(s.calls)|
  {
    RunKeepsBalance(effect, w, before);
    RunKeepsBalance(effect, w, before + after);
    AppliedAfter(effect, w, before, after);
    ShortGrows(effect, w, before, after);
  }

  lemma {:induction false} AppliedAfter<W>(effect: Effect<W>, w: W, before: seq<Step<W>>, after: seq<Step<W>>)
    requires Run(effect, Fresh(w), before).applied
    ensures var s, end := Run(effect, Fresh(w), before), Run(effect, Fresh(w), before + after);
            end.applied && end.unstamped == s.unstamped
  {
    if after == [] {
      assert before + after == before;
    } else {
      var k := |after| - 1;
      AppliedAfter(effect, w, before, after[..k]);
      assert (before + after)[..|before + after| - 1] == before + after[..k];
      StampIsForEver(effect, Run(effect, Fresh(w), before + after[..k]), after[k]);
    }
  }

  lemma {:induction false} ShortGrows<W>(effect: Effect<W>, w: W, before: seq<Step<W>>, after: seq<Step<W>>)
    ensures Run(effect, Fresh(w), before).short <= Run(effect, Fresh(w), before + after).short
  {
    if after == [] {
      assert before + after == before;
    } else {
      var k := |after| - 1;
      ShortGrows(effect, w, before, after[..k]);
      assert (before + after)[..|before + after| - 1] == before + after[..k];
    }
  }

  // ----- Calls that do not overlap -----

  predicate InFlight<W>(s: State<W>, c: nat) {
    c in s.calls && s.calls[c].place != Gone
  }

  ghost predicate Idle<W>(s: State<W>) {
    forall c :: !InFlight(s, c)
  }

  /** No call but `c` is in flight. The effect ran at most once, and if so the card is stamped, or
      `c` is about to stamp it. */
  ghost predicate SerialFor<W>(s: State<W>, c: nat) {
    && (forall d :: d != c ==> !InFlight(s, d))
    && |s.acted| <= 1
    && (if At(s, c, Decided(true)) then !s.applied && s.acted == []
        else if At(s, c, Stamping) then |s.acted| == 1
        else s.acted != [] ==> s.applied)
  }

  ghost predicate Serial<W>(s: State<W>) {
    exists c :: SerialFor(s, c)
  }

  lemma OwnStepKeepsSerial<W>(effect: Effect<W>, s: State<W>, step: Step<W>)
    requires !step.WorldBecomes? && SerialFor(s, step.call)
    ensures SerialFor(Next(effect, s, step), step.call)
  {
    var s' := Next(effect, s, step);
    assert forall d :: d != step.call ==> InFlight(s', d) == InFlight(s, d);
  }

  lemma NextKeepsSerial<W>(effect: Effect<W>, s: State<W>, step: Step<W>)
    requires Serial(s) && (step.Arrive? ==> Idle(s))
    ensures Serial(Next(effect, s, step))
  {
    var c :| SerialFor(s, c);
    if step.WorldBecomes? {
      var s' := Next(effect, s, step);
      assert s' == s.(world := step.world);
      assert forall d :: InFlight(s', d) == InFlight(s, d);
      assert SerialFor(s', c);
    } else if step.Arrive? {
      assert !InFlight(s, c) && !InFlight(s, step.call);
      assert forall d :: !InFlight(s, d);
      assert s.acted != [] ==> s.applied;
      assert SerialFor(s, step.call);
      OwnStepKeepsSerial(effect, s, step);
    } else if step.call == c {
      OwnStepKeepsSerial(effect, s, step);
    } else {
      assert !InFlight(s, step.call);
      assert Next(effect, s, step) == s;
    }
  }

  ghost predicate NoOverlap<W>(effect: Effect<W>, s: State<W>, steps: seq<Step<W>>) {
    forall i :: 0 <= i < |steps| && steps[i].Arrive? ==> Idle(Run(effect, s, steps[..i]))
  }

  /** If every call arrives after the one before is gone, the effect runs at most once. */
  lemma {:induction false} SerialCallsActOnce<W>(effect: Effect<W>, w: W, steps: seq<Step<W>>)
    requires NoOverlap(effect, Fresh(w), steps)
    ensures Serial(Run(effect, Fresh(w), steps)) && |Run(effect, Fresh(w), steps).acted| <= 1
  {
    if steps == [] {
      assert SerialFor(Fresh(w), 0);
    } else {
      var k := |steps| - 1;
      assert NoOverlap(effect, Fresh(w), steps[..k]) by {
        assert forall i :: 0 <= i < k ==> steps[..k][i] == steps[i] && steps[..k][..i] == steps[..i];
      }
      SerialCallsActOnce(effect, w, steps[..k]);
      NextKeepsSerial(effect, Run(effect, Fresh(w), steps[..k]), steps[k]);
    }
  }
}
