/** What overlapping verdicts on one card do to money and to a held review
    (kompany/src/kompany/core/approval_effects.py, kompany/src/kompany/core/csuite_review.py). */
module OverlappingVerdicts {
  import opened Wrappers
  import opened FounderCards
  import opened CardCalls
  import opened CardSafety
  import opened CardRuns
  import ApprovalEffects

  // ----- Money -----

  /** An approval runs the card's effect; a rejection moves no money and stamps nothing. */
  function Money(p: ApprovalEffects.Payload): Effect<ApprovalEffects.Books> {
    (b: ApprovalEffects.Books, v: CardStatus) => if v == Approved then ApprovalEffects.Effect(b, p) else None
  }

  /** An approval that nothing interrupts is the one-step approval. */
  lemma ApprovalAloneIsApproveCard(p: ApprovalEffects.Payload, s: State<ApprovalEffects.Books>, c: nat)
    requires c !in s.calls
    ensures var end := Alone(Money(p), s, c, Approved);
            ApprovalEffects.ApproveCard(s.world, ApprovalEffects.Card(s.status, s.applied, p))
            == (end.world, ApprovalEffects.Card(end.status, end.applied, p))
  {
    AloneIsOneStep(Money(p), s, c, Approved);
  }

  function Times(n: nat, amount: real): real {
    if n == 0 then 0.0 else amount + Times(n - 1, amount)
  }

  ghost predicate BooksAreLeftAlone(steps: seq<Step<ApprovalEffects.Books>>) {
    forall i :: 0 <= i < |steps| ==> !steps[i].WorldBecomes?
  }

  /** In every interleaving the account is credited by exactly the amount for every time that the
      effect ran. With `ActsMoreThanOnceIff` this says when it is credited twice. */
  lemma {:induction false} CreditsCountTheActs(p: ApprovalEffects.Payload, b: ApprovalEffects.Books,
                                               steps: seq<Step<ApprovalEffects.Books>>)
    requires BooksAreLeftAlone(steps)
    ensures var end := Run(Money(p), Fresh(b), steps);
            ApprovalEffects.Level(end.world, p)
            == ApprovalEffects.Level(b, p) + Times(|end.acted|, ApprovalEffects.Amount(p))
  {
    if steps != [] {
      var k := |steps| - 1;
      var before := Run(Money(p), Fresh(b), steps[..k]);
      CreditsCountTheActs(p, b, steps[..k]);
      if steps[k].Act? && At(before, steps[k].call, Decided(true)) {
        StepAct(Money(p), before, steps[k].call);
        if ApprovalEffects.Effect(before.world, p).Some? {
          ApprovalEffects.EffectRaisesByTheAmount(before.world, p);
        }
      } else {
        OnlyActsMoveTheWorld(Money(p), before, steps[k]);
      }
    }
  }

  lemma {:induction false} TimesGrows(n: nat, amount: real)
    requires amount > 0.0
    ensures Times(n, amount) >= 0.0 && (Times(n, amount) > amount <==> n > 1)
  {
    if n > 0 {
      TimesGrows(n - 1, amount);
    }
  }

  /** In every interleaving, once no approval is about to act, the account has got more than the amount
      of the card exactly if more than one approval read the card before its first stamp and found
      enough money. */
  lemma CreditedMoreThanOnceIff(p: ApprovalEffects.Payload, b: ApprovalEffects.Books,
                                steps: seq<Step<ApprovalEffects.Books>>)
    requires BooksAreLeftAlone(steps) && ApprovalEffects.Amount(p) > 0.0
    requires Holding(Run(Money(p), Fresh(b), steps).calls) == {}
    ensures var end := Run(Money(p), Fresh(b), steps);
            ApprovalEffects.Level(end.world, p) > ApprovalEffects.Level(b, p) + ApprovalEffects.Amount(p)
            <==> end.unstamped > end.short + 1
  {
    var end := Run(Money(p), Fresh(b), steps);
    CreditsCountTheActs(p, b, steps);
    ActsMoreThanOnceIff(Money(p), b, steps);
    TimesGrows(|end.acted|, ApprovalEffects.Amount(p));
  }

  lemma OnlyActsMoveTheWorld<W>(effect: Effect<W>, s: State<W>, step: Step<W>)
    requires !step.WorldBecomes? && !(step.Act? && At(s, step.call, Decided(true)))
    ensures Next(effect, s, step).world == s.world && Next(effect, s, step).acted == s.acted
  {
  }

  /** Two approvals of one card that overlap credit it twice, whenever there is enough for both. */
  lemma OverlappingApprovalsCreditTwice(p: ApprovalEffects.Payload, b: ApprovalEffects.Books)
    requires ApprovalEffects.Effect(b, p).Some?
    requires ApprovalEffects.Effect(ApprovalEffects.Effect(b, p).value, p).Some?
    ensures var end := Run(Money(p), Fresh(b), Overlap(Approved, Approved));
            && end.acted == [Approved, Approved] && end.applied && end.status == Approved
            && ApprovalEffects.Level(end.world, p)
               == ApprovalEffects.Level(b, p) + ApprovalEffects.Amount(p) + ApprovalEffects.Amount(p)
            && ApprovalEffects.Amount(p) > 0.0
  {
    OverlappingCallsBothAct(Money(p), b, Approved, Approved);
    ApprovalEffects.EffectRaisesByTheAmount(b, p);
    ApprovalEffects.EffectRaisesByTheAmount(ApprovalEffects.Effect(b, p).value, p);
  }

  /** A cap increase always finds enough for both. */
  lemma CapsAreRaisedTwice(p: ApprovalEffects.Payload, b: ApprovalEffects.Books)
    requires p.CapIncrease? && ApprovalEffects.Effect(b, p).Some?
    ensures var end := Run(Money(p), Fresh(b), Overlap(Approved, Approved));
            ApprovalEffects.Level(end.world, p)
            == ApprovalEffects.Level(b, p) + ApprovalEffects.Amount(p) + ApprovalEffects.Amount(p)
  {
    OverlappingApprovalsCreditTwice(p, b);
  }

  /** An approval and a rejection that overlap: the money moves, and the card ends rejected. */
  lemma RejectedCardHasCredited(p: ApprovalEffects.Payload, b: ApprovalEffects.Books)
    requires ApprovalEffects.Effect(b, p).Some?
    ensures var end := Run(Money(p), Fresh(b), Overlap(Approved, Rejected));
            end.status == Rejected && end.world == ApprovalEffects.Effect(b, p).value
  {
    OverlappingCallsBothAct(Money(p), b, Approved, Rejected);
  }

  // ----- A held review -----

  /** Either verdict stamps the task's result. */
  function Review(): Effect<Option<Fields>> {
    (result: Option<Fields>, v: CardStatus) =>
      if v == Approved then Some(Stamp(result, ApprovalStamp()))
      else if v == Rejected then Some(Stamp(result, RejectionStamp()))
      else None
  }

  /** A verdict that nothing interrupts is the one-step verdict. */
  lemma VerdictAloneIsAct(s: State<Option<Fields>>, c: nat, v: Verdict, effects: seq<Verdict>)
    requires c !in s.calls && (v == Approve || v == Reject)
    ensures var end := Alone(Review(), s, c, if v == Approve then Approved else Rejected);
            var acted := FounderCards.Act(Desk(s.status, s.applied, s.world, effects), v);
            acted.status == end.status && acted.applied == end.applied && acted.result == end.world
  {
    AloneIsOneStep(Review(), s, c, if v == Approve then Approved else Rejected);
  }

  /** A rejection and an approval that overlap both stamp the task: it is marked approved and rejected. */
  lemma OverlappingVerdictsBothStamp(result: Fields)
    ensures var end := Run(Review(), Fresh(Some(result)), Overlap(Rejected, Approved));
            && end.acted == [Rejected, Approved] && end.status == Approved
            && end.world == Stamp(Stamp(Some(result), RejectionStamp()), ApprovalStamp())
            && end.world.Some? && "csuite_approved" in end.world.value && "csuite_rejected" in end.world.value
            && end.world.value["csuite_approved"] == Flag(true) && end.world.value["csuite_rejected"] == Flag(true)
  {
    OverlappingCallsBothAct(Review(), Some(result), Rejected, Approved);
  }
}
