/** Whether an outward action may run without the founder
    (kompany/src/kompany/core/outward_policy.py). */
module OutwardPolicy {

  /** `spends` says that the declared side effect is `spend`. */
  datatype Action = Action(kind: string, spends: bool, cost: real)

  /** The action classes that the founder set to auto, and the founder's cap per action. */
  datatype Policy = Policy(auto: set<string>, cap: real)

  datatype Mode = Auto | Gated

  const FOUNDER_IDENTITY := "founder_identity"

  function ModeOf(p: Policy, a: Action): Mode {
    if a.kind !in p.auto then Gated
    else if a.kind == FOUNDER_IDENTITY then Gated
    else if a.spends then Gated
    else if a.cost > p.cap then Gated
    else Auto
  }

  /** The floors that no policy lifts. */
  predicate Floored(a: Action) {
    a.kind == FOUNDER_IDENTITY || a.spends
  }

  /** Exactly the floored actions are gated under every policy. */
  lemma FlooredIffAlwaysGated(a: Action)
    ensures Floored(a) <==> forall p :: ModeOf(p, a) == Gated
  {
    assert !Floored(a) ==> ModeOf(Policy({a.kind}, a.cost), a) == Auto;
  }
}
