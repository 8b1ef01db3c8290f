/** Runs of the outward queue, and one in which a call loses the race for a key
    (kompany/src/kompany/channels/outbox.py). */
module OutboxRuns {
  import opened Wrappers
  import opened OutwardPolicy
  import opened Outbox
  import opened OutboxProtocol

  // ----- Reaching a state -----

  lemma TraceGrows(s: State, steps: seq<Step>, step: Step)
    ensures Last(Trace(s, steps + [step])) == Next(Last(Trace(s, steps)), step)
  {
    assert (steps + [step])[..|steps|] == steps;
  }

  ghost predicate AllAllowed(steps: seq<Step>, allowed: Step -> bool) {
    forall i :: 0 <= i < |steps| ==> allowed(steps[i])
  }

  /** Some run of allowed steps leads from `s` to `t`. */
  ghost predicate Reaches(s: State, t: State, allowed: Step -> bool) {
    exists steps :: AllAllowed(steps, allowed) && Last(Trace(s, steps)) == t
  }

  lemma ReachesItself(s: State, allowed: Step -> bool)
    ensures Reaches(s, s, allowed)
  {
    assert AllAllowed([], allowed) && Last(Trace(s, [])) == s;
  }

  lemma AllowedGrows(steps: seq<Step>, step: Step, allowed: Step -> bool)
    requires AllAllowed(steps, allowed) && allowed(step)
    ensures AllAllowed(steps + [step], allowed)
  {
  }

  lemma ReachesNext(s: State, mid: State, step: Step, allowed: Step -> bool)
    requires Reaches(s, mid, allowed) && allowed(step)
    ensures Reaches(s, Next(mid, step), allowed)
  {
    var steps :| AllAllowed(steps, allowed) && Last(Trace(s, steps)) == mid;
    TraceGrows(s, steps, step);
    AllowedGrows(steps, step, allowed);
  }

  predicate AnyStep(step: Step) {
    true
  }

  // ----- A call that loses the race -----

  const PLAIN := Action("", false, 0.0)
  const ALLOW_PLAIN := Policy({""}, 0.0)

  const START := State([], map[], ALLOW_PLAIN, map[], None, multiset{}, multiset{})

  /** Two calls with the same key, and nothing else. */
  function TwoCalls(rows: Table, p: Progress, q: Progress, entered: multiset<string>): State {
    State(rows, map[0 := Call("k", PLAIN, p), 1 := Call("k", PLAIN, q)], ALLOW_PLAIN, map[], None, multiset{}, entered)
  }

  const QUEUED_ROW := Row("a", "k", Queued, 0, PLAIN)

  /** One call has inserted the row that made the other's insert fail. */
  const REFUSED := TwoCalls([QUEUED_ROW], Fetching("a"), Retrying, multiset{"a"})

  lemma BothBegin()
    ensures Next(Next(START, Begin(0, "k", "", PLAIN)), Begin(1, "k", "", PLAIN))
        == TwoCalls([], Looking, Looking, multiset{})
  {
  }

  lemma BothLook()
    ensures Next(Next(TwoCalls([], Looking, Looking, multiset{}), Lookup(0)), Lookup(1))
         == TwoCalls([], Inserting, Inserting, multiset{})
  {
  }

  lemma FirstInserts()
    ensures Next(TwoCalls([], Inserting, Inserting, multiset{}), InsertRow(0, "a", 0))
         == TwoCalls([QUEUED_ROW], Fetching("a"), Inserting, multiset{"a"})
  {
  }

  lemma SecondIsRefused()
    ensures Next(TwoCalls([QUEUED_ROW], Fetching("a"), Inserting, multiset{"a"}), InsertRow(1, "b", 0)) == REFUSED
  {
    assert Clash(QUEUED_ROW, Row("b", "k", Queued, 0, PLAIN)) && QUEUED_ROW in [QUEUED_ROW];
  }

  lemma RaceToTheRefusal()
    ensures Reaches(START, REFUSED, AnyStep)
  {
    BothBegin();
    BothLook();
    FirstInserts();
    SecondIsRefused();
    ReachesItself(START, AnyStep);
    ReachesNext(START, START, Begin(0, "k", "", PLAIN), AnyStep);
    ReachesNext(START, Next(START, Begin(0, "k", "", PLAIN)), Begin(1, "k", "", PLAIN), AnyStep);
    var s := TwoCalls([], Looking, Looking, multiset{});
    ReachesNext(START, s, Lookup(0), AnyStep);
    ReachesNext(START, Next(s, Lookup(0)), Lookup(1), AnyStep);
    s := TwoCalls([], Inserting, Inserting, multiset{});
    ReachesNext(START, s, InsertRow(0, "a", 0), AnyStep);
    ReachesNext(START, Next(s, InsertRow(0, "a", 0)), InsertRow(1, "b", 0), AnyStep);
  }
}
