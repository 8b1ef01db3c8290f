/** What one `enqueue_outward` call returns, among others and alone
    (kompany/src/kompany/channels/outbox.py). */
module EnqueueCalls {
  import opened Wrappers
  import opened OutwardPolicy
  import opened Outbox
  import opened OutboxProtocol

  // ----- What a call returns -----

  predicate LiveIn(t: Table, id: string, key: string) {
    Present(t, id) && Holds(Get(t, id), key)
  }

  /** At state `m` of the run the call was under way and the row was live with its key. */
  predicate LiveDuring(tr: seq<State>, m: nat, call: nat, id: string) {
    && m < |tr| && call in tr[m].calls && InProgress(tr[m].calls[call])
    && LiveIn(tr[m].rows, id, tr[m].calls[call].key)
  }

  ghost predicate WasLive(tr: seq<State>, call: nat, id: string) {
    exists m :: LiveDuring(tr, m, call, id)
  }

  /** What a call that found or inserted a row knows about it. */
  ghost predicate Knows(tr: seq<State>, t: Table, c: Call, call: nat) {
    && c.key != ""
    && (c.progress.Fetching? ==>
          WasLive(tr, call, c.progress.id) && Present(t, c.progress.id) && Get(t, c.progress.id).key == c.key)
    && (c.progress.Returned? ==> c.progress.row.key == c.key && WasLive(tr, call, c.progress.row.id))
  }

  ghost predicate Witnessed(tr: seq<State>, call: nat)
    requires tr != []
  {
    call in Last(tr).calls ==> Knows(tr, Last(tr).rows, Last(tr).calls[call], call)
  }

  lemma WasLiveExtends(tr: seq<State>, s: State, call: nat, id: string)
    requires WasLive(tr, call, id)
    ensures WasLive(tr + [s], call, id)
  {
    var m :| LiveDuring(tr, m, call, id);
    assert LiveDuring(tr + [s], m, call, id);
  }

  lemma FoundIsLive(t: Table, key: string)
    requires Indexed(t) && FindLive(t, key).Some?
    ensures LiveIn(t, FindLive(t, key).value.id, key) && FindLive(t, key).value.key == key
  {
    assert HoldsKey(key)(FindLive(t, key).value);
    OneRowPerId(t, FindLive(t, key).value);
  }

  lemma InsertedIsLive(t: Table, row: Row)
    requires Indexed(t) && Insert(t, row).Some? && Holds(row, row.key)
    ensures LiveIn(Insert(t, row).value, row.id, row.key)
  {
    InsertKeepsIndexed(t, row);
    assert row in Insert(t, row).value;
    OneRowPerId(Insert(t, row).value, row);
  }

  /** A lookup that finds a row returns it at the instant at which it was live. */
  lemma LookupWitness(tr: seq<State>, call: nat)
    requires tr != [] && Indexed(Last(tr).rows) && call in Last(tr).calls
    requires InProgress(Last(tr).calls[call]) && FindLive(Last(tr).rows, Last(tr).calls[call].key).Some?
    ensures var row := FindLive(Last(tr).rows, Last(tr).calls[call].key).value;
            row.key == Last(tr).calls[call].key && WasLive(tr, call, row.id)
  {
    FoundIsLive(Last(tr).rows, Last(tr).calls[call].key);
    assert LiveDuring(tr, |tr| - 1, call, FindLive(Last(tr).rows, Last(tr).calls[call].key).value.id);
  }

  lemma InsertWitness(tr: seq<State>, step: Step)
    requires tr != [] && Indexed(Last(tr).rows) && step.InsertRow? && step.call in Last(tr).calls
    requires Last(tr).calls[step.call].progress.Inserting? && Last(tr).calls[step.call].key != ""
    requires Insert(Last(tr).rows, RowOf(Last(tr).calls[step.call], step.newId, step.now)).Some?
    ensures Witnessed(tr + [Next(Last(tr), step)], step.call)
  {
    var s := Last(tr);
    var row := RowOf(s.calls[step.call], step.newId, step.now);
    InsertedIsLive(s.rows, row);
    assert LiveDuring(tr + [Next(s, step)], |tr|, step.call, step.newId);
  }

  /** A step that leaves a call where it was leaves it its witness. */
  lemma IdleKeepsWitness(tr: seq<State>, step: Step, call: nat)
    requires tr != [] && Witnessed(tr, call) && call in Last(tr).calls
    requires Last(tr).calls[call] == Next(Last(tr), step).calls[call]
    ensures Witnessed(tr + [Next(Last(tr), step)], call)
  {
    var c := Last(tr).calls[call];
    if c.progress.Fetching? {
      WasLiveExtends(tr, Next(Last(tr), step), call, c.progress.id);
      RowsPersist(Last(tr), step, c.progress.id);
    } else if c.progress.Returned? {
      WasLiveExtends(tr, Next(Last(tr), step), call, c.progress.row.id);
    }
  }

  lemma CallsPersist(s: State, step: Step, call: nat)
    requires call in s.calls
    ensures call in Next(s, step).calls
  {
    if OfLane(step) {
      LaneTouches(s, step);
    }
  }

  lemma FetchKeepsWitness(tr: seq<State>, step: Step)
    requires tr != [] && step.Fetch? && step.call in Last(tr).calls && Witnessed(tr, step.call)
    requires Last(tr).calls[step.call] != CallNext(Last(tr), step).calls[step.call]
    ensures Witnessed(tr + [Next(Last(tr), step)], step.call)
  {
    var id := Last(tr).calls[step.call].progress.id;
    WasLiveExtends(tr, Next(Last(tr), step), step.call, id);
    OneNameForARow(Last(tr).rows, id);
  }

  lemma LookupResult(s: State, step: Step)
    requires (step.Lookup? || step.LookupAgain?) && step.call in s.calls
    requires s.calls[step.call] != CallNext(s, step).calls[step.call]
    ensures step.call in Next(s, step).calls && InProgress(s.calls[step.call])
    ensures var found := FindLive(s.rows, s.calls[step.call].key);
            Next(s, step).calls[step.call] == s.calls[step.call].(progress :=
              if found.Some? then Returned(found.value) else if step.Lookup? then Inserting else Raised)
  {
  }

  lemma WitnessOfReturned(tr: seq<State>, call: nat)
    requires tr != [] && call in Last(tr).calls && Last(tr).calls[call].key != ""
    requires var c := Last(tr).calls[call];
             c.progress.Returned? && c.progress.row.key == c.key && WasLive(tr, call, c.progress.row.id)
    ensures Witnessed(tr, call)
  {
  }

  lemma LookupKeepsWitness(tr: seq<State>, step: Step)
    requires tr != [] && (step.Lookup? || step.LookupAgain?) && step.call in Last(tr).calls
    requires Indexed(Last(tr).rows) && Witnessed(tr, step.call)
    requires Last(tr).calls[step.call] != CallNext(Last(tr), step).calls[step.call]
    ensures Witnessed(tr + [Next(Last(tr), step)], step.call)
  {
    LookupResult(Last(tr), step);
    var found := FindLive(Last(tr).rows, Last(tr).calls[step.call].key);
    if found.Some? {
      LookupWitness(tr, step.call);
      WasLiveExtends(tr, Next(Last(tr), step), step.call, found.value.id);
      WitnessOfReturned(tr + [Next(Last(tr), step)], step.call);
    }
  }

  /** What a step of the call itself leaves it knowing. */
  lemma MoveKeepsWitness(tr: seq<State>, step: Step)
    requires tr != [] && (step.InsertRow? || step.Fetch? || step.Lookup? || step.LookupAgain?)
    requires Indexed(Last(tr).rows) && step.call in Last(tr).calls && Witnessed(tr, step.call)
    requires Last(tr).calls[step.call] != CallNext(Last(tr), step).calls[step.call]
    ensures Witnessed(tr + [Next(Last(tr), step)], step.call)
  {
    if step.InsertRow? {
      if Insert(Last(tr).rows, RowOf(Last(tr).calls[step.call], step.newId, step.now)).Some? {
        InsertWitness(tr, step);
      }
    } else if step.Fetch? {
      FetchKeepsWitness(tr, step);
    } else {
      LookupKeepsWitness(tr, step);
    }
  }

  lemma StepKeepsWitness(tr: seq<State>, step: Step, call: nat)
    requires tr != [] && Indexed(Last(tr).rows) && Witnessed(tr, call)
    ensures Witnessed(tr + [Next(Last(tr), step)], call)
  {
    var s := Last(tr);
    if call in s.calls {
      CallsPersist(s, step, call);
      if OfLane(step) {
        LaneTouches(s, step);
      }
      if Next(s, step).calls[call] == s.calls[call] {
        IdleKeepsWitness(tr, step, call);
      } else {
        MoveKeepsWitness(tr, step);
      }
    }
  }

  lemma OneNameForARow(t: Table, id: string)
    requires Present(t, id)
    ensures Get(t, id).id == id
  {
  }

  lemma {:induction false} TraceKeepsWitness(s: State, steps: seq<Step>, call: nat)
    requires Indexed(s.rows) && call !in s.calls
    ensures Witnessed(Trace(s, steps), call)
  {
    if steps != [] {
      var k := |steps| - 1;
      TraceKeepsWitness(s, steps[..k], call);
      KeysStayUnique(s, steps[..k]);
      StepKeepsWitness(Trace(s, steps[..k]), steps[k], call);
    }
  }

  /** In every interleaving, a call that returns gives back a row with its key that was live at
      some instant while the call was under way. */
  lemma ReturnedRowsWereLive(s: State, steps: seq<Step>, call: nat)
    requires Indexed(s.rows) && call !in s.calls
    ensures var tr := Trace(s, steps);
            call in Last(tr).calls && Last(tr).calls[call].progress.Returned? ==>
              && Last(tr).calls[call].progress.row.key == Last(tr).calls[call].key
              && WasLive(tr, call, Last(tr).calls[call].progress.row.id)
  {
    TraceKeepsWitness(s, steps, call);
  }

  /** The second lookup of a call whose insert was refused raises exactly when nobody holds
      the key any more. */
  lemma RaisesIff(s: State, call: nat)
    requires call in s.calls && s.calls[call].progress.Retrying?
    ensures Next(s, LookupAgain(call)).calls[call].progress.Raised?
       <==> forall r :: r in s.rows ==> !Holds(r, s.calls[call].key)
  {
    forall r | r in s.rows ensures HoldsKey(s.calls[call].key)(r) == Holds(r, s.calls[call].key) {
    }
  }

  // ----- One call that nothing interrupts -----

  /** One call whose steps nothing interrupts. Steps that do not apply change nothing. */
  function Alone(s: State, call: nat, given: string, digest: string, action: Action, id: string, now: int): State {
    var looked := Next(Next(s, Begin(call, given, digest, action)), Lookup(call));
    Next(Next(Next(looked, InsertRow(call, id, now)), Fetch(call)), LookupAgain(call))
  }

  lemma AfterLookup(s: State, call: nat, given: string, digest: string, action: Action)
    requires call !in s.calls
    ensures var key, looked := KeyOf(given, digest), Next(Next(s, Begin(call, given, digest, action)), Lookup(call));
            looked.rows == s.rows && call in looked.calls
            && looked.calls[call] == Call(key, action,
                 if FindLive(s.rows, key).Some? then Returned(FindLive(s.rows, key).value) else Inserting)
  {
  }

  lemma ReturnedStays(s: State, call: nat, id: string, now: int)
    requires call in s.calls && s.calls[call].progress.Returned?
    ensures Next(s, InsertRow(call, id, now)) == s && Next(s, Fetch(call)) == s && Next(s, LookupAgain(call)) == s
  {
  }

  /** A new row without a rival is inserted, and is found under its id. */
  lemma FreeInsert(t: Table, row: Row)
    requires Indexed(t) && FindLive(t, row.key).None?
    ensures if Present(t, row.id) then Insert(t, row).None?
            else Insert(t, row) == Some(t + [row]) && Present(t + [row], row.id) && Get(t + [row], row.id) == row
  {
    if Present(t, row.id) {
      assert Get(t, row.id) in t && Clash(Get(t, row.id), row);
    } else {
      forall x | x in t ensures !Clash(x, row) {
        OneRowPerId(t, x);
        assert !HoldsKey(row.key)(x);
      }
      InsertKeepsIndexed(t, row);
      assert row in t + [row];
      OneRowPerId(t + [row], row);
    }
  }

  /** The rest of a call that found nothing. */
  lemma InsertAlone(s: State, call: nat, id: string, now: int)
    requires Indexed(s.rows) && call in s.calls && s.calls[call].progress.Inserting?
    requires s.calls[call].key != "" && FindLive(s.rows, s.calls[call].key).None?
    ensures var row := RowOf(s.calls[call], id, now);
            var end := Next(Next(Next(s, InsertRow(call, id, now)), Fetch(call)), LookupAgain(call));
            && call in end.calls
            && if Present(s.rows, id) then end.rows == s.rows && end.calls[call].progress.Raised?
               else end.rows == s.rows + [row] && end.calls[call].progress == Returned(row)
  {
    FreeInsert(s.rows, RowOf(s.calls[call], id, now));
  }

  /** Uninterrupted, the steps of a call are `enqueue_outward`: they meet the contract of
      `OutboxStore.EnqueueOutward`. */
  lemma CallAloneIsEnqueue(s: State, call: nat, given: string, digest: string, action: Action, id: string, now: int)
    requires Indexed(s.rows) && call !in s.calls
    ensures var key := KeyOf(given, digest);
            var end := Alone(s, call, given, digest, action, id, now);
            && call in end.calls
            && if exists x :: x in s.rows && Holds(x, key) then
                 end.rows == s.rows && end.calls[call].progress.Returned?
                 && end.calls[call].progress.row in end.rows && Holds(end.calls[call].progress.row, key)
               else if Present(s.rows, id) then
                 end.rows == s.rows && end.calls[call].progress.Raised?
               else
                 end.rows == s.rows + [Row(id, key, Queued, now, action)]
                 && end.calls[call].progress == Returned(Row(id, key, Queued, now, action))
  {
    var key := KeyOf(given, digest);
    var looked := Next(Next(s, Begin(call, given, digest, action)), Lookup(call));
    AfterLookup(s, call, given, digest, action);
    forall x | x in s.rows ensures HoldsKey(key)(x) == Holds(x, key) {
    }
    if FindLive(s.rows, key).Some? {
      ReturnedStays(looked, call, id, now);
    } else {
      InsertAlone(looked, call, id, now);
    }
  }
}
