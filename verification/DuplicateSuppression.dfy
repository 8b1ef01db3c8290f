/** Which actions `enqueue_outward` takes for the same one (kompany/src/kompany/channels/outbox.py). */
module DuplicateSuppression {
  import opened OutwardPolicy
  import opened Outbox
  import opened OutboxProtocol
  import opened EnqueueCalls

  /** A given key is the key. Two calls without one share a key exactly if their digests are equal; a given
      key is that of a keyless call exactly if it spells out that call's digest. */
  lemma KeysAreApart(given: string, digest: string, given': string, digest': string)
    ensures given != "" ==> KeyOf(given, digest) == given
    ensures KeyOf(given, digest) == KeyOf(given', digest')
       <==> if given == "" && given' == "" then digest == digest'
            else if given == "" then given' == "auto:" + digest
            else if given' == "" then given == "auto:" + digest'
            else given == given'
  {
    assert ("auto:" + digest)[5..] == digest && ("auto:" + digest')[5..] == digest';
  }

  /** One request for an outward action. */
  datatype Request = Request(given: string, digest: string, action: Action, id: string, now: int)

  function Ask(s: State, call: nat, r: Request): State {
    Alone(s, call, r.given, r.digest, r.action, r.id, r.now)
  }

  /** The row was queued, and not resolved yet, for the action that the request names. */
  predicate QueuedFor(x: Row, r: Request) {
    Live(x.status) && x.key == if r.given != "" then r.given else "auto:" + r.digest
  }

  /** The requests name the same action: by one key, by one digest, or by a key that spells the digest. */
  predicate SameAction(q: Request, r: Request) {
    if q.given == "" && r.given == "" then q.digest == r.digest
    else if q.given == "" then r.given == "auto:" + q.digest
    else if r.given == "" then q.given == "auto:" + r.digest
    else q.given == r.given
  }

  /** What the call left behind: a new row for the request, or a row that was there. */
  ghost predicate Answered(before: Table, end: State, call: nat, r: Request) {
    && call in end.calls
    && if exists x :: x in before && QueuedFor(x, r) then
         && end.rows == before && end.calls[call].progress.Returned?
         && end.calls[call].progress.row in before && QueuedFor(end.calls[call].progress.row, r)
       else if Present(before, r.id) then end.rows == before && end.calls[call].progress.Raised?
       else
         && |end.rows| == |before| + 1 && end.rows[..|before|] == before
         && end.rows[|before|].id == r.id && end.rows[|before|].action == r.action && QueuedFor(end.rows[|before|], r)
         && end.calls[call].progress == Returned(end.rows[|before|])
  }

  /** A call that nothing interrupts returns a row queued for its action if there is one. Otherwise, under a free
      id, it queues one new row; so two keyless actions with different digests never share a row. */
  lemma AskAnswers(s: State, call: nat, r: Request)
    requires Indexed(s.rows) && call !in s.calls
    ensures Answered(s.rows, Ask(s, call, r), call, r)
  {
    KeysAreApart(r.given, r.digest, "", r.digest);
    CallAloneIsEnqueue(s, call, r.given, r.digest, r.action, r.id, r.now);
    forall x | x in s.rows ensures Holds(x, KeyOf(r.given, r.digest)) <==> QueuedFor(x, r) {
    }
  }

  lemma StepSparesOthers(s: State, step: Step, call: nat, other: nat)
    requires step.Begin? || step.Lookup? || step.InsertRow? || step.Fetch? || step.LookupAgain?
    requires step.call == call && other != call
    ensures other in Next(s, step).calls <==> other in s.calls
  {
  }

  lemma AskSparesOthers(s: State, call: nat, r: Request, other: nat)
    requires other != call
    ensures other in Ask(s, call, r).calls <==> other in s.calls
  {
    var s1 := Next(s, Begin(call, r.given, r.digest, r.action));
    StepSparesOthers(s, Begin(call, r.given, r.digest, r.action), call, other);
    StepSparesOthers(s1, Lookup(call), call, other);
    var s2 := Next(s1, Lookup(call));
    StepSparesOthers(s2, InsertRow(call, r.id, r.now), call, other);
    var s3 := Next(s2, InsertRow(call, r.id, r.now));
    StepSparesOthers(s3, Fetch(call), call, other);
    StepSparesOthers(Next(s3, Fetch(call)), LookupAgain(call), call, other);
  }

  lemma SameActionIsQueuedFor(x: Row, q: Request, r: Request)
    requires QueuedFor(x, q)
    ensures QueuedFor(x, r) <==> SameAction(q, r)
  {
    assert ("auto:" + q.digest)[5..] == q.digest && ("auto:" + r.digest)[5..] == r.digest;
  }

  lemma SecondAnswer(before: Table, mid: State, end: State, q: Request, r: Request)
    requires Answered(before, mid, 0, q) && Answered(mid.rows, end, 1, r)
    requires !Present(before, q.id) && !Present(before, r.id) && q.id != r.id
    requires forall x :: x in before ==> !QueuedFor(x, q) && !QueuedFor(x, r)
    ensures |mid.rows| == |before| + 1 && mid.rows[..|before|] == before && mid.rows[|before|].id == q.id
    ensures 1 in end.calls && end.calls[1].progress.Returned?
    ensures if SameAction(q, r) then end.rows == mid.rows && end.calls[1].progress.row == mid.rows[|before|]
            else |end.rows| == |before| + 2 && end.rows[..|before| + 1] == mid.rows
                 && end.rows[|before| + 1].id == r.id && end.calls[1].progress.row == end.rows[|before| + 1]
  {
    var x := mid.rows[|before|];
    SameActionIsQueuedFor(x, q, r);
    assert x in mid.rows;
    forall y | y in mid.rows && y != x ensures y in before {
      var i :| 0 <= i < |mid.rows| && mid.rows[i] == y;
      assert mid.rows[..|before|][i] == y;
    }
    StaysAbsent(before, mid.rows, r.id);
  }

  lemma StaysAbsent(before: Table, t: Table, id: string)
    requires !Present(before, id) && |t| == |before| + 1 && t[..|before|] == before && t[|before|].id != id
    ensures !Present(t, id)
  {
    assert forall j :: 0 <= j < |before| ==> t[j] == t[..|before|][j];
    assert forall j :: 0 <= j < |t| ==> t[j].id != id;
  }

  /** Of two requests one after the other, for neither of which a row was queued, the first gets a new row. The second
      gets a new row of its own exactly if it names another action, and otherwise the row of the first. */
  lemma SecondRequestIsQueuedIff(s: State, q: Request, r: Request)
    requires Indexed(s.rows) && 0 !in s.calls && 1 !in s.calls
    requires !Present(s.rows, q.id) && !Present(s.rows, r.id) && q.id != r.id
    requires forall x :: x in s.rows ==> !QueuedFor(x, q) && !QueuedFor(x, r)
    ensures var n, first, end := |s.rows|, Ask(s, 0, q), Ask(Ask(s, 0, q), 1, r);
            && |first.rows| == n + 1 && first.rows[..n] == s.rows && first.rows[n].id == q.id
            && 1 in end.calls && end.calls[1].progress.Returned?
            && if SameAction(q, r) then end.rows == first.rows && end.calls[1].progress.row == first.rows[n]
               else |end.rows| == n + 2 && end.rows[..n + 1] == first.rows
                    && end.rows[n + 1].id == r.id && end.calls[1].progress.row == end.rows[n + 1]
  {
    var first := Ask(s, 0, q);
    AskAnswers(s, 0, q);
    AskSparesOthers(s, 0, q, 1);
    AskKeepsIndexed(s, 0, q);
    AskAnswers(first, 1, r);
    SecondAnswer(s.rows, first, Ask(first, 1, r), q, r);
  }

  lemma AskKeepsIndexed(s: State, call: nat, r: Request)
    requires Indexed(s.rows)
    ensures Indexed(Ask(s, call, r).rows)
  {
    var s1 := Next(s, Begin(call, r.given, r.digest, r.action));
    NextKeepsIndexed(s, Begin(call, r.given, r.digest, r.action));
    NextKeepsIndexed(s1, Lookup(call));
    var s2 := Next(s1, Lookup(call));
    NextKeepsIndexed(s2, InsertRow(call, r.id, r.now));
    var s3 := Next(s2, InsertRow(call, r.id, r.now));
    NextKeepsIndexed(s3, Fetch(call));
    NextKeepsIndexed(Next(s3, Fetch(call)), LookupAgain(call));
  }

  /** The one row of an action keeps it from being queued again while it is a draft, queued or parked, and no longer
      when it was approved for posting by hand, discarded, sent or failed. */
  lemma ActionIsFreeAfter(s: State, call: nat, r: Request, row: Row)
    requires Indexed(s.rows) && row in s.rows && call !in s.calls && !Present(s.rows, r.id)
    requires row.key == r.given && r.given != "" && forall x :: x in s.rows && x.key == r.given ==> x == row
    ensures Ask(s, call, r).rows != s.rows <==> row.status in {Status.Approved, Discarded, Sent, Failed}
    ensures Ask(s, call, r).rows == s.rows <==> row.status in {Draft, Queued, Parked}
  {
    AskAnswers(s, call, r);
    StatusIsLive(row, r);
  }

  lemma StatusIsLive(row: Row, r: Request)
    requires row.key == r.given && r.given != ""
    ensures QueuedFor(row, r) <==> row.status in {Draft, Queued, Parked}
    ensures QueuedFor(row, r) <==> row.status !in {Status.Approved, Discarded, Sent, Failed}
  {
    match row.status {
      case Draft | Queued | Parked =>
      case Approved | Discarded | Sent | Failed =>
    }
  }

  /** The table refuses a row exactly beside one of the same id, or if both are drafts, queued or parked with the
      same key; rows without a key do not stand in each other's way. */
  lemma RefusedIff(t: Table, row: Row)
    ensures Insert(t, row).None?
       <==> exists x :: x in t && (x.id == row.id || (x.key == row.key && row.key != ""
                                                      && x.status in {Draft, Queued, Parked}
                                                      && row.status in {Draft, Queued, Parked}))
  {
  }
}
