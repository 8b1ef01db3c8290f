/** Which row a tick of the outward lane works on, and what the lease lets in
    (kompany/src/kompany/core/outward_lane.py, kompany/src/kompany/core/lane_registry.py). */
module LaneEntry {
  import opened Outbox
  import opened OutboxProtocol

  /** The row at `i` satisfies `p`, none that does is older, and of the equally old ones it comes first. */
  ghost predicate IsOldest(t: Table, p: Row -> bool, i: nat) {
    && i < |t| && p(t[i])
    && forall j :: 0 <= j < |t| && p(t[j]) ==>
         t[i].createdAt <= t[j].createdAt && (j < i ==> t[i].createdAt < t[j].createdAt)
  }

  lemma {:induction false} OldestIsOldest(t: Table, p: Row -> bool) returns (i: nat)
    requires Oldest(t, p).Some?
    ensures IsOldest(t, p, i) && t[i] == Oldest(t, p).value
  {
    var rest := t[1..];
    assert forall j :: 0 <= j < |rest| ==> rest[j] == t[j + 1];
    if Oldest(rest, p).None? {
      assert forall j :: 0 <= j < |rest| ==> rest[j] in rest;
      i := 0;
    } else {
      var k := OldestIsOldest(rest, p);
      i := if p(t[0]) && t[0].createdAt <= rest[k].createdAt then 0 else k + 1;
      forall j | 0 <= j < |t| && p(t[j])
        ensures t[i].createdAt <= t[j].createdAt && (j < i ==> t[i].createdAt < t[j].createdAt)
      {
        assert j > 0 ==> t[j] == rest[j - 1];
      }
    }
  }

  /** A row that a tick takes up: a draft of the queue or a queued one. */
  predicate Takes(r: Row) {
    r.status in {Draft, Queued}
  }

  /** A tick pulls the oldest row that is a draft or queued, of equally old ones the first, and ends without one. */
  lemma PullTakesTheOldest(s: State, t: nat)
    requires At(s, t, Looked)
    ensures var s' := Next(s, Pull(t));
            && s' == s.(ticks := s'.ticks) && s'.ticks - {t} == s.ticks - {t}
            && if forall x :: x in s.rows ==> !Takes(x) then t !in s'.ticks
               else exists i: nat :: IsOldest(s.rows, Takes, i) && At(s', t, Pulled(s.rows[i].id))
  {
    if Oldest(s.rows, IsWaiting()).Some? {
      var i := OldestIsOldest(s.rows, IsWaiting());
      OldestWaitingIsTaken(s.rows, i);
    }
  }

  lemma OldestWaitingIsTaken(t: Table, i: nat)
    requires IsOldest(t, IsWaiting(), i)
    ensures IsOldest(t, Takes, i)
  {
    forall j | 0 <= j < |t| ensures IsWaiting()(t[j]) == Takes(t[j]) {
    }
  }

  /** While the lane's lease is held no tick gets in: one that looks does not start, and one that pulled a row ends
      when it reads the lease. Nothing else changes. */
  lemma HeldLeaseStopsTicks(s: State, t: nat)
    requires s.lease.Some?
    ensures Next(s, Look(t)) == s
    ensures t in s.ticks && s.ticks[t].Pulled? ==> Next(s, ReadLease(t)) == s.(ticks := s.ticks - {t})
  {
  }
}
