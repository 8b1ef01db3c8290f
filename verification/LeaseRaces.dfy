/** Four runs in which a tick of the outward lane takes the lease unguarded, and one row is dispatched
    twice for one entry (kompany/src/kompany/core/outward_lane.py, kompany/src/kompany/core/lane_registry.py). */
module LeaseRaces {
  import opened Wrappers
  import opened OutwardPolicy
  import opened Outbox
  import opened OutboxProtocol
  import opened OutboxRuns
  import opened OutwardLane
  import opened OutwardRuns

  /** One queued row, which entered the queue once. */
  function OneRow(status: Status, ticks: map<nat, Tick>, lease: Option<nat>, dispatched: multiset<string>): State {
    State([Row("a", "k", status, 0, PLAIN)], map[], ALLOW_PLAIN, ticks, lease, dispatched, multiset{"a"})
  }

  const IDLE := OneRow(Queued, map[], None, multiset{})

  lemma OneRowFacts(status: Status, ticks: map<nat, Tick>, lease: Option<nat>, dispatched: multiset<string>)
    ensures var s := OneRow(status, ticks, lease, dispatched);
            && RowMode(s, "a") == Auto && s.entered["a"] == 1
            && (Waiting(status) ==> Oldest(s.rows, IsWaiting()) == Some(s.rows[0]))
  {
    var row := Row("a", "k", status, 0, PLAIN);
    assert IsWaiting()(row) == Waiting(status);
    assert [row][1..] == [];
  }

  lemma IdleIsSafe()
    ensures Indexed(IDLE.rows) && Safe(IDLE)
  {
    QuietIsSafe(IDLE);
  }

  /** Both ticks have pulled the row, and nobody has the lease. */
  const BOTH_PULLED := OneRow(Queued, map[0 := Pulled("a"), 1 := Pulled("a")], None, multiset{})

  lemma BothPull(allowed: Step -> bool)
    requires LaneFree(allowed)
    ensures Reaches(IDLE, BOTH_PULLED, allowed)
  {
    ReachesItself(IDLE, allowed);
    OneRowFacts(Queued, map[], None, multiset{});
    PullNext(IDLE, IDLE, 0, IDLE.rows[0], allowed);
    var one := OneRow(Queued, map[0 := Pulled("a")], None, multiset{});
    assert Move(IDLE, 0, Pulled("a")) == one;
    OneRowFacts(Queued, map[0 := Pulled("a")], None, multiset{});
    PullNext(IDLE, one, 1, IDLE.rows[0], allowed);
    assert Move(one, 1, Pulled("a")) == BOTH_PULLED;
  }

  const ONE_WORKS := OneRow(Queued, map[0 := Working("a"), 1 := Pulled("a")], Some(0), multiset{})

  lemma FirstTickWorks(allowed: Step -> bool)
    requires LaneFree(allowed)
    ensures Reaches(IDLE, ONE_WORKS, allowed)
  {
    BothPull(allowed);
    TakeLease(IDLE, BOTH_PULLED, 0, "a", allowed);
    assert Move(BOTH_PULLED, 0, Working("a")).(lease := Some(0)) == ONE_WORKS;
  }

  const BOTH_READ := OneRow(Queued, map[0 := SawNoLease("a"), 1 := SawNoLease("a")], None, multiset{})

  /** The first tick has the lease and works, the second is about to replace it. */
  const FIRST_WORKS := OneRow(Queued, map[0 := Working("a"), 1 := SawNoLease("a")], Some(0), multiset{})

  const ONE_READ := OneRow(Queued, map[0 := SawNoLease("a"), 1 := Pulled("a")], None, multiset{})

  lemma BothReadMoves()
    ensures Move(BOTH_PULLED, 0, SawNoLease("a")) == ONE_READ
    ensures Move(ONE_READ, 1, SawNoLease("a")) == BOTH_READ
  {
    assert BOTH_PULLED.ticks[0 := SawNoLease("a")] == ONE_READ.ticks;
    assert ONE_READ.ticks[1 := SawNoLease("a")] == BOTH_READ.ticks;
  }

  lemma BothRead()
    ensures Reaches(IDLE, BOTH_READ, NoExpiry)
  {
    BothPull(NoExpiry);
    BothReadMoves();
    Reads(IDLE, BOTH_PULLED, 0, "a", NoExpiry);
    Reads(IDLE, ONE_READ, 1, "a", NoExpiry);
  }

  /** Both ticks read the lease before either replaces it. The row still waits and no lease expires,
      and yet it is dispatched twice for one entry. */
  lemma TwoReadersDispatchTwice()
    ensures Indexed(IDLE.rows) && Safe(IDLE)
    ensures Reaches(IDLE, FIRST_WORKS, NoExpiry) && !Guarded(FIRST_WORKS, ReplaceLease(1))
    ensures exists end :: Reaches(FIRST_WORKS, end, NoExpiry) && end.dispatched["a"] > end.entered["a"]
  {
    IdleIsSafe();
    BothRead();
    Replaces(IDLE, BOTH_READ, 0, "a", NoExpiry);
    assert Move(BOTH_READ, 0, Working("a")).(lease := Some(0)) == FIRST_WORKS;
    FirstWorksIsUnguarded();
    UnguardedReplaceDispatchesTooOften(FIRST_WORKS, 1);
  }

  lemma FirstWorksIsUnguarded()
    ensures !Guarded(FIRST_WORKS, ReplaceLease(1)) && RowMode(FIRST_WORKS, "a") == Auto
  {
    OneRowFacts(Queued, FIRST_WORKS.ticks, Some(0), multiset{});
    assert 0 in Busy(FIRST_WORKS.ticks, "a");
    assert |Busy(FIRST_WORKS.ticks, "a")| > 0;
  }

  /** The first tick has sent the row and is gone; the second still holds what it pulled before. */
  const STALE := OneRow(Sent, map[1 := Pulled("a")], None, multiset{"a"})

  /** Two ticks that never touch the lease at the same time: the second pulled before it took the
      lease, and dispatches a row that is sent already. */
  lemma StaleReadDispatchesTwice()
    ensures Reaches(IDLE, STALE, NoExpiry)
    ensures exists end :: Reaches(STALE, end, NoExpiry) && end.dispatched["a"] > end.entered["a"]
  {
    FirstTickSends();
    ReachesItself(STALE, NoExpiry);
    TakeLease(STALE, STALE, 1, "a", NoExpiry);
    var taken := Move(STALE, 1, Working("a")).(lease := Some(1));
    OneRowFacts(Sent, taken.ticks, Some(1), multiset{"a"});
    assert taken == OneRow(Sent, taken.ticks, Some(1), multiset{"a"});
    Dispatch(STALE, taken, 1, "a", NoExpiry);
    assert Dispatched(taken, 1, "a").dispatched["a"] == 2;
  }

  const FIRST_SENDS := OneRow(Queued, map[0 := Sending("a", true), 1 := Pulled("a")], Some(0), multiset{"a"})

  lemma FirstTickDispatches()
    ensures Reaches(IDLE, FIRST_SENDS, NoExpiry)
  {
    FirstTickWorks(NoExpiry);
    OneRowFacts(Queued, ONE_WORKS.ticks, Some(0), multiset{});
    Dispatch(IDLE, ONE_WORKS, 0, "a", NoExpiry);
    FirstSends();
  }

  lemma FirstSends()
    ensures Dispatched(ONE_WORKS, 0, "a") == FIRST_SENDS
  {
    assert multiset{} + multiset{"a"} == multiset{"a"};
    assert ONE_WORKS.ticks[0 := Sending("a", true)] == FIRST_SENDS.ticks;
  }

  lemma FirstTickSends()
    ensures Reaches(IDLE, STALE, NoExpiry)
  {
    FirstTickDispatches();
    ReachesNext(IDLE, FIRST_SENDS, Record(0), NoExpiry);
    FirstTickRecords();
  }

  lemma FirstTickRecords()
    ensures Next(FIRST_SENDS, Record(0)) == STALE
  {
    assert FIRST_SENDS.ticks - {0} == map[1 := Pulled("a")];
    assert Updated(FIRST_SENDS, "a", Sent).rows == [Row("a", "k", Sent, 0, PLAIN)];
  }

  /** The lease of the first tick expired while it works, and the second tick saw none. */
  const LAPSED := OneRow(Queued, map[0 := Working("a"), 1 := SawNoLease("a")], None, multiset{})

  /** A lease that expires under its holder lets a second tick dispatch the same row. */
  lemma ExpiredLeaseDispatchesTwice()
    ensures Reaches(IDLE, LAPSED, AnyStep) && !Guarded(LAPSED, ReplaceLease(1))
    ensures exists end :: Reaches(LAPSED, end, NoExpiry) && end.dispatched["a"] > end.entered["a"]
  {
    LeaseLapses();
    LapsedIsUnguarded();
    UnguardedReplaceDispatchesTooOften(LAPSED, 1);
  }

  lemma LeaseLapses()
    ensures Reaches(IDLE, LAPSED, AnyStep)
  {
    FirstTickWorks(AnyStep);
    NextExpire(ONE_WORKS);
    ReachesNext(IDLE, ONE_WORKS, Expire, AnyStep);
    Reads(IDLE, ONE_WORKS.(lease := None), 1, "a", AnyStep);
    assert ONE_WORKS.ticks[1 := SawNoLease("a")] == LAPSED.ticks;
  }

  lemma NextExpire(s: State)
    ensures Next(s, Expire) == s.(lease := None)
  {
  }

  lemma LapsedIsUnguarded()
    ensures !Guarded(LAPSED, ReplaceLease(1)) && RowMode(LAPSED, "a") == Auto
  {
    OneRowFacts(Queued, LAPSED.ticks, None, multiset{});
    assert 0 in Busy(LAPSED.ticks, "a");
    assert |Busy(LAPSED.ticks, "a")| > 0;
  }

  // ----- The fourth way: a lease that is not the tick's own -----

  const OLDER := Row("a", "k", Queued, 0, PLAIN)
  const YOUNGER := Row("b", "l", Queued, 1, PLAIN)

  /** Two rows with keys of their own, which entered the queue once each; the younger one waits. */
  function TwoRows(older: Status, ticks: map<nat, Tick>, lease: Option<nat>): State {
    State([OLDER.(status := older), YOUNGER], map[], ALLOW_PLAIN, ticks, lease, multiset{}, multiset{"a", "b"})
  }

  lemma TwoRowsFacts(older: Status, ticks: map<nat, Tick>, lease: Option<nat>)
    ensures var s := TwoRows(older, ticks, lease);
            && Indexed(s.rows) && WaitingRow(s.rows, "b") && RowMode(s, "b") == Auto
            && Oldest(s.rows, IsWaiting()) == Some(if Waiting(older) then OLDER.(status := older) else YOUNGER)
  {
    var x := OLDER.(status := older);
    assert [x, YOUNGER][1..] == [YOUNGER] && [YOUNGER][1..] == [];
    assert IsWaiting()(x) == Waiting(older) && IsWaiting()(YOUNGER);
    assert Oldest([YOUNGER], IsWaiting()) == Some(YOUNGER);
    assert Position([x, YOUNGER], "b") == 1;
  }

  /** The older row leaves the queue. */
  lemma OlderLeaves(older: Status, to: Status, ticks: map<nat, Tick>, lease: Option<nat>)
    requires !Waiting(to)
    ensures Updated(TwoRows(older, ticks, lease), "a", to) == TwoRows(to, ticks, lease)
  {
    var t := TwoRows(older, ticks, lease).rows;
    assert Position(t, "a") == 0;
    assert "k"[0] != "l"[0];
    assert !Clash(YOUNGER, OLDER.(status := to));
    assert t[0 := OLDER.(status := to)] == [OLDER.(status := to), YOUNGER];
  }

  const BOTH_WAIT := TwoRows(Queued, map[], None)

  const ONE_PULLED := TwoRows(Queued, map[0 := Pulled("a")], None)

  lemma FirstPullsOlder()
    ensures Reaches(BOTH_WAIT, ONE_PULLED, NoExpiry)
  {
    ReachesItself(BOTH_WAIT, NoExpiry);
    TwoRowsFacts(Queued, map[], None);
    PullNext(BOTH_WAIT, BOTH_WAIT, 0, OLDER, NoExpiry);
    assert Move(BOTH_WAIT, 0, Pulled("a")) == ONE_PULLED;
  }

  /** One tick has pulled the older row, which the founder then discarded. */
  const ONE_DISCARDED := TwoRows(Discarded, map[0 := Pulled("a")], None)

  lemma OlderIsDiscarded()
    ensures Reaches(BOTH_WAIT, ONE_DISCARDED, NoExpiry)
  {
    FirstPullsOlder();
    OlderLeaves(Queued, Discarded, ONE_PULLED.ticks, None);
    NextVerdict(ONE_PULLED, "a", Discarded);
    ReachesNext(BOTH_WAIT, ONE_PULLED, Verdict("a", Discarded), NoExpiry);
  }

  const EACH_PULLED := TwoRows(Discarded, map[0 := Pulled("a"), 1 := Pulled("b")], None)

  lemma TwoRowsMove(older: Status, ticks: map<nat, Tick>, lease: Option<nat>, t: nat, to: Tick)
    ensures Move(TwoRows(older, ticks, lease), t, to) == TwoRows(older, ticks[t := to], lease)
  {
  }

  lemma PullsYounger(s: State, older: Status, ticks: map<nat, Tick>, t: nat, allowed: Step -> bool)
    requires LaneFree(allowed) && Reaches(s, TwoRows(older, ticks, None), allowed)
    requires !Waiting(older) && t !in ticks
    ensures Reaches(s, TwoRows(older, ticks[t := Pulled("b")], None), allowed)
  {
    TwoRowsFacts(older, ticks, None);
    PullNext(s, TwoRows(older, ticks, None), t, YOUNGER, allowed);
    TwoRowsMove(older, ticks, None, t, Pulled("b"));
  }

  lemma ReadsYounger(s: State, older: Status, ticks: map<nat, Tick>, t: nat, allowed: Step -> bool)
    requires LaneFree(allowed) && Reaches(s, TwoRows(older, ticks, None), allowed)
    requires !Waiting(older) && t !in ticks
    ensures Reaches(s, TwoRows(older, ticks[t := SawNoLease("b")], None), allowed)
  {
    var pulled := ticks[t := Pulled("b")];
    PullsYounger(s, older, ticks, t, allowed);
    Reads(s, TwoRows(older, pulled, None), t, "b", allowed);
    TwoRowsMove(older, pulled, None, t, SawNoLease("b"));
    assert pulled[t := SawNoLease("b")] == ticks[t := SawNoLease("b")];
  }

  const EACH_READ := TwoRows(Discarded, map[0 := SawNoLease("a"), 1 := SawNoLease("b")], None)

  lemma EachReads()
    ensures Reaches(BOTH_WAIT, EACH_READ, NoExpiry)
  {
    OlderIsDiscarded();
    PullsYounger(BOTH_WAIT, Discarded, ONE_DISCARDED.ticks, 1, NoExpiry);
    assert ONE_DISCARDED.ticks[1 := Pulled("b")] == EACH_PULLED.ticks;
    TwoMoves(EACH_PULLED.ticks, Pulled("a"), Pulled("b"), SawNoLease("a"), SawNoLease("b"));
    Reads(BOTH_WAIT, EACH_PULLED, 0, "a", NoExpiry);
    Reads(BOTH_WAIT, Move(EACH_PULLED, 0, SawNoLease("a")), 1, "b", NoExpiry);
  }

  lemma TwoMoves(ticks: map<nat, Tick>, p: Tick, q: Tick, p': Tick, q': Tick)
    requires ticks == map[0 := p, 1 := q]
    ensures ticks[0 := p'][1 := q'] == map[0 := p', 1 := q']
  {
  }

  const EACH_WORKS := TwoRows(Discarded, map[0 := Working("a"), 1 := Working("b")], Some(1))

  /** Each takes the lease for its own row. */
  lemma EachTakesTheLease()
    ensures Reaches(BOTH_WAIT, EACH_WORKS, NoExpiry)
  {
    EachReads();
    TwoMoves(EACH_READ.ticks, SawNoLease("a"), SawNoLease("b"), Working("a"), Working("b"));
    Replaces(BOTH_WAIT, EACH_READ, 0, "a", NoExpiry);
    Replaces(BOTH_WAIT, Move(EACH_READ, 0, Working("a")).(lease := Some(0)), 1, "b", NoExpiry);
  }

  /** The first tick is done, and the lease of the second is gone while it works. */
  const LEASE_GONE := TwoRows(Parked, map[1 := Working("b")], None)

  lemma FirstParks()
    ensures Reaches(BOTH_WAIT, LEASE_GONE, NoExpiry)
  {
    EachTakesTheLease();
    NextPark(EACH_WORKS, 0, "a");
    OlderLeaves(Discarded, Parked, EACH_WORKS.ticks, Some(1));
    assert EACH_WORKS.ticks - {0} == LEASE_GONE.ticks;
    ReachesNext(BOTH_WAIT, EACH_WORKS, Park(0), NoExpiry);
  }

  /** A third tick has pulled the same row and sees no lease. */
  const RELEASED := TwoRows(Parked, map[1 := Working("b"), 2 := SawNoLease("b")], None)

  lemma ThirdReads()
    ensures Reaches(BOTH_WAIT, RELEASED, NoExpiry)
  {
    FirstParks();
    ReadsYounger(BOTH_WAIT, Parked, LEASE_GONE.ticks, 2, NoExpiry);
    assert LEASE_GONE.ticks[2 := SawNoLease("b")] == RELEASED.ticks;
  }

  lemma ReleasedIsSafe()
    ensures Safe(RELEASED) && WaitingRow(RELEASED.rows, "b")
    ensures !Guarded(RELEASED, ReplaceLease(2)) && RowMode(RELEASED, "b") == Auto
  {
    TwoRowsFacts(Parked, RELEASED.ticks, None);
    YoungerIsBusy();
    forall id ensures SafeFor(RELEASED, id) {
      if id != "b" {
        assert Busy(RELEASED.ticks, id) == {};
        OnlyYoungerWaits(RELEASED.ticks, id);
      }
    }
  }

  lemma YoungerIsBusy()
    ensures |Busy(RELEASED.ticks, "b")| == 1
  {
    assert Busy(RELEASED.ticks, "b") == {1};
  }

  lemma OnlyYoungerWaits(ticks: map<nat, Tick>, id: string)
    requires id != "b"
    ensures !WaitingRow(TwoRows(Parked, ticks, None).rows, id)
  {
  }

  /** The end of one tick drops the lane's lease, which another tick holds and still works under. No lease
      expired, the row waits, and the bound holds; a third tick sees no lease, takes it, and the row is
      dispatched twice for one entry. */
  lemma ReleasedLeaseDispatchesTwice()
    ensures Indexed(BOTH_WAIT.rows) && Reaches(BOTH_WAIT, RELEASED, NoExpiry) && Safe(RELEASED)
    ensures WaitingRow(RELEASED.rows, "b") && !Guarded(RELEASED, ReplaceLease(2))
    ensures exists end :: Reaches(RELEASED, end, NoExpiry) && end.dispatched["b"] > end.entered["b"]
  {
    TwoRowsFacts(Queued, map[], None);
    ThirdReads();
    ReleasedIsSafe();
    UnguardedReplaceDispatchesTooOften(RELEASED, 2);
  }
}
