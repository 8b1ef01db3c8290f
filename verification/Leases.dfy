/** Short-lived credential leases: the in-memory broker and the checks of its client
    (kompany/src/kompany/core/credential_broker.py). Times are in seconds. */
module Leases {
  import opened Wrappers

  datatype Status = Active | Exhausted | Revoked

  datatype Scope = Scope(secretRef: string, company: string, project: string, agent: string,
                         worker: string, connector: string, action: string, destination: string)

  datatype Lease = Lease(scope: Scope, expiresAt: int, maxUses: int, usesRemaining: int, status: Status)

  datatype Request = Request(scope: Scope, ttl: int, maxUses: int)

  datatype SecretRef = SecretRef(id: string, company: string, project: string, connector: string,
                                 actions: seq<string>, agents: seq<string>, destinations: seq<string>,
                                 maxTtl: int, maxUses: int)

  datatype Problem = RefNotFound | OutOfScope | LeaseNotFound | NotUsable

  /** What the request model itself enforces. */
  predicate ValidRequest(r: Request) {
    0 < r.ttl <= 3600 && 0 < r.maxUses <= 10
  }

  type Table = map<string, Lease>

  // ----- The broker -----

  function IssueResult(secrets: map<string, SecretRef>, r: Request, now: int): Result<Lease, Problem> {
    if r.scope.secretRef !in secrets then Err(RefNotFound)
    else
      var ref := secrets[r.scope.secretRef];
      if (r.scope.company, r.scope.project, r.scope.connector) != (ref.company, ref.project, ref.connector)
         || r.scope.action !in ref.actions
      then Err(OutOfScope)
      else Ok(Lease(r.scope.(secretRef := ref.id), now + r.ttl, r.maxUses, r.maxUses, Active))
  }

  predicate Usable(l: Lease, now: int) {
    l.status == Active && now < l.expiresAt && l.usesRemaining > 0
  }

  function Consumed(l: Lease): Lease {
    var left := l.usesRemaining - 1;
    l.(usesRemaining := left, status := if left == 0 then Exhausted else l.status)
  }

  function RevokedLease(l: Lease): Lease {
    l.(status := Revoked, usesRemaining := 0)
  }

  class FakeBroker {
    const secrets: map<string, SecretRef>
    var leases: Table

    /** The same call in the runs below. */
    ghost function After(before: Table, c: Call, now: int): Table {
      Next(secrets, World(before, multiset{}, {}), c, now).leases
    }

    constructor (secrets: map<string, SecretRef>)
      ensures this.secrets == secrets && leases == map[]
    {
      this.secrets, leases := secrets, map[];
    }

    method Issue(r: Request, id: string, now: int) returns (lease: Result<Lease, Problem>)
      modifies this
      ensures lease == IssueResult(secrets, r, now)
      ensures leases == if lease.Ok? then old(leases)[id := lease.value] else old(leases)
      ensures ValidRequest(r) && id !in old(leases) ==> leases == After(old(leases), Call.Issue(r, id), now)
    {
      if r.scope.secretRef !in secrets {
        return Err(RefNotFound);
      }
      var ref := secrets[r.scope.secretRef];
      if r.scope.company != ref.company || r.scope.project != ref.project
         || r.scope.connector != ref.connector || r.scope.action !in ref.actions {
        return Err(OutOfScope);
      }
      var l := Lease(r.scope.(secretRef := ref.id), now + r.ttl, r.maxUses, r.maxUses, Active);
      leases := leases[id := l];
      return Ok(l);
    }

    method Get(id: string) returns (lease: Result<Lease, Problem>)
      ensures lease == if id in leases then Ok(leases[id]) else Err(LeaseNotFound)
    {
      if id !in leases {
        return Err(LeaseNotFound);
      }
      return Ok(leases[id]);
    }

    method Consume(id: string, now: int) returns (lease: Result<Lease, Problem>)
      modifies this
      ensures lease.Ok? <==> id in old(leases) && Usable(old(leases)[id], now)
      ensures lease.Ok? ==> lease.value == Consumed(old(leases)[id]) && leases == old(leases)[id := lease.value]
      ensures leases == After(old(leases), Call.Consume(id), now)
    {
      lease := Get(id);
      if lease.Err? {
        return;
      }
      var l := lease.value;
      if l.status != Active || l.expiresAt <= now || l.usesRemaining <= 0 {
        return Err(NotUsable);
      }
      l := l.(usesRemaining := l.usesRemaining - 1);
      if l.usesRemaining == 0 {
        l := l.(status := Exhausted);
      }
      leases := leases[id := l];
      return Ok(l);
    }

    method Revoke(id: string) returns (lease: Result<Lease, Problem>)
      modifies this
      ensures lease.Ok? <==> id in old(leases)
      ensures lease.Ok? ==> lease.value == RevokedLease(old(leases)[id]) && leases == old(leases)[id := lease.value]
      ensures forall now :: leases == After(old(leases), Call.Revoke(id), now)
    {
      lease := Get(id);
      if lease.Ok? {
        var l := lease.value.(status := Revoked, usesRemaining := 0);
        leases := leases[id := l];
        lease := Ok(l);
      }
    }
  }

  // ----- Runs -----

  datatype Call = Issue(request: Request, id: string) | Consume(id: string) | Revoke(id: string) | Get(id: string)

  /** The table, and as history: how often each lease was consumed, and which were revoked. */
  datatype World = World(leases: Table, consumed: multiset<string>, revoked: set<string>)

  /** A generated lease id is assumed to be new; a call with a used one is no call. */
  function Next(secrets: map<string, SecretRef>, w: World, c: Call, now: int): World {
    match c
    case Issue(r, id) =>
      var lease := IssueResult(secrets, r, now);
      if id in w.leases || lease.Err? || !ValidRequest(r) then w
      else w.(leases := w.leases[id := lease.value])
    case Consume(id) =>
      if id in w.leases && Usable(w.leases[id], now) then
        w.(leases := w.leases[id := Consumed(w.leases[id])], consumed := w.consumed + multiset{id})
      else w
    case Revoke(id) =>
      if id in w.leases then
        w.(leases := w.leases[id := RevokedLease(w.leases[id])], revoked := w.revoked + {id})
      else w
    case Get(_) => w
  }

  function Run(secrets: map<string, SecretRef>, w: World, calls: seq<(Call, int)>): World
    decreases |calls|
  {
    if calls == [] then w else Run(secrets, Next(secrets, w, calls[0].0, calls[0].1), calls[1..])
  }

  predicate LeaseInv(l: Lease, consumed: nat, revoked: bool) {
    && 0 < l.maxUses && 0 <= l.usesRemaining <= l.maxUses
    && (l.status == Active <==> l.usesRemaining > 0)
    && (l.status == Revoked <==> revoked)
    && (!revoked ==> consumed + l.usesRemaining == l.maxUses)
    && consumed <= l.maxUses
  }

  predicate Sound(w: World, id: string) {
    if id in w.leases then LeaseInv(w.leases[id], w.consumed[id], id in w.revoked)
    else w.consumed[id] == 0 && id !in w.revoked
  }

  ghost predicate Inv(w: World) {
    forall id :: Sound(w, id)
  }

  lemma NextKeepsSound(secrets: map<string, SecretRef>, w: World, c: Call, now: int, id: string)
    requires Sound(w, id)
    ensures Sound(Next(secrets, w, c, now), id)
  {
  }

  lemma NextKeepsInv(secrets: map<string, SecretRef>, w: World, c: Call, now: int)
    requires Inv(w)
    ensures Inv(Next(secrets, w, c, now))
  {
    forall id ensures Sound(Next(secrets, w, c, now), id) {
      assert Sound(w, id);
      NextKeepsSound(secrets, w, c, now, id);
    }
  }

  /** Over every run: a lease is active exactly while uses remain, uses are conserved until it is
      revoked, and it is never consumed more often than it allows. */
  lemma {:induction false} UsesAreConserved(secrets: map<string, SecretRef>, w: World, calls: seq<(Call, int)>)
    requires Inv(w)
    ensures Inv(Run(secrets, w, calls))
    decreases |calls|
  {
    if calls != [] {
      NextKeepsInv(secrets, w, calls[0].0, calls[0].1);
      UsesAreConserved(secrets, Next(secrets, w, calls[0].0, calls[0].1), calls[1..]);
    }
  }

  /** Once revoked, exhausted or expired, a lease is never consumed again, if time does not run
      backwards. */
  lemma {:induction false} UnusableIsForEver(secrets: map<string, SecretRef>, w: World, id: string, t: int,
                                             calls: seq<(Call, int)>)
    requires Inv(w) && id in w.leases && !Usable(w.leases[id], t)
    requires forall k :: 0 <= k < |calls| ==> t <= calls[k].1
    ensures Run(secrets, w, calls).consumed[id] == w.consumed[id]
    decreases |calls|
  {
    if calls != [] {
      var (c, now) := calls[0];
      var w' := Next(secrets, w, c, now);
      NextKeepsInv(secrets, w, c, now);
      assert now >= t;
      assert id in w'.leases && !Usable(w'.leases[id], t) && w'.consumed[id] == w.consumed[id];
      assert forall k :: 0 <= k < |calls[1..]| ==> calls[1..][k] == calls[k + 1];
      UnusableIsForEver(secrets, w', id, t, calls[1..]);
    }
  }

  // ----- The client -----

  predicate PreflightAccepts(r: Request, ref: SecretRef) {
    && r.scope.secretRef == ref.id && r.scope.company == ref.company && r.scope.project == ref.project
    && r.scope.connector == ref.connector
    && r.scope.agent in ref.agents && r.scope.action in ref.actions && r.scope.destination in ref.destinations
    && r.ttl <= ref.maxTtl && r.maxUses <= ref.maxUses
  }

  /** The clock is read once for the latest expiry and once more for the comparison with now. */
  predicate LeaseRejected(r: Request, l: Lease, now1: int, now2: int) {
    || l.scope != r.scope
    || l.status != Active
    || l.maxUses > r.maxUses
    || l.usesRemaining > l.maxUses
    || l.usesRemaining <= 0
    || l.expiresAt <= now2
    || l.expiresAt > now1 + (r.ttl + 5)
  }

  /** With any backend: after a successful preflight, an accepted lease lies inside the limits
      of the reference that the preflight returned. */
  lemma AcceptedLeaseIsInsideTheReference(r: Request, ref: SecretRef, l: Lease, now1: int, now2: int)
    requires PreflightAccepts(r, ref) && !LeaseRejected(r, l, now1, now2)
    ensures l.scope.secretRef == ref.id && l.scope.company == ref.company && l.scope.project == ref.project
         && l.scope.connector == ref.connector
    ensures l.scope.agent in ref.agents && l.scope.action in ref.actions && l.scope.destination in ref.destinations
    ensures 0 < l.usesRemaining <= l.maxUses <= ref.maxUses
    ensures now2 < l.expiresAt <= now1 + ref.maxTtl + 5
  {
  }

  /** Whatever happens to a lease, its scope, expiry and use limit are the ones it was issued with. */
  lemma {:induction false} TermsAreFixed(secrets: map<string, SecretRef>, w: World, id: string, calls: seq<(Call, int)>)
    requires id in w.leases
    ensures id in Run(secrets, w, calls).leases
    ensures var l, l' := w.leases[id], Run(secrets, w, calls).leases[id];
      l'.scope == l.scope && l'.expiresAt == l.expiresAt && l'.maxUses == l.maxUses
    decreases |calls|
  {
    if calls != [] {
      TermsAreFixed(secrets, Next(secrets, w, calls[0].0, calls[0].1), id, calls[1..]);
    }
  }

  lemma {:induction false} RunConcat(secrets: map<string, SecretRef>, w: World, a: seq<(Call, int)>,
                                     b: seq<(Call, int)>)
    ensures Run(secrets, w, a + b) == Run(secrets, Run(secrets, w, a), b)
    decreases |a|
  {
    if a == [] {
      assert a + b == b;
    } else {
      assert (a + b)[1..] == a[1..] + b;
      RunConcat(secrets, Next(secrets, w, a[0].0, a[0].1), a[1..], b);
    }
  }

  /** The limits of a reference hold over the whole life of a lease: after a successful preflight
      and issue at time `t`, no run consumes it more often than the reference allows, and whatever
      is called once the reference's longest lifetime is over consumes it no further. */
  lemma ReferenceBoundsTheWholeRun(secrets: map<string, SecretRef>, w: World, r: Request, id: string, t: int,
                                   calls: seq<(Call, int)>, late: seq<(Call, int)>)
    requires Inv(w) && id !in w.leases && ValidRequest(r)
    requires IssueResult(secrets, r, t).Ok?
    requires PreflightAccepts(r, secrets[r.scope.secretRef])
    requires forall k :: 0 <= k < |late| ==> t + secrets[r.scope.secretRef].maxTtl <= late[k].1
    ensures var ref := secrets[r.scope.secretRef];
      var run := Run(secrets, Next(secrets, w, Issue(r, id), t), calls);
      && id in run.leases && run.consumed[id] <= ref.maxUses
      && Run(secrets, Next(secrets, w, Issue(r, id), t), calls + late).consumed[id] == run.consumed[id]
  {
    var ref := secrets[r.scope.secretRef];
    var issued := Next(secrets, w, Issue(r, id), t);
    NextKeepsInv(secrets, w, Issue(r, id), t);
    UsesAreConserved(secrets, issued, calls);
    TermsAreFixed(secrets, issued, id, calls);
    var run := Run(secrets, issued, calls);
    assert Sound(run, id);
    RunConcat(secrets, issued, calls, late);
    UnusableIsForEver(secrets, run, id, t + ref.maxTtl, late);
  }

  /** What the in-memory broker issues, the client accepts exactly until it expires, provided the
      secret is filed under its reference's own id. */
  lemma FakeLeaseIsAcceptedUntilExpiry(secrets: map<string, SecretRef>, r: Request, t: int, now1: int, now2: int)
    requires ValidRequest(r) && IssueResult(secrets, r, t).Ok? && t <= now1 <= now2
    ensures LeaseRejected(r, IssueResult(secrets, r, t).value, now1, now2)
       <==> t + r.ttl <= now2 || secrets[r.scope.secretRef].id != r.scope.secretRef
  {
  }

  // ----- When a lease is granted, and when it can be used -----

  /** A lease is granted exactly for a request of 1 to 3600 seconds and 1 to 10 uses, whose secret is known for its
      company, project and connector and allows its action; it carries the request's scope, under the
      secret's own id, and nothing else in the table changes. */
  lemma GrantedIff(secrets: map<string, SecretRef>, w: World, r: Request, id: string, now: int)
    requires id !in w.leases
    ensures var w' := Next(secrets, w, Issue(r, id), now);
            && (id in w'.leases
                <==> && 0 < r.ttl <= 3600 && 0 < r.maxUses <= 10 && r.scope.secretRef in secrets
                     && var ref := secrets[r.scope.secretRef];
                        && r.scope.company == ref.company && r.scope.project == ref.project
                        && r.scope.connector == ref.connector && r.scope.action in ref.actions)
            && w'.leases - {id} == w.leases - {id} && w'.consumed == w.consumed && w'.revoked == w.revoked
            && (id in w'.leases ==>
                  w'.leases[id] == Lease(r.scope.(secretRef := secrets[r.scope.secretRef].id), now + r.ttl,
                                         r.maxUses, r.maxUses, Active))
  {
    assert w.leases - {id} == w.leases;
  }

  /** Over its whole life: whatever was called since a lease was granted, a consumption succeeds exactly
      if the lease has not expired, was not revoked, and was consumed less often than granted. */
  lemma ConsumableIff(secrets: map<string, SecretRef>, w: World, r: Request, id: string, t: int,
                      calls: seq<(Call, int)>, now: int)
    requires Inv(w) && id !in w.leases && id in Next(secrets, w, Issue(r, id), t).leases
    ensures var run := Run(secrets, Next(secrets, w, Issue(r, id), t), calls);
            Next(secrets, run, Consume(id), now).consumed[id]
            == run.consumed[id]
               + if now < t + r.ttl && id !in run.revoked && run.consumed[id] < r.maxUses then 1 else 0
  {
    var granted := Next(secrets, w, Issue(r, id), t);
    NextKeepsInv(secrets, w, Issue(r, id), t);
    UsesAreConserved(secrets, granted, calls);
    TermsAreFixed(secrets, granted, id, calls);
    assert Sound(Run(secrets, granted, calls), id);
  }

  /** A lease that is otherwise as requested is accepted exactly until it expires, and if it does not outlive the
      requested lifetime by more than five seconds. */
  lemma SlackIsFiveSeconds(r: Request, l: Lease, now1: int, now2: int)
    requires l.scope == r.scope && l.status == Active && 0 < l.usesRemaining <= l.maxUses <= r.maxUses
    ensures !LeaseRejected(r, l, now1, now2) <==> now2 < l.expiresAt && l.expiresAt - (now1 + r.ttl) <= 5
  {
  }
}
