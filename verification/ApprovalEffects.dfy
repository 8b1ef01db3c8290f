/** Approved budget cards: money moves once (kompany/src/kompany/core/approval_effects.py,
    kompany/src/kompany/core/engine_parts/company.py). */
module ApprovalEffects {
  import opened Wrappers
  import opened FounderCards

  datatype Project = Project(id: string, active: bool, funded: real, spent: real)

  /** The ledger balance, the project envelopes, and the spending caps of the tasks. */
  datatype Books = Books(balance: real, projects: seq<Project>, caps: map<string, real>)

  function Reserve(p: Project): real {
    if p.active && p.funded > p.spent then p.funded - p.spent else 0.0
  }

  function Reserved(ps: seq<Project>): real {
    if ps == [] then 0.0 else Reserve(ps[0]) + Reserved(ps[1..])
  }

  /** Balance minus every active project's unspent envelope. */
  function Unallocated(b: Books): real {
    b.balance - Reserved(b.projects)
  }

  function IndexOf(ps: seq<Project>, id: string): (i: nat)
    ensures i <= |ps|
    ensures i < |ps| ==> ps[i].id == id
  {
    if ps == [] || ps[0].id == id then 0 else 1 + IndexOf(ps[1..], id)
  }

  predicate Known(b: Books, id: string) {
    IndexOf(b.projects, id) < |b.projects|
  }

  function Envelope(b: Books, id: string): Project
    requires Known(b, id)
  {
    b.projects[IndexOf(b.projects, id)]
  }

  /** Funding is refused for an amount that is not positive, an unknown project, or more than is unallocated. */
  function FundProject(b: Books, id: string, amount: real): Option<Books> {
    if amount <= 0.0 || !Known(b, id) || amount > Unallocated(b) then None
    else
      var p := Envelope(b, id);
      Some(b.(projects := b.projects[IndexOf(b.projects, id) := p.(funded := p.funded + amount)]))
  }

  // ----- Cards -----

  /** The first amount that is given and not zero. */
  function Chosen(given: Option<real>, fallback: Option<real>): real {
    if given.Some? && given.value != 0.0 then given.value
    else if fallback.Some? then fallback.value else 0.0
  }

  datatype Payload =
    | TopUp(project: Option<string>, approved: Option<real>, suggested: Option<real>)
    | CapIncrease(task: Option<string>, approved: Option<real>, proposed: Option<real>)

  function Amount(p: Payload): real {
    match p
    case TopUp(_, approved, suggested) => Chosen(approved, suggested)
    case CapIncrease(_, approved, proposed) => Chosen(approved, proposed)
  }

  /** What the card moves now, if it can move anything now. */
  function Effect(b: Books, p: Payload): Option<Books> {
    match p
    case TopUp(project, _, _) =>
      if project.None? || project.value == "" || Amount(p) <= 0.0 then None
      else FundProject(b, project.value, Amount(p))
    case CapIncrease(task, _, _) =>
      if task.None? || task.value == "" || task.value !in b.caps || Amount(p) <= 0.0 then None
      else Some(b.(caps := b.caps[task.value := b.caps[task.value] + Amount(p)]))
  }

  datatype Card = Card(status: CardStatus, applied: bool, payload: Payload)

  function ApproveCard(b: Books, c: Card): (Books, Card) {
    match Resolve(c.status, Approved)
    case None => (b, c)
    case Some(status) =>
      if c.applied || Effect(b, c.payload).None? then (b, c.(status := status))
      else (Effect(b, c.payload).value, c.(status := status, applied := true))
  }

  /** The engine's books and one card, as the approve handler changes them. */
  class Engine {
    var balance: real
    var projects: seq<Project>
    var caps: map<string, real>
    var status: CardStatus
    var applied: bool
    const payload: Payload

    constructor (b: Books, payload: Payload)
      ensures BooksNow() == b && CardNow() == Card(Pending, false, payload)
    {
      balance, projects, caps := b.balance, b.projects, b.caps;
      status, applied, this.payload := Pending, false, payload;
    }

    function BooksNow(): Books
      reads this
    {
      Books(balance, projects, caps)
    }

    function CardNow(): Card
      reads this
    {
      Card(status, applied, payload)
    }

    method Fund(id: string, amount: real) returns (ok: bool)
      modifies this`projects
      ensures ok == FundProject(old(BooksNow()), id, amount).Some?
      ensures BooksNow() == if ok then FundProject(old(BooksNow()), id, amount).value else old(BooksNow())
    {
      var at := IndexOf(projects, id);
      if amount <= 0.0 || at == |projects| {
        return false;
      }
      if amount > balance - Reserved(projects) {
        return false;
      }
      projects := projects[at := projects[at].(funded := projects[at].funded + amount)];
      return true;
    }

    method Approve()
      modifies this
      ensures (BooksNow(), CardNow()) == ApproveCard(old(BooksNow()), old(CardNow()))
    {
      match Resolve(status, Approved) {
        case None => return;
        case Some(s) => status := s;
      }
      if applied {
        return;
      }
      var amount := Amount(payload);
      match payload {
        case TopUp(project, _, _) =>
          if project.Some? && project.value != "" && amount > 0.0 {
            applied := Fund(project.value, amount);
          }
        case CapIncrease(task, _, _) =>
          if task.Some? && task.value != "" && task.value in caps && amount > 0.0 {
            caps := caps[task.value := caps[task.value] + amount];
            applied := true;
          }
      }
    }
  }

  // ----- What one funding does -----

  lemma {:induction false} ReservedAfter(ps: seq<Project>, i: nat, p: Project)
    requires i < |ps|
    ensures Reserved(ps[i := p]) == Reserved(ps) - Reserve(ps[i]) + Reserve(p)
  {
    if i == 0 {
      assert ps[i := p][1..] == ps[1..];
    } else {
      ReservedAfter(ps[1..], i - 1, p);
      assert ps[i := p][1..] == ps[1..][i - 1 := p];
    }
  }

  /** A funding credits one envelope with exactly the amount, leaves the balance and the caps,
      and never promises more than the company holds. It lowers what is unallocated by exactly
      the amount only for an active project that is not overspent. */
  lemma FundingIsExact(b: Books, id: string, amount: real)
    requires FundProject(b, id, amount).Some?
    ensures var b' := FundProject(b, id, amount).value;
            && b'.balance == b.balance && b'.caps == b.caps && |b'.projects| == |b.projects|
            && Known(b', id) && Envelope(b', id) == Envelope(b, id).(funded := Envelope(b, id).funded + amount)
            && (forall i :: 0 <= i < |b.projects| && i != IndexOf(b.projects, id) ==> b'.projects[i] == b.projects[i])
            && 0.0 <= Unallocated(b') <= Unallocated(b)
            && (Unallocated(b') == Unallocated(b) - amount
                <==> Envelope(b, id).active && Envelope(b, id).funded >= Envelope(b, id).spent)
  {
    var i := IndexOf(b.projects, id);
    var p := b.projects[i];
    var p' := p.(funded := p.funded + amount);
    ReservedAfter(b.projects, i, p');
    IndexUnchanged(b.projects, id, p');
  }

  lemma {:induction false} IndexUnchanged(ps: seq<Project>, id: string, p: Project)
    requires IndexOf(ps, id) < |ps| && p.id == id
    ensures IndexOf(ps[IndexOf(ps, id) := p], id) == IndexOf(ps, id)
  {
    if ps[0].id != id {
      IndexUnchanged(ps[1..], id, p);
      assert ps[IndexOf(ps, id) := p][1..] == ps[1..][IndexOf(ps[1..], id) := p];
    }
  }

  // ----- Replays -----

  /** Founder verdicts on one card, with the books changing in any way in between. */
  datatype Event = ApproveCall | RejectCall | BooksBecome(books: Books)

  /** The account that the card is about: the money in the envelope, or the cap of the task. */
  function Level(b: Books, p: Payload): real {
    match p
    case TopUp(project, _, _) =>
      if project.Some? && Known(b, project.value) then Envelope(b, project.value).funded else 0.0
    case CapIncrease(task, _, _) =>
      if task.Some? && task.value in b.caps then b.caps[task.value] else 0.0
  }

  /** `credited` is history: by how much each approval raised that account. */
  datatype State = State(books: Books, card: Card, credited: seq<real>)

  function Sum(s: seq<real>): real {
    if s == [] then 0.0 else Sum(s[..|s| - 1]) + s[|s| - 1]
  }

  function Next(s: State, e: Event): State {
    match e
    case ApproveCall =>
      var (b, c) := ApproveCard(s.books, s.card);
      State(b, c, s.credited + [Level(b, c.payload) - Level(s.books, s.card.payload)])
    case RejectCall =>
      (match Resolve(s.card.status, Rejected)
       case None => s
       case Some(status) => s.(card := s.card.(status := status)))
    case BooksBecome(b) => s.(books := b)
  }

  function Run(s: State, events: seq<Event>): State {
    if events == [] then s else Next(Run(s, events[..|events| - 1]), events[|events| - 1])
  }

  function FreshCard(p: Payload): Card {
    Card(Pending, false, p)
  }

  function Begin(b: Books, p: Payload): State {
    State(b, FreshCard(p), [])
  }

  /** What running the effect does to the account. */
  lemma EffectRaisesByTheAmount(b: Books, p: Payload)
    requires Effect(b, p).Some?
    ensures Level(Effect(b, p).value, p) == Level(b, p) + Amount(p) && Amount(p) > 0.0
  {
    if p.TopUp? {
      FundingIsExact(b, p.project.value, Amount(p));
    }
  }

  /** One approval: it changes the books only if the effect had not run and can run now, then it
      applies the effect and credits exactly the amount; otherwise it moves nothing and leaves the
      card as retryable. */
  lemma ApprovalMovesExactly(s: State)
    ensures var s' := Next(s, ApproveCall);
            if Resolve(s.card.status, Approved).Some? && !s.card.applied && Effect(s.books, s.card.payload).Some?
            then s'.books == Effect(s.books, s.card.payload).value && s'.card.applied
                 && s'.credited == s.credited + [Amount(s.card.payload)]
            else s'.books == s.books && s'.card.applied == s.card.applied && s'.credited == s.credited + [0.0]
  {
    if Effect(s.books, s.card.payload).Some? {
      EffectRaisesByTheAmount(s.books, s.card.payload);
    }
  }

  /** How many credits moved something. */
  function Movements(s: seq<real>): nat {
    if s == [] then 0 else Movements(s[..|s| - 1]) + if s[|s| - 1] == 0.0 then 0 else 1
  }

  lemma SumAppend(s: seq<real>, x: real)
    ensures Sum(s + [x]) == Sum(s) + x
    ensures Movements(s + [x]) == Movements(s) + if x == 0.0 then 0 else 1
  {
    assert (s + [x])[..|s|] == s;
  }

  /** The credits together are the card's amount if it was applied and nothing otherwise; at most
      one of them moved anything, and that one moved it all. */
  ghost predicate Accounted(s: State, p: Payload) {
    && Sum(s.credited) == (if s.card.applied then Amount(p) else 0.0)
    && Movements(s.credited) == (if s.card.applied then 1 else 0)
    && (forall x :: x in s.credited ==> x == 0.0 || x == Amount(p))
    && s.card.status in {Pending, Approved, Rejected} && s.card.payload == p
    && (s.card.applied ==> s.card.status == Approved && Amount(p) > 0.0)
  }

  lemma ApprovalKeepsAccounted(s: State, p: Payload)
    requires Accounted(s, p)
    ensures Accounted(Next(s, ApproveCall), p)
  {
    ApprovalMovesExactly(s);
    SumAppend(s.credited, 0.0);
    SumAppend(s.credited, Amount(p));
    if Effect(s.books, p).Some? {
      EffectRaisesByTheAmount(s.books, p);
    }
  }

  /** Over every run, replays included, the credits add up. A rejected card never credits anything. */
  lemma {:induction false} CreditsAddUpToTheAmount(b: Books, p: Payload, events: seq<Event>)
    ensures Accounted(Run(Begin(b, p), events), p)
  {
    if events != [] {
      CreditsAddUpToTheAmount(b, p, events[..|events| - 1]);
      if events[|events| - 1].ApproveCall? {
        ApprovalKeepsAccounted(Run(Begin(b, p), events[..|events| - 1]), p);
      }
    }
  }

  /** The approval at position `i` finds enough: the card is not rejected and its effect can run. */
  predicate Chance(b: Books, p: Payload, events: seq<Event>, i: nat) {
    && i < |events| && events[i] == ApproveCall
    && var s := Run(Begin(b, p), events[..i]);
       s.card.status != Rejected && Effect(s.books, p).Some?
  }

  /** A shortfall is never final: the effect has run iff some approval so far found enough, so
      the first approval that finds enough is the one that moves the money. */
  lemma {:induction false} FirstChanceIsTaken(b: Books, p: Payload, events: seq<Event>)
    ensures Run(Begin(b, p), events).card.applied <==> exists i :: Chance(b, p, events, i)
  {
    if events != [] {
      var k := |events| - 1;
      var before := Run(Begin(b, p), events[..k]);
      FirstChanceIsTaken(b, p, events[..k]);
      CreditsAddUpToTheAmount(b, p, events[..k]);
      forall i: nat | i < k ensures Chance(b, p, events, i) == Chance(b, p, events[..k], i) {
        assert events[..k][..i] == events[..i];
      }
      assert Chance(b, p, events, k)
        <==> events[k] == ApproveCall && before.card.status != Rejected && Effect(before.books, p).Some?;
    }
  }

  // ----- Which number of the card is moved -----

  /** An approved top-up adds to the project's envelope the number that the founder approved, whatever was
      suggested, and the suggested one if none or zero was approved; it runs exactly if the card can still be
      approved, its effect has not run, the project is known and the treasury has that much unallocated. */
  lemma TopUpMovesTheApprovedSum(s: State, project: string, approved: Option<real>, suggested: Option<real>)
    requires s.card.payload == TopUp(Some(project), approved, suggested) && project != ""
    ensures var sum := if approved.Some? && approved.value != 0.0 then approved.value
                       else if suggested.Some? then suggested.value else 0.0;
            var s' := Next(s, ApproveCall);
            if s.card.status in {Pending, Snoozed, Approved} && !s.card.applied && Known(s.books, project)
               && 0.0 < sum <= Unallocated(s.books)
            then
              && s'.card.applied && s'.card.status == Approved && Known(s'.books, project)
              && Envelope(s'.books, project).funded == Envelope(s.books, project).funded + sum
              && s'.books.balance == s.books.balance && s'.books.caps == s.books.caps
              && s'.credited == s.credited + [sum]
            else s'.books == s.books && s'.card.applied == s.card.applied
  {
    if Effect(s.books, s.card.payload).Some? {
      FundingIsExact(s.books, project, Amount(s.card.payload));
    }
  }

  /** An approved cap increase adds the approved number to the task's cap, or the proposed one, and touches no
      other cap and no money. */
  lemma CapRisesByTheApprovedSum(s: State, task: string, approved: Option<real>, proposed: Option<real>)
    requires s.card.payload == CapIncrease(Some(task), approved, proposed) && task != ""
    ensures var sum := if approved.Some? && approved.value != 0.0 then approved.value
                       else if proposed.Some? then proposed.value else 0.0;
            var s' := Next(s, ApproveCall);
            if s.card.status in {Pending, Snoozed, Approved} && !s.card.applied && task in s.books.caps && 0.0 < sum
            then
              && s'.card.applied && s'.card.status == Approved
              && s'.books == s.books.(caps := s.books.caps[task := s.books.caps[task] + sum])
              && s'.credited == s.credited + [sum]
            else s'.books == s.books && s'.card.applied == s.card.applied
  {
  }

  /** A rejection closes an open card for good: no approval after it moves money. */
  lemma RejectedCardMovesNothing(s: State, b: Books)
    requires s.card.status in {Pending, Snoozed}
    ensures var rejected := Next(s, RejectCall);
            var later := Next(Next(rejected, BooksBecome(b)), ApproveCall);
            && rejected.card == s.card.(status := Rejected) && rejected.books == s.books
            && later.books == b && later.card == rejected.card
  {
  }
}
