/** Overlapping approvals and rejections of one card. The handlers run in a thread pool and the
    database locks one statement at a time, so each is cut into its statements
    (kompany/src/kompany/state/approvals_parts/_transitions.py, kompany/src/kompany/core/approval_effects.py,
    kompany/src/kompany/core/csuite_review.py). */
module CardCalls {
  import opened Wrappers
  import opened FounderCards

  /** Where one call stands. `Decided` has read the card; `open` says that the card was not yet
      stamped as applied when it did. */
  datatype Place = Arrived | Writing | Written | Decided(open: bool) | Stamping | Gone

  datatype Call = Call(target: CardStatus, place: Place)

  /** What an effect acts on, and what it does when it can do something. */
  type Effect<!W> = (W, CardStatus) -> Option<W>

  /** `unstamped`, `short` and `acted` are history: how often an unstamped card was read, how often the
      effect then found nothing to do, and for which verdicts it ran. */
  datatype State<W> = State(world: W, status: CardStatus, applied: bool, calls: map<nat, Call>,
                            unstamped: nat, short: nat, acted: seq<CardStatus>)

  datatype Step<W> =
    | Arrive(call: nat, target: CardStatus)
    | ReadStatus(call: nat)
    | WriteStatus(call: nat)
    | ReadPayload(call: nat)
    | Act(call: nat)
    | StampCard(call: nat)
    | WorldBecomes(world: W)

  predicate At<W>(s: State<W>, call: nat, p: Place) {
    call in s.calls && s.calls[call].place == p
  }

  function Moved<W>(s: State<W>, call: nat, p: Place): State<W>
    requires call in s.calls
  {
    s.(calls := s.calls[call := s.calls[call].(place := p)])
  }

  /** The call has read the card, with or without its stamp. */
  function Decide<W>(s: State<W>, call: nat): State<W>
    requires call in s.calls
  {
    Moved(s, call, Decided(!s.applied)).(unstamped := if s.applied then s.unstamped else s.unstamped + 1)
  }

  function Next<W>(effect: Effect<W>, s: State<W>, step: Step<W>): State<W> {
    match step
    case Arrive(c, target) =>
      if c in s.calls || target !in {Approved, Rejected} then s
      else s.(calls := s.calls[c := Call(target, Arrived)])
    case ReadStatus(c) =>
      if !At(s, c, Arrived) then s
      else if s.status == s.calls[c].target then Decide(s, c)
      else if Terminal(s.status) then Moved(s, c, Gone)
      else Moved(s, c, Writing)
    case WriteStatus(c) =>
      if !At(s, c, Writing) then s else Moved(s, c, Written).(status := s.calls[c].target)
    case ReadPayload(c) =>
      if !At(s, c, Written) then s else Decide(s, c)
    case Act(c) =>
      if At(s, c, Decided(false)) then Moved(s, c, Gone)
      else if At(s, c, Decided(true)) then
        match effect(s.world, s.calls[c].target)
        case None => Moved(s, c, Gone).(short := s.short + 1)
        case Some(w) => Moved(s, c, Stamping).(world := w, acted := s.acted + [s.calls[c].target])
      else s
    case StampCard(c) =>
      if !At(s, c, Stamping) then s else Moved(s, c, Gone).(applied := true)
    case WorldBecomes(w) => s.(world := w)
  }

  function Run<W>(effect: Effect<W>, s: State<W>, steps: seq<Step<W>>): State<W> {
    if steps == [] then s else Next(effect, Run(effect, s, steps[..|steps| - 1]), steps[|steps| - 1])
  }

  function Fresh<W>(w: W): State<W> {
    State(w, Pending, false, map[], 0, 0, [])
  }

  /** The calls that have read an unstamped card and have not acted yet. */
  function Holding(calls: map<nat, Call>): set<nat> {
    set c | c in calls && calls[c].place == Decided(true)
  }
}
