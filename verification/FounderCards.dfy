/** Approval cards: their state machine, and what a founder's verdict on a held review does
    (kompany/src/kompany/state/approvals_parts/_transitions.py, kompany/src/kompany/core/csuite_review.py). */
module FounderCards {
  import opened Wrappers

  datatype CardStatus = Pending | Snoozed | Approved | Rejected | RevisionRequested | Cancelled

  predicate Terminal(s: CardStatus) {
    s in {Approved, Rejected, RevisionRequested, Cancelled}
  }

  /** A repeated approval or rejection is a no-op; any other move from a terminal status raises. */
  function Resolve(from: CardStatus, to: CardStatus): Option<CardStatus>
    requires to in {Approved, Rejected}
  {
    if from == to then Some(from) else if Terminal(from) then None else Some(to)
  }

  /** Snoozing, waking and cancelling, which have no effect on the task. */
  function Shift(from: CardStatus, to: CardStatus): CardStatus {
    if Terminal(from) || from == to || to in {Approved, Rejected, RevisionRequested} then from else to
  }

  // ----- A held review -----

  datatype Value = Flag(b: bool) | Text(t: string)

  type Fields = map<string, Value>

  const UPHELD := "C-suite HOLD upheld"
  const REVISE := "C-suite review revision requested"

  function ApprovalStamp(): Fields {
    map["csuite_review_pending" := Flag(false), "csuite_approved" := Flag(true)]
  }

  function RejectionStamp(): Fields {
    map["csuite_review_pending" := Flag(false), "csuite_approved" := Flag(false),
        "csuite_rejected" := Flag(true), "founder_action" := Text(UPHELD)]
  }

  function RevisionStamp(feedback: string): Fields {
    map["csuite_review_pending" := Flag(true), "csuite_revision_requested" := Flag(true),
        "csuite_revision_feedback" := Text(feedback), "founder_action" := Text(REVISE)]
  }

  datatype Verdict = Approve | Reject | Revise(feedback: string) | Move(to: CardStatus)

  /** What a verdict that takes effect writes into the task result. */
  function StampOf(v: Verdict): Fields
    requires !v.Move?
  {
    match v
    case Approve => ApprovalStamp()
    case Reject => RejectionStamp()
    case Revise(feedback) => RevisionStamp(feedback)
  }

  /** The card, the task's result fields (absent when the task is gone), and which effects ran. */
  datatype Desk = Desk(status: CardStatus, applied: bool, result: Option<Fields>, effects: seq<Verdict>)

  function Stamp(result: Option<Fields>, fields: Fields): Option<Fields> {
    if result.None? then None else Some(result.value + fields)
  }

  function Act(d: Desk, v: Verdict): Desk {
    match v
    case Approve =>
      (match Resolve(d.status, Approved)
       case None => d
       case Some(status) =>
         if d.applied then d.(status := status)
         else Desk(status, true, Stamp(d.result, ApprovalStamp()), d.effects + [v]))
    case Reject =>
      (match Resolve(d.status, Rejected)
       case None => d
       case Some(status) =>
         if d.applied then d.(status := status)
         else Desk(status, true, Stamp(d.result, RejectionStamp()), d.effects + [v]))
    case Revise(feedback) =>
      if Terminal(d.status) || feedback == "" then d
      else Desk(RevisionRequested, d.applied, Stamp(d.result, RevisionStamp(feedback)), d.effects + [v])
    case Move(to) => d.(status := Shift(d.status, to))
  }

  function ActAll(d: Desk, vs: seq<Verdict>): Desk
    decreases |vs|
  {
    if vs == [] then d else ActAll(Act(d, vs[0]), vs[1..])
  }

  /** The card and the task result as the handlers change them. */
  class ReviewCard {
    var status: CardStatus
    var applied: bool
    var result: Option<Fields>
    ghost var effects: seq<Verdict>

    ghost function State(): Desk
      reads this
    {
      Desk(status, applied, result, effects)
    }

    constructor (result: Option<Fields>)
      ensures State() == Desk(Pending, false, result, [])
    {
      status, applied, this.result, effects := Pending, false, result, [];
    }

    method StampTask(fields: Fields)
      modifies this`result
      ensures result == Stamp(old(result), fields)
    {
      if result.Some? {
        result := Some(result.value + fields);
      }
    }

    method ApproveReview() returns (ok: bool)
      modifies this
      ensures State() == Act(old(State()), Approve)
      ensures ok == Resolve(old(status), Approved).Some?
    {
      match Resolve(status, Approved) {
        case None => return false;
        case Some(s) => status := s;
      }
      if !applied {
        StampTask(ApprovalStamp());
        applied := true;
        effects := effects + [Approve];
      }
      return true;
    }

    method RejectReview() returns (ok: bool)
      modifies this
      ensures State() == Act(old(State()), Reject)
      ensures ok == Resolve(old(status), Rejected).Some?
    {
      match Resolve(status, Rejected) {
        case None => return false;
        case Some(s) => status := s;
      }
      if !applied {
        StampTask(RejectionStamp());
        applied := true;
        effects := effects + [Reject];
      }
      return true;
    }

    /** The successor card that a revision request files is another card. */
    method ReviseReview(feedback: string) returns (ok: bool)
      modifies this
      ensures State() == Act(old(State()), Revise(feedback))
      ensures ok == (!Terminal(old(status)) && feedback != "")
    {
      if Terminal(status) || feedback == "" {
        return false;
      }
      status := RevisionRequested;
      StampTask(RevisionStamp(feedback));
      effects := effects + [Revise(feedback)];
      return true;
    }
  }

  /** The one verdict that takes effect: the first approve, reject or revision request, if the card
      was not closed otherwise before. */
  function Decisive(status: CardStatus, vs: seq<Verdict>): Option<Verdict>
    decreases |vs|
  {
    if Terminal(status) || vs == [] then None
    else
      match vs[0]
      case Move(to) => Decisive(Shift(status, to), vs[1..])
      case Revise("") => Decisive(status, vs[1..])
      case v => Some(v)
  }

  lemma DecisiveIsNoMove(status: CardStatus, vs: seq<Verdict>)
    ensures Decisive(status, vs).Some? ==> !Decisive(status, vs).value.Move?
    decreases |vs|
  {
    if vs != [] && !Terminal(status) {
      if vs[0].Move? {
        DecisiveIsNoMove(Shift(status, vs[0].to), vs[1..]);
      } else if vs[0] == Revise("") {
        DecisiveIsNoMove(status, vs[1..]);
      }
    }
  }

  lemma {:induction false} SettledStays(d: Desk, vs: seq<Verdict>)
    requires Terminal(d.status) && (d.applied || d.status in {RevisionRequested, Cancelled})
    ensures ActAll(d, vs) == d
    decreases |vs|
  {
    if vs != [] {
      assert Act(d, vs[0]) == d;
      SettledStays(d, vs[1..]);
    }
  }

  function StatusOf(v: Verdict): CardStatus
    requires !v.Move?
  {
    match v
    case Approve => Approved
    case Reject => Rejected
    case Revise(_) => RevisionRequested
  }

  /** For any sequence of verdicts, replays included: exactly the decisive one takes effect, the
      task result is the old one with its stamp merged in, and every other field keeps its value.
      Approvals and rejections, and no revision request, mark the card as applied. */
  lemma {:induction false} OneVerdictTakesEffect(d: Desk, vs: seq<Verdict>)
    requires !Terminal(d.status) && !d.applied
    ensures var end := ActAll(d, vs);
            match Decisive(d.status, vs)
            case None => end.effects == d.effects && end.result == d.result && !end.applied
            case Some(v) =>
              && !v.Move? && end.effects == d.effects + [v] && end.applied == !v.Revise?
              && end.status == StatusOf(v) && end.result == Stamp(d.result, StampOf(v))
    decreases |vs|
  {
    DecisiveIsNoMove(d.status, vs);
    if vs != [] {
      var d' := Act(d, vs[0]);
      if Terminal(d'.status) {
        SettledStays(d', vs[1..]);
      } else {
        OneVerdictTakesEffect(d', vs[1..]);
      }
    }
  }

  /** The fields that some stamp names. */
  const STAMPED: set<string> :=
    {"csuite_review_pending", "csuite_approved", "csuite_rejected", "csuite_revision_requested",
     "csuite_revision_feedback", "founder_action"}

  /** Stamping touches only its own fields. */
  lemma StampKeepsTheRest(result: Fields, v: Verdict, key: string)
    requires !v.Move? && key !in STAMPED
    ensures var stamped := Stamp(Some(result), StampOf(v)).value;
            (key in stamped <==> key in result) && (key in result ==> stamped[key] == result[key])
  {
  }

  /** What a verdict writes on the task: on an open card, or one that has that status without its effect, an approval
      clears the review; a rejection upholds it; a revision request on an open card leaves it pending with
      the feedback. Any other verdict changes nothing on the task. */
  lemma VerdictIsOnRecord(d: Desk, v: Verdict)
    requires d.result.Some?
    ensures var old', now := d.result.value, Act(d, v).result;
            && now.Some?
            && if v == Approve && d.status in {Pending, Snoozed, Approved} && !d.applied then
                 now == Some(old'["csuite_review_pending" := Flag(false)]["csuite_approved" := Flag(true)])
               else if v == Reject && d.status in {Pending, Snoozed, Rejected} && !d.applied then
                 now == Some(old'["csuite_review_pending" := Flag(false)]["csuite_approved" := Flag(false)]
                                 ["csuite_rejected" := Flag(true)]["founder_action" := Text(UPHELD)])
               else if v.Revise? && d.status in {Pending, Snoozed} && v.feedback != "" then
                 now == Some(old'["csuite_review_pending" := Flag(true)]["csuite_revision_requested" := Flag(true)]
                                 ["csuite_revision_feedback" := Text(v.feedback)]["founder_action" := Text(REVISE)])
               else now == d.result
  {
    var result := d.result.value;
    assert result + ApprovalStamp() == result["csuite_review_pending" := Flag(false)]["csuite_approved" := Flag(true)];
    RejectionIsOnRecord(result);
    if v.Revise? {
      RevisionIsOnRecord(result, v.feedback);
    }
    OpenIff(d.status);
  }

  lemma OpenIff(status: CardStatus)
    ensures !Terminal(status) <==> status in {Pending, Snoozed}
  {
    match status {
      case Pending | Snoozed =>
      case Approved | Rejected | RevisionRequested | Cancelled =>
    }
  }

  lemma RejectionIsOnRecord(result: Fields)
    ensures result + RejectionStamp()
         == result["csuite_review_pending" := Flag(false)]["csuite_approved" := Flag(false)]
                  ["csuite_rejected" := Flag(true)]["founder_action" := Text(UPHELD)]
  {
  }

  lemma RevisionIsOnRecord(result: Fields, feedback: string)
    ensures result + RevisionStamp(feedback)
         == result["csuite_review_pending" := Flag(true)]["csuite_revision_requested" := Flag(true)]
                  ["csuite_revision_feedback" := Text(feedback)]["founder_action" := Text(REVISE)]
  {
  }

  /** An open card can be approved, rejected, sent back with feedback, snoozed, woken and cancelled; a closed one keeps
      its status. */
  lemma StatusAfter(d: Desk, v: Verdict)
    ensures Act(d, v).status
         == if d.status !in {Pending, Snoozed} then d.status
            else match v
              case Approve => Approved
              case Reject => Rejected
              case Revise(feedback) => if feedback == "" then d.status else RevisionRequested
              case Move(to) => if to in {Pending, Snoozed, Cancelled} then to else d.status
  {
  }
}
