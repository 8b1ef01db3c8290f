/** The executives' review of an outward deliverable
    (kompany/src/kompany/core/csuite_review.py, kompany/src/kompany/core/csuite_rework.py). */
module Review {
  import opened Wrappers
  import opened Sorting

  datatype Verdict = Hold | Pass

  datatype Finding = Finding(role: string, verdict: Verdict, defects: seq<string>, error: bool, dropped: Option<nat>)

  /** What came back from one reviewer: nothing usable, or a verdict with defect lines. */
  datatype Reply = Unavailable(why: string) | Answered(verdict: Verdict, defects: seq<string>)

  /** Recognises a defect line that is about the reviewer's own missing access. */
  type Tooling = string -> bool

  function Substantive(tooling: Tooling): string -> bool {
    d => !tooling(d)
  }

  // ----- Collecting and cleaning findings -----

  function FindingOf(role: string, reply: Reply): Finding {
    match reply
    case Unavailable(why) => Finding(role, Hold, ["Reviewer unavailable: " + why], true, None)
    case Answered(verdict, defects) => Finding(role, verdict, defects, false, None)
  }

  method RunReview(roles: seq<string>, replies: seq<Reply>)
    returns (findings: seq<Finding>, anyHold: bool, errored: bool)
    requires |roles| == |replies|
    ensures |findings| == |roles| && forall i :: 0 <= i < |roles| ==> findings[i] == FindingOf(roles[i], replies[i])
    ensures anyHold <==> exists i :: 0 <= i < |replies| && replies[i].Answered? && replies[i].verdict == Hold
    ensures errored <==> exists i :: 0 <= i < |replies| && replies[i].Unavailable?
  {
    findings, anyHold, errored := [], false, false;
    for k := 0 to |roles|
      invariant |findings| == k && forall i :: 0 <= i < k ==> findings[i] == FindingOf(roles[i], replies[i])
      invariant anyHold <==> exists i :: 0 <= i < k && replies[i].Answered? && replies[i].verdict == Hold
      invariant errored <==> exists i :: 0 <= i < k && replies[i].Unavailable?
    {
      match replies[k] {
        case Unavailable(why) =>
          errored := true;
          findings := findings + [Finding(roles[k], Hold, ["Reviewer unavailable: " + why], true, None)];
        case Answered(verdict, defects) =>
          if verdict == Hold {
            anyHold := true;
          }
          findings := findings + [Finding(roles[k], verdict, defects, false, None)];
      }
    }
  }

  function Clean(tooling: Tooling, f: Finding): Finding {
    if f.error then f
    else
      var solid := Filter(f.defects, Substantive(tooling));
      f.(verdict := if f.verdict == Hold && f.defects != [] && solid == [] then Pass else f.verdict,
         defects := solid,
         dropped := if |solid| != |f.defects| then Some(|f.defects| - |solid|) else f.dropped)
  }

  function CleanAll(tooling: Tooling, fs: seq<Finding>): (r: seq<Finding>)
    ensures |r| == |fs| && forall i :: 0 <= i < |fs| ==> r[i] == Clean(tooling, fs[i])
  {
    if fs == [] then [] else [Clean(tooling, fs[0])] + CleanAll(tooling, fs[1..])
  }

  method StripTooling(tooling: Tooling, findings: seq<Finding>) returns (cleaned: seq<Finding>)
    ensures cleaned == CleanAll(tooling, findings)
  {
    cleaned := [];
    for k := 0 to |findings|
      invariant |cleaned| == k && forall i :: 0 <= i < k ==> cleaned[i] == Clean(tooling, findings[i])
    {
      var f := findings[k];
      if f.error {
        cleaned := cleaned + [f];
      } else {
        var solid := Filter(f.defects, Substantive(tooling));
        var verdict := f.verdict;
        if verdict == Hold && f.defects != [] && solid == [] {
          verdict := Pass;
        }
        var out := f.(verdict := verdict, defects := solid);
        if |solid| != |f.defects| {
          out := out.(dropped := Some(|f.defects| - |solid|));
        }
        cleaned := cleaned + [out];
      }
    }
  }

  /** Cleaning twice changes nothing more, and a failed reviewer's finding is never touched. */
  lemma CleanIsIdempotent(tooling: Tooling, f: Finding)
    ensures Clean(tooling, Clean(tooling, f)) == Clean(tooling, f)
    ensures f.error ==> Clean(tooling, f) == f
  {
    if !f.error {
      FilterAll(Filter(f.defects, Substantive(tooling)), Substantive(tooling));
    }
  }

  lemma StripToolingIsIdempotent(tooling: Tooling, fs: seq<Finding>)
    ensures CleanAll(tooling, CleanAll(tooling, fs)) == CleanAll(tooling, fs)
  {
    forall i | 0 <= i < |fs| ensures CleanAll(tooling, CleanAll(tooling, fs))[i] == CleanAll(tooling, fs)[i] {
      CleanIsIdempotent(tooling, fs[i]);
    }
  }

  // ----- The decision -----

  datatype Outcome = EmptyRequeued | Cleared | Rework(round: int) | Carded

  /** What a run left to review: its output, stripped, and the files that are not run artifacts. */
  datatype Deliverable = Deliverable(output: string, files: seq<string>)

  predicate Empty(d: Deliverable) {
    d.output == "" && d.files == []
  }

  predicate Blocking(f: Finding) {
    f.verdict == Hold || f.defects != []
  }

  predicate AnyHold(fs: seq<Finding>) {
    exists f | f in fs :: f.verdict == Hold
  }

  predicate AnyError(fs: seq<Finding>) {
    exists f | f in fs :: f.error
  }

  predicate AnyDefects(fs: seq<Finding>) {
    exists f | f in fs :: f.defects != []
  }

  function Decide(tooling: Tooling, d: Deliverable, findings: seq<Finding>, rounds: int, maxRounds: int): Outcome {
    if Empty(d) then EmptyRequeued
    else
      var errored := AnyError(findings);
      var cleaned := CleanAll(tooling, findings);
      if AnyHold(cleaned) || errored || AnyDefects(cleaned) then
        if !errored && rounds < maxRounds then Rework(rounds + 1) else Carded
      else Cleared
  }

  function Findings(roles: seq<string>, replies: seq<Reply>): (r: seq<Finding>)
    requires |roles| == |replies|
    ensures |r| == |roles| && forall i :: 0 <= i < |roles| ==> r[i] == FindingOf(roles[i], replies[i])
  {
    seq(|roles|, i requires 0 <= i < |roles| => FindingOf(roles[i], replies[i]))
  }

  method RequestReview(tooling: Tooling, d: Deliverable, roles: seq<string>, replies: seq<Reply>, rounds: int,
                       maxRounds: int)
    returns (r: Outcome)
    requires |roles| == |replies|
    ensures r == Decide(tooling, d, Findings(roles, replies), rounds, maxRounds)
  {
    if Empty(d) {
      return EmptyRequeued;
    }
    var findings, _, errored := RunReview(roles, replies);
    assert findings == Findings(roles, replies);
    ErroredIff(roles, replies);
    findings := StripTooling(tooling, findings);
    if AnyHold(findings) || errored || AnyDefects(findings) {
      if !errored {
        if rounds < maxRounds {
          return Rework(rounds + 1);
        }
      }
      return Carded;
    }
    return Cleared;
  }

  lemma ErroredIff(roles: seq<string>, replies: seq<Reply>)
    requires |roles| == |replies|
    ensures AnyError(Findings(roles, replies))
       <==> exists i :: 0 <= i < |replies| && replies[i].Unavailable?
  {
    var fs := Findings(roles, replies);
    if i :| 0 <= i < |replies| && replies[i].Unavailable? {
      assert fs[i] in fs && fs[i].error;
    }
  }

  /** The reviewer said nothing against the work: every listed defect is about tooling, and a
      HOLD listed at least one. */
  predicate Clears(tooling: Tooling, reply: Reply) {
    && reply.Answered?
    && (forall d :: d in reply.defects ==> tooling(d))
    && (reply.verdict == Pass || reply.defects != [])
  }

  lemma CleanFindingBlocksIff(tooling: Tooling, role: string, reply: Reply)
    ensures Blocking(Clean(tooling, FindingOf(role, reply))) <==> !Clears(tooling, reply)
  {
    if reply.Answered? {
      if forall d :: d in reply.defects ==> tooling(d) {
        FilterNone(reply.defects, Substantive(tooling));
      } else {
        var d :| d in reply.defects && !tooling(d);
        FilterMembers(reply.defects, Substantive(tooling), d);
      }
    }
  }

  lemma SomeFindingBlocksIff(tooling: Tooling, roles: seq<string>, replies: seq<Reply>)
    requires |roles| == |replies|
    ensures (exists f :: f in CleanAll(tooling, Findings(roles, replies)) && Blocking(f))
       <==> exists i :: 0 <= i < |replies| && !Clears(tooling, replies[i])
  {
    var cleaned := CleanAll(tooling, Findings(roles, replies));
    forall i | 0 <= i < |replies| ensures Blocking(cleaned[i]) <==> !Clears(tooling, replies[i]) {
      CleanFindingBlocksIff(tooling, roles[i], replies[i]);
    }
    if i :| 0 <= i < |replies| && !Clears(tooling, replies[i]) {
      assert cleaned[i] in cleaned;
    }
  }

  lemma ClearedUnlessBlocked(tooling: Tooling, d: Deliverable, findings: seq<Finding>, rounds: int, maxRounds: int)
    ensures Decide(tooling, d, findings, rounds, maxRounds) == Cleared
       <==> && !Empty(d) && !AnyError(findings)
            && forall f :: f in CleanAll(tooling, findings) ==> !Blocking(f)
  {
    var cleaned := CleanAll(tooling, findings);
    assert AnyHold(cleaned) || AnyDefects(cleaned) <==> exists f :: f in cleaned && Blocking(f);
  }

  /** The review clears a deliverable iff it is not empty and every reviewer's reply clears it. */
  lemma ClearedIff(tooling: Tooling, d: Deliverable, roles: seq<string>, replies: seq<Reply>, rounds: int,
                   maxRounds: int)
    requires |roles| == |replies|
    ensures Decide(tooling, d, Findings(roles, replies), rounds, maxRounds) == Cleared
       <==> !Empty(d) && forall i :: 0 <= i < |replies| ==> Clears(tooling, replies[i])
  {
    SomeFindingBlocksIff(tooling, roles, replies);
    ErroredIff(roles, replies);
    ClearedUnlessBlocked(tooling, d, Findings(roles, replies), rounds, maxRounds);
  }

  /** A deliverable that is not cleared goes back to the team iff every reviewer answered and a
      round is left; otherwise the founder gets a card. */
  lemma ReworkIff(tooling: Tooling, d: Deliverable, roles: seq<string>, replies: seq<Reply>, rounds: int,
                  maxRounds: int)
    requires |roles| == |replies| && !Empty(d)
    ensures Decide(tooling, d, Findings(roles, replies), rounds, maxRounds).Rework?
       <==> && (exists i :: 0 <= i < |replies| && !Clears(tooling, replies[i]))
            && (forall i :: 0 <= i < |replies| ==> replies[i].Answered?)
            && rounds < maxRounds
  {
    ClearedIff(tooling, d, roles, replies, rounds, maxRounds);
    ErroredIff(roles, replies);
  }

  /** The outcome in full: work without output and files is requeued and never carded; other work is cleared if
      every reply clears it, goes back with the next round number if every reviewer answered and a round
      is left, and is carded otherwise. */
  lemma OutcomeIs(tooling: Tooling, d: Deliverable, roles: seq<string>, replies: seq<Reply>, rounds: int,
                  maxRounds: int)
    requires |roles| == |replies|
    ensures Decide(tooling, d, Findings(roles, replies), rounds, maxRounds)
         == if d.output == "" && d.files == [] then EmptyRequeued
            else if forall i :: 0 <= i < |replies| ==> Clears(tooling, replies[i]) then Cleared
            else if (forall i :: 0 <= i < |replies| ==> replies[i].Answered?) && rounds < maxRounds
            then Rework(rounds + 1) else Carded
  {
    ClearedIff(tooling, d, roles, replies, rounds, maxRounds);
    ErroredIff(roles, replies);
  }

  /** What becomes of a reviewer's reply: one that failed counts as a hold of that reviewer, untouched; one that
      answered keeps its defects but those about tooling, with the number of those left out, and its hold
      unless they were all it had. */
  lemma CleanedReply(tooling: Tooling, role: string, reply: Reply, defect: string)
    ensures var f := Clean(tooling, FindingOf(role, reply));
            f.role == role && f.error == reply.Unavailable? &&
            match reply
            case Unavailable(_) => f.verdict == Hold && |f.defects| == 1 && f.dropped == None
            case Answered(verdict, defects) =>
              && multiset(f.defects)[defect] == (if tooling(defect) then 0 else multiset(defects)[defect])
              && f.dropped == (if |f.defects| == |defects| then None else Some(|defects| - |f.defects|))
              && (f.verdict == Hold <==> verdict == Hold && (defects == [] || f.defects != []))
  {
    if reply.Answered? {
      FilterCounts(reply.defects, Substantive(tooling), defect);
    }
  }
}
