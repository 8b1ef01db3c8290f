/** What the pane and the Board show, and in which order, in terms of words and statuses
    (board-ui/src/studio/needsYou.ts, board-ui/src/board/classify.ts). */
module FounderLists {
  import opened Wrappers
  import opened Sorting
  import opened NeedsYou

  // ----- The order -----

  /** The severities, most urgent first; any other text is less urgent than all of them. */
  const RANKING := ["critical", "high", "medium", "low", "info"]

  predicate MoreUrgent(a: string, b: string) {
    exists i :: 0 <= i < |RANKING| && RANKING[i] == a && b !in RANKING[..i + 1]
  }

  lemma MoreUrgentIff(a: string, b: string)
    ensures MoreUrgent(a, b) <==> SeverityRank(a) > SeverityRank(b)
  {
    RankOf(a);
    RankOf(b);
    if i :| 0 <= i < |RANKING| && RANKING[i] == a && b !in RANKING[..i + 1] {
      RankAt(i);
      LaterRanksLess(i, b);
    }
    if SeverityRank(a) > SeverityRank(b) {
      var i := 5 - SeverityRank(a);
      assert RANKING[i] == a;
      if b in RANKING[..i + 1] {
        var k :| 0 <= k <= i && RANKING[..i + 1][k] == b;
        RankAt(k);
      }
    }
  }

  lemma LaterRanksLess(i: nat, b: string)
    requires i < |RANKING| && b !in RANKING[..i + 1]
    ensures SeverityRank(b) < 5 - i
  {
    var front := RANKING[..i + 1];
    assert forall k :: 0 <= k <= i ==> front[k] == RANKING[k] && front[k] in front;
    RankOf(b);
  }

  lemma RankAt(i: nat)
    requires i < |RANKING|
    ensures SeverityRank(RANKING[i]) == 5 - i
  {
  }

  lemma RankOf(a: string)
    ensures if a in RANKING then exists i :: 0 <= i < |RANKING| && RANKING[i] == a && SeverityRank(a) == 5 - i
            else SeverityRank(a) == 0
    ensures SeverityRank(a) <= 5 && (SeverityRank(a) > 0 ==> RANKING[5 - SeverityRank(a)] == a)
  {
    if a in RANKING {
      var i :| 0 <= i < |RANKING| && RANKING[i] == a;
      RankAt(i);
    } else {
      assert forall i :: 0 <= i < |RANKING| ==> RANKING[i] != a;
    }
  }

  predicate GoesBefore(x: Item, y: Item) {
    || (x.kind == Money && y.kind != Money)
    || (x.kind == Account && y.kind == Decision)
    || (x.kind == y.kind && MoreUrgent(x.severity, y.severity))
  }

  /** In the pane money comes before accounts to connect, those before decisions, and within a kind the more urgent
      before the less urgent. */
  lemma PaneOrder(rd: Reading, inbox: seq<Approval>, projects: seq<Project>, integrations: seq<Integration>)
    ensures var r := StableSort(Items(rd, inbox, projects, integrations), ItemLe);
            forall i, j :: 0 <= i < j < |r| ==> !GoesBefore(r[j], r[i])
  {
    var r := StableSort(Items(rd, inbox, projects, integrations), ItemLe);
    BothAreStablySorted(rd, inbox, projects, integrations);
    forall i, j | 0 <= i < j < |r| ensures !GoesBefore(r[j], r[i]) {
      assert ItemLe(r[i], r[j]);
      MoreUrgentIff(r[j].severity, r[i].severity);
    }
  }

  /** On the Board the more urgent card comes first. */
  lemma BoardOrder(rd: Reading, inbox: seq<Approval>, projects: seq<Project>)
    ensures var r := StableSort(Cards(inbox, projects), CardLe);
            forall i, j :: 0 <= i < j < |r| ==> !MoreUrgent(r[j].severity, r[i].severity)
  {
    var r := StableSort(Cards(inbox, projects), CardLe);
    BothAreStablySorted(rd, inbox, projects, []);
    forall i, j | 0 <= i < j < |r| ensures !MoreUrgent(r[j].severity, r[i].severity) {
      assert CardLe(r[i], r[j]);
      MoreUrgentIff(r[j].severity, r[i].severity);
    }
  }

  // ----- Mentions -----

  predicate OccursAt(text: string, part: string, i: nat) {
    i + |part| <= |text| && text[i..i + |part|] == part
  }

  lemma {:induction false} ContainsIff(text: string, part: string)
    ensures Contains(text, part) <==> exists i: nat :: OccursAt(text, part, i)
  {
    if part <= text {
      assert OccursAt(text, part, 0);
    } else if text != "" {
      ContainsIff(text[1..], part);
      if i: nat :| OccursAt(text[1..], part, i) {
        assert text[1..][i..i + |part|] == text[i + 1..i + 1 + |part|];
        assert OccursAt(text, part, i + 1);
      }
      if i: nat :| OccursAt(text, part, i) {
        assert i > 0;
        assert text[1..][i - 1..i - 1 + |part|] == text[i..i + |part|];
        assert OccursAt(text[1..], part, i - 1);
      }
    }
  }

  /** The part occurs at `i`, with a blank or an end on either side. */
  predicate WordsAt(text: string, part: string, i: nat) {
    && OccursAt(text, part, i)
    && (i == 0 || text[i - 1] == ' ')
    && (i + |part| == |text| || text[i + |part|] == ' ')
  }

  lemma OccursIff(text: string, part: string, i: nat)
    ensures OccursAt(text, part, i)
       <==> i + |part| <= |text| && forall k :: 0 <= k < |part| ==> text[i + k] == part[k]
  {
    if i + |part| <= |text| {
      var cut := text[i..i + |part|];
      assert forall k :: 0 <= k < |part| ==> cut[k] == text[i + k];
    }
  }

  lemma PaddedAt(text: string, k: nat)
    requires k < |text| + 2
    ensures (" " + text + " ")[k] == if k == 0 || k == |text| + 1 then ' ' else text[k - 1]
  {
  }

  lemma PaddedOccurs(text: string, part: string, i: nat)
    requires OccursAt(" " + text + " ", " " + part + " ", i)
    ensures WordsAt(text, part, i)
  {
    var a, b := " " + text + " ", " " + part + " ";
    OccursIff(a, b, i);
    forall k | 0 <= k < |part| ensures text[i + k] == part[k] {
      assert a[i + (k + 1)] == b[k + 1];
      PaddedAt(text, i + k + 1);
      PaddedAt(part, k + 1);
    }
    OccursIff(text, part, i);
    assert a[i + 0] == b[0] && a[i + (|part| + 1)] == b[|part| + 1];
    PaddedAt(text, i);
    PaddedAt(text, i + |part| + 1);
  }

  lemma WordsOccurPadded(text: string, part: string, i: nat)
    requires WordsAt(text, part, i)
    ensures OccursAt(" " + text + " ", " " + part + " ", i)
  {
    var a, b := " " + text + " ", " " + part + " ";
    OccursIff(text, part, i);
    forall k | 0 <= k < |b| ensures a[i + k] == b[k] {
      PaddedAt(text, i + k);
      PaddedAt(part, k);
      if 0 < k <= |part| {
        assert text[i + (k - 1)] == part[k - 1];
      }
    }
    OccursIff(a, b, i);
  }

  /** A task mentions a name exactly if the normalised name, not empty, occurs in the normalised title as
      whole words. */
  lemma MentionsIff(norm: string -> string, t: Task, name: string)
    ensures Mentions(norm, t, name)
       <==> norm(name) != "" && exists i: nat :: WordsAt(norm(t.title), norm(name), i)
  {
    var a, b := " " + norm(t.title) + " ", " " + norm(name) + " ";
    ContainsIff(a, b);
    if i: nat :| OccursAt(a, b, i) {
      PaddedOccurs(norm(t.title), norm(name), i);
    }
    if i: nat :| WordsAt(norm(t.title), norm(name), i) {
      WordsOccurPadded(norm(t.title), norm(name), i);
    }
  }

  // ----- What is shown -----

  ghost predicate RowOfTask(rd: Reading, integrations: seq<Integration>, p: Project, item: Item) {
    exists t :: t in p.tasks && t.status == "blocked" && item == TaskItem(rd, integrations, p, t)
  }

  lemma MapMembers<A, B>(f: A -> B, s: seq<A>, y: B)
    ensures y in Map(f, s) <==> exists x :: x in s && y == f(x)
  {
    if x :| x in s && y == f(x) {
      var k :| 0 <= k < |s| && s[k] == x;
      assert Map(f, s)[k] == y;
    }
  }

  ghost predicate RowOfSome(rd: Reading, integrations: seq<Integration>, projects: seq<Project>, item: Item) {
    exists p :: p in projects && RowOfTask(rd, integrations, p, item)
  }

  lemma ProjectRowsIff(rd: Reading, integrations: seq<Integration>, p: Project, item: Item)
    ensures item in Map(ItemOf(rd, integrations, p), Filter(p.tasks, Blocked)) <==> RowOfTask(rd, integrations, p, item)
  {
    MapMembers(ItemOf(rd, integrations, p), Filter(p.tasks, Blocked), item);
    forall t ensures t in Filter(p.tasks, Blocked) <==> t in p.tasks && t.status == "blocked" {
      FilterMembers(p.tasks, Blocked, t);
    }
    forall t ensures ItemOf(rd, integrations, p)(t) == TaskItem(rd, integrations, p, t) {
    }
  }

  lemma {:induction false} TaskItemsIff(rd: Reading, integrations: seq<Integration>, projects: seq<Project>,
                                        item: Item)
    ensures item in ProjectItems(rd, integrations, projects)
       <==> RowOfSome(rd, integrations, projects, item)
  {
    if projects != [] {
      var before, p := projects[..|projects| - 1], projects[|projects| - 1];
      TaskItemsIff(rd, integrations, before, item);
      ProjectRowsIff(rd, integrations, p, item);
      RowOfOneMore(rd, integrations, before, p, item);
      assert projects == before + [p];
    }
  }

  lemma RowOfOneMore(rd: Reading, integrations: seq<Integration>, before: seq<Project>, p: Project, item: Item)
    ensures RowOfSome(rd, integrations, before + [p], item)
       <==> RowOfSome(rd, integrations, before, item) || RowOfTask(rd, integrations, p, item)
  {
    assert p in before + [p];
    assert forall q :: q in before ==> q in before + [p];
  }

  /** A row of the pane stands for a request that is pending or snoozed, or for a blocked task of a project, and each
      of these has its row. */
  lemma PaneShows(rd: Reading, inbox: seq<Approval>, projects: seq<Project>, integrations: seq<Integration>, item: Item)
    ensures item in Items(rd, inbox, projects, integrations)
       <==> || (exists a :: a in inbox && a.status in {"pending", "snoozed"} && item == ApprovalItem(a))
            || RowOfSome(rd, integrations, projects, item)
  {
    TaskItemsIff(rd, integrations, projects, item);
    MapMembers(ApprovalItem, Filter(inbox, Pending), item);
    forall a ensures a in Filter(inbox, Pending) <==> a in inbox && a.status in {"pending", "snoozed"} {
      FilterMembers(inbox, Pending, a);
    }
  }

  /** The row of a request is about money exactly for the three money actions, and else a decision. The row of a blocked
      task asks to connect the first integration that is not connected and that its title mentions; without
      one it is a decision, with the block reason, or else what the founder was asked to do. */
  lemma RowsSay(rd: Reading, integrations: seq<Integration>, a: Approval, p: Project, t: Task)
    ensures var item := ApprovalItem(a);
            && item.id == a.id && item.title == a.summary && item.severity == a.severity && item.approval == Some(a)
            && (item.kind == Money <==> a.action in {"envelope_topup", "budget_increase", "tool_action"})
            && (item.kind == Decision <==> a.action !in {"envelope_topup", "budget_increase", "tool_action"})
    ensures var item := TaskItem(rd, integrations, p, t);
            && item.id == "task:" + t.id && item.severity == "high" && item.agent == Some(t.agent)
            && item.project == Some(p.id) && item.projectName == Some(p.name) && item.approval == None
            && (item.kind == Account
                <==> exists k :: 0 <= k < |integrations| && item.integration == Some(integrations[k])
                                 && WaitsFor(rd.norm, t, integrations[k])
                                 && forall j :: 0 <= j < k ==> !WaitsFor(rd.norm, t, integrations[j]))
            && (item.kind == Decision <==> forall i :: i in integrations ==> !WaitsFor(rd.norm, t, i))
            && (item.kind == Account ==> item.title == "connect " + item.integration.value.name && item.block == None)
            && (item.kind == Decision ==>
                  && item.title == t.title && item.integration == None && item.block.Some?
                  && item.block.value.taskId == t.id
                  && item.block.value.reason == (if t.blockReason != "" then t.blockReason else t.founderAction)
                  && (item.block.value.stuck <==> "retry_exhausted" <= t.blockReason))
  {
    AwaitedIsFirst(rd.norm, t, integrations);
  }

  lemma {:induction false} AwaitedIsFirst(norm: string -> string, t: Task, integrations: seq<Integration>)
    ensures Awaited(norm, t, integrations).None? <==> forall i :: i in integrations ==> !WaitsFor(norm, t, i)
    ensures Awaited(norm, t, integrations).Some? ==>
              exists k :: 0 <= k < |integrations| && integrations[k] == Awaited(norm, t, integrations).value
                          && WaitsFor(norm, t, integrations[k])
                          && forall j :: 0 <= j < k ==> !WaitsFor(norm, t, integrations[j])
  {
    if integrations != [] && !WaitsFor(norm, t, integrations[0]) {
      var rest := integrations[1..];
      AwaitedIsFirst(norm, t, rest);
      if Awaited(norm, t, rest).Some? {
        var k :| 0 <= k < |rest| && rest[k] == Awaited(norm, t, rest).value && WaitsFor(norm, t, rest[k])
                 && forall j :: 0 <= j < k ==> !WaitsFor(norm, t, rest[j]);
        assert integrations[k + 1] == rest[k];
        forall j | 0 <= j < k + 1 ensures !WaitsFor(norm, t, integrations[j]) {
          assert j > 0 ==> integrations[j] == rest[j - 1];
        }
      }
    }
  }

  /** A card of the Board is about money for the money actions, a ship gate for the actions that hold an outward
      deliverable, and else a decision; the two lists of actions share none. */
  lemma BadgeIff(a: Approval)
    ensures ApprovalCard(a).badge == MoneyBadge <==> a.action in {"envelope_topup", "budget_increase", "tool_action"}
    ensures ApprovalCard(a).badge == ShipGateBadge
       <==> a.action in {"delivery_approval", "channel_post", "deai_gate", "fabrication_check", "outward_park",
                         "csuite_review"}
  {
  }
}
