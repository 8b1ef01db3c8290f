/** The two lists of what waits for the founder: the Needs You pane
    (board-ui/src/studio/needsYou.ts) and the Board column (board-ui/src/board/classify.ts). */
module NeedsYou {
  import opened Wrappers
  import opened Sorting

  datatype Approval = Approval(id: string, status: string, action: string, severity: string, summary: string,
                               requestedBy: Option<string>, project: Option<string>)

  /** An absent block reason or founder action is the empty text. */
  datatype Task = Task(id: string, title: string, status: string, agent: string, blockReason: string,
                       founderAction: string)

  datatype Project = Project(id: string, name: string, tasks: seq<Task>)

  datatype Integration = Integration(id: string, name: string, connected: bool)

  const PENDING: set<string> := {"pending", "snoozed"}
  const MONEY_ACTIONS: set<string> := {"envelope_topup", "budget_increase", "tool_action"}
  const SHIP_GATE_ACTIONS: set<string> :=
    {"delivery_approval", "channel_post", "deai_gate", "fabrication_check", "outward_park", "csuite_review"}

  function SeverityRank(severity: string): nat {
    match severity
    case "critical" => 5
    case "high" => 4
    case "medium" => 3
    case "low" => 2
    case "info" => 1
    case _ => 0
  }

  predicate Pending(a: Approval) {
    a.status in PENDING
  }

  predicate AboutMoney(a: Approval) {
    a.action in MONEY_ACTIONS
  }

  predicate Blocked(t: Task) {
    t.status == "blocked"
  }

  /** Approvals by falling severity. */
  predicate MoreSevere(a: Approval, b: Approval) {
    SeverityRank(a.severity) >= SeverityRank(b.severity)
  }

  function TaskRow(id: string): string {
    "task:" + id
  }

  // ----- The pane -----

  datatype Kind = Money | Account | Decision

  datatype Item = Item(id: string, kind: Kind, title: string, severity: string, agent: Option<string>,
                       project: Option<string>, projectName: Option<string>, approval: Option<Approval>,
                       integration: Option<Integration>, block: Option<Block>)

  /** What a blocked task adds; an absent reason is the empty text. */
  datatype Block = Block(taskId: string, reason: string, summary: Option<string>, stuck: bool, escalation: string)

  /** Reading texts: normalising titles and names, and explaining a block reason in plain words. */
  datatype Reading = Reading(norm: string -> string, explain: string -> Option<string>)

  function KindForApproval(a: Approval): Kind {
    if a.action in MONEY_ACTIONS then Money else Decision
  }

  predicate Contains(text: string, part: string) {
    part <= text || (text != "" && Contains(text[1..], part))
  }

  /** A task mentions a name as whole words; `norm` is the normalisation of both. */
  predicate Mentions(norm: string -> string, t: Task, name: string) {
    norm(name) != "" && Contains(" " + norm(t.title) + " ", " " + norm(name) + " ")
  }

  predicate WaitsFor(norm: string -> string, t: Task, i: Integration) {
    !i.connected && (Mentions(norm, t, i.name) || Mentions(norm, t, i.id))
  }

  /** The first integration in the registry that the task waits for. */
  function Awaited(norm: string -> string, t: Task, integrations: seq<Integration>): Option<Integration> {
    if integrations == [] then None
    else if WaitsFor(norm, t, integrations[0]) then Some(integrations[0])
    else Awaited(norm, t, integrations[1..])
  }

  method IntegrationForTask(norm: string -> string, t: Task, integrations: seq<Integration>)
    returns (r: Option<Integration>)
    ensures r == Awaited(norm, t, integrations)
    ensures r.None? <==> forall i :: i in integrations ==> !WaitsFor(norm, t, i)
    ensures r.Some? ==> exists k :: 0 <= k < |integrations| && integrations[k] == r.value && WaitsFor(norm, t, r.value)
                                 && forall j :: 0 <= j < k ==> !WaitsFor(norm, t, integrations[j])
  {
    for k := 0 to |integrations|
      invariant Awaited(norm, t, integrations) == Awaited(norm, t, integrations[k..])
      invariant forall j :: 0 <= j < k ==> !WaitsFor(norm, t, integrations[j])
    {
      var i := integrations[k];
      assert integrations[k..][1..] == integrations[k + 1..];
      if i.connected {
        continue;
      }
      if Mentions(norm, t, i.name) || Mentions(norm, t, i.id) {
        return Some(i);
      }
    }
    return None;
  }

  function ApprovalItem(a: Approval): Item {
    Item(a.id, KindForApproval(a), a.summary, a.severity, a.requestedBy, a.project, None, Some(a), None, None)
  }

  function ReasonOf(t: Task): string {
    if t.blockReason != "" then t.blockReason else t.founderAction
  }

  /** An empty reason is not explained. */
  function SummaryOf(rd: Reading, t: Task): Option<string> {
    if ReasonOf(t) == "" then None else rd.explain(ReasonOf(t))
  }

  /** The text prefilled for the CEO. */
  function Escalation(rd: Reading, p: Project, t: Task): string {
    "Task \"" + t.title + "\" (" + t.agent + ", project " + p.name + ") is blocked"
    + (if SummaryOf(rd, t).Some? && SummaryOf(rd, t).value != "" then " \U{2014} " + SummaryOf(rd, t).value else "")
    + (if ReasonOf(t) != "" then " Engine detail: " + ReasonOf(t) else "")
    + ". What should the team do?"
  }

  function BlockOf(rd: Reading, p: Project, t: Task): Block {
    Block(t.id, ReasonOf(t), SummaryOf(rd, t), "retry_exhausted" <= t.blockReason, Escalation(rd, p, t))
  }

  function TaskItem(rd: Reading, integrations: seq<Integration>, p: Project, t: Task): Item {
    match Awaited(rd.norm, t, integrations)
    case Some(i) =>
      Item(TaskRow(t.id), Account, "connect " + i.name, "high", Some(t.agent), Some(p.id), Some(p.name), None,
          Some(i), None)
    case None =>
      Item(TaskRow(t.id), Decision, t.title, "high", Some(t.agent), Some(p.id), Some(p.name), None, None,
           Some(BlockOf(rd, p, t)))
  }

  function ItemOf(rd: Reading, integrations: seq<Integration>, p: Project): Task -> Item {
    (t: Task) => TaskItem(rd, integrations, p, t)
  }

  function ProjectItems(rd: Reading, integrations: seq<Integration>, projects: seq<Project>): seq<Item> {
    if projects == [] then []
    else
      var p := projects[|projects| - 1];
      ProjectItems(rd, integrations, projects[..|projects| - 1])
          + Map(ItemOf(rd, integrations, p), Filter(p.tasks, Blocked))
  }

  /** The items before sorting. */
  function Items(rd: Reading, inbox: seq<Approval>, projects: seq<Project>, integrations: seq<Integration>): seq<Item> {
    Map(ApprovalItem, Filter(inbox, Pending)) + ProjectItems(rd, integrations, projects)
  }

  function KindOrder(k: Kind): nat {
    match k
    case Money => 0
    case Account => 1
    case Decision => 2
  }

  predicate ItemLe(x: Item, y: Item) {
    KindOrder(x.kind) < KindOrder(y.kind)
    || (x.kind == y.kind && SeverityRank(x.severity) >= SeverityRank(y.severity))
  }

  lemma FilterAppend<T>(s: seq<T>, k: nat, p: T -> bool)
    requires k < |s|
    ensures Filter(s[..k + 1], p) == Filter(s[..k], p) + if p(s[k]) then [s[k]] else []
  {
    assert s[..k + 1] == s[..k] + [s[k]] && [s[k]][1..] == [];
    FilterConcat(s[..k], [s[k]], p);
  }

  /** Building a list by pushing `f` of every element that passes `p`. */
  lemma PushFirst<A, B>(s: seq<A>, k: nat, p: A -> bool, f: A -> B)
    requires k < |s|
    ensures Map(f, Filter(s[..k + 1], p)) == Map(f, Filter(s[..k], p)) + if p(s[k]) then [f(s[k])] else []
  {
    FilterAppend(s, k, p);
    MapConcat(f, Filter(s[..k], p), if p(s[k]) then [s[k]] else []);
  }

  lemma PushAfter<A, B>(before: seq<B>, s: seq<A>, k: nat, p: A -> bool, f: A -> B)
    requires k < |s|
    ensures before + Map(f, Filter(s[..k + 1], p))
         == (before + Map(f, Filter(s[..k], p))) + if p(s[k]) then [f(s[k])] else []
  {
    PushFirst(s, k, p, f);
    ConcatAssociates(before, Map(f, Filter(s[..k], p)), if p(s[k]) then [f(s[k])] else []);
  }

  /** The body of the inner loop. */
  method ItemForBlocked(rd: Reading, p: Project, t: Task, integrations: seq<Integration>) returns (item: Item)
    ensures item == TaskItem(rd, integrations, p, t)
  {
    var integration := IntegrationForTask(rd.norm, t, integrations);
    if integration.Some? {
      item := Item(TaskRow(t.id), Account, "connect " + integration.value.name, "high", Some(t.agent),
                   Some(p.id), Some(p.name), None, integration, None);
    } else {
      var reason := if t.blockReason != "" then t.blockReason else t.founderAction;
      var summary := if reason == "" then None else rd.explain(reason);
      var block := Block(t.id, reason, summary, "retry_exhausted" <= t.blockReason, Escalation(rd, p, t));
      item := Item(TaskRow(t.id), Decision, t.title, "high", Some(t.agent), Some(p.id), Some(p.name), None, None,
                   Some(block));
    }
  }

  /** The inner loop: the blocked tasks of one project. */
  method PushBlocked(rd: Reading, p: Project, integrations: seq<Integration>, before: seq<Item>)
    returns (items: seq<Item>)
    ensures items == before + Map(ItemOf(rd, integrations, p), Filter(p.tasks, Blocked))
  {
    items := before;
    for j := 0 to |p.tasks|
      invariant items == before + Map(ItemOf(rd, integrations, p), Filter(p.tasks[..j], Blocked))
    {
      PushAfter(before, p.tasks, j, Blocked, ItemOf(rd, integrations, p));
      var t := p.tasks[j];
      if t.status != "blocked" {
        continue;
      }
      var item := ItemForBlocked(rd, p, t, integrations);
      assert item == ItemOf(rd, integrations, p)(t);
      items := items + [item];
    }
    assert p.tasks[..|p.tasks|] == p.tasks;
  }

  method BuildNeedsYou(rd: Reading, inbox: seq<Approval>, projects: seq<Project>, integrations: seq<Integration>)
    returns (r: seq<Item>)
    ensures r == StableSort(Items(rd, inbox, projects, integrations), ItemLe)
  {
    var items := [];
    for k := 0 to |inbox|
      invariant items == Map(ApprovalItem, Filter(inbox[..k], Pending))
    {
      PushFirst(inbox, k, Pending, ApprovalItem);
      var a := inbox[k];
      if a.status !in PENDING {
        continue;
      }
      items := items + [Item(a.id, KindForApproval(a), a.summary, a.severity, a.requestedBy, a.project, None,
                             Some(a), None, None)];
    }
    assert inbox[..|inbox|] == inbox;
    ghost var approvals := items;
    for i := 0 to |projects|
      invariant items == approvals + ProjectItems(rd, integrations, projects[..i])
    {
      var p := projects[i];
      items := PushBlocked(rd, p, integrations, items);
      assert projects[..i + 1][..i] == projects[..i];
      ConcatAssociates(approvals, ProjectItems(rd, integrations, projects[..i]),
                       Map(ItemOf(rd, integrations, p), Filter(p.tasks, Blocked)));
    }
    assert projects[..|projects|] == projects;
    r := StableSort(items, ItemLe);
  }

  datatype Counts = Counts(money: nat, account: nat, decision: nat)

  function NumberOf(items: seq<Item>, k: Kind): nat {
    if items == [] then 0
    else NumberOf(items[..|items| - 1], k) + if items[|items| - 1].kind == k then 1 else 0
  }

  method CountByKind(items: seq<Item>) returns (c: Counts)
    ensures c == Counts(NumberOf(items, Money), NumberOf(items, Account), NumberOf(items, Decision))
    ensures c.money + c.account + c.decision == |items|
  {
    c := Counts(0, 0, 0);
    for k := 0 to |items|
      invariant c == Counts(NumberOf(items[..k], Money), NumberOf(items[..k], Account), NumberOf(items[..k], Decision))
      invariant c.money + c.account + c.decision == k
    {
      assert items[..k + 1][..k] == items[..k];
      match items[k].kind {
        case Money => c := c.(money := c.money + 1);
        case Account => c := c.(account := c.account + 1);
        case Decision => c := c.(decision := c.decision + 1);
      }
    }
    assert items[..|items|] == items;
  }

  // ----- The Board column -----

  datatype Badge = MoneyBadge | ShipGateBadge | DecisionBadge

  /** A task card stands for a blocked task. */
  datatype CardKind = ApprovalKind | BlockedTask

  datatype Card = Card(id: string, kind: CardKind, badge: Badge, title: string, severity: string, agent: Option<string>,
                       project: Option<string>, projectName: Option<string>, approval: Option<Approval>)

  function ClassifyAction(action: string): Badge {
    if action in MONEY_ACTIONS then MoneyBadge
    else if action in SHIP_GATE_ACTIONS then ShipGateBadge
    else DecisionBadge
  }

  function ApprovalCard(a: Approval): Card {
    Card(a.id, ApprovalKind, ClassifyAction(a.action), a.summary, a.severity, None, None, None, Some(a))
  }

  function CardOf(p: Project): Task -> Card {
    (t: Task) => Card(TaskRow(t.id), BlockedTask, DecisionBadge, t.title, "high", Some(t.agent), Some(p.id),
        Some(p.name), None)
  }

  function ProjectCards(projects: seq<Project>): seq<Card> {
    if projects == [] then []
    else
      var p := projects[|projects| - 1];
      ProjectCards(projects[..|projects| - 1]) + Map(CardOf(p), Filter(p.tasks, Blocked))
  }

  function Cards(inbox: seq<Approval>, projects: seq<Project>): seq<Card> {
    Map(ApprovalCard, Filter(inbox, Pending)) + ProjectCards(projects)
  }

  predicate CardLe(x: Card, y: Card) {
    SeverityRank(x.severity) >= SeverityRank(y.severity)
  }

  method PushBlockedCards(p: Project, before: seq<Card>) returns (cards: seq<Card>)
    ensures cards == before + Map(CardOf(p), Filter(p.tasks, Blocked))
  {
    cards := before;
    for j := 0 to |p.tasks|
      invariant cards == before + Map(CardOf(p), Filter(p.tasks[..j], Blocked))
    {
      PushAfter(before, p.tasks, j, Blocked, CardOf(p));
      var t := p.tasks[j];
      if t.status != "blocked" {
        continue;
      }
      cards := cards + [Card(TaskRow(t.id), BlockedTask, DecisionBadge, t.title, "high", Some(t.agent), Some(p.id),
          Some(p.name), None)];
    }
    assert p.tasks[..|p.tasks|] == p.tasks;
  }

  method BuildBoard(inbox: seq<Approval>, projects: seq<Project>) returns (r: seq<Card>)
    ensures r == StableSort(Cards(inbox, projects), CardLe)
  {
    var cards := [];
    for k := 0 to |inbox|
      invariant cards == Map(ApprovalCard, Filter(inbox[..k], Pending))
    {
      PushFirst(inbox, k, Pending, ApprovalCard);
      var a := inbox[k];
      if a.status !in PENDING {
        continue;
      }
      cards := cards + [Card(a.id, ApprovalKind, ClassifyAction(a.action), a.summary, a.severity, None, None, None,
          Some(a))];
    }
    assert inbox[..|inbox|] == inbox;
    ghost var approvals := cards;
    for i := 0 to |projects|
      invariant cards == approvals + ProjectCards(projects[..i])
    {
      var p := projects[i];
      cards := PushBlockedCards(p, cards);
      assert projects[..i + 1][..i] == projects[..i];
      ConcatAssociates(approvals, ProjectCards(projects[..i]), Map(CardOf(p), Filter(p.tasks, Blocked)));
    }
    assert projects[..|projects|] == projects;
    r := StableSort(cards, CardLe);
  }

  // ----- The two agree -----

  lemma BothOrdersAreUsable()
    ensures TotalPreorder(ItemLe) && TotalPreorder(CardLe) && TotalPreorder(MoreSevere)
  {
  }

  /** Each list is sorted by its own key and keeps the incoming order on ties. */
  lemma BothAreStablySorted(rd: Reading, inbox: seq<Approval>, projects: seq<Project>, integrations: seq<Integration>)
    ensures var items := Items(rd, inbox, projects, integrations);
            IsStableSortOf(StableSort(items, ItemLe), items, ItemLe)
    ensures IsStableSortOf(StableSort(Cards(inbox, projects), CardLe), Cards(inbox, projects), CardLe)
  {
    BothOrdersAreUsable();
    StableSortIsStable(Items(rd, inbox, projects, integrations), ItemLe);
    StableSortIsStable(Cards(inbox, projects), CardLe);
  }

  function ItemId(i: Item): string {
    i.id
  }

  function CardId(c: Card): string {
    c.id
  }

  lemma {:induction false} SameProjectRows(rd: Reading, projects: seq<Project>, integrations: seq<Integration>)
    ensures Map(ItemId, ProjectItems(rd, integrations, projects)) == Map(CardId, ProjectCards(projects))
  {
    if projects != [] {
      var before, p := projects[..|projects| - 1], projects[|projects| - 1];
      SameProjectRows(rd, before, integrations);
      var tasks := Filter(p.tasks, Blocked);
      MapConcat(ItemId, ProjectItems(rd, integrations, before), Map(ItemOf(rd, integrations, p), tasks));
      MapConcat(CardId, ProjectCards(before), Map(CardOf(p), tasks));
      SameTaskRows(rd, p, tasks, integrations);
    }
  }

  lemma SameTaskRows(rd: Reading, p: Project, tasks: seq<Task>, integrations: seq<Integration>)
    ensures Map(ItemId, Map(ItemOf(rd, integrations, p), tasks)) == Map(CardId, Map(CardOf(p), tasks))
  {
    var items, cards := Map(ItemOf(rd, integrations, p), tasks), Map(CardOf(p), tasks);
    forall i | 0 <= i < |tasks| ensures ItemId(items[i]) == CardId(cards[i]) {
      assert items[i] == TaskItem(rd, integrations, p, tasks[i]);
    }
  }

  /** For the same inbox and projects, and whatever is connected, the pane and the Board show the
      same rows: the same ids, each equally often. */
  lemma SameRows(rd: Reading, inbox: seq<Approval>, projects: seq<Project>, integrations: seq<Integration>)
    ensures multiset(Map(ItemId, StableSort(Items(rd, inbox, projects, integrations), ItemLe)))
         == multiset(Map(CardId, StableSort(Cards(inbox, projects), CardLe)))
  {
    var pending := Filter(inbox, Pending);
    SameProjectRows(rd, projects, integrations);
    MapConcat(ItemId, Map(ApprovalItem, pending), ProjectItems(rd, integrations, projects));
    MapConcat(CardId, Map(ApprovalCard, pending), ProjectCards(projects));
    assert Map(ItemId, Map(ApprovalItem, pending)) == Map(CardId, Map(ApprovalCard, pending));
    MapSortBag(ItemId, Items(rd, inbox, projects, integrations), ItemLe);
    MapSortBag(CardId, Cards(inbox, projects), CardLe);
  }

  predicate IsMoneyItem(i: Item) {
    i.kind == Money
  }

  predicate IsMoneyCard(c: Card) {
    c.badge == MoneyBadge
  }

  function ItemApproval(i: Item): Option<Approval> {
    i.approval
  }

  function CardApproval(c: Card): Option<Approval> {
    c.approval
  }

  function Present(a: Approval): Option<Approval> {
    Some(a)
  }

  /** The pending money approvals, by falling severity. */
  function MoneyRequests(inbox: seq<Approval>): seq<Option<Approval>> {
    Map(Present, StableSort(Filter(Filter(inbox, Pending), AboutMoney), MoreSevere))
  }

  lemma {:induction false} NoMoneyInProjects(rd: Reading, projects: seq<Project>, integrations: seq<Integration>)
    ensures Filter(ProjectItems(rd, integrations, projects), IsMoneyItem) == []
    ensures Filter(ProjectCards(projects), IsMoneyCard) == []
  {
    if projects != [] {
      var before, p := projects[..|projects| - 1], projects[|projects| - 1];
      NoMoneyInProjects(rd, before, integrations);
      var tasks := Filter(p.tasks, Blocked);
      FilterConcat(ProjectItems(rd, integrations, before), Map(ItemOf(rd, integrations, p), tasks), IsMoneyItem);
      FilterConcat(ProjectCards(before), Map(CardOf(p), tasks), IsMoneyCard);
      FilterNone(Map(ItemOf(rd, integrations, p), tasks), IsMoneyItem);
      FilterNone(Map(CardOf(p), tasks), IsMoneyCard);
    }
  }

  lemma PaneMoneyBeforeSorting(rd: Reading, inbox: seq<Approval>, projects: seq<Project>,
                               integrations: seq<Integration>)
    ensures Filter(Items(rd, inbox, projects, integrations), IsMoneyItem)
         == Map(ApprovalItem, Filter(Filter(inbox, Pending), AboutMoney))
  {
    var pending := Filter(inbox, Pending);
    FilterConcat(Map(ApprovalItem, pending), ProjectItems(rd, integrations, projects), IsMoneyItem);
    NoMoneyInProjects(rd, projects, integrations);
    FilterMap(ApprovalItem, pending, IsMoneyItem, AboutMoney);
  }

  lemma BoardMoneyBeforeSorting(inbox: seq<Approval>, projects: seq<Project>)
    ensures Filter(Cards(inbox, projects), IsMoneyCard) == Map(ApprovalCard, Filter(Filter(inbox, Pending), AboutMoney))
  {
    var pending := Filter(inbox, Pending);
    FilterConcat(Map(ApprovalCard, pending), ProjectCards(projects), IsMoneyCard);
    NoMoneyInProjects(Reading((s: string) => s, (s: string) => None), projects, []);
    FilterMap(ApprovalCard, pending, IsMoneyCard, AboutMoney);
  }

  lemma MoneyItemsSortAlike(money: seq<Approval>)
    requires forall a :: a in money ==> AboutMoney(a)
    ensures Map(ItemApproval, StableSort(Map(ApprovalItem, money), ItemLe))
        == Map(Present, StableSort(money, MoreSevere))
    ensures Map(CardApproval, StableSort(Map(ApprovalCard, money), CardLe))
        == Map(Present, StableSort(money, MoreSevere))
  {
    MapSort(ApprovalItem, money, MoreSevere, ItemLe);
    MapSort(ApprovalCard, money, MoreSevere, CardLe);
  }

  lemma PaneMoney(rd: Reading, inbox: seq<Approval>, projects: seq<Project>, integrations: seq<Integration>)
    ensures Map(ItemApproval, Filter(StableSort(Items(rd, inbox, projects, integrations), ItemLe), IsMoneyItem))
         == MoneyRequests(inbox)
  {
    var items := Items(rd, inbox, projects, integrations);
    assert Filter(StableSort(items, ItemLe), IsMoneyItem) == StableSort(Filter(items, IsMoneyItem), ItemLe) by {
      BothOrdersAreUsable();
      FilterSort(items, ItemLe, IsMoneyItem);
    }
    PaneMoneyBeforeSorting(rd, inbox, projects, integrations);
    MoneyItemsSortAlike(Filter(Filter(inbox, Pending), AboutMoney));
  }

  lemma BoardMoney(inbox: seq<Approval>, projects: seq<Project>)
    ensures Map(CardApproval, Filter(StableSort(Cards(inbox, projects), CardLe), IsMoneyCard)) == MoneyRequests(inbox)
  {
    var cards := Cards(inbox, projects);
    assert Filter(StableSort(cards, CardLe), IsMoneyCard) == StableSort(Filter(cards, IsMoneyCard), CardLe) by {
      BothOrdersAreUsable();
      FilterSort(cards, CardLe, IsMoneyCard);
    }
    BoardMoneyBeforeSorting(inbox, projects);
    MoneyItemsSortAlike(Filter(Filter(inbox, Pending), AboutMoney));
  }

  /** The two lists ask for money through the same approvals, and even in the same order. */
  lemma SameMoneyRequests(rd: Reading, inbox: seq<Approval>, projects: seq<Project>, integrations: seq<Integration>)
    ensures Map(ItemApproval, Filter(StableSort(Items(rd, inbox, projects, integrations), ItemLe), IsMoneyItem))
         == Map(CardApproval, Filter(StableSort(Cards(inbox, projects), CardLe), IsMoneyCard))
  {
    PaneMoney(rd, inbox, projects, integrations);
    BoardMoney(inbox, projects);
  }

  // ----- What the engine's own cards are shown as -----

  /** The action types under which the engine files requests for money and parked outward actions. */
  const ENGINE_BUDGET_ACTIONS: set<string> := {"project_envelope_topup", "harness_budget_increase"}
  const ENGINE_PARK_ACTION := "outward_action"

  predicate FiledByTheEngine(a: Approval) {
    a.action in ENGINE_BUDGET_ACTIONS || a.action == ENGINE_PARK_ACTION
  }

  lemma PendingIsListed(rd: Reading, inbox: seq<Approval>, projects: seq<Project>, integrations: seq<Integration>,
                        a: Approval)
    requires a in inbox && Pending(a)
    ensures ApprovalItem(a) in StableSort(Items(rd, inbox, projects, integrations), ItemLe)
    ensures ApprovalCard(a) in StableSort(Cards(inbox, projects), CardLe)
  {
    FilterMembers(inbox, Pending, a);
    MapMember(ApprovalItem, Filter(inbox, Pending), a);
    MapMember(ApprovalCard, Filter(inbox, Pending), a);
    SortMembers(Items(rd, inbox, projects, integrations), ItemLe, ApprovalItem(a));
    SortMembers(Cards(inbox, projects), CardLe, ApprovalCard(a));
  }

  lemma MoneyRequestsAreAboutMoney(inbox: seq<Approval>, a: Approval)
    ensures Some(a) in MoneyRequests(inbox) <==> a in inbox && Pending(a) && AboutMoney(a)
  {
    var money := Filter(Filter(inbox, Pending), AboutMoney);
    FilterMembers(inbox, Pending, a);
    FilterMembers(Filter(inbox, Pending), AboutMoney, a);
    SortMembers(money, MoreSevere, a);
    if a in StableSort(money, MoreSevere) {
      MapMember(Present, StableSort(money, MoreSevere), a);
    }
  }

  lemma EngineActions(a: Approval)
    requires FiledByTheEngine(a)
    ensures !AboutMoney(a) && KindForApproval(a) == Decision && ClassifyAction(a.action) == DecisionBadge
  {
  }

  /** The allowlists name other action types: in neither list is any budget card of the engine shown
      as money, nor a parked outward action as a ship gate. Each pending one is shown as a decision. */
  lemma EngineCardsAreDecisions(rd: Reading, inbox: seq<Approval>, projects: seq<Project>,
                                integrations: seq<Integration>, a: Approval)
    requires a in inbox && Pending(a) && FiledByTheEngine(a)
    ensures ApprovalItem(a) in StableSort(Items(rd, inbox, projects, integrations), ItemLe)
    ensures ApprovalCard(a) in StableSort(Cards(inbox, projects), CardLe)
    ensures ApprovalItem(a).kind == Decision && ApprovalCard(a).badge == DecisionBadge
    ensures Some(a) !in MoneyRequests(inbox)
  {
    EngineActions(a);
    PendingIsListed(rd, inbox, projects, integrations, a);
    MoneyRequestsAreAboutMoney(inbox, a);
  }
}
