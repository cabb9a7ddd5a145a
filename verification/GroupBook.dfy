/** The group handler's bookkeeping: which client serves each group and which group each task came from, under
    every interleaving of joins, invitations, commands, disconnections, discards and leaves. */
module GroupBook {
  import opened Basics

  type GroupId = string
  type TaskId = string
  type Aic = string
  type ClientId = nat

  /** A handler coroutine suspended on its client. */
  datatype Op =
    | Discarding(group: GroupId, client: ClientId)
    | Joining(group: GroupId, client: ClientId)
    | Leaving(group: GroupId, client: ClientId)

  /** A task was assigned to a group, or a group's state was dropped. */
  datatype Entry = Mapped(task: TaskId, group: GroupId) | Dropped(group: GroupId)

  /** `order` lists the groups in the order in which the client dictionary holds them. */
  datatype Book = Book(
    clients: map<GroupId, ClientId>,
    order: seq<GroupId>,
    tasks: map<TaskId, GroupId>,
    ops: map<nat, Op>,
    next: nat,
    log: seq<Entry>)

  const EMPTY := Book(map[], [], map[], map[], 0, [])

  /** What the clients say of themselves when they are asked. */
  datatype Peers = Peers(joined: set<ClientId>, leaders: map<ClientId, Aic>)

  datatype Event =
    | Enter(group: GroupId, peers: Peers)
    | DiscardEnds(op: nat)
    | JoinEnds(op: nat, ok: bool)
    | Disconnects(group: GroupId, client: ClientId)
    | TaskCommand(task: TaskId, named: Option<GroupId>, sender: Aic, peers: Peers)
    | LeaveBegins(group: GroupId)
    | LeaveEnds(op: nat, ok: bool)

  predicate Possible(b: Book, ev: Event) {
    match ev
    case DiscardEnds(k) => k in b.ops && b.ops[k].Discarding?
    case JoinEnds(k, _) => k in b.ops && b.ops[k].Joining?
    case LeaveEnds(k, _) => k in b.ops && b.ops[k].Leaving?
    case _ => true
  }

  function TasksOf(b: Book, group: GroupId): set<TaskId> {
    set t | t in b.tasks && b.tasks[t] == group
  }

  function Without(order: seq<GroupId>, group: GroupId): (r: seq<GroupId>)
    ensures forall g :: g in r <==> g in order && g != group
  {
    if order == [] then []
    else if order[0] == group then Without(order[1..], group)
    else [order[0]] + Without(order[1..], group)
  }

  /** Another client serves the group. */
  predicate Replaced(b: Book, group: GroupId, client: Option<ClientId>) {
    client.Some? && group in b.clients && b.clients[group] != client.value
  }

  /** Drops a group, unless a client other than the given one serves it. */
  function RemoveState(b: Book, group: GroupId, client: Option<ClientId>): Book {
    if Replaced(b, group, client) then b
    else b.(clients := b.clients - {group}, order := Without(b.order, group),
            tasks := b.tasks - TasksOf(b, group), log := b.log + [Dropped(group)])
  }

  /** A fresh client starts to join. */
  function StartJoin(b: Book, group: GroupId): Book {
    b.(ops := b.ops[b.next := Joining(group, b.next)], next := b.next + 1)
  }

  function Suspend(b: Book, op: Op): Book {
    b.(ops := b.ops[b.next := op], next := b.next + 1)
  }

  /** An invitation or a join request: nothing to do if the group's client is joined; a stale one is closed
      first. */
  function OnEnter(b: Book, group: GroupId, peers: Peers): Book {
    if group !in b.clients then StartJoin(b, group)
    else if b.clients[group] in peers.joined then b
    else Suspend(b, Discarding(group, b.clients[group]))
  }

  /** A client that joined serves its group from now on, whoever served it before. */
  function Install(b: Book, group: GroupId, client: ClientId): Book {
    b.(clients := b.clients[group := client], order := if group in b.clients then b.order else b.order + [group])
  }

  predicate Led(b: Book, peers: Peers, group: GroupId, sender: Aic) {
    && group in b.clients && b.clients[group] in peers.joined
    && b.clients[group] in peers.leaders && peers.leaders[b.clients[group]] == sender
  }

  /** The first of `groups` that is joined and led by the sender. */
  function FindForSender(b: Book, peers: Peers, groups: seq<GroupId>, sender: Aic): Option<GroupId> {
    if groups == [] then None
    else if Led(b, peers, groups[0], sender) then Some(groups[0])
    else FindForSender(b, peers, groups[1..], sender)
  }

  /** The group of a task command: the one it names, if joined, else the first led by its sender. */
  function Resolve(b: Book, group: Option<GroupId>, sender: Aic, peers: Peers): Option<GroupId> {
    if group.Some? && group.value != "" && group.value in b.clients && b.clients[group.value] in peers.joined then group
    else if sender != "" then FindForSender(b, peers, b.order, sender)
    else None
  }

  function OnTaskCommand(b: Book, task: TaskId, group: Option<GroupId>, sender: Aic, peers: Peers): Book {
    match Resolve(b, group, sender, peers)
    case None => b
    case Some(g) => if g == "" then b else b.(tasks := b.tasks[task := g], log := b.log + [Mapped(task, g)])
  }

  function Done(b: Book, k: nat): Book {
    b.(ops := b.ops - {k})
  }

  function Step(b: Book, ev: Event): Book
    requires Possible(b, ev)
  {
    match ev
    case Enter(group, peers) => OnEnter(b, group, peers)
    case DiscardEnds(k) =>
      var op := b.ops[k];
      StartJoin(RemoveState(Done(b, k), op.group, Some(op.client)), op.group)
    case JoinEnds(k, ok) =>
      var op := b.ops[k];
      if ok then Install(Done(b, k), op.group, op.client) else Done(b, k)
    case Disconnects(group, client) => if group == "" then b else RemoveState(b, group, Some(client))
    case TaskCommand(task, group, sender, peers) => OnTaskCommand(b, task, group, sender, peers)
    case LeaveBegins(group) => if group in b.clients then Suspend(b, Leaving(group, b.clients[group])) else b
    case LeaveEnds(k, ok) =>
      var op := b.ops[k];
      if ok then RemoveState(Done(b, k), op.group, Some(op.client)) else Done(b, k)
  }

  predicate Run(b: Book, evs: seq<Event>)
    decreases |evs|
  {
    evs == [] || (Possible(b, evs[0]) && Run(Step(b, evs[0]), evs[1..]))
  }

  function After(b: Book, evs: seq<Event>): Book
    requires Run(b, evs)
    decreases |evs|
  {
    if evs == [] then b else After(Step(b, evs[0]), evs[1..])
  }

  // ---------------------------------------------------------------- the invariant

  /** The entry ends an earlier assignment of `task` to `group`. */
  predicate Undoes(entry: Entry, task: TaskId, group: GroupId) {
    entry == Dropped(group) || (entry.Mapped? && entry.task == task)
  }

  /** The history says that the task was assigned to the group and neither was it reassigned nor the group
      dropped since. */
  ghost predicate Assigned(log: seq<Entry>, task: TaskId, group: GroupId) {
    exists i :: 0 <= i < |log| && log[i] == Mapped(task, group) && forall j :: i < j < |log| ==> !Undoes(log[j], task, group)
  }

  lemma AssignedSnoc(log: seq<Entry>, entry: Entry, task: TaskId, group: GroupId)
    ensures Assigned(log + [entry], task, group) <==>
      entry == Mapped(task, group) || (Assigned(log, task, group) && !Undoes(entry, task, group))
  {
    var longer := log + [entry];
    assert longer[|log|] == entry;
    if Assigned(log, task, group) && !Undoes(entry, task, group) {
      var i :| 0 <= i < |log| && log[i] == Mapped(task, group)
        && forall j :: i < j < |log| ==> !Undoes(log[j], task, group);
      assert longer[i] == Mapped(task, group);
    }
    if Assigned(longer, task, group) && entry != Mapped(task, group) {
      var i :| 0 <= i < |longer| && longer[i] == Mapped(task, group)
        && forall j :: i < j < |longer| ==> !Undoes(longer[j], task, group);
      assert log[i] == Mapped(task, group);
      assert forall j :: i < j < |log| ==> longer[j] == log[j];
    }
  }

  ghost predicate MapsMatchHistory(b: Book) {
    forall t, g {:trigger Assigned(b.log, t, g)} :: t in b.tasks && b.tasks[t] == g <==> Assigned(b.log, t, g)
  }

  ghost predicate Inv(b: Book) {
    && (forall t :: t in b.tasks ==> b.tasks[t] in b.clients)
    && (forall g :: g in b.clients <==> g in b.order)
    && Distinct(b.order)
    && MapsMatchHistory(b)
  }

  lemma {:induction false} WithoutKeepsDistinct(order: seq<GroupId>, group: GroupId)
    requires Distinct(order)
    ensures Distinct(Without(order, group))
  {
    if order != [] {
      var rest := order[1..];
      assert forall i :: 0 <= i < |rest| ==> rest[i] == order[i + 1];
      WithoutKeepsDistinct(rest, group);
      var r := Without(rest, group);
      assert forall i :: 0 <= i < |r| ==> r[i] in r && r[i] in rest;
      assert order[0] !in rest;
    }
  }

  lemma RemoveKeepsInv(b: Book, group: GroupId, client: Option<ClientId>)
    requires Inv(b)
    ensures Inv(RemoveState(b, group, client))
  {
    WithoutKeepsDistinct(b.order, group);
    var b' := RemoveState(b, group, client);
    if !Replaced(b, group, client) {
      forall t, g ensures t in b'.tasks && b'.tasks[t] == g <==> Assigned(b'.log, t, g) {
        AssignedSnoc(b.log, Dropped(group), t, g);
      }
    }
  }

  lemma {:induction false} FoundIsLed(b: Book, peers: Peers, groups: seq<GroupId>, sender: Aic)
    ensures match FindForSender(b, peers, groups, sender)
      case None => forall g :: g in groups ==> !Led(b, peers, g, sender)
      case Some(found) =>
        (exists i :: 0 <= i < |groups| && groups[i] == found && Led(b, peers, found, sender)
                     && forall j :: 0 <= j < i ==> !Led(b, peers, groups[j], sender))
  {
    if groups != [] {
      FoundIsLed(b, peers, groups[1..], sender);
      if Led(b, peers, groups[0], sender) {
        assert groups[0] == FindForSender(b, peers, groups, sender).value;
      } else if FindForSender(b, peers, groups[1..], sender).Some? {
        var found := FindForSender(b, peers, groups[1..], sender).value;
        var i :| 0 <= i < |groups[1..]| && groups[1..][i] == found && Led(b, peers, found, sender)
                 && forall j :: 0 <= j < i ==> !Led(b, peers, groups[1..][j], sender);
        assert groups[i + 1] == found;
        assert forall j :: 0 < j < i + 1 ==> groups[j] == groups[1..][j - 1];
      }
    }
  }

  lemma CommandKeepsInv(b: Book, task: TaskId, group: Option<GroupId>, sender: Aic, peers: Peers)
    requires Inv(b)
    ensures Inv(OnTaskCommand(b, task, group, sender, peers))
  {
    FoundIsLed(b, peers, b.order, sender);
    var b' := OnTaskCommand(b, task, group, sender, peers);
    if b' != b {
      var g0 := Resolve(b, group, sender, peers).value;
      forall t, g ensures t in b'.tasks && b'.tasks[t] == g <==> Assigned(b'.log, t, g) {
        AssignedSnoc(b.log, Mapped(task, g0), t, g);
      }
    }
  }

  /** The history is untouched when only clients are added or coroutines move. */
  lemma GrowthKeepsInv(b: Book, b': Book)
    requires Inv(b) && b'.tasks == b.tasks && b'.log == b.log
    requires b'.clients.Keys >= b.clients.Keys
    requires forall g :: g in b'.clients <==> g in b'.order
    requires Distinct(b'.order)
    ensures Inv(b')
  {
  }

  lemma StepKeepsInv(b: Book, ev: Event)
    requires Inv(b) && Possible(b, ev)
    ensures Inv(Step(b, ev))
  {
    match ev
    case DiscardEnds(k) =>
      GrowthKeepsInv(b, Done(b, k));
      RemoveKeepsInv(Done(b, k), b.ops[k].group, Some(b.ops[k].client));
      GrowthKeepsInv(RemoveState(Done(b, k), b.ops[k].group, Some(b.ops[k].client)), Step(b, ev));
    case LeaveEnds(k, ok) =>
      GrowthKeepsInv(b, Done(b, k));
      RemoveKeepsInv(Done(b, k), b.ops[k].group, Some(b.ops[k].client));
    case Disconnects(group, client) => RemoveKeepsInv(b, group, Some(client));
    case TaskCommand(task, group, sender, peers) => CommandKeepsInv(b, task, group, sender, peers);
    case _ => GrowthKeepsInv(b, Step(b, ev));
  }

  lemma {:induction false} RunKeepsInv(b: Book, evs: seq<Event>)
    requires Inv(b) && Run(b, evs)
    ensures Inv(After(b, evs))
    decreases |evs|
  {
    if evs != [] {
      StepKeepsInv(b, evs[0]);
      RunKeepsInv(Step(b, evs[0]), evs[1..]);
    }
  }

  // ---------------------------------------------------------------- main results

  /** In every run, each assigned group has a client, and a task is assigned to a group exactly when the history
      says so. */
  lemma AssignmentsFollowHistory(evs: seq<Event>)
    requires Run(EMPTY, evs)
    ensures var b := After(EMPTY, evs);
      && (forall t :: t in b.tasks ==> b.tasks[t] in b.clients)
      && (forall t, g :: t in b.tasks && b.tasks[t] == g <==> Assigned(b.log, t, g))
  {
    assert Inv(EMPTY);
    RunKeepsInv(EMPTY, evs);
    var b := After(EMPTY, evs);
    forall t, g ensures t in b.tasks && b.tasks[t] == g <==> Assigned(b.log, t, g) {
      assert MapsMatchHistory(b);
    }
  }

  /** The group and client an event reports as gone. */
  function Gone(b: Book, ev: Event): Option<(GroupId, ClientId)>
    requires Possible(b, ev)
  {
    match ev
    case DiscardEnds(k) => Some((b.ops[k].group, b.ops[k].client))
    case LeaveEnds(k, ok) => if ok then Some((b.ops[k].group, b.ops[k].client)) else None
    case Disconnects(group, client) => if group == "" then None else Some((group, client))
    case _ => None
  }

  /** Exactly the group and the tasks assigned to it are gone. */
  ghost predicate DropsExactly(b: Book, b': Book, group: GroupId) {
    && b'.clients == b.clients - {group}
    && (forall t :: t in b'.tasks <==> t in b.tasks && b.tasks[t] != group)
    && (forall t :: t in b'.tasks ==> b'.tasks[t] == b.tasks[t])
  }

  lemma RemovalMeaning(b: Book, group: GroupId, client: ClientId)
    requires Inv(b)
    ensures var b' := RemoveState(b, group, Some(client));
      if group in b.clients && b.clients[group] == client then DropsExactly(b, b', group)
      else b'.clients == b.clients && b'.tasks == b.tasks
  {
    if group !in b.clients {
      assert TasksOf(b, group) == {};
    }
  }

  /** After any run, an event that reports a client as gone drops its group exactly when that client still serves
      the group, and then exactly that group and the tasks assigned to it. A late event of a replaced client, or
      one for a group without a client, leaves all assignments alone. */
  lemma GoneClientDropsItsGroupIff(evs: seq<Event>, ev: Event)
    requires Run(EMPTY, evs) && Possible(After(EMPTY, evs), ev) && Gone(After(EMPTY, evs), ev).Some?
    ensures var b := After(EMPTY, evs);
      var b', (group, client) := Step(b, ev), Gone(b, ev).value;
      if group in b.clients && b.clients[group] == client then DropsExactly(b, b', group)
      else b'.clients == b.clients && b'.tasks == b.tasks
  {
    assert Inv(EMPTY);
    RunKeepsInv(EMPTY, evs);
    var b := After(EMPTY, evs);
    var (group, client) := Gone(b, ev).value;
    var b0 := if ev.Disconnects? then b else Done(b, ev.op);
    GrowthKeepsInv(b, b0);
    RemovalMeaning(b0, group, client);
  }

  /** No other event drops a group or an assignment, and only a task command changes one. */
  lemma OnlyGoneClientsDrop(b: Book, ev: Event)
    requires Inv(b) && Possible(b, ev) && Gone(b, ev).None?
    ensures var b' := Step(b, ev);
      && b.clients.Keys <= b'.clients.Keys && b.tasks.Keys <= b'.tasks.Keys
      && (forall t :: t in b'.tasks && (t !in b.tasks || b'.tasks[t] != b.tasks[t]) ==>
            ev.TaskCommand? && ev.task == t)
      && (b'.clients != b.clients ==> ev.JoinEnds? && ev.ok)
  {
  }

  /** A task command is assigned to the group it names when that is joined; otherwise to the first joined group
      that its sender leads, if there is one. */
  lemma CommandGoesToItsGroup(b: Book, group: Option<GroupId>, sender: Aic, peers: Peers)
    requires Inv(b)
    ensures match Resolve(b, group, sender, peers)
      case Some(g) =>
        && g in b.clients && b.clients[g] in peers.joined
        && (Some(g) == group || (sender != "" && Led(b, peers, g, sender)))
        && (group.Some? && group.value != "" && group.value in b.clients && b.clients[group.value] in peers.joined ==>
              Some(g) == group)
      case None =>
        sender == "" || forall g :: g in b.clients ==> !Led(b, peers, g, sender)
  {
    FoundIsLed(b, peers, b.order, sender);
  }
}
