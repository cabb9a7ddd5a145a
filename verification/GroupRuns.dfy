/** Who serves a group and where a task belongs, told from the events of a run. */
module GroupRuns {
  import opened Basics
  import opened GroupBook

  // ---------------------------------------------------------------- events

  /** The event tells that this client of the group is gone. */
  predicate TellsGone(b: Book, ev: Event, group: GroupId, client: ClientId) {
    match ev
    case DiscardEnds(k) => k in b.ops && b.ops[k] == Discarding(group, client)
    case LeaveEnds(k, ok) => ok && k in b.ops && b.ops[k] == Leaving(group, client)
    case Disconnects(g, c) => g == group && c == client && group != ""
    case _ => false
  }

  function Server(b: Book, group: GroupId): Option<ClientId> {
    if group in b.clients then Some(b.clients[group]) else None
  }

  function Home(b: Book, task: TaskId): Option<GroupId> {
    if task in b.tasks then Some(b.tasks[task]) else None
  }

  /** The client that serves the group after the event: one that has just joined it, or the one before unless it is
      gone. */
  function ServerAfter(b: Book, ev: Event, group: GroupId, server: Option<ClientId>): Option<ClientId>
    requires Possible(b, ev)
  {
    if ev.JoinEnds? && ev.ok && b.ops[ev.op].group == group then Some(b.ops[ev.op].client)
    else if server.Some? && TellsGone(b, ev, group, server.value) then None
    else server
  }

  /** The group is the one the command names, if that is joined; else the first in order that the sender leads. */
  ghost predicate Addressed(b: Book, named: Option<GroupId>, sender: Aic, peers: Peers, group: GroupId) {
    if named.Some? && named.value != "" && named.value in b.clients && b.clients[named.value] in peers.joined
    then group == named.value
    else
      && sender != ""
      && exists i :: 0 <= i < |b.order| && b.order[i] == group && Led(b, peers, group, sender)
                     && forall j :: 0 <= j < i ==> !Led(b, peers, b.order[j], sender)
  }

  /** The group of the task after the event: the one a command for it is addressed to, or the one before unless the
      client that serves it is gone. */
  ghost predicate HomeAfter(b: Book, ev: Event, task: TaskId, home: Option<GroupId>, home': Option<GroupId>) {
    if ev.TaskCommand? && ev.task == task && exists g :: g != "" && Addressed(b, ev.named, ev.sender, ev.peers, g)
    then home'.Some? && home'.value != "" && Addressed(b, ev.named, ev.sender, ev.peers, home'.value)
    else if home.Some? && Server(b, home.value).Some? && TellsGone(b, ev, home.value, Server(b, home.value).value)
    then home' == None
    else home' == home
  }

  lemma FirstIsOnly(b: Book, peers: Peers, sender: Aic, i: nat, j: nat)
    requires i < |b.order| && j < |b.order| && Led(b, peers, b.order[i], sender) && Led(b, peers, b.order[j], sender)
    requires forall k :: 0 <= k < i ==> !Led(b, peers, b.order[k], sender)
    requires forall k :: 0 <= k < j ==> !Led(b, peers, b.order[k], sender)
    ensures i == j
  {
  }

  lemma AddressedIff(b: Book, named: Option<GroupId>, sender: Aic, peers: Peers, group: GroupId)
    ensures Resolve(b, named, sender, peers) == Some(group) <==> Addressed(b, named, sender, peers, group)
  {
    FoundIsLed(b, peers, b.order, sender);
    if Addressed(b, named, sender, peers, group) && Resolve(b, named, sender, peers) != named {
      var i :| 0 <= i < |b.order| && b.order[i] == group && Led(b, peers, group, sender)
               && forall j :: 0 <= j < i ==> !Led(b, peers, b.order[j], sender);
      assert FindForSender(b, peers, b.order, sender).Some?;
      var found := FindForSender(b, peers, b.order, sender).value;
      var k :| 0 <= k < |b.order| && b.order[k] == found && Led(b, peers, found, sender)
               && forall j :: 0 <= j < k ==> !Led(b, peers, b.order[j], sender);
      FirstIsOnly(b, peers, sender, i, k);
    }
  }

  // ---------------------------------------------------------------- one event

  lemma StepServer(b: Book, ev: Event, group: GroupId)
    requires Possible(b, ev)
    ensures Server(Step(b, ev), group) == ServerAfter(b, ev, group, Server(b, group))
  {
  }

  lemma StepHome(b: Book, ev: Event, task: TaskId)
    requires Inv(b) && Possible(b, ev)
    ensures HomeAfter(b, ev, task, Home(b, task), Home(Step(b, ev), task))
  {
    if ev.TaskCommand? {
      forall g ensures Resolve(b, ev.named, ev.sender, ev.peers) == Some(g) <==> Addressed(b, ev.named, ev.sender, ev.peers, g) {
        AddressedIff(b, ev.named, ev.sender, ev.peers, g);
      }
    } else {
      StepDrops(b, ev, task);
    }
  }

  lemma StepDrops(b: Book, ev: Event, task: TaskId)
    requires Inv(b) && Possible(b, ev) && !ev.TaskCommand?
    ensures HomeAfter(b, ev, task, Home(b, task), Home(Step(b, ev), task))
  {
  }

  /** The coroutine that the event starts, on a client that no coroutine had before or on the one that serves the
      group. */
  predicate Starts(b: Book, ev: Event, op: Op) {
    match ev
    case Enter(g, peers) =>
      if g !in b.clients then op == Joining(g, b.next)
      else b.clients[g] !in peers.joined && op == Discarding(g, b.clients[g])
    case DiscardEnds(k) => k in b.ops && op == Joining(b.ops[k].group, b.next)
    case LeaveBegins(g) => g in b.clients && op == Leaving(g, b.clients[g])
    case _ => false
  }

  /** The coroutine that the event ends. */
  function Ends(ev: Event): set<nat> {
    match ev
    case DiscardEnds(k) => {k}
    case JoinEnds(k, _) => {k}
    case LeaveEnds(k, _) => {k}
    case _ => {}
  }

  /** Which handler coroutines run after an event. */
  lemma StepOps(b: Book, ev: Event, op: Op)
    requires Possible(b, ev)
    ensures Starts(b, ev, op) ==> Step(b, ev).ops == (b.ops - Ends(ev))[b.next := op] && Step(b, ev).next == b.next + 1
    ensures (forall op :: !Starts(b, ev, op)) ==> Step(b, ev).ops == b.ops - Ends(ev) && Step(b, ev).next == b.next
  {
    match ev
    case Enter(g, peers) =>
      assert g !in b.clients ==> Starts(b, ev, Joining(g, b.next));
      assert g in b.clients && b.clients[g] !in peers.joined ==> Starts(b, ev, Discarding(g, b.clients[g]));
    case DiscardEnds(k) => assert Starts(b, ev, Joining(b.ops[k].group, b.next));
    case LeaveBegins(g) => assert g in b.clients ==> Starts(b, ev, Leaving(g, b.clients[g]));
    case _ => assert b.ops - {} == b.ops;
  }

  /** The client dictionary holds the first group before the second. */
  ghost predicate Before(order: seq<GroupId>, first: GroupId, second: GroupId) {
    exists i, j :: 0 <= i < j < |order| && order[i] == first && order[j] == second
  }

  lemma {:induction false} WithoutKeepsOrder(order: seq<GroupId>, group: GroupId, first: GroupId, second: GroupId)
    requires Before(Without(order, group), first, second)
    ensures Before(order, first, second)
  {
    var r := Without(order, group);
    var i, j :| 0 <= i < j < |r| && r[i] == first && r[j] == second;
    var rest := order[1..];
    if order[0] == group || i > 0 {
      if order[0] != group {
        assert Without(rest, group)[i - 1] == first && Without(rest, group)[j - 1] == second;
      }
      WithoutKeepsOrder(rest, group, first, second);
      var k, l :| 0 <= k < l < |rest| && rest[k] == first && rest[l] == second;
      assert order[k + 1] == first && order[l + 1] == second;
    } else {
      assert second == Without(rest, group)[j - 1] && second in rest;
      var l :| 0 <= l < |rest| && rest[l] == second;
      assert order[0] == first && order[l + 1] == second;
    }
  }

  /** Groups stay in the order in which they came: an event adds a group behind all others or takes one away. */
  lemma StepKeepsOrder(b: Book, ev: Event, first: GroupId, second: GroupId)
    requires Inv(b) && Possible(b, ev) && Before(Step(b, ev).order, first, second)
    ensures first in b.order && (second in b.order ==> Before(b.order, first, second))
  {
    var b' := Step(b, ev);
    if b'.order != b.order {
      if ev.JoinEnds? {
        var i, j :| 0 <= i < j < |b'.order| && b'.order[i] == first && b'.order[j] == second;
        assert b'.order == b.order + [b.ops[ev.op].group];
        assert b.order[i] == first;
      } else {
        var group := if ev.Disconnects? then ev.group else b.ops[ev.op].group;
        assert b'.order == Without(b.order, group);
        WithoutKeepsOrder(b.order, group, first, second);
      }
    }
  }

  // ---------------------------------------------------------------- runs

  function ServerIn(b: Book, evs: seq<Event>, group: GroupId, server: Option<ClientId>): Option<ClientId>
    requires Run(b, evs)
    decreases |evs|
  {
    if evs == [] then server else ServerIn(Step(b, evs[0]), evs[1..], group, ServerAfter(b, evs[0], group, server))
  }

  ghost predicate HomeIn(b: Book, evs: seq<Event>, task: TaskId, home: Option<GroupId>, home': Option<GroupId>)
    requires Run(b, evs)
    decreases |evs|
  {
    if evs == [] then home' == home
    else exists next :: HomeAfter(b, evs[0], task, home, next) && HomeIn(Step(b, evs[0]), evs[1..], task, next, home')
  }

  lemma HomeInOne(b: Book, evs: seq<Event>, task: TaskId, home: Option<GroupId>, next: Option<GroupId>, home': Option<GroupId>)
    requires Run(b, evs) && evs != []
    requires HomeAfter(b, evs[0], task, home, next) && HomeIn(Step(b, evs[0]), evs[1..], task, next, home')
    ensures HomeIn(b, evs, task, home, home')
  {
  }

  /** In every run a group is served by the client that joined it last and is not gone since, and a task belongs to
      the group that its last addressed command went to and whose client is not gone since. */
  lemma {:induction false} BookFollowsEvents(b: Book, evs: seq<Event>, group: GroupId, task: TaskId)
    requires Inv(b) && Run(b, evs)
    ensures Server(After(b, evs), group) == ServerIn(b, evs, group, Server(b, group))
    ensures HomeIn(b, evs, task, Home(b, task), Home(After(b, evs), task))
    decreases |evs|
  {
    if evs != [] {
      StepServer(b, evs[0], group);
      StepHome(b, evs[0], task);
      StepKeepsInv(b, evs[0]);
      BookFollowsEvents(Step(b, evs[0]), evs[1..], group, task);
      HomeInOne(b, evs, task, Home(b, task), Home(Step(b, evs[0]), task), Home(After(b, evs), task));
    }
  }

  /** What the events make of a task's group is unique. */
  lemma {:induction false} HomeIsUnique(b: Book, evs: seq<Event>, task: TaskId, home: Option<GroupId>,
                                        h1: Option<GroupId>, h2: Option<GroupId>)
    requires Run(b, evs) && HomeIn(b, evs, task, home, h1) && HomeIn(b, evs, task, home, h2)
    ensures h1 == h2
    decreases |evs|
  {
    if evs != [] {
      var n1 :| HomeAfter(b, evs[0], task, home, n1) && HomeIn(Step(b, evs[0]), evs[1..], task, n1, h1);
      var n2 :| HomeAfter(b, evs[0], task, home, n2) && HomeIn(Step(b, evs[0]), evs[1..], task, n2, h2);
      if evs[0].TaskCommand? && n1.Some? && n2.Some? {
        AddressedIff(b, evs[0].named, evs[0].sender, evs[0].peers, n1.value);
        AddressedIff(b, evs[0].named, evs[0].sender, evs[0].peers, n2.value);
      }
      HomeIsUnique(Step(b, evs[0]), evs[1..], task, n1, h1, h2);
    }
  }
}
