/** The stream handler on top of the task engine: each call of its listener publishes the task to a channel
    and, when the task has ended, forgets and closes the channel, suspending in between. */
module StreamBridge {
  import opened Basics
  import opened TaskEngine
  import opened TaskSafety
  import opened TaskRuns
  import opened TaskBounds
  import opened TaskObservers

  /** Where a running listener call is suspended. `popped` is the channel it took out of the hub. */
  datatype Phase = Publishing | Closing(popped: Option<nat>)

  /** A running call; `terminal` was decided when it began. */
  datatype Call = Call(task: TaskId, channel: nat, terminal: bool, phase: Phase)

  datatype Publication = Publication(task: TaskId, channel: nat, terminal: bool)

  /** The hub maps tasks to open channels. `owners` and `closed` record every channel ever created and those
      closed, `streamed` which tasks were started over the stream, and `lost` the channels on which publishing
      the end of a task failed. */
  datatype Bridge = Bridge(
    engine: Engine,
    channels: map<TaskId, nat>,
    calls: map<nat, Call>,
    next: nat,
    owners: map<nat, TaskId>,
    closed: set<nat>,
    published: seq<Publication>,
    streamed: set<TaskId>,
    lost: set<nat>)

  /** The stream handler's place among the registered listeners. */
  const STREAM_LISTENER: nat := 0

  datatype BridgeEvent =
    | RunnerEvent(ev: Event)
    | PublishDone(call: nat, ok: bool)
    | CloseDone(call: nat)

  const INITIAL_BRIDGE := Bridge(INITIAL, map[], map[], 0, map[], {}, [], {}, {})

  predicate IsStreamCall(b: Bridge, ev: Event) {
    ev.ListenerRuns? && ev.notice in b.engine.notices && b.engine.notices[ev.notice].listener == STREAM_LISTENER
  }

  predicate Possible(b: Bridge, be: BridgeEvent) {
    match be
    case RunnerEvent(ev) => Enabled(b.engine, ev) && Fresh(b.engine, ev)
    case PublishDone(k, _) => k in b.calls && b.calls[k].phase == Publishing
    case CloseDone(k) => k in b.calls && b.calls[k].phase.Closing?
  }

  /** `hub.get_or_create_channel`. */
  function OpenChannel(b: Bridge, id: TaskId): Bridge {
    if id in b.channels then b
    else b.(channels := b.channels[id := b.next], owners := b.owners[b.next := id], next := b.next + 1)
  }

  /** The listener call begins: it reads the task's state and gets the channel before it first suspends. */
  function BeginCall(b: Bridge, id: TaskId): Bridge
    requires id in b.engine.tasks
  {
    var b1 := OpenChannel(b, id);
    b1.(calls := b1.calls[b1.next := Call(id, b1.channels[id], Terminal(b.engine.tasks[id].state), Publishing)],
        next := b1.next + 1)
  }

  function Published(b: Bridge, call: Call, ok: bool): Bridge {
    if ok then b.(published := b.published + [Publication(call.task, call.channel, call.terminal)])
    else if call.terminal then b.(lost := b.lost + {call.channel})
    else b
  }

  function BridgeStep(cfg: Config, b: Bridge, be: BridgeEvent): Bridge
    requires Possible(b, be)
  {
    match be
    case RunnerEvent(ev) =>
      var b1 := b.(engine := Step(cfg, b.engine, ev));
      if IsStreamCall(b, ev) then BeginCall(b1, b.engine.notices[ev.notice].task)
      else if ev.StreamStart? then OpenChannel(b1, ev.id).(streamed := b.streamed + {ev.id})
      else b1
    case PublishDone(k, ok) =>
      var call := b.calls[k];
      var b1 := Published(b, call, ok);
      if call.terminal then Forget(b1, k, ok) else b1.(calls := b1.calls - {k})
    case CloseDone(k) =>
      var popped := b.calls[k].phase.popped;
      b.(closed := if popped.Some? then b.closed + {popped.value} else b.closed, calls := b.calls - {k})
  }

  /** The call of an ended task goes on: publishing the end closed its channel, and the hub forgets the task's
      current channel, which the call is about to close. */
  function Forget(b: Bridge, k: nat, ok: bool): Bridge
    requires k in b.calls
  {
    var call := b.calls[k];
    var popped := if call.task in b.channels then Some(b.channels[call.task]) else None;
    b.(channels := b.channels - {call.task},
       closed := if ok then b.closed + {call.channel} else b.closed,
       calls := b.calls[k := call.(phase := Closing(popped))])
  }

  predicate BridgeRun(cfg: Config, b: Bridge, bes: seq<BridgeEvent>)
    decreases |bes|
  {
    bes == [] || (Possible(b, bes[0]) && BridgeRun(cfg, BridgeStep(cfg, b, bes[0]), bes[1..]))
  }

  function BridgeAfter(cfg: Config, b: Bridge, bes: seq<BridgeEvent>): Bridge
    requires BridgeRun(cfg, b, bes)
    decreases |bes|
  {
    if bes == [] then b else BridgeAfter(cfg, BridgeStep(cfg, b, bes[0]), bes[1..])
  }

  // ---------------------------------------------------------------- the invariant

  ghost predicate CallPending(b: Bridge, id: TaskId) {
    exists n :: n in b.engine.notices && b.engine.notices[n].task == id && b.engine.notices[n].listener == STREAM_LISTENER
  }

  /** A call is scheduled, or one that found the task ended is still publishing. */
  ghost predicate WillEnd(b: Bridge, id: TaskId) {
    || CallPending(b, id)
    || exists k :: k in b.calls && b.calls[k].task == id && b.calls[k].terminal && b.calls[k].phase == Publishing
  }

  predicate CallOk(b: Bridge, k: nat)
    requires k in b.calls
  {
    var call := b.calls[k];
    && k < b.next
    && call.task in b.engine.tasks
    && b.engine.tasks[call.task].history != []
    && (call.terminal ==> Terminal(b.engine.tasks[call.task].state))
    && (call.phase.Closing? ==> call.terminal)
  }

  ghost predicate ChannelOk(b: Bridge, id: TaskId)
    requires id in b.engine.tasks
  {
    var c := b.engine.tasks[id];
    if c.history == [] then id in b.channels <==> id in b.streamed
    else Terminal(c.state) && id in b.channels ==> WillEnd(b, id)
  }

  ghost predicate BeingClosed(b: Bridge, channel: nat) {
    exists k :: k in b.calls && b.calls[k].phase == Closing(Some(channel))
  }

  /** A channel is the hub's channel of its task, or closed, or about to be. */
  ghost predicate Accounted(b: Bridge, channel: nat)
    requires channel in b.owners
  {
    var id := b.owners[channel];
    (id in b.channels && b.channels[id] == channel) || channel in b.closed || BeingClosed(b, channel)
  }

  ghost predicate ChannelsAccounted(b: Bridge) {
    && (forall id :: id in b.channels ==> b.channels[id] in b.owners && b.owners[b.channels[id]] == id)
    && (forall channel {:trigger Accounted(b, channel)} :: channel in b.owners ==> channel < b.next && Accounted(b, channel))
  }

  ghost predicate BridgeInv(cfg: Config, b: Bridge) {
    && Inv(cfg, b.engine)
    && cfg.listeners > STREAM_LISTENER
    && (forall k {:trigger CallOk(b, k)} :: k in b.calls ==> CallOk(b, k))
    && (forall id :: id in b.channels || id in b.streamed ==> id in b.engine.tasks)
    && (forall id {:trigger ChannelOk(b, id)} :: id in b.engine.tasks ==> ChannelOk(b, id))
  }

  // ---------------------------------------------------------------- preservation

  /** Other engine steps keep every scheduled stream call. */
  lemma OtherStepsKeepStreamCalls(cfg: Config, b: Bridge, ev: Event, id: TaskId)
    requires BridgeInv(cfg, b) && Enabled(b.engine, ev) && !IsStreamCall(b, ev)
    ensures CallPending(b, id) ==> CallPending(b.(engine := Step(cfg, b.engine, ev)), id)
  {
    var e' := Step(cfg, b.engine, ev);
    if !ev.ListenerRuns? {
      StepOnlyAddsNotices(cfg, b.engine, ev);
    }
    if n :| n in b.engine.notices && b.engine.notices[n].task == id && b.engine.notices[n].listener == STREAM_LISTENER {
      assert n in e'.notices && e'.notices[n] == b.engine.notices[n];
    }
  }

  /** A step changes an admitted task's history by at most one entry, which schedules a call of the stream handler, and
      not at all if the task has ended. */
  lemma UpdateCallsStream(cfg: Config, b: Bridge, ev: Event, id: TaskId)
    requires BridgeInv(cfg, b) && Enabled(b.engine, ev) && Fresh(b.engine, ev) && id in b.engine.tasks
    ensures id in Step(cfg, b.engine, ev).tasks
    ensures var c, c' := b.engine.tasks[id], Step(cfg, b.engine, ev).tasks[id];
      && (c'.history == c.history ==> c'.state == c.state)
      && (c'.history != c.history ==>
            c.history != [] && c'.history != [] && !Terminal(c.state)
            && CallPending(b.(engine := Step(cfg, b.engine, ev)), id))
  {
    StepRecords(cfg, b.engine, ev, id);
    var e', c := Step(cfg, b.engine, ev), b.engine.tasks[id];
    if e'.tasks[id].history != c.history {
      assert Pending(e', id, STREAM_LISTENER, |c.history|);
    }
  }

  lemma EngineStepKeepsChannel(cfg: Config, b: Bridge, ev: Event, id: TaskId)
    requires BridgeInv(cfg, b) && Enabled(b.engine, ev) && Fresh(b.engine, ev) && !IsStreamCall(b, ev)
    requires id in b.engine.tasks
    ensures id in Step(cfg, b.engine, ev).tasks
    ensures ChannelOk(b.(engine := Step(cfg, b.engine, ev)), id)
  {
    var b' := b.(engine := Step(cfg, b.engine, ev));
    UpdateCallsStream(cfg, b, ev, id);
    OtherStepsKeepStreamCalls(cfg, b, ev, id);
    assert ChannelOk(b, id);
  }

  lemma EngineStepKeepsCall(cfg: Config, b: Bridge, ev: Event, k: nat)
    requires BridgeInv(cfg, b) && Possible(b, RunnerEvent(ev)) && !IsStreamCall(b, ev) && k in b.calls
    ensures k in BridgeStep(cfg, b, RunnerEvent(ev)).calls && CallOk(BridgeStep(cfg, b, RunnerEvent(ev)), k)
  {
    assert CallOk(b, k);
    UpdateCallsStream(cfg, b, ev, b.calls[k].task);
  }

  lemma EngineStepKeepsTask(cfg: Config, b: Bridge, ev: Event, id: TaskId)
    requires BridgeInv(cfg, b) && Possible(b, RunnerEvent(ev)) && !IsStreamCall(b, ev)
    ensures id in Step(cfg, b.engine, ev).tasks ==> ChannelOk(BridgeStep(cfg, b, RunnerEvent(ev)), id)
  {
    var b' := BridgeStep(cfg, b, RunnerEvent(ev));
    if id in b.engine.tasks {
      EngineStepKeepsChannel(cfg, b, ev, id);
      SameChannelFacts(b.(engine := b'.engine), b', id);
    } else {
      NewTasksAreAdmitted(cfg, b.engine, ev, id);
    }
  }

  lemma EngineStepKeepsBridge(cfg: Config, b: Bridge, ev: Event)
    requires BridgeInv(cfg, b) && Possible(b, RunnerEvent(ev)) && !IsStreamCall(b, ev)
    ensures BridgeInv(cfg, BridgeStep(cfg, b, RunnerEvent(ev)))
  {
    var b' := BridgeStep(cfg, b, RunnerEvent(ev));
    StepKeepsInv(cfg, b.engine, ev);
    StepTouchesSubject(cfg, b.engine, ev);
    forall k | k in b'.calls ensures CallOk(b', k) { EngineStepKeepsCall(cfg, b, ev, k); }
    forall id | id in b'.engine.tasks ensures ChannelOk(b', id) { EngineStepKeepsTask(cfg, b, ev, id); }
  }

  /** Opening another task's channel changes nothing for `id`. */
  lemma SameChannelFacts(b: Bridge, b': Bridge, id: TaskId)
    requires b'.engine == b.engine && b'.calls == b.calls
    requires (id in b.channels <==> id in b'.channels) && (id in b.streamed <==> id in b'.streamed)
    requires id in b.engine.tasks && ChannelOk(b, id)
    ensures ChannelOk(b', id)
  {
    assert CallPending(b, id) <==> CallPending(b', id);
    assert WillEnd(b, id) <==> WillEnd(b', id);
  }

  lemma StreamCallKeepsBridge(cfg: Config, b: Bridge, n: nat)
    requires BridgeInv(cfg, b) && Possible(b, RunnerEvent(ListenerRuns(n))) && IsStreamCall(b, ListenerRuns(n))
    ensures BridgeInv(cfg, BridgeStep(cfg, b, RunnerEvent(ListenerRuns(n))))
  {
    var b' := BridgeStep(cfg, b, RunnerEvent(ListenerRuns(n)));
    var own := b.engine.notices[n].task;
    StepKeepsInv(cfg, b.engine, ListenerRuns(n));
    forall k | k in b.calls ensures k in b'.calls && b'.calls[k] == b.calls[k] { assert CallOk(b, k); }
    forall k | k in b'.calls ensures CallOk(b', k) {
      if k in b.calls { assert CallOk(b, k); }
    }
    forall id | id in b'.engine.tasks ensures ChannelOk(b', id) {
      assert ChannelOk(b, id);
      if id == own {
        assert b'.calls[b'.next - 1].task == id;
      } else {
        CallsForOthersStay(b, b', n, id);
      }
    }
  }

  lemma CallsForOthersStay(b: Bridge, b': Bridge, n: nat, id: TaskId)
    requires n in b.engine.notices && b.engine.notices[n].task != id
    requires b'.engine.notices == b.engine.notices - {n}
    requires forall k :: k in b.calls ==> k in b'.calls && b'.calls[k] == b.calls[k]
    ensures CallPending(b, id) ==> CallPending(b', id)
    ensures WillEnd(b, id) ==> WillEnd(b', id)
  {
    if m :| m in b.engine.notices && b.engine.notices[m].task == id && b.engine.notices[m].listener == STREAM_LISTENER {
      assert m in b'.engine.notices;
    }
  }

  lemma PublishKeepsBridge(cfg: Config, b: Bridge, k: nat, ok: bool)
    requires BridgeInv(cfg, b) && Possible(b, PublishDone(k, ok))
    ensures BridgeInv(cfg, BridgeStep(cfg, b, PublishDone(k, ok)))
  {
    var b' := BridgeStep(cfg, b, PublishDone(k, ok));
    assert CallOk(b, k);
    forall j | j in b'.calls ensures CallOk(b', j) { assert CallOk(b, j); }
    forall id | id in b'.engine.tasks ensures ChannelOk(b', id) {
      assert ChannelOk(b, id);
      if id != b.calls[k].task || !b.calls[k].terminal {
        OthersWillEnd(b, b', k, id);
      }
    }
  }

  /** The step of call `k` does not concern the end of a task that is not its own or not ended for it. */
  lemma OthersWillEnd(b: Bridge, b': Bridge, k: nat, id: TaskId)
    requires b'.engine == b.engine
    requires k in b.calls && (b.calls[k].task != id || !b.calls[k].terminal || b.calls[k].phase != Publishing)
    requires forall j :: j in b.calls && j != k ==> j in b'.calls && b'.calls[j] == b.calls[j]
    ensures WillEnd(b, id) ==> WillEnd(b', id)
  {
    assert CallPending(b, id) ==> CallPending(b', id);
    if j :| j in b.calls && b.calls[j].task == id && b.calls[j].terminal && b.calls[j].phase == Publishing {
      assert j in b'.calls && b'.calls[j] == b.calls[j];
    }
  }

  lemma CloseKeepsBridge(cfg: Config, b: Bridge, k: nat)
    requires BridgeInv(cfg, b) && Possible(b, CloseDone(k))
    ensures BridgeInv(cfg, BridgeStep(cfg, b, CloseDone(k)))
  {
    var b' := BridgeStep(cfg, b, CloseDone(k));
    forall j | j in b'.calls ensures CallOk(b', j) { assert CallOk(b, j); }
    forall id | id in b'.engine.tasks ensures ChannelOk(b', id) {
      assert ChannelOk(b, id);
      OthersWillEnd(b, b', k, id);
    }
  }

  /** Closing more channels and starting calls keeps channels accounted for. */
  lemma GrowthAccounts(b: Bridge, b': Bridge)
    requires ChannelsAccounted(b)
    requires b'.owners == b.owners && b'.channels == b.channels && b.closed <= b'.closed && b.next <= b'.next
    requires forall k :: k in b.calls ==>
      (k in b'.calls && b'.calls[k] == b.calls[k])
      || (b.calls[k].phase.Closing? && b.calls[k].phase.popped.Some? ==> b.calls[k].phase.popped.value in b'.closed)
    ensures ChannelsAccounted(b')
  {
    forall channel | channel in b'.owners ensures channel < b'.next && Accounted(b', channel) {
      assert Accounted(b, channel);
      if k :| k in b.calls && b.calls[k].phase == Closing(Some(channel)) {
        assert channel in b'.closed || (k in b'.calls && b'.calls[k] == b.calls[k]);
      }
    }
  }

  lemma OpeningAccounts(b: Bridge, id: TaskId)
    requires ChannelsAccounted(b)
    ensures ChannelsAccounted(OpenChannel(b, id))
  {
    var b' := OpenChannel(b, id);
    forall other | other in b.channels ensures b.channels[other] < b.next {
      assert Accounted(b, b.channels[other]);
    }
    forall channel | channel in b'.owners ensures channel < b'.next && Accounted(b', channel) {
      if channel in b.owners {
        assert Accounted(b, channel);
        assert BeingClosed(b, channel) ==> BeingClosed(b', channel);
      }
    }
  }

  lemma ForgettingAccounts(b: Bridge, k: nat, ok: bool)
    requires ChannelsAccounted(b) && k in b.calls && b.calls[k].phase == Publishing
    ensures ChannelsAccounted(Forget(b, k, ok))
  {
    var b' := Forget(b, k, ok);
    forall channel | channel in b'.owners ensures channel < b'.next && Accounted(b', channel) {
      assert Accounted(b, channel);
      if j :| j in b.calls && b.calls[j].phase == Closing(Some(channel)) {
        assert b'.calls[j] == b.calls[j];
      } else if b.owners[channel] == b.calls[k].task && channel !in b.closed {
        assert b'.calls[k].phase == Closing(Some(channel));
      }
    }
  }

  lemma StepAccountsForChannels(cfg: Config, b: Bridge, be: BridgeEvent)
    requires BridgeInv(cfg, b) && ChannelsAccounted(b) && Possible(b, be)
    ensures ChannelsAccounted(BridgeStep(cfg, b, be))
  {
    var b' := BridgeStep(cfg, b, be);
    match be
    case RunnerEvent(ev) =>
      var b1 := b.(engine := b'.engine);
      GrowthAccounts(b, b1);
      if IsStreamCall(b, ev) {
        var b2 := OpenChannel(b1, b.engine.notices[ev.notice].task);
        OpeningAccounts(b1, b.engine.notices[ev.notice].task);
        forall k | k in b2.calls ensures k < b2.next { assert CallOk(b, k); }
        GrowthAccounts(b2, b');
      } else if ev.StreamStart? {
        OpeningAccounts(b1, ev.id);
        GrowthAccounts(OpenChannel(b1, ev.id), b');
      }
    case PublishDone(k, ok) => PublishingAccounts(cfg, b, k, ok);
    case CloseDone(k) => GrowthAccounts(b, b');
  }

  lemma PublishingAccounts(cfg: Config, b: Bridge, k: nat, ok: bool)
    requires ChannelsAccounted(b) && Possible(b, PublishDone(k, ok))
    ensures ChannelsAccounted(BridgeStep(cfg, b, PublishDone(k, ok)))
  {
    var b1 := Published(b, b.calls[k], ok);
    GrowthAccounts(b, b1);
    if b.calls[k].terminal {
      ForgettingAccounts(b1, k, ok);
    } else {
      GrowthAccounts(b1, b1.(calls := b1.calls - {k}));
    }
  }

  lemma BridgeStepKeepsInv(cfg: Config, b: Bridge, be: BridgeEvent)
    requires BridgeInv(cfg, b) && Possible(b, be)
    ensures BridgeInv(cfg, BridgeStep(cfg, b, be))
  {
    match be
    case RunnerEvent(ev) =>
      if IsStreamCall(b, ev) { StreamCallKeepsBridge(cfg, b, ev.notice); } else { EngineStepKeepsBridge(cfg, b, ev); }
    case PublishDone(k, ok) => PublishKeepsBridge(cfg, b, k, ok);
    case CloseDone(k) => CloseKeepsBridge(cfg, b, k);
  }

  lemma {:induction false} BridgeRunKeepsInv(cfg: Config, b: Bridge, bes: seq<BridgeEvent>)
    requires BridgeInv(cfg, b) && ChannelsAccounted(b) && BridgeRun(cfg, b, bes)
    ensures BridgeInv(cfg, BridgeAfter(cfg, b, bes)) && ChannelsAccounted(BridgeAfter(cfg, b, bes))
    decreases |bes|
  {
    if bes != [] {
      BridgeStepKeepsInv(cfg, b, bes[0]);
      StepAccountsForChannels(cfg, b, bes[0]);
      BridgeRunKeepsInv(cfg, BridgeStep(cfg, b, bes[0]), bes[1..]);
    }
  }
}
