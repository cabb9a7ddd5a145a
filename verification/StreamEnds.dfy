/** The end of a streamed task reaches every channel that was ever opened for it. */
module StreamEnds {
  import opened Basics
  import opened TaskEngine
  import opened TaskRuns
  import opened TaskBounds
  import opened StreamBridge

  /** The end was published on the channel. */
  ghost predicate EndedOn(b: Bridge, channel: nat) {
    exists p :: p in b.published && p.channel == channel && p.terminal
  }

  /** The call is publishing an end. */
  predicate Ending(call: Call) {
    call.terminal && call.phase == Publishing
  }

  ghost predicate EndingOn(b: Bridge, channel: nat) {
    exists k :: k in b.calls && Ending(b.calls[k]) && b.calls[k].channel == channel
  }

  /** No end of the task is being published yet. */
  ghost predicate NoEnding(b: Bridge, id: TaskId) {
    forall k :: k in b.calls && Ending(b.calls[k]) ==> b.calls[k].task != id
  }

  /** The end was published on the channel, or lost on it, or is being published there, or will be by the first
      call to find the task ended. */
  ghost predicate EndComing(b: Bridge, id: TaskId, channel: nat) {
    || EndedOn(b, channel) || channel in b.lost || EndingOn(b, channel)
    || (id in b.channels && b.channels[id] == channel && CallPending(b, id) && NoEnding(b, id))
  }

  /** While its task has not ended a channel is the hub's only one for it; then the end comes to it. */
  ghost predicate EndOk(b: Bridge, channel: nat)
    requires channel in b.owners
  {
    var id := b.owners[channel];
    && id in b.engine.tasks
    && (b.engine.tasks[id].history != [] ==>
          if Terminal(b.engine.tasks[id].state) then EndComing(b, id, channel)
          else id in b.channels && b.channels[id] == channel)
  }

  predicate OwnChannel(b: Bridge, k: nat)
    requires k in b.calls
  {
    b.calls[k].channel in b.owners && b.owners[b.calls[k].channel] == b.calls[k].task
  }

  ghost predicate HasChannel(b: Bridge, id: TaskId) {
    exists channel :: channel in b.owners && b.owners[channel] == id
  }

  /** An ended task has had a channel or will have one. */
  ghost predicate Reached(b: Bridge, id: TaskId)
    requires id in b.engine.tasks
  {
    b.engine.tasks[id].history != [] && Terminal(b.engine.tasks[id].state) ==> CallPending(b, id) || HasChannel(b, id)
  }

  ghost predicate EndsOk(b: Bridge) {
    && (forall channel {:trigger EndOk(b, channel)} :: channel in b.owners ==> EndOk(b, channel))
    && (forall k {:trigger OwnChannel(b, k)} :: k in b.calls ==> OwnChannel(b, k))
    && (forall id {:trigger Reached(b, id)} :: id in b.engine.tasks ==> Reached(b, id))
  }

  // ---------------------------------------------------------------- engine steps

  lemma EngineStepKeepsEnd(cfg: Config, b: Bridge, ev: Event, channel: nat)
    requires BridgeInv(cfg, b) && Possible(b, RunnerEvent(ev)) && !IsStreamCall(b, ev)
    requires channel in b.owners && EndOk(b, channel)
    ensures EndOk(b.(engine := Step(cfg, b.engine, ev)), channel)
  {
    var b', id := b.(engine := Step(cfg, b.engine, ev)), b.owners[channel];
    UpdateCallsStream(cfg, b, ev, id);
    OtherStepsKeepStreamCalls(cfg, b, ev, id);
    var c, c' := b.engine.tasks[id], b'.engine.tasks[id];
    if c'.history != c.history {
      forall k | k in b.calls && Ending(b.calls[k]) ensures b.calls[k].task != id { assert CallOk(b, k); }
    } else if c.history != [] && Terminal(c.state) {
      SameEnds(b, b', id, channel);
    }
  }

  lemma SameEnds(b: Bridge, b': Bridge, id: TaskId, channel: nat)
    requires b'.published == b.published && b'.lost == b.lost && b'.calls == b.calls && b'.channels == b.channels
    requires EndComing(b, id, channel) && (CallPending(b, id) ==> CallPending(b', id))
    ensures EndComing(b', id, channel)
  {
    assert EndedOn(b, channel) ==> EndedOn(b', channel);
    assert EndingOn(b, channel) ==> EndingOn(b', channel);
  }

  lemma EngineStepKeepsReached(cfg: Config, b: Bridge, ev: Event, id: TaskId)
    requires BridgeInv(cfg, b) && Possible(b, RunnerEvent(ev)) && !IsStreamCall(b, ev)
    requires id in b.engine.tasks ==> Reached(b, id)
    ensures id in Step(cfg, b.engine, ev).tasks ==> Reached(b.(engine := Step(cfg, b.engine, ev)), id)
  {
    var b' := b.(engine := Step(cfg, b.engine, ev));
    if id in b.engine.tasks {
      StepRecords(cfg, b.engine, ev, id);
      OtherStepsKeepStreamCalls(cfg, b, ev, id);
      var c, c' := b.engine.tasks[id], b'.engine.tasks[id];
      if c'.history != c.history {
        assert Pending(b'.engine, id, STREAM_LISTENER, |c.history|);
        assert CallPending(b', id);
      } else {
        assert HasChannel(b, id) ==> HasChannel(b', id);
      }
    } else {
      NewTasksAreAdmitted(cfg, b.engine, ev, id);
    }
  }

  lemma EngineStepKeepsEnds(cfg: Config, b: Bridge, ev: Event)
    requires BridgeInv(cfg, b) && EndsOk(b) && Possible(b, RunnerEvent(ev)) && !IsStreamCall(b, ev)
    ensures EndsOk(b.(engine := Step(cfg, b.engine, ev)))
  {
    var b' := b.(engine := Step(cfg, b.engine, ev));
    forall channel | channel in b'.owners ensures EndOk(b', channel) { EngineStepKeepsEnd(cfg, b, ev, channel); }
    forall k | k in b'.calls ensures OwnChannel(b', k) { assert OwnChannel(b, k); }
    forall id | id in b'.engine.tasks ensures Reached(b', id) {
      assert id in b.engine.tasks ==> Reached(b, id);
      EngineStepKeepsReached(cfg, b, ev, id);
    }
  }

  /** The channel of a Start over the stream is the first of its task. */
  lemma StreamStartKeepsEnds(b: Bridge, id: TaskId, streamed: set<TaskId>)
    requires EndsOk(b) && id in b.engine.tasks && (forall channel :: channel in b.owners ==> channel < b.next)
    requires id !in b.channels && forall channel :: channel in b.owners ==> b.owners[channel] != id
    requires b.engine.tasks[id].history == [] || !Terminal(b.engine.tasks[id].state)
    ensures EndsOk(OpenChannel(b, id).(streamed := streamed))
  {
    var b' := OpenChannel(b, id).(streamed := streamed);
    forall channel | channel in b'.owners ensures EndOk(b', channel) {
      if channel in b.owners {
        assert EndOk(b, channel);
        OthersKeepEnd(b, b', channel);
      }
    }
    forall k | k in b'.calls ensures OwnChannel(b', k) { assert OwnChannel(b, k); }
    forall i | i in b'.engine.tasks ensures Reached(b', i) { ReachedStays(b, b', i); }
  }

  /** Calls and channels of other tasks do not matter to a channel. */
  lemma OthersKeepEnd(b: Bridge, b': Bridge, channel: nat)
    requires channel in b.owners && channel in b'.owners && b'.owners[channel] == b.owners[channel]
    requires b'.engine.tasks == b.engine.tasks && b.published <= b'.published && b.lost <= b'.lost
    requires var id := b.owners[channel];
      && (id in b.channels ==> id in b'.channels && b'.channels[id] == b.channels[id])
      && (CallPending(b, id) ==> CallPending(b', id))
      && (NoEnding(b, id) ==> NoEnding(b', id))
      && (EndingOn(b, channel) ==> EndingOn(b', channel) || EndedOn(b', channel) || channel in b'.lost)
    requires EndOk(b, channel)
    ensures EndOk(b', channel)
  {
    EndedStays(b, b', channel);
  }

  lemma EndedStays(b: Bridge, b': Bridge, channel: nat)
    requires b.published <= b'.published
    ensures EndedOn(b, channel) ==> EndedOn(b', channel)
  {
    if p :| p in b.published && p.channel == channel && p.terminal {
      assert p in b'.published;
    }
  }

  lemma ReachedStays(b: Bridge, b': Bridge, id: TaskId)
    requires EndsOk(b) && id in b.engine.tasks && b'.engine.tasks == b.engine.tasks
    requires forall channel :: channel in b.owners ==> channel in b'.owners && b'.owners[channel] == b.owners[channel]
    requires CallPending(b, id) ==> CallPending(b', id) || HasChannel(b', id)
    ensures Reached(b', id)
  {
    assert Reached(b, id);
    if channel :| channel in b.owners && b.owners[channel] == id {
      assert channel in b'.owners && b'.owners[channel] == id;
    }
  }

  // ---------------------------------------------------------------- listener calls

  /** What a stream call of task `own` leaves alone when it begins. */
  lemma BeginKeepsOthers(b: Bridge, b': Bridge, n: nat, channel: nat)
    requires n in b.engine.notices && b.engine.notices[n].task in b.engine.tasks
    requires b.engine.tasks[b.engine.notices[n].task].history != []
    requires b' == BeginCall(b.(engine := Deliver(b.engine, n)), b.engine.notices[n].task)
    requires forall k :: k in b.calls ==> k < b.next
    requires channel in b.owners && channel < b.next && b.owners[channel] != b.engine.notices[n].task && EndOk(b, channel)
    ensures EndOk(b', channel)
  {
    var id := b.owners[channel];
    forall k | k in b.calls ensures k in b'.calls && b'.calls[k] == b.calls[k] { }
    CallsForOthersStay(b, b', n, id);
    if k :| k in b.calls && Ending(b.calls[k]) && b.calls[k].channel == channel {
      assert k in b'.calls;
    }
    OthersKeepEnd(b, b', channel);
  }

  lemma BeginKeepsOwn(b: Bridge, b': Bridge, n: nat, channel: nat)
    requires n in b.engine.notices && b.engine.notices[n].task in b.engine.tasks
    requires b.engine.tasks[b.engine.notices[n].task].history != []
    requires b' == BeginCall(b.(engine := Deliver(b.engine, n)), b.engine.notices[n].task)
    requires (forall k :: k in b.calls ==> k < b.next) && (forall c :: c in b.owners ==> c < b.next && EndOk(b, c))
    requires channel in b'.owners && b'.owners[channel] == b.engine.notices[n].task
    ensures EndOk(b', channel)
  {
    var id, k := b.engine.notices[n].task, b'.next - 1;
    var ended := Terminal(b.engine.tasks[id].state);
    assert k in b'.calls && b'.calls[k] == Call(id, b'.channels[id], ended, Publishing);
    if ended && b'.channels[id] == channel {
      assert EndingOn(b', channel);
    } else if channel in b.owners {
      assert EndOk(b, channel);
      EndedStays(b, b', channel);
      if j :| j in b.calls && Ending(b.calls[j]) && b.calls[j].channel == channel {
        assert j in b'.calls && b'.calls[j] == b.calls[j];
      }
    }
  }

  lemma StreamCallKeepsEnds(cfg: Config, b: Bridge, n: nat)
    requires BridgeInv(cfg, b) && ChannelsAccounted(b) && EndsOk(b)
    requires Possible(b, RunnerEvent(ListenerRuns(n))) && IsStreamCall(b, ListenerRuns(n))
    ensures EndsOk(BridgeStep(cfg, b, RunnerEvent(ListenerRuns(n))))
  {
    var b', own := BridgeStep(cfg, b, RunnerEvent(ListenerRuns(n))), b.engine.notices[n].task;
    forall k | k in b.calls ensures k < b.next { assert CallOk(b, k); }
    forall channel | channel in b.owners ensures channel < b.next && EndOk(b, channel) {
      assert Accounted(b, channel);
    }
    forall channel | channel in b'.owners ensures EndOk(b', channel) {
      if b'.owners[channel] == own { BeginKeepsOwn(b, b', n, channel); } else { BeginKeepsOthers(b, b', n, channel); }
    }
    BeginKeepsChannels(b, b', n);
  }

  lemma BeginKeepsChannels(b: Bridge, b': Bridge, n: nat)
    requires n in b.engine.notices && b.engine.notices[n].task in b.engine.tasks
    requires b.engine.tasks[b.engine.notices[n].task].history != []
    requires b' == BeginCall(b.(engine := Deliver(b.engine, n)), b.engine.notices[n].task)
    requires EndsOk(b) && ChannelsAccounted(b) && forall k :: k in b.calls ==> k < b.next
    requires forall channel :: channel in b.owners ==> channel < b.next
    ensures forall k :: k in b'.calls ==> OwnChannel(b', k)
    ensures forall id :: id in b'.engine.tasks ==> Reached(b', id)
  {
    var own := b.engine.notices[n].task;
    assert b'.channels[own] in b'.owners && b'.owners[b'.channels[own]] == own;
    forall k | k in b'.calls ensures OwnChannel(b', k) {
      if k in b.calls { assert OwnChannel(b, k); }
    }
    forall id | id in b'.engine.tasks ensures Reached(b', id) {
      if id != own { CallsForOthersStay(b, b', n, id); }
      ReachedStays(b, b', id);
    }
  }

  lemma PublishKeepsEnd(cfg: Config, b: Bridge, k: nat, ok: bool, channel: nat)
    requires Possible(b, PublishDone(k, ok)) && channel in b.owners && EndOk(b, channel) && OwnChannel(b, k)
    requires b.calls[k].terminal ==> b.calls[k].task in b.engine.tasks && Terminal(b.engine.tasks[b.calls[k].task].state)
    ensures EndOk(BridgeStep(cfg, b, PublishDone(k, ok)), channel)
  {
    var b', call, id := BridgeStep(cfg, b, PublishDone(k, ok)), b.calls[k], b.owners[channel];
    EndedStays(b, b', channel);
    assert CallPending(b, id) ==> CallPending(b', id);
    if call.terminal && call.channel == channel {
      assert ok ==> b'.published[|b.published|] in b'.published;
    } else if EndingOn(b, channel) {
      var j :| j in b.calls && Ending(b.calls[j]) && b.calls[j].channel == channel;
      assert j in b'.calls && b'.calls[j] == b.calls[j];
    }
  }

  lemma PublishKeepsEnds(cfg: Config, b: Bridge, k: nat, ok: bool)
    requires BridgeInv(cfg, b) && EndsOk(b) && Possible(b, PublishDone(k, ok))
    ensures EndsOk(BridgeStep(cfg, b, PublishDone(k, ok)))
  {
    var b' := BridgeStep(cfg, b, PublishDone(k, ok));
    assert CallOk(b, k) && OwnChannel(b, k);
    forall channel | channel in b'.owners ensures EndOk(b', channel) {
      assert EndOk(b, channel);
      PublishKeepsEnd(cfg, b, k, ok, channel);
    }
    forall j | j in b'.calls ensures OwnChannel(b', j) { assert OwnChannel(b, j); }
    forall id | id in b'.engine.tasks ensures Reached(b', id) {
      assert CallPending(b, id) ==> CallPending(b', id);
      ReachedStays(b, b', id);
    }
  }

  lemma CloseKeepsEnds(cfg: Config, b: Bridge, k: nat)
    requires EndsOk(b) && Possible(b, CloseDone(k))
    ensures EndsOk(BridgeStep(cfg, b, CloseDone(k)))
  {
    var b' := BridgeStep(cfg, b, CloseDone(k));
    forall channel | channel in b'.owners ensures EndOk(b', channel) {
      assert EndOk(b, channel);
      assert CallPending(b, b.owners[channel]) ==> CallPending(b', b.owners[channel]);
      if j :| j in b.calls && Ending(b.calls[j]) && b.calls[j].channel == channel {
        assert j in b'.calls && b'.calls[j] == b.calls[j];
      }
      OthersKeepEnd(b, b', channel);
    }
    forall j | j in b'.calls ensures OwnChannel(b', j) { assert OwnChannel(b, j); }
    forall id | id in b'.engine.tasks ensures Reached(b', id) {
      assert CallPending(b, id) ==> CallPending(b', id);
      ReachedStays(b, b', id);
    }
  }

  // ---------------------------------------------------------------- runs

  lemma RunnerEventKeepsEnds(cfg: Config, b: Bridge, ev: Event)
    requires BridgeInv(cfg, b) && ChannelsAccounted(b) && EndsOk(b)
    requires Possible(b, RunnerEvent(ev)) && !IsStreamCall(b, ev)
    ensures EndsOk(BridgeStep(cfg, b, RunnerEvent(ev)))
  {
    EngineStepKeepsEnds(cfg, b, ev);
    if ev.StreamStart? {
      var b1 := b.(engine := Step(cfg, b.engine, ev));
      NewTasksAreAdmitted(cfg, b.engine, ev, ev.id);
      forall channel | channel in b.owners ensures channel < b.next && b.owners[channel] != ev.id {
        assert Accounted(b, channel) && EndOk(b, channel);
      }
      StreamStartKeepsEnds(b1, ev.id, b.streamed + {ev.id});
    }
  }

  lemma {:induction false} RunKeepsEnds(cfg: Config, b: Bridge, bes: seq<BridgeEvent>)
    requires BridgeInv(cfg, b) && ChannelsAccounted(b) && EndsOk(b) && BridgeRun(cfg, b, bes)
    ensures EndsOk(BridgeAfter(cfg, b, bes))
    decreases |bes|
  {
    if bes != [] {
      match bes[0] {
        case RunnerEvent(ev) =>
          if IsStreamCall(b, ev) { StreamCallKeepsEnds(cfg, b, ev.notice); } else { RunnerEventKeepsEnds(cfg, b, ev); }
        case PublishDone(k, ok) => PublishKeepsEnds(cfg, b, k, ok);
        case CloseDone(k) => CloseKeepsEnds(cfg, b, k);
      }
      BridgeStepKeepsInv(cfg, b, bes[0]);
      StepAccountsForChannels(cfg, b, bes[0]);
      RunKeepsEnds(cfg, BridgeStep(cfg, b, bes[0]), bes[1..]);
    }
  }

  /** Once no listener call is scheduled or running, every admitted task that has ended has had a channel, and
      each channel it ever had is closed and forgotten and carried the task's end, unless publishing the end on
      that very channel failed. A task turned away at admission keeps an open channel exactly if it was started
      over the stream. */
  lemma DrainedStreamsAreClosed(cfg: Config, bes: seq<BridgeEvent>, id: TaskId)
    requires cfg.listeners > STREAM_LISTENER && BridgeRun(cfg, INITIAL_BRIDGE, bes)
    ensures var b := BridgeAfter(cfg, INITIAL_BRIDGE, bes);
      b.engine.notices == map[] && b.calls == map[] && id in b.engine.tasks && Terminal(b.engine.tasks[id].state) ==>
      && (id in b.channels <==> b.engine.tasks[id].history == [] && id in b.streamed)
      && (b.engine.tasks[id].history != [] ==>
            && (exists channel :: channel in b.owners && b.owners[channel] == id)
            && (forall channel :: channel in b.owners && b.owners[channel] == id ==>
                  channel in b.closed
                  && (channel in b.lost || exists p :: p in b.published && p.channel == channel && p.terminal)))
  {
    BridgeRunKeepsInv(cfg, INITIAL_BRIDGE, bes);
    RunKeepsEnds(cfg, INITIAL_BRIDGE, bes);
    var b := BridgeAfter(cfg, INITIAL_BRIDGE, bes);
    if b.engine.notices == map[] && b.calls == map[] && id in b.engine.tasks && Terminal(b.engine.tasks[id].state) {
      assert ChannelOk(b, id) && Reached(b, id);
      if b.engine.tasks[id].history != [] {
        forall channel | channel in b.owners && b.owners[channel] == id
          ensures channel in b.closed && (channel in b.lost || EndedOn(b, channel))
        {
          assert Accounted(b, channel) && EndOk(b, channel);
        }
      }
    }
  }

  /** A publication that is over leaves the channel open unless the task had ended; then the hub has no channel for
      the task any more, the channel is closed if the end was published on it, and the channel that the hub had is
      closed next. */
  lemma PublicationMeaning(cfg: Config, b: Bridge, k: nat, ok: bool)
    requires Possible(b, PublishDone(k, ok))
    ensures var call, b' := b.calls[k], BridgeStep(cfg, b, PublishDone(k, ok));
      if !call.terminal then
        b'.channels == b.channels && b'.closed == b.closed && b'.calls == b.calls - {k}
      else
        && b'.channels == b.channels - {call.task}
        && b'.closed == b.closed + (if ok then {call.channel} else {})
        && k in b'.calls && b'.calls[k].phase.Closing?
        && (b'.calls[k].phase.popped == if call.task in b.channels then Some(b.channels[call.task]) else None)
        && b'.calls[k].task == call.task && b'.calls - {k} == b.calls - {k}
  {
  }
}
