/** The stream handler as an object beside the runner: its callbacks open, publish to and close channels in
    place, and each of them is proved to perform its part of a bridge step. */
module PartnerStream {
  import opened Basics
  import opened TaskEngine
  import opened StreamBridge

  class StreamHandler {
    var channels: map<TaskId, nat>
    var calls: map<nat, Call>
    var next: nat
    ghost var owners: map<nat, TaskId>
    ghost var closed: set<nat>
    ghost var published: seq<Publication>
    ghost var streamed: set<TaskId>
    ghost var lost: set<nat>

    ghost function View(engine: Engine): Bridge
      reads this
    {
      Bridge(engine, channels, calls, next, owners, closed, published, streamed, lost)
    }

    constructor ()
      ensures View(INITIAL) == INITIAL_BRIDGE
    {
      channels, calls, next := map[], map[], 0;
      owners, closed, published, streamed, lost := map[], {}, [], {}, {};
    }

    method GetOrCreateChannel(id: TaskId, ghost engine: Engine) returns (channel: nat)
      modifies `channels, `next, `owners
      ensures View(engine) == OpenChannel(old(View(engine)), id)
      ensures id in channels && channel == channels[id]
    {
      if id !in channels {
        channels := channels[id := next];
        owners := owners[next := id];
        next := next + 1;
      }
      channel := channels[id];
    }

    /** A Start arrives over the stream; the runner handles it. */
    method OnStreamStart(id: TaskId, ghost engine: Engine)
      modifies this
      ensures View(engine) == OpenChannel(old(View(engine)), id).(streamed := old(streamed) + {id})
    {
      var _ := GetOrCreateChannel(id, engine);
      streamed := streamed + {id};
    }

    /** The listener call up to its first suspension; `state` is the task's state as it finds it. */
    method OnRunnerStateChange(id: TaskId, state: State, ghost engine: Engine) returns (call: nat)
      requires id in engine.tasks && engine.tasks[id].state == state
      modifies this
      ensures View(engine) == BeginCall(old(View(engine)), id)
      ensures call in calls && calls[call] == Call(id, channels[id], Terminal(state), Publishing)
    {
      var isTerminal := Terminal(state);
      var channel := GetOrCreateChannel(id, engine);
      call := next;
      calls := calls[call := Call(id, channel, isTerminal, Publishing)];
      next := next + 1;
    }

    /** The publication is over, a failed one only logged; the channel of an ended task is taken out of the hub. */
    method ResumeAfterPublish(call: nat, ok: bool, ghost cfg: Config, ghost engine: Engine)
      requires Possible(View(engine), PublishDone(call, ok))
      modifies this
      ensures View(engine) == BridgeStep(cfg, old(View(engine)), PublishDone(call, ok))
    {
      var c := calls[call];
      if ok {
        published := published + [Publication(c.task, c.channel, c.terminal)];
      } else if c.terminal {
        lost := lost + {c.channel};
      }
      if c.terminal {
        if ok {
          closed := closed + {c.channel};
        }
        var popped := if c.task in channels then Some(channels[c.task]) else None;
        channels := channels - {c.task};
        calls := calls[call := c.(phase := Closing(popped))];
      } else {
        calls := calls - {call};
      }
    }

    /** The channel that the call of an ended task took out of the hub is closed. */
    method ResumeAfterClose(call: nat, ghost cfg: Config, ghost engine: Engine)
      requires Possible(View(engine), CloseDone(call))
      modifies this
      ensures View(engine) == BridgeStep(cfg, old(View(engine)), CloseDone(call))
    {
      match calls[call].phase.popped {
        case Some(channel) => closed := closed + {channel};
        case None =>
      }
      calls := calls - {call};
    }
  }
}
