/** Every update of a task reaches its stream once: it is published, its publication fails, or its call is still to
    come. */
module StreamUpdates {
  import opened Basics
  import opened TaskEngine
  import opened TaskSafety
  import opened TaskRuns
  import opened TaskBounds
  import opened TaskCauses
  import opened StreamBridge

  // ---------------------------------------------------------------- notices

  /** An update schedules one call of each listener, and nothing else does. */
  predicate Notifies(cfg: Config, e: Engine, e': Engine, id: TaskId) {
    e'.notices == if id in e.tasks && HistoryNow(e', id) != HistoryNow(e, id)
      then e.notices + NoticesFor(e.next, cfg.listeners, id, |HistoryNow(e, id)|) else e.notices
  }

  lemma UpdateNotifies(cfg: Config, e: Engine, e1: Engine, id: TaskId, s: State)
    requires id in e.tasks && id in e1.tasks && e1.tasks[id].history == e.tasks[id].history
    requires e1.notices == e.notices && e1.next == e.next
    ensures Notifies(cfg, e, SetState(cfg, e1, id, s), id)
  {
    assert |e.tasks[id].history + [s]| == |e.tasks[id].history| + 1;
  }

  lemma ProduceNotifies(cfg: Config, e: Engine, e1: Engine, p: nat, production: Production)
    requires p in e1.pipelines && e1.pipelines[p].task in e.tasks && e1.pipelines[p].task in e1.tasks
    requires e1.tasks[e1.pipelines[p].task].history == e.tasks[e1.pipelines[p].task].history
    requires e1.notices == e.notices && e1.next == e.next
    ensures Notifies(cfg, e, Produce(cfg, e1, p, production), e1.pipelines[p].task)
  {
    var id := e1.pipelines[p].task;
    match production
    case Suspends =>
    case Produces(text) =>
      UpdateNotifies(cfg, e, e1.(tasks := e1.tasks[id := e1.tasks[id].(products := [text])]), id, AwaitingCompletion);
    case Breaks => UpdateNotifies(cfg, e, e1, id, Failed);
  }

  lemma AnalysisNotifies(cfg: Config, e: Engine, p: nat, reply: Reply)
    requires p in e.pipelines && e.pipelines[p].task in e.tasks && !e.pipelines[p].cancelled
    requires e.pipelines[p].at == AwaitAnalysis
    ensures Notifies(cfg, e, Advance(cfg, e, p, reply), e.pipelines[p].task)
  {
    var id := e.pipelines[p].task;
    match reply
    case Analysed(analysis, production) =>
      var held := Analysis.Absorb(cfg.agent, e.tasks[id].requirements, analysis.update);
      if Analysis.NeedsInput(cfg.agent, held, analysis) {
        UpdateNotifies(cfg, e, Hold(e, id, held), id, AwaitingInput);
      } else {
        ProduceNotifies(cfg, e, Hold(e, id, Analysis.ProductionRequirements(cfg.agent, held)), p, production);
      }
    case AnalysedThenFault(update) =>
      UpdateNotifies(cfg, e, Hold(e, id, Analysis.Absorb(cfg.agent, e.tasks[id].requirements, update)), id, Failed);
    case _ => UpdateNotifies(cfg, e, e, id, Failed);
  }

  lemma AdvanceNotifies(cfg: Config, e: Engine, p: nat, reply: Reply)
    requires Enabled(e, PipelineStep(p, reply))
    ensures Notifies(cfg, e, Advance(cfg, e, p, reply), e.pipelines[p].task)
  {
    if e.pipelines[p].cancelled {
      return;
    }
    var id := e.pipelines[p].task;
    match e.pipelines[p].at
    case AwaitAnalysis => AnalysisNotifies(cfg, e, p, reply);
    case AwaitDecision => UpdateNotifies(cfg, e, e, id, Failed);
    case AwaitAudit(rejects) =>
      UpdateNotifies(cfg, e, e, id, if !rejects then Working else if reply.Fault? then Failed else Rejected);
    case AwaitProduction =>
      if reply.Output? { ProduceNotifies(cfg, e, e, p, Produces(reply.text)); } else { UpdateNotifies(cfg, e, e, id, Failed); }
    case _ =>
  }

  lemma CommandNotifies(cfg: Config, e: Engine, ev: Event)
    requires (ev.Cancel? || ev.Complete? || ev.Continue?) && ev.id in e.tasks
    ensures Notifies(cfg, e, Step(cfg, e, ev), ev.id)
  {
    var e1 := AddCommand(e, ev.id, ev.command);
    UpdateNotifies(cfg, e, e1, ev.id, if ev.Cancel? then Canceled else if ev.Complete? then Completed else Working);
  }

  lemma ResumeNotifies(cfg: Config, e: Engine, w: nat)
    requires w in e.waiters && e.waiters[w].task in e.tasks
    ensures Notifies(cfg, e, ResumeCancel(cfg, e, w), e.waiters[w].task)
  {
    var id := e.waiters[w].task;
    UpdateNotifies(cfg, e,
      e.(tasks := e.tasks[id := e.tasks[id].(future := None)], waiters := e.waiters - {w}), id, Canceled);
  }

  lemma StepNotifies(cfg: Config, e: Engine, ev: Event)
    requires Enabled(e, ev) && Fresh(e, ev) && !ev.ListenerRuns?
    ensures Subject(e, ev).Some? ==> Notifies(cfg, e, Step(cfg, e, ev), Subject(e, ev).value)
    ensures Subject(e, ev).None? ==> Step(cfg, e, ev).notices == e.notices
  {
    match ev
    case PipelineStep(p, reply) => AdvanceNotifies(cfg, e, p, reply);
    case CancelResumes(w) => ResumeNotifies(cfg, e, w);
    case Cancel(id, _) => if id in e.tasks { CommandNotifies(cfg, e, ev); }
    case Complete(id, _) => if id in e.tasks { CommandNotifies(cfg, e, ev); }
    case Continue(id, _) => if id in e.tasks { CommandNotifies(cfg, e, ev); }
    case _ =>
  }

  /** The calls of the stream handler's listener that are scheduled for the task. */
  function Scheduled(e: Engine, id: TaskId): set<nat> {
    set n | n in e.notices && e.notices[n].task == id && e.notices[n].listener == STREAM_LISTENER
  }

  /** The updates of a task: the entries of its history after the first, which its Start makes itself. */
  function Updates(e: Engine, id: TaskId): int {
    if HistoryNow(e, id) == [] then 0 else |HistoryNow(e, id)| - 1
  }

  lemma OneMoreScheduled(cfg: Config, e: Engine, e': Engine, id: TaskId, index: nat)
    requires Inv(cfg, e) && cfg.listeners > STREAM_LISTENER
    requires e'.notices == e.notices + NoticesFor(e.next, cfg.listeners, id, index)
    ensures |Scheduled(e', id)| == |Scheduled(e, id)| + 1
    ensures forall i :: i != id ==> Scheduled(e', i) == Scheduled(e, i)
  {
    forall n | n in e.notices ensures n < e.next { assert NoticeOk(cfg, e, n); }
    assert Scheduled(e', id) == Scheduled(e, id) + {e.next};
    forall i | i != id ensures Scheduled(e', i) == Scheduled(e, i) { }
  }

  lemma StepSchedules(cfg: Config, e: Engine, ev: Event, id: TaskId)
    requires Inv(cfg, e) && Enabled(e, ev) && Fresh(e, ev) && !ev.ListenerRuns? && cfg.listeners > STREAM_LISTENER
    ensures |Scheduled(Step(cfg, e, ev), id)| - |Scheduled(e, id)| == Updates(Step(cfg, e, ev), id) - Updates(e, id)
  {
    var e' := Step(cfg, e, ev);
    StepNotifies(cfg, e, ev);
    StepTouchesSubject(cfg, e, ev);
    if id in e.tasks { StepRecords(cfg, e, ev, id); }
    if id !in e.tasks && id in e'.tasks { NewTasksAreAdmitted(cfg, e, ev, id); }
    var subject := Subject(e, ev);
    if subject.Some? && subject.value in e.tasks && HistoryNow(e', subject.value) != HistoryNow(e, subject.value) {
      OneMoreScheduled(cfg, e, e', subject.value, |HistoryNow(e, subject.value)|);
      if subject.value == id { assert e.tasks[id].history != []; }
    }
  }

  // ---------------------------------------------------------------- calls

  /** The calls for the task that have not published yet. */
  function Publishing(b: Bridge, id: TaskId): set<nat> {
    set k | k in b.calls && b.calls[k].task == id && b.calls[k].phase.Publishing?
  }

  /** The publications for the task. */
  function PublishedFor(published: seq<Publication>, id: TaskId): nat {
    if published == [] then 0
    else
      var last := |published| - 1;
      PublishedFor(published[..last], id) + (if published[last].task == id then 1 else 0)
  }

  /** The event ends a publication for the task, as `ok` says. */
  predicate Ends(b: Bridge, be: BridgeEvent, id: TaskId, ok: bool) {
    be.PublishDone? && be.call in b.calls && b.calls[be.call].task == id && be.ok == ok
  }

  function FailuresIn(cfg: Config, b: Bridge, bes: seq<BridgeEvent>, id: TaskId): nat
    requires BridgeRun(cfg, b, bes)
    decreases |bes|
  {
    if bes == [] then 0
    else (if Ends(b, bes[0], id, false) then 1 else 0) + FailuresIn(cfg, BridgeStep(cfg, b, bes[0]), bes[1..], id)
  }

  /** Where the updates of a task are. */
  function Accounts(b: Bridge, id: TaskId): int {
    |Scheduled(b.engine, id)| + |Publishing(b, id)| + PublishedFor(b.published, id)
  }

  lemma PublishEnds(cfg: Config, b: Bridge, k: nat, ok: bool, id: TaskId)
    requires Possible(b, PublishDone(k, ok))
    ensures var b' := BridgeStep(cfg, b, PublishDone(k, ok));
      && (k in Publishing(b, id) <==> b.calls[k].task == id)
      && Publishing(b', id) == Publishing(b, id) - {k}
      && b'.engine == b.engine
  {
  }

  lemma PublishAdds(cfg: Config, b: Bridge, k: nat, ok: bool, id: TaskId)
    requires Possible(b, PublishDone(k, ok))
    ensures PublishedFor(BridgeStep(cfg, b, PublishDone(k, ok)).published, id)
         == PublishedFor(b.published, id) + (if ok && b.calls[k].task == id then 1 else 0)
  {
    var b' := BridgeStep(cfg, b, PublishDone(k, ok));
    if ok {
      assert b'.published[..|b'.published| - 1] == b.published;
    }
  }

  lemma PublishAccounts(cfg: Config, b: Bridge, k: nat, ok: bool, id: TaskId)
    requires Possible(b, PublishDone(k, ok))
    ensures var b' := BridgeStep(cfg, b, PublishDone(k, ok));
      Accounts(b', id) + (if Ends(b, PublishDone(k, ok), id, false) then 1 else 0) == Accounts(b, id)
  {
    PublishEnds(cfg, b, k, ok, id);
    PublishAdds(cfg, b, k, ok, id);
  }

  lemma CloseAccounts(cfg: Config, b: Bridge, k: nat, id: TaskId)
    requires Possible(b, CloseDone(k))
    ensures Accounts(BridgeStep(cfg, b, CloseDone(k)), id) == Accounts(b, id)
  {
    assert Publishing(BridgeStep(cfg, b, CloseDone(k)), id) == Publishing(b, id);
  }

  lemma CallBegins(cfg: Config, b: Bridge, n: nat, id: TaskId)
    requires BridgeInv(cfg, b) && Possible(b, RunnerEvent(ListenerRuns(n))) && IsStreamCall(b, ListenerRuns(n))
    ensures var b' := BridgeStep(cfg, b, RunnerEvent(ListenerRuns(n)));
      && Publishing(b', id) == Publishing(b, id) + (if b.engine.notices[n].task == id then {b'.next - 1} else {})
      && b'.next - 1 !in Publishing(b, id)
  {
    var b' := BridgeStep(cfg, b, RunnerEvent(ListenerRuns(n)));
    forall k | k in b.calls ensures k < b.next { assert CallOk(b, k); }
  }

  lemma NoticeGoes(cfg: Config, b: Bridge, n: nat, id: TaskId)
    requires Possible(b, RunnerEvent(ListenerRuns(n))) && IsStreamCall(b, ListenerRuns(n))
    ensures Scheduled(BridgeStep(cfg, b, RunnerEvent(ListenerRuns(n))).engine, id) == Scheduled(b.engine, id) - {n}
    ensures n in Scheduled(b.engine, id) <==> b.engine.notices[n].task == id
  {
  }

  /** A call of the listener goes from scheduled to publishing. */
  lemma CallAccounts(cfg: Config, b: Bridge, n: nat, id: TaskId)
    requires BridgeInv(cfg, b) && Possible(b, RunnerEvent(ListenerRuns(n))) && IsStreamCall(b, ListenerRuns(n))
    ensures Accounts(BridgeStep(cfg, b, RunnerEvent(ListenerRuns(n))), id) == Accounts(b, id)
  {
    CallBegins(cfg, b, n, id);
    NoticeGoes(cfg, b, n, id);
  }

  lemma OtherCallAccounts(cfg: Config, b: Bridge, n: nat, id: TaskId)
    requires Possible(b, RunnerEvent(ListenerRuns(n))) && !IsStreamCall(b, ListenerRuns(n))
    ensures Accounts(BridgeStep(cfg, b, RunnerEvent(ListenerRuns(n))), id) == Accounts(b, id)
  {
    var b' := BridgeStep(cfg, b, RunnerEvent(ListenerRuns(n)));
    assert Scheduled(b'.engine, id) == Scheduled(b.engine, id);
    assert Publishing(b', id) == Publishing(b, id);
  }

  lemma RunnerAccounts(cfg: Config, b: Bridge, ev: Event, id: TaskId)
    requires BridgeInv(cfg, b) && Possible(b, RunnerEvent(ev)) && !ev.ListenerRuns?
    ensures var b' := BridgeStep(cfg, b, RunnerEvent(ev));
      Accounts(b', id) - Accounts(b, id) == Updates(b'.engine, id) - Updates(b.engine, id)
  {
    var b' := BridgeStep(cfg, b, RunnerEvent(ev));
    StepSchedules(cfg, b.engine, ev, id);
    assert Publishing(b', id) == Publishing(b, id);
  }

  lemma StepAccounts(cfg: Config, b: Bridge, be: BridgeEvent, id: TaskId)
    requires BridgeInv(cfg, b) && Possible(b, be)
    ensures var b' := BridgeStep(cfg, b, be);
      Accounts(b', id) + (if Ends(b, be, id, false) then 1 else 0) - Accounts(b, id)
      == Updates(b'.engine, id) - Updates(b.engine, id)
  {
    match be
    case RunnerEvent(ev) =>
      if !ev.ListenerRuns? {
        RunnerAccounts(cfg, b, ev, id);
      } else if IsStreamCall(b, ev) {
        CallAccounts(cfg, b, ev.notice, id);
      } else {
        OtherCallAccounts(cfg, b, ev.notice, id);
      }
    case PublishDone(k, ok) => PublishAccounts(cfg, b, k, ok, id);
    case CloseDone(k) => CloseAccounts(cfg, b, k, id);
  }

  lemma {:induction false} RunAccounts(cfg: Config, b: Bridge, bes: seq<BridgeEvent>, id: TaskId)
    requires BridgeInv(cfg, b) && BridgeRun(cfg, b, bes)
    ensures var b' := BridgeAfter(cfg, b, bes);
      Accounts(b', id) + FailuresIn(cfg, b, bes, id) - Accounts(b, id) == Updates(b'.engine, id) - Updates(b.engine, id)
    decreases |bes|
  {
    if bes != [] {
      StepAccounts(cfg, b, bes[0], id);
      BridgeStepKeepsInv(cfg, b, bes[0]);
      RunAccounts(cfg, BridgeStep(cfg, b, bes[0]), bes[1..], id);
    }
  }

  /** In every run each update of a task was published once, failed to be once, is being published, or has its call
      still to come; so once nothing is scheduled or running, publications and failures add up to the updates. */
  lemma UpdatesArePublishedOnce(cfg: Config, bes: seq<BridgeEvent>, id: TaskId)
    requires cfg.listeners > STREAM_LISTENER && BridgeRun(cfg, INITIAL_BRIDGE, bes)
    ensures var b := BridgeAfter(cfg, INITIAL_BRIDGE, bes);
      && PublishedFor(b.published, id) + FailuresIn(cfg, INITIAL_BRIDGE, bes, id)
         + |Publishing(b, id)| + |Scheduled(b.engine, id)| == Updates(b.engine, id)
      && (b.engine.notices == map[] && b.calls == map[] ==>
            PublishedFor(b.published, id) + FailuresIn(cfg, INITIAL_BRIDGE, bes, id) == Updates(b.engine, id))
  {
    RunAccounts(cfg, INITIAL_BRIDGE, bes, id);
    assert Publishing(INITIAL_BRIDGE, id) == {} && Scheduled(INITIAL_BRIDGE.engine, id) == {};
    var b := BridgeAfter(cfg, INITIAL_BRIDGE, bes);
    if b.engine.notices == map[] && b.calls == map[] {
      assert Publishing(b, id) == {} && Scheduled(b.engine, id) == {};
    }
  }
}
