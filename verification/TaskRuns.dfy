/** Properties of all runs of the task engine. */
module TaskRuns {
  import opened Basics
  import opened Requirements
  import opened Analysis
  import opened TaskEngine
  import opened TaskSafety

  // ---------------------------------------------------------------- the invariant holds along runs

  lemma CommandKeepsInv(cfg: Config, e: Engine, id: TaskId, c: Command)
    requires Inv(cfg, e) && id in e.tasks
    ensures Inv(cfg, AddCommand(e, id, c))
  {
    SameSkeletonKeepsInv(cfg, e, AddCommand(e, id, c));
  }

  lemma CancelKeepsInv(cfg: Config, e: Engine, id: TaskId, c: Command)
    requires Inv(cfg, e) && id in e.tasks
    ensures Inv(cfg, OnCancel(cfg, e, id, c))
  {
    var e1 := AddCommand(e, id, c);
    CommandKeepsInv(cfg, e, id, c);
    assert TaskOk(e1, id);
    var f := e.tasks[id].future;
    OpenStatesCanCancel(e.tasks[id].state);
    if f.Some? && Live(e, f.value) {
      CancelRequestKeepsInv(cfg, e, id, c);
    } else if !Terminal(e.tasks[id].state) {
      SettleKeepsInv(cfg, e1, id, Canceled);
    }
  }

  lemma CompleteKeepsInv(cfg: Config, e: Engine, id: TaskId, c: Command)
    requires Inv(cfg, e) && id in e.tasks
    ensures Inv(cfg, OnComplete(cfg, e, id, c))
  {
    var e1 := AddCommand(e, id, c);
    CommandKeepsInv(cfg, e, id, c);
    assert TaskOk(e1, id);
    var f := e1.tasks[id].future;
    if e1.tasks[id].state == AwaitingCompletion {
      if f.Some? && f.value in e1.pipelines { assert PipelineOk(e1, f.value); }
      SettleKeepsInv(cfg, e1, id, Completed);
    }
  }

  lemma ContinueCommandKeepsInv(cfg: Config, e: Engine, id: TaskId, c: Command)
    requires Inv(cfg, e) && id in e.tasks
    ensures Inv(cfg, OnContinue(cfg, e, id, c))
  {
    CommandKeepsInv(cfg, e, id, c);
    if Effective(e, id, c) {
      ContinueKeepsInv(cfg, AddCommand(e, id, c), id);
    }
  }

  lemma ProductKeepsInv(cfg: Config, e: Engine, p: nat, text: string)
    requires Inv(cfg, e) && Live(e, p) && !e.pipelines[p].cancelled && e.pipelines[p].task in e.tasks
    requires StateAt(e.pipelines[p].at) == Working
    ensures Inv(cfg, DeliverProduct(cfg, e, p, text))
  {
    var id := e.pipelines[p].task;
    var e1 := e.(tasks := e.tasks[id := e.tasks[id].(products := [text])]);
    SameSkeletonKeepsInv(cfg, e, e1);
    EndWithKeepsInv(cfg, e1, p, AwaitingCompletion);
  }

  lemma ProduceKeepsInv(cfg: Config, e: Engine, p: nat, production: Production)
    requires Inv(cfg, e) && Live(e, p) && !e.pipelines[p].cancelled && e.pipelines[p].task in e.tasks
    requires e.pipelines[p].at == AwaitAnalysis
    ensures Inv(cfg, Produce(cfg, e, p, production))
  {
    match production
    case Suspends => MoveToKeepsInv(cfg, e, p, AwaitProduction);
    case Produces(text) => ProductKeepsInv(cfg, e, p, text);
    case Breaks => EndWithKeepsInv(cfg, e, p, Failed);
  }

  lemma HoldKeepsInv(cfg: Config, e: Engine, id: TaskId, held: Dict)
    requires Inv(cfg, e) && id in e.tasks
    ensures Inv(cfg, Hold(e, id, held))
  {
    SameSkeletonKeepsInv(cfg, e, Hold(e, id, held));
  }

  lemma AnalysisKeepsInv(cfg: Config, e: Engine, p: nat, reply: Reply)
    requires Inv(cfg, e) && Enabled(e, PipelineStep(p, reply)) && !e.pipelines[p].cancelled
    requires e.pipelines[p].at == AwaitAnalysis
    ensures Inv(cfg, Advance(cfg, e, p, reply))
  {
    var id := e.pipelines[p].task;
    if reply.Analysed? {
      var held := Absorb(cfg.agent, e.tasks[id].requirements, reply.analysis.update);
      HoldKeepsInv(cfg, e, id, held);
      HoldKeepsInv(cfg, e, id, ProductionRequirements(cfg.agent, held));
      EndWithKeepsInv(cfg, Hold(e, id, held), p, AwaitingInput);
      ProduceKeepsInv(cfg, Hold(e, id, ProductionRequirements(cfg.agent, held)), p, reply.production);
    } else if reply.AnalysedThenFault? {
      var held := Absorb(cfg.agent, e.tasks[id].requirements, reply.update);
      HoldKeepsInv(cfg, e, id, held);
      EndWithKeepsInv(cfg, Hold(e, id, held), p, Failed);
    } else {
      EndWithKeepsInv(cfg, e, p, Failed);
    }
  }

  lemma AdvanceKeepsInv(cfg: Config, e: Engine, p: nat, reply: Reply)
    requires Inv(cfg, e) && Enabled(e, PipelineStep(p, reply))
    ensures Inv(cfg, Advance(cfg, e, p, reply))
  {
    if e.pipelines[p].cancelled {
      StopKeepsInv(cfg, e, p);
      return;
    }
    match e.pipelines[p].at
    case NotStarted(stage) => MoveToKeepsInv(cfg, e, p, if stage == DecisionStage then AwaitDecision else AwaitAnalysis);
    case AwaitDecision =>
      if reply.Verdict? { MoveToKeepsInv(cfg, e, p, AwaitAudit(reply.rejects)); }
      else { EndWithKeepsInv(cfg, e, p, Failed); }
    case AwaitAudit(rejects) =>
      if !rejects { DecisionAcceptKeepsInv(cfg, e, p); }
      else { EndWithKeepsInv(cfg, e, p, if reply.Fault? then Failed else Rejected); }
    case AwaitAnalysis =>
      AnalysisKeepsInv(cfg, e, p, reply);
    case AwaitProduction =>
      if reply.Output? { ProductKeepsInv(cfg, e, p, reply.text); }
      else if !reply.MoreToDo? { EndWithKeepsInv(cfg, e, p, Failed); }
  }

  lemma StepKeepsInv(cfg: Config, e: Engine, ev: Event)
    requires Inv(cfg, e) && Enabled(e, ev) && Fresh(e, ev)
    ensures Inv(cfg, Step(cfg, e, ev))
  {
    match ev
    case Start(id, c) =>
      if id in e.tasks { CommandKeepsInv(cfg, e, id, c); }
      else if Busy(cfg, e) { TurnedAwayKeepsInv(cfg, e, id, c); }
      else { AdmittedKeepsInv(cfg, e, id, c); }
    case StreamStart(id, c) =>
      if Busy(cfg, e) { TurnedAwayKeepsInv(cfg, e, id, c); } else { AdmittedKeepsInv(cfg, e, id, c); }
    case Get(_) =>
    case Cancel(id, c) => if id in e.tasks { CancelKeepsInv(cfg, e, id, c); }
    case Complete(id, c) => if id in e.tasks { CompleteKeepsInv(cfg, e, id, c); }
    case Continue(id, c) => if id in e.tasks { ContinueCommandKeepsInv(cfg, e, id, c); }
    case PipelineStep(p, reply) => AdvanceKeepsInv(cfg, e, p, reply);
    case CancelResumes(w) => ResumeCancelKeepsInv(cfg, e, w);
    case ListenerRuns(n) => DeliverKeepsInv(cfg, e, n);
  }

  lemma {:induction false} RunKeepsInv(cfg: Config, e: Engine, evs: seq<Event>)
    requires Inv(cfg, e) && Run(cfg, e, evs)
    ensures Inv(cfg, After(cfg, e, evs))
    decreases |evs|
  {
    if evs != [] {
      StepKeepsInv(cfg, e, evs[0]);
      RunKeepsInv(cfg, Step(cfg, e, evs[0]), evs[1..]);
    }
  }

  // ---------------------------------------------------------------- what one step does to one task

  /** The terminal audit attempts for one task. */
  function AuditsOf(audits: seq<Audit>, id: TaskId): seq<Audit> {
    if audits == [] then []
    else
      var last := audits[|audits| - 1];
      AuditsOf(audits[..|audits| - 1], id) + (if last.task == id then [last] else [])
  }

  ghost predicate Pending(e: Engine, id: TaskId, listener: nat, index: nat) {
    exists n :: n in e.notices && e.notices[n] == Notice(id, listener, index)
  }

  /** A known task keeps its state and history, or takes one edge, which is recorded in its history, notified
      to every listener and, if it ends the task, audited once with the matching result. */
  ghost predicate Records(cfg: Config, e: Engine, e': Engine, id: TaskId)
    requires id in e.tasks && id in e'.tasks
  {
    var c, c' := e.tasks[id], e'.tasks[id];
    if c'.history == c.history then c'.state == c.state && AuditsOf(e'.audits, id) == AuditsOf(e.audits, id)
    else
      && c.history != [] && Edge(c.state, c'.state) && c'.history == c.history + [c'.state]
      && AuditsOf(e'.audits, id)
         == AuditsOf(e.audits, id) + (if Terminal(c'.state) then [Audit(id, c'.state == Completed)] else [])
      && (forall l: nat :: l < cfg.listeners ==> Pending(e', id, l, |c.history|))
  }

  lemma UpdateRecords(cfg: Config, e: Engine, id: TaskId, s: State, i: TaskId)
    requires id in e.tasks && i in e.tasks && e.tasks[id].history != [] && Edge(e.tasks[id].state, s)
    ensures Records(cfg, e, SetState(cfg, e, id, s), i)
  {
    var e' := SetState(cfg, e, id, s);
    assert Terminal(s) ==> e'.audits[..|e'.audits| - 1] == e.audits;
    if i == id {
      forall l: nat | l < cfg.listeners ensures Pending(e', id, l, |e.tasks[id].history|) {
        assert e.next + l in e'.notices && e'.notices[e.next + l] == Notice(id, l, |e.tasks[id].history|);
      }
    }
  }

  /** Two engines that agree on states, histories, audits and notices record the same. */
  ghost predicate SameRecord(e: Engine, e': Engine) {
    && e'.audits == e.audits && e'.notices == e.notices
    && e'.tasks.Keys == e.tasks.Keys
    && forall i :: i in e.tasks ==> e'.tasks[i].state == e.tasks[i].state && e'.tasks[i].history == e.tasks[i].history
  }

  lemma RecordsBetween(cfg: Config, e: Engine, e1: Engine, id: TaskId, s: State, e2: Engine, i: TaskId)
    requires SameRecord(e, e1) && id in e1.tasks && SameRecord(SetState(cfg, e1, id, s), e2)
    requires e1.tasks[id].history != [] && Edge(e1.tasks[id].state, s) && i in e.tasks
    ensures i in e2.tasks && Records(cfg, e, e2, i)
  {
    UpdateRecords(cfg, e1, id, s, i);
    assert forall l: nat, n: nat ::
      Pending(SetState(cfg, e1, id, s), i, l, n) ==> Pending(e2, i, l, n);
  }

  lemma EndWithRecords(cfg: Config, e: Engine, e1: Engine, p: nat, s: State, i: TaskId)
    requires SameRecord(e, e1) && p in e1.pipelines && e1.pipelines[p].task in e1.tasks && i in e.tasks
    requires e1.tasks[e1.pipelines[p].task].history != [] && Edge(e1.tasks[e1.pipelines[p].task].state, s)
    ensures i in EndWith(cfg, e1, p, s).tasks && Records(cfg, e, EndWith(cfg, e1, p, s), i)
  {
    RecordsBetween(cfg, e, e1, e1.pipelines[p].task, s, EndWith(cfg, e1, p, s), i);
  }

  lemma ProductRecords(cfg: Config, e: Engine, e1: Engine, p: nat, text: string, i: TaskId)
    requires SameRecord(e, e1) && p in e1.pipelines && e1.pipelines[p].task in e1.tasks && i in e.tasks
    requires e1.tasks[e1.pipelines[p].task].history != [] && e1.tasks[e1.pipelines[p].task].state == Working
    ensures i in DeliverProduct(cfg, e1, p, text).tasks && Records(cfg, e, DeliverProduct(cfg, e1, p, text), i)
  {
    var id := e1.pipelines[p].task;
    EndWithRecords(cfg, e, e1.(tasks := e1.tasks[id := e1.tasks[id].(products := [text])]), p, AwaitingCompletion, i);
  }

  lemma ProduceRecords(cfg: Config, e: Engine, e1: Engine, p: nat, production: Production, i: TaskId)
    requires SameRecord(e, e1) && p in e1.pipelines && e1.pipelines[p].task in e1.tasks && i in e.tasks
    requires e1.tasks[e1.pipelines[p].task].history != [] && e1.tasks[e1.pipelines[p].task].state == Working
    ensures i in Produce(cfg, e1, p, production).tasks && Records(cfg, e, Produce(cfg, e1, p, production), i)
  {
    match production
    case Suspends =>
    case Produces(text) => ProductRecords(cfg, e, e1, p, text, i);
    case Breaks => EndWithRecords(cfg, e, e1, p, Failed, i);
  }

  lemma HoldRecords(cfg: Config, e: Engine, p: nat, held: Dict, i: TaskId)
    requires p in e.pipelines && e.pipelines[p].task in e.tasks && i in e.tasks
    requires e.tasks[e.pipelines[p].task].history != [] && e.tasks[e.pipelines[p].task].state == Working
    ensures var e1 := Hold(e, e.pipelines[p].task, held);
      && SameRecord(e, e1) && e1.pipelines == e.pipelines
      && e1.tasks[e.pipelines[p].task].history != [] && e1.tasks[e.pipelines[p].task].state == Working
      && Records(cfg, e, EndWith(cfg, e1, p, AwaitingInput), i)
      && Records(cfg, e, EndWith(cfg, e1, p, Failed), i)
  {
    var e1 := Hold(e, e.pipelines[p].task, held);
    EndWithRecords(cfg, e, e1, p, AwaitingInput, i);
    EndWithRecords(cfg, e, e1, p, Failed, i);
  }

  lemma AnalysisRecords(cfg: Config, e: Engine, p: nat, reply: Reply, i: TaskId)
    requires Inv(cfg, e) && Enabled(e, PipelineStep(p, reply)) && i in e.tasks
    requires !e.pipelines[p].cancelled && e.pipelines[p].at == AwaitAnalysis
    ensures i in Advance(cfg, e, p, reply).tasks && Records(cfg, e, Advance(cfg, e, p, reply), i)
  {
    LivePipelineFacts(cfg, e, p);
    var id := e.pipelines[p].task;
    if reply.Analysed? {
      var held := Absorb(cfg.agent, e.tasks[id].requirements, reply.analysis.update);
      if NeedsInput(cfg.agent, held, reply.analysis) {
        HoldRecords(cfg, e, p, held, i);
      } else {
        var requirements := ProductionRequirements(cfg.agent, held);
        HoldRecords(cfg, e, p, requirements, i);
        ProduceRecords(cfg, e, Hold(e, id, requirements), p, reply.production, i);
      }
    } else if reply.AnalysedThenFault? {
      HoldRecords(cfg, e, p, Absorb(cfg.agent, e.tasks[id].requirements, reply.update), i);
    } else {
      EndWithRecords(cfg, e, e, p, Failed, i);
    }
  }

  /** The update a pipeline step makes, if any, follows an edge from the state of the point it resumes at. */
  lemma AdvanceRecords(cfg: Config, e: Engine, p: nat, reply: Reply, i: TaskId)
    requires Inv(cfg, e) && Enabled(e, PipelineStep(p, reply)) && i in e.tasks
    ensures i in Advance(cfg, e, p, reply).tasks && Records(cfg, e, Advance(cfg, e, p, reply), i)
  {
    if e.pipelines[p].cancelled {
      return;
    }
    LivePipelineFacts(cfg, e, p);
    match e.pipelines[p].at
    case AwaitAnalysis => AnalysisRecords(cfg, e, p, reply, i);
    case AwaitAudit(rejects) =>
      if rejects { EndWithRecords(cfg, e, e, p, if reply.Fault? then Failed else Rejected, i); }
      else { RecordsBetween(cfg, e, e, e.pipelines[p].task, Working, Advance(cfg, e, p, reply), i); }
    case AwaitProduction =>
      if reply.Output? { ProductRecords(cfg, e, e, p, reply.text, i); }
      else if !reply.MoreToDo? { EndWithRecords(cfg, e, e, p, Failed, i); }
    case AwaitDecision => if !reply.Verdict? { EndWithRecords(cfg, e, e, p, Failed, i); }
    case _ =>
  }

  lemma CancelRecords(cfg: Config, e: Engine, id: TaskId, c: Command, i: TaskId)
    requires Inv(cfg, e) && id in e.tasks && i in e.tasks
    ensures i in OnCancel(cfg, e, id, c).tasks && Records(cfg, e, OnCancel(cfg, e, id, c), i)
  {
    assert TaskOk(e, id);
    OpenStatesCanCancel(e.tasks[id].state);
    var e1 := AddCommand(e, id, c);
    if !Terminal(e.tasks[id].state) {
      RecordsBetween(cfg, e, e1, id, Canceled, SetState(cfg, e1, id, Canceled), i);
    }
  }

  lemma CompleteRecords(cfg: Config, e: Engine, id: TaskId, c: Command, i: TaskId)
    requires Inv(cfg, e) && id in e.tasks && i in e.tasks
    ensures i in OnComplete(cfg, e, id, c).tasks && Records(cfg, e, OnComplete(cfg, e, id, c), i)
  {
    if e.tasks[id].state == AwaitingCompletion {
      assert TaskOk(e, id);
      RecordsBetween(cfg, e, AddCommand(e, id, c), id, Completed, OnComplete(cfg, e, id, c), i);
    }
  }

  lemma ContinueRecords(cfg: Config, e: Engine, id: TaskId, c: Command, i: TaskId)
    requires Inv(cfg, e) && id in e.tasks && i in e.tasks
    ensures i in OnContinue(cfg, e, id, c).tasks && Records(cfg, e, OnContinue(cfg, e, id, c), i)
  {
    if Effective(e, id, c) {
      assert TaskOk(e, id);
      RecordsBetween(cfg, e, AddCommand(e, id, c), id, Working, OnContinue(cfg, e, id, c), i);
    }
  }

  lemma ResumeRecords(cfg: Config, e: Engine, w: nat, i: TaskId)
    requires Inv(cfg, e) && Enabled(e, CancelResumes(w)) && i in e.tasks
    ensures i in ResumeCancel(cfg, e, w).tasks && Records(cfg, e, ResumeCancel(cfg, e, w), i)
  {
    var id := e.waiters[w].task;
    assert TaskOk(e, id);
    OpenStatesCanCancel(e.tasks[id].state);
    if !Terminal(e.tasks[id].state) {
      var e1 := e.(tasks := e.tasks[id := e.tasks[id].(future := None)], waiters := e.waiters - {w});
      RecordsBetween(cfg, e, e1, id, Canceled, ResumeCancel(cfg, e, w), i);
    }
  }

  lemma StepRecords(cfg: Config, e: Engine, ev: Event, i: TaskId)
    requires Inv(cfg, e) && Enabled(e, ev) && Fresh(e, ev) && i in e.tasks
    ensures i in Step(cfg, e, ev).tasks && Records(cfg, e, Step(cfg, e, ev), i)
  {
    match ev
    case Cancel(id, c) => if id in e.tasks { CancelRecords(cfg, e, id, c, i); }
    case Complete(id, c) => if id in e.tasks { CompleteRecords(cfg, e, id, c, i); }
    case Continue(id, c) => if id in e.tasks { ContinueRecords(cfg, e, id, c, i); }
    case PipelineStep(p, reply) => AdvanceRecords(cfg, e, p, reply, i);
    case CancelResumes(w) => ResumeRecords(cfg, e, w, i);
    case _ =>
  }

  // ---------------------------------------------------------------- terminal states

  lemma {:induction false} TerminalStays(cfg: Config, e: Engine, evs: seq<Event>, id: TaskId)
    requires Inv(cfg, e) && Run(cfg, e, evs) && id in e.tasks && Terminal(e.tasks[id].state)
    ensures id in After(cfg, e, evs).tasks
    ensures After(cfg, e, evs).tasks[id].state == e.tasks[id].state
    ensures After(cfg, e, evs).tasks[id].history == e.tasks[id].history
    decreases |evs|
  {
    if evs != [] {
      StepRecords(cfg, e, evs[0], id);
      StepKeepsInv(cfg, e, evs[0]);
      TerminalStays(cfg, Step(cfg, e, evs[0]), evs[1..], id);
    }
  }

  /** Without the freshness assumption a terminal task is disturbed by exactly one event: a Start over the
      stream for its id, unless the task was turned away at admission and the new one is turned away too. */
  lemma TerminalKeptIff(cfg: Config, e: Engine, ev: Event, id: TaskId)
    requires Inv(cfg, e) && Enabled(e, ev) && id in e.tasks && Terminal(e.tasks[id].state)
    ensures id in Step(cfg, e, ev).tasks
    ensures var c, c' := e.tasks[id], Step(cfg, e, ev).tasks[id];
      (c'.state == c.state && c'.history == c.history)
      <==> !(ev.StreamStart? && ev.id == id && !(Busy(cfg, e) && c.history == []))
  {
    assert TaskOk(e, id);
    if !ev.StreamStart? {
      StepRecords(cfg, e, ev, id);
    }
  }
}
