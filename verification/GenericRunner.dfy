/** The Partner runner as an object: its handlers and stages update the task map in place, and each of them
    is proved to perform the corresponding step of the task engine. */
module PartnerRunner {
  import opened Basics
  import opened PyText
  import opened Requirements
  import opened Analysis
  import opened TaskEngine

  /** What `dispatch` answers at once; a suspended Cancel answers when it resumes. */
  datatype Response = Answer(state: State) | Error(code: int) | Suspended

  const INVALID_PARAMS := -32602
  const TASK_NOT_FOUND := -32001

  /** A Cancel of the task has a live pipeline to wait for. */
  predicate Awaits(e: Engine, id: TaskId) {
    id in e.tasks && e.tasks[id].future.Some? && Live(e, e.tasks[id].future.value)
  }

  /** The runner and the part of the event loop it uses: pipelines and Cancel handlers in flight, and
      listener calls scheduled but not run. */
  class GenericRunner {
    const cfg: Config
    var tasks: map<TaskId, Context>
    var audits: seq<Audit>
    var pipelines: map<nat, Pipeline>
    var waiters: map<nat, Waiter>
    var notices: map<nat, Notice>
    var sightings: seq<Sighting>
    var next: nat

    function View(): Engine
      reads this
    {
      Engine(tasks, pipelines, waiters, notices, next, audits, sightings)
    }

    constructor (cfg: Config)
      ensures this.cfg == cfg && View() == INITIAL
    {
      this.cfg := cfg;
      tasks, audits, pipelines, waiters, notices, sightings, next := map[], [], map[], map[], map[], [], 0;
    }

    /** Returns false, changing nothing, where the runner raises for an unknown task. */
    method UpdateTaskStatus(id: TaskId, s: State) returns (found: bool)
      modifies this
      ensures found == (id in old(tasks))
      ensures View() == if found then SetState(cfg, old(View()), id, s) else old(View())
    {
      if id !in tasks {
        return false;
      }
      found := true;
      var ctx := tasks[id];
      var index := |ctx.history|;
      if ctx.history != [] {
        ctx := ctx.(state := s, history := ctx.history + [s]);
      } else {
        ctx := ctx.(state := s, history := [s]);
      }
      assert ctx.history == old(tasks)[id].history + [s];
      tasks := tasks[id := ctx];
      if Terminal(s) {
        audits := audits + [Audit(id, s == Completed)];
      }
      NotifyListeners(id, index);
    }

    /** Schedules a call of every registered listener. */
    method NotifyListeners(id: TaskId, index: nat)
      modifies `notices, `next
      ensures next == old(next) + cfg.listeners
      ensures notices == old(notices) + NoticesFor(old(next), cfg.listeners, id, index)
    {
      for l := 0 to cfg.listeners
        invariant next == old(next) + l
        invariant notices == old(notices) + NoticesFor(old(next), l, id, index)
      {
        notices := notices[next := Notice(id, l, index)];
        next := next + 1;
      }
    }

    method RecordCommand(id: TaskId, c: Command)
      modifies `tasks
      ensures View() == if id in old(tasks) then AddCommand(old(View()), id, c) else old(View())
    {
      if id in tasks {
        tasks := tasks[id := tasks[id].(commands := tasks[id].commands + [c])];
      }
    }

    method CountActive() returns (n: nat)
      ensures n == |ActiveTasks(tasks)|
    {
      n := 0;
      var todo := tasks.Keys;
      ghost var counted: set<TaskId> := {};
      while todo != {}
        invariant todo <= tasks.Keys
        invariant counted == set id | id in tasks.Keys - todo && Active(tasks[id].state)
        invariant n == |counted|
        decreases |todo|
      {
        var id :| id in todo;
        todo := todo - {id};
        if Active(tasks[id].state) {
          n := n + 1;
          counted := counted + {id};
        }
      }
      assert counted == ActiveTasks(tasks);
    }

    /** Creates the pipeline of a task and makes it the task's running future. */
    method CreatePipeline(id: TaskId, stage: Stage)
      requires id in tasks
      modifies `tasks, `pipelines, `next
      ensures View() == Launch(old(View()), id, stage)
    {
      pipelines := pipelines[next := Pipeline(id, NotStarted(stage), false)];
      tasks := tasks[id := tasks[id].(future := Some(next))];
      next := next + 1;
    }

    /** `found` says whether the caller passed an existing task. */
    method OnStart(id: TaskId, c: Command, found: bool)
      requires found ==> id in tasks
      modifies this
      ensures View() == if found then AddCommand(old(View()), id, c) else StartNew(cfg, old(View()), id, c)
    {
      if found {
        RecordCommand(id, c);
        return;
      }
      var active := CountActive();
      if active >= cfg.maxConcurrent {
        tasks := tasks[id := Context(Rejected, [], [c], [], map[], None)];
        return;
      }
      tasks := tasks[id := Context(Accepted, [Accepted], [c], [], map[], None)];
      CreatePipeline(id, DecisionStage);
    }

    /** The first segment of a Cancel; `suspended` when it now waits for the task's pipeline. */
    method OnCancel(id: TaskId, c: Command) returns (suspended: bool)
      requires id in tasks
      modifies this
      ensures View() == TaskEngine.OnCancel(cfg, old(View()), id, c)
      ensures suspended == Awaits(old(View()), id)
    {
      RecordCommand(id, c);
      var f := tasks[id].future;
      suspended := f.Some? && f.value in pipelines && pipelines[f.value].at != Finished;
      if suspended {
        pipelines := pipelines[f.value := pipelines[f.value].(cancelled := true)];
        waiters := waiters[next := Waiter(id, f.value)];
        next := next + 1;
      } else {
        EndCancel(id);
      }
    }

    method EndCancel(id: TaskId)
      requires id in tasks
      modifies this
      ensures View() == FinishCancel(cfg, old(View()), id)
    {
      if !Terminal(tasks[id].state) {
        var found := UpdateTaskStatus(id, Canceled);
      }
    }

    /** The rest of a Cancel whose pipeline is done. */
    method ResumeCancel(w: nat)
      requires w in waiters && waiters[w].task in tasks
      modifies this
      ensures View() == TaskEngine.ResumeCancel(cfg, old(View()), w)
    {
      var id := waiters[w].task;
      waiters := waiters - {w};
      tasks := tasks[id := tasks[id].(future := None)];
      EndCancel(id);
    }

    method OnComplete(id: TaskId, c: Command)
      requires id in tasks
      modifies this
      ensures View() == TaskEngine.OnComplete(cfg, old(View()), id, c)
    {
      RecordCommand(id, c);
      if tasks[id].state == AwaitingCompletion {
        var found := UpdateTaskStatus(id, Completed);
      }
    }

    method OnContinue(id: TaskId, c: Command)
      requires id in tasks
      modifies this
      ensures View() == TaskEngine.OnContinue(cfg, old(View()), id, c)
    {
      var state := tasks[id].state;
      RecordCommand(id, c);
      if state !in {AwaitingInput, AwaitingCompletion} || Strip(c.text) == "" {
        return;
      }
      var found := UpdateTaskStatus(id, Working);
      CreatePipeline(id, AnalysisStage);
    }

    /** Looks the task up, runs the handler of the command, and answers; an unknown task is an error. */
    method Dispatch(taskId: Option<TaskId>, c: Command) returns (r: Response)
      modifies this
      ensures taskId.None? || taskId == Some("") ==> r == Error(INVALID_PARAMS) && View() == old(View())
      ensures taskId.Some? && taskId.value != "" ==>
        var id := taskId.value;
        match c.kind
        case StartKind => View() == Step(cfg, old(View()), Start(id, c)) && r == Answer(tasks[id].state)
        case OtherKind => View() == old(View()) && r == Error(INVALID_PARAMS)
        case kind =>
          if id !in old(tasks) then View() == old(View()) && r == Error(TASK_NOT_FOUND)
          else
            && View() == Step(cfg, old(View()), match kind
                 case CancelKind => Cancel(id, c)
                 case CompleteKind => Complete(id, c)
                 case ContinueKind => Continue(id, c)
                 case _ => Get(id))
            && (r == Suspended <==> Awaits(old(View()), id) && kind == CancelKind)
            && (r == Suspended || (id in tasks && r == Answer(tasks[id].state)))
    {
      if taskId.None? || taskId == Some("") {
        return Error(INVALID_PARAMS);
      }
      var id := taskId.value;
      if c.kind == OtherKind {
        return Error(INVALID_PARAMS);
      } else if c.kind == StartKind {
        OnStart(id, c, id in tasks);
      } else if id !in tasks {
        return Error(TASK_NOT_FOUND);
      } else if c.kind == CancelKind {
        CancelTouches(cfg, View(), id, c);
        var suspended := OnCancel(id, c);
        if suspended {
          return Suspended;
        }
      } else if c.kind == CompleteKind {
        CompleteTouches(cfg, View(), id, c);
        OnComplete(id, c);
      } else if c.kind == ContinueKind {
        ContinueTouches(cfg, View(), id, c);
        OnContinue(id, c);
      }
      return Answer(tasks[id].state);
    }

    // -------------------------------------------------------------- the background pipeline

    /** Ends pipeline `p`, moving its task to `s`. */
    method Conclude(p: nat, s: State)
      requires p in pipelines && pipelines[p].task in tasks
      modifies this
      ensures View() == EndWith(cfg, old(View()), p, s)
    {
      var found := UpdateTaskStatus(pipelines[p].task, s);
      pipelines := pipelines[p := pipelines[p].(at := Finished)];
    }

    method DecisionStep(p: nat, reply: Reply)
      requires p in pipelines && pipelines[p].task in tasks && !pipelines[p].cancelled
      requires pipelines[p].at == AwaitDecision || pipelines[p].at.AwaitAudit?
      modifies this
      ensures View() == Advance(cfg, old(View()), p, reply)
    {
      match pipelines[p].at {
        case AwaitDecision =>
          if reply.Verdict? {
            pipelines := pipelines[p := pipelines[p].(at := AwaitAudit(reply.rejects))];
          } else {
            Conclude(p, Failed);
          }
        case AwaitAudit(rejects) =>
          if rejects {
            Conclude(p, if reply.Fault? then Failed else Rejected);
          } else {
            var found := UpdateTaskStatus(pipelines[p].task, Working);
            pipelines := pipelines[p := pipelines[p].(at := AwaitAnalysis)];
          }
      }
    }

    method Store(id: TaskId, held: Dict)
      requires id in tasks
      modifies `tasks
      ensures View() == Hold(old(View()), id, held)
    {
      tasks := tasks[id := tasks[id].(requirements := held)];
    }

    method DeliverResult(p: nat, text: string)
      requires p in pipelines && pipelines[p].task in tasks
      modifies this
      ensures View() == DeliverProduct(cfg, old(View()), p, text)
    {
      var id := pipelines[p].task;
      tasks := tasks[id := tasks[id].(products := [text])];
      Conclude(p, AwaitingCompletion);
    }

    method BeginProduction(p: nat, production: Production)
      requires p in pipelines && pipelines[p].task in tasks
      modifies this
      ensures View() == Produce(cfg, old(View()), p, production)
    {
      match production {
        case Suspends => pipelines := pipelines[p := pipelines[p].(at := AwaitProduction)];
        case Produces(text) => DeliverResult(p, text);
        case Breaks => Conclude(p, Failed);
      }
    }

    method AnalysisStep(p: nat, reply: Reply)
      requires p in pipelines && pipelines[p].task in tasks && !pipelines[p].cancelled
      requires pipelines[p].at == AwaitAnalysis
      modifies this
      ensures View() == Advance(cfg, old(View()), p, reply)
    {
      var id := pipelines[p].task;
      match reply {
        case Analysed(analysis, production) =>
          var held := Absorb(cfg.agent, tasks[id].requirements, analysis.update);
          var complete := ValidateSkills(cfg.agent, held);
          if analysis.reject || Truthy(Requirements.Get(analysis.update, "missingFields")) || !complete {
            Store(id, held);
            Conclude(p, AwaitingInput);
          } else {
            Store(id, ProductionRequirements(cfg.agent, held));
            BeginProduction(p, production);
          }
        case AnalysedThenFault(update) =>
          Store(id, Absorb(cfg.agent, tasks[id].requirements, update));
          Conclude(p, Failed);
        case _ => Conclude(p, Failed);
      }
    }

    /** One step of a pipeline, from its resumption to its next suspension or its end. */
    method ResumePipeline(p: nat, reply: Reply)
      requires Enabled(View(), PipelineStep(p, reply))
      modifies this
      ensures View() == Step(cfg, old(View()), PipelineStep(p, reply))
    {
      if pipelines[p].cancelled {
        pipelines := pipelines[p := pipelines[p].(at := Finished)];
        return;
      }
      match pipelines[p].at {
        case NotStarted(stage) =>
          pipelines := pipelines[p := pipelines[p].(at := if stage == DecisionStage then AwaitDecision else AwaitAnalysis)];
        case AwaitAnalysis => AnalysisStep(p, reply);
        case AwaitProduction =>
          if reply.Output? {
            DeliverResult(p, reply.text);
          } else if !reply.MoreToDo? {
            Conclude(p, Failed);
          }
        case AwaitDecision => DecisionStep(p, reply);
        case AwaitAudit(_) => DecisionStep(p, reply);
        case Finished =>
      }
    }

    /** A scheduled listener call runs and finds the task as it is now. */
    method RunListener(n: nat)
      requires Enabled(View(), ListenerRuns(n))
      modifies this
      ensures View() == Step(cfg, old(View()), ListenerRuns(n))
    {
      var notice := notices[n];
      var ctx := tasks[notice.task];
      notices := notices - {n};
      sightings := sightings + [Sighting(notice.task, notice.listener, notice.index, |ctx.history| - 1, ctx.state)];
    }
  }
}
