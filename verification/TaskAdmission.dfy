/** How many tasks can be open: what the admission test guarantees, and exactly when the configured limit holds. */
module TaskAdmission {
  import opened Basics
  import opened TaskEngine
  import opened TaskSafety
  import opened TaskRuns
  import opened TaskBounds

  // ---------------------------------------------------------------- admission

  function OpenTasks(tasks: map<TaskId, Context>): set<TaskId> {
    set id | id in tasks && !Terminal(tasks[id].state)
  }

  function AcceptedTasks(tasks: map<TaskId, Context>): set<TaskId> {
    set id | id in tasks && tasks[id].state == Accepted
  }

  lemma SubsetSize<T>(a: set<T>, b: set<T>)
    requires a <= b
    ensures |a| <= |b|
  {
    if a != {} {
      var x :| x in a;
      SubsetSize(a - {x}, b - {x});
    }
  }

  lemma OpenTasksSplit(tasks: map<TaskId, Context>)
    ensures |OpenTasks(tasks)| == |ActiveTasks(tasks)| + |AcceptedTasks(tasks)|
  {
    assert OpenTasks(tasks) == ActiveTasks(tasks) + AcceptedTasks(tasks);
    assert ActiveTasks(tasks) !! AcceptedTasks(tasks);
  }

  lemma AdmittedCount(cfg: Config, e: Engine, id: TaskId, c: Command)
    requires id !in e.tasks && !Busy(cfg, e)
    ensures var e' := StartNew(cfg, e, id, c);
      |OpenTasks(e'.tasks)| <= cfg.maxConcurrent - 1 + |AcceptedTasks(e'.tasks)|
  {
    var e' := StartNew(cfg, e, id, c);
    assert ActiveTasks(e'.tasks) == ActiveTasks(e.tasks);
    OpenTasksSplit(e'.tasks);
  }

  lemma OnlyStartsOpen(cfg: Config, e: Engine, ev: Event, id: TaskId)
    requires Inv(cfg, e) && Enabled(e, ev) && Fresh(e, ev) && !Admits(cfg, e, ev)
    ensures id in OpenTasks(Step(cfg, e, ev).tasks) ==> id in OpenTasks(e.tasks)
  {
    if id in e.tasks {
      StepRecords(cfg, e, ev, id);
      EndedStaysEnded(cfg, e, Step(cfg, e, ev), id);
    } else {
      NewTasksAreAdmitted(cfg, e, ev, id);
    }
  }

  lemma EndedStaysEnded(cfg: Config, e: Engine, e': Engine, id: TaskId)
    requires id in e.tasks && id in e'.tasks && Records(cfg, e, e', id)
    ensures Terminal(e.tasks[id].state) ==> Terminal(e'.tasks[id].state)
  {
  }

  lemma AdmissionStep(cfg: Config, e: Engine, ev: Event)
    requires Inv(cfg, e) && Enabled(e, ev) && Fresh(e, ev)
    ensures var e' := Step(cfg, e, ev);
      if Admits(cfg, e, ev) then |OpenTasks(e'.tasks)| <= cfg.maxConcurrent - 1 + |AcceptedTasks(e'.tasks)|
      else |OpenTasks(e'.tasks)| <= |OpenTasks(e.tasks)|
  {
    if Admits(cfg, e, ev) {
      AdmittedCount(cfg, e, ev.id, ev.command);
    } else {
      var e' := Step(cfg, e, ev);
      forall id | id in OpenTasks(e'.tasks) ensures id in OpenTasks(e.tasks) { OnlyStartsOpen(cfg, e, ev, id); }
      SubsetSize(OpenTasks(e'.tasks), OpenTasks(e.tasks));
    }
  }

  /** The most tasks that were simultaneously Accepted during a run. */
  function PeakAccepted(cfg: Config, e: Engine, evs: seq<Event>): nat
    requires Run(cfg, e, evs)
    decreases |evs|
  {
    var now := |AcceptedTasks(e.tasks)|;
    if evs == [] then now
    else
      var later := PeakAccepted(cfg, Step(cfg, e, evs[0]), evs[1..]);
      if now < later then later else now
  }

  lemma {:induction false} OpenTasksBounded(cfg: Config, e: Engine, evs: seq<Event>, seen: nat)
    requires Inv(cfg, e) && Run(cfg, e, evs)
    requires |OpenTasks(e.tasks)| == 0 || |OpenTasks(e.tasks)| <= cfg.maxConcurrent - 1 + seen
    ensures var open := |OpenTasks(After(cfg, e, evs).tasks)|;
      open == 0 || open <= cfg.maxConcurrent - 1 + (if seen < PeakAccepted(cfg, e, evs) then PeakAccepted(cfg, e, evs) else seen)
    decreases |evs|
  {
    if evs != [] {
      var e' := Step(cfg, e, evs[0]);
      AdmissionStep(cfg, e, evs[0]);
      StepKeepsInv(cfg, e, evs[0]);
      var now := |AcceptedTasks(e'.tasks)|;
      OpenTasksBounded(cfg, e', evs[1..], if seen < now then now else seen);
    }
  }

  /** Once tasks are admitted, the tasks that have not ended are never more than the configured limit, less
      one, plus the peak number of simultaneously Accepted tasks. */
  lemma AdmissionBound(cfg: Config, evs: seq<Event>)
    requires Run(cfg, INITIAL, evs)
    ensures var open := |OpenTasks(After(cfg, INITIAL, evs).tasks)|;
      open == 0 || open <= cfg.maxConcurrent - 1 + PeakAccepted(cfg, INITIAL, evs)
  {
    assert OpenTasks(INITIAL.tasks) == {};
    InitialOk(cfg);
    OpenTasksBounded(cfg, INITIAL, evs, 0);
  }

  /** If no two tasks are ever Accepted at once, the open tasks stay within the configured limit. */
  lemma LimitHoldsWithoutSimultaneousStarts(cfg: Config, evs: seq<Event>)
    requires Run(cfg, INITIAL, evs)
    ensures var open := |OpenTasks(After(cfg, INITIAL, evs).tasks)|;
      PeakAccepted(cfg, INITIAL, evs) <= 1 ==> open == 0 || open <= cfg.maxConcurrent
  {
    AdmissionBound(cfg, evs);
  }

  // ---------------------------------------------------------------- the limit itself

  predicate WithinLimit(cfg: Config, e: Engine) {
    OpenTasks(e.tasks) == {} || |OpenTasks(e.tasks)| <= cfg.maxConcurrent
  }

  /** There is room for one more task, Accepted ones counted. */
  predicate Room(cfg: Config, e: Engine) {
    |ActiveTasks(e.tasks)| + |AcceptedTasks(e.tasks)| < cfg.maxConcurrent
  }

  lemma AdmittedOpenTasks(cfg: Config, e: Engine, id: TaskId, c: Command)
    requires id !in e.tasks && !Busy(cfg, e)
    ensures OpenTasks(StartNew(cfg, e, id, c).tasks) == OpenTasks(e.tasks) + {id}
    ensures id !in OpenTasks(e.tasks)
  {
  }

  /** An event takes the open tasks over the limit exactly when it is a Start that is admitted without room. */
  lemma EventKeepsLimitIff(cfg: Config, e: Engine, ev: Event)
    requires Inv(cfg, e) && Enabled(e, ev) && Fresh(e, ev) && WithinLimit(cfg, e)
    ensures WithinLimit(cfg, Step(cfg, e, ev)) <==> !(Admits(cfg, e, ev) && !Room(cfg, e))
  {
    OpenTasksSplit(e.tasks);
    if Admits(cfg, e, ev) {
      AdmittedOpenTasks(cfg, e, ev.id, ev.command);
    } else {
      AdmissionStep(cfg, e, ev);
      if OpenTasks(e.tasks) == {} {
        assert |OpenTasks(Step(cfg, e, ev).tasks)| == 0;
      }
    }
  }

  /** The open tasks stay within the limit throughout a run. */
  predicate StaysWithinLimit(cfg: Config, e: Engine, evs: seq<Event>)
    requires Run(cfg, e, evs)
    decreases |evs|
  {
    WithinLimit(cfg, e) && (evs == [] || StaysWithinLimit(cfg, Step(cfg, e, evs[0]), evs[1..]))
  }

  /** Every Start of a run that is admitted finds room. */
  predicate StartsFindRoom(cfg: Config, e: Engine, evs: seq<Event>)
    requires Run(cfg, e, evs)
    decreases |evs|
  {
    evs == [] || ((Admits(cfg, e, evs[0]) ==> Room(cfg, e)) && StartsFindRoom(cfg, Step(cfg, e, evs[0]), evs[1..]))
  }

  lemma {:induction false} RunStaysWithinLimitIff(cfg: Config, e: Engine, evs: seq<Event>)
    requires Inv(cfg, e) && Run(cfg, e, evs) && WithinLimit(cfg, e)
    ensures StaysWithinLimit(cfg, e, evs) <==> StartsFindRoom(cfg, e, evs)
    decreases |evs|
  {
    if evs != [] {
      var e' := Step(cfg, e, evs[0]);
      EventKeepsLimitIff(cfg, e, evs[0]);
      StepKeepsInv(cfg, e, evs[0]);
      if WithinLimit(cfg, e') {
        RunStaysWithinLimitIff(cfg, e', evs[1..]);
      }
    }
  }

  /** A run keeps the open tasks within the configured limit throughout exactly when every Start it admits finds
      fewer Active and Accepted tasks than the limit; the admission test counts the Active ones only. */
  lemma LimitHoldsIff(cfg: Config, evs: seq<Event>)
    requires Run(cfg, INITIAL, evs)
    ensures StaysWithinLimit(cfg, INITIAL, evs) <==> StartsFindRoom(cfg, INITIAL, evs)
  {
    InitialOk(cfg);
    assert OpenTasks(INITIAL.tasks) == {};
    RunStaysWithinLimitIff(cfg, INITIAL, evs);
  }

  // ---------------------------------------------------------------- exceeding the limit

  lemma {:induction false} RunAppend(cfg: Config, e: Engine, evs: seq<Event>, more: seq<Event>)
    requires Run(cfg, e, evs) && Run(cfg, After(cfg, e, evs), more)
    ensures Run(cfg, e, evs + more) && After(cfg, e, evs + more) == After(cfg, After(cfg, e, evs), more)
    decreases |evs|
  {
    if evs == [] {
      assert evs + more == more;
    } else {
      assert (evs + more)[0] == evs[0] && (evs + more)[1..] == evs[1..] + more;
      RunAppend(cfg, Step(cfg, e, evs[0]), evs[1..], more);
    }
  }

  lemma RunOne(cfg: Config, e: Engine, ev: Event)
    requires Enabled(e, ev) && Fresh(e, ev)
    ensures Run(cfg, e, [ev]) && After(cfg, e, [ev]) == Step(cfg, e, ev)
  {
    assert [ev][1..] == [];
  }

  /** A task that failed at its first decision is Accepted again by a repeated Start over the stream. */
  lemma RepeatedStreamStartReopens(cfg: Config, c: Command) returns (evs: seq<Event>)
    requires cfg.maxConcurrent >= 1
    ensures Run(cfg, INITIAL, evs)
    ensures var e := After(cfg, INITIAL, evs);
      && "a" in e.tasks && e.tasks["a"].state == Failed
      && Step(cfg, e, StreamStart("a", c)).tasks["a"].state == Accepted
  {
    var start, step := StreamStart("a", c), PipelineStep(0, Fault);
    assert ActiveTasks(INITIAL.tasks) == {};
    RunOne(cfg, INITIAL, start);
    var e1 := Step(cfg, INITIAL, start);
    RunOne(cfg, e1, step);
    RunAppend(cfg, INITIAL, [start], [step]);
    var e2 := Step(cfg, e1, step);
    RunOne(cfg, e2, step);
    RunAppend(cfg, INITIAL, [start] + [step], [step]);
    evs := [start] + [step] + [step];
    assert ActiveTasks(Step(cfg, e2, step).tasks) == {};
  }

  /** An accepting decision takes a new task to Working in three pipeline steps. */
  lemma AcceptingDecision(cfg: Config, e: Engine, p: nat) returns (evs: seq<Event>)
    requires p in e.pipelines && e.pipelines[p].at == NotStarted(DecisionStage) && !e.pipelines[p].cancelled
    requires e.pipelines[p].task in e.tasks
    ensures Run(cfg, e, evs)
    ensures After(cfg, e, evs).tasks.Keys == e.tasks.Keys
    ensures forall i :: i in e.tasks ==>
      After(cfg, e, evs).tasks[i].state == if i == e.pipelines[p].task then Working else e.tasks[i].state
    ensures var r := After(cfg, e, evs);
      && p in r.pipelines && r.pipelines[p] == Pipeline(e.pipelines[p].task, AwaitAnalysis, false)
      && r.tasks[e.pipelines[p].task].requirements == e.tasks[e.pipelines[p].task].requirements
    ensures forall q :: q in e.pipelines && q != p ==>
      q in After(cfg, e, evs).pipelines && After(cfg, e, evs).pipelines[q] == e.pipelines[q]
  {
    var ev := PipelineStep(p, Verdict(false));
    var e1 := MoveTo(e, p, AwaitDecision);
    var e2 := MoveTo(e1, p, AwaitAudit(false));
    RunOne(cfg, e, ev);
    RunOne(cfg, e1, ev);
    RunOne(cfg, e2, ev);
    RunAppend(cfg, e, [ev], [ev]);
    RunAppend(cfg, e, [ev] + [ev], [ev]);
    evs := [ev] + [ev] + [ev];
  }

  /** Task number `p` is at work, or Accepted with its pipeline waiting. */
  predicate QueuedAt(e: Engine, id: TaskId, p: nat, working: bool) {
    && id in e.tasks && e.tasks[id].state == (if working then Working else Accepted)
    && (!working ==> p in e.pipelines && e.pipelines[p] == Pipeline(id, NotStarted(DecisionStage), false))
  }

  /** The tasks are exactly the named ones; those before number `from` are at work, the others Accepted with their
      pipelines waiting. */
  ghost predicate Queued(e: Engine, names: seq<TaskId>, from: nat) {
    && (forall id :: id in e.tasks <==> id in names)
    && (forall p {:trigger names[p]} :: 0 <= p < |names| ==> QueuedAt(e, names[p], p, p < from))
  }

  /** While no task is Active, a Start for a new task is admitted. */
  lemma OneMoreStart(cfg: Config, e: Engine, c: Command, names: seq<TaskId>, id: TaskId)
    requires cfg.maxConcurrent >= 1 && Queued(e, names, 0) && e.next == |names| && id !in names
    ensures Queued(OnStart(cfg, e, id, c), names + [id], 0) && OnStart(cfg, e, id, c).next == |names| + 1
  {
    forall i | i in e.tasks ensures e.tasks[i].state == Accepted {
      var p :| 0 <= p < |names| && names[p] == i;
    }
    assert ActiveTasks(e.tasks) == {};
    var e', longer := OnStart(cfg, e, id, c), names + [id];
    forall p | 0 <= p < |longer| ensures QueuedAt(e', longer[p], p, false) {
      assert p < |names| ==> QueuedAt(e, names[p], p, false);
    }
  }

  lemma {:induction false} ManyStarts(cfg: Config, c: Command, names: seq<TaskId>) returns (evs: seq<Event>)
    requires cfg.maxConcurrent >= 1 && Distinct(names)
    ensures Run(cfg, INITIAL, evs)
    ensures Queued(After(cfg, INITIAL, evs), names, 0) && After(cfg, INITIAL, evs).next == |names|
  {
    if names == [] {
      evs := [];
    } else {
      var front, id := names[..|names| - 1], names[|names| - 1];
      assert names == front + [id];
      var before := ManyStarts(cfg, c, front);
      OneMoreStart(cfg, After(cfg, INITIAL, before), c, front, id);
      RunOne(cfg, After(cfg, INITIAL, before), Start(id, c));
      RunAppend(cfg, INITIAL, before, [Start(id, c)]);
      evs := before + [Start(id, c)];
    }
  }

  /** Decisions for the tasks from number `from` on take all of them to Working. */
  lemma {:induction false} ManyDecisions(cfg: Config, e: Engine, names: seq<TaskId>, from: nat)
    returns (evs: seq<Event>)
    requires Distinct(names) && from <= |names| && Queued(e, names, from)
    ensures Run(cfg, e, evs) && Queued(After(cfg, e, evs), names, |names|)
    decreases |names| - from
  {
    if from == |names| {
      evs := [];
    } else {
      assert QueuedAt(e, names[from], from, false);
      var first := AcceptingDecision(cfg, e, from);
      forall p | 0 <= p < |names| ensures QueuedAt(After(cfg, e, first), names[p], p, p < from + 1) {
        assert QueuedAt(e, names[p], p, p < from);
      }
      var rest := ManyDecisions(cfg, After(cfg, e, first), names, from + 1);
      RunAppend(cfg, e, first, rest);
      evs := first + rest;
    }
  }

  lemma ActiveCount(tasks: map<TaskId, Context>, names: seq<TaskId>)
    requires Distinct(names) && forall id :: id in ActiveTasks(tasks) <==> id in names
    ensures |ActiveTasks(tasks)| == |names|
  {
    assert ActiveTasks(tasks) == set id | id in names;
    DistinctCount(names);
  }

  lemma {:induction false} DistinctCount(names: seq<TaskId>)
    requires Distinct(names)
    ensures |set id | id in names| == |names|
  {
    if names != [] {
      var front, last := names[..|names| - 1], names[|names| - 1];
      DistinctCount(front);
      assert (set id | id in names) == (set id | id in front) + {last};
    }
  }

  /** The limit can be exceeded by any number of tasks: as long as it lets one task in, Starts in a row are all
      admitted, whatever their number, and all the tasks get to work. */
  lemma LimitCanBeExceeded(cfg: Config, c: Command, names: seq<TaskId>) returns (evs: seq<Event>)
    requires cfg.maxConcurrent >= 1 && Distinct(names)
    ensures Run(cfg, INITIAL, evs) && |ActiveTasks(After(cfg, INITIAL, evs).tasks)| == |names|
  {
    var starts := ManyStarts(cfg, c, names);
    var decisions := ManyDecisions(cfg, After(cfg, INITIAL, starts), names, 0);
    RunAppend(cfg, INITIAL, starts, decisions);
    evs := starts + decisions;
    var e := After(cfg, INITIAL, evs);
    forall id ensures id in ActiveTasks(e.tasks) <==> id in names {
      if id in e.tasks {
        var p :| 0 <= p < |names| && names[p] == id;
      }
    }
    ActiveCount(e.tasks, names);
  }
}
