/** How long a task's history can get and who owns a task's pipeline. */
module TaskBounds {
  import opened Basics
  import opened TaskEngine
  import opened TaskSafety
  import opened TaskRuns

  // ---------------------------------------------------------------- one pipeline per task

  /** At most one pipeline of a task is live; it is the one the task refers to and the task is being worked
      on; and a task being worked on has a live pipeline or a Cancel handler waiting for its last one. */
  lemma OnePipelinePerTask(cfg: Config, evs: seq<Event>)
    requires Run(cfg, INITIAL, evs)
    ensures var e := After(cfg, INITIAL, evs);
      && (forall p, q :: Live(e, p) && Live(e, q) && e.pipelines[p].task == e.pipelines[q].task ==> p == q)
      && (forall p :: Live(e, p) ==>
            var id := e.pipelines[p].task;
            id in e.tasks && e.tasks[id].future == Some(p) && Running(e.tasks[id].state))
      && (forall id :: id in e.tasks && Running(e.tasks[id].state) ==>
            var f := e.tasks[id].future; f.Some? && (Live(e, f.value) || Awaited(e, f.value)))
  {
    RunKeepsInv(cfg, INITIAL, evs);
    var e := After(cfg, INITIAL, evs);
    forall p | Live(e, p)
      ensures e.pipelines[p].task in e.tasks
      ensures var id := e.pipelines[p].task; e.tasks[id].future == Some(p) && Running(e.tasks[id].state)
    {
      assert PipelineOk(e, p);
    }
    forall id | id in e.tasks && Running(e.tasks[id].state)
      ensures var f := e.tasks[id].future; f.Some? && (Live(e, f.value) || Awaited(e, f.value))
    {
      assert TaskOk(e, id);
    }
  }

  /** A Continue that takes effect launches a pipeline next to no live one. */
  lemma ContinueOverwritesNothing(cfg: Config, e: Engine, id: TaskId, c: Command)
    requires Inv(cfg, e) && Effective(e, id, c)
    ensures forall p :: Live(e, p) ==> e.pipelines[p].task != id
    ensures forall p :: Live(OnContinue(cfg, e, id, c), p) && OnContinue(cfg, e, id, c).pipelines[p].task == id
              ==> p !in e.pipelines
  {
    forall p | p in e.pipelines ensures (Live(e, p) ==> e.pipelines[p].task != id) && p < e.next {
      assert PipelineOk(e, p);
    }
  }

  /** A Cancel handler that resumes clears no pipeline but its own, and leaves its task Canceled with no pipeline
      live. */
  lemma CancelClearsOnlyItsOwn(cfg: Config, e: Engine, w: nat)
    requires Inv(cfg, e) && Enabled(e, CancelResumes(w))
    ensures var id := e.waiters[w].task;
      && e.tasks[id].future in {None, Some(e.waiters[w].pipeline)}
      && ResumeCancel(cfg, e, w).tasks[id].state == Canceled && ResumeCancel(cfg, e, w).tasks[id].future == None
      && (forall p :: Live(e, p) ==> e.pipelines[p].task != id)
  {
    assert WaiterOk(e, w);
    forall p | p in e.pipelines ensures Live(e, p) ==> e.pipelines[p].task != e.waiters[w].task {
      assert PipelineOk(e, p);
    }
  }

  // ---------------------------------------------------------------- histories

  /** Every admitted task's history starts at Accepted, ends in its state and follows the state graph. */
  lemma HistoriesArePaths(cfg: Config, evs: seq<Event>, id: TaskId)
    requires Run(cfg, INITIAL, evs)
    ensures id in After(cfg, INITIAL, evs).tasks ==> HistoryOk(After(cfg, INITIAL, evs).tasks[id])
  {
    RunKeepsInv(cfg, INITIAL, evs);
    assert id in After(cfg, INITIAL, evs).tasks ==> TaskOk(After(cfg, INITIAL, evs), id);
  }

  function Workings(h: seq<State>): nat {
    if h == [] then 0 else Workings(h[..|h| - 1]) + (if h[|h| - 1] == Working then 1 else 0)
  }

  /** The length of a path from Accepted is fixed, up to one, by how often it enters Working. */
  lemma {:induction false} PathLength(h: seq<State>)
    requires h != [] && h[0] == Accepted && Path(h)
    ensures match h[|h| - 1]
      case Accepted => |h| == 1 && Workings(h) == 0
      case Working => |h| == 2 * Workings(h)
      case AwaitingInput => |h| == 2 * Workings(h) + 1
      case AwaitingCompletion => |h| == 2 * Workings(h) + 1
      case Completed => |h| == 2 * Workings(h) + 2
      case Rejected => |h| == 2 && Workings(h) == 0
      case _ => 2 * Workings(h) + 1 <= |h| <= 2 * Workings(h) + 2
  {
    if |h| == 1 {
      assert h[..0] == [];
    } else {
      PathLength(h[..|h| - 1]);
    }
  }

  /** How often the task has entered or is yet to enter Working without a Continue. */
  function Entries(c: Context): nat {
    Workings(c.history) + if c.state == Accepted then 1 else 0
  }

  /** The command admits a new task. */
  predicate Admits(cfg: Config, e: Engine, ev: Event) {
    (ev.Start? || ev.StreamStart?) && ev.id !in e.tasks && !Busy(cfg, e)
  }

  lemma NewTasksAreAdmitted(cfg: Config, e: Engine, ev: Event, id: TaskId)
    requires Enabled(e, ev) && id !in e.tasks
    ensures var e' := Step(cfg, e, ev);
      id in e'.tasks ==>
        && e'.tasks[id].state == (if Admits(cfg, e, ev) then Accepted else Rejected)
        && e'.tasks[id].history == (if Admits(cfg, e, ev) then [Accepted] else [])
  {
    StepTouchesSubject(cfg, e, ev);
  }

  predicate Restarts(e: Engine, ev: Event, id: TaskId) {
    ev.Continue? && ev.id == id && Effective(e, id, ev.command)
  }

  lemma OnlyContinueRestarts(cfg: Config, e: Engine, ev: Event, id: TaskId)
    requires Inv(cfg, e) && Enabled(e, ev) && Fresh(e, ev) && id in e.tasks
    requires e.tasks[id].state in {AwaitingInput, AwaitingCompletion}
    ensures var e' := Step(cfg, e, ev); id in e'.tasks && e'.tasks[id].state == Working ==> Restarts(e, ev, id)
  {
    StepTouchesSubject(cfg, e, ev);
    forall p | p in e.pipelines ensures Live(e, p) ==> e.pipelines[p].task != id {
      assert PipelineOk(e, p);
    }
    match ev
    case Continue(_, _) =>
    case CancelResumes(_) =>
    case Cancel(_, _) =>
    case _ =>
  }

  lemma GrownEntries(c: Context, c': Context)
    requires Edge(c.state, c'.state) && c'.history == c.history + [c'.state]
    ensures Entries(c') <= Entries(c) + if c'.state == Working && c.state != Accepted then 1 else 0
  {
    assert c'.history[..|c'.history| - 1] == c.history;
  }

  lemma StepEntries(cfg: Config, e: Engine, ev: Event, id: TaskId)
    requires Inv(cfg, e) && Enabled(e, ev) && Fresh(e, ev)
    ensures id in Step(cfg, e, ev).tasks ==>
      Entries(Step(cfg, e, ev).tasks[id])
      <= (if id in e.tasks then Entries(e.tasks[id]) else 1) + (if Restarts(e, ev, id) then 1 else 0)
  {
    if id !in Step(cfg, e, ev).tasks {
      return;
    }
    var e' := Step(cfg, e, ev);
    if id in e.tasks {
      StepRecords(cfg, e, ev, id);
      var c, c' := e.tasks[id], e'.tasks[id];
      if c'.history != c.history {
        if c'.state == Working && c.state != Accepted {
          OnlyContinueRestarts(cfg, e, ev, id);
        }
        GrownEntries(c, c');
      } else {
        assert TaskOk(e, id);
      }
    } else {
      NewTasksAreAdmitted(cfg, e, ev, id);
      assert Workings([]) == 0 && [Accepted][..0] == [];
    }
  }

  /** The Continue commands of a run that take effect on a task. */
  function EffectiveContinues(cfg: Config, e: Engine, evs: seq<Event>, id: TaskId): nat
    requires Run(cfg, e, evs)
    decreases |evs|
  {
    if evs == [] then 0
    else (if Restarts(e, evs[0], id) then 1 else 0)
         + EffectiveContinues(cfg, Step(cfg, e, evs[0]), evs[1..], id)
  }

  lemma {:induction false} RunEntries(cfg: Config, e: Engine, evs: seq<Event>, id: TaskId)
    requires Inv(cfg, e) && Run(cfg, e, evs)
    ensures id in After(cfg, e, evs).tasks ==>
      Entries(After(cfg, e, evs).tasks[id])
      <= (if id in e.tasks then Entries(e.tasks[id]) else 1) + EffectiveContinues(cfg, e, evs, id)
    decreases |evs|
  {
    if evs != [] {
      StepKeepsInv(cfg, e, evs[0]);
      RunEntries(cfg, Step(cfg, e, evs[0]), evs[1..], id);
      if id in e.tasks {
        StepTouchesSubject(cfg, e, evs[0]);
      }
      if id in Step(cfg, e, evs[0]).tasks {
        StepEntries(cfg, e, evs[0], id);
      }
    }
  }

  /** A task's history has at most four entries and two more for every Continue that took effect. */
  lemma HistoryLengthBound(cfg: Config, evs: seq<Event>, id: TaskId)
    requires Run(cfg, INITIAL, evs)
    ensures id in After(cfg, INITIAL, evs).tasks ==>
      |After(cfg, INITIAL, evs).tasks[id].history| <= 4 + 2 * EffectiveContinues(cfg, INITIAL, evs, id)
  {
    RunKeepsInv(cfg, INITIAL, evs);
    RunEntries(cfg, INITIAL, evs, id);
    if id !in After(cfg, INITIAL, evs).tasks {
      return;
    }
    var c := After(cfg, INITIAL, evs).tasks[id];
    assert TaskOk(After(cfg, INITIAL, evs), id);
    if c.history != [] {
      PathLength(c.history);
    }
  }
}
