/** The Partner's task engine as a transition system: command handlers, the background pipeline of each task,
    cancel handlers waiting for a pipeline, and listener notifications, each step running from one `await`
    to the next. */
module TaskEngine {
  import opened Basics
  import opened PyText
  import opened Requirements
  import opened Analysis

  type TaskId = string

  datatype State =
    Accepted | Working | AwaitingInput | AwaitingCompletion | Completed | Rejected | Failed | Canceled

  predicate Terminal(s: State) {
    s in {Completed, Rejected, Failed, Canceled}
  }

  /** The states in which a pipeline works on the task. */
  predicate Running(s: State) {
    s == Accepted || s == Working
  }

  /** The states the admission test counts. */
  predicate Active(s: State) {
    s in {Working, AwaitingInput, AwaitingCompletion}
  }

  datatype CommandKind = StartKind | GetKind | CancelKind | CompleteKind | ContinueKind | OtherKind

  datatype Command = Command(kind: CommandKind, text: string)

  datatype Stage = DecisionStage | AnalysisStage

  /** Where a pipeline is suspended. */
  datatype Point =
    | NotStarted(stage: Stage)
    | AwaitDecision
    | AwaitAudit(rejects: bool)
    | AwaitAnalysis
    | AwaitProduction
    | Finished

  datatype Pipeline = Pipeline(task: TaskId, at: Point, cancelled: bool)

  /** A task's context. An empty `history` marks a task turned away at admission. */
  datatype Context = Context(
    state: State,
    history: seq<State>,
    commands: seq<Command>,
    products: seq<string>,
    requirements: Dict,
    future: Option<nat>)

  /** A Cancel handler suspended on a pipeline. */
  datatype Waiter = Waiter(task: TaskId, pipeline: nat)

  /** A listener call scheduled by the update that appended entry `index` of the task's history. */
  datatype Notice = Notice(task: TaskId, listener: nat, index: nat)

  /** A listener call that ran: it found the task's history ending at `seen`. */
  datatype Sighting = Sighting(task: TaskId, listener: nat, scheduled: nat, seen: nat, state: State)

  /** An attempt to emit the terminal audit record of a task. */
  datatype Audit = Audit(task: TaskId, success: bool)

  datatype Config = Config(agent: AgentConfig, maxConcurrent: int, listeners: nat)

  datatype Engine = Engine(
    tasks: map<TaskId, Context>,
    pipelines: map<nat, Pipeline>,
    waiters: map<nat, Waiter>,
    notices: map<nat, Notice>,
    next: nat,
    audits: seq<Audit>,
    sightings: seq<Sighting>)

  const INITIAL := Engine(map[], map[], map[], map[], 0, [], [])

  // ---------------------------------------------------------------- what handlers and stages do

  /** One notice per registered listener, numbered from `first`. */
  function NoticesFor(first: nat, n: nat, id: TaskId, index: nat): (r: map<nat, Notice>)
    ensures forall k :: k in r <==> first <= k < first + n
    ensures forall k :: k in r ==> r[k] == Notice(id, k - first, index)
  {
    if n == 0 then map[] else NoticesFor(first, n - 1, id, index)[first + n - 1 := Notice(id, n - 1, index)]
  }

  function SetState(cfg: Config, e: Engine, id: TaskId, s: State): Engine
    requires id in e.tasks
  {
    var c := e.tasks[id];
    e.(tasks := e.tasks[id := c.(state := s, history := c.history + [s])],
       notices := e.notices + NoticesFor(e.next, cfg.listeners, id, |c.history|),
       next := e.next + cfg.listeners,
       audits := if Terminal(s) then e.audits + [Audit(id, s == Completed)] else e.audits)
  }

  function AddCommand(e: Engine, id: TaskId, c: Command): Engine
    requires id in e.tasks
  {
    e.(tasks := e.tasks[id := e.tasks[id].(commands := e.tasks[id].commands + [c])])
  }

  function Launch(e: Engine, id: TaskId, stage: Stage): Engine
    requires id in e.tasks
  {
    e.(tasks := e.tasks[id := e.tasks[id].(future := Some(e.next))],
       pipelines := e.pipelines[e.next := Pipeline(id, NotStarted(stage), false)],
       next := e.next + 1)
  }

  function ActiveTasks(tasks: map<TaskId, Context>): set<TaskId> {
    set id | id in tasks && Active(tasks[id].state)
  }

  predicate Busy(cfg: Config, e: Engine) {
    |ActiveTasks(e.tasks)| >= cfg.maxConcurrent
  }

  /** Start for a task the caller did not find. */
  function StartNew(cfg: Config, e: Engine, id: TaskId, c: Command): Engine
  {
    if Busy(cfg, e) then e.(tasks := e.tasks[id := Context(Rejected, [], [c], [], map[], None)])
    else Launch(e.(tasks := e.tasks[id := Context(Accepted, [Accepted], [c], [], map[], None)]), id, DecisionStage)
  }

  function OnStart(cfg: Config, e: Engine, id: TaskId, c: Command): Engine
  {
    if id in e.tasks then AddCommand(e, id, c) else StartNew(cfg, e, id, c)
  }

  predicate Live(e: Engine, p: nat) {
    p in e.pipelines && e.pipelines[p].at != Finished
  }

  function FinishCancel(cfg: Config, e: Engine, id: TaskId): Engine
    requires id in e.tasks
  {
    if Terminal(e.tasks[id].state) then e else SetState(cfg, e, id, Canceled)
  }

  function OnCancel(cfg: Config, e: Engine, id: TaskId, c: Command): Engine
    requires id in e.tasks
  {
    var e1 := AddCommand(e, id, c);
    var f := e1.tasks[id].future;
    if f.Some? && Live(e1, f.value) then
      e1.(pipelines := e1.pipelines[f.value := e1.pipelines[f.value].(cancelled := true)],
          waiters := e1.waiters[e1.next := Waiter(id, f.value)],
          next := e1.next + 1)
    else FinishCancel(cfg, e1, id)
  }

  /** The rest of a Cancel handler, once its pipeline is done. */
  function ResumeCancel(cfg: Config, e: Engine, w: nat): Engine
    requires w in e.waiters && e.waiters[w].task in e.tasks
  {
    var id := e.waiters[w].task;
    FinishCancel(cfg,
      e.(tasks := e.tasks[id := e.tasks[id].(future := None)], waiters := e.waiters - {w}), id)
  }

  function OnComplete(cfg: Config, e: Engine, id: TaskId, c: Command): Engine
    requires id in e.tasks
  {
    var e1 := AddCommand(e, id, c);
    if e1.tasks[id].state == AwaitingCompletion then SetState(cfg, e1, id, Completed) else e1
  }

  /** A Continue that takes effect: the task awaits its Leader and the command carries text. */
  predicate Effective(e: Engine, id: TaskId, c: Command) {
    id in e.tasks && e.tasks[id].state in {AwaitingInput, AwaitingCompletion} && Strip(c.text) != ""
  }

  function OnContinue(cfg: Config, e: Engine, id: TaskId, c: Command): Engine
    requires id in e.tasks
  {
    var e1 := AddCommand(e, id, c);
    if Effective(e, id, c) then Launch(SetState(cfg, e1, id, Working), id, AnalysisStage) else e1
  }

  /** What happens between production's start and its first suspension. */
  datatype Production = Suspends | Produces(text: string) | Breaks

  /** What a suspended pipeline is resumed with. `Fault` is any exception of the stage, including a reply it
      cannot parse; `AnalysedThenFault` one raised after the reply was merged. */
  datatype Reply =
    | Fault
    | Verdict(rejects: bool)
    | Analysed(analysis: AnalysisReply, production: Production)
    | AnalysedThenFault(update: Dict)
    | MoreToDo
    | Output(text: string)

  function MoveTo(e: Engine, p: nat, at: Point): Engine
    requires p in e.pipelines
  {
    e.(pipelines := e.pipelines[p := e.pipelines[p].(at := at)])
  }

  function EndWith(cfg: Config, e: Engine, p: nat, s: State): Engine
    requires p in e.pipelines && e.pipelines[p].task in e.tasks
  {
    MoveTo(SetState(cfg, e, e.pipelines[p].task, s), p, Finished)
  }

  function Hold(e: Engine, id: TaskId, held: Dict): Engine
    requires id in e.tasks
  {
    e.(tasks := e.tasks[id := e.tasks[id].(requirements := held)])
  }

  function DeliverProduct(cfg: Config, e: Engine, p: nat, text: string): Engine
    requires p in e.pipelines && e.pipelines[p].task in e.tasks
  {
    var id := e.pipelines[p].task;
    EndWith(cfg, e.(tasks := e.tasks[id := e.tasks[id].(products := [text])]), p, AwaitingCompletion)
  }

  function Produce(cfg: Config, e: Engine, p: nat, production: Production): Engine
    requires p in e.pipelines && e.pipelines[p].task in e.tasks
  {
    match production
    case Suspends => MoveTo(e, p, AwaitProduction)
    case Produces(text) => DeliverProduct(cfg, e, p, text)
    case Breaks => EndWith(cfg, e, p, Failed)
  }

  function Analyse(cfg: Config, e: Engine, p: nat, reply: AnalysisReply, production: Production): Engine
    requires p in e.pipelines && e.pipelines[p].task in e.tasks
  {
    var id := e.pipelines[p].task;
    var held := Absorb(cfg.agent, e.tasks[id].requirements, reply.update);
    if NeedsInput(cfg.agent, held, reply) then EndWith(cfg, Hold(e, id, held), p, AwaitingInput)
    else Produce(cfg, Hold(e, id, ProductionRequirements(cfg.agent, held)), p, production)
  }

  /** One step of a pipeline. A pipeline asked to cancel only stops. */
  function Advance(cfg: Config, e: Engine, p: nat, reply: Reply): Engine
    requires p in e.pipelines && e.pipelines[p].task in e.tasks
  {
    var id := e.pipelines[p].task;
    if e.pipelines[p].cancelled then MoveTo(e, p, Finished)
    else
      match e.pipelines[p].at
      case NotStarted(stage) => MoveTo(e, p, if stage == DecisionStage then AwaitDecision else AwaitAnalysis)
      case AwaitDecision =>
        if reply.Verdict? then MoveTo(e, p, AwaitAudit(reply.rejects)) else EndWith(cfg, e, p, Failed)
      case AwaitAudit(rejects) =>
        if !rejects then MoveTo(SetState(cfg, e, id, Working), p, AwaitAnalysis)
        else EndWith(cfg, e, p, if reply.Fault? then Failed else Rejected)
      case AwaitAnalysis =>
        if reply.Analysed? then Analyse(cfg, e, p, reply.analysis, reply.production)
        else if reply.AnalysedThenFault? then
          EndWith(cfg, Hold(e, id, Absorb(cfg.agent, e.tasks[id].requirements, reply.update)), p, Failed)
        else EndWith(cfg, e, p, Failed)
      case AwaitProduction =>
        if reply.Output? then DeliverProduct(cfg, e, p, reply.text)
        else if reply.MoreToDo? then e
        else EndWith(cfg, e, p, Failed)
      case Finished => e
  }

  /** A scheduled listener call runs and reads the task as it is now. */
  function Deliver(e: Engine, n: nat): Engine
    requires n in e.notices && e.notices[n].task in e.tasks && e.tasks[e.notices[n].task].history != []
  {
    var notice := e.notices[n];
    var c := e.tasks[notice.task];
    e.(notices := e.notices - {n},
       sightings := e.sightings
         + [Sighting(notice.task, notice.listener, notice.index, |c.history| - 1, c.state)])
  }

  // ---------------------------------------------------------------- events and runs

  datatype Event =
    | Start(id: TaskId, command: Command)
    | StreamStart(id: TaskId, command: Command)
    | Get(id: TaskId)
    | Cancel(id: TaskId, command: Command)
    | Complete(id: TaskId, command: Command)
    | Continue(id: TaskId, command: Command)
    | PipelineStep(pipeline: nat, reply: Reply)
    | CancelResumes(waiter: nat)
    | ListenerRuns(notice: nat)

  /** The event can happen in `e`. */
  predicate Enabled(e: Engine, ev: Event) {
    match ev
    case PipelineStep(p, _) => Live(e, p) && e.pipelines[p].task in e.tasks
    case CancelResumes(w) => w in e.waiters && e.waiters[w].task in e.tasks && !Live(e, e.waiters[w].pipeline)
    case ListenerRuns(n) =>
      n in e.notices && e.notices[n].task in e.tasks && e.tasks[e.notices[n].task].history != []
    case _ => true
  }

  /** A command for an unknown task is answered with an error and changes nothing. */
  function Step(cfg: Config, e: Engine, ev: Event): Engine
    requires Enabled(e, ev)
  {
    match ev
    case Start(id, c) => OnStart(cfg, e, id, c)
    case StreamStart(id, c) => StartNew(cfg, e, id, c)
    case Get(_) => e
    case Cancel(id, c) => if id in e.tasks then OnCancel(cfg, e, id, c) else e
    case Complete(id, c) => if id in e.tasks then OnComplete(cfg, e, id, c) else e
    case Continue(id, c) => if id in e.tasks then OnContinue(cfg, e, id, c) else e
    case PipelineStep(p, reply) => Advance(cfg, e, p, reply)
    case CancelResumes(w) => ResumeCancel(cfg, e, w)
    case ListenerRuns(n) => Deliver(e, n)
  }

  /** The task an event is about, if it names one that can change. */
  function Subject(e: Engine, ev: Event): Option<TaskId>
    requires Enabled(e, ev)
  {
    match ev
    case PipelineStep(p, _) => Some(e.pipelines[p].task)
    case CancelResumes(w) => Some(e.waiters[w].task)
    case ListenerRuns(_) => None
    case Get(_) => None
    case _ => Some(ev.id)
  }

  /** Only the context of task `id` may differ, only its pipelines may move, only `id` may be audited, and
      scheduled listener calls stay scheduled. */
  predicate Touches(e: Engine, r: Engine, id: TaskId) {
    && (forall i :: i in e.tasks ==> i in r.tasks)
    && (forall i :: i in r.tasks && i != id ==> i in e.tasks && r.tasks[i] == e.tasks[i])
    && (r.audits == e.audits || exists ok :: r.audits == e.audits + [Audit(id, ok)])
    && r.sightings == e.sightings
    && (forall p :: p in e.pipelines && p < e.next && e.pipelines[p].task != id ==>
          p in r.pipelines && r.pipelines[p].at == e.pipelines[p].at)
    && e.next <= r.next
    && (forall n :: n in e.notices && n < e.next ==> n in r.notices && r.notices[n] == e.notices[n])
  }

  lemma UpdateTouches(cfg: Config, e: Engine, e1: Engine, id: TaskId, s: State)
    requires Touches(e, e1, id) && e1.audits == e.audits && id in e1.tasks && e1.notices == e.notices
    ensures Touches(e, SetState(cfg, e1, id, s), id)
  {
  }

  lemma EndWithTouches(cfg: Config, e: Engine, e1: Engine, p: nat, s: State)
    requires p in e.pipelines && e1.pipelines == e.pipelines && e1.notices == e.notices && e1.audits == e.audits
    requires e.pipelines[p].task in e1.tasks && Touches(e, e1, e.pipelines[p].task)
    ensures Touches(e, EndWith(cfg, e1, p, s), e.pipelines[p].task)
  {
    UpdateTouches(cfg, e, e1, e.pipelines[p].task, s);
  }

  lemma ProduceTouches(cfg: Config, e: Engine, e1: Engine, p: nat, production: Production)
    requires p in e.pipelines && e1.pipelines == e.pipelines && e1.notices == e.notices && e1.audits == e.audits
    requires e.pipelines[p].task in e1.tasks && Touches(e, e1, e.pipelines[p].task)
    ensures Touches(e, Produce(cfg, e1, p, production), e.pipelines[p].task)
  {
    var id := e.pipelines[p].task;
    match production
    case Suspends =>
    case Produces(text) =>
      EndWithTouches(cfg, e, e1.(tasks := e1.tasks[id := e1.tasks[id].(products := [text])]), p, AwaitingCompletion);
    case Breaks => EndWithTouches(cfg, e, e1, p, Failed);
  }

  lemma AnalyseTouches(cfg: Config, e: Engine, p: nat, reply: AnalysisReply, production: Production)
    requires p in e.pipelines && e.pipelines[p].task in e.tasks
    ensures Touches(e, Analyse(cfg, e, p, reply, production), e.pipelines[p].task)
  {
    var id := e.pipelines[p].task;
    var held := Absorb(cfg.agent, e.tasks[id].requirements, reply.update);
    EndWithTouches(cfg, e, Hold(e, id, held), p, AwaitingInput);
    ProduceTouches(cfg, e, Hold(e, id, ProductionRequirements(cfg.agent, held)), p, production);
  }

  lemma AnalysisStepTouches(cfg: Config, e: Engine, p: nat, reply: Reply)
    requires p in e.pipelines && e.pipelines[p].task in e.tasks
    requires e.pipelines[p].at == AwaitAnalysis && !e.pipelines[p].cancelled
    ensures Touches(e, Advance(cfg, e, p, reply), e.pipelines[p].task)
  {
    var id := e.pipelines[p].task;
    match reply
    case Analysed(a, production) => AnalyseTouches(cfg, e, p, a, production);
    case AnalysedThenFault(update) =>
      FaultTouches(cfg, e, p, Absorb(cfg.agent, e.tasks[id].requirements, update));
    case _ => EndWithTouches(cfg, e, e, p, Failed);
  }

  lemma FaultTouches(cfg: Config, e: Engine, p: nat, held: Dict)
    requires p in e.pipelines && e.pipelines[p].task in e.tasks
    ensures Touches(e, EndWith(cfg, Hold(e, e.pipelines[p].task, held), p, Failed), e.pipelines[p].task)
  {
    EndWithTouches(cfg, e, Hold(e, e.pipelines[p].task, held), p, Failed);
  }

  lemma MoveTouches(e: Engine, e1: Engine, p: nat, at: Point)
    requires p in e.pipelines && p in e1.pipelines && Touches(e, e1, e.pipelines[p].task)
    ensures Touches(e, MoveTo(e1, p, at), e.pipelines[p].task)
  {
  }

  lemma DecisionStepTouches(cfg: Config, e: Engine, p: nat, reply: Reply)
    requires p in e.pipelines && e.pipelines[p].task in e.tasks && !e.pipelines[p].cancelled
    requires e.pipelines[p].at == AwaitDecision
    ensures Touches(e, Advance(cfg, e, p, reply), e.pipelines[p].task)
  {
    if reply.Verdict? {
      MoveTouches(e, e, p, AwaitAudit(reply.rejects));
    } else {
      EndWithTouches(cfg, e, e, p, Failed);
    }
  }

  lemma AuditStepTouches(cfg: Config, e: Engine, p: nat, reply: Reply)
    requires p in e.pipelines && e.pipelines[p].task in e.tasks && !e.pipelines[p].cancelled
    requires e.pipelines[p].at.AwaitAudit?
    ensures Touches(e, Advance(cfg, e, p, reply), e.pipelines[p].task)
  {
    if e.pipelines[p].at.rejects {
      EndWithTouches(cfg, e, e, p, if reply.Fault? then Failed else Rejected);
    } else {
      UpdateTouches(cfg, e, e, e.pipelines[p].task, Working);
      MoveTouches(e, SetState(cfg, e, e.pipelines[p].task, Working), p, AwaitAnalysis);
    }
  }

  lemma ProductionStepTouches(cfg: Config, e: Engine, p: nat, reply: Reply)
    requires p in e.pipelines && e.pipelines[p].task in e.tasks && !e.pipelines[p].cancelled
    requires e.pipelines[p].at == AwaitProduction
    ensures Touches(e, Advance(cfg, e, p, reply), e.pipelines[p].task)
  {
    if reply.Output? {
      ProduceTouches(cfg, e, e, p, Produces(reply.text));
    } else {
      EndWithTouches(cfg, e, e, p, Failed);
    }
  }

  lemma AdvanceTouches(cfg: Config, e: Engine, p: nat, reply: Reply)
    requires p in e.pipelines && e.pipelines[p].task in e.tasks
    ensures Touches(e, Advance(cfg, e, p, reply), e.pipelines[p].task)
  {
    if e.pipelines[p].cancelled {
      MoveTouches(e, e, p, Finished);
      return;
    }
    match e.pipelines[p].at
    case AwaitAnalysis => AnalysisStepTouches(cfg, e, p, reply);
    case AwaitDecision => DecisionStepTouches(cfg, e, p, reply);
    case AwaitAudit(_) => AuditStepTouches(cfg, e, p, reply);
    case AwaitProduction => ProductionStepTouches(cfg, e, p, reply);
    case _ =>
  }

  lemma CancelTouches(cfg: Config, e: Engine, id: TaskId, c: Command)
    requires id in e.tasks
    ensures Touches(e, OnCancel(cfg, e, id, c), id)
  {
    UpdateTouches(cfg, e, AddCommand(e, id, c), id, Canceled);
  }

  lemma CompleteTouches(cfg: Config, e: Engine, id: TaskId, c: Command)
    requires id in e.tasks
    ensures Touches(e, OnComplete(cfg, e, id, c), id)
  {
    UpdateTouches(cfg, e, AddCommand(e, id, c), id, Completed);
  }

  lemma ContinueTouches(cfg: Config, e: Engine, id: TaskId, c: Command)
    requires id in e.tasks
    ensures Touches(e, OnContinue(cfg, e, id, c), id)
  {
    UpdateTouches(cfg, e, AddCommand(e, id, c), id, Working);
  }

  lemma ResumeTouches(cfg: Config, e: Engine, w: nat)
    requires w in e.waiters && e.waiters[w].task in e.tasks
    ensures Touches(e, ResumeCancel(cfg, e, w), e.waiters[w].task)
  {
    var id := e.waiters[w].task;
    var e1 := e.(tasks := e.tasks[id := e.tasks[id].(future := None)], waiters := e.waiters - {w});
    UpdateTouches(cfg, e, e1, id, Canceled);
  }

  lemma StartTouches(cfg: Config, e: Engine, id: TaskId, c: Command)
    ensures Touches(e, StartNew(cfg, e, id, c), id) && Touches(e, OnStart(cfg, e, id, c), id)
  {
  }

  lemma CommandTouches(cfg: Config, e: Engine, ev: Event)
    requires ev.Cancel? || ev.Complete? || ev.Continue?
    ensures Touches(e, Step(cfg, e, ev), ev.id)
  {
    if ev.id in e.tasks {
      match ev
      case Cancel(id, c) => CancelTouches(cfg, e, id, c);
      case Complete(id, c) => CompleteTouches(cfg, e, id, c);
      case Continue(id, c) => ContinueTouches(cfg, e, id, c);
    }
  }

  /** An event changes at most what belongs to its subject. */
  lemma StepTouchesSubject(cfg: Config, e: Engine, ev: Event)
    requires Enabled(e, ev)
    ensures var e' := Step(cfg, e, ev);
      if Subject(e, ev).Some? then Touches(e, e', Subject(e, ev).value)
      else e'.tasks == e.tasks && e'.audits == e.audits && e'.pipelines == e.pipelines
  {
    match ev
    case PipelineStep(p, reply) => AdvanceTouches(cfg, e, p, reply);
    case CancelResumes(w) => ResumeTouches(cfg, e, w);
    case Start(id, c) => StartTouches(cfg, e, id, c);
    case StreamStart(id, c) => StartTouches(cfg, e, id, c);
    case Get(_) =>
    case ListenerRuns(_) =>
    case _ => CommandTouches(cfg, e, ev);
  }

  /** A Start over the stream is looked up nowhere, so it must name a new task. */
  predicate Fresh(e: Engine, ev: Event) {
    ev.StreamStart? ==> ev.id !in e.tasks
  }

  /** `evs` is a possible run from `e`. */
  predicate Run(cfg: Config, e: Engine, evs: seq<Event>)
    decreases |evs|
  {
    evs == [] || (Enabled(e, evs[0]) && Fresh(e, evs[0]) && Run(cfg, Step(cfg, e, evs[0]), evs[1..]))
  }

  function After(cfg: Config, e: Engine, evs: seq<Event>): Engine
    requires Run(cfg, e, evs)
    decreases |evs|
  {
    if evs == [] then e else After(cfg, Step(cfg, e, evs[0]), evs[1..])
  }
}
