/** Why a task changes: which event brings it which state, pipeline point and product, told by the outcome and not by
    the handler. */
module TaskCauses {
  import opened Basics
  import opened PyText
  import opened Requirements
  import opened Analysis
  import opened TaskEngine
  import opened TaskSafety
  import opened TaskRuns
  import opened TaskBounds

  // ---------------------------------------------------------------- replies

  /** The skill is one that a reply is checked for: a selected one or, if none is, the first configured one. */
  predicate Checked(cfg: AgentConfig, held: Dict, id: string) {
    || id in HeldSkills(held)
    || (HeldSkills(held) == [] && cfg.hasSkills && cfg.skillIds != [] && id == cfg.skillIds[0])
  }

  /** The Leader has to be asked: the reply rejects, it names missing fields, or a skill has not what it needs. */
  predicate AsksBack(cfg: AgentConfig, held: Dict, reply: AnalysisReply) {
    || reply.reject
    || Truthy(Requirements.Get(reply.update, "missingFields"))
    || exists id :: id in cfg.meta && cfg.hasSkills && Checked(cfg, held, id) && !Satisfied(cfg.meta[id], HeldSlots(held))
  }

  lemma AsksBackIff(cfg: AgentConfig, held: Dict, reply: AnalysisReply)
    ensures NeedsInput(cfg, held, reply) <==> AsksBack(cfg, held, reply)
  {
    forall id ensures Checked(cfg, held, id) <==> id in SkillsToValidate(cfg, held) {
    }
    forall id | id in cfg.meta
      ensures MissingFields(cfg.meta[id], HeldSlots(held)) == [] <==> Satisfied(cfg.meta[id], HeldSlots(held))
    {
      NothingMissingIffSatisfied(cfg.meta[id], HeldSlots(held));
    }
  }

  // ---------------------------------------------------------------- which event brings which state

  /** The event resumes the task's pipeline, which nobody asked to cancel. */
  predicate Resumes(e: Engine, ev: Event, id: TaskId) {
    ev.PipelineStep? && Live(e, ev.pipeline) && e.pipelines[ev.pipeline].task == id && !e.pipelines[ev.pipeline].cancelled
  }

  predicate ResumesAt(e: Engine, ev: Event, id: TaskId, at: Point) {
    Resumes(e, ev, id) && e.pipelines[ev.pipeline].at == at
  }

  /** An analysis reply reaches the task, and the Leader is asked back or not. */
  predicate Replies(cfg: Config, e: Engine, ev: Event, id: TaskId, asks: bool) {
    && id in e.tasks && ResumesAt(e, ev, id, AwaitAnalysis) && ev.reply.Analysed?
    && asks == AsksBack(cfg.agent, Absorb(cfg.agent, e.tasks[id].requirements, ev.reply.analysis.update), ev.reply.analysis)
  }

  predicate NothingLive(e: Engine, id: TaskId) {
    forall p :: p in e.pipelines && e.pipelines[p].task == id ==> !Live(e, p)
  }

  /** The pipeline is resumed with what its stage cannot go on with. */
  predicate BreaksOff(cfg: Config, e: Engine, ev: Event, id: TaskId) {
    || (ResumesAt(e, ev, id, AwaitDecision) && !ev.reply.Verdict?)
    || (ResumesAt(e, ev, id, AwaitAudit(true)) && ev.reply.Fault?)
    || (ResumesAt(e, ev, id, AwaitAnalysis) && !ev.reply.Analysed?)
    || (Replies(cfg, e, ev, id, false) && ev.reply.production.Breaks?)
    || (ResumesAt(e, ev, id, AwaitProduction) && !ev.reply.Output? && !ev.reply.MoreToDo?)
  }

  /** The text the event delivers as the task's product. */
  function TextFrom(cfg: Config, e: Engine, ev: Event, id: TaskId): Option<string> {
    if Replies(cfg, e, ev, id, false) && ev.reply.production.Produces? then Some(ev.reply.production.text)
    else if ResumesAt(e, ev, id, AwaitProduction) && ev.reply.Output? then Some(ev.reply.text)
    else None
  }

  /** The event brings the task state `s`. */
  predicate Brings(cfg: Config, e: Engine, ev: Event, id: TaskId, s: State) {
    match s
    case Accepted =>
      (ev.Start? || ev.StreamStart?) && ev.id == id && id !in e.tasks && |ActiveTasks(e.tasks)| < cfg.maxConcurrent
    case Rejected => ResumesAt(e, ev, id, AwaitAudit(true)) && !ev.reply.Fault?
    case Working =>
      || ResumesAt(e, ev, id, AwaitAudit(false))
      || (ev.Continue? && ev.id == id && id in e.tasks && Strip(ev.command.text) != ""
          && e.tasks[id].state in {AwaitingInput, AwaitingCompletion})
    case AwaitingInput => Replies(cfg, e, ev, id, true)
    case AwaitingCompletion => TextFrom(cfg, e, ev, id).Some?
    case Completed => ev.Complete? && ev.id == id && id in e.tasks && e.tasks[id].state == AwaitingCompletion
    case Canceled =>
      && id in e.tasks && !Terminal(e.tasks[id].state)
      && ((ev.Cancel? && ev.id == id && NothingLive(e, id))
          || (ev.CancelResumes? && ev.waiter in e.waiters && e.waiters[ev.waiter].task == id))
    case Failed => BreaksOff(cfg, e, ev, id)
  }

  function HistoryNow(e: Engine, id: TaskId): seq<State> {
    if id in e.tasks then e.tasks[id].history else []
  }

  /** `s` is added to the task's history and is its state. */
  predicate Enters(e: Engine, e': Engine, id: TaskId, s: State) {
    id in e'.tasks && HistoryNow(e', id) == HistoryNow(e, id) + [s] && e'.tasks[id].state == s
  }

  lemma SameHistoryEntersNothing(e: Engine, e': Engine, id: TaskId, s: State)
    requires HistoryNow(e', id) == HistoryNow(e, id)
    ensures !Enters(e, e', id, s)
  {
    assert |HistoryNow(e, id) + [s]| == |HistoryNow(e, id)| + 1;
  }

  lemma EntersOne(e: Engine, e': Engine, id: TaskId, s: State, t: State)
    requires Enters(e, e', id, s)
    ensures Enters(e, e', id, t) <==> s == t
  {
  }

  /** What a live pipeline that is not cancelled knows. */
  lemma ResumedTask(cfg: Config, e: Engine, ev: Event, id: TaskId)
    requires Inv(cfg, e) && Enabled(e, ev) && Resumes(e, ev, id)
    ensures id in e.tasks && e.tasks[id].state == StateAt(e.pipelines[ev.pipeline].at)
    ensures ev.pipeline < e.next && e.tasks[id].history != []
  {
    assert PipelineOk(e, ev.pipeline);
    LivePipelineFacts(cfg, e, ev.pipeline);
  }

  // What an event brings, apart from what the engine makes of it.

  lemma DecisionBrings(cfg: Config, e: Engine, p: nat, reply: Reply, id: TaskId, s: State)
    requires Live(e, p) && e.pipelines[p].task == id && !e.pipelines[p].cancelled && e.pipelines[p].at == AwaitDecision
    ensures Brings(cfg, e, PipelineStep(p, reply), id, s) <==> !reply.Verdict? && s == Failed
  {
  }

  lemma AuditBrings(cfg: Config, e: Engine, p: nat, reply: Reply, id: TaskId, s: State)
    requires Live(e, p) && e.pipelines[p].task == id && !e.pipelines[p].cancelled && e.pipelines[p].at.AwaitAudit?
    ensures Brings(cfg, e, PipelineStep(p, reply), id, s)
       <==> s == if !e.pipelines[p].at.rejects then Working else if reply.Fault? then Failed else Rejected
  {
  }

  lemma ProductionBrings(cfg: Config, e: Engine, p: nat, reply: Reply, id: TaskId, s: State)
    requires Live(e, p) && e.pipelines[p].task == id && !e.pipelines[p].cancelled && e.pipelines[p].at == AwaitProduction
    ensures Brings(cfg, e, PipelineStep(p, reply), id, s)
       <==> !reply.MoreToDo? && s == if reply.Output? then AwaitingCompletion else Failed
  {
  }

  lemma AnalysisBrings(cfg: Config, e: Engine, p: nat, reply: Reply, id: TaskId, s: State)
    requires Live(e, p) && e.pipelines[p].task == id && !e.pipelines[p].cancelled && e.pipelines[p].at == AwaitAnalysis
    requires id in e.tasks
    ensures Brings(cfg, e, PipelineStep(p, reply), id, s) <==>
      if !reply.Analysed? then s == Failed
      else if Replies(cfg, e, PipelineStep(p, reply), id, true) then s == AwaitingInput
      else !reply.production.Suspends? && s == if reply.production.Produces? then AwaitingCompletion else Failed
  {
  }

  lemma StoppedBringsNothing(cfg: Config, e: Engine, p: nat, reply: Reply, id: TaskId, s: State)
    requires p in e.pipelines && (e.pipelines[p].cancelled || e.pipelines[p].at.NotStarted?)
    ensures !Brings(cfg, e, PipelineStep(p, reply), id, s)
  {
  }

  lemma EndEnters(cfg: Config, e: Engine, e1: Engine, p: nat, s: State)
    requires p in e1.pipelines && e1.pipelines[p].task in e.tasks && e1.pipelines[p].task in e1.tasks
    requires e1.tasks[e1.pipelines[p].task].history == e.tasks[e1.pipelines[p].task].history
    ensures Enters(e, EndWith(cfg, e1, p, s), e1.pipelines[p].task, s)
  {
  }

  lemma ProduceEnters(cfg: Config, e: Engine, e1: Engine, p: nat, production: Production, s: State)
    requires p in e1.pipelines && e1.pipelines[p].task in e.tasks && e1.pipelines[p].task in e1.tasks
    requires e1.tasks[e1.pipelines[p].task].history == e.tasks[e1.pipelines[p].task].history
    ensures Enters(e, Produce(cfg, e1, p, production), e1.pipelines[p].task, s)
       <==> !production.Suspends? && s == if production.Produces? then AwaitingCompletion else Failed
  {
    var id, r := e1.pipelines[p].task, Produce(cfg, e1, p, production);
    match production
    case Suspends => SameHistoryEntersNothing(e, r, id, s);
    case Produces(text) =>
      EndEnters(cfg, e, e1.(tasks := e1.tasks[id := e1.tasks[id].(products := [text])]), p, AwaitingCompletion);
      EntersOne(e, r, id, AwaitingCompletion, s);
    case Breaks =>
      EndEnters(cfg, e, e1, p, Failed);
      EntersOne(e, r, id, Failed, s);
  }

  lemma AnalysisBringsIff(cfg: Config, e: Engine, p: nat, reply: Reply, id: TaskId, s: State)
    requires Live(e, p) && e.pipelines[p].task == id && id in e.tasks && !e.pipelines[p].cancelled
    requires e.pipelines[p].at == AwaitAnalysis
    ensures Enters(e, Advance(cfg, e, p, reply), id, s) <==> Brings(cfg, e, PipelineStep(p, reply), id, s)
  {
    AnalysisBrings(cfg, e, p, reply, id, s);
    if reply.Analysed? {
      RepliedBringsIff(cfg, e, p, reply.analysis, reply.production, s);
    } else {
      var held := if reply.AnalysedThenFault? then Absorb(cfg.agent, e.tasks[id].requirements, reply.update)
                  else e.tasks[id].requirements;
      EndEnters(cfg, e, Hold(e, id, held), p, Failed);
      EndEnters(cfg, e, e, p, Failed);
      EntersOne(e, Advance(cfg, e, p, reply), id, Failed, s);
    }
  }

  lemma RepliedBringsIff(cfg: Config, e: Engine, p: nat, reply: AnalysisReply, production: Production, s: State)
    requires p in e.pipelines && e.pipelines[p].task in e.tasks
    ensures var id := e.pipelines[p].task;
      Enters(e, Analyse(cfg, e, p, reply, production), id, s) <==>
        if AsksBack(cfg.agent, Absorb(cfg.agent, e.tasks[id].requirements, reply.update), reply) then s == AwaitingInput
        else !production.Suspends? && s == if production.Produces? then AwaitingCompletion else Failed
  {
    var id := e.pipelines[p].task;
    var held := Absorb(cfg.agent, e.tasks[id].requirements, reply.update);
    AsksBackIff(cfg.agent, held, reply);
    if NeedsInput(cfg.agent, held, reply) {
      EndEnters(cfg, e, Hold(e, id, held), p, AwaitingInput);
      EntersOne(e, Analyse(cfg, e, p, reply, production), id, AwaitingInput, s);
    } else {
      ProduceEnters(cfg, e, Hold(e, id, ProductionRequirements(cfg.agent, held)), p, production, s);
    }
  }

  lemma DecisionBringsIff(cfg: Config, e: Engine, p: nat, reply: Reply, id: TaskId, s: State)
    requires Live(e, p) && e.pipelines[p].task == id && id in e.tasks && !e.pipelines[p].cancelled
    requires e.pipelines[p].at == AwaitDecision
    ensures Enters(e, Advance(cfg, e, p, reply), id, s) <==> Brings(cfg, e, PipelineStep(p, reply), id, s)
  {
    DecisionBrings(cfg, e, p, reply, id, s);
    if reply.Verdict? {
      SameHistoryEntersNothing(e, Advance(cfg, e, p, reply), id, s);
    } else {
      EndEnters(cfg, e, e, p, Failed);
      EntersOne(e, Advance(cfg, e, p, reply), id, Failed, s);
    }
  }

  lemma AuditBringsIff(cfg: Config, e: Engine, p: nat, reply: Reply, id: TaskId, s: State)
    requires Live(e, p) && e.pipelines[p].task == id && id in e.tasks && !e.pipelines[p].cancelled
    requires e.pipelines[p].at.AwaitAudit?
    ensures Enters(e, Advance(cfg, e, p, reply), id, s) <==> Brings(cfg, e, PipelineStep(p, reply), id, s)
  {
    AuditBrings(cfg, e, p, reply, id, s);
    var t := if !e.pipelines[p].at.rejects then Working else if reply.Fault? then Failed else Rejected;
    EndEnters(cfg, e, e, p, t);
    EntersOne(e, Advance(cfg, e, p, reply), id, t, s);
  }

  lemma ProductionBringsIff(cfg: Config, e: Engine, p: nat, reply: Reply, id: TaskId, s: State)
    requires Live(e, p) && e.pipelines[p].task == id && id in e.tasks && !e.pipelines[p].cancelled
    requires e.pipelines[p].at == AwaitProduction
    ensures Enters(e, Advance(cfg, e, p, reply), id, s) <==> Brings(cfg, e, PipelineStep(p, reply), id, s)
  {
    ProductionBrings(cfg, e, p, reply, id, s);
    if reply.MoreToDo? {
      SameHistoryEntersNothing(e, Advance(cfg, e, p, reply), id, s);
    } else {
      ProduceEnters(cfg, e, e, p, if reply.Output? then Produces(reply.text) else Breaks, s);
    }
  }

  lemma PipelineBringsIff(cfg: Config, e: Engine, p: nat, reply: Reply, id: TaskId, s: State)
    requires Enabled(e, PipelineStep(p, reply)) && e.pipelines[p].task == id
    ensures Enters(e, Advance(cfg, e, p, reply), id, s) <==> Brings(cfg, e, PipelineStep(p, reply), id, s)
  {
    if e.pipelines[p].cancelled || e.pipelines[p].at.NotStarted? {
      StoppedBringsNothing(cfg, e, p, reply, id, s);
      SameHistoryEntersNothing(e, Advance(cfg, e, p, reply), id, s);
    } else {
      match e.pipelines[p].at
      case AwaitDecision => DecisionBringsIff(cfg, e, p, reply, id, s);
      case AwaitAudit(_) => AuditBringsIff(cfg, e, p, reply, id, s);
      case AwaitAnalysis => AnalysisBringsIff(cfg, e, p, reply, id, s);
      case AwaitProduction => ProductionBringsIff(cfg, e, p, reply, id, s);
    }
  }

  lemma NothingLiveIff(cfg: Config, e: Engine, id: TaskId)
    requires Inv(cfg, e) && id in e.tasks
    ensures NothingLive(e, id) <==> !(e.tasks[id].future.Some? && Live(e, e.tasks[id].future.value))
  {
    assert TaskOk(e, id);
    forall p | p in e.pipelines && e.pipelines[p].task == id && Live(e, p) ensures e.tasks[id].future == Some(p) {
      assert PipelineOk(e, p);
    }
  }

  lemma CommandBrings(cfg: Config, e: Engine, ev: Event, id: TaskId, s: State)
    requires ev.Cancel? || ev.Complete? || ev.Continue? || ev.CancelResumes?
    ensures Brings(cfg, e, ev, id, s) ==>
      s == if ev.Complete? then Completed else if ev.Continue? then Working else Canceled
  {
  }

  lemma UpdateEnters(cfg: Config, e: Engine, e1: Engine, id: TaskId, s: State)
    requires id in e.tasks && id in e1.tasks && e1.tasks[id].history == e.tasks[id].history
    ensures Enters(e, SetState(cfg, e1, id, s), id, s)
  {
  }

  lemma CancelBringsIff(cfg: Config, e: Engine, id: TaskId, c: Command, s: State)
    requires Inv(cfg, e) && id in e.tasks
    ensures Enters(e, OnCancel(cfg, e, id, c), id, s) <==> Brings(cfg, e, Cancel(id, c), id, s)
  {
    NothingLiveIff(cfg, e, id);
    CommandBrings(cfg, e, Cancel(id, c), id, s);
    if !NothingLive(e, id) || Terminal(e.tasks[id].state) {
      SameHistoryEntersNothing(e, OnCancel(cfg, e, id, c), id, s);
    } else {
      UpdateEnters(cfg, e, AddCommand(e, id, c), id, Canceled);
      EntersOne(e, OnCancel(cfg, e, id, c), id, Canceled, s);
    }
  }

  lemma ResumeBringsIff(cfg: Config, e: Engine, w: nat, s: State)
    requires Enabled(e, CancelResumes(w))
    ensures Enters(e, ResumeCancel(cfg, e, w), e.waiters[w].task, s)
       <==> Brings(cfg, e, CancelResumes(w), e.waiters[w].task, s)
  {
    var id := e.waiters[w].task;
    CommandBrings(cfg, e, CancelResumes(w), id, s);
    if Terminal(e.tasks[id].state) {
      SameHistoryEntersNothing(e, ResumeCancel(cfg, e, w), id, s);
    } else {
      UpdateEnters(cfg, e,
        e.(tasks := e.tasks[id := e.tasks[id].(future := None)], waiters := e.waiters - {w}), id, Canceled);
      EntersOne(e, ResumeCancel(cfg, e, w), id, Canceled, s);
    }
  }

  lemma CompleteBringsIff(cfg: Config, e: Engine, id: TaskId, c: Command, s: State)
    requires id in e.tasks
    ensures Enters(e, OnComplete(cfg, e, id, c), id, s) <==> Brings(cfg, e, Complete(id, c), id, s)
  {
    CommandBrings(cfg, e, Complete(id, c), id, s);
    if e.tasks[id].state == AwaitingCompletion {
      UpdateEnters(cfg, e, AddCommand(e, id, c), id, Completed);
      EntersOne(e, OnComplete(cfg, e, id, c), id, Completed, s);
    } else {
      SameHistoryEntersNothing(e, OnComplete(cfg, e, id, c), id, s);
    }
  }

  lemma ContinueBringsIff(cfg: Config, e: Engine, id: TaskId, c: Command, s: State)
    requires id in e.tasks
    ensures Enters(e, OnContinue(cfg, e, id, c), id, s) <==> Brings(cfg, e, Continue(id, c), id, s)
  {
    CommandBrings(cfg, e, Continue(id, c), id, s);
    if Effective(e, id, c) {
      UpdateEnters(cfg, e, AddCommand(e, id, c), id, Working);
      EntersOne(e, OnContinue(cfg, e, id, c), id, Working, s);
    } else {
      SameHistoryEntersNothing(e, OnContinue(cfg, e, id, c), id, s);
    }
  }

  lemma StartBrings(cfg: Config, e: Engine, ev: Event, s: State)
    requires ev.Start? || ev.StreamStart?
    ensures Brings(cfg, e, ev, ev.id, s) <==> s == Accepted && ev.id !in e.tasks && !Busy(cfg, e)
  {
  }

  lemma StartBringsIff(cfg: Config, e: Engine, ev: Event, s: State)
    requires (ev.Start? || ev.StreamStart?) && Fresh(e, ev)
    ensures Enters(e, Step(cfg, e, ev), ev.id, s) <==> Brings(cfg, e, ev, ev.id, s)
  {
    StartBrings(cfg, e, ev, s);
    if HistoryNow(Step(cfg, e, ev), ev.id) == HistoryNow(e, ev.id) {
      SameHistoryEntersNothing(e, Step(cfg, e, ev), ev.id, s);
    } else {
      EntersOne(e, Step(cfg, e, ev), ev.id, Accepted, s);
    }
  }

  lemma OthersBringNothing(cfg: Config, e: Engine, ev: Event, id: TaskId, s: State)
    requires Enabled(e, ev) && Subject(e, ev) != Some(id)
    ensures !Brings(cfg, e, ev, id, s)
  {
    match ev
    case PipelineStep(_, _) => assert !Resumes(e, ev, id);
    case _ =>
  }

  lemma OthersEnterNothing(cfg: Config, e: Engine, ev: Event, id: TaskId, s: State)
    requires Enabled(e, ev) && Subject(e, ev) != Some(id)
    ensures !Enters(e, Step(cfg, e, ev), id, s)
  {
    StepTouchesSubject(cfg, e, ev);
    SameHistoryEntersNothing(e, Step(cfg, e, ev), id, s);
  }

  /** A task enters a state exactly by an event that brings it. */
  lemma StepBringsIff(cfg: Config, e: Engine, ev: Event, id: TaskId, s: State)
    requires Inv(cfg, e) && Enabled(e, ev) && Fresh(e, ev)
    ensures Enters(e, Step(cfg, e, ev), id, s) <==> Brings(cfg, e, ev, id, s)
  {
    if Subject(e, ev) != Some(id) {
      OthersEnterNothing(cfg, e, ev, id, s);
      OthersBringNothing(cfg, e, ev, id, s);
      return;
    }
    match ev
    case PipelineStep(p, reply) => PipelineBringsIff(cfg, e, p, reply, id, s);
    case CancelResumes(w) => ResumeBringsIff(cfg, e, w, s);
    case Start(_, _) => StartBringsIff(cfg, e, ev, s);
    case StreamStart(_, _) => StartBringsIff(cfg, e, ev, s);
    case _ => KnownCommandBringsIff(cfg, e, ev, s);
  }

  lemma UnknownBringsNothing(cfg: Config, e: Engine, ev: Event, s: State)
    requires (ev.Cancel? || ev.Complete? || ev.Continue?) && ev.id !in e.tasks
    ensures !Brings(cfg, e, ev, ev.id, s)
  {
  }

  lemma KnownCommandBringsIff(cfg: Config, e: Engine, ev: Event, s: State)
    requires Inv(cfg, e) && (ev.Cancel? || ev.Complete? || ev.Continue?)
    ensures Enters(e, Step(cfg, e, ev), ev.id, s) <==> Brings(cfg, e, ev, ev.id, s)
  {
    if ev.id !in e.tasks {
      SameHistoryEntersNothing(e, Step(cfg, e, ev), ev.id, s);
      UnknownBringsNothing(cfg, e, ev, s);
    } else {
      match ev
      case Cancel(id, c) => CancelBringsIff(cfg, e, id, c, s);
      case Complete(id, c) => CompleteBringsIff(cfg, e, id, c, s);
      case Continue(id, c) => ContinueBringsIff(cfg, e, id, c, s);
    }
  }

  // ---------------------------------------------------------------- histories over a run

  /** The state the event brings, if any. */
  ghost function Brought(cfg: Config, e: Engine, ev: Event, id: TaskId): seq<State> {
    if exists s :: Brings(cfg, e, ev, id, s) then var s :| Brings(cfg, e, ev, id, s); [s] else []
  }

  ghost function BroughtIn(cfg: Config, e: Engine, evs: seq<Event>, id: TaskId): seq<State>
    requires Run(cfg, e, evs)
    decreases |evs|
  {
    if evs == [] then [] else Brought(cfg, e, evs[0], id) + BroughtIn(cfg, Step(cfg, e, evs[0]), evs[1..], id)
  }

  lemma StepAddsBrought(cfg: Config, e: Engine, ev: Event, id: TaskId)
    requires Inv(cfg, e) && Enabled(e, ev) && Fresh(e, ev)
    ensures HistoryNow(Step(cfg, e, ev), id) == HistoryNow(e, id) + Brought(cfg, e, ev, id)
  {
    var e' := Step(cfg, e, ev);
    if s :| Brings(cfg, e, ev, id, s) {
      StepBringsIff(cfg, e, ev, id, s);
      var t := Brought(cfg, e, ev, id)[0];
      StepBringsIff(cfg, e, ev, id, t);
    } else if id in e.tasks {
      StepRecords(cfg, e, ev, id);
      StepBringsIff(cfg, e, ev, id, e'.tasks[id].state);
    } else if id in e'.tasks {
      NewTasksAreAdmitted(cfg, e, ev, id);
      StepBringsIff(cfg, e, ev, id, Accepted);
    }
  }

  lemma AppendStates(a: seq<State>, b: seq<State>, c: seq<State>)
    ensures (a + b) + c == a + (b + c)
  {
  }

  /** A task's history is the sequence of states that the events of the run brought it. */
  lemma {:induction false} HistoryIsBrought(cfg: Config, e: Engine, evs: seq<Event>, id: TaskId)
    requires Inv(cfg, e) && Run(cfg, e, evs)
    ensures HistoryNow(After(cfg, e, evs), id) == HistoryNow(e, id) + BroughtIn(cfg, e, evs, id)
    decreases |evs|
  {
    if evs != [] {
      var e' := Step(cfg, e, evs[0]);
      StepKeepsInv(cfg, e, evs[0]);
      StepAddsBrought(cfg, e, evs[0], id);
      HistoryIsBrought(cfg, e', evs[1..], id);
      AppendStates(HistoryNow(e, id), Brought(cfg, e, evs[0], id), BroughtIn(cfg, e', evs[1..], id));
    }
  }
}
