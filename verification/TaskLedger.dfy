/** A task's commands and requirements as functions of what happened to it. */
module TaskLedger {
  import opened Basics
  import opened Requirements
  import opened Analysis
  import opened TaskEngine
  import opened TaskDelivery

  // ---------------------------------------------------------------- commands

  /** The command an event carries for task `id`. */
  function CommandIn(ev: Event, id: TaskId): seq<Command> {
    match ev
    case Start(i, c) => if i == id then [c] else []
    case StreamStart(i, c) => if i == id then [c] else []
    case Cancel(i, c) => if i == id then [c] else []
    case Complete(i, c) => if i == id then [c] else []
    case Continue(i, c) => if i == id then [c] else []
    case _ => []
  }

  /** The command an event adds to the history of task `id`, unless the task is unknown. */
  function Heard(e: Engine, ev: Event, id: TaskId): seq<Command> {
    if id in e.tasks || ev.Start? || ev.StreamStart? then CommandIn(ev, id) else []
  }

  function CommandsNow(e: Engine, id: TaskId): seq<Command> {
    if id in e.tasks then e.tasks[id].commands else []
  }

  lemma AdvanceKeepsCommands(cfg: Config, e: Engine, p: nat, reply: Reply, id: TaskId)
    requires Enabled(e, PipelineStep(p, reply))
    ensures CommandsNow(Advance(cfg, e, p, reply), id) == CommandsNow(e, id)
  {
    if e.pipelines[p].task != id {
      AdvanceTouches(cfg, e, p, reply);
    } else if e.pipelines[p].at == AwaitAnalysis && !e.pipelines[p].cancelled && reply.Analysed? {
      var held := Absorb(cfg.agent, e.tasks[id].requirements, reply.analysis.update);
      ProduceKeepsCommands(cfg, Hold(e, id, ProductionRequirements(cfg.agent, held)), p, reply.production);
    }
  }

  lemma ProduceKeepsCommands(cfg: Config, e: Engine, p: nat, production: Production)
    requires p in e.pipelines && e.pipelines[p].task in e.tasks
    ensures CommandsNow(Produce(cfg, e, p, production), e.pipelines[p].task)
         == e.tasks[e.pipelines[p].task].commands
  {
  }

  lemma HandlersAddCommand(cfg: Config, e: Engine, id: TaskId, c: Command)
    ensures CommandsNow(OnStart(cfg, e, id, c), id) == CommandsNow(e, id) + [c]
    ensures id in e.tasks ==>
      && CommandsNow(OnCancel(cfg, e, id, c), id) == CommandsNow(e, id) + [c]
      && CommandsNow(OnComplete(cfg, e, id, c), id) == CommandsNow(e, id) + [c]
      && CommandsNow(OnContinue(cfg, e, id, c), id) == CommandsNow(e, id) + [c]
  {
  }

  /** Commands for a task nobody started are dropped; all others are added. */
  lemma StepAddsCommand(cfg: Config, e: Engine, ev: Event, id: TaskId)
    requires Enabled(e, ev) && Fresh(e, ev)
    ensures CommandsNow(Step(cfg, e, ev), id) == CommandsNow(e, id) + Heard(e, ev, id)
  {
    match ev
    case PipelineStep(p, reply) => AdvanceKeepsCommands(cfg, e, p, reply, id);
    case CancelResumes(_) =>
    case ListenerRuns(_) =>
    case Get(_) =>
    case _ =>
      StepTouchesSubject(cfg, e, ev);
      if ev.id == id {
        HandlersAddCommand(cfg, e, id, ev.command);
      }
  }

  function CommandsIn(cfg: Config, e: Engine, evs: seq<Event>, id: TaskId): seq<Command>
    requires Run(cfg, e, evs)
    decreases |evs|
  {
    if evs == [] then [] else Heard(e, evs[0], id) + CommandsIn(cfg, Step(cfg, e, evs[0]), evs[1..], id)
  }

  lemma AppendTwice<T>(a: seq<T>, b: seq<T>, c: seq<T>)
    ensures (a + b) + c == a + (b + c)
  {
  }

  /** The command history of a task is the sequence of commands for it since it was started. */
  lemma {:induction false} CommandHistoryIsComplete(cfg: Config, e: Engine, evs: seq<Event>, id: TaskId)
    requires Run(cfg, e, evs)
    ensures CommandsNow(After(cfg, e, evs), id) == CommandsNow(e, id) + CommandsIn(cfg, e, evs, id)
    decreases |evs|
  {
    if evs != [] {
      StepAddsCommand(cfg, e, evs[0], id);
      CommandHistoryIsComplete(cfg, Step(cfg, e, evs[0]), evs[1..], id);
      AppendTwice(CommandsNow(e, id), Heard(e, evs[0], id), CommandsIn(cfg, Step(cfg, e, evs[0]), evs[1..], id));
    }
  }

  // ---------------------------------------------------------------- requirements

  function RequirementsNow(e: Engine, id: TaskId): Dict {
    if id in e.tasks then e.tasks[id].requirements else map[]
  }

  /** What an analysis stage does to the requirements: a reply is absorbed and, if nothing is missing, production
      normalises them; a stage that breaks off after its reply has only absorbed it. */
  datatype Turn = Answered(reply: AnalysisReply) | BrokenOff(update: Dict)

  function AfterTurn(cfg: AgentConfig, held: Dict, turn: Turn): Dict {
    match turn
    case Answered(reply) =>
      var absorbed := Absorb(cfg, held, reply.update);
      if NeedsInput(cfg, absorbed, reply) then absorbed else ProductionRequirements(cfg, absorbed)
    case BrokenOff(update) => Absorb(cfg, held, update)
  }

  function AfterTurns(cfg: AgentConfig, held: Dict, turns: seq<Turn>): Dict
    decreases |turns|
  {
    if turns == [] then held else AfterTurns(cfg, AfterTurn(cfg, held, turns[0]), turns[1..])
  }

  /** The turn an event brings to task `id`. */
  function TurnIn(e: Engine, ev: Event, id: TaskId): (turns: seq<Turn>)
    requires Enabled(e, ev)
    ensures |turns| <= 1
  {
    if ev.PipelineStep? && e.pipelines[ev.pipeline].task == id
       && e.pipelines[ev.pipeline].at == AwaitAnalysis && !e.pipelines[ev.pipeline].cancelled
    then
      match ev.reply
      case Analysed(analysis, _) => [Answered(analysis)]
      case AnalysedThenFault(update) => [BrokenOff(update)]
      case _ => []
    else []
  }

  lemma ProduceKeepsHeld(cfg: Config, e: Engine, p: nat, production: Production)
    requires p in e.pipelines && e.pipelines[p].task in e.tasks
    ensures RequirementsNow(Produce(cfg, e, p, production), e.pipelines[p].task)
         == e.tasks[e.pipelines[p].task].requirements
  {
  }

  lemma AnalysisTurns(cfg: Config, e: Engine, p: nat, reply: AnalysisReply, production: Production)
    requires p in e.pipelines && e.pipelines[p].task in e.tasks
    ensures RequirementsNow(Analyse(cfg, e, p, reply, production), e.pipelines[p].task)
         == AfterTurn(cfg.agent, e.tasks[e.pipelines[p].task].requirements, Answered(reply))
  {
    var id := e.pipelines[p].task;
    var held := Absorb(cfg.agent, e.tasks[id].requirements, reply.update);
    ProduceKeepsHeld(cfg, Hold(e, id, ProductionRequirements(cfg.agent, held)), p, production);
  }

  lemma AdvanceTurns(cfg: Config, e: Engine, p: nat, reply: Reply)
    requires Enabled(e, PipelineStep(p, reply))
    ensures var id := e.pipelines[p].task;
      var turns := TurnIn(e, PipelineStep(p, reply), id);
      RequirementsNow(Advance(cfg, e, p, reply), id)
      == if turns == [] then e.tasks[id].requirements else AfterTurn(cfg.agent, e.tasks[id].requirements, turns[0])
  {
    if e.pipelines[p].cancelled || e.pipelines[p].at != AwaitAnalysis {
      OtherStagesKeepRequirements(cfg, e, p, reply);
    } else if reply.Analysed? {
      AnalysisTurns(cfg, e, p, reply.analysis, reply.production);
    } else {
      UnansweredAnalysis(cfg, e, p, reply);
    }
  }

  lemma UnansweredAnalysis(cfg: Config, e: Engine, p: nat, reply: Reply)
    requires p in e.pipelines && e.pipelines[p].task in e.tasks && !reply.Analysed?
    requires !e.pipelines[p].cancelled && e.pipelines[p].at == AwaitAnalysis
    ensures var id := e.pipelines[p].task;
      RequirementsNow(Advance(cfg, e, p, reply), id)
      == if reply.AnalysedThenFault? then Absorb(cfg.agent, e.tasks[id].requirements, reply.update)
         else e.tasks[id].requirements
  {
  }

  lemma StepTurns(cfg: Config, e: Engine, ev: Event, id: TaskId)
    requires Enabled(e, ev) && Fresh(e, ev)
    ensures var turns := TurnIn(e, ev, id);
      RequirementsNow(Step(cfg, e, ev), id)
      == if turns == [] then RequirementsNow(e, id) else AfterTurn(cfg.agent, RequirementsNow(e, id), turns[0])
  {
    if ev.PipelineStep? && e.pipelines[ev.pipeline].task == id {
      AdvanceTurns(cfg, e, ev.pipeline, ev.reply);
    } else {
      OthersKeepRequirements(cfg, e, ev, id);
    }
  }

  lemma OthersKeepRequirements(cfg: Config, e: Engine, ev: Event, id: TaskId)
    requires Enabled(e, ev) && Fresh(e, ev) && !(ev.PipelineStep? && e.pipelines[ev.pipeline].task == id)
    ensures RequirementsNow(Step(cfg, e, ev), id) == RequirementsNow(e, id)
  {
    if Subject(e, ev) == Some(id) {
      SubjectKeepsRequirements(cfg, e, ev, id);
    } else {
      StepTouchesSubject(cfg, e, ev);
    }
  }

  lemma SubjectKeepsRequirements(cfg: Config, e: Engine, ev: Event, id: TaskId)
    requires Enabled(e, ev) && Fresh(e, ev) && !ev.PipelineStep? && Subject(e, ev) == Some(id)
    ensures RequirementsNow(Step(cfg, e, ev), id) == RequirementsNow(e, id)
  {
    if id in e.tasks {
      match ev
      case Cancel(_, c) => HandlersKeepRequirements(cfg, e, id, c);
      case Complete(_, c) => HandlersKeepRequirements(cfg, e, id, c);
      case Continue(_, c) => HandlersKeepRequirements(cfg, e, id, c);
      case _ =>
    }
  }

  lemma HandlersKeepRequirements(cfg: Config, e: Engine, id: TaskId, c: Command)
    requires id in e.tasks
    ensures RequirementsNow(OnCancel(cfg, e, id, c), id) == RequirementsNow(e, id)
    ensures RequirementsNow(OnComplete(cfg, e, id, c), id) == RequirementsNow(e, id)
    ensures RequirementsNow(OnContinue(cfg, e, id, c), id) == RequirementsNow(e, id)
  {
  }

  function TurnsIn(cfg: Config, e: Engine, evs: seq<Event>, id: TaskId): seq<Turn>
    requires Run(cfg, e, evs)
    decreases |evs|
  {
    if evs == [] then [] else TurnIn(e, evs[0], id) + TurnsIn(cfg, Step(cfg, e, evs[0]), evs[1..], id)
  }

  lemma FirstTurn(cfg: AgentConfig, held: Dict, first: seq<Turn>, rest: seq<Turn>)
    requires |first| <= 1
    ensures AfterTurns(cfg, held, first + rest)
         == AfterTurns(cfg, if first == [] then held else AfterTurn(cfg, held, first[0]), rest)
  {
    if first == [] {
      assert first + rest == rest;
    } else {
      assert (first + rest)[0] == first[0] && (first + rest)[1..] == rest;
    }
  }

  /** A task's requirements are what the analysis turns it went through make of them, in order; nothing else of a
      run contributes. */
  lemma {:induction false} RequirementsAreTheDialogue(cfg: Config, e: Engine, evs: seq<Event>, id: TaskId)
    requires Run(cfg, e, evs)
    ensures RequirementsNow(After(cfg, e, evs), id)
         == AfterTurns(cfg.agent, RequirementsNow(e, id), TurnsIn(cfg, e, evs, id))
    decreases |evs|
  {
    if evs != [] {
      StepTurns(cfg, e, evs[0], id);
      RequirementsAreTheDialogue(cfg, Step(cfg, e, evs[0]), evs[1..], id);
      FirstTurn(cfg.agent, RequirementsNow(e, id), TurnIn(e, evs[0], id),
        TurnsIn(cfg, Step(cfg, e, evs[0]), evs[1..], id));
    }
  }

  function UpdateOf(turn: Turn): Dict {
    match turn
    case Answered(reply) => reply.update
    case BrokenOff(update) => update
  }

  function UpdatesOf(turns: seq<Turn>): (updates: seq<Dict>)
    ensures |updates| == |turns|
  {
    if turns == [] then [] else [UpdateOf(turns[0])] + UpdatesOf(turns[1..])
  }

  /** In a settled configuration production contributes nothing either: the replies are simply absorbed. */
  lemma {:induction false} SettledTurnsAreAbsorbed(cfg: AgentConfig, held: Dict, turns: seq<Turn>)
    requires Settled(cfg)
    ensures AfterTurns(cfg, held, turns) == AbsorbAll(cfg, held, UpdatesOf(turns))
    decreases |turns|
  {
    if turns != [] {
      ProductionRunsWhatAnalysisValidated(cfg, held, UpdateOf(turns[0]));
      SettledTurnsAreAbsorbed(cfg, AfterTurn(cfg, held, turns[0]), turns[1..]);
      assert UpdatesOf(turns)[1..] == UpdatesOf(turns[1..]);
    }
  }
}
