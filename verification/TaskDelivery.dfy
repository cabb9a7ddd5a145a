/** How a task gets to production and delivers, and that nothing the Leader answered is lost on the way. */
module TaskDelivery {
  import opened Basics
  import opened Requirements
  import opened Analysis
  import opened TaskEngine
  import opened TaskSafety
  import opened TaskRuns
  import opened TaskAdmission

  // ---------------------------------------------------------------- deliveries

  predicate InProduction(e: Engine, c: Context) {
    c.future.Some? && c.future.value in e.pipelines && e.pipelines[c.future.value].at == AwaitProduction
  }

  /** A task in production holds requirements that pass `valid`; a delivered one moreover has one product. */
  predicate DeliveryOk(valid: Dict -> bool, e: Engine, id: TaskId)
    requires id in e.tasks
  {
    var c := e.tasks[id];
    && (InProduction(e, c) ==> valid(c.requirements))
    && (c.state in {AwaitingCompletion, Completed} ==> |c.products| == 1 && valid(c.requirements))
  }

  lemma OthersKeepDelivery(cfg: Config, valid: Dict -> bool, e: Engine, ev: Event, id: TaskId)
    requires Inv(cfg, e) && Enabled(e, ev) && id in e.tasks && DeliveryOk(valid, e, id) && Subject(e, ev) != Some(id)
    ensures id in Step(cfg, e, ev).tasks && DeliveryOk(valid, Step(cfg, e, ev), id)
  {
    StepTouchesSubject(cfg, e, ev);
    assert TaskOk(e, id);
    if e.tasks[id].future.Some? {
      assert PipelineOk(e, e.tasks[id].future.value);
    }
  }

  lemma EndsWithoutDelivery(cfg: Config, valid: Dict -> bool, e: Engine, p: nat, s: State)
    requires p in e.pipelines && e.pipelines[p].task in e.tasks && e.tasks[e.pipelines[p].task].future == Some(p)
    requires s !in {AwaitingCompletion, Completed}
    ensures DeliveryOk(valid, EndWith(cfg, e, p, s), e.pipelines[p].task)
  {
  }

  lemma ProduceDelivers(cfg: Config, valid: Dict -> bool, e: Engine, p: nat, production: Production)
    requires p in e.pipelines && e.pipelines[p].task in e.tasks && e.tasks[e.pipelines[p].task].future == Some(p)
    requires e.tasks[e.pipelines[p].task].state == Working && valid(e.tasks[e.pipelines[p].task].requirements)
    ensures DeliveryOk(valid, Produce(cfg, e, p, production), e.pipelines[p].task)
  {
  }

  /** The event resumes the task's analysis. */
  predicate InAnalysis(e: Engine, ev: Event, id: TaskId)
    requires Enabled(e, ev)
  {
    && ev.PipelineStep? && e.pipelines[ev.pipeline].task == id
    && e.pipelines[ev.pipeline].at == AwaitAnalysis && !e.pipelines[ev.pipeline].cancelled
  }

  /** It does so with a reply. */
  predicate Answers(e: Engine, ev: Event, id: TaskId)
    requires Enabled(e, ev)
  {
    InAnalysis(e, ev, id) && ev.reply.Analysed?
  }

  /** What the reply lets through to production passes `valid`. */
  predicate Guards(cfg: Config, valid: Dict -> bool, held: Dict, reply: AnalysisReply) {
    var absorbed := Absorb(cfg.agent, held, reply.update);
    !NeedsInput(cfg.agent, absorbed, reply) ==> valid(ProductionRequirements(cfg.agent, absorbed))
  }

  lemma AnalysisStepDelivers(cfg: Config, valid: Dict -> bool, e: Engine, p: nat, reply: Reply)
    requires p in e.pipelines && e.pipelines[p].task in e.tasks && e.tasks[e.pipelines[p].task].future == Some(p)
    requires e.tasks[e.pipelines[p].task].state == Working
    requires e.pipelines[p].at == AwaitAnalysis && !e.pipelines[p].cancelled
    requires reply.Analysed? ==> Guards(cfg, valid, e.tasks[e.pipelines[p].task].requirements, reply.analysis)
    ensures DeliveryOk(valid, Advance(cfg, e, p, reply), e.pipelines[p].task)
  {
    var id := e.pipelines[p].task;
    match reply
    case Analysed(a, production) =>
      var held := Absorb(cfg.agent, e.tasks[id].requirements, a.update);
      if NeedsInput(cfg.agent, held, a) {
        EndsWithoutDelivery(cfg, valid, Hold(e, id, held), p, AwaitingInput);
      } else {
        ProduceDelivers(cfg, valid, Hold(e, id, ProductionRequirements(cfg.agent, held)), p, production);
      }
    case AnalysedThenFault(update) =>
      EndsWithoutDelivery(cfg, valid, Hold(e, id, Absorb(cfg.agent, e.tasks[id].requirements, update)), p, Failed);
    case _ => EndsWithoutDelivery(cfg, valid, e, p, Failed);
  }

  lemma PipelineKeepsDelivery(cfg: Config, valid: Dict -> bool, e: Engine, p: nat, reply: Reply)
    requires Inv(cfg, e) && Enabled(e, PipelineStep(p, reply)) && DeliveryOk(valid, e, e.pipelines[p].task)
    requires Answers(e, PipelineStep(p, reply), e.pipelines[p].task) ==>
      Guards(cfg, valid, e.tasks[e.pipelines[p].task].requirements, reply.analysis)
    ensures e.pipelines[p].task in Advance(cfg, e, p, reply).tasks
    ensures DeliveryOk(valid, Advance(cfg, e, p, reply), e.pipelines[p].task)
  {
    assert PipelineOk(e, p);
    AdvanceTouches(cfg, e, p, reply);
    if e.pipelines[p].cancelled {
      return;
    }
    match e.pipelines[p].at
    case AwaitAnalysis => AnalysisStepDelivers(cfg, valid, e, p, reply);
    case AwaitProduction =>
      if reply.Output? { ProduceDelivers(cfg, valid, e, p, Produces(reply.text)); }
      else if !reply.MoreToDo? { EndsWithoutDelivery(cfg, valid, e, p, Failed); }
    case _ =>
  }

  lemma CancelKeepsDelivery(cfg: Config, valid: Dict -> bool, e: Engine, id: TaskId, c: Command)
    requires id in e.tasks && DeliveryOk(valid, e, id)
    ensures id in OnCancel(cfg, e, id, c).tasks && DeliveryOk(valid, OnCancel(cfg, e, id, c), id)
  {
  }

  lemma ResumeKeepsDelivery(cfg: Config, valid: Dict -> bool, e: Engine, w: nat)
    requires w in e.waiters && e.waiters[w].task in e.tasks && DeliveryOk(valid, e, e.waiters[w].task)
    ensures e.waiters[w].task in ResumeCancel(cfg, e, w).tasks
    ensures DeliveryOk(valid, ResumeCancel(cfg, e, w), e.waiters[w].task)
  {
  }

  lemma CommandKeepsDelivery(cfg: Config, valid: Dict -> bool, e: Engine, ev: Event, id: TaskId)
    requires Enabled(e, ev) && Fresh(e, ev) && Subject(e, ev) == Some(id) && !ev.PipelineStep?
    requires id in e.tasks ==> DeliveryOk(valid, e, id)
    ensures id in Step(cfg, e, ev).tasks ==> DeliveryOk(valid, Step(cfg, e, ev), id)
  {
    match ev
    case Cancel(_, c) => if id in e.tasks { CancelKeepsDelivery(cfg, valid, e, id, c); }
    case CancelResumes(w) => ResumeKeepsDelivery(cfg, valid, e, w);
    case _ =>
  }

  /** A step keeps `DeliveryOk` as long as the replies it brings are guarded. */
  lemma StepKeepsDelivery(cfg: Config, valid: Dict -> bool, e: Engine, ev: Event, id: TaskId)
    requires Inv(cfg, e) && Enabled(e, ev) && Fresh(e, ev) && (id in e.tasks ==> DeliveryOk(valid, e, id))
    requires Answers(e, ev, id) ==> Guards(cfg, valid, e.tasks[id].requirements, ev.reply.analysis)
    ensures id in Step(cfg, e, ev).tasks ==> DeliveryOk(valid, Step(cfg, e, ev), id)
  {
    StepTouchesSubject(cfg, e, ev);
    if Subject(e, ev) != Some(id) {
      if id in e.tasks { OthersKeepDelivery(cfg, valid, e, ev, id); }
    } else if ev.PipelineStep? {
      PipelineKeepsDelivery(cfg, valid, e, ev.pipeline, ev.reply);
    } else {
      CommandKeepsDelivery(cfg, valid, e, ev, id);
    }
  }

  /** A task in analysis is neither in production nor delivered. */
  lemma NotYetDelivered(cfg: Config, valid: Dict -> bool, e: Engine, ev: Event, id: TaskId)
    requires Inv(cfg, e) && Enabled(e, ev) && InAnalysis(e, ev, id)
    ensures id in e.tasks && DeliveryOk(valid, e, id)
  {
    assert PipelineOk(e, ev.pipeline);
  }

  predicate Delivered(e: Engine, id: TaskId) {
    id in e.tasks && e.tasks[id].state in {AwaitingCompletion, Completed}
  }

  // ---------------------------------------------------------------- slots survive the dialogue

  /** The event carries no analysis reply whose `global` is present without being an object. */
  predicate Harmless(ev: Event) {
    ev.PipelineStep? ==>
      && (ev.reply.Analysed? ==> KeepsGlobal(ev.reply.analysis.update))
      && (ev.reply.AnalysedThenFault? ==> KeepsGlobal(ev.reply.update))
  }

  lemma AbsorbKeepsSlot(cfg: AgentConfig, held: Dict, update: Dict, k: string)
    requires NonNull(HeldSlots(held), k) && KeepsGlobal(update)
    ensures NonNull(HeldSlots(Absorb(cfg, held, update)), k)
    ensures NonNull(HeldSlots(ProductionRequirements(cfg, Absorb(cfg, held, update))), k)
  {
    SlotSurvivesIff(cfg, held, update, k);
    var h := Absorb(cfg, held, update);
    NormalizeSlotsKeepsNonNull(cfg, HeldSlots(h), k);
  }

  lemma ProduceKeepsRequirements(cfg: Config, e: Engine, p: nat, production: Production)
    requires p in e.pipelines && e.pipelines[p].task in e.tasks
    ensures Produce(cfg, e, p, production).tasks[e.pipelines[p].task].requirements
         == e.tasks[e.pipelines[p].task].requirements
  {
  }

  lemma OtherStagesKeepRequirements(cfg: Config, e: Engine, p: nat, reply: Reply)
    requires p in e.pipelines && e.pipelines[p].task in e.tasks
    requires e.pipelines[p].cancelled || e.pipelines[p].at != AwaitAnalysis
    ensures var id := e.pipelines[p].task;
      && id in Advance(cfg, e, p, reply).tasks
      && Advance(cfg, e, p, reply).tasks[id].requirements == e.tasks[id].requirements
  {
    if !e.pipelines[p].cancelled && e.pipelines[p].at == AwaitProduction {
      ProductionKeepsRequirements(cfg, e, p, reply);
    }
  }

  lemma ProductionKeepsRequirements(cfg: Config, e: Engine, p: nat, reply: Reply)
    requires p in e.pipelines && e.pipelines[p].task in e.tasks
    requires !e.pipelines[p].cancelled && e.pipelines[p].at == AwaitProduction
    ensures var id := e.pipelines[p].task;
      && id in Advance(cfg, e, p, reply).tasks
      && Advance(cfg, e, p, reply).tasks[id].requirements == e.tasks[id].requirements
  {
  }

  /** A property of requirements that absorbing a reply keeps is kept by a pipeline step. */
  lemma PipelineKeepsHeld(cfg: Config, good: Dict -> bool, e: Engine, p: nat, reply: Reply)
    requires p in e.pipelines && e.pipelines[p].task in e.tasks && good(e.tasks[e.pipelines[p].task].requirements)
    requires var before := e.tasks[e.pipelines[p].task].requirements;
      && (reply.Analysed? ==>
            && good(Absorb(cfg.agent, before, reply.analysis.update))
            && good(ProductionRequirements(cfg.agent, Absorb(cfg.agent, before, reply.analysis.update))))
      && (reply.AnalysedThenFault? ==> good(Absorb(cfg.agent, before, reply.update)))
    ensures e.pipelines[p].task in Advance(cfg, e, p, reply).tasks
    ensures good(Advance(cfg, e, p, reply).tasks[e.pipelines[p].task].requirements)
  {
    if e.pipelines[p].cancelled || e.pipelines[p].at != AwaitAnalysis {
      OtherStagesKeepRequirements(cfg, e, p, reply);
    } else if reply.Analysed? {
      var id := e.pipelines[p].task;
      var held := Absorb(cfg.agent, e.tasks[id].requirements, reply.analysis.update);
      ProduceKeepsRequirements(cfg, Hold(e, id, ProductionRequirements(cfg.agent, held)), p, reply.production);
    }
  }

  lemma PipelineKeepsSlot(cfg: Config, e: Engine, p: nat, reply: Reply, k: string)
    requires p in e.pipelines && e.pipelines[p].task in e.tasks && Harmless(PipelineStep(p, reply))
    requires NonNull(HeldSlots(e.tasks[e.pipelines[p].task].requirements), k)
    ensures e.pipelines[p].task in Advance(cfg, e, p, reply).tasks
    ensures NonNull(HeldSlots(Advance(cfg, e, p, reply).tasks[e.pipelines[p].task].requirements), k)
  {
    var before := e.tasks[e.pipelines[p].task].requirements;
    if reply.Analysed? {
      AbsorbKeepsSlot(cfg.agent, before, reply.analysis.update, k);
    } else if reply.AnalysedThenFault? {
      AbsorbKeepsSlot(cfg.agent, before, reply.update, k);
    }
    PipelineKeepsHeld(cfg, (d: Dict) => NonNull(HeldSlots(d), k), e, p, reply);
  }

  lemma StepKeepsSlot(cfg: Config, e: Engine, ev: Event, id: TaskId, k: string)
    requires Enabled(e, ev) && Fresh(e, ev) && Harmless(ev)
    requires id in e.tasks && NonNull(HeldSlots(e.tasks[id].requirements), k)
    ensures id in Step(cfg, e, ev).tasks && NonNull(HeldSlots(Step(cfg, e, ev).tasks[id].requirements), k)
  {
    StepTouchesSubject(cfg, e, ev);
    if ev.PipelineStep? && e.pipelines[ev.pipeline].task == id {
      PipelineKeepsSlot(cfg, e, ev.pipeline, ev.reply, k);
    }
  }

  /** Over any run, a slot a task has been given stays given, as long as no analysis reply replaces `global`
      by something that is not an object. */
  lemma {:induction false} AnsweredSlotsStayAnswered(cfg: Config, e: Engine, evs: seq<Event>, id: TaskId, k: string)
    requires Run(cfg, e, evs) && forall ev :: ev in evs ==> Harmless(ev)
    requires id in e.tasks && NonNull(HeldSlots(e.tasks[id].requirements), k)
    ensures id in After(cfg, e, evs).tasks && NonNull(HeldSlots(After(cfg, e, evs).tasks[id].requirements), k)
    decreases |evs|
  {
    if evs != [] {
      StepKeepsSlot(cfg, e, evs[0], id, k);
      AnsweredSlotsStayAnswered(cfg, Step(cfg, e, evs[0]), evs[1..], id, k);
    }
  }
}
