/** What comes of a decision, an output, a Cancel, a Complete and a Continue, over whole runs. */
module TaskAnswers {
  import opened Basics
  import opened PyText
  import opened TaskEngine
  import opened TaskSafety
  import opened TaskRuns
  import opened TaskBounds
  import opened TaskCauses

  // ---------------------------------------------------------------- where a resumed pipeline goes

  /** A pipeline that is not cancelled gets to `at` when it is resumed. */
  predicate Reaches(cfg: Config, e: Engine, ev: Event, id: TaskId, at: Point) {
    match at
    case NotStarted(_) => false
    case AwaitDecision => ResumesAt(e, ev, id, NotStarted(DecisionStage))
    case AwaitAudit(rejects) => ResumesAt(e, ev, id, AwaitDecision) && ev.reply == Verdict(rejects)
    case AwaitAnalysis => ResumesAt(e, ev, id, NotStarted(AnalysisStage)) || ResumesAt(e, ev, id, AwaitAudit(false))
    case AwaitProduction =>
      || (Replies(cfg, e, ev, id, false) && ev.reply.production.Suspends?)
      || (ResumesAt(e, ev, id, AwaitProduction) && ev.reply.MoreToDo?)
    case Finished =>
      && Resumes(e, ev, id)
      && (BreaksOff(cfg, e, ev, id) || TextFrom(cfg, e, ev, id).Some? || Replies(cfg, e, ev, id, true)
          || (ResumesAt(e, ev, id, AwaitAudit(true)) && !ev.reply.Fault?))
  }

  /** The point to which a pipeline gets that is at analysis. */
  function AfterAnalysis(cfg: Config, e: Engine, p: nat, reply: Reply): Point
    requires Enabled(e, PipelineStep(p, reply))
  {
    if Replies(cfg, e, PipelineStep(p, reply), e.pipelines[p].task, false) && reply.production.Suspends? then AwaitProduction
    else Finished
  }

  lemma AnalysisReaches(cfg: Config, e: Engine, p: nat, reply: Reply, at: Point)
    requires Enabled(e, PipelineStep(p, reply)) && !e.pipelines[p].cancelled && e.pipelines[p].at == AwaitAnalysis
    ensures Reaches(cfg, e, PipelineStep(p, reply), e.pipelines[p].task, at) <==> at == AfterAnalysis(cfg, e, p, reply)
  {
  }

  lemma OtherReaches(cfg: Config, e: Engine, p: nat, reply: Reply, at: Point)
    requires Enabled(e, PipelineStep(p, reply)) && !e.pipelines[p].cancelled && e.pipelines[p].at != AwaitAnalysis
    ensures Reaches(cfg, e, PipelineStep(p, reply), e.pipelines[p].task, at) <==>
      at == match e.pipelines[p].at
        case NotStarted(stage) => if stage == DecisionStage then AwaitDecision else AwaitAnalysis
        case AwaitDecision => if reply.Verdict? then AwaitAudit(reply.rejects) else Finished
        case AwaitAudit(rejects) => if rejects then Finished else AwaitAnalysis
        case AwaitProduction => if reply.MoreToDo? then AwaitProduction else Finished
        case _ => at
  {
  }

  lemma AnalysisMoves(cfg: Config, e: Engine, p: nat, reply: Reply)
    requires Enabled(e, PipelineStep(p, reply)) && !e.pipelines[p].cancelled && e.pipelines[p].at == AwaitAnalysis
    ensures MovesOnly(e, Advance(cfg, e, p, reply), p)
    ensures Advance(cfg, e, p, reply).pipelines[p].at == AfterAnalysis(cfg, e, p, reply)
  {
    var id := e.pipelines[p].task;
    match reply
    case Analysed(analysis, production) => AnalyseMovesOnly(cfg, e, p, analysis, production);
    case AnalysedThenFault(update) =>
      EndMovesOnly(cfg, Hold(e, id, Analysis.Absorb(cfg.agent, e.tasks[id].requirements, update)), p, Failed);
    case _ => EndMovesOnly(cfg, e, p, Failed);
  }

  lemma OtherMoves(cfg: Config, e: Engine, p: nat, reply: Reply)
    requires Enabled(e, PipelineStep(p, reply)) && !e.pipelines[p].cancelled && e.pipelines[p].at != AwaitAnalysis
    ensures MovesOnly(e, Advance(cfg, e, p, reply), p)
    ensures Advance(cfg, e, p, reply).pipelines[p].at ==
      match e.pipelines[p].at
      case NotStarted(stage) => if stage == DecisionStage then AwaitDecision else AwaitAnalysis
      case AwaitDecision => if reply.Verdict? then AwaitAudit(reply.rejects) else Finished
      case AwaitAudit(rejects) => if rejects then Finished else AwaitAnalysis
      case AwaitProduction => if reply.MoreToDo? then AwaitProduction else Finished
      case _ => Finished
  {
    match e.pipelines[p].at
    case AwaitDecision => EndMovesOnly(cfg, e, p, Failed);
    case AwaitAudit(rejects) => EndMovesOnly(cfg, e, p, if reply.Fault? then Failed else Rejected);
    case AwaitProduction =>
      EndMovesOnly(cfg, e, p, Failed);
      if reply.Output? { ProduceMovesOnly(cfg, e, p, Produces(reply.text)); }
    case NotStarted(_) =>
  }

  lemma AdvanceMovesOnly(cfg: Config, e: Engine, q: nat, reply: Reply)
    requires Enabled(e, PipelineStep(q, reply))
    ensures MovesOnly(e, Advance(cfg, e, q, reply), q)
  {
    if !e.pipelines[q].cancelled {
      if e.pipelines[q].at == AwaitAnalysis { AnalysisMoves(cfg, e, q, reply); } else { OtherMoves(cfg, e, q, reply); }
    }
  }

  /** Pipeline `q` may have moved, and no other. */
  predicate MovesOnly(e: Engine, r: Engine, q: nat)
    requires q in e.pipelines
  {
    && r.pipelines.Keys == e.pipelines.Keys
    && r.pipelines[q] == e.pipelines[q].(at := r.pipelines[q].at)
    && forall p :: p in e.pipelines && p != q ==> r.pipelines[p] == e.pipelines[p]
  }

  lemma AnalyseMovesOnly(cfg: Config, e: Engine, q: nat, reply: Analysis.AnalysisReply, production: Production)
    requires q in e.pipelines && e.pipelines[q].task in e.tasks
    ensures MovesOnly(e, Analyse(cfg, e, q, reply, production), q)
    ensures Analyse(cfg, e, q, reply, production).pipelines[q].at
         == if !AsksBack(cfg.agent, Analysis.Absorb(cfg.agent, e.tasks[e.pipelines[q].task].requirements, reply.update), reply)
               && production.Suspends? then AwaitProduction else Finished
  {
    var id := e.pipelines[q].task;
    var held := Analysis.Absorb(cfg.agent, e.tasks[id].requirements, reply.update);
    AsksBackIff(cfg.agent, held, reply);
    if Analysis.NeedsInput(cfg.agent, held, reply) {
      EndMovesOnly(cfg, Hold(e, id, held), q, AwaitingInput);
    } else {
      ProduceMovesOnly(cfg, Hold(e, id, Analysis.ProductionRequirements(cfg.agent, held)), q, production);
    }
  }

  lemma EndMovesOnly(cfg: Config, e: Engine, q: nat, s: State)
    requires q in e.pipelines && e.pipelines[q].task in e.tasks
    ensures MovesOnly(e, EndWith(cfg, e, q, s), q) && EndWith(cfg, e, q, s).pipelines[q].at == Finished
  {
  }

  lemma ProduceMovesOnly(cfg: Config, e: Engine, q: nat, production: Production)
    requires q in e.pipelines && e.pipelines[q].task in e.tasks
    ensures MovesOnly(e, Produce(cfg, e, q, production), q)
    ensures Produce(cfg, e, q, production).pipelines[q].at == if production.Suspends? then AwaitProduction else Finished
  {
  }

  /** A resumed pipeline gets to a point exactly as `Reaches` says; one that was asked to cancel is finished and
      changes no task. */
  lemma PipelineReachesIff(cfg: Config, e: Engine, p: nat, reply: Reply, at: Point)
    requires Enabled(e, PipelineStep(p, reply))
    ensures var r := Step(cfg, e, PipelineStep(p, reply));
      && p in r.pipelines
      && if e.pipelines[p].cancelled then
           && r.pipelines[p] == e.pipelines[p].(at := Finished)
           && r.tasks == e.tasks && r.audits == e.audits && r.notices == e.notices
         else
           r.pipelines[p] == e.pipelines[p].(at := at) <==> Reaches(cfg, e, PipelineStep(p, reply), e.pipelines[p].task, at)
  {
    if !e.pipelines[p].cancelled {
      if e.pipelines[p].at == AwaitAnalysis {
        AnalysisReaches(cfg, e, p, reply, at);
        AnalysisMoves(cfg, e, p, reply);
      } else {
        OtherReaches(cfg, e, p, reply, at);
        OtherMoves(cfg, e, p, reply);
      }
    }
  }

  // ---------------------------------------------------------------- the verdict

  /** The verdict that the event brings to the task. */
  function VerdictIn(e: Engine, ev: Event, id: TaskId): seq<bool> {
    if ResumesAt(e, ev, id, AwaitDecision) && ev.reply.Verdict? then [ev.reply.rejects] else []
  }

  function VerdictsIn(cfg: Config, e: Engine, evs: seq<Event>, id: TaskId): seq<bool>
    requires Run(cfg, e, evs)
    decreases |evs|
  {
    if evs == [] then [] else VerdictIn(e, evs[0], id) + VerdictsIn(cfg, Step(cfg, e, evs[0]), evs[1..], id)
  }

  /** The pipeline has the task's verdict, and the task has none before. */
  predicate HasVerdict(e: Engine, id: TaskId, p: nat, verdicts: seq<bool>)
    requires p in e.pipelines
  {
    var pl := e.pipelines[p];
    pl.task == id && Live(e, p) && !pl.cancelled ==>
      && (pl.at in {NotStarted(DecisionStage), AwaitDecision} ==> verdicts == [])
      && (pl.at.AwaitAudit? ==> verdicts == [pl.at.rejects])
  }

  /** What the verdicts that have reached a task have to do with it. */
  ghost predicate Judged(e: Engine, id: TaskId, verdicts: seq<bool>) {
    && |verdicts| <= 1
    && (|HistoryNow(e, id)| == 0 ==> verdicts == [])
    && (|HistoryNow(e, id)| >= 2 ==>
          && (HistoryNow(e, id)[1] == Rejected ==> verdicts == [true])
          && (HistoryNow(e, id)[1] == Working ==> verdicts == [false]))
    && forall p {:trigger HasVerdict(e, id, p, verdicts)} :: p in e.pipelines ==> HasVerdict(e, id, p, verdicts)
  }

  /** A task that is judged, or leaves Accepted, has no entry but the first. */
  lemma StillAccepted(cfg: Config, e: Engine, ev: Event, id: TaskId)
    requires Inv(cfg, e) && Enabled(e, ev) && Resumes(e, ev, id) && StateAt(e.pipelines[ev.pipeline].at) == Accepted
    ensures id in e.tasks && e.tasks[id].history == [Accepted]
  {
    ResumedTask(cfg, e, ev, id);
    assert TaskOk(e, id);
    PathLength(e.tasks[id].history);
  }

  lemma FirstChange(cfg: Config, e: Engine, ev: Event, id: TaskId, verdicts: seq<bool>)
    requires Inv(cfg, e) && Enabled(e, ev) && Fresh(e, ev) && Judged(e, id, verdicts)
    requires |HistoryNow(e, id)| == 1 && |HistoryNow(Step(cfg, e, ev), id)| >= 2
    ensures var h := HistoryNow(Step(cfg, e, ev), id);
      (h[1] == Rejected ==> verdicts == [true]) && (h[1] == Working ==> verdicts == [false])
  {
    var e' := Step(cfg, e, ev);
    StepRecords(cfg, e, ev, id);
    assert TaskOk(e, id);
    var s := e'.tasks[id].state;
    StepBringsIff(cfg, e, ev, id, s);
    if Resumes(e, ev, id) {
      assert HasVerdict(e, id, ev.pipeline, verdicts);
    }
  }

  lemma StepJudgesHistory(cfg: Config, e: Engine, ev: Event, id: TaskId, verdicts: seq<bool>)
    requires Inv(cfg, e) && Enabled(e, ev) && Fresh(e, ev) && Judged(e, id, verdicts)
    ensures var h, all := HistoryNow(Step(cfg, e, ev), id), verdicts + VerdictIn(e, ev, id);
      && |all| <= 1
      && (|h| == 0 ==> all == [])
      && (|h| >= 2 ==> (h[1] == Rejected ==> all == [true]) && (h[1] == Working ==> all == [false]))
  {
    var h, h' := HistoryNow(e, id), HistoryNow(Step(cfg, e, ev), id);
    var now := VerdictIn(e, ev, id);
    StepAddsBrought(cfg, e, ev, id);
    if now != [] {
      StillAccepted(cfg, e, ev, id);
      assert HasVerdict(e, id, ev.pipeline, verdicts);
      StepRecords(cfg, e, ev, id);
      StepBringsIff(cfg, e, ev, id, Step(cfg, e, ev).tasks[id].state);
    } else {
      assert verdicts + now == verdicts;
      if |h| == 1 && |h'| >= 2 {
        FirstChange(cfg, e, ev, id, verdicts);
      }
    }
  }

  lemma StepKeepsVerdict(cfg: Config, e: Engine, ev: Event, id: TaskId, verdicts: seq<bool>, p: nat)
    requires Inv(cfg, e) && Enabled(e, ev) && Fresh(e, ev) && Judged(e, id, verdicts)
    requires p in Step(cfg, e, ev).pipelines
    ensures HasVerdict(Step(cfg, e, ev), id, p, verdicts + VerdictIn(e, ev, id))
  {
    match ev
    case PipelineStep(q, reply) => PipelineKeepsVerdict(cfg, e, q, reply, id, verdicts, p);
    case _ =>
      CommandPipelines(cfg, e, ev, p);
      assert verdicts + [] == verdicts;
      assert p in e.pipelines ==> HasVerdict(e, id, p, verdicts);
  }

  lemma CancelPipelines(cfg: Config, e: Engine, id: TaskId, c: Command, p: nat)
    requires id in e.tasks && p in OnCancel(cfg, e, id, c).pipelines
    ensures p in e.pipelines && OnCancel(cfg, e, id, c).pipelines[p] in {e.pipelines[p], e.pipelines[p].(cancelled := true)}
  {
  }

  lemma ContinuePipelines(cfg: Config, e: Engine, id: TaskId, c: Command, p: nat)
    requires id in e.tasks && p in OnContinue(cfg, e, id, c).pipelines && (p in e.pipelines ==> p < e.next)
    ensures OnContinue(cfg, e, id, c).pipelines[p]
         == if p in e.pipelines then e.pipelines[p] else Pipeline(id, NotStarted(AnalysisStage), false)
  {
  }

  /** What commands and resuming Cancels do to a pipeline: they may ask it to cancel, or make it. */
  lemma CommandPipelines(cfg: Config, e: Engine, ev: Event, p: nat)
    requires Inv(cfg, e) && Enabled(e, ev) && Fresh(e, ev) && !ev.PipelineStep? && p in Step(cfg, e, ev).pipelines
    ensures var pl := Step(cfg, e, ev).pipelines[p];
      if p in e.pipelines then pl in {e.pipelines[p], e.pipelines[p].(cancelled := true)}
      else if ev.Continue? then pl == Pipeline(ev.id, NotStarted(AnalysisStage), false)
      else (ev.Start? || ev.StreamStart?) && ev.id !in e.tasks && pl == Pipeline(ev.id, NotStarted(DecisionStage), false)
  {
    if p in e.pipelines { assert PipelineOk(e, p); }
    match ev
    case Cancel(id, c) => if id in e.tasks { CancelPipelines(cfg, e, id, c, p); }
    case Continue(id, c) => if id in e.tasks { ContinuePipelines(cfg, e, id, c, p); }
    case _ =>
  }

  lemma PipelineKeepsVerdict(cfg: Config, e: Engine, q: nat, reply: Reply, id: TaskId, verdicts: seq<bool>, p: nat)
    requires Inv(cfg, e) && Enabled(e, PipelineStep(q, reply)) && Judged(e, id, verdicts)
    requires p in Advance(cfg, e, q, reply).pipelines
    ensures HasVerdict(Advance(cfg, e, q, reply), id, p, verdicts + VerdictIn(e, PipelineStep(q, reply), id))
  {
    AdvanceMovesOnly(cfg, e, q, reply);
    assert HasVerdict(e, id, p, verdicts) && PipelineOk(e, p) && PipelineOk(e, q);
    if p == q {
      ResumedKeepsVerdict(cfg, e, q, reply, id, verdicts);
    } else {
      assert verdicts + [] == verdicts;
    }
  }

  lemma ResumedKeepsVerdict(cfg: Config, e: Engine, q: nat, reply: Reply, id: TaskId, verdicts: seq<bool>)
    requires Enabled(e, PipelineStep(q, reply)) && HasVerdict(e, id, q, verdicts)
    ensures q in Advance(cfg, e, q, reply).pipelines
    ensures HasVerdict(Advance(cfg, e, q, reply), id, q, verdicts + VerdictIn(e, PipelineStep(q, reply), id))
  {
    AdvanceMovesOnly(cfg, e, q, reply);
    PipelineReachesIff(cfg, e, q, reply, Advance(cfg, e, q, reply).pipelines[q].at);
    assert verdicts + [] == verdicts;
    assert [] + [reply.Verdict? && reply.rejects] == [reply.Verdict? && reply.rejects];
  }

  lemma StepKeepsJudged(cfg: Config, e: Engine, ev: Event, id: TaskId, verdicts: seq<bool>)
    requires Inv(cfg, e) && Enabled(e, ev) && Fresh(e, ev) && Judged(e, id, verdicts)
    ensures Judged(Step(cfg, e, ev), id, verdicts + VerdictIn(e, ev, id))
  {
    StepJudgesHistory(cfg, e, ev, id, verdicts);
    forall p | p in Step(cfg, e, ev).pipelines
      ensures HasVerdict(Step(cfg, e, ev), id, p, verdicts + VerdictIn(e, ev, id))
    {
      StepKeepsVerdict(cfg, e, ev, id, verdicts, p);
    }
  }

  lemma AppendVerdicts(a: seq<bool>, b: seq<bool>, c: seq<bool>)
    ensures (a + b) + c == a + (b + c)
  {
  }

  lemma {:induction false} RunKeepsJudged(cfg: Config, e: Engine, evs: seq<Event>, id: TaskId, verdicts: seq<bool>)
    requires Inv(cfg, e) && Run(cfg, e, evs) && Judged(e, id, verdicts)
    ensures Judged(After(cfg, e, evs), id, verdicts + VerdictsIn(cfg, e, evs, id))
    decreases |evs|
  {
    if evs == [] {
      assert verdicts + [] == verdicts;
    } else {
      var e', now := Step(cfg, e, evs[0]), VerdictIn(e, evs[0], id);
      StepKeepsInv(cfg, e, evs[0]);
      StepKeepsJudged(cfg, e, evs[0], id, verdicts);
      RunKeepsJudged(cfg, e', evs[1..], id, verdicts + now);
      AppendVerdicts(verdicts, now, VerdictsIn(cfg, e', evs[1..], id));
    }
  }

  lemma JudgedAfter(cfg: Config, evs: seq<Event>, id: TaskId)
    requires Run(cfg, INITIAL, evs)
    ensures Inv(cfg, After(cfg, INITIAL, evs)) && Judged(After(cfg, INITIAL, evs), id, VerdictsIn(cfg, INITIAL, evs, id))
  {
    InitialOk(cfg);
    RunKeepsInv(cfg, INITIAL, evs);
    assert Judged(INITIAL, id, []);
    RunKeepsJudged(cfg, INITIAL, evs, id, []);
    assert [] + VerdictsIn(cfg, INITIAL, evs, id) == VerdictsIn(cfg, INITIAL, evs, id);
  }

  /** A run brings an admitted task at most one verdict. It is Rejected only after a rejecting one, and goes to work
      only after an accepting one. */
  lemma VerdictDecides(cfg: Config, evs: seq<Event>, id: TaskId)
    requires Run(cfg, INITIAL, evs)
    ensures var e, verdicts := After(cfg, INITIAL, evs), VerdictsIn(cfg, INITIAL, evs, id);
      && |verdicts| <= 1
      && (Rejected in HistoryNow(e, id) ==> verdicts == [true])
      && (Working in HistoryNow(e, id) ==> verdicts == [false])
  {
    JudgedAfter(cfg, evs, id);
    var e := After(cfg, INITIAL, evs);
    if id in e.tasks && e.tasks[id].history != [] {
      assert TaskOk(e, id);
      FirstEntryDecides(e.tasks[id].history);
    }
  }

  /** On a path from Accepted, the second entry tells whether the task was ever Rejected or at work. */
  lemma {:induction false} FirstEntryDecides(h: seq<State>)
    requires h != [] && h[0] == Accepted && Path(h)
    ensures Rejected in h ==> |h| >= 2 && h[1] == Rejected
    ensures Working in h ==> |h| >= 2 && h[1] == Working
    ensures |h| >= 2 && h[1] != Working ==> |h| == 2
  {
    if |h| >= 2 {
      var front, last := h[..|h| - 1], |h| - 1;
      assert h == front + [h[last]] && Edge(h[last - 1], h[last]);
      PathLength(front);
      FirstEntryDecides(front);
    }
  }

  /** An Accepted task whose live pipeline has brought it a verdict is at its audit with it; the next step rejects
      the task or takes it to work and on to analysis, as the verdict says. */
  lemma VerdictIsCarriedOut(cfg: Config, evs: seq<Event>, p: nat, reply: Reply)
    requires Run(cfg, INITIAL, evs) && Enabled(After(cfg, INITIAL, evs), PipelineStep(p, reply))
    requires !After(cfg, INITIAL, evs).pipelines[p].cancelled
    ensures var e := After(cfg, INITIAL, evs);
      var id, r := e.pipelines[p].task, Step(cfg, e, PipelineStep(p, reply));
      var verdicts := VerdictsIn(cfg, INITIAL, evs, id);
      e.tasks[id].state == Accepted && verdicts != [] ==>
        && id in r.tasks && p in r.pipelines
        && r.tasks[id].state == (if !verdicts[0] then Working else if reply.Fault? then Failed else Rejected)
        && r.pipelines[p] == Pipeline(id, if verdicts[0] then Finished else AwaitAnalysis, false)
  {
    var e := After(cfg, INITIAL, evs);
    var id := e.pipelines[p].task;
    var verdicts := VerdictsIn(cfg, INITIAL, evs, id);
    JudgedAfter(cfg, evs, id);
    assert HasVerdict(e, id, p, verdicts) && PipelineOk(e, p);
    if e.tasks[id].state == Accepted && verdicts != [] {
      assert e.pipelines[p].at == AwaitAudit(verdicts[0]);
      var s := if !verdicts[0] then Working else if reply.Fault? then Failed else Rejected;
      StepBringsIff(cfg, e, PipelineStep(p, reply), id, s);
      PipelineReachesIff(cfg, e, p, reply, if verdicts[0] then Finished else AwaitAnalysis);
    }
  }

  // ---------------------------------------------------------------- products

  /** The task's product is the text that the last delivering event brought. */
  function ProductsAfter(cfg: Config, e: Engine, evs: seq<Event>, id: TaskId, products: seq<string>): seq<string>
    requires Run(cfg, e, evs)
    decreases |evs|
  {
    if evs == [] then products
    else
      var text := TextFrom(cfg, e, evs[0], id);
      ProductsAfter(cfg, Step(cfg, e, evs[0]), evs[1..], id, if text.Some? then [text.value] else products)
  }

  function ProductsNow(e: Engine, id: TaskId): seq<string> {
    if id in e.tasks then e.tasks[id].products else []
  }

  lemma RepliedProducts(cfg: Config, e: Engine, p: nat, reply: Analysis.AnalysisReply, production: Production)
    requires p in e.pipelines && e.pipelines[p].task in e.tasks
    ensures var id := e.pipelines[p].task;
      ProductsNow(Analyse(cfg, e, p, reply, production), id)
      == if !Analysis.NeedsInput(cfg.agent, Analysis.Absorb(cfg.agent, e.tasks[id].requirements, reply.update), reply)
            && production.Produces? then [production.text] else e.tasks[id].products
  {
  }

  lemma OtherProducts(cfg: Config, e: Engine, p: nat, reply: Reply)
    requires Enabled(e, PipelineStep(p, reply))
    requires e.pipelines[p].cancelled || e.pipelines[p].at != AwaitAnalysis || !reply.Analysed?
    ensures var id, text := e.pipelines[p].task, TextFrom(cfg, e, PipelineStep(p, reply), e.pipelines[p].task);
      ProductsNow(Advance(cfg, e, p, reply), id) == if text.Some? then [text.value] else e.tasks[id].products
  {
  }

  lemma PipelineProducts(cfg: Config, e: Engine, p: nat, reply: Reply)
    requires Enabled(e, PipelineStep(p, reply))
    ensures var id, text := e.pipelines[p].task, TextFrom(cfg, e, PipelineStep(p, reply), e.pipelines[p].task);
      ProductsNow(Advance(cfg, e, p, reply), id) == if text.Some? then [text.value] else e.tasks[id].products
  {
    var id := e.pipelines[p].task;
    if e.pipelines[p].at == AwaitAnalysis && !e.pipelines[p].cancelled && reply.Analysed? {
      AsksBackIff(cfg.agent, Analysis.Absorb(cfg.agent, e.tasks[id].requirements, reply.analysis.update), reply.analysis);
      RepliedProducts(cfg, e, p, reply.analysis, reply.production);
    } else {
      OtherProducts(cfg, e, p, reply);
    }
  }

  lemma OthersKeepProducts(cfg: Config, e: Engine, ev: Event, id: TaskId)
    requires Enabled(e, ev) && Subject(e, ev) != Some(id)
    ensures ProductsNow(Step(cfg, e, ev), id) == ProductsNow(e, id) && TextFrom(cfg, e, ev, id).None?
  {
    StepTouchesSubject(cfg, e, ev);
  }

  lemma CommandProducts(cfg: Config, e: Engine, ev: Event, id: TaskId)
    requires Enabled(e, ev) && Fresh(e, ev) && !ev.PipelineStep? && Subject(e, ev) == Some(id)
    ensures ProductsNow(Step(cfg, e, ev), id) == ProductsNow(e, id)
  {
  }

  lemma StepProducts(cfg: Config, e: Engine, ev: Event, id: TaskId)
    requires Enabled(e, ev) && Fresh(e, ev)
    ensures var text := TextFrom(cfg, e, ev, id);
      ProductsNow(Step(cfg, e, ev), id) == if text.Some? then [text.value] else ProductsNow(e, id)
  {
    if Subject(e, ev) != Some(id) {
      OthersKeepProducts(cfg, e, ev, id);
    } else {
      match ev
      case PipelineStep(p, reply) => PipelineProducts(cfg, e, p, reply);
      case _ => CommandProducts(cfg, e, ev, id);
    }
  }

  lemma {:induction false} ProductIsLastText(cfg: Config, e: Engine, evs: seq<Event>, id: TaskId)
    requires Run(cfg, e, evs)
    ensures ProductsNow(After(cfg, e, evs), id) == ProductsAfter(cfg, e, evs, id, ProductsNow(e, id))
    decreases |evs|
  {
    if evs != [] {
      StepProducts(cfg, e, evs[0], id);
      ProductIsLastText(cfg, Step(cfg, e, evs[0]), evs[1..], id);
    }
  }

  // ---------------------------------------------------------------- Cancel

  ghost predicate Waited(e: Engine, id: TaskId) {
    exists w :: w in e.waiters && e.waiters[w].task == id
  }

  /** A Cancel of an open task either ends it at once, or, if and only if a pipeline of the task is live, asks that
      pipeline to cancel and waits for it. */
  lemma CancelIsAnswered(cfg: Config, e: Engine, id: TaskId, c: Command)
    requires Inv(cfg, e) && id in e.tasks && !Terminal(e.tasks[id].state)
    ensures var r := Step(cfg, e, Cancel(id, c));
      if NothingLive(e, id) then Enters(e, r, id, Canceled)
      else exists w :: w !in e.waiters && w in r.waiters && r.waiters[w].task == id
             && var p := r.waiters[w].pipeline;
                Live(e, p) && e.pipelines[p].task == id && p in r.pipelines
                && r.pipelines[p] == e.pipelines[p].(cancelled := true)
  {
    StepBringsIff(cfg, e, Cancel(id, c), id, Canceled);
    NothingLiveIff(cfg, e, id);
    if !NothingLive(e, id) {
      var r := Step(cfg, e, Cancel(id, c));
      assert TaskOk(e, id);
      forall w | w in e.waiters ensures w < e.next { assert WaiterOk(e, w); }
      assert e.next in r.waiters && r.waiters[e.next].task == id;
    }
  }

  /** The task has ended, or a Cancel handler is waiting to end it. */
  ghost predicate Ending(e: Engine, id: TaskId) {
    id in e.tasks && (Terminal(e.tasks[id].state) || Waited(e, id))
  }

  lemma EndedStays(cfg: Config, e: Engine, ev: Event, id: TaskId)
    requires Inv(cfg, e) && Enabled(e, ev) && Fresh(e, ev) && id in e.tasks && Terminal(e.tasks[id].state)
    ensures id in Step(cfg, e, ev).tasks && Terminal(Step(cfg, e, ev).tasks[id].state)
  {
    TerminalKeptIff(cfg, e, ev, id);
  }

  lemma StepKeepsEnding(cfg: Config, e: Engine, ev: Event, id: TaskId)
    requires Inv(cfg, e) && Enabled(e, ev) && Fresh(e, ev) && Ending(e, id)
    ensures Ending(Step(cfg, e, ev), id)
  {
    if Terminal(e.tasks[id].state) {
      EndedStays(cfg, e, ev, id);
    } else {
      var w :| w in e.waiters && e.waiters[w].task == id;
      WaitedStepKeepsEnding(cfg, e, ev, id, w);
    }
  }

  lemma WaitedStepKeepsEnding(cfg: Config, e: Engine, ev: Event, id: TaskId, w: nat)
    requires Inv(cfg, e) && Enabled(e, ev) && Fresh(e, ev) && id in e.tasks && !Terminal(e.tasks[id].state)
    requires w in e.waiters && e.waiters[w].task == id
    ensures Ending(Step(cfg, e, ev), id)
  {
    if ev == CancelResumes(w) {
      StepBringsIff(cfg, e, ev, id, Canceled);
    } else {
      WaitersStay(cfg, e, ev, w);
      StepTouchesSubject(cfg, e, ev);
    }
  }

  lemma WaitersStay(cfg: Config, e: Engine, ev: Event, w: nat)
    requires Inv(cfg, e) && Enabled(e, ev) && w in e.waiters && ev != CancelResumes(w)
    ensures w in Step(cfg, e, ev).waiters && Step(cfg, e, ev).waiters[w] == e.waiters[w]
  {
    assert WaiterOk(e, w);
    match ev
    case PipelineStep(p, reply) => AdvanceKeepsWaiters(cfg, e, p, reply);
    case Cancel(_, _) =>
    case Complete(_, _) =>
    case Continue(_, _) =>
    case CancelResumes(_) =>
    case _ =>
  }

  lemma AnalyseKeepsWaiters(cfg: Config, e: Engine, p: nat, reply: Analysis.AnalysisReply, production: Production)
    requires p in e.pipelines && e.pipelines[p].task in e.tasks
    ensures Analyse(cfg, e, p, reply, production).waiters == e.waiters
  {
  }

  lemma FaultKeepsWaiters(cfg: Config, e: Engine, p: nat, reply: Reply)
    requires Enabled(e, PipelineStep(p, reply)) && e.pipelines[p].at == AwaitAnalysis && !reply.Analysed?
    ensures Advance(cfg, e, p, reply).waiters == e.waiters
  {
  }

  lemma OtherStageKeepsWaiters(cfg: Config, e: Engine, p: nat, reply: Reply)
    requires Enabled(e, PipelineStep(p, reply)) && e.pipelines[p].at != AwaitAnalysis
    ensures Advance(cfg, e, p, reply).waiters == e.waiters
  {
  }

  lemma AdvanceKeepsWaiters(cfg: Config, e: Engine, p: nat, reply: Reply)
    requires Enabled(e, PipelineStep(p, reply))
    ensures Advance(cfg, e, p, reply).waiters == e.waiters
  {
    if e.pipelines[p].at != AwaitAnalysis {
      OtherStageKeepsWaiters(cfg, e, p, reply);
    } else if reply.Analysed? {
      AnalyseKeepsWaiters(cfg, e, p, reply.analysis, reply.production);
    } else {
      FaultKeepsWaiters(cfg, e, p, reply);
    }
  }

  lemma {:induction false} RunKeepsEnding(cfg: Config, e: Engine, evs: seq<Event>, id: TaskId)
    requires Inv(cfg, e) && Run(cfg, e, evs) && Ending(e, id)
    ensures Ending(After(cfg, e, evs), id)
    decreases |evs|
  {
    if evs != [] {
      StepKeepsInv(cfg, e, evs[0]);
      StepKeepsEnding(cfg, e, evs[0], id);
      RunKeepsEnding(cfg, Step(cfg, e, evs[0]), evs[1..], id);
    }
  }

  /** Whatever happens after a known task was sent a Cancel: once no Cancel handler waits for it, it has ended. */
  lemma CancelledTasksEnd(cfg: Config, e: Engine, c: Command, id: TaskId, evs: seq<Event>)
    requires Inv(cfg, e) && id in e.tasks && Run(cfg, Step(cfg, e, Cancel(id, c)), evs)
    ensures var end := After(cfg, Step(cfg, e, Cancel(id, c)), evs);
      id in end.tasks && (Terminal(end.tasks[id].state) || Waited(end, id))
  {
    var r := Step(cfg, e, Cancel(id, c));
    StepKeepsInv(cfg, e, Cancel(id, c));
    if Terminal(e.tasks[id].state) {
      StepRecords(cfg, e, Cancel(id, c), id);
    } else {
      CancelIsAnswered(cfg, e, id, c);
    }
    RunKeepsEnding(cfg, r, evs, id);
  }

  /** A waiting Cancel handler is never stuck: its pipeline can stop, and then the handler leaves the task Canceled. */
  lemma WaitingCancelCanFinish(cfg: Config, e: Engine, w: nat, reply: Reply)
    requires Inv(cfg, e) && w in e.waiters
    ensures var p := e.waiters[w].pipeline;
      var e1 := if Live(e, p) && e.pipelines[p].task in e.tasks then Step(cfg, e, PipelineStep(p, reply)) else e;
      Enabled(e1, CancelResumes(w)) && e1.tasks == e.tasks
      && e.waiters[w].task in Step(cfg, e1, CancelResumes(w)).tasks
      && Step(cfg, e1, CancelResumes(w)).tasks[e.waiters[w].task].state == Canceled
  {
    assert WaiterOk(e, w);
    var p := e.waiters[w].pipeline;
    if Live(e, p) {
      PipelineReachesIff(cfg, e, p, reply, Finished);
      AdvanceKeepsWaiters(cfg, e, p, reply);
    }
  }

  // ---------------------------------------------------------------- Complete and Continue

  /** A Complete ends exactly a task that awaits completion; an effective Continue puts the task to work with a new
      pipeline that begins with analysis; a Start that is admitted, with one that begins with the decision. */
  lemma CommandsTakeEffect(cfg: Config, e: Engine, id: TaskId, c: Command)
    requires Inv(cfg, e)
    ensures id in e.tasks && e.tasks[id].state == AwaitingCompletion ==> Enters(e, Step(cfg, e, Complete(id, c)), id, Completed)
    ensures id in e.tasks && e.tasks[id].state in {AwaitingInput, AwaitingCompletion} && Strip(c.text) != "" ==>
      && Enters(e, Step(cfg, e, Continue(id, c)), id, Working)
      && Launches(e, Step(cfg, e, Continue(id, c)), id, AnalysisStage)
    ensures id !in e.tasks && |ActiveTasks(e.tasks)| < cfg.maxConcurrent ==>
      && Enters(e, Step(cfg, e, Start(id, c)), id, Accepted)
      && Launches(e, Step(cfg, e, Start(id, c)), id, DecisionStage)
  {
    StepBringsIff(cfg, e, Complete(id, c), id, Completed);
    StepBringsIff(cfg, e, Continue(id, c), id, Working);
    StepBringsIff(cfg, e, Start(id, c), id, Accepted);
    forall p | p in e.pipelines ensures p < e.next { assert PipelineOk(e, p); }
  }

  /** The task has a new live pipeline that begins with `stage` and is its running future. */
  predicate Launches(e: Engine, e': Engine, id: TaskId, stage: Stage) {
    && id in e'.tasks && e'.tasks[id].future.Some?
    && var p := e'.tasks[id].future.value;
       p !in e.pipelines && p in e'.pipelines && e'.pipelines[p] == Pipeline(id, NotStarted(stage), false)
  }
}
