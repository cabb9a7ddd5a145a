/** What a delivered task has been through: its last analysis turn let it through to production, and its skills had
    their slots. */
module DeliveredSkills {
  import opened Basics
  import opened Requirements
  import opened Analysis
  import opened ProductionSkills
  import opened TaskEngine
  import opened TaskSafety
  import opened TaskRuns
  import opened TaskAdmission
  import opened TaskDelivery
  import opened TaskLedger

  // ---------------------------------------------------------------- the last turn

  /** The requirements as the last turn left them for validation. */
  function LastAbsorbed(cfg: AgentConfig, turns: seq<Turn>): Dict
    requires turns != []
  {
    Absorb(cfg, AfterTurns(cfg, map[], turns[..|turns| - 1]), UpdateOf(turns[|turns| - 1]))
  }

  /** The last turn was a reply with which nothing was missing, and the requirements are what production made of
      it. */
  predicate Finishes(cfg: AgentConfig, turns: seq<Turn>, d: Dict) {
    && turns != [] && turns[|turns| - 1].Answered?
    && !NeedsInput(cfg, LastAbsorbed(cfg, turns), turns[|turns| - 1].reply)
    && d == ProductionRequirements(cfg, LastAbsorbed(cfg, turns))
  }

  function Finishing(cfg: AgentConfig, turns: seq<Turn>): Dict -> bool {
    (d: Dict) => Finishes(cfg, turns, d)
  }

  lemma {:induction false} TurnsSnoc(cfg: AgentConfig, held: Dict, turns: seq<Turn>, last: Turn)
    ensures AfterTurns(cfg, held, turns + [last]) == AfterTurn(cfg, AfterTurns(cfg, held, turns), last)
    decreases |turns|
  {
    if turns == [] {
      assert turns + [last] == [last];
    } else {
      assert (turns + [last])[0] == turns[0] && (turns + [last])[1..] == turns[1..] + [last];
      TurnsSnoc(cfg, AfterTurn(cfg, held, turns[0]), turns[1..], last);
    }
  }

  /** Of task `id`: its requirements are those of its turns, and it is in production or delivered only after a last
      turn that let it through. */
  predicate FollowsTurns(cfg: Config, e: Engine, id: TaskId, turns: seq<Turn>) {
    && RequirementsNow(e, id) == AfterTurns(cfg.agent, map[], turns)
    && (id in e.tasks ==> DeliveryOk(Finishing(cfg.agent, turns), e, id))
  }

  lemma StepFollowsTurns(cfg: Config, e: Engine, ev: Event, id: TaskId, turns: seq<Turn>)
    requires Inv(cfg, e) && Enabled(e, ev) && Fresh(e, ev) && FollowsTurns(cfg, e, id, turns)
    ensures FollowsTurns(cfg, Step(cfg, e, ev), id, turns + TurnIn(e, ev, id))
  {
    var now := TurnIn(e, ev, id);
    StepTurns(cfg, e, ev, id);
    if now == [] {
      assert turns + now == turns;
    } else {
      assert now == [now[0]];
      TurnsSnoc(cfg.agent, map[], turns, now[0]);
      NotYetDelivered(cfg, Finishing(cfg.agent, turns + now), e, ev, id);
      assert (turns + now)[..|turns|] == turns;
    }
    StepKeepsDelivery(cfg, Finishing(cfg.agent, turns + now), e, ev, id);
  }

  lemma {:induction false} RunFollowsTurns(cfg: Config, e: Engine, evs: seq<Event>, id: TaskId, turns: seq<Turn>)
    requires Inv(cfg, e) && Run(cfg, e, evs) && FollowsTurns(cfg, e, id, turns)
    ensures FollowsTurns(cfg, After(cfg, e, evs), id, turns + TurnsIn(cfg, e, evs, id))
    decreases |evs|
  {
    if evs == [] {
      assert turns + [] == turns;
    } else {
      var e', now := Step(cfg, e, evs[0]), TurnIn(e, evs[0], id);
      StepKeepsInv(cfg, e, evs[0]);
      StepFollowsTurns(cfg, e, evs[0], id, turns);
      RunFollowsTurns(cfg, e', evs[1..], id, turns + now);
      AppendTwice(turns, now, TurnsIn(cfg, e', evs[1..], id));
    }
  }

  /** In every run, whatever the configuration, a task that awaits completion or is completed has exactly one
      product, its last analysis turn was a reply with which nothing was missing, and its requirements are what
      production made of them. */
  lemma DeliveredTasksPassedAnalysis(cfg: Config, evs: seq<Event>, id: TaskId)
    requires Run(cfg, INITIAL, evs)
    ensures var e := After(cfg, INITIAL, evs);
      Delivered(e, id) ==>
        && |e.tasks[id].products| == 1
        && Finishes(cfg.agent, TurnsIn(cfg, INITIAL, evs, id), e.tasks[id].requirements)
  {
    InitialOk(cfg);
    RunFollowsTurns(cfg, INITIAL, evs, id, []);
    assert [] + TurnsIn(cfg, INITIAL, evs, id) == TurnsIn(cfg, INITIAL, evs, id);
  }

  // ---------------------------------------------------------------- skills of delivered tasks

  /** Unless the configuration starves skills, every skill that a delivered task ran had all the slots it needs;
      unless it forgets them either, so had the first configured skill where the task ran none. */
  lemma DeliveredTasksWereValidated(cfg: Config, evs: seq<Event>, id: TaskId)
    requires !Starves(cfg.agent)
    requires Run(cfg, INITIAL, evs) && Delivered(After(cfg, INITIAL, evs), id)
    ensures Equipped(cfg.agent, After(cfg, INITIAL, evs).tasks[id].requirements)
    ensures !Forgets(cfg.agent) ==> Validated(cfg.agent, After(cfg, INITIAL, evs).tasks[id].requirements)
  {
    DeliveredTasksPassedAnalysis(cfg, evs, id);
    var turns := TurnsIn(cfg, INITIAL, evs, id);
    var held, update := AfterTurns(cfg.agent, map[], turns[..|turns| - 1]), UpdateOf(turns[|turns| - 1]);
    ProductionKeepsEquipped(cfg.agent, held, update);
    if !Forgets(cfg.agent) {
      ProductionKeepsValidated(cfg.agent, held, update);
    }
  }

  /** The run delivers a task that ran a skill without all its slots. */
  predicate DeliversStarved(cfg: Config, evs: seq<Event>, id: TaskId) {
    && Run(cfg, INITIAL, evs) && Delivered(After(cfg, INITIAL, evs), id)
    && !Equipped(cfg.agent, After(cfg, INITIAL, evs).tasks[id].requirements)
  }

  /** The run delivers a task that ran no skill although its last reply selected some. */
  predicate DeliversForgotten(cfg: Config, evs: seq<Event>, id: TaskId) {
    && Run(cfg, INITIAL, evs) && Delivered(After(cfg, INITIAL, evs), id)
    && HeldSkills(After(cfg, INITIAL, evs).tasks[id].requirements) == []
    && TurnsIn(cfg, INITIAL, evs, id) != [] && HeldSkills(LastAbsorbed(cfg.agent, TurnsIn(cfg, INITIAL, evs, id))) != []
  }

  /** A task gets to analysis. */
  lemma ReachAnalysis(cfg: Config, c: Command) returns (evs: seq<Event>)
    requires cfg.maxConcurrent >= 1
    ensures Run(cfg, INITIAL, evs)
    ensures var e := After(cfg, INITIAL, evs);
      && "a" in e.tasks && e.tasks["a"].requirements == map[]
      && 0 in e.pipelines && e.pipelines[0] == Pipeline("a", AwaitAnalysis, false)
  {
    var start := Start("a", c);
    assert ActiveTasks(INITIAL.tasks) == {};
    RunOne(cfg, INITIAL, start);
    var decision := AcceptingDecision(cfg, Step(cfg, INITIAL, start), 0);
    RunAppend(cfg, INITIAL, [start], decision);
    evs := [start] + decision;
  }

  /** A reply that leaves nothing open is delivered at once. */
  lemma DeliverAtOnce(cfg: Config, e: Engine, update: Dict, text: string)
    requires "a" in e.tasks && e.tasks["a"].requirements == map[]
    requires 0 in e.pipelines && e.pipelines[0] == Pipeline("a", AwaitAnalysis, false)
    requires !NeedsInput(cfg.agent, Absorb(cfg.agent, map[], update), AnalysisReply(false, update))
    ensures var ev := PipelineStep(0, Analysed(AnalysisReply(false, update), Produces(text)));
      && Enabled(e, ev) && Fresh(e, ev)
      && Delivered(Step(cfg, e, ev), "a")
      && Step(cfg, e, ev).tasks["a"].requirements
         == ProductionRequirements(cfg.agent, Absorb(cfg.agent, map[], update))
  {
  }

  lemma {:induction false} TurnsOfSnoc(cfg: Config, e: Engine, evs: seq<Event>, ev: Event, id: TaskId)
    requires Run(cfg, e, evs) && Run(cfg, e, evs + [ev]) && Enabled(After(cfg, e, evs), ev)
    ensures TurnsIn(cfg, e, evs + [ev], id) == TurnsIn(cfg, e, evs, id) + TurnIn(After(cfg, e, evs), ev, id)
    decreases |evs|
  {
    if evs == [] {
      assert evs + [ev] == [ev];
    } else {
      assert (evs + [ev])[0] == evs[0] && (evs + [ev])[1..] == evs[1..] + [ev];
      TurnsOfSnoc(cfg, Step(cfg, e, evs[0]), evs[1..], ev, id);
    }
  }

  /** A reply with which nothing is missing can be the only turn of a delivered task. */
  lemma ReplyIsDelivered(cfg: Config, update: Dict) returns (evs: seq<Event>)
    requires cfg.maxConcurrent >= 1
    requires !NeedsInput(cfg.agent, Absorb(cfg.agent, map[], update), AnalysisReply(false, update))
    ensures Run(cfg, INITIAL, evs) && Delivered(After(cfg, INITIAL, evs), "a")
    ensures var absorbed, turns := Absorb(cfg.agent, map[], update), TurnsIn(cfg, INITIAL, evs, "a");
      && After(cfg, INITIAL, evs).tasks["a"].requirements == ProductionRequirements(cfg.agent, absorbed)
      && turns != [] && LastAbsorbed(cfg.agent, turns) == absorbed
  {
    var before := ReachAnalysis(cfg, Command(StartKind, ""));
    var e, ev := After(cfg, INITIAL, before), PipelineStep(0, Analysed(AnalysisReply(false, update), Produces("")));
    DeliverAtOnce(cfg, e, update, "");
    RunOne(cfg, e, ev);
    RunAppend(cfg, INITIAL, before, [ev]);
    evs := before + [ev];
    TurnsOfSnoc(cfg, INITIAL, before, ev, "a");
    RequirementsAreTheDialogue(cfg, INITIAL, before, "a");
    var turns := TurnsIn(cfg, INITIAL, evs, "a");
    assert turns[..|turns| - 1] == TurnsIn(cfg, INITIAL, before, "a");
  }

  /** Some run delivers a task that ran a skill without all its slots exactly when the configuration starves
      skills. */
  lemma StarvedDeliveryIff(cfg: Config)
    requires cfg.maxConcurrent >= 1
    ensures (exists evs, id :: DeliversStarved(cfg, evs, id)) <==> Starves(cfg.agent)
  {
    if Starves(cfg.agent) {
      var update := StarvingReply(cfg.agent);
      var evs := ReplyIsDelivered(cfg, update);
      assert DeliversStarved(cfg, evs, "a");
    } else {
      forall evs, id ensures !DeliversStarved(cfg, evs, id) {
        if Run(cfg, INITIAL, evs) && Delivered(After(cfg, INITIAL, evs), id) {
          DeliveredTasksWereValidated(cfg, evs, id);
        }
      }
    }
  }

  /** Some run delivers a task that ran none of the skills selected for it exactly when the configuration forgets
      skills. */
  lemma ForgottenDeliveryIff(cfg: Config)
    requires cfg.maxConcurrent >= 1
    ensures (exists evs, id :: DeliversForgotten(cfg, evs, id)) <==> Forgets(cfg.agent)
  {
    if Forgets(cfg.agent) {
      var update := ForgettingReply(cfg.agent);
      var evs := ReplyIsDelivered(cfg, update);
      assert DeliversForgotten(cfg, evs, "a");
    } else {
      forall evs, id ensures !DeliversForgotten(cfg, evs, id) {
        if DeliversForgotten(cfg, evs, id) {
          DeliveredTasksPassedAnalysis(cfg, evs, id);
          var turns := TurnsIn(cfg, INITIAL, evs, id);
          var held, update := AfterTurns(cfg.agent, map[], turns[..|turns| - 1]), UpdateOf(turns[|turns| - 1]);
          LeavingNoneDropsOne(cfg.agent, held, update);
          ForgetsByReadBack(cfg.agent, held, update);
        }
      }
    }
  }
}
