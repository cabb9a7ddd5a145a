/** What every run of the task engine keeps. */
module TaskSafety {
  import opened Basics
  import opened TaskEngine

  // ---------------------------------------------------------------- the state graph

  predicate Edge(a: State, b: State) {
    match a
    case Accepted => b in {Working, Rejected, Failed, Canceled}
    case Working => b in {AwaitingInput, AwaitingCompletion, Failed, Canceled}
    case AwaitingInput => b in {Working, Canceled}
    case AwaitingCompletion => b in {Working, Completed, Canceled}
    case _ => false
  }

  predicate Path(h: seq<State>) {
    forall i :: 0 < i < |h| ==> Edge(h[i - 1], h[i])
  }

  /** The history of an admitted task is a path from Accepted to its state; a task turned away has none. */
  predicate HistoryOk(c: Context) {
    if c.history == [] then c.state == Rejected && c.future == None
    else c.history[0] == Accepted && c.history[|c.history| - 1] == c.state && Path(c.history)
  }

  // ---------------------------------------------------------------- the invariant

  /** The state of a task whose pipeline is suspended at `at`. */
  function StateAt(at: Point): State {
    if at in {NotStarted(DecisionStage), AwaitDecision} || at.AwaitAudit? then Accepted else Working
  }

  ghost predicate Awaited(e: Engine, p: nat) {
    exists w :: w in e.waiters && e.waiters[w].pipeline == p
  }

  ghost predicate TaskOk(e: Engine, id: TaskId)
    requires id in e.tasks
  {
    var c := e.tasks[id];
    && HistoryOk(c)
    && (c.future.Some? ==> c.future.value in e.pipelines && e.pipelines[c.future.value].task == id)
    && (Running(c.state) ==> c.future.Some? && (Live(e, c.future.value) || Awaited(e, c.future.value)))
  }

  ghost predicate PipelineOk(e: Engine, p: nat)
    requires p in e.pipelines
  {
    var pl := e.pipelines[p];
    && p < e.next
    && pl.task in e.tasks
    && (pl.at != Finished ==> e.tasks[pl.task].future == Some(p) && e.tasks[pl.task].state == StateAt(pl.at))
    && (pl.cancelled ==> Terminal(e.tasks[pl.task].state) || Awaited(e, p))
  }

  predicate WaiterOk(e: Engine, w: nat)
    requires w in e.waiters
  {
    var Waiter(id, p) := e.waiters[w];
    && w < e.next
    && id in e.tasks
    && p in e.pipelines && e.pipelines[p].cancelled && e.pipelines[p].task == id
    && e.tasks[id].future in {None, Some(p)}
    && (e.tasks[id].state == Canceled || (Running(e.tasks[id].state) && e.tasks[id].future == Some(p)))
  }

  predicate NoticeOk(cfg: Config, e: Engine, n: nat)
    requires n in e.notices
  {
    var Notice(id, l, index) := e.notices[n];
    && n < e.next
    && id in e.tasks
    && l < cfg.listeners
    && index < |e.tasks[id].history|
  }

  ghost predicate Inv(cfg: Config, e: Engine) {
    && (forall id {:trigger TaskOk(e, id)} :: id in e.tasks ==> TaskOk(e, id))
    && (forall p {:trigger PipelineOk(e, p)} :: p in e.pipelines ==> PipelineOk(e, p))
    && (forall w {:trigger WaiterOk(e, w)} :: w in e.waiters ==> WaiterOk(e, w))
    && (forall n {:trigger NoticeOk(cfg, e, n)} :: n in e.notices ==> NoticeOk(cfg, e, n))
  }

  lemma InitialOk(cfg: Config)
    ensures Inv(cfg, INITIAL)
  {
  }

  /** Appending a successor keeps a history well-formed. */
  lemma HistoryGrows(c: Context, s: State)
    requires HistoryOk(c) && Edge(c.state, s)
    ensures HistoryOk(c.(state := s, history := c.history + [s]))
  {
  }

  /** Every state that is not terminal can be left for Canceled. */
  lemma OpenStatesCanCancel(s: State)
    ensures Terminal(s) || Edge(s, Canceled)
  {
  }

  // ---------------------------------------------------------------- changes of one task

  /** `e'` differs from `e` only in what belongs to task `id`. */
  ghost predicate Local(e: Engine, e': Engine, id: TaskId) {
    && e.next <= e'.next
    && (forall i :: i != id ==> (i in e.tasks <==> i in e'.tasks) && (i in e.tasks ==> e'.tasks[i] == e.tasks[i]))
    && (id in e.tasks ==> id in e'.tasks)
    && (forall p :: p in e.pipelines ==>
          && p in e'.pipelines && e'.pipelines[p].task == e.pipelines[p].task
          && (e.pipelines[p].task != id ==> e'.pipelines[p] == e.pipelines[p]))
    && (forall p :: p in e'.pipelines && p !in e.pipelines ==> e'.pipelines[p].task == id)
    && (forall w :: w in e.waiters && e.waiters[w].task != id ==> w in e'.waiters && e'.waiters[w] == e.waiters[w])
    && (forall w :: w in e'.waiters ==> e'.waiters[w].task == id || (w in e.waiters && e'.waiters[w] == e.waiters[w]))
    && (forall n :: n in e'.notices ==> e'.notices[n].task == id || (n in e.notices && e'.notices[n] == e.notices[n]))
  }

  /** The invariant for what belongs to task `id`. */
  ghost predicate GroupOk(cfg: Config, e: Engine, id: TaskId) {
    && (id in e.tasks ==> TaskOk(e, id))
    && (forall p {:trigger PipelineOk(e, p)} :: p in e.pipelines && e.pipelines[p].task == id ==> PipelineOk(e, p))
    && (forall w {:trigger WaiterOk(e, w)} :: w in e.waiters && e.waiters[w].task == id ==> WaiterOk(e, w))
    && (forall n {:trigger NoticeOk(cfg, e, n)} :: n in e.notices && e.notices[n].task == id ==> NoticeOk(cfg, e, n))
  }

  lemma OtherTaskOk(cfg: Config, e: Engine, e': Engine, id: TaskId, i: TaskId)
    requires Inv(cfg, e) && Local(e, e', id) && i in e.tasks && i != id
    ensures TaskOk(e', i)
  {
    assert TaskOk(e, i);
    if e.tasks[i].future.Some? {
      var p := e.tasks[i].future.value;
      if w :| w in e.waiters && e.waiters[w].pipeline == p {
        assert WaiterOk(e, w);
      }
    }
  }

  lemma OtherPipelineOk(cfg: Config, e: Engine, e': Engine, id: TaskId, p: nat)
    requires Inv(cfg, e) && Local(e, e', id) && p in e.pipelines && e.pipelines[p].task != id
    ensures PipelineOk(e', p)
  {
    assert PipelineOk(e, p);
    if w :| w in e.waiters && e.waiters[w].pipeline == p {
      assert WaiterOk(e, w);
    }
  }

  lemma LocalKeepsInv(cfg: Config, e: Engine, e': Engine, id: TaskId)
    requires Inv(cfg, e) && Local(e, e', id) && GroupOk(cfg, e', id)
    ensures Inv(cfg, e')
  {
    forall i | i in e'.tasks ensures TaskOk(e', i) {
      if i != id { OtherTaskOk(cfg, e, e', id, i); }
    }
    forall p | p in e'.pipelines ensures PipelineOk(e', p) {
      if e'.pipelines[p].task != id { OtherPipelineOk(cfg, e, e', id, p); }
    }
    forall w | w in e'.waiters ensures WaiterOk(e', w) {
      if e'.waiters[w].task != id { assert WaiterOk(e, w); }
    }
    forall n | n in e'.notices ensures NoticeOk(cfg, e', n) {
      if e'.notices[n].task != id { assert NoticeOk(cfg, e, n); }
    }
  }

  /** `e'` has the same skeleton as `e`: only commands, products, requirements and logs may differ. */
  ghost predicate SameSkeleton(e: Engine, e': Engine) {
    && e'.pipelines == e.pipelines && e'.waiters == e.waiters && e'.notices == e.notices && e'.next == e.next
    && e'.tasks.Keys == e.tasks.Keys
    && forall i :: i in e.tasks ==>
         && e'.tasks[i].state == e.tasks[i].state
         && e'.tasks[i].history == e.tasks[i].history
         && e'.tasks[i].future == e.tasks[i].future
  }

  lemma SameSkeletonKeepsInv(cfg: Config, e: Engine, e': Engine)
    requires Inv(cfg, e) && SameSkeleton(e, e')
    ensures Inv(cfg, e')
  {
    forall i | i in e'.tasks ensures TaskOk(e', i) { assert TaskOk(e, i); }
    forall p | p in e'.pipelines ensures PipelineOk(e', p) { assert PipelineOk(e, p); }
    forall w | w in e'.waiters ensures WaiterOk(e', w) { assert WaiterOk(e, w); }
    forall n | n in e'.notices ensures NoticeOk(cfg, e', n) { assert NoticeOk(cfg, e, n); }
  }

  // ---------------------------------------------------------------- the kinds of steps

  lemma UnknownTaskOwnsNothing(cfg: Config, e: Engine, id: TaskId)
    requires Inv(cfg, e) && id !in e.tasks
    ensures forall p :: p in e.pipelines ==> e.pipelines[p].task != id
    ensures forall w :: w in e.waiters ==> e.waiters[w].task != id
    ensures forall n :: n in e.notices ==> e.notices[n].task != id
    ensures e.next !in e.pipelines
  {
    forall p | p in e.pipelines ensures e.pipelines[p].task != id && p < e.next { assert PipelineOk(e, p); }
    forall w | w in e.waiters ensures e.waiters[w].task != id { assert WaiterOk(e, w); }
    forall n | n in e.notices ensures e.notices[n].task != id { assert NoticeOk(cfg, e, n); }
  }

  lemma TurnedAwayKeepsInv(cfg: Config, e: Engine, id: TaskId, c: Command)
    requires Inv(cfg, e) && id !in e.tasks && Busy(cfg, e)
    ensures Inv(cfg, StartNew(cfg, e, id, c))
  {
    UnknownTaskOwnsNothing(cfg, e, id);
    LocalKeepsInv(cfg, e, StartNew(cfg, e, id, c), id);
  }

  lemma AdmittedKeepsInv(cfg: Config, e: Engine, id: TaskId, c: Command)
    requires Inv(cfg, e) && id !in e.tasks && !Busy(cfg, e)
    ensures Inv(cfg, StartNew(cfg, e, id, c))
  {
    var e' := StartNew(cfg, e, id, c);
    UnknownTaskOwnsNothing(cfg, e, id);
    assert e'.tasks[id].future == Some(e.next) && Live(e', e.next);
    assert TaskOk(e', id) && PipelineOk(e', e.next);
    LocalKeepsInv(cfg, e, e', id);
  }

  lemma CancelRequestKeepsInv(cfg: Config, e: Engine, id: TaskId, c: Command)
    requires Inv(cfg, e) && id in e.tasks
    requires e.tasks[id].future.Some? && Live(e, e.tasks[id].future.value)
    ensures Inv(cfg, OnCancel(cfg, e, id, c))
  {
    var e' := OnCancel(cfg, e, id, c);
    var f := e.tasks[id].future.value;
    assert TaskOk(e, id) && PipelineOk(e, f);
    forall w | w in e.waiters ensures w < e.next && w in e'.waiters && e'.waiters[w] == e.waiters[w] {
      assert WaiterOk(e, w);
    }
    assert e.next in e'.waiters && e'.waiters[e.next].pipeline == f;
    assert TaskOk(e', id);
    forall p | p in e'.pipelines && e'.pipelines[p].task == id ensures PipelineOk(e', p) {
      assert PipelineOk(e, p);
    }
    forall w | w in e'.waiters && e'.waiters[w].task == id ensures WaiterOk(e', w) {
      if w in e.waiters { assert WaiterOk(e, w); }
    }
    forall n | n in e'.notices && e'.notices[n].task == id ensures NoticeOk(cfg, e', n) {
      assert NoticeOk(cfg, e, n);
    }
    LocalKeepsInv(cfg, e, e', id);
  }

  /** Nothing waits for the pipelines of a task that awaits its Leader. */
  lemma IdleTaskIsNotAwaited(cfg: Config, e: Engine, id: TaskId)
    requires Inv(cfg, e) && id in e.tasks
    requires !Terminal(e.tasks[id].state) && !Running(e.tasks[id].state)
    ensures forall w :: w in e.waiters ==> e.waiters[w].task != id
    ensures forall p :: p in e.pipelines && e.pipelines[p].task == id ==> !Awaited(e, p)
  {
    forall w | w in e.waiters
      ensures e.waiters[w].task != id
      ensures e.waiters[w].pipeline in e.pipelines && e.pipelines[e.waiters[w].pipeline].task != id
    {
      assert WaiterOk(e, w);
    }
  }

  /** A task whose pipeline is not live settles in a state without pipeline. */
  lemma SettleKeepsInv(cfg: Config, e: Engine, id: TaskId, s: State)
    requires Inv(cfg, e) && id in e.tasks && e.tasks[id].history != []
    requires Edge(e.tasks[id].state, s) && !Running(s) && (s == Canceled || !Running(e.tasks[id].state))
    requires e.tasks[id].future.Some? ==> !Live(e, e.tasks[id].future.value)
    ensures Inv(cfg, SetState(cfg, e, id, s))
  {
    var e' := SetState(cfg, e, id, s);
    assert TaskOk(e, id);
    if s != Canceled {
      IdleTaskIsNotAwaited(cfg, e, id);
    }
    HistoryGrows(e.tasks[id], s);
    assert TaskOk(e', id);
    forall p | p in e'.pipelines && e'.pipelines[p].task == id ensures PipelineOk(e', p) {
      assert PipelineOk(e, p);
    }
    forall w | w in e'.waiters && e'.waiters[w].task == id ensures WaiterOk(e', w) {
      assert WaiterOk(e, w);
    }
    NoticesStayOk(cfg, e, e', id);
    LocalKeepsInv(cfg, e, e', id);
  }

  /** After an update of `id`, its old notices are still in range and the new ones point at the last entry. */
  lemma NoticesStayOk(cfg: Config, e: Engine, e': Engine, id: TaskId)
    requires Inv(cfg, e) && id in e.tasks && id in e'.tasks
    requires |e'.tasks[id].history| == |e.tasks[id].history| + 1
    requires e.next + cfg.listeners <= e'.next
    requires e'.notices == e.notices + NoticesFor(e.next, cfg.listeners, id, |e.tasks[id].history|)
    ensures forall n :: n in e'.notices && e'.notices[n].task == id ==> NoticeOk(cfg, e', n)
  {
    forall n | n in e'.notices && e'.notices[n].task == id ensures NoticeOk(cfg, e', n) {
      if n in e.notices { assert NoticeOk(cfg, e, n); }
    }
  }

  /** What an uncancelled live pipeline knows about its task. */
  lemma LivePipelineFacts(cfg: Config, e: Engine, p: nat)
    requires Inv(cfg, e) && Live(e, p) && !e.pipelines[p].cancelled
    ensures var id := e.pipelines[p].task;
      && id in e.tasks && e.tasks[id].state == StateAt(e.pipelines[p].at) && e.tasks[id].history != []
      && e.tasks[id].future == Some(p)
      && !Awaited(e, p)
      && (forall w :: w in e.waiters ==> e.waiters[w].task != id)
      && (forall q :: q in e.pipelines && e.pipelines[q].task == id && q != p ==>
            e.pipelines[q].at == Finished && !e.pipelines[q].cancelled)
  {
    var id := e.pipelines[p].task;
    assert PipelineOk(e, p);
    assert TaskOk(e, id);
    forall w | w in e.waiters ensures e.waiters[w].task != id && e.waiters[w].pipeline != p {
      assert WaiterOk(e, w);
    }
    forall q | q in e.pipelines && e.pipelines[q].task == id && q != p
      ensures e.pipelines[q].at == Finished && !e.pipelines[q].cancelled
    {
      assert PipelineOk(e, q);
      if w :| w in e.waiters && e.waiters[w].pipeline == q {
        assert WaiterOk(e, w);
      }
    }
  }

  /** The pipeline of a task ends and moves it to a state without pipeline. */
  lemma EndWithKeepsInv(cfg: Config, e: Engine, p: nat, s: State)
    requires Inv(cfg, e) && Live(e, p) && !e.pipelines[p].cancelled && e.pipelines[p].task in e.tasks
    requires Edge(StateAt(e.pipelines[p].at), s) && !Running(s)
    ensures Inv(cfg, EndWith(cfg, e, p, s))
  {
    var e' := EndWith(cfg, e, p, s);
    var id := e.pipelines[p].task;
    LivePipelineFacts(cfg, e, p);
    assert TaskOk(e, id);
    HistoryGrows(e.tasks[id], s);
    assert TaskOk(e', id);
    forall q | q in e'.pipelines && e'.pipelines[q].task == id ensures PipelineOk(e', q) {
      assert PipelineOk(e, q);
    }
    NoticesStayOk(cfg, e, e', id);
    LocalKeepsInv(cfg, e, e', id);
  }

  /** A pipeline moves to another point of the same state of its task. */
  lemma MoveToKeepsInv(cfg: Config, e: Engine, p: nat, at: Point)
    requires Inv(cfg, e) && Live(e, p) && !e.pipelines[p].cancelled
    requires at != Finished && StateAt(at) == StateAt(e.pipelines[p].at)
    ensures Inv(cfg, MoveTo(e, p, at))
  {
    var e' := MoveTo(e, p, at);
    var id := e.pipelines[p].task;
    LivePipelineFacts(cfg, e, p);
    assert TaskOk(e, id);
    assert Live(e', p);
    assert TaskOk(e', id);
    forall q | q in e'.pipelines && e'.pipelines[q].task == id ensures PipelineOk(e', q) {
      assert PipelineOk(e, q);
    }
    forall n | n in e'.notices && e'.notices[n].task == id ensures NoticeOk(cfg, e', n) {
      assert NoticeOk(cfg, e, n);
    }
    LocalKeepsInv(cfg, e, e', id);
  }

  lemma DecisionAcceptKeepsInv(cfg: Config, e: Engine, p: nat)
    requires Inv(cfg, e) && Live(e, p) && !e.pipelines[p].cancelled && e.pipelines[p].task in e.tasks
    requires e.pipelines[p].at == AwaitAudit(false)
    ensures Inv(cfg, MoveTo(SetState(cfg, e, e.pipelines[p].task, Working), p, AwaitAnalysis))
  {
    var id := e.pipelines[p].task;
    var e' := MoveTo(SetState(cfg, e, id, Working), p, AwaitAnalysis);
    LivePipelineFacts(cfg, e, p);
    assert TaskOk(e, id);
    HistoryGrows(e.tasks[id], Working);
    assert Live(e', p);
    assert TaskOk(e', id);
    forall q | q in e'.pipelines && e'.pipelines[q].task == id ensures PipelineOk(e', q) {
      assert PipelineOk(e, q);
    }
    NoticesStayOk(cfg, e, e', id);
    LocalKeepsInv(cfg, e, e', id);
  }

  /** A pipeline asked to cancel stops; its Cancel handlers are still there. */
  lemma StopKeepsInv(cfg: Config, e: Engine, p: nat)
    requires Inv(cfg, e) && Live(e, p) && e.pipelines[p].cancelled
    ensures Inv(cfg, MoveTo(e, p, Finished))
  {
    var e' := MoveTo(e, p, Finished);
    var id := e.pipelines[p].task;
    assert PipelineOk(e, p) && TaskOk(e, id);
    assert Awaited(e, p);
    assert Awaited(e', p);
    assert TaskOk(e', id);
    forall q | q in e'.pipelines && e'.pipelines[q].task == id ensures PipelineOk(e', q) {
      assert PipelineOk(e, q);
      if w :| w in e.waiters && e.waiters[w].pipeline == q {
        assert w in e'.waiters;
      }
    }
    forall w | w in e'.waiters && e'.waiters[w].task == id ensures WaiterOk(e', w) {
      assert WaiterOk(e, w);
    }
    forall n | n in e'.notices && e'.notices[n].task == id ensures NoticeOk(cfg, e', n) {
      assert NoticeOk(cfg, e, n);
    }
    LocalKeepsInv(cfg, e, e', id);
  }

  lemma ResumeCancelKeepsInv(cfg: Config, e: Engine, w: nat)
    requires Inv(cfg, e) && Enabled(e, CancelResumes(w))
    ensures Inv(cfg, ResumeCancel(cfg, e, w))
  {
    var Waiter(id, f) := e.waiters[w];
    var e' := ResumeCancel(cfg, e, w);
    assert WaiterOk(e, w) && TaskOk(e, id);
    OpenStatesCanCancel(e.tasks[id].state);
    if !Terminal(e.tasks[id].state) {
      HistoryGrows(e.tasks[id], Canceled);
      NoticesStayOk(cfg, e, e', id);
    } else {
      forall n | n in e'.notices && e'.notices[n].task == id ensures NoticeOk(cfg, e', n) {
        assert NoticeOk(cfg, e, n);
      }
    }
    assert TaskOk(e', id);
    forall q | q in e'.pipelines && e'.pipelines[q].task == id ensures PipelineOk(e', q) {
      assert PipelineOk(e, q);
    }
    forall v | v in e'.waiters && e'.waiters[v].task == id ensures WaiterOk(e', v) {
      assert WaiterOk(e, v);
    }
    LocalKeepsInv(cfg, e, e', id);
  }

  lemma ContinueKeepsInv(cfg: Config, e: Engine, id: TaskId)
    requires Inv(cfg, e) && id in e.tasks && e.tasks[id].state in {AwaitingInput, AwaitingCompletion}
    ensures Inv(cfg, Launch(SetState(cfg, e, id, Working), id, AnalysisStage))
  {
    var e1 := SetState(cfg, e, id, Working);
    var e' := Launch(e1, id, AnalysisStage);
    var p := e1.next;
    assert TaskOk(e, id);
    HistoryGrows(e.tasks[id], Working);
    forall q | q in e.pipelines ensures q < e.next { assert PipelineOk(e, q); }
    assert Live(e', p) && e'.tasks[id].future == Some(p);
    assert TaskOk(e', id);
    IdleTaskIsNotAwaited(cfg, e, id);
    forall q | q in e'.pipelines && e'.pipelines[q].task == id ensures PipelineOk(e', q) {
      if q in e.pipelines { assert PipelineOk(e, q); }
    }
    NoticesStayOk(cfg, e, e', id);
    LocalKeepsInv(cfg, e, e', id);
  }

  lemma DeliverKeepsInv(cfg: Config, e: Engine, n: nat)
    requires Inv(cfg, e) && Enabled(e, ListenerRuns(n))
    ensures Inv(cfg, Deliver(e, n))
  {
    var e' := Deliver(e, n);
    forall i | i in e'.tasks ensures TaskOk(e', i) {
      assert TaskOk(e, i);
      assert e'.tasks == e.tasks && e'.waiters == e.waiters && e'.pipelines == e.pipelines;
    }
    forall p | p in e'.pipelines ensures PipelineOk(e', p) { assert PipelineOk(e, p); }
    forall w | w in e'.waiters ensures WaiterOk(e', w) { assert WaiterOk(e, w); }
    forall m | m in e'.notices ensures NoticeOk(cfg, e', m) { assert NoticeOk(cfg, e, m); }
  }
}
