/** What observers of the task engine see: audit records and listener calls. */
module TaskObservers {
  import opened TaskEngine
  import opened TaskSafety
  import opened TaskRuns
  import opened TaskBounds

  // ---------------------------------------------------------------- audits

  /** The audit attempts a task owes: one with the matching result once an admitted task has ended. */
  function OwedAudits(e: Engine, id: TaskId): seq<Audit> {
    if id in e.tasks && e.tasks[id].history != [] && Terminal(e.tasks[id].state)
    then [Audit(id, e.tasks[id].state == Completed)] else []
  }

  ghost predicate AuditsOk(e: Engine) {
    forall id :: AuditsOf(e.audits, id) == OwedAudits(e, id)
  }

  /** Only the subject of an event is audited, and only if it is known. */
  lemma OthersAreNotAudited(cfg: Config, e: Engine, ev: Event, id: TaskId)
    requires Enabled(e, ev) && id !in e.tasks
    ensures AuditsOf(Step(cfg, e, ev).audits, id) == AuditsOf(e.audits, id)
  {
    StepTouchesSubject(cfg, e, ev);
    var e' := Step(cfg, e, ev);
    if e'.audits != e.audits {
      assert e'.audits[..|e'.audits| - 1] == e.audits;
    }
  }

  lemma RecordedStepKeepsOwedAudits(cfg: Config, e: Engine, e': Engine, id: TaskId)
    requires id in e.tasks && id in e'.tasks && Records(cfg, e, e', id)
    requires AuditsOf(e.audits, id) == OwedAudits(e, id)
    ensures AuditsOf(e'.audits, id) == OwedAudits(e', id)
  {
  }

  lemma StepKeepsOwedAudits(cfg: Config, e: Engine, ev: Event, id: TaskId)
    requires Inv(cfg, e) && AuditsOf(e.audits, id) == OwedAudits(e, id) && Enabled(e, ev) && Fresh(e, ev)
    ensures AuditsOf(Step(cfg, e, ev).audits, id) == OwedAudits(Step(cfg, e, ev), id)
  {
    if id in e.tasks {
      StepRecords(cfg, e, ev, id);
      RecordedStepKeepsOwedAudits(cfg, e, Step(cfg, e, ev), id);
    } else {
      OthersAreNotAudited(cfg, e, ev, id);
      if id in Step(cfg, e, ev).tasks { NewTasksAreAdmitted(cfg, e, ev, id); }
    }
  }

  lemma StepKeepsAudits(cfg: Config, e: Engine, ev: Event)
    requires Inv(cfg, e) && AuditsOk(e) && Enabled(e, ev) && Fresh(e, ev)
    ensures AuditsOk(Step(cfg, e, ev))
  {
    forall id ensures AuditsOf(Step(cfg, e, ev).audits, id) == OwedAudits(Step(cfg, e, ev), id) {
      StepKeepsOwedAudits(cfg, e, ev, id);
    }
  }

  /** Every admitted task that has ended was audited exactly once, with the result its state maps to, and no
      other task was. */
  lemma {:induction false} ExactlyOneTerminalAudit(cfg: Config, e: Engine, evs: seq<Event>)
    requires Inv(cfg, e) && AuditsOk(e) && Run(cfg, e, evs)
    ensures AuditsOk(After(cfg, e, evs))
    decreases |evs|
  {
    if evs != [] {
      StepKeepsInv(cfg, e, evs[0]);
      StepKeepsAudits(cfg, e, evs[0]);
      ExactlyOneTerminalAudit(cfg, Step(cfg, e, evs[0]), evs[1..]);
    }
  }

  // ---------------------------------------------------------------- delayed listener calls

  /** A sighting saw an entry of the task's history, no earlier than the one that scheduled it. */
  predicate SightingOk(cfg: Config, e: Engine, s: Sighting) {
    && s.task in e.tasks
    && s.listener < cfg.listeners
    && s.scheduled <= s.seen < |e.tasks[s.task].history|
    && s.state == e.tasks[s.task].history[s.seen]
  }

  predicate SameObserver(a: Sighting, b: Sighting) {
    a.task == b.task && a.listener == b.listener
  }

  /** What one listener sees of one task never goes back. */
  predicate NeverBack(sightings: seq<Sighting>) {
    forall i, j :: 0 <= i < j < |sightings| && SameObserver(sightings[i], sightings[j]) ==>
      sightings[i].seen <= sightings[j].seen
  }

  ghost predicate Seen(e: Engine, id: TaskId, listener: nat, index: nat) {
    exists s :: s in e.sightings && s.task == id && s.listener == listener && s.seen == index
  }

  /** Every listener has seen entry `index` of the task or has a call for it pending. */
  ghost predicate Informed(cfg: Config, e: Engine, id: TaskId, index: nat) {
    forall l: nat :: l < cfg.listeners ==> Pending(e, id, l, index) || Seen(e, id, l, index)
  }

  /** Every listener is informed of the task's latest update. */
  ghost predicate UpToDate(cfg: Config, e: Engine, id: TaskId)
    requires id in e.tasks
  {
    |e.tasks[id].history| >= 2 ==> Informed(cfg, e, id, |e.tasks[id].history| - 1)
  }

  ghost predicate SightingsOk(cfg: Config, e: Engine) {
    && (forall s :: s in e.sightings ==> SightingOk(cfg, e, s))
    && NeverBack(e.sightings)
    && (forall id {:trigger UpToDate(cfg, e, id)} :: id in e.tasks ==> UpToDate(cfg, e, id))
  }

  /** Events other than a listener call leave sightings alone and only add notices. */
  predicate OnlyAddsNotices(e: Engine, e': Engine) {
    && e'.sightings == e.sightings
    && forall n :: n in e.notices ==> n in e'.notices && e'.notices[n] == e.notices[n]
  }

  lemma StepOnlyAddsNotices(cfg: Config, e: Engine, ev: Event)
    requires Inv(cfg, e) && Enabled(e, ev) && !ev.ListenerRuns?
    ensures OnlyAddsNotices(e, Step(cfg, e, ev))
  {
    forall n | n in e.notices ensures n < e.next { assert NoticeOk(cfg, e, n); }
    StepTouchesSubject(cfg, e, ev);
  }

  lemma InformedStays(cfg: Config, e: Engine, e': Engine, id: TaskId, index: nat)
    requires OnlyAddsNotices(e, e') && Informed(cfg, e, id, index)
    ensures Informed(cfg, e', id, index)
  {
    forall l: nat | l < cfg.listeners ensures Pending(e', id, l, index) || Seen(e', id, l, index) {
      assert Pending(e, id, l, index) || Seen(e, id, l, index);
    }
  }

  lemma InformedAfterCall(cfg: Config, e: Engine, n: nat, id: TaskId)
    requires Inv(cfg, e) && Enabled(e, ListenerRuns(n)) && id in e.tasks
    requires |e.tasks[id].history| >= 2 && Informed(cfg, e, id, |e.tasks[id].history| - 1)
    ensures Informed(cfg, Deliver(e, n), id, |e.tasks[id].history| - 1)
  {
    var e', last := Deliver(e, n), |e.tasks[id].history| - 1;
    forall l: nat | l < cfg.listeners ensures Pending(e', id, l, last) || Seen(e', id, l, last) {
      if Seen(e, id, l, last) {
        var s :| s in e.sightings && s.task == id && s.listener == l && s.seen == last;
        assert s in e'.sightings;
      } else {
        assert Pending(e, id, l, last);
        var m :| m in e.notices && e.notices[m] == Notice(id, l, last);
        if m == n { assert e'.sightings[|e.sightings|] in e'.sightings; } else { assert m in e'.notices; }
      }
    }
  }

  lemma RecordedStepKeepsUpToDate(cfg: Config, e: Engine, e': Engine, id: TaskId)
    requires id in e.tasks && id in e'.tasks && UpToDate(cfg, e, id)
    requires Records(cfg, e, e', id) && OnlyAddsNotices(e, e')
    ensures UpToDate(cfg, e', id)
  {
    if |e.tasks[id].history| >= 2 {
      InformedStays(cfg, e, e', id, |e.tasks[id].history| - 1);
    }
  }

  lemma OtherStepKeepsUpToDate(cfg: Config, e: Engine, ev: Event, id: TaskId)
    requires Inv(cfg, e) && Enabled(e, ev) && Fresh(e, ev) && !ev.ListenerRuns?
    requires id in e.tasks ==> UpToDate(cfg, e, id)
    ensures id in Step(cfg, e, ev).tasks ==> UpToDate(cfg, Step(cfg, e, ev), id)
  {
    if id in e.tasks {
      StepRecords(cfg, e, ev, id);
      StepOnlyAddsNotices(cfg, e, ev);
      RecordedStepKeepsUpToDate(cfg, e, Step(cfg, e, ev), id);
    } else {
      NewTasksAreAdmitted(cfg, e, ev, id);
    }
  }

  lemma OtherStepKeepsSightings(cfg: Config, e: Engine, ev: Event)
    requires Inv(cfg, e) && SightingsOk(cfg, e) && Enabled(e, ev) && Fresh(e, ev) && !ev.ListenerRuns?
    ensures SightingsOk(cfg, Step(cfg, e, ev))
  {
    var e' := Step(cfg, e, ev);
    StepOnlyAddsNotices(cfg, e, ev);
    forall s | s in e'.sightings ensures SightingOk(cfg, e', s) {
      StepRecords(cfg, e, ev, s.task);
    }
    forall id | id in e'.tasks ensures UpToDate(cfg, e', id) {
      OtherStepKeepsUpToDate(cfg, e, ev, id);
    }
  }

  lemma ListenerCallKeepsSightings(cfg: Config, e: Engine, n: nat)
    requires Inv(cfg, e) && SightingsOk(cfg, e) && Enabled(e, ListenerRuns(n))
    ensures SightingsOk(cfg, Deliver(e, n))
  {
    var e' := Deliver(e, n);
    assert NoticeOk(cfg, e, n);
    assert TaskOk(e, e.notices[n].task);
    var latest := e'.sightings[|e.sightings|];
    forall i | 0 <= i < |e.sightings| && SameObserver(e.sightings[i], latest)
      ensures e.sightings[i].seen <= latest.seen
    {
      assert SightingOk(cfg, e, e.sightings[i]);
    }
    forall id | id in e'.tasks ensures UpToDate(cfg, e', id) {
      assert UpToDate(cfg, e, id);
      if |e.tasks[id].history| >= 2 {
        InformedAfterCall(cfg, e, n, id);
      }
    }
  }

  /** In every run, listener calls see an entry at or after the one that scheduled them, no listener's view
      of a task goes back, and every listener has seen the latest update or still has a call for it pending. */
  lemma {:induction false} ListenersNeverGoBack(cfg: Config, e: Engine, evs: seq<Event>)
    requires Inv(cfg, e) && SightingsOk(cfg, e) && Run(cfg, e, evs)
    ensures SightingsOk(cfg, After(cfg, e, evs))
    decreases |evs|
  {
    if evs != [] {
      StepKeepsInv(cfg, e, evs[0]);
      match evs[0] {
        case ListenerRuns(n) => ListenerCallKeepsSightings(cfg, e, n);
        case _ => OtherStepKeepsSightings(cfg, e, evs[0]);
      }
      ListenersNeverGoBack(cfg, Step(cfg, e, evs[0]), evs[1..]);
    }
  }

  /** Once no call is pending, every listener's last sight of every updated task is its current state. */
  lemma DrainedListenersAreCurrent(cfg: Config, evs: seq<Event>, id: TaskId, l: nat)
    requires Run(cfg, INITIAL, evs) && l < cfg.listeners
    ensures var e := After(cfg, INITIAL, evs);
      id in e.tasks && |e.tasks[id].history| >= 2 && e.notices == map[] ==>
      exists s :: s in e.sightings && s.task == id && s.listener == l && s.state == e.tasks[id].state
               && forall t :: t in e.sightings && SameObserver(s, t) ==> t.seen <= s.seen
  {
    var e := After(cfg, INITIAL, evs);
    if id !in e.tasks || |e.tasks[id].history| < 2 || e.notices != map[] {
      return;
    }
    RunKeepsInv(cfg, INITIAL, evs);
    ListenersNeverGoBack(cfg, INITIAL, evs);
    assert UpToDate(cfg, e, id) && TaskOk(e, id);
    var last := |e.tasks[id].history| - 1;
    assert Pending(e, id, l, last) || Seen(e, id, l, last);
    var s :| s in e.sightings && s.task == id && s.listener == l && s.seen == last;
    assert SightingOk(cfg, e, s);
    forall t | t in e.sightings && SameObserver(s, t) ensures t.seen <= s.seen {
      assert SightingOk(cfg, e, t);
    }
  }
}
