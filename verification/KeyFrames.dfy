/** What the commands of one agent do to the account key files of others. */
module KeyFrames {
  import opened Basics
  import opened KeyWorkspace

  // ---------------------------------------------------------------- issuing and renewing

  /** The stages of an issue or renewal that take place, of those up to `stop`. */
  function StagesDone(cfg: Config, w: Workspace, o: Options, allowLegacy: bool, stop: nat): nat {
    match Resolve(cfg, w.files, o.aic, allowLegacy)
    case Resolved(source) =>
      if Unreadable(w.files, LoadPath(source, o.aic)) || stop == 0 then 0
      else if AgentKeyFails(w, o, source) then 1
      else stop
    case _ => 0
  }

  /** The command writes an output over the file that is at `p`. */
  predicate Overwrites(cfg: Config, w: Workspace, o: Options, allowLegacy: bool, stop: nat, p: Path) {
    var done := StagesDone(cfg, w, o, allowLegacy, stop);
    || (done >= 2 && !o.reuse && AgentPath(o) == p)
    || (done >= 5 && CertPath(o) == p)
    || (done >= 6 && BundlePath(cfg, o) == p)
  }

  lemma PrepareKeepsFile(w: Workspace, o: Options, source: Source, stop: nat, b: Aic)
    requires b != o.aic && Holds(w.files, b) && Bounded(w, Canonical(b))
    ensures var r, p := Prepare(w, o, source, stop), Canonical(b);
      && p in r.files
      && if stop >= 2 && !o.reuse && AgentPath(o) == p then r.files[p].KeyFile? && r.files[p].key >= w.next
         else r.files[p] == w.files[p]
  {
    if Canonical(b) == Canonical(o.aic) { CanonicalInjective(b, o.aic); }
  }

  lemma ObtainKeepsFile(cfg: Config, w: Workspace, o: Options, source: Source, stop: nat, b: Aic)
    requires b != o.aic && Canonical(b) in w.files
    ensures var r, p := Obtain(cfg, w, o, source, stop), Canonical(b);
      && p in r.files
      && r.files[p] == if (stop >= 5 && CertPath(o) == p) || (stop >= 6 && BundlePath(cfg, o) == p) then Other
                       else w.files[p]
  {
    if Canonical(b) == Canonical(o.aic) { CanonicalInjective(b, o.aic); }
  }

  /** An issue or renewal leaves another agent's account key alone exactly when none of the outputs it gets to
      write is put in its place. */
  lemma NewCertKeepsOthersIff(cfg: Config, w: Workspace, o: Options, allowLegacy: bool, stop: nat, b: Aic)
    requires KeysBounded(w) && b != o.aic && Holds(w.files, b)
    ensures var r, p := NewCert(cfg, w, o, allowLegacy, stop), Canonical(b);
      && p in r.files
      && (r.files[p] == w.files[p] <==> !Overwrites(cfg, w, o, allowLegacy, stop, p))
  {
    assert Bounded(w, Canonical(b));
    match Resolve(cfg, w.files, o.aic, allowLegacy)
    case Resolved(source) =>
      PrepareKeepsFile(w, o, source, stop, b);
      ObtainKeepsFile(cfg, Prepare(w, o, source, stop), o, source, stop, b);
      PrepareKeepsFile(w, o, source, if stop == 0 then 0 else 1, b);
      if AgentKeyFails(w, o, source) && !Unreadable(w.files, LoadPath(source, o.aic)) {
        FailedPrepare(w, o, source, stop);
      }
    case _ =>
  }

  lemma FailedPrepare(w: Workspace, o: Options, source: Source, stop: nat)
    requires AgentKeyFails(w, o, source)
    ensures Prepare(w, o, source, stop) == Prepare(w, o, source, if stop == 0 then 0 else 1)
  {
  }

  /** With the workspace's own output paths no account key is in the way. */
  lemma OwnPathsOverwriteNoKey(cfg: Config, w: Workspace, o: Options, allowLegacy: bool, stop: nat, b: Aic)
    requires o.keyPath.None? && o.certPath.None? && o.bundlePath.None? && cfg.trustBundle.dir != Accounts
    ensures !Overwrites(cfg, w, o, allowLegacy, stop, Canonical(b))
  {
  }

  // ---------------------------------------------------------------- rolling over

  /** A rollover leaves every other agent's account key file alone, whatever path it is given. */
  lemma RolloverKeepsOthers(w: Workspace, aic: Aic, named: Option<Path>, backup: Option<Timestamp>, stop: nat, b: Aic)
    requires b != aic && Canonical(b) in w.files
    ensures var r := Rollover(w, aic, named, backup, stop);
      Canonical(b) in r.files && r.files[Canonical(b)] == w.files[Canonical(b)]
  {
    if Canonical(b) == Canonical(aic) { CanonicalInjective(b, aic); }
    if backup.Some? { BackupIsNotCanonical(aic, backup.value, b); }
  }

  // ---------------------------------------------------------------- where keys come from

  /** Every key in the files of `w'` was in those of `w` or was generated since. */
  ghost predicate Derives(w: Workspace, w': Workspace) {
    && w.next <= w'.next
    && forall p :: p in w'.files && w'.files[p].KeyFile? && w'.files[p] !in w.files.Values ==>
         w.next <= w'.files[p].key < w'.next
  }

  lemma DerivesTwice(w: Workspace, w': Workspace, w'': Workspace)
    requires Derives(w, w') && Derives(w', w'')
    ensures Derives(w, w'')
  {
    forall p | p in w''.files && w''.files[p].KeyFile? && w''.files[p] !in w.files.Values
      ensures w.next <= w''.files[p].key < w''.next
    {
    }
  }

  lemma WriteDerives(w: Workspace, w': Workspace, p: Path)
    requires w.next <= w'.next && p in w'.files && w'.files == w.files[p := w'.files[p]]
    requires w'.files[p].Other? || w'.files[p] in w.files.Values || w.next <= w'.files[p].key < w'.next
    ensures Derives(w, w')
  {
  }

  lemma PrepareDerives(w: Workspace, o: Options, source: Source, stop: nat)
    ensures Derives(w, Prepare(w, o, source, stop))
  {
    var w1 := AccountKeyStage(w, o.aic, source);
    var w2 := AgentKeyStage(w1, o);
    WriteDerives(w, Save(w, Canonical(o.aic)), Canonical(o.aic));
    WriteDerives(w1, Save(w1, AgentPath(o)), AgentPath(o));
    WriteDerives(w2, Put(w2, Path(Csrs, o.aic + Suffix(Csrs))), Path(Csrs, o.aic + Suffix(Csrs)));
    DerivesTwice(w, w1, w2);
    DerivesTwice(w, w2, Put(w2, Path(Csrs, o.aic + Suffix(Csrs))));
  }

  lemma ObtainDerives(cfg: Config, w: Workspace, o: Options, source: Source, stop: nat)
    ensures Derives(w, Obtain(cfg, w, o, source, stop))
  {
    var w4 := AdoptStage(w, o.aic, source);
    var w5 := Put(w4, CertPath(o));
    var w6 := Put(w5, BundlePath(cfg, o));
    WriteDerives(w4, w5, CertPath(o));
    WriteDerives(w5, w6, BundlePath(cfg, o));
    DerivesTwice(w, w4, w5);
    DerivesTwice(w, w5, w6);
  }

  lemma NewCertDerives(cfg: Config, w: Workspace, o: Options, allowLegacy: bool, stop: nat)
    ensures Derives(w, NewCert(cfg, w, o, allowLegacy, stop))
  {
    match Resolve(cfg, w.files, o.aic, allowLegacy)
    case Resolved(source) =>
      var w3 := Prepare(w, o, source, stop);
      PrepareDerives(w, o, source, stop);
      ObtainDerives(cfg, w3, o, source, stop);
      DerivesTwice(w, w3, Obtain(cfg, w3, o, source, stop));
    case _ =>
  }

  lemma RolloverDerives(w: Workspace, aic: Aic, named: Option<Path>, backup: Option<Timestamp>, stop: nat)
    ensures Derives(w, Rollover(w, aic, named, backup, stop))
  {
  }

  /** No command writes a key that was neither in a file nor generated by it. */
  lemma PerformDerives(cfg: Config, w: Workspace, c: Command)
    ensures Derives(w, Perform(cfg, w, c))
  {
    match c
    case Issue(o, stop) => NewCertDerives(cfg, w, o, true, stop);
    case Renew(o, stop) => NewCertDerives(cfg, w, o.(reuse := true), false, stop);
    case RollOver(aic, named, backup, stop) => RolloverDerives(w, aic, named, backup, stop);
    case Pregenerate(name) => WriteDerives(w, Save(w, Path(Elsewhere, name)), Path(Elsewhere, name));
  }

  lemma PerformKeepsBounded(cfg: Config, w: Workspace, c: Command)
    requires KeysBounded(w)
    ensures KeysBounded(Perform(cfg, w, c))
  {
    PerformDerives(cfg, w, c);
    var w' := Perform(cfg, w, c);
    forall p ensures Bounded(w', p) {
      if p in w'.files && w'.files[p] in w.files.Values {
        var q :| q in w.files && w.files[q] == w'.files[p];
        assert Bounded(w, q);
      }
    }
  }

  // ---------------------------------------------------------------- runs

  /** The command is for another agent and writes none of its outputs in place of `b`'s account key. */
  predicate Spares(cfg: Config, w: Workspace, c: Command, b: Aic) {
    match c
    case Issue(o, stop) => o.aic != b && !Overwrites(cfg, w, o, true, stop, Canonical(b))
    case Renew(o, stop) => o.aic != b && !Overwrites(cfg, w, o.(reuse := true), false, stop, Canonical(b))
    case RollOver(aic, _, _, _) => aic != b
    case Pregenerate(_) => true
  }

  predicate SparedRun(cfg: Config, w: Workspace, cs: seq<Command>, b: Aic)
    decreases |cs|
  {
    cs == [] || (Spares(cfg, w, cs[0], b) && SparedRun(cfg, Perform(cfg, w, cs[0]), cs[1..], b))
  }

  lemma SparedByOne(cfg: Config, w: Workspace, c: Command, b: Aic)
    requires KeysBounded(w) && Holds(w.files, b) && Spares(cfg, w, c, b)
    ensures var r := Perform(cfg, w, c); Holds(r.files, b) && r.files[Canonical(b)] == w.files[Canonical(b)]
  {
    match c
    case Issue(o, stop) => NewCertKeepsOthersIff(cfg, w, o, true, stop, b);
    case Renew(o, stop) => NewCertKeepsOthersIff(cfg, w, o.(reuse := true), false, stop, b);
    case RollOver(aic, named, backup, stop) => RolloverKeepsOthers(w, aic, named, backup, stop, b);
    case Pregenerate(_) =>
  }

  /** Over every run of commands for other agents that spare its place, an agent's account key stays the same. */
  lemma {:induction false} SparedKeyStays(cfg: Config, w: Workspace, cs: seq<Command>, b: Aic)
    requires KeysBounded(w) && Holds(w.files, b) && SparedRun(cfg, w, cs, b)
    ensures var end := PerformAll(cfg, w, cs); Holds(end.files, b) && end.files[Canonical(b)] == w.files[Canonical(b)]
    decreases |cs|
  {
    if cs != [] {
      SparedByOne(cfg, w, cs[0], b);
      PerformKeepsBounded(cfg, w, cs[0]);
      SparedKeyStays(cfg, Perform(cfg, w, cs[0]), cs[1..], b);
    }
  }

  // ---------------------------------------------------------------- runs that disturb another agent

  /** In a fresh workspace, issuing for one agent and rolling its key over to another agent's place leaves both
      with the same key. */
  lemma RolloverCanShare(cfg: Config) returns (cs: seq<Command>)
    ensures !NoSharing(PerformAll(cfg, Workspace(map[], 0, []), cs).files)
  {
    var w := Workspace(map[], 0, []);
    var issue, rollover := Issue(Options("a", false, None, None, None), 1), RollOver("a", Some(Canonical("b")), None, 3);
    cs := [issue, rollover];
    if Canonical("a") == Canonical("b") { CanonicalInjective("a", "b"); }
    var w1 := Perform(cfg, w, issue);
    assert w1 == Save(w, Canonical("a"));
    var w2 := Perform(cfg, w1, rollover);
    assert Holds(w2.files, "a") && Holds(w2.files, "b") && w2.files[Canonical("a")] == w2.files[Canonical("b")];
    assert cs[1..] == [rollover] && [rollover][1..] == [];
    assert PerformAll(cfg, w2, []) == w2;
    assert PerformAll(cfg, w1, [rollover]) == w2;
  }

  /** In a fresh workspace, an issue that puts its agent key in another agent's place destroys that agent's account
      key. */
  lemma IssueCanOverwrite(cfg: Config) returns (first: Command, second: Command)
    ensures var w1 := PerformAll(cfg, Workspace(map[], 0, []), [first]);
      var w2 := PerformAll(cfg, Workspace(map[], 0, []), [first, second]);
      && Holds(w1.files, "b") && second.Issue? && second.o.aic == "a"
      && Holds(w2.files, "b") && w2.files[Canonical("b")] != w1.files[Canonical("b")]
  {
    var w := Workspace(map[], 0, []);
    first := Issue(Options("b", false, None, None, None), 1);
    second := Issue(Options("a", false, Some(Canonical("b")), None, None), 2);
    if Canonical("a") == Canonical("b") { CanonicalInjective("a", "b"); }
    var w1 := Perform(cfg, w, first);
    assert w1 == Save(w, Canonical("b"));
    var w2 := Perform(cfg, w1, second);
    assert w2 == Save(Save(w1, Canonical("a")), Canonical("b"));
    assert [first][1..] == [] && [first, second][1..] == [second] && [second][1..] == [];
    assert PerformAll(cfg, w1, []) == w1 && PerformAll(cfg, w2, []) == w2;
    assert PerformAll(cfg, w1, [second]) == w2;
  }
}
