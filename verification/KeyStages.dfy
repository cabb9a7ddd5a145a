/** What one command leaves at each place of the workspace, told from the files it finds, and which commands adopt
    the legacy key. */
module KeyStages {
  import opened Basics
  import opened PyText
  import opened KeyWorkspace

  // ---------------------------------------------------------------- another agent's files

  /** The file is named as an agent's file in its directory, and that agent is not `aic`; the trust bundle is nobody's. */
  ghost predicate OthersFile(cfg: Config, aic: Aic, p: Path) {
    && p.dir != Elsewhere && !(p.dir == Certs && p == cfg.trustBundle)
    && exists b {:trigger b + Suffix(p.dir)} :: b != aic && p.name == b + Suffix(p.dir)
  }

  lemma OthersFileIff(cfg: Config, aic: Aic, p: Path)
    ensures Foreign(cfg, aic, p) <==> OthersFile(cfg, aic, p)
  {
    var suffix := Suffix(p.dir);
    if b :| b != aic && p.name == b + suffix {
      assert (b + suffix)[|b|..] == suffix;
      SameSuffix(b, aic, suffix);
    }
    if EndsWith(p.name, suffix) {
      var b := p.name[..|p.name| - |suffix|];
      assert p.name == b + suffix;
    }
  }

  lemma SameSuffix(a: string, b: string, suffix: string)
    ensures a + suffix == b + suffix <==> a == b
  {
    if a + suffix == b + suffix {
      assert |a| == |b|;
      assert a == (a + suffix)[..|a|] == (b + suffix)[..|b|] == b;
    }
  }

  /** The workspace has a file of another agent. */
  ghost predicate Shared(cfg: Config, files: Files, aic: Aic) {
    exists p :: p in files && OthersFile(cfg, aic, p)
  }

  lemma SharedIff(cfg: Config, files: Files, aic: Aic)
    ensures AnyForeign(cfg, files, aic) <==> Shared(cfg, files, aic)
  {
    forall p ensures Foreign(cfg, aic, p) <==> OthersFile(cfg, aic, p) { OthersFileIff(cfg, aic, p); }
  }

  // ---------------------------------------------------------------- who adopts the legacy key

  predicate Readable(files: Files, p: Path) {
    p in files && files[p].KeyFile?
  }

  /** The command makes the legacy key the account key of `aic`: it issues for an agent without an account key, in a
      workspace without a file of another, reads the legacy key, has an agent key, and gets to that stage. */
  ghost predicate Adopts(cfg: Config, w: Workspace, c: Command, aic: Aic) {
    && c.Issue? && c.o.aic == aic && c.stop >= 4
    && Canonical(aic) !in w.files && Readable(w.files, LEGACY_PATH)
    && !Shared(cfg, w.files, aic)
    && (c.o.reuse && AgentPath(c.o) in w.files ==> Readable(w.files, AgentPath(c.o)))
  }

  lemma IssueAdoptsIff(cfg: Config, w: Workspace, o: Options, stop: nat)
    ensures NewCert(cfg, w, o, true, stop).adopted
         == if Adopts(cfg, w, Issue(o, stop), o.aic) then w.adopted + [o.aic] else w.adopted
  {
    SharedIff(cfg, w.files, o.aic);
    match Resolve(cfg, w.files, o.aic, true)
    case Resolved(source) => PreparedAdopts(cfg, w, o, source, stop);
    case _ =>
  }

  lemma PreparedAdopts(cfg: Config, w: Workspace, o: Options, source: Source, stop: nat)
    requires source == FromLegacy ==> LEGACY_PATH in w.files
    ensures Obtain(cfg, Prepare(w, o, source, stop), o, source, stop).adopted
         == if source == FromLegacy && stop >= 4 then w.adopted + [o.aic] else w.adopted
    ensures Prepare(w, o, source, stop).adopted == w.adopted
  {
  }

  lemma RenewNeverAdopts(cfg: Config, w: Workspace, o: Options, stop: nat)
    ensures NewCert(cfg, w, o, false, stop).adopted == w.adopted
  {
    match Resolve(cfg, w.files, o.aic, false)
    case Resolved(source) => PreparedAdopts(cfg, w, o, source, stop);
    case _ =>
  }

  /** A command is recorded as adopting the legacy key for an agent exactly if it is an issue that `Adopts` describes;
      otherwise the record stays. */
  lemma AdoptsIff(cfg: Config, w: Workspace, c: Command, aic: Aic)
    ensures Perform(cfg, w, c).adopted == w.adopted + [aic] <==> Adopts(cfg, w, c, aic)
    ensures (forall a :: !Adopts(cfg, w, c, a)) ==> Perform(cfg, w, c).adopted == w.adopted
  {
    match c
    case Issue(o, stop) =>
      IssueAdoptsIff(cfg, w, o, stop);
      if Adopts(cfg, w, c, o.aic) {
        assert (w.adopted + [o.aic])[|w.adopted|] == o.aic;
      }
    case Renew(o, stop) => RenewNeverAdopts(cfg, w, o.(reuse := true), stop);
    case _ =>
  }

  /** The agents for which the commands of a run adopt the legacy key. */
  ghost function AdoptersIn(cfg: Config, w: Workspace, cs: seq<Command>): seq<Aic>
    decreases |cs|
  {
    if cs == [] then []
    else
      (if cs[0].Issue? && Adopts(cfg, w, cs[0], cs[0].o.aic) then [cs[0].o.aic] else [])
      + AdoptersIn(cfg, Perform(cfg, w, cs[0]), cs[1..])
  }

  lemma AppendAdopters(a: seq<Aic>, b: seq<Aic>, c: seq<Aic>)
    ensures (a + b) + c == a + (b + c)
  {
  }

  /** Over every run, the record of adoptions is that of the issues that adopt: no renewal and no rollover does. */
  lemma {:induction false} OnlyIssuesAdopt(cfg: Config, w: Workspace, cs: seq<Command>)
    ensures PerformAll(cfg, w, cs).adopted == w.adopted + AdoptersIn(cfg, w, cs)
    decreases |cs|
  {
    if cs == [] {
      assert w.adopted + [] == w.adopted;
    } else {
      var w' := Perform(cfg, w, cs[0]);
      if cs[0].Issue? { AdoptsIff(cfg, w, cs[0], cs[0].o.aic); }
      AdoptsIff(cfg, w, cs[0], "");
      OnlyIssuesAdopt(cfg, w', cs[1..]);
      AppendAdopters(w.adopted, w'.adopted[|w.adopted|..], AdoptersIn(cfg, w', cs[1..]));
      assert w'.adopted == w.adopted + w'.adopted[|w.adopted|..];
    }
  }

  /** A renewal that finds the legacy key and no account key of its agent changes nothing, and neither does an issue
      that finds another agent's file besides. */
  lemma LegacyIsRefused(cfg: Config, w: Workspace, o: Options, stop: nat)
    requires Canonical(o.aic) !in w.files && LEGACY_PATH in w.files
    ensures Perform(cfg, w, Renew(o, stop)) == w
    ensures Shared(cfg, w.files, o.aic) ==> Perform(cfg, w, Issue(o, stop)) == w
  {
    SharedIff(cfg, w.files, o.aic);
  }

  // ---------------------------------------------------------------- what an issue or a renewal writes

  /** Where the account key of the command comes from. */
  datatype Origin = Own | Legacy | New | NoKey

  ghost function OriginOf(cfg: Config, w: Workspace, aic: Aic, issues: bool): Origin {
    if Canonical(aic) in w.files then (if Readable(w.files, Canonical(aic)) then Own else NoKey)
    else if LEGACY_PATH !in w.files then New
    else if issues && !Shared(cfg, w.files, aic) && Readable(w.files, LEGACY_PATH) then Legacy
    else NoKey
  }

  /** The agent key file is there and taken as it is. */
  predicate Reuses(w: Workspace, o: Options, origin: Origin) {
    o.reuse && (AgentPath(o) in w.files || (origin == New && AgentPath(o) == Canonical(o.aic)))
  }

  /** The stage to which the command gets: it stops before the agent key if that cannot be read. */
  function Reached(w: Workspace, o: Options, origin: Origin, stop: nat): nat {
    if origin == NoKey then 0
    else if o.reuse && AgentPath(o) in w.files && !Readable(w.files, AgentPath(o)) && stop >= 1 then 1
    else stop
  }

  /** The number of the first key that the agent key stage can generate. */
  function AgentKey(w: Workspace, origin: Origin): Key {
    if origin == New then w.next + 1 else w.next
  }

  /** What is at `p` when the command has written its outputs in order, the last one at a place staying there. */
  function LeftAt(cfg: Config, w: Workspace, o: Options, origin: Origin, stage: nat, p: Path): Option<Content> {
    if stage >= 6 && p == BundlePath(cfg, o) then Some(Other)
    else if stage >= 5 && p == CertPath(o) then Some(Other)
    else if stage >= 4 && origin == Legacy && p == Canonical(o.aic) then
      Some(if !Reuses(w, o, origin) && AgentPath(o) == LEGACY_PATH then KeyFile(AgentKey(w, origin))
           else if LEGACY_PATH in w.files then w.files[LEGACY_PATH] else Other)
    else if stage >= 3 && p == Path(Csrs, o.aic + Suffix(Csrs)) then Some(Other)
    else if stage >= 2 && !Reuses(w, o, origin) && p == AgentPath(o) then Some(KeyFile(AgentKey(w, origin)))
    else if stage >= 1 && origin == New && p == Canonical(o.aic) then Some(KeyFile(w.next))
    else if p in w.files then Some(w.files[p]) else None
  }

  function At(files: Files, p: Path): Option<Content> {
    if p in files then Some(files[p]) else None
  }

  lemma PrepareWrites(cfg: Config, w: Workspace, o: Options, source: Source, origin: Origin, stop: nat, p: Path)
    requires (origin == New <==> source == Missing) && origin != NoKey
    requires source == Missing ==> Canonical(o.aic) !in w.files
    requires stop <= 3
    ensures At(Prepare(w, o, source, stop).files, p) == LeftAt(cfg, w, o, origin, Reached(w, o, origin, stop), p)
  {
  }

  lemma ObtainWrites(cfg: Config, w: Workspace, o: Options, source: Source, stop: nat, p: Path)
    ensures At(Obtain(cfg, w, o, source, stop).files, p)
         == if stop >= 6 && p == BundlePath(cfg, o) then Some(Other)
            else if stop >= 5 && p == CertPath(o) then Some(Other)
            else if stop >= 4 && source == FromLegacy && LEGACY_PATH in w.files && p == Canonical(o.aic) then
              At(w.files, LEGACY_PATH)
            else At(w.files, p)
  {
  }

  lemma PrepareStops(w: Workspace, o: Options, source: Source, stop: nat)
    ensures stop >= 3 ==> Prepare(w, o, source, stop) == Prepare(w, o, source, 3)
  {
  }

  /** An issue or a renewal leaves at each place what `LeftAt` says. */
  lemma CertificateWrites(cfg: Config, w: Workspace, o: Options, issues: bool, stop: nat, p: Path)
    ensures var origin := OriginOf(cfg, w, o.aic, issues);
      At(NewCert(cfg, w, o, issues, stop).files, p) == LeftAt(cfg, w, o, origin, Reached(w, o, origin, stop), p)
  {
    SharedIff(cfg, w.files, o.aic);
    var origin := OriginOf(cfg, w, o.aic, issues);
    match Resolve(cfg, w.files, o.aic, issues)
    case Resolved(source) =>
      if origin != NoKey {
        var first := if stop <= 3 then stop else 3;
        PrepareStops(w, o, source, stop);
        PrepareWrites(cfg, w, o, source, origin, first, p);
        PrepareWrites(cfg, w, o, source, origin, first, LEGACY_PATH);
        ObtainWrites(cfg, Prepare(w, o, source, stop), o, source, stop, p);
      }
    case _ =>
  }

  // ---------------------------------------------------------------- what a rollover writes

  /** A rollover that takes place leaves the new key in the agent's file once it gets there, the old one in the
      backup, the new one at a named place that had no file, and everything else as it was. */
  lemma RolloverWrites(w: Workspace, aic: Aic, named: Option<Path>, backup: Option<Timestamp>, stop: nat, p: Path)
    ensures var r := Rollover(w, aic, named, backup, stop);
      At(r.files, p)
      == if !RolloverProceeds(w, aic, named) then At(w.files, p)
         else if p == Canonical(aic) then Some(if stop >= 2 then NewKey(w, named) else w.files[p])
         else if stop >= 1 && backup.Some? && p == BackupPath(aic, backup.value) then Some(w.files[Canonical(aic)])
         else if stop >= 3 && Some(p) == named && p !in w.files then Some(KeyFile(w.next))
         else At(w.files, p)
  {
    if backup.Some? { BackupIsNotCanonical(aic, backup.value, aic); }
  }

  /** A rollover takes place exactly if the agent's file and the new key can be read and are not the same file, and a
      new key is generated exactly if there is no file to read it from. */
  lemma RolloverProceedsIff(w: Workspace, aic: Aic, named: Option<Path>)
    ensures RolloverProceeds(w, aic, named)
       <==> && Readable(w.files, Canonical(aic))
            && (named.Some? && named.value in w.files ==> named.value != Canonical(aic) && Readable(w.files, named.value))
    ensures NewKey(w, named) == if named.Some? && named.value in w.files then w.files[named.value] else KeyFile(w.next)
  {
  }

  // ---------------------------------------------------------------- own paths

  /** The outputs that an agent writes at the workspace's own paths are recognised as its files for every other agent,
      except for a certificate in the place of the trust bundle. */
  lemma OutputsAreOwn(cfg: Config, o: Options, aic: Aic)
    requires o.keyPath.None? && o.certPath.None? && aic != o.aic
    ensures OthersFile(cfg, aic, Canonical(o.aic)) && OthersFile(cfg, aic, AgentPath(o))
    ensures OthersFile(cfg, aic, Path(Csrs, o.aic + Suffix(Csrs)))
    ensures OthersFile(cfg, aic, CertPath(o)) <==> CertPath(o) != cfg.trustBundle
    ensures Canonical(o.aic).dir == Accounts && AgentPath(o).dir == Private && CertPath(o).dir == Certs
  {
  }

  /** A renewal does not touch an agent key that is there, unless another output is put in its place. */
  lemma RenewalKeepsAgentKey(cfg: Config, w: Workspace, o: Options, stop: nat)
    requires AgentPath(o) in w.files && AgentPath(o) != Canonical(o.aic) && AgentPath(o) != Path(Csrs, o.aic + Suffix(Csrs))
    requires AgentPath(o) != CertPath(o) && AgentPath(o) != BundlePath(cfg, o)
    ensures At(Perform(cfg, w, Renew(o, stop)).files, AgentPath(o)) == Some(w.files[AgentPath(o)])
  {
    CertificateWrites(cfg, w, o.(reuse := true), false, stop, AgentPath(o));
  }

  function Chosen(given: Option<Path>, own: Path): Path {
    match given
    case Some(p) => p
    case None => own
  }

  lemma ChosenPaths(cfg: Config, o: Options)
    ensures CertPath(o) == Chosen(o.certPath, Path(Certs, o.aic + ".pem"))
    ensures AgentPath(o) == Chosen(o.keyPath, Path(Private, o.aic + ".key"))
    ensures BundlePath(cfg, o) == Chosen(o.bundlePath, cfg.trustBundle)
  {
  }

  lemma LeftInTheEnd(cfg: Config, w: Workspace, o: Options, origin: Origin, p: Path)
    requires origin == New ==> Canonical(o.aic) !in w.files
    ensures p in {CertPath(o), BundlePath(cfg, o)} ==> LeftAt(cfg, w, o, origin, 6, p) == Some(Other)
    ensures p !in {CertPath(o), BundlePath(cfg, o), Canonical(o.aic), Path(Csrs, o.aic + Suffix(Csrs))} && p == AgentPath(o) ==>
      LeftAt(cfg, w, o, origin, 6, p)
      == if o.reuse && p in w.files then Some(w.files[p]) else Some(KeyFile(AgentKey(w, origin)))
  {
  }

  /** A finished issue or renewal leaves the certificate and the bundle at the given paths, else at the workspace's
      own, and at that of the agent key, if none of the other outputs is put there, the key that was there if it is
      reused, else a generated one. */
  lemma FinishedLeavesOutputs(cfg: Config, w: Workspace, o: Options, issues: bool, stop: nat)
    requires OriginOf(cfg, w, o.aic, issues) != NoKey && Reached(w, o, OriginOf(cfg, w, o.aic, issues), stop) == 6
    ensures var files := NewCert(cfg, w, o, issues, stop).files;
      var cert, bundle := Chosen(o.certPath, Path(Certs, o.aic + ".pem")), Chosen(o.bundlePath, cfg.trustBundle);
      var key := Chosen(o.keyPath, Path(Private, o.aic + ".key"));
      && At(files, cert) == Some(Other) && At(files, bundle) == Some(Other)
      && (key !in {cert, bundle, Canonical(o.aic), Path(Csrs, o.aic + ".csr")} ==>
            At(files, key) == if o.reuse && key in w.files then Some(w.files[key])
                              else Some(KeyFile(AgentKey(w, OriginOf(cfg, w, o.aic, issues)))))
  {
    ChosenPaths(cfg, o);
    var origin := OriginOf(cfg, w, o.aic, issues);
    CertificateWrites(cfg, w, o, issues, stop, CertPath(o));
    CertificateWrites(cfg, w, o, issues, stop, BundlePath(cfg, o));
    CertificateWrites(cfg, w, o, issues, stop, AgentPath(o));
    LeftInTheEnd(cfg, w, o, origin, CertPath(o));
    LeftInTheEnd(cfg, w, o, origin, BundlePath(cfg, o));
    LeftInTheEnd(cfg, w, o, origin, AgentPath(o));
  }
}
