/** The key files of an ACME workspace: which account key a command uses, when the legacy shared key may become
    one agent's key, and what issuing, renewing and rolling over write, step by step. */
module KeyWorkspace {
  import opened Basics
  import opened PyText

  type Aic = string
  type Key = nat

  /** The workspace's directories, and everything else. */
  datatype Dir = Accounts | Private | Csrs | Certs | Elsewhere

  datatype Path = Path(dir: Dir, name: string)

  datatype Content = KeyFile(key: Key) | Other

  type Files = map<Path, Content>

  datatype Config = Config(trustBundle: Path)

  /** `next` is the next key a generator gives; `adopted` records for which agents the legacy key was copied. */
  datatype Workspace = Workspace(files: Files, next: Key, adopted: seq<Aic>)

  function Suffix(dir: Dir): string {
    match dir
    case Accounts => ".account.key"
    case Private => ".key"
    case Csrs => ".csr"
    case Certs => ".pem"
    case Elsewhere => ""
  }

  function Canonical(aic: Aic): Path {
    Path(Accounts, aic + Suffix(Accounts))
  }

  const LEGACY_PATH := Path(Accounts, "account.key")

  lemma CanonicalInjective(a: Aic, b: Aic)
    requires Canonical(a) == Canonical(b)
    ensures a == b
  {
    var suffix := Suffix(Accounts);
    assert |a| == |b|;
    assert (a + suffix)[..|a|] == a;
    assert (b + suffix)[..|b|] == b;
  }

  // ---------------------------------------------------------------- resolving the account key

  function Own(cfg: Config, aic: Aic, dir: Dir): set<string> {
    {aic + Suffix(dir)} + if dir == Certs && cfg.trustBundle.dir == Certs then {cfg.trustBundle.name} else {}
  }

  /** The file belongs to another agent. */
  predicate Foreign(cfg: Config, aic: Aic, p: Path) {
    p.dir != Elsewhere && EndsWith(p.name, Suffix(p.dir)) && p.name !in Own(cfg, aic, p.dir)
  }

  predicate AnyForeign(cfg: Config, files: Files, aic: Aic) {
    exists p :: p in files && Foreign(cfg, aic, p)
  }

  datatype Source = FromCanonical | FromLegacy | Missing

  datatype Resolution = Resolved(source: Source) | LegacyNotAllowed | LegacyAmbiguous

  function Resolve(cfg: Config, files: Files, aic: Aic, allowLegacy: bool): Resolution {
    if Canonical(aic) in files then Resolved(FromCanonical)
    else if LEGACY_PATH !in files then Resolved(Missing)
    else if !allowLegacy then LegacyNotAllowed
    else if AnyForeign(cfg, files, aic) then LegacyAmbiguous
    else Resolved(FromLegacy)
  }

  function LoadPath(source: Source, aic: Aic): Path {
    if source == FromLegacy then LEGACY_PATH else Canonical(aic)
  }

  // ---------------------------------------------------------------- the commands

  /** Generates a key and saves it. */
  function Save(w: Workspace, p: Path): Workspace {
    w.(files := w.files[p := KeyFile(w.next)], next := w.next + 1)
  }

  function Put(w: Workspace, p: Path): Workspace {
    w.(files := w.files[p := Other])
  }

  /** The output paths are the caller's or the workspace's own. */
  datatype Options = Options(
    aic: Aic, reuse: bool, keyPath: Option<Path>, certPath: Option<Path>, bundlePath: Option<Path>)

  function AgentPath(o: Options): Path {
    if o.keyPath.Some? then o.keyPath.value else Path(Private, o.aic + Suffix(Private))
  }

  function CertPath(o: Options): Path {
    if o.certPath.Some? then o.certPath.value else Path(Certs, o.aic + Suffix(Certs))
  }

  function BundlePath(cfg: Config, o: Options): Path {
    if o.bundlePath.Some? then o.bundlePath.value else cfg.trustBundle
  }

  /** A key file at this path cannot be loaded. */
  predicate Unreadable(files: Files, p: Path) {
    p in files && files[p].Other?
  }

  function AccountKeyStage(w: Workspace, aic: Aic, source: Source): Workspace {
    if source == Missing then Save(w, Canonical(aic)) else w
  }

  function AgentKeyStage(w: Workspace, o: Options): Workspace {
    if o.reuse && AgentPath(o) in w.files then w else Save(w, AgentPath(o))
  }

  /** Copies the legacy key, if it is this agent's. */
  function AdoptStage(w: Workspace, aic: Aic, source: Source): Workspace {
    if source == FromLegacy && LEGACY_PATH in w.files then
      w.(files := w.files[Canonical(aic) := w.files[LEGACY_PATH]], adopted := w.adopted + [aic])
    else w
  }

  /** The account key, the agent key and the signing request, up to and including stage `stop`. */
  function Prepare(w: Workspace, o: Options, source: Source, stop: nat): Workspace {
    if stop == 0 then w
    else
      var w1 := AccountKeyStage(w, o.aic, source);
      if stop == 1 || (o.reuse && Unreadable(w1.files, AgentPath(o))) then w1
      else
        var w2 := AgentKeyStage(w1, o);
        if stop == 2 then w2 else Put(w2, Path(Csrs, o.aic + Suffix(Csrs)))
  }

  /** The rest, once a signing request is written: the server may stop it anywhere. */
  function Obtain(cfg: Config, w: Workspace, o: Options, source: Source, stop: nat): Workspace {
    if stop <= 3 then w
    else
      var w4 := AdoptStage(w, o.aic, source);
      if stop == 4 then w4
      else
        var w5 := Put(w4, CertPath(o));
        if stop == 5 then w5 else Put(w5, BundlePath(cfg, o))
  }

  predicate AgentKeyFails(w: Workspace, o: Options, source: Source) {
    o.reuse && Unreadable(AccountKeyStage(w, o.aic, source).files, AgentPath(o))
  }

  /** `_run_new_cert`, ending after stage `stop` if nothing ends it earlier. */
  function NewCert(cfg: Config, w: Workspace, o: Options, allowLegacy: bool, stop: nat): Workspace {
    match Resolve(cfg, w.files, o.aic, allowLegacy)
    case Resolved(source) =>
      if Unreadable(w.files, LoadPath(source, o.aic)) then w
      else if AgentKeyFails(w, o, source) then Prepare(w, o, source, stop)
      else Obtain(cfg, Prepare(w, o, source, stop), o, source, stop)
    case _ => w
  }

  predicate Digits(s: string) {
    s != "" && forall c :: c in s ==> '0' <= c <= '9'
  }

  type Timestamp = s: string | Digits(s) witness "0"

  function BackupPath(aic: Aic, time: Timestamp): Path {
    Path(Accounts, aic + Suffix(Accounts) + ".bak-" + time)
  }

  /** The key a rollover changes to: read from the named file if there is one, else generated. */
  function NewKey(w: Workspace, named: Option<Path>): Content {
    if named.Some? && named.value in w.files then w.files[named.value] else KeyFile(w.next)
  }

  predicate RolloverProceeds(w: Workspace, aic: Aic, named: Option<Path>) {
    && Canonical(aic) in w.files && w.files[Canonical(aic)].KeyFile?
    && named != Some(Canonical(aic))
    && NewKey(w, named).KeyFile?
  }

  /** `key_rollover`, ending after stage `stop`: the backup, the account key, the named output. */
  function Rollover(w: Workspace, aic: Aic, named: Option<Path>, backup: Option<Timestamp>, stop: nat): Workspace {
    if !RolloverProceeds(w, aic, named) || stop == 0 then w
    else
      var key := NewKey(w, named);
      var w0 := if named.Some? && named.value in w.files then w else w.(next := w.next + 1);
      var w1 := if backup.Some? then w0.(files := w0.files[BackupPath(aic, backup.value) := w.files[Canonical(aic)]]) else w0;
      if stop == 1 then w1
      else
        var w2 := w1.(files := w1.files[Canonical(aic) := key]);
        if stop == 2 || named.None? || named.value in w2.files then w2
        else w2.(files := w2.files[named.value := key])
  }

  /** `Pregenerate` is the operator's own: a key made outside the workspace's directories. */
  datatype Command =
    | Issue(o: Options, stop: nat)
    | Renew(o: Options, stop: nat)
    | RollOver(aic: Aic, named: Option<Path>, backup: Option<Timestamp>, stop: nat)
    | Pregenerate(name: string)

  function Perform(cfg: Config, w: Workspace, c: Command): Workspace {
    match c
    case Issue(o, stop) => NewCert(cfg, w, o, true, stop)
    case Renew(o, stop) => NewCert(cfg, w, o.(reuse := true), false, stop)
    case RollOver(aic, named, backup, stop) => Rollover(w, aic, named, backup, stop)
    case Pregenerate(name) => Save(w, Path(Elsewhere, name))
  }

  function PerformAll(cfg: Config, w: Workspace, cs: seq<Command>): Workspace
    decreases |cs|
  {
    if cs == [] then w else PerformAll(cfg, Perform(cfg, w, cs[0]), cs[1..])
  }

  // ---------------------------------------------------------------- never shared

  /** The agent holds an account key. */
  predicate Holds(files: Files, a: Aic) {
    Canonical(a) in files && files[Canonical(a)].KeyFile?
  }

  ghost predicate NoSharing(files: Files) {
    forall a, b {:trigger Holds(files, a), Holds(files, b)} ::
      a != b && Holds(files, a) && Holds(files, b) ==> files[Canonical(a)] != files[Canonical(b)]
  }

  predicate Bounded(w: Workspace, p: Path) {
    p in w.files && w.files[p].KeyFile? ==> w.files[p].key < w.next
  }

  /** Every key was given by the generator before. */
  ghost predicate KeysBounded(w: Workspace) {
    forall p {:trigger Bounded(w, p)} :: Bounded(w, p)
  }

  ghost predicate Sound(w: Workspace) {
    KeysBounded(w) && NoSharing(w.files)
  }

  /** No other agent holds the legacy key. */
  ghost predicate LegacyFree(w: Workspace, aic: Aic) {
    LEGACY_PATH in w.files && w.files[LEGACY_PATH].KeyFile? ==>
      forall b {:trigger Holds(w.files, b)} :: b != aic && Holds(w.files, b) ==> w.files[Canonical(b)] != w.files[LEGACY_PATH]
  }

  /** Writing at `p` a content that no agent but the file's own holds keeps keys apart. */
  lemma WriteKeepsSound(w: Workspace, w': Workspace, p: Path, content: Content)
    requires Sound(w) && w'.files == w.files[p := content] && w.next <= w'.next
    requires content.KeyFile? ==> content.key < w'.next
    requires content.KeyFile? ==> forall a, b {:trigger Holds(w.files, a), Canonical(b)} ::
      p == Canonical(b) && a != b && Holds(w.files, a) ==> w.files[Canonical(a)] != content
    ensures Sound(w')
  {
    forall q ensures Bounded(w', q) { assert Bounded(w, q); }
    forall a, b | a != b && Holds(w'.files, a) && Holds(w'.files, b)
      ensures w'.files[Canonical(a)] != w'.files[Canonical(b)]
    {
      if Canonical(a) == Canonical(b) { CanonicalInjective(a, b); }
      if Canonical(a) != p { assert Holds(w.files, a); }
      if Canonical(b) != p { assert Holds(w.files, b); }
    }
  }

  lemma SaveKeepsSound(w: Workspace, p: Path, aic: Aic)
    requires Sound(w)
    ensures Sound(Save(w, p)) && (LegacyFree(w, aic) ==> LegacyFree(Save(w, p), aic))
  {
    forall a | Holds(w.files, a) ensures w.files[Canonical(a)] != KeyFile(w.next) { assert Bounded(w, Canonical(a)); }
    assert Bounded(w, LEGACY_PATH);
    WriteKeepsSound(w, Save(w, p), p, KeyFile(w.next));
    forall b | Holds(Save(w, p).files, b) && Canonical(b) != p ensures Holds(w.files, b) { }
  }

  lemma PutKeepsSound(w: Workspace, p: Path, aic: Aic)
    requires Sound(w)
    ensures Sound(Put(w, p)) && (LegacyFree(w, aic) ==> LegacyFree(Put(w, p), aic))
  {
    WriteKeepsSound(w, Put(w, p), p, Other);
    forall b | Holds(Put(w, p).files, b) ensures Holds(w.files, b) { }
  }

  lemma PrepareKeepsSound(w: Workspace, o: Options, source: Source, stop: nat)
    requires Sound(w) && (source == FromLegacy ==> LegacyFree(w, o.aic))
    ensures var r := Prepare(w, o, source, stop); Sound(r) && (source == FromLegacy ==> LegacyFree(r, o.aic))
  {
    SaveKeepsSound(w, Canonical(o.aic), o.aic);
    var w1 := AccountKeyStage(w, o.aic, source);
    SaveKeepsSound(w1, AgentPath(o), o.aic);
    PutKeepsSound(AgentKeyStage(w1, o), Path(Csrs, o.aic + Suffix(Csrs)), o.aic);
  }

  lemma ObtainKeepsSound(cfg: Config, w: Workspace, o: Options, source: Source, stop: nat)
    requires Sound(w) && (source == FromLegacy ==> LegacyFree(w, o.aic))
    ensures Sound(Obtain(cfg, w, o, source, stop))
  {
    var w4 := AdoptStage(w, o.aic, source);
    if source == FromLegacy && LEGACY_PATH in w.files {
      forall a, b | Canonical(o.aic) == Canonical(b) && a != b && Holds(w.files, a) && w.files[LEGACY_PATH].KeyFile?
        ensures w.files[Canonical(a)] != w.files[LEGACY_PATH]
      {
        CanonicalInjective(o.aic, b);
      }
      assert Bounded(w, LEGACY_PATH);
      WriteKeepsSound(w, w4, Canonical(o.aic), w.files[LEGACY_PATH]);
    }
    PutKeepsSound(w4, CertPath(o), o.aic);
    PutKeepsSound(Put(w4, CertPath(o)), BundlePath(cfg, o), o.aic);
  }

  lemma OthersAreForeign(cfg: Config, a: Aic, b: Aic)
    requires a != b
    ensures Foreign(cfg, a, Canonical(b))
  {
    var suffix := Suffix(Accounts);
    assert (b + suffix)[|b|..] == suffix;
    if b + suffix == a + suffix { CanonicalInjective(a, b); }
  }

  lemma NewCertKeepsSound(cfg: Config, w: Workspace, o: Options, allowLegacy: bool, stop: nat)
    requires Sound(w)
    ensures Sound(NewCert(cfg, w, o, allowLegacy, stop))
  {
    match Resolve(cfg, w.files, o.aic, allowLegacy)
    case Resolved(source) =>
      if source == FromLegacy {
        forall b | b != o.aic ensures !Holds(w.files, b) { OthersAreForeign(cfg, o.aic, b); }
      }
      PrepareKeepsSound(w, o, source, stop);
      ObtainKeepsSound(cfg, Prepare(w, o, source, stop), o, source, stop);
    case _ =>
  }

  /** A rollover that gets to replacing the account key does not name another agent's: neither a file with the key
      another agent holds, nor, if it gets to saving a generated key there too, the place of another agent's. */
  ghost predicate SafeRollover(w: Workspace, aic: Aic, named: Option<Path>, stop: nat) {
    RolloverProceeds(w, aic, named) && named.Some? && stop >= 2 ==>
      forall b {:trigger Holds(w.files, b)} {:trigger Canonical(b)} :: b != aic ==>
        if named.value in w.files then Holds(w.files, b) ==> w.files[Canonical(b)] != w.files[named.value]
        else stop >= 3 ==> named.value != Canonical(b)
  }

  lemma BackupIsNotCanonical(aic: Aic, time: Timestamp, b: Aic)
    ensures BackupPath(aic, time) != Canonical(b)
  {
    var name := BackupPath(aic, time).name;
    assert name[|name| - 1] == time[|time| - 1];
    assert time[|time| - 1] in time;
    assert Canonical(b).name[|Canonical(b).name| - 1] == 'y';
  }

  lemma BackupKeepsSound(w: Workspace, aic: Aic, backup: Timestamp)
    requires Sound(w) && Canonical(aic) in w.files
    ensures Sound(w.(files := w.files[BackupPath(aic, backup) := w.files[Canonical(aic)]]))
  {
    forall b ensures Canonical(b) != BackupPath(aic, backup) { BackupIsNotCanonical(aic, backup, b); }
    assert Bounded(w, Canonical(aic));
    WriteKeepsSound(w, w.(files := w.files[BackupPath(aic, backup) := w.files[Canonical(aic)]]),
                    BackupPath(aic, backup), w.files[Canonical(aic)]);
  }

  lemma RolloverKeepsSound(w: Workspace, aic: Aic, named: Option<Path>, backup: Option<Timestamp>, stop: nat)
    requires Sound(w) && SafeRollover(w, aic, named, stop)
    ensures Sound(Rollover(w, aic, named, backup, stop))
  {
    if !RolloverProceeds(w, aic, named) || stop == 0 {
      return;
    }
    var key := NewKey(w, named);
    var w0 := if named.Some? && named.value in w.files then w else w.(next := w.next + 1);
    forall p ensures Bounded(w0, p) { assert Bounded(w, p); }
    var w1 := if backup.Some? then w0.(files := w0.files[BackupPath(aic, backup.value) := w.files[Canonical(aic)]]) else w0;
    if backup.Some? {
      BackupKeepsSound(w0, aic, backup.value);
      forall b ensures Canonical(b) != BackupPath(aic, backup.value) { BackupIsNotCanonical(aic, backup.value, b); }
    }
    if stop == 1 {
      return;
    }
    var w2 := w1.(files := w1.files[Canonical(aic) := key]);
    forall a, b | Canonical(aic) == Canonical(b) && a != b && Holds(w1.files, a)
      ensures w1.files[Canonical(a)] != key
    {
      CanonicalInjective(aic, b);
      assert Holds(w.files, a) && w1.files[Canonical(a)] == w.files[Canonical(a)];
      assert Bounded(w, Canonical(a));
    }
    assert named.Some? ==> Bounded(w, named.value);
    WriteKeepsSound(w1, w2, Canonical(aic), key);
    if stop >= 3 && named.Some? && named.value !in w2.files {
      forall b ensures named.value != Canonical(b) { assert b != aic ==> named.value != Canonical(b); }
      WriteKeepsSound(w2, w2.(files := w2.files[named.value := key]), named.value, key);
    }
  }

  /** A rollover, stopped anywhere, keeps keys apart exactly when the path it is given is safe. */
  lemma RolloverSharesIff(w: Workspace, aic: Aic, named: Option<Path>, backup: Option<Timestamp>, stop: nat)
    requires Sound(w)
    ensures NoSharing(Rollover(w, aic, named, backup, stop).files) <==> SafeRollover(w, aic, named, stop)
  {
    if SafeRollover(w, aic, named, stop) {
      RolloverKeepsSound(w, aic, named, backup, stop);
    } else {
      var r := Rollover(w, aic, named, backup, stop);
      var b :| b != aic && !(if named.value in w.files then Holds(w.files, b) ==> w.files[Canonical(b)] != w.files[named.value]
                             else stop >= 3 ==> named.value != Canonical(b));
      if Canonical(aic) == Canonical(b) { CanonicalInjective(aic, b); }
      if backup.Some? {
        BackupIsNotCanonical(aic, backup.value, aic);
        BackupIsNotCanonical(aic, backup.value, b);
      }
      assert Holds(r.files, aic) && Holds(r.files, b) && r.files[Canonical(aic)] == r.files[Canonical(b)];
    }
  }

  ghost predicate SafeCommand(w: Workspace, c: Command) {
    c.RollOver? ==> SafeRollover(w, c.aic, c.named, c.stop)
  }

  ghost predicate SafeRun(cfg: Config, w: Workspace, cs: seq<Command>)
    decreases |cs|
  {
    cs == [] || (SafeCommand(w, cs[0]) && SafeRun(cfg, Perform(cfg, w, cs[0]), cs[1..]))
  }

  lemma PerformKeepsSound(cfg: Config, w: Workspace, c: Command)
    requires Sound(w) && SafeCommand(w, c)
    ensures Sound(Perform(cfg, w, c))
  {
    match c
    case Issue(o, stop) => NewCertKeepsSound(cfg, w, o, true, stop);
    case Renew(o, stop) => NewCertKeepsSound(cfg, w, o.(reuse := true), false, stop);
    case RollOver(aic, named, backup, stop) => RolloverKeepsSound(w, aic, named, backup, stop);
    case Pregenerate(name) => SaveKeepsSound(w, Path(Elsewhere, name), "");
  }

  /** Over every run of issues, renewals and safe rollovers, each stopped anywhere, no two agents ever hold the
      same account key. */
  lemma {:induction false} KeysAreNeverShared(cfg: Config, w: Workspace, cs: seq<Command>)
    requires Sound(w) && SafeRun(cfg, w, cs)
    ensures Sound(PerformAll(cfg, w, cs))
    decreases |cs|
  {
    if cs != [] {
      PerformKeepsSound(cfg, w, cs[0]);
      KeysAreNeverShared(cfg, Perform(cfg, w, cs[0]), cs[1..]);
    }
  }

  /** No two agents hold the same account key, now and after every command. */
  ghost predicate StaysApart(cfg: Config, w: Workspace, cs: seq<Command>)
    decreases |cs|
  {
    NoSharing(w.files) && (cs == [] || StaysApart(cfg, Perform(cfg, w, cs[0]), cs[1..]))
  }

  /** A run keeps account keys apart throughout exactly when every rollover in it, as it is performed, is safe. */
  lemma {:induction false} KeysStayApartIff(cfg: Config, w: Workspace, cs: seq<Command>)
    requires Sound(w)
    ensures StaysApart(cfg, w, cs) <==> SafeRun(cfg, w, cs)
    decreases |cs|
  {
    if cs != [] {
      if SafeCommand(w, cs[0]) {
        PerformKeepsSound(cfg, w, cs[0]);
        KeysStayApartIff(cfg, Perform(cfg, w, cs[0]), cs[1..]);
      } else {
        RolloverSharesIff(w, cs[0].aic, cs[0].named, cs[0].backup, cs[0].stop);
      }
    }
  }

  // ---------------------------------------------------------------- the legacy key

  /** No file disappears. */
  ghost predicate Grows(w: Workspace, r: Workspace) {
    w.files.Keys <= r.files.Keys && w.next <= r.next
  }

  /** The legacy key was adopted at most once, and by an agent that still has a key file. */
  ghost predicate AdoptedOnce(w: Workspace) {
    |w.adopted| <= 1 && forall a :: a in w.adopted ==> Canonical(a) in w.files
  }

  lemma PrepareGrows(w: Workspace, o: Options, source: Source, stop: nat)
    ensures Grows(w, Prepare(w, o, source, stop)) && Prepare(w, o, source, stop).adopted == w.adopted
  {
  }

  lemma NewCertAdoptsOnce(cfg: Config, w: Workspace, o: Options, allowLegacy: bool, stop: nat)
    requires AdoptedOnce(w)
    ensures var r := NewCert(cfg, w, o, allowLegacy, stop); Grows(w, r) && AdoptedOnce(r)
  {
    match Resolve(cfg, w.files, o.aic, allowLegacy)
    case Resolved(source) =>
      PrepareGrows(w, o, source, stop);
      if source == FromLegacy && w.adopted != [] {
        assert w.adopted[0] in w.adopted;
        if w.adopted[0] != o.aic { OthersAreForeign(cfg, o.aic, w.adopted[0]); }
      }
    case _ =>
  }

  lemma PerformAdoptsOnce(cfg: Config, w: Workspace, c: Command)
    requires AdoptedOnce(w)
    ensures AdoptedOnce(Perform(cfg, w, c)) && Grows(w, Perform(cfg, w, c))
  {
    match c
    case Issue(o, stop) => NewCertAdoptsOnce(cfg, w, o, true, stop);
    case Renew(o, stop) => NewCertAdoptsOnce(cfg, w, o.(reuse := true), false, stop);
    case _ =>
  }

  /** Over every run, safe or not, the legacy key becomes an agent's key at most once. */
  lemma {:induction false} LegacyIsAdoptedAtMostOnce(cfg: Config, w: Workspace, cs: seq<Command>)
    requires AdoptedOnce(w)
    ensures AdoptedOnce(PerformAll(cfg, w, cs)) && Grows(w, PerformAll(cfg, w, cs))
    decreases |cs|
  {
    if cs != [] {
      PerformAdoptsOnce(cfg, w, cs[0]);
      LegacyIsAdoptedAtMostOnce(cfg, Perform(cfg, w, cs[0]), cs[1..]);
    }
  }

  /** Agent `a` did not adopt the legacy key, so its account key was generated since `start`, or is still the one
      it held then. */
  predicate OwnKey(start: Workspace, w: Workspace, a: Aic) {
    Holds(w.files, a) && a !in w.adopted ==>
      || w.files[Canonical(a)].key >= start.next
      || (Canonical(a) in start.files && w.files[Canonical(a)] == start.files[Canonical(a)])
  }

  ghost predicate OwnKeys(start: Workspace, w: Workspace) {
    start.next <= w.next && forall a {:trigger OwnKey(start, w, a)} :: OwnKey(start, w, a)
  }

  lemma WriteKeepsOwn(start: Workspace, w: Workspace, w': Workspace, p: Path)
    requires OwnKeys(start, w) && w.next <= w'.next && w'.adopted == w.adopted
    requires p in w'.files && w'.files == w.files[p := w'.files[p]]
    requires w'.files[p].KeyFile? && w'.files[p].key < start.next ==> forall a :: p != Canonical(a)
    ensures OwnKeys(start, w')
  {
    forall a ensures OwnKey(start, w', a) {
      assert OwnKey(start, w, a);
      assert Canonical(a) == p || (Holds(w'.files, a) ==> Holds(w.files, a));
    }
  }

  lemma PrepareKeepsOwn(start: Workspace, w: Workspace, o: Options, source: Source, stop: nat)
    requires OwnKeys(start, w)
    ensures OwnKeys(start, Prepare(w, o, source, stop))
  {
    WriteKeepsOwn(start, w, Save(w, Canonical(o.aic)), Canonical(o.aic));
    var w1 := AccountKeyStage(w, o.aic, source);
    WriteKeepsOwn(start, w1, Save(w1, AgentPath(o)), AgentPath(o));
    var w2, csr := AgentKeyStage(w1, o), Path(Csrs, o.aic + Suffix(Csrs));
    WriteKeepsOwn(start, w2, Put(w2, csr), csr);
  }

  lemma ObtainKeepsOwn(start: Workspace, cfg: Config, w: Workspace, o: Options, source: Source, stop: nat)
    requires OwnKeys(start, w)
    ensures OwnKeys(start, Obtain(cfg, w, o, source, stop))
  {
    var w4 := AdoptStage(w, o.aic, source);
    forall a ensures OwnKey(start, w4, a) {
      assert OwnKey(start, w, a);
      if Canonical(a) == Canonical(o.aic) { CanonicalInjective(a, o.aic); }
    }
    WriteKeepsOwn(start, w4, Put(w4, CertPath(o)), CertPath(o));
    var w5 := Put(w4, CertPath(o));
    WriteKeepsOwn(start, w5, Put(w5, BundlePath(cfg, o)), BundlePath(cfg, o));
  }

  lemma RolloverKeepsOwn(start: Workspace, w: Workspace, aic: Aic, backup: Option<Timestamp>, stop: nat)
    requires OwnKeys(start, w)
    ensures OwnKeys(start, Rollover(w, aic, None, backup, stop))
  {
    if !RolloverProceeds(w, aic, None) || stop == 0 {
      return;
    }
    var w0 := w.(next := w.next + 1);
    forall a ensures OwnKey(start, w0, a) { assert OwnKey(start, w, a); }
    var w1 := if backup.Some? then w0.(files := w0.files[BackupPath(aic, backup.value) := w.files[Canonical(aic)]]) else w0;
    if backup.Some? {
      forall a ensures Canonical(a) != BackupPath(aic, backup.value) { BackupIsNotCanonical(aic, backup.value, a); }
      WriteKeepsOwn(start, w0, w1, BackupPath(aic, backup.value));
    }
    WriteKeepsOwn(start, w1, w1.(files := w1.files[Canonical(aic) := KeyFile(w.next)]), Canonical(aic));
  }

  lemma PerformKeepsOwn(cfg: Config, start: Workspace, w: Workspace, c: Command)
    requires OwnKeys(start, w) && (c.RollOver? ==> c.named.None?)
    ensures OwnKeys(start, Perform(cfg, w, c))
  {
    match c
    case Issue(o, stop) =>
      var r := Resolve(cfg, w.files, o.aic, true);
      if r.Resolved? {
        PrepareKeepsOwn(start, w, o, r.source, stop);
        ObtainKeepsOwn(start, cfg, Prepare(w, o, r.source, stop), o, r.source, stop);
      }
    case Renew(o, stop) =>
      var r := Resolve(cfg, w.files, o.aic, false);
      if r.Resolved? {
        PrepareKeepsOwn(start, w, o.(reuse := true), r.source, stop);
        ObtainKeepsOwn(start, cfg, Prepare(w, o.(reuse := true), r.source, stop), o.(reuse := true), r.source, stop);
      }
    case RollOver(aic, named, backup, stop) => RolloverKeepsOwn(start, w, aic, backup, stop);
    case Pregenerate(name) => WriteKeepsOwn(start, w, Save(w, Path(Elsewhere, name)), Path(Elsewhere, name));
  }

  lemma {:induction false} RunKeepsOwn(cfg: Config, start: Workspace, w: Workspace, cs: seq<Command>)
    requires OwnKeys(start, w) && Sound(w) && forall c :: c in cs && c.RollOver? ==> c.named.None?
    ensures OwnKeys(start, PerformAll(cfg, w, cs)) && Sound(PerformAll(cfg, w, cs))
    decreases |cs|
  {
    if cs != [] {
      PerformKeepsOwn(cfg, start, w, cs[0]);
      PerformKeepsSound(cfg, w, cs[0]);
      RunKeepsOwn(cfg, start, Perform(cfg, w, cs[0]), cs[1..]);
    }
  }

  /** Over every run of issues, renewals and rollovers to generated keys, each stopped anywhere: no two agents hold
      the same account key, at most one agent's was copied from the legacy key, and every other agent's was
      generated for it in the run or is the one it started with. */
  lemma OnlyTheLegacyKeyIsCopied(cfg: Config, start: Workspace, cs: seq<Command>)
    requires Sound(start) && start.adopted == [] && forall c :: c in cs && c.RollOver? ==> c.named.None?
    ensures var w := PerformAll(cfg, start, cs);
      && NoSharing(w.files)
      && |w.adopted| <= 1
      && forall a :: Holds(w.files, a) && a !in w.adopted ==>
           || w.files[Canonical(a)].key >= start.next
           || (Canonical(a) in start.files && w.files[Canonical(a)] == start.files[Canonical(a)])
  {
    assert OwnKeys(start, start);
    RunKeepsOwn(cfg, start, start, cs);
    LegacyIsAdoptedAtMostOnce(cfg, start, cs);
    var w := PerformAll(cfg, start, cs);
    forall a | Holds(w.files, a) && a !in w.adopted
      ensures w.files[Canonical(a)].key >= start.next
           || (Canonical(a) in start.files && w.files[Canonical(a)] == start.files[Canonical(a)])
    {
      assert OwnKey(start, w, a);
    }
  }
}
