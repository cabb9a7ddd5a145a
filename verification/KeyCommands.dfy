/** The commands that resolve, create, copy and replace key files, step by step on the workspace's files. Each is
    proved to have the effect the workspace model gives it. */
module KeyCommands {
  import opened Basics
  import opened PyText
  import opened KeyWorkspace

  class WorkspaceFiles {
    const cfg: Config
    var files: Files
    var next: Key
    ghost var adopted: seq<Aic>

    ghost function View(): Workspace
      reads this
    {
      Workspace(files, next, adopted)
    }

    constructor (cfg: Config, files: Files, next: Key)
      ensures this.cfg == cfg && View() == Workspace(files, next, [])
    {
      this.cfg, this.files, this.next := cfg, files, next;
      adopted := [];
    }

    /** The files of a directory that belong to other agents. */
    method ForeignIn(aic: Aic, dir: Dir) returns (found: seq<Path>)
      ensures forall p :: p in found <==> p in files && p.dir == dir && Foreign(cfg, aic, p)
    {
      found := [];
      var todo := set p | p in files && p.dir == dir;
      var allowed := Own(cfg, aic, dir);
      while todo != {}
        invariant todo <= set p | p in files && p.dir == dir
        invariant forall p :: p in found <==> p in files && p.dir == dir && p !in todo && Foreign(cfg, aic, p)
        decreases todo
      {
        var p :| p in todo;
        todo := todo - {p};
        if dir == Elsewhere || !EndsWith(p.name, Suffix(dir)) {
          continue;
        }
        if p.name in allowed {
          continue;
        }
        found := found + [p];
      }
    }

    method ResolveAccountKeyPath(aic: Aic, allowLegacy: bool) returns (r: Resolution)
      ensures r == Resolve(cfg, files, aic, allowLegacy)
    {
      if Canonical(aic) in files {
        return Resolved(FromCanonical);
      }
      var otherArtifacts: seq<Path> := [];
      var dirs := [Private, Csrs, Certs];
      for i := 0 to 3
        invariant forall p :: p in otherArtifacts <==> p in files && p.dir in dirs[..i] && Foreign(cfg, aic, p)
      {
        var found := ForeignIn(aic, dirs[i]);
        otherArtifacts := otherArtifacts + found;
        assert dirs[..i + 1] == dirs[..i] + [dirs[i]];
      }
      var existing := ForeignIn(aic, Accounts);
      if LEGACY_PATH in files {
        if !allowLegacy {
          return LegacyNotAllowed;
        }
        assert dirs[..3] == dirs;
        if existing != [] || otherArtifacts != [] {
          ghost var p := if existing != [] then existing[0] else otherArtifacts[0];
          assert p in existing || p in otherArtifacts;
          return LegacyAmbiguous;
        }
        assert forall p :: p in files && Foreign(cfg, aic, p) ==> p in existing || p in otherArtifacts;
        return Resolved(FromLegacy);
      }
      return Resolved(Missing);
    }

    method Generate(p: Path)
      modifies this
      ensures View() == Save(old(View()), p)
    {
      files := files[p := KeyFile(next)];
      next := next + 1;
    }

    /** Account key, agent key and signing request, up to stage `stop`; `ok` if the command goes on. */
    method PrepareKeys(o: Options, source: Source, stop: nat) returns (ok: bool)
      modifies this
      ensures View() == Prepare(old(View()), o, source, stop)
      ensures ok == (stop > 3 && !AgentKeyFails(old(View()), o, source))
    {
      ok := false;
      if stop == 0 {
        return;
      }
      if source == Missing {
        Generate(Canonical(o.aic));
      }
      var agentPath := AgentPath(o);
      var reused := o.reuse && agentPath in files;
      if stop == 1 || (reused && files[agentPath].Other?) {
        return;
      }
      if !reused {
        Generate(agentPath);
      }
      if stop == 2 {
        return;
      }
      files := files[Path(Csrs, o.aic + Suffix(Csrs)) := Other];
      ok := stop > 3;
    }

    /** Issues or renews a certificate; everything after stage `stop` fails to happen. */
    method RunNewCert(o: Options, allowLegacy: bool, stop: nat)
      modifies this
      ensures View() == NewCert(cfg, old(View()), o, allowLegacy, stop)
    {
      var r := ResolveAccountKeyPath(o.aic, allowLegacy);
      if !r.Resolved? {
        return;
      }
      var loadPath := LoadPath(r.source, o.aic);
      if loadPath in files && files[loadPath].Other? {
        return;
      }
      var ok := PrepareKeys(o, r.source, stop);
      if !ok {
        return;
      }
      if r.source == FromLegacy && LEGACY_PATH in files {
        files := files[Canonical(o.aic) := files[LEGACY_PATH]];
        adopted := adopted + [o.aic];
      }
      if stop == 4 {
        return;
      }
      files := files[CertPath(o) := Other];
      if stop == 5 {
        return;
      }
      files := files[BundlePath(cfg, o) := Other];
    }

    method KeyRollover(aic: Aic, named: Option<Path>, backup: Option<Timestamp>, stop: nat)
      modifies this
      ensures View() == Rollover(old(View()), aic, named, backup, stop)
    {
      var r := ResolveAccountKeyPath(aic, false);
      if r != Resolved(FromCanonical) || files[Canonical(aic)].Other? || stop == 0 {
        return;
      }
      var key: Content;
      if named.Some? && named.value in files {
        if named.value == Canonical(aic) {
          return;
        }
        key := files[named.value];
        if key.Other? {
          return;
        }
      } else {
        key := KeyFile(next);
        next := next + 1;
      }
      if backup.Some? {
        files := files[BackupPath(aic, backup.value) := files[Canonical(aic)]];
      }
      if stop == 1 {
        return;
      }
      files := files[Canonical(aic) := key];
      if stop == 2 || named.None? || named.value in files {
        return;
      }
      files := files[named.value := key];
    }
  }
}
