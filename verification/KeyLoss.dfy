/** A whole account key rollover, at the server and in the workspace, and when it loses the account's key. */
module KeyLoss {
  import opened Basics
  import opened NonceProtocol
  import opened KeyAgreement
  import opened KeyWorkspace
  import opened KeyFrames

  // ---------------------------------------------------------------- the command

  /** `new_account` for an account that exists: it opens none. */
  function FindAccount(c: Climate, client: Client): (Client, Outcome) {
    var (ready, ok) := LoadDirectory(c, client);
    if !ok then (ready, Unreachable)
    else
      var (r, outcome) := Post(c, ready, Plain);
      if outcome == Success then (r.(account := true), outcome) else (r, outcome)
  }

  /** A client made for the command, with the key from the agent's file. */
  function Fresh(net: Net, w: Workspace, aic: Aic): Client
    requires Holds(w.files, aic)
  {
    Client(Some(w.files[Canonical(aic)].key), false, false, None, net)
  }

  /** The new key is generated, not read from a file. */
  predicate Generates(w: Workspace, named: Option<Path>) {
    named.None? || named.value !in w.files
  }

  /** `key_rollover` of an agent that has an account key: the account is found, a new key read or generated, the
      server told, and then the files are written, up to and including stage `stop`. */
  function RollOverAccount(c: Climate, net: Net, w: Workspace, aic: Aic, named: Option<Path>,
                           backup: Option<Timestamp>, stop: nat): (r: (Net, Workspace))
    requires Holds(w.files, aic)
  {
    var (found, outcome) := FindAccount(c, Fresh(net, w, aic));
    if outcome != Success || !RolloverProceeds(w, aic, named) then (found.net, w)
    else
      var (told, changed) := KeyChange(c, found, NewKey(w, named).key);
      (told.net,
       if changed == Success && stop > 0 then KeyWorkspace.Rollover(w, aic, named, backup, stop)
       else if Generates(w, named) then w.(next := w.next + 1)
       else w)
  }

  // ---------------------------------------------------------------- what the server and the client know

  /** The server accepts the key change. */
  predicate Accepted(c: Climate, net: Net, w: Workspace, aic: Aic, named: Option<Path>)
    requires Holds(w.files, aic)
  {
    var (found, outcome) := FindAccount(c, Fresh(net, w, aic));
    outcome == Success && RolloverProceeds(w, aic, named) && Changed(c, found.net)
  }

  /** The client gets to know that it did. */
  predicate Known(c: Climate, net: Net, w: Workspace, aic: Aic)
    requires Holds(w.files, aic)
  {
    Heard(c, FindAccount(c, Fresh(net, w, aic)).0.net)
  }

  lemma FoundAccount(c: Climate, client: Client)
    requires client.key.Some? && client.net.accountKey.Some? && !client.account
    ensures var (found, outcome) := FindAccount(c, client);
      && found.key == client.key && found.net.accountKey == client.net.accountKey
      && (outcome == Success <==> found.account) && AccountOk(found)
  {
    PostFromOnlyOpens(c, LoadDirectory(c, client).0, Plain, 0);
  }

  /** A key change succeeds exactly when it is accepted and that is heard. */
  lemma ChangeSucceedsIff(c: Climate, client: Client, newKey: NonceProtocol.Key)
    requires AccountOk(client) && client.account
    ensures KeyChange(c, client, newKey).1 == Success <==> Changed(c, client.net) && Heard(c, client.net)
  {
    var (signing, ok) := FetchNonce(c, client);
    assert ok <==> Through(c(client.net.requests)) && c(client.net.requests).issues;
    assert ok ==> signing.nonce == Some(client.net.next) && signing.net.requests == client.net.requests + 1;
  }

  /** What the command does to the server's key and to the files. */
  lemma RollOverAccountMeaning(c: Climate, net: Net, w: Workspace, aic: Aic, named: Option<Path>,
                               backup: Option<Timestamp>, stop: nat)
    requires Holds(w.files, aic) && net.accountKey.Some?
    ensures var (net', w') := RollOverAccount(c, net, w, aic, named, backup, stop);
      if !Accepted(c, net, w, aic, named) then net'.accountKey == net.accountKey && w'.files == w.files
      else
        && net'.accountKey == Some(NewKey(w, named).key)
        && w'.next == (if Generates(w, named) then w.next + 1 else w.next)
        && w'.files == if Known(c, net, w, aic) then KeyWorkspace.Rollover(w, aic, named, backup, stop).files else w.files
  {
    FoundAccount(c, Fresh(net, w, aic));
    var (found, outcome) := FindAccount(c, Fresh(net, w, aic));
    if outcome == Success && RolloverProceeds(w, aic, named) {
      KeyChangeMeaning(c, found, NewKey(w, named).key);
      ChangeSucceedsIff(c, found, NewKey(w, named).key);
    }
  }

  // ---------------------------------------------------------------- losing the key

  /** Some file of the workspace has the key. */
  predicate Stored(w: Workspace, key: Option<KeyWorkspace.Key>) {
    key.Some? && KeyFile(key.value) in w.files.Values
  }

  /** The agent's file has the server's key for its account. */
  predicate Current(net: Net, w: Workspace, aic: Aic) {
    Holds(w.files, aic) && net.accountKey == Some(w.files[Canonical(aic)].key)
  }

  predicate OnlyAt(files: Files, content: Content, p: Path) {
    forall q :: q in files && files[q] == content ==> q == p
  }

  /** The files do not keep the new key: a generated one is not saved, or the only file with a given one is taken by
      the backup and the command stops there. */
  predicate Drops(w: Workspace, aic: Aic, named: Option<Path>, backup: Option<Timestamp>, stop: nat, known: bool) {
    if Generates(w, named) then !known || stop <= 1
    else known && stop == 1 && backup.Some? && OnlyAt(w.files, NewKey(w, named), BackupPath(aic, backup.value))
  }

  lemma RolloverStores(w: Workspace, aic: Aic, named: Option<Path>, backup: Option<Timestamp>, stop: nat)
    requires KeysBounded(w) && RolloverProceeds(w, aic, named)
    ensures NewKey(w, named) !in KeyWorkspace.Rollover(w, aic, named, backup, stop).files.Values
       <==> Drops(w, aic, named, backup, stop, true)
  {
    var key, r := NewKey(w, named), KeyWorkspace.Rollover(w, aic, named, backup, stop);
    assert Bounded(w, Canonical(aic));
    if stop >= 2 {
      if backup.Some? { BackupIsNotCanonical(aic, backup.value, aic); }
      assert r.files[Canonical(aic)] == key;
    } else if Generates(w, named) {
      forall p | p in r.files ensures r.files[p] != key { assert p in w.files ==> Bounded(w, p); }
    } else if stop == 1 && backup.Some? {
      BackupIsNotCanonical(aic, backup.value, aic);
      BackupStores(w, aic, named, backup.value);
    } else {
      assert r.files[named.value] == key;
    }
  }

  lemma BackupStores(w: Workspace, aic: Aic, named: Option<Path>, backup: Timestamp)
    requires RolloverProceeds(w, aic, named) && !Generates(w, named)
    ensures NewKey(w, named) in w.files[BackupPath(aic, backup) := w.files[Canonical(aic)]].Values
       <==> !OnlyAt(w.files, NewKey(w, named), BackupPath(aic, backup))
  {
    var key, p := NewKey(w, named), BackupPath(aic, backup);
    var files := w.files[p := w.files[Canonical(aic)]];
    BackupIsNotCanonical(aic, backup, aic);
    if OnlyAt(w.files, key, p) {
      forall q | q in files ensures files[q] != key { }
    } else {
      var q :| q in w.files && w.files[q] == key && q != p;
      assert files[q] == key;
    }
  }

  /** From an agent's file that has the account's key, a rollover leaves the server with a key that is in no file of
      the workspace exactly when the change was accepted and the files do not keep the new key: mostly, when it was
      generated and its acceptance not heard of, or the command stopped before saving it. */
  lemma AccountKeyLostIff(c: Climate, net: Net, w: Workspace, aic: Aic, named: Option<Path>,
                          backup: Option<Timestamp>, stop: nat)
    requires KeysBounded(w) && Current(net, w, aic)
    ensures var (net', w') := RollOverAccount(c, net, w, aic, named, backup, stop);
      !Stored(w', net'.accountKey)
      <==> Accepted(c, net, w, aic, named) && Drops(w, aic, named, backup, stop, Known(c, net, w, aic))
  {
    RollOverAccountMeaning(c, net, w, aic, named, backup, stop);
    if Accepted(c, net, w, aic, named) {
      RolloverStores(w, aic, named, backup, stop);
      assert !Generates(w, named) ==> NewKey(w, named) in w.files.Values;
      if Generates(w, named) {
        forall p | p in w.files ensures w.files[p] != NewKey(w, named) { assert Bounded(w, p); }
      }
    } else {
      assert w.files[Canonical(aic)] in w.files.Values;
    }
  }

  /** The agent's file still has the server's key exactly when the change was not accepted, was to that very key, or
      was heard of and saved. */
  lemma FileStaysCurrentIff(c: Climate, net: Net, w: Workspace, aic: Aic, named: Option<Path>,
                            backup: Option<Timestamp>, stop: nat)
    requires Current(net, w, aic)
    ensures var (net', w') := RollOverAccount(c, net, w, aic, named, backup, stop);
      Current(net', w', aic)
      <==> !Accepted(c, net, w, aic, named) || NewKey(w, named) == w.files[Canonical(aic)]
           || (Known(c, net, w, aic) && stop >= 2)
  {
    RollOverAccountMeaning(c, net, w, aic, named, backup, stop);
    if backup.Some? { BackupIsNotCanonical(aic, backup.value, aic); }
  }

  // ---------------------------------------------------------------- for good

  lemma {:induction false} MissingStaysMissing(cfg: Config, w: Workspace, cs: seq<Command>, key: KeyWorkspace.Key)
    requires key < w.next && !Stored(w, Some(key))
    ensures !Stored(KeyWorkspace.PerformAll(cfg, w, cs), Some(key))
    decreases |cs|
  {
    if cs != [] {
      var w' := KeyWorkspace.Perform(cfg, w, cs[0]);
      PerformDerives(cfg, w, cs[0]);
      assert KeyFile(key) !in w'.files.Values;
      MissingStaysMissing(cfg, w', cs[1..], key);
    }
  }

  /** A key so lost is lost for good: whatever commands follow, for this agent or others, no file of the workspace
      ever has it. */
  lemma LostForGood(c: Climate, net: Net, w: Workspace, aic: Aic, named: Option<Path>,
                    backup: Option<Timestamp>, stop: nat, cfg: Config, cs: seq<Command>)
    requires KeysBounded(w) && Current(net, w, aic)
    ensures var (net', w') := RollOverAccount(c, net, w, aic, named, backup, stop);
      Accepted(c, net, w, aic, named) && Drops(w, aic, named, backup, stop, Known(c, net, w, aic)) ==>
        !Stored(KeyWorkspace.PerformAll(cfg, w', cs), net'.accountKey)
  {
    AccountKeyLostIff(c, net, w, aic, named, backup, stop);
    RollOverAccountMeaning(c, net, w, aic, named, backup, stop);
    if Accepted(c, net, w, aic, named) && Drops(w, aic, named, backup, stop, Known(c, net, w, aic)) {
      assert named.Some? ==> Bounded(w, named.value);
      MissingStaysMissing(cfg, RollOverAccount(c, net, w, aic, named, backup, stop).1, cs, NewKey(w, named).key);
    }
  }
}
