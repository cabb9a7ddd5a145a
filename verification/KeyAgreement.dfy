/** Whether the ACME client and the server have the same account key (section 7.3.5 of RFC 8555). */
module KeyAgreement {
  import opened Basics
  import opened NonceProtocol

  /** In this weather a key change is accepted: the request for its nonce comes back with one, and its POST arrives
      and is accepted before that nonce expires. */
  predicate Changed(c: Climate, net: Net) {
    var head, post := c(net.requests), c(net.requests + 1);
    && Through(head) && head.issues
    && post.arrives && post.works && post.accepts && net.next !in post.expires
  }

  /** The answer to the POST of a key change arrives. */
  predicate Heard(c: Climate, net: Net) {
    c(net.requests + 1).answers
  }

  /** A client that knows its account has a key, and the server has one for the account. */
  predicate AccountOk(client: Client) {
    client.account ==> client.directory && client.key.Some? && client.net.accountKey.Some?
  }

  /** A key change that is accepted rebinds the account, and the client follows if it hears of it. */
  lemma KeyChangeMeaning(c: Climate, client: Client, newKey: Key)
    requires AccountOk(client)
    ensures var r := KeyChange(c, client, newKey).0;
      && r.account == client.account && (client.directory ==> r.directory)
      && if client.account && Changed(c, client.net) then
           && r.net.accountKey == Some(newKey)
           && r.key == if Heard(c, client.net) then Some(newKey) else client.key
         else r.key == client.key && r.net.accountKey == client.net.accountKey
  {
    if client.account {
      var (signing, ok) := FetchNonce(c, client);
      assert ok <==> Through(c(client.net.requests)) && c(client.net.requests).issues;
      assert ok ==> signing.nonce == Some(client.net.next) && signing.net.requests == client.net.requests + 1;
    }
  }

  /** A key change drives client and server apart exactly in the weather in which it is accepted and its answer is
      lost. */
  lemma KeysPartIff(c: Climate, client: Client, newKey: Key)
    requires AccountOk(client) && client.key == client.net.accountKey && client.key != Some(newKey)
    ensures var r := KeyChange(c, client, newKey).0;
      r.key != r.net.accountKey <==> client.account && Changed(c, client.net) && !Heard(c, client.net)
  {
    KeyChangeMeaning(c, client, newKey);
  }

  // ---------------------------------------------------------------- other calls

  /** What signed requests leave alone: they may open the account but change no key. */
  predicate OnlyOpens(client: Client, r: Client, purpose: Purpose) {
    && r.key == client.key && r.account == client.account && (client.directory ==> r.directory)
    && r.net.accountKey in {client.net.accountKey, Bound(client.net.accountKey, purpose)}
  }

  lemma AttemptOnlyOpens(c: Climate, client: Client, purpose: Purpose, attempt: nat)
    ensures var (r, outcome) := Attempt(c, client, purpose, attempt);
      && OnlyOpens(client, r, purpose)
      && (outcome == Some(Success) ==> r.directory || client.nonce.Some?)
      && (outcome == Some(Success) ==> r.key.Some? && r.net.accountKey == Bound(client.net.accountKey, purpose))
  {
  }

  lemma {:induction false} PostFromOnlyOpens(c: Climate, client: Client, purpose: Purpose, attempt: nat)
    ensures var (r, outcome) := PostFrom(c, client, purpose, attempt);
      && OnlyOpens(client, r, purpose)
      && (outcome == Success ==> r.key.Some? && r.net.accountKey == Bound(client.net.accountKey, purpose))
    decreases RETRY_LIMIT + 1 - attempt
  {
    if attempt <= RETRY_LIMIT {
      AttemptOnlyOpens(c, client, purpose, attempt);
      var (r, outcome) := Attempt(c, client, purpose, attempt);
      if outcome.None? {
        PostFromOnlyOpens(c, r, purpose, attempt + 1);
      }
    }
  }

  /** Every call but a key change keeps the client's key, and the server's unless it opens the account. */
  lemma OtherCallsKeepKeys(c: Climate, client: Client, call: Call)
    requires AccountOk(client) && !call.Rollover?
    ensures var r := Perform(c, client, call);
      && AccountOk(r) && r.key == client.key
      && (r.net.accountKey == client.net.accountKey || (client.net.accountKey.None? && r.net.accountKey == client.key))
  {
    match call
    case Request => PostFromOnlyOpens(c, client, Plain, 0);
    case NewNonce =>
    case NewAccount => PostFromOnlyOpens(c, LoadDirectory(c, client).0, Opening(client), 0);
  }

  // ---------------------------------------------------------------- runs

  /** A key change that the server accepted, and whether the client heard of it. */
  datatype Change = Change(key: Key, heard: bool)

  function ChangeBy(c: Climate, client: Client, call: Call): seq<Change> {
    if call.Rollover? && client.account && Changed(c, client.net) then [Change(call.newKey, Heard(c, client.net))] else []
  }

  /** The accepted key changes of a run, told from the weather. */
  function Changes(c: Climate, client: Client, calls: seq<Call>): seq<Change>
    decreases |calls|
  {
    if calls == [] then []
    else ChangeBy(c, client, calls[0]) + Changes(c, Perform(c, client, calls[0]), calls[1..])
  }

  /** The key of a client that starts with `key`: that of the last change it heard of. */
  function HeldAfter(key: Option<Key>, changes: seq<Change>): Option<Key> {
    if changes == [] then key
    else
      var last := changes[|changes| - 1];
      if last.heard then Some(last.key) else HeldAfter(key, changes[..|changes| - 1])
  }

  /** The server's key: that of the last change it accepted. */
  function BoundAfter(key: Option<Key>, changes: seq<Change>): Option<Key> {
    if changes == [] then key else Some(changes[|changes| - 1].key)
  }

  lemma {:induction false} HeldAfterConcat(key: Option<Key>, first: seq<Change>, rest: seq<Change>)
    ensures HeldAfter(key, first + rest) == HeldAfter(HeldAfter(key, first), rest)
    decreases |rest|
  {
    if rest == [] {
      assert first + rest == first;
    } else {
      var front := rest[..|rest| - 1];
      assert (first + rest)[..|first + rest| - 1] == first + front;
      HeldAfterConcat(key, first, front);
    }
  }

  lemma StepKeys(c: Climate, client: Client, call: Call)
    requires AccountOk(client)
    ensures var r, made := Perform(c, client, call), ChangeBy(c, client, call);
      && AccountOk(r) && r.key == HeldAfter(client.key, made)
      && (client.net.accountKey.Some? ==> r.net.accountKey == BoundAfter(client.net.accountKey, made))
      && (client.net.accountKey.None? ==> made == [] && r.net.accountKey in {None, client.key})
  {
    match call
    case Rollover(newKey) =>
      KeyChangeMeaning(c, client, newKey);
      var made := ChangeBy(c, client, call);
      assert made != [] ==> made[..0] == [];
    case _ => OtherCallsKeepKeys(c, client, call);
  }

  /** After any run both sides' keys are told from the accepted key changes alone. */
  lemma {:induction false} KeysAfterRun(c: Climate, client: Client, calls: seq<Call>)
    requires AccountOk(client)
    ensures var end, changes := PerformAll(c, client, calls), Changes(c, client, calls);
      && end.key == HeldAfter(client.key, changes)
      && (client.net.accountKey.Some? ==> end.net.accountKey == BoundAfter(client.net.accountKey, changes))
      && (client.net.accountKey.None? && end.net.accountKey.Some? ==>
            end.net.accountKey == BoundAfter(client.key, changes))
    decreases |calls|
  {
    if calls != [] {
      var r := Perform(c, client, calls[0]);
      StepKeys(c, client, calls[0]);
      KeysAfterRun(c, r, calls[1..]);
      HeldAfterConcat(client.key, ChangeBy(c, client, calls[0]), Changes(c, r, calls[1..]));
    }
  }

  /** Over every run, client and server have different keys for the account exactly when the last accepted key
      change went unheard and its key is not the one the client holds, that of the last change it did hear of. */
  lemma KeysDifferIff(c: Climate, key: Option<Key>, calls: seq<Call>)
    ensures var end, changes := PerformAll(c, Initial(key), calls), Changes(c, Initial(key), calls);
      end.net.accountKey.Some? ==>
        (end.key != end.net.accountKey <==>
          && changes != [] && !changes[|changes| - 1].heard
          && HeldAfter(key, changes) != Some(changes[|changes| - 1].key))
  {
    KeysAfterRun(c, Initial(key), calls);
  }

  // ---------------------------------------------------------------- rollovers to new keys

  /** Every rollover is to a key that is neither the first nor that of an earlier rollover. */
  ghost predicate NewKeys(key: Option<Key>, calls: seq<Call>) {
    && (forall call :: call in calls && call.Rollover? ==> Some(call.newKey) != key)
    && (forall i, j :: 0 <= i < j < |calls| && calls[i].Rollover? && calls[j].Rollover? ==>
          calls[i].newKey != calls[j].newKey)
  }

  lemma {:induction false} ChangesAreRollovers(c: Climate, client: Client, calls: seq<Call>)
    ensures forall change :: change in Changes(c, client, calls) ==> Rollover(change.key) in calls
    decreases |calls|
  {
    if calls != [] {
      ChangesAreRollovers(c, Perform(c, client, calls[0]), calls[1..]);
    }
  }

  predicate DifferentKeys(changes: seq<Change>) {
    forall i, j :: 0 <= i < j < |changes| ==> changes[i].key != changes[j].key
  }

  lemma OneMoreKey(made: seq<Change>, later: seq<Change>)
    requires |made| <= 1 && DifferentKeys(later)
    requires forall j :: 0 <= j < |later| ==> made != [] ==> made[0].key != later[j].key
    ensures DifferentKeys(made + later)
  {
    var changes := made + later;
    forall i, j | 0 <= i < j < |changes| ensures changes[i].key != changes[j].key {
      assert changes[j] == later[j - |made|];
      if i >= |made| {
        assert changes[i] == later[i - |made|];
      } else {
        assert changes[i] == made[0];
      }
    }
  }

  lemma {:induction false} ChangesAreNew(c: Climate, client: Client, key: Option<Key>, calls: seq<Call>)
    requires NewKeys(key, calls)
    ensures var changes := Changes(c, client, calls);
      && (forall i :: 0 <= i < |changes| ==> Some(changes[i].key) != key)
      && DifferentKeys(changes)
    decreases |calls|
  {
    if calls != [] {
      var r, rest := Perform(c, client, calls[0]), calls[1..];
      assert forall i :: 0 <= i < |rest| ==> rest[i] == calls[i + 1];
      ChangesAreNew(c, r, key, rest);
      ChangesAreRollovers(c, r, rest);
      var made, later := ChangeBy(c, client, calls[0]), Changes(c, r, rest);
      forall j | 0 <= j < |later| ensures made != [] ==> made[0].key != later[j].key {
        assert later[j] in later;
        var i :| 0 <= i < |rest| && rest[i] == Rollover(later[j].key);
        assert calls[i + 1] == rest[i];
      }
      OneMoreKey(made, later);
    }
  }

  lemma {:induction false} HeldIsFirstOrHeard(key: Option<Key>, changes: seq<Change>)
    ensures HeldAfter(key, changes) == key
         || exists i :: 0 <= i < |changes| && changes[i].heard && HeldAfter(key, changes) == Some(changes[i].key)
  {
    if changes != [] && !changes[|changes| - 1].heard {
      var front := changes[..|changes| - 1];
      HeldIsFirstOrHeard(key, front);
      if i :| 0 <= i < |front| && front[i].heard && HeldAfter(key, front) == Some(front[i].key) {
        assert changes[i] == front[i];
      }
    }
  }

  /** Change number `i` went unheard, and so did every later one. */
  predicate UnheardSince(changes: seq<Change>, i: nat)
    requires i < |changes|
  {
    forall j :: i <= j < |changes| ==> !changes[j].heard
  }

  /** When every rollover is to a new key, the keys differ exactly when an accepted key change went unheard and no
      later one was heard. */
  lemma NewKeysDifferIff(c: Climate, key: Option<Key>, calls: seq<Call>)
    requires NewKeys(key, calls)
    ensures var end, changes := PerformAll(c, Initial(key), calls), Changes(c, Initial(key), calls);
      end.net.accountKey.Some? ==>
        (end.key != end.net.accountKey <==> exists i :: 0 <= i < |changes| && UnheardSince(changes, i))
  {
    var changes := Changes(c, Initial(key), calls);
    KeysDifferIff(c, key, calls);
    ChangesAreNew(c, Initial(key), key, calls);
    HeldIsFirstOrHeard(key, changes);
    if changes != [] && !changes[|changes| - 1].heard {
      assert UnheardSince(changes, |changes| - 1);
    }
  }

  // ---------------------------------------------------------------- a lost answer

  /** Fair weather, but for the answer to request `n`. */
  function LosesAnswer(n: nat): Climate {
    (i: nat) => Weather({}, true, true, true, true, i != n)
  }

  /** A client that opens an account and then misses the answer to its key change is left with the old key. */
  lemma KeyChangeCanPart()
    ensures var end := PerformAll(LosesAnswer(4), Initial(Some(0)), [NewAccount, Rollover(1)]);
      end.account && end.key == Some(0) && end.net.accountKey == Some(1)
  {
    var c, client := LosesAnswer(4), Initial(Some(0));
    var known := Perform(c, client, NewAccount);
    assert known.account && known.directory && known.key == Some(0) && known.net.accountKey == Some(0) by {
      var ready := LoadDirectory(c, client).0;
      var (told, outcome) := Attempt(c, ready, OpenAccount(0), 0);
      assert outcome == Some(Success) && told.net.accountKey == Some(0);
    }
    assert known.net.requests == 3 && known.net.next == 2 && known.net.live == {1};
    KeyChangeMeaning(c, known, 1);
    assert [NewAccount, Rollover(1)][1..] == [Rollover(1)] && [Rollover(1)][1..] == [];
    var end := Perform(c, known, Rollover(1));
    assert PerformAll(c, end, []) == end;
    assert PerformAll(c, known, [Rollover(1)]) == end;
  }
}
