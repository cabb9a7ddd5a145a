/** The replay-nonce discipline of the ACME client (section 6.5 of RFC 8555), against a server that accepts
    each nonce it has issued at most once and may forget nonces at any time. */
module NonceProtocol {
  import opened Basics

  type Nonce = nat
  type Key = nat

  /** What happens around one HTTP request: which nonces the server forgets before it, whether it arrives,
      whether the server works (or fails before it looks at the request), whether it accepts a well-formed
      request, whether its answer carries a fresh nonce, and whether the answer arrives. */
  datatype Weather = Weather(
    expires: set<Nonce>, arrives: bool, works: bool, accepts: bool, issues: bool, answers: bool)

  /** The weather of every request of a run. */
  type Climate = nat -> Weather

  /** A POST that was sent: its nonce, whether the server accepted it and whether its answer arrived. */
  datatype Sent = Sent(nonce: Nonce, accepted: bool, answered: bool)

  /** The server's nonces and the key it has for the account, how many requests were made, and the POSTs among
      them. */
  datatype Net = Net(next: Nonce, live: set<Nonce>, accountKey: Option<Key>, requests: nat, posts: seq<Sent>)

  /** What a POST does to the account if the server accepts it. */
  datatype Purpose = Plain | OpenAccount(key: Key) | ChangeKey(newKey: Key)

  datatype Status = Good | BadNonce | Refused

  datatype Reply = Lost | Reply(status: Status, given: Option<Nonce>)

  datatype Client = Client(key: Option<Key>, account: bool, directory: bool, nonce: Option<Nonce>, net: Net)

  datatype Outcome = Success | NoKey | NoAccount | Unreachable | HttpError(status: Status) | Exhausted

  const RETRY_LIMIT: nat := 1

  predicate Through(w: Weather) {
    w.arrives && w.works && w.answers
  }

  // ---------------------------------------------------------------- the server

  function Reach(c: Climate, net: Net): Net {
    net.(live := net.live - c(net.requests).expires, requests := net.requests + 1)
  }

  function Issue(net: Net, issues: bool): (Net, Option<Nonce>) {
    if issues then (net.(live := net.live + {net.next}, next := net.next + 1), Some(net.next)) else (net, None)
  }

  function Judge(w: Weather, live: set<Nonce>, nonce: Nonce): Status {
    if !w.works then Refused else if nonce !in live then BadNonce else if w.accepts then Good else Refused
  }

  /** An account is opened once; a key change replaces its key. */
  function Bound(accountKey: Option<Key>, purpose: Purpose): Option<Key> {
    match purpose
    case Plain => accountKey
    case OpenAccount(key) => if accountKey.None? then Some(key) else accountKey
    case ChangeKey(newKey) => Some(newKey)
  }

  function Serve(c: Climate, net: Net, nonce: Nonce, purpose: Purpose): (Net, Reply) {
    var w, reached := c(net.requests), Reach(c, net);
    if !w.arrives then (reached.(posts := reached.posts + [Sent(nonce, false, false)]), Lost)
    else
      var status := Judge(w, reached.live, nonce);
      var spent := if w.works then reached.(live := reached.live - {nonce}) else reached;
      var (issued, given) := Issue(spent, w.issues);
      (issued.(posts := issued.posts + [Sent(nonce, status == Good, w.answers)],
               accountKey := if status == Good then Bound(net.accountKey, purpose) else net.accountKey),
       if w.answers then Reply(status, given) else Lost)
  }

  function ServeHead(c: Climate, net: Net): (Net, Option<Nonce>) {
    var w, reached := c(net.requests), Reach(c, net);
    if !w.arrives then (reached, None)
    else
      var (issued, given) := Issue(reached, w.issues);
      (issued, if w.works && w.answers then given else None)
  }

  // ---------------------------------------------------------------- the client

  /** Fetches the directory once; false if that fails. */
  function LoadDirectory(c: Climate, client: Client): (Client, bool) {
    if client.directory then (client, true)
    else
      var ok := Through(c(client.net.requests));
      (client.(net := Reach(c, client.net), directory := ok), ok)
  }

  /** `get_nonce`; false if it raises, which leaves the nonce as it was. */
  function FetchNonce(c: Climate, client: Client): (Client, bool) {
    var (ready, ok) := LoadDirectory(c, client);
    if !ok then (ready, false)
    else
      var (net, given) := ServeHead(c, ready.net);
      if given.Some? then (ready.(net := net, nonce := given), true) else (ready.(net := net), false)
  }

  function EnsureNonce(c: Climate, client: Client): (Client, bool) {
    if client.nonce.None? then FetchNonce(c, client) else (client, true)
  }

  /** One attempt at a signed request; no outcome means that it is to be tried again. */
  function Attempt(c: Climate, client: Client, purpose: Purpose, attempt: nat): (Client, Option<Outcome>) {
    if client.key.None? then (client, Some(NoKey))
    else
      var (signing, ok) := EnsureNonce(c, client);
      if !ok then (signing, Some(Unreachable))
      else
        var (net, reply) := Serve(c, signing.net, signing.nonce.value, purpose);
        if reply.Lost? then (signing.(net := net), Some(Unreachable))
        else
          var told := signing.(net := net, nonce := reply.given);
          if reply.status == Good then (told, Some(Success))
          else if attempt < RETRY_LIMIT && reply.status == BadNonce then
            var (again, ok) := EnsureNonce(c, told);
            (again, if ok then None else Some(Unreachable))
          else (told, Some(HttpError(reply.status)))
  }

  function PostFrom(c: Climate, client: Client, purpose: Purpose, attempt: nat): (Client, Outcome)
    decreases RETRY_LIMIT + 1 - attempt
  {
    if attempt > RETRY_LIMIT then (client, Exhausted)
    else
      var (r, outcome) := Attempt(c, client, purpose, attempt);
      if outcome.Some? then (r, outcome.value) else PostFrom(c, r, purpose, attempt + 1)
  }

  /** A signed request. */
  function Post(c: Climate, client: Client, purpose: Purpose): (Client, Outcome) {
    PostFrom(c, client, purpose, 0)
  }

  function Opening(client: Client): Purpose {
    if client.key.Some? then OpenAccount(client.key.value) else Plain
  }

  /** `new_account`: a signed request that, if it succeeds, tells the client its account. */
  function Register(c: Climate, client: Client): (Client, Outcome) {
    var (ready, ok) := LoadDirectory(c, client);
    if !ok then (ready, Unreachable)
    else
      var (r, outcome) := Post(c, ready, Opening(client));
      if outcome == Success then (r.(account := true), outcome) else (r, outcome)
  }

  /** `key_change`: it fetches a nonce of its own and does not retry. */
  function KeyChange(c: Climate, client: Client, newKey: Key): (Client, Outcome) {
    if !client.account then (client, NoAccount)
    else
      var (ready, found) := LoadDirectory(c, client);
      if !found then (ready, Unreachable)
      else if client.key.None? then (ready, NoKey)
      else
        var (signing, ok) := FetchNonce(c, ready);
        if !ok then (signing, Unreachable)
        else
          var (net, reply) := Serve(c, signing.net, signing.nonce.value, ChangeKey(newKey));
          if reply.Lost? then (signing.(net := net), Unreachable)
          else
            var told := signing.(net := net, nonce := reply.given);
            if reply.status == Good then (told.(key := Some(newKey)), Success) else (told, HttpError(reply.status))
  }

  datatype Call = Request | NewNonce | NewAccount | Rollover(newKey: Key)

  function Perform(c: Climate, client: Client, call: Call): Client {
    match call
    case Request => Post(c, client, Plain).0
    case NewNonce => FetchNonce(c, client).0
    case NewAccount => Register(c, client).0
    case Rollover(newKey) => KeyChange(c, client, newKey).0
  }

  function PerformAll(c: Climate, client: Client, calls: seq<Call>): Client
    decreases |calls|
  {
    if calls == [] then client else PerformAll(c, Perform(c, client, calls[0]), calls[1..])
  }

  function Initial(key: Option<Key>): Client {
    Client(key, false, false, None, Net(0, {}, None, 0, []))
  }

  // ---------------------------------------------------------------- the invariant

  predicate Apart(earlier: Sent, later: Sent) {
    && (earlier.answered ==> later.nonce != earlier.nonce)
    && (earlier.accepted && later.accepted ==> later.nonce != earlier.nonce)
  }

  /** The nonce of an answered POST is not the nonce of a later one, and no nonce was accepted twice. */
  ghost predicate NoReuse(posts: seq<Sent>) {
    forall i, j {:trigger Apart(posts[i], posts[j])} :: 0 <= i < j < |posts| ==> Apart(posts[i], posts[j])
  }

  /** Every POST used an issued nonce, and an accepted one is no longer live. */
  predicate PostOk(net: Net, sent: Sent) {
    sent.nonce < net.next && (sent.accepted ==> sent.nonce !in net.live)
  }

  ghost predicate NetOk(net: Net) {
    && (forall n :: n in net.live ==> n < net.next)
    && (forall sent {:trigger PostOk(net, sent)} :: sent in net.posts ==> PostOk(net, sent))
    && NoReuse(net.posts)
  }

  predicate AnswerTo(sent: Sent, nonce: Nonce) {
    sent.answered && sent.nonce == nonce
  }

  /** No answer came to a POST with this nonce. */
  ghost predicate Unanswered(posts: seq<Sent>, nonce: Nonce) {
    forall sent {:trigger AnswerTo(sent, nonce)} :: sent in posts ==> !AnswerTo(sent, nonce)
  }

  ghost predicate Usable(net: Net, nonce: Nonce) {
    nonce < net.next && Unanswered(net.posts, nonce)
  }

  ghost predicate Inv(client: Client) {
    && NetOk(client.net)
    && (client.nonce.Some? ==> client.directory && Usable(client.net, client.nonce.value))
  }

  /** The server's nonces may be forgotten and new ones issued. */
  lemma MovesKeepNet(net: Net, net': Net, nonce: Nonce)
    requires NetOk(net) && net'.posts == net.posts && net.next <= net'.next
    requires forall n :: n in net'.live ==> n < net'.next && (n in net.live || n >= net.next)
    ensures NetOk(net')
    ensures Usable(net, nonce) || net.next <= nonce < net'.next ==> Usable(net', nonce)
  {
    forall sent | sent in net.posts ensures PostOk(net', sent) && (nonce >= net.next ==> !AnswerTo(sent, nonce)) {
      assert PostOk(net, sent);
    }
  }

  lemma LoadKeepsInv(c: Climate, client: Client)
    requires Inv(client)
    ensures Inv(LoadDirectory(c, client).0) && LoadDirectory(c, client).0.net.posts == client.net.posts
  {
    MovesKeepNet(client.net, Reach(c, client.net), if client.nonce.Some? then client.nonce.value else 0);
  }

  lemma FetchKeepsInv(c: Climate, client: Client)
    requires Inv(client)
    ensures var (r, ok) := FetchNonce(c, client);
      Inv(r) && r.net.posts == client.net.posts && (ok ==> r.nonce.Some?) && r.key == client.key
  {
    LoadKeepsInv(c, client);
    var (ready, ok) := LoadDirectory(c, client);
    if ok {
      var (net, given) := ServeHead(c, ready.net);
      var r := FetchNonce(c, client).0;
      MovesKeepNet(ready.net, net, if r.nonce.Some? then r.nonce.value else 0);
    }
  }

  /** What the net records of serving a POST. */
  function Record(c: Climate, net: Net, nonce: Nonce): Sent {
    var w := c(net.requests);
    Sent(nonce, w.arrives && Judge(w, Reach(c, net).live, nonce) == Good, w.arrives && w.answers)
  }

  lemma ServeKeepsNet(c: Climate, net: Net, nonce: Nonce, purpose: Purpose)
    requires NetOk(net) && Usable(net, nonce)
    ensures var (net', reply) := Serve(c, net, nonce, purpose);
      var sent := Record(c, net, nonce);
      && NetOk(net')
      && net'.posts == net.posts + [sent]
      && (if reply.Lost? then !sent.answered && Usable(net', nonce)
          else sent.answered && sent.accepted == (reply.status == Good)
               && (reply.given.Some? ==> Usable(net', reply.given.value)))
  {
    var (net', reply) := Serve(c, net, nonce, purpose);
    var sent := Record(c, net, nonce);
    forall s | s in net'.posts ensures PostOk(net', s) {
      assert s == sent || PostOk(net, s);
    }
    forall i, j | 0 <= i < j < |net'.posts| ensures Apart(net'.posts[i], net'.posts[j]) {
      assert PostOk(net, net'.posts[i]) && !AnswerTo(net'.posts[i], nonce);
      assert j < |net.posts| ==> Apart(net.posts[i], net.posts[j]);
    }
    forall s | s in net'.posts ensures reply.Lost? ==> !AnswerTo(s, nonce) {
      assert s == sent || !AnswerTo(s, nonce);
    }
    forall s | s in net'.posts ensures reply.Reply? && reply.given.Some? ==> !AnswerTo(s, reply.given.value) {
      assert s == sent || PostOk(net, s);
    }
  }

  /** What a signed request adds to the POSTs sent: at most `limit`, every one but the last answered and not
      accepted. It succeeds exactly when its last POST was accepted and answered, and it keeps the nonce of a
      last POST that was not answered. */
  ghost predicate Appends(before: seq<Sent>, after: seq<Sent>, limit: nat, outcome: Outcome, nonce: Option<Nonce>) {
    var last := |after| - 1;
    && |before| <= |after| <= |before| + limit && before <= after
    && (forall i :: |before| <= i < last ==> after[i].answered && !after[i].accepted)
    && (outcome == Success <==> last >= |before| && after[last].accepted && after[last].answered)
    && (last >= |before| && !after[last].answered ==> outcome == Unreachable && nonce == Some(after[last].nonce))
    && outcome != Exhausted
  }

  lemma AppendsAfterAnswer(before: seq<Sent>, sent: Sent, after: seq<Sent>, limit: nat, outcome: Outcome,
                           nonce: Option<Nonce>)
    requires sent.answered && !sent.accepted && Appends(before + [sent], after, limit, outcome, nonce)
    ensures Appends(before, after, limit + 1, outcome, nonce)
  {
    assert after[|before|] == (before + [sent])[|before|];
  }

  lemma EnsureKeepsInv(c: Climate, client: Client)
    requires Inv(client)
    ensures var (r, ok) := EnsureNonce(c, client);
      Inv(r) && r.net.posts == client.net.posts && (ok ==> r.nonce.Some?) && r.key == client.key
  {
    FetchKeepsInv(c, client);
  }

  lemma AttemptKeepsInv(c: Climate, client: Client, purpose: Purpose, attempt: nat)
    requires Inv(client) && attempt <= RETRY_LIMIT
    ensures var (r, outcome) := Attempt(c, client, purpose, attempt);
      var before, after := client.net.posts, r.net.posts;
      && Inv(r) && r.key == client.key
      && (after == before || (|after| == |before| + 1 && after == before + [after[|before|]]))
      && (outcome.None? ==> attempt < RETRY_LIMIT && |after| > |before| && after[|before|].answered)
      && (outcome == Some(Success) <==> |after| > |before| && after[|before|].accepted && after[|before|].answered)
      && (|after| > |before| && !after[|before|].answered ==>
            outcome == Some(Unreachable) && r.nonce == Some(after[|before|].nonce))
      && outcome != Some(Exhausted)
  {
    EnsureKeepsInv(c, client);
    var (signing, ok) := EnsureNonce(c, client);
    if client.key.Some? && ok {
      ServeKeepsNet(c, signing.net, signing.nonce.value, purpose);
      var (net, reply) := Serve(c, signing.net, signing.nonce.value, purpose);
      if reply.Reply? {
        EnsureKeepsInv(c, signing.(net := net, nonce := reply.given));
      }
    }
  }

  lemma {:induction false} PostFromKeepsInv(c: Climate, client: Client, purpose: Purpose, attempt: nat)
    requires Inv(client) && attempt <= RETRY_LIMIT
    ensures var (r, outcome) := PostFrom(c, client, purpose, attempt);
      && Inv(r) && r.key == client.key
      && Appends(client.net.posts, r.net.posts, RETRY_LIMIT + 1 - attempt, outcome, r.nonce)
    decreases RETRY_LIMIT + 1 - attempt
  {
    AttemptKeepsInv(c, client, purpose, attempt);
    var (r, outcome) := Attempt(c, client, purpose, attempt);
    if outcome.None? {
      PostFromKeepsInv(c, r, purpose, attempt + 1);
      var (end, final) := PostFrom(c, r, purpose, attempt + 1);
      AppendsAfterAnswer(client.net.posts, r.net.posts[|client.net.posts|], end.net.posts,
                         RETRY_LIMIT - attempt, final, end.nonce);
    }
  }

  /** A signed request sends at most two POSTs, never runs out of retries, and is accepted by the server at
      most once: only its last POST can be. */
  lemma PostSendsAtMostTwo(c: Climate, client: Client, purpose: Purpose)
    requires Inv(client)
    ensures var (r, outcome) := Post(c, client, purpose);
      Inv(r) && r.key == client.key && Appends(client.net.posts, r.net.posts, 2, outcome, r.nonce)
  {
    PostFromKeepsInv(c, client, purpose, 0);
  }

  lemma KeyChangeKeepsInv(c: Climate, client: Client, newKey: Key)
    requires Inv(client)
    ensures Inv(KeyChange(c, client, newKey).0)
  {
    LoadKeepsInv(c, client);
    var ready := LoadDirectory(c, client).0;
    FetchKeepsInv(c, ready);
    var (signing, ok) := FetchNonce(c, ready);
    if ok {
      ServeKeepsNet(c, signing.net, signing.nonce.value, ChangeKey(newKey));
    }
  }

  /** A key change sends at most one POST and switches the client's key exactly when it succeeds. */
  lemma KeyChangeSendsAtMostOne(c: Climate, client: Client, newKey: Key)
    requires Inv(client)
    ensures var (r, outcome) := KeyChange(c, client, newKey);
      var before, after := client.net.posts, r.net.posts;
      && (after == before || (|after| == |before| + 1 && before <= after))
      && r.key == (if outcome == Success then Some(newKey) else client.key)
      && (outcome == Success ==> |after| > |before| && after[|before|].accepted && after[|before|].answered)
  {
    LoadKeepsInv(c, client);
    var ready := LoadDirectory(c, client).0;
    FetchKeepsInv(c, ready);
    var (signing, ok) := FetchNonce(c, ready);
    if ok {
      ServeKeepsNet(c, signing.net, signing.nonce.value, ChangeKey(newKey));
    }
  }

  lemma PerformKeepsInv(c: Climate, client: Client, call: Call)
    requires Inv(client)
    ensures Inv(Perform(c, client, call))
  {
    match call
    case Request => PostFromKeepsInv(c, client, Plain, 0);
    case NewNonce => FetchKeepsInv(c, client);
    case NewAccount =>
      LoadKeepsInv(c, client);
      PostFromKeepsInv(c, LoadDirectory(c, client).0, Opening(client), 0);
    case Rollover(newKey) => KeyChangeKeepsInv(c, client, newKey);
  }

  lemma {:induction false} RunKeepsInv(c: Climate, client: Client, calls: seq<Call>)
    requires Inv(client)
    ensures Inv(PerformAll(c, client, calls))
    decreases |calls|
  {
    if calls != [] {
      PerformKeepsInv(c, client, calls[0]);
      RunKeepsInv(c, Perform(c, client, calls[0]), calls[1..]);
    }
  }

  /** In every run and every weather, the nonce of a POST that was answered is never sent again, and the server
      accepts no nonce twice. */
  lemma AnsweredNoncesAreSpent(c: Climate, key: Option<Key>, calls: seq<Call>)
    ensures NoReuse(PerformAll(c, Initial(key), calls).net.posts)
  {
    RunKeepsInv(c, Initial(key), calls);
  }

  // ---------------------------------------------------------------- recovery

  /** The server takes a request with this nonce, if the nonce is still good, and the client learns of it. */
  predicate Takes(w: Weather, nonce: Nonce) {
    Through(w) && w.accepts && nonce !in w.expires
  }

  /** The weather in which a client holding a spent nonce recovers: the complaint about it arrives, a fresh
      nonce comes with it or with a request for one, and the second POST is taken before that one expires. */
  predicate Recovers(c: Climate, net: Net) {
    var r := net.requests;
    && Through(c(r))
    && if c(r).issues then Takes(c(r + 1), net.next)
       else Through(c(r + 1)) && c(r + 1).issues && Takes(c(r + 2), net.next)
  }

  /** When a signed request succeeds. It needs a nonce: the one in hand, or one it can fetch. With a good nonce
      its POST must be taken at once; with a spent one it succeeds exactly in the weather of `Recovers`, and then
      with exactly one retry. */
  lemma PostSucceedsIff(c: Climate, client: Client, purpose: Purpose)
    requires Inv(client) && client.key.Some?
    ensures var (r, outcome) := Post(c, client, purpose);
      var (signing, ok) := EnsureNonce(c, client);
      if !ok then outcome == Unreachable && r.net.posts == client.net.posts
      else
        var w, nonce := c(signing.net.requests), signing.nonce.value;
        if nonce in signing.net.live - w.expires then
          && (outcome == Success <==> Takes(w, nonce))
          && |r.net.posts| == |client.net.posts| + 1
        else
          && (outcome == Success <==> Recovers(c, signing.net))
          && (outcome == Success ==> |r.net.posts| == |client.net.posts| + 2)
  {
    EnsureKeepsInv(c, client);
    var (signing, ok) := EnsureNonce(c, client);
    if ok {
      PostWithNonceSucceedsIff(c, signing, purpose);
      assert Attempt(c, client, purpose, 0) == Attempt(c, signing, purpose, 0);
    }
  }

  lemma PostWithNonceSucceedsIff(c: Climate, client: Client, purpose: Purpose)
    requires Inv(client) && client.key.Some? && client.nonce.Some?
    ensures var (r, outcome) := Post(c, client, purpose);
      var w, nonce := c(client.net.requests), client.nonce.value;
      if nonce in client.net.live - w.expires then
        && (outcome == Success <==> Takes(w, nonce))
        && |r.net.posts| == |client.net.posts| + 1
      else
        && (outcome == Success <==> Recovers(c, client.net))
        && (outcome == Success ==> |r.net.posts| == |client.net.posts| + 2)
  {
    if client.nonce.value !in client.net.live - c(client.net.requests).expires {
      SpentNonceRecovers(c, client, purpose);
    }
  }

  lemma SpentNonceRecovers(c: Climate, client: Client, purpose: Purpose)
    requires Inv(client) && client.key.Some? && client.nonce.Some?
    requires client.nonce.value !in client.net.live - c(client.net.requests).expires
    ensures var (r, outcome) := Post(c, client, purpose);
      && (outcome == Success <==> Recovers(c, client.net))
      && (outcome == Success ==> |r.net.posts| == |client.net.posts| + 2)
  {
    var w := c(client.net.requests);
    var (net, reply) := Serve(c, client.net, client.nonce.value, purpose);
    if Through(w) {
      assert reply.status == BadNonce;
      var told := client.(net := net, nonce := reply.given);
      var (again, ok) := EnsureNonce(c, told);
      assert Post(c, client, purpose) == if ok then PostFrom(c, again, purpose, 1) else (again, Unreachable);
      assert ok ==> again.nonce == Some(client.net.next);
    }
  }

  /** The last POST sent after `before` went unanswered. */
  predicate EndsUnanswered(before: seq<Sent>, after: seq<Sent>) {
    |before| < |after| && !after[|after| - 1].answered
  }

  lemma UnansweredRecovers(c: Climate, before: seq<Sent>, client: Client, outcome: Outcome, purpose: Purpose)
    requires Inv(client) && client.key.Some? && EndsUnanswered(before, client.net.posts)
    requires Appends(before, client.net.posts, 2, outcome, client.nonce)
    ensures outcome == Unreachable && client.nonce == Some(client.net.posts[|client.net.posts| - 1].nonce)
    ensures client.nonce.value !in client.net.live ==>
      (Post(c, client, purpose).1 == Success <==> Recovers(c, client.net))
  {
    if client.nonce.value !in client.net.live {
      SpentNonceRecovers(c, client, purpose);
    }
  }

  /** A signed request whose answer is lost keeps its nonce, which the server has already spent if it looked at
      it; the next one, whatever it is for, then recovers exactly in the weather of `Recovers`. */
  lemma LostAnswerRecovery(c: Climate, client: Client, purpose: Purpose, again: Purpose)
    requires Inv(client) && client.key.Some?
    requires EndsUnanswered(client.net.posts, Post(c, client, purpose).0.net.posts)
    ensures var (r, outcome) := Post(c, client, purpose);
      && outcome == Unreachable
      && r.nonce == Some(r.net.posts[|r.net.posts| - 1].nonce)
      && (r.nonce.value !in r.net.live ==> (Post(c, r, again).1 == Success <==> Recovers(c, r.net)))
  {
    PostSendsAtMostTwo(c, client, purpose);
    var (r, outcome) := Post(c, client, purpose);
    UnansweredRecovers(c, client.net.posts, r, outcome, again);
  }

  // ---------------------------------------------------------------- outcomes

  /** What the client makes of one POST: it is lost, or the server fails or refuses, or it calls the nonce bad, or
      it takes the request. */
  function Told(w: Weather, good: bool): Outcome {
    if !w.arrives || !w.answers then Unreachable
    else if w.works && !good then HttpError(BadNonce)
    else if w.works && w.accepts then Success
    else HttpError(Refused)
  }

  /** The outcome of a signed request by a client that has a nonce, told from the weather: that of its POST, unless
      the server calls the nonce bad; then a fresh one is given with the answer or fetched, and the outcome is that of
      the second POST. */
  function Forecast(c: Climate, net: Net, nonce: Nonce): Outcome {
    var r := net.requests;
    var first := Told(c(r), nonce in net.live - c(r).expires);
    if first != HttpError(BadNonce) then first
    else if c(r).issues then Told(c(r + 1), net.next !in c(r + 1).expires)
    else if !Through(c(r + 1)) || !c(r + 1).issues then Unreachable
    else Told(c(r + 2), net.next !in c(r + 2).expires)
  }

  lemma LastAttempt(c: Climate, client: Client, purpose: Purpose)
    requires client.key.Some? && client.nonce.Some?
    ensures PostFrom(c, client, purpose, RETRY_LIMIT).1
         == Told(c(client.net.requests), client.nonce.value in client.net.live - c(client.net.requests).expires)
  {
  }

  /** The outcome of a signed request is the forecast, when a nonce is there or can be fetched. */
  lemma PostOutcome(c: Climate, client: Client, purpose: Purpose)
    requires Inv(client) && client.key.Some?
    ensures var (signing, ok) := EnsureNonce(c, client);
      Post(c, client, purpose).1 == if ok then Forecast(c, signing.net, signing.nonce.value) else Unreachable
  {
    EnsureKeepsInv(c, client);
    var (signing, ok) := EnsureNonce(c, client);
    if ok {
      assert Attempt(c, client, purpose, 0) == Attempt(c, signing, purpose, 0);
      PostWithNonceOutcome(c, signing, purpose);
    }
  }

  lemma PostWithNonceOutcome(c: Climate, client: Client, purpose: Purpose)
    requires Inv(client) && client.key.Some? && client.nonce.Some?
    ensures Post(c, client, purpose).1 == Forecast(c, client.net, client.nonce.value)
  {
    var (net, reply) := Serve(c, client.net, client.nonce.value, purpose);
    var told := client.(net := net, nonce := if reply.Reply? then reply.given else None);
    if reply.Reply? && reply.status == BadNonce {
      var (again, ok) := EnsureNonce(c, told);
      if ok {
        assert again.nonce == Some(client.net.next) && client.net.next in again.net.live;
        LastAttempt(c, again, purpose);
      }
    }
  }

  /** A nonce fetch succeeds exactly when its requests come through and a nonce is given, and then the client has
      that nonce; otherwise it keeps the one it had. */
  lemma FetchMeaning(c: Climate, client: Client)
    ensures var (r, ok) := FetchNonce(c, client);
      var head := client.net.requests + if client.directory then 0 else 1;
      && (ok <==> (client.directory || Through(c(client.net.requests))) && Through(c(head)) && c(head).issues)
      && r.nonce == (if ok then Some(client.net.next) else client.nonce)
      && r.key == client.key && r.account == client.account
  {
  }

  /** The nonce after an answered request is the one that came with the answer, if one did. */
  lemma AnswerGivesNonce(c: Climate, client: Client, purpose: Purpose, attempt: nat)
    requires client.key.Some?
    ensures var (r, outcome) := Attempt(c, client, purpose, attempt);
      outcome == Some(Success) || (outcome.Some? && outcome.value.HttpError?) ==>
        && r.net.requests > 0
        && r.nonce == if c(r.net.requests - 1).issues then Some(r.net.next - 1) else None
  {
  }

  /** The directory is fetched until that succeeds once, and then never again. */
  lemma DirectoryIsFetchedOnce(c: Climate, client: Client)
    ensures var (r, ok) := LoadDirectory(c, client);
      && (ok <==> r.directory) && (r.directory <==> client.directory || Through(c(client.net.requests)))
      && r.net.requests == client.net.requests + (if client.directory then 0 else 1)
      && r.nonce == client.nonce && r.net.posts == client.net.posts
  {
  }

  /** The outcome of a key change, told from the weather of its two requests, and the nonce it leaves: the one the
      client had if no other came, the fetched one if the answer is lost, and otherwise the one that came with it. */
  lemma KeyChangeOutcome(c: Climate, client: Client, newKey: Key)
    requires client.account && client.directory && client.key.Some?
    ensures var (r, outcome) := KeyChange(c, client, newKey);
      var head, post := c(client.net.requests), c(client.net.requests + 1);
      if !Through(head) || !head.issues then outcome == Unreachable && r.nonce == client.nonce
      else
        && outcome == Told(post, client.net.next !in post.expires)
        && r.nonce == if !post.arrives || !post.answers then Some(client.net.next)
                      else if post.issues then Some(client.net.next + 1) else None
  {
    FetchMeaning(c, client);
    var (signing, ok) := FetchNonce(c, client);
    if ok {
      assert signing.net.live == client.net.live - c(client.net.requests).expires + {client.net.next};
    }
  }
}
