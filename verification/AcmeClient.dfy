/** The ACME client as an object that keeps its key, account and nonce between requests, over a network object.
    Each method is proved to perform the corresponding function of the nonce protocol. */
module Acme {
  import opened Basics
  import opened NonceProtocol

  /** The network with the server behind it. */
  class Network {
    const climate: Climate
    var next: Nonce
    var live: set<Nonce>
    var accountKey: Option<Key>
    var requests: nat
    var posts: seq<Sent>

    function View(): Net
      reads this
    {
      Net(next, live, accountKey, requests, posts)
    }

    constructor (climate: Climate)
      ensures this.climate == climate && View() == Net(0, {}, None, 0, [])
    {
      this.climate := climate;
      next, live, accountKey, requests, posts := 0, {}, None, 0, [];
    }

    method Get() returns (ok: bool)
      modifies this
      ensures ok == Through(climate(old(requests)))
      ensures View() == Reach(climate, old(View()))
    {
      var w := climate(requests);
      live, requests := live - w.expires, requests + 1;
      ok := w.arrives && w.works && w.answers;
    }

    method GiveNonce(issues: bool) returns (given: Option<Nonce>)
      modifies this
      ensures (View(), given) == Issue(old(View()), issues)
    {
      given := None;
      if issues {
        given := Some(next);
        live, next := live + {next}, next + 1;
      }
    }

    method Head() returns (given: Option<Nonce>)
      modifies this
      ensures (View(), given) == ServeHead(climate, old(View()))
    {
      var w := climate(requests);
      live, requests := live - w.expires, requests + 1;
      if !w.arrives {
        return None;
      }
      given := GiveNonce(w.issues);
      if !w.works || !w.answers {
        given := None;
      }
    }

    method Send(nonce: Nonce, purpose: Purpose) returns (reply: Reply)
      modifies this
      ensures (View(), reply) == Serve(climate, old(View()), nonce, purpose)
    {
      var w := climate(requests);
      live, requests := live - w.expires, requests + 1;
      if !w.arrives {
        posts := posts + [Sent(nonce, false, false)];
        return Lost;
      }
      var status := Judge(w, live, nonce);
      if w.works {
        live := live - {nonce};
      }
      var given := GiveNonce(w.issues);
      posts := posts + [Sent(nonce, status == Good, w.answers)];
      if status == Good {
        accountKey := Bound(accountKey, purpose);
      }
      reply := if w.answers then Reply(status, given) else Lost;
    }
  }

  class AcmeClient {
    const network: Network
    var accountKey: Option<Key>
    var hasAccount: bool
    var hasDirectory: bool
    var nonce: Option<Nonce>

    function View(): Client
      reads this, network
    {
      Client(accountKey, hasAccount, hasDirectory, nonce, network.View())
    }

    constructor (network: Network, accountKey: Option<Key>)
      ensures this.network == network
      ensures View() == Client(accountKey, false, false, None, network.View())
    {
      this.network := network;
      this.accountKey := accountKey;
      hasAccount, hasDirectory, nonce := false, false, None;
    }

    /** Returns false where the client raises. */
    method GetDirectory() returns (ok: bool)
      modifies `hasDirectory, network
      ensures (View(), ok) == LoadDirectory(network.climate, old(View()))
    {
      ok := true;
      if !hasDirectory {
        ok := network.Get();
        hasDirectory := ok;
      }
    }

    /** Returns false where the client raises. */
    method GetNonce() returns (ok: bool)
      modifies this, network
      ensures (View(), ok) == FetchNonce(network.climate, old(View()))
    {
      ok := GetDirectory();
      if !ok {
        return;
      }
      var given := network.Head();
      ok := given.Some?;
      if ok {
        nonce := given;
      }
    }

    method NonceForSigning() returns (ok: bool)
      modifies this, network
      ensures (View(), ok) == EnsureNonce(network.climate, old(View()))
    {
      ok := true;
      if nonce.None? {
        ok := GetNonce();
      }
    }

    /** One attempt at a signed request; no outcome means that it is to be tried again. */
    method AttemptOnce(purpose: Purpose, attempt: nat) returns (outcome: Option<Outcome>)
      modifies this, network
      ensures (View(), outcome) == Attempt(network.climate, old(View()), purpose, attempt)
    {
      if accountKey.None? {
        return Some(NoKey);
      }
      var ok := NonceForSigning();
      if !ok {
        return Some(Unreachable);
      }
      var reply := network.Send(nonce.value, purpose);
      if reply.Lost? {
        return Some(Unreachable);
      }
      nonce := reply.given;
      if reply.status == Good {
        return Some(Success);
      }
      if attempt >= RETRY_LIMIT || reply.status != BadNonce {
        return Some(HttpError(reply.status));
      }
      ok := NonceForSigning();
      outcome := if ok then None else Some(Unreachable);
    }

    /** A signed request, tried once more if the server calls its nonce bad. */
    method Post(purpose: Purpose) returns (outcome: Outcome)
      modifies this, network
      ensures (View(), outcome) == NonceProtocol.Post(network.climate, old(View()), purpose)
    {
      for attempt := 0 to RETRY_LIMIT + 1
        invariant PostFrom(network.climate, View(), purpose, attempt)
               == NonceProtocol.Post(network.climate, old(View()), purpose)
      {
        var result := AttemptOnce(purpose, attempt);
        if result.Some? {
          return result.value;
        }
      }
      return Exhausted;
    }

    method NewAccount() returns (outcome: Outcome)
      modifies this, network
      ensures (View(), outcome) == Register(network.climate, old(View()))
    {
      var ok := GetDirectory();
      if !ok {
        return Unreachable;
      }
      outcome := Post(if accountKey.Some? then OpenAccount(accountKey.value) else Plain);
      if outcome == Success {
        hasAccount := true;
      }
    }

    method KeyChange(newKey: Key) returns (outcome: Outcome)
      modifies this, network
      ensures (View(), outcome) == NonceProtocol.KeyChange(network.climate, old(View()), newKey)
    {
      if !hasAccount {
        return NoAccount;
      }
      var ok := GetDirectory();
      if !ok {
        return Unreachable;
      }
      if accountKey.None? {
        return NoKey;
      }
      ok := GetNonce();
      if !ok {
        return Unreachable;
      }
      var reply := network.Send(nonce.value, ChangeKey(newKey));
      if reply.Lost? {
        return Unreachable;
      }
      nonce := reply.given;
      if reply.status != Good {
        return HttpError(reply.status);
      }
      accountKey := Some(newKey);
      return Success;
    }
  }
}
