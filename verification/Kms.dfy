/**
 * The KMS client of rust/src/kms_client.rs.
 *
 * The functions are the stretches of `get_key` that run without an `await`;
 * the classes at the end are the imperative client, its shared pending list and
 * the reply handler, each proved against those functions. Times are milliseconds.
 */
module Kms {
  import opened Common

  type Uri = string
  type Id = string
  type Key = Bytes

  const RESPONSE_TIMEOUT: nat := 30_000
  const RETRY_DELAY: nat := 1_000
  const MAX_PENDING: nat := 100
  const MAX_CACHE: nat := 100
  const FAILURE_THRESHOLD: nat := 3
  const COOLDOWN: nat := 30_000
  const MAX_ATTEMPTS: nat := 2
  const CONTEXT_LIFETIME: nat := 3_600_000
  const EXPIRY_BUFFER: nat := 30_000

  datatype Breaker = Closed | Open | HalfOpen

  datatype KmsError =
    | NotInitialized
    | NoEphemeralKey
    | BreakerOpen
    | TooManyPending
    | HttpFailed
    | TimedOut
    | ChannelClosed
    | MalformedReply
    | HandshakeFailed
    | Panicked                                               // not a return: unwrapping the reply panicked

  /** The errors whose message contains "timed out" or "http request failed". */
  predicate Retryable(e: KmsError) {
    e.TimedOut? || e.HttpFailed?
  }

  /**
   * What a reply says once unwrapped: a content key, a handshake answer, or nothing
   * usable. Unwrapping a `Poison` token panics, as `Jwe.PanicsIff` says.
   */
  datatype Body = KeyBody(key: Bytes) | HandshakeBody(derived: Key) | Garbage | Poison

  /** The body yields a content key. */
  predicate Usable(b: Body) {
    b.KeyBody? && |b.key| == 32
  }

  /** How a call ends on a reply it cannot use. */
  function BadReply(b: Body): (e: KmsError)
    ensures e.Panicked? <==> b.Poison?
    ensures !Retryable(e)
  {
    if b.Poison? then Panicked else MalformedReply
  }

  /** A reply; `cause` is the request the KMS answered, which the wire format does not carry back. */
  datatype Reply = Reply(cause: Id, body: Body)

  datatype Client = Client(
    cache: map<Uri, Key>,
    initialized: bool,
    ephemeral: Option<Key>,
    expiration: Option<nat>,
    cb: Breaker,
    failures: nat,
    lastFailure: Option<nat>
  )

  const NEW_CLIENT: Client := Client(map[], false, None, None, Closed, 0, None)

  /** What `get_key` does when its current stretch ends. */
  datatype Next =
    | Return(result: Result<Key, KmsError>)
    | Initialize
    | Send(attempt: nat)
    | Backoff(attempt: nat)

  predicate Expired(c: Client, now: nat) {
    !c.initialized || c.expiration.None? || now > c.expiration.value - EXPIRY_BUFFER
  }

  function Initialized(c: Client, key: Key, now: nat): Client {
    c.(ephemeral := Some(key), initialized := true, expiration := Some(now + CONTEXT_LIFETIME))
  }

  /** From the call to the first `await`: cache, cache bound, expiry, breaker. */
  function Enter(c: Client, uri: Uri, now: nat): (Client, Next) {
    if uri in c.cache then (c, Return(Ok(c.cache[uri])))
    else
      var c1 := if |c.cache| > MAX_CACHE then c.(cache := map[]) else c;
      if Expired(c1, now) then (c1, Initialize) else Gate(c1, now)
  }

  /** The circuit breaker check, then the first attempt. */
  function Gate(c: Client, now: nat): (Client, Next) {
    if c.cb.Open? then
      if c.lastFailure.None? || now - c.lastFailure.value >= COOLDOWN then
        Attempt(c.(cb := HalfOpen), 1)
      else (c, Return(Err(BreakerOpen)))
    else Attempt(c, 1)
  }

  function Attempt(c: Client, attempt: nat): (Client, Next) {
    if !c.initialized then (c, Return(Err(NotInitialized)))
    else if c.ephemeral.None? then (c, Return(Err(NoEphemeralKey)))
    else (c, Send(attempt))
  }

  function OnReply(c: Client, uri: Uri, body: Body): (Client, Result<Key, KmsError>) {
    if Usable(body) then
      (c.(cache := c.cache[uri := body.key], failures := 0, cb := if c.cb.HalfOpen? then Closed else c.cb),
       Ok(body.key))
    else (c, Err(BadReply(body)))
  }

  function OnSendError(c: Client, attempt: nat, e: KmsError, now: nat): (Client, Next) {
    if attempt < MAX_ATTEMPTS && Retryable(e) then (c, Backoff(attempt))
    else
      (c.(failures := c.failures + 1, lastFailure := Some(now),
          cb := if c.failures + 1 >= FAILURE_THRESHOLD then Open else c.cb),
       Return(Err(e)))
  }

  /** One element of `kmsMessages`: a string, or anything else, which is skipped. */
  datatype Msg = Text(reply: Reply) | NotText

  /** The pending list and the one-shot channels its entries own. */
  datatype Mailbox = Mailbox(pending: seq<Id>, delivered: map<Id, Reply>)

  /** One message: the oldest pending request gets it, whoever caused it. */
  function Route(b: Mailbox, m: Msg): Mailbox {
    if m.NotText? || b.pending == [] then b
    else Mailbox(b.pending[1..], b.delivered[b.pending[0] := m.reply])
  }

  function RouteAll(b: Mailbox, msgs: seq<Msg>): Mailbox
    decreases |msgs|
  {
    if msgs == [] then b else RouteAll(Route(b, msgs[0]), msgs[1..])
  }

  lemma RouteAllAppend(b: Mailbox, msgs: seq<Msg>, m: Msg)
    ensures RouteAll(b, msgs + [m]) == Route(RouteAll(b, msgs), m)
    decreases |msgs|
  {
    if msgs == [] {
      assert RouteAll(Route(b, m), []) == Route(b, m);
    } else {
      assert (msgs + [m])[1..] == msgs[1..] + [m];
      RouteAllAppend(Route(b, msgs[0]), msgs[1..], m);
    }
  }

  /** `Vec::retain(|id| id != x)`. */
  function Retain(ids: seq<Id>, x: Id): (r: seq<Id>)
    ensures x !in r
    ensures forall y :: y in ids && y != x ==> y in r
    ensures forall y :: y in r ==> y in ids
  {
    if ids == [] then []
    else if ids[0] == x then Retain(ids[1..], x)
    else [ids[0]] + Retain(ids[1..], x)
  }

  /** What is retained stays in order. */
  lemma {:induction false} RetainInOrder(a: seq<Id>, b: seq<Id>, x: Id, y: Id)
    ensures Retain(a + b, x) == Retain(a, x) + Retain(b, x)
    ensures Retain([x], x) == [] && (y != x ==> Retain([y], x) == [y])
  {
    if a == [] {
      assert a + b == b;
    } else {
      assert (a + b)[1..] == a[1..] + b;
      RetainInOrder(a[1..], b, x, y);
    }
  }

  /** The environment of one whole `get_key` call: clock readings, handshake and sends. */
  datatype CallEnv = CallEnv(entered: nat, handshake: Result<Key, KmsError>, gated: nat, sends: nat -> SendOutcome)
  datatype SendOutcome = Replied(body: Body) | Failed(error: KmsError, at: nat)

  /** A whole call against an environment. */
  function GetKeySpec(c: Client, uri: Uri, env: CallEnv): (Client, Result<Key, KmsError>) {
    var (c1, n) := Enter(c, uri, env.entered);
    if n.Initialize? then
      if env.handshake.Err? then (c1, Err(env.handshake.error))
      else
        var (c2, n2) := Gate(Initialized(c1, env.handshake.value, env.gated), env.gated);
        if n2.Return? then (c2, n2.result) else Attempts(c2, uri, 1, env)
    else if n.Return? then (c1, n.result)
    else Attempts(c1, uri, 1, env)
  }

  /** The retry loop from attempt `a` on. */
  function Attempts(c: Client, uri: Uri, a: nat, env: CallEnv): (Client, Result<Key, KmsError>)
    requires a <= MAX_ATTEMPTS
    decreases MAX_ATTEMPTS - a
  {
    var (c1, n) := Attempt(c, a);
    if n.Return? then (c1, n.result)
    else
      match env.sends(a)
      case Replied(body) => var (c2, r) := OnReply(c1, uri, body); (c2, r)
      case Failed(e, at) =>
        var (c2, n2) := OnSendError(c1, a, e, at);
        if n2.Return? then (c2, n2.result) else Attempts(c2, uri, a + 1, env)
  }

  /** Every cached key has 32 bytes. */
  ghost predicate Sized(c: Client) {
    forall uri :: uri in c.cache ==> |c.cache[uri]| == 32
  }

  /** A call keeps the cached keys at 32 bytes, and answers with one of 32 bytes. */
  lemma CallKeepsSize(c: Client, uri: Uri, env: CallEnv)
    requires Sized(c)
    ensures Sized(GetKeySpec(c, uri, env).0)
    ensures GetKeySpec(c, uri, env).1.Ok? ==> |GetKeySpec(c, uri, env).1.value| == 32
  {
    forall c1: Client, a: nat | Sized(c1) && a <= MAX_ATTEMPTS
      ensures Sized(Attempts(c1, uri, a, env).0)
      ensures Attempts(c1, uri, a, env).1.Ok? ==> |Attempts(c1, uri, a, env).1.value| == 32
    {
      AttemptsKeepSize(c1, uri, a, env);
    }
  }

  lemma {:induction false} AttemptsKeepSize(c: Client, uri: Uri, a: nat, env: CallEnv)
    requires Sized(c) && a <= MAX_ATTEMPTS
    ensures Sized(Attempts(c, uri, a, env).0)
    ensures Attempts(c, uri, a, env).1.Ok? ==> |Attempts(c, uri, a, env).1.value| == 32
    decreases MAX_ATTEMPTS - a
  {
    if a < MAX_ATTEMPTS && env.sends(a).Failed? {
      AttemptsKeepSize(OnSendError(c, a, env.sends(a).error, env.sends(a).at).0, uri, a + 1, env);
    }
  }

  /** The `Arc<Mutex<Vec<..>>>` that client and reply handler share. */
  class PendingList {
    var pending: seq<Id>
    var delivered: map<Id, Reply>

    function View(): Mailbox
      reads this
    {
      Mailbox(pending, delivered)
    }

    constructor ()
      ensures View() == Mailbox([], map[])
    {
      pending := [];
      delivered := map[];
    }

    /** The bounded push at the head of `send_kms_request`. */
    method Register(id: Id) returns (ok: bool)
      modifies this
      ensures ok <==> |old(pending)| < MAX_PENDING
      ensures View() == if ok then old(View()).(pending := old(pending) + [id]) else old(View())
    {
      ok := |pending| < MAX_PENDING;
      if ok {
        pending := pending + [id];
      }
    }

    method Forget(id: Id)
      modifies this
      ensures View() == old(View()).(pending := Retain(old(pending), id))
    {
      pending := Retain(pending, id);
    }
  }

  /** The `data` of a KMS event: `kmsMessages` at the top or under `encryption`. */
  datatype KmsData = KmsData(top: Option<seq<Msg>>, nested: Option<seq<Msg>>)

  class KmsResponseHandler {
    const shared: PendingList

    constructor (shared: PendingList)
      ensures this.shared == shared
    {
      this.shared := shared;
    }

    method HandleKmsMessage(data: KmsData)
      modifies shared
      ensures data.top.Some? ==> shared.View() == RouteAll(old(shared.View()), data.top.value)
      ensures data.top.None? && data.nested.Some? ==> shared.View() == RouteAll(old(shared.View()), data.nested.value)
      ensures data.top.None? && data.nested.None? ==> shared.View() == old(shared.View())
    {
      if data.top.None? && data.nested.None? {
        return;
      }
      var msgs := if data.top.Some? then data.top.value else data.nested.value;
      var i := 0;
      while i < |msgs|
        invariant 0 <= i <= |msgs|
        invariant shared.View() == RouteAll(old(shared.View()), msgs[..i])
      {
        if msgs[i].Text? {
          if shared.pending != [] {
            shared.delivered := shared.delivered[shared.pending[0] := msgs[i].reply];
            shared.pending := shared.pending[1..];
          }
        }
        RouteAllAppend(old(shared.View()), msgs[..i], msgs[i]);
        assert msgs[..i + 1] == msgs[..i] + [msgs[i]];
        i := i + 1;
      }
      assert msgs[..i] == msgs;
    }
  }

  class KmsClient {
    var cache: map<Uri, Key>
    var initialized: bool
    var ephemeral: Option<Key>
    var expiration: Option<nat>
    var cb: Breaker
    var failures: nat
    var lastFailure: Option<nat>

    function View(): Client
      reads this
    {
      Client(cache, initialized, ephemeral, expiration, cb, failures, lastFailure)
    }

    constructor ()
      ensures View() == NEW_CLIENT
    {
      cache, initialized, ephemeral, expiration := map[], false, None, None;
      cb, failures, lastFailure := Closed, 0, None;
    }

    /** `get_key` from call to return, with its retry loop. */
    method GetKey(uri: Uri, env: CallEnv) returns (r: Result<Key, KmsError>)
      modifies this
      ensures (View(), r) == GetKeySpec(old(View()), uri, env)
    {
      if uri in cache {
        return Ok(cache[uri]);
      }
      if |cache| > MAX_CACHE {
        cache := map[];
      }
      var now := env.entered;
      if Expired(View(), now) {
        if env.handshake.Err? {
          return Err(env.handshake.error);
        }
        now := env.gated;
        ephemeral := Some(env.handshake.value);
        initialized := true;
        expiration := Some(now + CONTEXT_LIFETIME);
      }
      if cb.Open? {
        if lastFailure.None? || now - lastFailure.value >= COOLDOWN {
          cb := HalfOpen;
        } else {
          return Err(BreakerOpen);
        }
      }
      r := RetryLoop(uri, env);
    }

    method RetryLoop(uri: Uri, env: CallEnv) returns (r: Result<Key, KmsError>)
      modifies this
      ensures (View(), r) == Attempts(old(View()), uri, 1, env)
    {
      var attempt := 1;
      while attempt <= MAX_ATTEMPTS
        invariant 1 <= attempt <= MAX_ATTEMPTS
        invariant Attempts(View(), uri, attempt, env) == Attempts(old(View()), uri, 1, env)
        decreases MAX_ATTEMPTS - attempt
      {
        if !initialized {
          return Err(NotInitialized);
        }
        if ephemeral.None? {
          return Err(NoEphemeralKey);
        }
        match env.sends(attempt) {
          case Replied(body) =>
            if Usable(body) {
              cache := cache[uri := body.key];
              failures := 0;
              if cb.HalfOpen? {
                cb := Closed;
              }
              return Ok(body.key);
            }
            return Err(BadReply(body));
          case Failed(e, at) =>
            if attempt < MAX_ATTEMPTS && Retryable(e) {
              attempt := attempt + 1;
            } else {
              failures := failures + 1;
              lastFailure := Some(at);
              if failures >= FAILURE_THRESHOLD {
                cb := Open;
              }
              return Err(e);
            }
        }
      }
      assert false;
    }
  }
}
