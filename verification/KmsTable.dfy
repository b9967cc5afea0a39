/**
 * What a whole `get_key` call answers and leaves, case by case, and what a cached key
 * saves: as long as it stays cached, nothing is asked of the KMS for its URI.
 */
module KmsTable {
  import opened Common
  import opened Kms
  import opened KmsProtocol
  import opened KmsCall

  /** A cached key is returned as it is, and nothing else changes. */
  lemma CachedIsReturned(c: Client, uri: Uri, env: CallEnv)
    requires uri in c.cache
    ensures GetKeySpec(c, uri, env) == (c, Ok(c.cache[uri]))
  {
  }

  // ---- Without a cached key ----

  /** A handshake comes first: there is no context, or fewer than 30 seconds of it are left. */
  predicate HandshakeDue(c: Client, now: nat) {
    !c.initialized || c.expiration.None? || now > c.expiration.value - 30_000
  }

  /** A context of one hour is renewed from 59 minutes and 30 seconds on. */
  lemma ContextLasts(c: Client, key: Key, made: nat, now: nat)
    ensures Expired(Initialized(c, key, made), now) <==> now > made + 3_570_000
    ensures Initialized(c, key, made).ephemeral == Some(key)
    ensures !c.initialized ==> Expired(c, now)
  {
  }

  /** The client past the cache bound and the handshake, if there was one. */
  function Prepared(c: Client, env: CallEnv): Client {
    var b := if |c.cache| > 100 then c.(cache := map[]) else c;
    if HandshakeDue(c, env.entered) && env.handshake.Ok? then
      b.(ephemeral := Some(env.handshake.value), initialized := true, expiration := Some(env.gated + 3_600_000))
    else b
  }

  function GateTime(c: Client, env: CallEnv): nat {
    if HandshakeDue(c, env.entered) then env.gated else env.entered
  }

  /** The breaker is open and its last failure less than 30 seconds ago. */
  predicate Blocked(c: Client, now: nat) {
    c.cb.Open? && c.lastFailure.Some? && now - c.lastFailure.value < 30_000
  }

  /** The outcome that decides: the second, if the first timed out or failed over HTTP. */
  function Deciding(env: CallEnv): SendOutcome {
    var o := env.sends(1);
    if o.Failed? && (o.error.TimedOut? || o.error.HttpFailed?) then env.sends(2) else o
  }

  /** Past the gate: `p` is the breaker then, an open one having become half-open. */
  function Decided(d: Client, p: Breaker, uri: Uri, o: SendOutcome): (Client, Result<Key, KmsError>) {
    match o
    case Replied(KeyBody(k)) =>
      if |k| == 32 then (d.(cache := d.cache[uri := k], failures := 0, cb := Closed), Ok(k))
      else (d.(cb := p), Err(MalformedReply))
    case Replied(Poison) => (d.(cb := p), Err(Panicked))
    case Replied(_) => (d.(cb := p), Err(MalformedReply))
    case Failed(e, at) =>
      (d.(failures := d.failures + 1, lastFailure := Some(at), cb := if d.failures + 1 >= 3 then Open else p), Err(e))
  }

  /** The whole table: handshake failed, breaker in the way, or decided by the last send. */
  lemma GetKeyTable(c: Client, uri: Uri, env: CallEnv)
    requires uri !in c.cache && (c.initialized ==> c.ephemeral.Some?)
    ensures var d := Prepared(c, env);
            GetKeySpec(c, uri, env) ==
              if HandshakeDue(c, env.entered) && env.handshake.Err? then (d, Err(env.handshake.error))
              else if Blocked(d, GateTime(c, env)) then (d, Err(BreakerOpen))
              else Decided(d, if d.cb.Open? then HalfOpen else d.cb, uri, Deciding(env))
  {
    var d := Prepared(c, env);
    if !(HandshakeDue(c, env.entered) && env.handshake.Err?) && !Blocked(d, GateTime(c, env)) {
      SendsDecide(if d.cb.Open? then d.(cb := HalfOpen) else d, uri, env);
    }
  }

  lemma SendsDecide(d: Client, uri: Uri, env: CallEnv)
    requires d.initialized && d.ephemeral.Some? && !d.cb.Open?
    ensures Attempts(d, uri, 1, env) == Decided(d, d.cb, uri, Deciding(env))
  {
  }

  // ---- What a cached key saves ----

  /** A call for a cached URI is answered in its own step, which changes nothing else. */
  lemma CachedCall(s: Sys, uri: Uri, id: Id)
    requires Enabled(s, CallGetKey(uri, id)) && uri in s.client.cache
    ensures Step(s, CallGetKey(uri, id)) == s.(out := s.out + [Called(uri)] + [Returned(uri, Ok(s.client.cache[uri]))])
  {
  }

  /** A fetch that gets a usable key ends there, with the key cached. */
  lemma SuccessCaches(s: Sys, id: Id)
    requires Enabled(s, Deliver(id)) && s.phase.purpose.Retrieve?
    requires var b := s.box.delivered[s.phase.id].body; b.KeyBody? && |b.key| == 32
    ensures var t, uri, key := Step(s, Deliver(id)), s.phase.purpose.uri, s.box.delivered[s.phase.id].body.key;
            && t.client.cache == s.client.cache[uri := key] && t.phase.Idle?
            && t.out == s.out + [Returned(uri, Ok(key))]
  {
  }

  /** A key leaves the cache exactly when a call for an uncached URI finds more than 100. */
  lemma UncachedIff(s: Sys, e: Event, uri: Uri)
    requires Inv(s) && Enabled(s, e) && uri in s.client.cache
    ensures uri !in Step(s, e).client.cache <==> e.CallGetKey? && e.uri !in s.client.cache && |s.client.cache| > 100
  {
  }

  /** Throughout the run `uri` is cached. */
  ghost predicate StaysCached(s: Sys, es: seq<Event>, uri: Uri)
    requires IsRun(s, es)
    decreases |es|
  {
    uri in s.client.cache && (es == [] || StaysCached(Step(s, es[0]), es[1..], uri))
  }

  /** From `s` to `t` nothing was asked for `uri`, its key stayed, and all its answers were that key. */
  ghost predicate Saved(s: Sys, t: Sys, uri: Uri) {
    && uri in s.client.cache && uri in t.client.cache && t.client.cache[uri] == s.client.cache[uri]
    && (forall id :: id in s.sent ==> id in t.sent && t.sent[id] == s.sent[id])
    && (forall id :: id in t.sent && t.sent[id].Retrieve? && t.sent[id].uri == uri ==> id in s.sent)
    && s.out <= t.out
    && (forall i :: |s.out| <= i < |t.out| && t.out[i].Returned? && t.out[i].uri == uri ==>
          t.out[i].result == Ok(s.client.cache[uri]))
  }

  lemma SavedTwice(s: Sys, t: Sys, u: Sys, uri: Uri)
    requires Saved(s, t, uri) && Saved(t, u, uri)
    ensures Saved(s, u, uri)
  {
    assert forall i :: |s.out| <= i < |t.out| ==> u.out[i] == t.out[i];
  }

  lemma SendSaves(s: Sys, p: Purpose, id: Id, uri: Uri)
    requires uri in s.client.cache && id !in s.sent && Wanted(Posting(p, id)) != Some(uri)
    ensures Saved(s, BeginSend(s, p, id), uri) && Wanted(BeginSend(s, p, id).phase) != Some(uri)
  {
  }

  lemma GateSaves(s: Sys, other: Uri, c: Client, n: Next, id: Id, uri: Uri)
    requires uri in s.client.cache && uri in c.cache && c.cache[uri] == s.client.cache[uri]
    requires id !in s.sent && other != uri
    ensures Saved(s, Proceed(s, other, c, n, id), uri) && Wanted(Proceed(s, other, c, n, id).phase) != Some(uri)
  {
  }

  lemma CallSaves(s: Sys, other: Uri, id: Id, uri: Uri)
    requires Inv(s) && Enabled(s, CallGetKey(other, id))
    requires uri in s.client.cache && uri in Step(s, CallGetKey(other, id)).client.cache
    ensures Saved(s, Step(s, CallGetKey(other, id)), uri) && Wanted(Step(s, CallGetKey(other, id)).phase) != Some(uri)
  {
    if other == uri {
      CachedCall(s, uri, id);
    } else {
      UncachedIff(s, CallGetKey(other, id), uri);
      var (c, n) := Enter(s.client, other, s.now);
      var s1 := s.(out := s.out + [Called(other)]);
      GateSaves(s1, other, c, n, id, uri);
      assert Saved(s, s1, uri);
      SavedTwice(s, s1, Step(s, CallGetKey(other, id)), uri);
    }
  }

  lemma DeliverSaves(s: Sys, id: Id, uri: Uri)
    requires Inv(s) && Enabled(s, Deliver(id)) && uri in s.client.cache && Wanted(s.phase) != Some(uri)
    ensures Saved(s, Step(s, Deliver(id)), uri) && Wanted(Step(s, Deliver(id)).phase) != Some(uri)
  {
    var body := s.box.delivered[s.phase.id].body;
    if s.phase.purpose.Handshake? && body.HandshakeBody? && s.phase.purpose.resume.Some? {
      var s1 := s.(client := Initialized(s.client, body.derived, s.now));
      var (c, n) := Gate(s1.client, s.now);
      GateSaves(s1, s.phase.purpose.resume.value, c, n, id, uri);
    }
  }

  lemma StepSaves(s: Sys, e: Event, uri: Uri)
    requires Inv(s) && Enabled(s, e) && uri in s.client.cache && uri in Step(s, e).client.cache
    requires Wanted(s.phase) != Some(uri)
    ensures Saved(s, Step(s, e), uri) && Wanted(Step(s, e).phase) != Some(uri)
  {
    match e
    case CallGetKey(other, id) => CallSaves(s, other, id, uri);
    case DetailsOk(id) => SendSaves(s, Handshake(s.phase.resume), id, uri);
    case Deliver(id) => DeliverSaves(s, id, uri);
    case Wake(id) => SendSaves(s, Retrieve(s.phase.uri, s.phase.attempt + 1), id, uri);
    case ChannelDropped => assert false;
    case _ =>
  }

  /**
   * Once no call for `uri` is under way and its key is cached, then until the cache is
   * cleared no retrieve is sent for it, and every call for it returns that key.
   */
  lemma {:induction false} CachedIsNotFetched(s: Sys, es: seq<Event>, uri: Uri)
    requires Inv(s) && IsRun(s, es) && StaysCached(s, es, uri) && Wanted(s.phase) != Some(uri)
    ensures Saved(s, After(s, es), uri)
    decreases |es|
  {
    if es != [] {
      var t := Step(s, es[0]);
      StepInv(s, es[0]);
      StepSaves(s, es[0], uri);
      CachedIsNotFetched(t, es[1..], uri);
      SavedTwice(s, t, After(t, es[1..]), uri);
    }
  }
}
