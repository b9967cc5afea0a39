/**
 * What a malformed reply does to the breaker: exactly which calls leave it
 * half-open, and a run in which a half-open breaker limits nothing.
 */
module KmsProbe {
  import opened Common
  import opened Kms
  import opened KmsProtocol
  import opened KmsRuns
  import opened KmsRate

  /** The send was answered, but not with a key. */
  predicate Unusable(o: SendOutcome) {
    o.Replied? && !Usable(o.body)
  }

  /** The last send of the call was answered, but not with a key. */
  predicate EndsUnusable(env: CallEnv) {
    Unusable(env.sends(1)) || (env.sends(1).Failed? && Retryable(env.sends(1).error) && Unusable(env.sends(2)))
  }

  /** The call gets as far as sending: no cached key, a live context or a new one, and the breaker lets it by. */
  predicate Fetches(c: Client, uri: Uri, env: CallEnv) {
    && uri !in c.cache
    && if Expired(c, env.entered) then env.handshake.Ok? && LetsBy(c, env.gated) else LetsBy(c, env.entered)
  }

  /**
   * A call leaves the breaker half-open iff the breaker was not closed and either
   * the call fetched and its last send was answered without a key, or it did not
   * fetch and found the breaker half-open.
   */
  lemma LeavesHalfOpenIff(c: Client, uri: Uri, env: CallEnv)
    requires BreakerInv(c) && (c.initialized ==> c.ephemeral.Some?)
    ensures GetKeySpec(c, uri, env).0.cb.HalfOpen? <==>
              !c.cb.Closed? && if Fetches(c, uri, env) then EndsUnusable(env) else c.cb.HalfOpen?
  {
    var c1 := if |c.cache| > MAX_CACHE then c.(cache := map[]) else c;
    if Fetches(c, uri, env) {
      var c2 := if Expired(c1, env.entered) then Initialized(c1, env.handshake.value, env.gated) else c1;
      AttemptsHalfOpenIff(if c2.cb.Open? then c2.(cb := HalfOpen) else c2, uri, env);
    }
  }

  lemma AttemptsHalfOpenIff(c: Client, uri: Uri, env: CallEnv)
    requires (c.cb.Closed? <==> c.failures < FAILURE_THRESHOLD) && !c.cb.Open?
    requires c.initialized && c.ephemeral.Some?
    ensures Attempts(c, uri, 1, env).0.cb.HalfOpen? <==> c.cb.HalfOpen? && EndsUnusable(env)
  {
  }

  lemma {:induction false} OneMoreEvent(s: Sys, es: seq<Event>, e: Event)
    requires IsRun(s, es) && NoSuccess(s, es) && Enabled(After(s, es), e) && !Succeeds(After(s, es), e)
    ensures IsRun(s, es + [e]) && NoSuccess(s, es + [e])
    ensures MalformedCount(s, es + [e]) == MalformedCount(s, es) + if Malformed(After(s, es), e) then 1 else 0
    decreases |es|
  {
    Then(s, es, e);
    if es == [] {
      assert IsRun(Step(s, e), []) && (es + [e])[1..] == [];
    } else {
      assert (es + [e])[1..] == es[1..] + [e];
      OneMoreEvent(Step(s, es[0]), es[1..], e);
    }
  }

  /** A run so far, without a success and with `m` malformed replies. */
  ghost predicate Unlucky(s0: Sys, es: seq<Event>, s: Sys, m: nat) {
    Reaches(s0, es, s) && NoSuccess(s0, es) && MalformedCount(s0, es) == m
  }

  lemma DoUnlucky(s0: Sys, es: seq<Event>, s: Sys, m: nat, e: Event) returns (es': seq<Event>, s': Sys)
    requires Unlucky(s0, es, s, m) && Enabled(s, e) && !Succeeds(s, e)
    ensures es' == es + [e] && s' == Step(s, e) && Unlucky(s0, es', s', m + if Malformed(s, e) then 1 else 0)
  {
    es', s' := Do(s0, es, s, e);
    OneMoreEvent(s0, es, e);
  }

  /** Request ids that differ by their length. */
  function Name(n: nat): (id: Id)
    ensures |id| == n
  {
    seq(n, _ => 'x')
  }

  /** After `k` failed fetches, a retry delay each; ids drawn so far are short. */
  ghost predicate FailedSoFar(es: seq<Event>, s: Sys, k: nat) {
    && Reaches(INITIAL, es, s) && ReadyToFetch(s, "A")
    && (forall id :: id in s.sent ==> |id| < 2 * k + 2)
    && s.client.failures == k && (if k < FAILURE_THRESHOLD then s.client.cb.Closed? else s.client.cb.Open?)
    && s.now == k * RETRY_DELAY && s.client.expiration == Some(CONTEXT_LIFETIME)
    && (k > 0 ==> s.client.lastFailure == Some(s.now))
  }

  /** `k` failed fetches; the third opens the breaker. */
  lemma {:induction false} FailingRun(k: nat) returns (es: seq<Event>, s: Sys)
    requires k <= FAILURE_THRESHOLD
    ensures FailedSoFar(es, s, k)
  {
    if k == 0 {
      es, s := HandshakeRun([]);
    } else {
      es, s := FailingRun(k - 1);
      es, s := FailFetch(INITIAL, es, s, "A", Name(2 * k), Name(2 * k + 1));
    }
  }

  /** From there: wait for the cooldown and probe. */
  lemma ProbeRun(before: seq<Event>, s: Sys) returns (es: seq<Event>, s': Sys)
    requires FailedSoFar(before, s, FAILURE_THRESHOLD)
    ensures Unlucky(s, es, s', 0) && s'.gates == s.gates + [s'.now] && s'.now == s.now + COOLDOWN
    ensures s'.client == s.client.(cb := HalfOpen) && s'.sent == s.sent[Name(8) := Retrieve("A", 1)]
    ensures s'.phase == Posting(Retrieve("A", 1), Name(8)) && s'.box.pending == [Name(8)]
  {
    es, s' := DoUnlucky(s, [], s, 0, Tick(COOLDOWN));
    es, s' := DoUnlucky(s, es, s', 0, CallGetKey("A", Name(8)));
  }

  /** The fetch gets an unusable reply, and nothing changes but that it is over. */
  lemma SpoiltRun(s0: Sys, es: seq<Event>, s: Sys, m: nat, body: Body, next: Id)
    returns (es': seq<Event>, s': Sys)
    requires Unlucky(s0, es, s, m) && s.phase.Posting? && s.phase.purpose.Retrieve?
    requires s.box.pending == [s.phase.id]
    requires !Usable(body) && next !in s.sent
    ensures Unlucky(s0, es', s', m + 1)
    ensures s'.client == s.client && s'.gates == s.gates && s'.now == s.now && s'.sent == s.sent
    ensures s'.phase == Idle && s'.box.pending == []
    ensures s'.box.delivered == s.box.delivered[s.phase.id := Reply.Reply(s.phase.id, body)]
  {
    var reply := Reply.Reply(s.phase.id, body);
    es', s' := DoUnlucky(s0, es, s, m, PostOk);
    assert RouteAll(s'.box, [Text(reply)]) == Route(s'.box, Text(reply));
    es', s' := DoUnlucky(s0, es', s', m, Batch([Text(reply)]));
    es', s' := DoUnlucky(s0, es', s', m, Deliver(next));
  }

  /** A fetch sent since `s` was answered with `body`. */
  ghost predicate Answered(s: Sys, t: Sys, body: Body) {
    exists id :: id !in s.sent && id in t.sent && t.sent[id].Retrieve? && id in t.box.delivered
                 && t.box.delivered[id] == Reply.Reply(id, body)
  }

  /** Two fetches pass the gate at time `w`, one answered with `body`, although none succeeded since the breaker opened. */
  ghost predicate TwoAtOnce(before: seq<Event>, es: seq<Event>, w: nat, body: Body) {
    && IsRun(INITIAL, before)
    && var s := After(INITIAL, before);
       && s.client.cb.Open? && IsRun(s, es) && NoSuccess(s, es) && MalformedCount(s, es) == 1
       && After(s, es).gates == s.gates + [w, w] && Answered(s, After(s, es), body)
  }

  /**
   * A run from a new client: the breaker opens, the probe after its cooldown gets an
   * unusable reply, and the next call passes the gate at the same instant. So the
   * bound without malformed replies fails, and the one with them is reached.
   */
  lemma MalformedReplyLeavesHalfOpen(body: Body)
    requires !Usable(body)
    ensures exists before, es, w :: TwoAtOnce(before, es, w, body)
  {
    var before, s := FailingRun(FAILURE_THRESHOLD);
    var es, t := ProbeRun(before, s);
    es, t := SpoiltRun(s, es, t, 0, body, Name(9));
    var w := t.now;
    assert ReadyToFetch(t, "A");
    es, t := DoUnlucky(s, es, t, 1, CallGetKey("A", Name(9)));
    assert t.gates == s.gates + [w, w];
    assert Name(8) in t.box.delivered && t.sent[Name(8)] == Retrieve("A", 1);
    assert TwoAtOnce(before, es, w, body);
  }
}
