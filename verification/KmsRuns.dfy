/** Building concrete runs of the KMS protocol, a fetch at a time. */
module KmsRuns {
  import opened Common
  import opened Kms
  import opened KmsProtocol

  /** `es` leads from `s0` to `s`. */
  ghost predicate Reaches(s0: Sys, es: seq<Event>, s: Sys) {
    IsRun(s0, es) && After(s0, es) == s
  }

  lemma Do(s0: Sys, es: seq<Event>, s: Sys, e: Event) returns (es': seq<Event>, s': Sys)
    requires Reaches(s0, es, s) && Enabled(s, e)
    ensures es' == es + [e] && s' == Step(s, e) && Reaches(s0, es', s')
  {
    Then(s0, es, e);
    es', s' := es + [e], Step(s, e);
  }

  /** A new client after its handshake. */
  lemma HandshakeRun(derived: Key) returns (es: seq<Event>, s: Sys)
    ensures Reaches(INITIAL, es, s)
    ensures s.client == Initialized(NEW_CLIENT, derived, 0) && s.now == 0 && s.phase == Idle
    ensures s.box.pending == [] && s.sent == map["h" := Handshake(None)]
  {
    var h := Reply.Reply("h", HandshakeBody(derived));
    es, s := Do(INITIAL, [], INITIAL, CallInitialize);
    es, s := Do(INITIAL, es, s, DetailsOk("h"));
    es, s := Do(INITIAL, es, s, PostOk);
    assert RouteAll(s.box, [Text(h)]) == Route(s.box, Text(h));
    es, s := Do(INITIAL, es, s, Batch([Text(h)]));
    es, s := Do(INITIAL, es, s, Deliver("x"));
  }

  /** A call for `uri` goes past the cache and needs no handshake. */
  predicate ReadyToFetch(s: Sys, uri: Uri) {
    && s.phase.Idle? && s.box.pending == [] && uri !in s.client.cache && |s.client.cache| <= MAX_CACHE
    && !Expired(s.client, s.now) && s.client.ephemeral.Some?
  }

  /** The breaker lets a call by now. */
  predicate LetsBy(c: Client, now: nat) {
    !c.cb.Open? || c.lastFailure.None? || now - c.lastFailure.value >= COOLDOWN
  }

  /** A fetch that passes the gate, up to its first POST; an open breaker becomes half-open. */
  lemma BeginFetch(s0: Sys, es: seq<Event>, s: Sys, uri: Uri, id: Id) returns (es': seq<Event>, s': Sys)
    requires Reaches(s0, es, s) && ReadyToFetch(s, uri) && LetsBy(s.client, s.now) && id !in s.sent
    ensures es' == es + [CallGetKey(uri, id)] && s' == Step(s, CallGetKey(uri, id)) && Reaches(s0, es', s')
    ensures s' == s.(client := if s.client.cb.Open? then s.client.(cb := HalfOpen) else s.client,
                     out := s.out + [Called(uri)], gates := s.gates + [s.now], posts := s.posts + [s.now],
                     phase := Posting(Retrieve(uri, 1), id), sent := s.sent[id := Retrieve(uri, 1)],
                     box := s.box.(pending := [id]))
  {
    es', s' := Do(s0, es, s, CallGetKey(uri, id));
  }

  lemma FailPost(s0: Sys, es: seq<Event>, s: Sys) returns (es': seq<Event>, s': Sys)
    requires Reaches(s0, es, s) && s.phase.Posting? && s.box.pending == [s.phase.id]
    ensures Reaches(s0, es', s')
    ensures var s1 := s.(phase := Pruning(s.phase.purpose, s.phase.id, HttpFailed), box := s.box.(pending := []));
            s' == SendFailed(s1, s.phase.purpose, HttpFailed)
  {
    es', s' := Do(s0, es, s, PostFail);
    assert Retain([s.phase.id], s.phase.id) == [];
    es', s' := Do(s0, es', s', Prune);
  }

  lemma Retry(s0: Sys, es: seq<Event>, s: Sys, uri: Uri, id: Id) returns (es': seq<Event>, s': Sys)
    requires Reaches(s0, es, s) && Enabled(s, Wake(id))
    requires s.phase.uri == uri && s.phase.attempt == 1 && s.box.pending == []
    requires s.client.initialized && s.client.ephemeral.Some?
    ensures Reaches(s0, es', s')
    ensures s' == s.(phase := Posting(Retrieve(uri, 2), id), sent := s.sent[id := Retrieve(uri, 2)],
                     posts := s.posts + [s.now], box := s.box.(pending := [id]))
  {
    es', s' := Do(s0, es, s, Wake(id));
  }

  /** A fetch both of whose POSTs fail, with a closed breaker. */
  lemma FailFetch(s0: Sys, es: seq<Event>, s: Sys, uri: Uri, id: Id, id': Id) returns (es': seq<Event>, s': Sys)
    requires Reaches(s0, es, s) && ReadyToFetch(s, uri) && s.client.cb.Closed?
    requires id !in s.sent && id' !in s.sent && id != id'
    ensures Reaches(s0, es', s')
    ensures s'.phase == Idle && s'.box == s.box && s'.now == s.now + RETRY_DELAY
    ensures s'.sent == s.sent[id := Retrieve(uri, 1)][id' := Retrieve(uri, 2)]
    ensures s'.client == s.client.(failures := s.client.failures + 1, lastFailure := Some(s'.now),
                                   cb := if s.client.failures + 1 >= FAILURE_THRESHOLD then Open else Closed)
  {
    es', s' := BeginFetch(s0, es, s, uri, id);
    es', s' := FailPost(s0, es', s');
    assert s'.phase == Sleeping(uri, 1, s.now);
    es', s' := Do(s0, es', s', Tick(RETRY_DELAY));
    assert s'.phase == Sleeping(uri, 1, s.now) && s'.client == s.client;
    es', s' := Retry(s0, es', s', uri, id');
    es', s' := FailPost(s0, es', s');
  }

  /** The POST succeeds and `reply` comes in, whoever caused it. */
  lemma GetReply(s0: Sys, es: seq<Event>, s: Sys, reply: Reply, next: Id) returns (es': seq<Event>, s': Sys)
    requires Reaches(s0, es, s) && s.phase.Posting? && s.box.pending == [s.phase.id] && next !in s.sent
    ensures es' == es + [PostOk] + [Batch([Text(reply)])] + [Deliver(next)] && Reaches(s0, es', s')
    ensures var s1 := s.(phase := Waiting(s.phase.purpose, s.phase.id, s.now),
                         box := Mailbox([], s.box.delivered[s.phase.id := reply]));
            s' == Receive(s1, s.phase.purpose, reply.body, next)
  {
    es', s' := Do(s0, es, s, PostOk);
    assert RouteAll(s'.box, [Text(reply)]) == Route(s'.box, Text(reply));
    es', s' := Do(s0, es', s', Batch([Text(reply)]));
    es', s' := Do(s0, es', s', Deliver(next));
  }
}
