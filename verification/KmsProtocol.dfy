/**
 * The two-channel KMS protocol: one caller at a time drives the client, while
 * reply batches, failures, timeouts and the clock may come between any two of
 * its steps.
 */
module KmsProtocol {
  import opened Common
  import opened Kms

  /** Why a request was sent. `resume` is the key the handshake was a detour for. */
  datatype Purpose = Handshake(resume: Option<Uri>) | Retrieve(uri: Uri, attempt: nat)

  /** Where the call that holds the client exclusively is suspended. */
  datatype Phase =
    | Idle
    | Details(resume: Option<Uri>)                           // `initialize` is fetching the KMS details
    | Posting(purpose: Purpose, id: Id)                      // registered, POST in flight
    | Waiting(purpose: Purpose, id: Id, since: nat)          // on the channel, under the timeout
    | Pruning(purpose: Purpose, id: Id, error: KmsError)     // failed, about to lock the list
    | Sleeping(uri: Uri, attempt: nat, since: nat)           // between two attempts

  /** A call that panics shows as returning `Panicked`: it ends, and the client stays as it was. */
  datatype Output = Called(uri: Uri) | Returned(uri: Uri, result: Result<Key, KmsError>)

  /**
   * `sent` remembers every request id, `out` the calls and returns of `get_key`,
   * `gates` the times fetches passed the breaker, `posts` those of retrieve POSTs.
   */
  datatype Sys = Sys(
    now: nat,
    client: Client,
    phase: Phase,
    box: Mailbox,
    sent: map<Id, Purpose>,
    out: seq<Output>,
    gates: seq<nat>,
    posts: seq<nat>
  )

  const INITIAL: Sys := Sys(0, NEW_CLIENT, Idle, Mailbox([], map[]), map[], [], [], [])

  /** Fresh request ids (UUIDs) come with the event whose step may draw one. */
  datatype Event =
    | CallGetKey(uri: Uri, id: Id)
    | CallInitialize
    | DetailsFail
    | DetailsOk(id: Id)
    | PostOk
    | PostFail
    | Batch(msgs: seq<Msg>)
    | Deliver(id: Id)
    | Timeout
    | ChannelDropped
    | Prune
    | Wake(id: Id)
    | Tick(ms: nat)

  predicate Enabled(s: Sys, e: Event) {
    match e
    case CallGetKey(_, id) => s.phase.Idle? && id !in s.sent
    case CallInitialize => s.phase.Idle?
    case DetailsFail => s.phase.Details?
    case DetailsOk(id) => s.phase.Details? && id !in s.sent
    case PostOk => s.phase.Posting?
    case PostFail => s.phase.Posting?
    case Batch(_) => true
    case Deliver(id) => s.phase.Waiting? && s.phase.id in s.box.delivered && id !in s.sent
    case Timeout =>
      s.phase.Waiting? && s.phase.id !in s.box.delivered && s.now >= s.phase.since + RESPONSE_TIMEOUT
    case ChannelDropped =>
      s.phase.Waiting? && s.phase.id !in s.box.delivered && s.phase.id !in s.box.pending
    case Prune => s.phase.Pruning?
    case Wake(id) => s.phase.Sleeping? && id !in s.sent && s.now >= s.phase.since + RETRY_DELAY
    case Tick(_) => true
  }

  /** `send_kms_request` up to its POST. */
  function BeginSend(s: Sys, p: Purpose, id: Id): Sys {
    if |s.box.pending| >= MAX_PENDING then SendFailed(s, p, TooManyPending)
    else
      s.(phase := Posting(p, id), sent := s.sent[id := p],
         box := s.box.(pending := s.box.pending + [id]),
         posts := if p.Retrieve? then s.posts + [s.now] else s.posts)
  }

  function Reply(s: Sys, uri: Uri, r: Result<Key, KmsError>): Sys {
    s.(phase := Idle, out := s.out + [Returned(uri, r)])
  }

  function SendFailed(s: Sys, p: Purpose, e: KmsError): Sys {
    match p
    case Handshake(None) => s.(phase := Idle)
    case Handshake(Some(uri)) => Reply(s, uri, Err(e))
    case Retrieve(uri, a) =>
      var (c, n) := OnSendError(s.client, a, e, s.now);
      if n.Return? then Reply(s.(client := c), uri, n.result)
      else s.(client := c, phase := Sleeping(uri, a, s.now))
  }

  /** What the driver does with the outcome of a stretch that checked the breaker. */
  function Proceed(s: Sys, uri: Uri, c: Client, n: Next, id: Id): Sys {
    match n
    case Return(r) => Reply(s.(client := c), uri, r)
    case Initialize => s.(client := c, phase := Details(Some(uri)))
    case Send(a) => BeginSend(s.(client := c, gates := s.gates + [s.now]), Retrieve(uri, a), id)
    case Backoff(a) => s.(client := c, phase := Sleeping(uri, a, s.now))
  }

  function PassGate(s: Sys, uri: Uri, id: Id): Sys {
    var (c, n) := Gate(s.client, s.now);
    Proceed(s, uri, c, n, id)
  }

  function StartGetKey(s: Sys, uri: Uri, id: Id): Sys {
    var (c, n) := Enter(s.client, uri, s.now);
    Proceed(s.(out := s.out + [Called(uri)]), uri, c, n, id)
  }

  function HandshakeFailedAt(s: Sys, resume: Option<Uri>, e: KmsError): Sys {
    if resume.None? then s.(phase := Idle) else Reply(s, resume.value, Err(e))
  }

  function Receive(s: Sys, p: Purpose, body: Body, id: Id): Sys {
    match p
    case Handshake(resume) =>
      if !body.HandshakeBody? then HandshakeFailedAt(s, resume, BadReply(body))
      else
        var s1 := s.(client := Initialized(s.client, body.derived, s.now));
        if resume.None? then s1.(phase := Idle) else PassGate(s1, resume.value, id)
    case Retrieve(uri, _) =>
      var (c, r) := OnReply(s.client, uri, body);
      Reply(s.(client := c), uri, r)
  }

  function WakeUp(s: Sys, uri: Uri, attempt: nat, id: Id): Sys {
    var (c, n) := Attempt(s.client, attempt);
    if n.Return? then Reply(s.(client := c), uri, n.result)
    else BeginSend(s.(client := c), Retrieve(uri, attempt), id)
  }

  function Step(s: Sys, e: Event): Sys
    requires Enabled(s, e)
  {
    match e
    case CallGetKey(uri, id) => StartGetKey(s, uri, id)
    case CallInitialize => s.(phase := Details(None))
    case DetailsFail => HandshakeFailedAt(s, s.phase.resume, HandshakeFailed)
    case DetailsOk(id) => BeginSend(s, Handshake(s.phase.resume), id)
    case PostOk => s.(phase := Waiting(s.phase.purpose, s.phase.id, s.now))
    case PostFail => s.(phase := Pruning(s.phase.purpose, s.phase.id, HttpFailed))
    case Batch(msgs) => s.(box := RouteAll(s.box, msgs))
    case Deliver(id) => Receive(s, s.phase.purpose, s.box.delivered[s.phase.id].body, id)
    case Timeout => s.(phase := Pruning(s.phase.purpose, s.phase.id, TimedOut))
    case ChannelDropped => SendFailed(s, s.phase.purpose, ChannelClosed)
    case Prune =>
      SendFailed(s.(box := s.box.(pending := Retain(s.box.pending, s.phase.id))), s.phase.purpose, s.phase.error)
    case Wake(id) => WakeUp(s, s.phase.uri, s.phase.attempt + 1, id)
    case Tick(ms) => s.(now := s.now + ms)
  }

  /** `es` is a run from `s` ... */
  ghost predicate IsRun(s: Sys, es: seq<Event>)
    decreases |es|
  {
    es == [] || (Enabled(s, es[0]) && IsRun(Step(s, es[0]), es[1..]))
  }

  /** ... and this is where it ends. */
  ghost function After(s: Sys, es: seq<Event>): Sys
    requires IsRun(s, es)
    decreases |es|
  {
    if es == [] then s else After(Step(s, es[0]), es[1..])
  }

  lemma {:induction false} Then(s: Sys, es: seq<Event>, e: Event)
    requires IsRun(s, es) && Enabled(After(s, es), e)
    ensures IsRun(s, es + [e]) && After(s, es + [e]) == Step(After(s, es), e)
    decreases |es|
  {
    if es == [] {
      assert IsRun(Step(s, e), []) && (es + [e])[1..] == [];
    } else {
      assert (es + [e])[1..] == es[1..] + [e];
      Then(Step(s, es[0]), es[1..], e);
    }
  }

  // ---- What every step keeps ----

  predicate Fetching(ph: Phase) {
    match ph
    case Posting(p, _) => p.Retrieve?
    case Waiting(p, _, _) => p.Retrieve?
    case Pruning(p, _, _) => p.Retrieve?
    case Sleeping(_, _, _) => true
    case _ => false
  }

  function AttemptOf(ph: Phase): nat
    requires Fetching(ph)
  {
    if ph.Sleeping? then ph.attempt else ph.purpose.attempt
  }

  /** At most one request is pending, and only while its sender is inside the send. */
  ghost predicate MailboxInv(s: Sys) {
    var b := s.box;
    match s.phase
    case Posting(p, id) => OwnRequest(s, p, id) && AwaitsReply(b, id)
    case Waiting(p, id, _) => OwnRequest(s, p, id) && AwaitsReply(b, id)
    case Pruning(p, id, _) => OwnRequest(s, p, id) && (AwaitsReply(b, id) || b.pending == [])
    case _ => b.pending == []
  }

  ghost predicate OwnRequest(s: Sys, p: Purpose, id: Id) {
    id in s.sent && s.sent[id] == p
  }

  ghost predicate AwaitsReply(b: Mailbox, id: Id) {
    (b.pending == [id] && id !in b.delivered) || (b.pending == [] && id in b.delivered)
  }

  ghost predicate BreakerInv(c: Client) {
    && (c.cb.Closed? <==> c.failures < FAILURE_THRESHOLD)
    && (c.cb.Open? ==> c.lastFailure.Some?)
  }

  ghost predicate CacheInv(s: Sys) {
    && |s.client.cache| <= MAX_CACHE + 1
    && (Busy(s.phase) ==> |s.client.cache| <= MAX_CACHE)
  }

  /** The phases from which the running `get_key` may still insert a key. */
  predicate Busy(ph: Phase) {
    match ph
    case Idle => false
    case Details(r) => r.Some?
    case Sleeping(_, _, _) => true
    case _ => if ph.purpose.Handshake? then ph.purpose.resume.Some? else true
  }

  ghost predicate ContextInv(s: Sys) {
    && (s.client.initialized ==> s.client.ephemeral.Some?)
    && (Fetching(s.phase) ==>
          s.client.initialized && !s.client.cb.Open? && 1 <= AttemptOf(s.phase) <= MAX_ATTEMPTS)
    && (s.phase.Sleeping? ==> s.phase.attempt < MAX_ATTEMPTS)
    && (s.phase.Pruning? ==> Retryable(s.phase.error))
    && (s.phase.Waiting? ==> s.phase.since <= s.now)
    && (s.client.lastFailure.Some? ==> s.client.lastFailure.value <= s.now)
    && (forall id :: id in s.box.delivered ==> id in s.sent)
  }

  ghost predicate Inv(s: Sys) {
    MailboxInv(s) && BreakerInv(s.client) && CacheInv(s) && ContextInv(s)
  }

  /** A send starts with an empty list, so the bound of 100 is never met. */
  lemma BeginSendInv(s: Sys, p: Purpose, id: Id)
    requires BreakerInv(s.client) && ContextInv(s.(phase := Posting(p, id)))
    requires |s.client.cache| <= MAX_CACHE + 1
    requires Busy(Posting(p, id)) ==> |s.client.cache| <= MAX_CACHE
    requires s.box.pending == [] && id !in s.sent
    ensures Inv(BeginSend(s, p, id)) && BeginSend(s, p, id).phase == Posting(p, id)
  {
  }

  lemma RouteOne(b: Mailbox, msgs: seq<Msg>)
    requires |b.pending| <= 1
    ensures b.pending == [] ==> RouteAll(b, msgs) == b
    ensures RouteAll(b, msgs) == b
            || exists r :: Text(r) in msgs && RouteAll(b, msgs) == Mailbox([], b.delivered[b.pending[0] := r])
    decreases |msgs|
  {
    if msgs != [] {
      RouteOne(Route(b, msgs[0]), msgs[1..]);
    }
  }

  lemma PassGateInv(s: Sys, uri: Uri, id: Id)
    requires BreakerInv(s.client) && ContextInv(s) && |s.client.cache| <= MAX_CACHE
    requires s.client.initialized && s.box.pending == [] && id !in s.sent
    ensures Inv(PassGate(s, uri, id))
  {
  }

  lemma SendFailedInv(s: Sys, p: Purpose, e: KmsError)
    requires BreakerInv(s.client) && ContextInv(s) && |s.client.cache| <= MAX_CACHE + 1
    requires s.box.pending == []
    requires p.Retrieve? ==> |s.client.cache| <= MAX_CACHE && s.client.initialized && !s.client.cb.Open? && p.attempt >= 1
    ensures Inv(SendFailed(s, p, e))
  {
  }

  lemma ReceiveInv(s: Sys, id: Id)
    requires Inv(s) && Enabled(s, Deliver(id))
    ensures Inv(Step(s, Deliver(id)))
  {
    var body := s.box.delivered[s.phase.id].body;
    match s.phase.purpose
    case Handshake(resume) =>
      if body.HandshakeBody? && resume.Some? {
        PassGateInv(s.(client := Initialized(s.client, body.derived, s.now)), resume.value, id);
      }
    case Retrieve(uri, _) =>
      assert |s.client.cache[uri := []]| <= |s.client.cache| + 1;
  }

  lemma StartInv(s: Sys, uri: Uri, id: Id)
    requires Inv(s) && Enabled(s, CallGetKey(uri, id))
    ensures Inv(Step(s, CallGetKey(uri, id)))
  {
    if uri !in s.client.cache {
      var c1 := if |s.client.cache| > MAX_CACHE then s.client.(cache := map[]) else s.client;
      if !Expired(c1, s.now) {
        PassGateInv(s.(out := s.out + [Called(uri)], client := c1), uri, id);
      }
    }
  }

  lemma PruneInv(s: Sys)
    requires Inv(s) && Enabled(s, Prune)
    ensures Inv(Step(s, Prune))
  {
    assert Retain([s.phase.id], s.phase.id) == [];
    SendFailedInv(s.(box := s.box.(pending := Retain(s.box.pending, s.phase.id))), s.phase.purpose, s.phase.error);
  }

  /** The steps that neither send nor receive nor finish a send. */
  lemma QuietInv(s: Sys, e: Event)
    requires Inv(s) && Enabled(s, e)
    requires e.CallInitialize? || e.DetailsFail? || e.PostOk? || e.PostFail? || e.Timeout? || e.Tick?
    ensures Inv(Step(s, e))
  {
  }

  lemma StepInv(s: Sys, e: Event)
    requires Inv(s) && Enabled(s, e)
    ensures Inv(Step(s, e))
  {
    match e
    case CallGetKey(uri, id) => StartInv(s, uri, id);
    case DetailsOk(id) => BeginSendInv(s, Handshake(s.phase.resume), id);
    case Batch(msgs) => RouteOne(s.box, msgs);
    case Deliver(id) => ReceiveInv(s, id);
    case ChannelDropped => assert false;
    case Prune => PruneInv(s);
    case Wake(id) => BeginSendInv(s, Retrieve(s.phase.uri, s.phase.attempt + 1), id);
    case _ => QuietInv(s, e);
  }

  /** Every reachable state satisfies the invariant. */
  lemma {:induction false} RunInv(s: Sys, es: seq<Event>)
    requires Inv(s) && IsRun(s, es)
    ensures Inv(After(s, es))
    decreases |es|
  {
    if es != [] {
      StepInv(s, es[0]);
      RunInv(Step(s, es[0]), es[1..]);
    }
  }

  /** The errors that the exclusive client rules out. */
  predicate Impossible(e: KmsError) {
    e.TooManyPending? || e.ChannelClosed? || e.NotInitialized? || e.NoEphemeralKey?
  }

  ghost predicate NoImpossibleError(out: seq<Output>) {
    forall o :: o in out && o.Returned? && o.result.Err? ==> !Impossible(o.result.error)
  }

  lemma StepErrors(s: Sys, e: Event)
    requires Inv(s) && Enabled(s, e) && NoImpossibleError(s.out)
    ensures NoImpossibleError(Step(s, e).out)
  {
    match e
    case CallGetKey(uri, id) => StartErrors(s, uri, id);
    case Deliver(id) => DeliverErrors(s, id);
    case ChannelDropped => assert false;
    case _ =>
  }

  lemma StartErrors(s: Sys, uri: Uri, id: Id)
    requires Inv(s) && Enabled(s, CallGetKey(uri, id)) && NoImpossibleError(s.out)
    ensures NoImpossibleError(Step(s, CallGetKey(uri, id)).out)
  {
  }

  lemma DeliverErrors(s: Sys, id: Id)
    requires Inv(s) && Enabled(s, Deliver(id)) && NoImpossibleError(s.out)
    ensures NoImpossibleError(Step(s, Deliver(id)).out)
  {
  }

  lemma {:induction false} RunErrors(s: Sys, es: seq<Event>)
    requires Inv(s) && NoImpossibleError(s.out) && IsRun(s, es)
    ensures NoImpossibleError(After(s, es).out)
    decreases |es|
  {
    if es != [] {
      StepInv(s, es[0]);
      StepErrors(s, es[0]);
      RunErrors(Step(s, es[0]), es[1..]);
    }
  }

  /**
   * Over every interleaving: at most one request is pending; whenever the sender
   * is outside a send the list is empty, so every exit removed its id; the
   * channel never drops; and no call ever fails on the 100-request bound.
   */
  lemma SinglePending(es: seq<Event>)
    requires IsRun(INITIAL, es)
    ensures var t := After(INITIAL, es);
            && |t.box.pending| <= 1
            && (!t.phase.Posting? && !t.phase.Waiting? && !t.phase.Pruning? ==> t.box.pending == [])
            && !Enabled(t, ChannelDropped)
            && NoImpossibleError(t.out)
  {
    RunInv(INITIAL, es);
    RunErrors(INITIAL, es);
  }

  /** Breaker, failure time and cache bound in every state reachable from a new client. */
  lemma BreakerAndCache(es: seq<Event>)
    requires IsRun(INITIAL, es)
    ensures var c := After(INITIAL, es).client;
            && (c.cb.Closed? <==> c.failures < FAILURE_THRESHOLD)
            && (c.cb.Open? ==> c.lastFailure.Some?)
            && |c.cache| <= MAX_CACHE + 1
  {
    RunInv(INITIAL, es);
  }
}
