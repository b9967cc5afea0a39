/**
 * Replies carry no request id: the handler gives each to the oldest pending
 * request. Here is exactly when that is right, and what follows for the keys
 * the client caches and returns.
 */
module KmsRouting {
  import opened Common
  import opened Kms
  import opened KmsProtocol
  import opened KmsRuns

  /** The replies of a batch, in order; other messages are skipped. */
  function Replies(msgs: seq<Msg>): seq<Reply> {
    if msgs == [] then []
    else if msgs[0].Text? then [msgs[0].reply] + Replies(msgs[1..])
    else Replies(msgs[1..])
  }

  function Causes(rs: seq<Reply>): (cs: seq<Id>)
    ensures |cs| == |rs| && forall i :: 0 <= i < |rs| ==> cs[i] == rs[i].cause
  {
    seq(|rs|, i requires 0 <= i < |rs| => rs[i].cause)
  }

  ghost predicate Distinct<T>(xs: seq<T>) {
    forall i, j :: 0 <= i < j < |xs| ==> xs[i] != xs[j]
  }

  /** Each reply of the batch ends in the channel of the request that caused it. */
  ghost predicate ReachesCause(b: Mailbox, msgs: seq<Msg>) {
    var after := RouteAll(b, msgs);
    forall r :: r in Replies(msgs) ==>
      r.cause in b.pending && r.cause in after.delivered && after.delivered[r.cause] == r
  }

  /** How many replies of `rs` find a pending request. */
  function Matched(b: Mailbox, rs: seq<Reply>): nat {
    if |rs| <= |b.pending| then |rs| else |b.pending|
  }

  /** Routing, index by index: the i-th reply goes to the i-th pending request. */
  ghost predicate RoutedExactly(b: Mailbox, rs: seq<Reply>, after: Mailbox) {
    var n := Matched(b, rs);
    && after.pending == b.pending[n..]
    && (forall i :: 0 <= i < n ==> b.pending[i] in after.delivered && after.delivered[b.pending[i]] == rs[i])
    && (forall id :: id !in b.pending[..n] ==> SameChannel(id, b.delivered, after.delivered))
  }

  ghost predicate SameChannel(id: Id, d: map<Id, Reply>, d': map<Id, Reply>) {
    (id in d <==> id in d') && (id in d ==> d[id] == d'[id])
  }

  lemma {:induction false} RouteAllExact(b: Mailbox, msgs: seq<Msg>)
    requires Distinct(b.pending)
    ensures RoutedExactly(b, Replies(msgs), RouteAll(b, msgs))
    decreases |msgs|
  {
    if msgs != [] {
      var b1 := Route(b, msgs[0]);
      assert Distinct(b1.pending);
      RouteAllExact(b1, msgs[1..]);
      if msgs[0].Text? {
        RouteHead(b, msgs[0].reply, Replies(msgs[1..]), RouteAll(b, msgs));
      } else {
        assert Replies(msgs) == Replies(msgs[1..]) && b1 == b;
      }
    }
  }

  lemma RouteHead(b: Mailbox, r: Reply, rs: seq<Reply>, after: Mailbox)
    requires Distinct(b.pending) && RoutedExactly(Route(b, Text(r)), rs, after)
    ensures RoutedExactly(b, [r] + rs, after)
  {
    if b.pending != [] {
      RouteToOldest(b, r, rs, after);
    }
  }

  lemma RouteToOldest(b: Mailbox, r: Reply, rs: seq<Reply>, after: Mailbox)
    requires Distinct(b.pending) && b.pending != []
    requires RoutedExactly(Route(b, Text(r)), rs, after)
    ensures RoutedExactly(b, [r] + rs, after)
  {
    var b1, n := Route(b, Text(r)), Matched(b, [r] + rs);
    assert b.pending[..n] == [b.pending[0]] + b1.pending[..n - 1];
    assert SameChannel(b.pending[0], b1.delivered, after.delivered);
    forall id | id !in b.pending[..n]
      ensures SameChannel(id, b.delivered, after.delivered)
    {
      assert SameChannel(id, b1.delivered, after.delivered);
    }
    forall i | 0 <= i < n
      ensures b.pending[i] in after.delivered && after.delivered[b.pending[i]] == ([r] + rs)[i]
    {
      if i > 0 {
        assert b.pending[i] == b1.pending[i - 1];
      }
    }
  }

  /**
   * With at most one reply per request, a batch is routed right iff its causes
   * are, in order, the oldest pending requests.
   */
  lemma {:induction false} FifoRoutesRightIff(b: Mailbox, msgs: seq<Msg>)
    requires Distinct(b.pending) && (forall id :: id in b.pending ==> id !in b.delivered)
    requires Distinct(Causes(Replies(msgs)))
    ensures ReachesCause(b, msgs) <==> Causes(Replies(msgs)) <= b.pending
  {
    RouteAllExact(b, msgs);
    if ReachesCause(b, msgs) {
      RightMeansPrefix(b, Replies(msgs), RouteAll(b, msgs));
    }
    if Causes(Replies(msgs)) <= b.pending {
      PrefixMeansRight(b, Replies(msgs), RouteAll(b, msgs));
    }
  }

  lemma RightMeansPrefix(b: Mailbox, rs: seq<Reply>, after: Mailbox)
    requires forall id :: id in b.pending ==> id !in b.delivered
    requires Distinct(Causes(rs)) && RoutedExactly(b, rs, after)
    requires forall r :: r in rs ==> r.cause in b.pending && r.cause in after.delivered && after.delivered[r.cause] == r
    ensures Causes(rs) <= b.pending
  {
    var n := Matched(b, rs);
    forall i | 0 <= i < |rs|
      ensures i < n && rs[i].cause == b.pending[i]
    {
      assert rs[i] in rs;
      assert SameChannel(rs[i].cause, b.delivered, after.delivered) || rs[i].cause in b.pending[..n];
      var k :| 0 <= k < n && b.pending[k] == rs[i].cause;
      assert Causes(rs)[k] == Causes(rs)[i];
    }
    assert rs != [] ==> rs[|rs| - 1].cause in b.pending && |rs| - 1 < n;
    assert Causes(rs) == b.pending[..|rs|];
  }

  lemma PrefixMeansRight(b: Mailbox, rs: seq<Reply>, after: Mailbox)
    requires Causes(rs) <= b.pending && RoutedExactly(b, rs, after)
    ensures forall r :: r in rs ==> r.cause in b.pending && r.cause in after.delivered && after.delivered[r.cause] == r
  {
    forall r | r in rs
      ensures r.cause in b.pending && r.cause in after.delivered && after.delivered[r.cause] == r
    {
      var i :| 0 <= i < |rs| && rs[i] == r;
      assert b.pending[i] == Causes(rs)[i];
    }
  }

  // ---- Keys over whole runs ----

  /** What the KMS answers for each key URI when asked directly. */
  type Truth = Uri -> Key

  /** A reply the KMS would send: for a retrieve, an unusable body or the true key. */
  ghost predicate Truthful(sent: map<Id, Purpose>, r: Reply, truth: Truth) {
    && r.cause in sent
    && (sent[r.cause].Retrieve? && Usable(r.body) ==> r.body.key == truth(sent[r.cause].uri))
  }

  /**
   * The hypothesis on replies: truthful, at most one per request, and none
   * arriving after its request left the pending list.
   */
  ghost predicate Orderly(s: Sys, e: Event, truth: Truth) {
    e.Batch? ==>
      && Distinct(Causes(Replies(e.msgs)))
      && forall r :: r in Replies(e.msgs) ==> Truthful(s.sent, r, truth) && r.cause in s.box.pending
  }

  ghost predicate OrderlyRun(s: Sys, es: seq<Event>, truth: Truth)
    requires IsRun(s, es)
    decreases |es|
  {
    es == [] || (Orderly(s, es[0], truth) && OrderlyRun(Step(s, es[0]), es[1..], truth))
  }

  lemma TwoDoNotFit(xs: seq<Id>, p: seq<Id>)
    requires |xs| >= 2 && |p| <= 1 && forall i :: 0 <= i < |xs| ==> xs[i] in p
    ensures !Distinct(xs)
  {
    assert xs[0] in p && xs[1] in p;
  }

  lemma SinglePrefix(xs: seq<Id>, p: seq<Id>)
    requires Distinct(xs) && |p| <= 1 && forall i :: 0 <= i < |xs| ==> xs[i] in p
    ensures xs <= p
  {
    if |xs| >= 2 {
      TwoDoNotFit(xs, p);
    } else if |xs| == 1 {
      assert xs[0] in p;
    }
  }

  /** Under the hypothesis every reply reaches the request that caused it. */
  lemma OrderlyReachesCause(s: Sys, msgs: seq<Msg>, truth: Truth)
    requires Inv(s) && Orderly(s, Batch(msgs), truth)
    ensures ReachesCause(s.box, msgs)
  {
    var rs := Replies(msgs);
    assert forall i :: 0 <= i < |rs| ==> rs[i] in rs && Causes(rs)[i] in s.box.pending;
    SinglePrefix(Causes(rs), s.box.pending);
    FifoRoutesRightIff(s.box, msgs);
  }

  /** The client that asks the KMS directly, as the calls and returns it may show. */
  datatype Direct = Ready | Asking(uri: Uri) | Wrong

  function DirectStep(d: Direct, o: Output, truth: Truth): Direct {
    match o
    case Called(uri) => if d.Ready? then Asking(uri) else Wrong
    case Returned(uri, r) => if d == Asking(uri) && (r.Ok? ==> r.value == truth(uri)) then Ready else Wrong
  }

  function DirectRun(out: seq<Output>, truth: Truth): Direct {
    if out == [] then Ready else DirectStep(DirectRun(out[..|out| - 1], truth), out[|out| - 1], truth)
  }

  lemma DirectAppend(out: seq<Output>, o: Output, truth: Truth)
    ensures DirectRun(out + [o], truth) == DirectStep(DirectRun(out, truth), o, truth)
  {
    assert (out + [o])[..|out|] == out;
  }

  /** The state of the direct client that a phase stands for. */
  function Abstract(ph: Phase): Direct {
    match ph
    case Idle => Ready
    case Details(r) => if r.Some? then Asking(r.value) else Ready
    case Sleeping(uri, _, _) => Asking(uri)
    case _ =>
      match ph.purpose
      case Handshake(r) => if r.Some? then Asking(r.value) else Ready
      case Retrieve(uri, _) => Asking(uri)
  }

  ghost predicate CacheTrue(c: Client, truth: Truth) {
    forall uri :: uri in c.cache ==> c.cache[uri] == truth(uri)
  }

  /** Every channel holds a truthful reply to its own request. */
  ghost predicate DeliveredTrue(delivered: map<Id, Reply>, sent: map<Id, Purpose>, truth: Truth) {
    forall id :: id in delivered ==> delivered[id].cause == id && Truthful(sent, delivered[id], truth)
  }

  lemma SentGrows(delivered: map<Id, Reply>, sent: map<Id, Purpose>, id: Id, p: Purpose, truth: Truth)
    requires DeliveredTrue(delivered, sent, truth) && id !in sent
    ensures DeliveredTrue(delivered, sent[id := p], truth)
  {
  }

  ghost predicate KeysInv(s: Sys, truth: Truth) {
    && Inv(s)
    && CacheTrue(s.client, truth)
    && DeliveredTrue(s.box.delivered, s.sent, truth)
    && DirectRun(s.out, truth) == Abstract(s.phase)
  }

  lemma BatchKeys(s: Sys, msgs: seq<Msg>, truth: Truth)
    requires KeysInv(s, truth) && Orderly(s, Batch(msgs), truth)
    ensures KeysInv(Step(s, Batch(msgs)), truth)
  {
    StepInv(s, Batch(msgs));
    RouteAllExact(s.box, msgs);
    OrderlyReachesCause(s, msgs, truth);
    var after := RouteAll(s.box, msgs);
    forall id | id in after.delivered
      ensures after.delivered[id].cause == id && Truthful(s.sent, after.delivered[id], truth)
    {
      var rs := Replies(msgs);
      if id in s.box.pending && |rs| > 0 {
        assert rs[0] in rs && s.box.pending[0] in after.delivered;
      } else {
        assert SameChannel(id, s.box.delivered, after.delivered);
      }
    }
  }

  lemma ReplyKeys(s: Sys, uri: Uri, r: Result<Key, KmsError>, truth: Truth)
    requires DirectRun(s.out, truth) == Asking(uri) && (r.Ok? ==> r.value == truth(uri))
    ensures DirectRun(KmsProtocol.Reply(s, uri, r).out, truth) == Ready
  {
    DirectAppend(s.out, Returned(uri, r), truth);
  }

  lemma SendFailedKeys(s: Sys, p: Purpose, e: KmsError, truth: Truth)
    requires DirectRun(s.out, truth) == Abstract(Posting(p, ""))
    ensures DirectRun(SendFailed(s, p, e).out, truth) == Abstract(SendFailed(s, p, e).phase)
    ensures SendFailed(s, p, e).client.cache == s.client.cache
    ensures SendFailed(s, p, e).box == s.box && SendFailed(s, p, e).sent == s.sent
  {
    if p.Retrieve? {
      var (c, n) := OnSendError(s.client, p.attempt, e, s.now);
      if n.Return? {
        ReplyKeys(s.(client := c), p.uri, n.result, truth);
      }
    } else if p.resume.Some? {
      ReplyKeys(s, p.resume.value, Err(e), truth);
    }
  }

  lemma BeginSendKeys(s: Sys, p: Purpose, id: Id, truth: Truth)
    requires DirectRun(s.out, truth) == Abstract(Posting(p, ""))
    ensures var t := BeginSend(s, p, id);
            && DirectRun(t.out, truth) == Abstract(t.phase)
            && t.client.cache == s.client.cache && t.box.delivered == s.box.delivered
            && (t.sent == s.sent || t.sent == s.sent[id := p])
  {
    if |s.box.pending| >= MAX_PENDING {
      SendFailedKeys(s, p, TooManyPending, truth);
    }
  }

  lemma ProceedKeys(s: Sys, uri: Uri, c: Client, n: Next, id: Id, truth: Truth)
    requires DirectRun(s.out, truth) == Asking(uri)
    requires n.Return? && n.result.Ok? ==> n.result.value == truth(uri)
    ensures var t := Proceed(s, uri, c, n, id);
            && DirectRun(t.out, truth) == Abstract(t.phase)
            && t.client.cache == c.cache && t.box.delivered == s.box.delivered
            && (t.sent == s.sent || (n.Send? && t.sent == s.sent[id := Retrieve(uri, n.attempt)]))
  {
    match n
    case Return(r) => ReplyKeys(s.(client := c), uri, r, truth);
    case Send(a) => BeginSendKeys(s.(client := c, gates := s.gates + [s.now]), Retrieve(uri, a), id, truth);
    case _ =>
  }

  lemma EnterTrue(c: Client, uri: Uri, now: nat, truth: Truth)
    requires CacheTrue(c, truth)
    ensures var (c', n) := Enter(c, uri, now);
            CacheTrue(c', truth) && (n.Return? && n.result.Ok? ==> n.result.value == truth(uri))
  {
  }

  lemma StartKeys(s: Sys, uri: Uri, id: Id, truth: Truth)
    requires KeysInv(s, truth) && Enabled(s, CallGetKey(uri, id))
    ensures KeysInv(Step(s, CallGetKey(uri, id)), truth)
  {
    StepInv(s, CallGetKey(uri, id));
    DirectAppend(s.out, Called(uri), truth);
    var (c, n) := Enter(s.client, uri, s.now);
    EnterTrue(s.client, uri, s.now, truth);
    if n.Send? {
      SentGrows(s.box.delivered, s.sent, id, Retrieve(uri, n.attempt), truth);
    }
    ProceedKeys(s.(out := s.out + [Called(uri)]), uri, c, n, id, truth);
  }

  lemma DeliverKeys(s: Sys, id: Id, truth: Truth)
    requires KeysInv(s, truth) && Enabled(s, Deliver(id))
    ensures KeysInv(Step(s, Deliver(id)), truth)
  {
    StepInv(s, Deliver(id));
    var reply := s.box.delivered[s.phase.id];
    match s.phase.purpose
    case Handshake(resume) =>
      if resume.Some? {
        if reply.body.HandshakeBody? {
          var s1 := s.(client := Initialized(s.client, reply.body.derived, s.now));
          var (c, n) := Gate(s1.client, s.now);
          if n.Send? {
            SentGrows(s.box.delivered, s.sent, id, Retrieve(resume.value, n.attempt), truth);
          }
          ProceedKeys(s1, resume.value, c, n, id, truth);
        } else {
          ReplyKeys(s, resume.value, Err(BadReply(reply.body)), truth);
        }
      }
    case Retrieve(uri, _) =>
      var (c, r) := OnReply(s.client, uri, reply.body);
      ReplyKeys(s.(client := c), uri, r, truth);
  }

  lemma StepKeys(s: Sys, e: Event, truth: Truth)
    requires KeysInv(s, truth) && Enabled(s, e) && Orderly(s, e, truth)
    ensures KeysInv(Step(s, e), truth)
  {
    StepInv(s, e);
    match e
    case CallGetKey(uri, id) => StartKeys(s, uri, id, truth);
    case Batch(msgs) => BatchKeys(s, msgs, truth);
    case Deliver(id) => DeliverKeys(s, id, truth);
    case DetailsFail =>
      if s.phase.resume.Some? {
        ReplyKeys(s, s.phase.resume.value, Err(HandshakeFailed), truth);
      }
    case DetailsOk(id) => BeginSendKeys(s, Handshake(s.phase.resume), id, truth);
    case ChannelDropped => assert false;
    case Prune =>
      SendFailedKeys(s.(box := s.box.(pending := Retain(s.box.pending, s.phase.id))),
                     s.phase.purpose, s.phase.error, truth);
    case Wake(id) => BeginSendKeys(s, Retrieve(s.phase.uri, s.phase.attempt + 1), id, truth);
    case _ =>
  }

  /**
   * Every run whose replies are orderly refines the direct client: its calls and
   * returns are ones the direct client shows, so a key is returned only if it is
   * the KMS's own answer, and the cache holds nothing else.
   */
  lemma {:induction false} CachedRefinesDirect(s: Sys, es: seq<Event>, truth: Truth)
    requires KeysInv(s, truth) && IsRun(s, es) && OrderlyRun(s, es, truth)
    ensures KeysInv(After(s, es), truth)
    ensures CacheTrue(After(s, es).client, truth)
    ensures !DirectRun(After(s, es).out, truth).Wrong?
    decreases |es|
  {
    if es != [] {
      StepKeys(s, es[0], truth);
      CachedRefinesDirect(Step(s, es[0]), es[1..], truth);
    }
  }

  /** The direct client never returns anything but the KMS's answer. */
  lemma {:induction false} DirectAnswersTrue(out: seq<Output>, truth: Truth, o: Output)
    requires !DirectRun(out, truth).Wrong? && o in out && o.Returned? && o.result.Ok?
    ensures o.result.value == truth(o.uri)
  {
    var last := |out| - 1;
    if out[last] != o {
      DirectAnswersTrue(out[..last], truth, o);
    }
  }

  /** From a new client on, every cached key and every returned key is the KMS's own answer for its URI. */
  lemma KeysAreTrue(es: seq<Event>, truth: Truth)
    requires IsRun(INITIAL, es) && OrderlyRun(INITIAL, es, truth)
    ensures var t := After(INITIAL, es);
            && (forall uri :: uri in t.client.cache ==> t.client.cache[uri] == truth(uri))
            && (forall o :: o in t.out && o.Returned? && o.result.Ok? ==> o.result.value == truth(o.uri))
  {
    CachedRefinesDirect(INITIAL, es, truth);
    var t := After(INITIAL, es);
    forall o | o in t.out && o.Returned? && o.result.Ok?
      ensures o.result.value == truth(o.uri)
    {
      DirectAnswersTrue(t.out, truth, o);
    }
  }

  /** Request "i1" asked for "A", yet its answer `kA` is cached under "B". */
  ghost predicate Misrouted(s: Sys, kA: Key) {
    && OwnRequest(s, Retrieve("A", 1), "i1") && OwnRequest(s, Retrieve("B", 1), "i3")
    && "i3" in s.box.delivered && s.box.delivered["i3"] == Reply.Reply("i1", KeyBody(kA))
    && "B" in s.client.cache && s.client.cache["B"] == kA
  }

  /**
   * The hypothesis is needed. A POST for "A" that is reported failed but reaches
   * the KMS is answered after its request left the list; the next fetch, for "B",
   * is given that answer and caches A's key under "B".
   */
  lemma LateReplyIsMisrouted(kA: Key, derived: Key)
    requires |kA| == 32
    ensures exists es :: IsRun(INITIAL, es) && Misrouted(After(INITIAL, es), kA)
  {
    var es, s := HandshakeRun(derived);
    es, s := FailFetch(INITIAL, es, s, "A", "i1", "i2");
    es, s := MisroutedRun(es, s, kA);
  }

  lemma MisroutedRun(es: seq<Event>, s: Sys, kA: Key) returns (es': seq<Event>, s': Sys)
    requires |kA| == 32 && Reaches(INITIAL, es, s)
    requires ReadyToFetch(s, "B") && s.client.cb.Closed?
    requires OwnRequest(s, Retrieve("A", 1), "i1") && "i3" !in s.sent && "y" !in s.sent
    ensures Reaches(INITIAL, es', s') && Misrouted(s', kA)
  {
    var late := Reply.Reply("i1", KeyBody(kA));
    es', s' := BeginFetch(INITIAL, es, s, "B", "i3");
    es', s' := GetReply(INITIAL, es', s', late, "y");
  }
}
