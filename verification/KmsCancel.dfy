/**
 * Dropped initialisations. A caller may drop the future of `connect` while it awaits
 * `initialize`; the request then stays in the pending list with nobody to remove it.
 * Here is how long the list can get then.
 */
module KmsCancel {
  import opened Common
  import opened Kms
  import opened KmsProtocol

  /** A step of the protocol, or the drop of an `initialize` that no fetch waits for. */
  datatype Move = Take(event: Event) | Drop

  predicate Droppable(ph: Phase) {
    match ph
    case Details(resume) => resume.None?
    case Posting(p, _) => p == Handshake(None)
    case Waiting(p, _, _) => p == Handshake(None)
    case Pruning(p, _, _) => p == Handshake(None)
    case _ => false
  }

  predicate Allowed(s: Sys, m: Move) {
    match m
    case Take(e) => Enabled(s, e)
    case Drop => Droppable(s.phase)
  }

  function Next(s: Sys, m: Move): Sys
    requires Allowed(s, m)
  {
    match m
    case Take(e) => Step(s, e)
    case Drop => s.(phase := Idle)
  }

  ghost predicate IsMoves(s: Sys, ms: seq<Move>)
    decreases |ms|
  {
    ms == [] || (Allowed(s, ms[0]) && IsMoves(Next(s, ms[0]), ms[1..]))
  }

  ghost function AfterMoves(s: Sys, ms: seq<Move>): Sys
    requires IsMoves(s, ms)
    decreases |ms|
  {
    if ms == [] then s else AfterMoves(Next(s, ms[0]), ms[1..])
  }

  function Drops(ms: seq<Move>): nat {
    if ms == [] then 0 else (if ms[0].Drop? then 1 else 0) + Drops(ms[1..])
  }

  // ---- The list ----

  ghost predicate Distinct(ids: seq<Id>) {
    forall i, j :: 0 <= i < j < |ids| ==> ids[i] != ids[j]
  }

  lemma {:induction false} RetainAbsent(ids: seq<Id>, x: Id)
    requires x !in ids
    ensures Retain(ids, x) == ids
  {
    if ids != [] {
      RetainAbsent(ids[1..], x);
    }
  }

  lemma DistinctTail(ids: seq<Id>)
    requires Distinct(ids) && ids != []
    ensures Distinct(ids[1..]) && ids[0] !in ids[1..]
  {
  }

  lemma DistinctCons(x: Id, ids: seq<Id>)
    requires Distinct(ids) && x !in ids
    ensures Distinct([x] + ids)
  {
  }

  lemma {:induction false} RetainKeepsDistinct(ids: seq<Id>, x: Id)
    requires Distinct(ids)
    ensures Distinct(Retain(ids, x))
  {
    if ids != [] {
      DistinctTail(ids);
      RetainKeepsDistinct(ids[1..], x);
      if ids[0] != x {
        DistinctCons(ids[0], Retain(ids[1..], x));
      }
    }
  }

  /** Of distinct ids, at most one goes. */
  lemma {:induction false} RetainSize(ids: seq<Id>, x: Id)
    requires Distinct(ids)
    ensures |Retain(ids, x)| <= |ids| <= |Retain(ids, x)| + 1
  {
    if ids != [] {
      DistinctTail(ids);
      if ids[0] == x {
        RetainAbsent(ids[1..], x);
      } else {
        RetainSize(ids[1..], x);
      }
    }
  }

  lemma {:induction false} RetainLast(ids: seq<Id>, x: Id)
    requires x !in ids
    ensures Retain(ids + [x], x) == ids
  {
    if ids == [] {
      assert ids + [x] == [x] && Retain([x][1..], x) == [];
    } else {
      assert (ids + [x])[1..] == ids[1..] + [x];
      RetainLast(ids[1..], x);
    }
  }

  /** The id of the send under way. */
  function Own(ph: Phase): Option<Id> {
    if ph.Posting? || ph.Waiting? || ph.Pruning? then Some(ph.id) else None
  }

  /** The pending ids but that of the send under way. */
  function Foreign(pending: seq<Id>, own: Option<Id>): seq<Id> {
    if own.Some? then Retain(pending, own.value) else pending
  }

  /** Pending ids are distinct, sent, and not delivered. */
  ghost predicate BoxInv(b: Mailbox, sent: map<Id, Purpose>) {
    && Distinct(b.pending)
    && (forall id :: id in b.pending ==> id in sent && id !in b.delivered)
    && (forall id :: id in b.delivered ==> id in sent)
  }

  /** At most `k` pending ids belong to no send under way. */
  ghost predicate ListInv(s: Sys, k: nat) {
    && BoxInv(s.box, s.sent)
    && (Own(s.phase).Some? ==> Own(s.phase).value in s.sent)
    && |Foreign(s.box.pending, Own(s.phase))| <= k
  }

  lemma RouteList(b: Mailbox, m: Msg, sent: map<Id, Purpose>, own: Option<Id>)
    requires BoxInv(b, sent)
    ensures BoxInv(Route(b, m), sent) && |Foreign(Route(b, m).pending, own)| <= |Foreign(b.pending, own)|
  {
    if m.Text? && b.pending != [] {
      assert b.pending[0] in b.pending && b.pending[0] !in b.pending[1..];
    }
  }

  lemma {:induction false} RouteAllList(b: Mailbox, msgs: seq<Msg>, sent: map<Id, Purpose>, own: Option<Id>)
    requires BoxInv(b, sent)
    ensures BoxInv(RouteAll(b, msgs), sent) && |Foreign(RouteAll(b, msgs).pending, own)| <= |Foreign(b.pending, own)|
    decreases |msgs|
  {
    if msgs != [] {
      RouteList(b, msgs[0], sent, own);
      RouteAllList(Route(b, msgs[0]), msgs[1..], sent, own);
    }
  }

  /** A send that begins with nobody else's inside the list as it was. */
  lemma BeginSendList(s: Sys, p: Purpose, id: Id, k: nat)
    requires BoxInv(s.box, s.sent) && |s.box.pending| <= k && Own(s.phase).None? && id !in s.sent
    ensures ListInv(BeginSend(s, p, id), k)
  {
    if |s.box.pending| < MAX_PENDING {
      RetainLast(s.box.pending, id);
    }
  }

  /** A send is over, and its id is not in the list. */
  ghost predicate SendOver(s: Sys, k: nat) {
    BoxInv(s.box, s.sent) && |s.box.pending| <= k
  }

  lemma ProceedList(s: Sys, uri: Uri, c: Client, n: Next, id: Id, k: nat)
    requires SendOver(s, k) && id !in s.sent
    ensures ListInv(Proceed(s, uri, c, n, id), k)
  {
    if n.Send? && |s.box.pending| < MAX_PENDING {
      RetainLast(s.box.pending, id);
    }
  }

  lemma DeliverList(s: Sys, id: Id, k: nat)
    requires ListInv(s, k) && Enabled(s, Deliver(id))
    ensures ListInv(Step(s, Deliver(id)), k)
  {
    RetainAbsent(s.box.pending, s.phase.id);
    var body := s.box.delivered[s.phase.id].body;
    if s.phase.purpose.Handshake? && body.HandshakeBody? && s.phase.purpose.resume.Some? {
      var s1 := s.(client := Initialized(s.client, body.derived, s.now));
      var (c, n) := Gate(s1.client, s1.now);
      ProceedList(s1, s.phase.purpose.resume.value, c, n, id, k);
    }
  }

  lemma PruneList(s: Sys, k: nat)
    requires ListInv(s, k) && Enabled(s, Prune)
    ensures ListInv(Step(s, Prune), k)
  {
    RetainKeepsDistinct(s.box.pending, s.phase.id);
  }

  lemma StepList(s: Sys, e: Event, k: nat)
    requires ListInv(s, k) && Enabled(s, e)
    ensures ListInv(Step(s, e), k)
  {
    match e
    case CallGetKey(uri, id) =>
      var (c, n) := Enter(s.client, uri, s.now);
      ProceedList(s.(out := s.out + [Called(uri)]), uri, c, n, id, k);
    case DetailsOk(id) => BeginSendList(s, Handshake(s.phase.resume), id, k);
    case Batch(msgs) => RouteAllList(s.box, msgs, s.sent, Own(s.phase));
    case Deliver(id) => DeliverList(s, id, k);
    case ChannelDropped => RetainAbsent(s.box.pending, s.phase.id);
    case Prune => PruneList(s, k);
    case Wake(id) =>
      var (c, n) := Attempt(s.client, s.phase.attempt + 1);
      if !n.Return? {
        BeginSendList(s.(client := c), Retrieve(s.phase.uri, s.phase.attempt + 1), id, k);
      }
    case _ =>
  }

  lemma DropList(s: Sys, k: nat)
    requires ListInv(s, k) && Droppable(s.phase)
    ensures ListInv(Next(s, Drop), k + 1)
  {
    if Own(s.phase).Some? {
      RetainSize(s.box.pending, s.phase.id);
    }
  }

  lemma {:induction false} RunList(s: Sys, ms: seq<Move>, k: nat)
    requires ListInv(s, k) && IsMoves(s, ms)
    ensures ListInv(AfterMoves(s, ms), k + Drops(ms))
    decreases |ms|
  {
    if ms != [] {
      if ms[0].Drop? {
        DropList(s, k);
        RunList(Next(s, Drop), ms[1..], k + 1);
      } else {
        StepList(s, ms[0].event, k);
        RunList(Next(s, ms[0]), ms[1..], k);
      }
    }
  }

  /**
   * Over every interleaving with drops: outside a send there are at most as many
   * pending requests as drops, inside one at most one more.
   */
  lemma PendingWithDrops(ms: seq<Move>)
    requires IsMoves(INITIAL, ms)
    ensures var t := AfterMoves(INITIAL, ms);
            |t.box.pending| <= Drops(ms) + if Own(t.phase).Some? then 1 else 0
  {
    RunList(INITIAL, ms, 0);
    var t := AfterMoves(INITIAL, ms);
    if Own(t.phase).Some? {
      RetainSize(t.box.pending, t.phase.id);
    }
  }

  /** So the 100-request bound is met at the start of a send only after 100 drops. */
  lemma BoundNeedsDrops(ms: seq<Move>, p: Purpose, id: Id)
    requires IsMoves(INITIAL, ms) && Own(AfterMoves(INITIAL, ms).phase).None? && Drops(ms) < MAX_PENDING
    ensures BeginSend(AfterMoves(INITIAL, ms), p, id).phase == Posting(p, id)
  {
    PendingWithDrops(ms);
  }

  /** One drop is enough for two pending requests. */
  lemma TwoPending()
    ensures exists ms :: IsMoves(INITIAL, ms) && Drops(ms) == 1 && AfterMoves(INITIAL, ms).box.pending == ["a", "b"]
  {
    var ms := [Take(CallInitialize), Take(DetailsOk("a")), Drop, Take(CallInitialize), Take(DetailsOk("b"))];
    var s1 := Next(INITIAL, ms[0]);
    var s2 := Next(s1, ms[1]);
    var s3 := Next(s2, ms[2]);
    var s4 := Next(s3, ms[3]);
    var s5 := Next(s4, ms[4]);
    assert s5.box.pending == ["a"] + ["b"];
    assert ms[4..] == [ms[4]] && ms[4..][1..] == [];
    assert IsMoves(s5, []) && IsMoves(s4, ms[4..]) && AfterMoves(s4, ms[4..]) == s5 && Drops(ms[4..]) == 0;
    assert ms[3..][1..] == ms[4..];
    assert IsMoves(s3, ms[3..]) && AfterMoves(s3, ms[3..]) == s5 && Drops(ms[3..]) == 0;
    assert ms[2..][1..] == ms[3..];
    assert IsMoves(s2, ms[2..]) && AfterMoves(s2, ms[2..]) == s5 && Drops(ms[2..]) == 1;
    assert ms[1..][1..] == ms[2..];
    assert IsMoves(s1, ms[1..]) && AfterMoves(s1, ms[1..]) == s5 && Drops(ms[1..]) == 1;
    assert IsMoves(INITIAL, ms) && AfterMoves(INITIAL, ms) == s5 && Drops(ms) == 1;
  }
}
