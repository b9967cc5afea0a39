/** How often an opened breaker lets the client reach a failing KMS. */
module KmsRate {
  import opened Common
  import opened Kms
  import opened KmsProtocol

  // ---- Counting events in a window ----

  /** Any k+1 consecutive times span at least one cooldown. */
  ghost predicate Spaced(ts: seq<nat>, k: nat) {
    && (forall i, j :: 0 <= i <= j < |ts| ==> ts[i] <= ts[j])
    && (forall i :: 0 <= i && i + k < |ts| ==> ts[i + k] >= ts[i] + COOLDOWN)
  }

  /** How many of `ts` lie in [w, w + T]. */
  function CountIn(ts: seq<nat>, w: nat, T: nat): nat {
    if ts == [] then 0 else CountIn(ts[..|ts| - 1], w, T) + if w <= ts[|ts| - 1] <= w + T then 1 else 0
  }

  /** In a sorted list whose last time is inside a window, those inside are the last ones. */
  lemma {:induction false} CountIsSuffix(ts: seq<nat>, w: nat, T: nat)
    requires forall i, j :: 0 <= i <= j < |ts| ==> ts[i] <= ts[j]
    requires ts != [] ==> ts[|ts| - 1] <= w + T
    ensures CountIn(ts, w, T) <= |ts|
    ensures CountIn(ts, w, T) > 0 ==> ts[|ts| - CountIn(ts, w, T)] >= w
  {
    if ts != [] {
      CountIsSuffix(ts[..|ts| - 1], w, T);
    }
  }

  lemma NonNegative(k: nat, q: nat)
    ensures k * q >= 0
  {
  }

  lemma {:induction false} WindowBound(ts: seq<nat>, k: nat, w: nat, T: nat)
    requires Spaced(ts, k) && k >= 1
    ensures CountIn(ts, w, T) <= k * (T / COOLDOWN + 1)
  {
    if ts == [] {
      NonNegative(k, T / COOLDOWN + 1);
    } else if w <= ts[|ts| - 1] <= w + T {
      CountIsSuffix(ts, w, T);
      SuffixBound(ts, k, w, T, CountIn(ts, w, T));
    } else {
      assert Spaced(ts[..|ts| - 1], k);
      WindowBound(ts[..|ts| - 1], k, w, T);
    }
  }

  /** `n` times inside a window, the last `n` of the list: drop `k` of them per cooldown. */
  lemma {:induction false} SuffixBound(ts: seq<nat>, k: nat, w: nat, T: nat, n: nat)
    requires Spaced(ts, k) && k >= 1 && 1 <= n <= |ts|
    requires w <= ts[|ts| - n] && ts[|ts| - 1] <= w + T
    ensures n <= k * (T / COOLDOWN + 1)
    decreases n
  {
    var q := T / COOLDOWN;
    assert k * (q + 1) == k * q + k;
    if n <= k {
      assert k * q >= 0;
    } else {
      assert ts[|ts| - n + k] >= w + COOLDOWN;
      assert (T - COOLDOWN) / COOLDOWN + 1 == q;
      SuffixBound(ts, k, w + COOLDOWN, T - COOLDOWN, n - k);
    }
  }

  lemma CountAppend(ts: seq<nat>, t: nat, w: nat, T: nat)
    ensures CountIn(ts + [t], w, T) == CountIn(ts, w, T) + if w <= t <= w + T then 1 else 0
  {
    assert (ts + [t])[..|ts|] == ts;
  }

  /** In no window does `ts` count more than `kept` and `extra` together. */
  ghost predicate Covers(kept: seq<nat>, extra: nat, ts: seq<nat>) {
    forall w: nat, T: nat :: CountIn(ts, w, T) <= CountIn(kept, w, T) + extra
  }

  lemma CoversKept(kept: seq<nat>, extra: nat, ts: seq<nat>, t: nat)
    requires Covers(kept, extra, ts)
    ensures Covers(kept + [t], extra, ts + [t])
  {
    forall w: nat, T: nat
      ensures CountIn(ts + [t], w, T) <= CountIn(kept + [t], w, T) + extra
    {
      CountAppend(ts, t, w, T);
      CountAppend(kept, t, w, T);
    }
  }

  lemma CoversExtra(kept: seq<nat>, extra: nat, ts: seq<nat>, t: nat)
    requires Covers(kept, extra, ts)
    ensures Covers(kept, extra + 1, ts + [t])
  {
    forall w: nat, T: nat
      ensures CountIn(ts + [t], w, T) <= CountIn(kept, w, T) + (extra + 1)
    {
      CountAppend(ts, t, w, T);
    }
  }

  // ---- Runs without a success ----

  /** A fetch is answered, with or without a key. */
  predicate Answers(s: Sys, e: Event) {
    e.Deliver? && s.phase.Waiting? && s.phase.purpose.Retrieve? && s.phase.id in s.box.delivered
  }

  predicate Succeeds(s: Sys, e: Event) {
    Answers(s, e) && Usable(s.box.delivered[s.phase.id].body)
  }

  predicate Malformed(s: Sys, e: Event) {
    Answers(s, e) && !Usable(s.box.delivered[s.phase.id].body)
  }

  ghost predicate NoSuccess(s: Sys, es: seq<Event>)
    requires IsRun(s, es)
    decreases |es|
  {
    es == [] || (!Succeeds(s, es[0]) && NoSuccess(Step(s, es[0]), es[1..]))
  }

  /** How many malformed replies fetches get during a run. */
  ghost function MalformedCount(s: Sys, es: seq<Event>): nat
    requires IsRun(s, es)
    decreases |es|
  {
    if es == [] then 0 else (if Malformed(s, es[0]) then 1 else 0) + MalformedCount(Step(s, es[0]), es[1..])
  }

  /** All of `ts` are at most `t`. */
  ghost predicate UpTo(ts: seq<nat>, t: int) {
    forall i :: 0 <= i < |ts| ==> ts[i] <= t
  }

  /**
   * A tally of the fetches since the breaker opened: the times of those that waited
   * for a cooldown and of their POSTs, and how many more a half-open breaker let by.
   */
  datatype Tally = Tally(gates: seq<nat>, posts: seq<nat>, extraGates: nat, extraPosts: nat)

  /** The fetch under way waited for a cooldown after all earlier POSTs of its kind. */
  ghost predicate Probing(s: Sys, y: Tally)
    requires Fetching(s.phase)
  {
    && y.gates != [] && |y.posts| >= AttemptOf(s.phase)
    && UpTo(y.posts[..|y.posts| - AttemptOf(s.phase)], y.gates[|y.gates| - 1] - COOLDOWN)
  }

  /** `m` malformed replies so far leave room for what the tally counts as extra, and for what may follow. */
  ghost predicate Room(s: Sys, y: Tally, m: nat) {
    && y.extraGates <= m && y.extraPosts <= 2 * m
    && (s.client.cb.HalfOpen? ==>
          if Fetching(s.phase) then Probing(s, y) || y.extraPosts + 2 - AttemptOf(s.phase) <= 2 * m
          else y.extraGates < m && y.extraPosts + 2 <= 2 * m)
  }

  ghost predicate Times(s: Sys, y: Tally) {
    && Spaced(y.gates, 1) && Spaced(y.posts, 2)
    && UpTo(y.gates, s.now) && UpTo(y.posts, s.now)
    && (s.client.cb.Open? && s.client.lastFailure.Some? ==>
          UpTo(y.gates, s.client.lastFailure.value) && UpTo(y.posts, s.client.lastFailure.value))
  }

  /** `g` and `p` are how many gates and POSTs there were when the breaker opened. */
  ghost predicate Tallied(s: Sys, g: nat, p: nat, y: Tally) {
    && g <= |s.gates| && p <= |s.posts|
    && Covers(y.gates, y.extraGates, s.gates[g..]) && Covers(y.posts, y.extraPosts, s.posts[p..])
  }

  ghost predicate Since(s: Sys, g: nat, p: nat, y: Tally, m: nat) {
    Inv(s) && !s.client.cb.Closed? && Times(s, y) && Tallied(s, g, p, y) && Room(s, y, m)
  }

  lemma AppendSpaced(ts: seq<nat>, k: nat, t: nat)
    requires Spaced(ts, k) && UpTo(ts, t)
    requires k >= 1 && (|ts| >= k ==> ts[|ts| - k] + COOLDOWN <= t)
    ensures Spaced(ts + [t], k)
  {
  }

  /** One more gate and POST, at the same time. */
  lemma TallyGate(s: Sys, t: Sys, g: nat, p: nat, y: Tally, kept: bool) returns (y': Tally)
    requires Tallied(s, g, p, y) && t.gates == s.gates + [s.now] && t.posts == s.posts + [s.now]
    ensures y' == if kept then y.(gates := y.gates + [s.now], posts := y.posts + [s.now])
                  else y.(extraGates := y.extraGates + 1, extraPosts := y.extraPosts + 1)
    ensures Tallied(t, g, p, y')
  {
    assert t.gates[g..] == s.gates[g..] + [s.now] && t.posts[p..] == s.posts[p..] + [s.now];
    if kept {
      y' := y.(gates := y.gates + [s.now], posts := y.posts + [s.now]);
      CoversKept(y.gates, y.extraGates, s.gates[g..], s.now);
      CoversKept(y.posts, y.extraPosts, s.posts[p..], s.now);
    } else {
      y' := y.(extraGates := y.extraGates + 1, extraPosts := y.extraPosts + 1);
      CoversExtra(y.gates, y.extraGates, s.gates[g..], s.now);
      CoversExtra(y.posts, y.extraPosts, s.posts[p..], s.now);
    }
  }

  lemma ProbeStarts(t: Sys, y: Tally)
    requires t.client.cb.HalfOpen? && Fetching(t.phase) && AttemptOf(t.phase) == 1
    requires Spaced(y.gates, 1) && Spaced(y.posts, 2)
    requires UpTo(y.gates, t.now - COOLDOWN) && UpTo(y.posts, t.now - COOLDOWN)
    ensures var y' := y.(gates := y.gates + [t.now], posts := y.posts + [t.now]); Times(t, y') && Probing(t, y')
  {
    AppendSpaced(y.gates, 1, t.now);
    AppendSpaced(y.posts, 2, t.now);
    assert (y.posts + [t.now])[..|y.posts|] == y.posts;
  }

  /** What a call that comes to the gate of a breaker that is not closed keeps. */
  lemma GateStep(s: Sys, uri: Uri, id: Id, g: nat, p: nat, y: Tally, m: nat) returns (y': Tally)
    requires BreakerInv(s.client) && ContextInv(s) && |s.client.cache| <= MAX_CACHE
    requires s.client.initialized && s.box.pending == [] && id !in s.sent
    requires !s.client.cb.Closed? && !Fetching(s.phase)
    requires Times(s, y) && Tallied(s, g, p, y) && Room(s, y, m)
    ensures Since(PassGate(s, uri, id), g, p, y', m)
  {
    PassGateInv(s, uri, id);
    var t := PassGate(s, uri, id);
    y' := y;
    if t.phase.Posting? {
      y' := TallyGate(s, t, g, p, y, s.client.cb.Open?);
      if s.client.cb.Open? {
        ProbeStarts(t, y);
      }
    }
  }

  lemma SecondPost(posts: seq<nat>, now: nat, gate: nat)
    requires Spaced(posts, 2) && UpTo(posts, now) && gate <= now && |posts| >= 1
    requires UpTo(posts[..|posts| - 1], gate - COOLDOWN)
    ensures Spaced(posts + [now], 2) && UpTo(posts + [now], now)
    ensures UpTo((posts + [now])[..|posts| - 1], gate - COOLDOWN)
  {
    assert |posts| >= 2 ==> posts[|posts| - 2] == posts[..|posts| - 1][|posts| - 2];
    AppendSpaced(posts, 2, now);
    assert (posts + [now])[..|posts| - 1] == posts[..|posts| - 1];
  }

  lemma WakeStep(s: Sys, id: Id, g: nat, p: nat, y: Tally, m: nat) returns (y': Tally)
    requires Since(s, g, p, y, m) && Enabled(s, Wake(id))
    ensures Since(Step(s, Wake(id)), g, p, y', m)
  {
    StepInv(s, Wake(id));
    var t := Step(s, Wake(id));
    assert t.posts[p..] == s.posts[p..] + [s.now];
    if Probing(s, y) {
      y' := y.(posts := y.posts + [s.now]);
      SecondPost(y.posts, s.now, y.gates[|y.gates| - 1]);
      CoversKept(y.posts, y.extraPosts, s.posts[p..], s.now);
    } else {
      y' := y.(extraPosts := y.extraPosts + 1);
      CoversExtra(y.posts, y.extraPosts, s.posts[p..], s.now);
    }
  }

  lemma CallStep(s: Sys, uri: Uri, id: Id, g: nat, p: nat, y: Tally, m: nat) returns (y': Tally)
    requires Since(s, g, p, y, m) && Enabled(s, CallGetKey(uri, id))
    ensures Since(Step(s, CallGetKey(uri, id)), g, p, y', m)
  {
    StartInv(s, uri, id);
    y' := y;
    if uri !in s.client.cache {
      var c1 := if |s.client.cache| > MAX_CACHE then s.client.(cache := map[]) else s.client;
      if !Expired(c1, s.now) {
        y' := GateStep(s.(out := s.out + [Called(uri)], client := c1), uri, id, g, p, y, m);
      }
    }
  }

  lemma HandshakeStep(s: Sys, id: Id, g: nat, p: nat, y: Tally, m: nat) returns (y': Tally)
    requires Since(s, g, p, y, m) && Enabled(s, Deliver(id)) && !Fetching(s.phase)
    ensures Since(Step(s, Deliver(id)), g, p, y', m)
  {
    ReceiveInv(s, id);
    y' := y;
    var body, resume := s.box.delivered[s.phase.id].body, s.phase.purpose.resume;
    if body.HandshakeBody? && resume.Some? {
      y' := GateStep(s.(client := Initialized(s.client, body.derived, s.now)), resume.value, id, g, p, y, m);
    }
  }

  /** A malformed reply makes room for one fetch that a half-open breaker lets by. */
  lemma MalformedStep(s: Sys, id: Id, g: nat, p: nat, y: Tally, m: nat)
    requires Since(s, g, p, y, m) && Enabled(s, Deliver(id)) && Malformed(s, Deliver(id))
    ensures Since(Step(s, Deliver(id)), g, p, y, m + 1)
  {
    ReceiveInv(s, id);
  }

  lemma PruneStep(s: Sys, g: nat, p: nat, y: Tally, m: nat)
    requires Since(s, g, p, y, m) && Enabled(s, Prune)
    ensures Since(Step(s, Prune), g, p, y, m)
  {
    PruneInv(s);
  }

  /** The steps that touch neither breaker nor gates nor POSTs. */
  lemma QuietStep(s: Sys, e: Event, g: nat, p: nat, y: Tally, m: nat)
    requires Since(s, g, p, y, m) && Enabled(s, e)
    requires !e.CallGetKey? && !e.Deliver? && !e.Wake? && !e.Prune?
    ensures Since(Step(s, e), g, p, y, m)
  {
    StepInv(s, e);
    if e.ChannelDropped? {
      assert false;
    }
  }

  lemma RateStep(s: Sys, e: Event, g: nat, p: nat, y: Tally, m: nat) returns (y': Tally)
    requires Since(s, g, p, y, m) && Enabled(s, e) && !Succeeds(s, e)
    ensures Since(Step(s, e), g, p, y', m + if Malformed(s, e) then 1 else 0)
  {
    y' := y;
    match e
    case CallGetKey(uri, id) => y' := CallStep(s, uri, id, g, p, y, m);
    case Deliver(id) =>
      if Malformed(s, e) {
        MalformedStep(s, id, g, p, y, m);
      } else {
        y' := HandshakeStep(s, id, g, p, y, m);
      }
    case Wake(id) => y' := WakeStep(s, id, g, p, y, m);
    case Prune => PruneStep(s, g, p, y, m);
    case _ => QuietStep(s, e, g, p, y, m);
  }

  lemma {:induction false} RateRun(s: Sys, es: seq<Event>, g: nat, p: nat, y: Tally, m: nat) returns (y': Tally)
    requires Since(s, g, p, y, m) && IsRun(s, es) && NoSuccess(s, es)
    ensures Since(After(s, es), g, p, y', m + MalformedCount(s, es))
    decreases |es|
  {
    y' := y;
    if es != [] {
      y' := RateStep(s, es[0], g, p, y, m);
      y' := RateRun(Step(s, es[0]), es[1..], g, p, y', m + if Malformed(s, es[0]) then 1 else 0);
    }
  }

  /**
   * From any reachable state with the breaker open, as long as no fetch succeeds: a
   * window of length T sees at most floor(T / 30s) + 1 + M fetches past the gate and
   * twice as many retrieve POSTs, where M counts the malformed replies.
   */
  lemma RateWithoutSuccess(s: Sys, es: seq<Event>, w: nat, T: nat)
    requires Inv(s) && s.client.cb.Open? && IsRun(s, es) && NoSuccess(s, es)
    ensures |After(s, es).gates| >= |s.gates| && |After(s, es).posts| >= |s.posts|
    ensures CountIn(After(s, es).gates[|s.gates|..], w, T) <= T / COOLDOWN + 1 + MalformedCount(s, es)
    ensures CountIn(After(s, es).posts[|s.posts|..], w, T) <= 2 * (T / COOLDOWN + 1 + MalformedCount(s, es))
  {
    var y := Tally([], [], 0, 0);
    assert s.gates[|s.gates|..] == [] && s.posts[|s.posts|..] == [];
    y := RateRun(s, es, |s.gates|, |s.posts|, y, 0);
    WindowBound(y.gates, 1, w, T);
    WindowBound(y.posts, 2, w, T);
  }

  /** Every fetch that passed the gate fails in its send: it never gets a reply. */
  ghost predicate OutageRun(s: Sys, es: seq<Event>)
    requires IsRun(s, es)
    decreases |es|
  {
    es == [] || (!Answers(s, es[0]) && OutageRun(Step(s, es[0]), es[1..]))
  }

  lemma {:induction false} OutageHasNoReply(s: Sys, es: seq<Event>)
    requires IsRun(s, es) && OutageRun(s, es)
    ensures NoSuccess(s, es) && MalformedCount(s, es) == 0
    decreases |es|
  {
    if es != [] {
      OutageHasNoReply(Step(s, es[0]), es[1..]);
    }
  }

  /** The outage proper: floor(T / 30s) + 1 fetches past the gate and twice as many retrieve POSTs. */
  lemma OutageRate(s: Sys, es: seq<Event>, w: nat, T: nat)
    requires Inv(s) && s.client.cb.Open? && IsRun(s, es) && OutageRun(s, es)
    ensures |After(s, es).gates| >= |s.gates| && |After(s, es).posts| >= |s.posts|
    ensures CountIn(After(s, es).gates[|s.gates|..], w, T) <= T / COOLDOWN + 1
    ensures CountIn(After(s, es).posts[|s.posts|..], w, T) <= 2 * (T / COOLDOWN + 1)
  {
    OutageHasNoReply(s, es);
    RateWithoutSuccess(s, es, w, T);
  }
}
