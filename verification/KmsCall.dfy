/**
 * A `get_key` call of the protocol, taken from call to return, is the whole-call
 * function that the client's own method is proved against: whatever happens
 * between its steps amounts to clock readings, a handshake outcome and an
 * outcome for each send.
 */
module KmsCall {
  import opened Common
  import opened Kms
  import opened KmsProtocol

  /** The call in `s` is still running before each event of `es` and has returned after them. */
  ghost predicate Returns(s: Sys, es: seq<Event>)
    requires IsRun(s, es)
    decreases |es|
  {
    if s.phase.Idle? then es == [] else es != [] && Returns(Step(s, es[0]), es[1..])
  }

  /** The URI a suspended `get_key` asks for. */
  function Wanted(ph: Phase): Option<Uri> {
    match ph
    case Idle => None
    case Details(resume) => resume
    case Sleeping(uri, _, _) => Some(uri)
    case _ => if ph.purpose.Handshake? then ph.purpose.resume else Some(ph.purpose.uri)
  }

  /** What remains of a call that waits for its handshake. */
  function AfterHandshake(c: Client, uri: Uri, env: CallEnv): (Client, Result<Key, KmsError>) {
    if env.handshake.Err? then (c, Err(env.handshake.error))
    else
      var (c2, n) := Gate(Initialized(c, env.handshake.value, env.gated), env.gated);
      if n.Return? then (c2, n.result) else Attempts(c2, uri, 1, env)
  }

  /** What remains of a suspended call. */
  function Rest(s: Sys, env: CallEnv): (Client, Result<Key, KmsError>)
    requires Wanted(s.phase).Some? && (Fetching(s.phase) ==> AttemptOf(s.phase) <= MAX_ATTEMPTS)
    requires s.phase.Sleeping? ==> s.phase.attempt < MAX_ATTEMPTS
  {
    var uri := Wanted(s.phase).value;
    if !Fetching(s.phase) then AfterHandshake(s.client, uri, env)
    else if s.phase.Sleeping? then Attempts(s.client, uri, s.phase.attempt + 1, env)
    else Attempts(s.client, uri, AttemptOf(s.phase), env)
  }

  /** `env` with the outcome of send `a` set. */
  function WithSend(env: CallEnv, a: nat, o: SendOutcome): CallEnv {
    env.(sends := (k: nat) => if k == a then o else env.sends(k))
  }

  /** The second attempt looks at no other outcome. */
  lemma SecondAttempt(c: Client, uri: Uri, env: CallEnv, o: SendOutcome)
    ensures Attempts(c, uri, 2, WithSend(env, 1, o)) == Attempts(c, uri, 2, env)
  {
  }

  /** Nothing that was delivered is lost, and the clock has not gone back. */
  ghost predicate Later(s: Sys, u: Sys) {
    s.now <= u.now && forall id :: id in s.box.delivered ==> id in u.box.delivered && u.box.delivered[id] == s.box.delivered[id]
  }

  lemma StepLater(s: Sys, e: Event)
    requires Inv(s) && Enabled(s, e)
    ensures Later(s, Step(s, e))
  {
    if e.Batch? {
      RouteOne(s.box, e.msgs);
    }
  }

  lemma {:induction false} RunLater(s: Sys, es: seq<Event>)
    requires Inv(s) && IsRun(s, es)
    ensures Later(s, After(s, es))
    decreases |es|
  {
    if es != [] {
      StepInv(s, es[0]);
      StepLater(s, es[0]);
      RunLater(Step(s, es[0]), es[1..]);
    }
  }

  /** Some reply with this body was delivered. */
  ghost predicate HasBody(u: Sys, b: Body) {
    exists id :: id in u.box.delivered && u.box.delivered[id].body == b
  }

  /** The outcome is a delivered reply, or a failure at a time of the call, a timeout 30 seconds into it at the earliest. */
  ghost predicate OutcomeIn(o: SendOutcome, lo: nat, u: Sys) {
    match o
    case Replied(body) => HasBody(u, body)
    case Failed(e, at) => lo <= at <= u.now && (e.TimedOut? ==> at >= lo + 30_000)
  }

  /** The send under way began after `lo`, and timed out only after its 30 seconds. */
  ghost predicate Timely(s: Sys, lo: nat) {
    && lo <= s.now
    && (s.phase.Waiting? ==> lo <= s.phase.since)
    && (s.phase.Pruning? && s.phase.error.TimedOut? ==> lo + 30_000 <= s.now)
  }

  lemma StepTimely(s: Sys, e: Event, lo: nat)
    requires Inv(s) && Enabled(s, e) && Timely(s, lo)
    ensures Timely(Step(s, e), lo)
  {
  }

  /** All that `env` says happened between time `lo` and state `u`. */
  ghost predicate Grounded(env: CallEnv, lo: nat, u: Sys) {
    && lo <= env.entered <= u.now && lo <= env.gated <= u.now
    && (env.handshake.Ok? ==> HasBody(u, HandshakeBody(env.handshake.value)))
    && forall k: nat :: OutcomeIn(env.sends(k), lo, u)
  }

  lemma GroundedSend(env: CallEnv, a: nat, o: SendOutcome, lo: nat, u: Sys)
    requires Grounded(env, lo, u) && OutcomeIn(o, lo, u)
    ensures Grounded(WithSend(env, a, o), lo, u)
  {
    forall k: nat
      ensures OutcomeIn(WithSend(env, a, o).sends(k), lo, u)
    {
      assert OutcomeIn(env.sends(k), lo, u);
    }
  }

  /** The return that ended the call, if it has ended. */
  ghost predicate Answered(s: Sys, t: Sys, uri: Uri, answer: (Client, Result<Key, KmsError>)) {
    t.client == answer.0 && t.out == s.out + [Returned(uri, answer.1)]
  }

  /** How an environment `env` of the rest of the call extends back over one step. */
  ghost predicate StepsTo(s: Sys, e: Event, env: CallEnv, env': CallEnv)
    requires Inv(s) && Enabled(s, e) && Wanted(s.phase).Some?
  {
    var t, uri := Step(s, e), Wanted(s.phase).value;
    if t.phase.Idle? then Answered(s, t, uri, Rest(s, env'))
    else Wanted(t.phase) == Some(uri) && t.out == s.out && Inv(t) && Rest(t, env) == Rest(s, env')
  }

  lemma QuietStep(s: Sys, e: Event, env: CallEnv, lo: nat, u: Sys) returns (env': CallEnv)
    requires Inv(s) && Enabled(s, e) && Wanted(s.phase).Some?
    requires e.DetailsFail? || e.DetailsOk? || e.PostOk? || e.PostFail? || e.Batch? || e.Timeout? || e.Tick?
    requires Grounded(env, lo, u) && Timely(s, lo) && Later(s, u)
    ensures StepsTo(s, e, env, env') && Grounded(env', lo, u)
  {
    StepInv(s, e);
    env' := if e.DetailsFail? then env.(handshake := Err(HandshakeFailed)) else env;
  }

  lemma HandshakeStep(s: Sys, id: Id, env: CallEnv, lo: nat, u: Sys) returns (env': CallEnv)
    requires Inv(s) && Enabled(s, Deliver(id)) && Wanted(s.phase).Some? && s.phase.purpose.Handshake?
    requires Grounded(env, lo, u) && Timely(s, lo) && Later(s, u)
    ensures StepsTo(s, Deliver(id), env, env') && Grounded(env', lo, u)
  {
    StepInv(s, Deliver(id));
    var body := s.box.delivered[s.phase.id].body;
    env' := env.(handshake := if body.HandshakeBody? then Ok(body.derived) else Err(BadReply(body)), gated := s.now);
  }

  lemma ReplyStep(s: Sys, id: Id, env: CallEnv, lo: nat, u: Sys) returns (env': CallEnv)
    requires Inv(s) && Enabled(s, Deliver(id)) && Wanted(s.phase).Some? && s.phase.purpose.Retrieve?
    requires Grounded(env, lo, u) && Timely(s, lo) && Later(s, u)
    ensures StepsTo(s, Deliver(id), env, env') && Grounded(env', lo, u)
  {
    StepInv(s, Deliver(id));
    var body, a := s.box.delivered[s.phase.id].body, s.phase.purpose.attempt;
    env' := WithSend(env, a, Replied(body));
    GroundedSend(env, a, Replied(body), lo, u);
  }

  lemma PruneStep(s: Sys, env: CallEnv, lo: nat, u: Sys) returns (env': CallEnv)
    requires Inv(s) && Enabled(s, Prune) && Wanted(s.phase).Some?
    requires Grounded(env, lo, u) && Timely(s, lo) && Later(s, u)
    ensures StepsTo(s, Prune, env, env') && Grounded(env', lo, u)
  {
    StepInv(s, Prune);
    match s.phase.purpose
    case Handshake(_) =>
      env' := env.(handshake := Err(s.phase.error));
    case Retrieve(uri, a) =>
      env' := WithSend(env, a, Failed(s.phase.error, s.now));
      GroundedSend(env, a, Failed(s.phase.error, s.now), lo, u);
      SecondAttempt(s.client, uri, env, Failed(s.phase.error, s.now));
  }

  lemma WakeStep(s: Sys, id: Id, env: CallEnv)
    requires Inv(s) && Enabled(s, Wake(id)) && Wanted(s.phase).Some?
    ensures StepsTo(s, Wake(id), env, env)
  {
    StepInv(s, Wake(id));
  }

  lemma BackStep(s: Sys, e: Event, env: CallEnv, lo: nat, u: Sys) returns (env': CallEnv)
    requires Inv(s) && Enabled(s, e) && Wanted(s.phase).Some?
    requires Grounded(env, lo, u) && Timely(s, lo) && Later(s, u)
    ensures StepsTo(s, e, env, env') && Grounded(env', lo, u)
  {
    match e
    case Deliver(id) =>
      if s.phase.purpose.Handshake? {
        env' := HandshakeStep(s, id, env, lo, u);
      } else {
        env' := ReplyStep(s, id, env, lo, u);
      }
    case Prune => env' := PruneStep(s, env, lo, u);
    case Wake(id) =>
      WakeStep(s, id, env);
      env' := env;
    case ChannelDropped => assert false;
    case _ => env' := QuietStep(s, e, env, lo, u);
  }

  /** A suspended call that returns has some environment that explains the rest of it. */
  lemma {:induction false} RestExplained(s: Sys, es: seq<Event>, any: CallEnv, lo: nat) returns (env: CallEnv)
    requires Inv(s) && Wanted(s.phase).Some? && IsRun(s, es) && Returns(s, es)
    requires Grounded(any, lo, After(s, es)) && Timely(s, lo)
    ensures Answered(s, After(s, es), Wanted(s.phase).value, Rest(s, env))
    ensures Grounded(env, lo, After(s, es))
    decreases |es|
  {
    RunLater(s, es);
    StepInv(s, es[0]);
    StepLater(s, es[0]);
    StepTimely(s, es[0], lo);
    var t := Step(s, es[0]);
    env := any;
    if t.phase.Idle? {
      assert After(s, es) == t;
    } else {
      env := BackStep(s, es[0], any, lo, After(s, es));   // the call still wants the same key
      env := RestExplained(t, es[1..], any, lo);
    }
    env := BackStep(s, es[0], env, lo, After(s, es));
  }

  /** What a call that may still have to wait will answer, seen right after it was made. */
  lemma Started(s: Sys, uri: Uri, id: Id, env: CallEnv)
    requires Inv(s) && Enabled(s, CallGetKey(uri, id)) && env.entered == s.now
    ensures var t, s1 := Step(s, CallGetKey(uri, id)), s.(out := s.out + [Called(uri)]);
            Inv(t) &&
            if t.phase.Idle? then Answered(s1, t, uri, GetKeySpec(s.client, uri, env))
            else Wanted(t.phase) == Some(uri) && t.out == s1.out && Rest(t, env) == GetKeySpec(s.client, uri, env)
  {
    StepInv(s, CallGetKey(uri, id));
  }

  lemma EnteredIsPast(s: Sys, env: CallEnv, t: nat)
    requires Inv(s) && Wanted(s.phase).Some?
    ensures Rest(s, env.(entered := t)) == Rest(s, env)
  {
    if Fetching(s.phase) {
      EnteredUnused(s.client, Wanted(s.phase).value, if s.phase.Sleeping? then s.phase.attempt + 1 else AttemptOf(s.phase), env, t);
    } else if env.handshake.Ok? {
      var c := Gate(Initialized(s.client, env.handshake.value, env.gated), env.gated).0;
      EnteredUnused(c, Wanted(s.phase).value, 1, env, t);
    }
  }

  lemma EnteredUnused(c: Client, uri: Uri, a: nat, env: CallEnv, t: nat)
    requires 1 <= a <= MAX_ATTEMPTS
    ensures Attempts(c, uri, a, env.(entered := t)) == Attempts(c, uri, a, env)
  {
  }

  /**
   * Under every interleaving, a `get_key` call that returns leaves the client, and
   * gives the answer, that the whole-call function has for an environment of what
   * happened: entered at the call's own time, every other clock reading between call
   * and return, every timeout after 30 seconds, every reply one that was delivered.
   */
  lemma CallIsGetKey(s: Sys, uri: Uri, id: Id, es: seq<Event>)
    requires Inv(s) && Enabled(s, CallGetKey(uri, id))
    requires IsRun(Step(s, CallGetKey(uri, id)), es) && Returns(Step(s, CallGetKey(uri, id)), es)
    ensures exists env ::
              var t, answer := After(Step(s, CallGetKey(uri, id)), es), GetKeySpec(s.client, uri, env);
              && t.client == answer.0 && t.out == s.out + [Called(uri), Returned(uri, answer.1)]
              && env.entered == s.now && Grounded(env, s.now, t)
  {
    var t := Step(s, CallGetKey(uri, id));
    var u := After(t, es);
    StepInv(s, CallGetKey(uri, id));
    StepLater(s, CallGetKey(uri, id));
    StepTimely(s, CallGetKey(uri, id), s.now);
    RunLater(t, es);
    var env := CallEnv(s.now, Err(HandshakeFailed), s.now, (_: nat) => Failed(HttpFailed, s.now));
    Started(s, uri, id, env);
    if !t.phase.Idle? {
      env := RestExplained(t, es, env, s.now);
      EnteredIsPast(t, env, s.now);
      env := env.(entered := s.now);
      Started(s, uri, id, env);
    }
    var answer := GetKeySpec(s.client, uri, env);
    assert s.out + [Called(uri)] + [Returned(uri, answer.1)] == s.out + [Called(uri), Returned(uri, answer.1)];
  }
}
