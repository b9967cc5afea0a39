/**
 * Reconnection in go/mercury_socket.go as interleaved goroutines. Every step is
 * one critical section under `mu`, or one action outside any; between two steps
 * of a goroutine every other goroutine and timer may run.
 */
module MercuryGo {
  import opened Common

  type Tid = nat
  type TimerId = nat

  /** The fields guarded by `mu`; `slot` is the timer that `stabilityTimer` points to. */
  datatype Shared = Shared(reconnecting: bool, shouldReconnect: bool, attempts: nat, slot: Option<TimerId>)

  /** Where a goroutine stands: at the step it takes next. */
  datatype Pc =
    | TriggerEnter                         // triggerReconnect: test and set the flag
    | CloseSocket                          // flag set, closeWebSocket
    | LoopTop                              // read flag and counter
    | GiveUp                               // counter was at the maximum: clear shouldReconnect
    | NotifyGiveUp                         // onDisconnected("max-attempts-exceeded"), outside `mu`
    | Increment                            // counter was below the maximum
    | Reporting(attempt: int)              // onReconnecting(attempt), outside `mu`
    | Sleeping(attempt: int)
    | Recheck                              // after the sleep
    | Dialing                              // connectInternal inside the loop
    | Schedule                             // connected: scheduleAttemptsReset
    | Leave                                // the deferred clearing of the flag
    | ConnectSet | ConnectCancel | ConnectZero                 // an explicit Connect
    | CloseCancel(terminal: bool) | CloseDecide | CloseStop    // handleClose
    | DisconnectSet | DisconnectCancel                         // Disconnect
    | Finished

  /**
   * `armed` timers may still fire; `firing` ones have, and their callback waits for `mu`.
   * `taken` are the attempt numbers the increments yielded, `reported` those given to
   * onReconnecting, `gaveUp` counts the max-attempts-exceeded notices, `connects` the
   * Connect calls begun and `resets` how often a callback or a Connect zeroed the counter.
   */
  datatype Sys = Sys(
    shared: Shared,
    threads: map<Tid, Pc>,
    armed: set<TimerId>,
    firing: set<TimerId>,
    nextTimer: TimerId,
    taken: seq<int>,
    reported: seq<int>,
    gaveUp: nat,
    connects: nat,
    resets: nat
  )

  datatype Event =
    | Spawn(t: Tid, start: Pc)
    | Run(t: Tid, dialed: bool)
    | Fire(id: TimerId)
    | Callback(id: TimerId)

  predicate EntryPoint(pc: Pc) {
    pc.TriggerEnter? || pc.ConnectSet? || pc.CloseCancel? || pc.DisconnectSet?
  }

  /** `timer.Stop()`: it cannot recall a callback that is already waiting. */
  function Stop(s: Sys): Sys {
    if s.shared.slot.Some? then s.(armed := s.armed - {s.shared.slot.value}) else s
  }

  function Cancel(s: Sys): Sys {
    Stop(s).(shared := s.shared.(slot := None))
  }

  function Arm(s: Sys): Sys {
    Stop(s).(shared := s.shared.(slot := Some(s.nextTimer)),
             armed := Stop(s).armed + {s.nextTimer}, nextTimer := s.nextTimer + 1)
  }

  predicate Enabled(s: Sys, e: Event) {
    match e
    case Spawn(t, start) => t !in s.threads && EntryPoint(start)
    case Run(t, _) => t in s.threads && !s.threads[t].Finished?
    case Fire(id) => id in s.armed
    case Callback(id) => id in s.firing
  }

  function At(s: Sys, t: Tid, pc: Pc): Sys {
    s.(threads := s.threads[t := pc])
  }

  /** One step of goroutine `t`; `max` is maxReconnectAttempts, `dialed` how a dial ends. */
  function Advance(max: int, s: Sys, t: Tid, dialed: bool): Sys
    requires t in s.threads && !s.threads[t].Finished?
  {
    var sh := s.shared;
    match s.threads[t]
    case TriggerEnter =>
      if sh.reconnecting || !sh.shouldReconnect then At(s, t, Finished)
      else At(s.(shared := sh.(reconnecting := true)), t, CloseSocket)
    case CloseSocket => At(s, t, LoopTop)
    case LoopTop =>
      if !sh.shouldReconnect then At(s, t, Leave)
      else if sh.attempts >= max then At(s, t, GiveUp)
      else At(s, t, Increment)
    case GiveUp => At(s.(shared := sh.(shouldReconnect := false)), t, NotifyGiveUp)
    case NotifyGiveUp => At(s.(gaveUp := s.gaveUp + 1), t, Leave)
    case Increment =>
      At(s.(shared := sh.(attempts := sh.attempts + 1), taken := s.taken + [sh.attempts + 1]), t, Reporting(sh.attempts + 1))
    case Reporting(attempt) => At(s.(reported := s.reported + [attempt]), t, Sleeping(attempt))
    case Sleeping(_) => At(s, t, Recheck)
    case Recheck => At(s, t, if sh.shouldReconnect then Dialing else Leave)
    case Dialing => At(s, t, if dialed then Schedule else LoopTop)
    case Schedule => At(Arm(s), t, Leave)
    case Leave => At(s.(shared := sh.(reconnecting := false)), t, Finished)
    case ConnectSet => At(s.(shared := sh.(shouldReconnect := true), connects := s.connects + 1), t, ConnectCancel)
    case ConnectCancel => At(Cancel(s), t, ConnectZero)
    case ConnectZero => At(s.(shared := sh.(attempts := 0), resets := s.resets + 1), t, Finished)
    case CloseCancel(terminal) => At(Cancel(s), t, if terminal then CloseStop else CloseDecide)
    case CloseStop => At(s.(shared := sh.(shouldReconnect := false)), t, Finished)
    case CloseDecide => At(s, t, if sh.shouldReconnect then TriggerEnter else Finished)
    case DisconnectSet => At(s.(shared := sh.(shouldReconnect := false)), t, DisconnectCancel)
    case DisconnectCancel => At(Cancel(s), t, Finished)
  }

  function Step(max: int, s: Sys, e: Event): Sys
    requires Enabled(s, e)
  {
    match e
    case Spawn(t, start) => At(s, t, start)
    case Run(t, dialed) => Advance(max, s, t, dialed)
    case Fire(id) => s.(armed := s.armed - {id}, firing := s.firing + {id})
    case Callback(id) => s.(firing := s.firing - {id}, resets := s.resets + 1, shared := s.shared.(slot := None, attempts := 0))
  }

  ghost predicate IsRun(max: int, s: Sys, es: seq<Event>)
    decreases |es|
  {
    es == [] || (Enabled(s, es[0]) && IsRun(max, Step(max, s, es[0]), es[1..]))
  }

  ghost function After(max: int, s: Sys, es: seq<Event>): Sys
    requires IsRun(max, s, es)
    decreases |es|
  {
    if es == [] then s else After(max, Step(max, s, es[0]), es[1..])
  }

  const START: Sys := Sys(Shared(false, false, 0, None), map[], {}, {}, 0, [], [], 0, 0, 0)

  // ---- The guard ----

  /** Between setting the flag and clearing it. */
  predicate Inside(pc: Pc) {
    match pc
    case CloseSocket => true
    case LoopTop => true
    case GiveUp => true
    case NotifyGiveUp => true
    case Increment => true
    case Reporting(_) => true
    case Sleeping(_) => true
    case Recheck => true
    case Dialing => true
    case Schedule => true
    case Leave => true
    case _ => false
  }

  ghost predicate InsideAt(s: Sys, t: Tid) {
    t in s.threads && Inside(s.threads[t])
  }

  /** The flag is up exactly while one goroutine is inside, and never two are. */
  ghost predicate GuardInv(s: Sys) {
    && (forall t, u :: InsideAt(s, t) && InsideAt(s, u) ==> t == u)
    && (s.shared.reconnecting <==> exists t :: InsideAt(s, t))
  }

  /** A goroutine past its cap check still finds the counter below the maximum. */
  ghost predicate CapInv(max: int, s: Sys) {
    && (s.shared.attempts == 0 || s.shared.attempts <= max)
    && (forall t :: t in s.threads && s.threads[t].Increment? ==> s.shared.attempts < max)
    && (forall i :: 0 <= i < |s.taken| ==> 1 <= s.taken[i] <= max)
  }

  /** Every number taken was reported, in order, but for one that a goroutine is about to report. */
  ghost predicate ReportInv(s: Sys) {
    && (forall t :: t in s.threads && s.threads[t].Reporting? ==> s.taken == s.reported + [s.threads[t].attempt])
    && (s.taken == s.reported || exists t :: ReportingAt(s, t))
  }

  ghost predicate ReportingAt(s: Sys, t: Tid) {
    t in s.threads && s.threads[t].Reporting?
  }

  ghost predicate Inv(max: int, s: Sys) {
    GuardInv(s) && CapInv(max, s) && ReportInv(s)
  }

  lemma AdvanceGuard(max: int, s: Sys, t: Tid, dialed: bool)
    requires GuardInv(s) && t in s.threads && !s.threads[t].Finished?
    ensures GuardInv(Advance(max, s, t, dialed))
  {
    var s' := Advance(max, s, t, dialed);
    assert forall u :: u != t ==> (InsideAt(s', u) <==> InsideAt(s, u));
    assert InsideAt(s', t) ==> InsideAt(s, t) || (s.threads[t].TriggerEnter? && !s.shared.reconnecting);
    forall a, b | InsideAt(s', a) && InsideAt(s', b)
      ensures a == b
    {
      assert a != t ==> InsideAt(s, a);
      assert b != t ==> InsideAt(s, b);
    }
    if s'.shared.reconnecting {
      var u := if InsideAt(s', t) then t else FindInside(s);
      assert InsideAt(s', u);
    } else if s.threads[t].Leave? {
      assert InsideAt(s, t);
    }
  }

  ghost function FindInside(s: Sys): (u: Tid)
    requires exists u :: InsideAt(s, u)
    ensures InsideAt(s, u)
  {
    var u :| InsideAt(s, u); u
  }

  lemma AdvanceCap(max: int, s: Sys, t: Tid, dialed: bool)
    requires Inv(max, s) && t in s.threads && !s.threads[t].Finished?
    ensures CapInv(max, Advance(max, s, t, dialed))
  {
    var s' := Advance(max, s, t, dialed);
    if s.threads[t].Increment? {
      // The only goroutine that increments is the one inside.
      assert InsideAt(s, t);
      assert forall u :: InsideAt(s, u) ==> u == t;
      assert forall u :: u in s'.threads && s'.threads[u].Increment? ==> InsideAt(s, u);
    }
  }

  /** Whoever reports is the one inside. */
  lemma OneReports(s: Sys, t: Tid, u: Tid)
    requires GuardInv(s) && InsideAt(s, t) && ReportingAt(s, u)
    ensures t == u
  {
    assert InsideAt(s, u);
  }

  lemma IncrementReports(max: int, s: Sys, t: Tid, dialed: bool)
    requires GuardInv(s) && ReportInv(s) && t in s.threads && s.threads[t].Increment?
    ensures ReportInv(Advance(max, s, t, dialed))
  {
    var s' := Advance(max, s, t, dialed);
    assert InsideAt(s, t);
    forall u | ReportingAt(s, u)
      ensures false
    {
      OneReports(s, t, u);
    }
    assert s.taken == s.reported;
    assert ReportingAt(s', t);
    assert forall u :: u != t ==> (ReportingAt(s', u) <==> ReportingAt(s, u));
  }

  lemma ReportReports(max: int, s: Sys, t: Tid, dialed: bool)
    requires GuardInv(s) && ReportInv(s) && ReportingAt(s, t)
    ensures ReportInv(Advance(max, s, t, dialed))
  {
    var s' := Advance(max, s, t, dialed);
    forall u | ReportingAt(s', u)
      ensures false
    {
      assert ReportingAt(s, u) && InsideAt(s, t);
      OneReports(s, t, u);
    }
    assert forall u :: u in s'.threads && s'.threads[u].Reporting? ==> ReportingAt(s', u);
  }

  /** The other steps neither take nor report a number. */
  lemma OtherReports(max: int, s: Sys, t: Tid, dialed: bool)
    requires t in s.threads && !s.threads[t].Finished? && !s.threads[t].Increment? && !s.threads[t].Reporting?
    ensures var s' := Advance(max, s, t, dialed);
            && s'.taken == s.taken && s'.reported == s.reported
            && (exists pc: Pc :: !pc.Reporting? && s'.threads == s.threads[t := pc])
  {
    var pc := Advance(max, s, t, dialed).threads[t];
    assert !pc.Reporting?;
  }

  lemma AdvanceReports(max: int, s: Sys, t: Tid, dialed: bool)
    requires GuardInv(s) && ReportInv(s) && t in s.threads && !s.threads[t].Finished?
    ensures ReportInv(Advance(max, s, t, dialed))
  {
    if s.threads[t].Increment? {
      IncrementReports(max, s, t, dialed);
    } else if s.threads[t].Reporting? {
      ReportReports(max, s, t, dialed);
    } else {
      OtherReports(max, s, t, dialed);
      var s' := Advance(max, s, t, dialed);
      assert forall u :: ReportingAt(s', u) <==> ReportingAt(s, u);
    }
  }

  /** The last `k` numbers are 1..k, and each reset forgives at most `max` of them. */
  ghost predicate Numbered(max: int, k: nat, taken: seq<int>, resets: nat) {
    var n := |taken|;
    && k <= n
    && (forall i :: n - k <= i < n ==> taken[i] == i - (n - k) + 1)
    && (max >= 0 ==> n - k <= max * resets)
  }

  ghost predicate NumberInv(max: int, s: Sys) {
    Numbered(max, s.shared.attempts, s.taken, s.resets)
  }

  lemma ResetNumbers(max: int, k: nat, taken: seq<int>, resets: nat)
    requires Numbered(max, k, taken, resets) && (k == 0 || k <= max)
    ensures Numbered(max, 0, taken, resets + 1)
    ensures max >= 0 ==> |taken| <= max * (resets + 1)
  {
    assert max * (resets + 1) == max * resets + max;
  }

  lemma IncrementNumbers(max: int, k: nat, taken: seq<int>, resets: nat)
    requires Numbered(max, k, taken, resets)
    ensures Numbered(max, k + 1, taken + [k + 1], resets)
  {
  }

  /** A step increments and takes a number, resets, or leaves the numbers alone. */
  ghost predicate CountsLike(s: Sys, t: Sys) {
    var k := s.shared.attempts;
    || (t.shared.attempts == k && t.taken == s.taken && t.resets == s.resets)
    || (t.shared.attempts == k + 1 && t.taken == s.taken + [k + 1] && t.resets == s.resets)
    || (t.shared.attempts == 0 && t.taken == s.taken && t.resets == s.resets + 1)
  }

  lemma AdvanceKinds(max: int, s: Sys, t: Tid, dialed: bool)
    requires t in s.threads && !s.threads[t].Finished?
    ensures CountsLike(s, Advance(max, s, t, dialed))
  {
    match s.threads[t]
    case Increment =>
    case ConnectZero =>
    case _ =>
  }

  lemma StepKinds(max: int, s: Sys, e: Event)
    requires Enabled(s, e)
    ensures CountsLike(s, Step(max, s, e))
  {
    if e.Run? {
      AdvanceKinds(max, s, e.t, e.dialed);
    }
  }

  lemma StepNumbers(max: int, s: Sys, e: Event)
    requires CapInv(max, s) && NumberInv(max, s) && Enabled(s, e)
    ensures NumberInv(max, Step(max, s, e))
  {
    StepKinds(max, s, e);
    ResetNumbers(max, s.shared.attempts, s.taken, s.resets);
    IncrementNumbers(max, s.shared.attempts, s.taken, s.resets);
  }

  lemma StepInv(max: int, s: Sys, e: Event)
    requires Inv(max, s) && Enabled(s, e)
    ensures Inv(max, Step(max, s, e))
  {
    match e
    case Spawn(t, start) =>
      assert forall u :: InsideAt(Step(max, s, e), u) <==> InsideAt(s, u);
      assert forall u :: ReportingAt(Step(max, s, e), u) <==> ReportingAt(s, u);
    case Run(t, dialed) =>
      AdvanceGuard(max, s, t, dialed);
      AdvanceCap(max, s, t, dialed);
      AdvanceReports(max, s, t, dialed);
    case _ =>
      assert forall u :: InsideAt(Step(max, s, e), u) <==> InsideAt(s, u);
      assert forall u :: ReportingAt(Step(max, s, e), u) <==> ReportingAt(s, u);
  }

  lemma {:induction false} RunInv(max: int, s: Sys, es: seq<Event>)
    requires Inv(max, s) && NumberInv(max, s) && IsRun(max, s, es)
    ensures Inv(max, After(max, s, es)) && NumberInv(max, After(max, s, es))
    decreases |es|
  {
    if es != [] {
      StepInv(max, s, es[0]);
      StepNumbers(max, s, es[0]);
      RunInv(max, Step(max, s, es[0]), es[1..]);
    }
  }

  /**
   * Under every interleaving: at most one goroutine is in the reconnect loop, the
   * counter stays within the maximum, the attempt numbers taken since the last reset
   * are 1,2,3,..., every number reported is in 1..max, the reports are the numbers
   * taken, in order and at most one behind, and r resets allow at most max * (r + 1).
   */
  lemma GuardedLoop(max: int, es: seq<Event>)
    requires IsRun(max, START, es)
    ensures var t := After(max, START, es);
            && (forall a, b :: InsideAt(t, a) && InsideAt(t, b) ==> a == b)
            && (t.shared.attempts == 0 || t.shared.attempts <= max)
            && (forall i :: 0 <= i < |t.reported| ==> 1 <= t.reported[i] <= max)
            && Numbered(max, t.shared.attempts, t.taken, t.resets)
            && t.reported <= t.taken && |t.taken| <= |t.reported| + 1
            && (max >= 0 ==> |t.taken| <= max * (t.resets + 1))
  {
    RunInv(max, START, es);
    var t := After(max, START, es);
    ResetNumbers(max, t.shared.attempts, t.taken, t.resets);
    if t.taken != t.reported {
      var u :| ReportingAt(t, u);
      assert t.taken == t.reported + [t.threads[u].attempt];
    }
    assert forall i :: 0 <= i < |t.reported| ==> t.reported[i] == t.taken[i];
  }

  lemma {:induction false} Then(max: int, s: Sys, es: seq<Event>, e: Event)
    requires IsRun(max, s, es) && Enabled(After(max, s, es), e)
    ensures IsRun(max, s, es + [e]) && After(max, s, es + [e]) == Step(max, After(max, s, es), e)
    decreases |es|
  {
    if es == [] {
      assert IsRun(max, Step(max, s, e), []) && (es + [e])[1..] == [];
    } else {
      assert (es + [e])[1..] == es[1..] + [e];
      Then(max, Step(max, s, es[0]), es[1..], e);
    }
  }

  // ---- What a give-up notice means ----

  ghost predicate GivingUpAt(s: Sys, t: Tid) {
    t in s.threads && (s.threads[t].GiveUp? || s.threads[t].NotifyGiveUp?)
  }

  /** A goroutine has found the counter at its maximum and not yet cleared shouldReconnect. */
  ghost predicate AboutToGiveUp(s: Sys) {
    exists t :: GiveUpAt(s, t)
  }

  ghost predicate GiveUpAt(s: Sys, t: Tid) {
    t in s.threads && s.threads[t].GiveUp?
  }

  /** The notices given, the one being given, and the one that shouldReconnect still allows. */
  ghost function NoticesDue(s: Sys): nat {
    s.gaveUp + (if exists t :: GivingUpAt(s, t) then 1 else 0) + (if s.shared.shouldReconnect && !AboutToGiveUp(s) then 1 else 0)
  }

  /** Each notice has a Connect of its own, and comes after a whole maximum of attempts. */
  ghost predicate NoticeInv(max: int, s: Sys) {
    && NoticesDue(s) <= s.connects
    && (s.gaveUp > 0 || (exists t :: GivingUpAt(s, t)) ==> |s.taken| >= max)
  }

  /** A step of `t` that leaves everyone else where they are. */
  lemma OthersStay(max: int, s: Sys, t: Tid, dialed: bool)
    requires t in s.threads && !s.threads[t].Finished?
    ensures var s' := Advance(max, s, t, dialed);
            && t in s'.threads && s'.threads == s.threads[t := s'.threads[t]]
            && forall u :: u != t ==> (GivingUpAt(s', u) <==> GivingUpAt(s, u))
  {
  }

  /** The goroutine inside takes the give-up branch, clears the flag or gives the notice. */
  lemma GiveUpNotices(max: int, s: Sys, t: Tid, dialed: bool)
    requires GuardInv(s) && NumberInv(max, s) && NoticeInv(max, s) && InsideAt(s, t)
    requires s.threads[t].LoopTop? || s.threads[t].GiveUp? || s.threads[t].NotifyGiveUp?
    ensures NoticeInv(max, Advance(max, s, t, dialed))
  {
    var s' := Advance(max, s, t, dialed);
    OthersStay(max, s, t, dialed);
    forall u | GivingUpAt(s, u)
      ensures u == t
    {
      assert InsideAt(s, u);
    }
    forall u | GivingUpAt(s', u)
      ensures u == t
    {
      assert u != t ==> GivingUpAt(s, u);
    }
    assert s.threads[t].GiveUp? || s.threads[t].NotifyGiveUp? ==> GivingUpAt(s, t);
    assert forall u :: GiveUpAt(s, u) ==> GivingUpAt(s, u);
    assert forall u :: GiveUpAt(s', u) ==> GivingUpAt(s', u);
    assert GiveUpAt(s, t) <==> AboutToGiveUp(s);
    assert GiveUpAt(s', t) <==> AboutToGiveUp(s');
  }

  /** Nobody comes to give up or stops doing so. */
  ghost predicate GiveUpsStay(s: Sys, s': Sys) {
    && (forall u :: GivingUpAt(s', u) <==> GivingUpAt(s, u))
    && (AboutToGiveUp(s') <==> AboutToGiveUp(s))
    && s'.gaveUp == s.gaveUp && |s'.taken| >= |s.taken|
  }

  lemma OtherNotices(max: int, s: Sys, s': Sys)
    requires NoticeInv(max, s) && GiveUpsStay(s, s')
    requires s'.connects >= s.connects
    requires s'.shared.shouldReconnect ==> s.shared.shouldReconnect || s'.connects == s.connects + 1
    ensures NoticeInv(max, s')
  {
    assert (exists u :: GivingUpAt(s', u)) <==> (exists u :: GivingUpAt(s, u));
  }

  lemma OtherStepStays(max: int, s: Sys, t: Tid, dialed: bool)
    requires t in s.threads && !s.threads[t].Finished?
    requires !s.threads[t].LoopTop? && !s.threads[t].GiveUp? && !s.threads[t].NotifyGiveUp?
    ensures var s' := Advance(max, s, t, dialed);
            && GiveUpsStay(s, s') && s'.connects >= s.connects
            && (s'.shared.shouldReconnect ==> s.shared.shouldReconnect || s'.connects == s.connects + 1)
  {
    var s' := Advance(max, s, t, dialed);
    OthersStay(max, s, t, dialed);
    assert !GivingUpAt(s, t) && !GivingUpAt(s', t);
    assert forall u :: GiveUpAt(s', u) <==> GiveUpAt(s, u);
  }

  lemma StepNotices(max: int, s: Sys, e: Event)
    requires Inv(max, s) && NumberInv(max, s) && NoticeInv(max, s) && Enabled(s, e)
    ensures NoticeInv(max, Step(max, s, e))
  {
    if e.Run? && (s.threads[e.t].LoopTop? || s.threads[e.t].GiveUp? || s.threads[e.t].NotifyGiveUp?) {
      assert InsideAt(s, e.t);
      GiveUpNotices(max, s, e.t, e.dialed);
    } else {
      var s' := Step(max, s, e);
      if e.Run? {
        OtherStepStays(max, s, e.t, e.dialed);
      } else {
        assert forall u :: GiveUpAt(s', u) <==> GiveUpAt(s, u);
      }
      OtherNotices(max, s, s');
    }
  }

  lemma {:induction false} RunNotices(max: int, s: Sys, es: seq<Event>)
    requires Inv(max, s) && NumberInv(max, s) && NoticeInv(max, s) && IsRun(max, s, es)
    ensures NoticeInv(max, After(max, s, es))
    decreases |es|
  {
    if es != [] {
      StepInv(max, s, es[0]);
      StepNumbers(max, s, es[0]);
      StepNotices(max, s, es[0]);
      RunNotices(max, Step(max, s, es[0]), es[1..]);
    }
  }

  /** Under every interleaving there are no more give-up notices than Connect calls, and none before a maximum of attempts. */
  lemma NoticesNeedConnects(max: int, es: seq<Event>)
    requires IsRun(max, START, es)
    ensures var t := After(max, START, es); t.gaveUp <= t.connects && (t.gaveUp > 0 ==> |t.taken| >= max)
  {
    RunNotices(max, START, es);
  }

  // ---- Reports after a reset ----

  function OneTo(n: nat): seq<int> {
    seq(n, i => i + 1)
  }

  lemma OneMore(n: nat)
    ensures OneTo(n + 1) == OneTo(n) + [n + 1] && OneTo(0) == []
  {
  }

  /** Step `e` is a reset, and `es` a run after it without another. */
  ghost predicate ResetThen(max: int, s: Sys, e: Event, es: seq<Event>) {
    && Enabled(s, e) && Step(max, s, e).resets == s.resets + 1
    && IsRun(max, Step(max, s, e), es) && After(max, Step(max, s, e), es).resets == s.resets + 1
  }

  /** Nothing reported and no reset is undone. */
  ghost predicate ReportsGrow(s: Sys, t: Sys) {
    s.reported <= t.reported && s.resets <= t.resets
  }

  lemma StepGrows(max: int, s: Sys, e: Event)
    requires Enabled(s, e)
    ensures ReportsGrow(s, Step(max, s, e))
  {
  }

  lemma {:induction false} RunGrows(max: int, s: Sys, es: seq<Event>)
    requires IsRun(max, s, es)
    ensures ReportsGrow(s, After(max, s, es))
    decreases |es|
  {
    if es != [] {
      StepGrows(max, s, es[0]);
      RunGrows(max, Step(max, s, es[0]), es[1..]);
    }
  }

  /** Without a reset, the numbers taken go on from the counter. */
  lemma {:induction false} TakenOn(max: int, s: Sys, es: seq<Event>, base: seq<int>)
    requires Inv(max, s) && IsRun(max, s, es) && After(max, s, es).resets == s.resets
    requires s.taken == base + OneTo(s.shared.attempts)
    ensures Inv(max, After(max, s, es))
    ensures After(max, s, es).taken == base + OneTo(After(max, s, es).shared.attempts)
    decreases |es|
  {
    if es != [] {
      var t := Step(max, s, es[0]);
      StepInv(max, s, es[0]);
      StepKinds(max, s, es[0]);
      RunGrows(max, t, es[1..]);
      OneMore(s.shared.attempts);
      TakenOn(max, t, es[1..], base);
    }
  }

  /** What is taken but not reported is at most one number, and there is one iff a goroutine is about to report it. */
  lemma Unreported(s: Sys)
    requires ReportInv(s)
    ensures s.reported <= s.taken && |s.taken| <= |s.reported| + 1
    ensures s.taken == s.reported <==> !exists u :: ReportingAt(s, u)
  {
    if s.taken != s.reported {
      var u :| ReportingAt(s, u);
      assert s.taken == s.reported + [s.threads[u].attempt];
    }
  }

  lemma SuffixOfPrefix(a: seq<int>, b: seq<int>, c: seq<int>)
    requires a <= b <= c
    ensures b[|a|..] <= c[|a|..]
  {
  }

  lemma SuffixOfSum(n: nat, a: seq<int>, b: seq<int>)
    requires n <= |a|
    ensures (a + b)[n..] == a[n..] + b
  {
  }

  /** The reports after a reset are what was then taken but not reported, and then 1,2,3,... up to the counter. */
  lemma ReportsAfterReset(max: int, s: Sys, e: Event, es: seq<Event>)
    requires Inv(max, s) && NumberInv(max, s) && ResetThen(max, s, e, es)
    ensures var t := After(max, Step(max, s, e), es);
            && s.reported <= s.taken && s.reported <= t.reported
            && t.reported[|s.reported|..] <= s.taken[|s.reported|..] + OneTo(t.shared.attempts)
            && (s.taken[|s.reported|..] == [] <==> !exists u :: ReportingAt(s, u))
  {
    var s1 := Step(max, s, e);
    var t := After(max, s1, es);
    StepKinds(max, s, e);
    StepInv(max, s, e);
    StepGrows(max, s, e);
    RunGrows(max, s1, es);
    OneMore(0);
    TakenOn(max, s1, es, s.taken);
    Unreported(s);
    Unreported(t);
    SuffixOfPrefix(s.reported, t.reported, t.taken);
    SuffixOfSum(|s.reported|, s.taken, OneTo(t.shared.attempts));
  }

  /** `xs` begins with `a` and then 1,2,3,...: it is 1,2,3,... itself iff `a` is nothing or all there is is a 1. */
  lemma LateFirst(xs: seq<int>, a: seq<int>, n: nat)
    requires |a| <= 1 && xs <= a + OneTo(n)
    ensures xs == OneTo(|xs|) <==> xs == [] || a == [] || xs == [1]
  {
    if a == [] {
      assert a + OneTo(n) == OneTo(n);
      assert xs == OneTo(|xs|);
    } else if |xs| == 1 {
      assert OneTo(1) == [1];
    } else if |xs| >= 2 {
      assert xs[1] == (a + OneTo(n))[1] == OneTo(n)[0];
      assert OneTo(|xs|)[1] == 2;
    }
  }

  /**
   * Once there are two, the reports after a reset are 1,2,3,... exactly if no goroutine
   * stood between its increment and its report when the reset came. Before that they
   * also are if there is none yet, or the only one is a 1.
   */
  lemma ReportsStartOverIff(max: int, s: Sys, e: Event, es: seq<Event>)
    requires Inv(max, s) && NumberInv(max, s) && ResetThen(max, s, e, es)
    ensures var t := After(max, Step(max, s, e), es);
            && s.reported <= t.reported
            && var xs := t.reported[|s.reported|..];
               && (|xs| >= 2 ==> (xs == OneTo(|xs|) <==> !exists u :: ReportingAt(s, u)))
               && (xs == OneTo(|xs|) <==> (!exists u :: ReportingAt(s, u)) || xs == [] || xs == [1])
  {
    ReportsAfterReset(max, s, e, es);
    var t := After(max, Step(max, s, e), es);
    Unreported(s);
    LateFirst(t.reported[|s.reported|..], s.taken[|s.reported|..], t.shared.attempts);
  }

  /** `es` leads from `s0` to `s`. */
  ghost predicate Reaches(max: int, s0: Sys, es: seq<Event>, s: Sys) {
    IsRun(max, s0, es) && After(max, s0, es) == s
  }

  lemma Go(max: int, s0: Sys, es: seq<Event>, s: Sys, e: Event) returns (es': seq<Event>, s': Sys)
    requires Reaches(max, s0, es, s) && Enabled(s, e)
    ensures Reaches(max, s0, es', s') && s' == Step(max, s, e)
  {
    Then(max, s0, es, e);
    es', s' := es + [e], Step(max, s, e);
  }

  /** A Connect has begun, and a goroutine has come to the top of the loop. */
  lemma EnteredRun(max: int) returns (es: seq<Event>, s: Sys)
    ensures Reaches(max, START, es, s)
    ensures s.threads == map[0 := ConnectCancel, 1 := LoopTop] && s.shared.shouldReconnect && s.shared.attempts == 0
    ensures s.reported == [] && s.resets == 0
  {
    es, s := Go(max, START, [], START, Spawn(0, ConnectSet));
    es, s := Go(max, START, es, s, Run(0, true));
    es, s := Go(max, START, es, s, Spawn(1, TriggerEnter));
    es, s := Go(max, START, es, s, Run(1, true));
    es, s := Go(max, START, es, s, Run(1, true));
  }

  /** It has taken its first number but not reported it. */
  lemma TakenRun(max: int) returns (es: seq<Event>, s: Sys)
    requires max >= 1
    ensures Reaches(max, START, es, s)
    ensures s.threads == map[0 := ConnectCancel, 1 := Reporting(1)] && s.shared.shouldReconnect
    ensures s.reported == [] && s.resets == 0
  {
    es, s := EnteredRun(max);
    es, s := Go(max, START, es, s, Run(1, true));
    es, s := Go(max, START, es, s, Run(1, true));
  }

  /** From its report to the next check: sleep, recheck, and a dial that fails. */
  lemma FailedDial(max: int, s0: Sys, es: seq<Event>, s: Sys, n: int) returns (es': seq<Event>, s': Sys)
    requires Reaches(max, s0, es, s) && s.shared.shouldReconnect && 1 in s.threads && s.threads[1] == Reporting(n)
    ensures Reaches(max, s0, es', s') && 1 in s'.threads && s'.threads[1] == LoopTop
    ensures s'.shared == s.shared && s'.reported == s.reported + [n] && s'.resets == s.resets
  {
    es', s' := Go(max, s0, es, s, Run(1, true));
    es', s' := Go(max, s0, es', s', Run(1, true));
    es', s' := Go(max, s0, es', s', Run(1, true));
    es', s' := Go(max, s0, es', s', Run(1, false));
  }

  /** A check below the maximum, an increment and its report. */
  lemma NextReport(max: int, s0: Sys, es: seq<Event>, s: Sys) returns (es': seq<Event>, s': Sys)
    requires Reaches(max, s0, es, s) && s.shared.shouldReconnect && 1 in s.threads && s.threads[1] == LoopTop
    requires s.shared.attempts < max
    ensures Reaches(max, s0, es', s')
    ensures s'.reported == s.reported + [s.shared.attempts + 1] && s'.resets == s.resets
  {
    es', s' := Go(max, s0, es, s, Run(1, true));
    es', s' := Go(max, s0, es', s', Run(1, true));
    es', s' := Go(max, s0, es', s', Run(1, true));
  }

  /** From a new socket, a reset after which the reports are 1 and then 1 again. */
  ghost predicate OneTwice(max: int, before: seq<Event>, e: Event, es: seq<Event>) {
    && IsRun(max, START, before)
    && var s := After(max, START, before);
       && ResetThen(max, s, e, es)
       && After(max, Step(max, s, e), es).reported == s.reported + [1, 1]
  }

  /**
   * The reports need not start over: a Connect zeroes the counter between an increment
   * and its report, so the old 1 is reported after it, and then the new one.
   */
  lemma ReportAfterReset(max: int)
    requires max >= 1
    ensures exists before, e, es :: OneTwice(max, before, e, es)
  {
    var before, s := TakenRun(max);
    before, s := Go(max, START, before, s, Run(0, true));
    var e := Run(0, true);
    var s1 := Step(max, s, e);
    assert s1.threads[1] == Reporting(1) && s1.shared.attempts == 0;
    var es, t := FailedDial(max, s1, [], s1, 1);
    es, t := NextReport(max, s1, es, t);
    assert t.reported == s.reported + [1, 1];
    assert OneTwice(max, before, e, es);
  }

  // ---- The critical sections themselves ----

  /** What the critical sections work on: the fields, the timers armed, the next timer. */
  datatype Mem = Mem(shared: Shared, armed: set<TimerId>, nextTimer: TimerId)

  function MemOf(s: Sys): Mem {
    Mem(s.shared, s.armed, s.nextTimer)
  }

  /** The three places that cancel the timer do the same to it. */
  lemma CancelsAlike(max: int, s: Sys, t: Tid, s': Sys, t': Tid, dialed: bool)
    requires t in s.threads && t' in s'.threads && MemOf(s) == MemOf(s')
    requires s.threads[t].ConnectCancel? && (s'.threads[t'].CloseCancel? || s'.threads[t'].DisconnectCancel?)
    ensures MemOf(Advance(max, s, t, dialed)) == MemOf(Advance(max, s', t', dialed))
  {
  }

  /** The mutex-guarded fields and the timers; every method body runs under `mu`. */
  class MercurySocket {
    const maxAttempts: int
    var reconnecting: bool
    var shouldReconnect: bool
    var attempts: nat
    var slot: Option<TimerId>
    var armed: set<TimerId>
    var nextTimer: TimerId

    function View(): Mem
      reads this
    {
      Mem(Shared(reconnecting, shouldReconnect, attempts, slot), armed, nextTimer)
    }

    constructor (maxAttempts: int)
      ensures View() == MemOf(START)
      ensures this.maxAttempts == if maxAttempts == 0 then 10 else maxAttempts
    {
      this.maxAttempts := if maxAttempts == 0 then 10 else maxAttempts;
      reconnecting, shouldReconnect, attempts, slot, armed, nextTimer := false, false, 0, None, {}, 0;
    }

    /** The section as a step of goroutine `t` of a system with these fields. */
    ghost predicate Performs(before: Mem, pc: Pc, pc': Pc)
      reads this
    {
      forall s: Sys, t: Tid :: MemOf(s) == before && !pc.Finished? && t in s.threads && s.threads[t] == pc ==>
        var s' := Advance(maxAttempts, s, t, true); MemOf(s') == View() && s'.threads == s.threads[t := pc']
    }

    method TriggerEnter() returns (entered: bool)
      modifies this
      ensures Performs(old(View()), Pc.TriggerEnter, if entered then CloseSocket else Finished)
    {
      if reconnecting || !shouldReconnect {
        return false;
      }
      reconnecting := true;
      return true;
    }

    method CheckLoop() returns (next: Pc)
      ensures Performs(View(), LoopTop, next)
    {
      if !shouldReconnect {
        return Leave;
      }
      return if attempts >= maxAttempts then Pc.GiveUp else Pc.Increment;
    }

    method GiveUp()
      modifies this
      ensures Performs(old(View()), Pc.GiveUp, NotifyGiveUp)
    {
      shouldReconnect := false;
    }

    method Increment() returns (current: nat)
      modifies this
      ensures Performs(old(View()), Pc.Increment, Reporting(current))
    {
      attempts := attempts + 1;
      current := attempts;
    }

    /** `timer.Stop()` on the pending timer, if there is one. */
    method StopPending()
      modifies this`armed
      ensures armed == if slot.Some? then old(armed) - {slot.value} else old(armed)
    {
      if slot.Some? {
        armed := armed - {slot.value};
      }
    }

    method ScheduleAttemptsReset()
      modifies this
      ensures Performs(old(View()), Schedule, Leave)
    {
      StopPending();
      slot := Some(nextTimer);
      armed := armed + {nextTimer};
      nextTimer := nextTimer + 1;
    }

    method CancelStabilityTimer()
      modifies this
      ensures Performs(old(View()), ConnectCancel, ConnectZero)
    {
      StopPending();
      slot := None;
    }

    method Release()
      modifies this
      ensures Performs(old(View()), Leave, Finished)
    {
      reconnecting := false;
    }
  }
}
