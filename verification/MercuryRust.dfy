/** Reconnection in rust/src/mercury_socket.rs: close, stability timer, give-up. Times are milliseconds. */
module MercuryRust {
  import opened Common
  import opened Backoff

  datatype Config = Config(maxAttempts: nat, backoffMax: real, window: nat)

  datatype Reason = AuthFailed | PermanentFailure | MaxAttemptsExceeded | ReconnectNeeded | Manual | ByClient

  datatype MercuryEvent = Reconnecting(attempt: nat) | Disconnected(reason: Reason) | Error

  /** The spawned reset task in its slot; a task that has run stays there, finished. */
  datatype Timer = Timer(deadline: nat, done: bool)

  type Pos = n: nat | n >= 1 witness 1

  /** A close in its backoff sleep: the attempt it announced, and when. */
  datatype Sleep = Sleep(attempt: Pos, since: nat)

  /** `sleeping` are the closes in their backoff sleep; the n-th attempt ever announced has ticket n. */
  datatype Core = Core(
    connected: bool,
    shouldReconnect: bool,
    attempts: nat,
    timer: Option<Timer>,
    sleeping: map<nat, Sleep>,
    tickets: nat
  )

  const NEW_CORE: Core := Core(false, true, 0, None, map[], 0)

  datatype Outcome = BadUrl | Failed | Opened

  datatype Input =
    | Connect(outcome: Outcome)
    | CloseFrame(code: nat)
    | ReadError
    | TimerExpiry
    | BackoffDone(ticket: nat)
    | Disconnect

  predicate Terminal(code: nat) {
    code == 4401 || code == 4400 || code == 4403
  }

  /** The backoff of `z`, in milliseconds, is over. */
  predicate Slept(cfg: Config, z: Sleep, now: nat) {
    now as real >= z.since as real + 1000.0 * Delay(z.attempt, cfg.backoffMax)
  }

  predicate Possible(cfg: Config, c: Core, i: Input, now: nat) {
    match i
    case TimerExpiry => c.timer.Some? && !c.timer.value.done && now >= c.timer.value.deadline
    case BackoffDone(n) => n in c.sleeping && Slept(cfg, c.sleeping[n], now)
    case _ => true
  }

  function OnConnect(cfg: Config, c: Core, o: Outcome, now: nat): Core {
    var c1 := c.(shouldReconnect := true, timer := None);
    match o
    case BadUrl => c1
    case Failed => c1.(connected := false)
    case Opened => c1.(connected := true, timer := Some(Timer(now + cfg.window, false)))
  }

  function OnClose(cfg: Config, c: Core, code: nat, now: nat): (Core, seq<MercuryEvent>) {
    var c1 := c.(connected := false, timer := None);
    if code == 4401 then (c1.(shouldReconnect := false), [Error, Disconnected(AuthFailed)])
    else if code == 4400 || code == 4403 then (c1.(shouldReconnect := false), [Error, Disconnected(PermanentFailure)])
    else if !c.shouldReconnect then (c1, [Disconnected(Manual)])
    else if c.attempts >= cfg.maxAttempts then
      (c1.(shouldReconnect := false), [Disconnected(MaxAttemptsExceeded)])
    else
      (c1.(attempts := c.attempts + 1, sleeping := c.sleeping[c.tickets := Sleep(c.attempts + 1, now)], tickets := c.tickets + 1),
       [Reconnecting(c.attempts + 1)])
  }

  function React(cfg: Config, c: Core, i: Input, now: nat): (Core, seq<MercuryEvent>)
    requires Possible(cfg, c, i, now)
  {
    match i
    case Connect(o) => (OnConnect(cfg, c, o, now), [])
    case CloseFrame(code) => OnClose(cfg, c, code, now)
    case ReadError => (c.(connected := false), [Error])
    case TimerExpiry => (c.(attempts := 0, timer := Some(c.timer.value.(done := true))), [])
    case BackoffDone(n) => (c.(sleeping := c.sleeping - {n}), [Disconnected(ReconnectNeeded)])
    case Disconnect => (c.(shouldReconnect := false, connected := false, timer := None), [Disconnected(ByClient)])
  }

  // ---- The socket ----

  class MercurySocket {
    const cfg: Config
    var connected: bool
    var shouldReconnect: bool
    var attempts: nat
    var timer: Option<Timer>
    var sleeping: map<nat, Sleep>
    var tickets: nat
    var events: seq<MercuryEvent>

    function View(): Core
      reads this
    {
      Core(connected, shouldReconnect, attempts, timer, sleeping, tickets)
    }

    constructor (cfg: Config)
      ensures View() == NEW_CORE && events == [] && this.cfg == cfg
    {
      this.cfg := cfg;
      connected, shouldReconnect, attempts, timer, events := false, true, 0, None, [];
      sleeping, tickets := map[], 0;
    }

    method CancelStabilityTimer()
      modifies this`timer
      ensures timer == None
    {
      timer := None;
    }

    method ScheduleAttemptsReset(now: nat)
      modifies this`timer
      ensures timer == Some(Timer(now + cfg.window, false))
    {
      timer := Some(Timer(now + cfg.window, false));
    }

    method Connect(o: Outcome, now: nat)
      modifies this
      ensures (View(), events) == (React(cfg, old(View()), Input.Connect(o), now).0, old(events))
    {
      shouldReconnect := true;
      CancelStabilityTimer();
      if !o.BadUrl? {
        connected := false;
      }
      if o.Opened? {
        connected := true;
        ScheduleAttemptsReset(now);
      }
    }

    /** The close path up to its backoff sleep, whose length is returned. */
    method HandleClose(code: nat, now: nat) returns (sleep: Option<real>)
      modifies this
      ensures View() == React(cfg, old(View()), CloseFrame(code), now).0
      ensures events == old(events) + React(cfg, old(View()), CloseFrame(code), now).1
      ensures sleep.Some? <==> tickets == old(tickets) + 1
      ensures sleep.Some? ==> attempts >= 1 && sleep.value == Delay(attempts, cfg.backoffMax)
    {
      connected := false;
      CancelStabilityTimer();
      if code == 4401 {
        shouldReconnect := false;
        events := events + [Error, Disconnected(AuthFailed)];
        return None;
      }
      if code == 4400 || code == 4403 {
        shouldReconnect := false;
        events := events + [Error, Disconnected(PermanentFailure)];
        return None;
      }
      if shouldReconnect {
        if attempts >= cfg.maxAttempts {
          shouldReconnect := false;
          events := events + [Disconnected(MaxAttemptsExceeded)];
          return None;
        }
        attempts := attempts + 1;
        var d := Pow2(attempts - 1) as real;
        events := events + [Reconnecting(attempts)];
        sleeping := sleeping[tickets := Sleep(attempts, now)];
        tickets := tickets + 1;
        return Some(if d <= cfg.backoffMax then d else cfg.backoffMax);
      }
      events := events + [Disconnected(Manual)];
      return None;
    }

    /** The rest of the close path, after its sleep. */
    method FinishBackoff(ticket: nat, now: nat)
      requires Possible(cfg, View(), BackoffDone(ticket), now)
      modifies this
      ensures View() == React(cfg, old(View()), BackoffDone(ticket), now).0
      ensures events == old(events) + [Disconnected(ReconnectNeeded)]
    {
      sleeping := sleeping - {ticket};
      events := events + [Disconnected(ReconnectNeeded)];
    }

    method StabilityElapsed(now: nat)
      requires Possible(cfg, View(), TimerExpiry, now)
      modifies this
      ensures (View(), events) == (React(cfg, old(View()), TimerExpiry, now).0, old(events))
    {
      if attempts > 0 {
        attempts := 0;
      }
      timer := Some(timer.value.(done := true));
    }

    method Disconnect(now: nat)
      modifies this
      ensures View() == React(cfg, old(View()), Input.Disconnect, now).0
      ensures events == old(events) + [Disconnected(ByClient)]
    {
      shouldReconnect := false;
      connected := false;
      CancelStabilityTimer();
      events := events + [Disconnected(ByClient)];
    }
  }

  // ---- Runs ----

  datatype Entry = Entry(at: nat, input: Input, out: seq<MercuryEvent>)
  datatype Sys = Sys(now: nat, core: Core, log: seq<Entry>)
  datatype Move = Tick(ms: nat) | Do(input: Input)

  const START: Sys := Sys(0, NEW_CORE, [])

  predicate Allowed(cfg: Config, s: Sys, m: Move) {
    m.Do? ==> Possible(cfg, s.core, m.input, s.now)
  }

  function Step(cfg: Config, s: Sys, m: Move): Sys
    requires Allowed(cfg, s, m)
  {
    match m
    case Tick(ms) => s.(now := s.now + ms)
    case Do(i) =>
      var (c, out) := React(cfg, s.core, i, s.now);
      Sys(s.now, c, s.log + [Entry(s.now, i, out)])
  }

  ghost predicate IsRun(cfg: Config, s: Sys, ms: seq<Move>)
    decreases |ms|
  {
    ms == [] || (Allowed(cfg, s, ms[0]) && IsRun(cfg, Step(cfg, s, ms[0]), ms[1..]))
  }

  ghost function After(cfg: Config, s: Sys, ms: seq<Move>): Sys
    requires IsRun(cfg, s, ms)
    decreases |ms|
  {
    if ms == [] then s else After(cfg, Step(cfg, s, ms[0]), ms[1..])
  }

  /** The attempt numbers announced by one reaction. */
  function Announced(out: seq<MercuryEvent>): seq<nat> {
    if out == [] then []
    else (if out[0].Reconnecting? then [out[0].attempt] else []) + Announced(out[1..])
  }

  /** The attempt numbers announced in a log ... */
  function Attempts(log: seq<Entry>): seq<nat> {
    if log == [] then [] else Attempts(log[..|log| - 1]) + Announced(log[|log| - 1].out)
  }

  /** ... and those announced since its last stability expiry. */
  function AttemptsSinceExpiry(log: seq<Entry>): seq<nat> {
    if log == [] then []
    else if log[|log| - 1].input.TimerExpiry? then []
    else AttemptsSinceExpiry(log[..|log| - 1]) + Announced(log[|log| - 1].out)
  }

  function OneTo(n: nat): seq<nat> {
    seq(n, i => i + 1)
  }

  function SumDelays(attempts: seq<nat>, cap: real): real
    requires forall i :: 0 <= i < |attempts| ==> attempts[i] >= 1
  {
    if attempts == [] then 0.0
    else SumDelays(attempts[..|attempts| - 1], cap) + Delay(attempts[|attempts| - 1], cap)
  }

  lemma {:induction false} SumDelaysOneTo(n: nat, cap: real)
    ensures SumDelays(OneTo(n), cap) == TotalSleep(n, cap)
  {
    if n > 0 {
      SumDelaysOneTo(n - 1, cap);
      assert OneTo(n)[..n - 1] == OneTo(n - 1);
    }
  }

  /** How often a reconnect was asked for after its sleep. */
  function NeededCount(log: seq<Entry>): nat {
    if log == [] then 0
    else NeededCount(log[..|log| - 1]) + if log[|log| - 1].input.BackoffDone? then 1 else 0
  }

  predicate Breaks(i: Input) {
    i.Connect? || i.CloseFrame? || i.Disconnect?
  }

  /** Entry `i` is a successful connect and nothing between it and `k` ended or replaced it. */
  ghost predicate HoldsFrom(log: seq<Entry>, i: int, k: int) {
    && 0 <= i < k <= |log|
    && log[i].input == Connect(Opened)
    && forall j :: i < j < k ==> !Breaks(log[j].input)
  }

  /** Every expiry in the log was preceded by a connect that held for the whole window. */
  ghost predicate ExpiriesHeld(cfg: Config, log: seq<Entry>) {
    forall k :: 0 <= k < |log| && log[k].input.TimerExpiry? ==>
      exists i :: HoldsFrom(log, i, k) && log[k].at >= log[i].at + cfg.window
  }

  ghost predicate TimerInv(cfg: Config, s: Sys) {
    s.core.timer.Some? ==>
      exists i :: HoldsFrom(s.log, i, |s.log|) && s.core.timer.value.deadline == s.log[i].at + cfg.window
  }

  ghost predicate CountInv(cfg: Config, s: Sys) {
    && AttemptsSinceExpiry(s.log) == OneTo(s.core.attempts)
    && s.core.attempts <= cfg.maxAttempts
    && NeededCount(s.log) + |s.core.sleeping| == |Attempts(s.log)| == s.core.tickets
    && forall n :: n in s.core.sleeping ==> n < s.core.tickets
  }

  ghost predicate Inv(cfg: Config, s: Sys) {
    CountInv(cfg, s) && TimerInv(cfg, s) && ExpiriesHeld(cfg, s.log)
    && SleepInv(s.log, s.core.sleeping) && Paired(cfg, s.log) && UsedOnce(s.log, s.core)
  }

  /** Entry `j` announced attempt `a` with ticket `n`. */
  ghost predicate Announces(log: seq<Entry>, j: nat, n: nat, a: nat)
    requires j < |log|
  {
    |Attempts(log[..j])| == n && Announced(log[j].out) == [a]
  }

  /** Entry `j` is where the close that sleeps as `z` with ticket `n` announced it. */
  ghost predicate SleepsSince(log: seq<Entry>, n: nat, z: Sleep, j: nat) {
    j < |log| && log[j].at == z.since && Announces(log, j, n, z.attempt)
  }

  ghost predicate SleepInv(log: seq<Entry>, sleeping: map<nat, Sleep>) {
    forall n :: n in sleeping ==> exists j :: SleepsSince(log, n, sleeping[n], j)
  }

  /** Entry `k` asked for a reconnect, after a backoff. */
  ghost predicate Needed(log: seq<Entry>, k: nat) {
    k < |log| && log[k].input.BackoffDone?
  }

  /** Entry `k` is the reconnect-needed of the attempt that entry `j` announced, after its whole backoff. */
  ghost predicate Follows(cfg: Config, log: seq<Entry>, j: nat, k: nat)
    requires Needed(log, k)
  {
    j < k && exists a: Pos :: Announces(log, j, log[k].input.ticket, a) && Slept(cfg, Sleep(a, log[j].at), log[k].at)
  }

  /** Every reconnect-needed follows the announcement that has its ticket ... */
  ghost predicate Paired(cfg: Config, log: seq<Entry>) {
    forall k: nat :: Needed(log, k) ==> exists j :: Follows(cfg, log, j, k)
  }

  /** ... and no ticket is used twice, or used while its close is still asleep. */
  ghost predicate UsedOnce(log: seq<Entry>, c: Core) {
    && (forall k: nat :: Needed(log, k) ==>
          log[k].input.ticket < c.tickets && log[k].input.ticket !in c.sleeping)
    && (forall j: nat, k: nat :: j < k && Needed(log, j) && Needed(log, k) ==>
          log[j].input.ticket != log[k].input.ticket)
  }

  lemma AnnouncesLonger(log: seq<Entry>, e: Entry, j: nat, n: nat, a: nat)
    requires j < |log| && Announces(log, j, n, a)
    ensures Announces(log + [e], j, n, a)
  {
    assert (log + [e])[..j] == log[..j];
  }

  lemma SleepsLonger(log: seq<Entry>, e: Entry, sleeping: map<nat, Sleep>, sleeping': map<nat, Sleep>)
    requires SleepInv(log, sleeping)
    requires forall n :: n in sleeping' ==> n in sleeping && sleeping'[n] == sleeping[n]
    ensures SleepInv(log + [e], sleeping')
  {
    forall n | n in sleeping'
      ensures exists j :: SleepsSince(log + [e], n, sleeping'[n], j)
    {
      var j :| SleepsSince(log, n, sleeping[n], j);
      AnnouncesLonger(log, e, j, n, sleeping[n].attempt);
      assert SleepsSince(log + [e], n, sleeping'[n], j);
    }
  }

  lemma FallsAsleep(log: seq<Entry>, e: Entry, sleeping: map<nat, Sleep>, n: nat, z: Sleep)
    requires SleepInv(log, sleeping) && n == |Attempts(log)| && Announced(e.out) == [z.attempt] && e.at == z.since
    ensures SleepInv(log + [e], sleeping[n := z])
  {
    SleepsLonger(log, e, sleeping, sleeping);
    assert (log + [e])[..|log|] == log;
    assert SleepsSince(log + [e], n, z, |log|);
  }

  lemma CloseSleeps(cfg: Config, s: Sys, code: nat, e: Entry)
    requires CountInv(cfg, s) && SleepInv(s.log, s.core.sleeping)
    requires e == Entry(s.now, CloseFrame(code), OnClose(cfg, s.core, code, s.now).1)
    ensures SleepInv(s.log + [e], OnClose(cfg, s.core, code, s.now).0.sleeping)
  {
    AnnouncedByClose(cfg, s.core, code, s.now);
    if OnClose(cfg, s.core, code, s.now).0.attempts == s.core.attempts {
      SleepsLonger(s.log, e, s.core.sleeping, s.core.sleeping);
    } else {
      FallsAsleep(s.log, e, s.core.sleeping, s.core.tickets, Sleep(s.core.attempts + 1, s.now));
    }
  }

  lemma StepSleeps(cfg: Config, s: Sys, i: Input)
    requires CountInv(cfg, s) && SleepInv(s.log, s.core.sleeping) && Possible(cfg, s.core, i, s.now)
    ensures SleepInv(Step(cfg, s, Do(i)).log, Step(cfg, s, Do(i)).core.sleeping)
  {
    var (c, out) := React(cfg, s.core, i, s.now);
    var e := Entry(s.now, i, out);
    if i.CloseFrame? {
      CloseSleeps(cfg, s, i.code, e);
    } else {
      SilentUnlessClose(cfg, s.core, i, s.now);
      SleepsLonger(s.log, e, s.core.sleeping, c.sleeping);
    }
  }

  lemma FollowsLonger(cfg: Config, log: seq<Entry>, e: Entry, j: nat, k: nat)
    requires Needed(log, k) && Follows(cfg, log, j, k)
    ensures Follows(cfg, log + [e], j, k)
  {
    var a: Pos :| Announces(log, j, log[k].input.ticket, a) && Slept(cfg, Sleep(a, log[j].at), log[k].at);
    AnnouncesLonger(log, e, j, log[k].input.ticket, a);
  }

  lemma PairedLonger(cfg: Config, log: seq<Entry>, e: Entry)
    requires Paired(cfg, log)
    requires e.input.BackoffDone? ==> exists j :: Follows(cfg, log + [e], j, |log|)
    ensures Paired(cfg, log + [e])
  {
    forall k: nat | Needed(log + [e], k)
      ensures exists j :: Follows(cfg, log + [e], j, k)
    {
      if k < |log| {
        assert Needed(log, k);
        var j :| Follows(cfg, log, j, k);
        FollowsLonger(cfg, log, e, j, k);
      }
    }
  }

  lemma StepPairs(cfg: Config, s: Sys, i: Input)
    requires SleepInv(s.log, s.core.sleeping) && Paired(cfg, s.log) && Possible(cfg, s.core, i, s.now)
    ensures Paired(cfg, Step(cfg, s, Do(i)).log)
  {
    var e := Entry(s.now, i, React(cfg, s.core, i, s.now).1);
    if i.BackoffDone? {
      var z := s.core.sleeping[i.ticket];
      var j :| SleepsSince(s.log, i.ticket, z, j);
      AnnouncesLonger(s.log, e, j, i.ticket, z.attempt);
      assert Needed(s.log + [e], |s.log|) && Follows(cfg, s.log + [e], j, |s.log|);
    }
    PairedLonger(cfg, s.log, e);
  }

  lemma StepUses(cfg: Config, s: Sys, i: Input)
    requires CountInv(cfg, s) && UsedOnce(s.log, s.core) && Possible(cfg, s.core, i, s.now)
    ensures UsedOnce(Step(cfg, s, Do(i)).log, Step(cfg, s, Do(i)).core)
  {
    var log := Step(cfg, s, Do(i)).log;
    assert forall k: nat :: Needed(log, k) && k < |s.log| ==> Needed(s.log, k);
    if i.CloseFrame? {
      AnnouncedByClose(cfg, s.core, i.code, s.now);
    } else {
      SilentUnlessClose(cfg, s.core, i, s.now);
    }
  }

  lemma AnnouncedByClose(cfg: Config, c: Core, code: nat, now: nat)
    ensures var (c', out) := OnClose(cfg, c, code, now);
            if c'.attempts == c.attempts then
              Announced(out) == [] && c'.sleeping == c.sleeping && c'.tickets == c.tickets
            else
              && c'.attempts == c.attempts + 1 && Announced(out) == [c.attempts + 1]
              && c'.sleeping == c.sleeping[c.tickets := Sleep(c.attempts + 1, now)] && c'.tickets == c.tickets + 1
  {
    var out := OnClose(cfg, c, code, now).1;
    assert |out| == 2 ==> out[1..] == [out[1]] && Announced(out[1..]) == [];
    assert |out| == 1 ==> out[1..] == [];
  }

  /** What an input that is no close announces and does to the counts. */
  lemma SilentUnlessClose(cfg: Config, c: Core, i: Input, now: nat)
    requires Possible(cfg, c, i, now) && !i.CloseFrame?
    ensures var (c', out) := React(cfg, c, i, now);
            && Announced(out) == []
            && c'.attempts == (if i.TimerExpiry? then 0 else c.attempts)
            && c'.sleeping == (if i.BackoffDone? then c.sleeping - {i.ticket} else c.sleeping) && c'.tickets == c.tickets
  {
    var out := React(cfg, c, i, now).1;
    assert |out| == 1 ==> out[1..] == [];
  }

  lemma OneMore(n: nat)
    ensures OneTo(n + 1) == OneTo(n) + [n + 1] && OneTo(0) == []
  {
  }

  lemma OneMoreAsleep(m: map<nat, Sleep>, n: nat, z: Sleep)
    requires n !in m
    ensures |m[n := z]| == |m| + 1
  {
    assert m[n := z].Keys == m.Keys + {n};
  }

  lemma OneFewerAsleep(m: map<nat, Sleep>, n: nat)
    requires n in m
    ensures |m - {n}| == |m| - 1
  {
    assert (m - {n}).Keys == m.Keys - {n};
  }

  lemma StepCounts(cfg: Config, s: Sys, i: Input)
    requires CountInv(cfg, s) && Possible(cfg, s.core, i, s.now)
    ensures CountInv(cfg, Step(cfg, s, Do(i)))
  {
    var t := Step(cfg, s, Do(i));
    assert t.log[..|t.log| - 1] == s.log;
    OneMore(s.core.attempts);
    if i.CloseFrame? {
      AnnouncedByClose(cfg, s.core, i.code, s.now);
      OneMoreAsleep(s.core.sleeping, s.core.tickets, Sleep(s.core.attempts + 1, s.now));
    } else {
      SilentUnlessClose(cfg, s.core, i, s.now);
      if i.BackoffDone? {
        OneFewerAsleep(s.core.sleeping, i.ticket);
      }
    }
  }

  lemma HoldsLonger(log: seq<Entry>, e: Entry, i: int, k: int)
    requires HoldsFrom(log, i, k)
    ensures HoldsFrom(log + [e], i, k)
    ensures k == |log| && !Breaks(e.input) ==> HoldsFrom(log + [e], i, k + 1)
  {
  }

  lemma StepTimer(cfg: Config, s: Sys, i: Input)
    requires TimerInv(cfg, s) && Possible(cfg, s.core, i, s.now)
    ensures TimerInv(cfg, Step(cfg, s, Do(i)))
  {
    var t := Step(cfg, s, Do(i));
    if i == Connect(Opened) {
      assert HoldsFrom(t.log, |s.log|, |t.log|);
    } else if t.core.timer.Some? {
      var k :| HoldsFrom(s.log, k, |s.log|) && s.core.timer.value.deadline == s.log[k].at + cfg.window;
      HoldsLonger(s.log, t.log[|s.log|], k, |s.log|);
    }
  }

  lemma StepExpiries(cfg: Config, s: Sys, i: Input)
    requires TimerInv(cfg, s) && ExpiriesHeld(cfg, s.log) && Possible(cfg, s.core, i, s.now)
    ensures ExpiriesHeld(cfg, Step(cfg, s, Do(i)).log)
  {
    var log, log' := s.log, Step(cfg, s, Do(i)).log;
    forall k | 0 <= k < |log'| && log'[k].input.TimerExpiry?
      ensures exists j :: HoldsFrom(log', j, k) && log'[k].at >= log'[j].at + cfg.window
    {
      if k < |log| {
        assert log[k].input.TimerExpiry?;
        var j :| HoldsFrom(log, j, k) && log[k].at >= log[j].at + cfg.window;
        HoldsLonger(log, log'[|log|], j, k);
      } else {
        var j :| HoldsFrom(log, j, |log|) && s.core.timer.value.deadline == log[j].at + cfg.window;
        HoldsLonger(log, log'[|log|], j, |log|);
      }
    }
  }

  lemma StepInv(cfg: Config, s: Sys, i: Input)
    requires Inv(cfg, s) && Possible(cfg, s.core, i, s.now)
    ensures Inv(cfg, Step(cfg, s, Do(i)))
  {
    StepCounts(cfg, s, i);
    StepTimer(cfg, s, i);
    StepExpiries(cfg, s, i);
    StepSleeps(cfg, s, i);
    StepPairs(cfg, s, i);
    StepUses(cfg, s, i);
  }

  lemma MoveInv(cfg: Config, s: Sys, m: Move)
    requires Inv(cfg, s) && Allowed(cfg, s, m)
    ensures Inv(cfg, Step(cfg, s, m))
  {
    if m.Do? {
      StepInv(cfg, s, m.input);
    } else {
      assert Step(cfg, s, m).core == s.core && Step(cfg, s, m).log == s.log;
    }
  }

  /**
   * Every reachable state: attempts are numbered 1..attempts since the last expiry and
   * stay within the maximum, and each reconnect-needed follows an announcement of its
   * own after the whole backoff of that attempt.
   */
  lemma {:induction false} RunInv(cfg: Config, s: Sys, ms: seq<Move>)
    requires Inv(cfg, s) && IsRun(cfg, s, ms)
    ensures Inv(cfg, After(cfg, s, ms))
    ensures |AttemptsSinceExpiry(After(cfg, s, ms).log)| == After(cfg, s, ms).core.attempts <= cfg.maxAttempts
    ensures Paired(cfg, After(cfg, s, ms).log)
    decreases |ms|
  {
    if ms == [] {
      InvMeans(cfg, s);
    } else {
      MoveInv(cfg, s, ms[0]);
      RunInv(cfg, Step(cfg, s, ms[0]), ms[1..]);
    }
  }

  lemma InvMeans(cfg: Config, t: Sys)
    requires Inv(cfg, t)
    ensures |AttemptsSinceExpiry(t.log)| == t.core.attempts <= cfg.maxAttempts
    ensures Paired(cfg, t.log)
  {
  }

  /** The sleeps announced since the last expiry, together. */
  lemma SleepSinceExpiry(cfg: Config, s: Sys)
    requires CountInv(cfg, s)
    ensures forall i :: 0 <= i < |AttemptsSinceExpiry(s.log)| ==> AttemptsSinceExpiry(s.log)[i] >= 1
    ensures SumDelays(AttemptsSinceExpiry(s.log), cfg.backoffMax) == TotalSleep(s.core.attempts, cfg.backoffMax)
    ensures SumDelays(AttemptsSinceExpiry(s.log), cfg.backoffMax) <= s.core.attempts as real * cfg.backoffMax
  {
    SumDelaysOneTo(s.core.attempts, cfg.backoffMax);
    TotalSleepBound(s.core.attempts, cfg.backoffMax);
  }

  /** A close gives up exactly when it may reconnect but the counter is at the maximum. */
  lemma GivesUpIff(cfg: Config, s: Sys, code: nat)
    requires Inv(cfg, s)
    ensures var t := Step(cfg, s, Do(CloseFrame(code)));
            && (Disconnected(MaxAttemptsExceeded) in t.log[|s.log|].out <==>
                s.core.shouldReconnect && !Terminal(code) && s.core.attempts == cfg.maxAttempts)
            && (Disconnected(MaxAttemptsExceeded) in t.log[|s.log|].out ==> !t.core.shouldReconnect)
  {
  }

  /** What the log says input `i` brought about in `s`, and the state after it. */
  ghost function Output(cfg: Config, s: Sys, i: Input): seq<MercuryEvent>
    requires Possible(cfg, s.core, i, s.now)
  {
    Step(cfg, s, Do(i)).log[|s.log|].out
  }

  predicate FinalCode(code: nat) {
    code == 4400 || code == 4401 || code == 4403
  }

  /** Every close, by what it finds: which events it emits, exactly when. */
  lemma CloseEmits(cfg: Config, s: Sys, code: nat)
    requires CountInv(cfg, s)
    ensures var out, on := Output(cfg, s, CloseFrame(code)), s.core.shouldReconnect && !FinalCode(code);
            && (out == [Reconnecting(s.core.attempts + 1)] <==> on && s.core.attempts < cfg.maxAttempts)
            && (out == [Disconnected(MaxAttemptsExceeded)] <==> on && s.core.attempts == cfg.maxAttempts)
            && (out == [Disconnected(Manual)] <==> !s.core.shouldReconnect && !FinalCode(code))
            && (out == [Error, Disconnected(AuthFailed)] <==> code == 4401)
            && (out == [Error, Disconnected(PermanentFailure)] <==> code == 4400 || code == 4403)
  {
  }

  /** And what it leaves: only a close that announces an attempt leaves reconnecting on, counts, and goes to sleep. */
  lemma CloseLeaves(cfg: Config, s: Sys, code: nat)
    requires CountInv(cfg, s)
    ensures var t := Step(cfg, s, Do(CloseFrame(code)));
            var again := s.core.shouldReconnect && !FinalCode(code) && s.core.attempts < cfg.maxAttempts;
            && (t.core.shouldReconnect <==> again) && !t.core.connected && t.core.timer.None?
            && t.core.attempts == (if again then s.core.attempts + 1 else s.core.attempts)
            && t.core.sleeping == (if again then s.core.sleeping[|Attempts(s.log)| := Sleep(s.core.attempts + 1, s.now)]
                                   else s.core.sleeping)
  {
  }

  /** Every connect turns reconnecting on and keeps the counter; a successful one starts a new window. */
  lemma ConnectLeaves(cfg: Config, s: Sys, o: Outcome)
    ensures var t := Step(cfg, s, Do(Connect(o)));
            && t.core.shouldReconnect && t.core.attempts == s.core.attempts && t.core.sleeping == s.core.sleeping
            && t.core.connected == (if o.BadUrl? then s.core.connected else o.Opened?)
            && t.core.timer == (if o.Opened? then Some(Timer(s.now + cfg.window, false)) else None)
            && Output(cfg, s, Connect(o)) == []
  {
  }

  /** The other inputs: what each changes, and nothing else. */
  lemma OthersLeave(cfg: Config, s: Sys, i: Input)
    requires Possible(cfg, s.core, i, s.now) && !i.Connect? && !i.CloseFrame?
    ensures var (c, d, out) := (s.core, Step(cfg, s, Do(i)).core, Output(cfg, s, i));
            && (i.ReadError? ==> d == c.(connected := false) && out == [Error])
            && (i.TimerExpiry? ==>
                  && d.timer.Some? && d.timer.value.done && d.attempts == 0 && out == []
                  && d == c.(attempts := 0, timer := d.timer))
            && (i.BackoffDone? ==>
                  && out == [Disconnected(ReconnectNeeded)] && d == c.(sleeping := d.sleeping)
                  && forall n :: n in d.sleeping <==> n in c.sleeping && n != i.ticket)
            && (i.Disconnect? ==>
                  && out == [Disconnected(ByClient)] && d == c.(shouldReconnect := false, connected := false, timer := None))
  {
  }

  // ---- Closes with a connect after each ----

  /** No expiry, no disconnect, no final code, and a connect between any two closes; `ready` says one came already. */
  ghost predicate Flapping(ms: seq<Move>, ready: bool) {
    ms == [] ||
    if ms[0].Tick? then Flapping(ms[1..], ready)
    else
      match ms[0].input
      case Connect(_) => Flapping(ms[1..], true)
      case CloseFrame(code) => ready && !FinalCode(code) && Flapping(ms[1..], false)
      case ReadError => Flapping(ms[1..], ready)
      case BackoffDone(_) => Flapping(ms[1..], ready)
      case _ => false
  }

  function Closes(ms: seq<Move>): nat {
    if ms == [] then 0 else (if ms[0].Do? && ms[0].input.CloseFrame? then 1 else 0) + Closes(ms[1..])
  }

  function Min(a: nat, b: nat): nat {
    if a <= b then a else b
  }

  lemma MoveAnnounces(cfg: Config, s: Sys, m: Move, ready: bool)
    requires CountInv(cfg, s) && Allowed(cfg, s, m) && Flapping([m], ready) && (ready ==> s.core.shouldReconnect)
    ensures var t := Step(cfg, s, m);
            var close := m.Do? && m.input.CloseFrame?;
            && t.core.attempts == (if close && s.core.attempts < cfg.maxAttempts then s.core.attempts + 1 else s.core.attempts)
            && |Attempts(t.log)| == |Attempts(s.log)| + (t.core.attempts - s.core.attempts)
            && (close || (ready || (m.Do? && m.input.Connect?) ==> t.core.shouldReconnect))
  {
    if m.Do? {
      var t := Step(cfg, s, m);
      assert t.log[..|s.log|] == s.log;
      if m.input.CloseFrame? {
        CloseEmits(cfg, s, m.input.code);
        AnnouncedByClose(cfg, s.core, m.input.code, s.now);
        CloseLeaves(cfg, s, m.input.code);
      } else {
        SilentUnlessClose(cfg, s.core, m.input, s.now);
      }
    }
  }

  lemma MoveCounts(cfg: Config, s: Sys, m: Move)
    requires CountInv(cfg, s) && Allowed(cfg, s, m)
    ensures CountInv(cfg, Step(cfg, s, m))
  {
    if m.Do? {
      StepCounts(cfg, s, m.input);
    }
  }

  /** n closes with a connect between them announce exactly the next n attempts, as far as the maximum goes. */
  lemma {:induction false} FlapsAnnounce(cfg: Config, s: Sys, ms: seq<Move>, ready: bool)
    requires CountInv(cfg, s) && IsRun(cfg, s, ms) && Flapping(ms, ready) && (ready ==> s.core.shouldReconnect)
    ensures |Attempts(After(cfg, s, ms).log)|
            == |Attempts(s.log)| + Min(Closes(ms), cfg.maxAttempts - s.core.attempts)
    decreases |ms|
  {
    if ms != [] {
      assert [ms[0]][1..] == [];
      MoveAnnounces(cfg, s, ms[0], ready);
      MoveCounts(cfg, s, ms[0]);
      var close := ms[0].Do? && ms[0].input.CloseFrame?;
      FlapsAnnounce(cfg, Step(cfg, s, ms[0]), ms[1..],
                    if close then false else ready || (ms[0].Do? && ms[0].input.Connect?));
    }
  }

  ghost predicate NeverExpired(log: seq<Entry>) {
    forall k :: 0 <= k < |log| ==> !log[k].input.TimerExpiry?
  }

  lemma {:induction false} FlapsNeverExpire(cfg: Config, s: Sys, ms: seq<Move>, ready: bool)
    requires IsRun(cfg, s, ms) && Flapping(ms, ready) && NeverExpired(s.log)
    ensures NeverExpired(After(cfg, s, ms).log)
    decreases |ms|
  {
    if ms != [] {
      var t := Step(cfg, s, ms[0]);
      var close := ms[0].Do? && ms[0].input.CloseFrame?;
      assert NeverExpired(t.log);
      FlapsNeverExpire(cfg, t, ms[1..], if close then false else ready || (ms[0].Do? && ms[0].input.Connect?));
    }
  }

  lemma AllAnnounced(cfg: Config, t: Sys, n: nat)
    requires CountInv(cfg, t) && NeverExpired(t.log) && |Attempts(t.log)| == n
    ensures Attempts(t.log) == OneTo(n)
  {
    NoExpiry(t.log);
  }

  lemma InvCounts(cfg: Config, t: Sys)
    requires Inv(cfg, t)
    ensures CountInv(cfg, t)
  {
  }

  /** So from a new socket they announce 1, 2, 3, ... up to n or the maximum, whichever is less. */
  lemma {:induction false} FlapsFromStart(cfg: Config, ms: seq<Move>)
    requires IsRun(cfg, START, ms) && Flapping(ms, true)
    ensures Attempts(After(cfg, START, ms).log) == OneTo(Min(Closes(ms), cfg.maxAttempts))
  {
    var t := After(cfg, START, ms);
    FlapsAnnounce(cfg, START, ms, true);
    RunInv(cfg, START, ms);
    FlapsNeverExpire(cfg, START, ms, true);
    InvCounts(cfg, t);
    AllAnnounced(cfg, t, Min(Closes(ms), cfg.maxAttempts));
  }

  ghost predicate NoConnect(ms: seq<Move>) {
    forall m :: m in ms && m.Do? ==> !m.input.Connect?
  }

  /** Once reconnecting is off, only a new connect brings another Reconnecting event. */
  lemma {:induction false} SilentUntilConnect(cfg: Config, s: Sys, ms: seq<Move>)
    requires !s.core.shouldReconnect && IsRun(cfg, s, ms) && NoConnect(ms)
    ensures !After(cfg, s, ms).core.shouldReconnect
    ensures Attempts(After(cfg, s, ms).log) == Attempts(s.log)
    decreases |ms|
  {
    if ms != [] {
      var t := Step(cfg, s, ms[0]);
      if ms[0].Do? {
        assert t.log[..|t.log| - 1] == s.log;
        if ms[0].input.CloseFrame? {
          AnnouncedByClose(cfg, s.core, ms[0].input.code, s.now);
        } else {
          SilentUnlessClose(cfg, s.core, ms[0].input, s.now);
        }
      }
      SilentUntilConnect(cfg, t, ms[1..]);
    }
  }

  /** Only an expiry lowers the counter. */
  lemma OnlyExpiryLowers(cfg: Config, s: Sys, m: Move)
    requires Allowed(cfg, s, m)
    ensures Step(cfg, s, m).core.attempts < s.core.attempts ==> m == Do(TimerExpiry)
  {
  }

  /**
   * An expiry comes a full window after a successful connect with no connect,
   * close frame or disconnect in between, and exactly a window after it when
   * the clock has not run past the deadline. The connection is then still up
   * iff no read error happened meanwhile.
   */
  lemma ExpiryMeansHeld(cfg: Config, ms: seq<Move>)
    requires IsRun(cfg, START, ms) && Allowed(cfg, After(cfg, START, ms), Do(TimerExpiry))
    ensures var s := After(cfg, START, ms);
            exists i ::
              && HoldsFrom(s.log, i, |s.log|)
              && s.now >= s.log[i].at + cfg.window
              && (s.now <= s.core.timer.value.deadline ==> s.now == s.log[i].at + cfg.window)
              && (s.core.connected <==> forall j :: i < j < |s.log| ==> !s.log[j].input.ReadError?)
  {
    RunInv(cfg, START, ms);
    ConnectedInv(cfg, START, ms);
  }

  /** The connection is up iff the last connect succeeded and neither broke nor hit a read error since. */
  ghost predicate UpIff(s: Sys) {
    forall i :: HoldsFrom(s.log, i, |s.log|) ==>
      (s.core.connected <==> forall j :: i < j < |s.log| ==> !s.log[j].input.ReadError?)
  }

  lemma {:induction false} ConnectedInv(cfg: Config, s: Sys, ms: seq<Move>)
    requires UpIff(s) && IsRun(cfg, s, ms)
    ensures UpIff(After(cfg, s, ms))
    decreases |ms|
  {
    if ms != [] {
      var t := Step(cfg, s, ms[0]);
      if ms[0].Do? {
        forall i | HoldsFrom(t.log, i, |t.log|)
          ensures t.core.connected <==> forall j :: i < j < |t.log| ==> !t.log[j].input.ReadError?
        {
          if i < |s.log| {
            assert forall j :: 0 <= j < |s.log| ==> t.log[j] == s.log[j];
            assert HoldsFrom(s.log, i, |s.log|);
            assert !Breaks(t.log[|s.log|].input);
          }
        }
      }
      ConnectedInv(cfg, t, ms[1..]);
    }
  }

  /** No successful connect of the log was held for the stability window. */
  ghost predicate FlapStorm(cfg: Config, log: seq<Entry>) {
    forall i, k :: HoldsFrom(log, i, k) && k < |log| ==> log[k].at < log[i].at + cfg.window
  }

  lemma {:induction false} NoExpiry(log: seq<Entry>)
    requires forall k :: 0 <= k < |log| ==> !log[k].input.TimerExpiry?
    ensures Attempts(log) == AttemptsSinceExpiry(log)
  {
    if log != [] {
      NoExpiry(log[..|log| - 1]);
    }
  }

  /** A flap storm, however long and however often reconnected, makes at most the maximum of attempts. */
  lemma FlapStormIsBounded(cfg: Config, ms: seq<Move>)
    requires IsRun(cfg, START, ms) && FlapStorm(cfg, After(cfg, START, ms).log)
    ensures var s := After(cfg, START, ms);
            Attempts(s.log) == OneTo(s.core.attempts) && |Attempts(s.log)| <= cfg.maxAttempts
  {
    RunInv(cfg, START, ms);
    NoExpiry(After(cfg, START, ms).log);
  }

  /**
   * A read error is not a close frame: it drops the connection but leaves the
   * reset task running, which then forgives an attempt although nothing held.
   */
  lemma ForgivenWhileDown(cfg: Config)
    requires cfg.maxAttempts >= 1
    ensures exists ms ::
              && IsRun(cfg, START, ms)
              && var s := After(cfg, START, ms);
                 s.core.attempts == 1 && !s.core.connected
                 && Allowed(cfg, s, Do(TimerExpiry)) && Step(cfg, s, Do(TimerExpiry)).core.attempts == 0
  {
    var ms := [Do(Connect(Opened)), Do(CloseFrame(1006)), Do(Connect(Opened)), Do(ReadError), Tick(cfg.window)];
    var s1 := Step(cfg, START, ms[0]);
    var s2 := Step(cfg, s1, ms[1]);
    var s3 := Step(cfg, s2, ms[2]);
    var s4 := Step(cfg, s3, ms[3]);
    var s5 := Step(cfg, s4, ms[4]);
    assert IsRun(cfg, s5, ms[5..]) && After(cfg, s5, ms[5..]) == s5;
    assert ms[4..][1..] == ms[5..];
    assert IsRun(cfg, s4, ms[4..]) && After(cfg, s4, ms[4..]) == s5;
    assert ms[3..][1..] == ms[4..];
    assert IsRun(cfg, s3, ms[3..]) && After(cfg, s3, ms[3..]) == s5;
    assert ms[2..][1..] == ms[3..];
    assert IsRun(cfg, s2, ms[2..]) && After(cfg, s2, ms[2..]) == s5;
    assert ms[1..][1..] == ms[2..];
    assert IsRun(cfg, s1, ms[1..]) && After(cfg, s1, ms[1..]) == s5;
    assert IsRun(cfg, START, ms) && After(cfg, START, ms) == s5;
  }
}
