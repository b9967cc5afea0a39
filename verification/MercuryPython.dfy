/**
 * The reconnect loop of python/src/webex_message_handler/mercury_socket.py. While
 * the loop awaits a sleep or a dial, other callbacks of the event loop run; a
 * stability timer left over from the previous connection may zero the counter.
 */
module MercuryPython {
  import opened Backoff

  datatype State = State(reconnecting: bool, shouldReconnect: bool, attempts: nat, timer: bool)

  /** What may run during an await: any but a caller's connect. */
  datatype Callback =
    | StabilityTimer
    | HandleClose(code: nat)
    | PongTimeout
    | Disconnect

  function Apply(s: State, c: Callback): State {
    match c
    case StabilityTimer => if s.timer then s.(timer := false, attempts := 0) else s
    case HandleClose(code) =>
      var s1 := s.(timer := false);
      if code == 4401 || code == 4400 || code == 4403 then s1.(shouldReconnect := false) else s1
    case PongTimeout => s
    case Disconnect => s.(shouldReconnect := false, timer := false)
  }

  /** The callbacks of one await, in order: the timer fires at most once and never comes back. */
  function ApplyAll(s: State, cs: seq<Callback>): (r: State)
    ensures r.reconnecting == s.reconnecting
    ensures r.timer ==> s.timer && r.attempts == s.attempts
    ensures r.attempts == s.attempts || (r.attempts == 0 && s.timer)
    ensures r.shouldReconnect ==> s.shouldReconnect
    decreases |cs|
  {
    if cs == [] then s else ApplyAll(Apply(s, cs[0]), cs[1..])
  }

  lemma ApplyAllAppend(s: State, cs: seq<Callback>, c: Callback)
    ensures ApplyAll(s, cs + [c]) == Apply(ApplyAll(s, cs), c)
    decreases |cs|
  {
    if cs == [] {
      assert ApplyAll(Apply(s, c), []) == Apply(s, c);
    } else {
      assert (cs + [c])[1..] == cs[1..] + [c];
      ApplyAllAppend(Apply(s, cs[0]), cs[1..], c);
    }
  }

  /** One turn of the loop as its environment sees it. */
  datatype Turn = Turn(sleeping: seq<Callback>, dialing: seq<Callback>, dialed: bool)

  /** How the whole loop ends: state, announced attempts, seconds slept, and whether it connected or announced giving up. */
  datatype Outcome = Outcome(state: State, attempts: seq<nat>, slept: real, connected: bool, gaveUp: bool)

  datatype Status = Again | Stopped | GaveUp | Connected

  /** One turn of the body: its end state, the attempt it announced, and how it ended. */
  function Body(max: int, s: State, turn: Turn): (r: (State, seq<nat>, Status))
    ensures r.2.Again? ==>
              s.attempts < max && r.1 == [s.attempts + 1] && r.0.reconnecting == s.reconnecting
              && r.0.shouldReconnect && s.shouldReconnect
              && (if r.0.timer then s.timer && r.0.attempts == s.attempts + 1
                  else r.0.attempts == s.attempts + 1 || (r.0.attempts == 0 && s.timer))
    ensures !r.2.Again? ==> |r.1| <= 1 && (r.1 != [] ==> s.attempts < max && r.1 == [s.attempts + 1])
    ensures r.2.Connected? ==> r.0.timer
    ensures r.2.Stopped? || r.2.GaveUp? ==> !r.0.shouldReconnect
    ensures r.2.GaveUp? <==> s.shouldReconnect && s.attempts >= max
  {
    if !s.shouldReconnect then (s, [], Stopped)
    else if s.attempts >= max then (s.(shouldReconnect := false), [], GaveUp)
    else
      var n := s.attempts + 1;
      var s1 := ApplyAll(s.(attempts := n), turn.sleeping);
      if !s1.shouldReconnect then (s1, [n], Stopped)
      else
        var s2 := ApplyAll(s1, turn.dialing);
        if turn.dialed then (s2.(timer := true), [n], Connected)
        else if !s2.shouldReconnect then (s2, [n], Stopped)
        else (s2, [n], Again)
  }

  /** The loop, from its test on; the measure is (timer pending, max - attempts). */
  function Loop(max: int, cap: real, s: State, env: nat -> Turn, i: nat): Outcome
    decreases s.timer, max - s.attempts
  {
    var (s', nums, status) := Body(max, s, env(i));
    var d := SleepOf(nums, cap);
    if !status.Again? then Outcome(s', nums, d, status.Connected?, status.GaveUp?)
    else
      var rest := Loop(max, cap, s', env, i + 1);
      Outcome(rest.state, nums + rest.attempts, d + rest.slept, rest.connected, rest.gaveUp)
  }

  function SleepOf(nums: seq<nat>, cap: real): real {
    if nums == [] || nums[0] == 0 then 0.0 else Delay(nums[0], cap)
  }

  /** What the counter leaves, plus a whole maximum if the timer may still zero it. */
  function Budget(max: int, s: State): nat {
    (if s.attempts < max then max - s.attempts else 0) + (if s.timer && max > 0 then max else 0)
  }

  /** Each number follows the last, or starts over at 1. */
  ghost predicate Gapless(nums: seq<nat>, before: nat) {
    forall i :: 0 <= i < |nums| ==> nums[i] == (if i == 0 then before else nums[i - 1]) + 1 || (i > 0 && nums[i] == 1)
  }

  function Restarts(nums: seq<nat>): nat {
    if |nums| <= 1 then 0 else Restarts(nums[..|nums| - 1]) + if nums[|nums| - 1] == 1 then 1 else 0
  }

  lemma {:induction false} RestartsCons(n: nat, nums: seq<nat>)
    requires nums != []
    ensures Restarts([n] + nums) == Restarts(nums) + if nums[0] == 1 then 1 else 0
  {
    var all := [n] + nums;
    assert all[..|all| - 1] == [n] + nums[..|nums| - 1];
    if |nums| > 1 {
      RestartsCons(n, nums[..|nums| - 1]);
    }
  }

  /** The loop ends within its budget, at most 2 * max attempts; it ends connected, told to stop, or giving up at the maximum. */
  lemma {:induction false} LoopBounded(max: int, cap: real, s: State, env: nat -> Turn, i: nat)
    ensures var o := Loop(max, cap, s, env, i);
            && |o.attempts| <= Budget(max, s)
            && (max >= 0 ==> |o.attempts| <= 2 * max)
            && (forall k :: 0 <= k < |o.attempts| ==> 1 <= o.attempts[k] <= max)
            && (o.connected ==> o.state.timer)
            && (!o.connected ==> !o.state.shouldReconnect)
            && (o.gaveUp ==> !o.connected && o.state.attempts >= max)
    decreases s.timer, max - s.attempts
  {
    var (s', _, status) := Body(max, s, env(i));
    if status.Again? {
      LoopBounded(max, cap, s', env, i + 1);
    }
  }

  lemma GaplessCons(n: nat, rest: seq<nat>, next: nat)
    requires n >= 1 && Gapless(rest, next) && (next == n || next == 0)
    ensures Gapless([n] + rest, n - 1)
  {
    var nums := [n] + rest;
    forall i | 0 <= i < |nums|
      ensures nums[i] == (if i == 0 then n - 1 else nums[i - 1]) + 1 || (i > 0 && nums[i] == 1)
    {
      if i == 1 {
        assert rest[0] == next + 1;
      } else if i > 1 {
        assert nums[i] == rest[i - 1] && nums[i - 1] == rest[i - 2];
      }
    }
  }

  /** Attempts are numbered without gaps. */
  lemma {:induction false} LoopNumbers(max: int, cap: real, s: State, env: nat -> Turn, i: nat)
    ensures Gapless(Loop(max, cap, s, env, i).attempts, s.attempts)
    ensures Loop(max, cap, s, env, i).attempts != [] ==> Loop(max, cap, s, env, i).attempts[0] == s.attempts + 1
    decreases s.timer, max - s.attempts
  {
    var (s', nums, status) := Body(max, s, env(i));
    if status.Again? {
      LoopNumbers(max, cap, s', env, i + 1);
      GaplessCons(s.attempts + 1, Loop(max, cap, s', env, i + 1).attempts, s'.attempts);
    }
  }

  lemma OneTurnRestarts(all: seq<nat>, n: nat, rest: seq<nat>, next: nat, timer: bool, timer': bool)
    requires all == [n] + rest && Restarts(rest) <= (if timer' then 1 else 0) && (rest != [] ==> rest[0] == next + 1)
    requires n >= 1 && (timer' ==> timer) && (next == n || (next == 0 && timer && !timer'))
    ensures Restarts(all) <= (if timer then 1 else 0)
  {
    if rest != [] {
      RestartsCons(n, rest);
    }
  }

  /** They start over at most once, and only if the timer was pending. */
  lemma {:induction false} LoopRestarts(max: int, cap: real, s: State, env: nat -> Turn, i: nat)
    ensures Restarts(Loop(max, cap, s, env, i).attempts) <= (if s.timer then 1 else 0)
    decreases s.timer, max - s.attempts
  {
    var all := Loop(max, cap, s, env, i).attempts;
    var (s', nums, status) := Body(max, s, env(i));
    LoopAttempts(max, cap, s, env, i);
    if status.Again? {
      var rest := Loop(max, cap, s', env, i + 1).attempts;
      LoopRestarts(max, cap, s', env, i + 1);
      LoopNumbers(max, cap, s', env, i + 1);
      assert all == [s.attempts + 1] + rest;
      OneTurnRestarts(all, s.attempts + 1, rest, s'.attempts, s.timer, s'.timer);
    } else {
      NoRestart(all);
    }
  }

  lemma NoRestart(nums: seq<nat>)
    requires |nums| <= 1
    ensures Restarts(nums) == 0
  {
  }

  lemma LoopAttempts(max: int, cap: real, s: State, env: nat -> Turn, i: nat)
    ensures var (s', nums, status) := Body(max, s, env(i));
            Loop(max, cap, s, env, i).attempts == if status.Again? then nums + Loop(max, cap, s', env, i + 1).attempts else nums
  {
  }

  /** The total sleep is at most the cap per attempt. */
  lemma {:induction false} LoopSleep(max: int, cap: real, s: State, env: nat -> Turn, i: nat)
    ensures var o := Loop(max, cap, s, env, i); o.slept <= Capped(|o.attempts|, cap)
    decreases s.timer, max - s.attempts
  {
    var (s', nums, status) := Body(max, s, env(i));
    if status.Again? {
      LoopSleep(max, cap, s', env, i + 1);
    }
  }

  /** n * cap. */
  function Capped(n: nat, cap: real): (r: real)
    ensures r == n as real * cap
  {
    if n == 0 then 0.0 else SleepAdds(n - 1, cap); Capped(n - 1, cap) + cap
  }

  lemma SleepAdds(n: nat, cap: real)
    ensures (n + 1) as real * cap == n as real * cap + cap
  {
  }

  // ---- The bound is reached ----

  /** Every dial fails; the timer fires during the dial of turn `at`. */
  function LateTimer(at: int): nat -> Turn {
    i => Turn([], if i == at then [StabilityTimer] else [], false)
  }

  lemma {:induction false} RunsOut(max: int, cap: real, s: State, at: int, i: nat)
    requires s.shouldReconnect && at < i && s.attempts <= max
    ensures |Loop(max, cap, s, LateTimer(at), i).attempts| == max - s.attempts
    decreases max - s.attempts
  {
    if s.attempts < max {
      RunsOut(max, cap, s.(attempts := s.attempts + 1), at, i + 1);
    }
  }

  /** The k attempts before the timer fires, and then a whole maximum more. */
  lemma {:induction false} TimerMidway(max: int, cap: real, s: State, k: nat, i: nat)
    requires s.shouldReconnect && s.timer && s.attempts + k < max
    ensures |Loop(max, cap, s, LateTimer(i + k), i).attempts| == k + 1 + max
    decreases k
  {
    var env, s1 := LateTimer(i + k), s.(attempts := s.attempts + 1);
    if k == 0 {
      var s2 := ApplyAll(s1, env(i).dialing);
      assert env(i).dialing == [StabilityTimer] && [StabilityTimer][1..] == [];
      assert ApplyAll(Apply(s1, StabilityTimer), []) == Apply(s1, StabilityTimer);
      assert s2 == s1.(timer := false, attempts := 0);
      RunsOut(max, cap, s2, i, i + 1);
    } else {
      TimerMidway(max, cap, s1, k - 1, i + 1);
    }
  }

  /** For every maximum some environment makes the loop take exactly 2 * max attempts. */
  lemma BoundIsReached(max: int, cap: real)
    requires max >= 1
    ensures exists env :: |Loop(max, cap, State(true, true, 0, true), env, 0).attempts| == 2 * max
  {
    TimerMidway(max, cap, State(true, true, 0, true), max - 1, 0);
  }

  /** One turn of the loop, in terms of what was announced by its end. */
  lemma Unroll(max: int, cap: real, s: State, env: nat -> Turn, i: nat, total: seq<nat>, done: seq<nat>)
    requires var (s', nums, status) := Body(max, s, env(i));
             |nums| <= |done| && done[|done| - |nums|..] == nums
             && total == done[..|done| - |nums|] + Loop(max, cap, s, env, i).attempts
    ensures var (s', nums, status) := Body(max, s, env(i));
            var o := Loop(max, cap, s, env, i);
            if status.Again? then
              var rest := Loop(max, cap, s', env, i + 1);
              o.state == rest.state && o.connected == rest.connected && o.gaveUp == rest.gaveUp
              && o.slept == SleepOf(nums, cap) + rest.slept && total == done + rest.attempts
            else
              o.state == s' && o.connected == status.Connected? && o.gaveUp == status.GaveUp? && o.slept == SleepOf(nums, cap) && total == done
  {
    var (s', nums, status) := Body(max, s, env(i));
    assert done == done[..|done| - |nums|] + nums;
    if status.Again? {
      var rest := Loop(max, cap, s', env, i + 1).attempts;
      assert done[..|done| - |nums|] + (nums + rest) == done + rest;
    }
  }

  // ---- The socket ----

  class MercurySocket {
    const maxAttempts: int
    const backoffMax: real
    var reconnecting: bool
    var shouldReconnect: bool
    var attempts: nat
    var timer: bool
    var announced: seq<nat>
    var gaveUp: bool

    function View(): State
      reads this
    {
      State(reconnecting, shouldReconnect, attempts, timer)
    }

    constructor (maxAttempts: int, backoffMax: real)
      ensures View() == State(false, true, 0, false) && announced == [] && !gaveUp
      ensures this.maxAttempts == maxAttempts && this.backoffMax == backoffMax
    {
      this.maxAttempts, this.backoffMax := maxAttempts, backoffMax;
      reconnecting, shouldReconnect, attempts, timer, announced, gaveUp := false, true, 0, false, [], false;
    }

    /** The callbacks that run while the loop awaits. */
    method Await(cs: seq<Callback>)
      modifies this`shouldReconnect, this`attempts, this`timer
      ensures View() == ApplyAll(old(View()), cs)
    {
      for k := 0 to |cs|
        invariant View() == ApplyAll(old(View()), cs[..k])
      {
        ApplyAllAppend(old(View()), cs[..k], cs[k]);
        assert cs[..k + 1] == cs[..k] + [cs[k]];
        match cs[k] {
          case StabilityTimer =>
            if timer {
              timer := false;
              attempts := 0;
            }
          case HandleClose(code) =>
            timer := false;
            if code == 4401 || code == 4400 || code == 4403 {
              shouldReconnect := false;
            }
          case PongTimeout =>
          case Disconnect =>
            shouldReconnect := false;
            timer := false;
        }
      }
      assert cs[..|cs|] == cs;
    }

    /** One turn of the loop body, with the seconds it slept. */
    method TakeTurn(turn: Turn) returns (status: Status, slept: real)
      requires shouldReconnect
      modifies this`shouldReconnect, this`attempts, this`timer, this`announced, this`gaveUp
      ensures var (s, nums, st) := Body(maxAttempts, old(View()), turn);
              && View() == s && status == st && announced == old(announced) + nums
              && slept == SleepOf(nums, backoffMax) && gaveUp == (old(gaveUp) || st.GaveUp?)
    {
      if attempts >= maxAttempts {
        shouldReconnect := false;
        gaveUp := true;
        return GaveUp, 0.0;
      }
      attempts := attempts + 1;
      var power := Pow2(attempts - 1) as real;
      slept := if power <= backoffMax then power else backoffMax;
      announced := announced + [attempts];
      Await(turn.sleeping);
      if !shouldReconnect {
        return Stopped, slept;
      }
      Await(turn.dialing);
      if turn.dialed {
        timer := true;
        return Connected, slept;
      }
      return if shouldReconnect then Again else Stopped, slept;
    }

    /** `_reconnect`: single-entry, then the loop; returns the seconds slept. */
    method Reconnect(env: nat -> Turn) returns (connected: bool, slept: real)
      modifies this
      ensures old(reconnecting) ==>
                View() == old(View()) && announced == old(announced) && gaveUp == old(gaveUp) && !connected
      ensures !old(reconnecting) ==>
                var o := Loop(maxAttempts, backoffMax, old(View()).(reconnecting := true), env, 0);
                && View() == o.state.(reconnecting := false)
                && connected == o.connected && slept == o.slept
                && announced == old(announced) + o.attempts && gaveUp == (old(gaveUp) || o.gaveUp)
    {
      connected, slept := false, 0.0;
      if reconnecting {
        return;
      }
      reconnecting := true;
      ghost var all := Loop(maxAttempts, backoffMax, View(), env, 0);
      var i := 0;
      while shouldReconnect
        invariant reconnecting && !connected && gaveUp == old(gaveUp)
        invariant Remaining(all, Loop(maxAttempts, backoffMax, View(), env, i), old(announced), slept)
        decreases timer, maxAttempts - attempts
      {
        ghost var before := View();
        var status, d := TakeTurn(env(i));
        slept := slept + d;
        Unroll(maxAttempts, backoffMax, before, env, i, old(announced) + all.attempts, announced);
        if !status.Again? {
          connected := status.Connected?;
          break;
        }
        i := i + 1;
      }
      reconnecting := false;
    }

    /** What happened so far plus what the rest of the loop does is what the whole loop does. */
    ghost predicate Remaining(all: Outcome, rest: Outcome, start: seq<nat>, slept: real)
      reads this
    {
      && all.state == rest.state && all.connected == rest.connected && all.gaveUp == rest.gaveUp
      && start + all.attempts == announced + rest.attempts
      && all.slept == slept + rest.slept
    }
  }
}
