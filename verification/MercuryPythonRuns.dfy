/**
 * What the callbacks of an await amount to, and what the reconnect loop of
 * python/src/webex_message_handler/mercury_socket.py does when it is left alone, told to
 * stop, or connects.
 */
module MercuryPythonRuns {
  import opened Backoff
  import opened MercuryPython

  /** The callback tells the socket to stop. */
  predicate TellsToStop(c: Callback) {
    c.Disconnect? || (c.HandleClose? && (c.code == 4400 || c.code == 4401 || c.code == 4403))
  }

  /** The stability timer comes before anything that would cancel it. */
  ghost predicate TimerFirst(cs: seq<Callback>) {
    exists i :: 0 <= i < |cs| && cs[i].StabilityTimer? && forall j :: 0 <= j < i ==> cs[j].PongTimeout?
  }

  lemma TimerFirstTail(cs: seq<Callback>)
    requires cs != []
    ensures TimerFirst(cs) <==> cs[0].StabilityTimer? || (cs[0].PongTimeout? && TimerFirst(cs[1..]))
  {
    if TimerFirst(cs) && !cs[0].StabilityTimer? {
      var i :| 0 <= i < |cs| && cs[i].StabilityTimer? && forall j :: 0 <= j < i ==> cs[j].PongTimeout?;
      assert cs[1..][i - 1].StabilityTimer? && forall j :: 0 <= j < i - 1 ==> cs[1..][j] == cs[j + 1];
    }
    if cs[0].PongTimeout? && TimerFirst(cs[1..]) {
      var i :| 0 <= i < |cs[1..]| && cs[1..][i].StabilityTimer? && forall j :: 0 <= j < i ==> cs[1..][j].PongTimeout?;
      assert cs[i + 1].StabilityTimer? && forall j :: 1 <= j < i + 1 ==> cs[j] == cs[1..][j - 1];
    }
  }

  /**
   * The callbacks of one await, whatever their number and order: they stop reconnecting
   * iff one tells to, leave a pending timer pending iff none but pong timeouts ran, and
   * clear the counter iff the pending timer came before anything that would cancel it.
   */
  lemma {:induction false} CallbacksAre(s: State, cs: seq<Callback>)
    ensures var r := ApplyAll(s, cs);
            && r.reconnecting == s.reconnecting
            && (r.shouldReconnect <==> s.shouldReconnect && forall i :: 0 <= i < |cs| ==> !TellsToStop(cs[i]))
            && (r.timer <==> s.timer && forall i :: 0 <= i < |cs| ==> cs[i].PongTimeout?)
            && r.attempts == if s.timer && TimerFirst(cs) then 0 else s.attempts
    decreases |cs|
  {
    if cs != [] {
      CallbacksAre(Apply(s, cs[0]), cs[1..]);
      TimerFirstTail(cs);
      assert forall i :: 0 < i < |cs| ==> cs[i] == cs[1..][i - 1];
    }
  }

  // ---- The loop left alone ----

  /** a+1, a+2, ..., a+n. */
  function Next(a: nat, n: nat): (r: seq<nat>)
    ensures |r| == n && forall i :: 0 <= i < n ==> r[i] == a + i + 1
  {
    seq(n, i requires 0 <= i => a + i + 1)
  }

  lemma NextCons(a: nat, n: nat)
    ensures Next(a, n + 1) == [a + 1] + Next(a + 1, n)
  {
  }

  /** No callback runs in any of the turns from `i` on. */
  ghost predicate Quiet(env: nat -> Turn, i: nat) {
    forall j :: j >= i ==> env(j).sleeping == [] && env(j).dialing == []
  }

  /** One quiet turn below the maximum. */
  lemma QuietTurn(max: int, s: State, turn: Turn)
    requires s.shouldReconnect && s.attempts < max && turn.sleeping == [] && turn.dialing == []
    ensures Body(max, s, turn) ==
              if turn.dialed then (s.(attempts := s.attempts + 1, timer := true), [s.attempts + 1], Connected)
              else (s.(attempts := s.attempts + 1), [s.attempts + 1], Again)
  {
  }

  lemma OneTurn(max: int, cap: real, s: State, env: nat -> Turn, i: nat)
    ensures var (s', nums, status) := Body(max, s, env(i));
            var o, d := Loop(max, cap, s, env, i), SleepOf(nums, cap);
            o == if status.Again? then
                   var rest := Loop(max, cap, s', env, i + 1);
                   Outcome(rest.state, nums + rest.attempts, d + rest.slept, rest.connected, rest.gaveUp)
                 else Outcome(s', nums, d, status.Connected?, status.GaveUp?)
  {
  }

  lemma ConnectedTurn(max: int, cap: real, s: State, env: nat -> Turn, i: nat)
    requires s.shouldReconnect && s.attempts < max && Quiet(env, i) && env(i).dialed
    ensures Loop(max, cap, s, env, i) ==
              Outcome(s.(attempts := s.attempts + 1, timer := true), Next(s.attempts, 1),
                      TotalSleep(s.attempts + 1, cap) - TotalSleep(s.attempts, cap), true, false)
  {
    OneTurn(max, cap, s, env, i);
    QuietTurn(max, s, env(i));
    assert Next(s.attempts, 1) == [s.attempts + 1];
  }

  lemma FailedTurn(max: int, cap: real, s: State, env: nat -> Turn, i: nat)
    requires s.shouldReconnect && s.attempts < max && Quiet(env, i) && !env(i).dialed
    ensures var rest := Loop(max, cap, s.(attempts := s.attempts + 1), env, i + 1);
            Loop(max, cap, s, env, i) ==
              Outcome(rest.state, [s.attempts + 1] + rest.attempts,
                      TotalSleep(s.attempts + 1, cap) - TotalSleep(s.attempts, cap) + rest.slept, rest.connected, rest.gaveUp)
  {
    OneTurn(max, cap, s, env, i);
    QuietTurn(max, s, env(i));
  }

  /** With `n` dials that fail and then one that succeeds below the maximum, the loop makes these n + 1 attempts and connects. */
  lemma {:induction false} AloneConnects(max: int, cap: real, s: State, env: nat -> Turn, i: nat, n: nat)
    requires s.shouldReconnect && s.attempts + n < max && Quiet(env, i)
    requires (forall j :: i <= j < i + n ==> !env(j).dialed) && env(i + n).dialed
    ensures Loop(max, cap, s, env, i) ==
              Outcome(s.(attempts := s.attempts + n + 1, timer := true), Next(s.attempts, n + 1),
                      TotalSleep(s.attempts + n + 1, cap) - TotalSleep(s.attempts, cap), true, false)
    decreases n
  {
    if n > 0 {
      FailedTurn(max, cap, s, env, i);
      NextCons(s.attempts, n);
      AloneConnects(max, cap, s.(attempts := s.attempts + 1), env, i + 1, n - 1);
    } else {
      ConnectedTurn(max, cap, s, env, i);
    }
  }

  /** With dials that all fail it makes every attempt up to the maximum, announces giving up and turns reconnecting off. */
  lemma {:induction false} AloneGivesUp(max: nat, cap: real, s: State, env: nat -> Turn, i: nat)
    requires s.shouldReconnect && s.attempts <= max && Quiet(env, i) && forall j :: j >= i ==> !env(j).dialed
    ensures Loop(max, cap, s, env, i) ==
              Outcome(s.(attempts := max, shouldReconnect := false), Next(s.attempts, max - s.attempts),
                      TotalSleep(max, cap) - TotalSleep(s.attempts, cap), false, true)
    decreases max - s.attempts
  {
    if s.attempts < max {
      FailedTurn(max, cap, s, env, i);
      NextCons(s.attempts, max - s.attempts - 1);
      AloneGivesUp(max, cap, s.(attempts := s.attempts + 1), env, i + 1);
    } else {
      OneTurn(max, cap, s, env, i);
      assert Next(s.attempts, 0) == [];
    }
  }

  // ---- The loop told to stop ----

  /** Off from the start, it does nothing. */
  lemma OffDoesNothing(max: int, cap: real, s: State, env: nat -> Turn, i: nat)
    requires !s.shouldReconnect
    ensures Loop(max, cap, s, env, i) == Outcome(s, [], 0.0, false, false)
  {
    OneTurn(max, cap, s, env, i);
  }

  /** Told to stop while it sleeps, it announces that attempt, sleeps it out and ends without dialling. */
  lemma StopsAsleep(max: int, cap: real, s: State, env: nat -> Turn, i: nat, k: nat)
    requires s.shouldReconnect && s.attempts < max && k < |env(i).sleeping| && TellsToStop(env(i).sleeping[k])
    ensures var o := Loop(max, cap, s, env, i);
            && o.attempts == [s.attempts + 1] && o.slept == Delay(s.attempts + 1, cap) && !o.connected && !o.gaveUp
            && o.state == ApplyAll(s.(attempts := s.attempts + 1), env(i).sleeping)
  {
    OneTurn(max, cap, s, env, i);
    CallbacksAre(s.(attempts := s.attempts + 1), env(i).sleeping);
  }

  /** Told to stop while it dials, it ends after that dial, connected iff the dial succeeded. */
  lemma StopsDialling(max: int, cap: real, s: State, env: nat -> Turn, i: nat, k: nat)
    requires s.shouldReconnect && s.attempts < max && forall j :: 0 <= j < |env(i).sleeping| ==> !TellsToStop(env(i).sleeping[j])
    requires k < |env(i).dialing| && TellsToStop(env(i).dialing[k])
    ensures var o := Loop(max, cap, s, env, i);
            && o.attempts == [s.attempts + 1] && (o.connected <==> env(i).dialed) && !o.gaveUp
            && !o.state.shouldReconnect && (o.state.timer <==> env(i).dialed)
  {
    var s1 := s.(attempts := s.attempts + 1);
    OneTurn(max, cap, s, env, i);
    CallbacksAre(s1, env(i).sleeping);
    CallbacksAre(ApplyAll(s1, env(i).sleeping), env(i).dialing);
  }
}
