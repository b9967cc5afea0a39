/**
 * What the goroutines of go/mercury_socket.go do when nobody comes in between: the
 * reconnect loop goes on until a dial succeeds or the maximum is reached, and Connect,
 * Disconnect, a close and the stability timer do all of what they are for.
 */
module MercuryGoRuns {
  import opened Common
  import opened MercuryGo

  ghost predicate At(s: Sys, t: Tid, pc: Pc) {
    t in s.threads && s.threads[t] == pc
  }

  /** The next step of goroutine `t`. */
  lemma Take(max: int, s0: Sys, es: seq<Event>, s: Sys, t: Tid, dialed: bool) returns (es': seq<Event>, s': Sys)
    requires Reaches(max, s0, es, s) && t in s.threads && !s.threads[t].Finished?
    ensures Reaches(max, s0, es', s') && s' == Advance(max, s, t, dialed)
  {
    es', s' := Go(max, s0, es, s, Run(t, dialed));
  }

  /** `s` after `t` has moved to `pc` and nothing else has changed. */
  function Moved(s: Sys, t: Tid, pc: Pc): Sys {
    s.(threads := s.threads[t := pc])
  }

  /** `s` after one more attempt was taken and reported, its goroutine at `pc`. */
  function Attempted(s: Sys, t: Tid, pc: Pc): Sys {
    var n := s.shared.attempts + 1;
    Moved(s, t, pc).(shared := s.shared.(attempts := n), taken := s.taken + [n], reported := s.reported + [n])
  }

  /** Below the maximum the loop takes the next attempt, reports it, sleeps and dials. */
  lemma Round(max: int, s0: Sys, es: seq<Event>, s: Sys, t: Tid) returns (es': seq<Event>, s': Sys)
    requires Reaches(max, s0, es, s) && At(s, t, LoopTop) && s.shared.shouldReconnect && s.shared.attempts < max
    ensures Reaches(max, s0, es', s') && s' == Attempted(s, t, Dialing)
  {
    es', s' := Take(max, s0, es, s, t, true);
    es', s' := Take(max, s0, es', s', t, true);
    es', s' := TakeReport(max, s0, es', s', t, s.shared.attempts + 1);
    assert s'.threads == s.threads[t := Dialing];
  }

  lemma TakeReport(max: int, s0: Sys, es: seq<Event>, s: Sys, t: Tid, n: int) returns (es': seq<Event>, s': Sys)
    requires Reaches(max, s0, es, s) && At(s, t, Reporting(n)) && s.shared.shouldReconnect
    ensures Reaches(max, s0, es', s') && s' == Moved(s, t, Dialing).(reported := s.reported + [n])
  {
    es', s' := Take(max, s0, es, s, t, true);
    es', s' := Take(max, s0, es', s', t, true);
    es', s' := Take(max, s0, es', s', t, true);
    assert s'.threads == s.threads[t := Dialing];
  }

  /** A dial that fails leads back to the top. */
  lemma DialFails(max: int, s0: Sys, es: seq<Event>, s: Sys, t: Tid) returns (es': seq<Event>, s': Sys)
    requires Reaches(max, s0, es, s) && At(s, t, Dialing)
    ensures Reaches(max, s0, es', s') && s' == Moved(s, t, LoopTop)
  {
    es', s' := Take(max, s0, es, s, t, false);
  }

  /** `s` with the pending timer stopped, a new one armed, and the flag cleared. */
  function Connected(s: Sys, t: Tid): Sys {
    var id := s.nextTimer;
    Moved(s, t, Finished).(
      shared := s.shared.(reconnecting := false, slot := Some(id)),
      armed := (if s.shared.slot.Some? then s.armed - {s.shared.slot.value} else s.armed) + {id},
      nextTimer := id + 1)
  }

  /** One that succeeds ends the loop: a new stability timer, the flag cleared, reconnecting still on. */
  lemma DialSucceeds(max: int, s0: Sys, es: seq<Event>, s: Sys, t: Tid) returns (es': seq<Event>, s': Sys)
    requires Reaches(max, s0, es, s) && At(s, t, Dialing)
    ensures Reaches(max, s0, es', s') && s' == Connected(s, t)
  {
    es', s' := Take(max, s0, es, s, t, true);
    es', s' := Take(max, s0, es', s', t, true);
    es', s' := Take(max, s0, es', s', t, true);
    assert s'.threads == s.threads[t := Finished];
  }

  /** `s` after giving up: reconnecting off, one notice more, the flag cleared. */
  function GivenUp(s: Sys, t: Tid): Sys {
    Moved(s, t, Finished).(shared := s.shared.(shouldReconnect := false, reconnecting := false), gaveUp := s.gaveUp + 1)
  }

  lemma GivesUp(max: int, s0: Sys, es: seq<Event>, s: Sys, t: Tid) returns (es': seq<Event>, s': Sys)
    requires Reaches(max, s0, es, s) && At(s, t, LoopTop) && s.shared.shouldReconnect && s.shared.attempts >= max
    ensures Reaches(max, s0, es', s') && s' == GivenUp(s, t)
  {
    es', s' := Take(max, s0, es, s, t, true);
    es', s' := Take(max, s0, es', s', t, true);
    es', s' := Take(max, s0, es', s', t, true);
    es', s' := Take(max, s0, es', s', t, true);
    assert s'.threads == s.threads[t := Finished];
  }

  /** a+1, a+2, ..., a+n. */
  function Next(a: nat, n: nat): seq<int> {
    seq(n, i => a + i + 1)
  }

  /** `s` after `n` attempts whose dials failed, its goroutine at the top of the loop. */
  function Failed(s: Sys, t: Tid, n: nat): Sys {
    Moved(s, t, LoopTop).(
      shared := s.shared.(attempts := s.shared.attempts + n),
      taken := s.taken + Next(s.shared.attempts, n),
      reported := s.reported + Next(s.shared.attempts, n))
  }

  lemma NextOne(a: nat, n: nat, xs: seq<int>)
    ensures (xs + Next(a, n)) + [a + n + 1] == xs + Next(a, n + 1)
  {
  }

  lemma {:induction false} Fails(max: int, s0: Sys, es: seq<Event>, s: Sys, t: Tid, n: nat) returns (es': seq<Event>, s': Sys)
    requires Reaches(max, s0, es, s) && At(s, t, LoopTop) && s.shared.shouldReconnect && s.shared.attempts + n <= max
    ensures Reaches(max, s0, es', s') && s' == Failed(s, t, n)
  {
    if n == 0 {
      es', s' := es, s;
      assert s.threads[t := LoopTop] == s.threads;
      assert s.taken + Next(s.shared.attempts, 0) == s.taken && s.reported + Next(s.shared.attempts, 0) == s.reported;
    } else {
      es', s' := Fails(max, s0, es, s, t, n - 1);
      es', s' := Round(max, s0, es', s', t);
      es', s' := DialFails(max, s0, es', s', t);
      NextOne(s.shared.attempts, n - 1, s.taken);
      NextOne(s.shared.attempts, n - 1, s.reported);
      assert s'.threads == s.threads[t := LoopTop];
    }
  }

  /** From a close that finds reconnecting on and nobody in the loop to the top of the loop. */
  lemma Enters(max: int, s: Sys, t: Tid) returns (es: seq<Event>, s': Sys)
    requires At(s, t, TriggerEnter) && s.shared.shouldReconnect && !s.shared.reconnecting
    ensures Reaches(max, s, es, s') && s' == Moved(s, t, LoopTop).(shared := s.shared.(reconnecting := true))
  {
    es, s' := Take(max, s, [], s, t, true);
    es, s' := Take(max, s, es, s', t, true);
    assert s'.threads == s.threads[t := LoopTop];
  }

  /**
   * Left alone with dials that all fail, a reconnect makes every attempt up to the
   * maximum, in order, then gives its one notice and turns reconnecting off.
   */
  lemma AloneGivesUp(max: nat, s: Sys, t: Tid) returns (es: seq<Event>, s': Sys)
    requires At(s, t, TriggerEnter) && s.shared.shouldReconnect && !s.shared.reconnecting && s.shared.attempts <= max
    ensures Reaches(max, s, es, s') && At(s', t, Finished)
    ensures s'.reported == s.reported + Next(s.shared.attempts, max - s.shared.attempts)
    ensures s'.gaveUp == s.gaveUp + 1 && s'.shared == s.shared.(attempts := max, shouldReconnect := false, reconnecting := false)
  {
    es, s' := Enters(max, s, t);
    es, s' := Fails(max, s, es, s', t, max - s.shared.attempts);
    es, s' := GivesUp(max, s, es, s', t);
  }

  /**
   * Left alone with `n` dials that fail and one that succeeds before the maximum, it makes
   * exactly those n + 1 attempts, arms a new stability timer and leaves reconnecting on.
   */
  lemma AloneConnects(max: nat, s: Sys, t: Tid, n: nat) returns (es: seq<Event>, s': Sys)
    requires At(s, t, TriggerEnter) && s.shared.shouldReconnect && !s.shared.reconnecting && s.shared.attempts + n < max
    ensures Reaches(max, s, es, s') && At(s', t, Finished)
    ensures s'.reported == s.reported + Next(s.shared.attempts, n + 1) && s'.gaveUp == s.gaveUp
    ensures s'.shared == s.shared.(attempts := s.shared.attempts + n + 1, slot := Some(s.nextTimer))
    ensures s.nextTimer in s'.armed
  {
    es, s' := Enters(max, s, t);
    es, s' := Fails(max, s, es, s', t, n);
    es, s' := Round(max, s, es, s', t);
    es, s' := DialSucceeds(max, s, es, s', t);
    NextOne(s.shared.attempts, n, s.reported);
  }

  // ---- The other goroutines ----

  /** A reconnect that finds another in the loop, or reconnecting off, ends at once and changes nothing. */
  lemma EntersIff(max: int, s: Sys, t: Tid)
    requires At(s, t, TriggerEnter)
    ensures var s' := Advance(max, s, t, true);
            && (!At(s', t, Finished) <==> s.shared.shouldReconnect && !s.shared.reconnecting)
            && (At(s', t, Finished) ==> s' == Moved(s, t, Finished))
  {
  }

  /** A reconnect told to stop while it sleeps, or at the top of the loop, dials no more and clears the flag. */
  lemma StopsWhenTold(max: int, s: Sys, t: Tid) returns (es: seq<Event>, s': Sys)
    requires At(s, t, Recheck) || At(s, t, LoopTop)
    requires !s.shared.shouldReconnect
    ensures Reaches(max, s, es, s') && s' == Moved(s, t, Finished).(shared := s.shared.(reconnecting := false))
  {
    es, s' := Take(max, s, [], s, t, true);
    es, s' := Take(max, s, es, s', t, true);
    assert s'.threads == s.threads[t := Finished];
  }

  /** `s` without its pending timer. */
  function Calm(s: Sys): Sys {
    s.(shared := s.shared.(slot := None),
       armed := if s.shared.slot.Some? then s.armed - {s.shared.slot.value} else s.armed)
  }

  /** Connect turns reconnecting on, cancels the timer and clears the counter. */
  lemma Connects(max: int, s: Sys, t: Tid) returns (es: seq<Event>, s': Sys)
    requires At(s, t, ConnectSet)
    ensures Reaches(max, s, es, s')
    ensures s' == Moved(Calm(s), t, Finished).(
                    shared := s.shared.(slot := None, shouldReconnect := true, attempts := 0),
                    connects := s.connects + 1, resets := s.resets + 1)
  {
    es, s' := Take(max, s, [], s, t, true);
    es, s' := Take(max, s, es, s', t, true);
    es, s' := Take(max, s, es, s', t, true);
    assert s'.threads == s.threads[t := Finished];
  }

  /** Disconnect turns reconnecting off and cancels the timer. */
  lemma Disconnects(max: int, s: Sys, t: Tid) returns (es: seq<Event>, s': Sys)
    requires At(s, t, DisconnectSet)
    ensures Reaches(max, s, es, s')
    ensures s' == Moved(Calm(s), t, Finished).(shared := s.shared.(slot := None, shouldReconnect := false))
  {
    es, s' := Take(max, s, [], s, t, true);
    es, s' := Take(max, s, es, s', t, true);
    assert s'.threads == s.threads[t := Finished];
  }

  /** A terminal close cancels the timer and turns reconnecting off; another one goes on to reconnect iff it is on. */
  lemma ClosesAre(max: int, s: Sys, t: Tid, terminal: bool) returns (es: seq<Event>, s': Sys)
    requires At(s, t, CloseCancel(terminal))
    ensures Reaches(max, s, es, s')
    ensures terminal ==> s' == Moved(Calm(s), t, Finished).(shared := s.shared.(slot := None, shouldReconnect := false))
    ensures !terminal ==> s' == Moved(Calm(s), t, if s.shared.shouldReconnect then TriggerEnter else Finished)
  {
    es, s' := Take(max, s, [], s, t, true);
    es, s' := Take(max, s, es, s', t, true);
    assert s'.threads == s.threads[t := s'.threads[t]];
  }

  /** A stability timer that fires clears the counter and its slot, and counts as a reset. */
  lemma TimerClears(max: int, s: Sys, id: TimerId) returns (es: seq<Event>, s': Sys)
    requires id in s.armed && id !in s.firing
    ensures Reaches(max, s, es, s')
    ensures s' == s.(armed := s.armed - {id}, shared := s.shared.(attempts := 0, slot := None), resets := s.resets + 1)
  {
    es, s' := Go(max, s, [], s, Fire(id));
    es, s' := Go(max, s, es, s', Callback(id));
    assert s.firing + {id} - {id} == s.firing;
  }
}
