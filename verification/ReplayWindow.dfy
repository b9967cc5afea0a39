/** The five-minute replay window at the head of handleActivity in go/handler.go. Times are nanoseconds. */
module ReplayWindow {
  type ActivityId = string

  const WINDOW: nat := 300_000_000_000
  const SWEEP_EVERY: nat := 100

  /** One delivery: the clock when it is recorded, and again when a sweep computes its cutoff. */
  datatype Delivery = Delivery(id: ActivityId, at: nat, swept: nat)

  function Sweep(m: map<ActivityId, nat>, now: nat): map<ActivityId, nat> {
    map id | id in m && !(m[id] < now - WINDOW) :: m[id]
  }

  predicate SweepDue(m: map<ActivityId, nat>) {
    |m| % SWEEP_EVERY == 0
  }

  function Record(m: map<ActivityId, nat>, d: Delivery): map<ActivityId, nat> {
    if d.id in m then m
    else
      var m1 := m[d.id := d.at];
      if SweepDue(m1) then Sweep(m1, d.swept) else m1
  }

  class WebexMessageHandler {
    var recentActivityIDs: map<ActivityId, nat>

    constructor ()
      ensures recentActivityIDs == map[]
    {
      recentActivityIDs := map[];
    }

    /** Whether the activity is to be processed; the whole body holds the lock. */
    method CheckReplay(d: Delivery) returns (process: bool)
      modifies this
      ensures process <==> d.id !in old(recentActivityIDs)
      ensures recentActivityIDs == Record(old(recentActivityIDs), d)
    {
      if d.id in recentActivityIDs {
        return false;
      }
      recentActivityIDs := recentActivityIDs[d.id := d.at];
      if |recentActivityIDs| % SWEEP_EVERY == 0 {
        var cutoff := d.swept - WINDOW;
        ghost var m := recentActivityIDs;
        var todo := recentActivityIDs.Keys;
        while todo != {}
          invariant todo <= m.Keys
          invariant recentActivityIDs == map id | id in m && (id in todo || !(m[id] < cutoff)) :: m[id]
          decreases |todo|
        {
          var id :| id in todo;
          if recentActivityIDs[id] < cutoff {
            recentActivityIDs := recentActivityIDs - {id};
          }
          todo := todo - {id};
        }
      }
      return true;
    }
  }

  // ---- Runs of deliveries ----

  /** The clock never goes back. */
  ghost predicate Nondecreasing(ds: seq<Delivery>) {
    && (forall i :: 0 <= i < |ds| ==> ds[i].at <= ds[i].swept)
    && (forall i, j :: 0 <= i < j < |ds| ==> ds[i].swept <= ds[j].at)
  }

  function After(ds: seq<Delivery>): map<ActivityId, nat> {
    if ds == [] then map[] else Record(After(ds[..|ds| - 1]), ds[|ds| - 1])
  }

  predicate Processed(ds: seq<Delivery>, i: nat)
    requires i < |ds|
  {
    ds[i].id !in After(ds[..i])
  }

  /** From its processing on, an id is in the map until a sweep more than five minutes later. */
  lemma {:induction false} Remembered(ds: seq<Delivery>, i: nat, k: nat)
    requires Nondecreasing(ds) && i < k <= |ds| && Processed(ds, i)
    ensures ds[k - 1].swept > ds[i].at + WINDOW
            || (ds[i].id in After(ds[..k]) && After(ds[..k])[ds[i].id] >= ds[i].at)
  {
    var last := k - 1;
    assert ds[..k][..last] == ds[..last];
    if last > i {
      Remembered(ds, i, last);
      assert ds[last - 1].swept <= ds[last].swept;
    }
    if last > i && ds[last - 1].swept <= ds[i].at + WINDOW {
      RecordKeeps(After(ds[..last]), ds[last], ds[i].id, ds[i].at);
    }
  }

  lemma RecordKeeps(m: map<ActivityId, nat>, d: Delivery, id: ActivityId, t: nat)
    requires id in m && m[id] >= t
    ensures d.swept > t + WINDOW || (id in Record(m, d) && Record(m, d)[id] >= t)
  {
  }

  /** Two processed deliveries of the same activity are more than five minutes apart. */
  lemma ReplayGap(ds: seq<Delivery>, i: nat, j: nat)
    requires Nondecreasing(ds) && i < j < |ds|
    requires ds[i].id == ds[j].id && Processed(ds, i) && Processed(ds, j)
    ensures ds[j].at > ds[i].at + WINDOW
  {
    Remembered(ds, i, j);
  }

  // ---- Exactly what is remembered ----

  /** Delivery `j` sweeps: it is processed and brings the number of entries to a multiple of 100. */
  predicate Sweeps(ds: seq<Delivery>, j: nat)
    requires j < |ds|
  {
    Processed(ds, j) && (|After(ds[..j])| + 1) % 100 == 0
  }

  /** Delivery `i` of `id` was processed before `k`, and no sweep since, its own included, came more than five minutes after it. */
  ghost predicate Keeps(ds: seq<Delivery>, k: nat, id: ActivityId, i: nat)
    requires k <= |ds|
  {
    && i < k && ds[i].id == id && Processed(ds, i)
    && forall j :: i <= j < k ==> !Forgets(ds, j, ds[i].at)
  }

  /** Delivery `j` sweeps, more than five minutes after `t`. */
  ghost predicate Forgets(ds: seq<Delivery>, j: int, t: nat) {
    0 <= j < |ds| && Sweeps(ds, j) && ds[j].swept > t + 300_000_000_000
  }

  lemma OneMoreDelivery(ds: seq<Delivery>, k: nat)
    requires k < |ds|
    ensures After(ds[..k + 1]) == Record(After(ds[..k]), ds[k])
    ensures !Processed(ds, k) ==> After(ds[..k + 1]) == After(ds[..k])
    ensures Processed(ds, k) ==>
              var m := After(ds[..k])[ds[k].id := ds[k].at];
              After(ds[..k + 1]) == if Sweeps(ds, k) then Sweep(m, ds[k].swept) else m
  {
    assert ds[..k + 1][..k] == ds[..k];
    if Processed(ds, k) {
      assert |After(ds[..k])[ds[k].id := ds[k].at]| == |After(ds[..k])| + 1;
    }
  }

  /** The stamp that `id` has once delivery `k` was recorded, before it sweeps. */
  function Stamp(ds: seq<Delivery>, k: nat, id: ActivityId): nat
    requires k < |ds| && (ds[k].id == id || id in After(ds[..k]))
  {
    if Processed(ds, k) && ds[k].id == id then ds[k].at else After(ds[..k])[id]
  }

  /** Delivery `k` keeps the ids that were there and its own, but for those its sweep finds older than five minutes. */
  lemma MapStep(ds: seq<Delivery>, k: nat, id: ActivityId)
    requires k < |ds|
    ensures id in After(ds[..k + 1]) <==>
              (ds[k].id == id || id in After(ds[..k])) && !Forgets(ds, k, Stamp(ds, k, id))
    ensures id in After(ds[..k + 1]) ==> After(ds[..k + 1])[id] == Stamp(ds, k, id)
  {
    OneMoreDelivery(ds, k);
  }

  lemma KeepsEarlier(ds: seq<Delivery>, k: nat, id: ActivityId, i: nat)
    requires i < k < |ds| && Keeps(ds, k + 1, id, i)
    ensures Keeps(ds, k, id, i)
  {
  }

  lemma KeepsLater(ds: seq<Delivery>, k: nat, id: ActivityId, i: nat)
    requires k < |ds| && (Keeps(ds, k, id, i) || (i == k && ds[k].id == id && Processed(ds, k)))
    requires !Forgets(ds, k, ds[i].at)
    ensures Keeps(ds, k + 1, id, i)
  {
  }

  ghost predicate InMap(ds: seq<Delivery>, k: nat, id: ActivityId, t: nat)
    requires k <= |ds|
  {
    id in After(ds[..k]) && After(ds[..k])[id] == t
  }

  lemma KeptAtOnce(ds: seq<Delivery>, id: ActivityId, i: nat)
    requires i < |ds| && Keeps(ds, i + 1, id, i)
    ensures InMap(ds, i + 1, id, ds[i].at)
  {
    MapStep(ds, i, id);
  }

  lemma KeptOnceMore(ds: seq<Delivery>, k: nat, id: ActivityId, i: nat)
    requires i < k < |ds| && Keeps(ds, k + 1, id, i) && InMap(ds, k, id, ds[i].at)
    ensures InMap(ds, k + 1, id, ds[i].at)
  {
    assert Stamp(ds, k, id) == ds[i].at;
    MapStep(ds, k, id);
  }

  lemma {:induction false} KeptIsInMap(ds: seq<Delivery>, k: nat, id: ActivityId, i: nat)
    requires k <= |ds| && Keeps(ds, k, id, i)
    ensures InMap(ds, k, id, ds[i].at)
  {
    if i == k - 1 {
      KeptAtOnce(ds, id, i);
    } else {
      var n := k - 1;
      KeepsEarlier(ds, n, id, i);
      KeptIsInMap(ds, n, id, i);
      KeptOnceMore(ds, n, id, i);
    }
  }

  lemma {:induction false} InMapIsKept(ds: seq<Delivery>, k: nat, id: ActivityId) returns (i: nat)
    requires k <= |ds| && id in After(ds[..k])
    ensures Keeps(ds, k, id, i)
  {
    if k == 0 {
      assert false;
    } else {
      MapStep(ds, k - 1, id);
      if id in After(ds[..k - 1]) {
        i := InMapIsKept(ds, k - 1, id);
        KeptIsInMap(ds, k - 1, id, i);
      } else {
        i := k - 1;
      }
      KeepsLater(ds, k - 1, id, i);
    }
  }

  /**
   * A delivery is processed exactly if each earlier one of its id that was processed has
   * been forgotten: some sweep came more than five minutes after it.
   */
  lemma ProcessedIff(ds: seq<Delivery>, k: nat)
    requires k < |ds|
    ensures Processed(ds, k) <==> forall i: nat :: !Keeps(ds, k, ds[k].id, i)
  {
    if !Processed(ds, k) {
      var i := InMapIsKept(ds, k, ds[k].id);
    }
    forall i: nat | Keeps(ds, k, ds[k].id, i)
      ensures !Processed(ds, k)
    {
      KeptIsInMap(ds, k, ds[k].id, i);
    }
  }

  /** The map holds, for each id, the time of the processed delivery that is kept, and nothing else. */
  lemma MapIs(ds: seq<Delivery>, k: nat, id: ActivityId, t: nat)
    requires k <= |ds|
    ensures InMap(ds, k, id, t) <==> exists i: nat :: Keeps(ds, k, id, i) && ds[i].at == t
  {
    if InMap(ds, k, id, t) {
      var i := InMapIsKept(ds, k, id);
      KeptIsInMap(ds, k, id, i);
    }
    forall i: nat | Keeps(ds, k, id, i)
      ensures InMap(ds, k, id, ds[i].at)
    {
      KeptIsInMap(ds, k, id, i);
    }
  }

  // ---- Size ----

  /** How many entries the last sweep kept; none before the first. */
  function LastKept(ds: seq<Delivery>): nat {
    if ds == [] then 0
    else
      var m, d := After(ds[..|ds| - 1]), ds[|ds| - 1];
      if d.id !in m && SweepDue(m[d.id := d.at]) then |Sweep(m[d.id := d.at], d.swept)|
      else LastKept(ds[..|ds| - 1])
  }

  lemma StaysBelow(n: nat, kept: nat)
    requires kept <= n && n / SWEEP_EVERY == kept / SWEEP_EVERY && (n + 1) % SWEEP_EVERY != 0
    ensures n + 1 < kept + SWEEP_EVERY && (n + 1) / SWEEP_EVERY == kept / SWEEP_EVERY
  {
  }

  /** The map never crosses a multiple of 100 between sweeps, so it stays below F + 100. */
  lemma {:induction false} SizeBound(ds: seq<Delivery>)
    ensures LastKept(ds) <= |After(ds)| < LastKept(ds) + SWEEP_EVERY
    ensures |After(ds)| / SWEEP_EVERY == LastKept(ds) / SWEEP_EVERY
  {
    if ds != [] {
      SizeBound(ds[..|ds| - 1]);
      var m, d := After(ds[..|ds| - 1]), ds[|ds| - 1];
      if d.id !in m {
        assert |m[d.id := d.at]| == |m| + 1;
        if !SweepDue(m[d.id := d.at]) {
          StaysBelow(|m|, LastKept(ds[..|ds| - 1]));
        }
      }
    }
  }

  ghost predicate Stamped(m: map<ActivityId, nat>, now: nat) {
    forall id :: id in m ==> m[id] <= now
  }

  lemma {:induction false} StampsArePast(ds: seq<Delivery>, now: nat)
    requires forall i :: 0 <= i < |ds| ==> ds[i].at <= now
    ensures Stamped(After(ds), now)
  {
    if ds != [] {
      StampsArePast(ds[..|ds| - 1], now);
    }
  }

  /** When a delivery sweeps, all that is kept is between zero and five minutes old. */
  lemma KeptAreRecent(ds: seq<Delivery>, i: nat)
    requires Nondecreasing(ds) && i < |ds| && Processed(ds, i)
    requires SweepDue(After(ds[..i])[ds[i].id := ds[i].at])
    ensures var m := After(ds[..i + 1]); forall id :: id in m ==> 0 <= ds[i].swept - m[id] <= WINDOW
  {
    assert ds[..i + 1][..i] == ds[..i];
    StampsArePast(ds[..i + 1], ds[i].swept);
  }
}
