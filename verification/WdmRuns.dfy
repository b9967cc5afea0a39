/** What a register call asks of the server, and how many devices a client can leave there. */
module WdmRuns {
  import opened Common
  import opened Wdm

  // ---- The requests of one call ----

  /** U2C first, if the base was never resolved. */
  function Lookup<S>(m: Manager<S>): seq<Request> {
    if m.wdmUrl.None? then [U2cCatalog] else []
  }

  /** The base a manager uses, resolved now or earlier. */
  function Base<S>(w: World<S>, m: Manager<S>): string {
    Discover(w, m).1
  }

  function Deletes(ds: seq<Device>): seq<Request> {
    if ds == [] then []
    else Deletes(ds[..|ds| - 1]) + if Own(ds[|ds| - 1]) then [Delete(ds[|ds| - 1].url)] else []
  }

  /** The server after it was asked `reqs` in order. */
  function Replay<S>(w: World<S>, s: S, reqs: seq<Request>): S {
    if reqs == [] then s else w.serve(Replay(w, s, reqs[..|reqs| - 1]), reqs[|reqs| - 1]).0
  }

  /** `m'` is a manager that has asked `reqs` since it was `m`. */
  ghost predicate Asked<S>(w: World<S>, m: Manager<S>, reqs: seq<Request>, m': Manager<S>) {
    m'.trace == m.trace + reqs && m'.server == Replay(w, m.server, reqs)
  }

  lemma {:induction false} ReplayAppend<S>(w: World<S>, s: S, a: seq<Request>, b: seq<Request>)
    ensures Replay(w, s, a + b) == Replay(w, Replay(w, s, a), b)
  {
    if b == [] {
      assert a + b == a;
    } else {
      assert (a + b)[..|a + b| - 1] == a + b[..|b| - 1];
      ReplayAppend(w, s, a, b[..|b| - 1]);
    }
  }

  lemma AskedThen<S>(w: World<S>, m: Manager<S>, a: seq<Request>, m1: Manager<S>, b: seq<Request>, m2: Manager<S>)
    requires Asked(w, m, a, m1) && Asked(w, m1, b, m2)
    ensures Asked(w, m, a + b, m2)
  {
    ReplayAppend(w, m.server, a, b);
  }

  lemma AskedOne<S>(w: World<S>, m: Manager<S>, r: Request)
    ensures Asked(w, m, [r], Fetch(w, m, r).0)
  {
    assert Replay(w, m.server, [r][..0]) == m.server;
  }

  lemma ListTrace<S>(w: World<S>, m: Manager<S>)
    ensures var m' := ListDevices(w, m).0;
            Asked(w, m, Lookup(m) + [Get(Base(w, m))], m') && m'.wdmUrl == Some(Base(w, m)) && m'.deviceUrl == m.deviceUrl
  {
    var (m1, base) := Discover(w, m);
    AskedOne(w, m, U2cCatalog);
    AskedOne(w, m1, Get(base));
    AskedThen(w, m, Lookup(m), m1, [Get(base)], ListDevices(w, m).0);
  }

  lemma CreateTrace<S>(w: World<S>, m: Manager<S>)
    requires m.wdmUrl.Some?
    ensures var m' := CreateDevice(w, m).0;
            Asked(w, m, [Post(m.wdmUrl.value)], m') && m'.wdmUrl == m.wdmUrl
  {
    AskedOne(w, m, Post(m.wdmUrl.value));
  }

  lemma {:induction false} DeleteTrace<S>(w: World<S>, m: Manager<S>, ds: seq<Device>)
    ensures var m' := DeleteOwn(w, m, ds);
            Asked(w, m, Deletes(ds), m') && m'.wdmUrl == m.wdmUrl && m'.deviceUrl == m.deviceUrl
  {
    if ds != [] {
      var front, last := ds[..|ds| - 1], ds[|ds| - 1];
      DeleteTrace(w, m, front);
      if Own(last) {
        var m1 := DeleteOwn(w, m, front);
        AskedOne(w, m1, Delete(last.url));
        AskedThen(w, m, Deletes(front), m1, [Delete(last.url)], DeleteOwn(w, m, ds));
      } else {
        assert Deletes(front) + [] == Deletes(front);
      }
    }
  }

  /** What the server lists when a reaping manager asks it. */
  function Listed<S>(w: World<S>, m: Manager<S>): seq<Device> {
    var ds := ListDevices(w, m).1;
    if ds.Some? then ds.value else []
  }

  lemma ReapTrace<S>(w: World<S>, m: Manager<S>)
    requires m.wdmUrl.Some?
    ensures var m' := ReapOwn(w, m);
            Asked(w, m, [Get(m.wdmUrl.value)] + Deletes(Listed(w, m)), m') && m'.wdmUrl == m.wdmUrl
  {
    ListTrace(w, m);
    var (m1, ds) := ListDevices(w, m);
    var get := [Get(m.wdmUrl.value)];
    assert Lookup(m) + get == get;
    if ds.Some? {
      DeleteTrace(w, m1, ds.value);
      AskedThen(w, m, get, m1, Deletes(ds.value), ReapOwn(w, m));
    } else {
      assert get + Deletes([]) == get;
    }
  }

  /** POST, or POST GET DELETE* POST where the DELETEs are the own devices then listed. */
  function CreateRequests<S>(w: World<S>, m: Manager<S>, base: string): seq<Request> {
    var (m1, r) := CreateDevice(w, m);
    if r == Err(RegistrationError(Some(403))) then [Post(base), Get(base)] + Deletes(Listed(w, m1)) + [Post(base)]
    else [Post(base)]
  }

  lemma CreateOrReapTrace<S>(w: World<S>, m: Manager<S>)
    requires m.wdmUrl.Some?
    ensures Asked(w, m, CreateRequests(w, m, m.wdmUrl.value), CreateOrReap(w, m).0)
    ensures CreateOrReap(w, m).0.wdmUrl == m.wdmUrl
  {
    CreateTrace(w, m);
    var (m1, r) := CreateDevice(w, m);
    if r == Err(RegistrationError(Some(403))) {
      var base, deletes, m2 := m.wdmUrl.value, Deletes(Listed(w, m1)), ReapOwn(w, m1);
      ReapTrace(w, m1);
      CreateTrace(w, m2);
      AskedThen(w, m, [Post(base)], m1, [Get(base)] + deletes, m2);
      AskedThen(w, m, [Post(base)] + ([Get(base)] + deletes), m2, [Post(base)], CreateOrReap(w, m).0);
      assert [Post(base)] + ([Get(base)] + deletes) + [Post(base)] == [Post(base), Get(base)] + deletes + [Post(base)];
    }
  }

  /** The manager once it has listed, and the own device it found, if any. */
  function Looked<S>(w: World<S>, m: Manager<S>): (Manager<S>, Option<string>) {
    var (m1, ds) := ListDevices(w, m);
    (m1, if ds.Some? then Reusable(ds.value) else None)
  }

  /** PUT, exactly if an own device was listed. */
  function PutRequests<S>(w: World<S>, m: Manager<S>): seq<Request> {
    var url := Looked(w, m).1;
    if url.Some? then [Put(url.value)] else []
  }

  /** The manager when it turns to creating a device. */
  function Creating<S>(w: World<S>, m: Manager<S>): Manager<S> {
    var (m1, url) := Looked(w, m);
    if url.None? then m1 else Refresh(w, m1.(deviceUrl := url)).0.(deviceUrl := None)
  }

  /** Nothing, exactly if the refresh was accepted; else the requests that create. */
  function TailRequests<S>(w: World<S>, m: Manager<S>): seq<Request> {
    var (m1, url) := Looked(w, m);
    if url.Some? && Refresh(w, m1.(deviceUrl := url)).1.Ok? then [] else CreateRequests(w, Creating(w, m), Base(w, m))
  }

  /** [U2C] GET [PUT]. */
  function HeadRequests<S>(w: World<S>, m: Manager<S>): seq<Request> {
    Lookup(m) + [Get(Base(w, m))] + PutRequests(w, m)
  }

  lemma HeadTrace<S>(w: World<S>, m: Manager<S>)
    ensures var (m1, url) := Looked(w, m);
            var m2 := if url.None? then m1 else Refresh(w, m1.(deviceUrl := url)).0;
            Asked(w, m, HeadRequests(w, m), m2) && m2.wdmUrl == Some(Base(w, m))
  {
    ListTrace(w, m);
    var (m1, url) := Looked(w, m);
    if url.Some? {
      var m1' := m1.(deviceUrl := url);
      AskedOne(w, m1', Put(url.value));
      AskedThen(w, m, Lookup(m) + [Get(Base(w, m))], m1', [Put(url.value)], Refresh(w, m1').0);
    } else {
      assert HeadRequests(w, m) == Lookup(m) + [Get(Base(w, m))];
    }
  }

  /**
   * Every register call asks for exactly [U2C] GET [PUT] and then nothing, POST, or
   * POST GET DELETE* POST: U2C only if the base was never resolved, DELETE only to
   * the own devices that the GET before it listed.
   */
  lemma RegisterRequests<S>(w: World<S>, m: Manager<S>)
    ensures var m' := Register(w, m).0;
            && Asked(w, m, HeadRequests(w, m) + TailRequests(w, m), m')
            && m'.wdmUrl == Some(Base(w, m))
    ensures PutRequests(w, m) == [] ==> TailRequests(w, m) != []
  {
    HeadTrace(w, m);
    var (m1, url) := Looked(w, m);
    if url.Some? && Refresh(w, m1.(deviceUrl := url)).1.Ok? {
      assert HeadRequests(w, m) + [] == HeadRequests(w, m);
    } else {
      var n := Creating(w, m);
      CreateOrReapTrace(w, n);
      AskedThen(w, m, HeadRequests(w, m), n, TailRequests(w, m), Register(w, m).0);
    }
  }

  /** Every DELETE target is an own device of the list. */
  lemma {:induction false} DeletesAreOwn(ds: seq<Device>, r: Request)
    requires r in Deletes(ds)
    ensures exists i :: 0 <= i < |ds| && Own(ds[i]) && r == Delete(ds[i].url)
  {
    var front, last := ds[..|ds| - 1], ds[|ds| - 1];
    if r in Deletes(front) {
      DeletesAreOwn(front, r);
      var i :| 0 <= i < |front| && Own(front[i]) && r == Delete(front[i].url);
      assert ds[i] == front[i];
    } else {
      assert ds[|ds| - 1] == last && Own(last);
    }
  }

  /** What a register call asks for, from its first request on. */
  function NewRequests<S>(w: World<S>, m: Manager<S>): seq<Request> {
    HeadRequests(w, m) + TailRequests(w, m)
  }

  /** Request `i` deletes an own device that the server listed in answer to the GET at `k`. */
  ghost predicate DeletesListed<S>(w: World<S>, m: Manager<S>, reqs: seq<Request>, k: nat, i: nat)
    requires k < i < |reqs|
  {
    && reqs[k].Get? && (forall j :: k < j <= i ==> reqs[j].Delete?)
    && var ds := ListOf(w.serve(Replay(w, m.server, reqs[..k]), reqs[k]).1);
       ds.Some? && exists d :: d in ds.value && Own(d) && reqs[i] == Delete(d.url)
  }

  /** A request of the reaping part, by its place in the list. */
  lemma TailDelete(head: seq<Request>, base: string, deletes: seq<Request>, i: nat)
    requires (forall j :: 0 <= j < |head| ==> !head[j].Delete?) && (forall r :: r in deletes ==> r.Delete?)
    requires var reqs := head + ([Post(base), Get(base)] + deletes + [Post(base)]); i < |reqs| && reqs[i].Delete?
    ensures var reqs, k := head + ([Post(base), Get(base)] + deletes + [Post(base)]), |head| + 1;
            && k < i < |reqs| - 1 && reqs[i] == deletes[i - k - 1] && reqs[k] == Get(base)
            && reqs[..k] == head + [Post(base)] && forall j :: k < j <= i ==> reqs[j].Delete?
  {
    var reqs, k := head + ([Post(base), Get(base)] + deletes + [Post(base)]), |head| + 1;
    assert forall j :: 0 <= j < |head| ==> reqs[j] == head[j];
    assert forall j :: k < j < |reqs| - 1 ==> reqs[j] == deletes[j - k - 1] && deletes[j - k - 1] in deletes;
  }

  /**
   * Every DELETE of a register call comes, with only DELETEs in between, after a GET
   * whose answer lists its target, and the target is a device of this client.
   */
  lemma RegisterDeletesListed<S>(w: World<S>, m: Manager<S>, i: nat)
    requires i < |NewRequests(w, m)| && NewRequests(w, m)[i].Delete?
    ensures Register(w, m).0.trace == m.trace + NewRequests(w, m)
    ensures exists k :: 0 <= k < i && DeletesListed(w, m, NewRequests(w, m), k, i)
  {
    RegisterRequests(w, m);
    HeadTrace(w, m);
    var head, n, base := HeadRequests(w, m), Creating(w, m), Base(w, m);
    assert forall j :: 0 <= j < |head| ==> !head[j].Delete?;
    CreateTrace(w, n);
    var (m1, r) := CreateDevice(w, n);
    var ds := Listed(w, m1);
    forall q | q in Deletes(ds)
      ensures q.Delete?
    {
      DeletesAreOwn(ds, q);
    }
    TailDelete(head, base, Deletes(ds), i);
    AskedThen(w, m, head, n, [Post(base)], m1);
    DeletesAreOwn(ds, NewRequests(w, m)[i]);
    assert DeletesListed(w, m, NewRequests(w, m), |head| + 1, i);
  }

  // ---- How many own devices are left ----

  function OwnCount(ds: seq<Device>): nat {
    if ds == [] then 0 else OwnCount(ds[..|ds| - 1]) + if Own(ds[|ds| - 1]) then 1 else 0
  }

  function Wrap(ds: seq<Device>): seq<Option<Device>> {
    seq(|ds|, i requires 0 <= i < |ds| => Some(ds[i]))
  }

  /** One exchange with a server that lists truthfully and honours refresh. */
  ghost predicate FairExchange<S>(w: World<S>, before: seq<Device>, r: Request, after: seq<Device>, resp: Response) {
    match r
    case U2cCatalog => after == before
    case Get(_) => after == before && resp.Http? && resp.status != 401 && resp.ok && resp.body == DeviceList(Wrap(before))
    case Put(url) => after == before && ((exists i :: 0 <= i < |before| && before[i].url == url) ==> Accept(w, resp).Ok?)
    case Post(_) =>
      // At most one more device, and none when the answer is 403; the answer may still get lost.
      && OwnCount(after) <= OwnCount(before) + 1
      && (Accept(w, resp) == Err(RegistrationError(Some(403))) ==> after == before)
    case Delete(_) => OwnCount(after) <= OwnCount(before)
  }

  ghost predicate Fair<S(!new)>(w: World<S>, devices: S -> seq<Device>) {
    forall s: S, r: Request {:trigger w.serve(s, r)} ::
      FairExchange(w, devices(s), r, devices(w.serve(s, r).0), w.serve(s, r).1)
  }

  lemma {:induction false} ParsedWrap(ds: seq<Device>)
    ensures Parsed(Wrap(ds)) == ds
  {
    if ds != [] {
      ParsedWrap(ds[..|ds| - 1]);
      assert Wrap(ds)[..|ds| - 1] == Wrap(ds[..|ds| - 1]);
    }
  }

  lemma {:induction false} ReusableIff(ds: seq<Device>)
    ensures Reusable(ds).None? ==> forall i :: 0 <= i < |ds| ==> !Own(ds[i])
    ensures Reusable(ds).Some? ==> exists i :: 0 <= i < |ds| && ds[i].url == Reusable(ds).value
  {
    if ds != [] {
      ReusableIff(ds[1..]);
      if !Own(ds[0]) && Reusable(ds).Some? {
        var i :| 0 <= i < |ds[1..]| && ds[1..][i].url == Reusable(ds[1..]).value;
        assert ds[i + 1] == ds[1..][i];
      }
    }
  }

  lemma {:induction false} NoneOwned(ds: seq<Device>)
    requires forall i :: 0 <= i < |ds| ==> !Own(ds[i])
    ensures OwnCount(ds) == 0
  {
    if ds != [] {
      NoneOwned(ds[..|ds| - 1]);
    }
  }

  lemma FairList<S(!new)>(w: World<S>, devices: S -> seq<Device>, m: Manager<S>)
    requires Fair(w, devices)
    ensures var (m', ds) := ListDevices(w, m);
            ds == Some(devices(m.server)) && devices(m'.server) == devices(m.server)
  {
    var (m1, base) := Discover(w, m);
    assert devices(m1.server) == devices(m.server) by {
      assert FairExchange(w, devices(m.server), U2cCatalog, devices(w.serve(m.server, U2cCatalog).0), w.serve(m.server, U2cCatalog).1);
    }
    var (s, resp) := w.serve(m1.server, Get(base));
    assert FairExchange(w, devices(m1.server), Get(base), devices(s), resp);
    ParsedWrap(devices(m1.server));
  }

  lemma FairCreate<S(!new)>(w: World<S>, devices: S -> seq<Device>, m: Manager<S>)
    requires Fair(w, devices) && m.wdmUrl.Some?
    ensures var (m', r) := CreateDevice(w, m);
            && OwnCount(devices(m'.server)) <= OwnCount(devices(m.server)) + 1
            && (r == Err(RegistrationError(Some(403))) ==> devices(m'.server) == devices(m.server))
  {
    var (s, resp) := w.serve(m.server, Post(m.wdmUrl.value));
    assert FairExchange(w, devices(m.server), Post(m.wdmUrl.value), devices(s), resp);
  }

  lemma {:induction false} FairDeletes<S(!new)>(w: World<S>, devices: S -> seq<Device>, m: Manager<S>, ds: seq<Device>)
    requires Fair(w, devices)
    ensures OwnCount(devices(DeleteOwn(w, m, ds).server)) <= OwnCount(devices(m.server))
  {
    if ds != [] {
      FairDeletes(w, devices, m, ds[..|ds| - 1]);
      var m1, r := DeleteOwn(w, m, ds[..|ds| - 1]), Delete(ds[|ds| - 1].url);
      var (s, resp) := w.serve(m1.server, r);
      assert FairExchange(w, devices(m1.server), r, devices(s), resp);
    }
  }

  lemma FairCreateOrReap<S(!new)>(w: World<S>, devices: S -> seq<Device>, m: Manager<S>)
    requires Fair(w, devices) && m.wdmUrl.Some? && OwnCount(devices(m.server)) == 0
    ensures OwnCount(devices(CreateOrReap(w, m).0.server)) <= 1
  {
    FairCreate(w, devices, m);
    CreateTrace(w, m);
    var (m1, r) := CreateDevice(w, m);
    if r == Err(RegistrationError(Some(403))) {
      FairList(w, devices, m1);
      FairDeletes(w, devices, ListDevices(w, m1).0, ListDevices(w, m1).1.value);
      ReapTrace(w, m1);
      FairCreate(w, devices, ReapOwn(w, m1));
    }
  }

  lemma RegisterKeepsOne<S(!new)>(w: World<S>, devices: S -> seq<Device>, m: Manager<S>)
    requires Fair(w, devices) && OwnCount(devices(m.server)) <= 1
    ensures OwnCount(devices(Register(w, m).0.server)) <= 1
  {
    FairList(w, devices, m);
    ListTrace(w, m);
    var (m1, ds) := ListDevices(w, m);
    ReusableIff(ds.value);
    if Reusable(ds.value).None? {
      NoneOwned(ds.value);
      FairCreateOrReap(w, devices, m1);
    } else {
      var url := Reusable(ds.value).value;
      var (s, resp) := w.serve(m1.server, Put(url));
      assert FairExchange(w, devices(m1.server), Put(url), devices(s), resp);
    }
  }

  datatype Call = RegisterCall | UnregisterCall | RefreshCall

  function Perform<S>(w: World<S>, m: Manager<S>, c: Call): Manager<S> {
    match c
    case RegisterCall => Register(w, m).0
    case UnregisterCall => Unregister(w, m).0
    case RefreshCall => Refresh(w, m).0
  }

  function PerformAll<S>(w: World<S>, m: Manager<S>, cs: seq<Call>): Manager<S> {
    if cs == [] then m else Perform(w, PerformAll(w, m, cs[..|cs| - 1]), cs[|cs| - 1])
  }

  /** No sequence of calls leaves more than one own device on a fair server that started with at most one. */
  lemma {:induction false} AtMostOneDevice<S(!new)>(w: World<S>, devices: S -> seq<Device>, m: Manager<S>, cs: seq<Call>)
    requires Fair(w, devices) && OwnCount(devices(m.server)) <= 1
    ensures OwnCount(devices(PerformAll(w, m, cs).server)) <= 1
  {
    if cs != [] {
      AtMostOneDevice(w, devices, m, cs[..|cs| - 1]);
      var n := PerformAll(w, m, cs[..|cs| - 1]);
      match cs[|cs| - 1]
      case RegisterCall => RegisterKeepsOne(w, devices, n);
      case UnregisterCall =>
        if n.deviceUrl.Some? {
          var (s, resp) := w.serve(n.server, Delete(n.deviceUrl.value));
          assert FairExchange(w, devices(n.server), Delete(n.deviceUrl.value), devices(s), resp);
        }
      case RefreshCall =>
        if n.deviceUrl.Some? {
          var (s, resp) := w.serve(n.server, Put(n.deviceUrl.value));
          assert FairExchange(w, devices(n.server), Put(n.deviceUrl.value), devices(s), resp);
        }
    }
  }

  // ---- Both halves of fairness are needed ----

  const MINE: Device := Device("d", Some(CLIENT_NAME), Some(DEVICE_TYPE), "", "")

  /** A server that never lists but always registers; its state is its devices. */
  function Unlisting(s: seq<Device>, r: Request): (seq<Device>, Response) {
    if r.Post? then (s + [MINE], Http(200, true, Registration(MINE))) else (s, NetworkError)
  }

  lemma UnlistedDevicesPileUp()
    ensures var w := World(Unlisting, (_, _) => true);
            var m := PerformAll(w, Manager(None, None, [], []), [RegisterCall, RegisterCall]);
            m.server == [MINE, MINE] && OwnCount(m.server) == 2
  {
    var w := World(Unlisting, (_, _) => true);
    var m0: Manager<seq<Device>> := Manager(None, None, [], []);
    var m1 := Register(w, m0).0;
    var m2 := Register(w, m1).0;
    var cs := [RegisterCall, RegisterCall];
    assert cs[..1] == [RegisterCall] && cs[..1][..0] == [];
    assert PerformAll(w, m0, cs[..1]) == m1;
    assert PerformAll(w, m0, cs) == m2;
    assert m2.server == [MINE] + [MINE];
    assert m2.server[..1] == [MINE] && m2.server[..1][..0] == [];
    assert OwnCount(m2.server[..1]) == 1;
  }

  /** A server that lists truthfully but refuses every refresh. */
  function Refusing(s: seq<Device>, r: Request): (seq<Device>, Response) {
    match r
    case Post(_) => (s + [MINE], Http(200, true, Registration(MINE)))
    case Get(_) => (s, Http(200, true, DeviceList(Wrap(s))))
    case _ => (s, Http(404, false, Garbage))
  }

  lemma RefusedRefresh(w: World<seq<Device>>, m: Manager<seq<Device>>)
    requires w == World(Refusing, (_, _) => true)
    requires m.server == [] || m.server == [MINE]
    ensures Register(w, m).0.server == m.server + [MINE]
  {
    var (m1, ds) := ListDevices(w, m);
    ParsedWrap(m.server);
    assert ds == Some(m.server) && m1.server == m.server;
    if m.server == [MINE] {
      assert Own(m.server[0]) && Reusable(m.server) == Some("d");
    }
  }

  /** Two register calls then leave two own devices: the listed one refuses its refresh, and another is made. */
  lemma RefusedDevicesPileUp()
    ensures var w := World(Refusing, (_, _) => true);
            var m := PerformAll(w, Manager(None, None, [], []), [RegisterCall, RegisterCall]);
            m.server == [MINE, MINE] && OwnCount(m.server) == 2
  {
    var w := World(Refusing, (_, _) => true);
    var m0: Manager<seq<Device>> := Manager(None, None, [], []);
    RefusedRefresh(w, m0);
    var m1 := Register(w, m0).0;
    RefusedRefresh(w, m1);
    var cs := [RegisterCall, RegisterCall];
    assert cs[..1] == [RegisterCall] && cs[..1][..0] == [];
    assert PerformAll(w, m0, cs[..1]) == m1;
    assert PerformAll(w, m0, cs) == Register(w, m1).0;
    assert [MINE, MINE][..1] == [MINE] && [MINE][..0] == [];
    assert OwnCount([MINE]) == 1;
  }
}
