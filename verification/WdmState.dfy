/**
 * What WDM calls make of the server's answers: which are accepted, what a register
 * call returns and remembers, and what refresh and unregister then ask for.
 */
module WdmState {
  import opened Common
  import opened Wdm
  import opened WdmRuns

  // ---- Single answers ----

  /** A URL that may be left out but must be trusted if present. */
  predicate Trusted<S>(w: World<S>, url: string, scheme: string) {
    url == "" || w.valid(url, scheme)
  }

  /** Exactly which answers register or refresh a device, and what the others amount to. */
  lemma AcceptIff<S>(w: World<S>, resp: Response, d: Device, n: nat)
    ensures Accept(w, resp) == Ok(d) <==>
              && resp.Http? && resp.status != 401 && resp.ok && resp.body == Registration(d)
              && Trusted(w, d.socketUrl, "wss") && Trusted(w, d.encryptionUrl, "https")
    ensures Accept(w, resp) == Err(AuthError) <==> resp.Http? && resp.status == 401
    ensures Accept(w, resp) == Err(RegistrationError(Some(n))) <==> resp.Http? && resp.status == n && n != 401 && !resp.ok
  {
  }

  lemma {:induction false} TrimmedOfSlashes(s: string)
    ensures var t := TrimSlashes(s);
            && t <= s && (forall i :: |t| <= i < |s| ==> s[i] == '/')
            && (t != "" ==> t[|t| - 1] != '/')
  {
    if s != "" && s[|s| - 1] == '/' {
      TrimmedOfSlashes(s[..|s| - 1]);
    }
  }

  /** The catalog names a WDM link that may be used. */
  predicate Links<S>(w: World<S>, resp: Response, link: string) {
    resp.Http? && resp.ok && resp.body == Catalog(Some(link)) && link != "" && w.valid(link, "https")
  }

  /** `base` is the link without its last slashes and with "/devices". */
  ghost predicate BaseOf(link: string, base: string) {
    exists t: string ::
      && t <= link && (forall i :: |t| <= i < |link| ==> link[i] == '/') && (t != "" ==> t[|t| - 1] != '/')
      && base == t + "/devices"
  }

  /** The base comes from the catalog's link, if it has one that may be used ... */
  lemma BaseOfLink<S>(w: World<S>, resp: Response, link: string)
    requires Links(w, resp, link)
    ensures BaseOf(link, BaseFrom(w, resp))
  {
    TrimmedOfSlashes(link);
    assert BaseFrom(w, resp) == TrimSlashes(link) + "/devices";
  }

  /** ... and is the default otherwise. */
  lemma BaseByDefault<S>(w: World<S>, resp: Response)
    requires forall link :: !Links(w, resp, link)
    ensures BaseFrom(w, resp) == "https://wdm-a.wbx2.com/wdm/api/v1/devices"
  {
    if resp.Http? && resp.body.Catalog? && resp.body.wdm.Some? {
      assert !Links(w, resp, resp.body.wdm.value);
    }
  }

  /** A list keeps the entries that parse, in order. */
  lemma {:induction false} ParsedInOrder(a: seq<Option<Device>>, b: seq<Option<Device>>, d: Device)
    ensures Parsed(a + b) == Parsed(a) + Parsed(b)
    ensures Parsed([Some(d)]) == [d] && Parsed([None]) == []
  {
    if b == [] {
      assert a + b == a;
    } else {
      assert (a + b)[..|a + b| - 1] == a + b[..|b| - 1];
      ParsedInOrder(a, b[..|b| - 1], d);
    }
  }

  /** Exactly the answers that list devices. */
  lemma ListsIff(resp: Response, ds: seq<Device>)
    ensures ListOf(resp) == Some(ds) <==>
              resp.Http? && resp.status != 401 && resp.ok && exists es :: resp.body == DeviceList(es) && ds == Parsed(es)
  {
  }

  /** The device reused is the first of this client's that has a URL. */
  lemma {:induction false} ReusesFirst(ds: seq<Device>)
    ensures Reusable(ds).Some? ==>
              exists i :: 0 <= i < |ds| && Mine(ds[i]) && Reusable(ds).value == ds[i].url && forall j :: 0 <= j < i ==> !Mine(ds[j])
    ensures Reusable(ds).None? ==> forall i :: 0 <= i < |ds| ==> !Mine(ds[i])
  {
    if ds != [] && !Mine(ds[0]) {
      ReusesFirst(ds[1..]);
      if Reusable(ds).Some? {
        var i :| 0 <= i < |ds[1..]| && Mine(ds[1..][i]) && Reusable(ds[1..]).value == ds[1..][i].url
                 && forall j :: 0 <= j < i ==> !Mine(ds[1..][j]);
        assert ds[i + 1] == ds[1..][i];
        assert forall j :: 1 <= j < i + 1 ==> ds[j] == ds[1..][j - 1];
      } else {
        assert forall j :: 1 <= j < |ds| ==> ds[j] == ds[1..][j - 1];
      }
    }
  }

  /** A reap asks for one DELETE of each device of this client that has a URL, in the order of the list. */
  lemma {:induction false} DeletesInOrder(a: seq<Device>, b: seq<Device>, d: Device)
    ensures Deletes(a + b) == Deletes(a) + Deletes(b)
    ensures Deletes([d]) == if Mine(d) then [Delete(d.url)] else []
  {
    assert [d][..0] == [];
    if b == [] {
      assert a + b == a;
    } else {
      assert (a + b)[..|a + b| - 1] == a + b[..|b| - 1];
      DeletesInOrder(a, b[..|b| - 1], d);
    }
  }

  predicate Mine(d: Device) {
    d.name == Some("webex-message-handler") && d.kind == Some("DESKTOP") && d.url != ""
  }

  // ---- A register call ----

  /** The server's answer to request `i` of `reqs`. */
  function Answer<S>(w: World<S>, s: S, reqs: seq<Request>, i: nat): Response
    requires i < |reqs|
  {
    w.serve(Replay(w, s, reqs[..i]), reqs[i]).1
  }

  /** What the manager remembers after a call with this outcome, whose last request was `last`. */
  function Remembers(before: Option<string>, refused: bool, last: Request, r: Result<Device, WdmError>): Option<string> {
    if r.Ok? then Some(if last.Put? then last.url else r.value.url)
    else if refused then None
    else before
  }

  lemma CreateLeaves<S>(w: World<S>, m: Manager<S>)
    requires m.wdmUrl.Some?
    ensures var (m', r) := CreateDevice(w, m);
            && r == Accept(w, w.serve(m.server, Post(m.wdmUrl.value)).1)
            && m'.deviceUrl == if r.Ok? then Some(r.value.url) else m.deviceUrl
  {
  }

  lemma ReapLeaves<S>(w: World<S>, m: Manager<S>)
    requires m.wdmUrl.Some?
    ensures ReapOwn(w, m).deviceUrl == m.deviceUrl
  {
    ListTrace(w, m);
    var (m1, ds) := ListDevices(w, m);
    if ds.Some? {
      DeleteTrace(w, m1, ds.value);
    }
  }

  /** The create-reap-retry part: its last request, its result and what it remembers. */
  lemma CreateOrReapLeaves<S>(w: World<S>, m: Manager<S>)
    requires m.wdmUrl.Some?
    ensures var (m', r) := CreateOrReap(w, m);
            var reqs := CreateRequests(w, m, m.wdmUrl.value);
            && reqs != [] && reqs[|reqs| - 1] == Post(m.wdmUrl.value)
            && r == Accept(w, Answer(w, m.server, reqs, |reqs| - 1))
            && m'.deviceUrl == if r.Ok? then Some(r.value.url) else m.deviceUrl
  {
    CreateLeaves(w, m);
    CreateTrace(w, m);
    var (m1, r) := CreateDevice(w, m);
    var base := m.wdmUrl.value;
    if r == Err(RegistrationError(Some(403))) {
      var m2 := ReapOwn(w, m1);
      ReapTrace(w, m1);
      ReapLeaves(w, m1);
      CreateLeaves(w, m2);
      AskedThen(w, m, [Post(base)], m1, [Get(base)] + Deletes(Listed(w, m1)), m2);
      var reqs := CreateRequests(w, m, base);
      assert reqs[..|reqs| - 1] == [Post(base)] + ([Get(base)] + Deletes(Listed(w, m1)));
    } else {
      assert [Post(base)][..0] == [];
    }
  }

  /**
   * Every register call returns what the answer to its last request amounts to. After a
   * success it remembers the URL of the device it refreshed, or of the one it was given;
   * after a failure what it remembered before, or nothing if a refresh was refused.
   */
  lemma RegisterLeaves<S>(w: World<S>, m: Manager<S>)
    ensures var (m', r) := Register(w, m);
            var reqs := NewRequests(w, m);
            && reqs != [] && (reqs[|reqs| - 1].Put? || reqs[|reqs| - 1].Post?)
            && r == Accept(w, Answer(w, m.server, reqs, |reqs| - 1))
            && m'.deviceUrl == Remembers(m.deviceUrl, PutRequests(w, m) != [], reqs[|reqs| - 1], r)
  {
    HeadTrace(w, m);
    ListTrace(w, m);
    var (m1, url) := Looked(w, m);
    var head := HeadRequests(w, m);
    if url.Some? && Refresh(w, m1.(deviceUrl := url)).1.Ok? {
      assert NewRequests(w, m) == head;
      assert head[..|head| - 1] == Lookup(m) + [Get(Base(w, m))];
    } else {
      var n := Creating(w, m);
      CreateOrReapLeaves(w, n);
      var tail := TailRequests(w, m);
      assert (head + tail)[..|head + tail| - 1] == head + tail[..|tail| - 1];
      ReplayAppend(w, m.server, head, tail[..|tail| - 1]);
    }
  }

  /**
   * When each part is asked for, by the answers alone: nothing more after an accepted
   * PUT; a second POST, after a GET and the DELETEs, exactly if the first is answered 403.
   */
  lemma RegisterByAnswers<S>(w: World<S>, m: Manager<S>)
    ensures var (head, tail, base) := (HeadRequests(w, m), TailRequests(w, m), Base(w, m));
            && (tail == [] <==> head[|head| - 1].Put? && Accept(w, Answer(w, m.server, head, |head| - 1)).Ok?)
            && (tail != [] ==>
                  && tail[0] == Post(base)
                  && (|tail| > 1 <==>
                        Accept(w, Answer(w, m.server, head + [Post(base)], |head|)) == Err(RegistrationError(Some(403)))))
  {
    HeadTrace(w, m);
    ListTrace(w, m);
    var (m1, url) := Looked(w, m);
    var head, base := HeadRequests(w, m), Base(w, m);
    if url.Some? {
      assert head[..|head| - 1] == Lookup(m) + [Get(base)];
    } else {
      assert head == Lookup(m) + [Get(base)];
    }
    if TailRequests(w, m) != [] {
      CreateLeaves(w, Creating(w, m));
      assert (head + [Post(base)])[..|head|] == head;
    }
  }

  // ---- After a register call ----

  /** A refresh asks for exactly one PUT of the remembered device, or for nothing if there is none. */
  lemma RefreshAsks<S>(w: World<S>, m: Manager<S>)
    ensures var (m', r) := Refresh(w, m);
            if m.deviceUrl.None? then m' == m && r == Err(RegistrationError(None))
            else
              && Asked(w, m, [Put(m.deviceUrl.value)], m') && m'.deviceUrl == m.deviceUrl && m'.wdmUrl == m.wdmUrl
              && r == Accept(w, w.serve(m.server, Put(m.deviceUrl.value)).1)
  {
    if m.deviceUrl.Some? {
      AskedOne(w, m, Put(m.deviceUrl.value));
    }
  }

  /** The device is gone as far as the client can tell. */
  predicate Gone(resp: Response) {
    resp.Http? && resp.status != 401 && (resp.ok || resp.status == 404)
  }

  /** An unregister asks for exactly one DELETE of the remembered device and forgets it iff the device is gone. */
  lemma UnregisterAsks<S>(w: World<S>, m: Manager<S>)
    ensures var (m', r) := Unregister(w, m);
            if m.deviceUrl.None? then m' == m && r == Err(RegistrationError(None))
            else
              var resp := w.serve(m.server, Delete(m.deviceUrl.value)).1;
              && Asked(w, m, [Delete(m.deviceUrl.value)], m') && m'.wdmUrl == m.wdmUrl
              && (m'.deviceUrl.None? <==> Gone(resp)) && (m'.deviceUrl.Some? ==> m'.deviceUrl == m.deviceUrl)
              && (r.Ok? <==> Gone(resp))
              && (r == Err(AuthError) <==> resp.Http? && resp.status == 401)
              && forall n :: r == Err(RegistrationError(Some(n))) <==>
                               resp.Http? && resp.status == n && n != 401 && n != 404 && !resp.ok
  {
    if m.deviceUrl.Some? {
      AskedOne(w, m, Delete(m.deviceUrl.value));
    }
  }

  /** After a successful register call, a refresh puts and an unregister deletes the very device it remembers. */
  lemma RegisteredThen<S>(w: World<S>, m: Manager<S>)
    requires Register(w, m).1.Ok?
    ensures var (m', r) := Register(w, m);
            var last := NewRequests(w, m)[|NewRequests(w, m)| - 1];
            var url := if last.Put? then last.url else r.value.url;
            && Refresh(w, m').0.trace == m.trace + NewRequests(w, m) + [Put(url)]
            && Unregister(w, m').0.trace == m.trace + NewRequests(w, m) + [Delete(url)]
  {
    RegisterRequests(w, m);
    RegisterLeaves(w, m);
    RefreshAsks(w, Register(w, m).0);
    UnregisterAsks(w, Register(w, m).0);
  }
}
