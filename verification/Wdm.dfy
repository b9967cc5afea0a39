/** WDM device registration (rust/src/device_manager.rs) against any server. */
module Wdm {
  import opened Common

  const WDM_API_BASE := "https://wdm-a.wbx2.com/wdm/api/v1/devices"
  const CLIENT_NAME := "webex-message-handler"
  const DEVICE_TYPE := "DESKTOP"

  /** A registration as far as the manager looks at it. */
  datatype Device = Device(url: string, name: Option<string>, kind: Option<string>, socketUrl: string, encryptionUrl: string)

  datatype Request =
    | U2cCatalog
    | Get(base: string)
    | Put(url: string)
    | Post(base: string)
    | Delete(url: string)

  datatype Body =
    | Catalog(wdm: Option<string>)
    | DeviceList(devices: seq<Option<Device>>)   // an entry that does not parse is None
    | Registration(device: Device)
    | Garbage

  datatype Response = NetworkError | Http(status: nat, ok: bool, body: Body)

  datatype WdmError = AuthError | RegistrationError(status: Option<nat>)

  /** The server behind `http_do`, and the URL check. */
  datatype World<!S> = World(serve: (S, Request) -> (S, Response), valid: (string, string) -> bool)

  datatype Manager<S> = Manager(deviceUrl: Option<string>, wdmUrl: Option<string>, server: S, trace: seq<Request>)

  /** A device of this client. */
  predicate Own(d: Device) {
    d.name == Some(CLIENT_NAME) && d.kind == Some(DEVICE_TYPE) && d.url != ""
  }

  function Fetch<S>(w: World<S>, m: Manager<S>, r: Request): (Manager<S>, Response) {
    var (s, resp) := w.serve(m.server, r);
    (m.(server := s, trace := m.trace + [r]), resp)
  }

  /** `trim_end_matches('/')`. */
  function TrimSlashes(s: string): string {
    if s != "" && s[|s| - 1] == '/' then TrimSlashes(s[..|s| - 1]) else s
  }

  function BaseFrom<S>(w: World<S>, resp: Response): string {
    if resp.Http? && resp.ok && resp.body.Catalog? && resp.body.wdm.Some? && resp.body.wdm.value != ""
       && w.valid(resp.body.wdm.value, "https")
    then TrimSlashes(resp.body.wdm.value) + "/devices"
    else WDM_API_BASE
  }

  function Discover<S>(w: World<S>, m: Manager<S>): (Manager<S>, string) {
    if m.wdmUrl.Some? then (m, m.wdmUrl.value)
    else
      var (m1, resp) := Fetch(w, m, U2cCatalog);
      (m1.(wdmUrl := Some(BaseFrom(w, resp))), BaseFrom(w, resp))
  }

  function Parsed(ds: seq<Option<Device>>): seq<Device> {
    if ds == [] then []
    else Parsed(ds[..|ds| - 1]) + if ds[|ds| - 1].Some? then [ds[|ds| - 1].value] else []
  }

  function ListOf(resp: Response): Option<seq<Device>> {
    if resp.Http? && resp.status != 401 && resp.ok && resp.body.DeviceList? then Some(Parsed(resp.body.devices)) else None
  }

  function ListDevices<S>(w: World<S>, m: Manager<S>): (Manager<S>, Option<seq<Device>>) {
    var (m1, base) := Discover(w, m);
    var (m2, resp) := Fetch(w, m1, Get(base));
    (m2, ListOf(resp))
  }

  /** The first own device of a list. */
  function Reusable(ds: seq<Device>): Option<string> {
    if ds == [] then None else if Own(ds[0]) then Some(ds[0].url) else Reusable(ds[1..])
  }

  /** What a registration or refresh response amounts to. */
  function Accept<S>(w: World<S>, resp: Response): Result<Device, WdmError> {
    if resp.NetworkError? then Err(RegistrationError(None))
    else if resp.status == 401 then Err(AuthError)
    else if !resp.ok then Err(RegistrationError(Some(resp.status)))
    else if !resp.body.Registration? then Err(RegistrationError(None))
    else
      var d := resp.body.device;
      if d.socketUrl != "" && !w.valid(d.socketUrl, "wss") then Err(RegistrationError(None))
      else if d.encryptionUrl != "" && !w.valid(d.encryptionUrl, "https") then Err(RegistrationError(None))
      else Ok(d)
  }

  function Refresh<S>(w: World<S>, m: Manager<S>): (Manager<S>, Result<Device, WdmError>) {
    if m.deviceUrl.None? then (m, Err(RegistrationError(None)))
    else
      var (m1, resp) := Fetch(w, m, Put(m.deviceUrl.value));
      (m1, Accept(w, resp))
  }

  function CreateDevice<S>(w: World<S>, m: Manager<S>): (Manager<S>, Result<Device, WdmError>) {
    var (m1, base) := Discover(w, m);
    var (m2, resp) := Fetch(w, m1, Post(base));
    var r := Accept(w, resp);
    (if r.Ok? then m2.(deviceUrl := Some(r.value.url)) else m2, r)
  }

  /** Delete the own devices of a list, in order; failures are ignored. */
  function DeleteOwn<S>(w: World<S>, m: Manager<S>, ds: seq<Device>): Manager<S> {
    if ds == [] then m
    else
      var m1 := DeleteOwn(w, m, ds[..|ds| - 1]);
      if Own(ds[|ds| - 1]) then Fetch(w, m1, Delete(ds[|ds| - 1].url)).0 else m1
  }

  function ReapOwn<S>(w: World<S>, m: Manager<S>): Manager<S> {
    var (m1, ds) := ListDevices(w, m);
    if ds.Some? then DeleteOwn(w, m1, ds.value) else m1
  }

  /** The create-reap-retry part of `register`. */
  function CreateOrReap<S>(w: World<S>, m: Manager<S>): (Manager<S>, Result<Device, WdmError>) {
    var (m1, r) := CreateDevice(w, m);
    if r == Err(RegistrationError(Some(403))) then CreateDevice(w, ReapOwn(w, m1)) else (m1, r)
  }

  function Register<S>(w: World<S>, m: Manager<S>): (Manager<S>, Result<Device, WdmError>) {
    var (m1, ds) := ListDevices(w, m);
    var reuse := if ds.Some? then Reusable(ds.value) else None;
    if reuse.None? then CreateOrReap(w, m1)
    else
      var (m2, r) := Refresh(w, m1.(deviceUrl := reuse));
      if r.Ok? then (m2, r) else CreateOrReap(w, m2.(deviceUrl := None))
  }

  function Unregister<S>(w: World<S>, m: Manager<S>): (Manager<S>, Result<(), WdmError>) {
    if m.deviceUrl.None? then (m, Err(RegistrationError(None)))
    else
      var (m1, resp) := Fetch(w, m, Delete(m.deviceUrl.value));
      if resp.NetworkError? then (m1, Err(RegistrationError(None)))
      else if resp.status == 401 then (m1, Err(AuthError))
      else if !resp.ok && resp.status != 404 then (m1, Err(RegistrationError(Some(resp.status))))
      else (m1.(deviceUrl := None), Ok(()))
  }

  // ---- The manager ----

  class DeviceManager<S> {
    const world: World<S>
    var deviceUrl: Option<string>
    var wdmUrl: Option<string>
    var server: S
    var trace: seq<Request>

    function View(): Manager<S>
      reads this
    {
      Manager(deviceUrl, wdmUrl, server, trace)
    }

    constructor (world: World<S>, server: S)
      ensures View() == Manager(None, None, server, []) && this.world == world
    {
      this.world, this.server := world, server;
      deviceUrl, wdmUrl, trace := None, None, [];
    }

    method HttpDo(r: Request) returns (resp: Response)
      modifies this`server, this`trace
      ensures (View(), resp) == Fetch(world, old(View()), r)
    {
      var answer := world.serve(server, r);
      server, resp := answer.0, answer.1;
      trace := trace + [r];
    }

    method DiscoverWdmBase() returns (base: string)
      modifies this`server, this`trace, this`wdmUrl
      ensures (View(), base) == Discover(world, old(View()))
    {
      if wdmUrl.Some? {
        return wdmUrl.value;
      }
      var resp := HttpDo(U2cCatalog);
      base := BaseFrom(world, resp);
      wdmUrl := Some(base);
    }

    method List() returns (r: Option<seq<Device>>)
      modifies this`server, this`trace, this`wdmUrl
      ensures (View(), r) == ListDevices(world, old(View()))
    {
      var base := DiscoverWdmBase();
      var resp := HttpDo(Get(base));
      if resp.NetworkError? || resp.status == 401 || !resp.ok || !resp.body.DeviceList? {
        return None;
      }
      var entries, found := resp.body.devices, [];
      for i := 0 to |entries|
        invariant found == Parsed(entries[..i])
      {
        assert entries[..i + 1][..i] == entries[..i];
        if entries[i].Some? {
          found := found + [entries[i].value];
        }
      }
      assert entries[..|entries|] == entries;
      return Some(found);
    }

    method FindReusableDevice() returns (url: Option<string>)
      modifies this`server, this`trace, this`wdmUrl
      ensures var (m, ds) := ListDevices(world, old(View()));
              View() == m && url == if ds.Some? then Reusable(ds.value) else None
    {
      var ds := List();
      if ds.None? {
        return None;
      }
      var i := 0;
      while i < |ds.value|
        invariant 0 <= i <= |ds.value|
        invariant Reusable(ds.value) == Reusable(ds.value[i..])
      {
        if Own(ds.value[i]) {
          return Some(ds.value[i].url);
        }
        assert ds.value[i..][1..] == ds.value[i + 1..];
        i := i + 1;
      }
      return None;
    }

    method Create() returns (r: Result<Device, WdmError>)
      modifies this
      ensures (View(), r) == CreateDevice(world, old(View()))
    {
      var base := DiscoverWdmBase();
      var resp := HttpDo(Post(base));
      r := Accept(world, resp);
      if r.Ok? {
        deviceUrl := Some(r.value.url);
      }
    }

    method ReapOwnDevices() returns (reaped: nat)
      modifies this`server, this`trace, this`wdmUrl
      ensures View() == ReapOwn(world, old(View()))
    {
      reaped := 0;
      var ds := List();
      if ds.None? {
        return;
      }
      label listed:
      for i := 0 to |ds.value|
        invariant View() == DeleteOwn(world, old@listed(View()), ds.value[..i])
      {
        assert ds.value[..i + 1][..i] == ds.value[..i];
        if Own(ds.value[i]) {
          var resp := HttpDo(Delete(ds.value[i].url));
          if resp.Http? && (resp.ok || resp.status == 404) {
            reaped := reaped + 1;
          }
        }
      }
      assert ds.value[..|ds.value|] == ds.value;
    }

    method RefreshDevice() returns (r: Result<Device, WdmError>)
      modifies this`server, this`trace
      ensures (View(), r) == Refresh(world, old(View()))
    {
      if deviceUrl.None? {
        return Err(RegistrationError(None));
      }
      var resp := HttpDo(Put(deviceUrl.value));
      return Accept(world, resp);
    }

    method RegisterDevice() returns (r: Result<Device, WdmError>)
      modifies this
      ensures (View(), r) == Register(world, old(View()))
    {
      var existing := FindReusableDevice();
      if existing.Some? {
        deviceUrl := existing;
        r := RefreshDevice();
        if r.Ok? {
          return r;
        }
        deviceUrl := None;
      }
      r := Create();
      if r == Err(RegistrationError(Some(403))) {
        var _ := ReapOwnDevices();
        r := Create();
      }
    }

    method UnregisterDevice() returns (r: Result<(), WdmError>)
      modifies this
      ensures (View(), r) == Unregister(world, old(View()))
    {
      if deviceUrl.None? {
        return Err(RegistrationError(None));
      }
      var resp := HttpDo(Delete(deviceUrl.value));
      if resp.NetworkError? {
        return Err(RegistrationError(None));
      }
      if resp.status == 401 {
        return Err(AuthError);
      }
      if !resp.ok && resp.status != 404 {
        return Err(RegistrationError(Some(resp.status)));
      }
      deviceUrl := None;
      return Ok(());
    }
  }
}
