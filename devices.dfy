/** The part of the UPnP device model the controller looks at, and the
    service locator that walks a gateway's device tree. */
module Options {
  datatype Option<+T> = None | Some(value: T)
}

module Devices {
  import opened Options

  /** Device and service type URNs the controller compares against. */
  const RouterDevice := "urn:schemas-upnp-org:device:InternetGatewayDevice:1"
  const WanDevice := "urn:schemas-upnp-org:device:WANDevice:1"
  const WanConnectionDevice := "urn:schemas-upnp-org:device:WANConnectionDevice:1"
  const WanIpConnection := "urn:schemas-upnp-org:service:WANIPConnection:1"
  const WanPppConnection := "urn:schemas-upnp-org:service:WANPPPConnection:1"

  /** Control action names the controller posts. */
  const AddPortMappingAction := "AddPortMapping"
  const DeletePortMappingAction := "DeletePortMapping"
  const GetExternalIpAddressAction := "GetExternalIPAddress"

  /** A control service: its type URN and the names of the actions it offers. */
  datatype Service = Service(serviceType: string, actions: set<string>)

  /** A UPnP device as described by its description document. Two devices
      are the same device when all their fields agree; the UDN keeps two
      physically distinct devices apart. */
  datatype Device = Device(
    udn: string,
    deviceType: string,
    friendlyName: string,
    isRoot: bool,
    interfaceAddress: string,
    children: seq<Device>,
    services: map<string, Service>)
  {
    /** The service of the given type that the device exposes, if any. */
    function GetService(serviceType: string): Option<Service>
    {
      if serviceType in services then Some(services[serviceType]) else None
    }
  }

  /** The devices the controller accepts as a gateway: a root Internet
      Gateway Device. */
  predicate IsGateway(dev: Device)
  {
    dev.deviceType == RouterDevice && dev.isRoot
  }

  /** The first WANConnectionDevice in a list of devices (the inner loop of
      the locator). */
  function FirstConnectionChild(devs: seq<Device>): (r: Option<Device>)
    ensures r.Some? ==>
      exists j :: 0 <= j < |devs| && devs[j] == r.value && devs[j].deviceType == WanConnectionDevice &&
        forall k :: 0 <= k < j ==> devs[k].deviceType != WanConnectionDevice
    ensures r.None? ==> forall k :: 0 <= k < |devs| ==> devs[k].deviceType != WanConnectionDevice
  {
    if devs == [] then None
    else if devs[0].deviceType == WanConnectionDevice then Some(devs[0])
    else FirstConnectionChild(devs[1..])
  }

  /** The first WANConnectionDevice found under a WANDevice among a gateway's
      children, searching WANDevices in order (the outer loop of the locator). */
  function FirstConnectionDevice(devs: seq<Device>): (r: Option<Device>)
    ensures r.Some? ==>
      exists i :: 0 <= i < |devs| && devs[i].deviceType == WanDevice &&
        FirstConnectionChild(devs[i].children) == r &&
        forall k :: 0 <= k < i && devs[k].deviceType == WanDevice ==> FirstConnectionChild(devs[k].children).None?
    ensures r.None? ==>
      forall k :: 0 <= k < |devs| && devs[k].deviceType == WanDevice ==> FirstConnectionChild(devs[k].children).None?
  {
    if devs == [] then None
    else if devs[0].deviceType == WanDevice && FirstConnectionChild(devs[0].children).Some? then
      FirstConnectionChild(devs[0].children)
    else
      var r := FirstConnectionDevice(devs[1..]);
      assert r.Some? ==>
        exists i :: 1 <= i < |devs| && devs[i].deviceType == WanDevice &&
          FirstConnectionChild(devs[i].children) == r &&
          forall k :: 0 <= k < i && devs[k].deviceType == WanDevice ==> FirstConnectionChild(devs[k].children).None?
      by {
        if r.Some? {
          var i :| 0 <= i < |devs[1..]| && devs[1..][i].deviceType == WanDevice &&
            FirstConnectionChild(devs[1..][i].children) == r &&
            forall k :: 0 <= k < i && devs[1..][k].deviceType == WanDevice ==> FirstConnectionChild(devs[1..][k].children).None?;
          assert devs[i + 1] == devs[1..][i];
          forall k | 0 <= k < i + 1 && devs[k].deviceType == WanDevice
            ensures FirstConnectionChild(devs[k].children).None?
          {
            if k > 0 { assert devs[k] == devs[1..][k - 1]; }
          }
        }
      }
      assert r.None? ==> forall k :: 0 <= k < |devs| && devs[k].deviceType == WanDevice ==> FirstConnectionChild(devs[k].children).None?
      by {
        if r.None? {
          forall k | 0 <= k < |devs| && devs[k].deviceType == WanDevice
            ensures FirstConnectionChild(devs[k].children).None?
          {
            if k > 0 { assert devs[k] == devs[1..][k - 1]; }
          }
        }
      }
      r
  }

  /** The port-mapping service of a WANConnectionDevice: PPP when present,
      otherwise IP, otherwise none. */
  function ConnectionService(conn: Device): (r: Option<Service>)
    ensures r.Some? <==> WanPppConnection in conn.services || WanIpConnection in conn.services
    ensures WanPppConnection in conn.services ==> r == Some(conn.services[WanPppConnection])
    ensures WanPppConnection !in conn.services && WanIpConnection in conn.services ==>
      r == Some(conn.services[WanIpConnection])
  {
    match conn.GetService(WanPppConnection)
    case Some(s) => Some(s)
    case None => conn.GetService(WanIpConnection)
  }

  /** The service the controller binds to on a gateway: the connection
      service of the first WANConnectionDevice, or none when the tree has no
      WANDevice holding a WANConnectionDevice. */
  function Locate(router: Device): Option<Service>
  {
    match FirstConnectionDevice(router.children)
    case None => None
    case Some(conn) => ConnectionService(conn)
  }

  /** The locator's result is decided by the first WANConnectionDevice under
      a WANDevice: it is that device's PPP service, else its IP service, else
      none; and it is none when there is no such device. */
  lemma {:induction false} LocateFindsFirstConnectionDevice(router: Device)
    ensures Locate(router).Some? ==>
      exists i, j :: 0 <= i < |router.children| && 0 <= j < |router.children[i].children| &&
        router.children[i].deviceType == WanDevice &&
        router.children[i].children[j].deviceType == WanConnectionDevice &&
        Locate(router) == ConnectionService(router.children[i].children[j])
    ensures Locate(router).None? ==>
      (forall i, j ::
        (0 <= i < |router.children| && 0 <= j < |router.children[i].children| &&
         router.children[i].deviceType == WanDevice) ==>
        router.children[i].children[j].deviceType != WanConnectionDevice) ||
      (exists conn :: FirstConnectionDevice(router.children) == Some(conn) && ConnectionService(conn).None?)
  {
    var devs := router.children;
    match FirstConnectionDevice(devs)
    case Some(conn) =>
      var i :| 0 <= i < |devs| && devs[i].deviceType == WanDevice &&
        FirstConnectionChild(devs[i].children) == Some(conn);
      var j :| 0 <= j < |devs[i].children| && devs[i].children[j] == conn &&
        devs[i].children[j].deviceType == WanConnectionDevice;
    case None =>
      forall i, j | 0 <= i < |devs| && 0 <= j < |devs[i].children| && devs[i].deviceType == WanDevice
        ensures devs[i].children[j].deviceType != WanConnectionDevice
      {
        assert FirstConnectionChild(devs[i].children).None?;
      }
  }

  /** Appending WANConnectionDevices after the first one found never changes
      the inner search. */
  lemma {:induction false} FirstConnectionChildAppend(a: seq<Device>, b: seq<Device>)
    ensures FirstConnectionChild(a + b) ==
      if FirstConnectionChild(a).Some? then FirstConnectionChild(a) else FirstConnectionChild(b)
  {
    if a == [] {
      assert a + b == b;
    } else {
      assert (a + b)[1..] == a[1..] + b;
      FirstConnectionChildAppend(a[1..], b);
    }
  }

  /** Devices that come after the first WANDevice holding a
      WANConnectionDevice are never examined: the outer search over `a + b`
      is the search over `a` whenever that finds something. */
  lemma {:induction false} FirstConnectionDeviceAppend(a: seq<Device>, b: seq<Device>)
    ensures FirstConnectionDevice(a + b) ==
      if FirstConnectionDevice(a).Some? then FirstConnectionDevice(a) else FirstConnectionDevice(b)
  {
    if a == [] {
      assert a + b == b;
    } else {
      assert (a + b)[0] == a[0];
      assert (a + b)[1..] == a[1..] + b;
      FirstConnectionDeviceAppend(a[1..], b);
    }
  }

  /** Replacing a device by one of the same type whose inner search gives
      the same answer leaves the outer search unchanged. */
  lemma {:induction false} FirstConnectionDeviceReplace(devs: seq<Device>, i: nat, w: Device)
    requires i < |devs|
    requires w.deviceType == devs[i].deviceType
    requires FirstConnectionChild(w.children) == FirstConnectionChild(devs[i].children)
    ensures FirstConnectionDevice(devs[i := w]) == FirstConnectionDevice(devs)
  {
    if i > 0 {
      assert devs[i := w][1..] == devs[1..][i - 1 := w];
      FirstConnectionDeviceReplace(devs[1..], i - 1, w);
    }
  }

  /** The locator never looks past the first WANDevice that holds a
      WANConnectionDevice: devices appended after the gateway's children
      leave the bound service unchanged. */
  lemma LocateIgnoresLaterWanDevices(router: Device, extra: seq<Device>, i: nat)
    requires i < |router.children|
    requires router.children[i].deviceType == WanDevice
    requires FirstConnectionChild(router.children[i].children).Some?
    ensures Locate(router.(children := router.children + extra)) == Locate(router)
  {
    FirstConnectionDeviceSomeWithin(router.children, i);
    FirstConnectionDeviceAppend(router.children, extra);
  }

  /** Nor past the first WANConnectionDevice inside a WANDevice: devices
      appended after it leave the bound service unchanged. */
  lemma LocateIgnoresLaterConnectionDevices(router: Device, i: nat, moreConns: seq<Device>)
    requires i < |router.children|
    requires router.children[i].deviceType == WanDevice
    requires FirstConnectionChild(router.children[i].children).Some?
    ensures
      var w := router.children[i];
      Locate(router.(children := router.children[i := w.(children := w.children + moreConns)])) == Locate(router)
  {
    var w := router.children[i];
    FirstConnectionChildAppend(w.children, moreConns);
    FirstConnectionDeviceReplace(router.children, i, w.(children := w.children + moreConns));
  }

  /** If some WANDevice at position i holds a WANConnectionDevice, the outer
      search finds one. */
  lemma FirstConnectionDeviceSomeWithin(devs: seq<Device>, i: nat)
    requires i < |devs| && devs[i].deviceType == WanDevice
    requires FirstConnectionChild(devs[i].children).Some?
    ensures FirstConnectionDevice(devs).Some?
  {
  }
}
