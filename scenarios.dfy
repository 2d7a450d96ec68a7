/** Short runs of the controller from a fresh start, each checking one
    behaviour a host relies on. The gateway's answers are a script. */
module Scenarios {
  import opened Devices
  import opened Mappings
  import opened Controller

  /** A second root IGD disables the controller and drops the first one;
      neither the first gateway leaving nor it coming back re-enables it. */
  method SecondGatewayDisables(first: Device, second: Device, script: seq<bool>)
    returns (disabled: bool, bound: bool, disabledLater: bool, boundLater: bool)
    requires IsGateway(first) && Locate(first).Some? && IsGateway(second)
    ensures disabled && !bound
    ensures disabledLater && !boundLater
  {
    var c := new NatController(script);
    ghost var batch: seq<Report>, traffic: seq<Exchange>;
    batch, traffic := c.DeviceAdded(first);
    assert c.IsNatPresent();
    batch, traffic := c.DeviceAdded(second);
    disabled, bound := c.isDisabled, c.IsNatPresent();
    c.DeviceRemoved(first);
    batch, traffic := c.DeviceAdded(first);
    disabledLater, boundLater := c.isDisabled, c.IsNatPresent();
  }

  /** Ports asked for before any gateway is known are only recorded; when a
      usable gateway appears, every one of them gets exactly one status. */
  method ForwardingWaitsForGateway(gateway: Device, ports: set<ForwardPort>, script: seq<bool>)
    returns (reportedBefore: nat, reportedAfter: nat, postedBefore: nat)
    requires IsGateway(gateway) && Locate(gateway).Some?
    ensures reportedBefore == 0 && postedBefore == 0
    ensures reportedAfter == |ports|
  {
    var c := new NatController(script);
    ghost var dumped: seq<Exchange>, added: seq<Exchange>, batch: seq<Report>;
    dumped, added, batch := c.OnChangePublicPorts(ports);
    reportedBefore, postedBefore := |c.reports|, |c.sent|;
    ghost var traffic: seq<Exchange>;
    batch, traffic := c.DeviceAdded(gateway);
    reportedAfter := |c.reports|;
  }

  /** Asking again for the same ports posts nothing and reports nothing. */
  method RepeatedRequestIsQuiet(gateway: Device, ports: set<ForwardPort>, script: seq<bool>)
    returns (posted: nat, reported: nat)
    requires IsGateway(gateway) && Locate(gateway).Some?
    ensures posted == 0 && reported == 0
  {
    var c := new NatController(script);
    ghost var batch: seq<Report>, traffic: seq<Exchange>, dumped: seq<Exchange>, added: seq<Exchange>;
    batch, traffic := c.DeviceAdded(gateway);
    dumped, added, batch := c.OnChangePublicPorts(ports);
    var sentBefore, reportsBefore := |c.sent|, |c.reports|;
    dumped, added, batch := c.OnChangePublicPorts(ports);
    assert ports - ports == {};
    DeleteTrafficQuiet(dumped, {}, c.CanRemove());
    RegisterTrafficNeedsSupportedPort(added, {}, c.Client());
    posted, reported := |c.sent| - sentBefore, |c.reports| - reportsBefore;
  }

  /** A port whose protocol is neither UDP nor TCP over IPv4 is reported as
      a definite failure, and nothing is posted for it. */
  method UnsupportedProtocolFailsDefinitely(gateway: Device, port: ForwardPort, script: seq<bool>)
    returns (report: Report, posted: nat)
    requires IsGateway(gateway) && Locate(gateway).Some? && !Supported(port.protocol)
    ensures report == Report(port, DefiniteFailure) && posted == 0
  {
    var c := new NatController(script);
    ghost var batch: seq<Report>, traffic: seq<Exchange>, dumped: seq<Exchange>, added: seq<Exchange>;
    batch, traffic := c.DeviceAdded(gateway);
    var sentBefore := |c.sent|;
    dumped, added, batch := c.OnChangePublicPorts({port});
    assert {port} - {} == {port};
    DeleteTrafficQuiet(dumped, {}, c.CanRemove());
    assert SupportedIn({port}) == {};
    RegisterTrafficNeedsSupportedPort(added, {port}, c.Client());
    assert batch[0].port in ReportedPorts(batch);
    report, posted := c.reports[|c.reports| - 1], |c.sent| - sentBefore;
  }

  /** When the gateway's service has no AddPortMapping action, a supported
      port is reported as a probable failure and never joins the forwarded
      set. */
  method MissingAddActionFails(gateway: Device, port: ForwardPort, script: seq<bool>)
    returns (report: Report, forwarded: bool)
    requires IsGateway(gateway) && Locate(gateway).Some? && Supported(port.protocol)
    requires AddPortMappingAction !in Locate(gateway).value.actions
    ensures report == Report(port, ProbableFailure) && !forwarded
  {
    var c := new NatController(script);
    ghost var batch: seq<Report>, traffic: seq<Exchange>, dumped: seq<Exchange>, added: seq<Exchange>;
    dumped, added, batch := c.OnChangePublicPorts({port});
    batch, traffic := c.DeviceAdded(gateway);
    RegisteredOneForwarded(port, script, gateway.interfaceAddress, c.CanRemove(), c.CanAdd(),
                           Registration(batch, traffic, c.replies), {},
                           if c.CanRemove() then SupportedIn({port}) else {}, c.portsForwarded);
    RetryAddAnswers(script, c.CanRemove(), false, DeleteRequest(port), AddRequestFor(gateway.interfaceAddress, port),
                    MaxTries);
    report, forwarded := c.reports[|c.reports| - 1], port in c.portsForwarded;
  }

  /** A gateway that accepts the first actions it is sent maps a wanted
      port at the first attempt once it is found: the port is reported
      MAYBE_SUCCESS and joins the forwarded set. */
  method AcceptingGatewayForwards(gateway: Device, port: ForwardPort, script: seq<bool>)
    returns (report: Report, forwarded: bool)
    requires IsGateway(gateway) && Locate(gateway).Some? && Supported(port.protocol)
    requires AddPortMappingAction in Locate(gateway).value.actions
    requires |script| >= 2 && script[0] && script[1]
    ensures report == Report(port, MaybeSuccess) && forwarded
  {
    var c := new NatController(script);
    ghost var batch: seq<Report>, traffic: seq<Exchange>, dumped: seq<Exchange>, added: seq<Exchange>;
    dumped, added, batch := c.OnChangePublicPorts({port});
    batch, traffic := c.DeviceAdded(gateway);
    RegisteredOneForwarded(port, script, gateway.interfaceAddress, c.CanRemove(), c.CanAdd(),
                           Registration(batch, traffic, c.replies), {},
                           if c.CanRemove() then SupportedIn({port}) else {}, c.portsForwarded);
    AcceptingGatewayMapsAtOnce(script, gateway.interfaceAddress, c.CanRemove(), port);
    report, forwarded := c.reports[|c.reports| - 1], port in c.portsForwarded;
  }

  /** A gateway that answers nothing gets five add attempts for a wanted
      port, rejects all of them, and the port is reported PROBABLE_FAILURE
      and is not forwarded. */
  method SilentGatewayFailsAfterFiveTries(gateway: Device, port: ForwardPort)
    returns (report: Report, adds: nat, forwarded: bool)
    requires IsGateway(gateway) && Locate(gateway).Some? && Supported(port.protocol)
    requires AddPortMappingAction in Locate(gateway).value.actions
    ensures report == Report(port, ProbableFailure) && adds == MaxTries && !forwarded
  {
    var c := new NatController([]);
    ghost var batch: seq<Report>, traffic: seq<Exchange>, dumped: seq<Exchange>, added: seq<Exchange>;
    dumped, added, batch := c.OnChangePublicPorts({port});
    batch, traffic := c.DeviceAdded(gateway);
    RegisteredOneForwarded(port, [], gateway.interfaceAddress, c.CanRemove(), c.CanAdd(),
                           Registration(batch, traffic, c.replies), {},
                           if c.CanRemove() then SupportedIn({port}) else {}, c.portsForwarded);
    SilentGatewayRejectsAll(gateway.interfaceAddress, c.CanRemove(), port);
    assert c.sent == traffic;
    report := c.reports[|c.reports| - 1];
    adds := |AnswersTo(c.sent, AddRequestFor(gateway.interfaceAddress, port))|;
    forwarded := port in c.portsForwarded;
  }
}
