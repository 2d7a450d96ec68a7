/** The NAT-traversal controller: binds to at most one Internet Gateway
    Device, locates its WAN connection service, and keeps the port mappings
    on it in step with the ports the host wants forwarded. */
module Controller {
  import opened Options
  import opened Devices
  import opened Mappings

  class NatController {
    /** The gateway device bound to, if any. */
    var router: Option<Device>
    /** Its WAN connection service. */
    var service: Option<Service>
    /** Set when a second gateway or an unusable one is seen; never cleared. */
    var isDisabled: bool
    /** The ports the host last asked to have forwarded. */
    var portsToForward: set<ForwardPort>
    /** The ports whose mapping the gateway accepted and that were not removed since. */
    var portsForwarded: set<ForwardPort>
    /** The gateway's answers to the control actions still to be posted, in order. */
    var replies: seq<bool>
    /** Every control action posted to the gateway, with its answer. */
    var sent: seq<Exchange>
    /** Every status handed to the host's callback. */
    var reports: seq<Report>

    /** The binding invariant: a service is held exactly when a gateway is,
        the gateway is a root IGD and the service is the one the locator
        finds on it, and a disabled controller holds no gateway. */
    ghost predicate Valid()
      reads this
    {
      (router.Some? <==> service.Some?) &&
      (router.Some? ==> IsGateway(router.value) && service == Locate(router.value)) &&
      (isDisabled ==> router.None?)
    }

    /** Whether the controller is behind a gateway it can talk to. */
    function IsNatPresent(): (r: bool)
      reads this
      ensures r ==> service.Some?
      ensures Valid() ==> (r <==> router.Some?)
    {
      router.Some? && service.Some?
    }

    /** A DeletePortMapping would be posted: not disabled, a gateway bound,
        and its service offers the action. */
    predicate CanRemove()
      reads this
    {
      !isDisabled && IsNatPresent() && DeletePortMappingAction in service.value.actions
    }

    /** An AddPortMapping would be posted. */
    predicate CanAdd()
      reads this
    {
      !isDisabled && IsNatPresent() && AddPortMappingAction in service.value.actions
    }

    /** The internal client address of the add requests. */
    function Client(): string
      reads this
    {
      if router.Some? then router.value.interfaceAddress else ""
    }

    twostate predicate BindingUnchanged()
      reads this
    {
      router == old(router) && service == old(service) && isDisabled == old(isDisabled) &&
      portsToForward == old(portsToForward)
    }

    constructor (script: seq<bool>)
      ensures Valid() && router.None? && service.None? && !isDisabled
      ensures portsToForward == {} && portsForwarded == {}
      ensures replies == script && sent == [] && reports == []
    {
      router, service, isDisabled := None, None, false;
      portsToForward, portsForwarded := {}, {};
      replies, sent, reports := script, [], [];
    }

    /** Posts a control action and takes the gateway's answer. */
    method Post(request: Request) returns (ok: bool)
      modifies this`replies, this`sent
      ensures ok == NextAnswer(old(replies)) && replies == AfterAnswer(old(replies))
      ensures sent == old(sent) + [Exchange(request, ok)]
    {
      ok := NextAnswer(replies);
      replies := AfterAnswer(replies);
      sent := sent + [Exchange(request, ok)];
    }

    // -------------------------------------------------------------------
    // Gateway binding

    /** A device announced itself. A disabled controller and devices other
        than a root IGD change nothing; a second IGD disables the
        controller and drops the binding; an IGD without a usable WAN
        connection service disables it too; otherwise the controller binds
        to the IGD and forwards the ports already desired. */
    method DeviceAdded(dev: Device) returns (ghost batch: seq<Report>, ghost traffic: seq<Exchange>)
      requires Valid()
      modifies this
      ensures Valid()
      ensures old(isDisabled) ==> isDisabled
      ensures old(isDisabled) || !IsGateway(dev) ==> unchanged(this)
      ensures !old(isDisabled) && IsGateway(dev) && old(IsNatPresent()) ==>
        isDisabled && router.None? && service.None? &&
        portsToForward == old(portsToForward) && portsForwarded == old(portsForwarded) &&
        replies == old(replies) && sent == old(sent) && reports == old(reports)
      ensures !old(isDisabled) && IsGateway(dev) && !old(IsNatPresent()) && Locate(dev).None? ==>
        isDisabled && router.None? && service.None? &&
        portsToForward == old(portsToForward) && portsForwarded == old(portsForwarded) &&
        replies == old(replies) && sent == old(sent) && reports == old(reports)
      ensures !old(isDisabled) && IsGateway(dev) && !old(IsNatPresent()) && Locate(dev).Some? ==>
        !isDisabled && router == Some(dev) && service == Locate(dev) &&
        portsToForward == old(portsToForward) &&
        reports == old(reports) + batch && sent == old(sent) + traffic &&
        RegisteredAs(portsToForward, old(replies), dev.interfaceAddress, CanRemove(), CanAdd(),
                     Registration(batch, traffic, replies)) &&
        portsForwarded ==
          (old(portsForwarded) - (if CanRemove() then SupportedIn(portsToForward) else {})) + Succeeded(batch) &&
        ReportsCover(batch, portsToForward, traffic, dev.interfaceAddress, CanAdd()) &&
        RegisterTraffic(traffic, portsToForward, dev.interfaceAddress) &&
        Answers(old(replies), traffic, replies)
    {
      batch, traffic := [], [];
      if isDisabled {
        return;
      }
      if !(dev.deviceType == RouterDevice && dev.isRoot) {
        return;
      }
      if IsNatPresent() {
        isDisabled := true;
        router := None;
        service := None;
        return;
      }
      router := Some(dev);
      DiscoverService();
      if service.None? {
        isDisabled := true;
        router := None;
        return;
      }
      batch, traffic := RegisterPortMappings();
    }

    /** The locator: looks through the gateway's WANDevices, in order, for
        the first WANConnectionDevice, and takes its PPP service, or else
        its IP service, or else none. When there is no such device the held
        service is left as it was. */
    method DiscoverService()
      requires router.Some?
      modifies this`service
      ensures service ==
        match FirstConnectionDevice(router.value.children)
        case Some(conn) => ConnectionService(conn)
        case None => old(service)
    {
      var devs := router.value.children;
      var i := 0;
      while i < |devs|
        invariant 0 <= i <= |devs|
        invariant FirstConnectionDevice(devs) == FirstConnectionDevice(devs[i..])
        invariant service == old(service)
      {
        var current := devs[i];
        assert devs[i..][1..] == devs[i + 1..];
        if current.deviceType != WanDevice {
          i := i + 1;
          continue;
        }
        var l := current.children;
        var k := 0;
        while k < |l|
          invariant 0 <= k <= |l|
          invariant FirstConnectionChild(l) == FirstConnectionChild(l[k..])
          invariant service == old(service)
        {
          var current2 := l[k];
          assert l[k..][1..] == l[k + 1..];
          if current2.deviceType != WanConnectionDevice {
            k := k + 1;
            continue;
          }
          service := current2.GetService(WanPppConnection);
          if service.None? {
            service := current2.GetService(WanIpConnection);
          }
          return;
        }
        i := i + 1;
      }
    }

    /** A device left the network: only the bound gateway's departure drops
        the binding, and it does not re-enable or disable anything. */
    method DeviceRemoved(dev: Device)
      requires Valid()
      modifies this
      ensures Valid()
      ensures old(router) == Some(dev) ==>
        router.None? && service.None? && isDisabled == old(isDisabled) &&
        portsToForward == old(portsToForward) && portsForwarded == old(portsForwarded) &&
        replies == old(replies) && sent == old(sent) && reports == old(reports)
      ensures old(router) != Some(dev) ==> unchanged(this)
    {
      if router.None? {
        return;
      }
      if router.value == dev {
        router := None;
        service := None;
      }
    }

    // -------------------------------------------------------------------
    // Mapping bookkeeping

    /** Deletes the mapping of a port. Nothing is posted when disabled, when
        no gateway is bound, or when the service has no DeletePortMapping;
        otherwise the port leaves the forwarded set whatever the gateway
        answers. */
    method RemoveMapping(protocol: string, port: int, fp: ForwardPort) returns (ok: bool)
      requires Valid()
      modifies this
      ensures Valid() && BindingUnchanged() && reports == old(reports)
      ensures !CanRemove() ==>
        !ok && portsForwarded == old(portsForwarded) && sent == old(sent) && replies == old(replies)
      ensures CanRemove() ==>
        ok == NextAnswer(old(replies)) && replies == AfterAnswer(old(replies)) &&
        sent == old(sent) + [Exchange(DeletePortMapping(port, protocol), ok)] &&
        portsForwarded == old(portsForwarded) - {fp}
    {
      if isDisabled || !IsNatPresent() {
        return false;
      }
      if DeletePortMappingAction !in service.value.actions {
        return false;
      }
      ok := Post(DeletePortMapping(port, protocol));
      portsForwarded := portsForwarded - {fp};
    }

    /** Adds the mapping of a port: first removes any mapping of the same
        port, then posts AddPortMapping; the port joins the forwarded set
        only when the gateway accepts it. Its exchanges, the answers it
        takes and its outcome are one call of `AddRound`. */
    method AddMapping(protocol: string, port: int, description: string, fp: ForwardPort)
      returns (ok: bool, ghost traffic: seq<Exchange>)
      requires Valid()
      modifies this
      ensures Valid() && BindingUnchanged() && reports == old(reports)
      ensures sent == old(sent) + traffic
      ensures AddRound(old(replies), CanRemove(), CanAdd(), DeletePortMapping(port, protocol),
                       AddRequest(Client(), protocol, port, description)) == Round(traffic, replies, ok)
      ensures portsForwarded == AfterAdd(old(portsForwarded), fp, ok, CanRemove())
    {
      traffic := [];
      if isDisabled || !IsNatPresent() || router.None? {
        ok := false;
        return;
      }
      ghost var before := sent;
      var _ := RemoveMapping(protocol, port, fp);
      traffic := sent[|before|..];
      if AddPortMappingAction !in service.value.actions {
        ok := false;
        return;
      }
      ok := Post(AddRequest(router.value.interfaceAddress, protocol, port, description));
      traffic := traffic + [Exchange(AddRequest(router.value.interfaceAddress, protocol, port, description), ok)];
      if ok {
        portsForwarded := portsForwarded + {fp};
      }
    }

    /** Tries to map a port up to five times, stopping at the first success:
        its exchanges, the answers it takes and its outcome are those of
        `Retry`. `tries` is the counter the source logs. Its loop test
        `tries++ < 5` increments the counter once more when it fails, so
        `tries` ends at 6 when every attempt failed; that last increment is
        written after the loop. */
    method TryAddMapping(protocol: string, port: int, description: string, fp: ForwardPort)
      returns (ok: bool, tries: nat, ghost traffic: seq<Exchange>)
      requires Valid()
      modifies this
      ensures Valid() && BindingUnchanged() && reports == old(reports)
      ensures sent == old(sent) + traffic
      ensures var add := AddRequest(Client(), protocol, port, DescriptionPrefix + description);
        Retry(old(replies), CanRemove(), CanAdd(), DeletePortMapping(port, protocol), add, MaxTries) ==
          Round(traffic, replies, ok)
      ensures portsForwarded == AfterAdd(old(portsForwarded), fp, ok, CanRemove())
      ensures Answers(old(replies), traffic, replies)
      ensures var attempts := AnswersTo(traffic, AddRequest(Client(), protocol, port, DescriptionPrefix + description));
        (CanAdd() ==> RetryOutcome(attempts, MaxTries, ok)) &&
        (!CanAdd() ==> attempts == [] && !ok) &&
        (ok ==> tries == |attempts|) &&
        (!ok ==> tries == MaxTries + 1)
    {
      ghost var cr, ca := CanRemove(), CanAdd();
      ghost var del := DeletePortMapping(port, protocol);
      ghost var add := AddRequest(Client(), protocol, port, DescriptionPrefix + description);
      ghost var whole := Retry(replies, cr, ca, del, add, MaxTries);
      ok := false;
      traffic := [];
      tries := 0;
      while tries < MaxTries && !ok
        invariant Valid() && BindingUnchanged() && reports == old(reports)
        invariant cr == CanRemove() && ca == CanAdd()
        invariant add == AddRequest(Client(), protocol, port, DescriptionPrefix + description)
        invariant sent == old(sent) + traffic
        invariant RetryProgress(whole, traffic, replies, ok, tries, cr, ca, del, add)
        invariant portsForwarded == AfterAdd(old(portsForwarded), fp, ok, cr && tries > 0)
      {
        ghost var script := replies;
        tries := tries + 1;
        ghost var more;
        ok, more := AddMapping(protocol, port, DescriptionPrefix + description, fp);
        AfterAddAgain(old(portsForwarded), fp, cr && tries > 1, ok, cr);
        RetryProgressStep(whole, traffic, script, tries - 1, cr, ca, del, add, more, replies, ok);
        AppendAssoc(old(sent), traffic, more);
        traffic := traffic + more;
      }
      RetryProgressDone(whole, traffic, replies, ok, tries, cr, ca, del, add);
      if !ok {
        tries := tries + 1;
      }
      RetryAnswers(old(replies), cr, ca, del, add, MaxTries);
      RetryAddAnswers(old(replies), cr, ca, del, add, MaxTries);
    }

    // -------------------------------------------------------------------
    // Desired-set reconciler

    /** One round of the registration loop: a port whose protocol is not
        UDP or TCP over IPv4 gets DEFINITE_FAILURE without any attempt;
        otherwise the mapping is tried and the port gets MAYBE_SUCCESS or
        PROBABLE_FAILURE. What it posts is `PortRun`. */
    method RegisterPort(port: ForwardPort) returns (status: Status, ghost traffic: seq<Exchange>)
      requires Valid()
      modifies this
      ensures Valid() && BindingUnchanged()
      ensures reports == old(reports) + [Report(port, status)] && sent == old(sent) + traffic
      ensures PortRun(old(replies), Client(), CanRemove(), CanAdd(), port) ==
        Round(traffic, replies, status == MaybeSuccess)
      ensures status == StatusOf(port, status == MaybeSuccess)
      ensures portsForwarded == AfterPort(old(portsForwarded), port, status == MaybeSuccess, CanRemove())
    {
      var proto;
      if port.protocol == UdpIpv4 {
        proto := "UDP";
      } else if port.protocol == TcpIpv4 {
        proto := "TCP";
      } else {
        status, traffic := DefiniteFailure, [];
        reports := reports + [Report(port, status)];
        return;
      }
      var ok, _, more := TryAddMapping(proto, port.portNumber, port.name, port);
      traffic := more;
      status := if ok then MaybeSuccess else ProbableFailure;
      reports := reports + [Report(port, status)];
    }

    /** Maps every port of the set and reports one status per port:
        DEFINITE_FAILURE for a protocol other than UDP or TCP over IPv4,
        without any attempt; MAYBE_SUCCESS when an add attempt succeeded;
        PROBABLE_FAILURE when all five failed. What it posts and reports is
        `RegisterAlong` in the set's iteration order. */
    method RegisterPorts(ports: set<ForwardPort>) returns (ghost batch: seq<Report>, ghost traffic: seq<Exchange>)
      requires Valid()
      modifies this
      ensures Valid() && BindingUnchanged()
      ensures reports == old(reports) + batch && sent == old(sent) + traffic
      ensures RegisteredAs(ports, old(replies), Client(), CanRemove(), CanAdd(), Registration(batch, traffic, replies))
      ensures portsForwarded == (old(portsForwarded) - (if CanRemove() then SupportedIn(ports) else {})) + Succeeded(batch)
      ensures ReportsCover(batch, ports, traffic, Client(), CanAdd())
      ensures RegisterTraffic(traffic, ports, Client())
      ensures Answers(old(replies), traffic, replies)
      ensures !CanRemove() && !CanAdd() ==>
        portsForwarded == old(portsForwarded) && traffic == [] && replies == old(replies)
    {
      batch, traffic := [], [];
      ghost var client, cr, ca := Client(), CanRemove(), CanAdd();
      ghost var order: seq<ForwardPort> := [];
      var todo := ports;
      while todo != {}
        invariant Valid() && BindingUnchanged()
        invariant reports == old(reports) + batch && sent == old(sent) + traffic
        invariant client == Client() && cr == CanRemove() && ca == CanAdd()
        invariant RegisterProgress(ports, todo, order, Registration(batch, traffic, replies), old(replies),
                                   old(portsForwarded), portsForwarded, client, cr, ca)
        decreases todo
      {
        var port :| port in todo;
        ghost var forwarded0, script := portsForwarded, replies;
        var status, more := RegisterPort(port);
        RegisterProgressStep(ports, todo, order, Registration(batch, traffic, script), old(replies),
                             old(portsForwarded), forwarded0, client, cr, ca, port, status, more, replies,
                             portsForwarded);
        AppendAssoc(old(sent), traffic, more);
        AppendAssoc(old(reports), batch, [Report(port, status)]);
        order, batch, traffic := order + [port], batch + [Report(port, status)], traffic + more;
        todo := todo - {port};
      }
      RegisterProgressDone(ports, order, Registration(batch, traffic, replies), old(replies), old(portsForwarded),
                           portsForwarded, client, cr, ca);
    }

    /** One round of the unregistration loop: a port with a supported
        protocol has its mapping removed, any other is skipped. */
    method UnregisterPort(port: ForwardPort) returns (ghost traffic: seq<Exchange>)
      requires Valid()
      modifies this
      ensures Valid() && BindingUnchanged() && reports == old(reports)
      ensures sent == old(sent) + traffic
      ensures Requests(traffic) == DeleteRequests(SnapshotTeardown([port], CanRemove()))
      ensures portsForwarded ==
        if CanRemove() && Supported(port.protocol) then old(portsForwarded) - {port} else old(portsForwarded)
      ensures Answers(old(replies), traffic, replies)
      ensures !CanRemove() ==> traffic == [] && replies == old(replies)
    {
      assert [port][1..] == [];
      AnswersNothing(replies);
      traffic := [];
      var proto;
      if port.protocol == UdpIpv4 {
        proto := "UDP";
      } else if port.protocol == TcpIpv4 {
        proto := "TCP";
      } else {
        return;
      }
      ghost var before, script := sent, replies;
      var _ := RemoveMapping(proto, port.portNumber, port);
      traffic := sent[|before|..];
      AnswerOne(script, DeletePortMapping(port.portNumber, proto));
    }

    /** Deletes the mapping of every port of the set whose protocol is
        supported; ports with another protocol are skipped. */
    method UnregisterPorts(ports: set<ForwardPort>) returns (ghost traffic: seq<Exchange>)
      requires Valid()
      modifies this
      ensures Valid() && BindingUnchanged() && reports == old(reports)
      ensures sent == old(sent) + traffic
      ensures DeleteTraffic(traffic, ports, CanRemove())
      ensures portsForwarded == if CanRemove() then old(portsForwarded) - SupportedIn(ports) else old(portsForwarded)
      ensures Answers(old(replies), traffic, replies)
      ensures !CanRemove() ==> traffic == [] && replies == old(replies)
    {
      traffic := [];
      AnswersNothing(replies);
      var todo := ports;
      ghost var order: seq<ForwardPort> := [];
      while todo != {}
        invariant Valid() && BindingUnchanged() && reports == old(reports)
        invariant sent == old(sent) + traffic
        invariant UnregisterProgress(ports, todo, order, traffic, old(portsForwarded), portsForwarded, CanRemove())
        invariant Answers(old(replies), traffic, replies)
        invariant !CanRemove() ==> replies == old(replies)
        decreases todo
      {
        var port :| port in todo;
        ghost var script, forwarded0 := replies, portsForwarded;
        var more := UnregisterPort(port);
        AnswersAppend(old(replies), traffic, script, more, replies);
        UnregisterProgressStep(ports, todo, order, traffic, old(portsForwarded), forwarded0, CanRemove(), port, more,
                               portsForwarded);
        AppendAssoc(old(sent), traffic, more);
        order, traffic := order + [port], traffic + more;
        todo := todo - {port};
      }
      UnregisterProgressDone(ports, order, traffic, old(portsForwarded), portsForwarded, CanRemove());
    }

    /** Forwards the ports already desired, once a gateway is bound. */
    method RegisterPortMappings() returns (ghost batch: seq<Report>, ghost traffic: seq<Exchange>)
      requires Valid()
      modifies this
      ensures Valid() && BindingUnchanged()
      ensures reports == old(reports) + batch && sent == old(sent) + traffic
      ensures RegisteredAs(portsToForward, old(replies), Client(), CanRemove(), CanAdd(),
                           Registration(batch, traffic, replies))
      ensures portsForwarded ==
        (old(portsForwarded) - (if CanRemove() then SupportedIn(portsToForward) else {})) + Succeeded(batch)
      ensures ReportsCover(batch, portsToForward, traffic, Client(), CanAdd())
      ensures RegisterTraffic(traffic, portsToForward, Client())
      ensures Answers(old(replies), traffic, replies)
    {
      batch, traffic := RegisterPorts(portsToForward);
    }

    /** Tears down every mapping in the forwarded set. The set is iterated
        as a snapshot taken before the first removal. */
    method UnregisterPortMappings() returns (ghost traffic: seq<Exchange>)
      requires Valid()
      modifies this
      ensures Valid() && BindingUnchanged() && reports == old(reports)
      ensures sent == old(sent) + traffic
      ensures DeleteTraffic(traffic, old(portsForwarded), CanRemove())
      ensures portsForwarded ==
        if CanRemove() then old(portsForwarded) - SupportedIn(old(portsForwarded)) else old(portsForwarded)
      ensures Answers(old(replies), traffic, replies)
    {
      var ports := portsForwarded;
      traffic := UnregisterPorts(ports);
    }

    /** The host replaces the set of ports it wants forwarded. The new set
        is recorded; when a gateway is bound, the ports no longer wanted are
        unmapped and then the newly wanted ones are mapped, each reported
        once. Ports wanted before and after are left alone. */
    method OnChangePublicPorts(ports: set<ForwardPort>)
      returns (ghost dumped: seq<Exchange>, ghost added: seq<Exchange>, ghost batch: seq<Report>)
      requires Valid()
      modifies this
      ensures Valid() && router == old(router) && service == old(service) && isDisabled == old(isDisabled)
      ensures portsToForward == ports
      ensures sent == old(sent) + dumped + added && reports == old(reports) + batch
      ensures router.None? ==>
        dumped == [] && added == [] && batch == [] &&
        portsForwarded == old(portsForwarded) && replies == old(replies)
      ensures router.Some? ==>
        var forwardNow := ports - old(portsToForward);
        var dumpNow := old(portsToForward) - ports;
        var afterDump := Drop(old(replies), |dumped|);
        DeleteTraffic(dumped, dumpNow, CanRemove()) &&
        Answers(old(replies), dumped, afterDump) &&
        RegisteredAs(forwardNow, afterDump, Client(), CanRemove(), CanAdd(), Registration(batch, added, replies)) &&
        portsForwarded ==
          (old(portsForwarded) - (if CanRemove() then SupportedIn(dumpNow + forwardNow) else {})) + Succeeded(batch) &&
        ReportsCover(batch, forwardNow, added, Client(), CanAdd()) &&
        RegisterTraffic(added, forwardNow, Client()) &&
        Answers(old(replies), dumped + added, replies)
    {
      dumped, added, batch := [], [], [];
      var forwardNow, dumpNow := ComputeDiff(portsToForward, ports);
      portsToForward := ports;
      if router.None? {
        return;
      }
      ghost var script, start := replies, portsForwarded;
      dumped := UnregisterPorts(dumpNow);
      ghost var afterDump, mid := replies, portsForwarded;
      batch, added := RegisterPorts(forwardNow);
      AnswersAppend(script, dumped, afterDump, added, replies);
      ForwardedAfterChange(start, dumpNow, forwardNow, batch, CanRemove(), mid, portsForwarded);
    }

    /** The plugin is unloaded: every forwarded mapping is torn down. */
    method Terminate() returns (ghost traffic: seq<Exchange>)
      requires Valid()
      modifies this
      ensures Valid() && BindingUnchanged() && reports == old(reports)
      ensures sent == old(sent) + traffic
      ensures DeleteTraffic(traffic, old(portsForwarded), CanRemove())
      ensures portsForwarded ==
        if CanRemove() then old(portsForwarded) - SupportedIn(old(portsForwarded)) else old(portsForwarded)
      ensures Answers(old(replies), traffic, replies)
    {
      traffic := UnregisterPortMappings();
    }

    /** The external address the gateway reports, or none when no gateway
        is bound, the service has no GetExternalIPAddress, or the action
        fails. `reported` stands for the address in the gateway's answer. */
    method GetNatAddress(reported: string) returns (address: Option<string>)
      requires Valid()
      modifies this
      ensures Valid() && BindingUnchanged() && portsForwarded == old(portsForwarded) && reports == old(reports)
      ensures !IsNatPresent() || GetExternalIpAddressAction !in service.value.actions ==>
        address.None? && sent == old(sent) && replies == old(replies)
      ensures IsNatPresent() && GetExternalIpAddressAction in service.value.actions ==>
        replies == AfterAnswer(old(replies)) &&
        sent == old(sent) + [Exchange(GetExternalIPAddress, NextAnswer(old(replies)))] &&
        address == if NextAnswer(old(replies)) then Some(reported) else None
    {
      if !IsNatPresent() {
        return None;
      }
      if GetExternalIpAddressAction !in service.value.actions {
        return None;
      }
      var ok := Post(GetExternalIPAddress);
      if !ok {
        return None;
      }
      address := Some(reported);
    }
  }
}
