# UPnP NAT-traversal controller

This project models the controller at the heart of the UPnP plugin
(`src/plugins/UPnP/UPnP.java`) and proves properties of it. The controller
listens for devices on the local network. It binds to at most one Internet
Gateway Device (IGD). It finds the gateway's WAN connection service by
walking the gateway's device tree. Then it keeps the port mappings on the
gateway in step with the set of ports the host wants forwarded. For each
port it tells the host, through a status callback, whether the mapping
apparently worked.

The model has four modules:

- `Devices` (devices.dfy): the device tree the controller looks at, and
  the service locator as functions over it.
- `Mappings` (mappings.dfy): forward ports, the control requests posted to
  the gateway, the diff between two desired sets, and the teardown of the
  forwarded set. The functions `AddRound`, `Retry`, `PortRun` and
  `RegisterAlong` say exactly what one call of `addMapping`, one call of
  `tryAddMapping`, one port and one whole registration post, which of the
  gateway's answers they take, and what they report. The lemmas about them
  state what the reconciler promises the host.
- `Controller` (controller.dfy): the class `NatController`. Its fields are
  the state of the Java object: the bound router and service, the disable
  flag, the desired set `portsToForward` and the forwarded set
  `portsForwarded`. Three more fields stand in for the outside world.
  `replies` is a script of the gateway's answers, one per posted action.
  `sent` logs every posted action with its answer. `reports` logs every
  status handed to the host's callback. Every method is proved against the
  binding invariant `Valid()` and states its whole new state as a function
  of the old state and the gateway's script. The only freedom left is the
  iteration order of the hash sets it walks.
- `Scenarios` (scenarios.dfy): short runs from a fresh controller, each
  proving one behaviour the host relies on.

The model follows the code in these details:

- The locator prefers the WANPPPConnection service and falls back to
  WANIPConnection (`UPnP.java:189-196`).
- A desired set of `null` makes `onChangePublicPorts` fail at once
  (`ports.size()`, line 509), so the model takes a set, never null.
- A desired set that is `null` and one that is empty behave the same
  everywhere in the code. So the model starts with the empty set.

## Model

| member | source | states |
|---|---|---|
| `Devices.FirstConnectionChild` | src/plugins/UPnP/UPnP.java:183-199 | The inner search finds the first WANConnectionDevice of a list, and none exactly when the list has none. |
| `Devices.FirstConnectionDevice` | src/plugins/UPnP/UPnP.java:178-201 | The outer search finds the connection device of the first WANDevice that holds one; WANDevices without one and other devices are skipped. |
| `Devices.ConnectionService` | src/plugins/UPnP/UPnP.java:189-197 | A connection device yields its PPP service when present, else its IP service, else none. |
| `Devices.LocateFindsFirstConnectionDevice` | src/plugins/UPnP/UPnP.java:176-201 | A located service is the connection service of a WANConnectionDevice under a WANDevice; no service means no such device, or the first one offers neither service. |
| `Devices.FirstConnectionChildAppend` | src/plugins/UPnP/UPnP.java:186-199 | Devices after the first WANConnectionDevice of a list never change the inner search. |
| `Devices.FirstConnectionDeviceAppend` | src/plugins/UPnP/UPnP.java:178-199 | Devices after the first WANDevice that holds a connection device never change the outer search. |
| `Devices.FirstConnectionDeviceReplace` | src/plugins/UPnP/UPnP.java:178-199 | Swapping a child for one of the same type whose inner search agrees leaves the outer search unchanged. |
| `Devices.LocateIgnoresLaterWanDevices` | src/plugins/UPnP/UPnP.java:176-201 | Appending devices after a WANDevice that holds a connection device leaves the located service unchanged. |
| `Devices.LocateIgnoresLaterConnectionDevices` | src/plugins/UPnP/UPnP.java:186-199 | Appending devices after the first WANConnectionDevice of a WANDevice leaves the located service unchanged. |
| `Mappings.ProtocolName` | src/plugins/UPnP/UPnP.java:561-564 | A supported protocol is named "UDP" exactly when it is UDP over IPv4, else "TCP". |
| `Mappings.ComputeDiff` | src/plugins/UPnP/UPnP.java:514-547 | The ports to forward now are the new ports not in the old desired set; the ports to dump are the old ones not in the new set. This includes the two shortcuts for an empty old or new set. |
| `Mappings.DiffReconciles` | src/plugins/UPnP/UPnP.java:514-547 | The two diffs are disjoint, turn the old desired set into the new one, leave alone ports in both, and are empty when the set is unchanged. |
| `Mappings.AfterAdd` | src/plugins/UPnP/UPnP.java:451-504 | After adding a port's mapping, the port is forwarded exactly when an add succeeded, or when it was forwarded before and no pre-clean delete was posted; every other port keeps its state. |
| `Mappings.AddRoundAdds` | src/plugins/UPnP/UPnP.java:451-480 | One call of addMapping got an AddPortMapping answer exactly when the service offers the action, and its outcome is that answer; it cannot succeed without the action. |
| `Mappings.AddRoundLast` | src/plugins/UPnP/UPnP.java:451-480 | A call of addMapping that succeeds ends with the accepted AddPortMapping. |
| `Mappings.RetryPosts` | src/plugins/UPnP/UPnP.java:203-219 | A run of tryAddMapping posts only the port's DeletePortMapping and AddPortMapping. |
| `Mappings.RetryAnswers` | src/plugins/UPnP/UPnP.java:203-219 | A run of tryAddMapping gives its i-th exchange the i-th answer of the gateway's script and leaves the script short by exactly the number of exchanges. |
| `Mappings.RetryLast` | src/plugins/UPnP/UPnP.java:207-211 | A run of tryAddMapping that succeeds stops at the accepted add: it is the last exchange. |
| `Mappings.RetryAddAnswers` | src/plugins/UPnP/UPnP.java:203-219 | With AddPortMapping offered, a run has one to five add answers, every one but the last rejected, the last one its outcome, and all five when it failed. Without the action it posts no add and fails. |
| `Mappings.RegisterAlongCovers` | src/plugins/UPnP/UPnP.java:557-583 | In any iteration order, registering a set reports each of its ports exactly once. DEFINITE_FAILURE goes exactly to unsupported protocols. A supported port's add answers form a retry outcome that ends in success exactly when it is reported MAYBE_SUCCESS, and without AddPortMapping it gets PROBABLE_FAILURE with no add posted. Only deletes and adds of the set's supported ports are posted, answered in script order. |
| `Mappings.ReportsCoverAccepted` | src/plugins/UPnP/UPnP.java:571-580 | A supported port is reported MAYBE_SUCCESS if and only if an AddPortMapping for it was accepted; reported PROBABLE_FAILURE with the action offered, it had exactly five rejected adds. |
| `Mappings.RegisterAlongIdle` | src/plugins/UPnP/UPnP.java:451-462 | Without DeletePortMapping and AddPortMapping, registering posts nothing, takes no answer and reports no success. |
| `Mappings.RegisterProgressDone` | src/plugins/UPnP/UPnP.java:557-583 | A finished registration loop is `RegisterAlong` over the whole set. The forwarded set has lost the set's supported ports when the pre-clean deletes them, and gained exactly the ports reported MAYBE_SUCCESS. |
| `Mappings.ForwardedAfterChange` | src/plugins/UPnP/UPnP.java:551-554 | Unregistering the dropped ports and then registering the new ones leaves the forwarded set less the supported ports of both, when DeletePortMapping is offered, plus the ports reported MAYBE_SUCCESS. |
| `Mappings.AcceptingGatewayMapsAtOnce` | src/plugins/UPnP/UPnP.java:203-219 | A gateway that accepts its next two actions maps a supported port at the first attempt, with one accepted add. |
| `Mappings.SilentGatewayRejectsAll` | src/plugins/UPnP/UPnP.java:203-219 | A gateway that answers nothing gets five add attempts for a supported port and rejects all of them. |
| `Mappings.RegisteredOne` | src/plugins/UPnP/UPnP.java:557-583 | Registering a single port is one run of tryAddMapping for it and one report whose status is that run's outcome. |
| `Mappings.RegisteredNothing` | src/plugins/UPnP/UPnP.java:557-558 | Registering the empty set reports nothing, posts nothing and takes no answer. |
| `Mappings.RegisteredOneForwarded` | src/plugins/UPnP/UPnP.java:557-583 | After registering a single port that was not forwarded, the port is forwarded exactly when its protocol is supported and its run succeeded. |
| `Mappings.LiveTeardown` | src/plugins/UPnP/UPnP.java:221-227 | The teardown as written: at most one mapping is deleted, only one with a supported protocol, and nothing is deleted when no removal is possible. |
| `Mappings.LiveTeardownLeavesMappings` | src/plugins/UPnP/UPnP.java:221-227 | As written, with two supported ports in the forwarded set the iteration aborts after one deletion, so a supported port keeps its mapping. |
| `Mappings.TeardownOfTwoPorts` | src/plugins/UPnP/UPnP.java:585-599 | For two concrete ports, the teardown as written deletes only the first one visited; the snapshot teardown deletes both. |
| `Mappings.SnapshotTeardown` | src/plugins/UPnP/UPnP.java:585-599 | The corrected teardown deletes only visited ports with a supported protocol, and nothing when no removal is possible. |
| `Mappings.SnapshotTeardownDeletesEachOnce` | src/plugins/UPnP/UPnP.java:585-599 | Over any iteration order of the forwarded set, each supported port is deleted exactly once and nothing else is deleted. |
| `Mappings.DeleteTrafficDeletesEachOnce` | src/plugins/UPnP/UPnP.java:585-599 | An unregistration that can remove posts exactly one DeletePortMapping per supported port of the set, with its port and protocol name, and nothing else. |
| `Mappings.DeleteTrafficQuiet` | src/plugins/UPnP/UPnP.java:482-487 | An unregistration posts nothing when DeletePortMapping cannot be posted or the set is empty. |
| `Mappings.RegisterTrafficNeedsSupportedPort` | src/plugins/UPnP/UPnP.java:557-570 | A registration posts something only if some port of the set has a supported protocol. |
| `Mappings.ReportsCoverOncePerPort` | src/plugins/UPnP/UPnP.java:557-583 | A registration's reports name every port of the set, and no port twice. |
| `Controller.NatController.constructor` | src/plugins/UPnP/UPnP.java:64-81 | A new controller is bound to nothing, is not disabled, and forwards nothing. |
| `Controller.NatController.IsNatPresent` | src/plugins/UPnP/UPnP.java:242-244 | Under the binding invariant, a NAT is present exactly when a gateway is bound; then a service is held. |
| `Controller.NatController.DeviceAdded` | src/plugins/UPnP/UPnP.java:120-162 | A disabled controller and a non-IGD device change nothing. A second IGD disables and unbinds. An IGD without a usable service disables. Otherwise the controller binds to the IGD and its located service, then registers the desired ports: the reports, exchanges and answers taken are `RegisterAlong` in some iteration order, and the forwarded set is stated exactly. |
| `Controller.NatController.DiscoverService` | src/plugins/UPnP/UPnP.java:176-201 | The nested loops set the service to the connection service of the first WANConnectionDevice under a WANDevice. When there is none, the service is left as it was. |
| `Controller.NatController.DeviceRemoved` | src/plugins/UPnP/UPnP.java:229-237 | Only the bound gateway's departure unbinds; the disable flag and the port sets are untouched. |
| `Controller.NatController.RemoveMapping` | src/plugins/UPnP/UPnP.java:482-504 | Nothing is posted when disabled, unbound or without DeletePortMapping. Otherwise one delete is posted and the port leaves the forwarded set whatever the gateway answers. |
| `Controller.NatController.AddMapping` | src/plugins/UPnP/UPnP.java:451-480 | Nothing happens when disabled or unbound. Otherwise any mapping of the port is first deleted, when DeletePortMapping is offered. Then, when AddPortMapping is offered, one add is posted with an empty remote host, equal external and internal ports, the gateway's interface as client, enabled, and a permanent lease. The exchanges, answers taken and outcome are `AddRound`, and the forwarded set is `AfterAdd`. |
| `Controller.NatController.TryAddMapping` | src/plugins/UPnP/UPnP.java:203-219 | The loop's exchanges, answers taken and outcome are `Retry` with five attempts and the "Freenet 0.7 " prefix on the description; the forwarded set is `AfterAdd`. The i-th exchange got the i-th scripted answer. The add answers form a retry outcome, and the logged counter is the number of attempts on success and 6 after five failures. |
| `Controller.NatController.RegisterPort` | src/plugins/UPnP/UPnP.java:558-582 | The port's exchanges, answers taken and outcome are `PortRun`: nothing for a protocol other than UDP or TCP over IPv4, otherwise one run of tryAddMapping with protocol name, port number and name. The status is DEFINITE_FAILURE, MAYBE_SUCCESS or PROBABLE_FAILURE after that outcome, and the forwarded set is `AfterPort`. |
| `Controller.NatController.RegisterPorts` | src/plugins/UPnP/UPnP.java:557-583 | The reports, exchanges and answers taken are `RegisterAlong` in some iteration order of the set. The forwarded set is the old one less the set's supported ports when DeletePortMapping is offered, plus the ports reported MAYBE_SUCCESS. Every report obeys the status rule of `RegisterAlongCovers`. Without delete and add actions nothing changes. |
| `Controller.NatController.UnregisterPort` | src/plugins/UPnP/UPnP.java:586-597 | A supported port's mapping is deleted when removal is possible and the port leaves the forwarded set; any other port is skipped. The delete takes the next scripted answer. |
| `Controller.NatController.UnregisterPorts` | src/plugins/UPnP/UPnP.java:585-599 | One delete per supported port in some iteration order of the set, answered in script order. Those ports leave the forwarded set when removal is possible; nothing changes otherwise. |
| `Controller.NatController.RegisterPortMappings` | src/plugins/UPnP/UPnP.java:164-171 | The desired ports are registered as in RegisterPorts, with the same exact reports, exchanges and forwarded set. |
| `Controller.NatController.UnregisterPortMappings` | src/plugins/UPnP/UPnP.java:221-227 | Every supported port of the forwarded set has its mapping deleted once, answered in script order, and the forwarded set keeps only unsupported ports. |
| `Controller.NatController.OnChangePublicPorts` | src/plugins/UPnP/UPnP.java:506-555 | The new desired set is always recorded. Unbound, nothing is posted or reported. Bound, the dropped ports get the snapshot teardown, then the new ports are registered as `RegisterAlong` on the rest of the script, each reported once. The forwarded set is stated exactly, and ports wanted before and after are left alone. |
| `Controller.NatController.Terminate` | src/plugins/UPnP/UPnP.java:88-91 | Unloading tears down every supported forwarded mapping, one delete each, answered in script order (the snapshot teardown; see Left out). |
| `Controller.NatController.GetNatAddress` | src/plugins/UPnP/UPnP.java:250-259 | No address when unbound, without GetExternalIPAddress, or when the action fails. Otherwise the address the gateway reports. |
| `Scenarios.SecondGatewayDisables` | src/plugins/UPnP/UPnP.java:120-137 | A second IGD disables the controller for good: later departures and arrivals bind nothing. |
| `Scenarios.ForwardingWaitsForGateway` | src/plugins/UPnP/UPnP.java:549 | Ports asked for before a gateway is found are neither posted nor reported. Once one is bound, every port gets one report. |
| `Scenarios.RepeatedRequestIsQuiet` | src/plugins/UPnP/UPnP.java:522-547 | Handing over the same desired set again posts and reports nothing. |
| `Scenarios.UnsupportedProtocolFailsDefinitely` | src/plugins/UPnP/UPnP.java:564-569 | A port with another protocol is reported as DEFINITE_FAILURE and nothing is posted. |
| `Scenarios.MissingAddActionFails` | src/plugins/UPnP/UPnP.java:459-463 | Without AddPortMapping on the service, a supported port is reported as PROBABLE_FAILURE and is not forwarded. |
| `Scenarios.AcceptingGatewayForwards` | src/plugins/UPnP/UPnP.java:571-575 | With a gateway that accepts its first two actions, a port wanted before the gateway appears is reported MAYBE_SUCCESS and forwarded. |
| `Scenarios.SilentGatewayFailsAfterFiveTries` | src/plugins/UPnP/UPnP.java:576-580 | With a gateway that answers nothing, a wanted port gets exactly five add attempts, is reported PROBABLE_FAILURE and is not forwarded. |

## Left out

- Logging, console output and the 5-second sleep between add attempts
  (`Thread.sleep`) have no effect on the modelled state.
- Locking and concurrency are left out. The device listener thread, the
  `synchronized` blocks and the unlocked reads of `isDisabled` and the
  router are modelled as one sequential object.
- Starting and stopping the UPnP control point (`super.start()`, `stop()`,
  `super.stop()`) and `runPlugin` are left out. They drive device
  discovery, which the model takes as calls to `DeviceAdded` and
  `DeviceRemoved`.
- `getAddress` (DNS resolution of the NAT address) and the bit-rate
  queries `getUpstramMaxBitRate` and `getDownstreamMaxBitRate` are left
  out. They only read answers of the gateway and change no state.
- The HTML status pages (`UPnP.java:289-449`) are left out: they only
  render text.
- The gateway's answers are a script of success flags, one per posted
  action. The output argument of GetExternalIPAddress is the parameter
  `reported` of `GetNatAddress`.
- The status callback is modelled as the log `reports`. A callback that is
  `null` would fail on the first report; that path is not modelled. The
  warning logged when the callback object changes is left out, as are the
  message strings of the statuses.
- The device library's own service-type lookup and device equality are
  modelled as exact map lookup and value equality.
- Port numbers are unbounded integers. The controller passes them through
  unchanged and never does arithmetic on them.
- Hash-set iteration order is not modelled. The loops pick the next port
  in any order, and the contracts hold for every order.
- Controller.NatController.Terminate: inherits the snapshot teardown of
  `UnregisterPortMappings`. As written, unloading with two or more
  supported ports forwarded aborts after the first deletion (see the
  finding below), and the contract states the corrected teardown instead.
- The desired set is taken by value. The source stores the caller's `Set`
  object itself in `portsToForward` (`UPnP.java:516`, 521, 547), so a host
  that changes that set and hands it over again would see empty diffs at
  lines 529 and 539. The model assumes the host passes a fresh set on each
  call.
- Controller.NatController.UnregisterPortMappings: iterates a snapshot of
  the forwarded set, not the live set the source iterates. This is the
  corrected behaviour of the finding below. The behaviour as written is
  `Mappings.LiveTeardown`.

## Findings

| source | as written | input that shows it | evidently intended | confidence | as-written member | corrected member |
|---|---|---|---|---|---|---|
| src/plugins/UPnP/UPnP.java:221-227 | `unregisterPortMappings` hands the live `portsForwarded` set to `unregisterPorts`, and `removeMapping` (line 498) removes each port from that same set while the iterator walks it. | A bound gateway offering DeletePortMapping and a forwarded set {(UDP, 5000, "A"), (TCP, 6000, "B")}: after the first deletion the iterator fails with a ConcurrentModificationException, so the other mapping stays on the gateway at unload. | Every forwarded mapping is deleted, which iterating over a copy of the set would give. | not executed | `Mappings.LiveTeardown` (`Mappings.LiveTeardownLeavesMappings`, `Mappings.TeardownOfTwoPorts`) | `Mappings.SnapshotTeardown` (`Mappings.SnapshotTeardownDeletesEachOnce`, `Controller.NatController.UnregisterPortMappings`) |
