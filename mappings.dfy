/** Forward ports, the requests posted to the gateway's WAN connection
    service and the answers the gateway gives, what registering a set of
    ports posts and reports, the desired-set diff of the reconciler, and the
    teardown of the forwarded set. */
module Mappings {
  import opened Options

  /** The transport of a forward port. The host may ask for any other
      protocol code, which the controller cannot map; `code` only tells such
      protocols apart and never stands for UDP or TCP over IPv4, which are
      the two constructors before it. */
  datatype Protocol = UdpIpv4 | TcpIpv4 | OtherProtocol(code: int)

  /** A port the host wants reachable from outside. Ports are compared by
      value. */
  datatype ForwardPort = ForwardPort(protocol: Protocol, portNumber: int, name: string)

  /** The status the host's callback receives for a port. */
  datatype Status = DefiniteFailure | MaybeSuccess | ProbableFailure

  /** One status callback: the map handed to the callback always holds
      exactly one port. */
  datatype Report = Report(port: ForwardPort, status: Status)

  /** A control action posted to the gateway, with its input arguments. */
  datatype Request =
    | AddPortMapping(remoteHost: string, externalPort: int, internalClient: string, internalPort: int,
                     protocol: string, description: string, enabled: string, leaseDuration: int)
    | DeletePortMapping(externalPort: int, protocol: string)
    | GetExternalIPAddress

  /** A posted action and whether the gateway reported success. */
  datatype Exchange = Exchange(request: Request, ok: bool)

  /** Prefix put in front of the port's name in a mapping description. */
  const DescriptionPrefix := "Freenet 0.7 "

  /** Number of AddPortMapping attempts per port. */
  const MaxTries := 5

  predicate Supported(p: Protocol)
  {
    p.UdpIpv4? || p.TcpIpv4?
  }

  /** The protocol argument of the port-mapping actions. */
  function ProtocolName(p: Protocol): (r: string)
    requires Supported(p)
    ensures r == "UDP" || r == "TCP"
    ensures r == "UDP" <==> p == UdpIpv4
  {
    if p.UdpIpv4? then "UDP" else "TCP"
  }

  /** The ports of a set whose protocol the controller can map. */
  function SupportedIn(ports: set<ForwardPort>): set<ForwardPort>
  {
    set p | p in ports && Supported(p.protocol)
  }

  /** The ports named in a sequence of reports. */
  function ReportedPorts(rs: seq<Report>): set<ForwardPort>
  {
    set i | 0 <= i < |rs| :: rs[i].port
  }

  /** The ports reported as MAYBE_SUCCESS. */
  function Succeeded(rs: seq<Report>): set<ForwardPort>
  {
    set i | 0 <= i < |rs| && rs[i].status == MaybeSuccess :: rs[i].port
  }

  /** The requests of a sequence of exchanges. */
  function Requests(xs: seq<Exchange>): (r: seq<Request>)
    ensures |r| == |xs| && forall i :: 0 <= i < |xs| ==> r[i] == xs[i].request
  {
    if xs == [] then [] else [xs[0].request] + Requests(xs[1..])
  }

  /** AddPortMapping for a port: any remote host, the same external and
      internal port, enabled, lease duration 0 (permanent). */
  function AddRequest(client: string, protocol: string, port: int, description: string): Request
  {
    AddPortMapping("", port, client, port, protocol, description, "1", 0)
  }

  /** The AddPortMapping that registering a port posts: its description is
      the prefix followed by the port's name. */
  function AddRequestFor(client: string, p: ForwardPort): Request
    requires Supported(p.protocol)
  {
    AddRequest(client, ProtocolName(p.protocol), p.portNumber, DescriptionPrefix + p.name)
  }

  function DeleteRequest(fp: ForwardPort): Request
    requires Supported(fp.protocol)
  {
    DeletePortMapping(fp.portNumber, ProtocolName(fp.protocol))
  }

  /** One DeletePortMapping per port, in order. */
  function DeleteRequests(ps: seq<ForwardPort>): (r: seq<Request>)
    requires forall i :: 0 <= i < |ps| ==> Supported(ps[i].protocol)
    ensures |r| == |ps|
  {
    if ps == [] then [] else [DeleteRequest(ps[0])] + DeleteRequests(ps[1..])
  }

  /** Distinct ports are added by distinct requests, since the description
      carries the port's name. */
  lemma AddRequestForInjective(client: string, p: ForwardPort, q: ForwardPort)
    requires Supported(p.protocol) && Supported(q.protocol)
    requires AddRequestFor(client, p) == AddRequestFor(client, q)
    ensures p == q
  {
    assert p.name == (DescriptionPrefix + p.name)[|DescriptionPrefix|..];
    assert q.name == (DescriptionPrefix + q.name)[|DescriptionPrefix|..];
  }

  /** `order` lists every element of `ports` exactly once: one possible
      iteration order of a hash set. */
  ghost predicate Enumerates(order: seq<ForwardPort>, ports: set<ForwardPort>)
  {
    (forall i, j :: 0 <= i < j < |order| ==> order[i] != order[j]) &&
    (forall i :: 0 <= i < |order| ==> order[i] in ports) &&
    (forall p :: p in ports ==> p in order)
  }

  lemma {:induction false} EnumeratesAppend(order: seq<ForwardPort>, done: set<ForwardPort>, p: ForwardPort)
    requires Enumerates(order, done) && p !in done
    ensures Enumerates(order + [p], done + {p})
  {
    var o := order + [p];
    forall q | q in done + {p} ensures q in o {
      if q == p {
        assert o[|order|] == p;
      } else {
        var k :| 0 <= k < |order| && order[k] == q;
        assert o[k] == q;
      }
    }
  }

  /** Leaving out the last port of an iteration order enumerates the set
      without it. */
  lemma EnumeratesInit(order: seq<ForwardPort>, ports: set<ForwardPort>)
    requires Enumerates(order, ports) && order != []
    ensures order[|order| - 1] in ports
    ensures Enumerates(order[..|order| - 1], ports - {order[|order| - 1]})
  {
    var n := |order| - 1;
    var init := order[..n];
    forall q | q in ports - {order[n]} ensures q in init {
      var k :| 0 <= k < |order| && order[k] == q;
      assert k != n;
      assert init[k] == q;
    }
  }

  /** Concatenation regroups; stated once so that loops over logs do not
      have to rediscover it in a large context. */
  lemma AppendAssoc<T>(a: seq<T>, b: seq<T>, c: seq<T>)
    ensures a + (b + c) == a + b + c
  {
  }

  lemma {:induction false} RequestsAppend(a: seq<Exchange>, b: seq<Exchange>)
    ensures Requests(a + b) == Requests(a) + Requests(b)
  {
  }

  lemma {:induction false} DeleteRequestsAppend(a: seq<ForwardPort>, b: seq<ForwardPort>)
    requires forall i :: 0 <= i < |a| ==> Supported(a[i].protocol)
    requires forall i :: 0 <= i < |b| ==> Supported(b[i].protocol)
    ensures DeleteRequests(a + b) == DeleteRequests(a) + DeleteRequests(b)
  {
    if a == [] {
      assert a + b == b;
    } else {
      assert (a + b)[0] == a[0];
      assert (a + b)[1..] == a[1..] + b;
      DeleteRequestsAppend(a[1..], b);
    }
  }

  lemma ReportedPortsAppend(rs: seq<Report>, r: Report)
    ensures ReportedPorts(rs + [r]) == ReportedPorts(rs) + {r.port}
  {
    var rs' := rs + [r];
    assert rs'[|rs|] == r;
    forall q | q in ReportedPorts(rs) ensures q in ReportedPorts(rs') {
      var i :| 0 <= i < |rs| && rs[i].port == q;
      assert rs'[i] == rs[i];
    }
  }

  lemma SucceededAppend(rs: seq<Report>, r: Report)
    ensures Succeeded(rs + [r]) == Succeeded(rs) + (if r.status == MaybeSuccess then {r.port} else {})
    ensures Succeeded(rs) <= ReportedPorts(rs)
  {
    var rs' := rs + [r];
    assert rs'[|rs|] == r;
    forall q | q in Succeeded(rs) ensures q in Succeeded(rs') && q in ReportedPorts(rs) {
      var i :| 0 <= i < |rs| && rs[i].status == MaybeSuccess && rs[i].port == q;
      assert rs'[i] == rs[i];
    }
  }

  /** The exchanges are the deletes of the snapshot teardown of `ports` for
      some iteration order of the set. */
  ghost predicate DeleteTraffic(xs: seq<Exchange>, ports: set<ForwardPort>, removes: bool)
  {
    exists order :: TeardownAlong(order, ports, xs, removes)
  }

  /** The exchanges are the deletes of the snapshot teardown of `ports`
      iterated in the given order. */
  ghost predicate TeardownAlong(order: seq<ForwardPort>, ports: set<ForwardPort>, xs: seq<Exchange>, removes: bool)
  {
    Enumerates(order, ports) && Requests(xs) == DeleteRequests(SnapshotTeardown(order, removes))
  }

  lemma {:induction false} SnapshotTeardownAppend(order: seq<ForwardPort>, p: ForwardPort, removes: bool)
    ensures SnapshotTeardown(order + [p], removes) ==
      SnapshotTeardown(order, removes) + (if removes && Supported(p.protocol) then [p] else [])
  {
    if order == [] {
      assert order + [p] == [p];
      assert [p][1..] == [];
    } else {
      assert (order + [p])[0] == order[0];
      assert (order + [p])[1..] == order[1..] + [p];
      SnapshotTeardownAppend(order[1..], p, removes);
    }
  }

  /** One round of the unregistration loop keeps its invariant. */
  lemma {:induction false} UnregisterRound(ports: set<ForwardPort>, todo: set<ForwardPort>, port: ForwardPort, order: seq<ForwardPort>,
                        traffic: seq<Exchange>, more: seq<Exchange>, removes: bool)
    requires port in todo && todo <= ports
    requires TeardownAlong(order, ports - todo, traffic, removes)
    requires Requests(more) == DeleteRequests(SnapshotTeardown([port], removes))
    ensures TeardownAlong(order + [port], ports - (todo - {port}), traffic + more, removes)
    ensures SupportedIn(ports - (todo - {port})) ==
      if Supported(port.protocol) then SupportedIn(ports - todo) + {port} else SupportedIn(ports - todo)
  {
    assert ports - (todo - {port}) == (ports - todo) + {port};
    EnumeratesAppend(order, ports - todo, port);
    assert [port][1..] == [];
    SnapshotTeardownAppend(order, port, removes);
    assert SnapshotTeardown([port], removes) == (if removes && Supported(port.protocol) then [port] else []);
    RequestsAppend(traffic, more);
    DeleteRequestsAppend(SnapshotTeardown(order, removes), SnapshotTeardown([port], removes));
  }

  /** The state of unregisterPorts after handling the ports of `ports` not
      in `todo`, in the order `order`: the exchanges are their snapshot
      teardown, and the forwarded set has lost the supported ones when
      DeletePortMapping is offered. */
  ghost predicate UnregisterProgress(ports: set<ForwardPort>, todo: set<ForwardPort>, order: seq<ForwardPort>,
                                     traffic: seq<Exchange>, start: set<ForwardPort>, forwarded: set<ForwardPort>,
                                     removes: bool)
  {
    todo <= ports && TeardownAlong(order, ports - todo, traffic, removes) &&
    forwarded == (if removes then start - SupportedIn(ports - todo) else start) &&
    (!removes ==> traffic == [])
  }

  /** Unregistering one more port of `todo` keeps the teardown in step. */
  lemma UnregisterProgressStep(ports: set<ForwardPort>, todo: set<ForwardPort>, order: seq<ForwardPort>,
                               traffic: seq<Exchange>, start: set<ForwardPort>, forwarded: set<ForwardPort>,
                               removes: bool, port: ForwardPort, more: seq<Exchange>, forwarded': set<ForwardPort>)
    requires UnregisterProgress(ports, todo, order, traffic, start, forwarded, removes) && port in todo
    requires Requests(more) == DeleteRequests(SnapshotTeardown([port], removes))
    requires forwarded' == if removes && Supported(port.protocol) then forwarded - {port} else forwarded
    requires !removes ==> more == []
    ensures UnregisterProgress(ports, todo - {port}, order + [port], traffic + more, start, forwarded', removes)
  {
    UnregisterRound(ports, todo, port, order, traffic, more, removes);
  }

  /** A finished teardown deletes the supported ports of the whole set. */
  lemma UnregisterProgressDone(ports: set<ForwardPort>, order: seq<ForwardPort>, traffic: seq<Exchange>,
                               start: set<ForwardPort>, forwarded: set<ForwardPort>, removes: bool)
    requires UnregisterProgress(ports, {}, order, traffic, start, forwarded, removes)
    ensures DeleteTraffic(traffic, ports, removes)
    ensures forwarded == if removes then start - SupportedIn(ports) else start
  {
    assert ports - {} == ports;
  }

  // ---------------------------------------------------------------------
  // The gateway's answers

  /** The gateway's answer to the next posted action; once the script has
      run out, every action fails. */
  function NextAnswer(replies: seq<bool>): bool
  {
    |replies| > 0 && replies[0]
  }

  /** The script after one answer was taken. */
  function AfterAnswer(replies: seq<bool>): seq<bool>
  {
    if |replies| > 0 then replies[1..] else []
  }

  /** The script after `n` answers were taken. */
  function Drop(replies: seq<bool>, n: nat): seq<bool>
  {
    if n <= |replies| then replies[n..] else []
  }

  /** The exchanges got the next answers of the script `before`, one each
      and in order, and `after` is what is left of it. */
  ghost predicate Answers(before: seq<bool>, xs: seq<Exchange>, after: seq<bool>)
  {
    (forall i :: 0 <= i < |xs| ==> xs[i].ok == (i < |before| && before[i])) &&
    after == Drop(before, |xs|)
  }

  lemma AnswersNothing(replies: seq<bool>)
    ensures Answers(replies, [], replies)
  {
    assert replies[0..] == replies;
  }

  /** One posted action takes the next answer. */
  lemma AnswerOne(replies: seq<bool>, x: Request)
    ensures Answers(replies, [Exchange(x, NextAnswer(replies))], AfterAnswer(replies))
  {
  }

  /** Two stretches of exchanges answered one after the other are their
      concatenation answered. */
  lemma AnswersAppend(a: seq<bool>, xs: seq<Exchange>, b: seq<bool>, ys: seq<Exchange>, c: seq<bool>)
    requires Answers(a, xs, b) && Answers(b, ys, c)
    ensures Answers(a, xs + ys, c)
  {
    var zs := xs + ys;
    forall i | 0 <= i < |zs| ensures zs[i].ok == (i < |a| && a[i]) {
      if i >= |xs| {
        assert zs[i] == ys[i - |xs|];
        if |xs| <= |a| && i < |a| {
          assert b[i - |xs|] == a[i];
        }
      }
    }
    if |xs| <= |a| && |ys| <= |b| {
      assert b[|ys|..] == a[|zs|..];
    }
  }

  /** The answers that the exchanges posting request `x` got, in order. */
  function AnswersTo(xs: seq<Exchange>, x: Request): (r: seq<bool>)
    ensures |r| <= |xs|
  {
    if xs == [] then []
    else (if xs[0].request == x then [xs[0].ok] else []) + AnswersTo(xs[1..], x)
  }

  lemma {:induction false} AnswersToAppend(a: seq<Exchange>, b: seq<Exchange>, x: Request)
    ensures AnswersTo(a + b, x) == AnswersTo(a, x) + AnswersTo(b, x)
  {
    if a == [] {
      assert a + b == b;
    } else {
      var head := if a[0].request == x then [a[0].ok] else [];
      assert (a + b)[0] == a[0];
      assert (a + b)[1..] == a[1..] + b;
      assert AnswersTo(a + b, x) == head + AnswersTo(a[1..] + b, x);
      AnswersToAppend(a[1..], b, x);
      AppendAssoc(head, AnswersTo(a[1..], x), AnswersTo(b, x));
    }
  }

  /** Exchanges none of which posts `x` hold no answer to it. */
  lemma {:induction false} AnswersToNone(xs: seq<Exchange>, x: Request)
    requires forall i :: 0 <= i < |xs| ==> xs[i].request != x
    ensures AnswersTo(xs, x) == []
  {
    if xs != [] {
      AnswersToNone(xs[1..], x);
    }
  }

  /** Some answer to `x` is a success exactly when `x` was posted and
      accepted. */
  lemma {:induction false} AnswersToAccepted(xs: seq<Exchange>, x: Request)
    ensures true in AnswersTo(xs, x) <==> Exchange(x, true) in xs
  {
    if xs != [] {
      AnswersToAccepted(xs[1..], x);
      assert xs == [xs[0]] + xs[1..];
    }
  }

  // ---------------------------------------------------------------------
  // Registering ports

  /** What a stretch of posting did: the exchanges, the script left, and
      whether the port got mapped. */
  datatype Round = Round(xs: seq<Exchange>, left: seq<bool>, ok: bool)

  /** A round preceded by exchanges posted before it. */
  function Prepend(xs: seq<Exchange>, r: Round): Round
  {
    Round(xs + r.xs, r.left, r.ok)
  }

  /** One call of addMapping on a bound gateway: the pre-clean
      DeletePortMapping when the service offers it, then the AddPortMapping
      when the service offers that. The outcome is the add's answer. */
  function AddRound(replies: seq<bool>, canRemove: bool, canAdd: bool, del: Request, add: Request): Round
  {
    var pre := if canRemove then [Exchange(del, NextAnswer(replies))] else [];
    var rest := if canRemove then AfterAnswer(replies) else replies;
    if canAdd then Round(pre + [Exchange(add, NextAnswer(rest))], AfterAnswer(rest), NextAnswer(rest))
    else Round(pre, rest, false)
  }

  /** tryAddMapping: up to `tries` calls of addMapping, stopping at the
      first one the gateway accepts. */
  function Retry(replies: seq<bool>, canRemove: bool, canAdd: bool, del: Request, add: Request, tries: nat): Round
    decreases tries
  {
    if tries == 0 then Round([], replies, false)
    else
      var r := AddRound(replies, canRemove, canAdd, del, add);
      if r.ok then r else Prepend(r.xs, Retry(r.left, canRemove, canAdd, del, add, tries - 1))
  }

  /** The answers to the add attempts of one run of tryAddMapping with at
      most `tries` attempts: at least one, every one but the last rejected,
      the last one the outcome, and all `tries` of them when that one was
      rejected too. */
  predicate RetryOutcome(a: seq<bool>, tries: nat, ok: bool)
  {
    1 <= |a| <= tries && (forall k :: 0 <= k < |a| - 1 ==> !a[k]) && a[|a| - 1] == ok &&
    (!ok ==> |a| == tries)
  }

  /** One call of addMapping posts only its delete and its add. */
  lemma AddRoundPosts(replies: seq<bool>, canRemove: bool, canAdd: bool, del: Request, add: Request)
    ensures PostsOnly(AddRound(replies, canRemove, canAdd, del, add).xs, del, add)
  {
  }

  /** One call of addMapping takes one answer per exchange. */
  lemma AddRoundAnswers(replies: seq<bool>, canRemove: bool, canAdd: bool, del: Request, add: Request)
    ensures var r := AddRound(replies, canRemove, canAdd, del, add);
      Answers(replies, r.xs, r.left)
  {
  }

  /** One call of addMapping holds an add answer, its outcome, exactly when
      the service offers AddPortMapping. */
  lemma AddRoundAdds(replies: seq<bool>, canRemove: bool, canAdd: bool, del: Request, add: Request)
    requires del != add
    ensures var r := AddRound(replies, canRemove, canAdd, del, add);
      AnswersTo(r.xs, add) == (if canAdd then [r.ok] else []) && (r.ok ==> canAdd)
  {
    var rest := if canRemove then AfterAnswer(replies) else replies;
    var e := Exchange(del, NextAnswer(replies));
    var x := Exchange(add, NextAnswer(rest));
    assert AnswersTo([e], add) == [] by {
      assert [e][1..] == [];
    }
    assert AnswersTo([x], add) == [x.ok] by {
      assert [x][1..] == [];
    }
    if canRemove {
      AnswersToAppend([e], [x], add);
    }
  }

  /** A call of addMapping that succeeds ends with the accepted add. */
  lemma AddRoundLast(replies: seq<bool>, canRemove: bool, canAdd: bool, del: Request, add: Request)
    ensures var r := AddRound(replies, canRemove, canAdd, del, add);
      r.ok ==> canAdd && r.xs != [] && r.xs[|r.xs| - 1] == Exchange(add, true)
  {
  }

  /** Every exchange posts `del` or `add`. */
  ghost predicate PostsOnly(xs: seq<Exchange>, del: Request, add: Request)
  {
    forall i :: 0 <= i < |xs| ==> xs[i].request == del || xs[i].request == add
  }

  lemma PostsOnlyAppend(xs: seq<Exchange>, ys: seq<Exchange>, del: Request, add: Request)
    requires PostsOnly(xs, del, add) && PostsOnly(ys, del, add)
    ensures PostsOnly(xs + ys, del, add)
  {
  }

  /** A run of tryAddMapping posts only the delete and the add of its
      port. */
  lemma {:induction false} RetryPosts(replies: seq<bool>, canRemove: bool, canAdd: bool, del: Request, add: Request,
                                      tries: nat)
    requires del != add
    ensures PostsOnly(Retry(replies, canRemove, canAdd, del, add, tries).xs, del, add)
    decreases tries
  {
    if tries > 0 {
      var a := AddRound(replies, canRemove, canAdd, del, add);
      AddRoundPosts(replies, canRemove, canAdd, del, add);
      if !a.ok {
        var rest := Retry(a.left, canRemove, canAdd, del, add, tries - 1);
        RetryPosts(a.left, canRemove, canAdd, del, add, tries - 1);
        PostsOnlyAppend(a.xs, rest.xs, del, add);
      }
    }
  }

  /** A run of tryAddMapping takes one answer of the script per exchange,
      in order. */
  lemma {:induction false} RetryAnswers(replies: seq<bool>, canRemove: bool, canAdd: bool, del: Request,
                                        add: Request, tries: nat)
    requires del != add
    ensures var r := Retry(replies, canRemove, canAdd, del, add, tries);
      Answers(replies, r.xs, r.left)
    decreases tries
  {
    if tries > 0 {
      var a := AddRound(replies, canRemove, canAdd, del, add);
      AddRoundAnswers(replies, canRemove, canAdd, del, add);
      if !a.ok {
        var rest := Retry(a.left, canRemove, canAdd, del, add, tries - 1);
        RetryAnswers(a.left, canRemove, canAdd, del, add, tries - 1);
        AnswersAppend(replies, a.xs, a.left, rest.xs, rest.left);
      }
    }
  }

  lemma LastOfAppend<T>(a: seq<T>, b: seq<T>)
    requires b != []
    ensures (a + b)[|a + b| - 1] == b[|b| - 1]
  {
  }

  /** A run of tryAddMapping that succeeds ends with the accepted add. */
  lemma {:induction false} RetryLast(replies: seq<bool>, canRemove: bool, canAdd: bool, del: Request, add: Request,
                                     tries: nat)
    requires del != add
    ensures var r := Retry(replies, canRemove, canAdd, del, add, tries);
      r.ok ==> canAdd && r.xs != [] && r.xs[|r.xs| - 1] == Exchange(add, true)
    decreases tries
  {
    if tries > 0 {
      var a := AddRound(replies, canRemove, canAdd, del, add);
      AddRoundLast(replies, canRemove, canAdd, del, add);
      if !a.ok {
        var rest := Retry(a.left, canRemove, canAdd, del, add, tries - 1);
        RetryLast(a.left, canRemove, canAdd, del, add, tries - 1);
        if rest.ok {
          LastOfAppend(a.xs, rest.xs);
        }
      }
    }
  }

  /** One rejected add in front of the answers of the remaining attempts
      is a retry outcome with one more attempt. */
  lemma RetryOutcomeCons(later: seq<bool>, tries: nat, ok: bool)
    requires (tries == 1 && later == [] && !ok) || (tries > 1 && RetryOutcome(later, tries - 1, ok))
    ensures RetryOutcome([false] + later, tries, ok)
  {
    var all := [false] + later;
    forall k | 0 <= k < |all| - 1 ensures !all[k] {
      if k > 0 {
        assert all[k] == later[k - 1];
      }
    }
  }

  /** The answers to the add attempts of a run of tryAddMapping form a
      retry outcome when AddPortMapping is offered, and there are none
      when it is not. */
  lemma RetryAddAnswers(replies: seq<bool>, canRemove: bool, canAdd: bool, del: Request, add: Request, tries: nat)
    requires del != add
    ensures var r := Retry(replies, canRemove, canAdd, del, add, tries);
      (canAdd && tries > 0 ==> RetryOutcome(AnswersTo(r.xs, add), tries, r.ok)) &&
      (!canAdd ==> AnswersTo(r.xs, add) == [] && !r.ok)
  {
    if canAdd {
      if tries > 0 {
        RetryOutcomes(replies, canRemove, del, add, tries);
      }
    } else {
      RetryWithoutAdd(replies, canRemove, del, add, tries);
    }
  }

  lemma {:induction false} RetryOutcomes(replies: seq<bool>, canRemove: bool, del: Request, add: Request, tries: nat)
    requires del != add && tries > 0
    ensures var r := Retry(replies, canRemove, true, del, add, tries);
      RetryOutcome(AnswersTo(r.xs, add), tries, r.ok)
    decreases tries
  {
    var a := AddRound(replies, canRemove, true, del, add);
    AddRoundAdds(replies, canRemove, true, del, add);
    if !a.ok {
      var rest := Retry(a.left, canRemove, true, del, add, tries - 1);
      AnswersToAppend(a.xs, rest.xs, add);
      if tries == 1 {
        assert rest == Round([], a.left, false);
        assert AnswersTo(rest.xs, add) == [];
      } else {
        RetryOutcomes(a.left, canRemove, del, add, tries - 1);
      }
      RetryOutcomeCons(AnswersTo(rest.xs, add), tries, rest.ok);
    }
  }

  lemma {:induction false} RetryWithoutAdd(replies: seq<bool>, canRemove: bool, del: Request, add: Request,
                                           tries: nat)
    requires del != add
    ensures var r := Retry(replies, canRemove, false, del, add, tries);
      AnswersTo(r.xs, add) == [] && !r.ok
    decreases tries
  {
    if tries > 0 {
      var a := AddRound(replies, canRemove, false, del, add);
      AddRoundAdds(replies, canRemove, false, del, add);
      var rest := Retry(a.left, canRemove, false, del, add, tries - 1);
      RetryWithoutAdd(a.left, canRemove, del, add, tries - 1);
      AnswersToAppend(a.xs, rest.xs, add);
    } else {
      assert AnswersTo([], add) == [];
    }
  }

  /** Unfolding one attempt of a run of which the exchanges `traffic` were
      already posted and `n` attempts remain. */
  lemma RetryUnfold(whole: Round, traffic: seq<Exchange>, replies: seq<bool>, canRemove: bool, canAdd: bool,
                    del: Request, add: Request, n: nat)
    requires n >= 1
    requires whole == Prepend(traffic, Retry(replies, canRemove, canAdd, del, add, n))
    ensures var a := AddRound(replies, canRemove, canAdd, del, add);
      if a.ok then whole == Round(traffic + a.xs, a.left, true)
      else whole == Prepend(traffic + a.xs, Retry(a.left, canRemove, canAdd, del, add, n - 1))
  {
    var a := AddRound(replies, canRemove, canAdd, del, add);
    if !a.ok {
      AppendAssoc(traffic, a.xs, Retry(a.left, canRemove, canAdd, del, add, n - 1).xs);
    }
  }

  /** The state of a run of tryAddMapping after `tries` attempts, of which
      the exchanges `traffic` were posted and the script `replies` is left:
      while no attempt succeeded, the rest of the run is `Retry` with the
      remaining attempts; once one did, the run is over. One add was posted
      per attempt when the service offers AddPortMapping. */
  ghost predicate RetryProgress(whole: Round, traffic: seq<Exchange>, replies: seq<bool>, ok: bool, tries: nat,
                                canRemove: bool, canAdd: bool, del: Request, add: Request)
  {
    tries <= MaxTries &&
    (!ok ==> whole == Prepend(traffic, Retry(replies, canRemove, canAdd, del, add, MaxTries - tries))) &&
    (ok ==> whole == Round(traffic, replies, true) && canAdd) &&
    (canAdd ==> |AnswersTo(traffic, add)| == tries)
  }

  /** One more attempt of addMapping keeps the run in step with `Retry`. */
  lemma RetryProgressStep(whole: Round, traffic: seq<Exchange>, replies: seq<bool>, tries: nat, canRemove: bool,
                          canAdd: bool, del: Request, add: Request, more: seq<Exchange>, left: seq<bool>, ok: bool)
    requires del != add && tries < MaxTries
    requires RetryProgress(whole, traffic, replies, false, tries, canRemove, canAdd, del, add)
    requires AddRound(replies, canRemove, canAdd, del, add) == Round(more, left, ok)
    ensures RetryProgress(whole, traffic + more, left, ok, tries + 1, canRemove, canAdd, del, add)
  {
    RetryUnfold(whole, traffic, replies, canRemove, canAdd, del, add, MaxTries - tries);
    AddRoundAdds(replies, canRemove, canAdd, del, add);
    AnswersToAppend(traffic, more, add);
  }

  /** A run that succeeded or used up its attempts is the whole of `Retry`. */
  lemma RetryProgressDone(whole: Round, traffic: seq<Exchange>, replies: seq<bool>, ok: bool, tries: nat,
                          canRemove: bool, canAdd: bool, del: Request, add: Request)
    requires RetryProgress(whole, traffic, replies, ok, tries, canRemove, canAdd, del, add)
    requires ok || tries == MaxTries
    ensures whole == Round(traffic, replies, ok)
  {
    if !ok {
      assert traffic + [] == traffic;
    }
  }

  /** What registering one port posts: nothing for an unsupported
      protocol, otherwise one run of tryAddMapping. */
  function PortRun(replies: seq<bool>, client: string, canRemove: bool, canAdd: bool, p: ForwardPort): Round
  {
    if Supported(p.protocol) then
      Retry(replies, canRemove, canAdd, DeleteRequest(p), AddRequestFor(client, p), MaxTries)
    else Round([], replies, false)
  }

  /** The status reported for a port: DEFINITE_FAILURE for an unsupported
      protocol, otherwise MAYBE_SUCCESS or PROBABLE_FAILURE after the
      outcome of its run. */
  function StatusOf(p: ForwardPort, ok: bool): Status
  {
    if !Supported(p.protocol) then DefiniteFailure else if ok then MaybeSuccess else ProbableFailure
  }

  /** The forwarded set after adding the mapping of `fp`, once or several
      times: the port joins the set when an add succeeded; otherwise the
      pre-clean has removed it when some DeletePortMapping was posted. */
  function AfterAdd(forwarded: set<ForwardPort>, fp: ForwardPort, ok: bool, removed: bool): (r: set<ForwardPort>)
    ensures fp in r <==> ok || (fp in forwarded && !removed)
    ensures forall q :: q != fp ==> (q in r <==> q in forwarded)
  {
    if ok then forwarded + {fp} else if removed then forwarded - {fp} else forwarded
  }

  /** A failed addMapping followed by another one is one with the pre-clean
      posted if either posted it. */
  lemma AfterAddAgain(forwarded: set<ForwardPort>, fp: ForwardPort, removed: bool, ok: bool, canRemove: bool)
    ensures AfterAdd(AfterAdd(forwarded, fp, false, removed), fp, ok, canRemove) ==
      AfterAdd(forwarded, fp, ok, removed || canRemove)
  {
  }

  /** The forwarded set after registering one port: unchanged for an
      unsupported protocol, otherwise as after its run of tryAddMapping. */
  function AfterPort(forwarded: set<ForwardPort>, p: ForwardPort, ok: bool, canRemove: bool): set<ForwardPort>
  {
    if Supported(p.protocol) then AfterAdd(forwarded, p, ok, canRemove) else forwarded
  }

  /** The reports, the exchanges and the script left after registering a
      set of ports. */
  datatype Registration = Registration(batch: seq<Report>, xs: seq<Exchange>, left: seq<bool>)

  /** registerPorts, visiting the ports in the order `order`. */
  function RegisterAlong(order: seq<ForwardPort>, replies: seq<bool>, client: string, canRemove: bool,
                         canAdd: bool): Registration
    decreases |order|
  {
    if order == [] then Registration([], [], replies)
    else
      var prev := RegisterAlong(order[..|order| - 1], replies, client, canRemove, canAdd);
      var p := order[|order| - 1];
      var run := PortRun(prev.left, client, canRemove, canAdd, p);
      Registration(prev.batch + [Report(p, StatusOf(p, run.ok))], prev.xs + run.xs, run.left)
  }

  /** `reg` is what registering `ports` gives in one of its iteration
      orders. */
  ghost predicate RegisteredAs(ports: set<ForwardPort>, replies: seq<bool>, client: string, canRemove: bool,
                               canAdd: bool, reg: Registration)
  {
    exists order :: Enumerates(order, ports) && RegisterAlong(order, replies, client, canRemove, canAdd) == reg
  }

  /** Every exchange is the delete or the add of a port of `ports` whose
      protocol is supported. */
  ghost predicate RegisterTraffic(xs: seq<Exchange>, ports: set<ForwardPort>, client: string)
  {
    forall i :: 0 <= i < |xs| ==> PostedFor(xs[i].request, ports, client)
  }

  /** `x` is the delete or the add of a port of `ports` whose protocol is
      supported. */
  ghost predicate PostedFor(x: Request, ports: set<ForwardPort>, client: string)
  {
    exists p :: p in ports && Supported(p.protocol) && (x == DeleteRequest(p) || x == AddRequestFor(client, p))
  }

  /** The status of a report follows from the answers to its port's add
      attempts: DEFINITE_FAILURE exactly for an unsupported protocol;
      otherwise, when AddPortMapping is offered, the answers are a retry
      outcome whose last answer is a success exactly when the status is
      MAYBE_SUCCESS; when it is not offered, no add was posted and the
      status is PROBABLE_FAILURE. */
  ghost predicate StatusRule(r: Report, xs: seq<Exchange>, client: string, canAdd: bool)
  {
    (r.status == DefiniteFailure <==> !Supported(r.port.protocol)) &&
    (Supported(r.port.protocol) ==>
      var a := AnswersTo(xs, AddRequestFor(client, r.port));
      if canAdd then RetryOutcome(a, MaxTries, r.status == MaybeSuccess)
      else a == [] && r.status == ProbableFailure)
  }

  /** The reports name each port of `ports` exactly once, each with the
      status its answers call for. */
  ghost predicate ReportsCover(batch: seq<Report>, ports: set<ForwardPort>, xs: seq<Exchange>, client: string,
                               canAdd: bool)
  {
    |batch| == |ports| && ReportedPorts(batch) == ports &&
    forall i :: 0 <= i < |batch| ==> StatusRule(batch[i], xs, client, canAdd)
  }

  /** Registering one port: the script is answered in order, only that
      port's delete and add are posted, and its add answers decide its
      status. */
  lemma PortRunFacts(replies: seq<bool>, client: string, canRemove: bool, canAdd: bool, p: ForwardPort)
    ensures var run := PortRun(replies, client, canRemove, canAdd, p);
      Answers(replies, run.xs, run.left) &&
      (forall i :: 0 <= i < |run.xs| ==>
        Supported(p.protocol) && (run.xs[i].request == DeleteRequest(p) || run.xs[i].request == AddRequestFor(client, p))) &&
      (Supported(p.protocol) ==>
        if canAdd then RetryOutcome(AnswersTo(run.xs, AddRequestFor(client, p)), MaxTries, run.ok)
        else AnswersTo(run.xs, AddRequestFor(client, p)) == [] && !run.ok) &&
      (!Supported(p.protocol) ==> run == Round([], replies, false))
  {
    if Supported(p.protocol) {
      RetryPosts(replies, canRemove, canAdd, DeleteRequest(p), AddRequestFor(client, p), MaxTries);
      RetryAnswers(replies, canRemove, canAdd, DeleteRequest(p), AddRequestFor(client, p), MaxTries);
      RetryAddAnswers(replies, canRemove, canAdd, DeleteRequest(p), AddRequestFor(client, p), MaxTries);
    }
  }

  /** The status of a port already reported stays justified when only the
      delete and add of another port are posted after it. */
  lemma StatusRuleKept(r: Report, xs: seq<Exchange>, ys: seq<Exchange>, p: ForwardPort, client: string,
                       canAdd: bool)
    requires StatusRule(r, xs, client, canAdd) && r.port != p
    requires forall k :: 0 <= k < |ys| ==>
      Supported(p.protocol) && (ys[k].request == DeleteRequest(p) || ys[k].request == AddRequestFor(client, p))
    ensures StatusRule(r, xs + ys, client, canAdd)
  {
    if Supported(r.port.protocol) {
      var x := AddRequestFor(client, r.port);
      AnswersToAppend(xs, ys, x);
      forall k | 0 <= k < |ys| ensures ys[k].request != x {
        if ys[k].request == x {
          AddRequestForInjective(client, p, r.port);
        }
      }
      AnswersToNone(ys, x);
    }
  }

  /** The status of a port just registered is justified by its own run,
      since nothing posted before it adds that port. */
  lemma StatusRuleNew(xs: seq<Exchange>, ys: seq<Exchange>, done: set<ForwardPort>, p: ForwardPort, ok: bool,
                      client: string, canAdd: bool)
    requires RegisterTraffic(xs, done, client) && p !in done
    requires Supported(p.protocol) ==>
      var a := AnswersTo(ys, AddRequestFor(client, p));
      if canAdd then RetryOutcome(a, MaxTries, ok) else a == [] && !ok
    ensures StatusRule(Report(p, StatusOf(p, ok)), xs + ys, client, canAdd)
  {
    if Supported(p.protocol) {
      var x := AddRequestFor(client, p);
      AnswersToAppend(xs, ys, x);
      forall k | 0 <= k < |xs| ensures xs[k].request != x {
        assert PostedFor(xs[k].request, done, client);
        var q :| q in done && Supported(q.protocol) &&
          (xs[k].request == DeleteRequest(q) || xs[k].request == AddRequestFor(client, q));
        if xs[k].request == x {
          AddRequestForInjective(client, q, p);
        }
      }
      AnswersToNone(xs, x);
    }
  }

  /** Registering one more port keeps the reports covering the ports
      handled so far and the exchanges within them. */
  lemma RegisterStep(batch: seq<Report>, xs: seq<Exchange>, done: set<ForwardPort>, p: ForwardPort,
                     left: seq<bool>, client: string, canRemove: bool, canAdd: bool)
    requires ReportsCover(batch, done, xs, client, canAdd) && RegisterTraffic(xs, done, client)
    requires p !in done
    ensures var run := PortRun(left, client, canRemove, canAdd, p);
      var r := Report(p, StatusOf(p, run.ok));
      ReportsCover(batch + [r], done + {p}, xs + run.xs, client, canAdd) &&
      RegisterTraffic(xs + run.xs, done + {p}, client)
  {
    var run := PortRun(left, client, canRemove, canAdd, p);
    var r := Report(p, StatusOf(p, run.ok));
    var b := batch + [r];
    PortRunFacts(left, client, canRemove, canAdd, p);
    ReportedPortsAppend(batch, r);
    forall i | 0 <= i < |b| ensures StatusRule(b[i], xs + run.xs, client, canAdd) {
      if i < |batch| {
        assert b[i] == batch[i];
        assert batch[i].port in ReportedPorts(batch);
        StatusRuleKept(batch[i], xs, run.xs, p, client, canAdd);
      } else {
        StatusRuleNew(xs, run.xs, done, p, run.ok, client, canAdd);
      }
    }
    RegisterTrafficStep(xs, run.xs, done, p, client);
  }

  /** Appending exchanges that post only the delete and the add of a
      supported port keeps the exchanges within the ports handled. */
  lemma RegisterTrafficStep(xs: seq<Exchange>, ys: seq<Exchange>, done: set<ForwardPort>, p: ForwardPort,
                            client: string)
    requires RegisterTraffic(xs, done, client)
    requires forall i :: 0 <= i < |ys| ==>
      Supported(p.protocol) && (ys[i].request == DeleteRequest(p) || ys[i].request == AddRequestFor(client, p))
    ensures RegisterTraffic(xs + ys, done + {p}, client)
  {
    var zs := xs + ys;
    forall i | 0 <= i < |zs| ensures PostedFor(zs[i].request, done + {p}, client) {
      if i < |xs| {
        assert zs[i] == xs[i];
        var q :| q in done && Supported(q.protocol) &&
          (xs[i].request == DeleteRequest(q) || xs[i].request == AddRequestFor(client, q));
        assert q in done + {p};
      } else {
        assert zs[i] == ys[i - |xs|];
        assert p in done + {p};
      }
    }
  }

  /** Registering a set in any iteration order reports each port once with
      the status its answers call for, posts only the deletes and adds of
      its supported ports, and takes the gateway's answers in order. */
  lemma {:induction false} RegisterAlongCovers(order: seq<ForwardPort>, ports: set<ForwardPort>, replies: seq<bool>,
                                               client: string, canRemove: bool, canAdd: bool)
    requires Enumerates(order, ports)
    ensures var reg := RegisterAlong(order, replies, client, canRemove, canAdd);
      ReportsCover(reg.batch, ports, reg.xs, client, canAdd) &&
      RegisterTraffic(reg.xs, ports, client) &&
      Answers(replies, reg.xs, reg.left)
    decreases |order|
  {
    if order == [] {
      assert ReportedPorts([]) == {} == ports;
    } else {
      var init := order[..|order| - 1];
      var p := order[|order| - 1];
      EnumeratesInit(order, ports);
      RegisterAlongCovers(init, ports - {p}, replies, client, canRemove, canAdd);
      var prev := RegisterAlong(init, replies, client, canRemove, canAdd);
      var run := PortRun(prev.left, client, canRemove, canAdd, p);
      RegisterStep(prev.batch, prev.xs, ports - {p}, p, prev.left, client, canRemove, canAdd);
      PortRunFacts(prev.left, client, canRemove, canAdd, p);
      AnswersAppend(replies, prev.xs, prev.left, run.xs, run.left);
      assert (ports - {p}) + {p} == ports;
    }
  }

  lemma {:induction false} RetryIdle(replies: seq<bool>, del: Request, add: Request, tries: nat)
    ensures Retry(replies, false, false, del, add, tries) == Round([], replies, false)
    decreases tries
  {
    if tries > 0 {
      RetryIdle(replies, del, add, tries - 1);
    }
  }

  /** Without DeletePortMapping and AddPortMapping on the service,
      registering posts nothing, uses no answer and maps no port. */
  lemma {:induction false} RegisterAlongIdle(order: seq<ForwardPort>, replies: seq<bool>, client: string)
    ensures var reg := RegisterAlong(order, replies, client, false, false);
      reg.xs == [] && reg.left == replies && Succeeded(reg.batch) == {}
    decreases |order|
  {
    if order == [] {
      assert Succeeded([]) == {};
    } else {
      var init := order[..|order| - 1];
      var p := order[|order| - 1];
      RegisterAlongIdle(init, replies, client);
      var prev := RegisterAlong(init, replies, client, false, false);
      if Supported(p.protocol) {
        RetryIdle(replies, DeleteRequest(p), AddRequestFor(client, p), MaxTries);
      }
      SucceededAppend(prev.batch, Report(p, StatusOf(p, PortRun(replies, client, false, false, p).ok)));
    }
  }

  /** Registering one more port keeps the forwarded set equal to the start
      set, less the supported ports handled so far when the pre-clean
      deletes them, plus the ports reported MAYBE_SUCCESS. */
  lemma ForwardedStep(start: set<ForwardPort>, done: set<ForwardPort>, batch: seq<Report>, p: ForwardPort,
                      ok: bool, canRemove: bool, forwarded: set<ForwardPort>)
    requires ReportedPorts(batch) == done && p !in done
    requires forwarded == (start - (if canRemove then SupportedIn(done) else {})) + Succeeded(batch)
    ensures AfterPort(forwarded, p, ok, canRemove) ==
      (start - (if canRemove then SupportedIn(done + {p}) else {})) + Succeeded(batch + [Report(p, StatusOf(p, ok))])
  {
    SucceededAppend(batch, Report(p, StatusOf(p, ok)));
    if canRemove && Supported(p.protocol) {
      assert SupportedIn(done + {p}) == SupportedIn(done) + {p};
    } else if canRemove {
      assert SupportedIn(done + {p}) == SupportedIn(done);
    }
  }

  /** The state of registerPorts after handling the ports of `ports` that
      are not in `todo`, in the order `order`, starting from the script
      `replies0` and the forwarded set `start`: the reports, exchanges and
      script left are those of `RegisterAlong`, and the forwarded set has
      lost the supported ports handled when the pre-clean deletes them and
      gained those reported MAYBE_SUCCESS. */
  ghost predicate RegisterProgress(ports: set<ForwardPort>, todo: set<ForwardPort>, order: seq<ForwardPort>,
                                   reg: Registration, replies0: seq<bool>, start: set<ForwardPort>,
                                   forwarded: set<ForwardPort>, client: string, canRemove: bool, canAdd: bool)
  {
    todo <= ports && Enumerates(order, ports - todo) && ReportedPorts(reg.batch) == ports - todo &&
    RegisterAlong(order, replies0, client, canRemove, canAdd) == reg &&
    forwarded == (start - (if canRemove then SupportedIn(ports - todo) else {})) + Succeeded(reg.batch)
  }

  /** Registering one more port of `todo` keeps the registration in step. */
  lemma RegisterProgressStep(ports: set<ForwardPort>, todo: set<ForwardPort>, order: seq<ForwardPort>,
                             reg: Registration, replies0: seq<bool>, start: set<ForwardPort>,
                             forwarded: set<ForwardPort>, client: string, canRemove: bool, canAdd: bool,
                             p: ForwardPort, status: Status, more: seq<Exchange>, left: seq<bool>,
                             forwarded': set<ForwardPort>)
    requires RegisterProgress(ports, todo, order, reg, replies0, start, forwarded, client, canRemove, canAdd)
    requires p in todo
    requires PortRun(reg.left, client, canRemove, canAdd, p) == Round(more, left, status == MaybeSuccess)
    requires status == StatusOf(p, status == MaybeSuccess)
    requires forwarded' == AfterPort(forwarded, p, status == MaybeSuccess, canRemove)
    ensures RegisterProgress(ports, todo - {p}, order + [p],
                             Registration(reg.batch + [Report(p, status)], reg.xs + more, left),
                             replies0, start, forwarded', client, canRemove, canAdd)
  {
    ForwardedStep(start, ports - todo, reg.batch, p, status == MaybeSuccess, canRemove, forwarded);
    ReportedPortsAppend(reg.batch, Report(p, status));
    EnumeratesAppend(order, ports - todo, p);
    assert (order + [p])[..|order|] == order;
    assert ports - (todo - {p}) == (ports - todo) + {p};
  }

  /** A finished registration is one of `RegisterAlong` over the whole set,
      with everything `RegisterAlongCovers` and `RegisterAlongIdle` say of
      it. */
  lemma RegisterProgressDone(ports: set<ForwardPort>, order: seq<ForwardPort>, reg: Registration,
                             replies0: seq<bool>, start: set<ForwardPort>, forwarded: set<ForwardPort>,
                             client: string, canRemove: bool, canAdd: bool)
    requires RegisterProgress(ports, {}, order, reg, replies0, start, forwarded, client, canRemove, canAdd)
    ensures RegisteredAs(ports, replies0, client, canRemove, canAdd, reg)
    ensures forwarded == (start - (if canRemove then SupportedIn(ports) else {})) + Succeeded(reg.batch)
    ensures ReportsCover(reg.batch, ports, reg.xs, client, canAdd)
    ensures RegisterTraffic(reg.xs, ports, client)
    ensures Answers(replies0, reg.xs, reg.left)
    ensures !canRemove && !canAdd ==> forwarded == start && reg.xs == [] && reg.left == replies0
  {
    assert ports - {} == ports;
    RegisterAlongCovers(order, ports, replies0, client, canRemove, canAdd);
    if !canRemove && !canAdd {
      RegisterAlongIdle(order, replies0, client);
    }
  }

  /** Unmapping the ports no longer wanted and then registering the newly
      wanted ones leaves the forwarded set less the supported ports of
      both, when DeletePortMapping is offered, plus the ports mapped. */
  lemma ForwardedAfterChange(start: set<ForwardPort>, dumpNow: set<ForwardPort>, forwardNow: set<ForwardPort>,
                             batch: seq<Report>, canRemove: bool, mid: set<ForwardPort>, end: set<ForwardPort>)
    requires mid == if canRemove then start - SupportedIn(dumpNow) else start
    requires end == (mid - (if canRemove then SupportedIn(forwardNow) else {})) + Succeeded(batch)
    ensures end == (start - (if canRemove then SupportedIn(dumpNow + forwardNow) else {})) + Succeeded(batch)
  {
    assert SupportedIn(dumpNow + forwardNow) == SupportedIn(dumpNow) + SupportedIn(forwardNow);
  }

  /** A gateway that accepts the next two actions maps a supported port at
      the first attempt, whether or not the pre-clean delete is posted. */
  lemma AcceptingGatewayMapsAtOnce(replies: seq<bool>, client: string, canRemove: bool, p: ForwardPort)
    requires Supported(p.protocol) && |replies| >= 2 && replies[0] && replies[1]
    ensures var run := PortRun(replies, client, canRemove, true, p);
      run.ok && AnswersTo(run.xs, AddRequestFor(client, p)) == [true]
  {
    var add := AddRequestFor(client, p);
    AddRoundAdds(replies, canRemove, true, DeleteRequest(p), add);
    assert AfterAnswer(replies)[0] == replies[1];
  }

  lemma {:induction false} RetrySilent(canRemove: bool, canAdd: bool, del: Request, add: Request, tries: nat)
    ensures !Retry([], canRemove, canAdd, del, add, tries).ok
    decreases tries
  {
    if tries > 0 {
      RetrySilent(canRemove, canAdd, del, add, tries - 1);
    }
  }

  /** A gateway that answers nothing gets all MaxTries add attempts for a
      supported port, and rejects every one of them. */
  lemma SilentGatewayRejectsAll(client: string, canRemove: bool, p: ForwardPort)
    requires Supported(p.protocol)
    ensures var run := PortRun([], client, canRemove, true, p);
      var a := AnswersTo(run.xs, AddRequestFor(client, p));
      !run.ok && |a| == MaxTries && forall k :: 0 <= k < |a| ==> !a[k]
  {
    RetrySilent(canRemove, true, DeleteRequest(p), AddRequestFor(client, p), MaxTries);
    PortRunFacts([], client, canRemove, true, p);
  }

  /** Under the status rule, a supported port is reported MAYBE_SUCCESS
      exactly when its add was posted and accepted, and a PROBABLE_FAILURE
      with AddPortMapping offered means MaxTries rejected adds. */
  lemma ReportsCoverAccepted(batch: seq<Report>, ports: set<ForwardPort>, xs: seq<Exchange>, client: string,
                             canAdd: bool, i: nat)
    requires ReportsCover(batch, ports, xs, client, canAdd)
    requires i < |batch| && Supported(batch[i].port.protocol)
    ensures batch[i].status == MaybeSuccess <==> Exchange(AddRequestFor(client, batch[i].port), true) in xs
    ensures canAdd && batch[i].status == ProbableFailure ==>
      var a := AnswersTo(xs, AddRequestFor(client, batch[i].port));
      |a| == MaxTries && forall k :: 0 <= k < |a| ==> !a[k]
  {
    var a := AnswersTo(xs, AddRequestFor(client, batch[i].port));
    AnswersToAccepted(xs, AddRequestFor(client, batch[i].port));
    assert StatusRule(batch[i], xs, client, canAdd);
    if canAdd && true in a {
      var k :| 0 <= k < |a| && a[k];
      assert k == |a| - 1;
    }
  }

  // ---------------------------------------------------------------------
  // The desired-set diff

  /** The diff computed when the host replaces the desired set `previous`
      by `ports`: the ports to forward now are those newly desired, the
      ports to dump now those no longer desired. An empty previous set
      forwards everything, an empty new set dumps everything. */
  method ComputeDiff(previous: set<ForwardPort>, ports: set<ForwardPort>)
    returns (forwardNow: set<ForwardPort>, dumpNow: set<ForwardPort>)
    ensures forwardNow == ports - previous
    ensures dumpNow == previous - ports
  {
    if previous == {} {
      forwardNow, dumpNow := ports, {};
    } else if ports == {} {
      dumpNow, forwardNow := previous, {};
    } else {
      forwardNow := {};
      var todo := ports;
      while todo != {}
        invariant todo <= ports
        invariant forwardNow == (ports - todo) - previous
        decreases todo
      {
        var port :| port in todo;
        if port !in previous {
          forwardNow := forwardNow + {port};
        }
        todo := todo - {port};
      }
      dumpNow := {};
      todo := previous;
      while todo != {}
        invariant todo <= previous
        invariant dumpNow == (previous - todo) - ports
        decreases todo
      {
        var port :| port in todo;
        if port !in ports {
          dumpNow := dumpNow + {port};
        }
        todo := todo - {port};
      }
    }
  }

  /** The two diffs split the change exactly: applying them to the previous
      desired set yields the new one, they are disjoint, a port desired
      before and after is in neither, and handing over the same set again
      gives two empty diffs. */
  lemma DiffReconciles(previous: set<ForwardPort>, ports: set<ForwardPort>)
    ensures (previous - (previous - ports)) + (ports - previous) == ports
    ensures (ports - previous) !! (previous - ports)
    ensures forall p :: p in previous && p in ports ==> p !in ports - previous && p !in previous - ports
    ensures previous == ports ==> ports - previous == {} && previous - ports == {}
  {
  }

  // ---------------------------------------------------------------------
  // Teardown of the forwarded set

  /** The outcome of tearing down the forwarded set: the ports whose
      mapping was deleted, in order, and whether the iteration was aborted
      by a ConcurrentModificationException. */
  datatype Teardown = Teardown(deleted: seq<ForwardPort>, aborted: bool)

  /** The teardown as written: the loop iterates the live forwarded set
      while every real removal deletes the current port from that same set,
      so the iterator's next step fails as soon as one port has been
      removed and more remain. `removes` says whether removeMapping gets as
      far as the removal (not disabled, a gateway bound, and the service
      offers DeletePortMapping). */
  function LiveTeardown(order: seq<ForwardPort>, removes: bool): (r: Teardown)
    ensures |r.deleted| <= 1
    ensures forall i :: 0 <= i < |r.deleted| ==> r.deleted[i] in order && Supported(r.deleted[i].protocol)
    ensures !removes ==> r == Teardown([], false)
  {
    if order == [] then Teardown([], false)
    else if !Supported(order[0].protocol) || !removes then LiveTeardown(order[1..], removes)
    else Teardown([order[0]], |order| > 1)
  }

  /** The teardown over a snapshot of the forwarded set: every port with a
      supported protocol is deleted, in iteration order. */
  function SnapshotTeardown(order: seq<ForwardPort>, removes: bool): (r: seq<ForwardPort>)
    ensures forall i :: 0 <= i < |r| ==> r[i] in order && Supported(r[i].protocol)
    ensures !removes ==> r == []
  {
    if order == [] then []
    else (if removes && Supported(order[0].protocol) then [order[0]] else []) + SnapshotTeardown(order[1..], removes)
  }

  /** Over a snapshot, each supported port of the forwarded set is deleted
      exactly once and nothing else is deleted. */
  lemma SnapshotTeardownDeletesEachOnce(order: seq<ForwardPort>, ports: set<ForwardPort>)
    requires Enumerates(order, ports)
    ensures forall i, j :: 0 <= i < j < |SnapshotTeardown(order, true)| ==>
      SnapshotTeardown(order, true)[i] != SnapshotTeardown(order, true)[j]
    ensures forall p :: p in SnapshotTeardown(order, true) <==> p in SupportedIn(ports)
    ensures |SnapshotTeardown(order, true)| == |SupportedIn(ports)|
  {
    var r := SnapshotTeardown(order, true);
    SnapshotTeardownDistinct(order);
    SnapshotTeardownMembers(order);
    assert SupportedIn(ports) == set p | p in r;
    DistinctCard(r);
  }

  /** The ports the snapshot teardown deletes are those of the iteration
      with a supported protocol. */
  lemma {:induction false} SnapshotTeardownMembers(order: seq<ForwardPort>)
    ensures forall p :: p in SnapshotTeardown(order, true) <==> p in order && Supported(p.protocol)
  {
    if order != [] {
      SnapshotTeardownMembers(order[1..]);
      assert order == [order[0]] + order[1..];
    }
  }

  /** A sequence without repeats has as many elements as the set of them. */
  lemma {:induction false} DistinctCard<T>(s: seq<T>)
    requires forall i, j :: 0 <= i < j < |s| ==> s[i] != s[j]
    ensures |set x | x in s| == |s|
  {
    if s != [] {
      DistinctCard(s[1..]);
      assert s[0] !in s[1..] by {
        forall k | 0 <= k < |s[1..]| ensures s[1..][k] != s[0] {
          assert s[1..][k] == s[k + 1];
        }
      }
      assert (set x | x in s) == (set x | x in s[1..]) + {s[0]} by {
        assert s == [s[0]] + s[1..];
      }
    }
  }

  /** The snapshot teardown of an iteration without repeats deletes no port
      twice, and deletes only ports of the iteration. */
  lemma {:induction false} SnapshotTeardownDistinct(order: seq<ForwardPort>)
    requires forall i, j :: 0 <= i < j < |order| ==> order[i] != order[j]
    ensures forall i, j :: 0 <= i < j < |SnapshotTeardown(order, true)| ==>
      SnapshotTeardown(order, true)[i] != SnapshotTeardown(order, true)[j]
  {
    if order != [] {
      var tail := SnapshotTeardown(order[1..], true);
      SnapshotTeardownDistinct(order[1..]);
      if Supported(order[0].protocol) {
        assert order[0] !in tail by {
          forall k | 0 <= k < |tail| ensures tail[k] != order[0] {
            assert tail[k] in order[1..];
          }
        }
      }
    }
  }

  /** As written, a forwarded set holding two ports with a supported
      protocol is never fully torn down: one mapping is deleted, the
      iteration aborts, and at least one supported port keeps its mapping. */
  lemma {:induction false} LiveTeardownLeavesMappings(order: seq<ForwardPort>, i: nat, j: nat)
    requires i < j < |order|
    requires Supported(order[i].protocol) && Supported(order[j].protocol)
    requires order[i] != order[j]
    ensures LiveTeardown(order, true).aborted
    ensures |LiveTeardown(order, true).deleted| == 1
    ensures order[j] !in LiveTeardown(order, true).deleted || order[i] !in LiveTeardown(order, true).deleted
  {
    if Supported(order[0].protocol) {
      assert |order| > 1;
    } else {
      assert i > 0;
      LiveTeardownLeavesMappings(order[1..], i - 1, j - 1);
    }
  }

  /** The two mappings {(UDP, 5000, "A"), (TCP, 6000, "B")}: as written only
      the first one visited is deleted before the iteration aborts; over a
      snapshot both are. */
  lemma TeardownOfTwoPorts()
    ensures var a := ForwardPort(UdpIpv4, 5000, "A");
      var b := ForwardPort(TcpIpv4, 6000, "B");
      LiveTeardown([a, b], true) == Teardown([a], true) &&
      SnapshotTeardown([a, b], true) == [a, b]
  {
    var a := ForwardPort(UdpIpv4, 5000, "A");
    var b := ForwardPort(TcpIpv4, 6000, "B");
    assert [a, b][1..] == [b];
    assert [b][1..] == [];
    assert SnapshotTeardown([b], true) == [b] + SnapshotTeardown([], true);
  }

  // ---------------------------------------------------------------------
  // What the logs of a reconciliation say

  /** The i-th DeletePortMapping request names the i-th port. */
  lemma {:induction false} DeleteRequestsAt(ps: seq<ForwardPort>, i: nat)
    requires forall k :: 0 <= k < |ps| ==> Supported(ps[k].protocol)
    requires i < |ps|
    ensures DeleteRequests(ps)[i] == DeleteRequest(ps[i])
  {
    if i > 0 {
      DeleteRequestsAt(ps[1..], i - 1);
    }
  }

  /** A teardown with DeletePortMapping available posts one delete per
      supported port of the set, for each of them, and nothing else. */
  lemma DeleteTrafficDeletesEachOnce(xs: seq<Exchange>, ports: set<ForwardPort>)
    requires DeleteTraffic(xs, ports, true)
    ensures |xs| == |SupportedIn(ports)|
    ensures forall p :: p in SupportedIn(ports) ==>
      exists i :: 0 <= i < |xs| && xs[i].request == DeleteRequest(p)
    ensures forall i :: 0 <= i < |xs| ==>
      exists p :: p in SupportedIn(ports) && xs[i].request == DeleteRequest(p)
  {
    var order :| TeardownAlong(order, ports, xs, true);
    var r := SnapshotTeardown(order, true);
    SnapshotTeardownDeletesEachOnce(order, ports);
    forall p | p in SupportedIn(ports)
      ensures exists i :: 0 <= i < |xs| && xs[i].request == DeleteRequest(p)
    {
      var i :| 0 <= i < |r| && r[i] == p;
      DeleteRequestsAt(r, i);
      assert xs[i].request == Requests(xs)[i];
    }
    forall i | 0 <= i < |xs|
      ensures exists p :: p in SupportedIn(ports) && xs[i].request == DeleteRequest(p)
    {
      DeleteRequestsAt(r, i);
      assert xs[i].request == Requests(xs)[i];
      assert r[i] in SupportedIn(ports);
    }
  }

  /** Registering posts something only when some port of the set has a
      supported protocol. */
  lemma RegisterTrafficNeedsSupportedPort(xs: seq<Exchange>, ports: set<ForwardPort>, client: string)
    requires RegisterTraffic(xs, ports, client)
    ensures xs != [] ==> SupportedIn(ports) != {}
  {
    if xs != [] {
      assert PostedFor(xs[0].request, ports, client);
      var p :| p in ports && Supported(p.protocol) &&
        (xs[0].request == DeleteRequest(p) || xs[0].request == AddRequestFor(client, p));
      assert p in SupportedIn(ports);
    }
  }

  /** Without DeletePortMapping, or with nothing to tear down, nothing is
      posted. */
  lemma DeleteTrafficQuiet(xs: seq<Exchange>, ports: set<ForwardPort>, removes: bool)
    requires DeleteTraffic(xs, ports, removes)
    requires !removes || ports == {}
    ensures xs == []
  {
    var order :| TeardownAlong(order, ports, xs, removes);
    if ports == {} {
      if order != [] {
        assert order[0] in ports;
      }
    }
    assert |Requests(xs)| == 0;
  }

  /** The ports of a sequence of reports are no more than the reports, and
      fewer when some port is reported twice. */
  lemma {:induction false} ReportedPortsCard(rs: seq<Report>)
    ensures |ReportedPorts(rs)| <= |rs|
    ensures (exists i, j :: 0 <= i < j < |rs| && rs[i].port == rs[j].port) ==> |ReportedPorts(rs)| < |rs|
  {
    if rs == [] {
      assert ReportedPorts(rs) == {};
    } else {
      var n := |rs| - 1;
      var init := rs[..n];
      assert rs == init + [rs[n]];
      ReportedPortsAppend(init, rs[n]);
      ReportedPortsCard(init);
      if exists i, j :: 0 <= i < j < |rs| && rs[i].port == rs[j].port {
        var i, j :| 0 <= i < j < |rs| && rs[i].port == rs[j].port;
        if j == n {
          assert init[i].port == rs[n].port;
          assert rs[n].port in ReportedPorts(init);
        } else {
          assert init[i].port == init[j].port;
        }
      }
    }
  }

  /** A batch of reports covering a set of ports names each port exactly
      once: one callback per port. */
  lemma ReportsCoverOncePerPort(batch: seq<Report>, ports: set<ForwardPort>, xs: seq<Exchange>, client: string,
                                canAdd: bool)
    requires ReportsCover(batch, ports, xs, client, canAdd)
    ensures forall i, j :: 0 <= i < j < |batch| ==> batch[i].port != batch[j].port
    ensures forall p :: p in ports ==> exists i :: 0 <= i < |batch| && batch[i].port == p
  {
    ReportedPortsCard(batch);
    forall p | p in ports ensures exists i :: 0 <= i < |batch| && batch[i].port == p {
      assert p in ReportedPorts(batch);
    }
  }

  /** The only iteration order of a one-port set is that port. */
  lemma EnumeratesSingleton(order: seq<ForwardPort>, p: ForwardPort)
    requires Enumerates(order, {p})
    ensures order == [p]
  {
    DistinctCard(order);
    assert (set x | x in order) == {p};
    assert order[0] in {p};
  }

  /** Registering the empty set reports nothing, posts nothing and uses no
      answer. */
  lemma RegisteredNothing(replies: seq<bool>, client: string, canRemove: bool, canAdd: bool, reg: Registration)
    requires RegisteredAs({}, replies, client, canRemove, canAdd, reg)
    ensures reg == Registration([], [], replies)
  {
    var order :| Enumerates(order, {}) && RegisterAlong(order, replies, client, canRemove, canAdd) == reg;
    DistinctCard(order);
    assert (set x | x in order) == {};
  }

  /** Registering a single port is one run of tryAddMapping for it and one
      report whose status is that run's outcome. */
  lemma RegisteredOne(p: ForwardPort, replies: seq<bool>, client: string, canRemove: bool, canAdd: bool,
                      reg: Registration)
    requires RegisteredAs({p}, replies, client, canRemove, canAdd, reg)
    ensures var run := PortRun(replies, client, canRemove, canAdd, p);
      reg == Registration([Report(p, StatusOf(p, run.ok))], run.xs, run.left)
  {
    var order :| Enumerates(order, {p}) && RegisterAlong(order, replies, client, canRemove, canAdd) == reg;
    EnumeratesSingleton(order, p);
    assert order[..0] == [];
    assert RegisterAlong([], replies, client, canRemove, canAdd) == Registration([], [], replies);
    assert [] + [Report(p, StatusOf(p, PortRun(replies, client, canRemove, canAdd, p).ok))] ==
      [Report(p, StatusOf(p, PortRun(replies, client, canRemove, canAdd, p).ok))];
    assert [] + PortRun(replies, client, canRemove, canAdd, p).xs == PortRun(replies, client, canRemove, canAdd, p).xs;
  }

  /** After registering a single port that was not forwarded, the port is
      forwarded exactly when its protocol is supported and its run of
      tryAddMapping succeeded. */
  lemma RegisteredOneForwarded(p: ForwardPort, replies: seq<bool>, client: string, canRemove: bool, canAdd: bool,
                               reg: Registration, start: set<ForwardPort>, removed: set<ForwardPort>,
                               forwarded: set<ForwardPort>)
    requires RegisteredAs({p}, replies, client, canRemove, canAdd, reg)
    requires p !in start && forwarded == (start - removed) + Succeeded(reg.batch)
    ensures var run := PortRun(replies, client, canRemove, canAdd, p);
      reg == Registration([Report(p, StatusOf(p, run.ok))], run.xs, run.left) &&
      (p in forwarded <==> Supported(p.protocol) && run.ok)
  {
    RegisteredOne(p, replies, client, canRemove, canAdd, reg);
    SucceededAppend([], reg.batch[0]);
    assert [] + [reg.batch[0]] == reg.batch;
    assert Succeeded([]) == {};
  }
}
