/**
 * The port-delta policy of the Service informer's event handlers: from one
 * service event (a snapshot, or an old and a new snapshot for an update) it
 * decides the ordered expose/unexpose calls issued to the host forwarder.
 */
module PortDelta {
  import opened Options

  /** Go's `int32`, the type of a service port's `NodePort` field. */
  type Int32 = x: int | -0x8000_0000 <= x < 0x8000_0000

  /** The value of `v1.ServiceTypeNodePort`; the service type is a string in Kubernetes. */
  const NodePortType: string := "NodePort"

  /** One entry of `Spec.Ports`; only its `NodePort` is read. */
  datatype ServicePort = ServicePort(nodePort: Int32)

  /** The parts of a service snapshot the handlers read: `Spec.Type` and `Spec.Ports`. */
  datatype Service = Service(serviceType: string, ports: seq<ServicePort>)

  /** The three informer callbacks, with their snapshots already typed. */
  datatype Event =
    | Added(svc: Service)
    | Updated(oldSvc: Service, newSvc: Service)
    | Deleted(svc: Service)

  /** A call of `expose(port)` or `unexpose(port)`. */
  datatype Action = Expose(port: Int32) | Unexpose(port: Int32)

  predicate IsNodePort(s: Service) {
    s.serviceType == NodePortType
  }

  /** Some entry of `ports` carries node port `p`. */
  predicate Declares(ports: seq<ServicePort>, p: Int32) {
    exists i | 0 <= i < |ports| :: ports[i].nodePort == p
  }

  /** One `expose` per port, in list order. */
  function ExposeAll(ports: seq<ServicePort>): (r: seq<Action>)
    ensures |r| == |ports|
    ensures forall i | 0 <= i < |r| :: r[i] == Expose(ports[i].nodePort)
  {
    if ports == [] then [] else ExposeAll(ports[..|ports| - 1]) + [Expose(ports[|ports| - 1].nodePort)]
  }

  /** One `unexpose` per port, in list order. */
  function UnexposeAll(ports: seq<ServicePort>): (r: seq<Action>)
    ensures |r| == |ports|
    ensures forall i | 0 <= i < |r| :: r[i] == Unexpose(ports[i].nodePort)
  {
    if ports == [] then [] else UnexposeAll(ports[..|ports| - 1]) + [Unexpose(ports[|ports| - 1].nodePort)]
  }

  /** The four branches of the update handler's if/else-if chain. */
  datatype UpdateBranch = StoppedBeingNodePort | BecameNodePort | StayedNodePort | NeverNodePort

  /** Selects the branch the update handler takes, testing the guards in source order. */
  function Branch(oldSvc: Service, newSvc: Service): UpdateBranch {
    if IsNodePort(oldSvc) && !IsNodePort(newSvc) then StoppedBeingNodePort
    else if !IsNodePort(oldSvc) && IsNodePort(newSvc) then BecameNodePort
    else if IsNodePort(oldSvc) && IsNodePort(newSvc) then StayedNodePort
    else NeverNodePort
  }

  /** The calls the handler for `e` issues, in order. */
  function Actions(e: Event): seq<Action> {
    match e
    case Added(s) => if !IsNodePort(s) then [] else ExposeAll(s.ports)
    case Deleted(s) => if !IsNodePort(s) then [] else UnexposeAll(s.ports)
    case Updated(o, n) =>
      match Branch(o, n)
      case StoppedBeingNodePort => UnexposeAll(o.ports)
      case BecameNodePort => ExposeAll(n.ports)
      case StayedNodePort => UnexposeAll(o.ports) + ExposeAll(n.ports)
      case NeverNodePort => []
  }

  // ---------------------------------------------------------------------------
  // A reference statement of the decision table, in terms of the snapshot
  // before and the snapshot after the event.

  /** The snapshot an event replaces: none for an add. */
  function Before(e: Event): Option<Service> {
    match e
    case Added(_) => None
    case Updated(o, _) => Some(o)
    case Deleted(s) => Some(s)
  }

  /** The snapshot an event installs: none for a delete. */
  function After(e: Event): Option<Service> {
    match e
    case Added(s) => Some(s)
    case Updated(_, n) => Some(n)
    case Deleted(_) => None
  }

  /** The ports a snapshot asks to have exposed: its ports if it is a NodePort service, else none. */
  function Live(s: Option<Service>): seq<ServicePort> {
    if s.Some? && IsNodePort(s.value) then s.value.ports else []
  }

  /** Port `p` is asked for by snapshot `s`. */
  predicate Wants(s: Option<Service>, p: Int32) {
    Declares(Live(s), p)
  }

  /** The last action in `trace` that concerns port `p`, if any. */
  function LastActionOn(trace: seq<Action>, p: Int32): (r: Option<Action>)
    ensures r.None? <==> forall i | 0 <= i < |trace| :: trace[i].port != p
    ensures r.Some? ==> r.value.port == p
  {
    if trace == [] then None
    else if trace[|trace| - 1].port == p then Some(trace[|trace| - 1])
    else LastActionOn(trace[..|trace| - 1], p)
  }

  /** The action at the last position that concerns `p` is what `LastActionOn` returns. */
  lemma {:induction false} LastActionOnIsLastMention(trace: seq<Action>, p: Int32, k: nat)
    requires k < |trace| && trace[k].port == p
    requires forall j | k < j < |trace| :: trace[j].port != p
    ensures LastActionOn(trace, p) == Some(trace[k])
    decreases |trace|
  {
    if k < |trace| - 1 {
      LastActionOnIsLastMention(trace[..|trace| - 1], p, k);
    }
  }

  // ---------------------------------------------------------------------------
  // Properties of the policy.

  /** Exactly one update branch applies, and each is selected by its own guard. */
  lemma BranchGuards(o: Service, n: Service)
    ensures Branch(o, n) == StoppedBeingNodePort <==> IsNodePort(o) && !IsNodePort(n)
    ensures Branch(o, n) == BecameNodePort <==> !IsNodePort(o) && IsNodePort(n)
    ensures Branch(o, n) == StayedNodePort <==> IsNodePort(o) && IsNodePort(n)
    ensures Branch(o, n) == NeverNodePort <==> !IsNodePort(o) && !IsNodePort(n)
  {
  }

  /**
   * Every event unexposes the ports the old snapshot asked for and then exposes
   * the ports the new snapshot asks for, each list in its own order.
   */
  lemma ActionsMatchDecisionTable(e: Event)
    ensures Actions(e) == UnexposeAll(Live(Before(e))) + ExposeAll(Live(After(e)))
  {
    assert UnexposeAll([]) == [] && ExposeAll([]) == [];
    match e
    case Added(s) =>
      assert Actions(e) == [] + ExposeAll(Live(After(e)));
    case Deleted(s) =>
      assert Actions(e) == UnexposeAll(Live(Before(e))) + [];
    case Updated(o, n) =>
      BranchGuards(o, n);
      if Branch(o, n) == StoppedBeingNodePort {
        assert Actions(e) == UnexposeAll(o.ports) + [];
      } else if Branch(o, n) == BecameNodePort {
        assert Actions(e) == [] + ExposeAll(n.ports);
      } else if Branch(o, n) == NeverNodePort {
        assert Actions(e) == [] + [];
      }
  }

  /**
   * Add: one `Expose` per port of a NodePort service, in list order, and
   * nothing for any other service type.
   */
  lemma AddExposesEachPort(s: Service)
    ensures IsNodePort(s) ==> |Actions(Added(s))| == |s.ports|
    ensures IsNodePort(s) ==> forall i | 0 <= i < |s.ports| :: Actions(Added(s))[i] == Expose(s.ports[i].nodePort)
    ensures !IsNodePort(s) ==> Actions(Added(s)) == []
  {
  }

  /**
   * Delete: one `Unexpose` per port of a NodePort service, in list order, and
   * nothing for any other service type.
   */
  lemma DeleteUnexposesEachPort(s: Service)
    ensures IsNodePort(s) ==> |Actions(Deleted(s))| == |s.ports|
    ensures IsNodePort(s) ==> forall i | 0 <= i < |s.ports| :: Actions(Deleted(s))[i] == Unexpose(s.ports[i].nodePort)
    ensures !IsNodePort(s) ==> Actions(Deleted(s)) == []
  {
  }

  /** NodePort to other type: one `Unexpose` per old port, in order, and nothing else. */
  lemma StoppedBeingNodePortUnexposesOld(o: Service, n: Service)
    requires IsNodePort(o) && !IsNodePort(n)
    ensures |Actions(Updated(o, n))| == |o.ports|
    ensures forall i | 0 <= i < |o.ports| :: Actions(Updated(o, n))[i] == Unexpose(o.ports[i].nodePort)
  {
  }

  /** Other type to NodePort: one `Expose` per new port, in order, and nothing else. */
  lemma BecameNodePortExposesNew(o: Service, n: Service)
    requires !IsNodePort(o) && IsNodePort(n)
    ensures |Actions(Updated(o, n))| == |n.ports|
    ensures forall i | 0 <= i < |n.ports| :: Actions(Updated(o, n))[i] == Expose(n.ports[i].nodePort)
  {
  }

  /** Neither snapshot is a NodePort service: the update issues nothing. */
  lemma NeverNodePortIsSilent(o: Service, n: Service)
    requires !IsNodePort(o) && !IsNodePort(n)
    ensures Actions(Updated(o, n)) == []
  {
  }

  /**
   * NodePort to NodePort: every old port is unexposed, in order, and then every
   * new port is exposed, in order.
   */
  lemma StayedNodePortUnexposesThenExposes(o: Service, n: Service)
    requires IsNodePort(o) && IsNodePort(n)
    ensures |Actions(Updated(o, n))| == |o.ports| + |n.ports|
    ensures forall i | 0 <= i < |o.ports| :: Actions(Updated(o, n))[i] == Unexpose(o.ports[i].nodePort)
    ensures forall i | 0 <= i < |n.ports| :: Actions(Updated(o, n))[|o.ports| + i] == Expose(n.ports[i].nodePort)
  {
  }

  /** How many calls an event issues: one per port of each NodePort snapshot involved. */
  lemma ActionCount(e: Event)
    ensures |Actions(e)| == |Live(Before(e))| + |Live(After(e))|
    ensures Actions(e) == [] <==> Live(Before(e)) == [] && Live(After(e)) == []
  {
    ActionsMatchDecisionTable(e);
  }

  /**
   * Within one event no `Unexpose` follows an `Expose`; every `Unexpose` names a
   * port the old snapshot asked for and every `Expose` a port the new one asks for.
   */
  lemma UnexposesPrecedeExposes(e: Event)
    ensures forall i, j | 0 <= i < j < |Actions(e)| :: Actions(e)[i].Expose? ==> Actions(e)[j].Expose?
    ensures forall i | 0 <= i < |Actions(e)| :: Actions(e)[i].Unexpose? ==> Wants(Before(e), Actions(e)[i].port)
    ensures forall i | 0 <= i < |Actions(e)| :: Actions(e)[i].Expose? ==> Wants(After(e), Actions(e)[i].port)
  {
    ActionsMatchDecisionTable(e);
    var un, ex := Live(Before(e)), Live(After(e));
    var r := Actions(e);
    forall i | 0 <= i < |r|
      ensures r[i].Unexpose? ==> Wants(Before(e), r[i].port)
      ensures r[i].Expose? ==> Wants(After(e), r[i].port)
    {
      if i < |un| {
        assert r[i] == Unexpose(un[i].nodePort);
      } else {
        assert r[i] == Expose(ex[i - |un|].nodePort);
      }
    }
  }

  /** The last mention of `p` in a concatenation is in its second part, if there is one there. */
  lemma {:induction false} LastActionOnAppend(a: seq<Action>, b: seq<Action>, p: Int32)
    ensures LastActionOn(a + b, p) == if LastActionOn(b, p).Some? then LastActionOn(b, p) else LastActionOn(a, p)
    decreases |b|
  {
    if b != [] {
      assert (a + b)[..|a + b| - 1] == a + b[..|b| - 1];
      LastActionOnAppend(a, b[..|b| - 1], p);
    } else {
      assert a + b == a;
    }
  }

  /** In `ExposeAll(ports)` the last mention of `p` is `Expose(p)` exactly when `p` is among the ports. */
  lemma {:induction false} LastActionOnExposeAll(ports: seq<ServicePort>, p: Int32)
    ensures LastActionOn(ExposeAll(ports), p) == if Declares(ports, p) then Some(Expose(p)) else None
    decreases |ports|
  {
    if ports != [] {
      var front := ports[..|ports| - 1];
      LastActionOnExposeAll(front, p);
      assert Declares(ports, p) <==> Declares(front, p) || ports[|ports| - 1].nodePort == p by {
        if Declares(ports, p) {
          var i :| 0 <= i < |ports| && ports[i].nodePort == p;
          if i < |front| { assert front[i].nodePort == p; }
        }
        if Declares(front, p) {
          var i :| 0 <= i < |front| && front[i].nodePort == p;
          assert ports[i].nodePort == p;
        }
      }
    }
  }

  /** In `UnexposeAll(ports)` the last mention of `p` is `Unexpose(p)` exactly when `p` is among the ports. */
  lemma {:induction false} LastActionOnUnexposeAll(ports: seq<ServicePort>, p: Int32)
    ensures LastActionOn(UnexposeAll(ports), p) == if Declares(ports, p) then Some(Unexpose(p)) else None
    decreases |ports|
  {
    if ports != [] {
      var front := ports[..|ports| - 1];
      LastActionOnUnexposeAll(front, p);
      assert Declares(ports, p) <==> Declares(front, p) || ports[|ports| - 1].nodePort == p by {
        if Declares(ports, p) {
          var i :| 0 <= i < |ports| && ports[i].nodePort == p;
          if i < |front| { assert front[i].nodePort == p; }
        }
        if Declares(front, p) {
          var i :| 0 <= i < |front| && front[i].nodePort == p;
          assert ports[i].nodePort == p;
        }
      }
    }
  }

  /**
   * After the calls of one event, the last call on any port `p` is an `Expose`
   * exactly when the new snapshot asks for `p`, an `Unexpose` exactly when only
   * the old snapshot asked for it, and there is none otherwise. In particular a
   * port kept across a NodePort-to-NodePort update is exposed again last.
   */
  lemma LastActionFollowsNewSnapshot(e: Event, p: Int32)
    ensures LastActionOn(Actions(e), p) ==
      if Wants(After(e), p) then Some(Expose(p))
      else if Wants(Before(e), p) then Some(Unexpose(p))
      else None
  {
    ActionsMatchDecisionTable(e);
    LastActionOnAppend(UnexposeAll(Live(Before(e))), ExposeAll(Live(After(e))), p);
    LastActionOnExposeAll(Live(After(e)), p);
    LastActionOnUnexposeAll(Live(Before(e)), p);
  }

  /**
   * A periodic resync delivers an update whose old and new snapshots are the
   * same. For a NodePort service every port is unexposed and then exposed
   * again, and each declared port ends exposed; any other service is left alone.
   */
  lemma ResyncReexposes(s: Service, p: Int32)
    ensures Actions(Updated(s, s)) == if IsNodePort(s) then UnexposeAll(s.ports) + ExposeAll(s.ports) else []
    ensures LastActionOn(Actions(Updated(s, s)), p) ==
      if IsNodePort(s) && Declares(s.ports, p) then Some(Expose(p)) else None
  {
    LastActionFollowsNewSnapshot(Updated(s, s), p);
  }
}
