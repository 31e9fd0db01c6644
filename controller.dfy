/**
 * The Service informer's three event handlers. Each walks the ports of the
 * snapshot(s) it is given and calls `expose` or `unexpose` on the forwarder
 * client port by port; each is proved to issue exactly `PortDelta.Actions`
 * of its event, and therefore exactly the POSTs `Forwarder.PostsFor` of them.
 */
module Controller {
  import opened PortDelta
  import Forwarder

  /** Calls `expose` on the client for each port's node port, in list order. */
  method ExposeEach(client: Forwarder.ForwarderClient, ports: seq<ServicePort>)
    requires client.Valid()
    modifies client
    ensures client.Valid()
    ensures client.trace == old(client.trace) + ExposeAll(ports)
  {
    var i := 0;
    while i < |ports|
      invariant i <= |ports|
      invariant client.Valid()
      invariant client.trace == old(client.trace) + ExposeAll(ports[..i])
    {
      client.Expose(ports[i].nodePort);
      ExposeAllExtend(ports, i);
      i := i + 1;
    }
    assert ports[..|ports|] == ports;
  }

  /** Calls `unexpose` on the client for each port's node port, in list order. */
  method UnexposeEach(client: Forwarder.ForwarderClient, ports: seq<ServicePort>)
    requires client.Valid()
    modifies client
    ensures client.Valid()
    ensures client.trace == old(client.trace) + UnexposeAll(ports)
  {
    var i := 0;
    while i < |ports|
      invariant i <= |ports|
      invariant client.Valid()
      invariant client.trace == old(client.trace) + UnexposeAll(ports[..i])
    {
      client.Unexpose(ports[i].nodePort);
      UnexposeAllExtend(ports, i);
      i := i + 1;
    }
    assert ports[..|ports|] == ports;
  }

  lemma ExposeAllExtend(ports: seq<ServicePort>, i: nat)
    requires i < |ports|
    ensures ExposeAll(ports[..i + 1]) == ExposeAll(ports[..i]) + [Expose(ports[i].nodePort)]
  {
    assert ports[..i + 1][..i] == ports[..i];
  }

  lemma UnexposeAllExtend(ports: seq<ServicePort>, i: nat)
    requires i < |ports|
    ensures UnexposeAll(ports[..i + 1]) == UnexposeAll(ports[..i]) + [Unexpose(ports[i].nodePort)]
  {
    assert ports[..i + 1][..i] == ports[..i];
  }

  /** `AddFunc`: expose every node port of a NodePort service. */
  method OnAdd(client: Forwarder.ForwarderClient, service: Service)
    requires client.Valid()
    modifies client
    ensures client.Valid()
    ensures client.trace == old(client.trace) + Actions(Added(service))
    ensures client.sent == old(client.sent) + Forwarder.PostsFor(Actions(Added(service)))
  {
    if !IsNodePort(service) {
      return;
    }
    ExposeEach(client, service.ports);
    Forwarder.PostsForAppend(old(client.trace), Actions(Added(service)));
  }

  /** `UpdateFunc`: the four-way branch on whether the old and new snapshots are NodePort services. */
  method OnUpdate(client: Forwarder.ForwarderClient, oldService: Service, newService: Service)
    requires client.Valid()
    modifies client
    ensures client.Valid()
    ensures client.trace == old(client.trace) + Actions(Updated(oldService, newService))
    ensures client.sent == old(client.sent) + Forwarder.PostsFor(Actions(Updated(oldService, newService)))
  {
    if IsNodePort(oldService) && !IsNodePort(newService) {
      UnexposeEach(client, oldService.ports);
      assert Actions(Updated(oldService, newService)) == UnexposeAll(oldService.ports);
    } else if !IsNodePort(oldService) && IsNodePort(newService) {
      ExposeEach(client, newService.ports);
      assert Actions(Updated(oldService, newService)) == ExposeAll(newService.ports);
    } else if IsNodePort(oldService) && IsNodePort(newService) {
      UnexposeEach(client, oldService.ports);
      ExposeEach(client, newService.ports);
      AppendAssociative(old(client.trace), UnexposeAll(oldService.ports), ExposeAll(newService.ports));
      assert Actions(Updated(oldService, newService)) == UnexposeAll(oldService.ports) + ExposeAll(newService.ports);
    } else {
      assert Actions(Updated(oldService, newService)) == [];
      assert client.trace == old(client.trace) + [];
    }
    Forwarder.PostsForAppend(old(client.trace), Actions(Updated(oldService, newService)));
  }

  /** `DeleteFunc`: unexpose every node port of a NodePort service. */
  method OnDelete(client: Forwarder.ForwarderClient, service: Service)
    requires client.Valid()
    modifies client
    ensures client.Valid()
    ensures client.trace == old(client.trace) + Actions(Deleted(service))
    ensures client.sent == old(client.sent) + Forwarder.PostsFor(Actions(Deleted(service)))
  {
    if !IsNodePort(service) {
      return;
    }
    UnexposeEach(client, service.ports);
    Forwarder.PostsForAppend(old(client.trace), Actions(Deleted(service)));
  }

  /** The informer's dispatch of one event to its handler. */
  method OnEvent(client: Forwarder.ForwarderClient, e: Event)
    requires client.Valid()
    modifies client
    ensures client.Valid()
    ensures client.trace == old(client.trace) + Actions(e)
    ensures client.sent == old(client.sent) + Forwarder.PostsFor(Actions(e))
  {
    match e
    case Added(s) => OnAdd(client, s);
    case Updated(o, n) => OnUpdate(client, o, n);
    case Deleted(s) => OnDelete(client, s);
  }

  lemma AppendAssociative<T>(a: seq<T>, b: seq<T>, c: seq<T>)
    ensures (a + b) + c == a + (b + c)
  {
  }
}
