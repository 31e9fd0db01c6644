/**
 * The forwarder client: `expose` and `unexpose` build the request for one node
 * port and POST it to the host's forwarder service. JSON encoding and the HTTP
 * transport are not modelled; a POST is recorded as the URL and the request
 * struct it carries.
 */
module Forwarder {
  import opened Options
  import opened Decimal
  import PortDelta

  type Int32 = PortDelta.Int32

  /** Address of the virtual machine that exposed ports are forwarded to. */
  const VmVirtualIP: string := "192.168.127.2"

  /** The two endpoints of the host's forwarder service. */
  datatype Endpoint = ExposeEndpoint | UnexposeEndpoint

  function Url(e: Endpoint): string {
    match e
    case ExposeEndpoint => "http://host/services/forwarder/expose"
    case UnexposeEndpoint => "http://host/services/forwarder/unexpose"
  }

  /** Body of an expose call; `local` and `remote` are the JSON keys `Local` and `Remote`. */
  datatype ExposeRequest = ExposeRequest(local: string, remote: string)

  /** Body of an unexpose call; `local` is the JSON key `Local`. */
  datatype UnexposeRequest = UnexposeRequest(local: string)

  /** `fmt.Sprintf("%s:%d", host, port)`; the local address ":<port>" is the one with an empty host. */
  function Address(host: string, port: Int32): string {
    host + ":" + FormatInt(port)
  }

  /** The port of an address "<host>:<port>" for the given host, if `address` is one. */
  function PortAt(host: string, address: string): Option<int> {
    if |address| > |host| && address[..|host|] == host && address[|host|] == ':'
    then ParseInt(address[|host| + 1..])
    else None
  }

  /** An address reads back as its port, whatever the host. */
  lemma PortAtAddress(host: string, port: Int32)
    ensures PortAt(host, Address(host, port)) == Some(port as int)
  {
    var a := Address(host, port);
    assert a[..|host|] == host && a[|host|] == ':' && a[|host| + 1..] == FormatInt(port);
    ParseFormatInt(port);
  }

  /** The node port named by a local address ":<port>", if it is one. */
  function PortOfLocal(local: string): Option<int> {
    PortAt("", local)
  }

  /** The node port named by a remote address "<VmVirtualIP>:<port>", if it is one. */
  function PortOfRemote(remote: string): Option<int> {
    PortAt(VmVirtualIP, remote)
  }

  /** The request `expose(nodePort)` sends. */
  function NewExposeRequest(nodePort: Int32): ExposeRequest {
    ExposeRequest(Address("", nodePort), Address(VmVirtualIP, nodePort))
  }

  /** The request `unexpose(nodePort)` sends. */
  function NewUnexposeRequest(nodePort: Int32): UnexposeRequest {
    UnexposeRequest(Address("", nodePort))
  }

  /**
   * Both addresses of an expose request read back as its port, and the remote
   * address is the VM's address followed by the local one.
   */
  lemma ExposeRequestAddresses(nodePort: Int32)
    ensures PortOfLocal(NewExposeRequest(nodePort).local) == Some(nodePort as int)
    ensures PortOfRemote(NewExposeRequest(nodePort).remote) == Some(nodePort as int)
    ensures NewExposeRequest(nodePort).remote == VmVirtualIP + NewExposeRequest(nodePort).local
  {
    PortAtAddress("", nodePort);
    PortAtAddress(VmVirtualIP, nodePort);
  }

  /** An unexpose request carries the local address of the expose request for the same port. */
  lemma UnexposeRequestAddress(nodePort: Int32)
    ensures NewUnexposeRequest(nodePort).local == NewExposeRequest(nodePort).local
    ensures PortOfLocal(NewUnexposeRequest(nodePort).local) == Some(nodePort as int)
  {
    PortAtAddress("", nodePort);
  }

  /** Distinct node ports give distinct local addresses, and so distinct requests. */
  lemma LocalIdentifiesPort(p: Int32, q: Int32)
    ensures NewExposeRequest(p).local == NewExposeRequest(q).local <==> p == q
    ensures NewUnexposeRequest(p) == NewUnexposeRequest(q) <==> p == q
  {
    ExposeRequestAddresses(p);
    ExposeRequestAddresses(q);
  }

  datatype Body = ExposeBody(expose: ExposeRequest) | UnexposeBody(unexpose: UnexposeRequest)

  /** One HTTP POST: the endpoint and the request it carries. */
  datatype Post = Post(endpoint: Endpoint, body: Body)

  /** The POST that carries out `a`. */
  function PostFor(a: PortDelta.Action): Post {
    match a
    case Expose(p) => Post(ExposeEndpoint, ExposeBody(NewExposeRequest(p)))
    case Unexpose(p) => Post(UnexposeEndpoint, UnexposeBody(NewUnexposeRequest(p)))
  }

  /** A POST names the action it carries out: the endpoint gives the kind, the local address the port. */
  lemma PostForDecodes(a: PortDelta.Action)
    ensures ActionOfPost(PostFor(a)) == Some(a)
  {
    ExposeRequestAddresses(a.port);
    UnexposeRequestAddress(a.port);
  }

  /** Reads the action back from a POST: the endpoint gives the kind, the local address the port. */
  function ActionOfPost(post: Post): Option<PortDelta.Action> {
    var port := match post.body
      case ExposeBody(req) => PortOfLocal(req.local)
      case UnexposeBody(req) => PortOfLocal(req.local);
    if port.None? || !(-0x8000_0000 <= port.value < 0x8000_0000) then None
    else if post.endpoint == ExposeEndpoint && post.body.ExposeBody? then Some(PortDelta.Expose(port.value))
    else if post.endpoint == UnexposeEndpoint && post.body.UnexposeBody? then Some(PortDelta.Unexpose(port.value))
    else None
  }

  /** `f` applied to each element of `s`, in order. */
  function MapSeq<A, B>(f: A -> B, s: seq<A>): (r: seq<B>)
    ensures |r| == |s|
    ensures forall i | 0 <= i < |s| :: r[i] == f(s[i])
  {
    if s == [] then [] else MapSeq(f, s[..|s| - 1]) + [f(s[|s| - 1])]
  }

  /** The POSTs that carry out `trace`, one per action, in order. */
  function PostsFor(trace: seq<PortDelta.Action>): seq<Post> {
    MapSeq(PostFor, trace)
  }

  /** The log of POSTs decodes back to the actions it carries out, one for one. */
  lemma PostsDecodeToTrace(trace: seq<PortDelta.Action>)
    ensures |PostsFor(trace)| == |trace|
    ensures forall i | 0 <= i < |trace| :: ActionOfPost(PostsFor(trace)[i]) == Some(trace[i])
  {
    forall i | 0 <= i < |trace|
      ensures ActionOfPost(PostsFor(trace)[i]) == Some(trace[i])
    {
      PostForDecodes(trace[i]);
    }
  }

  /** Issuing the actions `more` after `done` appends exactly their POSTs. */
  lemma {:induction false} PostsForAppend(done: seq<PortDelta.Action>, more: seq<PortDelta.Action>)
    ensures PostsFor(done + more) == PostsFor(done) + PostsFor(more)
  {
    var l, r := PostsFor(done + more), PostsFor(done) + PostsFor(more);
    assert |l| == |r|;
    forall i | 0 <= i < |l| ensures l[i] == r[i] {
      if i < |done| {
        assert (done + more)[i] == done[i];
      } else {
        assert (done + more)[i] == more[i - |done|];
      }
    }
  }

  /**
   * The client side of the forwarder. `sent` is every POST issued so far;
   * the ghost `trace` is the same history as expose/unexpose calls.
   * Neither call reports a failure to its caller: a JSON or transport error
   * is only logged, so every call is attempted.
   */
  class ForwarderClient {
    ghost var trace: seq<PortDelta.Action>
    var sent: seq<Post>

    ghost predicate Valid()
      reads this
    {
      sent == PostsFor(trace)
    }

    constructor ()
      ensures Valid() && trace == [] && sent == []
    {
      trace := [];
      sent := [];
    }

    /** `expose(nodePort)`: POST the expose request for `nodePort`. */
    method Expose(nodePort: Int32)
      requires Valid()
      modifies this
      ensures Valid()
      ensures trace == old(trace) + [PortDelta.Expose(nodePort)]
      ensures sent == old(sent) + [PostFor(PortDelta.Expose(nodePort))]
    {
      var req := NewExposeRequest(nodePort);
      sent := sent + [Post(ExposeEndpoint, ExposeBody(req))];
      PostsForAppend(trace, [PortDelta.Expose(nodePort)]);
      trace := trace + [PortDelta.Expose(nodePort)];
    }

    /** `unexpose(nodePort)`: POST the unexpose request for `nodePort`. */
    method Unexpose(nodePort: Int32)
      requires Valid()
      modifies this
      ensures Valid()
      ensures trace == old(trace) + [PortDelta.Unexpose(nodePort)]
      ensures sent == old(sent) + [PostFor(PortDelta.Unexpose(nodePort))]
    {
      var req := NewUnexposeRequest(nodePort);
      sent := sent + [Post(UnexposeEndpoint, UnexposeBody(req))];
      PostsForAppend(trace, [PortDelta.Unexpose(nodePort)]);
      trace := trace + [PortDelta.Unexpose(nodePort)];
    }
  }
}
