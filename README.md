# Node-port controller: the port-delta policy

The controller watches Kubernetes Services through a shared informer. Whenever
a Service is added, updated or deleted, it tells the host's forwarder service
which node ports to expose or unexpose. Each call is an HTTP POST whose JSON
body names the local address `":<port>"` and, for an expose, the remote
address `"192.168.127.2:<port>"` on the virtual machine.

This Dafny project models the decision each handler makes and the requests it
sends:

- `Options`: the `Option` datatype.
- `Decimal`: Go's `%d` rendering of an integer (`FormatInt`) and a parser that
  inverts it, so that a request's address can be read back as its port.
- `PortDelta`: the data model (service snapshot, event, action), the pure
  policy `Actions` that maps one event to its ordered expose/unexpose calls,
  and a reference statement of that policy in terms of the snapshot before and
  the snapshot after the event. It also holds the lemmas about the policy:
  each branch, counts, ordering, and which call on a port comes last.
- `Forwarder`: the request structs and their builders, the POST as endpoint
  plus body, and `ForwarderClient`. That class keeps the log of POSTs sent
  (`sent`) and, as ghost state, the same history as actions (`trace`).
- `Controller`: the three handlers as methods that loop over the ports and
  call the client. Each is proved to issue exactly `Actions` of its event, and
  so exactly the POSTs `PostsFor(Actions(e))`.
- `Scenarios`: the POSTs sent for a few concrete services.

## Model

| member | source | states |
|---|---|---|
| Decimal.FormatInt | main.go:123-124 | Go's `%d` of an integer: non-empty, starting with `-` exactly for negatives, canonical digits (no leading zero) otherwise; `Decimal.ParseFormatInt` inverts it |
| Decimal.ParseFormatInt | main.go:123 | Parsing the `%d` rendering of any integer gives that integer back |
| Decimal.FormatIntInjective | main.go:123-124 | Two integers render to the same `%d` text if and only if they are equal |
| Decimal.FormatNatOfDigitsValue | main.go:123 | Every canonical digit string is the `%d` rendering of the number it denotes, so rendering is onto canonical digit strings |
| Decimal.DigitsValueOfFormatNat | main.go:123 | The digits `%d` writes for a natural number denote that number |
| PortDelta.Branch | main.go:69-90 | Selects the update handler's branch by testing the four guards in the source's order; `PortDelta.BranchGuards` states when each is taken |
| PortDelta.Actions | main.go:52-103 | The ordered expose/unexpose calls each handler makes for its event; `PortDelta.ActionsMatchDecisionTable` ties it to the before/after reference and the `Controller` handlers are proved to issue exactly it |
| PortDelta.ExposeAll | main.go:60-62 | One expose per port, in the order of the service's port list, and nothing else |
| PortDelta.UnexposeAll | main.go:100-102 | One unexpose per port, in the order of the service's port list, and nothing else |
| PortDelta.LastActionOn | main.go:79-87 | The last call on a port is absent exactly when no call in the trace concerns that port, and when present it concerns that port |
| PortDelta.LastActionOnIsLastMention | main.go:79-87 | The call at the last position that concerns a port is the one `LastActionOn` reports |
| PortDelta.BranchGuards | main.go:69-90 | Each of the update handler's four branches is taken exactly when its own guard holds, so exactly one applies |
| PortDelta.ActionsMatchDecisionTable | main.go:52-103 | For every event, the calls are: unexpose every port of the old snapshot if it was NodePort, then expose every port of the new snapshot if it is NodePort |
| PortDelta.AddExposesEachPort | main.go:55-62 | Adding a NodePort service exposes each of its ports in order; adding any other service does nothing |
| PortDelta.DeleteUnexposesEachPort | main.go:95-102 | Deleting a NodePort service unexposes each of its ports in order; deleting any other service does nothing |
| PortDelta.StoppedBeingNodePortUnexposesOld | main.go:69-73 | When a service stops being NodePort, every old port is unexposed in order and nothing is exposed |
| PortDelta.BecameNodePortExposesNew | main.go:74-78 | When a service becomes NodePort, every new port is exposed in order and nothing is unexposed |
| PortDelta.StayedNodePortUnexposesThenExposes | main.go:79-87 | When a service stays NodePort, all old ports are unexposed and then all new ports are exposed, unconditionally |
| PortDelta.NeverNodePortIsSilent | main.go:88-90 | When neither snapshot is NodePort, no call is made |
| PortDelta.ActionCount | main.go:52-103 | An event makes as many calls as the old and new NodePort snapshots have ports together; it makes none exactly when both have none |
| PortDelta.UnexposesPrecedeExposes | main.go:79-87 | No unexpose follows an expose; every unexpose names a port of the old NodePort snapshot and every expose a port of the new one |
| PortDelta.LastActionOnAppend | main.go:79-87 | The last call on a port in a concatenation comes from the second part if that part mentions the port, else from the first |
| PortDelta.LastActionOnExposeAll | main.go:60-62 | In an expose-all run, the last call on a port is an expose exactly when the port list declares the port |
| PortDelta.LastActionOnUnexposeAll | main.go:100-102 | In an unexpose-all run, the last call on a port is an unexpose exactly when the port list declares the port |
| PortDelta.LastActionFollowsNewSnapshot | main.go:52-103 | After any event, the last call on a port is an expose if the new snapshot asks for it, an unexpose if only the old one did, and none otherwise; a port kept across a NodePort update ends exposed |
| Forwarder.Address | main.go:123-124 | The address `host:%d(port)`, local with an empty host and remote with host `192.168.127.2`; `Forwarder.PortAtAddress` reads the port back |
| Forwarder.NewExposeRequest | main.go:122-125 | The expose request for a port, with local `:%d` and remote `192.168.127.2:%d`; its properties are `Forwarder.ExposeRequestAddresses` and `Forwarder.LocalIdentifiesPort` |
| Forwarder.NewUnexposeRequest | main.go:139-141 | The unexpose request for a port, with local `:%d`; its properties are `Forwarder.UnexposeRequestAddress` and `Forwarder.LocalIdentifiesPort` |
| Forwarder.Url | main.go:132 | The URLs of the forwarder's expose endpoint (this line) and unexpose endpoint (main.go:148); `Scenarios.ExposePost` and `Scenarios.UnexposePost` state which URL each POST goes to |
| Forwarder.PostFor | main.go:121-152 | The POST that `expose` or `unexpose` sends for a call: the endpoint and the request for its port; `Forwarder.PostForDecodes` reads the call back from it |
| PortDelta.ResyncReexposes | main.go:48 | A resync (an update with the same snapshot twice) of a NodePort service unexposes every port and then exposes it again, so each declared port ends exposed; for any other service it does nothing |
| Forwarder.PortAtAddress | main.go:123-124 | An address `host:%d(port)` reads back as its port |
| Forwarder.ExposeRequestAddresses | main.go:122-125 | The expose request's local and remote addresses both name its port, and the remote is the VM address `192.168.127.2` followed by the local address |
| Forwarder.UnexposeRequestAddress | main.go:139-141 | The unexpose request carries the same local address as the expose request for that port, and it names the port |
| Forwarder.LocalIdentifiesPort | main.go:122-125 | Two ports give the same local address, and the same unexpose request, if and only if they are the same port |
| Forwarder.PostForDecodes | main.go:121-152 | Every POST can be read back as the call that produced it: the endpoint gives the kind and the local address the port |
| Forwarder.PostsDecodeToTrace | main.go:121-152 | The POST log has one entry per call, and entry i decodes to call i |
| Forwarder.PostsForAppend | main.go:121-152 | The POSTs of two call sequences in a row are the POSTs of the first followed by those of the second |
| Forwarder.ForwarderClient.constructor | main.go:121-152 | A fresh client has sent nothing |
| Forwarder.ForwarderClient.Expose | main.go:121-136 | `expose` appends exactly one POST to the expose endpoint, carrying the expose request for the port, and keeps the log consistent with the call history |
| Forwarder.ForwarderClient.Unexpose | main.go:138-152 | `unexpose` appends exactly one POST to the unexpose endpoint, carrying the unexpose request for the port, and keeps the log consistent with the call history |
| Controller.ExposeEach | main.go:60-62 | The loop issues exactly one expose per port in list order (loop-invariant proof), and nothing else |
| Controller.UnexposeEach | main.go:100-102 | The loop issues exactly one unexpose per port in list order (loop-invariant proof), and nothing else |
| Controller.OnAdd | main.go:52-63 | The add handler issues exactly `Actions(Added(s))` and sends exactly their POSTs |
| Controller.OnUpdate | main.go:64-91 | The update handler issues exactly `Actions(Updated(o, n))` in each of its four branches and sends exactly their POSTs |
| Controller.OnDelete | main.go:92-103 | The delete handler issues exactly `Actions(Deleted(s))` and sends exactly their POSTs |
| Controller.OnEvent | main.go:51-103 | Dispatching any event to its handler issues exactly `Actions(e)` and sends exactly their POSTs |
| Scenarios.FormatExamples | main.go:123 | `%d` renders the ports 30080, 30081, 30090 and 30443 as their usual digits |
| Scenarios.ExposePost | main.go:121-132 | The expose POST for port p goes to `http://host/services/forwarder/expose` with local `":" + %d(p)` and remote `"192.168.127.2:" + %d(p)` |
| Scenarios.UnexposePost | main.go:138-148 | The unexpose POST for port p goes to `http://host/services/forwarder/unexpose` with local `":" + %d(p)` |
| Scenarios.AddNodePortService | main.go:52-63 | Adding a NodePort service with ports p and q sends two expose POSTs, for p and then for q |
| Scenarios.ChangeNodePort | main.go:79-87 | Moving a NodePort service from port p to port q sends an unexpose POST for p and then an expose POST for q |
| Scenarios.ClusterIPBecomesNodePort | main.go:74-78 | Turning a ClusterIP service with no ports into a NodePort service on port p sends one expose POST for p |
| Scenarios.AddNodePortServiceExample | main.go:52-63 | Adding a NodePort service with node ports 30080 and 30443 sends exactly the expose bodies `:30080` / `192.168.127.2:30080` and then `:30443` / `192.168.127.2:30443` |
| Scenarios.ChangeNodePortExample | main.go:79-87 | Moving a NodePort service from node port 30080 to 30081 sends exactly the unexpose body `:30080` and then the expose body `:30081` / `192.168.127.2:30081` |
| Scenarios.ClusterIPBecomesNodePortExample | main.go:74-78 | A ClusterIP service with no ports becoming NodePort on 30090 sends exactly the expose body `:30090` / `192.168.127.2:30090` |
| Scenarios.DeleteClusterIPService | main.go:92-98 | Deleting a ClusterIP service sends nothing, whatever its ports |

## Left out

- Command-line flags, kubeconfig loading and client construction (main.go:26-45): configuration and I/O, outside the policy.
- The informer factory, handler registration, `Run` and the stop channel (main.go:47-51, 104-109): the model takes the event stream as given, one event at a time, and does not model concurrency or the 5-minute resync timer. The resync events themselves are modelled: one arrives as an update whose old and new snapshots are the same, and `PortDelta.ResyncReexposes` states what it does.
- The runtime type assertions on the informer's objects (main.go:53, 65-66, 93): the model's handlers receive typed service snapshots.
- Logging (main.go:54, 56, 68, 70, 75, 80, 89, 94, 96, 126, 130, 134, 142, 146, 150): it has no effect on the calls. So the service name, which is used only in log messages, is not part of the service snapshot.
- JSON encoding and the content type (main.go:128, 132, 144, 148): a POST is recorded as its endpoint and the request struct, not as bytes, and the `application/json` content type that every POST carries is not recorded. After a marshal error the source would still POST, but with an empty body; marshalling a struct of two strings cannot fail, so the model records every POST with its request.
- The HTTP transport (main.go:132, 148): the model records the POST as sent. The source ignores the response, including its status code, and only logs a transport error. So nothing a POST returns can change what the handlers do next, and the model has no failure path.
- The forwarder's own state (which ports are currently exposed on the host) and its idempotence: that is the host's code, which is not part of this model. The model states the outcome per port as the last call made on it (`PortDelta.LastActionFollowsNewSnapshot`).
- Node ports are Go `int32` values and are modelled as the subset type `Int32`. A port of 0 (unallocated) or a negative value is rendered as Go's `%d` does and sent like any other port, since the source sends it unchanged.
