# Power API: routers, servers and their configuration

A model of the distributed part of the Power API reference implementation, of the scripts
that lay its daemons out, and of the XML code it reads its configuration with, together with
proofs about them.

A client's request names groups of objects. The router the client is connected to sends the
request to every object of every group, wrapped in a RouterEvent that travels over a tree of
routers to the server holding the object. Each server answers once. The first router queues
the replies of each group, counts the groups down and sends one response when all are full:
the sum of each group, attribute by attribute, and every error.

The modules, one file each:

- **Routing**, **Fabric**: the next hop of `TreeCore`, meshes of routers, and FIFO channels
  between routers, servers and the events that wait for a server; what one hop, one
  reception and one connection do to every sender-receiver flow.
- **Aggregation**: `CommReqInfo`, the reply queues, countdown, sums and error lists, for one
  request and any sequence of replies.
- **Protocol**, **ProtocolInv**, **ProtocolRuns**, **ProtocolAsks**, **ProtocolTheorems**,
  **ProtocolLiveness**: the whole system as a step machine (clients, routers, channels,
  servers, open requests), its invariant, what holds on every run, that what is answered is
  what the clients asked and the servers replied, and that every fair continuation answers
  every request.
- **RouterNode**: the `Router` object with its channel map, route table and pending events,
  proved to do what a router of the step machine does.
- **Distribution**: `DistCntxt::traverse` and the sums; what the cut at server boundaries
  means.
- **ClientRequest**: the `DistRequest` object and its wait loop over the replies of all
  requests of its context.
- **ServerNode**: the `Server` object, its `m_finiMap`, the values it reads, and the callback
  of a remote request, proved to do what a server of the step machine does.
- **ClientRead**: from the protocol's runs to the cell a client reads.
- **Common**: what several modules use.
- **Topology**, **Names**, **RouteTable**, **DaemonLayout**: sizes, names, route file and
  router links of the configuration scripts, down to the text, and the router's parser.
- **Serialization**, **Events**, **WireLayout**: `SerialBuf` as a byte stack, every event
  type, events inside RouterEvents, and the bytes of each event in their order.
- **CharRef**, **XmlText**, **XmlDoc**, **SiblingList**, **MemPool**: tinyxml2's character
  references and UTF-8, entity decoding in place, parser and printer, sibling lists and pool.
- **Hwloc**, **Flatten**: hoisting and pruning of the hwloc tree; pwrgen's flat list and
  xmlConfig's lookups in it.

Where code and comments or documents differ, the model follows the code. Points found on the
way, each stated by a lemma or contract:

- A group with no members never fills up, so its request is never answered
  (`Aggregation.OneResponse`, `ProtocolTheorems.RestAnswersAll`).
- `Router::sendEvent` means to drop events for a name without a route, but compares a 64-bit
  AppID with a 32-bit -1: what is dropped is only a name routed to router 0 itself
  (`RouterNode.Router.Unroutable`).
- A device that fails to be read takes the values of its whole list with it: the list counts
  as 0 in the sums above it (`Distribution.DistributionIsSumIff`,
  `Distribution.FailingExample`).
- For an attribute with both a communicator and a failing device a server runs requestFini
  twice, and the second time the assertion of `Server::fini` fails; its local values are lost
  from the sum as well. The assertions in `DistObject` exclude such attributes
  (`ServerNode.Server.ReceiveAndProgress`, `ServerNode.ExclusiveNeverClash`,
  `Distribution.MixedIsSumIff`).
- `duplicate` numbers its copies from 1 even if the platform has several objects, so with two
  machines two objects get one name (`Flatten.MachinesDistinctIff`).
- `flatten` cuts full names to 255 characters and `findChildren` does not: an object below a
  name that fills its buffer gets that name too (`Flatten.FileDistinct`,
  `Flatten.NestedDistinctIff`), and a child whose name was cut is looked up under another one
  (`Flatten.ChildrenRecovered`).
- With one node to a board the root router takes the place of board router 0; all routers
  named by the route file exist exactly when a board has two nodes or more
  (`DaemonLayout.RoutersExistIff`).
- `StrPair::GetStr` skips an ampersand that begins no entity without writing it, and leaves
  whatever byte stood at the write position (`XmlText.TextDecodesIff`,
  `XmlText.StaleExample`).
- `reorderObjects` does not go down into the objects it hoists, so a memory object below a
  memory object keeps its children (`Hwloc.MemLeavesIff`).
- Line ends in a value come back from printing and parsing as single line feeds, so a
  document comes back as it was exactly when no value holds a carriage return
  (`XmlText.ValueRoundTrip`, `XmlDoc.ParseUndoesPrintIff`).
- An end tag at the document's own level is not an error: the parser stops there with what
  it has read (`XmlDoc.StrayEnd`).

`dafny verify dfyconfig.toml` checks the project.

## Model

| member | source | states |
|---|---|---|
| `Routing.GetChannel` | tools/pwrdaemon/router/treeCore.cc:68-81 | The scan over the links: the first link above 0 whose id range holds the id, link 0 if none does, no channel for a router without links. |
| `Routing.TreeHop` | tools/pwrdaemon/router/treeCore.cc:68-81 | In any tree of routers whose links above 0 carry exactly the ids behind them, one hop goes down to the child that leads to the destination when it is below, else up, and the tree distance falls. |
| `Routing.TreeConverges` | tools/pwrdaemon/router/router.cc:129-176 | Repeated sends from any router of such a mesh reach any other: every hop stays in the mesh and comes nearer under one distance table. |
| `Fabric.SendStep` | tools/pwrdaemon/router/router.cc:129-176 | A router sending an event of its own, locally, over a link or into the pending queue, keeps the channels sound and appends the event to its own flow only. |
| `Fabric.UpStep` | tools/pwrdaemon/server/server.cc:90-105 | A server sending to a router appends to its own flow only. |
| `Fabric.RelayStep` | tools/pwrdaemon/router/rtrRouterEvent.h:26-32 | Forwarding the head of a channel changes no flow: the events in flight between each pair, and their order, are the same. |
| `Fabric.TakeStep` | tools/pwrdaemon/router/router.cc:146-157 | What a receiver takes from its channel is the oldest event in flight of that flow, and only that flow shrinks. |
| `Fabric.DrainStep` | tools/pwrdaemon/router/router.cc:178-194 | Moving the pending events of a server that connects onto its channel changes no flow. |
| `Aggregation.CommReqInfo.constructor` | tools/pwrdaemon/router/commReqEvent.h:29-74 | A new request: one empty reply queue to a group, pending equal to the number of groups, an empty response. |
| `Aggregation.CommReqInfo.AddReply` | tools/pwrdaemon/router/commRespEvent.h:56-66 | One reply is added to its group's row column by column, its time stamps replace the row's, and nothing else of the response changes. |
| `Aggregation.CommReqInfo.SumGroup` | tools/pwrdaemon/router/commRespEvent.h:46-68 | A full group's row becomes the column sums over its queue, other rows stay. |
| `Aggregation.CommReqInfo.CollectErrors` | tools/pwrdaemon/router/commRespEvent.h:69-83 | All errors of all queued replies of the group are appended to the three lists, in step. |
| `Aggregation.CommReqInfo.Process` | tools/pwrdaemon/router/commRespEvent.h:34-104 | Processing one reply is the specified transition, and a response goes to the client exactly when that reply completes the request. |
| `Aggregation.Countdown` | tools/pwrdaemon/router/commRespEvent.h:41-97 | After any replies in any order each queue holds exactly its group's replies and pending is the number of groups not yet full. |
| `Aggregation.OneResponse` | tools/pwrdaemon/router/commRespEvent.h:41-97 | Over any interleaving the number of responses sent is one if there is a group and every group is full, else zero; so an empty group means no answer. |
| `Aggregation.EmptyGroupExample` | tools/pwrdaemon/router/commRespEvent.h:41-43 | One full group and one without sources: nothing is sent. |
| `Aggregation.CompletesIff` | tools/pwrdaemon/router/commRespEvent.h:88-97 | A reply completes the request if and only if it leaves every group full. |
| `Aggregation.RowsAreSums` | tools/pwrdaemon/router/commRespEvent.h:46-68 | Each value of a full group is the plain sum of its replies' values in that column, and its time stamps are those of the last reply. |
| `Aggregation.ColumnOrder` | tools/pwrdaemon/router/commRespEvent.h:56-67 | The sums do not depend on the order in which the replies arrive. |
| `Aggregation.AllErrorsKept` | tools/pwrdaemon/router/commRespEvent.h:69-83 | The three error lists stay equally long and hold every error of every full group exactly once. |
| `Protocol.SendRequests` | tools/pwrdaemon/router/commReqEvent.h:65-72 | The two loops send one request to each source of each group with that group's index, in order. |
| `Protocol.SendCreates` | tools/pwrdaemon/router/commCreateEvent.cc:21-47 | The two loops send one CommCreate to each source of each group, in order. |
| `Protocol.SendAllStep` | tools/pwrdaemon/router/commReqEvent.h:65-72 | A whole fan-out can be sent, and extends every flow by exactly its own events, in order. |
| `ProtocolInv.RequestTraffic` | tools/pwrdaemon/router/commReqEvent.h:29-74 | Opening a request: its tally is its fan-out, and no other open request is affected. |
| `ProtocolInv.ServeTraffic` | tools/pwrdaemon/server/routerEvent.h:26-42 | A server taking an event moves a request from the channels to those it holds and keeps every tally. |
| `ProtocolInv.AnswerTraffic` | tools/pwrdaemon/server/commReqEvent.h:85-103 | A server's answer turns a held request into a reply in flight and keeps every tally. |
| `ProtocolInv.CollectTraffic` | tools/pwrdaemon/router/commRespEvent.h:34-104 | A reply that arrives always finds its request open and fits it; the request stays open or is closed with nothing of it left anywhere. |
| `ProtocolInv.CommTraffic` | tools/pwrdaemon/router/commCreateEvent.cc:21-47 | CommCreates disturb no request. |
| `ProtocolInv.FromConserved` | tools/pwrdaemon/router/commRespEvent.h:41-43 | No source answers a group more often than the group names it; a full group has heard each source exactly as often. |
| `ProtocolRuns.BacklogAsk` | src/pwr/distComm.cc:47-81 | A client announces each communicator before its first request, and numbers its requests in order. |
| `ProtocolRuns.StepKeeps` | tools/pwrdaemon/router/router.cc:119-176 | Every enabled step of any client, router or server keeps the invariant of the whole system. |
| `ProtocolRuns.RunKeeps` | tools/pwrdaemon/router/router.cc:106-116 | The invariant holds in every state of every run. |
| `ProtocolAsks.NumberedAsAsked` | src/pwr/distComm.cc:64-81 | A request's number is how many requests its client has made before it in the run. |
| `ProtocolAsks.KeptAsAsked` | src/pwr/distComm.cc:47-81 | In every later state the request of an asking action, open or answered, has the operation and attributes of that action, and as its groups the members of the first action that used the communicator. |
| `ProtocolAsks.CountedAsGiven` | tools/pwrdaemon/server/commReqEvent.h:85-103 | Every reply that an answer counts was given to that very request and group at an earlier step of the run, by the source it is counted for, with that response. |
| `ProtocolTheorems.OrderedDelivery` | tools/pwrdaemon/router/router.cc:129-194 | On every run and flow, what has arrived followed by what is in flight is exactly what was sent, in order: nothing lost, doubled or overtaken, across pending queues and hops. |
| `ProtocolTheorems.CreateArrivesFirst` | src/pwr/distComm.cc:47-62 | On every flow the CommCreate of a communicator arrives before any CommReq that uses it. |
| `ProtocolTheorems.CommKnown` | tools/pwrdaemon/server/commReqEvent.h:29-40 | Whatever a server takes is addressed to it, is no reply, and a request's communicator is known to it. |
| `ProtocolTheorems.EveryStepSafe` | tools/pwrdaemon/router/commRespEvent.h:34-104 | No lookup of the routers and servers misses on any run: each enabled step finds the channel, communicator or open request that the code's assertions demand. |
| `ProtocolTheorems.Conservation` | tools/pwrdaemon/router/commReqEvent.h:29-74 | In every reachable state, for each open request, group and source: requests under way, requests held, replies under way and replies counted add up to how often the group names the source. |
| `ProtocolTheorems.PendingCounts` | tools/pwrdaemon/router/commRespEvent.h:41-97 | In every reachable state pending is the number of groups not full, no queue exceeds its group, and an open request with groups waits for at least one. |
| `ProtocolTheorems.AtMostOneAnswer` | tools/pwrdaemon/router/commRespEvent.h:88-97 | A request is answered at most once, under its own ticket, never while open, and no two open requests share a ticket. |
| `ProtocolTheorems.AnswerHeardAll` | tools/pwrdaemon/router/commRespEvent.h:41-97 | Each answer comes only after every group heard every source exactly as often as named, with rows and error lists as required. |
| `ProtocolTheorems.AnswerIsGroupSum` | tools/pwrdaemon/router/commRespEvent.h:46-68 | Told from the run's actions: the value the client reads for a group and attribute is the sum, over the names of that group in the first use of the communicator, of what each source answered to this request, whatever the interleaving. |
| `ProtocolTheorems.RestAnswersAll` | tools/pwrdaemon/router/commRespEvent.h:88-97 | When nothing is under way every asking action of the run has exactly one answer, with its operation, its attributes and the members its communicator was made with, except where these are no group or have an empty one. |
| `ProtocolLiveness.NoDeadlock` | tools/pwrdaemon/router/router.cc:178-194 | While anything is under way some busy step is enabled. |
| `ProtocolLiveness.StepWorks` | tools/pwrdaemon/router/router.cc:129-176 | Every busy step reduces the work left, under the distance table of the mesh. |
| `ProtocolLiveness.AskAnytime` | src/pwr/distComm.cc:47-81 | Any run can go on with any client asking for anything: any servers of the routers of the mesh as members, and for a read any number of sums. |
| `ProtocolLiveness.AnswerAnytime` | tools/pwrdaemon/server/commReqEvent.h:85-103 | Any run can go on with any server answering any request it holds, with any values and errors, one value and time stamp for each attribute of a read. |
| `ProtocolLiveness.ComesToRest` | tools/pwrdaemon/router/router.cc:106-116 | Every infinite continuation without new requests reaches a state with nothing under way. |
| `ProtocolLiveness.EveryRequestAnswered` | tools/pwrdaemon/router/commRespEvent.h:88-104 | After any run, once clients stop asking, in whatever order steps are made: a state is reached in which every request made has exactly one answer, a read with the sums over the members its client named; only requests whose members are no group or have an empty one have none. |
| `RouterNode.AppIdRoundTrip` | tools/pwrdaemon/router/router.h:33-35 | Packing an address into an AppID with APP_ID and unpacking it gives the address. |
| `RouterNode.IdsSpelled` | tools/pwrdaemon/router/router.h:33-35 | An AppID has the router in its high and the server in its low 32 bits, all ones for the router itself. |
| `RouterNode.IdRoundTrip` | tools/pwrdaemon/router/router.h:33-35 | Unpacking a 64-bit AppID with RTR_ID and SERVER_ID and packing it gives the AppID. |
| `RouterNode.Router.FindServerChan` | tools/pwrdaemon/router/router.cc:205-212 | The channel of a connected server, else none; the lookup leaves an empty entry in the map, and the router still represents the same channels. |
| `RouterNode.Router.FindRtrChan` | tools/pwrdaemon/router/router.cc:201-204 | The channel of the link that TreeCore chooses. |
| `RouterNode.Router.FindChan` | tools/pwrdaemon/router/router.cc:137-144 | The channel to one of its servers or to the next router, or none; what the channels hold stays the same. |
| `RouterNode.Router.Enqueue` | tools/pwrdaemon/router/router.cc:167-175 | The event goes to the end of the channel found, or of that server's pending events, and nowhere else: the send of the step machine. |
| `RouterNode.Router.SendEvent` | tools/pwrdaemon/router/router.cc:129-176 | The whole of sendEvent refines the step machine's send, or hands the router its own event. |
| `RouterNode.Router.DoPending` | tools/pwrdaemon/router/router.cc:178-194 | The loop moves all pending events of the server, in order, onto its channel and forgets the queue; its assertion fails if and only if events wait for a server without a channel. |
| `RouterNode.Router.Connect` | tools/pwrdaemon/router/router.h:108-119 | addServer and doPending for any name: which assertion fails when, and else the new channel, the map and the pending events, which are on the channel in order. |
| `RouterNode.Router.ConnectStep` | tools/pwrdaemon/router/serverEvents.h:26-34 | For a server of this router that has no channel yet, that is the connection step of the protocol's machine. |
| `RouterNode.Router.Unroutable` | tools/pwrdaemon/router/router.cc:119-127 | The exact condition under which sendEvent drops an event: the name is routed to 0xffffffff, given the 64-bit comparison; a name without a route gets 64 ones. |
| `Distribution.DistCntxt.OpenDevices` | src/pwr/distCntxt.cc:231-262 | The devices of an object are appended in order, opened on first use only. |
| `Distribution.DistCntxt.Traverse` | src/pwr/distCntxt.cc:283-339 | traverse appends exactly the devices at and below the object that no server cuts off, and the set of names where it is cut. |
| `Distribution.CutsAreFirst` | src/pwr/distCntxt.cc:283-339 | The tree is cut exactly at the objects that are the first of another server on some way down. |
| `Distribution.LocalIsHere` | src/pwr/distCntxt.cc:283-339 | A device is read here exactly when it is on some way down from the object on which no object is another server's. |
| `Distribution.SumOp` | src/pwr/distCntxt.cc:206-214 | The sum of all values: one value gives itself, and wherever the list is cut in two the result is the sum of both sums. |
| `Distribution.ReadDevices` | src/pwr/object.cc:68-115 | The code of the first device that fails, and what the buffer then holds: the sum if all succeed, else the 0 it began with. |
| `Distribution.CutConserves` | src/pwr/distCntxt.cc:283-339 | Cutting neither loses nor doubles a device: the plain sum is the local sum plus the plain sums of the subtrees cut off. |
| `Distribution.ListsArePlain` | src/pwr/distCntxt.cc:283-339 | The device lists read by the contexts on the way hold together every device of the subtree once. |
| `Distribution.ResponseIsValue` | src/pwr/object.cc:95-115 | The result is what all those lists leave in their buffers, a list with a failing device leaving 0, however the servers cut the tree. |
| `Distribution.DistributionIsSumIff` | src/pwr/object.cc:103-114 | The result is the plain sum if and only if the values in failing lists sum to zero. |
| `Distribution.FailingExample` | src/pwr/object.cc:103-108 | One failing device: 0 is answered where its value is 1. |
| `Distribution.DistributionIsSum` | src/pwr/distCntxt.cc:264-339 | With distinct names and no object that mixes devices and remote names, and no device list read on the way failing, evaluating the plan recursively through the servers gives the plain sum over the subtree, each device once. |
| `Distribution.RemoteIsValue` | src/pwr/distCntxt.cc:264-282 | What the servers answer for the remote names is what the device lists they read leave in their buffers. |
| `Distribution.MixedIsSumIff` | src/pwr/distObject.cc:37-47 | At an object that may mix the two, the result is right if and only if what is lost sums to zero: the failing local list when nothing is remote, else all local values and the failing remote lists. |
| `Distribution.ConsistentIff` | src/pwr/distCntxt.cc:283-339 | The servers' answers are determined: consistent if and only if each server answers what the lists of its own tree leave. |
| `ClientRequest.DistRequest.GetRow` | src/pwr/distRequest.cc:92-95 | The inner loop overwrites the front of one row of the caller's value and time stamp buffers and nothing else. |
| `ClientRequest.DistRequest.GetValue` | src/pwr/distRequest.cc:86-105 | A reply with values overwrites exactly its cells of values and time stamps, adds its errors with object, attribute and code in order, and closes its CommReq. |
| `ClientRequest.DistRequest.SetValue` | src/pwr/distRequest.cc:107-118 | A reply to a set adds its errors, with object, attribute and code in order, and closes its CommReq; buffers stay. |
| `ClientRequest.Serve` | src/pwr/distRequest.cc:45-46 | A reply is handed to the request it belongs to; all other requests stay as they are. |
| `ClientRequest.Wait` | src/pwr/distRequest.cc:34-53 | The loop takes the shortest run of replies that answers all of this request's CommReqs, hands each reply on the way to its own request in order, runs the callback once and returns 0, and fails with -14 if and only if the channel breaks before. |
| `ClientRequest.OpenAfter` | src/pwr/distRequest.cc:86-118 | What a request still waits for are exactly its CommReqs without a reply. |
| `ClientRequest.StatusAfter` | src/pwr/distRequest.cc:98-102 | The Status holds every error of every reply, in order of arrival. |
| `ClientRequest.LastWriter` | src/pwr/distRequest.cc:90-96 | A cell of the caller's buffer holds what the last reply that writes it brought, and what it held before if none does. |
| `ClientRequest.LastTime` | src/pwr/distRequest.cc:90-96 | So with the time stamp of the cell. |
| `ClientRequest.StillOpenIff` | src/pwr/distRequest.h:39-41 | After any number of replies a request is finished if and only if each of its CommReqs is among them. |
| `ClientRead.ClientReadsSum` | src/pwr/distRequest.cc:86-96 | After any run and any replies, the cell of the client's buffer that the answer to its request was the last to write holds the sum, over the names of the group the client asked for, of what each source answered. |
| `ServerNode.SetDevices` | src/pwr/object.cc:143-155 | The code of the first device that cannot be written. |
| `ServerNode.CodeIs` | src/pwr/object.cc:68-141 | The code of an attribute: -4 if it is neither local nor remote, else that of its first failing device, else 0. |
| `ServerNode.LocalValues` | src/pwr/object.cc:68-141 | The Status is empty if and only if every attribute succeeds, else holds the first failing attribute and its code; values are read up to that attribute and the others stay 0. |
| `ServerNode.Server.ReceiveAndProgress` | tools/pwrdaemon/server/commReqEvent.h:62-74 | A request followed by its response, if one comes: the assertion of fini fails, on a second call of requestFini, if and only if a local error meets an outstanding remote request; one answer is sent either way. |
| `ServerNode.ExclusiveNeverClash` | src/pwr/distObject.cc:37-47 | The assertions against mixed attributes and mixed communicators rule that out. |
| `ServerNode.MixedClash` | src/pwr/distObject.cc:37-47 | Without the constructor's, an attribute with a communicator and a failing device meets the condition. |
| `ServerNode.Server.InitFini` | tools/pwrdaemon/server/server.cc:77-81 | The request is entered into the map under its key with an empty Status and a blank response. |
| `ServerNode.Server.RequestFini` | tools/pwrdaemon/server/commReqEvent.h:85-103 | If the key is in the map the Status is popped into the reply in order, the reply goes back under the request's id and group, and the request leaves the map; if it is not, the assertion fails and nothing is sent. |
| `ServerNode.Server.Conclude` | tools/pwrdaemon/server/commReqEvent.h:72-74 | The callback and the return code together run requestFini once for a request that is local or failed, and not yet for one that waits. |
| `ServerNode.Server.Receive` | tools/pwrdaemon/server/routerEvent.h:26-42 | A request with attributes is answered at once, with the values read, if it is local or a local value failed, and waits if it is remote; whether values fail or mix is not restricted. |
| `ServerNode.Server.MakeProgress` | src/pwr/distCntxt.cc:401-416 | A response answers exactly the request its CommReq belongs to, with its values, its time stamps and its errors; if that request has been answered before, the assertion fails and nothing is sent. As long as no request mixes, it never does. |
| `ServerNode.AllAnswered` | tools/pwrdaemon/server/server.cc:77-105 | When the map is empty, each request ever received has exactly one answer, and requestFini ran once for it unless the assertion has failed. |
| `ServerNode.PopErrors` | tools/pwrdaemon/server/commReqEvent.h:90-98 | The loop moves all errors of the Status to the reply's three lists, in order. |
| `ServerNode.Server.ServeStep` | tools/pwrdaemon/server/routerEvent.h:26-42 | Receiving is the Serves step of the protocol's machine, followed by an enabled Answers step if the request is answered at once. |
| `ServerNode.Server.ProgressStep` | src/pwr/distCntxt.cc:401-416 | A response that is processed is an enabled Answers step of the protocol's machine. |
| `Topology.CeilIsLeast` | examples/config/machine.py:24-30 | The number of boards, and of cabinets, is the least that holds the level below. |
| `Topology.InRangeIff` | examples/config/machine.py:99-127 | calcNumChildren accepts exactly the positions of existing parents, and gives between one and a full parent's count. |
| `Topology.ChildExistsIff` | examples/config/machine.py:99-127 | A child index is below its parent's count if and only if it is below the full count and the child's own position is below the total. |
| `Topology.ChildrenAddUp` | examples/config/machine.py:99-127 | The counts of the first parents of a level add up to their children, and of all parents to the level's total. |
| `Topology.EveryLevelAddsUp` | examples/config/machine.py:24-30 | All three levels add up, for all positive sizes. |
| `Topology.PositionOfPlace` | examples/config/daemon.py:61-81 | From a node's number to cabinet, board and node index and back. |
| `Topology.PlaceOfPosition` | examples/config/machine.py:76-96 | From indices within their sizes to the position and back. |
| `Topology.AcceptedIff` | examples/config/pyConfig.py:216-253 | The triples accepted by the recursion are exactly the nodes below numNodes. |
| `Topology.EveryNodeAccepted` | examples/config/pyConfig.py:216-253 | A number is below numNodes if and only if its name is accepted. |
| `Names.NumberOfDecimal` | examples/config/machine.py:58-73 | The digits written for a number read as the number. |
| `Names.DecimalDigits` | examples/config/machine.py:130-154 | How numbers are written: a digit by itself, and one more digit behind a number times ten. |
| `Names.AtoiOfDecimal` | tools/pwrdaemon/router/router.cc:98-99 | atoi reads a number up to the first character that is no digit. |
| `Names.SplitAppend` | examples/config/machine.py:58-73 | Splitting a name with one more part gives the parts and that part. |
| `Names.NodeReads` | examples/config/machine.py:58-73 | Splitting the text of a node's name and reading its parts gives back its types and indices. |
| `Names.NodeNamesDiffer` | examples/config/daemon.py:73-82 | Different nodes have different names. |
| `Names.NamesSpelled` | examples/config/machine.py:130-154 | The names of cabinets, boards and nodes, letter by letter. |
| `Names.CalcTypePos` | examples/config/machine.py:76-96 | The accumulating loop is the weighted sum over the parts before the wanted type. |
| `Names.NodeTypePos` | examples/config/machine.py:76-96 | calcTypePos of the text of a node's name, plus its number, is the node's linear position. |
| `Names.CalcNumChildren` | examples/config/machine.py:99-127 | From the text of any name of known types: the position by calcTypePos, and its full, partial, rejected or missing children. |
| `Names.NodeChildren` | examples/config/machine.py:99-127 | For the text of a node's name that is 0. |
| `Names.BoardChildren` | examples/config/machine.py:99-127 | For the text of a board's name that is the count of the board at its linear position. |
| `Names.CheckNodeName` | examples/config/pyConfig.py:216-253 | _checkName accepts the text of a node's name if and only if the node is one of the machine's. |
| `RouteTable.GenRouteFile` | examples/config/machine.py:130-154 | The nested loops write exactly one line for each board and each node below numNodes, boards before their nodes. |
| `RouteTable.FileSpelled` | examples/config/machine.py:130-154 | A line is the name, the router and the server, with colons between them and a line feed behind. |
| `RouteTable.RowPlaces` | examples/config/machine.py:130-154 | On which line each board and each node is: a board's line stands before those of its nodes, and there is no other line. |
| `RouteTable.GenBoard` | examples/config/machine.py:136-152 | One board's lines, with server numbers counted from 0. |
| `RouteTable.LineRoundTrip` | tools/pwrdaemon/router/router.cc:93-102 | The parser reads a written line back, although it cuts the middle field too long. |
| `RouteTable.InitRouteTable` | tools/pwrdaemon/router/router.cc:82-104 | The reading loop enters every complete line of the text, in order. |
| `RouteTable.FileRoundTrip` | tools/pwrdaemon/router/router.cc:82-104 | Parsing a written file gives the map of its lines. |
| `RouteTable.RouteOfRow` | examples/config/machine.py:130-154 | Parsed from the generated file, node n is server n mod nodesPerBoard + 1 of router n / nodesPerBoard, and each board is server 0 of its router. |
| `RouteTable.RoutedIsRow` | examples/config/machine.py:130-154 | No other name is routed. |
| `RouteTable.RoutesDistinct` | examples/config/machine.py:130-154 | No two names share an AppID. |
| `DaemonLayout.CalcRtrRoot` | examples/config/daemon.py:16-36 | The loop gives the root one link to each board router, with its ports and host, carrying exactly that id. |
| `DaemonLayout.RoutersStarted` | examples/config/daemon.py:84-118 | Each node that runs a router runs one of the mesh, and no two run the same. |
| `DaemonLayout.RouterRuns` | examples/config/daemon.py:84-118 | Each router of the mesh is run by a node, with as many links as the mesh says. |
| `DaemonLayout.LinksMeet` | examples/config/daemon.py:16-58 | Hosts and ports at both ends of every link agree, and the ranges are those of the mesh. |
| `DaemonLayout.LayoutFollowsTree` | examples/config/daemon.py:16-58 | The links follow a tree, so everything proved of runs over trees holds for this layout. |
| `DaemonLayout.TwoHops` | examples/config/daemon.py:93-118 | Any router reaches any other directly or through the root alone. |
| `DaemonLayout.ServerMeetsRoute` | examples/config/daemon.py:120-144 | A node's server is told to connect to the very router that the generated route file gives for the name the server announces. |
| `DaemonLayout.RoutersExistIff` | examples/config/daemon.py:93-118 | Every router the route file names is started if and only if a board has at least two nodes. |
| `Serialization.SerialBuf.Out` | src/pwr/serialize.h:92-97 | The low bytes are pushed, lowest first. |
| `Serialization.SerialBuf.In` | src/pwr/serialize.h:112-120 | Bytes are popped and put together, and the rest of the buffer is untouched. |
| `Serialization.SerialBuf.Put` | src/pwr/serialize.h:26-97 | Numbers, strings and nested vectors are pushed behind what was there. |
| `Serialization.SerialBuf.Get` | src/pwr/serialize.h:26-120 | Reading a shape back gives the value last written and leaves the buffer as before. |
| `Serialization.LittleRoundTrip` | src/pwr/serialize.h:92-120 | The bytes of a number read as the number. |
| `Serialization.SignedRoundTrip` | src/pwr/serialize.h:75-103 | Negative numbers survive the cast to bytes and back. |
| `Serialization.EncodeUnique` | src/pwr/serialize.h:26-120 | Bytes written for a shape can be read in one way only, whatever lies below them. |
| `Events.SerializeOut` | src/pwr/events.h:24-285 | Every event type writes its base's part and then its own. |
| `Events.SerializeIn` | src/pwr/events.h:24-285 | For every event type and starting buffer, reading undoes writing: event and buffer are as before. |
| `Events.TypedRoundTrip` | src/pwr/serialize.h:26-120 | A C++ value of any field type writes what its reader expects and reads as itself. |
| `Events.Wrap` | tools/pwrdaemon/router/routerEvent.h:23-28 | A new RouterEvent carries the event it was made from. |
| `Events.GetPayload` | tools/pwrdaemon/router/routerEvent.h:39-41 | The payload of a RouterEvent that carries an event is that event. |
| `Events.Travel` | tools/pwrdaemon/router/routerEvent.h:48-62 | Serialized and read again over any number of hops, a RouterEvent is the same. |
| `Events.Delivered` | tools/pwrdaemon/router/routerEvent.h:23-62 | Wrapped, forwarded over any number of hops and unwrapped, every event is the same. |
| `Events.WireInjective` | src/pwr/events.h:24-285 | Two events of a type with the same bytes are the same event. |
| `WireLayout.WireIsLayout` | src/pwr/events.h:24-285 | The bytes of every event, field by field in their order: numbers lowest byte first in their widths, vectors and strings with their length behind them. |
| `WireLayout.InRangeIff` | src/pwr/events.h:24-285 | The events that reading undoes are exactly those whose numbers fit their fields and whose vectors and strings have fewer than 2^32 elements, with the bounds written out for each event type. |
| `WireLayout.EventTypes` | src/pwr/events.h:24-285 | The numbers of the event types, from 1 to 10. |
| `CharRef.SummedModWord` | src/tinyxml2/tinyxml2.cpp:330-405 | The right-to-left digit loops agree with the number written modulo 32 bits, for any length. |
| `CharRef.DecimalExact` | src/tinyxml2/tinyxml2.cpp:366-396 | Up to nine decimal digits read as the number they write. |
| `CharRef.HexExact` | src/tinyxml2/tinyxml2.cpp:338-365 | Hexadecimal digits read as their number, on 32 bits. |
| `CharRef.DigitTable` | src/tinyxml2/tinyxml2.cpp:338-396 | The digits 0 to 9, a to f and A to F and their values. |
| `CharRef.NumberMore` | src/tinyxml2/tinyxml2.cpp:330-405 | The number that digits write: one more digit is the base times the number so far, plus that digit. |
| `CharRef.ConvertUTF32ToUTF8` | src/tinyxml2/tinyxml2.cpp:282-327 | Filling the bytes from the last gives the encoding of section 3 of RFC 3629. |
| `CharRef.Utf8RoundTrip` | src/tinyxml2/tinyxml2.cpp:282-327 | The bytes of a code point decode to it, whatever follows. |
| `CharRef.Utf8Injective` | src/tinyxml2/tinyxml2.cpp:282-327 | No code point's bytes equal or begin another's. |
| `CharRef.Utf8Examples` | src/tinyxml2/tinyxml2.cpp:282-327 | The bytes of four characters of one to four bytes. |
| `XmlText.GetCharacterRef` | src/tinyxml2/tinyxml2.cpp:330-405 | Finding the semicolon and summing digits from the right gives the reference; the next rows say which one. |
| `XmlText.DecimalReference` | src/tinyxml2/tinyxml2.cpp:366-396 | "&#", up to nine decimal digits and a semicolon, whatever follows: all of it is taken, and gives the character of the number they write. |
| `XmlText.HexReference` | src/tinyxml2/tinyxml2.cpp:338-365 | "&#x", hexadecimal digits and a semicolon, whatever follows: all of it is taken, and gives the character of the number they write, on 32 bits. |
| `XmlText.RefusedIff` | src/tinyxml2/tinyxml2.cpp:330-405 | A reference is refused exactly when there is no semicolon, or some character between its last mark and the first semicolon is no digit of its base. |
| `XmlText.GetStr` | src/tinyxml2/tinyxml2.cpp:178-260 | Decoding in place over the array gives the specified text, never longer than the raw one, ends it with NUL, and touches nothing outside. |
| `XmlText.EntityRounds` | src/tinyxml2/tinyxml2.cpp:222-251 | Each of the five entities at the read position, what is taken for it and the character written. |
| `XmlText.BreakRounds` | src/tinyxml2/tinyxml2.cpp:194-218 | Each of the four line ends at the read position, what is taken for it and the one line feed written. |
| `XmlText.DecodesRightIff` | src/tinyxml2/tinyxml2.cpp:178-260 | In-place decoding gives what a plain functional decode gives if and only if each ampersand that begins no entity finds an ampersand at the write position. |
| `XmlText.TextDecodesIff` | src/tinyxml2/tinyxml2.cpp:178-260 | For a whole text: if and only if the text has an ampersand at each index where a stray ampersand goes, which is behind what the characters, entities and references before it decode to. |
| `XmlText.KeptLengthDecodes` | src/tinyxml2/tinyxml2.cpp:178-260 | So it does whenever no entity, reference or double line end stands in the text, however many stray ampersands do. |
| `XmlText.WellFormedDecodes` | src/tinyxml2/tinyxml2.cpp:178-260 | With well-formed references it always does. |
| `XmlText.StaleExample` | src/tinyxml2/tinyxml2.cpp:239-251 | An input whose second ampersand comes out as another character. |
| `XmlText.PrintString` | src/tinyxml2/tinyxml2.cpp:1885-1920 | The run-flushing loop writes each character or its entity. |
| `XmlText.EscapeSpelled` | src/tinyxml2/tinyxml2.cpp:1885-1920 | What is written for each further character, with quotes and apostrophes as entities in attribute values only. |
| `XmlText.NormIsSameIff` | src/tinyxml2/tinyxml2.cpp:194-218 | Normalising line ends leaves no CR, and changes a value if and only if it holds one. |
| `XmlText.NormTable` | src/tinyxml2/tinyxml2.cpp:194-218 | How the front of a value is normalised: a pair of different line ends is one line feed, any other line end one by itself. |
| `XmlText.EscapedIsSafe` | src/tinyxml2/tinyxml2.cpp:1885-1920 | Written values hold no quote or bracket, so ParseText stops exactly at the closing quote. |
| `XmlText.ValueRoundTrip` | src/tinyxml2/tinyxml2.cpp:178-260 | Decoding in place what PrintString wrote gives any NUL-free value with its line ends normalised, whatever entities it needed. |
| `XmlText.ValueRoundTripIff` | src/tinyxml2/tinyxml2.cpp:178-260 | That is the value itself if and only if it holds no CR. |
| `XmlDoc.SkipWhiteSpace` | src/tinyxml2/tinyxml2.h:489-500 | The loop stops at the first character that is no white space. |
| `XmlDoc.ReadName` | src/tinyxml2/tinyxml2.cpp:131-148 | The longest name at the position, or none. |
| `XmlDoc.CharTable` | src/tinyxml2/tinyxml2.h:486-516 | The codes of white space, and of the characters that begin and continue names. |
| `XmlDoc.ReadText` | src/tinyxml2/tinyxml2.cpp:111-128 | The text before the first end tag and what follows it, or none. |
| `XmlDoc.ReadAttr` | src/tinyxml2/tinyxml2.cpp:1076-1101 | One attribute, or the error. |
| `XmlDoc.AttrForms` | src/tinyxml2/tinyxml2.cpp:1076-1101 | White space on both sides of the equals sign and either kind of quote: the attribute is the name with the decoded text up to the same quote. |
| `XmlDoc.FindAttribute` | src/tinyxml2/tinyxml2.cpp:1217-1226 | Whether a name is among the attributes. |
| `XmlDoc.ReadAttributes` | src/tinyxml2/tinyxml2.cpp:1426-1480 | The attribute loop, with its ends and errors. |
| `XmlDoc.ReadElement` | src/tinyxml2/tinyxml2.cpp:1487-1515 | An element, an end tag or an error. |
| `XmlDoc.ClosedByName` | src/tinyxml2/tinyxml2.cpp:1487-1515 | An element is read up to an end tag of its own name or its own slash; with another end tag, or none, it fails. |
| `XmlDoc.ReadLevel` | src/tinyxml2/tinyxml2.cpp:795-871 | The sibling loop over elements: children in order, the end tag handed to the parent, mismatches and nodes of other kinds as errors. |
| `XmlDoc.ReadDocument` | src/tinyxml2/tinyxml2.cpp:1756-1779 | White space, then a byte order mark, are skipped, and what is left is the document's own level; with nothing left, or an error in it, the parse fails. |
| `XmlDoc.NoDocument` | src/tinyxml2/tinyxml2.cpp:1756-1779 | An empty text, and one that begins with anything but a bracket, is an error, with or without white space and a byte order mark before it. |
| `XmlDoc.BomSkipped` | src/tinyxml2/tinyxml2.cpp:267-279 | White space and a byte order mark before a document change nothing. |
| `XmlDoc.StrayEnd` | src/tinyxml2/tinyxml2.cpp:795-871 | An end tag on the document's own level ends the parse without an error, whatever follows. |
| `XmlDoc.ElementReads` | src/tinyxml2/tinyxml2.cpp:795-871 | A printed element reads as itself with line ends normalised, its closing tag as its own, whatever follows. |
| `XmlDoc.KidsRead` | src/tinyxml2/tinyxml2.cpp:795-871 | Printed children read as the children, in order, up to the parent's closing tag. |
| `XmlDoc.ParseUndoesPrint` | src/tinyxml2/tinyxml2.cpp:795-871 | Parsing the printed document, pretty or compact, gives back the same tree with the line ends of its values normalised: for legal names, distinct attribute names and values without NUL. |
| `XmlDoc.ParseUndoesPrintIff` | src/tinyxml2/tinyxml2.cpp:795-871 | That is the very same tree if and only if no value in it holds a CR. |
| `XmlDoc.ParsedElement` | src/tinyxml2/tinyxml2.cpp:1426-1515 | Whatever text is parsed as elements, each of them has a legal name, and legal and distinct attribute names, at every depth; text, comment, CDATA and other nodes end the parse, and a value with a NUL or a malformed reference counts as empty. |
| `XmlDoc.ReparseSettles` | src/tinyxml2/tinyxml2.cpp:795-871 | Any document of elements that was parsed can be printed and parsed again; one round normalises line ends and after that nothing changes. Other nodes, and values with a NUL, are outside it. |
| `XmlDoc.XMLPrinter.OpenElement` | src/tinyxml2/tinyxml2.cpp:1935-1953 | What opening writes, and the new stack, depth and flags. |
| `XmlDoc.XMLPrinter.PushAttribute` | src/tinyxml2/tinyxml2.cpp:1956-1962 | One escaped attribute is written. |
| `XmlDoc.XMLPrinter.SealElement` | src/tinyxml2/tinyxml2.cpp:2023-2027 | The open tag is closed. |
| `XmlDoc.XMLPrinter.CloseElement` | src/tinyxml2/tinyxml2.cpp:1997-2020 | What closing writes for the name on the stack, and the new state. |
| `XmlDoc.XMLPrinter.VisitEnter` | src/tinyxml2/tinyxml2.cpp:2139-2149 | A tag with all its attributes. |
| `XmlDoc.XMLPrinter.Accept` | src/tinyxml2/tinyxml2.cpp:1557-1566 | Visiting an element writes its text and restores stack and depth. |
| `XmlDoc.XMLPrinter.PrintDocument` | src/tinyxml2/tinyxml2.cpp:1785-1792 | The printer's state machine writes exactly the document's text. |
| `XmlDoc.LeadSpelled` | src/tinyxml2/tinyxml2.cpp:1877-1882 | What stands before an element: nothing in compact mode, else a line feed, unless it is the first, and four blanks for each level. |
| `XmlDoc.DocExample` | src/tinyxml2/tinyxml2.cpp:1935-2020 | A small document letter by letter, on lines and compact. |
| `XmlDoc.PrintAndParse` | src/tinyxml2/tinyxml2.cpp:795-871 | The printer's code followed by the parser's code gives back the document. |
| `SiblingList.Unlink` | src/tinyxml2/tinyxml2.cpp:624-640 | The chain, forwards and backwards, is the old one without the child; only the neighbours and the ends change. |
| `SiblingList.LinkLast` | src/tinyxml2/tinyxml2.cpp:650-679 | The chain is the old one with the node at its end. |
| `SiblingList.LinkFirst` | src/tinyxml2/tinyxml2.cpp:681-710 | The chain is the old one with the node at its front. |
| `SiblingList.XMLDocument.Detach` | src/tinyxml2/tinyxml2.cpp:624-640 | The child leaves its parent's children; all chains of the document stay right. |
| `SiblingList.XMLDocument.InsertEndChild` | src/tinyxml2/tinyxml2.cpp:650-679 | The node leaves where it was and becomes the last child. |
| `SiblingList.XMLDocument.InsertFirstChild` | src/tinyxml2/tinyxml2.cpp:681-710 | The node leaves where it was and becomes the first child. |
| `SiblingList.XMLDocument.DeleteChildren` | src/tinyxml2/tinyxml2.cpp:612-621 | What is below the node goes, all other nodes keep children and parent, and no pointer to a deleted node is left. |
| `SiblingList.XMLDocument.DeleteNode` | src/tinyxml2/tinyxml2.cpp:588-594 | The same for a node's destructor. |
| `SiblingList.XMLDocument.ReadsBothWays` | src/tinyxml2/tinyxml2.cpp:612-710 | Walking forwards and backwards meets the same children in opposite order and ends. |
| `SiblingList.XMLDocument.ParentsAgree` | src/tinyxml2/tinyxml2.cpp:612-710 | Each child's parent is the node whose chain holds it, so it is in one chain only. |
| `MemPool.MemPoolT.constructor` | src/tinyxml2/tinyxml2.h:327-327 | An empty pool: no blocks, an empty free list, nothing allocated. |
| `MemPool.MemPoolT.NewBlock` | src/tinyxml2/tinyxml2.h:342-356 | A new block's chunks are distinct and linked in order. |
| `MemPool.MemPoolT.Alloc` | src/tinyxml2/tinyxml2.h:342-364 | A chunk that is not in use: the free list's head, or the first of a new block. |
| `MemPool.MemPoolT.Free` | src/tinyxml2/tinyxml2.h:365-376 | The chunk becomes the head of the free list. |
| `MemPool.MemPoolT.FreeListEnds` | src/tinyxml2/tinyxml2.h:342-376 | The free list is acyclic and disjoint from what is allocated, and both together are exactly the chunks of all blocks, COUNT to a block. |
| `Hwloc.ReorderObjects` | src/pwr/hwlocConfig.cc:158-177 | On the mutable tree the method hoists exactly as specified: the returned nodes, and children and parent pointers of the rest consistent. |
| `Hwloc.HoistedChildren` | src/pwr/hwlocConfig.cc:158-177 | At every object but a memory object the children stay in place, each treated the same, and what stood below those of them that are memory objects follows in order, unchanged; a memory object keeps no children. |
| `Hwloc.HoistKeepsBag` | src/pwr/hwlocConfig.cc:158-177 | No node is lost, made or doubled: what is left and what is handed over hold each node as often as before. |
| `Hwloc.HoistSeparate` | src/pwr/hwlocConfig.cc:158-177 | If no node occurs twice before, none does afterwards, and the two parts are apart. |
| `Hwloc.MemLeavesIff` | src/pwr/hwlocConfig.cc:158-177 | All memory objects end as leaves if and only if none with children lay below another. |
| `Hwloc.NestedMemExample` | src/pwr/hwlocConfig.cc:161-165 | A memory object inside a memory object keeps its children. |
| `Hwloc.IsSupported` | src/pwr/hwlocConfig.cc:201-223 | A node is supported if some plugin supports its kind for some attribute or it has children left; the assertion holds where no two plugins support the same attribute of that kind. |
| `Hwloc.PruneObjects` | src/pwr/hwlocConfig.cc:180-199 | On the mutable tree the erasing loop leaves exactly the specified tree, where no plugins clash on the kind of a node of the tree. |
| `Hwloc.PruneLeaves` | src/pwr/hwlocConfig.cc:180-199 | What is left, in order, is the root and exactly the nodes below it with a supported node at or below them. |
| `Hwloc.AliveIff` | src/pwr/hwlocConfig.cc:180-223 | A tree counts as supported exactly when some plugin supports the kind of some node of it in some attribute. |
| `Hwloc.ReorderAndPrune` | src/pwr/hwlocConfig.cc:83-93 | The two passes in sequence: hoisting leaves a tree that pruning takes, and the result is the root and exactly the nodes of the hoisted tree with a supported node at or below them. |
| `Flatten.FlattenKids` | tools/pwrgen.cc:61-82 | The recursion appends the subtree's preorder, each entry with its full name and its children's labels as snprintf cuts them, for names of any length. |
| `Flatten.EntriesInOrder` | tools/pwrgen.cc:61-82 | One entry for each object of the subtree, each before those below it, with its children's labels. |
| `Flatten.FlatExample` | tools/pwrgen.cc:61-82 | A node with two cores, with all names as they are written. |
| `Flatten.FindObject` | src/pwr/xmlConfig.cc:356-376 | The first entry of that name, or none. |
| `Flatten.FindChildren` | src/pwr/xmlConfig.cc:253-278 | The full names of an entry's children, in order. |
| `Flatten.FlatDistinct` | tools/pwrgen.cc:61-82 | If brothers have different labels at every depth and cutting does no harm, the full names of the subtree are pairwise distinct. |
| `Flatten.FileDistinct` | tools/pwrgen.cc:61-82 | For a whole file: its names are pairwise distinct if and only if brothers have different labels at every depth, the cut leaves their names different, and nothing is below a name that fills its buffer. |
| `Flatten.FittingDistinct` | tools/pwrgen.cc:61-82 | Where no name is cut: if and only if brothers have different labels at every depth. |
| `Flatten.NestedDistinctIff` | tools/pwrgen.cc:71-73 | Cores in one another: all names are different if and only if there are at most 42; the 43rd has its parent's name. |
| `Flatten.Translate` | tools/pwrgen.cc:26-58 | The recursion threads its index through the objects it leaves out, goes down into them, and appends the translation that the next rows describe. |
| `Flatten.TransKeeps` | tools/pwrgen.cc:26-58 | The new tree holds exactly the machines, sockets and cores of hwloc's tree, in the same order, as nodes, sockets and cores, each below its nearest ancestor of the three kinds. |
| `Flatten.TransGood` | tools/pwrgen.cc:26-58 | The children of one parent are numbered index, index + 1 and so on through all objects left out between them, at every depth, so their labels differ. |
| `Flatten.DeepClone` | tools/pwrgen.cc:85-94 | The copy is the same tree. |
| `Flatten.Duplicate` | tools/pwrgen.cc:97-105 | Copies of the first object, with its name and children and numbered 1 to nodecount - 1, are appended in order; with nothing to copy it fails. |
| `Flatten.DuplicatedGoodIff` | tools/pwrgen.cc:97-105 | Brothers have different labels afterwards if and only if no object but the first has its type and the number of a copy. |
| `Flatten.IndicesApartIff` | tools/pwrgen.cc:97-105 | Their numbers alone are different if and only if nodecount < 2 or there is exactly one object. |
| `Flatten.Generate` | tools/pwrgen.cc:157-166 | The three passes one after the other write the flat list of the duplicated translation. |
| `Flatten.GeneratedDistinctIff` | tools/pwrgen.cc:164-166 | The names in a generated file are pairwise distinct if and only if no object but the first has its type and the number of a copy, and cutting does no harm. |
| `Flatten.MachinesDistinctIff` | tools/pwrgen.cc:164-166 | With machines on top that is: if and only if nodecount < 2 or there is exactly one machine, and cutting does no harm, which it never does where the names fit. |
| `Flatten.TwoMachinesClash` | tools/pwrgen.cc:97-105 | Two machines and one copy: two objects get one name. |
| `Flatten.GeneratedRecovered` | tools/pwrgen.cc:157-166 | In every generated file with distinct names each object's ordered children and their parent are found again; a child's name is the one in the file if and only if that was not cut. |
| `Flatten.EntriesAreObjects` | tools/pwrgen.cc:61-82 | An entry is in the list if and only if an object of the tree has that full name and those children. |
| `Flatten.ChildrenRecovered` | src/pwr/xmlConfig.cc:253-278 | Looking an object up by name gives one name for each of its children, in order, with the object as parent: the child's name in the list if and only if that was not cut. |
| `Flatten.ParentRecovered` | src/pwr/xmlConfig.cc:378-386 | Cutting a listed name at its last dot gives the parent's name if and only if that does not fill its buffer. |

## Left out

- Hardware plugins, sockets and select, MPI launch, getopt, loggers, the C and Python interfaces and command-line tools: I/O; channels are FIFO sequences, configuration is a tree.
- Lifetime of event objects: events are values. A queued RouterEvent that its caller deletes is not seen here.
- Disconnects: delServer always erases key 0; runs are without them.
- Names without a route inside the protocol: its runs use names of the table. What the router does with others is `RouterNode.Router.Unroutable`.
- RouterNode.Router.ConnectStep: speaks of a server that has no channel yet; what reconnecting does is in Connect, but is no step of the protocol's machine.
- TorusCore, log and get-samples requests in the protocol: single-source copies of the main path; the log and sample events are in the wire format.
- Floating-point rounding: values are reals. Operations other than the floating-point sum are excluded by the router's assertion.
- Groups that mix local and remote objects.
- ClientRequest.Wait: the buffers of different requests are taken to be apart, and error names to be found in the context.
- ServerNode.Server.Receive: codes of local errors are collected in a Status of their own, as in the code, so the reply that is sent does not carry them; requests without attributes are not modelled, nor are the time stamps of values a server reads itself.
- ServerNode.Server.MakeProgress: a second requestFini reads an event that has been deleted on its way to the assertion, which the model does not see; and a new event is taken not to get the address of a deleted one while a response for that is still to come.
- Two links of a router to the same peer share one FIFO channel.
- The host and port text parsed by initTreeInfo; the layout's links are compared as records.
- atoi for white space, signs and overflow: only text the scripts write is read.
- `_checkName` on names of another shape than the machine's, such as a single part.
- XmlText.GetStr: without the white-space collapsing flag, which no attribute value has.
- XmlDoc.ReadAttr: with entity processing on, as it is by default.
- XmlDoc.ReadLevel: text, CDATA, comments, declarations and unknown nodes end the parse as an error.
- XmlDoc.ParsedElement: speaks of texts of elements only, as other nodes end the parse.
- XmlDoc.ReparseSettles: speaks of documents of elements only, as other nodes end the parse.
- The byte order mark written again for a document that was read with one.
- The kind of an XML parse error beyond its being one; InsertAfterChild.
- MemPool chunks larger than a block's 4096 bytes; chunks are objects, not bytes.
- Reading hwloc's file in pwrgen, whose object tree is given, and xmlConfig's setLocations.
- Hwloc detection of the machine, the attributes it sets and the extra objects of configureTX2 between the two passes; the tree is given.
- Strings and vectors of 2^32 elements or more in SerialBuf.
