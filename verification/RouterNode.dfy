/** The router's own code: Router::sendEvent, doPending and addServer over its channel
    tables, proved to be the sending and draining of module Fabric. */
module RouterNode {
  import opened Routing
  import opened Fabric

  // ---------------------------------------------------------------- AppIDs

  const WORD: nat := 0x1_0000_0000
  /** (unsigned) -1 as a server id: the router itself. */
  const SELF: nat := 0xffff_ffff
  /** findRoute's AppID of a name that is not in the table: -1 in 64 bits. */
  const MISSING: nat := 0xffff_ffff_ffff_ffff

  /** APP_ID. */
  function AppId(rtr: nat, srv: nat): nat { rtr * WORD + srv }

  function RtrId(x: nat): nat { x / WORD }

  function ServerId(x: nat): nat { x % WORD }

  function AddrOf(x: nat): Addr { if ServerId(x) == SELF then RouterAt(RtrId(x)) else ServerAt(RtrId(x), ServerId(x)) }

  function IdOf(a: Addr): nat {
    match a case ServerAt(r, s) => AppId(r, s) case RouterAt(r) => AppId(r, SELF)
  }

  ghost predicate Addressable(a: Addr) { a.rtr < WORD && (a.ServerAt? ==> a.srv < SELF) }

  lemma AppIdParts(rtr: nat, srv: nat)
    requires srv < WORD
    ensures RtrId(AppId(rtr, srv)) == rtr && ServerId(AppId(rtr, srv)) == srv
  {
    assert (rtr * WORD + srv) / WORD == rtr;
  }

  /** The router's number in the high 32 bits, the server's in the low ones, all ones for the
      router itself. */
  lemma IdsSpelled(r: nat, s: nat)
    ensures IdOf(ServerAt(r, s)) == r * 0x1_0000_0000 + s && IdOf(RouterAt(r)) == r * 0x1_0000_0000 + 0xffff_ffff
  {}

  /** Addresses and AppIDs name the same things. */
  lemma AppIdRoundTrip(a: Addr)
    requires Addressable(a)
    ensures IdOf(a) < WORD * WORD && AddrOf(IdOf(a)) == a
  {
    match a case ServerAt(r, s) => AppIdParts(r, s); case RouterAt(r) => AppIdParts(r, SELF);
  }

  lemma IdRoundTrip(x: nat)
    requires x < WORD * WORD
    ensures Addressable(AddrOf(x)) && IdOf(AddrOf(x)) == x
  {}

  lemma DestIs(dest: nat, id: nat)
    requires dest < WORD * WORD
    ensures ServerId(dest) <= SELF
    ensures AddrOf(dest) == if ServerId(dest) == SELF then RouterAt(RtrId(dest)) else ServerAt(RtrId(dest), ServerId(dest))
  {}

  // -------------------------------------------------------------- the router

  lemma DrainOn<B>(q: Queues<B>, s: Addr)
    ensures On(Drain(q, s), Pend(s)) == [] && On(Drain(q, s), Down(s)) == On(q, Down(s)) + On(q, Pend(s))
    ensures forall c :: c != Pend(s) && c != Down(s) ==> On(Drain(q, s), c) == On(q, c)
  {}

  class EventChannel<B> {
    var queue: seq<Packet<B>>

    constructor ()
      ensures queue == []
    {
      queue := [];
    }

    method SendEvent(p: Packet<B>)
      modifies this
      ensures queue == old(queue) + [p]
    {
      queue := queue + [p];
    }
  }

  /** ev->type: a Router2Router event, or an event of the router's own that sendEvent wraps. */
  datatype Event<B> = Own(body: B) | Routed(packet: Packet<B>)

  class Router<B(!new)> {
    const id: nat
    const links: seq<Link>
    const rtrLinks: seq<EventChannel<B>>
    var routeTable: map<string, nat>
    var localMap: map<nat, EventChannel?<B>>
    var pendingEvents: map<nat, seq<Packet<B>>>
    /** The payloads handed to process( this ). */
    var processed: seq<B>

    /** The channel of a connected server. */
    ghost predicate Joined(s: nat)
      reads this`localMap
    {
      s in localMap && localMap[s] != null
    }

    ghost function Channels(): set<EventChannel<B>>
      reads this`localMap
    {
      (set i | 0 <= i < |rtrLinks| :: rtrLinks[i]) + (set s | s in localMap && localMap[s] != null :: localMap[s])
    }

    ghost predicate Valid()
      reads this`localMap
    {
      && id < WORD && |rtrLinks| == |links|
      && (forall i, j :: 0 <= i < j < |links| ==> rtrLinks[i] != rtrLinks[j] && links[i].peer != links[j].peer)
      && Apart(localMap)
    }

    /** All channels are different. */
    ghost predicate Apart(m: map<nat, EventChannel?<B>>) {
      && (forall s :: s in m && m[s] != null ==> s < SELF)
      && (forall s, t :: s in m && t in m && m[s] != null && s != t ==> m[s] != m[t])
      && (forall s, i :: s in m && 0 <= i < |rtrLinks| ==> m[s] != rtrLinks[i])
    }

    lemma ApartMore(m: map<nat, EventChannel?<B>>, srv: nat, ec: EventChannel?<B>)
      requires Apart(m)
      requires ec != null ==> srv < SELF && (forall s :: s in m && s != srv ==> m[s] != ec) && forall i :: 0 <= i < |rtrLinks| ==> rtrLinks[i] != ec
      ensures Apart(m[srv := ec])
    {}

    ghost function Waiting(s: nat): seq<Packet<B>>
      reads this`pendingEvents
    {
      if s in pendingEvents then pendingEvents[s] else []
    }

    /** The router's channels hold what q says of them, and up names its connected servers. */
    ghost predicate Holds(q: Queues<B>, up: set<Addr>)
      requires Valid()
      reads this`localMap, this`pendingEvents, Channels()
    {
      LinksHold(q) && ServersHold(q) && PendingHold(q) && forall s: nat :: ServerAt(id, s) in up <==> Joined(s)
    }

    ghost predicate LinksHold(q: Queues<B>)
      requires |rtrLinks| == |links|
      reads this`localMap, Channels()
    {
      forall i :: 0 <= i < |links| ==> On(q, Wire(id, links[i].peer)) == rtrLinks[i].queue
    }

    ghost predicate ServersHold(q: Queues<B>)
      reads this`localMap, Channels()
    {
      forall s: nat :: Joined(s) ==> On(q, Down(ServerAt(id, s))) == localMap[s].queue
    }

    ghost predicate PendingHold(q: Queues<B>)
      reads this`pendingEvents
    {
      forall s: nat :: s < SELF ==> On(q, Pend(ServerAt(id, s))) == Waiting(s)
    }

    /** Router::findServerChan: looking a server up leaves a NULL entry for it. */
    method FindServerChan(srv: nat, ghost q: Queues<B>, ghost up: set<Addr>) returns (ec: EventChannel?<B>)
      requires Valid() && Holds(q, up)
      modifies this`localMap
      ensures ec == if srv != SELF && srv in old(localMap) then old(localMap)[srv] else null
      ensures localMap == if srv == SELF || srv in old(localMap) then old(localMap) else old(localMap)[srv := null]
      ensures Valid() && Holds(q, up)
    {
      if srv == SELF { return null; }
      if srv !in localMap {
        ApartMore(localMap, srv, null);
        localMap := localMap[srv := null];
        assert forall s: nat :: Joined(s) <==> old(Joined(s));
      }
      return localMap[srv];
    }

    /** Router::findRtrChan through TreeCore::getChannel. */
    method FindRtrChan(rtr: nat) returns (ec: EventChannel<B>)
      requires Valid() && links != []
      ensures ec == rtrLinks[Choose(links, rtr, 1)]
    {
      var k := GetChannel(links, rtr);
      return rtrLinks[k];
    }

    /** ec->sendEvent on the link to the next router. */
    method SendOnLink(k: nat, p: Packet<B>, ghost q: Queues<B>, ghost up: set<Addr>)
      requires Valid() && Holds(q, up) && k < |links|
      modifies rtrLinks[k]
      ensures rtrLinks[k].queue == old(rtrLinks[k].queue) + [p]
      ensures Valid() && Holds(Append(q, Wire(id, links[k].peer), p), up)
    {
      rtrLinks[k].SendEvent(p);
    }

    /** ec->sendEvent to a connected server. */
    method SendToServer(srv: nat, p: Packet<B>, ghost q: Queues<B>, ghost up: set<Addr>)
      requires Valid() && Holds(q, up) && Joined(srv)
      modifies localMap[srv]
      ensures Valid() && Holds(Append(q, Down(ServerAt(id, srv)), p), up)
      ensures localMap[srv].queue == old(localMap[srv].queue) + [p]
    {
      localMap[srv].SendEvent(p);
    }

    /** m_pendingEvents[srvrID].push_back( ev ). */
    method PushPending(srv: nat, p: Packet<B>, ghost q: Queues<B>, ghost up: set<Addr>)
      requires Valid() && Holds(q, up)
      modifies this`pendingEvents
      ensures Valid() && Holds(if srv < SELF then Append(q, Pend(ServerAt(id, srv)), p) else q, up)
      ensures pendingEvents == old(pendingEvents)[srv := old(Waiting(srv)) + [p]]
    {
      pendingEvents := pendingEvents[srv := (if srv in pendingEvents then pendingEvents[srv] else []) + [p]];
    }

    /** The end of Router::sendEvent: on the channel found, or with the events pending. */
    method Enqueue(ec: EventChannel?<B>, srvr: nat, rtr: nat, p: Packet<B>, ghost pl: Plant, ghost q: Queues<B>, ghost up: set<Addr>)
      requires Valid() && Holds(q, up) && id in pl.mesh && pl.mesh[id] == links && (rtr != id ==> links != [])
      requires srvr <= SELF && p.dest == if srvr == SELF then RouterAt(rtr) else ServerAt(rtr, srvr)
      requires ec == if rtr != id then rtrLinks[Choose(links, rtr, 1)] else if Joined(srvr) then localMap[srvr] else null
      modifies this`pendingEvents, Channels()
      ensures Valid()
      ensures p.dest != RouterAt(id) ==> CanSend(pl, id, p) && Holds(Send(pl, q, up, id, p), up) && Waiting(SELF) == old(Waiting(SELF))
      ensures p.dest == RouterAt(id) ==> Holds(q, up) && Waiting(SELF) == old(Waiting(SELF)) + [p]
      ensures ec == null ==> pendingEvents == old(pendingEvents)[srvr := old(Waiting(srvr)) + [p]]
      ensures ec != null ==> ec.queue == old(ec.queue) + [p] && pendingEvents == old(pendingEvents)
    {
      if ec == null {
        PushPending(srvr, p, q, up);
      } else if rtr == id {
        SendToServer(srvr, p, q, up);
      } else {
        SendOnLink(Choose(links, rtr, 1), p, q, up);
      }
    }

    /** The beginning of Router::sendEvent: the channel to a server of its own, or to the next
        router. */
    method FindChan(srvr: nat, rtr: nat, ghost q: Queues<B>, ghost up: set<Addr>) returns (ec: EventChannel?<B>)
      requires Valid() && Holds(q, up) && (rtr != id ==> links != [])
      modifies this`localMap
      ensures Valid() && Holds(q, up) && Channels() == old(Channels()) && (ec != null ==> ec in Channels())
      ensures forall s: nat :: (Joined(s) <==> old(Joined(s))) && (Joined(s) ==> localMap[s] == old(localMap[s]))
      ensures ec == if rtr != id then rtrLinks[Choose(links, rtr, 1)] else if Joined(srvr) then localMap[srvr] else null
    {
      if rtr == id { ec := FindServerChan(srvr, q, up); } else { ec := FindRtrChan(rtr); }
    }

    /** Router::sendEvent: an event for another address goes where module Fabric's Send puts
        it; a wrapped event for this router is unwrapped and processed; an event of the
        router's own for itself is queued for a server that does not exist. */
    method SendEvent(dest: nat, ev: Event<B>, ghost pl: Plant, ghost q: Queues<B>, ghost up: set<Addr>)
      requires Valid() && dest < WORD * WORD && Holds(q, up)
      requires id in pl.mesh && pl.mesh[id] == links
      requires RtrId(dest) != id ==> links != []
      requires ev.Routed? ==> ev.packet.dest == AddrOf(dest)
      modifies this, Channels()
      ensures Valid() && routeTable == old(routeTable)
      ensures var p := if ev.Routed? then ev.packet else Packet(RouterAt(id), AddrOf(dest), ev.body);
              if p.dest != RouterAt(id) then
                CanSend(pl, id, p) && Holds(Send(pl, q, up, id, p), up) && processed == old(processed) && Waiting(SELF) == old(Waiting(SELF))
              else
                && Holds(q, up)
                && processed == old(processed) + (if ev.Routed? then [ev.packet.body] else [])
                && Waiting(SELF) == old(Waiting(SELF)) + (if ev.Routed? then [] else [p])
      ensures RtrId(dest) != id ==> rtrLinks[Choose(links, RtrId(dest), 1)].queue == old(rtrLinks[Choose(links, RtrId(dest), 1)].queue)
                                     + [if ev.Routed? then ev.packet else Packet(RouterAt(id), AddrOf(dest), ev.body)]
      ensures var s := ServerId(dest);
              RtrId(dest) == id && s != SELF ==>
                var p := if ev.Routed? then ev.packet else Packet(RouterAt(id), AddrOf(dest), ev.body);
                if old(Joined(s)) then old(localMap[s]).queue == old(localMap[s].queue) + [p] && pendingEvents == old(pendingEvents)
                else pendingEvents == old(pendingEvents)[s := old(Waiting(s)) + [p]]
    {
      DestIs(dest, id);
      hide Valid, Holds, Send, CanSend, AddrOf, RtrId, ServerId, Channels, Joined, Choose;
      var srvr, rtr := ServerId(dest), RtrId(dest);
      var ec := FindChan(srvr, rtr, q, up);
      if ev.Routed? && rtr == id && srvr == SELF {
        processed := processed + [ev.packet.body];
        return;
      }
      var p := if ev.Routed? then ev.packet else Packet(RouterAt(id), AddrOf(dest), ev.body);
      Enqueue(ec, srvr, rtr, p, pl, q, up);
    }

    /** Router::doPending; its assertion fails when events wait for a server without a channel. */
    method DoPending(srv: nat) returns (ok: bool)
      modifies this`pendingEvents, this`localMap, if Joined(srv) then {localMap[srv]} else {}
      ensures ok <==> srv !in old(pendingEvents) || (srv != SELF && old(Joined(srv)))
      ensures ok ==> pendingEvents == old(pendingEvents) - {srv} && localMap == old(localMap)
      ensures ok && old(Joined(srv)) ==> localMap[srv].queue == old(localMap[srv].queue) + old(Waiting(srv))
      ensures forall s: nat :: (Joined(s) <==> old(Joined(s))) && (Joined(s) && old(Joined(s)) ==> localMap[s] == old(localMap[s]))
    {
      if srv !in pendingEvents { return true; }
      if srv == SELF { return false; }
      if srv !in localMap { localMap := localMap[srv := null]; }
      var ec := localMap[srv];
      if ec == null { return false; }
      while pendingEvents[srv] != []
        invariant srv in pendingEvents && srv in localMap && ec == localMap[srv] && localMap == old(localMap)
        invariant ec.queue + pendingEvents[srv] == old(localMap[srv].queue) + old(pendingEvents)[srv]
        invariant pendingEvents - {srv} == old(pendingEvents) - {srv}
        decreases |pendingEvents[srv]|
      {
        var front := pendingEvents[srv][0];
        ec.SendEvent(front);
        assert ec.queue + pendingEvents[srv][1..] == old(localMap[srv].queue) + old(pendingEvents)[srv];
        pendingEvents := pendingEvents[srv := pendingEvents[srv][1..]];
      }
      pendingEvents := pendingEvents - {srv};
      ok := true;
    }

    /** Router::findRoute. */
    function FindRoute(name: string): nat
      reads this`routeTable
    {
      if name in routeTable then routeTable[name] else MISSING
    }

    /** The router knows the name as a server of its own, to which it has no channel yet, and
        ec is a new channel. */
    ghost predicate Newcomer(name: string, ec: EventChannel<B>, q: Queues<B>)
      reads this, Channels(), ec
    {
      && ec !in Channels() && ec.queue == []
      && name in routeTable && RtrId(routeTable[name]) == id && ServerId(routeTable[name]) < SELF
      && !Joined(ServerId(routeTable[name])) && On(q, Down(ServerAt(id, ServerId(routeTable[name])))) == []
    }

    /** RtrServerConnectEvent::process: addServer, then doPending, whatever the name.  An
        assertion fails for router 0's own id, and when events wait for the server number of
        a name without a route.  Otherwise the events that waited are on the channel. */
    method Connect(name: string, ec: EventChannel<B>) returns (ok: bool)
      modifies this, ec
      ensures var s := ServerId(old(FindRoute(name)));
              && (ok <==> old(FindRoute(name)) != SELF && (s == SELF ==> s !in old(pendingEvents)))
              && (ok ==> localMap == old(localMap)[s := ec] && pendingEvents == old(pendingEvents) - {s}
                         && ec.queue == old(ec.queue) + old(Waiting(s)))
      ensures routeTable == old(routeTable) && processed == old(processed)
    {
      var found := FindRoute(name);
      if found == SELF { return false; }
      var srv := ServerId(found);
      localMap := localMap[srv := ec];
      ok := DoPending(srv);
    }

    lemma NotAmong(ec: EventChannel<B>)
      requires ec !in Channels()
      ensures forall i :: 0 <= i < |rtrLinks| ==> rtrLinks[i] != ec
      ensures forall s: nat :: Joined(s) ==> localMap[s] != ec
    {
      assert forall i :: 0 <= i < |rtrLinks| ==> rtrLinks[i] in Channels();
      assert forall s: nat :: Joined(s) ==> localMap[s] in Channels();
    }

    /** The new channel is the only thing that differs from q. */
    lemma NowHolds(srv: nat, ec: EventChannel<B>, q: Queues<B>, q': Queues<B>)
      requires |rtrLinks| == |links| && LinksHold(q) && OthersHold(srv, q) && Joined(srv) && localMap[srv] == ec && Waiting(srv) == []
      requires On(q', Pend(ServerAt(id, srv))) == [] && On(q', Down(ServerAt(id, srv))) == ec.queue
      requires forall c :: c != Pend(ServerAt(id, srv)) && c != Down(ServerAt(id, srv)) ==> On(q', c) == On(q, c)
      ensures LinksHold(q') && ServersHold(q') && PendingHold(q')
    {}

    ghost predicate OthersHold(srv: nat, q: Queues<B>)
      reads this`localMap, this`pendingEvents, Channels()
    {
      && (forall s: nat :: s != srv && Joined(s) ==> On(q, Down(ServerAt(id, s))) == localMap[s].queue)
      && (forall s: nat :: s != srv && s < SELF ==> On(q, Pend(ServerAt(id, s))) == Waiting(s))
    }

    /** For a newcomer that is the draining of module Fabric: the events that waited for it
        are on its channel, in their order, before any later one. */
    method ConnectStep(name: string, ec: EventChannel<B>, ghost q: Queues<B>, ghost up: set<Addr>)
      requires Valid() && Holds(q, up) && Newcomer(name, ec, q)
      modifies this, ec
      ensures Valid() && routeTable == old(routeTable) && processed == old(processed)
      ensures name in routeTable && Joined(ServerId(routeTable[name])) && localMap[ServerId(routeTable[name])] == ec
      ensures var s := ServerAt(id, ServerId(routeTable[name])); Holds(Drain(q, s), up + {s})
    {
      ghost var srv := ServerId(routeTable[name]);
      ghost var s := ServerAt(id, srv);
      NotAmong(ec);
      DrainOn(q, s);
      ApartMore(localMap, srv, ec);
      hide Drain, On, Channels, Apart;
      var ok := Connect(name, ec);
      assert forall t: nat :: Joined(t) <==> old(Joined(t)) || t == srv;
      NowHolds(srv, ec, q, Drain(q, s));
    }

    /** Router::sendEvent( ObjID ): whether an event is dropped.  The comparison with
        (unsigned) -1 is made on 64 bits. */
    method Unroutable(name: string) returns (drop: bool, dest: nat)
      ensures dest == FindRoute(name)
      ensures drop <==> name in routeTable && routeTable[name] == IdOf(RouterAt(0))
      ensures drop <==> name in routeTable && routeTable[name] == 0xffff_ffff
      ensures dest == if name in routeTable then routeTable[name] else 0xffff_ffff_ffff_ffff
    {
      dest := FindRoute(name);
      drop := dest == SELF;
    }
  }
}
