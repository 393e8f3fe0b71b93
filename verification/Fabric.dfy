/** FIFO channels, and why they join sender and receiver by one FIFO. */
module Fabric {
  import opened Common
  import opened Routing

  /** An AppID: a server of a router, or the router itself (server part -1). */
  datatype Addr = ServerAt(rtr: nat, srv: nat) | RouterAt(rtr: nat)

  /** A RouterEvent: source, destination and the wrapped event. */
  datatype Packet<B> = Packet(src: Addr, dest: Addr, body: B)

  /** Wire: the `send` channel of a router towards a peer.  Up and Down: the two
      directions between a server and its router.  Pend: m_pendingEvents of a server
      that has not connected. */
  datatype Chan = Wire(from: nat, to: nat) | Up(server: Addr) | Down(server: Addr) | Pend(server: Addr)

  type Queues<B> = map<Chan, seq<Packet<B>>>

  datatype Flow = Flow(src: Addr, dest: Addr)

  /** The routers, their links, and a distance table for them. */
  datatype Plant = Plant(mesh: Mesh, dist: map<(nat, nat), nat>)

  ghost predicate ValidPlant(pl: Plant) { Converges(pl.mesh, pl.dist) }

  function On<B>(q: Queues<B>, c: Chan): seq<Packet<B>> { if c in q then q[c] else [] }

  function FlowOf<B>(p: Packet<B>): Flow { Flow(p.src, p.dest) }

  ghost predicate FlowIn(pl: Plant, f: Flow) { f.src.rtr in pl.mesh.Keys && f.dest.rtr in pl.mesh.Keys }

  // ------------------------------------------------------- Router::sendEvent

  /** What Router::sendEvent( dest, ev ) does at router r with an event for another
      address: the channel it goes to. */
  function Outlet(pl: Plant, up: set<Addr>, r: nat, dest: Addr): Chan
    requires r in pl.mesh && (r != dest.rtr ==> pl.mesh[r] != [])
  {
    if r == dest.rtr then
      if dest in up then Down(dest) else Pend(dest)
    else Wire(r, Next(pl.mesh, r, dest.rtr))
  }

  function Append<B>(q: Queues<B>, c: Chan, p: Packet<B>): Queues<B> { q[c := On(q, c) + [p]] }

  function DropHead<B>(q: Queues<B>, c: Chan): Queues<B>
    requires On(q, c) != []
  {
    q[c := On(q, c)[1..]]
  }

  ghost predicate CanSend<B>(pl: Plant, r: nat, p: Packet<B>) {
    r in pl.mesh && (r != p.dest.rtr ==> pl.mesh[r] != []) && p.dest != RouterAt(r)
  }

  function Send<B>(pl: Plant, q: Queues<B>, up: set<Addr>, r: nat, p: Packet<B>): Queues<B>
    requires CanSend(pl, r, p)
  {
    Append(q, Outlet(pl, up, r, p.dest), p)
  }

  // ------------------------------------------------ the way of a flow, and its contents

  /** The wires from router r to router d. */
  ghost function Wires(pl: Plant, r: nat, d: nat): seq<Chan>
    requires ValidPlant(pl) && r in pl.mesh.Keys && d in pl.mesh.Keys
    decreases assert Nearer(pl.mesh, pl.dist, r, d); pl.dist[(r, d)]
  {
    assert Nearer(pl.mesh, pl.dist, r, d);
    if r == d then [] else
      var n := Next(pl.mesh, r, d);
      assert Nearer(pl.mesh, pl.dist, n, d);
      [Wire(r, n)] + Wires(pl, n, d)
  }

  ghost function Tail(dest: Addr): seq<Chan> {
    if dest.ServerAt? then [Pend(dest), Down(dest)] else []
  }

  ghost function Head(src: Addr): seq<Chan> { if src.ServerAt? then [Up(src)] else [] }

  /** From router r on. */
  ghost function WayFrom(pl: Plant, r: nat, dest: Addr): seq<Chan>
    requires ValidPlant(pl) && r in pl.mesh.Keys && dest.rtr in pl.mesh.Keys
  {
    Wires(pl, r, dest.rtr) + Tail(dest)
  }

  /** All channels of a flow, first one first. */
  ghost function Way(pl: Plant, f: Flow): seq<Chan>
    requires ValidPlant(pl) && FlowIn(pl, f)
  {
    Head(f.src) + WayFrom(pl, f.src.rtr, f.dest)
  }

  /** The bodies of a flow's events in a queue, oldest first. */
  ghost function Pick<B>(s: seq<Packet<B>>, f: Flow): seq<B> {
    if s == [] then [] else (if FlowOf(s[0]) == f then [s[0].body] else []) + Pick(s[1..], f)
  }

  /** The bodies of a flow's events on a stretch of channels, oldest first: what is
      on a later channel was sent earlier. */
  ghost function Flat<B>(q: Queues<B>, way: seq<Chan>, f: Flow): seq<B> {
    if way == [] then [] else Flat(q, way[1..], f) + Pick(On(q, way[0]), f)
  }

  /** Everything of a flow that was sent and has not been received. */
  ghost function InFlight<B>(pl: Plant, q: Queues<B>, f: Flow): seq<B>
    requires ValidPlant(pl) && FlowIn(pl, f)
  {
    Flat(q, Way(pl, f), f)
  }

  lemma {:induction false} PickConcat<B>(s: seq<Packet<B>>, t: seq<Packet<B>>, f: Flow)
    ensures Pick(s + t, f) == Pick(s, f) + Pick(t, f)
  {
    if s == [] {
      assert s + t == t;
    } else {
      var u := s + t;
      assert u[0] == s[0] && u[1..] == s[1..] + t;
      PickConcat(s[1..], t, f);
      var h := if FlowOf(s[0]) == f then [s[0].body] else [];
      assert Pick(u, f) == h + Pick(u[1..], f);
      assert Pick(s, f) == h + Pick(s[1..], f);
    }
  }

  lemma {:induction false} PickHas<B>(s: seq<Packet<B>>, p: Packet<B>)
    requires p in s
    ensures p.body in Pick(s, FlowOf(p))
  {
    if s[0] != p { PickHas(s[1..], p); }
  }

  lemma {:induction false} FlatFrame<B>(q: Queues<B>, q': Queues<B>, way: seq<Chan>, f: Flow)
    requires forall c :: c in way ==> Pick(On(q, c), f) == Pick(On(q', c), f)
    ensures Flat(q, way, f) == Flat(q', way, f)
  {
    if way != [] { FlatFrame(q, q', way[1..], f); }
  }

  lemma FlatCons<B>(q: Queues<B>, c: Chan, way: seq<Chan>, f: Flow)
    ensures Flat(q, [c] + way, f) == Flat(q, way, f) + Pick(On(q, c), f)
  {
    assert ([c] + way)[1..] == way;
  }

  lemma FlatOne<B>(q: Queues<B>, c: Chan, f: Flow)
    ensures Flat(q, [c], f) == Pick(On(q, c), f)
  {
    FlatCons(q, c, [], f);
    assert [c] + [] == [c];
  }

  lemma FlatTwo<B>(q: Queues<B>, a: Chan, b: Chan, f: Flow)
    ensures Flat(q, [a, b], f) == Pick(On(q, b), f) + Pick(On(q, a), f)
  {
    FlatCons(q, a, [b], f);
    FlatOne(q, b, f);
    assert [a] + [b] == [a, b];
  }

  lemma {:induction false} FlatSplit<B>(q: Queues<B>, a: seq<Chan>, b: seq<Chan>, f: Flow)
    ensures Flat(q, a + b, f) == Flat(q, b, f) + Flat(q, a, f)
  {
    hide Pick, On;
    if a == [] {
      assert a + b == b;
    } else {
      FlatSplit(q, a[1..], b, f);
      assert (a + b)[0] == a[0] && (a + b)[1..] == a[1..] + b;
      Assoc(Flat(q, b, f), Flat(q, a[1..], f), Pick(On(q, a[0]), f));
    }
  }

  lemma PickOne<B>(p: Packet<B>, f: Flow)
    ensures Pick([p], f) == if FlowOf(p) == f then [p.body] else []
  {
    assert [p][1..] == [];
  }

  lemma AppendPick<B>(q: Queues<B>, c: Chan, p: Packet<B>, f: Flow)
    ensures Pick(On(Append(q, c, p), c), f) == Pick(On(q, c), f) + if FlowOf(p) == f then [p.body] else []
  {
    PickConcat(On(q, c), [p], f);
    PickOne(p, f);
  }

  /** An event put on the first channel of a stretch comes last on it. */
  lemma AppendFirst<B>(q: Queues<B>, c: Chan, rest: seq<Chan>, p: Packet<B>)
    requires c !in rest
    ensures Flat(Append(q, c, p), [c] + rest, FlowOf(p)) == Flat(q, [c] + rest, FlowOf(p)) + [p.body]
  {
    var f := FlowOf(p);
    FlatCons(q, c, rest, f);
    FlatCons(Append(q, c, p), c, rest, f);
    AppendPick(q, c, p, f);
    FlatFrame(q, Append(q, c, p), rest, f);
  }

  /** Taking the head of a channel in the middle of a stretch. */
  lemma DropMiddle<B>(q: Queues<B>, a: seq<Chan>, c: Chan, b: seq<Chan>)
    requires On(q, c) != [] && c !in a && c !in b
    ensures Flat(q, a + ([c] + b), FlowOf(On(q, c)[0]))
         == Flat(q, b, FlowOf(On(q, c)[0])) + [On(q, c)[0].body] + Flat(DropHead(q, c), a + [c], FlowOf(On(q, c)[0]))
    ensures Flat(DropHead(q, c), b, FlowOf(On(q, c)[0])) == Flat(q, b, FlowOf(On(q, c)[0]))
  {
    var p := On(q, c)[0];
    var f := FlowOf(p);
    var q' := DropHead(q, c);
    FlatSplit(q, a, [c] + b, f);
    FlatCons(q, c, b, f);
    FlatSplit(q', a, [c], f);
    FlatOne(q', c, f);
    FlatFrame(q, q', a, f);
    FlatFrame(q, q', b, f);
    assert Pick(On(q, c), f) == [p.body] + Pick(On(q', c), f);
    Regroup(Flat(q, b, f), [p.body], Pick(On(q', c), f), Flat(q, a, f));
  }

  lemma Regroup<B>(x: seq<B>, y: seq<B>, z: seq<B>, u: seq<B>)
    ensures (x + (y + z)) + u == x + y + (z + u)
  {}

  // --------------------------------------------------- the way has no channel twice

  lemma {:induction false} WireNearer(pl: Plant, r: nat, d: nat, m: nat, n: nat)
    requires ValidPlant(pl) && r in pl.mesh.Keys && d in pl.mesh.Keys && Wire(m, n) in Wires(pl, r, d)
    ensures m in pl.mesh.Keys && m != d && pl.mesh[m] != [] && n == Next(pl.mesh, m, d) && n in pl.mesh.Keys
    ensures (m, d) in pl.dist && (r, d) in pl.dist && pl.dist[(m, d)] <= pl.dist[(r, d)]
    decreases assert Nearer(pl.mesh, pl.dist, r, d); pl.dist[(r, d)]
  {
    assert Nearer(pl.mesh, pl.dist, r, d);
    var h := Next(pl.mesh, r, d);
    assert Nearer(pl.mesh, pl.dist, h, d);
    if Wire(m, n) != Wire(r, h) { WireNearer(pl, h, d, m, n); }
  }

  lemma {:induction false} WiresDistinct(pl: Plant, r: nat, d: nat)
    requires ValidPlant(pl) && r in pl.mesh.Keys && d in pl.mesh.Keys
    ensures Distinct(Wires(pl, r, d))
    ensures forall c :: c in Wires(pl, r, d) ==> c.Wire?
    decreases assert Nearer(pl.mesh, pl.dist, r, d); pl.dist[(r, d)]
  {
    assert Nearer(pl.mesh, pl.dist, r, d);
    if r != d {
      var n := Next(pl.mesh, r, d);
      assert Nearer(pl.mesh, pl.dist, n, d);
      WiresDistinct(pl, n, d);
      if Wire(r, n) in Wires(pl, n, d) { WireNearer(pl, n, d, r, n); }
    }
  }

  /** After a wire into router n comes the way from n on. */
  lemma {:induction false} AfterWire(pl: Plant, r: nat, d: nat, m: nat, n: nat) returns (a: seq<Chan>)
    requires ValidPlant(pl) && r in pl.mesh.Keys && d in pl.mesh.Keys && Wire(m, n) in Wires(pl, r, d)
    ensures n in pl.mesh.Keys
    ensures Wires(pl, r, d) == a + ([Wire(m, n)] + Wires(pl, n, d))
    ensures Wire(m, n) !in a && Wire(m, n) !in Wires(pl, n, d)
    ensures forall c :: c in a ==> c in Wires(pl, r, d) && c !in Wires(pl, n, d)
    decreases assert Nearer(pl.mesh, pl.dist, r, d); pl.dist[(r, d)]
  {
    assert Nearer(pl.mesh, pl.dist, r, d);
    var h := Next(pl.mesh, r, d);
    assert Nearer(pl.mesh, pl.dist, h, d);
    if Wire(m, n) == Wire(r, h) {
      a := [];
      if Wire(r, h) in Wires(pl, h, d) { WireNearer(pl, h, d, r, h); }
    } else {
      var a' := AfterWire(pl, h, d, m, n);
      a := [Wire(r, h)] + a';
      Assoc([Wire(r, h)], a', [Wire(m, n)] + Wires(pl, n, d));
      WireNearer(pl, h, d, m, n);
      if Wire(r, h) in Wires(pl, h, d) { WireNearer(pl, h, d, r, h); }
      assert forall c :: c in Wires(pl, n, d) ==> c in Wires(pl, h, d);
    }
  }

  // ------------------------------------------------ one sendEvent, seen from a flow

  lemma OutletOnWay(pl: Plant, up: set<Addr>, r: nat, dest: Addr) returns (rest: seq<Chan>)
    requires ValidPlant(pl) && r in pl.mesh.Keys && dest.rtr in pl.mesh.Keys && r != dest.rtr
    ensures pl.mesh[r] != []
    ensures WayFrom(pl, r, dest) == [Outlet(pl, up, r, dest)] + rest
    ensures Outlet(pl, up, r, dest) !in rest && Outlet(pl, up, r, dest).Wire?
  {
    assert Nearer(pl.mesh, pl.dist, r, dest.rtr);
    var n := Next(pl.mesh, r, dest.rtr);
    assert Nearer(pl.mesh, pl.dist, n, dest.rtr);
    rest := WayFrom(pl, n, dest);
    if Wire(r, n) in Wires(pl, n, dest.rtr) { WireNearer(pl, n, dest.rtr, r, n); }
  }

  /** Router::sendEvent at a router extends the flow's remaining way by the event. */
  lemma SendOnWay<B>(pl: Plant, q: Queues<B>, up: set<Addr>, r: nat, p: Packet<B>)
    requires ValidPlant(pl) && r in pl.mesh.Keys && p.dest.rtr in pl.mesh.Keys && p.dest != RouterAt(r)
    requires p.dest in up ==> On(q, Pend(p.dest)) == []
    ensures CanSend(pl, r, p)
    ensures Outlet(pl, up, r, p.dest) in WayFrom(pl, r, p.dest)
    ensures Flat(Send(pl, q, up, r, p), WayFrom(pl, r, p.dest), FlowOf(p))
         == Flat(q, WayFrom(pl, r, p.dest), FlowOf(p)) + [p.body]
  {
    if r == p.dest.rtr {
      SendHere(q, up, p);
      assert WayFrom(pl, r, p.dest) == [Pend(p.dest), Down(p.dest)];
    } else {
      var rest := OutletOnWay(pl, up, r, p.dest);
      AppendFirst(q, Outlet(pl, up, r, p.dest), rest, p);
    }
  }

  lemma SendHere<B>(q: Queues<B>, up: set<Addr>, p: Packet<B>)
    requires p.dest in up ==> On(q, Pend(p.dest)) == []
    ensures Flat(Append(q, if p.dest in up then Down(p.dest) else Pend(p.dest), p), [Pend(p.dest), Down(p.dest)], FlowOf(p))
         == Flat(q, [Pend(p.dest), Down(p.dest)], FlowOf(p)) + [p.body]
  {
    var f := FlowOf(p);
    var c := if p.dest in up then Down(p.dest) else Pend(p.dest);
    FlatTwo(q, Pend(p.dest), Down(p.dest), f);
    FlatTwo(Append(q, c, p), Pend(p.dest), Down(p.dest), f);
    AppendPick(q, c, p, f);
  }

  /** Only the flow of the packet is touched by appending or dropping it. */
  lemma OtherFlow<B>(q: Queues<B>, c: Chan, p: Packet<B>, f: Flow, way: seq<Chan>)
    requires FlowOf(p) != f
    ensures Flat(Append(q, c, p), way, f) == Flat(q, way, f)
    ensures On(q, c) != [] && On(q, c)[0] == p ==> Flat(DropHead(q, c), way, f) == Flat(q, way, f)
  {
    PickConcat(On(q, c), [p], f);
    assert Pick([p], f) == [] + Pick([], f);
    FlatFrame(q, Append(q, c, p), way, f);
    if On(q, c) != [] && On(q, c)[0] == p {
      FlatFrame(q, DropHead(q, c), way, f);
    }
  }

  // ------------------------------------------------ the steps, seen from every flow

  /** Every event is on a channel of its own way. */
  ghost predicate Placed<B>(pl: Plant, q: Queues<B>)
    requires ValidPlant(pl)
  {
    forall c, p :: p in On(q, c) ==> FlowIn(pl, FlowOf(p)) && c in Way(pl, FlowOf(p))
  }

  ghost predicate PendEmpty<B>(q: Queues<B>, up: set<Addr>) { forall s :: s in up ==> On(q, Pend(s)) == [] }

  ghost predicate Sound<B>(pl: Plant, q: Queues<B>, up: set<Addr>) {
    ValidPlant(pl) && Placed(pl, q) && PendEmpty(q, up)
  }

  /** b was added at the sending end of flow f and nothing else changed. */
  ghost predicate Sent<B(!new)>(pl: Plant, q: Queues<B>, q': Queues<B>, f: Flow, b: B)
    requires ValidPlant(pl)
  {
    FlowIn(pl, f) && InFlight(pl, q', f) == InFlight(pl, q, f) + [b] && OthersSame(pl, q, q', f)
  }

  /** b left the receiving end of flow f and nothing else changed. */
  ghost predicate Received<B(!new)>(pl: Plant, q: Queues<B>, q': Queues<B>, f: Flow, b: B)
    requires ValidPlant(pl)
  {
    FlowIn(pl, f) && InFlight(pl, q, f) == [b] + InFlight(pl, q', f) && OthersSame(pl, q, q', f)
  }

  ghost predicate OthersSame<B(!new)>(pl: Plant, q: Queues<B>, q': Queues<B>, f: Flow)
    requires ValidPlant(pl)
  {
    forall g :: g != f && FlowIn(pl, g) ==> InFlight(pl, q', g) == InFlight(pl, q, g)
  }

  /** No flow changed. */
  ghost predicate Unmoved<B(!new)>(pl: Plant, q: Queues<B>, q': Queues<B>)
    requires ValidPlant(pl)
  {
    forall g :: FlowIn(pl, g) ==> InFlight(pl, q', g) == InFlight(pl, q, g)
  }

  lemma AppendOthers<B(!new)>(pl: Plant, q: Queues<B>, c: Chan, p: Packet<B>)
    requires ValidPlant(pl)
    ensures OthersSame(pl, q, Append(q, c, p), FlowOf(p))
  {
    forall g | g != FlowOf(p) && FlowIn(pl, g) ensures InFlight(pl, Append(q, c, p), g) == InFlight(pl, q, g) {
      OtherFlow(q, c, p, g, Way(pl, g));
    }
  }

  lemma DropOthers<B(!new)>(pl: Plant, q: Queues<B>, c: Chan)
    requires ValidPlant(pl) && On(q, c) != []
    ensures OthersSame(pl, q, DropHead(q, c), FlowOf(On(q, c)[0]))
  {
    var p := On(q, c)[0];
    forall g | g != FlowOf(p) && FlowIn(pl, g) ensures InFlight(pl, DropHead(q, c), g) == InFlight(pl, q, g) {
      OtherFlow(q, c, p, g, Way(pl, g));
    }
  }

  lemma AppendKeeps<B>(pl: Plant, q: Queues<B>, up: set<Addr>, c: Chan, p: Packet<B>)
    requires Sound(pl, q, up) && FlowIn(pl, FlowOf(p)) && c in Way(pl, FlowOf(p))
    requires c.Pend? ==> c.server !in up
    ensures Sound(pl, Append(q, c, p), up)
  {
    forall c', p' | p' in On(Append(q, c, p), c')
      ensures FlowIn(pl, FlowOf(p')) && c' in Way(pl, FlowOf(p'))
    {
      if p' !in On(q, c') { assert c' == c && p' == p; }
    }
  }

  lemma DropKeeps<B>(pl: Plant, q: Queues<B>, up: set<Addr>, c: Chan)
    requires Sound(pl, q, up) && On(q, c) != []
    ensures Sound(pl, DropHead(q, c), up)
  {
    forall c', p | p in On(DropHead(q, c), c') ensures p in On(q, c') {}
  }

  /** A router sends an event of its own. */
  lemma SendStep<B(!new)>(pl: Plant, q: Queues<B>, up: set<Addr>, r: nat, p: Packet<B>)
    requires Sound(pl, q, up) && r in pl.mesh.Keys && p.dest.rtr in pl.mesh.Keys
    requires p.src == RouterAt(r) && p.dest.ServerAt?
    ensures CanSend(pl, r, p)
    ensures Sound(pl, Send(pl, q, up, r, p), up)
    ensures Sent(pl, q, Send(pl, q, up, r, p), FlowOf(p), p.body)
  {
    SendOnWay(pl, q, up, r, p);
    assert Way(pl, FlowOf(p)) == WayFrom(pl, r, p.dest);
    AppendOthers(pl, q, Outlet(pl, up, r, p.dest), p);
    AppendKeeps(pl, q, up, Outlet(pl, up, r, p.dest), p);
  }

  /** A server sends an event to a router: it goes to the end of its own channel. */
  lemma UpStep<B(!new)>(pl: Plant, q: Queues<B>, up: set<Addr>, p: Packet<B>)
    requires Sound(pl, q, up) && FlowIn(pl, FlowOf(p)) && p.src.ServerAt?
    ensures Sound(pl, Append(q, Up(p.src), p), up)
    ensures Sent(pl, q, Append(q, Up(p.src), p), FlowOf(p), p.body)
  {
    WiresDistinct(pl, p.src.rtr, p.dest.rtr);
    AppendFirst(q, Up(p.src), WayFrom(pl, p.src.rtr, p.dest), p);
    AppendOthers(pl, q, Up(p.src), p);
    AppendKeeps(pl, q, up, Up(p.src), p);
  }

  /** The router at which the head of a channel arrives. */
  function Arrives(c: Chan): nat
    requires c.Wire? || c.Up?
  {
    if c.Wire? then c.to else c.server.rtr
  }

  /** The way of a flow, cut at a channel that leads to a router. */
  lemma CutWay(pl: Plant, f: Flow, c: Chan) returns (a: seq<Chan>)
    requires ValidPlant(pl) && FlowIn(pl, f) && c in Way(pl, f) && (c.Wire? || c.Up?)
    ensures Arrives(c) in pl.mesh.Keys
    ensures Way(pl, f) == a + ([c] + WayFrom(pl, Arrives(c), f.dest))
    ensures c !in a && c !in WayFrom(pl, Arrives(c), f.dest)
    ensures forall x :: x in a ==> x !in WayFrom(pl, Arrives(c), f.dest)
  {
    WayKinds(pl, f);
    if c.Up? {
      a := [];
      assert Head(f.src) == [c];
    } else {
      var w := AfterWire(pl, f.src.rtr, f.dest.rtr, c.from, c.to);
      WiresDistinct(pl, c.to, f.dest.rtr);
      a := Head(f.src) + w;
      Recut(Head(f.src), w, [c], Wires(pl, c.to, f.dest.rtr), Tail(f.dest));
    }
  }

  lemma WayKinds(pl: Plant, f: Flow)
    requires ValidPlant(pl) && FlowIn(pl, f)
    ensures forall c :: c in Way(pl, f) ==> (c.Up? <==> c in Head(f.src)) && (c.Wire? <==> c in Wires(pl, f.src.rtr, f.dest.rtr))
                                            && (c.Pend? || c.Down? <==> c in Tail(f.dest))
    ensures forall c :: c in Wires(pl, f.src.rtr, f.dest.rtr) ==> c.Wire?
  {
    WiresDistinct(pl, f.src.rtr, f.dest.rtr);
  }

  lemma Recut<T>(h: seq<T>, a: seq<T>, c: seq<T>, w: seq<T>, t: seq<T>)
    ensures h + ((a + (c + w)) + t) == (h + a) + (c + (w + t))
  {}

  /** A router passes on the head of a wire or of a server's channel: no flow notices. */
  lemma RelayStep<B(!new)>(pl: Plant, q: Queues<B>, up: set<Addr>, c: Chan)
    requires Sound(pl, q, up) && (c.Wire? || c.Up?) && On(q, c) != []
    requires On(q, c)[0].dest != RouterAt(Arrives(c))
    ensures CanSend(pl, Arrives(c), On(q, c)[0])
    ensures Sound(pl, Send(pl, DropHead(q, c), up, Arrives(c), On(q, c)[0]), up)
    ensures Unmoved(pl, q, Send(pl, DropHead(q, c), up, Arrives(c), On(q, c)[0]))
  {
    var p := On(q, c)[0];
    var f := FlowOf(p);
    var r := Arrives(c);
    var q1 := DropHead(q, c);
    var a := CutWay(pl, f, c);
    DropKeeps(pl, q, up, c);
    DropOthers(pl, q, c);
    SendOnWay(pl, q1, up, r, p);
    var o := Outlet(pl, up, r, p.dest);
    AppendOthers(pl, q1, o, p);
    AppendKeeps(pl, q1, up, o, p);
    RelayFlow(q, a, c, WayFrom(pl, r, p.dest), o);
  }

  lemma RelayFlow<B>(q: Queues<B>, a: seq<Chan>, c: Chan, rest: seq<Chan>, o: Chan)
    requires On(q, c) != [] && c !in a && c !in rest && o in rest && o !in a && o != c
    requires Flat(Append(DropHead(q, c), o, On(q, c)[0]), rest, FlowOf(On(q, c)[0]))
          == Flat(DropHead(q, c), rest, FlowOf(On(q, c)[0])) + [On(q, c)[0].body]
    ensures Flat(Append(DropHead(q, c), o, On(q, c)[0]), a + ([c] + rest), FlowOf(On(q, c)[0]))
         == Flat(q, a + ([c] + rest), FlowOf(On(q, c)[0]))
  {
    var p := On(q, c)[0];
    var f := FlowOf(p);
    var q1 := DropHead(q, c);
    var q2 := Append(q1, o, p);
    DropMiddle(q, a, c, rest);
    assert a + ([c] + rest) == (a + [c]) + rest;
    FlatSplit(q2, a + [c], rest, f);
    FlatFrame(q1, q2, a + [c], f);
  }

  /** The head of a flow's last channel is the oldest event of the flow in flight. */
  lemma TakeStep<B(!new)>(pl: Plant, q: Queues<B>, up: set<Addr>, c: Chan)
    requires Sound(pl, q, up) && On(q, c) != []
    requires c.Down? || ((c.Wire? || c.Up?) && On(q, c)[0].dest == RouterAt(Arrives(c)))
    ensures Sound(pl, DropHead(q, c), up)
    ensures Received(pl, q, DropHead(q, c), FlowOf(On(q, c)[0]), On(q, c)[0].body)
    ensures c.Down? ==> On(q, c)[0].dest == c.server
  {
    var p := On(q, c)[0];
    var f := FlowOf(p);
    DropKeeps(pl, q, up, c);
    DropOthers(pl, q, c);
    var a := CutEnd(pl, f, c);
    assert [c] + [] == [c];
    DropMiddle(q, a, c, []);
  }

  /** The way of a flow, cut at its last channel. */
  lemma CutEnd(pl: Plant, f: Flow, c: Chan) returns (a: seq<Chan>)
    requires ValidPlant(pl) && FlowIn(pl, f) && c in Way(pl, f)
    requires c.Down? || ((c.Wire? || c.Up?) && f.dest == RouterAt(Arrives(c)))
    ensures Way(pl, f) == a + [c] && c !in a
    ensures c.Down? ==> f.dest == c.server
  {
    if c.Down? {
      WayKinds(pl, f);
      a := Head(f.src) + Wires(pl, f.src.rtr, f.dest.rtr) + [Pend(f.dest)];
    } else {
      a := CutWay(pl, f, c);
      assert WayFrom(pl, f.dest.rtr, f.dest) == [];
    }
  }

  /** Router::doPending after addServer: everything queued for the server moves to its
      channel, in order. */
  function Drain<B>(q: Queues<B>, s: Addr): Queues<B> {
    q[Down(s) := On(q, Down(s)) + On(q, Pend(s))][Pend(s) := []]
  }

  lemma DrainStep<B(!new)>(pl: Plant, q: Queues<B>, up: set<Addr>, s: Addr)
    requires Sound(pl, q, up)
    ensures Sound(pl, Drain(q, s), up + {s})
    ensures Unmoved(pl, q, Drain(q, s))
  {
    var q' := Drain(q, s);
    forall c, p | p in On(q', c) ensures FlowIn(pl, FlowOf(p)) && c in Way(pl, FlowOf(p)) {
      if c == Down(s) && p !in On(q, c) {
        assert p in On(q, Pend(s));
        PendOnWay(pl, FlowOf(p), s);
      } else {
        assert p in On(q, c);
      }
    }
    forall p | p in On(q, Pend(s)) ensures p.dest == s {
      assert FlowIn(pl, FlowOf(p)) && Pend(s) in Way(pl, FlowOf(p));
      PendOnWay(pl, FlowOf(p), s);
    }
    forall g | FlowIn(pl, g) ensures InFlight(pl, q', g) == InFlight(pl, q, g) {
      DrainFlow(pl, q, s, g);
    }
  }

  lemma PendOnWay(pl: Plant, f: Flow, s: Addr)
    requires ValidPlant(pl) && FlowIn(pl, f) && Pend(s) in Way(pl, f)
    ensures f.dest == s && Down(s) in Way(pl, f)
  {
    WiresDistinct(pl, f.src.rtr, f.dest.rtr);
    assert Pend(s) in Tail(f.dest);
  }

  lemma DrainFlow<B>(pl: Plant, q: Queues<B>, s: Addr, g: Flow)
    requires ValidPlant(pl) && FlowIn(pl, g)
    requires forall p :: p in On(q, Pend(s)) ==> p.dest == s
    ensures InFlight(pl, Drain(q, s), g) == InFlight(pl, q, g)
  {
    var front := Head(g.src) + Wires(pl, g.src.rtr, g.dest.rtr);
    WiresDistinct(pl, g.src.rtr, g.dest.rtr);
    assert Way(pl, g) == front + Tail(g.dest);
    hide Flat, Drain, Pick;
    FlatSplit(q, front, Tail(g.dest), g);
    FlatSplit(Drain(q, s), front, Tail(g.dest), g);
    DrainFront(q, s, front, g);
    DrainTail(q, s, g);
  }

  lemma DrainFront<B>(q: Queues<B>, s: Addr, front: seq<Chan>, g: Flow)
    requires forall c :: c in front ==> !c.Down? && !c.Pend?
    ensures Flat(Drain(q, s), front, g) == Flat(q, front, g)
  {
    FlatFrame(q, Drain(q, s), front, g);
  }

  lemma DrainTail<B>(q: Queues<B>, s: Addr, g: Flow)
    requires forall p :: p in On(q, Pend(s)) ==> p.dest == s
    ensures Flat(Drain(q, s), Tail(g.dest), g) == Flat(q, Tail(g.dest), g)
  {
    var q' := Drain(q, s);
    if g.dest == s && s.ServerAt? {
      PickConcat(On(q, Down(s)), On(q, Pend(s)), g);
      FlatTwo(q, Pend(s), Down(s), g);
      FlatTwo(q', Pend(s), Down(s), g);
      assert Pick(On(q', Pend(s)), g) == [];
    } else {
      FlatFrame(q, q', Tail(g.dest), g);
    }
  }
}
