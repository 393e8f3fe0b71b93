/** Safety over whole runs: what holds in every state that a run can reach. */
module ProtocolRuns {
  import opened Routing
  import opened Fabric
  import opened Aggregation
  import opened Protocol
  import opened ProtocolInv

  // ------------------------------------------------------- channels as flows

  lemma ViewSent(pl: Plant, q: Queues<Body>, q': Queues<Body>, f: Flow, b: Body)
    requires ValidPlant(pl) && Sent(pl, q, q', f, b)
    ensures Grown(View(pl, q), View(pl, q'), f, b)
  {}

  /** The head of a channel that ends at its receiver is the oldest event of its flow. */
  lemma TakeView(pl: Plant, q: Queues<Body>, up: set<Addr>, c: Chan)
    requires Sound(pl, q, up) && On(q, c) != []
    requires c.Down? || ((c.Wire? || c.Up?) && On(q, c)[0].dest == RouterAt(Arrives(c)))
    ensures Sound(pl, DropHead(q, c), up) && FlowIn(pl, FlowOf(On(q, c)[0]))
    ensures Shrunk(View(pl, q), View(pl, DropHead(q, c)), FlowOf(On(q, c)[0]), On(q, c)[0].body)
    ensures c.Down? ==> On(q, c)[0].dest == c.server && c.server.ServerAt?
  {
    TakeStep(pl, q, up, c);
    WayKinds(pl, FlowOf(On(q, c)[0]));
  }

  lemma ViewFanned(pl: Plant, q: Queues<Body>, up: set<Addr>, r: nat, ps: seq<Packet<Body>>)
    requires Sound(pl, q, up) && FromRouter(pl, r, ps)
    ensures forall k :: 0 <= k < |ps| ==> CanSend(pl, r, ps[k])
    ensures Sound(pl, SendAll(pl, q, up, r, ps), up)
    ensures Fanned(View(pl, q), View(pl, SendAll(pl, q, up, r, ps)), ps)
  {
    SendAllStep(pl, q, up, r, ps);
    forall f | !FlowIn(pl, f) ensures Pick(ps, f) == [] {
      forall p | p in ps ensures FlowOf(p) != f { var i :| 0 <= i < |ps| && ps[i] == p; }
      PickNothing(ps, f);
    }
  }

  // ------------------------------------------------------------ histories

  /** What was received of a flow, then what is in flight, is what was sent, in order. */
  ghost predicate InOrder(fl: Flight, sent: seq<Packet<Body>>, got: seq<Packet<Body>>) {
    forall f :: Pick(sent, f) == Pick(got, f) + fl(f)
  }

  lemma InOrderGrown(fl: Flight, fl': Flight, sent: seq<Packet<Body>>, got: seq<Packet<Body>>, p: Packet<Body>)
    requires InOrder(fl, sent, got) && Grown(fl, fl', FlowOf(p), p.body)
    ensures InOrder(fl', sent + [p], got)
  {
    forall f ensures Pick(sent + [p], f) == Pick(got, f) + fl'(f) {
      PickConcat(sent, [p], f);
      PickOne(p, f);
    }
  }

  lemma InOrderShrunk(fl: Flight, fl': Flight, sent: seq<Packet<Body>>, got: seq<Packet<Body>>, p: Packet<Body>)
    requires InOrder(fl, sent, got) && Shrunk(fl, fl', FlowOf(p), p.body)
    ensures InOrder(fl', sent, got + [p])
  {
    forall f ensures Pick(sent, f) == Pick(got + [p], f) + fl'(f) {
      PickConcat(got, [p], f);
      PickOne(p, f);
    }
  }

  lemma InOrderFanned(fl: Flight, fl': Flight, sent: seq<Packet<Body>>, got: seq<Packet<Body>>, ps: seq<Packet<Body>>)
    requires InOrder(fl, sent, got) && Fanned(fl, fl', ps)
    ensures InOrder(fl', sent + ps, got)
  {
    forall f ensures Pick(sent + ps, f) == Pick(got, f) + fl'(f) {
      PickConcat(sent, ps, f);
    }
  }

  // ------------------------------------------- a communicator is created before it is used

  ghost predicate CreatedFirst(s: seq<Body>) {
    forall i :: 0 <= i < |s| && s[i].Req? ==> Create(s[i].comm) in s[..i]
  }

  ghost predicate CreatesSent(w: World, net: Net) {
    && (forall f :: CreatedFirst(Pick(net.sent, f)))
    && (forall c, comm :: c in w.home && comm in CommsOf(net, c) ==> CommSent(w, net.sent, w.home[c], comm, CommsOf(net, c)[comm]))
  }

  ghost predicate CommSent(w: World, sent: seq<Packet<Body>>, r: nat, comm: nat, members: seq<seq<Addr>>) {
    && Routable(w, members)
    && forall g, d :: 0 <= g < |members| && d in members[g] ==> Create(comm) in Pick(sent, Flow(RouterAt(r), d))
  }

  ghost predicate CreatesKnown(net: Net) {
    forall f, comm :: Create(comm) in Pick(net.got, f) ==> comm in Among(net.known, f.dest)
  }

  lemma CreatedAppend(s: seq<Body>, t: seq<Body>)
    requires CreatedFirst(s) && forall b :: b in t && b.Req? ==> Create(b.comm) in s
    ensures CreatedFirst(s + t)
  {
    forall i | 0 <= i < |s + t| && (s + t)[i].Req? ensures Create((s + t)[i].comm) in (s + t)[..i] {
      if i < |s| {
        assert (s + t)[..i] == s[..i];
      } else {
        assert (s + t)[i] in t;
        assert (s + t)[..i] == s + t[..i - |s|];
      }
    }
  }

  /** Events whose communicators were created on their own flow keep the order. */
  lemma CreatedMore(sent: seq<Packet<Body>>, ps: seq<Packet<Body>>)
    requires forall f :: CreatedFirst(Pick(sent, f))
    requires forall p :: p in ps && p.body.Req? ==> Create(p.body.comm) in Pick(sent, FlowOf(p))
    ensures forall f :: CreatedFirst(Pick(sent + ps, f))
  {
    forall f ensures CreatedFirst(Pick(sent + ps, f)) {
      PickConcat(sent, ps, f);
      forall b | b in Pick(ps, f) && b.Req? ensures Create(b.comm) in Pick(sent, f) { PickMember(ps, f, b); }
      CreatedAppend(Pick(sent, f), Pick(ps, f));
    }
  }

  lemma CommSentMore(w: World, sent: seq<Packet<Body>>, ps: seq<Packet<Body>>, r: nat, comm: nat, members: seq<seq<Addr>>)
    requires CommSent(w, sent, r, comm, members)
    ensures CommSent(w, sent + ps, r, comm, members)
  {
    forall g, d | 0 <= g < |members| && d in members[g] ensures Create(comm) in Pick(sent + ps, Flow(RouterAt(r), d)) {
      PickConcat(sent, ps, Flow(RouterAt(r), d));
    }
  }

  /** More events sent by any process, no new communicator. */
  lemma CreatesSentMore(w: World, net: Net, net': Net, ps: seq<Packet<Body>>)
    requires CreatesSent(w, net) && net'.comms == net.comms && net'.sent == net.sent + ps
    requires forall p :: p in ps && p.body.Req? ==> Create(p.body.comm) in Pick(net.sent, FlowOf(p))
    ensures CreatesSent(w, net')
  {
    CreatedMore(net.sent, ps);
    forall c, comm | c in w.home && comm in CommsOf(net', c)
      ensures CommSent(w, net'.sent, w.home[c], comm, CommsOf(net', c)[comm])
    {
      assert comm in CommsOf(net, c);
      CommSentMore(w, net.sent, ps, w.home[c], comm, CommsOf(net, c)[comm]);
    }
  }

  lemma CreatesSentComm(w: World, net: Net, net': Net, c: nat, comm: nat, members: seq<seq<Addr>>, ps: seq<Packet<Body>>)
    requires ValidWorld(w) && CreatesSent(w, net) && c in w.home && Routable(w, members)
    requires ps == FanCreate(w.home[c], members, comm)
    requires net'.comms == net.comms[c := CommsOf(net, c)[comm := members]] && net'.sent == net.sent + ps
    ensures CreatesSent(w, net')
  {
    FanCreateFrom(w, w.home[c], members, comm);
    CreatedMore(net.sent, ps);
    forall c', comm' | c' in w.home && comm' in CommsOf(net', c')
      ensures CommSent(w, net'.sent, w.home[c'], comm', CommsOf(net', c')[comm'])
    {
      if c' == c && comm' == comm {
        forall g, d | 0 <= g < |members| && d in members[g]
          ensures Create(comm) in Pick(net'.sent, Flow(RouterAt(w.home[c]), d))
        {
          PickConcat(net.sent, ps, Flow(RouterAt(w.home[c]), d));
          PickMember(ps, Flow(RouterAt(w.home[c]), d), Create(comm));
        }
      } else {
        assert comm' in CommsOf(net, c');
        CommSentMore(w, net.sent, ps, w.home[c'], comm', CommsOf(net, c')[comm']);
      }
    }
  }

  lemma CreatesKnownMore(net: Net, net': Net, p: Packet<Body>)
    requires CreatesKnown(net) && net'.got == net.got + [p]
    requires net'.known == if p.body.Create? then net.known[p.dest := Among(net.known, p.dest) + {p.body.comm}] else net.known
    ensures CreatesKnown(net')
  {
    forall f, comm | Create(comm) in Pick(net'.got, f) ensures comm in Among(net'.known, f.dest) {
      PickConcat(net.got, [p], f);
      PickOne(p, f);
      if Create(comm) in Pick(net.got, f) { assert comm in Among(net.known, f.dest); }
    }
  }

  // ------------------------------------------------------ a client's channel

  /** A client's unread messages: each communicator is announced once, before its first use,
      and the requests are numbered from taken to issued. */
  ghost predicate Backlog(w: World, s: seq<Msg>, known: set<nat>, taken: nat, announced: set<nat>, issued: nat) {
    if s == [] then known == announced && taken == issued else
      match s[0]
      case NewComm(comm, members) => comm !in known && Routable(w, members) && Backlog(w, s[1..], known + {comm}, taken, announced, issued)
      case Ask(comm, eid, op, ops) => comm in known && eid == taken && AskOk(op, ops) && Backlog(w, s[1..], known, taken + 1, announced, issued)
  }

  lemma {:induction false} BacklogAsk(w: World, s: seq<Msg>, known: set<nat>, taken: nat, announced: set<nat>, issued: nat,
                                      comm: nat, members: seq<seq<Addr>>, op: OpType, ops: seq<ValueOp>)
    requires Backlog(w, s, known, taken, announced, issued) && Routable(w, members) && AskOk(op, ops)
    ensures Backlog(w, s + (if comm in announced then [] else [NewComm(comm, members)]) + [Ask(comm, issued, op, ops)],
                    known, taken, announced + {comm}, issued + 1)
    ensures taken <= issued
    decreases |s|
  {
    var more := (if comm in announced then [] else [NewComm(comm, members)]) + [Ask(comm, issued, op, ops)];
    assert s + (if comm in announced then [] else [NewComm(comm, members)]) + [Ask(comm, issued, op, ops)] == s + more;
    if s == [] {
      assert s + more == more;
      if comm in announced {
        assert announced + {comm} == announced;
        assert more[1..] == [];
      } else {
        assert more[1..] == [Ask(comm, issued, op, ops)] && more[1..][1..] == [];
      }
    } else {
      assert (s + more)[0] == s[0] && (s + more)[1..] == s[1..] + more;
      assert s[1..] + more == s[1..] + (if comm in announced then [] else [NewComm(comm, members)]) + [Ask(comm, issued, op, ops)];
      match s[0]
      case NewComm(comm', _) => BacklogAsk(w, s[1..], known + {comm'}, taken, announced, issued, comm, members, op, ops);
      case Ask(_, _, _, _) => BacklogAsk(w, s[1..], known, taken + 1, announced, issued, comm, members, op, ops);
    }
  }

  ghost predicate ClientOk(w: World, net: Net, c: nat) {
    Backlog(w, At(net.inbox, c), CommsOf(net, c).Keys, Num(net.taken, c), Among(net.announced, c), Num(net.issued, c))
  }

  ghost predicate ClientsOk(w: World, net: Net) { forall c :: c in w.home ==> ClientOk(w, net, c) }

  /** Only client c's channel and communicators changed. */
  lemma OneClient(w: World, net: Net, net': Net, c: nat)
    requires ClientsOk(w, net) && (c in w.home ==> ClientOk(w, net', c))
    requires forall c' :: c' != c ==>
               At(net'.inbox, c') == At(net.inbox, c') && CommsOf(net', c') == CommsOf(net, c') && Num(net'.taken, c') == Num(net.taken, c')
               && Among(net'.announced, c') == Among(net.announced, c') && Num(net'.issued, c') == Num(net.issued, c')
    ensures ClientsOk(w, net')
  {
    forall c' | c' in w.home ensures ClientOk(w, net', c') { if c' != c { assert ClientOk(w, net, c'); } }
  }

  // ------------------------------------------------------- a request and its answer

  ghost predicate OpenTickets(w: World, net: Net) {
    forall k :: k in net.open ==> OpenTicket(w, net, k, net.open[k].ticket)
  }

  ghost predicate AnsweredTickets(w: World, net: Net) {
    forall t :: At(net.answers, t) != [] ==> AnsweredTicket(w, net, t)
  }

  ghost predicate StillOpen(net: Net, t: Ticket) {
    t in net.slot && net.slot[t] in net.open && net.open[net.slot[t]].ticket == t
  }

  ghost predicate TakenTickets(w: World, net: Net) {
    forall t: Ticket {:trigger StillOpen(net, t)} :: t.client in w.home && t.eid < Num(net.taken, t.client) && At(net.answers, t) == [] ==> StillOpen(net, t)
  }

  /** A request the router has taken is either open or answered once, and an answer is
      right: every source of every group was heard and the rows are what they sent. */
  ghost predicate TicketsOk(w: World, net: Net) {
    OpenTickets(w, net) && TakenTickets(w, net) && AnsweredTickets(w, net)
  }

  ghost predicate OpenTicket(w: World, net: Net, k: ReqKey, t: Ticket) {
    && t.client in w.home && k.rtr == w.home[t.client] && t.eid < Num(net.taken, t.client)
    && At(net.answers, t) == [] && t in net.slot && net.slot[t] == k
  }

  ghost predicate AnsweredTicket(w: World, net: Net, t: Ticket) {
    && t.client in w.home && t.eid < Num(net.taken, t.client) && t in net.slot
    && |At(net.answers, t)| == 1
    && At(net.answers, t)[0].ticket == t && Finished(net.slot[t], At(net.answers, t)[0])
  }

  // --------------------------------------------------------------- the invariant

  /** The channels and what the open requests have heard. */
  ghost predicate Flowing(w: World, q: Queues<Body>, up: set<Addr>, held: map<Addr, seq<Packet<Body>>>, open: map<ReqKey, Request>,
                          sent: seq<Packet<Body>>, got: seq<Packet<Body>>)
  {
    ValidWorld(w) && Sound(w.plant, q, up) && Traffic(w, View(w.plant, q), held, open) && InOrder(View(w.plant, q), sent, got)
  }

  /** The histories, the clients and the requests by their tickets. */
  ghost predicate Booked(w: World, net: Net) {
    CreatesSent(w, net) && CreatesKnown(net) && ClientsOk(w, net) && TicketsOk(w, net)
  }

  ghost predicate Inv(w: World, net: Net) {
    Flowing(w, net.q, net.up, net.held, net.open, net.sent, net.got) && Booked(w, net)
  }

  /** Nothing changed but the channels and what has been sent or received. */
  lemma BookedMore(w: World, net: Net, net': Net, ps: seq<Packet<Body>>)
    requires Booked(w, net)
    requires net' == net.(q := net'.q, up := net'.up, held := net'.held, sent := net.sent + ps)
    requires forall p :: p in ps ==> !p.body.Req?
    ensures Booked(w, net')
  {
    CreatesSentMore(w, net, net', ps);
    SameTickets(w, net, net');
    SameClients(w, net, net');
  }

  lemma SameClients(w: World, net: Net, net': Net)
    requires ClientsOk(w, net)
    requires net'.inbox == net.inbox && net'.comms == net.comms && net'.taken == net.taken && net'.announced == net.announced && net'.issued == net.issued
    ensures ClientsOk(w, net')
  {
    forall c | c in w.home ensures ClientOk(w, net', c) { assert ClientOk(w, net, c); }
  }

  /** A process has received p. */
  lemma BookedGot(w: World, net: Net, net': Net, p: Packet<Body>)
    requires Booked(w, net)
    requires net' == net.(q := net'.q, held := net'.held, known := net'.known, open := net'.open, answers := net'.answers, got := net.got + [p])
    requires net'.known == if p.body.Create? then net.known[p.dest := Among(net.known, p.dest) + {p.body.comm}] else net.known
    requires TicketsOk(w, net')
    ensures Booked(w, net')
  {
    CreatesKnownMore(net, net', p);
    SameCreates(w, net, net');
    SameClients(w, net, net');
  }

  lemma IdleInv(w: World)
    requires ValidWorld(w)
    ensures Inv(w, IDLE)
  {
    forall f | FlowIn(w.plant, f) ensures InFlight<Body>(w.plant, map[], f) == [] {
      NothingFlat(Way(w.plant, f), f);
    }
  }

  lemma {:induction false} NothingFlat(way: seq<Chan>, f: Flow)
    ensures Flat<Body>(map[], way, f) == []
  {
    if way != [] { NothingFlat(way[1..], f); }
  }

  lemma AsksStep(w: World, net: Net, c: nat, comm: nat, members: seq<seq<Addr>>, op: OpType, ops: seq<ValueOp>)
    requires Booked(w, net) && c in w.home && Routable(w, members) && AskOk(op, ops)
    ensures Booked(w, DoAsk(net, c, comm, members, op, ops))
  {
    hide Backlog, TicketsOk, CreatesSent, Routable, AskOk;
    assert ClientOk(w, net, c);
    BacklogAsk(w, At(net.inbox, c), CommsOf(net, c).Keys, Num(net.taken, c), Among(net.announced, c), Num(net.issued, c), comm, members, op, ops);
    var net' := DoAsk(net, c, comm, members, op, ops);
    OneClient(w, net, net', c);
    SameTickets(w, net, net');
    SameCreates(w, net, net');
  }

  lemma SameCreates(w: World, net: Net, net': Net)
    requires CreatesSent(w, net) && net'.comms == net.comms && net'.sent == net.sent
    ensures CreatesSent(w, net')
  {
    assert net.sent + [] == net.sent;
    CreatesSentMore(w, net, net', []);
  }

  lemma Taken(w: World, net: Net, c: nat)
    requires Booked(w, net) && c in w.home && At(net.inbox, c) != []
    ensures TakeOk(w, net, c)
    ensures At(net.inbox, c)[0].Ask? ==> At(net.inbox, c)[0].eid == Num(net.taken, c)
  {
    assert ClientOk(w, net, c);
    var m := At(net.inbox, c)[0];
    if m.Ask? { assert CommSent(w, net.sent, w.home[c], m.comm, CommsOf(net, c)[m.comm]); }
  }

  lemma CommStep(w: World, net: Net, c: nat, m: Msg)
    requires Inv(w, net) && c in w.home && At(net.inbox, c) != [] && At(net.inbox, c)[0] == m && m.NewComm? && TakeOk(w, net, c)
    ensures Inv(w, DoComm(w, net, c, m))
  {
    CommFlows(w, net, w.home[c], m.members, m.comm);
    CommBooks(w, net, DoComm(w, net, c, m), c, m);
  }

  lemma CommFlows(w: World, net: Net, r: nat, members: seq<seq<Addr>>, comm: nat)
    requires Flowing(w, net.q, net.up, net.held, net.open, net.sent, net.got) && r in w.plant.mesh.Keys && Routable(w, members)
    ensures var ps := FanCreate(r, members, comm);
            && (forall i :: 0 <= i < |ps| ==> CanSend(w.plant, r, ps[i]))
            && Flowing(w, SendAll(w.plant, net.q, net.up, r, ps), net.up, net.held, net.open, net.sent + ps, net.got)
  {
    var ps := FanCreate(r, members, comm);
    FanCreateFrom(w, r, members, comm);
    ViewFanned(w.plant, net.q, net.up, r, ps);
    var fl, fl' := View(w.plant, net.q), View(w.plant, SendAll(w.plant, net.q, net.up, r, ps));
    CommTraffic(w, fl, fl', net.held, net.open, r, members, comm);
    InOrderFanned(fl, fl', net.sent, net.got, ps);
  }

  lemma CommBooks(w: World, net: Net, net': Net, c: nat, m: Msg)
    requires ValidWorld(w) && Booked(w, net) && c in w.home && At(net.inbox, c) != [] && At(net.inbox, c)[0] == m && m.NewComm? && TakeOk(w, net, c)
    requires net' == net.(q := net'.q, inbox := net.inbox[c := At(net.inbox, c)[1..]],
                          comms := net.comms[c := CommsOf(net, c)[m.comm := m.members]],
                          sent := net.sent + FanCreate(w.home[c], m.members, m.comm))
    ensures Booked(w, net')
  {
    hide CreatesSent, TicketsOk, FanCreate, ValidWorld;
    CreatesSentComm(w, net, net', c, m.comm, m.members, FanCreate(w.home[c], m.members, m.comm));
    assert ClientOk(w, net, c);
    assert CommsOf(net', c).Keys == CommsOf(net, c).Keys + {m.comm};
    OneClient(w, net, net', c);
    SameTickets(w, net, net');
  }

  lemma SameTickets(w: World, net: Net, net': Net)
    requires TicketsOk(w, net)
    requires net'.open == net.open && net'.slot == net.slot && net'.answers == net.answers && net'.taken == net.taken
    ensures TicketsOk(w, net')
  {
    forall t | At(net'.answers, t) != [] ensures AnsweredTicket(w, net', t) { assert AnsweredTicket(w, net, t); }
    forall k | k in net'.open ensures OpenTicket(w, net', k, net'.open[k].ticket) { assert OpenTicket(w, net, k, net.open[k].ticket); }
    StillTaken(w, net, net');
  }

  lemma StillTaken(w: World, net: Net, net': Net)
    requires TakenTickets(w, net) && net'.taken == net.taken
    requires forall t :: At(net'.answers, t) == [] ==> At(net.answers, t) == [] && (StillOpen(net, t) ==> StillOpen(net', t))
    ensures TakenTickets(w, net')
  {
    forall t: Ticket | t.client in w.home && t.eid < Num(net'.taken, t.client) && At(net'.answers, t) == [] ensures StillOpen(net', t) {
      assert StillOpen(net, t);
    }
  }

  /** The request that a client's message opens. */
  ghost function Opened(net: Net, c: nat, m: Msg): Request
    requires m.Ask? && AskOk(m.op, m.ops) && m.comm in CommsOf(net, c)
  {
    Request(Ticket(c, m.eid), m.op, m.ops, CommsOf(net, c)[m.comm], Start(m.op, m.ops, Sizes(CommsOf(net, c)[m.comm])), [])
  }

  lemma InvValid(w: World, net: Net)
    requires Inv(w, net)
    ensures ValidWorld(w)
  {}

  lemma RequestNet(w: World, net: Net, c: nat, m: Msg, id: nat)
    requires ValidWorld(w) && c in w.home && At(net.inbox, c) != [] && At(net.inbox, c)[0] == m && m.Ask? && TakeOk(w, net, c)
    ensures var k, net' := ReqKey(w.home[c], id), DoRequest(w, net, c, m, id);
            var ps := FanReq(k.rtr, CommsOf(net, c)[m.comm], m.comm, id, m.op, Columns(m.op, m.ops));
            && (forall i :: 0 <= i < |ps| ==> CanSend(w.plant, k.rtr, ps[i]))
            && net' == net.(q := SendAll(w.plant, net.q, net.up, k.rtr, ps), inbox := net.inbox[c := At(net.inbox, c)[1..]],
                            taken := net.taken[c := m.eid + 1], open := net.open[k := Opened(net, c, m)],
                            slot := net.slot[Ticket(c, m.eid) := k], sent := net.sent + ps)
  {
    hide SendAll, Routable;
    var r, groups := w.home[c], CommsOf(net, c)[m.comm];
    FanReqFrom(w, r, groups, m.comm, id, m.op, Columns(m.op, m.ops));
    FromRouterCanSend(w.plant, r, FanReq(r, groups, m.comm, id, m.op, Columns(m.op, m.ops)));
  }

  lemma RequestStep(w: World, net: Net, c: nat, id: nat)
    requires Inv(w, net) && c in w.home && At(net.inbox, c) != [] && At(net.inbox, c)[0].Ask? && TakeOk(w, net, c)
    requires At(net.inbox, c)[0].eid == Num(net.taken, c) && ReqKey(w.home[c], id) !in net.open
    ensures Inv(w, DoRequest(w, net, c, At(net.inbox, c)[0], id))
  {
    InvValid(w, net);
    hide Flowing, Booked, DoRequest, FanReq, SendAll, Start;
    var m := At(net.inbox, c)[0];
    var k := ReqKey(w.home[c], id);
    RequestNet(w, net, c, m, id);
    RequestFlows(w, net, k, Opened(net, c, m), m.comm);
    RequestBooks(w, net, DoRequest(w, net, c, m, id), c, m, k);
  }

  lemma RequestFlows(w: World, net: Net, k: ReqKey, r: Request, comm: nat)
    requires Flowing(w, net.q, net.up, net.held, net.open, net.sent, net.got) && k !in net.open && k.rtr in w.plant.mesh.Keys
    requires AskOk(r.op, r.ops) && Routable(w, r.groups) && r.arr == [] && r.info == Start(r.op, r.ops, Sizes(r.groups))
    ensures var ps := FanReq(k.rtr, r.groups, comm, k.id, r.op, Columns(r.op, r.ops));
            && (forall i :: 0 <= i < |ps| ==> CanSend(w.plant, k.rtr, ps[i]))
            && Flowing(w, SendAll(w.plant, net.q, net.up, k.rtr, ps), net.up, net.held, net.open[k := r], net.sent + ps, net.got)
  {
    var ps := FanReq(k.rtr, r.groups, comm, k.id, r.op, Columns(r.op, r.ops));
    FanReqFrom(w, k.rtr, r.groups, comm, k.id, r.op, Columns(r.op, r.ops));
    ViewFanned(w.plant, net.q, net.up, k.rtr, ps);
    var fl, fl' := View(w.plant, net.q), View(w.plant, SendAll(w.plant, net.q, net.up, k.rtr, ps));
    RequestTraffic(w, fl, fl', net.held, net.open, k, r, comm);
    InOrderFanned(fl, fl', net.sent, net.got, ps);
  }

  lemma RequestBooks(w: World, net: Net, net': Net, c: nat, m: Msg, k: ReqKey)
    requires ValidWorld(w) && Booked(w, net) && c in w.home && At(net.inbox, c) != [] && At(net.inbox, c)[0] == m && m.Ask? && TakeOk(w, net, c)
    requires m.eid == Num(net.taken, c) && k.rtr == w.home[c] && k !in net.open
    requires net' == net.(q := net'.q, inbox := net.inbox[c := At(net.inbox, c)[1..]], taken := net.taken[c := m.eid + 1],
                          open := net.open[k := Opened(net, c, m)], slot := net.slot[Ticket(c, m.eid) := k],
                          sent := net.sent + FanReq(k.rtr, CommsOf(net, c)[m.comm], m.comm, k.id, m.op, Columns(m.op, m.ops)))
    ensures Booked(w, net')
  {
    hide TicketsOk, FanReq, Start, Columns, Routable;
    var groups := CommsOf(net, c)[m.comm];
    var ps := FanReq(k.rtr, groups, m.comm, k.id, m.op, Columns(m.op, m.ops));
    FanReqFrom(w, k.rtr, groups, m.comm, k.id, m.op, Columns(m.op, m.ops));
    assert CommSent(w, net.sent, k.rtr, m.comm, groups);
    forall p | p in ps ensures p.body.Req? && Create(p.body.comm) in Pick(net.sent, FlowOf(p)) {
      var i :| 0 <= i < |ps| && ps[i] == p;
      assert p.dest in groups[p.body.grp];
    }
    CreatesSentMore(w, net, net', ps);
    assert ClientOk(w, net, c);
    OneClient(w, net, net', c);
    NewTicket(w, net, net', k, Opened(net, c, m));
  }

  lemma NewTicket(w: World, net: Net, net': Net, k: ReqKey, r: Request)
    requires TicketsOk(w, net) && k !in net.open && r.ticket.client in w.home && k.rtr == w.home[r.ticket.client]
    requires r.ticket.eid == Num(net.taken, r.ticket.client)
    requires net'.open == net.open[k := r] && net'.slot == net.slot[r.ticket := k] && net'.answers == net.answers
    requires net'.taken == net.taken[r.ticket.client := r.ticket.eid + 1]
    ensures TicketsOk(w, net')
  {
    hide Finished;
    assert !AnsweredTicket(w, net, r.ticket);
    forall t | At(net'.answers, t) != [] ensures AnsweredTicket(w, net', t) { assert AnsweredTicket(w, net, t); }
    forall k' | k' in net'.open ensures OpenTicket(w, net', k', net'.open[k'].ticket) {
      if k' != k { assert OpenTicket(w, net, k', net.open[k'].ticket); }
    }
    forall t: Ticket | t.client in w.home && t.eid < Num(net'.taken, t.client) && At(net'.answers, t) == [] ensures StillOpen(net', t) {
      if t != r.ticket { assert t.eid < Num(net.taken, t.client); assert StillOpen(net, t); }
    }
  }

  lemma RelaysStep(w: World, net: Net, ch: Chan)
    requires Inv(w, net) && (ch.Wire? || ch.Up?) && On(net.q, ch) != [] && On(net.q, ch)[0].dest != RouterAt(Arrives(ch))
    ensures CanSend(w.plant, Arrives(ch), On(net.q, ch)[0])
    ensures Inv(w, net.(q := Send(w.plant, DropHead(net.q, ch), net.up, Arrives(ch), On(net.q, ch)[0])))
  {
    RelayStep(w.plant, net.q, net.up, ch);
    SameView(w, net, net.(q := Send(w.plant, DropHead(net.q, ch), net.up, Arrives(ch), On(net.q, ch)[0])));
  }

  lemma SameView(w: World, net: Net, net': Net)
    requires Inv(w, net) && Sound(w.plant, net'.q, net'.up) && Unmoved(w.plant, net.q, net'.q)
    requires net' == net.(q := net'.q, up := net'.up)
    ensures Inv(w, net')
  {
    SameTraffic(w, View(w.plant, net.q), View(w.plant, net'.q), net.held, net.open);
    forall f ensures Pick(net'.sent, f) == Pick(net'.got, f) + View(w.plant, net'.q)(f) {
      assert View(w.plant, net'.q)(f) == View(w.plant, net.q)(f);
    }
    assert net.sent + [] == net.sent;
    BookedMore(w, net, net', []);
  }

  lemma ServesStep(w: World, net: Net, s: Addr)
    requires Inv(w, net) && On(net.q, Down(s)) != []
    ensures Inv(w, DoServe(net, s))
    ensures On(net.q, Down(s))[0].dest == s && !On(net.q, Down(s))[0].body.Reply?
    ensures On(net.q, Down(s))[0].body.Req? ==> On(net.q, Down(s))[0].body.comm in Among(net.known, s)
  {
    var p := On(net.q, Down(s))[0];
    ServesFlow(w, net, s);
    var net' := DoServe(net, s);
    SameTickets(w, net, net');
    BookedGot(w, net, net', p);
  }

  lemma ServesFlow(w: World, net: Net, s: Addr)
    requires Inv(w, net) && On(net.q, Down(s)) != []
    ensures var p := On(net.q, Down(s))[0];
            Flowing(w, DropHead(net.q, Down(s)), net.up, if p.body.Create? then net.held else net.held[s := At(net.held, s) + [p]], net.open, net.sent, net.got + [p])
    ensures On(net.q, Down(s))[0].dest == s && !On(net.q, Down(s))[0].body.Reply?
    ensures On(net.q, Down(s))[0].body.Req? ==> On(net.q, Down(s))[0].body.comm in Among(net.known, s)
  {
    var p := On(net.q, Down(s))[0];
    var fl, fl' := View(w.plant, net.q), View(w.plant, DropHead(net.q, Down(s)));
    TakeView(w.plant, net.q, net.up, Down(s));
    ServeTraffic(w, fl, fl', net.held, net.open, p);
    InOrderShrunk(fl, fl', net.sent, net.got, p);
    UsesKnown(net, fl, fl', p);
  }

  /** The oldest event in flight to a server uses only communicators the server knows. */
  lemma UsesKnown(net: Net, fl: Flight, fl': Flight, p: Packet<Body>)
    requires InOrder(fl, net.sent, net.got) && Shrunk(fl, fl', FlowOf(p), p.body)
    requires (forall f :: CreatedFirst(Pick(net.sent, f))) && CreatesKnown(net)
    ensures p.body.Req? ==> p.body.comm in Among(net.known, p.dest)
  {
    var f := FlowOf(p);
    var before := Pick(net.got, f);
    assert Pick(net.sent, f) == before + ([p.body] + fl'(f));
    assert Pick(net.sent, f)[|before|] == p.body;
    assert Pick(net.sent, f)[..|before|] == before;
    assert CreatedFirst(Pick(net.sent, f));
  }

  lemma AnswersStep(w: World, net: Net, a: Action)
    requires Inv(w, net) && a.Answers? && Enabled(w, net, a)
    ensures Inv(w, Do(w, net, a))
  {
    AnswersFlow(w, net, a.server, a.k, a.resp);
    BookedMore(w, net, Do(w, net, a), [Answered(At(net.held, a.server)[a.k], a.resp)]);
  }

  lemma AnswersFlow(w: World, net: Net, s: Addr, k: nat, resp: Resp)
    requires Flowing(w, net.q, net.up, net.held, net.open, net.sent, net.got)
    requires k < |At(net.held, s)| && At(net.held, s)[k].body.Req? && ReplyFits(At(net.held, s)[k].body.op, At(net.held, s)[k].body.n, resp)
    ensures At(net.held, s)[k].dest == s
    ensures var back := Answered(At(net.held, s)[k], resp);
            Flowing(w, Append(net.q, Up(s), back), net.up, net.held[s := At(net.held, s)[..k] + At(net.held, s)[k + 1..]], net.open, net.sent + [back], net.got)
  {
    var p := At(net.held, s)[k];
    assert p in At(net.held, s);
    var back := Answered(p, resp);
    var q' := Append(net.q, Up(s), back);
    assert BodyOk(net.open, FlowOf(p), p.body);
    UpStep(w.plant, net.q, net.up, back);
    ViewSent(w.plant, net.q, q', FlowOf(back), back.body);
    AnswerTraffic(w, View(w.plant, net.q), View(w.plant, q'), net.held, net.open, s, k, resp);
    InOrderGrown(View(w.plant, net.q), View(w.plant, q'), net.sent, net.got, back);
  }

  lemma CollectsStep(w: World, net: Net, ch: Chan)
    requires Inv(w, net) && (ch.Wire? || ch.Up?) && On(net.q, ch) != [] && On(net.q, ch)[0].dest == RouterAt(Arrives(ch))
    ensures CollectOk(net, On(net.q, ch)[0])
    ensures Inv(w, DoCollect(net, ch))
  {
    var p := On(net.q, ch)[0];
    CollectsFlow(w, net, ch);
    CollectsBooks(w, net, DoCollect(net, ch), p);
  }

  lemma CollectsFlow(w: World, net: Net, ch: Chan)
    requires Flowing(w, net.q, net.up, net.held, net.open, net.sent, net.got)
    requires (ch.Wire? || ch.Up?) && On(net.q, ch) != [] && On(net.q, ch)[0].dest == RouterAt(Arrives(ch))
    ensures CollectOk(net, On(net.q, ch)[0])
    ensures var p := On(net.q, ch)[0];
            && Flowing(w, DropHead(net.q, ch), net.up, net.held, Kept(net.open, KeyOf(p), p), net.sent, net.got + [p])
            && (Ends(net.open[KeyOf(p)], p) ==> Finished(KeyOf(p), Counted(net.open[KeyOf(p)], p)))
  {
    var p := On(net.q, ch)[0];
    var fl, fl' := View(w.plant, net.q), View(w.plant, DropHead(net.q, ch));
    TakeView(w.plant, net.q, net.up, ch);
    ReplyFound(w, fl, fl', net.held, net.open, p);
    CollectTraffic(w, fl, fl', net.held, net.open, p, KeyOf(p));
    InOrderShrunk(fl, fl', net.sent, net.got, p);
  }

  lemma CollectsBooks(w: World, net: Net, net': Net, p: Packet<Body>)
    requires Booked(w, net) && CollectOk(net, p)
    requires Ends(net.open[KeyOf(p)], p) ==> Finished(KeyOf(p), Counted(net.open[KeyOf(p)], p))
    requires net' == net.(q := net'.q, got := net.got + [p], open := Kept(net.open, KeyOf(p), p), answers := Told(net.answers, net.open[KeyOf(p)], p))
    ensures Booked(w, net')
  {
    var r := net.open[KeyOf(p)];
    if Ends(r, p) {
      ClosedTicket(w, net, net', KeyOf(p), Counted(r, p));
    } else {
      KeptTicket(w, net, net', KeyOf(p), Counted(r, p));
    }
    BookedGot(w, net, net', p);
  }

  lemma ClosedTicket(w: World, net: Net, net': Net, k: ReqKey, r: Request)
    requires TicketsOk(w, net) && k in net.open && r.ticket == net.open[k].ticket && Finished(k, r)
    requires net'.open == net.open - {k} && net'.answers == net.answers[r.ticket := At(net.answers, r.ticket) + [r]]
    requires net'.slot == net.slot && net'.taken == net.taken
    ensures TicketsOk(w, net')
  {
    hide Finished;
    assert OpenTicket(w, net, k, r.ticket);
    forall t | At(net'.answers, t) != [] ensures AnsweredTicket(w, net', t) {
      if t != r.ticket { assert AnsweredTicket(w, net, t); }
    }
    forall k' | k' in net'.open ensures OpenTicket(w, net', k', net'.open[k'].ticket) {
      assert OpenTicket(w, net, k', net.open[k'].ticket);
    }
    StillTaken(w, net, net');
  }

  lemma KeptTicket(w: World, net: Net, net': Net, k: ReqKey, r: Request)
    requires TicketsOk(w, net) && k in net.open && r.ticket == net.open[k].ticket
    requires net'.open == net.open[k := r] && net'.answers == net.answers && net'.slot == net.slot && net'.taken == net.taken
    ensures TicketsOk(w, net')
  {
    forall t | At(net'.answers, t) != [] ensures AnsweredTicket(w, net', t) { assert AnsweredTicket(w, net, t); }
    forall k' | k' in net'.open ensures OpenTicket(w, net', k', net'.open[k'].ticket) {
      assert OpenTicket(w, net, k', net.open[k'].ticket);
    }
    StillTaken(w, net, net');
  }

  lemma ConnectsStep(w: World, net: Net, s: Addr)
    requires Inv(w, net)
    ensures Inv(w, net.(q := Drain(net.q, s), up := net.up + {s}))
  {
    DrainStep(w.plant, net.q, net.up, s);
    SameView(w, net, net.(q := Drain(net.q, s), up := net.up + {s}));
  }

  /** Every step keeps the invariant. */
  lemma StepKeeps(w: World, net: Net, a: Action)
    requires Inv(w, net) && Enabled(w, net, a)
    ensures Inv(w, Do(w, net, a))
  {
    match a
    case Asks(c, comm, members, op, ops) => AsksStep(w, net, c, comm, members, op, ops);
    case Takes(c, id) =>
      Taken(w, net, c);
      if At(net.inbox, c)[0].NewComm? { CommStep(w, net, c, At(net.inbox, c)[0]); } else { RequestStep(w, net, c, id); }
    case Relays(ch) => RelaysStep(w, net, ch);
    case Collects(ch) => CollectsStep(w, net, ch);
    case Connects(s) => ConnectsStep(w, net, s);
    case Serves(s) => ServesStep(w, net, s);
    case Answers(_, _, _) => AnswersStep(w, net, a);
  }

  lemma {:induction false} RunKeeps(w: World, nets: seq<Net>, acts: seq<Action>, i: nat)
    requires IsRun(w, nets, acts) && i < |nets|
    ensures Inv(w, nets[i])
  {
    if i == 0 { IdleInv(w); } else { RunKeeps(w, nets, acts, i - 1); StepKeeps(w, nets[i - 1], acts[i - 1]); }
  }
}
