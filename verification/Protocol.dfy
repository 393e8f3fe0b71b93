/** Whole runs of the request protocol: clients, a tree of routers that fan requests out
    and add replies up, and servers that answer in any order. */
module Protocol {
  import opened Routing
  import opened Fabric
  import opened Aggregation

  /** What a RouterEvent wraps: a CommCreate for one source, a CommReq for one source of
      group grp, or a source's CommResp. */
  datatype Body = Create(comm: nat)
                | Req(comm: nat, id: nat, grp: nat, op: OpType, n: nat)
                | Reply(id: nat, grp: nat, resp: Resp)

  /** A value of the type, for positions that hold no event. */
  const NOWHERE: Packet<Body> := Packet(RouterAt(0), RouterAt(0), Create(0))

  /** What a client sends its router. */
  datatype Msg = NewComm(comm: nat, members: seq<seq<Addr>>)
               | Ask(comm: nat, eid: nat, op: OpType, ops: seq<ValueOp>)

  /** A client's request: eid is the id in its CommReq. */
  datatype Ticket = Ticket(client: nat, eid: nat)

  /** An open request at a router: the router's id for it is the address of its CommReqInfo. */
  datatype ReqKey = ReqKey(rtr: nat, id: nat)

  /** arr: the replies processed so far, with their sources. */
  datatype Request = Request(ticket: Ticket, op: OpType, ops: seq<ValueOp>, groups: seq<seq<Addr>>,
                             info: Info, arr: seq<Packet<Body>>)

  datatype World = World(plant: Plant, home: map<nat, nat>)

  /** sent and got are histories; the rest is the state of the processes. */
  datatype Net = Net(
    q: Queues<Body>, up: set<Addr>,
    inbox: map<nat, seq<Msg>>, announced: map<nat, set<nat>>, issued: map<nat, nat>, taken: map<nat, nat>,
    comms: map<nat, map<nat, seq<seq<Addr>>>>,
    open: map<ReqKey, Request>, slot: map<Ticket, ReqKey>, answers: map<Ticket, seq<Request>>,
    held: map<Addr, seq<Packet<Body>>>, known: map<Addr, set<nat>>,
    sent: seq<Packet<Body>>, got: seq<Packet<Body>>)

  function At<K, T>(m: map<K, seq<T>>, k: K): seq<T> { if k in m then m[k] else [] }

  function Num(m: map<nat, nat>, k: nat): nat { if k in m then m[k] else 0 }

  function Among<K>(m: map<K, set<nat>>, k: K): set<nat> { if k in m then m[k] else {} }

  function CommsOf(net: Net, c: nat): map<nat, seq<seq<Addr>>> { if c in net.comms then net.comms[c] else map[] }

  ghost predicate ValidWorld(w: World) {
    ValidPlant(w.plant) && forall c :: c in w.home ==> w.home[c] in w.plant.mesh.Keys
  }

  /** All names of a communicator are in the route table: sources are servers of known routers. */
  ghost predicate Routable(w: World, members: seq<seq<Addr>>) {
    forall g, k :: 0 <= g < |members| && 0 <= k < |members[g]| ==>
      members[g][k].ServerAt? && members[g][k].rtr in w.plant.mesh.Keys
  }

  ghost predicate AskOk(op: OpType, ops: seq<ValueOp>) {
    op == Get ==> forall k :: 0 <= k < |ops| ==> ops[k] == FpAdd
  }

  function Sizes(groups: seq<seq<Addr>>): (s: seq<nat>)
    ensures |s| == |groups| && forall g :: 0 <= g < |s| ==> s[g] == |groups[g]|
  {
    seq(|groups|, g requires 0 <= g < |groups| => |groups[g]|)
  }

  // ---------------------------------------------------------------- fan-out

  /** The events one group's loop sends. */
  function FanGroup(r: nat, group: seq<Addr>, b: Body): (ps: seq<Packet<Body>>)
    ensures |ps| == |group| && forall k :: 0 <= k < |ps| ==> ps[k] == Packet(RouterAt(r), group[k], b)
  {
    seq(|group|, k requires 0 <= k < |group| => Packet(RouterAt(r), group[k], b))
  }

  /** RtrCommReqEvent::process: for every group and every source of it, this event with
      grpIndex set to the group. */
  function FanReq(r: nat, groups: seq<seq<Addr>>, comm: nat, id: nat, op: OpType, n: nat): seq<Packet<Body>> {
    if groups == [] then [] else
      FanReq(r, groups[..|groups| - 1], comm, id, op, n)
      + FanGroup(r, groups[|groups| - 1], Req(comm, id, |groups| - 1, op, n))
  }

  /** RtrCommCreateEvent::process: one CommCreate for every source of every member. */
  function FanCreate(r: nat, groups: seq<seq<Addr>>, comm: nat): seq<Packet<Body>> {
    if groups == [] then [] else
      FanCreate(r, groups[..|groups| - 1], comm) + FanGroup(r, groups[|groups| - 1], Create(comm))
  }

  /** The two loops of RtrCommReqEvent::process: this event, with grpIndex rewritten, to
      every source of every group. */
  method SendRequests(r: nat, commList: seq<seq<Addr>>, comm: nat, id: nat, op: OpType, n: nat) returns (out: seq<Packet<Body>>)
    ensures out == FanReq(r, commList, comm, id, op, n)
  {
    out := [];
    var i := 0;
    while i < |commList|
      invariant 0 <= i <= |commList| && out == FanReq(r, commList[..i], comm, id, op, n)
    {
      var grpIndex := i;
      var j := 0;
      while j < |commList[i]|
        invariant 0 <= j <= |commList[i]|
        invariant out == FanReq(r, commList[..i], comm, id, op, n) + FanGroup(r, commList[i][..j], Req(comm, id, grpIndex, op, n))
      {
        out := out + [Packet(RouterAt(r), commList[i][j], Req(comm, id, grpIndex, op, n))];
        j := j + 1;
      }
      assert commList[i][..j] == commList[i] && commList[..i + 1][..i] == commList[..i];
      i := i + 1;
    }
    assert commList[..i] == commList;
  }

  /** The two loops of RtrCommCreateEvent::process. */
  method SendCreates(r: nat, members: seq<seq<Addr>>, comm: nat) returns (out: seq<Packet<Body>>)
    ensures out == FanCreate(r, members, comm)
  {
    out := [];
    var j := 0;
    while j < |members|
      invariant 0 <= j <= |members| && out == FanCreate(r, members[..j], comm)
    {
      var i := 0;
      while i < |members[j]|
        invariant 0 <= i <= |members[j]|
        invariant out == FanCreate(r, members[..j], comm) + FanGroup(r, members[j][..i], Create(comm))
      {
        out := out + [Packet(RouterAt(r), members[j][i], Create(comm))];
        i := i + 1;
      }
      assert members[j][..i] == members[j] && members[..j + 1][..j] == members[..j];
      j := j + 1;
    }
    assert members[..j] == members;
  }

  /** A router's loop of sendEvent calls. */
  ghost function SendAll(pl: Plant, q: Queues<Body>, up: set<Addr>, r: nat, ps: seq<Packet<Body>>): Queues<Body>
    requires forall k :: 0 <= k < |ps| ==> CanSend(pl, r, ps[k])
  {
    if ps == [] then q else
      Send(pl, SendAll(pl, q, up, r, ps[..|ps| - 1]), up, r, ps[|ps| - 1])
  }

  /** Events from router r for servers of known routers. */
  ghost predicate FromRouter(pl: Plant, r: nat, ps: seq<Packet<Body>>) {
    r in pl.mesh.Keys &&
    forall k :: 0 <= k < |ps| ==> ps[k].src == RouterAt(r) && ps[k].dest.ServerAt? && ps[k].dest.rtr in pl.mesh.Keys
  }

  lemma FromRouterCanSend(pl: Plant, r: nat, ps: seq<Packet<Body>>)
    requires ValidPlant(pl) && FromRouter(pl, r, ps)
    ensures forall k :: 0 <= k < |ps| ==> CanSend(pl, r, ps[k])
  {
    forall k | 0 <= k < |ps| ensures CanSend(pl, r, ps[k]) {
      assert Nearer(pl.mesh, pl.dist, r, ps[k].dest.rtr);
    }
  }

  /** A fan-out extends every flow by its own events, in the order sent. */
  lemma {:induction false} SendAllStep(pl: Plant, q: Queues<Body>, up: set<Addr>, r: nat, ps: seq<Packet<Body>>)
    requires Sound(pl, q, up) && FromRouter(pl, r, ps)
    ensures forall k :: 0 <= k < |ps| ==> CanSend(pl, r, ps[k])
    ensures Sound(pl, SendAll(pl, q, up, r, ps), up)
    ensures forall f :: FlowIn(pl, f) ==> InFlight(pl, SendAll(pl, q, up, r, ps), f) == InFlight(pl, q, f) + Pick(ps, f)
  {
    FromRouterCanSend(pl, r, ps);
    if ps != [] {
      var before, p := ps[..|ps| - 1], ps[|ps| - 1];
      SendAllStep(pl, q, up, r, before);
      var q1 := SendAll(pl, q, up, r, before);
      SendStep(pl, q1, up, r, p);
      assert ps == before + [p];
      forall f | FlowIn(pl, f) ensures InFlight(pl, Send(pl, q1, up, r, p), f) == InFlight(pl, q, f) + Pick(ps, f) {
        GrowPick(InFlight(pl, q, f), before, p, f);
      }
    }
  }

  lemma GrowPick(s: seq<Body>, before: seq<Packet<Body>>, p: Packet<Body>, f: Flow)
    ensures s + Pick(before + [p], f) == (s + Pick(before, f)) + if f == FlowOf(p) then [p.body] else []
  {
    PickConcat(before, [p], f);
    PickOne(p, f);
  }

  lemma {:induction false} FanReqFrom(w: World, r: nat, groups: seq<seq<Addr>>, comm: nat, id: nat, op: OpType, n: nat)
    requires r in w.plant.mesh.Keys && Routable(w, groups)
    ensures FromRouter(w.plant, r, FanReq(r, groups, comm, id, op, n))
    ensures forall p :: p in FanReq(r, groups, comm, id, op, n) ==>
              p.body.Req? && p.body == Req(comm, id, p.body.grp, op, n) && p.body.grp < |groups| && p.dest in groups[p.body.grp]
  {
    if groups != [] { FanReqFrom(w, r, groups[..|groups| - 1], comm, id, op, n); }
  }

  lemma {:induction false} FanCreateFrom(w: World, r: nat, groups: seq<seq<Addr>>, comm: nat)
    requires r in w.plant.mesh.Keys && Routable(w, groups)
    ensures FromRouter(w.plant, r, FanCreate(r, groups, comm))
    ensures forall p :: p in FanCreate(r, groups, comm) ==> p.body == Create(comm)
    ensures forall g, d :: 0 <= g < |groups| && d in groups[g] ==> Packet(RouterAt(r), d, Create(comm)) in FanCreate(r, groups, comm)
  {
    if groups != [] {
      FanCreateFrom(w, r, groups[..|groups| - 1], comm);
      forall g, d | 0 <= g < |groups| && d in groups[g]
        ensures Packet(RouterAt(r), d, Create(comm)) in FanCreate(r, groups, comm)
      {
        if g == |groups| - 1 {
          var k :| 0 <= k < |groups[g]| && groups[g][k] == d;
          assert FanGroup(r, groups[g], Create(comm))[k] == Packet(RouterAt(r), d, Create(comm));
        } else {
          assert groups[..|groups| - 1][g] == groups[g];
        }
      }
    }
  }

  // ------------------------------------------------------------------ steps

  datatype Action =
    | Asks(client: nat, comm: nat, members: seq<seq<Addr>>, op: OpType, ops: seq<ValueOp>)
    | Takes(client: nat, id: nat)
    | Relays(chan: Chan)
    | Collects(chan: Chan)
    | Connects(server: Addr)
    | Serves(server: Addr)
    | Answers(server: Addr, k: nat, resp: Resp)

  ghost predicate Enabled(w: World, net: Net, a: Action) {
    match a
    case Asks(c, comm, members, op, ops) => c in w.home && Routable(w, members) && AskOk(op, ops)
    case Takes(c, id) => c in w.home && At(net.inbox, c) != [] && ReqKey(w.home[c], id) !in net.open
    case Relays(ch) => (ch.Wire? || ch.Up?) && On(net.q, ch) != [] && On(net.q, ch)[0].dest != RouterAt(Arrives(ch))
    case Collects(ch) => (ch.Wire? || ch.Up?) && On(net.q, ch) != [] && On(net.q, ch)[0].dest == RouterAt(Arrives(ch))
    case Connects(s) => s.ServerAt?
    case Serves(s) => On(net.q, Down(s)) != []
    case Answers(s, k, resp) => k < |At(net.held, s)| && At(net.held, s)[k].body.Req?
                                && ReplyFits(At(net.held, s)[k].body.op, At(net.held, s)[k].body.n, resp)
  }

  /** DistComm::getValues and setValues: the first use of a communicator announces it. */
  ghost function DoAsk(net: Net, c: nat, comm: nat, members: seq<seq<Addr>>, op: OpType, ops: seq<ValueOp>): Net {
    var eid := Num(net.issued, c);
    var first := if comm in Among(net.announced, c) then [] else [NewComm(comm, members)];
    net.(inbox := net.inbox[c := At(net.inbox, c) + first + [Ask(comm, eid, op, ops)]],
         announced := net.announced[c := Among(net.announced, c) + {comm}],
         issued := net.issued[c := eid + 1])
  }

  /** Router::Client::addComm and the per-source CommCreates. */
  ghost function DoComm(w: World, net: Net, c: nat, m: Msg): Net
    requires ValidWorld(w) && c in w.home && m.NewComm? && Routable(w, m.members) && At(net.inbox, c) != []
  {
    var r := w.home[c];
    var ps := FanCreate(r, m.members, m.comm);
    FanCreateFrom(w, r, m.members, m.comm);
    FromRouterCanSend(w.plant, r, ps);
    net.(inbox := net.inbox[c := At(net.inbox, c)[1..]],
         comms := net.comms[c := CommsOf(net, c)[m.comm := m.members]],
         q := SendAll(w.plant, net.q, net.up, r, ps),
         sent := net.sent + ps)
  }

  /** RtrCommReqEvent::process. */
  ghost function DoRequest(w: World, net: Net, c: nat, m: Msg, id: nat): Net
    requires ValidWorld(w) && c in w.home && m.Ask? && AskOk(m.op, m.ops) && At(net.inbox, c) != []
    requires m.comm in CommsOf(net, c) && Routable(w, CommsOf(net, c)[m.comm])
  {
    var r := w.home[c];
    var groups := CommsOf(net, c)[m.comm];
    var ps := FanReq(r, groups, m.comm, id, m.op, |Start(m.op, m.ops, Sizes(groups)).valueOp|);
    FanReqFrom(w, r, groups, m.comm, id, m.op, |Start(m.op, m.ops, Sizes(groups)).valueOp|);
    FromRouterCanSend(w.plant, r, ps);
    var t := Ticket(c, m.eid);
    net.(inbox := net.inbox[c := At(net.inbox, c)[1..]],
         taken := net.taken[c := m.eid + 1],
         open := net.open[ReqKey(r, id) := Request(t, m.op, m.ops, groups, Start(m.op, m.ops, Sizes(groups)), [])],
         slot := net.slot[t := ReqKey(r, id)],
         q := SendAll(w.plant, net.q, net.up, r, ps),
         sent := net.sent + ps)
  }

  /** Reply p is one that the counters of request r can take. */
  ghost predicate Fits(r: Request, p: Packet<Body>) {
    p.body.Reply? && Shaped(r.info) && p.body.grp < |r.info.grpInfo| && ReplyFits(r.info.op, |r.info.valueOp|, p.body.resp)
  }

  /** The request with one more reply counted. */
  ghost function Counted(r: Request, p: Packet<Body>): Request
    requires Fits(r, p)
  {
    r.(info := Absorb(r.info, Arrival(p.body.grp, p.body.resp)), arr := r.arr + [p])
  }

  ghost predicate Ends(r: Request, p: Packet<Body>)
    requires Fits(r, p)
  {
    Completes(r.info, Arrival(p.body.grp, p.body.resp))
  }

  /** The open requests after reply p was processed: the last reply closes its request. */
  ghost function Kept(open: map<ReqKey, Request>, k: ReqKey, p: Packet<Body>): map<ReqKey, Request>
    requires k in open && Fits(open[k], p)
  {
    if Ends(open[k], p) then open - {k} else open[k := Counted(open[k], p)]
  }

  ghost function Told(answers: map<Ticket, seq<Request>>, r: Request, p: Packet<Body>): map<Ticket, seq<Request>>
    requires Fits(r, p)
  {
    if Ends(r, p) then answers[r.ticket := At(answers, r.ticket) + [Counted(r, p)]] else answers
  }

  /** The id of a reply, cast back to the CommReqInfo it points to. */
  ghost function KeyOf(p: Packet<Body>): ReqKey
    requires p.body.Reply?
  {
    ReqKey(p.dest.rtr, p.body.id)
  }

  /** The originating router processes a CommResp: its id must point to an open request. */
  ghost predicate CollectOk(net: Net, p: Packet<Body>) {
    p.body.Reply? && KeyOf(p) in net.open && Fits(net.open[KeyOf(p)], p)
  }

  ghost function DoCollect(net: Net, ch: Chan): Net
    requires (ch.Wire? || ch.Up?) && On(net.q, ch) != [] && CollectOk(net, On(net.q, ch)[0])
  {
    var p := On(net.q, ch)[0];
    net.(q := DropHead(net.q, ch), got := net.got + [p],
         open := Kept(net.open, KeyOf(p), p), answers := Told(net.answers, net.open[KeyOf(p)], p))
  }

  /** SrvrCommCreateEvent::process and the start of SrvrCommReqEvent::process. */
  ghost function DoServe(net: Net, s: Addr): Net
    requires On(net.q, Down(s)) != []
  {
    var p := On(net.q, Down(s))[0];
    net.(q := DropHead(net.q, Down(s)), got := net.got + [p],
         known := if p.body.Create? then net.known[s := Among(net.known, s) + {p.body.comm}] else net.known,
         held := if p.body.Create? then net.held else net.held[s := At(net.held, s) + [p]])
  }

  /** The reply to request p. */
  function Answered(p: Packet<Body>, resp: Resp): Packet<Body>
    requires p.body.Req?
  {
    Packet(p.dest, p.src, Reply(p.body.id, p.body.grp, resp))
  }

  /** requestFini of one outstanding request. */
  ghost function DoAnswer(net: Net, s: Addr, k: nat, resp: Resp): Net
    requires k < |At(net.held, s)| && At(net.held, s)[k].body.Req?
  {
    var p := At(net.held, s)[k];
    var back := Packet(s, p.src, Reply(p.body.id, p.body.grp, resp));
    net.(held := net.held[s := At(net.held, s)[..k] + At(net.held, s)[k + 1..]],
         q := Append(net.q, Up(s), back),
         sent := net.sent + [back])
  }

  /** What the router may rely on when it takes a client's message. */
  ghost predicate TakeOk(w: World, net: Net, c: nat) {
    c in w.home && At(net.inbox, c) != [] &&
    match At(net.inbox, c)[0]
    case NewComm(comm, members) => Routable(w, members) && comm !in CommsOf(net, c)
    case Ask(comm, eid, op, ops) => comm in CommsOf(net, c) && Routable(w, CommsOf(net, c)[comm]) && AskOk(op, ops)
  }

  /** One step.  Where the source would fail an assertion or follow a dangling pointer, the
      step does nothing; Inv shows that this never happens. */
  ghost function Do(w: World, net: Net, a: Action): Net
    requires ValidWorld(w) && Enabled(w, net, a)
  {
    match a
    case Asks(c, comm, members, op, ops) => DoAsk(net, c, comm, members, op, ops)
    case Takes(c, id) =>
      if !TakeOk(w, net, c) then net
      else if At(net.inbox, c)[0].NewComm? then DoComm(w, net, c, At(net.inbox, c)[0])
      else DoRequest(w, net, c, At(net.inbox, c)[0], id)
    case Relays(ch) =>
      if CanSend(w.plant, Arrives(ch), On(net.q, ch)[0])
      then net.(q := Send(w.plant, DropHead(net.q, ch), net.up, Arrives(ch), On(net.q, ch)[0])) else net
    case Collects(ch) => if CollectOk(net, On(net.q, ch)[0]) then DoCollect(net, ch) else net
    case Connects(s) => net.(q := Drain(net.q, s), up := net.up + {s})
    case Serves(s) => DoServe(net, s)
    case Answers(s, k, resp) => DoAnswer(net, s, k, resp)
  }

  const IDLE: Net := Net(map[], {}, map[], map[], map[], map[], map[], map[], map[], map[], map[], map[], [], [])

  /** A run: the net after each action. */
  ghost predicate IsRun(w: World, nets: seq<Net>, acts: seq<Action>) {
    && ValidWorld(w) && |nets| == |acts| + 1 && nets[0] == IDLE
    && forall i :: 0 <= i < |acts| ==> Enabled(w, nets[i], acts[i]) && nets[i + 1] == Do(w, nets[i], acts[i])
  }
}
