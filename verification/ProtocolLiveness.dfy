/** Once clients stop asking, every run comes to rest, and every request that can be
    answered has been. */
module ProtocolLiveness {
  import opened Routing
  import opened Fabric
  import opened Aggregation
  import opened Protocol
  import opened ProtocolInv
  import opened ProtocolRuns
  import opened ProtocolAsks
  import opened ProtocolTheorems

  // ------------------------------------------------------------ finite sums

  ghost function Total<K(!new)>(s: set<K>, f: K -> nat): nat {
    if s == {} then 0 else var k :| k in s; f(k) + Total(s - {k}, f)
  }

  lemma {:induction false} TotalWithout<K(!new)>(s: set<K>, f: K -> nat, k: K)
    requires k in s
    ensures Total(s, f) == f(k) + Total(s - {k}, f)
  {
    var x :| x in s && Total(s, f) == f(x) + Total(s - {x}, f);
    if x != k {
      TotalWithout(s - {x}, f, k);
      TotalWithout(s - {k}, f, x);
      assert s - {x} - {k} == s - {k} - {x};
    }
  }

  lemma {:induction false} TotalSame<K(!new)>(s: set<K>, f: K -> nat, g: K -> nat)
    requires forall k :: k in s ==> f(k) == g(k)
    ensures Total(s, f) == Total(s, g)
  {
    if s != {} {
      var k :| k in s;
      TotalWithout(s, f, k);
      TotalWithout(s, g, k);
      TotalSame(s - {k}, f, g);
    }
  }

  /** One value of a sum changes; a key that was missing counted nothing. */
  lemma TotalUpdate<K(!new)>(s: set<K>, f: K -> nat, g: K -> nat, k: K)
    requires forall x :: x != k ==> f(x) == g(x)
    requires k !in s ==> f(k) == 0
    ensures Total(s + {k}, g) + f(k) == Total(s, f) + g(k)
  {
    TotalWithout(s + {k}, g, k);
    assert s + {k} - {k} == s - {k};
    TotalSame(s - {k}, f, g);
    if k in s { TotalWithout(s, f, k); } else { assert s - {k} == s; }
  }

  // ------------------------------------------------ how much is left to do

  function Dist(pl: Plant, r: nat, d: nat): nat { if (r, d) in pl.dist then pl.dist[(r, d)] else 0 }

  /** Steps until a request that a server holds has been answered and counted. */
  function Back(pl: Plant, p: Packet<Body>): nat {
    if p.body.Req? then 2 + Dist(pl, p.dest.rtr, p.src.rtr) else 0
  }

  /** An upper bound on the steps that the event p on channel c still causes. */
  function Cost(pl: Plant, c: Chan, p: Packet<Body>): nat {
    Back(pl, p) + match c
      case Wire(_, to) => 1 + Dist(pl, to, p.dest.rtr) + (if p.dest.ServerAt? then 2 else 0)
      case Up(s) => 1 + Dist(pl, s.rtr, p.dest.rtr) + (if p.dest.ServerAt? then 2 else 0)
      case Pend(_) => 2
      case Down(_) => 1
  }

  ghost function Load(pl: Plant, c: Chan, s: seq<Packet<Body>>): nat {
    if s == [] then 0 else Cost(pl, c, s[0]) + Load(pl, c, s[1..])
  }

  ghost function HeldLoad(pl: Plant, s: seq<Packet<Body>>): nat {
    if s == [] then 0 else Back(pl, s[0]) + HeldLoad(pl, s[1..])
  }

  lemma {:induction false} LoadConcat(pl: Plant, c: Chan, s: seq<Packet<Body>>, u: seq<Packet<Body>>)
    ensures Load(pl, c, s + u) == Load(pl, c, s) + Load(pl, c, u)
  {
    if s == [] { assert s + u == u; } else { LoadConcat(pl, c, s[1..], u); assert (s + u)[0] == s[0] && (s + u)[1..] == s[1..] + u; }
  }

  lemma LoadAppend(pl: Plant, c: Chan, s: seq<Packet<Body>>, p: Packet<Body>)
    ensures Load(pl, c, s + [p]) == Load(pl, c, s) + Cost(pl, c, p)
  {
    LoadConcat(pl, c, s, [p]);
    assert [p][1..] == [];
  }

  lemma {:induction false} LoadPend(pl: Plant, a: Addr, s: seq<Packet<Body>>)
    ensures Load(pl, Pend(a), s) == Load(pl, Down(a), s) + |s|
  {
    if s != [] { LoadPend(pl, a, s[1..]); }
  }

  lemma {:induction false} HeldConcat(pl: Plant, s: seq<Packet<Body>>, u: seq<Packet<Body>>)
    ensures HeldLoad(pl, s + u) == HeldLoad(pl, s) + HeldLoad(pl, u)
  {
    if s == [] { assert s + u == u; } else { HeldConcat(pl, s[1..], u); assert (s + u)[0] == s[0] && (s + u)[1..] == s[1..] + u; }
  }

  lemma HeldWithout(pl: Plant, s: seq<Packet<Body>>, k: nat)
    requires k < |s|
    ensures HeldLoad(pl, s) == HeldLoad(pl, s[..k] + s[k + 1..]) + Back(pl, s[k])
  {
    assert s == s[..k] + ([s[k]] + s[k + 1..]);
    HeldConcat(pl, s[..k], [s[k]] + s[k + 1..]);
    HeldConcat(pl, s[..k], s[k + 1..]);
  }

  lemma HeldAppended(pl: Plant, s: seq<Packet<Body>>, p: Packet<Body>)
    ensures HeldLoad(pl, s + [p]) == HeldLoad(pl, s) + Back(pl, p)
  {
    HeldConcat(pl, s, [p]);
    assert [p][1..] == [];
  }

  ghost function OnWires(pl: Plant, q: Queues<Body>): nat { Total(q.Keys, c => Load(pl, c, On(q, c))) }

  ghost function AtServers(pl: Plant, held: map<Addr, seq<Packet<Body>>>): nat { Total(held.Keys, d => HeldLoad(pl, At(held, d))) }

  ghost function Unread(w: World, inbox: map<nat, seq<Msg>>): nat { Total(w.home.Keys, c => |At(inbox, c)|) }

  lemma OnWiresUpdate(pl: Plant, q: Queues<Body>, c: Chan, s: seq<Packet<Body>>)
    ensures OnWires(pl, q[c := s]) + Load(pl, c, On(q, c)) == OnWires(pl, q) + Load(pl, c, s)
  {
    var q' := q[c := s];
    assert q'.Keys == q.Keys + {c};
    TotalUpdate(q.Keys, x => Load(pl, x, On(q, x)), x => Load(pl, x, On(q', x)), c);
  }

  lemma AtServersUpdate(pl: Plant, held: map<Addr, seq<Packet<Body>>>, d: Addr, s: seq<Packet<Body>>)
    ensures AtServers(pl, held[d := s]) + HeldLoad(pl, At(held, d)) == AtServers(pl, held) + HeldLoad(pl, s)
  {
    var held' := held[d := s];
    assert held'.Keys == held.Keys + {d};
    TotalUpdate(held.Keys, x => HeldLoad(pl, At(held, x)), x => HeldLoad(pl, At(held', x)), d);
  }

  lemma UnreadTake(w: World, inbox: map<nat, seq<Msg>>, c: nat)
    requires c in w.home && At(inbox, c) != []
    ensures Unread(w, inbox[c := At(inbox, c)[1..]]) + 1 == Unread(w, inbox)
  {
    var inbox' := inbox[c := At(inbox, c)[1..]];
    assert w.home.Keys + {c} == w.home.Keys;
    TotalUpdate(w.home.Keys, x => |At(inbox, x)|, x => |At(inbox', x)|, c);
  }

  lemma AppendWork(pl: Plant, q: Queues<Body>, c: Chan, p: Packet<Body>)
    ensures OnWires(pl, Append(q, c, p)) == OnWires(pl, q) + Cost(pl, c, p)
  {
    OnWiresUpdate(pl, q, c, On(q, c) + [p]);
    LoadAppend(pl, c, On(q, c), p);
  }

  lemma DropWork(pl: Plant, q: Queues<Body>, c: Chan)
    requires On(q, c) != []
    ensures OnWires(pl, q) == OnWires(pl, DropHead(q, c)) + Cost(pl, c, On(q, c)[0])
  {
    OnWiresUpdate(pl, q, c, On(q, c)[1..]);
  }

  lemma DrainWork(pl: Plant, q: Queues<Body>, s: Addr)
    ensures OnWires(pl, q) == OnWires(pl, Drain(q, s)) + |On(q, Pend(s))|
  {
    var q1 := q[Down(s) := On(q, Down(s)) + On(q, Pend(s))];
    OnWiresUpdate(pl, q, Down(s), On(q, Down(s)) + On(q, Pend(s)));
    OnWiresUpdate(pl, q1, Pend(s), []);
    LoadConcat(pl, Down(s), On(q, Down(s)), On(q, Pend(s)));
    LoadPend(pl, s, On(q, Pend(s)));
  }

  // --------------------------------------------------- every step does some of it

  /** A step of the system itself: no client asks, and a server that connects had events
      waiting for it. */
  ghost predicate Busy(net: Net, a: Action) {
    !a.Asks? && (a.Connects? ==> On(net.q, Pend(a.server)) != [])
  }

  ghost function Work(w: World, net: Net): nat { OnWires(w.plant, net.q) + AtServers(w.plant, net.held) }

  /** A router passes an event on: the rest of its way is shorter. */
  lemma RelayCost(pl: Plant, up: set<Addr>, c: Chan, p: Packet<Body>)
    requires ValidPlant(pl) && (c.Wire? || c.Up?) && Arrives(c) in pl.mesh.Keys && p.dest.rtr in pl.mesh.Keys
    requires CanSend(pl, Arrives(c), p)
    ensures Cost(pl, Outlet(pl, up, Arrives(c), p.dest), p) < Cost(pl, c, p)
  {
    assert Nearer(pl.mesh, pl.dist, Arrives(c), p.dest.rtr);
  }

  lemma RelayWork(w: World, net: Net, ch: Chan)
    requires Inv(w, net) && (ch.Wire? || ch.Up?) && On(net.q, ch) != [] && On(net.q, ch)[0].dest != RouterAt(Arrives(ch))
    ensures CanSend(w.plant, Arrives(ch), On(net.q, ch)[0])
    ensures OnWires(w.plant, Send(w.plant, DropHead(net.q, ch), net.up, Arrives(ch), On(net.q, ch)[0])) < OnWires(w.plant, net.q)
  {
    var p := On(net.q, ch)[0];
    RelayStep(w.plant, net.q, net.up, ch);
    assert p in On(net.q, ch);
    var a := CutWay(w.plant, FlowOf(p), ch);
    DropWork(w.plant, net.q, ch);
    AppendWork(w.plant, DropHead(net.q, ch), Outlet(w.plant, net.up, Arrives(ch), p.dest), p);
    RelayCost(w.plant, net.up, ch, p);
  }

  lemma ServeWork(w: World, net: Net, s: Addr)
    requires On(net.q, Down(s)) != []
    ensures Work(w, DoServe(net, s)) < Work(w, net)
    ensures DoServe(net, s).inbox == net.inbox && DoServe(net, s).issued == net.issued
  {
    ServeLoad(w.plant, net.q, net.held, s);
    ServeFields(net, s);
  }

  lemma ServeFields(net: Net, s: Addr)
    requires On(net.q, Down(s)) != []
    ensures DoServe(net, s).q == DropHead(net.q, Down(s))
    ensures DoServe(net, s).held == if On(net.q, Down(s))[0].body.Create? then net.held else net.held[s := At(net.held, s) + [On(net.q, Down(s))[0]]]
    ensures DoServe(net, s).inbox == net.inbox && DoServe(net, s).issued == net.issued
  {}

  lemma ServeLoad(pl: Plant, q: Queues<Body>, held: map<Addr, seq<Packet<Body>>>, s: Addr)
    requires On(q, Down(s)) != []
    ensures OnWires(pl, DropHead(q, Down(s))) < OnWires(pl, q)
    ensures OnWires(pl, DropHead(q, Down(s))) + AtServers(pl, held[s := At(held, s) + [On(q, Down(s))[0]]]) < OnWires(pl, q) + AtServers(pl, held)
  {
    DropWork(pl, q, Down(s));
    HeldAppended(pl, At(held, s), On(q, Down(s))[0]);
    AtServersUpdate(pl, held, s, At(held, s) + [On(q, Down(s))[0]]);
  }

  lemma AnswerWork(w: World, net: Net, s: Addr, k: nat, resp: Resp)
    requires k < |At(net.held, s)| && At(net.held, s)[k].body.Req? && At(net.held, s)[k].dest == s && At(net.held, s)[k].src.RouterAt?
    ensures Work(w, DoAnswer(net, s, k, resp)) < Work(w, net)
  {
    var p := At(net.held, s)[k];
    HeldWithout(w.plant, At(net.held, s), k);
    AtServersUpdate(w.plant, net.held, s, At(net.held, s)[..k] + At(net.held, s)[k + 1..]);
    AppendWork(w.plant, net.q, Up(s), Packet(s, p.src, Reply(p.body.id, p.body.grp, resp)));
  }

  lemma HeldIsRequest(w: World, net: Net, s: Addr, k: nat)
    requires Inv(w, net) && k < |At(net.held, s)|
    ensures var p := At(net.held, s)[k]; p.body.Req? && p.dest == s && p.src.RouterAt?
  {
    var p := At(net.held, s)[k];
    assert p in At(net.held, s);
    assert BodyOk(net.open, FlowOf(p), p.body);
  }

  lemma TakeWork(w: World, net: Net, c: nat, id: nat)
    requires ValidWorld(w) && Enabled(w, net, Takes(c, id)) && TakeOk(w, net, c)
    ensures Unread(w, Do(w, net, Takes(c, id)).inbox) < Unread(w, net.inbox)
    ensures Do(w, net, Takes(c, id)).issued == net.issued
  {
    UnreadTake(w, net.inbox, c);
  }

  lemma CollectWork(w: World, net: Net, ch: Chan)
    requires (ch.Wire? || ch.Up?) && On(net.q, ch) != [] && CollectOk(net, On(net.q, ch)[0])
    ensures Work(w, DoCollect(net, ch)) < Work(w, net)
  {
    DropWork(w.plant, net.q, ch);
  }

  /** Each busy step reads a client's message or leaves less to do. */
  ghost predicate Works(w: World, net: Net, net': Net, a: Action) {
    && net'.issued == net.issued
    && if a.Takes? then Unread(w, net'.inbox) < Unread(w, net.inbox) else net'.inbox == net.inbox && Work(w, net') < Work(w, net)
  }

  lemma StepWorks(w: World, net: Net, a: Action)
    requires Inv(w, net) && Enabled(w, net, a) && Busy(net, a)
    ensures Works(w, net, Do(w, net, a), a)
  {
    match a
    case Takes(c, id) => Taken(w, net, c); TakeWork(w, net, c, id);
    case Relays(ch) => RelayWork(w, net, ch);
    case Collects(ch) => CollectsStep(w, net, ch); CollectWork(w, net, ch);
    case Connects(s) => DrainWork(w.plant, net.q, s);
    case Serves(s) => ServeWork(w, net, s);
    case Answers(s, k, resp) => HeldIsRequest(w, net, s, k); AnswerWork(w, net, s, k, resp);
  }

  // -------------------------------------------------------- something can be done

  lemma FreshId(open: map<ReqKey, Request>, r: nat) returns (id: nat)
    ensures ReqKey(r, id) !in open
  {
    var used := set k | k in open.Keys :: k.id;
    id := Above(used);
    forall k | k in open ensures k.id < id { assert k.id in used; }
  }

  lemma {:induction false} Above(s: set<nat>) returns (n: nat)
    ensures forall x: nat :: x in s ==> x < n
  {
    n := 0;
    if s != {} {
      var x :| x in s;
      var m := Above(s - {x});
      n := if x < m then m else x + 1;
      forall y | y in s ensures y < n { assert y == x || y in s - {x}; }
    }
  }

  /** A reply that fits any request. */
  function Blank(n: nat): (r: Resp)
    ensures forall op :: ReplyFits(op, n, r)
  {
    Resp([seq(n, _ => 0)], [seq(n, _ => 0.0)], [], [], [])
  }

  /** While anything is under way, some busy step is possible: no deadlock. */
  lemma NoDeadlock(w: World, net: Net) returns (a: Action)
    requires Inv(w, net) && !Quiet(w, net)
    ensures Enabled(w, net, a) && Busy(net, a)
  {
    if c :| On(net.q, c) != [] {
      var p := On(net.q, c)[0];
      assert p in On(net.q, c);
      match c
      case Wire(_, _) => a := if p.dest == RouterAt(Arrives(c)) then Collects(c) else Relays(c);
      case Up(_) => a := if p.dest == RouterAt(Arrives(c)) then Collects(c) else Relays(c);
      case Down(s) => a := Serves(s);
      case Pend(s) => a := Connects(s); PendOnWay(w.plant, FlowOf(p), s); WayKinds(w.plant, FlowOf(p));
    } else if d :| At(net.held, d) != [] {
      var p := At(net.held, d)[0];
      assert p in At(net.held, d);
      a := Answers(d, 0, Blank(p.body.n));
    } else {
      var c :| c in w.home && At(net.inbox, c) != [];
      var id := FreshId(net.open, w.home[c]);
      a := Takes(c, id);
    }
  }

  // ------------------------------------------------------------- coming to rest

  ghost predicate Makes(w: World, net: Net, a: Action, net': Net) {
    ValidWorld(w) && Enabled(w, net, a) && Busy(net, a) && net' == Do(w, net, a)
  }

  /** The system goes on: while a busy step is possible, one is made. */
  ghost predicate GoesOn(w: World, net: Net, a: Action, net': Net) {
    if exists b :: Enabled(w, net, b) && Busy(net, b) then Makes(w, net, a, net') else net' == net
  }

  lemma OneStep(w: World, net: Net, a: Action, net': Net)
    requires Inv(w, net) && !Quiet(w, net) && GoesOn(w, net, a, net')
    ensures Makes(w, net, a, net') && Inv(w, net') && Works(w, net, net', a)
  {
    var b := NoDeadlock(w, net);
    StepWorks(w, net, a);
    StepKeeps(w, net, a);
  }

  lemma {:induction false} ComesToRest(w: World, nets: nat -> Net, acts: nat -> Action, i: nat) returns (j: nat)
    requires Inv(w, nets(i)) && forall m: nat :: m >= i ==> GoesOn(w, nets(m), acts(m), nets(m + 1))
    ensures j >= i && Inv(w, nets(j)) && Quiet(w, nets(j)) && nets(j).issued == nets(i).issued
    ensures forall m: nat :: i <= m < j ==> Makes(w, nets(m), acts(m), nets(m + 1))
    decreases Unread(w, nets(i).inbox), Work(w, nets(i))
  {
    hide Inv, Quiet, GoesOn, Makes, Unread, Work;
    if Quiet(w, nets(i)) { return i; }
    OneStep(w, nets(i), acts(i), nets(i + 1));
    j := ComesToRest(w, nets, acts, i + 1);
  }

  lemma OneLonger(w: World, run: seq<Net>, steps: seq<Action>, a: Action, net': Net)
    requires IsRun(w, run, steps) && Makes(w, run[|steps|], a, net')
    ensures IsRun(w, run + [net'], steps + [a])
  {
    hide Do, Enabled, Busy;
    RunMore(w, run, steps, a);
  }

  /** At any time any client may ask for anything the source's assertions and route table
      allow: all attributes of a read are to be added, and all names are those of servers of
      the mesh's routers. */
  lemma AskAnytime(w: World, run: seq<Net>, steps: seq<Action>, c: nat, comm: nat, members: seq<seq<Addr>>, op: OpType, ops: seq<ValueOp>)
    returns (net': Net)
    requires IsRun(w, run, steps) && c in w.home
    requires forall g, k :: 0 <= g < |members| && 0 <= k < |members[g]| ==> members[g][k].ServerAt? && members[g][k].rtr in w.plant.mesh.Keys
    requires op == Get ==> forall k :: 0 <= k < |ops| ==> ops[k] == FpAdd
    ensures IsRun(w, run + [net'], steps + [Asks(c, comm, members, op, ops)])
  {
    var a := Asks(c, comm, members, op, ops);
    assert Enabled(w, run[|steps|], a);
    hide Do, Enabled;
    RunMore(w, run, steps, a);
    net' := Do(w, run[|steps|], a);
  }

  /** And a server may answer any request it holds, with any values and errors: for a read
      there is one value and one time stamp for each attribute. */
  lemma AnswerAnytime(w: World, run: seq<Net>, steps: seq<Action>, s: Addr, k: nat, resp: Resp) returns (net': Net)
    requires IsRun(w, run, steps) && k < |At(run[|steps|].held, s)| && At(run[|steps|].held, s)[k].body.Req?
    requires |resp.errObj| == |resp.errAttr| == |resp.errValue|
    requires var q := At(run[|steps|].held, s)[k].body;
             q.op == Get ==> resp.value != [] && |resp.value[0]| == q.n && resp.timeStamp != [] && |resp.timeStamp[0]| == q.n
    ensures IsRun(w, run + [net'], steps + [Answers(s, k, resp)])
  {
    var a := Answers(s, k, resp);
    assert Enabled(w, run[|steps|], a);
    hide Do, Enabled;
    RunMore(w, run, steps, a);
    net' := Do(w, run[|steps|], a);
  }

  lemma RunMore(w: World, run: seq<Net>, steps: seq<Action>, a: Action)
    requires IsRun(w, run, steps) && Enabled(w, run[|steps|], a)
    ensures IsRun(w, run + [Do(w, run[|steps|], a)], steps + [a])
  {
    hide Do, Enabled;
    var all, done := run + [Do(w, run[|steps|], a)], steps + [a];
    forall m | 0 <= m < |done| ensures Enabled(w, all[m], done[m]) && all[m + 1] == Do(w, all[m], done[m]) {
      if m < |steps| { assert all[m] == run[m] && all[m + 1] == run[m + 1] && done[m] == steps[m]; }
    }
  }

  /** A run with the first j steps of its continuation. */
  lemma {:induction false} LongerRun(w: World, run: seq<Net>, steps: seq<Action>, nets: nat -> Net, acts: nat -> Action, j: nat)
    returns (all: seq<Net>, done: seq<Action>)
    requires |run| == |steps| + 1 && IsRun(w, run, steps) && nets(0) == run[|steps|]
    requires forall m: nat :: m < j ==> Makes(w, nets(m), acts(m), nets(m + 1))
    ensures |done| == |steps| + j && |all| == |done| + 1
    ensures IsRun(w, all, done) && steps == done[..|steps|] && all[|done|] == nets(j)
  {
    hide IsRun, Makes;
    if j == 0 { return run, steps; }
    var front, before := LongerRun(w, run, steps, nets, acts, j - 1);
    OneLonger(w, front, before, acts(j - 1), nets(j));
    all, done := front + [nets(j)], before + [acts(j - 1)];
  }

  /** The values of an answer to ticket t: for each group and attribute the sum over the
      members of what each source answered. */
  ghost predicate Sums(nets: seq<Net>, acts: seq<Action>, t: Ticket, members: seq<seq<Addr>>, width: nat, v: seq<seq<real>>)
    requires |nets| == |acts| + 1
  {
    forall g: nat, c: nat, ans: Addr -> real {:trigger Answering(nets, acts, |acts|, t, g, c, ans)} ::
      g < |members| && c < width && Answering(nets, acts, |acts|, t, g, c, ans) ==>
        g < |v| && c < |v[g]| && v[g][c] == SumOver(ans, members[g])
  }

  /** Action i's request is served, a reading one with the sums over the members that the
      communicator's first use f gave. */
  ghost predicate Fulfilled(nets: seq<Net>, acts: seq<Action>, i: nat, f: nat)
    requires |nets| == |acts| + 1 && FirstUse(acts, f, i)
  {
    && Served(nets[|acts|], acts, i, f)
    && (Answerable(acts[f].members) && acts[i].op == Get ==>
          Sums(nets, acts, TicketOf(acts, i), acts[f].members, |acts[i].ops|, At(nets[|acts|].answers, TicketOf(acts, i))[0].info.resp.value))
  }

  /** However a run goes on once clients stop asking, in whatever order its steps are made,
      it reaches a state with nothing under way in which every request made has been
      answered exactly once, with the sums over the members it was made with; only requests
      with no group or an empty one are not. */
  lemma EveryRequestAnswered(w: World, run: seq<Net>, steps: seq<Action>, nets: nat -> Net, acts: nat -> Action)
    returns (j: nat, all: seq<Net>, done: seq<Action>)
    requires |run| == |steps| + 1 && IsRun(w, run, steps) && nets(0) == run[|steps|]
    requires forall m: nat :: GoesOn(w, nets(m), acts(m), nets(m + 1))
    ensures |done| == |steps| + j && |all| == |done| + 1
    ensures IsRun(w, all, done) && steps == done[..|steps|] && all[|done|] == nets(j) && Quiet(w, nets(j))
    ensures forall i: nat, f: nat :: i < |steps| && FirstUse(done, f, i) ==> Fulfilled(all, done, i, f)
  {
    RunKeeps(w, run, steps, |steps|);
    hide Inv, IsRun, GoesOn, Quiet, FirstUse;
    j := ComesToRest(w, nets, acts, 0);
    all, done := LongerRun(w, run, steps, nets, acts, j);
    RestFulfils(w, all, done);
  }

  lemma RestFulfils(w: World, nets: seq<Net>, acts: seq<Action>)
    requires |nets| == |acts| + 1 && IsRun(w, nets, acts) && Quiet(w, nets[|acts|])
    ensures forall i: nat, f: nat :: FirstUse(acts, f, i) ==> Fulfilled(nets, acts, i, f)
  {
    hide IsRun, Quiet, Served, Sums;
    forall i: nat, f: nat | FirstUse(acts, f, i) ensures Fulfilled(nets, acts, i, f) {
      RestAnswersAll(w, nets, acts, |acts|, i, f);
      if Answerable(acts[f].members) && acts[i].op == Get { ServedSums(w, nets, acts, i, f); }
    }
  }

  lemma ServedSums(w: World, nets: seq<Net>, acts: seq<Action>, i: nat, f: nat)
    requires |nets| == |acts| + 1 && IsRun(w, nets, acts) && FirstUse(acts, f, i)
    requires Served(nets[|acts|], acts, i, f) && Answerable(acts[f].members) && acts[i].op == Get
    ensures At(nets[|acts|].answers, TicketOf(acts, i)) != []
    ensures Sums(nets, acts, TicketOf(acts, i), acts[f].members, |acts[i].ops|, At(nets[|acts|].answers, TicketOf(acts, i))[0].info.resp.value)
  {
    hide IsRun, Answering, SumOver;
    var t := TicketOf(acts, i);
    forall g: nat, c: nat, ans: Addr -> real | g < |acts[f].members| && c < |acts[i].ops| && Answering(nets, acts, |acts|, t, g, c, ans)
      ensures var v := At(nets[|acts|].answers, t)[0].info.resp.value; g < |v| && c < |v[g]| && v[g][c] == SumOver(ans, acts[f].members[g])
    {
      AnswerIsGroupSum(w, nets, acts, |acts|, i, f, g, c, ans);
    }
  }
}
