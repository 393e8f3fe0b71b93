/** Runs and what was asked in them: what the router works on is what the client asked, and
    every reply it counts is what a server answered, told from the actions of the run. */
module ProtocolAsks {
  import opened Routing
  import opened Fabric
  import opened Aggregation
  import opened Protocol
  import opened ProtocolInv
  import opened ProtocolRuns

  // ------------------------------------------------------------ what was asked

  /** Action f is a use of communicator comm by client c. */
  ghost predicate Uses(acts: seq<Action>, f: nat, c: nat, comm: nat) {
    f < |acts| && acts[f].Asks? && acts[f].client == c && acts[f].comm == comm
  }

  ghost predicate Used(acts: seq<Action>, c: nat, comm: nat) { exists f: nat :: Uses(acts, f, c, comm) }

  /** Action i asks, and f is the first use of the communicator it asks with. */
  ghost predicate FirstUse(acts: seq<Action>, f: nat, i: nat) {
    && f <= i < |acts| && acts[i].Asks? && Uses(acts, f, acts[i].client, acts[i].comm)
    && forall h :: 0 <= h < f ==> !Uses(acts, h, acts[i].client, acts[i].comm)
  }

  /** How many of the actions are requests of client c. */
  ghost function AsksBy(acts: seq<Action>, c: nat): nat {
    if acts == [] then 0 else
      var last := acts[|acts| - 1];
      AsksBy(acts[..|acts| - 1], c) + if last.Asks? && last.client == c then 1 else 0
  }

  /** The ticket of action i's request: a client numbers its requests. */
  ghost function TicketOf(acts: seq<Action>, i: nat): Ticket
    requires i < |acts| && acts[i].Asks?
  {
    Ticket(acts[i].client, AsksBy(acts[..i], acts[i].client))
  }

  lemma {:induction false} AsksGrow(acts: seq<Action>, i: nat, j: nat, c: nat)
    requires i <= j <= |acts|
    ensures AsksBy(acts[..i], c) <= AsksBy(acts[..j], c)
    ensures i < j && acts[i].Asks? && acts[i].client == c ==> AsksBy(acts[..i], c) < AsksBy(acts[..j], c)
    decreases j - i
  {
    if i < j {
      assert acts[..j][..j - 1] == acts[..j - 1];
      AsksGrow(acts, i, j - 1, c);
    }
  }

  /** Different requests have different tickets. */
  lemma TicketsDiffer(acts: seq<Action>, i: nat, j: nat)
    requires i < |acts| && j < |acts| && acts[i].Asks? && acts[j].Asks? && TicketOf(acts, i) == TicketOf(acts, j)
    ensures i == j
  {
    if i < j { AsksGrow(acts, i, j, acts[i].client); }
    if j < i { AsksGrow(acts, j, i, acts[i].client); }
  }

  /** Every request has the first use of its communicator. */
  lemma {:induction false} SomeFirst(acts: seq<Action>, i: nat, h: nat) returns (f: nat)
    requires i < |acts| && acts[i].Asks? && h <= i && Uses(acts, h, acts[i].client, acts[i].comm)
    ensures FirstUse(acts, f, i) && f <= h
    decreases h
  {
    if h': nat :| h' < h && Uses(acts, h', acts[i].client, acts[i].comm) { f := SomeFirst(acts, i, h'); } else { f := h; }
  }

  lemma OneFirst(acts: seq<Action>, f: nat, i: nat, f': nat, i': nat)
    requires FirstUse(acts, f, i) && FirstUse(acts, f', i') && acts[i].client == acts[i'].client && acts[i].comm == acts[i'].comm
    ensures f == f'
  {}

  /** What ticket t's request asks: the operations of its own action, and the members of the
      first use of its communicator. */
  ghost predicate Asked(acts: seq<Action>, t: Ticket, op: OpType, ops: seq<ValueOp>, groups: seq<seq<Addr>>) {
    exists i: nat, f: nat :: FirstUse(acts, f, i) && AsksThat(acts, i, t, acts[i].comm, op, ops) && groups == acts[f].members
  }

  ghost predicate AsksThat(acts: seq<Action>, i: nat, t: Ticket, comm: nat, op: OpType, ops: seq<ValueOp>) {
    i < |acts| && acts[i].Asks? && TicketOf(acts, i) == t && acts[i].comm == comm && acts[i].op == op && acts[i].ops == ops
  }

  /** Client c's communicator comm has the members of its first use. */
  ghost predicate MembersOf(acts: seq<Action>, c: nat, comm: nat, members: seq<seq<Addr>>) {
    exists f: nat :: Uses(acts, f, c, comm) && FirstUse(acts, f, f) && acts[f].members == members
  }

  ghost predicate MsgAsked(acts: seq<Action>, c: nat, m: Msg) {
    match m
    case NewComm(comm, members) => MembersOf(acts, c, comm, members)
    case Ask(comm, eid, op, ops) => exists i: nat :: AsksThat(acts, i, Ticket(c, eid), comm, op, ops)
  }

  ghost predicate Clients(net: Net, acts: seq<Action>) {
    && (forall c :: Num(net.issued, c) == AsksBy(acts, c))
    && (forall c, comm :: comm in Among(net.announced, c) <==> Used(acts, c, comm))
    && (forall c, m :: m in At(net.inbox, c) ==> MsgAsked(acts, c, m))
  }

  ghost predicate Routers(net: Net, acts: seq<Action>) {
    && (forall c, comm :: comm in CommsOf(net, c) ==> MembersOf(acts, c, comm, CommsOf(net, c)[comm]))
    && (forall k :: k in net.open ==> RequestAsked(acts, net.open[k]))
    && (forall t, r :: r in At(net.answers, t) ==> RequestAsked(acts, r))
  }

  ghost predicate RequestAsked(acts: seq<Action>, r: Request) { Asked(acts, r.ticket, r.op, r.ops, r.groups) }

  // ------------------------------------------------- more actions change nothing

  lemma UsesMore(acts: seq<Action>, a: Action, f: nat, c: nat, comm: nat)
    ensures f < |acts| ==> (Uses(acts + [a], f, c, comm) <==> Uses(acts, f, c, comm))
  {}

  lemma FirstMore(acts: seq<Action>, a: Action, f: nat, i: nat)
    requires i < |acts|
    ensures FirstUse(acts + [a], f, i) <==> FirstUse(acts, f, i)
  {
    assert (acts + [a])[i] == acts[i];
    if acts[i].Asks? {
      forall h | 0 <= h <= i ensures Uses(acts + [a], h, acts[i].client, acts[i].comm) <==> Uses(acts, h, acts[i].client, acts[i].comm) {
        UsesMore(acts, a, h, acts[i].client, acts[i].comm);
      }
    }
  }

  lemma TicketMore(acts: seq<Action>, a: Action, i: nat)
    requires i < |acts| && acts[i].Asks?
    ensures (acts + [a])[i] == acts[i] && TicketOf(acts + [a], i) == TicketOf(acts, i)
  {
    assert (acts + [a])[..i] == acts[..i];
  }

  lemma MembersMore(acts: seq<Action>, a: Action, c: nat, comm: nat, members: seq<seq<Addr>>)
    requires MembersOf(acts, c, comm, members)
    ensures MembersOf(acts + [a], c, comm, members)
  {
    var f: nat :| Uses(acts, f, c, comm) && FirstUse(acts, f, f) && acts[f].members == members;
    UsesMore(acts, a, f, c, comm);
    FirstMore(acts, a, f, f);
    assert (acts + [a])[f] == acts[f];
  }

  lemma AsksMore(acts: seq<Action>, a: Action, i: nat, t: Ticket, comm: nat, op: OpType, ops: seq<ValueOp>)
    requires AsksThat(acts, i, t, comm, op, ops)
    ensures AsksThat(acts + [a], i, t, comm, op, ops)
  {
    TicketMore(acts, a, i);
  }

  lemma AskedMore(acts: seq<Action>, a: Action, t: Ticket, op: OpType, ops: seq<ValueOp>, groups: seq<seq<Addr>>)
    requires Asked(acts, t, op, ops, groups)
    ensures Asked(acts + [a], t, op, ops, groups)
  {
    var i: nat, f: nat :| FirstUse(acts, f, i) && AsksThat(acts, i, t, acts[i].comm, op, ops) && groups == acts[f].members;
    FirstMore(acts, a, f, i);
    AsksMore(acts, a, i, t, acts[i].comm, op, ops);
    assert (acts + [a])[f] == acts[f];
  }

  lemma MsgMore(acts: seq<Action>, a: Action, c: nat, m: Msg)
    requires MsgAsked(acts, c, m)
    ensures MsgAsked(acts + [a], c, m)
  {
    match m
    case NewComm(comm, members) => MembersMore(acts, a, c, comm, members);
    case Ask(comm, eid, op, ops) =>
      var i: nat :| AsksThat(acts, i, Ticket(c, eid), comm, op, ops);
      AsksMore(acts, a, i, Ticket(c, eid), comm, op, ops);
  }

  // ------------------------------------------------------------------ the steps

  lemma RoutersMore(net: Net, net': Net, acts: seq<Action>, a: Action)
    requires Routers(net, acts) && net'.comms == net.comms
    requires forall k :: k in net'.open ==> k in net.open && SameAsk(net'.open[k], net.open[k])
    requires forall t, r :: r in At(net'.answers, t) ==> r in At(net.answers, t) || exists k :: k in net.open && SameAsk(r, net.open[k])
    ensures Routers(net', acts + [a])
  {
    hide Asked, MembersOf;
    forall c, comm | comm in CommsOf(net', c) ensures MembersOf(acts + [a], c, comm, CommsOf(net', c)[comm]) {
      assert comm in CommsOf(net, c);
      MembersMore(acts, a, c, comm, CommsOf(net, c)[comm]);
    }
    forall k | k in net'.open ensures RequestAsked(acts + [a], net'.open[k]) { RequestMore(acts, a, net.open[k], net'.open[k]); }
    forall t, r | r in At(net'.answers, t) ensures RequestAsked(acts + [a], r) {
      if r in At(net.answers, t) {
        RequestMore(acts, a, r, r);
      } else {
        var k :| k in net.open && SameAsk(r, net.open[k]);
        RequestMore(acts, a, net.open[k], r);
      }
    }
  }

  ghost predicate SameAsk(r: Request, s: Request) { r.ticket == s.ticket && r.op == s.op && r.ops == s.ops && r.groups == s.groups }

  lemma RequestMore(acts: seq<Action>, a: Action, r: Request, r': Request)
    requires RequestAsked(acts, r) && SameAsk(r', r)
    ensures RequestAsked(acts + [a], r')
  {
    AskedMore(acts, a, r.ticket, r.op, r.ops, r.groups);
  }

  /** A step other than a client's. */
  lemma ClientsMore(net: Net, net': Net, acts: seq<Action>, a: Action)
    requires Clients(net, acts) && !a.Asks? && net'.issued == net.issued && net'.announced == net.announced
    requires forall c, m :: m in At(net'.inbox, c) ==> m in At(net.inbox, c)
    ensures Clients(net', acts + [a])
  {
    hide MsgAsked, Used;
    assert (acts + [a])[..|acts|] == acts;
    forall c, comm ensures Used(acts + [a], c, comm) <==> Used(acts, c, comm) { UsedMore(acts, a, c, comm); }
    forall c, m | m in At(net'.inbox, c) ensures MsgAsked(acts + [a], c, m) { MsgMore(acts, a, c, m); }
  }

  lemma UsedMore(acts: seq<Action>, a: Action, c: nat, comm: nat)
    ensures Used(acts + [a], c, comm) <==> Used(acts, c, comm) || (a.Asks? && a.client == c && a.comm == comm)
  {
    if f: nat :| Uses(acts, f, c, comm) { UsesMore(acts, a, f, c, comm); }
    if f: nat :| Uses(acts + [a], f, c, comm) {
      if f < |acts| { UsesMore(acts, a, f, c, comm); }
    }
    if a.Asks? && a.client == c && a.comm == comm { assert Uses(acts + [a], |acts|, c, comm); }
  }

  /** A client asks. */
  lemma AsksClients(net: Net, acts: seq<Action>, c: nat, comm: nat, members: seq<seq<Addr>>, op: OpType, ops: seq<ValueOp>)
    requires Clients(net, acts)
    ensures Clients(DoAsk(net, c, comm, members, op, ops), acts + [Asks(c, comm, members, op, ops)])
  {
    var a, net' := Asks(c, comm, members, op, ops), DoAsk(net, c, comm, members, op, ops);
    var all := acts + [a];
    assert all[..|acts|] == acts && all[|acts|] == a;
    forall c', comm' ensures comm' in Among(net'.announced, c') <==> Used(all, c', comm') { UsedMore(acts, a, c', comm'); }
    forall c', m | m in At(net'.inbox, c') ensures MsgAsked(all, c', m) {
      if m in At(net.inbox, c') {
        MsgMore(acts, a, c', m);
      } else {
        assert c' == c;
        if m.NewComm? { NewMembers(acts, a); } else { assert AsksThat(all, |acts|, Ticket(c, Num(net.issued, c)), comm, op, ops); }
      }
    }
  }

  lemma NewMembers(acts: seq<Action>, a: Action)
    requires a.Asks? && !Used(acts, a.client, a.comm)
    ensures MembersOf(acts + [a], a.client, a.comm, a.members)
  {
    var all := acts + [a];
    assert Uses(all, |acts|, a.client, a.comm);
    forall h | 0 <= h < |acts| ensures !Uses(all, h, a.client, a.comm) { UsesMore(acts, a, h, a.client, a.comm); }
    assert FirstUse(all, |acts|, |acts|) && all[|acts|].members == a.members;
  }

  /** The members of a request's communicator are those of its first use. */
  lemma AskedWith(acts: seq<Action>, c: nat, comm: nat, eid: nat, op: OpType, ops: seq<ValueOp>, members: seq<seq<Addr>>, i: nat)
    requires AsksThat(acts, i, Ticket(c, eid), comm, op, ops) && MembersOf(acts, c, comm, members)
    ensures Asked(acts, Ticket(c, eid), op, ops, members)
  {
    var f: nat :| Uses(acts, f, c, comm) && FirstUse(acts, f, f) && acts[f].members == members;
    var f' := SomeFirst(acts, i, i);
    OneFirst(acts, f, f, f', i);
  }

  /** What the taking of a client's message changes. */
  lemma TakesNet(w: World, net: Net, c: nat, id: nat)
    requires ValidWorld(w) && Enabled(w, net, Takes(c, id)) && TakeOk(w, net, c)
    ensures var m, net' := At(net.inbox, c)[0], Do(w, net, Takes(c, id));
            && net'.issued == net.issued && net'.announced == net.announced && net'.answers == net.answers
            && net'.inbox == net.inbox[c := At(net.inbox, c)[1..]]
            && if m.NewComm? then net'.comms == net.comms[c := CommsOf(net, c)[m.comm := m.members]] && net'.open == net.open
               else net'.comms == net.comms && net'.open == net.open[ReqKey(w.home[c], id) := Opened(net, c, m)]
  {
    var m := At(net.inbox, c)[0];
    if m.NewComm? { CommNet(w, net, c, m); } else { RequestNet(w, net, c, m, id); }
    hide DoComm, DoRequest, SendAll, FanReq, Routable;
  }

  lemma CommNet(w: World, net: Net, c: nat, m: Msg)
    requires ValidWorld(w) && c in w.home && m.NewComm? && Routable(w, m.members) && At(net.inbox, c) != []
    ensures var net' := DoComm(w, net, c, m);
            && net'.issued == net.issued && net'.announced == net.announced && net'.answers == net.answers && net'.open == net.open
            && net'.inbox == net.inbox[c := At(net.inbox, c)[1..]] && net'.comms == net.comms[c := CommsOf(net, c)[m.comm := m.members]]
  {
    hide SendAll, FanCreate, Routable;
  }

  /** The router takes a client's message. */
  lemma TakesRouters(w: World, net: Net, acts: seq<Action>, c: nat, id: nat)
    requires ValidWorld(w) && Routers(net, acts) && Clients(net, acts) && Enabled(w, net, Takes(c, id)) && TakeOk(w, net, c)
    ensures Routers(Do(w, net, Takes(c, id)), acts + [Takes(c, id)])
  {
    TakesNet(w, net, c, id);
    hide Do, Routable, MsgAsked, Routers, Opened;
    var m := At(net.inbox, c)[0];
    assert m in At(net.inbox, c) && MsgAsked(acts, c, m);
    if m.Ask? {
      RequestRouters(net, Do(w, net, Takes(c, id)), acts, Takes(c, id), c, m, ReqKey(w.home[c], id));
    } else {
      CommRouters(net, Do(w, net, Takes(c, id)), acts, Takes(c, id), c, m);
    }
  }

  lemma RequestRouters(net: Net, net': Net, acts: seq<Action>, a: Action, c: nat, m: Msg, k: ReqKey)
    requires Routers(net, acts) && MsgAsked(acts, c, m) && m.Ask? && AskOk(m.op, m.ops) && m.comm in CommsOf(net, c)
    requires net'.comms == net.comms && net'.open == net.open[k := Opened(net, c, m)] && net'.answers == net.answers
    ensures Routers(net', acts + [a])
  {
    hide Asked, MembersOf, Start;
    var i: nat :| AsksThat(acts, i, Ticket(c, m.eid), m.comm, m.op, m.ops);
    AskedWith(acts, c, m.comm, m.eid, m.op, m.ops, CommsOf(net, c)[m.comm], i);
    forall c', comm | comm in CommsOf(net', c') ensures MembersOf(acts + [a], c', comm, CommsOf(net', c')[comm]) {
      MembersMore(acts, a, c', comm, CommsOf(net, c')[comm]);
    }
    forall k' | k' in net'.open ensures RequestAsked(acts + [a], net'.open[k']) { RequestMore(acts, a, net'.open[k'], net'.open[k']); }
    forall t, r | r in At(net'.answers, t) ensures RequestAsked(acts + [a], r) { RequestMore(acts, a, r, r); }
  }

  lemma CommRouters(net: Net, net': Net, acts: seq<Action>, a: Action, c: nat, m: Msg)
    requires Routers(net, acts) && MsgAsked(acts, c, m) && m.NewComm?
    requires net'.comms == net.comms[c := CommsOf(net, c)[m.comm := m.members]] && net'.open == net.open && net'.answers == net.answers
    ensures Routers(net', acts + [a])
  {
    hide Asked, MembersOf;
    forall c', comm | comm in CommsOf(net', c') ensures MembersOf(acts + [a], c', comm, CommsOf(net', c')[comm]) {
      if c' == c && comm == m.comm {
        MembersMore(acts, a, c, comm, m.members);
      } else {
        assert comm in CommsOf(net, c');
        MembersMore(acts, a, c', comm, CommsOf(net, c')[comm]);
      }
    }
    forall k | k in net'.open ensures RequestAsked(acts + [a], net'.open[k]) { RequestMore(acts, a, net'.open[k], net'.open[k]); }
    forall t, r | r in At(net'.answers, t) ensures RequestAsked(acts + [a], r) { RequestMore(acts, a, r, r); }
  }

  /** What the other steps leave alone. */
  lemma OtherSame(w: World, net: Net, a: Action)
    requires ValidWorld(w) && Enabled(w, net, a) && !a.Takes? && !a.Collects?
    ensures var net' := Do(w, net, a);
            && net'.comms == net.comms && net'.open == net.open && net'.answers == net.answers
            && (!a.Asks? ==> net'.inbox == net.inbox && net'.issued == net.issued && net'.announced == net.announced)
  {
    hide Send, Drain, DropHead, Append, CanSend;
  }

  lemma TakesClients(w: World, net: Net, c: nat, id: nat)
    requires ValidWorld(w) && Enabled(w, net, Takes(c, id)) && TakeOk(w, net, c)
    ensures var net' := Do(w, net, Takes(c, id));
            && net'.issued == net.issued && net'.announced == net.announced && forall d, m :: m in At(net'.inbox, d) ==> m in At(net.inbox, d)
  {
    TakesNet(w, net, c, id);
    hide Do, Opened;
  }

  lemma StepAsked(w: World, net: Net, acts: seq<Action>, a: Action)
    requires Inv(w, net) && Enabled(w, net, a) && Clients(net, acts) && Routers(net, acts)
    ensures Clients(Do(w, net, a), acts + [a]) && Routers(Do(w, net, a), acts + [a])
  {
    InvValid(w, net);
    match a
    case Asks(c, comm, members, op, ops) => AsksAsked(net, acts, a);
    case Takes(c, id) => TakesAsked(w, net, acts, a);
    case Collects(ch) => CollectsAsked(w, net, acts, a);
    case _ =>
      hide Flowing, Booked, Clients, Routers, Do, Enabled, SameAsk;
      OtherSame(w, net, a);
      Same(net);
      RoutersMore(net, Do(w, net, a), acts, a);
      ClientsMore(net, Do(w, net, a), acts, a);
  }

  lemma Same(net: Net)
    ensures forall k :: k in net.open ==> SameAsk(net.open[k], net.open[k])
  {}

  lemma AsksAsked(net: Net, acts: seq<Action>, a: Action)
    requires a.Asks? && Clients(net, acts) && Routers(net, acts)
    ensures var net' := DoAsk(net, a.client, a.comm, a.members, a.op, a.ops); Clients(net', acts + [a]) && Routers(net', acts + [a])
  {
    hide Clients, Routers;
    AsksClients(net, acts, a.client, a.comm, a.members, a.op, a.ops);
    RoutersMore(net, DoAsk(net, a.client, a.comm, a.members, a.op, a.ops), acts, a);
  }

  lemma TakesAsked(w: World, net: Net, acts: seq<Action>, a: Action)
    requires a.Takes? && Inv(w, net) && Enabled(w, net, a) && Clients(net, acts) && Routers(net, acts)
    ensures Clients(Do(w, net, a), acts + [a]) && Routers(Do(w, net, a), acts + [a])
  {
    InvValid(w, net);
    Taken(w, net, a.client);
    hide Flowing, Booked, Clients, Routers, Do, TakeOk;
    TakesClients(w, net, a.client, a.id);
    TakesRouters(w, net, acts, a.client, a.id);
    ClientsMore(net, Do(w, net, a), acts, a);
  }

  lemma CollectsAsked(w: World, net: Net, acts: seq<Action>, a: Action)
    requires a.Collects? && Inv(w, net) && Enabled(w, net, a) && Clients(net, acts) && Routers(net, acts)
    ensures Clients(Do(w, net, a), acts + [a]) && Routers(Do(w, net, a), acts + [a])
  {
    InvValid(w, net);
    CollectsStep(w, net, a.chan);
    hide Flowing, Booked, Clients, Routers, DropHead, CollectOk, Kept, Told, SameAsk;
    CollectsAsks(net, a.chan);
    RoutersMore(net, DoCollect(net, a.chan), acts, a);
    ClientsMore(net, DoCollect(net, a.chan), acts, a);
  }

  lemma CollectsAsks(net: Net, ch: Chan)
    requires (ch.Wire? || ch.Up?) && On(net.q, ch) != [] && CollectOk(net, On(net.q, ch)[0])
    ensures var net' := DoCollect(net, ch);
            && (forall k :: k in net'.open ==> k in net.open && SameAsk(net'.open[k], net.open[k]))
            && (forall t, r :: r in At(net'.answers, t) ==> r in At(net.answers, t) || exists k :: k in net.open && SameAsk(r, net.open[k]))
  {
    hide Absorb;
    var p := On(net.q, ch)[0];
    assert SameAsk(Counted(net.open[KeyOf(p)], p), net.open[KeyOf(p)]);
  }

  lemma IdleAsked()
    ensures Clients(IDLE, []) && Routers(IDLE, [])
  {}

  lemma {:induction false} RunAsked(w: World, nets: seq<Net>, acts: seq<Action>, n: nat)
    requires IsRun(w, nets, acts) && n <= |acts|
    ensures Clients(nets[n], acts[..n]) && Routers(nets[n], acts[..n])
  {
    hide Clients, Routers, Inv, Do;
    if n == 0 {
      IdleAsked();
      assert acts[..0] == [];
    } else {
      RunAsked(w, nets, acts, n - 1);
      RunKeeps(w, nets, acts, n - 1);
      StepAsked(w, nets[n - 1], acts[..n - 1], acts[n - 1]);
      assert acts[..n] == acts[..n - 1] + [acts[n - 1]];
    }
  }

  lemma {:induction false} FirstLater(acts: seq<Action>, n: nat, f: nat, i: nat)
    requires i < n <= |acts| && FirstUse(acts[..n], f, i)
    ensures FirstUse(acts, f, i) && TicketOf(acts, i) == TicketOf(acts[..n], i)
  {
    assert acts[..n][..i] == acts[..i];
    forall h | 0 <= h < f ensures !Uses(acts, h, acts[i].client, acts[i].comm) {
      assert !Uses(acts[..n], h, acts[i].client, acts[i].comm);
    }
  }

  /** In every later state the request of action i, open or answered, has this action's
      operations, and as its groups the members of the first use of the communicator. */
  lemma KeptAsAsked(w: World, nets: seq<Net>, acts: seq<Action>, n: nat, i: nat, f: nat, r: Request)
    requires IsRun(w, nets, acts) && n <= |acts| && FirstUse(acts, f, i) && r.ticket == TicketOf(acts, i)
    requires r in At(nets[n].answers, r.ticket) || exists k :: k in nets[n].open && nets[n].open[k] == r
    ensures r.op == acts[i].op && r.ops == acts[i].ops && r.groups == acts[f].members && i < n
  {
    RunAsked(w, nets, acts, n);
    assert RequestAsked(acts[..n], r);
    var done := acts[..n];
    var i': nat, f': nat :| FirstUse(done, f', i') && AsksThat(done, i', r.ticket, done[i'].comm, r.op, r.ops) && r.groups == done[f'].members;
    FirstLater(acts, n, f', i');
    TicketsDiffer(acts, i, i');
    OneFirst(acts, f, i, f', i);
  }

  /** A client's requests are numbered as it makes them. */
  lemma NumberedAsAsked(w: World, nets: seq<Net>, acts: seq<Action>, n: nat, i: nat)
    requires IsRun(w, nets, acts) && i < n <= |acts| && acts[i].Asks?
    ensures TicketOf(acts, i).eid == Num(nets[i].issued, acts[i].client) < Num(nets[n].issued, acts[i].client)
    ensures acts[i].client in w.home
  {
    RunAsked(w, nets, acts, i);
    RunAsked(w, nets, acts, n);
    AsksGrow(acts, i, n, acts[i].client);
  }

  // --------------------------------------------------------- what was answered

  /** The request that action a answers. */
  ghost function Replied(net: Net, a: Action): Packet<Body>
    requires a.Answers? && a.k < |At(net.held, a.server)|
  {
    At(net.held, a.server)[a.k]
  }

  /** Action a answers a request that belongs to group g of ticket t. */
  ghost predicate AnswersTo(net: Net, a: Action, t: Ticket, g: nat) {
    && a.Answers? && a.k < |At(net.held, a.server)| && Replied(net, a).body.Req? && Replied(net, a).body.grp == g
    && var k := ReqKey(Replied(net, a).src.rtr, Replied(net, a).body.id); k in net.open && net.open[k].ticket == t
  }

  /** Reply p to ticket t is what its source answered at some step. */
  ghost predicate Given(nets: seq<Net>, acts: seq<Action>, t: Ticket, p: Packet<Body>)
    requires |acts| <= |nets|
  {
    p.body.Reply? && exists h: nat :: h < |acts| && GivenAt(nets[h], acts[h], t, p)
  }

  ghost predicate GivenAt(net: Net, a: Action, t: Ticket, p: Packet<Body>)
    requires p.body.Reply?
  {
    AnswersTo(net, a, t, p.body.grp) && a.server == p.src && a.resp == p.body.resp
  }

  /** Every reply in flight or counted was given. */
  ghost predicate Replies(w: World, nets: seq<Net>, acts: seq<Action>, net: Net)
    requires ValidWorld(w) && |acts| <= |nets|
  {
    && (forall f, b :: b in View(w.plant, net.q)(f) && b.Reply? ==> FlightGiven(nets, acts, net, f, b))
    && (forall k, p :: k in net.open && p in net.open[k].arr ==> Given(nets, acts, net.open[k].ticket, p))
    && (forall t, r, p :: r in At(net.answers, t) && p in r.arr ==> Given(nets, acts, r.ticket, p))
  }

  ghost predicate FlightGiven(nets: seq<Net>, acts: seq<Action>, net: Net, f: Flow, b: Body)
    requires |acts| <= |nets| && b.Reply?
  {
    var k := ReqKey(f.dest.rtr, b.id);
    k in net.open && Given(nets, acts, net.open[k].ticket, Packet(f.src, f.dest, b))
  }

  lemma GivenMore(nets: seq<Net>, acts: seq<Action>, a: Action, t: Ticket, p: Packet<Body>)
    requires |acts| < |nets| && Given(nets, acts, t, p)
    ensures Given(nets, acts + [a], t, p)
  {
    var h: nat :| h < |acts| && GivenAt(nets[h], acts[h], t, p);
    assert (acts + [a])[h] == acts[h];
  }

  /** In flight before, for a request that is still the same. */
  ghost predicate FlightStays(w: World, net: Net, net': Net, f: Flow, b: Body)
    requires ValidWorld(w) && b.Reply?
  {
    var k := ReqKey(f.dest.rtr, b.id);
    b in View(w.plant, net.q)(f) && (k in net.open ==> k in net'.open && net'.open[k].ticket == net.open[k].ticket)
  }

  /** Counted before, for the same request. */
  ghost predicate CountedStays(net: Net, net': Net, k: ReqKey, p: Packet<Body>)
    requires k in net'.open
  {
    k in net.open && net'.open[k].ticket == net.open[k].ticket && p in net.open[k].arr
  }

  lemma RepliesMore(w: World, nets: seq<Net>, acts: seq<Action>, a: Action, net: Net, net': Net)
    requires ValidWorld(w) && |acts| < |nets| && Replies(w, nets, acts, net)
    requires forall f, b :: b in View(w.plant, net'.q)(f) && b.Reply? ==>
               FlightStays(w, net, net', f, b) || FlightGiven(nets, acts + [a], net', f, b)
    requires forall k, p :: k in net'.open && p in net'.open[k].arr ==>
               CountedStays(net, net', k, p) || Given(nets, acts + [a], net'.open[k].ticket, p)
    requires forall t, r, p :: r in At(net'.answers, t) && p in r.arr ==> r in At(net.answers, t) || Given(nets, acts + [a], r.ticket, p)
    ensures Replies(w, nets, acts + [a], net')
  {
    hide View, Given;
    forall f, b | b in View(w.plant, net'.q)(f) && b.Reply? ensures FlightGiven(nets, acts + [a], net', f, b) {
      if !FlightGiven(nets, acts + [a], net', f, b) {
        assert FlightStays(w, net, net', f, b);
        assert FlightGiven(nets, acts, net, f, b);
        GivenMore(nets, acts, a, net.open[ReqKey(f.dest.rtr, b.id)].ticket, Packet(f.src, f.dest, b));
      }
    }
    forall k, p | k in net'.open && p in net'.open[k].arr ensures Given(nets, acts + [a], net'.open[k].ticket, p) {
      if CountedStays(net, net', k, p) { GivenMore(nets, acts, a, net.open[k].ticket, p); }
    }
    forall t, r, p | r in At(net'.answers, t) && p in r.arr ensures Given(nets, acts + [a], r.ticket, p) {
      if r in At(net.answers, t) { GivenMore(nets, acts, a, r.ticket, p); }
    }
  }

  /** A server's answer puts one reply on its way. */
  lemma AnswersFlight(w: World, net: Net, a: Action) returns (back: Packet<Body>)
    requires Inv(w, net) && Enabled(w, net, a) && a.Answers?
    ensures a.k < |At(net.held, a.server)| && var q := Replied(net, a); q.body.Req? && back == Packet(a.server, q.src, Reply(q.body.id, q.body.grp, a.resp))
    ensures back.dest.RouterAt? && ReqKey(back.dest.rtr, back.body.id) in net.open && Do(w, net, a).open == net.open
    ensures forall f, b :: b in View(w.plant, Do(w, net, a).q)(f) ==> b in View(w.plant, net.q)(f) || (f == FlowOf(back) && b == back.body)
  {
    var q := Replied(net, a);
    back := Packet(a.server, q.src, Reply(q.body.id, q.body.grp, a.resp));
    assert q in At(net.held, a.server) && HeldPacketOk(w.plant, net.open, a.server, q) && BodyOk(net.open, FlowOf(q), q.body);
    UpStep(w.plant, net.q, net.up, back);
    ViewSent(w.plant, net.q, Do(w, net, a).q, FlowOf(back), back.body);
  }

  lemma OneMore(w: World, nets: seq<Net>, acts: seq<Action>, a: Action, net: Net, net': Net, back: Packet<Body>)
    requires ValidWorld(w) && |acts| < |nets| && net'.open == net.open && back.body.Reply? && ReqKey(back.dest.rtr, back.body.id) in net.open
    requires Given(nets, acts + [a], net.open[ReqKey(back.dest.rtr, back.body.id)].ticket, back)
    requires forall f, b :: b in View(w.plant, net'.q)(f) ==> b in View(w.plant, net.q)(f) || (f == FlowOf(back) && b == back.body)
    ensures forall f, b :: b in View(w.plant, net'.q)(f) && b.Reply? ==>
              FlightStays(w, net, net', f, b) || FlightGiven(nets, acts + [a], net', f, b)
  {
    hide View, Given;
    forall f, b | b in View(w.plant, net'.q)(f) && b.Reply?
      ensures FlightStays(w, net, net', f, b) || FlightGiven(nets, acts + [a], net', f, b)
    {
      if b !in View(w.plant, net.q)(f) { assert Packet(f.src, f.dest, b) == back; }
    }
  }

  lemma AnswersReplies(w: World, nets: seq<Net>, acts: seq<Action>, a: Action, net: Net)
    requires Inv(w, net) && Enabled(w, net, a) && a.Answers? && |acts| < |nets| && nets[|acts|] == net && Replies(w, nets, acts, net)
    ensures Replies(w, nets, acts + [a], Do(w, net, a))
  {
    hide View, Given, Inv, Replies, Do, Enabled, Replied, FlightStays, FlightGiven, CountedStays;
    InvValid(w, net);
    OtherSame(w, net, a);
    var back := AnswersFlight(w, net, a);
    BackGiven(nets, acts, a, net, back);
    var net' := Do(w, net, a);
    SameCounted(net, net');
    OneMore(w, nets, acts, a, net, net', back);
    RepliesMore(w, nets, acts, a, net, net');
  }

  lemma SameCounted(net: Net, net': Net)
    requires net'.open == net.open
    ensures forall k, p :: k in net'.open && p in net'.open[k].arr ==> CountedStays(net, net', k, p)
  {}

  lemma SameFlight(w: World, net: Net, net': Net)
    requires ValidWorld(w) && net'.open == net.open
    requires forall f, b :: b in View(w.plant, net'.q)(f) ==> b in View(w.plant, net.q)(f)
    ensures forall f, b :: b in View(w.plant, net'.q)(f) && b.Reply? ==> FlightStays(w, net, net', f, b)
  {
    hide View;
  }

  lemma BackGiven(nets: seq<Net>, acts: seq<Action>, a: Action, net: Net, back: Packet<Body>)
    requires |acts| < |nets| && nets[|acts|] == net && a.Answers? && a.k < |At(net.held, a.server)|
    requires var q := Replied(net, a); q.body.Req? && back == Packet(a.server, q.src, Reply(q.body.id, q.body.grp, a.resp))
    requires ReqKey(back.dest.rtr, back.body.id) in net.open
    ensures Given(nets, acts + [a], net.open[ReqKey(back.dest.rtr, back.body.id)].ticket, back)
  {
    assert (acts + [a])[|acts|] == a && GivenAt(nets[|acts|], a, net.open[ReqKey(back.dest.rtr, back.body.id)].ticket, back);
  }

  /** The router's collecting of a reply: what stays in flight is for requests still open. */
  lemma CollectsStays(w: World, net: Net, ch: Chan)
    requires ValidWorld(w) && Inv(w, net) && Enabled(w, net, Collects(ch)) && (ch.Wire? || ch.Up?) && On(net.q, ch) != []
    requires CollectOk(net, On(net.q, ch)[0]) && Inv(w, DoCollect(net, ch))
    ensures On(net.q, ch)[0].body in View(w.plant, net.q)(FlowOf(On(net.q, ch)[0]))
    ensures forall f, b :: b in View(w.plant, DoCollect(net, ch).q)(f) && b.Reply? ==> FlightStays(w, net, DoCollect(net, ch), f, b)
  {
    hide View, DoCollect, Inv, CollectOk, Sound, Enabled;
    InvSound(w, net);
    var net' := DoCollect(net, ch);
    CollectsView(w, net, ch);
    CollectsAsks(net, ch);
    StillBodies(w, net');
    forall f, b | b in View(w.plant, net'.q)(f) && b.Reply? ensures FlightStays(w, net, net', f, b) {
      assert BodyOk(net'.open, f, b);
      assert SameAsk(net'.open[ReqKey(f.dest.rtr, b.id)], net.open[ReqKey(f.dest.rtr, b.id)]);
    }
  }

  lemma StillBodies(w: World, net: Net)
    requires Inv(w, net)
    ensures forall f, b :: b in View(w.plant, net.q)(f) ==> BodyOk(net.open, f, b)
  {}

  lemma CollectsView(w: World, net: Net, ch: Chan)
    requires ValidWorld(w) && Sound(w.plant, net.q, net.up) && Enabled(w, net, Collects(ch)) && CollectOk(net, On(net.q, ch)[0])
    ensures On(net.q, ch)[0].body in View(w.plant, net.q)(FlowOf(On(net.q, ch)[0]))
    ensures forall f, b :: b in View(w.plant, DoCollect(net, ch).q)(f) ==> b in View(w.plant, net.q)(f)
  {
    TakeView(w.plant, net.q, net.up, ch);
    hide View, Kept, Told, DropHead, CollectOk, Sound;
  }

  lemma CollectedOpen(net: Net, ch: Chan, k: ReqKey, x: Packet<Body>)
    requires (ch.Wire? || ch.Up?) && On(net.q, ch) != [] && CollectOk(net, On(net.q, ch)[0])
    requires k in DoCollect(net, ch).open && x in DoCollect(net, ch).open[k].arr
    ensures var p := On(net.q, ch)[0];
            CountedStays(net, DoCollect(net, ch), k, x) || (x == p && DoCollect(net, ch).open[k].ticket == net.open[KeyOf(p)].ticket)
  {
    hide Absorb, Completes, DropHead;
  }

  lemma CollectedAnswer(net: Net, ch: Chan, t: Ticket, r: Request, x: Packet<Body>)
    requires (ch.Wire? || ch.Up?) && On(net.q, ch) != [] && CollectOk(net, On(net.q, ch)[0])
    requires r in At(DoCollect(net, ch).answers, t) && x in r.arr
    ensures var p := On(net.q, ch)[0];
            r in At(net.answers, t) || (r.ticket == net.open[KeyOf(p)].ticket && (x == p || x in net.open[KeyOf(p)].arr))
  {
    hide Absorb, Completes, DropHead;
    var p := On(net.q, ch)[0];
    var r0 := net.open[KeyOf(p)];
    if Ends(r0, p) && t == r0.ticket {
      assert At(DoCollect(net, ch).answers, t) == At(net.answers, t) + [Counted(r0, p)];
    }
  }

  lemma CollectsReplies(w: World, nets: seq<Net>, acts: seq<Action>, a: Action, net: Net)
    requires Inv(w, net) && Enabled(w, net, a) && a.Collects? && |acts| < |nets| && Replies(w, nets, acts, net)
    ensures Replies(w, nets, acts + [a], Do(w, net, a))
  {
    InvValid(w, net);
    CollectsStep(w, net, a.chan);
    CollectsStays(w, net, a.chan);
    CollectsMore(w, nets, acts, a, net);
  }

  lemma CollectsMore(w: World, nets: seq<Net>, acts: seq<Action>, a: Action, net: Net)
    requires ValidWorld(w) && Enabled(w, net, a) && a.Collects? && |acts| < |nets| && Replies(w, nets, acts, net)
    requires CollectOk(net, On(net.q, a.chan)[0]) && On(net.q, a.chan)[0].body in View(w.plant, net.q)(FlowOf(On(net.q, a.chan)[0]))
    requires forall f, b :: b in View(w.plant, DoCollect(net, a.chan).q)(f) && b.Reply? ==> FlightStays(w, net, DoCollect(net, a.chan), f, b)
    ensures Replies(w, nets, acts + [a], DoCollect(net, a.chan))
  {
    hide View, Given, DoCollect, CountedStays, FlightStays, Replies, FlightGiven, CollectOk;
    var p, net' := On(net.q, a.chan)[0], DoCollect(net, a.chan);
    OldGiven(w, nets, acts, a, net, p);
    forall k, x | k in net'.open && x in net'.open[k].arr
      ensures CountedStays(net, net', k, x) || Given(nets, acts + [a], net'.open[k].ticket, x)
    {
      CollectedOpen(net, a.chan, k, x);
    }
    forall t, r, x | r in At(net'.answers, t) && x in r.arr ensures r in At(net.answers, t) || Given(nets, acts + [a], r.ticket, x) {
      CollectedAnswer(net, a.chan, t, r, x);
    }
    RepliesMore(w, nets, acts, a, net, net');
  }

  /** The reply that arrives, and those counted before. */
  lemma OldGiven(w: World, nets: seq<Net>, acts: seq<Action>, a: Action, net: Net, p: Packet<Body>)
    requires ValidWorld(w) && |acts| < |nets| && Replies(w, nets, acts, net) && CollectOk(net, p) && p.body in View(w.plant, net.q)(FlowOf(p))
    ensures Given(nets, acts + [a], net.open[KeyOf(p)].ticket, p)
    ensures forall x :: x in net.open[KeyOf(p)].arr ==> Given(nets, acts + [a], net.open[KeyOf(p)].ticket, x)
  {
    hide View, Given, Fits;
    var t0 := net.open[KeyOf(p)].ticket;
    assert FlightGiven(nets, acts, net, FlowOf(p), p.body);
    assert Packet(p.src, p.dest, p.body) == p;
    GivenMore(nets, acts, a, t0, p);
    forall x | x in net.open[KeyOf(p)].arr ensures Given(nets, acts + [a], t0, x) { GivenMore(nets, acts, a, t0, x); }
  }

  lemma TakesReplies(w: World, nets: seq<Net>, acts: seq<Action>, a: Action, net: Net)
    requires Inv(w, net) && Enabled(w, net, a) && a.Takes? && |acts| < |nets| && Replies(w, nets, acts, net)
    ensures Replies(w, nets, acts + [a], Do(w, net, a))
  {
    InvValid(w, net);
    Taken(w, net, a.client);
    TakesFlight(w, net, a);
    TakesOpen(w, net, a);
    hide View, Inv, Do, Replies, Given, FlightGiven, FlightStays, CountedStays, TakeOk;
    RepliesMore(w, nets, acts, a, net, Do(w, net, a));
  }

  lemma TakesOpen(w: World, net: Net, a: Action)
    requires ValidWorld(w) && Enabled(w, net, a) && a.Takes? && TakeOk(w, net, a.client)
    ensures var net' := Do(w, net, a);
            && net'.answers == net.answers
            && (forall k :: k in net.open ==> k in net'.open && net'.open[k] == net.open[k])
            && (forall k, p :: k in net'.open && p in net'.open[k].arr ==> CountedStays(net, net', k, p))
  {
    TakesNet(w, net, a.client, a.id);
    hide Do, Start, TakeOk;
  }

  lemma TakesFlight(w: World, net: Net, a: Action)
    requires Inv(w, net) && Enabled(w, net, a) && a.Takes? && TakeOk(w, net, a.client)
    ensures forall f, b :: b in View(w.plant, Do(w, net, a).q)(f) && b.Reply? ==> FlightStays(w, net, Do(w, net, a), f, b)
  {
    InvValid(w, net);
    TakesOpen(w, net, a);
    var c, m := a.client, At(net.inbox, a.client)[0];
    if m.NewComm? {
      CommFlight(w, net, w.home[c], m.members, m.comm);
    } else {
      RequestNet(w, net, c, m, a.id);
      RequestFlight(w, net, w.home[c], CommsOf(net, c)[m.comm], m.comm, a.id, m.op, Columns(m.op, m.ops));
    }
  }

  lemma CommFlight(w: World, net: Net, r: nat, members: seq<seq<Addr>>, comm: nat)
    requires Inv(w, net) && r in w.plant.mesh.Keys && Routable(w, members)
    ensures var ps := FanCreate(r, members, comm);
            && (forall k :: 0 <= k < |ps| ==> CanSend(w.plant, r, ps[k]))
            && forall f, b :: b in View(w.plant, SendAll(w.plant, net.q, net.up, r, ps))(f) && b.Reply? ==> b in View(w.plant, net.q)(f)
  {
    var ps := FanCreate(r, members, comm);
    FanCreateFrom(w, r, members, comm);
    NoReplies(w, net, r, ps);
  }

  lemma RequestFlight(w: World, net: Net, r: nat, groups: seq<seq<Addr>>, comm: nat, id: nat, op: OpType, n: nat)
    requires Inv(w, net) && r in w.plant.mesh.Keys && Routable(w, groups)
    ensures var ps := FanReq(r, groups, comm, id, op, n);
            && (forall k :: 0 <= k < |ps| ==> CanSend(w.plant, r, ps[k]))
            && forall f, b :: b in View(w.plant, SendAll(w.plant, net.q, net.up, r, ps))(f) && b.Reply? ==> b in View(w.plant, net.q)(f)
  {
    var ps := FanReq(r, groups, comm, id, op, n);
    FanReqFrom(w, r, groups, comm, id, op, n);
    NoReplies(w, net, r, ps);
  }

  lemma NoReplies(w: World, net: Net, r: nat, ps: seq<Packet<Body>>)
    requires Inv(w, net) && FromRouter(w.plant, r, ps) && forall p :: p in ps ==> !p.body.Reply?
    ensures forall k :: 0 <= k < |ps| ==> CanSend(w.plant, r, ps[k])
    ensures forall f, b :: b in View(w.plant, SendAll(w.plant, net.q, net.up, r, ps))(f) && b.Reply? ==> b in View(w.plant, net.q)(f)
  {
    ViewFanned(w.plant, net.q, net.up, r, ps);
    hide View, SendAll, Inv, Pick;
    forall f, b | b in View(w.plant, SendAll(w.plant, net.q, net.up, r, ps))(f) && b.Reply? ensures b in View(w.plant, net.q)(f) {
      if b in Pick(ps, f) { PickMember(ps, f, b); }
    }
  }

  lemma InvSound(w: World, net: Net)
    requires Inv(w, net)
    ensures ValidWorld(w) && Sound(w.plant, net.q, net.up)
  {}

  lemma UnmovedFlight(pl: Plant, q: Queues<Body>, q': Queues<Body>)
    requires ValidPlant(pl) && Unmoved(pl, q, q')
    ensures forall f, b :: b in View(pl, q')(f) ==> b in View(pl, q)(f)
  {
    forall f ensures View(pl, q')(f) == View(pl, q)(f) {}
  }

  lemma RelaysFlight(w: World, net: Net, ch: Chan)
    requires ValidWorld(w) && Sound(w.plant, net.q, net.up) && Enabled(w, net, Relays(ch))
    ensures forall f, b :: b in View(w.plant, Do(w, net, Relays(ch)).q)(f) ==> b in View(w.plant, net.q)(f)
  {
    RelayStep(w.plant, net.q, net.up, ch);
    hide Sound, ValidPlant, View, Unmoved, Send, DropHead, CanSend;
    UnmovedFlight(w.plant, net.q, Send(w.plant, DropHead(net.q, ch), net.up, Arrives(ch), On(net.q, ch)[0]));
  }

  lemma ConnectsFlight(w: World, net: Net, s: Addr)
    requires ValidWorld(w) && Sound(w.plant, net.q, net.up) && Enabled(w, net, Connects(s))
    ensures forall f, b :: b in View(w.plant, Do(w, net, Connects(s)).q)(f) ==> b in View(w.plant, net.q)(f)
  {
    DrainStep(w.plant, net.q, net.up, s);
    hide Sound, ValidPlant, View, Unmoved, Drain;
    UnmovedFlight(w.plant, net.q, Drain(net.q, s));
  }

  lemma ServesQueues(w: World, net: Net, s: Addr)
    requires ValidWorld(w) && Enabled(w, net, Serves(s))
    ensures Do(w, net, Serves(s)).q == DropHead(net.q, Down(s))
  {
    hide DropHead;
  }

  lemma ServesFlight(w: World, net: Net, s: Addr)
    requires ValidWorld(w) && Sound(w.plant, net.q, net.up) && Enabled(w, net, Serves(s))
    ensures forall f, b :: b in View(w.plant, Do(w, net, Serves(s)).q)(f) ==> b in View(w.plant, net.q)(f)
  {
    TakeView(w.plant, net.q, net.up, Down(s));
    ServesQueues(w, net, s);
    hide Sound, ValidPlant, View, DropHead, Do;
  }

  /** The other steps move replies on or leave them. */
  lemma OtherFlight(w: World, net: Net, a: Action)
    requires Inv(w, net) && Enabled(w, net, a) && !a.Takes? && !a.Collects? && !a.Answers?
    ensures forall f, b :: b in View(w.plant, Do(w, net, a).q)(f) ==> b in View(w.plant, net.q)(f)
  {
    InvSound(w, net);
    match a
    case Relays(ch) => RelaysFlight(w, net, ch);
    case Connects(s) => ConnectsFlight(w, net, s);
    case Serves(s) => ServesFlight(w, net, s);
    case Asks(_, _, _, _, _) =>
  }

  lemma OtherReplies(w: World, nets: seq<Net>, acts: seq<Action>, a: Action, net: Net)
    requires Inv(w, net) && Enabled(w, net, a) && !a.Takes? && !a.Collects? && !a.Answers?
    requires |acts| < |nets| && Replies(w, nets, acts, net)
    ensures Replies(w, nets, acts + [a], Do(w, net, a))
  {
    InvValid(w, net);
    OtherSame(w, net, a);
    OtherFlight(w, net, a);
    var net' := Do(w, net, a);
    hide View, Do, Inv, Enabled, Replies, Given;
    SameFlight(w, net, net');
    SameCounted(net, net');
    hide FlightStays, FlightGiven, CountedStays;
    RepliesMore(w, nets, acts, a, net, net');
  }

  lemma StepReplies(w: World, nets: seq<Net>, acts: seq<Action>, a: Action, net: Net)
    requires Inv(w, net) && Enabled(w, net, a) && |acts| < |nets| && nets[|acts|] == net && Replies(w, nets, acts, net)
    ensures Replies(w, nets, acts + [a], Do(w, net, a))
  {
    match a
    case Takes(_, _) => TakesReplies(w, nets, acts, a, net);
    case Collects(_) => CollectsReplies(w, nets, acts, a, net);
    case Answers(_, _, _) => AnswersReplies(w, nets, acts, a, net);
    case _ => OtherReplies(w, nets, acts, a, net);
  }

  lemma {:induction false} RunReplies(w: World, nets: seq<Net>, acts: seq<Action>, n: nat)
    requires IsRun(w, nets, acts) && n <= |acts|
    ensures Replies(w, nets, acts[..n], nets[n])
  {
    hide Inv, Do, Replies;
    if n == 0 {
      IdleReplies(w, nets, acts[..0]);
    } else {
      RunReplies(w, nets, acts, n - 1);
      RunKeeps(w, nets, acts, n - 1);
      StepReplies(w, nets, acts[..n - 1], acts[n - 1], nets[n - 1]);
      assert acts[..n] == acts[..n - 1] + [acts[n - 1]];
    }
  }

  lemma IdleReplies(w: World, nets: seq<Net>, acts: seq<Action>)
    requires ValidWorld(w) && acts == [] && nets != []
    ensures Replies(w, nets, acts, IDLE)
  {
    forall f | FlowIn(w.plant, f) ensures InFlight<Body>(w.plant, map[], f) == [] { NothingFlat(Way(w.plant, f), f); }
  }

  /** Every reply that an answer counts was given to this very request, by its source, at a
      step of the run. */
  lemma CountedAsGiven(w: World, nets: seq<Net>, acts: seq<Action>, n: nat, t: Ticket, p: Packet<Body>) returns (h: nat)
    requires IsRun(w, nets, acts) && n <= |acts| && At(nets[n].answers, t) != [] && p in At(nets[n].answers, t)[0].arr
    ensures p.body.Reply? && h < n && AnswersTo(nets[h], acts[h], t, p.body.grp) && acts[h].server == p.src && acts[h].resp == p.body.resp
  {
    RunReplies(w, nets, acts, n);
    RunKeeps(w, nets, acts, n);
    assert AnsweredTicket(w, nets[n], t);
    var r := At(nets[n].answers, t)[0];
    assert Given(nets, acts[..n], r.ticket, p);
    h :| h < n && GivenAt(nets[h], acts[..n][h], t, p);
  }
}
