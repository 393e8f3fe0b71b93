/** The promises of the request protocol, for every state of every run. */
module ProtocolTheorems {
  import opened Common
  import opened Routing
  import opened Fabric
  import opened Aggregation
  import opened Protocol
  import opened ProtocolInv
  import opened ProtocolRuns
  import opened ProtocolAsks

  // -------------------------------------------------------------- delivery

  /** Of every sender and receiver: what has arrived is a prefix of what was sent, and the
      rest is under way in that order, so nothing is lost, doubled or overtaken. */
  lemma OrderedDelivery(w: World, nets: seq<Net>, acts: seq<Action>, i: nat, f: Flow)
    requires IsRun(w, nets, acts) && i < |nets|
    ensures FlowIn(w.plant, f) ==> Pick(nets[i].sent, f) == Pick(nets[i].got, f) + InFlight(w.plant, nets[i].q, f)
    ensures !FlowIn(w.plant, f) ==> Pick(nets[i].sent, f) == Pick(nets[i].got, f)
    ensures Pick(nets[i].got, f) <= Pick(nets[i].sent, f)
  {
    RunKeeps(w, nets, acts, i);
    var fl := View(w.plant, nets[i].q);
    assert Pick(nets[i].sent, f) == Pick(nets[i].got, f) + fl(f);
  }

  /** On every flow, what has arrived holds the CommCreate of a communicator before any
      CommReq that uses it. */
  lemma CreateArrivesFirst(w: World, nets: seq<Net>, acts: seq<Action>, i: nat, f: Flow, j: nat)
    requires IsRun(w, nets, acts) && i < |nets|
    requires j < |Pick(nets[i].got, f)| && Pick(nets[i].got, f)[j].Req?
    ensures exists m :: 0 <= m < j && Pick(nets[i].got, f)[m] == Create(Pick(nets[i].got, f)[j].comm)
  {
    RunKeeps(w, nets, acts, i);
    OrderedDelivery(w, nets, acts, i, f);
    var s, g := Pick(nets[i].sent, f), Pick(nets[i].got, f);
    assert CreatedFirst(s);
    assert g[j] == s[j];
    var m :| 0 <= m < |s[..j]| && s[..j][m] == Create(s[j].comm);
    assert g[m] == s[m];
  }

  /** A server that takes the event at the head of its channel is its receiver, and knows
      the communicator of a request. */
  lemma CommKnown(w: World, nets: seq<Net>, acts: seq<Action>, i: nat, s: Addr)
    requires IsRun(w, nets, acts) && i < |nets| && On(nets[i].q, Down(s)) != []
    ensures var p := On(nets[i].q, Down(s))[0];
            p.dest == s && !p.body.Reply? && (p.body.Req? ==> p.body.comm in Among(nets[i].known, s))
  {
    RunKeeps(w, nets, acts, i);
    ServesStep(w, nets[i], s);
  }

  // ----------------------------------------------- no assertion of the source fails

  /** What the source asserts, or follows without a check, at each step: a client's
      communicator is new or known, a passed-on event has a next channel, a reply's id
      points to an open request whose counters it fits, an answered request is one. */
  ghost predicate Safe(w: World, net: Net, a: Action) {
    match a
    case Takes(c, _) => TakeOk(w, net, c)
    case Relays(ch) => On(net.q, ch) != [] && (ch.Wire? || ch.Up?) && CanSend(w.plant, Arrives(ch), On(net.q, ch)[0])
    case Collects(ch) => On(net.q, ch) != [] && CollectOk(net, On(net.q, ch)[0])
    case Serves(s) => On(net.q, Down(s)) != [] && On(net.q, Down(s))[0].dest == s && !On(net.q, Down(s))[0].body.Reply?
    case _ => true
  }

  lemma EveryStepSafe(w: World, nets: seq<Net>, acts: seq<Action>, i: nat, a: Action)
    requires IsRun(w, nets, acts) && i < |nets| && Enabled(w, nets[i], a)
    ensures Safe(w, nets[i], a)
  {
    RunKeeps(w, nets, acts, i);
    match a
    case Takes(c, _) => Taken(w, nets[i], c);
    case Relays(ch) => RelaysStep(w, nets[i], ch);
    case Collects(ch) => CollectsStep(w, nets[i], ch);
    case Serves(s) => ServesStep(w, nets[i], s);
    case _ =>
  }

  // ------------------------------------------------------------ conservation

  /** Of each source of a group of an open request: requests under way to it, requests it
      holds, replies under way from it and replies counted make up what the group names. */
  lemma Conservation(w: World, nets: seq<Net>, acts: seq<Action>, i: nat, k: ReqKey, g: nat, d: Addr)
    requires IsRun(w, nets, acts) && i < |nets| && k in nets[i].open
    requires g < |nets[i].open[k].groups| && d.ServerAt?
    ensures Tally(View(w.plant, nets[i].q), At(nets[i].held, d), nets[i].open[k].arr, k, g, d)
         == multiset(nets[i].open[k].groups[g])[d]
  {
    RunKeeps(w, nets, acts, i);
    assert RequestOk(w, View(w.plant, nets[i].q), nets[i].held, k, nets[i].open[k]);
  }

  /** The reply queue of a group never holds more replies than the group has sources, and
      pending is the number of groups not full; a request that has groups and is still
      open waits for at least one. */
  lemma PendingCounts(w: World, nets: seq<Net>, acts: seq<Action>, i: nat, k: ReqKey)
    requires IsRun(w, nets, acts) && i < |nets| && k in nets[i].open
    ensures var r := nets[i].open[k];
            && |r.info.respQ| == |r.groups|
            && (forall g :: 0 <= g < |r.groups| ==> |r.info.respQ[g]| == |Of(Evs(r.arr), g)| <= |r.groups[g]|)
            && r.info.pending == Waiting(Sizes(r.groups), Evs(r.arr), |r.groups|)
            && (r.groups != [] ==> r.info.pending > 0)
  {
    hide Waiting, After, View, Bounded;
    RunKeeps(w, nets, acts, i);
    var r := nets[i].open[k];
    var fl := View(w.plant, nets[i].q);
    assert RequestOk(w, fl, nets[i].held, k, r);
    BoundedReplies(fl, nets[i].held, k, r);
    Countdown(r.op, r.ops, Sizes(r.groups), Evs(r.arr));
    WaitingZero(Sizes(r.groups), Evs(r.arr), |r.groups|);
    forall g | 0 <= g < |r.groups| ensures |r.info.respQ[g]| == |Of(Evs(r.arr), g)| <= |r.groups[g]| {
      FromConserved(fl, nets[i].held, k, r, g);
    }
  }

  // -------------------------------------------------------------- the answer

  lemma TicketsApart(w: World, net: Net, t: Ticket)
    requires TicketsOk(w, net)
    ensures |At(net.answers, t)| <= 1 && forall r :: r in At(net.answers, t) ==> r.ticket == t
    ensures At(net.answers, t) != [] ==> forall k :: k in net.open ==> net.open[k].ticket != t
    ensures forall k, k' :: k in net.open && k' in net.open && net.open[k].ticket == net.open[k'].ticket ==> k == k'
  {
    hide Finished;
    if At(net.answers, t) != [] { assert AnsweredTicket(w, net, t); }
    forall k | k in net.open ensures OpenTicket(w, net, k, net.open[k].ticket) {}
  }

  /** A request is answered at most once, under its own ticket, and never while it is open. */
  lemma AtMostOneAnswer(w: World, nets: seq<Net>, acts: seq<Action>, i: nat, t: Ticket)
    requires IsRun(w, nets, acts) && i < |nets|
    ensures |At(nets[i].answers, t)| <= 1
    ensures forall r :: r in At(nets[i].answers, t) ==> r.ticket == t
    ensures At(nets[i].answers, t) != [] ==> forall k :: k in nets[i].open ==> nets[i].open[k].ticket != t
    ensures forall k, k' :: k in nets[i].open && k' in nets[i].open && nets[i].open[k].ticket == nets[i].open[k'].ticket ==> k == k'
  {
    hide IsRun, Flowing, CreatesSent, CreatesKnown, ClientsOk, TicketsOk;
    RunKeeps(w, nets, acts, i);
    TicketsApart(w, nets[i], t);
  }

  /** An answer: the response to r once every group has heard each of its sources. */
  lemma AnswerHeardAll(w: World, nets: seq<Net>, acts: seq<Action>, i: nat, t: Ticket, g: nat)
    requires IsRun(w, nets, acts) && i < |nets| && At(nets[i].answers, t) != []
    requires g < |At(nets[i].answers, t)[0].groups|
    ensures var r := At(nets[i].answers, t)[0];
            && multiset(Sources(r.arr, g)) == multiset(r.groups[g])
            && |Of(Evs(r.arr), g)| == |r.groups[g]| > 0
            && (r.op == Get ==> RowIs(r.info.resp, g, Of(Evs(r.arr), g), |r.ops|))
            && InStep(r.info.resp) && Triples(r.info.resp) == FullErrors(Sizes(r.groups), Evs(r.arr))
  {
    RunKeeps(w, nets, acts, i);
    assert AnsweredTicket(w, nets[i], t);
    var r := At(nets[i].answers, t)[0];
    assert Full(Sizes(r.groups), Evs(r.arr), g);
    if r.op == Get { RowsAreSums(r.ops, Sizes(r.groups), Evs(r.arr), g); }
    AllErrorsKept(r.op, r.ops, Sizes(r.groups), Evs(r.arr));
  }

  /** The sum of what each address contributes. */
  ghost function SumOver(ans: Addr -> real, s: seq<Addr>): real { Sum(seq(|s|, k requires 0 <= k < |s| => ans(s[k]))) }

  lemma SumOverStep(ans: Addr -> real, s: seq<Addr>)
    ensures SumOver(ans, s) == if s == [] then 0.0 else SumOver(ans, s[..|s| - 1]) + ans(s[|s| - 1])
  {
    if s != [] {
      assert seq(|s|, k requires 0 <= k < |s| => ans(s[k]))[..|s| - 1]
          == seq(|s| - 1, k requires 0 <= k < |s| - 1 => ans(s[..|s| - 1][k]));
    }
  }

  lemma {:induction false} SumWithout(ans: Addr -> real, s: seq<Addr>, k: nat)
    requires k < |s|
    ensures SumOver(ans, s) == SumOver(ans, s[..k] + s[k + 1..]) + ans(s[k])
  {
    hide SumOver;
    SumOverStep(ans, s);
    var rest := s[..k] + s[k + 1..];
    if k == |s| - 1 {
      assert rest == s[..|s| - 1];
    } else {
      SumWithout(ans, s[..|s| - 1], k);
      SumOverStep(ans, rest);
      assert rest[..|rest| - 1] == s[..|s| - 1][..k] + s[..|s| - 1][k + 1..];
    }
  }

  lemma {:induction false} SumOrder(ans: Addr -> real, s: seq<Addr>, u: seq<Addr>)
    requires multiset(s) == multiset(u)
    ensures SumOver(ans, s) == SumOver(ans, u)
  {
    hide SumOver;
    SumOverStep(ans, s);
    if s == [] {
      assert |multiset(u)| == |u|;
      SumOverStep(ans, u);
    } else {
      var x := s[|s| - 1];
      assert x in multiset(u);
      var k :| 0 <= k < |u| && u[k] == x;
      var u' := u[..k] + u[k + 1..];
      assert u == u[..k] + [x] + u[k + 1..];
      assert s == s[..|s| - 1] + [x];
      assert multiset(u) == multiset(u') + multiset{x};
      assert multiset(s[..|s| - 1]) == multiset(s) - multiset{x};
      assert multiset(u') == multiset(u) - multiset{x};
      SumOrder(ans, s[..|s| - 1], u');
      SumWithout(ans, u, k);
    }
  }

  /** Every reply for group g holds, in column c, what ans says of its source. */
  ghost predicate Steady(arr: seq<Packet<Body>>, g: nat, c: nat, ans: Addr -> real) {
    forall p :: p in arr && p.body.Reply? && p.body.grp == g ==> Cell(p.body.resp, c) == ans(p.src)
  }

  lemma {:induction false} ColumnOfSources(arr: seq<Packet<Body>>, g: nat, c: nat, ans: Addr -> real)
    requires Steady(arr, g, c, ans) && forall p :: p in arr ==> p.body.Reply?
    ensures Column(Of(Evs(arr), g), c) == SumOver(ans, Sources(arr, g))
  {
    hide SumOver;
    SumOverStep(ans, []);
    if arr != [] {
      var before, p := arr[..|arr| - 1], arr[|arr| - 1];
      assert p in arr && arr == before + [p];
      ColumnOfSources(before, g, c, ans);
      assert Evs(arr)[..|arr| - 1] == Evs(before);
      OfStep(Evs(arr), g);
      SourcesStep(before, p, g);
      if p.body.grp == g {
        ColumnAppend(Of(Evs(before), g), p.body.resp, c);
        SumAppend(ans, Sources(before, g), p.src);
      }
    }
  }

  lemma ColumnAppend(rs: seq<Resp>, x: Resp, c: nat)
    ensures Column(rs + [x], c) == Column(rs, c) + Cell(x, c)
  {
    assert (rs + [x])[..|rs|] == rs;
  }

  lemma SumAppend(ans: Addr -> real, s: seq<Addr>, x: Addr)
    ensures SumOver(ans, s + [x]) == SumOver(ans, s) + ans(x)
  {
    hide SumOver;
    SumOverStep(ans, s + [x]);
    assert (s + [x])[..|s|] == s;
  }

  /** Whoever answers a request of ticket t for group g gives what ans says of it in column c. */
  ghost predicate Answering(nets: seq<Net>, acts: seq<Action>, n: nat, t: Ticket, g: nat, c: nat, ans: Addr -> real)
    requires n <= |acts| <= |nets|
  {
    forall h :: 0 <= h < n && AnswersTo(nets[h], acts[h], t, g) ==> Cell(acts[h].resp, c) == ans(acts[h].server)
  }

  /** The value the client reads for group g and attribute c of the request that action i
      makes is the sum, over the names in group g of the communicator's first use f, of what
      each source answered to this request: whatever the order of arrival, whichever routers
      the replies came through, a source named twice counted twice. */
  lemma AnswerIsGroupSum(w: World, nets: seq<Net>, acts: seq<Action>, n: nat, i: nat, f: nat, g: nat, c: nat, ans: Addr -> real)
    requires IsRun(w, nets, acts) && n <= |acts| && FirstUse(acts, f, i) && At(nets[n].answers, TicketOf(acts, i)) != []
    requires acts[i].op == Get && g < |acts[f].members| && c < |acts[i].ops|
    requires Answering(nets, acts, n, TicketOf(acts, i), g, c, ans)
    ensures var v := At(nets[n].answers, TicketOf(acts, i))[0].info.resp.value;
            g < |v| && c < |v[g]| && v[g][c] == SumOver(ans, acts[f].members[g])
  {
    var t := TicketOf(acts, i);
    AtMostOneAnswer(w, nets, acts, n, t);
    var r := At(nets[n].answers, t)[0];
    assert r in At(nets[n].answers, t);
    KeptAsAsked(w, nets, acts, n, i, f, r);
    forall p | p in r.arr && p.body.Reply? && p.body.grp == g ensures Cell(p.body.resp, c) == ans(p.src) {
      var h := CountedAsGiven(w, nets, acts, n, t, p);
    }
    StoredSum(w, nets, acts, n, t, g, c, ans);
  }

  /** The same of the request as the router stores it. */
  lemma StoredSum(w: World, nets: seq<Net>, acts: seq<Action>, i: nat, t: Ticket, g: nat, c: nat, ans: Addr -> real)
    requires IsRun(w, nets, acts) && i < |nets| && At(nets[i].answers, t) != []
    requires At(nets[i].answers, t)[0].op == Get && g < |At(nets[i].answers, t)[0].groups| && c < |At(nets[i].answers, t)[0].ops|
    requires Steady(At(nets[i].answers, t)[0].arr, g, c, ans)
    ensures var r := At(nets[i].answers, t)[0];
            g < |r.info.resp.value| && c < |r.info.resp.value[g]| && r.info.resp.value[g][c] == SumOver(ans, r.groups[g])
  {
    RunKeeps(w, nets, acts, i);
    assert AnsweredTicket(w, nets[i], t);
    AnswerHeardAll(w, nets, acts, i, t, g);
    var r := At(nets[i].answers, t)[0];
    ColumnOfSources(r.arr, g, c, ans);
    SumOrder(ans, Sources(r.arr, g), r.groups[g]);
  }

  // ---------------------------------------------------------------- quiescence

  /** Nothing is under way: channels, servers and the clients' messages are empty. */
  ghost predicate Quiet(w: World, net: Net) {
    && (forall c :: On(net.q, c) == [])
    && (forall d :: At(net.held, d) == [])
    && (forall c :: c in w.home ==> At(net.inbox, c) == [])
  }

  /** The countdown of a request with these groups can end. */
  predicate Answerable(groups: seq<seq<Addr>>) { groups != [] && forall g :: 0 <= g < |groups| ==> groups[g] != [] }

  lemma {:induction false} FlatNothing(q: Queues<Body>, way: seq<Chan>, f: Flow)
    requires forall c :: On(q, c) == []
    ensures Flat(q, way, f) == []
  {
    if way != [] {
      FlatNothing(q, way[1..], f);
      assert On(q, way[0]) == [];
    }
  }

  /** With nothing under way, every group of an open request has heard all its sources. */
  lemma QuietRequest(w: World, net: Net, k: ReqKey)
    requires Inv(w, net) && Quiet(w, net) && k in net.open
    ensures !Answerable(net.open[k].groups)
  {
    var r := net.open[k];
    var fl := View(w.plant, net.q);
    assert RequestOk(w, fl, net.held, k, r);
    if Answerable(r.groups) {
      forall g | 0 <= g < |r.groups| ensures Full(Sizes(r.groups), Evs(r.arr), g) {
        forall d ensures multiset(Sources(r.arr, g))[d] == multiset(r.groups[g])[d] { QuietSource(w, net, k, g, d); }
        assert multiset(Sources(r.arr, g)) == multiset(r.groups[g]);
        assert |multiset(Sources(r.arr, g))| == |Sources(r.arr, g)|;
        assert |multiset(r.groups[g])| == |r.groups[g]|;
        SourcesLength(r.arr, g);
      }
      assert AllFull(r.groups, r.arr);
    }
  }

  /** With nothing under way only what has arrived counts. */
  lemma QuietTally(w: World, net: Net, arr: seq<Packet<Body>>, k: ReqKey, g: nat, d: Addr)
    requires ValidWorld(w) && Quiet(w, net)
    ensures Tally(View(w.plant, net.q), At(net.held, d), arr, k, g, d) == Count(Pick(arr, Flow(d, RouterAt(k.rtr))), ReplyTag(k.id, g))
  {
    var f1, f2 := Flow(RouterAt(k.rtr), d), Flow(d, RouterAt(k.rtr));
    if FlowIn(w.plant, f1) { FlatNothing(net.q, Way(w.plant, f1), f1); }
    if FlowIn(w.plant, f2) { FlatNothing(net.q, Way(w.plant, f2), f2); }
  }

  lemma OneTally(w: World, net: Net, k: ReqKey, g: nat, d: Addr)
    requires Inv(w, net) && k in net.open && g < |net.open[k].groups| && d.ServerAt?
    ensures Tally(View(w.plant, net.q), At(net.held, d), net.open[k].arr, k, g, d) == multiset(net.open[k].groups[g])[d]
  {
    assert RequestOk(w, View(w.plant, net.q), net.held, k, net.open[k]);
  }

  lemma QuietSource(w: World, net: Net, k: ReqKey, g: nat, d: Addr)
    requires Inv(w, net) && Quiet(w, net) && k in net.open && g < |net.open[k].groups|
    ensures multiset(Sources(net.open[k].arr, g))[d] == multiset(net.open[k].groups[g])[d]
  {
    var r := net.open[k];
    var fl := View(w.plant, net.q);
    assert RequestOk(w, fl, net.held, k, r);
    TimesBag(Sources(r.arr, g), d);
    SourcesCounted(k, r.op, r.ops, |r.groups|, r.arr, g, d);
    hide Inv, Quiet, View, RequestOk;
    if d.ServerAt? {
      QuietTally(w, net, r.arr, k, g, d);
      OneTally(w, net, k, g, d);
    } else {
      assert d !in r.groups[g];
      if d in Sources(r.arr, g) { SourcesServers(k, r.op, r.ops, |r.groups|, r.arr, g, d); }
    }
  }

  /** Answered exactly once, or open for good because its countdown cannot end. */
  ghost predicate Settled(net: Net, t: Ticket) {
    if At(net.answers, t) == [] then StillOpen(net, t) && !Answerable(net.open[net.slot[t]].groups)
    else |At(net.answers, t)| == 1 && At(net.answers, t)[0].ticket == t && Answerable(At(net.answers, t)[0].groups)
  }

  lemma QuietTicket(w: World, net: Net, t: Ticket)
    requires Inv(w, net) && Quiet(w, net) && t.client in w.home && t.eid < Num(net.issued, t.client)
    ensures Settled(net, t)
  {
    assert ClientOk(w, net, t.client);
    assert At(net.inbox, t.client) == [];
    if At(net.answers, t) == [] {
      assert StillOpen(net, t);
      QuietRequest(w, net, net.slot[t]);
    } else {
      assert AnsweredTicket(w, net, t);
      var r := At(net.answers, t)[0];
      forall g | 0 <= g < |r.groups| ensures r.groups[g] != [] { assert Full(Sizes(r.groups), Evs(r.arr), g); }
    }
  }

  /** The request that action i makes, with f the first use of its communicator: answered
      exactly once, as it was asked, or open for good because its countdown cannot end. */
  ghost predicate Served(net: Net, acts: seq<Action>, i: nat, f: nat)
    requires FirstUse(acts, f, i)
  {
    var t := TicketOf(acts, i);
    if Answerable(acts[f].members)
    then |At(net.answers, t)| == 1 && AsAsked(At(net.answers, t)[0], acts, i, f)
    else At(net.answers, t) == [] && StillOpen(net, t) && AsAsked(net.open[net.slot[t]], acts, i, f)
  }

  ghost predicate AsAsked(r: Request, acts: seq<Action>, i: nat, f: nat)
    requires FirstUse(acts, f, i)
  {
    r.ticket == TicketOf(acts, i) && r.op == acts[i].op && r.ops == acts[i].ops && r.groups == acts[f].members
  }

  /** When the system has come to rest, every request a client made has been answered
      exactly once, except those with no group or an empty one, which never are. */
  lemma RestAnswersAll(w: World, nets: seq<Net>, acts: seq<Action>, n: nat, i: nat, f: nat)
    requires IsRun(w, nets, acts) && i < n <= |acts| && FirstUse(acts, f, i) && Quiet(w, nets[n])
    ensures Served(nets[n], acts, i, f)
  {
    var t, net := TicketOf(acts, i), nets[n];
    RunKeeps(w, nets, acts, n);
    NumberedAsAsked(w, nets, acts, n, i);
    QuietTicket(w, net, t);
    hide Inv, IsRun, Quiet;
    if At(net.answers, t) == [] {
      KeptAsAsked(w, nets, acts, n, i, f, net.open[net.slot[t]]);
    } else {
      KeptAsAsked(w, nets, acts, n, i, f, At(net.answers, t)[0]);
    }
  }
}
