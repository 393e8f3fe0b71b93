/** What every step of the protocol keeps. */
module ProtocolInv {
  import opened Routing
  import opened Fabric
  import opened Aggregation
  import opened Protocol

  // --------------------------------------------------------------- counting

  /** What to count: the requests, or the replies, of one request id and group. */
  datatype Tag = ReqTag(id: nat, grp: nat) | ReplyTag(id: nat, grp: nat)

  function Hits(b: Body, t: Tag): nat {
    match b
    case Create(_) => 0
    case Req(_, id, grp, _, _) => if t == ReqTag(id, grp) then 1 else 0
    case Reply(id, grp, _) => if t == ReplyTag(id, grp) then 1 else 0
  }

  ghost function Count(s: seq<Body>, t: Tag): nat { if s == [] then 0 else Hits(s[0], t) + Count(s[1..], t) }

  lemma {:induction false} CountConcat(a: seq<Body>, b: seq<Body>, t: Tag)
    ensures Count(a + b, t) == Count(a, t) + Count(b, t)
  {
    if a == [] {
      assert a + b == b;
    } else {
      assert (a + b)[0] == a[0] && (a + b)[1..] == a[1..] + b;
      CountConcat(a[1..], b, t);
    }
  }

  lemma CountOne(b: Body, t: Tag)
    ensures Count([b], t) == Hits(b, t)
  {
    assert [b][1..] == [];
  }

  lemma {:induction false} CountNone(s: seq<Body>, t: Tag)
    requires forall b :: b in s ==> Hits(b, t) == 0
    ensures Count(s, t) == 0
  {
    if s != [] { CountNone(s[1..], t); }
  }

  lemma {:induction false} CountSome(s: seq<Body>, b: Body, t: Tag)
    requires b in s && Hits(b, t) == 1
    ensures Count(s, t) > 0
  {
    if s[0] != b { CountSome(s[1..], b, t); }
  }

  lemma {:induction false} PickMember(s: seq<Packet<Body>>, f: Flow, b: Body)
    ensures b in Pick(s, f) <==> Packet(f.src, f.dest, b) in s
  {
    if s != [] {
      PickMember(s[1..], f, b);
      assert s == [s[0]] + s[1..];
    }
  }

  lemma {:induction false} PickNothing(s: seq<Packet<Body>>, f: Flow)
    requires forall p :: p in s ==> FlowOf(p) != f
    ensures Pick(s, f) == []
  {
    if s != [] {
      assert s[0] in s;
      PickNothing(s[1..], f);
    }
  }

  lemma PickAppend(s: seq<Packet<Body>>, p: Packet<Body>, f: Flow, t: Tag)
    ensures Pick(s + [p], f) == if FlowOf(p) == f then Pick(s, f) + [p.body] else Pick(s, f)
    ensures Count(Pick(s + [p], f), t) == Count(Pick(s, f), t) + if FlowOf(p) == f then Hits(p.body, t) else 0
  {
    PickConcat(s, [p], f);
    PickOne(p, f);
    CountConcat(Pick(s, f), [p.body], t);
    CountOne(p.body, t);
  }

  lemma PickRemove(s: seq<Packet<Body>>, k: nat, f: Flow, t: Tag)
    requires k < |s|
    ensures Count(Pick(s, f), t) == Count(Pick(s[..k] + s[k + 1..], f), t) + if FlowOf(s[k]) == f then Hits(s[k].body, t) else 0
  {
    var a, p, b := s[..k], s[k], s[k + 1..];
    assert s == a + ([p] + b);
    PickConcat(a, [p] + b, f);
    PickConcat([p], b, f);
    PickConcat(a, b, f);
    PickOne(p, f);
    CountConcat(Pick(a, f), Pick([p] + b, f), t);
    CountConcat(Pick([p], f), Pick(b, f), t);
    CountConcat(Pick(a, f), Pick(b, f), t);
    CountOne(p.body, t);
  }

  /** What is in flight, seen as one FIFO per flow. */
  type Flight = Flow -> seq<Body>

  ghost function View(pl: Plant, q: Queues<Body>): Flight
    requires ValidPlant(pl)
  {
    f => if FlowIn(pl, f) then InFlight(pl, q, f) else []
  }

  /** b was added at the end of flow f, and nothing else changed. */
  ghost predicate Grown(fl: Flight, fl': Flight, f: Flow, b: Body) {
    fl'(f) == fl(f) + [b] && forall g :: g != f ==> fl'(g) == fl(g)
  }

  /** b left flow f, whose oldest event it was, and nothing else changed. */
  ghost predicate Shrunk(fl: Flight, fl': Flight, f: Flow, b: Body) {
    fl(f) == [b] + fl'(f) && forall g :: g != f ==> fl'(g) == fl(g)
  }

  /** Every flow got its own events of ps, in their order. */
  ghost predicate Fanned(fl: Flight, fl': Flight, ps: seq<Packet<Body>>) {
    forall f :: fl'(f) == fl(f) + Pick(ps, f)
  }

  /** Requests in flight to d, open at d, replies of d in flight, and replies of d taken. */
  ghost function Tally(fl: Flight, atServer: seq<Packet<Body>>, arr: seq<Packet<Body>>, k: ReqKey, g: nat, d: Addr): nat {
    Count(fl(Flow(RouterAt(k.rtr), d)), ReqTag(k.id, g))
    + Count(Pick(atServer, Flow(RouterAt(k.rtr), d)), ReqTag(k.id, g))
    + Count(fl(Flow(d, RouterAt(k.rtr))), ReplyTag(k.id, g))
    + Count(Pick(arr, Flow(d, RouterAt(k.rtr))), ReplyTag(k.id, g))
  }

  // ------------------------------------------------------------ the invariant

  function Columns(op: OpType, ops: seq<ValueOp>): nat { if op == Get then |ops| else 0 }

  ghost predicate BodyOk(open: map<ReqKey, Request>, f: Flow, b: Body) {
    match b
    case Create(_) => f.src.RouterAt? && f.dest.ServerAt?
    case Req(_, id, grp, op, n) =>
      f.src.RouterAt? && f.dest.ServerAt? && ReqKey(f.src.rtr, id) in open
      && var r := open[ReqKey(f.src.rtr, id)]; grp < |r.groups| && op == r.op && n == Columns(r.op, r.ops)
    case Reply(id, grp, resp) =>
      f.src.ServerAt? && f.dest.RouterAt? && ReqKey(f.dest.rtr, id) in open
      && var r := open[ReqKey(f.dest.rtr, id)]; grp < |r.groups| && ReplyFits(r.op, Columns(r.op, r.ops), resp)
  }

  ghost predicate FlightOk(fl: Flight, open: map<ReqKey, Request>) {
    forall f, b :: b in fl(f) ==> BodyOk(open, f, b)
  }

  ghost predicate HeldOk(pl: Plant, held: map<Addr, seq<Packet<Body>>>, open: map<ReqKey, Request>) {
    forall d, p :: p in At(held, d) ==> HeldPacketOk(pl, open, d, p)
  }

  ghost predicate HeldPacketOk(pl: Plant, open: map<ReqKey, Request>, d: Addr, p: Packet<Body>) {
    p.dest == d && d.ServerAt? && FlowIn(pl, FlowOf(p)) && p.body.Req? && BodyOk(open, FlowOf(p), p.body)
  }

  /** Of each source, what is under way and what has been counted make up what the group asks. */
  ghost predicate Conserved(fl: Flight, held: map<Addr, seq<Packet<Body>>>, k: ReqKey, r: Request) {
    forall g: nat, d: Addr {:trigger Tally(fl, At(held, d), r.arr, k, g, d)} :: g < |r.groups| && d.ServerAt? ==>
      Tally(fl, At(held, d), r.arr, k, g, d) == multiset(r.groups[g])[d]
  }

  /** One reply of request k: where it came from and what it holds. */
  ghost predicate ReplyOk(k: ReqKey, op: OpType, ops: seq<ValueOp>, groups: nat, p: Packet<Body>) {
    && p.dest == RouterAt(k.rtr) && p.src.ServerAt?
    && p.body.Reply? && p.body.id == k.id && p.body.grp < groups
    && ReplyFits(op, Columns(op, ops), p.body.resp)
  }

  function ToArrival(p: Packet<Body>): Arrival {
    if p.body.Reply? then Arrival(p.body.grp, p.body.resp) else Arrival(0, Resp([], [], [], [], []))
  }

  function Evs(arr: seq<Packet<Body>>): (evs: seq<Arrival>)
    ensures |evs| == |arr| && forall i :: 0 <= i < |arr| ==> evs[i] == ToArrival(arr[i])
  {
    seq(|arr|, i requires 0 <= i < |arr| => ToArrival(arr[i]))
  }

  ghost predicate AllFull(groups: seq<seq<Addr>>, arr: seq<Packet<Body>>) {
    groups != [] && forall g :: 0 <= g < |groups| ==> Full(Sizes(groups), Evs(arr), g)
  }

  /** The counters of a request are what its replies make them. */
  ghost predicate InfoOk(k: ReqKey, r: Request) {
    && AskOk(r.op, r.ops)
    && (forall p :: p in r.arr ==> ReplyOk(k, r.op, r.ops, |r.groups|, p))
    && Fitting(Start(r.op, r.ops, Sizes(r.groups)), Evs(r.arr))
    && r.info == After(Start(r.op, r.ops, Sizes(r.groups)), Evs(r.arr))
  }

  ghost predicate RequestOk(w: World, fl: Flight, held: map<Addr, seq<Packet<Body>>>, k: ReqKey, r: Request) {
    && k.rtr in w.plant.mesh.Keys && Routable(w, r.groups)
    && InfoOk(k, r)
    && !AllFull(r.groups, r.arr)
    && Conserved(fl, held, k, r)
  }

  ghost predicate OpenOk(w: World, fl: Flight, held: map<Addr, seq<Packet<Body>>>, open: map<ReqKey, Request>) {
    forall k :: k in open ==> RequestOk(w, fl, held, k, open[k])
  }

  ghost predicate Traffic(w: World, fl: Flight, held: map<Addr, seq<Packet<Body>>>, open: map<ReqKey, Request>) {
    FlightOk(fl, open) && HeldOk(w.plant, held, open) && OpenOk(w, fl, held, open)
  }

  // ------------------------------------------- the sources of the replies taken

  /** The sources of the replies taken for group g. */
  ghost function Sources(arr: seq<Packet<Body>>, g: nat): seq<Addr> {
    if arr == [] then [] else
      var p := arr[|arr| - 1];
      Sources(arr[..|arr| - 1], g) + if ToArrival(p).grp == g then [p.src] else []
  }

  lemma {:induction false} SourcesLength(arr: seq<Packet<Body>>, g: nat)
    ensures |Sources(arr, g)| == |Of(Evs(arr), g)|
  {
    if arr != [] {
      SourcesLength(arr[..|arr| - 1], g);
      assert Evs(arr)[..|arr| - 1] == Evs(arr[..|arr| - 1]);
      OfStep(Evs(arr), g);
    }
  }

  lemma SourcesStep(arr: seq<Packet<Body>>, p: Packet<Body>, g: nat)
    ensures Sources(arr + [p], g) == if ToArrival(p).grp == g then Sources(arr, g) + [p.src] else Sources(arr, g)
  {
    assert (arr + [p])[..|arr|] == arr;
  }

  /** How often d occurs. */
  ghost function Times(s: seq<Addr>, d: Addr): nat {
    if s == [] then 0 else Times(s[..|s| - 1], d) + if s[|s| - 1] == d then 1 else 0
  }

  lemma {:induction false} TimesBag(s: seq<Addr>, d: Addr)
    ensures multiset(s)[d] == Times(s, d)
  {
    if s != [] {
      TimesBag(s[..|s| - 1], d);
      BagAppend(s[..|s| - 1], s[|s| - 1], d);
      assert s == s[..|s| - 1] + [s[|s| - 1]];
    }
  }

  lemma TimesAppend(s: seq<Addr>, x: Addr, d: Addr)
    ensures Times(s + [x], d) == Times(s, d) + if x == d then 1 else 0
  {
    assert (s + [x])[..|s|] == s;
  }

  lemma NothingCounted(k: ReqKey, g: nat, d: Addr)
    ensures Times(Sources([], g), d) == 0 == Count(Pick([], Flow(d, RouterAt(k.rtr))), ReplyTag(k.id, g))
  {}

  lemma {:induction false} SourcesCounted(k: ReqKey, op: OpType, ops: seq<ValueOp>, n: nat, arr: seq<Packet<Body>>, g: nat, d: Addr)
    requires forall p :: p in arr ==> ReplyOk(k, op, ops, n, p)
    ensures Times(Sources(arr, g), d) == Count(Pick(arr, Flow(d, RouterAt(k.rtr))), ReplyTag(k.id, g))
  {
    hide Sources, Times, Count, Pick;
    if arr == [] {
      NothingCounted(k, g, d);
    } else {
      var before, p := arr[..|arr| - 1], arr[|arr| - 1];
      assert ReplyOk(k, op, ops, n, p);
      SourcesCounted(k, op, ops, n, before, g, d);
      assert arr == before + [p];
      SourcesStep(before, p, g);
      PickAppend(before, p, Flow(d, RouterAt(k.rtr)), ReplyTag(k.id, g));
      TimesAppend(Sources(before, g), p.src, d);
    }
  }

  lemma {:induction false} SourcesServers(k: ReqKey, op: OpType, ops: seq<ValueOp>, n: nat, arr: seq<Packet<Body>>, g: nat, d: Addr)
    requires forall p :: p in arr ==> ReplyOk(k, op, ops, n, p)
    requires d in Sources(arr, g)
    ensures d.ServerAt?
  {
    var p := arr[|arr| - 1];
    assert ReplyOk(k, op, ops, n, p);
    if d in Sources(arr[..|arr| - 1], g) { SourcesServers(k, op, ops, n, arr[..|arr| - 1], g, d); }
  }

  lemma BagAppend<T>(s: seq<T>, x: T, d: T)
    ensures multiset(s + [x])[d] == multiset(s)[d] + if x == d then 1 else 0
  {}

  lemma SubBag<T>(a: multiset<T>, b: multiset<T>)
    requires a <= b
    ensures |a| <= |b| && (|a| == |b| ==> a == b)
  {
    assert b == a + (b - a);
  }

  /** No source answers more often than the group names it; a full group has heard each
      source exactly as often. */
  lemma FromConserved(fl: Flight, held: map<Addr, seq<Packet<Body>>>, k: ReqKey, r: Request, g: nat)
    requires g < |r.groups|
    requires forall p :: p in r.arr ==> ReplyOk(k, r.op, r.ops, |r.groups|, p)
    requires Conserved(fl, held, k, r)
    ensures multiset(Sources(r.arr, g)) <= multiset(r.groups[g])
    ensures |Of(Evs(r.arr), g)| <= |r.groups[g]|
    ensures |Of(Evs(r.arr), g)| == |r.groups[g]| ==> multiset(Sources(r.arr, g)) == multiset(r.groups[g])
  {
    forall d ensures multiset(Sources(r.arr, g))[d] <= multiset(r.groups[g])[d] {
      SourcesCounted(k, r.op, r.ops, |r.groups|, r.arr, g, d);
      TimesBag(Sources(r.arr, g), d);
      if d in Sources(r.arr, g) {
        SourcesServers(k, r.op, r.ops, |r.groups|, r.arr, g, d);
        assert Tally(fl, At(held, d), r.arr, k, g, d) == multiset(r.groups[g])[d];
      }
    }
    SourcesLength(r.arr, g);
    SubBag(multiset(Sources(r.arr, g)), multiset(r.groups[g]));
    assert |multiset(Sources(r.arr, g))| == |Sources(r.arr, g)|;
    assert |multiset(r.groups[g])| == |r.groups[g]|;
  }

  lemma BoundedReplies(fl: Flight, held: map<Addr, seq<Packet<Body>>>, k: ReqKey, r: Request)
    requires forall p :: p in r.arr ==> ReplyOk(k, r.op, r.ops, |r.groups|, p)
    requires Conserved(fl, held, k, r)
    ensures Bounded(Sizes(r.groups), Evs(r.arr))
  {
    forall g | 0 <= g < |r.groups| ensures |Of(Evs(r.arr), g)| <= Sizes(r.groups)[g] {
      FromConserved(fl, held, k, r, g);
    }
  }

  // ------------------------------------------------------------ steps of traffic

  lemma GrownCount(fl: Flight, fl': Flight, f: Flow, b: Body, g: Flow, t: Tag)
    requires Grown(fl, fl', f, b)
    ensures Count(fl'(g), t) == Count(fl(g), t) + if f == g then Hits(b, t) else 0
  {
    CountConcat(fl(g), [b], t);
    CountOne(b, t);
  }

  lemma ShrunkCount(fl: Flight, fl': Flight, f: Flow, b: Body, g: Flow, t: Tag)
    requires Shrunk(fl, fl', f, b)
    ensures Count(fl(g), t) == Count(fl'(g), t) + if f == g then Hits(b, t) else 0
  {
    CountConcat([b], fl'(g), t);
    CountOne(b, t);
  }

  lemma ShrunkOk(fl: Flight, fl': Flight, f: Flow, b: Body, open: map<ReqKey, Request>)
    requires Shrunk(fl, fl', f, b) && FlightOk(fl, open)
    ensures FlightOk(fl', open) && BodyOk(open, f, b)
  {
    assert b in fl(f);
    forall g, c | c in fl'(g) ensures BodyOk(open, g, c) { assert c in fl(g); }
  }

  lemma GrownOk(fl: Flight, fl': Flight, f: Flow, b: Body, open: map<ReqKey, Request>)
    requires Grown(fl, fl', f, b) && FlightOk(fl, open) && BodyOk(open, f, b)
    ensures FlightOk(fl', open)
  {
    forall g, c | c in fl'(g) ensures BodyOk(open, g, c) { assert c in fl(g) || (g == f && c == b); }
  }

  /** A step that no flow notices keeps everything. */
  lemma SameTraffic(w: World, fl: Flight, fl': Flight, held: map<Addr, seq<Packet<Body>>>, open: map<ReqKey, Request>)
    requires Traffic(w, fl, held, open) && forall f :: fl'(f) == fl(f)
    ensures Traffic(w, fl', held, open)
  {
    forall k | k in open ensures RequestOk(w, fl', held, k, open[k]) {
      var r := open[k];
      assert RequestOk(w, fl, held, k, r);
      forall g: nat, d: Addr | g < |r.groups| && d.ServerAt?
        ensures Tally(fl', At(held, d), r.arr, k, g, d) == multiset(r.groups[g])[d]
      {
        assert Tally(fl, At(held, d), r.arr, k, g, d) == multiset(r.groups[g])[d];
      }
    }
  }

  /** A server takes the event at the head of its channel. */
  lemma ServeTraffic(w: World, fl: Flight, fl': Flight, held: map<Addr, seq<Packet<Body>>>, open: map<ReqKey, Request>, p: Packet<Body>)
    requires Traffic(w, fl, held, open) && Shrunk(fl, fl', FlowOf(p), p.body)
    requires p.dest.ServerAt? && FlowIn(w.plant, FlowOf(p))
    ensures !p.body.Reply?
    ensures Traffic(w, fl', if p.body.Create? then held else held[p.dest := At(held, p.dest) + [p]], open)
  {
    ShrunkOk(fl, fl', FlowOf(p), p.body, open);
    var held' := if p.body.Create? then held else held[p.dest := At(held, p.dest) + [p]];
    HeldAppend(w.plant, held, open, p);
    forall k | k in open ensures RequestOk(w, fl', held', k, open[k]) {
      assert RequestOk(w, fl, held, k, open[k]);
      ServeConserved(fl, fl', held, held', p, k, open[k]);
    }
  }

  lemma HeldAppend(pl: Plant, held: map<Addr, seq<Packet<Body>>>, open: map<ReqKey, Request>, p: Packet<Body>)
    requires HeldOk(pl, held, open) && p.dest.ServerAt? && FlowIn(pl, FlowOf(p)) && BodyOk(open, FlowOf(p), p.body)
    ensures p.body.Req? ==> HeldOk(pl, held[p.dest := At(held, p.dest) + [p]], open)
  {
    var held' := held[p.dest := At(held, p.dest) + [p]];
    forall d: Addr, x: Packet<Body> | p.body.Req? && x in At(held', d) ensures HeldPacketOk(pl, open, d, x) {
      if x !in At(held, d) { assert d == p.dest && x == p; }
    }
  }

  lemma HeldRemove(pl: Plant, held: map<Addr, seq<Packet<Body>>>, open: map<ReqKey, Request>, s: Addr, i: nat)
    requires HeldOk(pl, held, open) && i < |At(held, s)|
    ensures HeldOk(pl, held[s := At(held, s)[..i] + At(held, s)[i + 1..]], open)
  {
    hide HeldPacketOk;
    var held' := held[s := At(held, s)[..i] + At(held, s)[i + 1..]];
    forall d: Addr, x: Packet<Body> | x in At(held', d) ensures HeldPacketOk(pl, open, d, x) {
      StillHeld(held, s, i, d, x);
    }
  }

  lemma StillHeld(held: map<Addr, seq<Packet<Body>>>, s: Addr, i: nat, d: Addr, x: Packet<Body>)
    requires i < |At(held, s)| && x in At(held[s := At(held, s)[..i] + At(held, s)[i + 1..]], d)
    ensures x in At(held, d)
  {
    if d == s { assert At(held[s := At(held, s)[..i] + At(held, s)[i + 1..]], d) == At(held, s)[..i] + At(held, s)[i + 1..]; }
  }

  lemma ServeConserved(fl: Flight, fl': Flight, held: map<Addr, seq<Packet<Body>>>, held': map<Addr, seq<Packet<Body>>>,
                       p: Packet<Body>, k: ReqKey, r: Request)
    requires Conserved(fl, held, k, r) && Shrunk(fl, fl', FlowOf(p), p.body)
    requires p.dest.ServerAt? && !p.body.Reply?
    requires held' == if p.body.Create? then held else held[p.dest := At(held, p.dest) + [p]]
    ensures Conserved(fl', held', k, r)
  {
    forall g: nat, d: Addr | g < |r.groups| && d.ServerAt?
      ensures Tally(fl', At(held', d), r.arr, k, g, d) == multiset(r.groups[g])[d]
    {
      assert Tally(fl, At(held, d), r.arr, k, g, d) == multiset(r.groups[g])[d];
      ShrunkCount(fl, fl', FlowOf(p), p.body, Flow(RouterAt(k.rtr), d), ReqTag(k.id, g));
      ShrunkCount(fl, fl', FlowOf(p), p.body, Flow(d, RouterAt(k.rtr)), ReplyTag(k.id, g));
      PickAppend(At(held, d), p, Flow(RouterAt(k.rtr), d), ReqTag(k.id, g));
    }
  }

  /** A server answers one of its open requests. */
  lemma AnswerTraffic(w: World, fl: Flight, fl': Flight, held: map<Addr, seq<Packet<Body>>>, open: map<ReqKey, Request>, s: Addr, i: nat, resp: Resp)
    requires Traffic(w, fl, held, open)
    requires i < |At(held, s)| && At(held, s)[i].body.Req? && ReplyFits(At(held, s)[i].body.op, At(held, s)[i].body.n, resp)
    requires Grown(fl, fl', FlowOf(Answered(At(held, s)[i], resp)), Answered(At(held, s)[i], resp).body)
    ensures Traffic(w, fl', held[s := At(held, s)[..i] + At(held, s)[i + 1..]], open)
  {
    var p := At(held, s)[i];
    var held' := held[s := At(held, s)[..i] + At(held, s)[i + 1..]];
    assert p in At(held, s);
    assert BodyOk(open, FlowOf(p), p.body);
    GrownOk(fl, fl', FlowOf(Answered(p, resp)), Answered(p, resp).body, open);
    HeldRemove(w.plant, held, open, s, i);
    forall k | k in open ensures RequestOk(w, fl', held', k, open[k]) {
      assert RequestOk(w, fl, held, k, open[k]);
      AnswerConserved(fl, fl', held, held', s, i, resp, k, open[k]);
    }
  }

  lemma AnswerConserved(fl: Flight, fl': Flight, held: map<Addr, seq<Packet<Body>>>, held': map<Addr, seq<Packet<Body>>>,
                        s: Addr, i: nat, resp: Resp, k: ReqKey, r: Request)
    requires Conserved(fl, held, k, r)
    requires i < |At(held, s)| && At(held, s)[i].body.Req? && At(held, s)[i].dest == s && s.ServerAt? && At(held, s)[i].src.RouterAt?
    requires Grown(fl, fl', FlowOf(Answered(At(held, s)[i], resp)), Answered(At(held, s)[i], resp).body)
    requires held' == held[s := At(held, s)[..i] + At(held, s)[i + 1..]]
    ensures Conserved(fl', held', k, r)
  {
    var p := At(held, s)[i];
    var back := Answered(p, resp);
    forall g: nat, d: Addr | g < |r.groups| && d.ServerAt?
      ensures Tally(fl', At(held', d), r.arr, k, g, d) == multiset(r.groups[g])[d]
    {
      assert Tally(fl, At(held, d), r.arr, k, g, d) == multiset(r.groups[g])[d];
      GrownCount(fl, fl', FlowOf(back), back.body, Flow(RouterAt(k.rtr), d), ReqTag(k.id, g));
      GrownCount(fl, fl', FlowOf(back), back.body, Flow(d, RouterAt(k.rtr)), ReplyTag(k.id, g));
      PickRemove(At(held, s), i, Flow(RouterAt(k.rtr), d), ReqTag(k.id, g));
    }
  }

  // -------------------------------------------------------- a router takes a reply

  /** The tally of every request after one reply moved from the channels to its request. */
  lemma CollectConserved(fl: Flight, fl': Flight, held: map<Addr, seq<Packet<Body>>>, p: Packet<Body>, k: ReqKey, r: Request, r': Request)
    requires Conserved(fl, held, k, r) && Shrunk(fl, fl', FlowOf(p), p.body)
    requires p.body.Reply? && p.dest.RouterAt? && p.src.ServerAt?
    requires r'.groups == r.groups && r'.arr == if k == ReqKey(p.dest.rtr, p.body.id) then r.arr + [p] else r.arr
    ensures Conserved(fl', held, k, r')
  {
    forall g: nat, d: Addr | g < |r.groups| && d.ServerAt?
      ensures Tally(fl', At(held, d), r'.arr, k, g, d) == multiset(r.groups[g])[d]
    {
      assert Tally(fl, At(held, d), r.arr, k, g, d) == multiset(r.groups[g])[d];
      ShrunkCount(fl, fl', FlowOf(p), p.body, Flow(RouterAt(k.rtr), d), ReqTag(k.id, g));
      ShrunkCount(fl, fl', FlowOf(p), p.body, Flow(d, RouterAt(k.rtr)), ReplyTag(k.id, g));
      PickAppend(r.arr, p, Flow(d, RouterAt(k.rtr)), ReplyTag(k.id, g));
    }
  }

  lemma EvsAppend(arr: seq<Packet<Body>>, p: Packet<Body>)
    ensures Evs(arr + [p]) == Evs(arr) + [ToArrival(p)]
  {}

  lemma FitsAll(k: ReqKey, r: Request)
    requires AskOk(r.op, r.ops)
    requires forall p :: p in r.arr ==> ReplyOk(k, r.op, r.ops, |r.groups|, p)
    ensures Fitting(Start(r.op, r.ops, Sizes(r.groups)), Evs(r.arr))
  {
    forall i | 0 <= i < |r.arr|
      ensures Evs(r.arr)[i].grp < |r.groups| && ReplyFits(r.op, Columns(r.op, r.ops), Evs(r.arr)[i].resp)
    {
      assert ReplyOk(k, r.op, r.ops, |r.groups|, r.arr[i]);
    }
  }

  /** The counters after one more reply, and when they close the request. */
  lemma CollectInfo(fl: Flight, held: map<Addr, seq<Packet<Body>>>, k: ReqKey, r: Request, r1: Request, p: Packet<Body>)
    requires InfoOk(k, r) && !AllFull(r.groups, r.arr)
    requires ReplyOk(k, r.op, r.ops, |r.groups|, p)
    requires r1 == r.(arr := r.arr + [p]) && Conserved(fl, held, k, r1)
    ensures Shaped(r.info) && p.body.grp < |r.info.grpInfo| && ReplyFits(r.info.op, |r.info.valueOp|, p.body.resp)
    ensures InfoOk(k, r1.(info := Absorb(r.info, Arrival(p.body.grp, p.body.resp))))
    ensures Completes(r.info, Arrival(p.body.grp, p.body.resp)) <==> AllFull(r.groups, r1.arr)
  {
    FitsAll(k, r1);
    EvsAppend(r.arr, p);
    BoundedReplies(fl, held, k, r1);
    CompletesIff(r.op, r.ops, Sizes(r.groups), Evs(r.arr), Arrival(p.body.grp, p.body.resp));
  }

  /** Once every group is full nothing of the request is under way any more. */
  lemma NothingLeft(fl: Flight, held: map<Addr, seq<Packet<Body>>>, k: ReqKey, r: Request, g: nat, d: Addr)
    requires d.ServerAt? && InfoOk(k, r) && AllFull(r.groups, r.arr) && Conserved(fl, held, k, r) && g < |r.groups|
    ensures Count(fl(Flow(RouterAt(k.rtr), d)), ReqTag(k.id, g)) == 0
    ensures Count(Pick(At(held, d), Flow(RouterAt(k.rtr), d)), ReqTag(k.id, g)) == 0
    ensures Count(fl(Flow(d, RouterAt(k.rtr))), ReplyTag(k.id, g)) == 0
  {
    FromConserved(fl, held, k, r, g);
    SourcesCounted(k, r.op, r.ops, |r.groups|, r.arr, g, d);
    TimesBag(Sources(r.arr, g), d);
    assert Full(Sizes(r.groups), Evs(r.arr), g);
    assert Tally(fl, At(held, d), r.arr, k, g, d) == multiset(r.groups[g])[d];
  }

  /** A body that is fine and not of request k stays fine when k is closed. */
  lemma ClosedFlight(w: World, fl: Flight, held: map<Addr, seq<Packet<Body>>>, open: map<ReqKey, Request>, k: ReqKey, r: Request)
    requires k in open && r.groups == open[k].groups
    requires InfoOk(k, r) && AllFull(r.groups, r.arr) && Conserved(fl, held, k, r)
    requires FlightOk(fl, open) && HeldOk(w.plant, held, open)
    ensures FlightOk(fl, open - {k}) && HeldOk(w.plant, held, open - {k})
  {
    forall f, b | b in fl(f) ensures BodyOk(open - {k}, f, b) {
      assert BodyOk(open, f, b);
      if b.Req? && ReqKey(f.src.rtr, b.id) == k {
        NothingLeft(fl, held, k, r, b.grp, f.dest);
        CountSome(fl(f), b, ReqTag(b.id, b.grp));
      }
      if b.Reply? && ReqKey(f.dest.rtr, b.id) == k {
        NothingLeft(fl, held, k, r, b.grp, f.src);
        CountSome(fl(f), b, ReplyTag(b.id, b.grp));
      }
    }
    forall d, p | p in At(held, d)
      ensures p.dest == d && d.ServerAt? && FlowIn(w.plant, FlowOf(p)) && p.body.Req? && BodyOk(open - {k}, FlowOf(p), p.body)
    {
      assert BodyOk(open, FlowOf(p), p.body);
      if ReqKey(p.src.rtr, p.body.id) == k {
        NothingLeft(fl, held, k, r, p.body.grp, d);
        PickHas(At(held, d), p);
        CountSome(Pick(At(held, d), FlowOf(p)), p.body, ReqTag(p.body.id, p.body.grp));
      }
    }
  }

  /** A reply in flight finds its request open and fits it. */
  lemma ReplyFound(w: World, fl: Flight, fl': Flight, held: map<Addr, seq<Packet<Body>>>, open: map<ReqKey, Request>, p: Packet<Body>)
    requires Traffic(w, fl, held, open) && Shrunk(fl, fl', FlowOf(p), p.body) && p.dest.RouterAt?
    ensures p.body.Reply? && p.src.ServerAt? && ReqKey(p.dest.rtr, p.body.id) in open
    ensures var k := ReqKey(p.dest.rtr, p.body.id);
            RequestOk(w, fl, held, k, open[k]) && ReplyOk(k, open[k].op, open[k].ops, |open[k].groups|, p)
  {
    ShrunkOk(fl, fl', FlowOf(p), p.body, open);
  }

  /** The originating router takes one reply: either the request stays open, or it is closed
      and nothing of it is left. */
  lemma CollectTraffic(w: World, fl: Flight, fl': Flight, held: map<Addr, seq<Packet<Body>>>, open: map<ReqKey, Request>, p: Packet<Body>, k: ReqKey)
    requires Traffic(w, fl, held, open) && Shrunk(fl, fl', FlowOf(p), p.body)
    requires p.dest.RouterAt? && p.body.Reply? && k == ReqKey(p.dest.rtr, p.body.id)
    ensures k in open && Fits(open[k], p)
    ensures Traffic(w, fl', held, Kept(open, k, p))
    ensures Ends(open[k], p) ==> Finished(k, Counted(open[k], p))
  {
    ReplyFound(w, fl, fl', held, open, p);
    ShrunkOk(fl, fl', FlowOf(p), p.body, open);
    CollectOne(w, fl, fl', held, open[k], p, k);
    CollectOthers(w, fl, fl', held, open, p, k);
    if Ends(open[k], p) {
      ClosedFlight(w, fl', held, open, k, Counted(open[k], p));
    } else {
      SameBodies(w.plant, fl', held, open, open[k := Counted(open[k], p)]);
    }
  }

  lemma CollectOne(w: World, fl: Flight, fl': Flight, held: map<Addr, seq<Packet<Body>>>, r: Request, p: Packet<Body>, k: ReqKey)
    requires RequestOk(w, fl, held, k, r) && Shrunk(fl, fl', FlowOf(p), p.body)
    requires p.dest.RouterAt? && p.body.Reply? && p.src.ServerAt? && k == ReqKey(p.dest.rtr, p.body.id)
    requires ReplyOk(k, r.op, r.ops, |r.groups|, p)
    ensures Fits(r, p) && InfoOk(k, Counted(r, p)) && Conserved(fl', held, k, Counted(r, p))
    ensures if Ends(r, p) then Finished(k, Counted(r, p))
            else RequestOk(w, fl', held, k, Counted(r, p))
  {
    var r1 := r.(arr := r.arr + [p]);
    CollectConserved(fl, fl', held, p, k, r, r1);
    CollectInfo(fl', held, k, r, r1, p);
    CollectConserved(fl, fl', held, p, k, r, Counted(r, p));
    if Ends(r, p) { AllHeard(fl', held, k, Counted(r, p)); }
  }

  lemma CollectOthers(w: World, fl: Flight, fl': Flight, held: map<Addr, seq<Packet<Body>>>, open: map<ReqKey, Request>, p: Packet<Body>, k: ReqKey)
    requires OpenOk(w, fl, held, open) && Shrunk(fl, fl', FlowOf(p), p.body)
    requires p.body.Reply? && p.dest.RouterAt? && p.src.ServerAt? && k == ReqKey(p.dest.rtr, p.body.id)
    ensures forall k' :: k' in open && k' != k ==> RequestOk(w, fl', held, k', open[k'])
  {
    forall k' | k' in open && k' != k ensures RequestOk(w, fl', held, k', open[k']) {
      assert RequestOk(w, fl, held, k', open[k']);
      CollectConserved(fl, fl', held, p, k', open[k'], open[k']);
    }
  }

  lemma AllHeard(fl: Flight, held: map<Addr, seq<Packet<Body>>>, k: ReqKey, r: Request)
    requires InfoOk(k, r) && AllFull(r.groups, r.arr) && Conserved(fl, held, k, r)
    ensures Finished(k, r)
  {
    forall g | 0 <= g < |r.groups| ensures multiset(Sources(r.arr, g)) == multiset(r.groups[g]) {
      FromConserved(fl, held, k, r, g);
      assert Full(Sizes(r.groups), Evs(r.arr), g);
    }
    BoundedReplies(fl, held, k, r);
  }

  /** Traffic looks only at what a request asked for. */
  lemma SameBodies(pl: Plant, fl: Flight, held: map<Addr, seq<Packet<Body>>>, open: map<ReqKey, Request>, open': map<ReqKey, Request>)
    requires FlightOk(fl, open) && HeldOk(pl, held, open)
    requires forall k :: k in open ==> k in open' && open'[k].groups == open[k].groups && open'[k].op == open[k].op && open'[k].ops == open[k].ops
    ensures FlightOk(fl, open') && HeldOk(pl, held, open')
  {
    forall f, b | b in fl(f) ensures BodyOk(open', f, b) { assert BodyOk(open, f, b); }
    forall d, p | p in At(held, d) ensures BodyOk(open', FlowOf(p), p.body) { assert BodyOk(open, FlowOf(p), p.body); }
  }

  /** A request that has been answered: every group is not empty and full, the sources heard
      are exactly the group's, and the response is what the counters made of the replies. */
  ghost predicate Finished(k: ReqKey, r: Request) {
    && InfoOk(k, r) && AllFull(r.groups, r.arr) && Bounded(Sizes(r.groups), Evs(r.arr))
    && forall g :: 0 <= g < |r.groups| ==> multiset(Sources(r.arr, g)) == multiset(r.groups[g])
  }

  // ---------------------------------------------------------- a router fans out

  lemma {:induction false} FanCount(r: nat, groups: seq<seq<Addr>>, comm: nat, id: nat, op: OpType, n: nat, g: nat, d: Addr)
    ensures Count(Pick(FanReq(r, groups, comm, id, op, n), Flow(RouterAt(r), d)), ReqTag(id, g))
         == if g < |groups| then Times(groups[g], d) else 0
  {
    if groups != [] {
      var last := |groups| - 1;
      FanCount(r, groups[..last], comm, id, op, n, g, d);
      FanMore(FanReq(r, groups[..last], comm, id, op, n), r, groups[last], Req(comm, id, last, op, n), d, ReqTag(id, g));
    }
  }

  lemma FanMore(ps: seq<Packet<Body>>, r: nat, group: seq<Addr>, b: Body, d: Addr, t: Tag)
    ensures Count(Pick(ps + FanGroup(r, group, b), Flow(RouterAt(r), d)), t)
         == Count(Pick(ps, Flow(RouterAt(r), d)), t) + if Hits(b, t) == 1 then Times(group, d) else 0
  {
    var f := Flow(RouterAt(r), d);
    PickConcat(ps, FanGroup(r, group, b), f);
    CountConcat(Pick(ps, f), Pick(FanGroup(r, group, b), f), t);
    GroupCount(r, group, b, d, t);
  }

  lemma {:induction false} GroupCount(r: nat, group: seq<Addr>, b: Body, d: Addr, t: Tag)
    ensures Count(Pick(FanGroup(r, group, b), Flow(RouterAt(r), d)), t) == if Hits(b, t) == 1 then Times(group, d) else 0
  {
    if group != [] {
      var before, x := group[..|group| - 1], group[|group| - 1];
      GroupCount(r, before, b, d, t);
      assert FanGroup(r, group, b) == FanGroup(r, before, b) + [Packet(RouterAt(r), x, b)];
      PickAppend(FanGroup(r, before, b), Packet(RouterAt(r), x, b), Flow(RouterAt(r), d), t);
      assert group == before + [x];
      TimesAppend(before, x, d);
    }
  }

  lemma FannedCount(fl: Flight, fl': Flight, ps: seq<Packet<Body>>, at: seq<Packet<Body>>, arr: seq<Packet<Body>>, k: ReqKey, g: nat, d: Addr)
    requires Fanned(fl, fl', ps)
    ensures Tally(fl', at, arr, k, g, d) == Tally(fl, at, arr, k, g, d)
            + Count(Pick(ps, Flow(RouterAt(k.rtr), d)), ReqTag(k.id, g)) + Count(Pick(ps, Flow(d, RouterAt(k.rtr))), ReplyTag(k.id, g))
  {
    var f1, f2 := Flow(RouterAt(k.rtr), d), Flow(d, RouterAt(k.rtr));
    CountConcat(fl(f1), Pick(ps, f1), ReqTag(k.id, g));
    CountConcat(fl(f2), Pick(ps, f2), ReplyTag(k.id, g));
  }

  lemma FannedOk(fl: Flight, fl': Flight, ps: seq<Packet<Body>>, open: map<ReqKey, Request>)
    requires Fanned(fl, fl', ps) && FlightOk(fl, open)
    requires forall p :: p in ps ==> BodyOk(open, FlowOf(p), p.body)
    ensures FlightOk(fl', open)
  {
    forall f, b | b in fl'(f) ensures BodyOk(open, f, b) {
      if b !in fl(f) { PickMember(ps, f, b); }
    }
  }

  lemma NotFullYet(r: Request)
    requires r.arr == []
    ensures !AllFull(r.groups, r.arr)
  {
    if r.groups != [] {
      assert Of(Evs(r.arr), 0) == [];
      assert !Full(Sizes(r.groups), Evs(r.arr), 0);
    }
  }

  /** The new request's tally is its fan-out, and no other request is affected. */
  lemma RequestTraffic(w: World, fl: Flight, fl': Flight, held: map<Addr, seq<Packet<Body>>>, open: map<ReqKey, Request>,
                       k: ReqKey, r: Request, comm: nat)
    requires Traffic(w, fl, held, open) && k !in open && k.rtr in w.plant.mesh.Keys
    requires AskOk(r.op, r.ops) && Routable(w, r.groups) && r.arr == [] && r.info == Start(r.op, r.ops, Sizes(r.groups))
    requires Fanned(fl, fl', FanReq(k.rtr, r.groups, comm, k.id, r.op, Columns(r.op, r.ops)))
    ensures Traffic(w, fl', held, open[k := r])
  {
    var ps := FanReq(k.rtr, r.groups, comm, k.id, r.op, Columns(r.op, r.ops));
    SameBodies(w.plant, fl, held, open, open[k := r]);
    FanBodies(w, open, k, r, comm);
    FannedOk(fl, fl', ps, open[k := r]);
    NewInfo(k, r);
    NewConserved(fl, fl', held, open, k, r, comm);
    OldRequests(w, fl, fl', held, open, ps, k);
    OpenMore(w, fl', held, open, k, r);
  }

  lemma FanBodies(w: World, open: map<ReqKey, Request>, k: ReqKey, r: Request, comm: nat)
    requires k.rtr in w.plant.mesh.Keys && Routable(w, r.groups)
    ensures forall p :: p in FanReq(k.rtr, r.groups, comm, k.id, r.op, Columns(r.op, r.ops)) ==>
              p.src == RouterAt(k.rtr) && p.body.Req? && p.body.id == k.id && BodyOk(open[k := r], FlowOf(p), p.body)
  {
    var ps := FanReq(k.rtr, r.groups, comm, k.id, r.op, Columns(r.op, r.ops));
    FanReqFrom(w, k.rtr, r.groups, comm, k.id, r.op, Columns(r.op, r.ops));
    forall p | p in ps
      ensures p.src == RouterAt(k.rtr) && p.body.Req? && p.body.id == k.id && BodyOk(open[k := r], FlowOf(p), p.body)
    {
      var i :| 0 <= i < |ps| && ps[i] == p;
    }
  }

  lemma OpenMore(w: World, fl: Flight, held: map<Addr, seq<Packet<Body>>>, open: map<ReqKey, Request>, k: ReqKey, r: Request)
    requires OpenOk(w, fl, held, open) && RequestOk(w, fl, held, k, r)
    ensures OpenOk(w, fl, held, open[k := r])
  {}

  lemma NewInfo(k: ReqKey, r: Request)
    requires AskOk(r.op, r.ops) && r.arr == [] && r.info == Start(r.op, r.ops, Sizes(r.groups))
    ensures InfoOk(k, r) && !AllFull(r.groups, r.arr)
  {
    NotFullYet(r);
    FitsAll(k, r);
    assert Evs(r.arr) == [];
  }

  lemma OldRequests(w: World, fl: Flight, fl': Flight, held: map<Addr, seq<Packet<Body>>>, open: map<ReqKey, Request>, ps: seq<Packet<Body>>, k: ReqKey)
    requires OpenOk(w, fl, held, open) && k !in open && Fanned(fl, fl', ps)
    requires forall p :: p in ps ==> !p.body.Reply? && (p.body.Req? ==> ReqKey(p.src.rtr, p.body.id) == k)
    ensures OpenOk(w, fl', held, open)
  {
    forall k' | k' in open ensures RequestOk(w, fl', held, k', open[k']) {
      assert RequestOk(w, fl, held, k', open[k']);
      OtherConserved(fl, fl', held, ps, k', open[k']);
    }
  }

  lemma NewConserved(fl: Flight, fl': Flight, held: map<Addr, seq<Packet<Body>>>, open: map<ReqKey, Request>, k: ReqKey, r: Request, comm: nat)
    requires FlightOk(fl, open) && k !in open && r.arr == []
    requires forall d, p :: p in At(held, d) ==> p.body.Req? && BodyOk(open, FlowOf(p), p.body)
    requires Fanned(fl, fl', FanReq(k.rtr, r.groups, comm, k.id, r.op, Columns(r.op, r.ops)))
    requires forall p :: p in FanReq(k.rtr, r.groups, comm, k.id, r.op, Columns(r.op, r.ops)) ==> p.src.RouterAt?
    ensures Conserved(fl', held, k, r)
  {
    hide FanReq, BodyOk, FlightOk, Hits, Pick, Fanned;
    var n := Columns(r.op, r.ops);
    var ps := FanReq(k.rtr, r.groups, comm, k.id, r.op, n);
    forall g: nat, d: Addr | g < |r.groups| && d.ServerAt?
      ensures Tally(fl', At(held, d), r.arr, k, g, d) == multiset(r.groups[g])[d]
    {
      FannedCount(fl, fl', ps, At(held, d), r.arr, k, g, d);
      FanCount(k.rtr, r.groups, comm, k.id, r.op, n, g, d);
      TimesBag(r.groups[g], d);
      PickNothing(ps, Flow(d, RouterAt(k.rtr)));
      NothingOf(fl, held, open, k, g, d);
    }
  }

  /** Of an id that is not open nothing is under way. */
  lemma NothingOf(fl: Flight, held: map<Addr, seq<Packet<Body>>>, open: map<ReqKey, Request>, k: ReqKey, g: nat, d: Addr)
    requires FlightOk(fl, open) && k !in open
    requires forall d, p :: p in At(held, d) ==> p.body.Req? && BodyOk(open, FlowOf(p), p.body)
    ensures Tally(fl, At(held, d), [], k, g, d) == 0
  {
    var f1, f2 := Flow(RouterAt(k.rtr), d), Flow(d, RouterAt(k.rtr));
    forall b | b in fl(f1) ensures Hits(b, ReqTag(k.id, g)) == 0 { assert BodyOk(open, f1, b); }
    forall b | b in fl(f2) ensures Hits(b, ReplyTag(k.id, g)) == 0 { assert BodyOk(open, f2, b); }
    forall b | b in Pick(At(held, d), f1) ensures Hits(b, ReqTag(k.id, g)) == 0 {
      PickMember(At(held, d), f1, b);
      assert BodyOk(open, f1, b);
    }
    CountNone(fl(f1), ReqTag(k.id, g));
    CountNone(fl(f2), ReplyTag(k.id, g));
    CountNone(Pick(At(held, d), f1), ReqTag(k.id, g));
  }

  /** Events that are not of request k do not change its tally. */
  lemma OtherConserved(fl: Flight, fl': Flight, held: map<Addr, seq<Packet<Body>>>, ps: seq<Packet<Body>>, k: ReqKey, r: Request)
    requires Conserved(fl, held, k, r) && Fanned(fl, fl', ps)
    requires forall p :: p in ps ==> !p.body.Reply? && (p.body.Req? ==> ReqKey(p.src.rtr, p.body.id) != k)
    ensures Conserved(fl', held, k, r)
  {
    forall g: nat, d: Addr | g < |r.groups| && d.ServerAt?
      ensures Tally(fl', At(held, d), r.arr, k, g, d) == multiset(r.groups[g])[d]
    {
      var f1, f2 := Flow(RouterAt(k.rtr), d), Flow(d, RouterAt(k.rtr));
      assert Tally(fl, At(held, d), r.arr, k, g, d) == multiset(r.groups[g])[d];
      FannedCount(fl, fl', ps, At(held, d), r.arr, k, g, d);
      forall b | b in Pick(ps, f1) ensures Hits(b, ReqTag(k.id, g)) == 0 { PickMember(ps, f1, b); }
      forall b | b in Pick(ps, f2) ensures Hits(b, ReplyTag(k.id, g)) == 0 { PickMember(ps, f2, b); }
      CountNone(Pick(ps, f1), ReqTag(k.id, g));
      CountNone(Pick(ps, f2), ReplyTag(k.id, g));
    }
  }

  /** CommCreates do not concern any request. */
  lemma CommTraffic(w: World, fl: Flight, fl': Flight, held: map<Addr, seq<Packet<Body>>>, open: map<ReqKey, Request>,
                    o: nat, members: seq<seq<Addr>>, comm: nat)
    requires Traffic(w, fl, held, open) && o in w.plant.mesh.Keys && Routable(w, members)
    requires Fanned(fl, fl', FanCreate(o, members, comm))
    ensures Traffic(w, fl', held, open)
  {
    var ps := FanCreate(o, members, comm);
    FanCreateFrom(w, o, members, comm);
    FannedOk(fl, fl', ps, open);
    forall k | k in open ensures RequestOk(w, fl', held, k, open[k]) {
      assert RequestOk(w, fl, held, k, open[k]);
      OtherConserved(fl, fl', held, ps, k, open[k]);
    }
  }
}
