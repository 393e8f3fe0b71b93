/** A client's request: the loop that waits for its replies, and on the way serves the other
    requests of the same context. */
module ClientRequest {
  import opened Common
  import Aggregation

  /** CommRespEvent as the client gets it. */
  datatype Reply = Reply(id: nat, value: seq<seq<real>>, timeStamp: seq<seq<nat>>, errObj: seq<string>, errAttr: seq<nat>, errValue: seq<int>)

  /** The router's response, under the id of the CommReq. */
  function ReplyOf(id: nat, r: Aggregation.Resp): Reply {
    Reply(id, r.value, r.timeStamp, r.errObj, r.errAttr, r.errValue)
  }

  /** What a request shows: the caller's buffers, its Status, and the CommReqs not answered. */
  datatype View = View(value: seq<seq<real>>, timeStamp: seq<seq<nat>>, status: seq<Trouble>, open: set<nat>)

  // ------------------------------------------------------- one reply, as a value

  predicate SameRows<T>(rows: seq<seq<T>>, news: seq<seq<T>>) {
    |rows| == |news| && forall i :: 0 <= i < |rows| ==> |news[i]| <= |rows[i]|
  }

  /** The assertion of getValue, the caller's buffers being long enough, and error lists in step. */
  predicate Fits(v: View, get: bool, ev: Reply) {
    && |ev.errObj| == |ev.errAttr| == |ev.errValue|
    && (get ==> SameRows(v.value, ev.value) && SameRows(v.timeStamp, ev.timeStamp) && |ev.value| == |ev.timeStamp|
                && forall i :: 0 <= i < |ev.value| ==> |ev.value[i]| == |ev.timeStamp[i]|)
  }

  function Over<T>(row: seq<T>, news: seq<T>): (r: seq<T>)
    ensures |r| == |row|
  {
    if |news| <= |row| then news + row[|news|..] else row
  }

  lemma CellWritten<T>(row: seq<T>, news: seq<T>, j: nat)
    requires j < |news| <= |row|
    ensures (news[..j] + row[j..])[j := news[j]] == news[..j + 1] + row[j + 1..]
  {}

  function OverRows<T>(rows: seq<seq<T>>, news: seq<seq<T>>): (r: seq<seq<T>>)
    ensures |r| == |rows| && forall i :: 0 <= i < |rows| ==> r[i] == if i < |news| then Over(rows[i], news[i]) else rows[i]
  {
    seq(|rows|, i requires 0 <= i < |rows| => if i < |news| then Over(rows[i], news[i]) else rows[i])
  }

  function Troubles(ev: Reply): (s: seq<Trouble>) {
    seq(|ev.errValue|, i requires 0 <= i < |ev.errValue| =>
      if i < |ev.errObj| && i < |ev.errAttr| then Trouble(ev.errObj[i], ev.errAttr[i], ev.errValue[i]) else Trouble("", 0, ev.errValue[i]))
  }

  /** The Status has each error of the reply at its end: its object, attribute and code. */
  ghost predicate ErrorsAdded(was: seq<Trouble>, now: seq<Trouble>, ev: Reply) {
    && |ev.errObj| == |ev.errAttr| == |ev.errValue| && |now| == |was| + |ev.errValue| && now[..|was|] == was
    && forall i :: 0 <= i < |ev.errValue| ==>
         now[|was| + i].obj == ev.errObj[i] && now[|was| + i].attr == ev.errAttr[i] && now[|was| + i].code == ev.errValue[i]
  }

  /** Each row's cells are overwritten from its front. */
  ghost predicate Overwritten<T(!new)>(was: seq<seq<T>>, now: seq<seq<T>>, news: seq<seq<T>>) {
    && |was| == |now| == |news|
    && forall i :: 0 <= i < |now| ==>
         |now[i]| == |was[i]| && |news[i]| <= |now[i]|
         && forall j :: 0 <= j < |now[i]| ==> now[i][j] == if j < |news[i]| then news[i][j] else was[i][j]
  }

  /** The effect of a reply on the request that its CommReq belongs to. */
  function Absorb(v: View, get: bool, ev: Reply): View {
    View(if get then OverRows(v.value, ev.value) else v.value,
         if get then OverRows(v.timeStamp, ev.timeStamp) else v.timeStamp,
         v.status + Troubles(ev),
         v.open - {ev.id})
  }

  // ------------------------------------------------------------- the objects

  class DistRequest {
    var value: seq<seq<real>>
    var timeStamp: seq<seq<nat>>
    var status: seq<Trouble>
    var commReqs: set<nat>
    /** How often the callback has run. */
    var callbacks: nat

    constructor (value: seq<seq<real>>, timeStamp: seq<seq<nat>>)
      ensures Shows() == View(value, timeStamp, [], {}) && callbacks == 0
    {
      this.value, this.timeStamp, status, commReqs, callbacks := value, timeStamp, [], {}, 0;
    }

    function Shows(): View
      reads `value, `timeStamp, `status, `commReqs
    {
      View(value, timeStamp, status, commReqs)
    }

    /** DistRequest::insert. */
    method Insert(id: nat)
      modifies this`commReqs
      ensures commReqs == old(commReqs) + {id}
    {
      commReqs := commReqs + {id};
    }

    /** DistRequest::getValue. */
    method GetValue(ev: Reply)
      requires Fits(Shows(), true, ev)
      modifies this`value, this`timeStamp, this`status, this`commReqs
      ensures Shows() == Absorb(old(Shows()), true, ev)
      ensures Overwritten(old(value), value, ev.value) && Overwritten(old(timeStamp), timeStamp, ev.timeStamp)
      ensures ErrorsAdded(old(status), status, ev) && commReqs == old(commReqs) - {ev.id}
    {
      ghost var v0, t0 := value, timeStamp;
      var i := 0;
      while i < |value|
        invariant 0 <= i <= |value| == |v0| == |t0| == |timeStamp| && status == old(status) && commReqs == old(commReqs)
        invariant forall k :: 0 <= k < i ==> value[k] == Over(v0[k], ev.value[k]) && timeStamp[k] == Over(t0[k], ev.timeStamp[k])
        invariant forall k :: i <= k < |value| ==> value[k] == v0[k] && timeStamp[k] == t0[k]
      {
        GetRow(i, ev.value[i], ev.timeStamp[i]);
        i := i + 1;
      }
      assert value == OverRows(v0, ev.value) && timeStamp == OverRows(t0, ev.timeStamp);
      AddTroubles(ev);
      commReqs := commReqs - {ev.id};
    }

    /** Its inner loop: one row of the caller's buffers. */
    method GetRow(i: nat, vs: seq<real>, ts: seq<nat>)
      requires i < |value| && i < |timeStamp| && |vs| == |ts| && |vs| <= |value[i]| && |ts| <= |timeStamp[i]|
      modifies this`value, this`timeStamp
      ensures value == old(value)[i := Over(old(value[i]), vs)] && timeStamp == old(timeStamp)[i := Over(old(timeStamp[i]), ts)]
    {
      ghost var v0, t0 := value[i], timeStamp[i];
      assert vs[..0] + v0[0..] == v0 && ts[..0] + t0[0..] == t0;
      var j := 0;
      while j < |vs|
        invariant 0 <= j <= |vs|
        invariant value == old(value)[i := vs[..j] + v0[j..]] && timeStamp == old(timeStamp)[i := ts[..j] + t0[j..]]
      {
        CellWritten(v0, vs, j);
        CellWritten(t0, ts, j);
        value := value[i := value[i][j := vs[j]]];
        timeStamp := timeStamp[i := timeStamp[i][j := ts[j]]];
        j := j + 1;
      }
      assert vs[..j] == vs && ts[..j] == ts;
    }

    /** DistRequest::setValue. */
    method SetValue(ev: Reply)
      requires Fits(Shows(), false, ev)
      modifies this`status, this`commReqs
      ensures Shows() == Absorb(old(Shows()), false, ev)
      ensures ErrorsAdded(old(status), status, ev) && commReqs == old(commReqs) - {ev.id}
    {
      AddTroubles(ev);
      commReqs := commReqs - {ev.id};
    }

    method AddTroubles(ev: Reply)
      requires |ev.errObj| == |ev.errAttr| == |ev.errValue|
      modifies this`status
      ensures status == old(status) + Troubles(ev) && ErrorsAdded(old(status), status, ev)
    {
      var i := 0;
      while i < |ev.errValue|
        invariant 0 <= i <= |ev.errValue| && status == old(status) + Troubles(ev)[..i]
      {
        status := status + [Trouble(ev.errObj[i], ev.errAttr[i], ev.errValue[i])];
        i := i + 1;
      }
      assert Troubles(ev)[..i] == Troubles(ev);
    }
  }

  /** A CommReq: the request it belongs to, and whether its replies carry values. */
  datatype CommReq = CommReq(owner: DistRequest, get: bool)

  /** The replies that the router sends, until the connection breaks. */
  class EventChannel {
    var queue: seq<Reply>

    constructor (queue: seq<Reply>)
      ensures this.queue == queue
    {
      this.queue := queue;
    }
  }

  // ------------------------------------------- the replies of one request

  /** Those of evs that belong to request q. */
  ghost function Own(evs: seq<Reply>, table: map<nat, CommReq>, q: DistRequest): (own: seq<Reply>)
    requires forall ev :: ev in evs ==> ev.id in table
    ensures forall ev :: ev in own ==> ev.id in table
  {
    if evs == [] then [] else
      var last := evs[|evs| - 1];
      Own(evs[..|evs| - 1], table, q) + if table[last.id].owner == q then [last] else []
  }

  /** Request v after these replies of its own. */
  ghost function After(v: View, evs: seq<Reply>, table: map<nat, CommReq>): (w: View)
    requires forall ev :: ev in evs ==> ev.id in table
    ensures |w.value| == |v.value| && |w.timeStamp| == |v.timeStamp|
    ensures forall i :: 0 <= i < |v.value| ==> |w.value[i]| == |v.value[i]|
    ensures forall i :: 0 <= i < |v.timeStamp| ==> |w.timeStamp[i]| == |v.timeStamp[i]|
  {
    if evs == [] then v else
      var last := evs[|evs| - 1];
      Absorb(After(v, evs[..|evs| - 1], table), table[last.id].get, last)
  }

  function IdsOf(evs: seq<Reply>): (ids: set<nat>)
    ensures forall id :: id in ids <==> exists k :: 0 <= k < |evs| && evs[k].id == id
  {
    set k | 0 <= k < |evs| :: evs[k].id
  }

  /** What is still open: the CommReqs without a reply. */
  lemma {:induction false} OpenAfter(v: View, evs: seq<Reply>, table: map<nat, CommReq>)
    requires forall ev :: ev in evs ==> ev.id in table
    ensures After(v, evs, table).open == v.open - IdsOf(evs)
  {
    if evs != [] {
      var n := |evs| - 1;
      OpenAfter(v, evs[..n], table);
      assert IdsOf(evs) == IdsOf(evs[..n]) + {evs[n].id};
    }
  }

  ghost function AllTroubles(evs: seq<Reply>): seq<Trouble> {
    if evs == [] then [] else AllTroubles(evs[..|evs| - 1]) + Troubles(evs[|evs| - 1])
  }

  /** The Status holds every error of every reply, in the order of arrival. */
  lemma {:induction false} StatusAfter(v: View, evs: seq<Reply>, table: map<nat, CommReq>)
    requires forall ev :: ev in evs ==> ev.id in table
    ensures After(v, evs, table).status == v.status + AllTroubles(evs)
  {
    hide Troubles, OverRows;
    if evs != [] {
      StatusAfter(v, evs[..|evs| - 1], table);
    }
  }

  /** A reply that writes cell (i, j) of the caller's buffer. */
  ghost predicate Writes(v: View, get: bool, ev: Reply, i: nat, j: nat) {
    get && i < |v.value| && i < |ev.value| && j < |ev.value[i]| <= |v.value[i]|
  }

  ghost predicate IsLastWriter(v: View, evs: seq<Reply>, table: map<nat, CommReq>, i: nat, j: nat, k: nat)
    requires forall ev :: ev in evs ==> ev.id in table
    ensures IsLastWriter(v, evs, table, i, j, k) ==> k < |evs| && i < |evs[k].value| && j < |evs[k].value[i]|
  {
    k < |evs| && Writes(v, table[evs[k].id].get, evs[k], i, j)
    && forall l :: k < l < |evs| ==> !Writes(v, table[evs[l].id].get, evs[l], i, j)
  }

  /** A cell holds what the last reply that writes it brought, and without one what it held. */
  lemma {:induction false} LastWriter(v: View, evs: seq<Reply>, table: map<nat, CommReq>, i: nat, j: nat)
    requires (forall ev :: ev in evs ==> ev.id in table) && i < |v.value| && j < |v.value[i]|
    ensures (forall k :: 0 <= k < |evs| ==> !Writes(v, table[evs[k].id].get, evs[k], i, j))
            ==> After(v, evs, table).value[i][j] == v.value[i][j]
    ensures forall k: nat :: IsLastWriter(v, evs, table, i, j, k) ==> After(v, evs, table).value[i][j] == evs[k].value[i][j]
  {
    if evs != [] {
      var n := |evs| - 1;
      LastWriter(v, evs[..n], table, i, j);
      hide Writes, Absorb, IsLastWriter;
      OneWrite(After(v, evs[..n], table), v, table[evs[n].id].get, evs[n], i, j);
      FrontReplies(evs);
      forall k: nat | IsLastWriter(v, evs, table, i, j, k) ensures After(v, evs, table).value[i][j] == evs[k].value[i][j] {
        LastWriterFront(v, evs, table, i, j, k);
      }
    }
  }

  lemma LastWriterFront(v: View, evs: seq<Reply>, table: map<nat, CommReq>, i: nat, j: nat, k: nat)
    requires (forall ev :: ev in evs ==> ev.id in table) && IsLastWriter(v, evs, table, i, j, k)
    ensures k < |evs| - 1 ==> IsLastWriter(v, evs[..|evs| - 1], table, i, j, k) && !Writes(v, table[evs[|evs| - 1].id].get, evs[|evs| - 1], i, j)
    ensures k == |evs| - 1 ==> Writes(v, table[evs[k].id].get, evs[k], i, j)
  {
    hide Writes;
    FrontReplies(evs);
  }

  /** A reply that writes the time of cell (i, j). */
  ghost predicate WritesTime(v: View, get: bool, ev: Reply, i: nat, j: nat) {
    get && i < |v.timeStamp| && i < |ev.timeStamp| && j < |ev.timeStamp[i]| <= |v.timeStamp[i]|
  }

  ghost predicate IsLastTime(v: View, evs: seq<Reply>, table: map<nat, CommReq>, i: nat, j: nat, k: nat)
    requires forall ev :: ev in evs ==> ev.id in table
    ensures IsLastTime(v, evs, table, i, j, k) ==> k < |evs| && i < |evs[k].timeStamp| && j < |evs[k].timeStamp[i]|
  {
    k < |evs| && WritesTime(v, table[evs[k].id].get, evs[k], i, j)
    && forall l :: k < l < |evs| ==> !WritesTime(v, table[evs[l].id].get, evs[l], i, j)
  }

  /** So with the time of a cell. */
  lemma {:induction false} LastTime(v: View, evs: seq<Reply>, table: map<nat, CommReq>, i: nat, j: nat)
    requires (forall ev :: ev in evs ==> ev.id in table) && i < |v.timeStamp| && j < |v.timeStamp[i]|
    ensures (forall k :: 0 <= k < |evs| ==> !WritesTime(v, table[evs[k].id].get, evs[k], i, j))
            ==> After(v, evs, table).timeStamp[i][j] == v.timeStamp[i][j]
    ensures forall k: nat :: IsLastTime(v, evs, table, i, j, k) ==> After(v, evs, table).timeStamp[i][j] == evs[k].timeStamp[i][j]
  {
    if evs != [] {
      var n := |evs| - 1;
      LastTime(v, evs[..n], table, i, j);
      hide WritesTime, Absorb, IsLastTime;
      OneTime(After(v, evs[..n], table), v, table[evs[n].id].get, evs[n], i, j);
      FrontReplies(evs);
      forall k: nat | IsLastTime(v, evs, table, i, j, k) ensures After(v, evs, table).timeStamp[i][j] == evs[k].timeStamp[i][j] {
        LastTimeFront(v, evs, table, i, j, k);
      }
    }
  }

  lemma FrontReplies(evs: seq<Reply>)
    requires evs != []
    ensures forall k :: 0 <= k < |evs| - 1 ==> evs[..|evs| - 1][k] == evs[k]
  {}

  lemma LastTimeFront(v: View, evs: seq<Reply>, table: map<nat, CommReq>, i: nat, j: nat, k: nat)
    requires (forall ev :: ev in evs ==> ev.id in table) && IsLastTime(v, evs, table, i, j, k)
    ensures k < |evs| - 1 ==> IsLastTime(v, evs[..|evs| - 1], table, i, j, k) && !WritesTime(v, table[evs[|evs| - 1].id].get, evs[|evs| - 1], i, j)
    ensures k == |evs| - 1 ==> WritesTime(v, table[evs[k].id].get, evs[k], i, j)
  {
    hide WritesTime;
    FrontReplies(evs);
  }

  lemma OneTime(w: View, v: View, get: bool, ev: Reply, i: nat, j: nat)
    requires |w.timeStamp| == |v.timeStamp| && i < |v.timeStamp| && |w.timeStamp[i]| == |v.timeStamp[i]| && j < |v.timeStamp[i]|
    ensures Absorb(w, get, ev).timeStamp[i][j] == if WritesTime(v, get, ev, i, j) then ev.timeStamp[i][j] else w.timeStamp[i][j]
  {}

  lemma OneWrite(w: View, v: View, get: bool, ev: Reply, i: nat, j: nat)
    requires |w.value| == |v.value| && i < |v.value| && |w.value[i]| == |v.value[i]| && j < |v.value[i]|
    ensures Absorb(w, get, ev).value[i][j] == if Writes(v, get, ev, i, j) then ev.value[i][j] else w.value[i][j]
  {}

  lemma OwnStep(evs: seq<Reply>, k: nat, table: map<nat, CommReq>, q: DistRequest)
    requires k < |evs| && forall ev :: ev in evs ==> ev.id in table
    ensures Own(evs[..k + 1], table, q) == Own(evs[..k], table, q) + if table[evs[k].id].owner == q then [evs[k]] else []
  {
    assert evs[..k + 1][..k] == evs[..k];
  }

  lemma {:induction false} OwnHas(evs: seq<Reply>, table: map<nat, CommReq>, q: DistRequest, id: nat)
    requires forall ev :: ev in evs ==> ev.id in table
    ensures id in IdsOf(Own(evs, table, q)) <==> id in IdsOf(evs) && table[id].owner == q
  {
    if evs != [] {
      var n := |evs| - 1;
      OwnHas(evs[..n], table, q, id);
      var last := if table[evs[n].id].owner == q then [evs[n]] else [];
      assert last != [] ==> last[0].id == evs[n].id;
      assert IdsOf(last) == if table[evs[n].id].owner == q then {evs[n].id} else {};
      assert IdsOf(evs) == IdsOf(evs[..n]) + {evs[n].id};
      IdsConcat(Own(evs[..n], table, q), last);
    }
  }

  lemma IdsConcat(a: seq<Reply>, b: seq<Reply>)
    ensures IdsOf(a + b) == IdsOf(a) + IdsOf(b)
  {
    forall id | id in IdsOf(a) + IdsOf(b) ensures id in IdsOf(a + b) {
      if id in IdsOf(a) {
        var k :| 0 <= k < |a| && a[k].id == id;
        assert (a + b)[k].id == id;
      } else {
        var k :| 0 <= k < |b| && b[k].id == id;
        assert (a + b)[|a| + k].id == id;
      }
    }
  }

  // ------------------------------------------------------------ the wait loop

  const SUCCESS: int := 0
  /** PWR_RET_IPC. */
  const IPC: int := -14

  /** Each request shows what its own among the first k replies make of it. */
  ghost predicate Served(all: set<DistRequest>, was: map<DistRequest, View>, evs: seq<Reply>, k: nat, table: map<nat, CommReq>)
    requires k <= |evs| && was.Keys == all && forall ev :: ev in evs ==> ev.id in table
    reads all
  {
    forall q :: q in all ==> q.Shows() == After(was[q], Own(evs[..k], table, q), table)
  }

  /** Every reply fits the request it belongs to. */
  ghost predicate AllFit(was: map<DistRequest, View>, evs: seq<Reply>, table: map<nat, CommReq>)
    ensures AllFit(was, evs, table) ==> forall ev :: ev in evs ==> ev.id in table
  {
    forall ev :: ev in evs ==> ev.id in table && table[ev.id].owner in was && Fits(was[table[ev.id].owner], table[ev.id].get, ev)
  }

  /** req->process( ev ) for the reply k. */
  method Serve(ev: Reply, table: map<nat, CommReq>, ghost all: set<DistRequest>, ghost was: map<DistRequest, View>, ghost evs: seq<Reply>, ghost k: nat)
    requires was.Keys == all && AllFit(was, evs, table) && k < |evs| && evs[k] == ev && Served(all, was, evs, k, table)
    modifies all
    ensures Served(all, was, evs, k + 1, table)
    ensures forall q :: q in all ==> q.callbacks == old(q.callbacks)
  {
    hide After, Own, Absorb;
    var req := table[ev.id];
    FitsAfter(was[req.owner], Own(evs[..k], table, req.owner), table, req.get, ev);
    forall q | q in all
      ensures After(was[q], Own(evs[..k + 1], table, q), table)
           == if q == req.owner then Absorb(q.Shows(), req.get, ev) else q.Shows()
    {
      OwnStep(evs, k, table, q);
      OneMore(was[q], Own(evs[..k], table, q), ev, table);
      assert Own(evs[..k], table, q) + [] == Own(evs[..k], table, q);
    }
    if req.get { req.owner.GetValue(ev); } else { req.owner.SetValue(ev); }
  }

  lemma FitsAfter(v: View, own: seq<Reply>, table: map<nat, CommReq>, get: bool, ev: Reply)
    requires Fits(v, get, ev) && forall e :: e in own ==> e.id in table
    ensures Fits(After(v, own, table), get, ev)
  {
    hide After;
  }

  /** DistRequest::wait of request r.  The first taken replies on the channel have been
      handed to the requests they belong to, each in order; the loop stops as soon as r has
      nothing open, and fails only when the channel breaks before. */
  method Wait(r: DistRequest, ec: EventChannel, table: map<nat, CommReq>, ghost all: set<DistRequest>, ghost was: map<DistRequest, View>)
    returns (rc: int, ghost taken: nat)
    requires r in all && was.Keys == all && forall q :: q in all ==> was[q] == q.Shows()
    requires AllFit(was, ec.queue, table)
    requires forall id :: id in r.commReqs ==> id in table && table[id].owner == r
    modifies all, ec`queue
    ensures taken <= |old(ec.queue)| && ec.queue == old(ec.queue)[taken..]
    ensures Served(all, was, old(ec.queue), taken, table)
    ensures rc == SUCCESS <==> old(r.commReqs) <= IdsOf(old(ec.queue))
    ensures rc == 0 || rc == -14
    ensures rc == SUCCESS ==> r.commReqs == {} && r.callbacks == old(r.callbacks) + 1
    ensures rc == SUCCESS && taken > 0 ==> !(old(r.commReqs) <= IdsOf(old(ec.queue)[..taken - 1]))
    ensures rc != SUCCESS ==> rc == IPC && taken == |old(ec.queue)| && r.callbacks == old(r.callbacks)
    ensures forall q :: q in all && q != r ==> q.callbacks == old(q.callbacks)
  {
    hide After, Own, Fits, IdsOf, Served, AllFit;
    ghost var evs := ec.queue;
    taken := 0;
    NothingYet(all, was, evs, table);
    while r.commReqs != {}
      invariant taken <= |evs| && ec.queue == evs[taken..]
      invariant Served(all, was, evs, taken, table) && forall q :: q in all ==> q.callbacks == old(q.callbacks)
      invariant taken > 0 ==> !(was[r].open <= IdsOf(evs[..taken - 1]))
      decreases |evs| - taken
    {
      StillOpenIff(all, was, evs, taken, table, r);
      if ec.queue == [] { return IPC, taken; }
      var ev := ec.queue[0];
      ec.queue := ec.queue[1..];
      Serve(ev, table, all, was, evs, taken);
      taken := taken + 1;
    }
    StillOpenIff(all, was, evs, taken, table, r);
    ExecCallback(r, table, all, was, evs, taken);
    rc := SUCCESS;
  }

  /** DistRequest::execCallback. */
  method ExecCallback(r: DistRequest, table: map<nat, CommReq>, ghost all: set<DistRequest>, ghost was: map<DistRequest, View>, ghost evs: seq<Reply>, ghost k: nat)
    requires was.Keys == all && AllFit(was, evs, table) && k <= |evs| && Served(all, was, evs, k, table)
    modifies r`callbacks
    ensures Served(all, was, evs, k, table) && r.callbacks == old(r.callbacks) + 1
  {
    hide After, Own;
    r.callbacks := r.callbacks + 1;
  }

  lemma NothingYet(all: set<DistRequest>, was: map<DistRequest, View>, evs: seq<Reply>, table: map<nat, CommReq>)
    requires was.Keys == all && (forall ev :: ev in evs ==> ev.id in table) && forall q :: q in all ==> was[q] == q.Shows()
    ensures Served(all, was, evs, 0, table)
  {
    assert evs[..0] == [];
  }

  lemma OneMore(v: View, own: seq<Reply>, ev: Reply, table: map<nat, CommReq>)
    requires (forall e :: e in own ==> e.id in table) && ev.id in table
    ensures After(v, own + [ev], table) == Absorb(After(v, own, table), table[ev.id].get, ev)
  {
    assert (own + [ev])[..|own|] == own;
  }

  /** After the first k replies the request waits no more exactly when they answer all its
      CommReqs. */
  lemma StillOpenIff(all: set<DistRequest>, was: map<DistRequest, View>, evs: seq<Reply>, k: nat, table: map<nat, CommReq>, r: DistRequest)
    requires was.Keys == all && r in all && k <= |evs| && (forall ev :: ev in evs ==> ev.id in table)
    requires Served(all, was, evs, k, table)
    requires forall id :: id in was[r].open ==> id in table && table[id].owner == r
    ensures r.commReqs == {} <==> was[r].open <= IdsOf(evs[..k])
    ensures was[r].open <= IdsOf(evs[..k]) ==> was[r].open <= IdsOf(evs)
    ensures k == |evs| ==> evs[..k] == evs
  {
    hide After, Own, IdsOf;
    var own, open := Own(evs[..k], table, r), was[r].open;
    OpenAfter(was[r], own, table);
    assert r.commReqs == open - IdsOf(own);
    forall id | id in open ensures id in IdsOf(own) <==> id in IdsOf(evs[..k]) {
      OwnHas(evs[..k], table, r, id);
    }
    IdsConcat(evs[..k], evs[k..]);
    assert evs == evs[..k] + evs[k..];
    if !(open <= IdsOf(evs[..k])) {
      var id :| id in open && id !in IdsOf(evs[..k]);
      assert id in r.commReqs;
    }
  }
}
