/** The replies of one request, added up by the router that sent it on. */
module Aggregation {
  import opened Common

  datatype OpType = Noop | Get | Set

  datatype ValueOp = NoOp | FpAdd | IntAdd | FpAvg | IntAvg

  /** A CommRespEvent: one row per group, one column per attribute; a server's reply
      has one row.  The three error lists are separate vectors, as in the source. */
  datatype Resp = Resp(timeStamp: seq<seq<nat>>, value: seq<seq<real>>,
                       errObj: seq<string>, errAttr: seq<nat>, errValue: seq<int>)

  /** CommReqInfo. */
  datatype Info = Info(op: OpType, grpInfo: seq<nat>, pending: int, valueOp: seq<ValueOp>,
                       respQ: seq<seq<Resp>>, resp: Resp)

  /** A reply together with the group it is for. */
  datatype Arrival = Arrival(grp: nat, resp: Resp)

  // ------------------------------------------------------------ shapes

  /** A server's reply to n attributes: one row of n values and times when the request
      reads values; the error lists in step. */
  ghost predicate ReplyFits(op: OpType, n: nat, r: Resp) {
    && (op == Get ==> |r.value| > 0 && |r.value[0]| == n && |r.timeStamp| > 0 && |r.timeStamp[0]| == n)
    && InStep(r)
  }

  ghost predicate Shaped(i: Info) {
    && |i.respQ| == |i.grpInfo|
    && (i.op == Get ==> |i.resp.value| == |i.resp.timeStamp| == |i.grpInfo|)
    && (forall k :: 0 <= k < |i.valueOp| ==> i.valueOp[k] == FpAdd)
    && (forall g, k :: 0 <= g < |i.respQ| && 0 <= k < |i.respQ[g]| ==> ReplyFits(i.op, |i.valueOp|, i.respQ[g][k]))
  }

  // ------------------------------------------------------- what one reply does

  /** The value of column c in a one-row reply. */
  function Cell(r: Resp, c: nat): real { if |r.value| > 0 && c < |r.value[0]| then r.value[0][c] else 0.0 }

  /** The times of a one-row reply. */
  function Times(r: Resp): seq<nat> { if |r.timeStamp| > 0 then r.timeStamp[0] else [] }

  /** Sum of column c over the replies, in arrival order. */
  function Column(rs: seq<Resp>, c: nat): real {
    if rs == [] then 0.0 else Column(rs[..|rs| - 1], c) + Cell(rs[|rs| - 1], c)
  }

  /** The values of column c, one for each reply. */
  ghost function Cells(rs: seq<Resp>, c: nat): (s: seq<real>)
    ensures |s| == |rs| && forall k :: 0 <= k < |s| ==> s[k] == Cell(rs[k], c)
  {
    seq(|rs|, k requires 0 <= k < |rs| => Cell(rs[k], c))
  }

  lemma {:induction false} ColumnIsSum(rs: seq<Resp>, c: nat)
    ensures Column(rs, c) == Sum(Cells(rs, c))
  {
    if rs != [] {
      ColumnIsSum(rs[..|rs| - 1], c);
      assert Cells(rs, c)[..|rs| - 1] == Cells(rs[..|rs| - 1], c);
    }
  }

  function Sums(rs: seq<Resp>, n: nat): (row: seq<real>)
    ensures |row| == n && forall c :: 0 <= c < n ==> row[c] == Column(rs, c)
  {
    seq(n, c requires 0 <= c < n => Column(rs, c))
  }

  function ErrObjs(rs: seq<Resp>): seq<string> { if rs == [] then [] else ErrObjs(rs[..|rs| - 1]) + rs[|rs| - 1].errObj }

  function ErrAttrs(rs: seq<Resp>): seq<nat> { if rs == [] then [] else ErrAttrs(rs[..|rs| - 1]) + rs[|rs| - 1].errAttr }

  function ErrValues(rs: seq<Resp>): seq<int> { if rs == [] then [] else ErrValues(rs[..|rs| - 1]) + rs[|rs| - 1].errValue }

  /** The response row of a group that has become full. */
  function Fill(i: Info, g: nat): Resp
    requires Shaped(i) && g < |i.respQ| && i.respQ[g] != []
  {
    var rs := i.respQ[g];
    var withErrors := i.resp.(errObj := i.resp.errObj + ErrObjs(rs), errAttr := i.resp.errAttr + ErrAttrs(rs),
                              errValue := i.resp.errValue + ErrValues(rs));
    if i.op == Get then
      withErrors.(value := i.resp.value[g := Sums(rs, |i.valueOp|)],
                  timeStamp := i.resp.timeStamp[g := Times(rs[|rs| - 1])])
    else withErrors
  }

  function Queue(i: Info, a: Arrival): Info
    requires a.grp < |i.respQ|
  {
    i.(respQ := i.respQ[a.grp := i.respQ[a.grp] + [a.resp]])
  }

  /** RtrCommRespEvent::process as a function of the counters. */
  function Absorb(i: Info, a: Arrival): (j: Info)
    requires Shaped(i) && a.grp < |i.grpInfo| && ReplyFits(i.op, |i.valueOp|, a.resp)
    ensures Shaped(j) && j.grpInfo == i.grpInfo && j.op == i.op && j.valueOp == i.valueOp
  {
    var q := Queue(i, a);
    if |q.respQ[a.grp]| == q.grpInfo[a.grp] then q.(resp := Fill(q, a.grp), pending := q.pending - 1) else q
  }

  /** The reply that completes a group and leaves none pending sends the response. */
  predicate Completes(i: Info, a: Arrival)
    requires Shaped(i) && a.grp < |i.grpInfo|
  {
    |i.respQ[a.grp]| + 1 == i.grpInfo[a.grp] && i.pending == 1
  }

  /** A response with the errors of these replies at the end of its lists. */
  ghost function Extended(r: Resp, rs: seq<Resp>): Resp {
    r.(errObj := r.errObj + ErrObjs(rs), errAttr := r.errAttr + ErrAttrs(rs), errValue := r.errValue + ErrValues(rs))
  }

  lemma NoneExtend(r: Resp)
    ensures Extended(r, []) == r
  {
    assert r.errObj + [] == r.errObj && r.errAttr + [] == r.errAttr && r.errValue + [] == r.errValue;
  }

  lemma ExtendedStep(r: Resp, rs: seq<Resp>, j: nat)
    requires j < |rs|
    ensures var e := Extended(r, rs[..j]);
            Extended(r, rs[..j + 1]) == e.(errObj := e.errObj + rs[j].errObj, errAttr := e.errAttr + rs[j].errAttr, errValue := e.errValue + rs[j].errValue)
  {
    var front := rs[..j];
    assert rs[..j + 1][..j] == front;
    Assoc(r.errObj, ErrObjs(front), rs[j].errObj);
    Assoc(r.errAttr, ErrAttrs(front), rs[j].errAttr);
    Assoc(r.errValue, ErrValues(front), rs[j].errValue);
  }

  // ----------------------------------------------------- the code, in place

  class CommReqInfo {
    var op: OpType
    var grpInfo: seq<nat>
    var pending: int
    var valueOp: seq<ValueOp>
    var respQ: seq<seq<Resp>>
    var resp: Resp
    var srcChannel: seq<Resp>   // info->src: the events sent back to the client

    ghost function View(): Info
      reads this
    {
      Info(op, grpInfo, pending, valueOp, respQ, resp)
    }

    /** RtrCommReqEvent::process up to the fan-out. */
    constructor (op: OpType, ops: seq<ValueOp>, sizes: seq<nat>)
      requires op == Get ==> forall k :: 0 <= k < |ops| ==> ops[k] == FpAdd
      ensures View() == Start(op, ops, sizes) && srcChannel == []
    {
      this.op := op;
      this.srcChannel := [];
      this.valueOp := if op == Get then ops else [];
      this.pending := |sizes|;
      this.resp := Resp(if op == Get then seq(|sizes|, k => []) else [],
                        if op == Get then seq(|sizes|, k => []) else [], [], [], []);
      new;
      grpInfo, respQ := [], [];
      var i := 0;
      while i < |sizes|
        invariant 0 <= i <= |sizes|
        invariant grpInfo == sizes[..i] && respQ == seq(i, k => [])
        invariant this.op == op && srcChannel == [] && valueOp == (if op == Get then ops else []) && pending == |sizes|
        invariant resp == Start(op, ops, sizes).resp
      {
        grpInfo := grpInfo + [sizes[i]];
        respQ := respQ + [[]];
        i := i + 1;
      }
    }

    /** fpAdd( &resp->value[g][c], &reply->value[0][c] ) over all columns. */
    method AddReply(g: nat, reply: Resp)
      requires op == Get && g < |resp.value| && g < |resp.timeStamp|
      requires ReplyFits(Get, |valueOp|, reply) && |resp.value[g]| == |valueOp| && |resp.timeStamp[g]| == |valueOp|
      modifies this`resp
      ensures |resp.value| == |old(resp.value)| && |resp.value[g]| == |valueOp|
      ensures forall c :: 0 <= c < |valueOp| ==> resp.value[g][c] == old(resp.value[g][c]) + reply.value[0][c]
      ensures resp == old(resp).(value := old(resp.value)[g := resp.value[g]],
                                 timeStamp := old(resp.timeStamp)[g := reply.timeStamp[0]])
    {
      var c := 0;
      while c < |valueOp|
        invariant 0 <= c <= |valueOp|
        invariant |resp.value| == |old(resp.value)| && |resp.timeStamp| == |old(resp.timeStamp)|
        invariant |resp.value[g]| == |valueOp| && |resp.timeStamp[g]| == |valueOp|
        invariant forall k :: 0 <= k < c ==> resp.value[g][k] == old(resp.value[g][k]) + reply.value[0][k]
        invariant forall k :: c <= k < |valueOp| ==> resp.value[g][k] == old(resp.value[g][k])
        invariant resp.timeStamp[g][..c] == reply.timeStamp[0][..c]
        invariant resp == old(resp).(value := old(resp.value)[g := resp.value[g]],
                                     timeStamp := old(resp.timeStamp)[g := resp.timeStamp[g]])
      {
        resp := resp.(value := resp.value[g := resp.value[g][c := resp.value[g][c] + reply.value[0][c]]],
                      timeStamp := resp.timeStamp[g := resp.timeStamp[g][c := reply.timeStamp[0][c]]]);
        c := c + 1;
      }
      assert resp.timeStamp[g] == reply.timeStamp[0];
    }

    /** Zero the row, then add every queued reply of the group. */
    method SumGroup(g: nat)
      requires Shaped(View()) && op == Get && g < |respQ| && respQ[g] != []
      modifies this`resp
      ensures resp == old(resp).(value := old(resp.value)[g := Sums(respQ[g], |valueOp|)],
                                 timeStamp := old(resp.timeStamp)[g := respQ[g][|respQ[g]| - 1].timeStamp[0]])
    {
      var rs := respQ[g];
      resp := resp.(value := resp.value[g := seq(|valueOp|, k => 0.0)],
                    timeStamp := resp.timeStamp[g := seq(|valueOp|, k => 0)]);
      var j := 0;
      while j < |rs|
        invariant 0 <= j <= |rs|
        invariant |resp.value| == |old(resp.value)| && |resp.timeStamp| == |old(resp.timeStamp)|
        invariant resp.value[g] == Sums(rs[..j], |valueOp|) && |resp.timeStamp[g]| == |valueOp|
        invariant j > 0 ==> resp.timeStamp[g] == rs[j - 1].timeStamp[0]
        invariant resp == old(resp).(value := old(resp.value)[g := resp.value[g]],
                                     timeStamp := old(resp.timeStamp)[g := resp.timeStamp[g]])
      {
        AddReply(g, rs[j]);
        assert rs[..j + 1][..j] == rs[..j];
        j := j + 1;
      }
      assert rs[..|rs|] == rs;
    }

    method CollectErrors(g: nat)
      requires g < |respQ|
      modifies this`resp
      ensures resp == old(resp).(errObj := old(resp.errObj) + ErrObjs(respQ[g]),
                                 errAttr := old(resp.errAttr) + ErrAttrs(respQ[g]),
                                 errValue := old(resp.errValue) + ErrValues(respQ[g]))
    {
      hide ErrObjs, ErrAttrs, ErrValues;
      var rs := respQ[g];
      var j := 0;
      NoneExtend(resp);
      assert rs[..0] == [];
      while j < |rs|
        invariant 0 <= j <= |rs| && resp == Extended(old(resp), rs[..j])
      {
        hide Extended;
        ExtendedStep(old(resp), rs, j);
        resp := resp.(errObj := resp.errObj + rs[j].errObj, errAttr := resp.errAttr + rs[j].errAttr,
                      errValue := resp.errValue + rs[j].errValue);
        j := j + 1;
      }
      assert rs[..j] == rs;
    }

    /** RtrCommRespEvent::process. */
    method Process(a: Arrival) returns (full: bool)
      requires Shaped(View()) && a.grp < |grpInfo| && ReplyFits(op, |valueOp|, a.resp)
      modifies this
      ensures View() == Absorb(old(View()), a)
      ensures full == (old(|respQ[a.grp]|) + 1 == grpInfo[a.grp])
      ensures srcChannel == old(srcChannel) + if Completes(old(View()), a) then [resp] else []
    {
      var g := a.grp;
      respQ := respQ[g := respQ[g] + [a.resp]];
      if |respQ[g]| == grpInfo[g] {
        if op == Get {
          SumGroup(g);
        }
        CollectErrors(g);
        pending := pending - 1;
        if pending == 0 {
          srcChannel := srcChannel + [resp];
        }
        return true;
      } else {
        return false;
      }
    }
  }

  // ----------------------------------------------------- any order of replies

  function Start(op: OpType, ops: seq<ValueOp>, sizes: seq<nat>): (i: Info)
    requires op == Get ==> forall k :: 0 <= k < |ops| ==> ops[k] == FpAdd
    ensures Shaped(i)
  {
    Info(op, sizes, |sizes|, if op == Get then ops else [], seq(|sizes|, k => []),
         Resp(if op == Get then seq(|sizes|, k => []) else [], if op == Get then seq(|sizes|, k => []) else [], [], [], []))
  }

  /** The replies of group g, in arrival order. */
  ghost function Of(evs: seq<Arrival>, g: nat): seq<Resp> {
    if evs == [] then [] else
      Of(evs[..|evs| - 1], g) + if evs[|evs| - 1].grp == g then [evs[|evs| - 1].resp] else []
  }

  ghost predicate Fitting(i: Info, evs: seq<Arrival>) {
    forall k :: 0 <= k < |evs| ==> evs[k].grp < |i.grpInfo| && ReplyFits(i.op, |i.valueOp|, evs[k].resp)
  }

  /** The counters after the replies evs, in that order. */
  ghost function After(i: Info, evs: seq<Arrival>): (j: Info)
    requires Shaped(i) && Fitting(i, evs)
    ensures Shaped(j) && j.grpInfo == i.grpInfo && j.op == i.op && j.valueOp == i.valueOp
  {
    if evs == [] then i else Absorb(After(i, evs[..|evs| - 1]), evs[|evs| - 1])
  }

  /** How many responses the replies evs cause. */
  ghost function Sends(i: Info, evs: seq<Arrival>): nat
    requires Shaped(i) && Fitting(i, evs)
  {
    if evs == [] then 0 else
      Sends(i, evs[..|evs| - 1]) + if Completes(After(i, evs[..|evs| - 1]), evs[|evs| - 1]) then 1 else 0
  }

  /** Group g has received every reply it waits for; an empty group never has. */
  ghost predicate Full(sizes: seq<nat>, evs: seq<Arrival>, g: nat)
    requires g < |sizes|
  {
    |Of(evs, g)| == sizes[g] > 0
  }

  /** No group gets more replies than it has sources. */
  ghost predicate Bounded(sizes: seq<nat>, evs: seq<Arrival>) {
    forall g :: 0 <= g < |sizes| ==> |Of(evs, g)| <= sizes[g]
  }

  ghost function Waiting(sizes: seq<nat>, evs: seq<Arrival>, k: nat): nat
    requires k <= |sizes|
  {
    if k == 0 then 0 else Waiting(sizes, evs, k - 1) + if Full(sizes, evs, k - 1) then 0 else 1
  }

  lemma BoundedPrefix(sizes: seq<nat>, evs: seq<Arrival>)
    requires evs != [] && Bounded(sizes, evs)
    ensures Bounded(sizes, evs[..|evs| - 1])
  {
    forall g | 0 <= g < |sizes| ensures |Of(evs[..|evs| - 1], g)| <= sizes[g] { assert |Of(evs, g)| <= sizes[g]; }
  }

  lemma {:induction false} WaitingStep(sizes: seq<nat>, evs: seq<Arrival>, k: nat)
    requires evs != [] && Bounded(sizes, evs) && k <= |sizes| && evs[|evs| - 1].grp < |sizes|
    ensures Waiting(sizes, evs[..|evs| - 1], k) ==
            Waiting(sizes, evs, k) + if evs[|evs| - 1].grp < k && Full(sizes, evs, evs[|evs| - 1].grp) then 1 else 0
  {
    if k > 0 {
      WaitingStep(sizes, evs, k - 1);
      OfStep(evs, k - 1);
      assert |Of(evs, k - 1)| <= sizes[k - 1];
    }
  }

  lemma {:induction false} WaitingZero(sizes: seq<nat>, evs: seq<Arrival>, k: nat)
    requires k <= |sizes|
    ensures Waiting(sizes, evs, k) == 0 <==> forall g :: 0 <= g < k ==> Full(sizes, evs, g)
    ensures Waiting(sizes, evs, k) <= k
  {
    if k > 0 { WaitingZero(sizes, evs, k - 1); }
  }

  /** The reply queues and the countdown, after any replies in any order. */
  lemma {:induction false} Countdown(op: OpType, ops: seq<ValueOp>, sizes: seq<nat>, evs: seq<Arrival>)
    requires op == Get ==> forall k :: 0 <= k < |ops| ==> ops[k] == FpAdd
    requires Fitting(Start(op, ops, sizes), evs) && Bounded(sizes, evs)
    ensures forall g :: 0 <= g < |sizes| ==> After(Start(op, ops, sizes), evs).respQ[g] == Of(evs, g)
    ensures After(Start(op, ops, sizes), evs).pending == Waiting(sizes, evs, |sizes|)
  {
    var s := Start(op, ops, sizes);
    if evs == [] {
      WaitingStart(sizes, |sizes|);
    } else {
      var before := evs[..|evs| - 1];
      BoundedPrefix(sizes, evs);
      Countdown(op, ops, sizes, before);
      WaitingStep(sizes, evs, |sizes|);
      var g := evs[|evs| - 1].grp;
      assert |Of(evs, g)| <= sizes[g];
    }
  }

  lemma {:induction false} WaitingStart(sizes: seq<nat>, k: nat)
    requires k <= |sizes|
    ensures Waiting(sizes, [], k) == k
  {
    if k > 0 { WaitingStart(sizes, k - 1); }
  }

  /** Whatever the interleaving, a response is sent once all groups are full, and then
      exactly once.  A request with no group, or with an empty one, is never answered:
      its countdown cannot reach zero. */
  lemma {:induction false} OneResponse(op: OpType, ops: seq<ValueOp>, sizes: seq<nat>, evs: seq<Arrival>)
    requires op == Get ==> forall k :: 0 <= k < |ops| ==> ops[k] == FpAdd
    requires Fitting(Start(op, ops, sizes), evs) && Bounded(sizes, evs)
    ensures Sends(Start(op, ops, sizes), evs) ==
            if sizes != [] && forall g :: 0 <= g < |sizes| ==> Full(sizes, evs, g) then 1 else 0
  {
    var s := Start(op, ops, sizes);
    WaitingZero(sizes, evs, |sizes|);
    if evs == [] {
      assert sizes != [] ==> !Full(sizes, evs, 0);
    } else {
      var before := evs[..|evs| - 1];
      BoundedPrefix(sizes, evs);
      OneResponse(op, ops, sizes, before);
      Countdown(op, ops, sizes, before);
      WaitingStep(sizes, evs, |sizes|);
      WaitingZero(sizes, before, |sizes|);
      var g := evs[|evs| - 1].grp;
      assert |Of(evs, g)| <= sizes[g];
      assert !Full(sizes, before, g);
    }
  }

  lemma OnlyReply(r: Resp)
    ensures Of([Arrival(0, r)], 0) == [r] && Of([Arrival(0, r)], 1) == []
  {
    var evs := [Arrival(0, r)];
    assert evs[..|evs| - 1] == [];
    assert Of(evs[..|evs| - 1], 0) == [] && Of(evs[..|evs| - 1], 1) == [];
    OfStep(evs, 0);
    OfStep(evs, 1);
  }

  /** A group with one source that has answered, and one with none: nothing is sent. */
  lemma EmptyGroupExample(r: Resp)
    requires ReplyFits(Set, 0, r)
    ensures Fitting(Start(Set, [], [1, 0]), [Arrival(0, r)]) && Sends(Start(Set, [], [1, 0]), [Arrival(0, r)]) == 0
    ensures Full([1, 0], [Arrival(0, r)], 0) && !Full([1, 0], [Arrival(0, r)], 1)
  {
    hide Sends, After, Of;
    var sizes: seq<nat>, evs := [1, 0], [Arrival(0, r)];
    OnlyReply(r);
    assert Full(sizes, evs, 0) && !Full(sizes, evs, 1);
    assert Bounded(sizes, evs) by {
      forall g | 0 <= g < 2 ensures |Of(evs, g)| <= sizes[g] { assert g == 0 || g == 1; }
    }
    assert Fitting(Start(Set, [], sizes), evs);
    OneResponse(Set, [], sizes, evs);
  }

  /** One more reply: it completes the request exactly when it leaves every group full. */
  lemma CompletesIff(op: OpType, ops: seq<ValueOp>, sizes: seq<nat>, evs: seq<Arrival>, a: Arrival)
    requires op == Get ==> forall k :: 0 <= k < |ops| ==> ops[k] == FpAdd
    requires Fitting(Start(op, ops, sizes), evs + [a]) && Bounded(sizes, evs + [a])
    requires !(sizes != [] && forall g :: 0 <= g < |sizes| ==> Full(sizes, evs, g))
    ensures Fitting(Start(op, ops, sizes), evs)
    ensures a.grp < |sizes| && ReplyFits(op, |Start(op, ops, sizes).valueOp|, a.resp)
    ensures After(Start(op, ops, sizes), evs + [a]) == Absorb(After(Start(op, ops, sizes), evs), a)
    ensures Completes(After(Start(op, ops, sizes), evs), a) <==>
            sizes != [] && forall g :: 0 <= g < |sizes| ==> Full(sizes, evs + [a], g)
  {
    var all := evs + [a];
    assert all[..|all| - 1] == evs && all[|all| - 1] == a;
    FittingPrefix(Start(op, ops, sizes), evs, a);
    BoundedPrefix(sizes, all);
    OneResponse(op, ops, sizes, evs);
    OneResponse(op, ops, sizes, all);
  }

  lemma FittingPrefix(i: Info, evs: seq<Arrival>, a: Arrival)
    requires Fitting(i, evs + [a])
    ensures Fitting(i, evs) && a.grp < |i.grpInfo| && ReplyFits(i.op, |i.valueOp|, a.resp)
  {
    assert (evs + [a])[|evs|] == a;
    forall k | 0 <= k < |evs| ensures evs[k].grp < |i.grpInfo| && ReplyFits(i.op, |i.valueOp|, evs[k].resp) {
      assert (evs + [a])[k] == evs[k];
    }
  }

  /** Row g of the response holds the sums over the replies rs and the times of the last. */
  ghost predicate RowIs(r: Resp, g: nat, rs: seq<Resp>, n: nat) {
    && rs != [] && g < |r.value| && g < |r.timeStamp|
    && r.value[g] == Sums(rs, n)
    && r.timeStamp[g] == Times(rs[|rs| - 1])
  }

  /** Every row of a full group is the sum of its replies. */
  lemma {:induction false} RowsAreSums(ops: seq<ValueOp>, sizes: seq<nat>, evs: seq<Arrival>, g: nat)
    requires forall k :: 0 <= k < |ops| ==> ops[k] == FpAdd
    requires Fitting(Start(Get, ops, sizes), evs) && Bounded(sizes, evs)
    requires g < |sizes| && Full(sizes, evs, g)
    ensures RowIs(After(Start(Get, ops, sizes), evs).resp, g, Of(evs, g), |ops|)
    ensures forall c :: 0 <= c < |ops| ==> After(Start(Get, ops, sizes), evs).resp.value[g][c] == Sum(Cells(Of(evs, g), c))
    ensures forall k :: 0 <= k < |Of(evs, g)| ==> OneRowed(Of(evs, g)[k], |ops|)
    ensures var r, last := After(Start(Get, ops, sizes), evs).resp, Of(evs, g)[|Of(evs, g)| - 1];
            OneRowed(last, |ops|) && r.timeStamp[g] == last.timeStamp[0]
  {
    StoredRow(ops, sizes, evs, g);
    Countdown(Get, ops, sizes, evs);
    hide After, Start, Of, Sums;
    var i, rs := After(Start(Get, ops, sizes), evs), Of(evs, g);
    forall k | 0 <= k < |rs| ensures OneRowed(rs[k], |ops|) { assert ReplyFits(i.op, |i.valueOp|, i.respQ[g][k]); }
    forall c | 0 <= c < |ops| ensures i.resp.value[g][c] == Sum(Cells(rs, c)) { ColumnIsSum(rs, c); }
  }

  /** The first row of a reply has n values, the cells, and n times. */
  ghost predicate OneRowed(r: Resp, n: nat) {
    && |r.value| > 0 && |r.value[0]| == n && |r.timeStamp| > 0 && |r.timeStamp[0]| == n
    && forall c :: 0 <= c < n ==> Cell(r, c) == r.value[0][c]
  }

  lemma {:induction false} StoredRow(ops: seq<ValueOp>, sizes: seq<nat>, evs: seq<Arrival>, g: nat)
    requires forall k :: 0 <= k < |ops| ==> ops[k] == FpAdd
    requires Fitting(Start(Get, ops, sizes), evs) && Bounded(sizes, evs)
    requires g < |sizes| && Full(sizes, evs, g)
    ensures RowIs(After(Start(Get, ops, sizes), evs).resp, g, Of(evs, g), |ops|)
  {
    var before, a := evs[..|evs| - 1], evs[|evs| - 1];
    var i := After(Start(Get, ops, sizes), before);
    BoundedPrefix(sizes, evs);
    Countdown(Get, ops, sizes, before);
    OfStep(evs, g);
    if a.grp != g {
      StoredRow(ops, sizes, before, g);
    }
    OneRow(i, a, g);
    assert After(Start(Get, ops, sizes), evs) == Absorb(i, a);
  }

  /** One reply fills the row of its own group when it completes it, and no other. */
  lemma OneRow(i: Info, a: Arrival, g: nat)
    requires Shaped(i) && i.op == Get && a.grp < |i.grpInfo| && ReplyFits(i.op, |i.valueOp|, a.resp) && g < |i.grpInfo|
    ensures g != a.grp ==> forall rs {:trigger RowIs(Absorb(i, a).resp, g, rs, |i.valueOp|)} ::
              RowIs(Absorb(i, a).resp, g, rs, |i.valueOp|) <==> RowIs(i.resp, g, rs, |i.valueOp|)
    ensures g == a.grp && |i.respQ[g]| + 1 == i.grpInfo[g] ==>
              RowIs(Absorb(i, a).resp, g, i.respQ[g] + [a.resp], |i.valueOp|)
  {
  }

  /** A sum does not depend on the order of arrival. */
  lemma {:induction false} ColumnOrder(rs: seq<Resp>, ss: seq<Resp>, c: nat)
    requires multiset(rs) == multiset(ss)
    ensures Column(rs, c) == Column(ss, c)
  {
    if rs == [] {
      assert |multiset(ss)| == |ss|;
    } else {
      var x := rs[|rs| - 1];
      assert x in multiset(ss);
      var k :| 0 <= k < |ss| && ss[k] == x;
      var ss' := ss[..k] + ss[k + 1..];
      assert ss == ss[..k] + [x] + ss[k + 1..];
      assert rs == rs[..|rs| - 1] + [x];
      assert multiset(ss) == multiset(ss') + multiset{x};
      assert multiset(rs) == multiset(rs[..|rs| - 1]) + multiset{x};
      assert multiset(rs[..|rs| - 1]) == multiset(rs) - multiset{x};
      assert multiset(ss') == multiset(ss) - multiset{x};
      ColumnOrder(rs[..|rs| - 1], ss', c);
      ColumnWithout(ss, k, c);
    }
  }

  lemma {:induction false} ColumnWithout(ss: seq<Resp>, k: nat, c: nat)
    requires k < |ss|
    ensures Column(ss, c) == Column(ss[..k] + ss[k + 1..], c) + Cell(ss[k], c)
  {
    var rest := ss[..k] + ss[k + 1..];
    if k == |ss| - 1 {
      assert rest == ss[..|ss| - 1];
    } else {
      ColumnWithout(ss[..|ss| - 1], k, c);
      assert rest[..|rest| - 1] == ss[..|ss| - 1][..k] + ss[..|ss| - 1][k + 1..];
    }
  }

  // ----------------------------------------------------------------- errors

  ghost predicate InStep(r: Resp) { |r.errObj| == |r.errAttr| == |r.errValue| }

  datatype Problem = Problem(obj: string, attr: nat, code: int)

  /** The errors of a response, one by one. */
  ghost function Triples(r: Resp): multiset<Problem> {
    if InStep(r) then multiset(Zip(r.errObj, r.errAttr, r.errValue)) else multiset{}
  }

  ghost function Zip(a: seq<string>, b: seq<nat>, c: seq<int>): seq<Problem>
    requires |a| == |b| == |c|
  {
    seq(|a|, k requires 0 <= k < |a| => Problem(a[k], b[k], c[k]))
  }

  ghost function Errors(rs: seq<Resp>): multiset<Problem> {
    if rs == [] then multiset{} else Errors(rs[..|rs| - 1]) + Triples(rs[|rs| - 1])
  }

  ghost function Total(parts: seq<multiset<Problem>>): multiset<Problem> {
    if parts == [] then multiset{} else Total(parts[..|parts| - 1]) + parts[|parts| - 1]
  }

  lemma {:induction false} TotalUpdate(parts: seq<multiset<Problem>>, g: nat, x: multiset<Problem>)
    requires g < |parts| && parts[g] == multiset{}
    ensures Total(parts[g := x]) == Total(parts) + x
  {
    var n := |parts| - 1;
    if g == n {
      assert parts[g := x][..n] == parts[..n];
    } else {
      assert parts[g := x][..n] == parts[..n][g := x];
      TotalUpdate(parts[..n], g, x);
    }
  }

  lemma {:induction false} TotalNothing(parts: seq<multiset<Problem>>)
    requires forall k :: 0 <= k < |parts| ==> parts[k] == multiset{}
    ensures Total(parts) == multiset{}
  {
    if parts != [] { TotalNothing(parts[..|parts| - 1]); }
  }

  ghost function GroupErrors(sizes: seq<nat>, evs: seq<Arrival>, g: nat): multiset<Problem>
    requires g < |sizes|
  {
    if Full(sizes, evs, g) then Errors(Of(evs, g)) else multiset{}
  }

  ghost function Parts(sizes: seq<nat>, evs: seq<Arrival>): (parts: seq<multiset<Problem>>)
    ensures |parts| == |sizes| && forall g :: 0 <= g < |sizes| ==> parts[g] == GroupErrors(sizes, evs, g)
  {
    seq(|sizes|, g requires 0 <= g < |sizes| => GroupErrors(sizes, evs, g))
  }

  /** The errors of all full groups. */
  ghost function FullErrors(sizes: seq<nat>, evs: seq<Arrival>): multiset<Problem> { Total(Parts(sizes, evs)) }

  lemma FullErrorsStep(sizes: seq<nat>, evs: seq<Arrival>)
    requires evs != [] && Bounded(sizes, evs) && evs[|evs| - 1].grp < |sizes|
    ensures FullErrors(sizes, evs) == FullErrors(sizes, evs[..|evs| - 1]) + GroupErrors(sizes, evs, evs[|evs| - 1].grp)
  {
    var before, g := evs[..|evs| - 1], evs[|evs| - 1].grp;
    forall k | 0 <= k < |sizes|
      ensures GroupErrors(sizes, before, k) == if k == g then multiset{} else GroupErrors(sizes, evs, k)
    {
      OfStep(evs, k);
      assert |Of(evs, k)| <= sizes[k];
    }
    assert Parts(sizes, evs) == Parts(sizes, before)[g := GroupErrors(sizes, evs, g)];
    TotalUpdate(Parts(sizes, before), g, GroupErrors(sizes, evs, g));
  }

  lemma OfStep(evs: seq<Arrival>, g: nat)
    requires evs != []
    ensures Of(evs, g) == if evs[|evs| - 1].grp == g then Of(evs[..|evs| - 1], g) + [evs[|evs| - 1].resp] else Of(evs[..|evs| - 1], g)
  {}

  lemma {:induction false} ListsInStep(rs: seq<Resp>)
    requires forall r :: r in rs ==> InStep(r)
    ensures |ErrObjs(rs)| == |ErrAttrs(rs)| == |ErrValues(rs)|
    ensures multiset(Zip(ErrObjs(rs), ErrAttrs(rs), ErrValues(rs))) == Errors(rs)
  {
    if rs != [] {
      ListsInStep(rs[..|rs| - 1]);
      var l := rs[|rs| - 1];
      assert InStep(l);
      ZipConcat(ErrObjs(rs[..|rs| - 1]), ErrAttrs(rs[..|rs| - 1]), ErrValues(rs[..|rs| - 1]), l.errObj, l.errAttr, l.errValue);
    }
  }

  lemma ZipConcat(a: seq<string>, b: seq<nat>, c: seq<int>, a': seq<string>, b': seq<nat>, c': seq<int>)
    requires |a| == |b| == |c| && |a'| == |b'| == |c'|
    ensures Zip(a + a', b + b', c + c') == Zip(a, b, c) + Zip(a', b', c')
  {}

  lemma NoErrors(op: OpType, ops: seq<ValueOp>, sizes: seq<nat>)
    requires op == Get ==> forall k :: 0 <= k < |ops| ==> ops[k] == FpAdd
    ensures InStep(After(Start(op, ops, sizes), []).resp) && Triples(After(Start(op, ops, sizes), []).resp) == FullErrors(sizes, [])
  {
    TotalNothing(Parts(sizes, []));
  }

  /** The three error lists of the response stay in step and hold every error of every
      full group, each once. */
  lemma {:induction false} AllErrorsKept(op: OpType, ops: seq<ValueOp>, sizes: seq<nat>, evs: seq<Arrival>)
    requires op == Get ==> forall k :: 0 <= k < |ops| ==> ops[k] == FpAdd
    requires Fitting(Start(op, ops, sizes), evs) && Bounded(sizes, evs)
    ensures var r := After(Start(op, ops, sizes), evs).resp;
            InStep(r) && Triples(r) == FullErrors(sizes, evs)
  {
    hide Triples, FullErrors, Errors, Absorb;
    if evs == [] {
      NoErrors(op, ops, sizes);
    } else {
      var before, a := evs[..|evs| - 1], evs[|evs| - 1];
      var i := After(Start(op, ops, sizes), before);
      BoundedPrefix(sizes, evs);
      AllErrorsKept(op, ops, sizes, before);
      Countdown(op, ops, sizes, before);
      assert i.respQ[a.grp] == Of(before, a.grp);
      FullErrorsStep(sizes, evs);
      OfStep(evs, a.grp);
      OneAppend(i, a);
    }
  }

  /** The errors of one reply's group are appended when the group becomes full. */
  lemma OneAppend(i: Info, a: Arrival)
    requires Shaped(i) && a.grp < |i.grpInfo| && ReplyFits(i.op, |i.valueOp|, a.resp) && InStep(i.resp)
    ensures InStep(Absorb(i, a).resp)
    ensures Triples(Absorb(i, a).resp) == Triples(i.resp) +
            if |i.respQ[a.grp]| + 1 == i.grpInfo[a.grp] then Errors(i.respQ[a.grp] + [a.resp]) else multiset{}
  {
    var rs := i.respQ[a.grp] + [a.resp];
    forall r | r in rs ensures InStep(r) {
      var k :| 0 <= k < |rs| && rs[k] == r;
      if k < |i.respQ[a.grp]| { assert ReplyFits(i.op, |i.valueOp|, i.respQ[a.grp][k]); }
    }
    ListsInStep(rs);
    ZipConcat(i.resp.errObj, i.resp.errAttr, i.resp.errValue, ErrObjs(rs), ErrAttrs(rs), ErrValues(rs));
  }
}
