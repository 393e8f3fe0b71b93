/** A server's own code: how a CommReq it takes is answered, whether it ends at once, with a
    local error, or later through makeProgress; and when a callback runs too often. */
module ServerNode {
  import opened Fabric
  import opened Aggregation
  import D = Distribution
  import opened Common
  import Protocol

  type Packets = seq<Packet<Protocol.Body>>

  /** PWR_RET_SUCCESS and PWR_RET_INVALID. */
  const SUCCESS: int := 0
  const INVALID: int := -4

  /** An attribute of the object asked: its communicator, if its values are remote, and its
      devices. */
  datatype Attr = Attr(name: nat, comm: Option<nat>, devs: seq<D.DevRef>)

  /** AttrInfo::isValid. */
  predicate IsValid(a: Attr) { a.devs != [] || a.comm.Some? }

  function CodeOf(read: D.DevRef -> D.Reading, a: Attr): int {
    if IsValid(a) then D.FirstFailure(read, a.devs) else INVALID
  }

  /** The code of an attribute: -4 for one that is neither local nor remote, else that of its
      first device that fails, else 0. */
  lemma CodeIs(read: D.DevRef -> D.Reading, a: Attr)
    ensures a.devs == [] ==> CodeOf(read, a) == if a.comm.None? then -4 else 0
    ensures a.devs != [] ==> (CodeOf(read, a) == 0 <==> forall d :: d in a.devs ==> read(d).code == 0)
    ensures forall k :: 0 <= k < |a.devs| && read(a.devs[k]).code != 0 && (forall j :: 0 <= j < k ==> read(a.devs[j]).code == 0)
                        ==> CodeOf(read, a) == read(a.devs[k]).code
  {
    if a.devs != [] {
      var code := D.FirstFailure(read, a.devs);
      forall k | 0 <= k < |a.devs| && read(a.devs[k]).code != 0 && (forall j :: 0 <= j < k ==> read(a.devs[j]).code == 0)
        ensures code == read(a.devs[k]).code
      {
        assert a.devs[k] in a.devs;
        var i :| 0 <= i < |a.devs| && read(a.devs[i]).code == code && forall j :: 0 <= j < i ==> read(a.devs[j]).code == 0;
        assert i == k;
      }
    }
  }

  /** The first k attributes succeed. */
  ghost predicate Clean(read: D.DevRef -> D.Reading, attrs: seq<Attr>, k: nat) {
    forall i :: 0 <= i < k && i < |attrs| ==> CodeOf(read, attrs[i]) == SUCCESS
  }

  /** The row of values read: those up to the first attribute that fails; the others stay 0. */
  ghost predicate LocalRow(read: D.DevRef -> D.Reading, attrs: seq<Attr>, row: seq<real>) {
    |row| == |attrs| && forall i :: 0 <= i < |attrs| ==> row[i] == if Clean(read, attrs, i) then D.Value(read, attrs[i].devs) else 0.0
  }

  /** Object::attrSetValuesDevice; read gives the code of writing a device. */
  method SetDevices(read: D.DevRef -> D.Reading, devs: seq<D.DevRef>) returns (code: int)
    ensures code == D.FirstFailure(read, devs)
  {
    var i := 0;
    while i < |devs|
      invariant 0 <= i <= |devs| && D.FirstFailure(read, devs) == D.FirstFailure(read, devs[i..])
    {
      if read(devs[i]).code != SUCCESS { return read(devs[i]).code; }
      assert devs[i..][1..] == devs[i + 1..];
      i := i + 1;
    }
    return SUCCESS;
  }

  /** Object::attrGetValues and attrSetValues of object self: the first attribute that fails
      ends the loop, and values that were not read stay 0. */
  method LocalValues(self: string, op: OpType, read: D.DevRef -> D.Reading, attrs: seq<Attr>) returns (status: seq<Trouble>, row: seq<real>)
    ensures status == [] <==> Clean(read, attrs, |attrs|)
    ensures status != [] ==> exists k :: 0 <= k < |attrs| && Clean(read, attrs, k) && CodeOf(read, attrs[k]) != SUCCESS
                                         && status == [Trouble(self, attrs[k].name, CodeOf(read, attrs[k]))]
    ensures |row| == |attrs| && if op == Get then LocalRow(read, attrs, row) else forall i :: 0 <= i < |attrs| ==> row[i] == 0.0
  {
    hide D.FirstFailure, D.Value;
    row := seq(|attrs|, i => 0.0);
    var i := 0;
    while i < |attrs|
      invariant 0 <= i <= |attrs| == |row| && Clean(read, attrs, i)
      invariant forall j :: 0 <= j < |attrs| ==> row[j] == if op == Get && j < i then D.Value(read, attrs[j].devs) else 0.0
    {
      if !IsValid(attrs[i]) {
        D.AllWork(read, attrs[i].devs);
        assert D.Value(read, attrs[i].devs) == 0.0 && !Clean(read, attrs, i + 1);
        status := [Trouble(self, attrs[i].name, INVALID)];
        return;
      }
      var code, value := 0, 0.0;
      if op == Get { code, value := D.ReadDevices(read, attrs[i].devs); } else { code := SetDevices(read, attrs[i].devs); }
      if op == Get { row := row[i := value]; }
      if code != SUCCESS {
        assert !Clean(read, attrs, i + 1);
        status := [Trouble(self, attrs[i].name, code)];
        return;
      }
      i := i + 1;
    }
    status := [];
  }

  // -------------------------------------------------- what DistObject asserts

  /** DistObject::attrGetValues asserts that all attributes asked for have one communicator. */
  ghost predicate SameComm(attrs: seq<Attr>) { forall i :: 0 <= i < |attrs| ==> attrs[i].comm == attrs[0].comm }

  /** DistObject's constructor asserts that no attribute has both. */
  ghost predicate Exclusive(attrs: seq<Attr>) { forall i :: 0 <= i < |attrs| ==> attrs[i].comm.None? || attrs[i].devs == [] }

  /** A local error meets an outstanding remote request. */
  ghost predicate Clash(read: D.DevRef -> D.Reading, attrs: seq<Attr>)
    requires attrs != []
  {
    attrs[0].comm.Some? && !Clean(read, attrs, |attrs|)
  }

  /** The two assertions rule that out: a remote attribute is valid and has no device to fail. */
  lemma ExclusiveNeverClash(read: D.DevRef -> D.Reading, attrs: seq<Attr>)
    requires attrs != [] && SameComm(attrs) && Exclusive(attrs)
    ensures !Clash(read, attrs)
  {
    if attrs[0].comm.Some? {
      forall i | 0 <= i < |attrs| ensures CodeOf(read, attrs[i]) == SUCCESS {
        assert attrs[i].comm == attrs[0].comm;
      }
    }
  }

  /** Without the constructor's: a mixed attribute whose device fails. */
  lemma MixedClash(read: D.DevRef -> D.Reading, d: D.DevRef)
    requires read(d).code != SUCCESS
    ensures SameComm([Attr(0, Some(1), [d])]) && Clash(read, [Attr(0, Some(1), [d])])
  {
    assert CodeOf(read, [Attr(0, Some(1), [d])][0]) != SUCCESS;
  }

  // ---------------------------------------------------------------- answers

  /** Answer a is the reply to request p, with some response. */
  ghost predicate Replies(a: Packet<Protocol.Body>, p: Packet<Protocol.Body>) {
    p.body.Req? && a.body.Reply? && a == Protocol.Answered(p, a.body.resp)
  }

  function Objs(s: seq<Trouble>): seq<string> { seq(|s|, i requires 0 <= i < |s| => s[i].obj) }

  function Names(s: seq<Trouble>): seq<nat> { seq(|s|, i requires 0 <= i < |s| => s[i].attr) }

  function Codes(s: seq<Trouble>): seq<int> { seq(|s|, i requires 0 <= i < |s| => s[i].code) }

  /** The response with these errors at the end of its lists. */
  function WithErrors(r: Resp, s: seq<Trouble>): Resp {
    r.(errObj := r.errObj + Objs(s), errAttr := r.errAttr + Names(s), errValue := r.errValue + Codes(s))
  }

  lemma OneError(r: Resp, s: seq<Trouble>, t: Trouble)
    ensures WithErrors(r, s + [t])
         == WithErrors(r, s).(errObj := WithErrors(r, s).errObj + [t.obj], errAttr := WithErrors(r, s).errAttr + [t.attr],
                              errValue := WithErrors(r, s).errValue + [t.code])
  {
    assert Objs(s + [t]) == Objs(s) + [t.obj] && Names(s + [t]) == Names(s) + [t.attr] && Codes(s + [t]) == Codes(s) + [t.code];
    assert r.errObj + (Objs(s) + [t.obj]) == (r.errObj + Objs(s)) + [t.obj];
    assert r.errAttr + (Names(s) + [t.attr]) == (r.errAttr + Names(s)) + [t.attr];
    assert r.errValue + (Codes(s) + [t.code]) == (r.errValue + Codes(s)) + [t.code];
  }

  lemma NoError(r: Resp)
    ensures WithErrors(r, []) == r
  {
    assert r.errObj + Objs([]) == r.errObj && r.errAttr + Names([]) == r.errAttr && r.errValue + Codes([]) == r.errValue;
  }

  /** m_respEvent before anything is read. */
  function Blank(op: OpType, n: nat): Resp {
    if op == Get then Resp([seq(n, i => 0)], [seq(n, i => 0.0)], [], [], []) else Resp([], [], [], [], [])
  }

  /** DistRequest::getValue or setValue of the server's own request, as to the values. */
  function Filled(r: Resp, op: OpType, reply: Resp): Resp {
    if op == Get && |r.value| > 0 && |r.timeStamp| > 0 && |reply.value| > 0 && |reply.timeStamp| > 0
    then r.(value := r.value[0 := reply.value[0]], timeStamp := r.timeStamp[0 := reply.timeStamp[0]]) else r
  }

  function TroublesOf(reply: Resp): seq<Trouble>
    requires InStep(reply)
  {
    seq(|reply.errValue|, i requires 0 <= i < |reply.errValue| => Trouble(reply.errObj[i], reply.errAttr[i], reply.errValue[i]))
  }

  // -------------------------------------------------------------- the books

  /** The requests received; for each the key of its event while it is in hand, or the index
      of its answer; how often requestFini has run for it; and the keys in hand, in order. */
  datatype Book = Book(received: Packets, number: map<nat, nat>, keyOf: map<nat, nat>,
                       answered: seq<nat>, answerOf: map<nat, nat>, calls: seq<nat>, hand: seq<nat>)

  const NOTHING: Book := Book([], map[], map[], [], map[], [], [])

  /** Each request received is in hand, or was answered; never both, and never twice. */
  ghost predicate Kept(b: Book, fini: map<nat, Packet<Protocol.Body>>, sent: Packets) {
    && |b.calls| == |b.received|
    && (forall n: nat :: n in b.keyOf.Keys || n in b.answerOf.Keys <==> n < |b.received|)
    && (forall n: nat :: !(n in b.keyOf.Keys && n in b.answerOf.Keys))
    && (forall n: nat :: n in b.keyOf.Keys ==> HandOk(b, fini, n))
    && (forall k: nat :: k in fini.Keys ==> k in b.number.Keys && b.number[k] in b.keyOf.Keys && b.keyOf[b.number[k]] == k)
    && |b.answered| == |sent|
    && (forall n: nat :: n in b.answerOf.Keys ==> AnswerOk(b, sent, n))
    && (forall i :: 0 <= i < |sent| ==> b.answered[i] in b.answerOf.Keys && b.answerOf[b.answered[i]] == i)
  }

  ghost predicate HandOk(b: Book, fini: map<nat, Packet<Protocol.Body>>, n: nat)
    requires n in b.keyOf.Keys
  {
    && b.keyOf[n] in b.number.Keys && b.number[b.keyOf[n]] == n && n < |b.received| == |b.calls| && b.calls[n] == 0
    && b.keyOf[n] in fini.Keys && fini[b.keyOf[n]] == b.received[n]
  }

  ghost predicate AnswerOk(b: Book, sent: Packets, n: nat)
    requires n in b.answerOf.Keys
  {
    && b.answerOf[n] < |b.answered| == |sent| && b.answered[b.answerOf[n]] == n && n < |b.received| == |b.calls| && b.calls[n] > 0
    && Replies(sent[b.answerOf[n]], b.received[n])
  }

  /** requestFini has run once for each request answered. */
  ghost predicate Once(b: Book) { forall n: nat :: n in b.answerOf.Keys && n < |b.calls| ==> b.calls[n] == 1 }

  ghost function Noted(b: Book, key: nat, p: Packet<Protocol.Body>): Book {
    var n := |b.received|;
    b.(received := b.received + [p], number := b.number[key := n], keyOf := b.keyOf[n := key], calls := b.calls + [0], hand := b.hand + [key])
  }

  lemma NotedKept(b: Book, fini: map<nat, Packet<Protocol.Body>>, sent: Packets, key: nat, p: Packet<Protocol.Body>)
    requires Kept(b, fini, sent) && key !in fini.Keys
    ensures Kept(Noted(b, key, p), fini[key := p], sent) && (Once(b) ==> Once(Noted(b, key, p)))
  {
    hide Replies;
    var b', n' := Noted(b, key, p), |b.received|;
    forall n: nat | n in b'.keyOf.Keys ensures HandOk(b', fini[key := p], n) {
      if n != n' { assert HandOk(b, fini, n); }
    }
    forall n: nat | n in b'.answerOf.Keys ensures AnswerOk(b', sent, n) && b'.calls[n] == b.calls[n] { assert AnswerOk(b, sent, n); }
  }

  /** Request n was answered: requestFini ran for it. */
  ghost function Closed(b: Book, key: nat): Book
    requires key in b.number.Keys && b.number[key] < |b.calls| && key in b.hand
  {
    var n := b.number[key];
    var i := IndexOf(b.hand, key);
    b.(number := b.number - {key}, keyOf := b.keyOf - {n}, answered := b.answered + [n], answerOf := b.answerOf[n := |b.answered|],
       calls := b.calls[n := b.calls[n] + 1], hand := b.hand[..i] + b.hand[i + 1..])
  }

  /** requestFini ran for request n, which was not in hand. */
  ghost function CalledAgain(b: Book, n: nat): Book
    requires n < |b.calls|
  {
    b.(calls := b.calls[n := b.calls[n] + 1])
  }

  lemma ClosedKept(b: Book, fini: map<nat, Packet<Protocol.Body>>, sent: Packets, key: nat, a: Packet<Protocol.Body>)
    requires Kept(b, fini, sent) && key in fini.Keys && key in b.hand && Replies(a, fini[key])
    ensures key in b.number.Keys && b.number[key] < |b.calls| && b.calls[b.number[key]] == 0
    ensures Kept(Closed(b, key), fini - {key}, sent + [a]) && (Once(b) ==> Once(Closed(b, key)))
  {
    hide Replies;
    assert HandOk(b, fini, b.number[key]);
    var b', sent' := Closed(b, key), sent + [a];
    forall n: nat | n in b'.keyOf.Keys ensures HandOk(b', fini - {key}, n) { assert HandOk(b, fini, n); }
    forall n: nat | n in b'.answerOf.Keys ensures AnswerOk(b', sent', n) && b'.calls[n] == if n == b.number[key] then 1 else b.calls[n] {
      if n != b.number[key] { assert AnswerOk(b, sent, n); }
    }
    forall i | 0 <= i < |sent'| ensures b'.answered[i] in b'.answerOf.Keys && b'.answerOf[b'.answered[i]] == i {}
  }

  lemma CalledKept(b: Book, fini: map<nat, Packet<Protocol.Body>>, sent: Packets, n: nat)
    requires Kept(b, fini, sent) && n < |b.calls| && n !in b.keyOf.Keys
    ensures Kept(CalledAgain(b, n), fini, sent)
  {
    hide Replies;
    var b' := CalledAgain(b, n);
    forall m: nat | m in b'.keyOf.Keys ensures HandOk(b', fini, m) { assert HandOk(b, fini, m); }
    forall m: nat | m in b'.answerOf.Keys ensures AnswerOk(b', sent, m) { assert AnswerOk(b, sent, m); }
  }

  // --------------------------------------------------- the requests in hand

  ghost predicate InHand(hand: seq<nat>, fini: map<nat, Packet<Protocol.Body>>) {
    && (forall i, j :: 0 <= i < j < |hand| ==> hand[i] != hand[j])
    && (forall i :: 0 <= i < |hand| ==> hand[i] in fini.Keys)
    && (forall k: nat :: k in fini.Keys ==> k in hand)
  }

  ghost function IndexOf(hand: seq<nat>, key: nat): (i: nat)
    requires key in hand
    ensures i < |hand| && hand[i] == key
  {
    if hand[0] == key then 0 else 1 + IndexOf(hand[1..], key)
  }

  /** The requests in hand, in the order in which they came. */
  ghost function Held(hand: seq<nat>, fini: map<nat, Packet<Protocol.Body>>): Packets {
    seq(|hand|, i requires 0 <= i < |hand| => if hand[i] in fini.Keys then fini[hand[i]] else Protocol.NOWHERE)
  }

  lemma HeldMore(hand: seq<nat>, fini: map<nat, Packet<Protocol.Body>>, key: nat, p: Packet<Protocol.Body>)
    requires InHand(hand, fini) && key !in fini.Keys
    ensures InHand(hand + [key], fini[key := p]) && Held(hand + [key], fini[key := p]) == Held(hand, fini) + [p]
  {}

  lemma HeldLess(hand: seq<nat>, fini: map<nat, Packet<Protocol.Body>>, i: nat)
    requires InHand(hand, fini) && i < |hand|
    ensures InHand(hand[..i] + hand[i + 1..], fini - {hand[i]})
    ensures Held(hand[..i] + hand[i + 1..], fini - {hand[i]}) == Held(hand, fini)[..i] + Held(hand, fini)[i + 1..]
    ensures Held(hand, fini)[i] == fini[hand[i]]
  {
    HandLess(hand, fini, i);
    hide InHand;
    HeldWithout(hand, fini, i);
  }

  lemma HandLess(hand: seq<nat>, fini: map<nat, Packet<Protocol.Body>>, i: nat)
    requires InHand(hand, fini) && i < |hand|
    ensures InHand(hand[..i] + hand[i + 1..], fini - {hand[i]}) && hand[i] in fini.Keys
    ensures forall j :: 0 <= j < |hand| && j != i ==> hand[j] != hand[i]
  {
    var rest := hand[..i] + hand[i + 1..];
    forall k: nat | k in (fini - {hand[i]}).Keys ensures k in rest {
      var j :| 0 <= j < |hand| && hand[j] == k;
      assert rest[if j < i then j else j - 1] == k;
    }
  }

  lemma HeldWithout(hand: seq<nat>, fini: map<nat, Packet<Protocol.Body>>, i: nat)
    requires i < |hand| && hand[i] in fini.Keys && forall j :: 0 <= j < |hand| && j != i ==> hand[j] != hand[i]
    ensures Held(hand[..i] + hand[i + 1..], fini - {hand[i]}) == Held(hand, fini)[..i] + Held(hand, fini)[i + 1..]
    ensures Held(hand, fini)[i] == fini[hand[i]]
  {
    var rest, less := hand[..i] + hand[i + 1..], fini - {hand[i]};
    forall j | 0 <= j < |rest| ensures Held(rest, less)[j] == Held(hand, fini)[if j < i then j else j + 1] {
      assert rest[j] == hand[if j < i then j else j + 1];
    }
  }

  /** A request that comes and is answered at once leaves the others as they were. */
  lemma HandRound(hand: seq<nat>, fini: map<nat, Packet<Protocol.Body>>, key: nat, p: Packet<Protocol.Body>)
    requires InHand(hand, fini) && key !in fini.Keys
    ensures var i := IndexOf(hand + [key], key); (hand + [key])[..i] + (hand + [key])[i + 1..] == hand
    ensures fini[key := p] - {key} == fini
  {
    var i := IndexOf(hand + [key], key);
    forall j | 0 <= j < |hand| ensures (hand + [key])[j] != key {}
  }

  lemma Counts(b: Book, fini: map<nat, Packet<Protocol.Body>>, sent: Packets)
    requires Kept(b, fini, sent)
    ensures |b.calls| == |b.received| && forall n: nat :: n in b.keyOf.Keys ==> n < |b.received|
  {}

  /** The books of a request that comes, and of one that comes and is answered. */
  lemma Rounds(b: Book, fini: map<nat, Packet<Protocol.Body>>, sent: Packets, key: nat, p: Packet<Protocol.Body>)
    requires Kept(b, fini, sent) && InHand(b.hand, fini) && key !in fini.Keys
    ensures var b' := Noted(b, key, p);
            && b'.received == b.received + [p] && b'.calls == b.calls + [0] && b'.hand == b.hand + [key]
            && |b.calls| == |b.received| && key in b'.number.Keys && b'.number[key] == |b.received| && key in b'.hand
            && Closed(b', key).received == b.received + [p] && Closed(b', key).calls == b.calls + [1] && Closed(b', key).hand == b.hand
  {
    Counts(b, fini, sent);
    HandRound(b.hand, fini, key, p);
    hide Kept, InHand, IndexOf;
    NewCall(b.calls);
  }

  lemma NewCall(calls: seq<nat>)
    ensures var more := calls + [0]; more[|calls|] == 0 && more[|calls| := 1] == calls + [1]
  {}

  // ------------------------------------------------- what is still to come

  /** A response prepared for each request in hand, with no errors yet. */
  ghost predicate Ready(fini: map<nat, Packet<Protocol.Body>>, respEvent: map<nat, Resp>) {
    forall k: nat :: k in fini.Keys ==> k in respEvent.Keys && RespOk(fini[k], respEvent[k])
  }

  ghost predicate RespOk(p: Packet<Protocol.Body>, r: Resp) {
    p.body.Req? && ReplyFits(p.body.op, p.body.n, r) && r.errObj == [] && r.errAttr == [] && r.errValue == []
  }

  /** What is in hand waits for a response of the server's own context; a response that is
      still to come is for the request that asked, which may be answered already. */
  ghost predicate Outstanding(b: Book, fini: map<nat, Packet<Protocol.Body>>, commReqs: map<nat, nat>, asker: map<nat, nat>,
                          waits: map<nat, nat>, status: map<nat, seq<Trouble>>) {
    && (forall r: nat :: r in commReqs.Keys ==> AskerOk(b, fini, commReqs, asker, waits, r))
    && (forall k: nat :: k in fini.Keys ==> k in waits.Keys && waits[k] in commReqs.Keys && commReqs[waits[k]] == k && k in status.Keys && status[k] == [])
  }

  ghost predicate AskerOk(b: Book, fini: map<nat, Packet<Protocol.Body>>, commReqs: map<nat, nat>, asker: map<nat, nat>, waits: map<nat, nat>, r: nat)
    requires r in commReqs.Keys
  {
    && r in asker.Keys && asker[r] < |b.calls|
    && (asker[r] in b.keyOf.Keys ==> b.keyOf[asker[r]] == commReqs[r])
    && (commReqs[r] in fini.Keys ==> commReqs[r] in b.number.Keys && b.number[commReqs[r]] == asker[r] && commReqs[r] in waits.Keys && waits[commReqs[r]] == r)
  }

  lemma OutstandingNew(b: Book, fini: map<nat, Packet<Protocol.Body>>, commReqs: map<nat, nat>, asker: map<nat, nat>, waits: map<nat, nat>,
                   status: map<nat, seq<Trouble>>, key: nat, p: Packet<Protocol.Body>, r: nat)
    requires Outstanding(b, fini, commReqs, asker, waits, status) && |b.calls| == |b.received|
    requires key !in fini.Keys && r !in commReqs.Keys && Unused(commReqs, key)
    requires forall n: nat :: n in b.keyOf.Keys ==> n < |b.received|
    ensures Outstanding(Noted(b, key, p), fini[key := p], commReqs[r := key], asker[r := |b.received|], waits[key := r], status[key := []])
  {
    var b', fini', reqs, asked, forReq := Noted(b, key, p), fini[key := p], commReqs[r := key], asker[r := |b.received|], waits[key := r];
    forall q: nat | q in reqs.Keys ensures AskerOk(b', fini', reqs, asked, forReq, q) {
      if q != r { assert AskerOk(b, fini, commReqs, asker, waits, q); }
    }
  }

  /** A request answered at once: nothing else is affected. */
  lemma OutstandingLocal(b: Book, fini: map<nat, Packet<Protocol.Body>>, commReqs: map<nat, nat>, asker: map<nat, nat>, waits: map<nat, nat>,
                     status: map<nat, seq<Trouble>>, key: nat, p: Packet<Protocol.Body>)
    requires Outstanding(b, fini, commReqs, asker, waits, status) && |b.calls| == |b.received| && key !in fini.Keys
    requires forall n: nat :: n in b.keyOf.Keys ==> n < |b.received|
    ensures Outstanding(Closed(Noted(b, key, p), key), fini, commReqs, asker, waits, status[key := []] - {key})
  {
    var b' := Closed(Noted(b, key, p), key);
    forall q: nat | q in commReqs.Keys ensures AskerOk(b', fini, commReqs, asker, waits, q) {
      assert AskerOk(b, fini, commReqs, asker, waits, q);
    }
  }

  /** A request answered while its response is still to come. */
  lemma OutstandingAnswered(b: Book, fini: map<nat, Packet<Protocol.Body>>, commReqs: map<nat, nat>, asker: map<nat, nat>, waits: map<nat, nat>,
                            status: map<nat, seq<Trouble>>, key: nat, remote: bool)
    requires remote ==> Outstanding(b, fini, commReqs, asker, waits, status)
    requires key in b.number.Keys && b.number[key] < |b.calls| && key in b.hand
    ensures remote ==> Outstanding(Closed(b, key), fini - {key}, commReqs, asker, waits, status - {key})
  {
    forall q: nat | remote && q in commReqs.Keys ensures AskerOk(Closed(b, key), fini - {key}, commReqs, asker, waits, q) {
      assert AskerOk(b, fini, commReqs, asker, waits, q);
    }
  }

  /** A response came: it is no longer to come. */
  lemma OutstandingLess(b: Book, fini: map<nat, Packet<Protocol.Body>>, commReqs: map<nat, nat>, asker: map<nat, nat>, waits: map<nat, nat>,
                    status: map<nat, seq<Trouble>>, r: nat)
    requires Outstanding(b, fini, commReqs, asker, waits, status) && r in commReqs.Keys && commReqs[r] !in fini.Keys
    ensures Outstanding(b, fini, commReqs - {r}, asker, waits, status)
  {
    forall q: nat | q in (commReqs - {r}).Keys ensures AskerOk(b, fini, commReqs - {r}, asker, waits, q) {
      assert AskerOk(b, fini, commReqs, asker, waits, q);
    }
  }

  lemma OutstandingCalled(b: Book, fini: map<nat, Packet<Protocol.Body>>, commReqs: map<nat, nat>, asker: map<nat, nat>, waits: map<nat, nat>,
                      status: map<nat, seq<Trouble>>, n: nat)
    requires Outstanding(b, fini, commReqs, asker, waits, status) && n < |b.calls|
    ensures Outstanding(CalledAgain(b, n), fini, commReqs, asker, waits, status)
  {
    forall q: nat | q in commReqs.Keys ensures AskerOk(CalledAgain(b, n), fini, commReqs, asker, waits, q) {
      assert AskerOk(b, fini, commReqs, asker, waits, q);
    }
  }

  /** The response for a request in hand came, and it is answered. */
  lemma OutstandingDone(b: Book, fini: map<nat, Packet<Protocol.Body>>, commReqs: map<nat, nat>, asker: map<nat, nat>, waits: map<nat, nat>,
                        status: map<nat, seq<Trouble>>, errors: seq<Trouble>, r: nat)
    requires Outstanding(b, fini, commReqs, asker, waits, status) && r in commReqs.Keys && commReqs[r] in fini.Keys
    requires commReqs[r] in b.number.Keys && b.number[commReqs[r]] < |b.calls| && commReqs[r] in b.hand
    ensures Outstanding(Closed(b, commReqs[r]), fini - {commReqs[r]}, commReqs - {r}, asker, waits, status[commReqs[r] := errors] - {commReqs[r]})
  {
    var key, reqs := commReqs[r], commReqs - {r};
    forall q: nat | q in reqs.Keys ensures AskerOk(Closed(b, key), fini - {key}, reqs, asker, waits, q) {
      assert AskerOk(b, fini, commReqs, asker, waits, q);
    }
  }

  /** No response is to come for an event of this address. */
  ghost predicate Unused(commReqs: map<nat, nat>, key: nat) { forall r: nat :: r in commReqs.Keys ==> commReqs[r] != key }

  ghost predicate NoneStale(fini: map<nat, Packet<Protocol.Body>>, commReqs: map<nat, nat>) {
    forall r: nat :: r in commReqs.Keys ==> commReqs[r] in fini.Keys
  }

  lemma NoneStaleMore(fini: map<nat, Packet<Protocol.Body>>, commReqs: map<nat, nat>, key: nat, p: Packet<Protocol.Body>, r: nat)
    requires NoneStale(fini, commReqs)
    ensures NoneStale(fini[key := p], commReqs[r := key])
  {}

  // ------------------------------------------------------------- the server

  class Server {
    /** The RouterEvent that each CommReq came in, by the CommReq's address. */
    var finiMap: map<nat, Packet<Protocol.Body>>
    /** m_status and m_respEvent of each request in hand. */
    var status: map<nat, seq<Trouble>>
    var respEvent: map<nat, Resp>
    /** Each outstanding CommReq of the server's own context, and the request it is for. */
    var commReqs: map<nat, nat>
    /** What the server has sent its router. */
    var sent: Packets
    /** The assertion of Server::fini has failed. */
    var aborted: bool
    ghost var book: Book
    ghost var asker: map<nat, nat>
    ghost var waits: map<nat, nat>

    ghost predicate Valid()
      reads this
    {
      && Kept(book, finiMap, sent) && InHand(book.hand, finiMap) && Ready(finiMap, respEvent)
      && (!aborted ==> Once(book))
    }

    /** Between events. */
    ghost predicate Settled()
      reads this
    {
      Valid() && Outstanding(book, finiMap, commReqs, asker, waits, status)
    }

    /** No response is to come for a request that has been answered. */
    ghost predicate Fresh()
      reads this
    {
      NoneStale(finiMap, commReqs)
    }

    /** The requests in hand, in order. */
    ghost function Hand(): Packets
      reads this
    {
      Held(book.hand, finiMap)
    }

    constructor ()
      ensures Settled() && Fresh() && !aborted && Hand() == [] && sent == [] && book == NOTHING
    {
      finiMap, status, respEvent, commReqs, sent, aborted := map[], map[], map[], map[], [], false;
      book, asker, waits := NOTHING, map[], map[];
    }

    /** Server::initFini for a new CommReq, with PWR_StatusCreate and its response prepared. */
    method InitFini(key: nat, p: Packet<Protocol.Body>)
      requires Valid() && !aborted && key !in finiMap.Keys && p.body.Req?
      modifies this`finiMap, this`status, this`respEvent, this`book
      ensures Valid() && finiMap == old(finiMap)[key := p] && status == old(status)[key := []] && book == Noted(old(book), key, p)
      ensures respEvent == old(respEvent)[key := Blank(p.body.op, p.body.n)]
    {
      hide Kept, Once, Replies;
      NotedKept(book, finiMap, sent, key, p);
      HeldMore(book.hand, finiMap, key, p);
      finiMap, status, respEvent := finiMap[key := p], status[key := []], respEvent[key := Blank(p.body.op, p.body.n)];
      book := Noted(book, key, p);
    }

    /** requestFini with Server::fini for request n.  If its event is in the map, the Status
        becomes the reply's errors, the reply goes out and the request is forgotten; if it
        is not, the assertion of fini fails. */
    method RequestFini(key: nat, ghost n: nat)
      requires Valid() && !aborted && n < |book.calls|
      requires key in finiMap.Keys ==> key in status.Keys && key in book.number.Keys && book.number[key] == n
      requires key !in finiMap.Keys ==> n !in book.keyOf.Keys
      modifies this`finiMap, this`status, this`respEvent, this`sent, this`aborted, this`book
      ensures Valid() && (aborted <==> key !in old(finiMap).Keys)
      ensures !aborted ==>
        && key in old(book).hand && key in old(book).number.Keys && old(book).number[key] < |old(book).calls| && old(book).calls[n] == 0
        && book == Closed(old(book), key) && finiMap == old(finiMap) - {key} && status == old(status) - {key}
        && key in old(respEvent) && old(finiMap)[key].body.Req?
        && sent == old(sent) + [Protocol.Answered(old(finiMap)[key], WithErrors(old(respEvent)[key], old(status)[key]))]
      ensures aborted ==> finiMap == old(finiMap) && status == old(status) && sent == old(sent) && book == CalledAgain(old(book), n)
    {
      hide Kept, Once, Replies, WithErrors, InHand, Ready, RespOk, Held;
      ReadyAt(book.hand, finiMap, respEvent, key);
      if key !in finiMap {
        CalledKept(book, finiMap, sent, n);
        book := CalledAgain(book, n);
        aborted := true;
        return;
      }
      var resp := PopErrors(respEvent[key], status[key]);
      var a := Protocol.Answered(finiMap[key], resp);
      IsReply(finiMap[key], resp);
      ClosedKept(book, finiMap, sent, key, a);
      HeldLess(book.hand, finiMap, IndexOf(book.hand, key));
      ReadyLess(finiMap, respEvent, key);
      book := Closed(book, key);
      sent := sent + [a];
      finiMap, status, respEvent := finiMap - {key}, status - {key}, respEvent - {key};
    }

    /** SrvrRouterEvent::process of a CommReq: SrvrCommReqEvent::process through
        PWR_ObjAttrGetValues_NB or SetValues_NB.  A request without remote attributes has
        been answered when this returns, with an error or without; one with remote
        attributes waits under its CommReq, unless a local one failed: then it has been
        answered too, and the response is still to come. */
    method Receive(self: string, key: nat, p: Packet<Protocol.Body>, read: D.DevRef -> D.Reading, attrs: seq<Attr>, commReq: nat)
      returns (ghost a: Packet<Protocol.Body>)
      requires Settled() && !aborted && key !in finiMap.Keys && Unused(commReqs, key) && commReq !in commReqs.Keys
      requires p.body.Req? && (p.body.op == Get ==> |attrs| == p.body.n) && attrs != [] && SameComm(attrs)
      modifies this
      ensures Settled() && !aborted && book.received == old(book).received + [p]
      ensures commReqs == if attrs[0].comm.Some? then old(commReqs)[commReq := key] else old(commReqs)
      ensures attrs[0].comm.Some? && !Clash(read, attrs) ==>
        sent == old(sent) && Hand() == old(Hand()) + [p] && finiMap == old(finiMap)[key := p]
      ensures attrs[0].comm.None? || Clash(read, attrs) ==>
        Hand() == old(Hand()) && finiMap == old(finiMap)
        && sent == old(sent) + [a] && LocalReply(p, a, read, attrs)
      ensures old(Fresh()) && !Clash(read, attrs) ==> Fresh()
      ensures book.calls == old(book).calls + [if attrs[0].comm.Some? && !Clash(read, attrs) then 0 else 1]
      ensures attrs[0].comm.Some? ==> asker == old(asker)[commReq := |old(book).calls|]
    {
      hide Kept, Once, Replies, InHand, Ready, Outstanding, Clean, RespOk, WithErrors, Held, LocalRow, LocalReply, Blank, NoneStale, Unused, SameComm, Noted, Closed, IndexOf;
      Rounds(book, finiMap, sent, key, p);
      if Fresh() { NoneStaleMore(finiMap, commReqs, key, p, commReq); }
      ghost var n := |book.received|;
      Counts(book, finiMap, sent);
      OutstandingLocal(book, finiMap, commReqs, asker, waits, status, key, p);
      OutstandingNew(book, finiMap, commReqs, asker, waits, status, key, p, commReq);
      HandRound(book.hand, finiMap, key, p);
      HeldMore(book.hand, finiMap, key, p);
      var failed := ReadLocal(self, key, p, read, attrs);
      var remote := attrs[0].comm.Some?;
      if remote {
        commReqs := commReqs[commReq := key];
        asker, waits := asker[commReq := n], waits[key := commReq];
      }
      ghost var resp := respEvent[key];
      NoError(resp);
      OutstandingAnswered(book, finiMap, commReqs, asker, waits, status, key, remote);
      a := Protocol.Answered(p, resp);
      Conclude(key, n, remote, failed);
    }

    /** The request is entered, and its local values are read into its response. */
    method ReadLocal(self: string, key: nat, p: Packet<Protocol.Body>, read: D.DevRef -> D.Reading, attrs: seq<Attr>) returns (failed: bool)
      requires Valid() && !aborted && key !in finiMap.Keys
      requires p.body.Req? && (p.body.op == Get ==> |attrs| == p.body.n)
      modifies this`finiMap, this`status, this`respEvent, this`book
      ensures Valid() && finiMap == old(finiMap)[key := p] && status == old(status)[key := []] && book == Noted(old(book), key, p)
      ensures key in respEvent.Keys && LocalReply(p, Protocol.Answered(p, respEvent[key]), read, attrs)
      ensures failed <==> !Clean(read, attrs, |attrs|)
    {
      hide Kept, Once, Replies, InHand, Ready, Clean, RespOk, LocalRow, LocalReply, Blank, Held;
      InitFini(key, p);
      var trouble, row := LocalValues(self, p.body.op, read, attrs);
      BlankFits(p, row);
      if p.body.op == Get { SetRow(key, row); }
      LocalReplyIs(p, respEvent[key], read, attrs, row);
      failed := trouble != [];
    }

    /** The buffer of the values read is the response's own. */
    method SetRow(key: nat, row: seq<real>)
      requires Valid() && key in finiMap.Keys && key in respEvent.Keys && finiMap[key].body.op == Get && |row| == finiMap[key].body.n
      modifies this`respEvent
      ensures Valid() && respEvent == old(respEvent)[key := old(respEvent)[key].(value := [row])]
    {
      hide Kept, Once, Replies, InHand;
      assert RespOk(finiMap[key], respEvent[key]);
      respEvent := respEvent[key := respEvent[key].(value := [row])];
    }

    /** DistCntxt::makeProgress: the response to a CommReq fills in the values and adds its
        errors to the request's Status, and the callback answers the request; if it has been
        answered before, the assertion of fini fails and nothing is sent. */
    method MakeProgress(commReq: nat, reply: Resp)
      requires Settled() && !aborted && commReq in commReqs.Keys && InStep(reply)
      requires commReqs[commReq] in finiMap.Keys ==>
        finiMap[commReqs[commReq]].body.Req? && ReplyFits(finiMap[commReqs[commReq]].body.op, finiMap[commReqs[commReq]].body.n, reply)
      modifies this
      ensures Settled() && commReqs == old(commReqs) - {commReq} && book.received == old(book).received
      ensures aborted <==> old(commReqs)[commReq] !in old(finiMap).Keys
      ensures aborted ==> sent == old(sent) && finiMap == old(finiMap)
      ensures !aborted ==>
        && finiMap == old(finiMap) - {old(commReqs)[commReq]} && old(commReqs)[commReq] in old(book).hand
        && |sent| == |old(sent)| + 1 && sent[..|old(sent)|] == old(sent)
        && RemoteReply(old(finiMap)[old(commReqs)[commReq]], sent[|old(sent)|], reply)
        && (var i := IndexOf(old(book).hand, old(commReqs)[commReq]);
            i < |old(Hand())| && old(Hand())[i] == old(finiMap)[old(commReqs)[commReq]] && Hand() == old(Hand())[..i] + old(Hand())[i + 1..])
      ensures commReq in old(asker).Keys && old(asker)[commReq] < |old(book).calls|
      ensures book.calls == old(book).calls[old(asker)[commReq] := old(book).calls[old(asker)[commReq]] + 1]
      ensures old(Fresh()) ==> !aborted && Fresh()
    {
      hide Kept, Once, Replies, InHand, Ready, RespOk, WithErrors;
      var key := commReqs[commReq];
      ghost var n, here, was, w0 := asker[commReq], key in finiMap.Keys, finiMap, status;
      assert AskerOk(book, finiMap, commReqs, asker, waits, commReq);
      Handed(book, finiMap, sent, n);
      ReadyAt(book.hand, finiMap, respEvent, key);
      ghost var r0, before := if key in respEvent then respEvent[key] else Resp([], [], [], [], []), Hand();
      if key in finiMap {
        Prepare(key, reply);
        FilledReply(finiMap[key], r0, reply);
        HeldLess(book.hand, finiMap, IndexOf(book.hand, key));
        OutstandingDone(book, finiMap, commReqs, asker, waits, w0, status[key], commReq);
      } else {
        OutstandingLess(book, finiMap, commReqs, asker, waits, status, commReq);
        OutstandingCalled(book, finiMap, commReqs - {commReq}, asker, waits, status, n);
      }
      commReqs := commReqs - {commReq};
      RequestFini(key, n);
    }

    /** DistRequest::getValue or setValue on the server's own request. */
    method Prepare(key: nat, reply: Resp)
      requires Valid() && key in finiMap.Keys && key in respEvent.Keys && key in status.Keys && finiMap[key].body.Req?
      requires ReplyFits(finiMap[key].body.op, finiMap[key].body.n, reply)
      modifies this`respEvent, this`status
      ensures Valid() && respEvent == old(respEvent)[key := Filled(old(respEvent)[key], finiMap[key].body.op, reply)]
      ensures status == old(status)[key := old(status)[key] + TroublesOf(reply)]
    {
      hide Kept, Once, Replies, InHand;
      assert RespOk(finiMap[key], respEvent[key]);
      var resp := respEvent[key];
      if finiMap[key].body.op == Get {
        resp := resp.(value := resp.value[0 := reply.value[0]], timeStamp := resp.timeStamp[0 := reply.timeStamp[0]]);
      }
      respEvent := respEvent[key := resp];
      status := status[key := status[key] + TroublesOf(reply)];
    }

    /** The callback and the return code of a request that has been read or sent: the callback
        runs for one that is finished at once, and requestFini for one that failed. */
    method Conclude(key: nat, ghost n: nat, remote: bool, failed: bool)
      requires Valid() && !aborted && n < |book.calls| && key in finiMap.Keys && key in status.Keys && key in book.number.Keys && book.number[key] == n
      modifies this`finiMap, this`status, this`respEvent, this`sent, this`aborted, this`book
      ensures Valid() && !aborted
      ensures remote && !failed ==> finiMap == old(finiMap) && status == old(status) && respEvent == old(respEvent) && sent == old(sent) && book == old(book)
      ensures !remote || failed ==>
        && key in old(book).hand && old(book).calls[n] == 0
        && book == Closed(old(book), key) && finiMap == old(finiMap) - {key} && status == old(status) - {key}
        && key in old(respEvent) && old(finiMap)[key].body.Req?
        && sent == old(sent) + [Protocol.Answered(old(finiMap)[key], WithErrors(old(respEvent)[key], old(status)[key]))]
    {
      hide Kept, Once, Replies, WithErrors, Ready, InHand;
      if !failed && !remote { RequestFini(key, n); }
      if failed { RequestFini(key, n); }
    }

    /** A request and, if one is to come, its response.  The assertion of fini fails exactly
        when a local error meets an outstanding remote request; requestFini then runs twice,
        and one answer is sent all the same. */
    method ReceiveAndProgress(self: string, key: nat, p: Packet<Protocol.Body>, read: D.DevRef -> D.Reading, attrs: seq<Attr>, commReq: nat, reply: Resp)
      requires Settled() && !aborted && key !in finiMap.Keys && Unused(commReqs, key) && commReq !in commReqs.Keys
      requires p.body.Req? && (p.body.op == Get ==> |attrs| == p.body.n) && attrs != [] && SameComm(attrs)
      requires ReplyFits(p.body.op, p.body.n, reply)
      modifies this
      ensures Settled() && commReqs == old(commReqs) && finiMap == old(finiMap)
      ensures aborted <==> Clash(read, attrs)
      ensures |book.calls| == |old(book).calls| + 1 && book.calls[|old(book).calls|] == if Clash(read, attrs) then 2 else 1
      ensures |sent| == |old(sent)| + 1 && sent[..|old(sent)|] == old(sent) && Replies(sent[|old(sent)|], p)
    {
      hide Kept, Once, Replies, InHand, Ready, Outstanding, Clean, RespOk, WithErrors, Held;
      ghost var _ := Receive(self, key, p, read, attrs, commReq);
      assert commReqs - {commReq} == old(commReqs);
      assert old(finiMap)[key := p] - {key} == old(finiMap);
      if commReq in commReqs {
        MakeProgress(commReq, reply);
      }
    }

    // ------------------------------------- the server of the step machine

    /** This object is server s of the net. */
    ghost predicate Follows(net: Protocol.Net, s: Addr)
      reads this
    {
      Protocol.At(net.held, s) == Hand() && From(net.sent, s) == sent
    }

    /** Receive is the step Serves, and for a request answered at once the step Answers too. */
    method ServeStep(self: string, key: nat, p: Packet<Protocol.Body>, read: D.DevRef -> D.Reading, attrs: seq<Attr>, commReq: nat,
                     ghost w: Protocol.World, ghost net: Protocol.Net, ghost s: Addr) returns (ghost after: Protocol.Net)
      requires Settled() && !aborted && key !in finiMap.Keys && Unused(commReqs, key) && commReq !in commReqs.Keys
      requires p.body.Req? && (p.body.op == Get ==> |attrs| == p.body.n) && attrs != [] && SameComm(attrs)
      requires Protocol.ValidWorld(w) && Follows(net, s) && On(net.q, Down(s)) != [] && On(net.q, Down(s))[0] == p && p.dest == s
      modifies this
      ensures Settled() && !aborted && Follows(after, s)
      ensures if attrs[0].comm.Some? && !Clash(read, attrs) then after == Protocol.DoServe(net, s)
              else IsAnswer(w, Protocol.DoServe(net, s), s, |Protocol.At(net.held, s)|, after)
    {
      hide Kept, Once, Replies, InHand, Ready, Outstanding, Clean, RespOk, WithErrors, Held, Clash, LocalRow, IsAnswer, From, Protocol.DoServe, Protocol.ValidWorld;
      ghost var held, was := Hand(), sent;
      after := Protocol.DoServe(net, s);
      ServeShows(net, s, held, sent, p);
      ghost var a := Receive(self, key, p, read, attrs, commReq);
      if attrs[0].comm.None? || Clash(read, attrs) {
        assert (held + [p])[..|held|] + (held + [p])[|held| + 1..] == held;
        after := AnswerShows(w, after, s, held + [p], was, |held|, a);
      }
    }

    /** makeProgress is the step Answers. */
    method ProgressStep(commReq: nat, reply: Resp, ghost w: Protocol.World, ghost net: Protocol.Net, ghost s: Addr) returns (ghost after: Protocol.Net)
      requires Settled() && !aborted && Fresh() && commReq in commReqs.Keys && InStep(reply)
      requires finiMap[commReqs[commReq]].body.Req? && finiMap[commReqs[commReq]].dest == s
      requires ReplyFits(finiMap[commReqs[commReq]].body.op, finiMap[commReqs[commReq]].body.n, reply)
      requires Protocol.ValidWorld(w) && Follows(net, s)
      modifies this
      ensures Settled() && !aborted && Fresh() && Follows(after, s)
      ensures exists k: nat :: IsAnswer(w, net, s, k, after)
    {
      hide Kept, Once, Replies, InHand, Ready, Outstanding, Clean, RespOk, WithErrors, Held;
      ghost var held, was, key, hand := Hand(), sent, commReqs[commReq], book.hand;
      MakeProgress(commReq, reply);
      ghost var k := IndexOf(hand, key);
      after := AnswerShows(w, net, s, held, was, k, sent[|was|]);
      assert sent == was + [sent[|was|]];
    }
  }

  /** What server s has sent. */
  ghost function From(ps: Packets, s: Addr): Packets {
    if ps == [] then [] else From(ps[..|ps| - 1], s) + if ps[|ps| - 1].src == s then [ps[|ps| - 1]] else []
  }

  /** The step Answers of request k with some response, which is enabled. */
  ghost predicate IsAnswer(w: Protocol.World, net: Protocol.Net, s: Addr, k: nat, after: Protocol.Net) {
    Protocol.ValidWorld(w) && exists resp :: Protocol.Enabled(w, net, Protocol.Answers(s, k, resp)) && after == Protocol.Do(w, net, Protocol.Answers(s, k, resp))
  }

  lemma ServeShows(net: Protocol.Net, s: Addr, held: Packets, sent: Packets, p: Packet<Protocol.Body>)
    requires Protocol.At(net.held, s) == held && From(net.sent, s) == sent
    requires On(net.q, Down(s)) != [] && On(net.q, Down(s))[0] == p && p.body.Req?
    ensures Protocol.At(Protocol.DoServe(net, s).held, s) == held + [p] && From(Protocol.DoServe(net, s).sent, s) == sent
  {}

  lemma AnswerShows(w: Protocol.World, net: Protocol.Net, s: Addr, held: Packets, sent: Packets, k: nat, a: Packet<Protocol.Body>) returns (after: Protocol.Net)
    requires Protocol.ValidWorld(w) && Protocol.At(net.held, s) == held && From(net.sent, s) == sent
    requires k < |held| && held[k].dest == s && Replies(a, held[k]) && ReplyFits(held[k].body.op, held[k].body.n, a.body.resp)
    ensures IsAnswer(w, net, s, k, after)
    ensures Protocol.At(after.held, s) == held[..k] + held[k + 1..] && From(after.sent, s) == sent + [a]
  {
    var act := Protocol.Answers(s, k, a.body.resp);
    assert Protocol.Enabled(w, net, act);
    after := Protocol.DoAnswer(net, s, k, a.body.resp);
    assert after == Protocol.Do(w, net, act);
    assert (net.sent + [a])[..|net.sent|] == net.sent;
  }

  /** A reply to p of local values. */
  ghost predicate LocalReply(p: Packet<Protocol.Body>, a: Packet<Protocol.Body>, read: D.DevRef -> D.Reading, attrs: seq<Attr>) {
    && Replies(a, p) && ReplyFits(p.body.op, p.body.n, a.body.resp)
    && a.body.resp.errObj == [] && a.body.resp.errAttr == [] && a.body.resp.errValue == []
    && (p.body.op == Get ==> |a.body.resp.value| == 1 && LocalRow(read, attrs, a.body.resp.value[0]))
  }

  lemma IsReply(p: Packet<Protocol.Body>, resp: Resp)
    requires p.body.Req?
    ensures Replies(Protocol.Answered(p, resp), p)
  {}

  lemma ReadyLess(fini: map<nat, Packet<Protocol.Body>>, respEvent: map<nat, Resp>, key: nat)
    requires Ready(fini, respEvent)
    ensures Ready(fini - {key}, respEvent - {key})
  {}

  lemma ReadyAt(hand: seq<nat>, fini: map<nat, Packet<Protocol.Body>>, respEvent: map<nat, Resp>, key: nat)
    requires InHand(hand, fini) && Ready(fini, respEvent)
    ensures key in fini.Keys ==> key in hand && key in respEvent.Keys && RespOk(fini[key], respEvent[key]) && fini[key].body.Req?
  {}

  lemma BlankFits(p: Packet<Protocol.Body>, row: seq<real>)
    requires p.body.Req? && (p.body.op == Get ==> |row| == p.body.n)
    ensures RespOk(p, Blank(p.body.op, p.body.n))
    ensures p.body.op == Get ==> RespOk(p, Blank(p.body.op, p.body.n).(value := [row]))
  {}

  /** A reply to p of the values and errors of a response from elsewhere. */
  ghost predicate RemoteReply(p: Packet<Protocol.Body>, a: Packet<Protocol.Body>, reply: Resp) {
    && Replies(a, p) && ReplyFits(p.body.op, p.body.n, a.body.resp)
    && a.body.resp.errObj == reply.errObj && a.body.resp.errAttr == reply.errAttr && a.body.resp.errValue == reply.errValue
    && (p.body.op == Get ==> |reply.value| > 0 && a.body.resp.value[0] == reply.value[0])
    && (p.body.op == Get ==> |reply.timeStamp| > 0 && a.body.resp.timeStamp[0] == reply.timeStamp[0])
  }

  lemma FilledReply(p: Packet<Protocol.Body>, r: Resp, reply: Resp)
    requires RespOk(p, r) && ReplyFits(p.body.op, p.body.n, reply)
    ensures RemoteReply(p, Protocol.Answered(p, WithErrors(Filled(r, p.body.op, reply), [] + TroublesOf(reply))), reply)
  {
    assert [] + TroublesOf(reply) == TroublesOf(reply);
    assert Objs(TroublesOf(reply)) == reply.errObj && Names(TroublesOf(reply)) == reply.errAttr && Codes(TroublesOf(reply)) == reply.errValue;
  }

  /** What is in hand is in the map. */
  lemma Handed(b: Book, fini: map<nat, Packet<Protocol.Body>>, sent: Packets, n: nat)
    requires Kept(b, fini, sent)
    ensures n in b.keyOf.Keys ==> b.keyOf[n] in fini.Keys
  {
    if n in b.keyOf.Keys { assert HandOk(b, fini, n); }
  }

  lemma LocalReplyIs(p: Packet<Protocol.Body>, resp: Resp, read: D.DevRef -> D.Reading, attrs: seq<Attr>, row: seq<real>)
    requires RespOk(p, resp) && (p.body.op == Get ==> resp.value == [row] && LocalRow(read, attrs, row))
    ensures LocalReply(p, Protocol.Answered(p, resp), read, attrs)
  {
    hide LocalRow;
  }

  /** The loop of requestFini. */
  method PopErrors(respEvent: Resp, status: seq<Trouble>) returns (resp: Resp)
    ensures resp == WithErrors(respEvent, status)
  {
    resp := respEvent;
    NoError(respEvent);
    var left := status;
    ghost var popped: seq<Trouble> := [];
    while left != []
      invariant popped + left == status && resp == WithErrors(respEvent, popped)
      decreases |left|
    {
      var error := left[0];
      OneError(respEvent, popped, error);
      assert popped + left == (popped + [error]) + left[1..];
      popped := popped + [error];
      resp := resp.(errObj := resp.errObj + [error.obj], errAttr := resp.errAttr + [error.attr], errValue := resp.errValue + [error.code]);
      left := left[1..];
    }
    assert popped == status;
  }

  /** Once nothing is in hand, each request received has exactly one answer, and requestFini
      has run once for it unless the assertion has failed. */
  lemma AllAnswered(s: Server, n: nat)
    requires s.Valid() && s.finiMap.Keys == {} && n < |s.book.received|
    ensures exists i :: 0 <= i < |s.sent| && Replies(s.sent[i], s.book.received[n]) && s.book.answered[i] == n
                        && forall j :: 0 <= j < |s.sent| && s.book.answered[j] == n ==> j == i
    ensures n < |s.book.calls| && (!s.aborted ==> s.book.calls[n] == 1)
  {
    assert n !in s.book.keyOf.Keys by {
      assert n in s.book.keyOf.Keys ==> HandOk(s.book, s.finiMap, n);
    }
    assert AnswerOk(s.book, s.sent, n);
  }
}
