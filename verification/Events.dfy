/** Every event undoes itself: serialize_in after serialize_out gives the event back and
    leaves the buffer as it was, also when one event travels inside another, over any number
    of hops, and no two events of a type are written alike. */
module Events {
  import opened Common
  import opened Serialization

  type Text = seq<Byte>

  /** The fields of struct Event. */
  datatype Head = Head(id: nat, kind: nat, status: int)

  /** The fields of struct CommEvent after those of Event. */
  datatype Comm = Comm(commID: nat, op: nat)

  /** EventType, for the events that the alloc functions make. */
  datatype Kind = CommCreate | CommDestroy | CommReq | CommResp | CommLogReq | CommLogResp
                | CommGetSamplesReq | CommGetSamplesResp | ServerConnect | Router2Router

  /** The numbers of enum EventType. */
  function Code(k: Kind): nat {
    match k
    case CommCreate => 1 case CommDestroy => 2 case CommReq => 3 case CommResp => 4 case CommLogReq => 5 case CommLogResp => 6
    case CommGetSamplesReq => 7 case CommGetSamplesResp => 8 case ServerConnect => 9 case Router2Router => 10
  }

  /** A double is its 64 bits; attribute names and error values are signed 32-bit numbers. */
  datatype Event =
    | CreateEvent(head: Head, comm: Comm, members: seq<seq<Text>>)
    | DestroyEvent(head: Head, comm: Comm)
    | ReqEvent(head: Head, comm: Comm, setValues: seq<int>, attrNames: seq<int>, valueOp: seq<int>, grpIndex: nat)
    | RespEvent(head: Head, comm: Comm, timeStamp: seq<seq<int>>, value: seq<seq<int>>, grpIndex: nat,
                errValue: seq<int>, errAttr: seq<int>, errObj: seq<Text>)
    | LogReqEvent(head: Head, comm: Comm, attrName: int)
    | LogRespEvent(head: Head, comm: Comm, errValue: seq<int>, errAttr: seq<int>, errObj: seq<Text>)
    | SamplesReqEvent(head: Head, comm: Comm, count: nat, period: nat, startTime: nat, attrName: int)
    | SamplesRespEvent(head: Head, comm: Comm, errObj: seq<Text>, errAttr: seq<int>, errValue: seq<int>, data: seq<int>, count: nat, startTime: nat)
    | ConnectEvent(head: Head, name: Text)
    | RouterEvent(head: Head, dest: nat, src: nat, eventType: nat, payload: seq<Byte>)

  function KindOf(e: Event): Kind {
    match e
    case CreateEvent(_, _, _) => CommCreate
    case DestroyEvent(_, _) => CommDestroy
    case ReqEvent(_, _, _, _, _, _) => CommReq
    case RespEvent(_, _, _, _, _, _, _, _) => CommResp
    case LogReqEvent(_, _, _) => CommLogReq
    case LogRespEvent(_, _, _, _, _) => CommLogResp
    case SamplesReqEvent(_, _, _, _, _, _) => CommGetSamplesReq
    case SamplesRespEvent(_, _, _, _, _, _, _, _) => CommGetSamplesResp
    case ConnectEvent(_, _) => ServerConnect
    case RouterEvent(_, _, _, _, _) => Router2Router
  }

  // -------------------------------------------- C++ types and what they write

  /** The types whose values an event holds. */
  datatype CType = Unsigned(width: nat) | SignedInt(width: nat) | String | Vector(of: CType)

  /** A value of such a type. */
  datatype CVal = Int(n: int) | Chars(text: Text) | List(vals: seq<CVal>)

  ghost predicate HasType(v: CVal, t: CType)
    decreases v
  {
    match v
    case Int(n) => (t.Unsigned? && 0 < t.width <= 8 && 0 <= n < Pow(t.width)) || (t.SignedInt? && 0 < t.width <= 8 && Signed(t.width, n))
    case Chars(text) => t.String? && |text| < Pow(4)
    case List(vals) => t.Vector? && |vals| < Pow(4) && forall i :: 0 <= i < |vals| ==> HasType(vals[i], t.of)
  }

  function ShapeOf(t: CType): Shape {
    match t
    case Unsigned(w) => NumOf(w)
    case SignedInt(w) => NumOf(w)
    case String => StrOf
    case Vector(of) => VecOf(ShapeOf(of))
  }

  function Write(v: CVal, t: CType): Val
    decreases v
  {
    match v
    case Int(n) => if t.Unsigned? || t.SignedInt? then Num(t.width, ToRaw(t.width, n)) else Num(0, 0)
    case Chars(text) => Str(text)
    case List(vals) => Vec(seq(|vals|, i requires 0 <= i < |vals| => Write(vals[i], if t.Vector? then t.of else t)))
  }

  function Read(x: Val, t: CType): CVal
    decreases x
  {
    match x
    case Num(w, raw) => Int(if t.SignedInt? && t.width > 0 then FromRaw(t.width, raw) else raw)
    case Str(text) => Chars(text)
    case Vec(elems) => List(seq(|elems|, i requires 0 <= i < |elems| => Read(elems[i], if t.Vector? then t.of else t)))
  }

  /** What a value writes has the shape its reader asks for, and reads as the value. */
  lemma {:induction false} TypedRoundTrip(v: CVal, t: CType)
    requires HasType(v, t)
    ensures Fits(Write(v, t), ShapeOf(t)) && Read(Write(v, t), t) == v
    decreases v
  {
    match v
    case Int(n) =>
      if t.SignedInt? {
        SignedRoundTrip(t.width, n);
      } else {
        RestIs(n, Pow(t.width), 0, n);
      }
    case Chars(_) =>
    case List(vals) =>
      forall i | 0 <= i < |vals| ensures Fits(Write(vals[i], t.of), ShapeOf(t.of)) && Read(Write(vals[i], t.of), t.of) == vals[i] {
        TypedRoundTrip(vals[i], t.of);
      }
  }

  /** A field: what it holds and as what it is declared. */
  datatype Field = Field(val: CVal, of: CType)

  ghost function Written(fs: seq<Field>): seq<Byte> {
    if fs == [] then [] else Written(fs[..|fs| - 1]) + Encode(Write(fs[|fs| - 1].val, fs[|fs| - 1].of))
  }

  ghost predicate AllTyped(fs: seq<Field>) { forall i :: 0 <= i < |fs| ==> HasType(fs[i].val, fs[i].of) }

  method PutField(buf: SerialBuf, f: Field)
    modifies buf
    ensures buf.buf == old(buf.buf) + Encode(Write(f.val, f.of))
  {
    buf.Put(Write(f.val, f.of));
  }

  /** Popping a field that is on top. */
  method GetField(buf: SerialBuf, t: CType, ghost before: seq<Byte>, ghost f: Field) returns (v: CVal)
    requires buf.buf == before + Encode(Write(f.val, f.of)) && HasType(f.val, f.of) && f.of == t
    modifies buf
    ensures buf.buf == before && v == f.val
  {
    TypedRoundTrip(f.val, f.of);
    var x := buf.Get(ShapeOf(t), before, Write(f.val, f.of));
    v := Read(x, t);
  }

  // -------------------------------------------------- values as declared types

  function IntList(xs: seq<int>): CVal { List(seq(|xs|, i requires 0 <= i < |xs| => Int(xs[i]))) }

  function IntsOf(v: CVal): seq<int> {
    if v.List? then seq(|v.vals|, i requires 0 <= i < |v.vals| => IntOf(v.vals[i])) else []
  }

  function IntOf(v: CVal): int { if v.Int? then v.n else 0 }

  function RowList(rows: seq<seq<int>>): CVal { List(seq(|rows|, i requires 0 <= i < |rows| => IntList(rows[i]))) }

  function RowsOf(v: CVal): seq<seq<int>> {
    if v.List? then seq(|v.vals|, i requires 0 <= i < |v.vals| => IntsOf(v.vals[i])) else []
  }

  function TextList(xs: seq<Text>): CVal { List(seq(|xs|, i requires 0 <= i < |xs| => Chars(xs[i]))) }

  function TextsOf(v: CVal): seq<Text> {
    if v.List? then seq(|v.vals|, i requires 0 <= i < |v.vals| => TextOf(v.vals[i])) else []
  }

  function TextOf(v: CVal): Text { if v.Chars? then v.text else [] }

  function MemberList(ms: seq<seq<Text>>): CVal { List(seq(|ms|, i requires 0 <= i < |ms| => TextList(ms[i]))) }

  function MembersOf(v: CVal): seq<seq<Text>> {
    if v.List? then seq(|v.vals|, i requires 0 <= i < |v.vals| => TextsOf(v.vals[i])) else []
  }

  lemma IntsBack(xs: seq<int>)
    ensures IntsOf(IntList(xs)) == xs
  {}

  lemma RowsBack(rows: seq<seq<int>>)
    ensures RowsOf(RowList(rows)) == rows
  {
    forall i | 0 <= i < |rows| ensures RowsOf(RowList(rows))[i] == rows[i] { IntsBack(rows[i]); }
  }

  lemma TextsBack(xs: seq<Text>)
    ensures TextsOf(TextList(xs)) == xs
  {}

  lemma MembersBack(ms: seq<seq<Text>>)
    ensures MembersOf(MemberList(ms)) == ms
  {
    forall i | 0 <= i < |ms| ensures MembersOf(MemberList(ms))[i] == ms[i] { TextsBack(ms[i]); }
  }

  // ------------------------------------------------------- what each event holds

  const U1: CType := Unsigned(1)
  const U4: CType := Unsigned(4)
  const U8: CType := Unsigned(8)
  const I4: CType := SignedInt(4)

  function HeadFields(h: Head): seq<Field> { [Field(Int(h.id), U8), Field(Int(h.kind), U4), Field(Int(h.status), I4)] }

  function CommFields(c: Comm): seq<Field> { [Field(Int(c.commID), U8), Field(Int(c.op), U4)] }

  /** The fields of each event after those of Event and CommEvent, in the order written. */
  function OwnFields(e: Event): seq<Field> {
    match e
    case CreateEvent(_, _, members) => [Field(MemberList(members), Vector(Vector(String)))]
    case DestroyEvent(_, _) => []
    case ReqEvent(_, _, setValues, attrNames, valueOp, grpIndex) =>
      [Field(IntList(setValues), Vector(U8)), Field(IntList(attrNames), Vector(I4)), Field(IntList(valueOp), Vector(U4)), Field(Int(grpIndex), U8)]
    case RespEvent(_, _, timeStamp, value, grpIndex, errValue, errAttr, errObj) =>
      [Field(RowList(timeStamp), Vector(Vector(U8))), Field(RowList(value), Vector(Vector(U8))), Field(Int(grpIndex), U8),
       Field(IntList(errValue), Vector(I4)), Field(IntList(errAttr), Vector(I4)), Field(TextList(errObj), Vector(String))]
    case LogReqEvent(_, _, attrName) => [Field(Int(attrName), I4)]
    case LogRespEvent(_, _, errValue, errAttr, errObj) =>
      [Field(IntList(errValue), Vector(I4)), Field(IntList(errAttr), Vector(I4)), Field(TextList(errObj), Vector(String))]
    case SamplesReqEvent(_, _, count, period, startTime, attrName) =>
      [Field(Int(count), U4), Field(Int(period), U8), Field(Int(startTime), U8), Field(Int(attrName), I4)]
    case SamplesRespEvent(_, _, errObj, errAttr, errValue, data, count, startTime) =>
      [Field(TextList(errObj), Vector(String)), Field(IntList(errAttr), Vector(I4)), Field(IntList(errValue), Vector(I4)),
       Field(IntList(data), Vector(U8)), Field(Int(count), U4), Field(Int(startTime), U8)]
    case ConnectEvent(_, name) => [Field(Chars(name), String)]
    case RouterEvent(_, dest, src, eventType, payload) =>
      [Field(Int(dest), U8), Field(Int(src), U8), Field(Int(eventType), U4), Field(IntList(payload), Vector(U1))]
  }

  predicate HasComm(e: Event) { !e.ConnectEvent? && !e.RouterEvent? }

  function Fields(e: Event): seq<Field> {
    HeadFields(e.head) + (if HasComm(e) then CommFields(e.comm) else []) + OwnFields(e)
  }

  /** The event's fields are in the ranges of their C++ types, and no length needs more than
      the 32 bits of the loops' counters. */
  ghost predicate InRange(e: Event) { AllTyped(Fields(e)) }

  /** What serialize_out appends. */
  ghost function Wire(e: Event): seq<Byte> { Written(Fields(e)) }

  lemma {:induction false} WrittenConcat(a: seq<Field>, b: seq<Field>)
    ensures Written(a + b) == Written(a) + Written(b)
  {
    hide Encode, Write;
    if b == [] {
      assert a + b == a;
    } else {
      var front, last := b[..|b| - 1], b[|b| - 1];
      WrittenConcat(a, front);
      assert (a + b)[..|a + b| - 1] == a + front && (a + b)[|a + b| - 1] == last;
      Assoc(Written(a), Written(front), Encode(Write(last.val, last.of)));
    }
  }

  lemma TypedParts(a: seq<Field>, b: seq<Field>)
    requires AllTyped(a + b)
    ensures AllTyped(a) && AllTyped(b)
  {
    forall i | 0 <= i < |a| ensures HasType(a[i].val, a[i].of) { assert (a + b)[i] == a[i]; }
    forall i | 0 <= i < |b| ensures HasType(b[i].val, b[i].of) { assert (a + b)[|a| + i] == b[i]; }
  }

  // ----------------------------------------------------------- serialize_out

  /** buf << f: field k of fs. */
  lemma NoneWritten(fs: seq<Field>, before: seq<Byte>)
    ensures before + Written(fs[..0]) == before
  {}

  method Push(buf: SerialBuf, f: Field, ghost before: seq<Byte>, ghost fs: seq<Field>, ghost k: nat)
    requires k < |fs| && fs[k] == f && buf.buf == before + Written(fs[..k])
    modifies buf
    ensures buf.buf == before + Written(fs[..k + 1])
  {
    PutField(buf, f);
    assert fs[..k + 1][..k] == fs[..k];
  }

  /** buf >> x: field k - 1 of fs. */
  method Pop(buf: SerialBuf, t: CType, ghost before: seq<Byte>, ghost fs: seq<Field>, ghost k: nat) returns (v: CVal)
    requires 0 < k <= |fs| && buf.buf == before + Written(fs[..k]) && AllTyped(fs) && fs[k - 1].of == t
    modifies buf
    ensures buf.buf == before + Written(fs[..k - 1]) && v == fs[k - 1].val
  {
    assert fs[..k][..k - 1] == fs[..k - 1];
    v := GetField(buf, t, before + Written(fs[..k - 1]), fs[k - 1]);
  }

  /** Event::serialize_out. */
  method HeadOut(buf: SerialBuf, h: Head)
    modifies buf
    ensures buf.buf == old(buf.buf) + Written(HeadFields(h))
  {
    ghost var fs, was := HeadFields(h), buf.buf;
    Push(buf, Field(Int(h.id), U8), was, fs, 0);
    Push(buf, Field(Int(h.kind), U4), was, fs, 1);
    Push(buf, Field(Int(h.status), I4), was, fs, 2);
    assert fs[..3] == fs;
  }

  /** CommEvent::serialize_out. */
  method CommOut(buf: SerialBuf, h: Head, c: Comm)
    modifies buf
    ensures buf.buf == old(buf.buf) + Written(HeadFields(h) + CommFields(c))
  {
    HeadOut(buf, h);
    ghost var fs, was := CommFields(c), buf.buf;
    Push(buf, Field(Int(c.commID), U8), was, fs, 0);
    Push(buf, Field(Int(c.op), U4), was, fs, 1);
    assert fs[..2] == fs;
    WrittenConcat(HeadFields(h), fs);
  }

  /** CommCreateEvent::serialize_out after its base's part. */
  method CreateOut(buf: SerialBuf, e: Event)
    requires e.CreateEvent?
    modifies buf
    ensures buf.buf == old(buf.buf) + Written(OwnFields(e))
  {
    ghost var fs, was := OwnFields(e), buf.buf;
    Push(buf, Field(MemberList(e.members), Vector(Vector(String))), was, fs, 0);
    assert fs[..1] == fs;
  }

  /** CommReqEvent::serialize_out after its base's part. */
  method ReqOut(buf: SerialBuf, e: Event)
    requires e.ReqEvent?
    modifies buf
    ensures buf.buf == old(buf.buf) + Written(OwnFields(e))
  {
    ghost var fs, was := OwnFields(e), buf.buf;
    Push(buf, Field(IntList(e.setValues), Vector(U8)), was, fs, 0);
    Push(buf, Field(IntList(e.attrNames), Vector(I4)), was, fs, 1);
    Push(buf, Field(IntList(e.valueOp), Vector(U4)), was, fs, 2);
    Push(buf, Field(Int(e.grpIndex), U8), was, fs, 3);
    assert fs[..4] == fs;
  }

  lemma RespFields(e: Event)
    requires e.RespEvent?
    ensures var fs := OwnFields(e);
            && |fs| == 6 && fs[..6] == fs
            && fs[0] == Field(RowList(e.timeStamp), Vector(Vector(U8))) && fs[1] == Field(RowList(e.value), Vector(Vector(U8)))
            && fs[2] == Field(Int(e.grpIndex), U8) && fs[3] == Field(IntList(e.errValue), Vector(I4))
            && fs[4] == Field(IntList(e.errAttr), Vector(I4)) && fs[5] == Field(TextList(e.errObj), Vector(String))
  {}

  /** CommRespEvent::serialize_out after its base's part. */
  method RespOut(buf: SerialBuf, e: Event)
    requires e.RespEvent?
    modifies buf
    ensures buf.buf == old(buf.buf) + Written(OwnFields(e))
  {
    ghost var fs, was := OwnFields(e), buf.buf;
    NoneWritten(fs, was);
    RespFields(e);
    hide Written, RowList, TextList, IntList, OwnFields;
    Push(buf, Field(RowList(e.timeStamp), Vector(Vector(U8))), was, fs, 0);
    Push(buf, Field(RowList(e.value), Vector(Vector(U8))), was, fs, 1);
    Push(buf, Field(Int(e.grpIndex), U8), was, fs, 2);
    Push(buf, Field(IntList(e.errValue), Vector(I4)), was, fs, 3);
    Push(buf, Field(IntList(e.errAttr), Vector(I4)), was, fs, 4);
    Push(buf, Field(TextList(e.errObj), Vector(String)), was, fs, 5);
  }

  /** CommLogReqEvent::serialize_out after its base's part. */
  method LogReqOut(buf: SerialBuf, e: Event)
    requires e.LogReqEvent?
    modifies buf
    ensures buf.buf == old(buf.buf) + Written(OwnFields(e))
  {
    ghost var fs, was := OwnFields(e), buf.buf;
    Push(buf, Field(Int(e.attrName), I4), was, fs, 0);
    assert fs[..1] == fs;
  }

  /** CommLogRespEvent::serialize_out after its base's part. */
  method LogRespOut(buf: SerialBuf, e: Event)
    requires e.LogRespEvent?
    modifies buf
    ensures buf.buf == old(buf.buf) + Written(OwnFields(e))
  {
    ghost var fs, was := OwnFields(e), buf.buf;
    Push(buf, Field(IntList(e.errValue), Vector(I4)), was, fs, 0);
    Push(buf, Field(IntList(e.errAttr), Vector(I4)), was, fs, 1);
    Push(buf, Field(TextList(e.errObj), Vector(String)), was, fs, 2);
    assert fs[..3] == fs;
  }

  /** CommGetSamplesReqEvent::serialize_out after its base's part. */
  method SamplesReqOut(buf: SerialBuf, e: Event)
    requires e.SamplesReqEvent?
    modifies buf
    ensures buf.buf == old(buf.buf) + Written(OwnFields(e))
  {
    ghost var fs, was := OwnFields(e), buf.buf;
    Push(buf, Field(Int(e.count), U4), was, fs, 0);
    Push(buf, Field(Int(e.period), U8), was, fs, 1);
    Push(buf, Field(Int(e.startTime), U8), was, fs, 2);
    Push(buf, Field(Int(e.attrName), I4), was, fs, 3);
    assert fs[..4] == fs;
  }

  /** CommGetSamplesRespEvent::serialize_out after its base's part. */
  method SamplesRespOut(buf: SerialBuf, e: Event)
    requires e.SamplesRespEvent?
    modifies buf
    ensures buf.buf == old(buf.buf) + Written(OwnFields(e))
  {
    ghost var fs, was := OwnFields(e), buf.buf;
    NoneWritten(fs, was);
    hide Written, TextList, IntList;
    Push(buf, Field(TextList(e.errObj), Vector(String)), was, fs, 0);
    Push(buf, Field(IntList(e.errAttr), Vector(I4)), was, fs, 1);
    Push(buf, Field(IntList(e.errValue), Vector(I4)), was, fs, 2);
    Push(buf, Field(IntList(e.data), Vector(U8)), was, fs, 3);
    Push(buf, Field(Int(e.count), U4), was, fs, 4);
    Push(buf, Field(Int(e.startTime), U8), was, fs, 5);
    assert fs[..6] == fs;
  }

  /** ServerConnectEvent::serialize_out after its base's part. */
  method ConnectOut(buf: SerialBuf, e: Event)
    requires e.ConnectEvent?
    modifies buf
    ensures buf.buf == old(buf.buf) + Written(OwnFields(e))
  {
    ghost var fs, was := OwnFields(e), buf.buf;
    Push(buf, Field(Chars(e.name), String), was, fs, 0);
    assert fs[..1] == fs;
  }

  /** RouterEvent::serialize_out after its base's part. */
  method RouterOut(buf: SerialBuf, e: Event)
    requires e.RouterEvent?
    modifies buf
    ensures buf.buf == old(buf.buf) + Written(OwnFields(e))
  {
    ghost var fs, was := OwnFields(e), buf.buf;
    Push(buf, Field(Int(e.dest), U8), was, fs, 0);
    Push(buf, Field(Int(e.src), U8), was, fs, 1);
    Push(buf, Field(Int(e.eventType), U4), was, fs, 2);
    Push(buf, Field(IntList(e.payload), Vector(U1)), was, fs, 3);
    assert fs[..4] == fs;
  }

  /** serialize_out of each event: its base's part, then its own. */
  method SerializeOut(buf: SerialBuf, e: Event)
    modifies buf
    ensures buf.buf == old(buf.buf) + Wire(e)
  {
    hide Written, Wire, BaseFields, OwnFields;
    ghost var was := buf.buf;
    WireParts(e);
    BaseOut(buf, e);
    OwnOut(buf, e);
    Assoc(was, Written(BaseFields(e)), Written(OwnFields(e)));
  }

  method BaseOut(buf: SerialBuf, e: Event)
    modifies buf
    ensures buf.buf == old(buf.buf) + Written(BaseFields(e))
  {
    WireParts(e);
    if HasComm(e) { CommOut(buf, e.head, e.comm); } else { HeadOut(buf, e.head); }
  }

  method OwnOut(buf: SerialBuf, e: Event)
    modifies buf
    ensures buf.buf == old(buf.buf) + Written(OwnFields(e))
  {
    match e
    case CreateEvent(_, _, _) => CreateOut(buf, e);
    case ReqEvent(_, _, _, _, _, _) => ReqOut(buf, e);
    case RespEvent(_, _, _, _, _, _, _, _) => RespOut(buf, e);
    case LogReqEvent(_, _, _) => LogReqOut(buf, e);
    case LogRespEvent(_, _, _, _, _) => LogRespOut(buf, e);
    case SamplesReqEvent(_, _, _, _, _, _) => SamplesReqOut(buf, e);
    case SamplesRespEvent(_, _, _, _, _, _, _, _) => SamplesRespOut(buf, e);
    case ConnectEvent(_, _) => ConnectOut(buf, e);
    case RouterEvent(_, _, _, _, _) => RouterOut(buf, e);
    case DestroyEvent(_, _) =>
  }

  ghost function BaseFields(e: Event): seq<Field> { HeadFields(e.head) + if HasComm(e) then CommFields(e.comm) else [] }

  lemma WireParts(e: Event)
    ensures Wire(e) == Written(BaseFields(e)) + Written(OwnFields(e))
    ensures !HasComm(e) ==> BaseFields(e) == HeadFields(e.head)
    ensures InRange(e) ==> AllTyped(BaseFields(e)) && AllTyped(OwnFields(e))
  {
    assert Fields(e) == BaseFields(e) + OwnFields(e);
    WrittenConcat(BaseFields(e), OwnFields(e));
    if InRange(e) { TypedParts(BaseFields(e), OwnFields(e)); }
  }

  // ------------------------------------------------------------ serialize_in

  /** Event::serialize_in. */
  method HeadIn(buf: SerialBuf, ghost before: seq<Byte>, ghost h: Head) returns (r: Head)
    requires buf.buf == before + Written(HeadFields(h)) && AllTyped(HeadFields(h))
    modifies buf
    ensures buf.buf == before && r == h
  {
    ghost var fs := HeadFields(h);
    assert fs[..3] == fs;
    assert HasType(fs[0].val, fs[0].of) && HasType(fs[1].val, fs[1].of);
    var status := Pop(buf, I4, before, fs, 3);
    var kind := Pop(buf, U4, before, fs, 2);
    var id := Pop(buf, U8, before, fs, 1);
    assert before + Written(fs[..0]) == before;
    r := Head(id.n, kind.n, status.n);
  }

  /** CommEvent::serialize_in. */
  method CommIn(buf: SerialBuf, ghost before: seq<Byte>, ghost h: Head, ghost c: Comm) returns (r: Head, d: Comm)
    requires buf.buf == before + Written(HeadFields(h) + CommFields(c)) && AllTyped(HeadFields(h) + CommFields(c))
    modifies buf
    ensures buf.buf == before && r == h && d == c
  {
    ghost var fs := CommFields(c);
    ghost var base := before + Written(HeadFields(h));
    WrittenConcat(HeadFields(h), fs);
    TypedParts(HeadFields(h), fs);
    assert fs[..2] == fs;
    assert HasType(fs[0].val, fs[0].of) && HasType(fs[1].val, fs[1].of);
    var op := Pop(buf, U4, base, fs, 2);
    var commID := Pop(buf, U8, base, fs, 1);
    assert base + Written(fs[..0]) == base;
    d := Comm(commID.n, op.n);
    r := HeadIn(buf, before, h);
  }

  function NatOf(v: CVal): nat { if v.Int? && v.n >= 0 then v.n else 0 }

  function ByteOf(v: CVal): Byte { if v.Int? && 0 <= v.n < 256 then v.n else 0 }

  function BytesOf(v: CVal): seq<Byte> {
    if v.List? then seq(|v.vals|, i requires 0 <= i < |v.vals| => ByteOf(v.vals[i])) else []
  }

  lemma BytesBack(xs: seq<Byte>)
    ensures BytesOf(IntList(xs)) == xs
  {}

  /** CommCreateEvent::serialize_in before its base's part. */
  method CreateIn(buf: SerialBuf, ghost before: seq<Byte>, ghost e: Event) returns (members: seq<seq<Text>>)
    requires e.CreateEvent? && buf.buf == before + Written(OwnFields(e)) && AllTyped(OwnFields(e))
    modifies buf
    ensures buf.buf == before
    ensures members == e.members
  {
    ghost var fs := OwnFields(e);
    assert fs[..1] == fs && before + Written(fs[..0]) == before;
    var v0 := Pop(buf, Vector(Vector(String)), before, fs, 1);
    MembersBack(e.members);
    members := MembersOf(v0);
  }

  /** CommReqEvent::serialize_in before its base's part. */
  method ReqIn(buf: SerialBuf, ghost before: seq<Byte>, ghost e: Event)
    returns (setValues: seq<int>, attrNames: seq<int>, valueOp: seq<int>, grpIndex: nat)
    requires e.ReqEvent? && buf.buf == before + Written(OwnFields(e)) && AllTyped(OwnFields(e))
    modifies buf
    ensures buf.buf == before
    ensures setValues == e.setValues && attrNames == e.attrNames && valueOp == e.valueOp && grpIndex == e.grpIndex
  {
    ghost var fs := OwnFields(e);
    assert fs[..4] == fs && before + Written(fs[..0]) == before;
    var v3 := Pop(buf, U8, before, fs, 4);
    var v2 := Pop(buf, Vector(U4), before, fs, 3);
    var v1 := Pop(buf, Vector(I4), before, fs, 2);
    var v0 := Pop(buf, Vector(U8), before, fs, 1);
    IntsBack(e.setValues);
    IntsBack(e.attrNames);
    IntsBack(e.valueOp);
    setValues := IntsOf(v0);
    attrNames := IntsOf(v1);
    valueOp := IntsOf(v2);
    grpIndex := NatOf(v3);
  }

  /** CommRespEvent::serialize_in before its base's part. */
  method RespIn(buf: SerialBuf, ghost before: seq<Byte>, ghost e: Event)
    returns (timeStamp: seq<seq<int>>, value: seq<seq<int>>, grpIndex: nat, errValue: seq<int>, errAttr: seq<int>, errObj: seq<Text>)
    requires e.RespEvent? && buf.buf == before + Written(OwnFields(e)) && AllTyped(OwnFields(e))
    modifies buf
    ensures buf.buf == before
    ensures timeStamp == e.timeStamp && value == e.value && grpIndex == e.grpIndex && errValue == e.errValue && errAttr == e.errAttr && errObj == e.errObj
  {
    ghost var fs := OwnFields(e);
    assert fs[..6] == fs;
    NoneWritten(fs, before);
    hide Written, AllTyped, RowList, IntList, TextList, RowsOf, IntsOf, TextsOf;
    var v5 := Pop(buf, Vector(String), before, fs, 6);
    var v4 := Pop(buf, Vector(I4), before, fs, 5);
    var v3 := Pop(buf, Vector(I4), before, fs, 4);
    var v2 := Pop(buf, U8, before, fs, 3);
    var v1 := Pop(buf, Vector(Vector(U8)), before, fs, 2);
    var v0 := Pop(buf, Vector(Vector(U8)), before, fs, 1);
    RowsBack(e.timeStamp);
    RowsBack(e.value);
    IntsBack(e.errValue);
    IntsBack(e.errAttr);
    TextsBack(e.errObj);
    timeStamp := RowsOf(v0);
    value := RowsOf(v1);
    grpIndex := NatOf(v2);
    errValue := IntsOf(v3);
    errAttr := IntsOf(v4);
    errObj := TextsOf(v5);
  }

  /** CommLogReqEvent::serialize_in before its base's part. */
  method LogReqIn(buf: SerialBuf, ghost before: seq<Byte>, ghost e: Event) returns (attrName: int)
    requires e.LogReqEvent? && buf.buf == before + Written(OwnFields(e)) && AllTyped(OwnFields(e))
    modifies buf
    ensures buf.buf == before
    ensures attrName == e.attrName
  {
    ghost var fs := OwnFields(e);
    assert fs[..1] == fs && before + Written(fs[..0]) == before;
    var v0 := Pop(buf, I4, before, fs, 1);
    attrName := IntOf(v0);
  }

  /** CommLogRespEvent::serialize_in before its base's part. */
  method LogRespIn(buf: SerialBuf, ghost before: seq<Byte>, ghost e: Event)
    returns (errValue: seq<int>, errAttr: seq<int>, errObj: seq<Text>)
    requires e.LogRespEvent? && buf.buf == before + Written(OwnFields(e)) && AllTyped(OwnFields(e))
    modifies buf
    ensures buf.buf == before
    ensures errValue == e.errValue && errAttr == e.errAttr && errObj == e.errObj
  {
    ghost var fs := OwnFields(e);
    assert fs[..3] == fs && before + Written(fs[..0]) == before;
    var v2 := Pop(buf, Vector(String), before, fs, 3);
    var v1 := Pop(buf, Vector(I4), before, fs, 2);
    var v0 := Pop(buf, Vector(I4), before, fs, 1);
    IntsBack(e.errValue);
    IntsBack(e.errAttr);
    TextsBack(e.errObj);
    errValue := IntsOf(v0);
    errAttr := IntsOf(v1);
    errObj := TextsOf(v2);
  }

  /** CommGetSamplesReqEvent::serialize_in before its base's part. */
  method SamplesReqIn(buf: SerialBuf, ghost before: seq<Byte>, ghost e: Event)
    returns (count: nat, period: nat, startTime: nat, attrName: int)
    requires e.SamplesReqEvent? && buf.buf == before + Written(OwnFields(e)) && AllTyped(OwnFields(e))
    modifies buf
    ensures buf.buf == before
    ensures count == e.count && period == e.period && startTime == e.startTime && attrName == e.attrName
  {
    ghost var fs := OwnFields(e);
    assert fs[..4] == fs && before + Written(fs[..0]) == before;
    var v3 := Pop(buf, I4, before, fs, 4);
    var v2 := Pop(buf, U8, before, fs, 3);
    var v1 := Pop(buf, U8, before, fs, 2);
    var v0 := Pop(buf, U4, before, fs, 1);
    count := NatOf(v0);
    period := NatOf(v1);
    startTime := NatOf(v2);
    attrName := IntOf(v3);
  }

  /** CommGetSamplesRespEvent::serialize_in before its base's part. */
  method SamplesRespIn(buf: SerialBuf, ghost before: seq<Byte>, ghost e: Event)
    returns (errObj: seq<Text>, errAttr: seq<int>, errValue: seq<int>, data: seq<int>, count: nat, startTime: nat)
    requires e.SamplesRespEvent? && buf.buf == before + Written(OwnFields(e)) && AllTyped(OwnFields(e))
    modifies buf
    ensures buf.buf == before
    ensures errObj == e.errObj && errAttr == e.errAttr && errValue == e.errValue && data == e.data && count == e.count && startTime == e.startTime
  {
    ghost var fs := OwnFields(e);
    assert fs[..6] == fs && before + Written(fs[..0]) == before;
    var v5 := Pop(buf, U8, before, fs, 6);
    var v4 := Pop(buf, U4, before, fs, 5);
    var v3 := Pop(buf, Vector(U8), before, fs, 4);
    var v2 := Pop(buf, Vector(I4), before, fs, 3);
    var v1 := Pop(buf, Vector(I4), before, fs, 2);
    var v0 := Pop(buf, Vector(String), before, fs, 1);
    TextsBack(e.errObj);
    IntsBack(e.errAttr);
    IntsBack(e.errValue);
    IntsBack(e.data);
    errObj := TextsOf(v0);
    errAttr := IntsOf(v1);
    errValue := IntsOf(v2);
    data := IntsOf(v3);
    count := NatOf(v4);
    startTime := NatOf(v5);
  }

  /** ServerConnectEvent::serialize_in before its base's part. */
  method ConnectIn(buf: SerialBuf, ghost before: seq<Byte>, ghost e: Event) returns (name: Text)
    requires e.ConnectEvent? && buf.buf == before + Written(OwnFields(e)) && AllTyped(OwnFields(e))
    modifies buf
    ensures buf.buf == before
    ensures name == e.name
  {
    ghost var fs := OwnFields(e);
    assert fs[..1] == fs && before + Written(fs[..0]) == before;
    var v0 := Pop(buf, String, before, fs, 1);
    name := TextOf(v0);
  }

  /** RouterEvent::serialize_in before its base's part. */
  method RouterIn(buf: SerialBuf, ghost before: seq<Byte>, ghost e: Event)
    returns (dest: nat, src: nat, eventType: nat, payload: seq<Byte>)
    requires e.RouterEvent? && buf.buf == before + Written(OwnFields(e)) && AllTyped(OwnFields(e))
    modifies buf
    ensures buf.buf == before
    ensures dest == e.dest && src == e.src && eventType == e.eventType && payload == e.payload
  {
    ghost var fs := OwnFields(e);
    assert fs[..4] == fs && before + Written(fs[..0]) == before;
    var v3 := Pop(buf, Vector(U1), before, fs, 4);
    var v2 := Pop(buf, U4, before, fs, 3);
    var v1 := Pop(buf, U8, before, fs, 2);
    var v0 := Pop(buf, U8, before, fs, 1);
    BytesBack(e.payload);
    dest := NatOf(v0);
    src := NatOf(v1);
    eventType := NatOf(v2);
    payload := BytesOf(v3);
  }

  /** serialize_in of an event of this kind: its own part, then its base's.  The event that
      was written last comes back, and the rest of the buffer is as it was. */
  method SerializeIn(buf: SerialBuf, kind: Kind, ghost before: seq<Byte>, ghost e: Event) returns (r: Event)
    requires buf.buf == before + Wire(e) && InRange(e) && KindOf(e) == kind
    modifies buf
    ensures buf.buf == before && r == e
  {
    WireParts(e);
    ghost var base := before + Written(BaseFields(e));
    assert buf.buf == base + Written(OwnFields(e));
    var h: Head;
    var c: Comm;
    match kind
    case CommCreate =>
      var a0 := CreateIn(buf, base, e);
      h, c := CommIn(buf, before, e.head, e.comm);
      r := CreateEvent(h, c, a0);
    case CommReq =>
      var a0, a1, a2, a3 := ReqIn(buf, base, e);
      h, c := CommIn(buf, before, e.head, e.comm);
      r := ReqEvent(h, c, a0, a1, a2, a3);
    case CommResp =>
      var a0, a1, a2, a3, a4, a5 := RespIn(buf, base, e);
      h, c := CommIn(buf, before, e.head, e.comm);
      r := RespEvent(h, c, a0, a1, a2, a3, a4, a5);
    case CommLogReq =>
      var a0 := LogReqIn(buf, base, e);
      h, c := CommIn(buf, before, e.head, e.comm);
      r := LogReqEvent(h, c, a0);
    case CommLogResp =>
      var a0, a1, a2 := LogRespIn(buf, base, e);
      h, c := CommIn(buf, before, e.head, e.comm);
      r := LogRespEvent(h, c, a0, a1, a2);
    case CommGetSamplesReq =>
      var a0, a1, a2, a3 := SamplesReqIn(buf, base, e);
      h, c := CommIn(buf, before, e.head, e.comm);
      r := SamplesReqEvent(h, c, a0, a1, a2, a3);
    case CommGetSamplesResp =>
      var a0, a1, a2, a3, a4, a5 := SamplesRespIn(buf, base, e);
      h, c := CommIn(buf, before, e.head, e.comm);
      r := SamplesRespEvent(h, c, a0, a1, a2, a3, a4, a5);
    case ServerConnect =>
      var a0 := ConnectIn(buf, base, e);
      h := HeadIn(buf, before, e.head);
      r := ConnectEvent(h, a0);
    case Router2Router =>
      var a0, a1, a2, a3 := RouterIn(buf, base, e);
      h := HeadIn(buf, before, e.head);
      r := RouterEvent(h, a0, a1, a2, a3);
    case CommDestroy =>
      assert base + Written(OwnFields(e)) == base;
      h, c := CommIn(buf, before, e.head, e.comm);
      r := DestroyEvent(h, c);
  }

  // ------------------------------------------------ an event inside an event

  /** new RouterEvent( src, dest, ev ): the payload is a buffer of its own. */
  method Wrap(src: nat, dest: nat, ev: Event) returns (r: Event)
    requires InRange(ev) && ev.head.kind == Code(KindOf(ev)) && |Wire(ev)| < Pow(4) && src < Pow(8) && dest < Pow(8)
    ensures r.RouterEvent? && r.head.kind == Code(Router2Router) && r.src == src && r.dest == dest && Carries(r, ev) && InRange(r)
  {
    var payload := new SerialBuf();
    SerializeOut(payload, ev);
    assert payload.buf == Wire(ev);
    r := RouterEvent(Head(0, Code(Router2Router), 0), dest, src, ev.head.kind, payload.buf);
    RouterInRange(r);
  }

  /** r is a RouterEvent around ev. */
  ghost predicate Carries(r: Event, ev: Event) { r.RouterEvent? && r.payload == Wire(ev) && r.eventType == Code(KindOf(ev)) }

  lemma RouterInRange(r: Event)
    requires r.RouterEvent? && r.head == Head(0, Code(Router2Router), 0)
    requires r.src < Pow(8) && r.dest < Pow(8) && r.eventType <= 10 && |r.payload| < Pow(4)
    ensures InRange(r)
  {
    PowerSizes();
    var fs := Fields(r);
    assert HasType(Int(0), I4);
    forall i | 0 <= i < |r.payload| ensures HasType(IntList(r.payload).vals[i], U1) {}
    assert HasType(IntList(r.payload), Vector(U1));
    assert fs == [Field(Int(0), U8), Field(Int(10), U4), Field(Int(0), I4), Field(Int(r.dest), U8), Field(Int(r.src), U8),
                  Field(Int(r.eventType), U4), Field(IntList(r.payload), Vector(U1))];
  }

  lemma PowerSizes()
    ensures Pow(1) == 256 && Pow(3) == 0x100_0000 && Pow(4) == 0x1_0000_0000 && Pow(8) > 10
  {
    assert Pow(2) == 256 * Pow(1) && Pow(3) == 256 * Pow(2) && Pow(4) == 256 * Pow(3);
    LengthFits(10);
  }

  function KindOfCode(n: nat): Kind {
    if n == 1 then CommCreate else if n == 2 then CommDestroy else if n == 3 then CommReq else if n == 4 then CommResp
    else if n == 5 then CommLogReq else if n == 6 then CommLogResp else if n == 7 then CommGetSamplesReq
    else if n == 8 then CommGetSamplesResp else if n == 9 then ServerConnect else Router2Router
  }

  /** getPayload with an alloc function that knows the type. */
  method GetPayload(r: Event, ghost ev: Event) returns (p: Event)
    requires Carries(r, ev) && InRange(ev)
    ensures p == ev
  {
    var buf := new SerialBuf();
    buf.buf := r.payload;
    assert buf.buf == [] + Wire(ev);
    p := SerializeIn(buf, KindOfCode(r.eventType), [], ev);
  }

  /** Each hop writes the RouterEvent to its channel and the next router reads it. */
  method Travel(r: Event, hops: nat) returns (out: Event)
    requires r.RouterEvent? && InRange(r)
    ensures out == r
  {
    out := r;
    var i := 0;
    while i < hops
      invariant out == r
    {
      var channel := new SerialBuf();
      SerializeOut(channel, out);
      assert channel.buf == [] + Wire(out);
      out := SerializeIn(channel, Router2Router, [], out);
      i := i + 1;
    }
  }

  /** An event wrapped, forwarded over any number of hops and unwrapped is the event. */
  method Delivered(src: nat, dest: nat, ev: Event, hops: nat) returns (p: Event)
    requires InRange(ev) && ev.head.kind == Code(KindOf(ev)) && |Wire(ev)| < Pow(4) && src < Pow(8) && dest < Pow(8)
    ensures p == ev
  {
    var r := Wrap(src, dest, ev);
    var s := Travel(r, hops);
    p := GetPayload(s, ev);
  }

  // --------------------------------------------------- the bytes say it all

  lemma FieldUnique(a: seq<Byte>, v: Field, b: seq<Byte>, u: Field)
    requires a + Encode(Write(v.val, v.of)) == b + Encode(Write(u.val, u.of))
    requires HasType(v.val, v.of) && HasType(u.val, u.of) && v.of == u.of
    ensures a == b && v == u
  {
    TypedRoundTrip(v.val, v.of);
    TypedRoundTrip(u.val, u.of);
    EncodeUnique(a, Write(v.val, v.of), b, Write(u.val, u.of), ShapeOf(v.of));
  }

  lemma LastWritten(a: seq<Byte>, fs: seq<Field>)
    requires fs != []
    ensures a + Written(fs) == (a + Written(fs[..|fs| - 1])) + Encode(Write(fs[|fs| - 1].val, fs[|fs| - 1].of))
  {
    Assoc(a, Written(fs[..|fs| - 1]), Encode(Write(fs[|fs| - 1].val, fs[|fs| - 1].of)));
  }

  lemma {:induction false} WrittenUnique(a: seq<Byte>, fs: seq<Field>, b: seq<Byte>, gs: seq<Field>)
    requires |fs| == |gs| && a + Written(fs) == b + Written(gs) && AllTyped(fs) && AllTyped(gs)
    requires forall i :: 0 <= i < |fs| ==> fs[i].of == gs[i].of
    ensures a == b && fs == gs
  {
    hide Written, Encode, Write, HasType;
    if fs != [] {
      var n := |fs| - 1;
      var v, u := fs[n], gs[n];
      LastWritten(a, fs);
      LastWritten(b, gs);
      FieldUnique(a + Written(fs[..n]), v, b + Written(gs[..n]), u);
      WrittenUnique(a, fs[..n], b, gs[..n]);
      assert fs == fs[..n] + [v] && gs == gs[..n] + [u];
    } else {
      NoneWritten(fs, a);
      NoneWritten(gs, b);
      assert fs[..0] == fs && gs[..0] == gs;
    }
  }

  /** Two events of one kind with the same bytes are the same event. */
  lemma WireInjective(e: Event, f: Event)
    requires InRange(e) && InRange(f) && KindOf(e) == KindOf(f) && Wire(e) == Wire(f)
    ensures e == f
  {
    WireParts(e);
    WireParts(f);
    SameTypes(e, f);
    WrittenUnique(Written(BaseFields(e)), OwnFields(e), Written(BaseFields(f)), OwnFields(f));
    assert [] + Written(BaseFields(e)) == [] + Written(BaseFields(f));
    WrittenUnique([], BaseFields(e), [], BaseFields(f));
    SameBase(e, f);
    SameOwn(e, f);
  }

  lemma SameTypes(e: Event, f: Event)
    requires KindOf(e) == KindOf(f)
    ensures |BaseFields(e)| == |BaseFields(f)| && |OwnFields(e)| == |OwnFields(f)|
    ensures forall i :: 0 <= i < |BaseFields(e)| ==> BaseFields(e)[i].of == BaseFields(f)[i].of
    ensures forall i :: 0 <= i < |OwnFields(e)| ==> OwnFields(e)[i].of == OwnFields(f)[i].of
  {}

  lemma SameBase(e: Event, f: Event)
    requires KindOf(e) == KindOf(f) && BaseFields(e) == BaseFields(f)
    ensures e.head == f.head && (HasComm(e) ==> e.comm == f.comm)
  {
    assert BaseFields(e)[0] == BaseFields(f)[0] && BaseFields(e)[1] == BaseFields(f)[1] && BaseFields(e)[2] == BaseFields(f)[2];
    if HasComm(e) { assert BaseFields(e)[3] == BaseFields(f)[3] && BaseFields(e)[4] == BaseFields(f)[4]; }
  }

  lemma SameOwn(e: Event, f: Event)
    requires KindOf(e) == KindOf(f) && OwnFields(e) == OwnFields(f) && e.head == f.head && (HasComm(e) ==> e.comm == f.comm)
    ensures e == f
  {
    var a, b := OwnFields(e), OwnFields(f);
    match e
    case CreateEvent(_, _, members) => assert a[0] == b[0]; MembersBack(members); MembersBack(f.members);
    case DestroyEvent(_, _) =>
    case ReqEvent(_, _, setValues, attrNames, valueOp, grpIndex) =>
      assert a[0] == b[0] && a[1] == b[1] && a[2] == b[2] && a[3] == b[3];
      IntsBack(setValues); IntsBack(f.setValues); IntsBack(attrNames); IntsBack(f.attrNames); IntsBack(valueOp); IntsBack(f.valueOp);
    case RespEvent(_, _, timeStamp, value, grpIndex, errValue, errAttr, errObj) =>
      assert a[0] == b[0] && a[1] == b[1] && a[2] == b[2] && a[3] == b[3] && a[4] == b[4] && a[5] == b[5];
      RowsBack(timeStamp); RowsBack(f.timeStamp); RowsBack(value); RowsBack(f.value);
      IntsBack(errValue); IntsBack(f.errValue); IntsBack(errAttr); IntsBack(f.errAttr); TextsBack(errObj); TextsBack(f.errObj);
    case LogReqEvent(_, _, attrName) => assert a[0] == b[0];
    case LogRespEvent(_, _, errValue, errAttr, errObj) =>
      assert a[0] == b[0] && a[1] == b[1] && a[2] == b[2];
      IntsBack(errValue); IntsBack(f.errValue); IntsBack(errAttr); IntsBack(f.errAttr); TextsBack(errObj); TextsBack(f.errObj);
    case SamplesReqEvent(_, _, count, period, startTime, attrName) =>
      assert a[0] == b[0] && a[1] == b[1] && a[2] == b[2] && a[3] == b[3];
    case SamplesRespEvent(_, _, errObj, errAttr, errValue, data, count, startTime) =>
      assert a[0] == b[0] && a[1] == b[1] && a[2] == b[2] && a[3] == b[3] && a[4] == b[4] && a[5] == b[5];
      TextsBack(errObj); TextsBack(f.errObj); IntsBack(errAttr); IntsBack(f.errAttr);
      IntsBack(errValue); IntsBack(f.errValue); IntsBack(data); IntsBack(f.data);
    case ConnectEvent(_, name) => assert a[0] == b[0];
    case RouterEvent(_, dest, src, eventType, payload) =>
      assert a[0] == b[0] && a[1] == b[1] && a[2] == b[2] && a[3] == b[3];
      BytesBack(payload); BytesBack(f.payload);
  }
}
