/** Every event's bytes, field by field: numbers of a fixed width with their low byte first,
    strings and vectors followed by their lengths; and the values that fit. */
module WireLayout {
  import opened Common
  import opened Events
  import opened Serialization

  /** A number in w bytes, the low one first; a negative one as its two's complement. */
  ghost function Bytes(n: int, w: nat): (s: seq<Byte>)
    ensures |s| == w && forall i :: 0 <= i < w ==> Pow(i) > 0 && Pow(w) > 0 && s[i] == n % Pow(w) / Pow(i) % 256
  {
    PowPositive(w);
    forall i | 0 <= i < w ensures Pow(i) > 0 && Little(n % Pow(w), w)[i] == n % Pow(w) / Pow(i) % 256 { LittleAt(n % Pow(w), w, i); }
    Little(n % Pow(w), w)
  }

  ghost function Joined(parts: seq<seq<Byte>>): seq<Byte> {
    if parts == [] then [] else Joined(parts[..|parts| - 1]) + parts[|parts| - 1]
  }

  /** A vector: its elements, then how many. */
  ghost function Block(parts: seq<seq<Byte>>): seq<Byte> { Joined(parts) + Little(|parts|, 8) }

  /** A string: its characters, then how many. */
  ghost function TextBytes(t: Text): seq<Byte> { t + Little(|t|, 8) }

  ghost function Nums(xs: seq<int>, w: nat): seq<Byte> { Block(seq(|xs|, i requires 0 <= i < |xs| => Bytes(xs[i], w))) }

  ghost function NumRows(rows: seq<seq<int>>, w: nat): seq<Byte> { Block(seq(|rows|, i requires 0 <= i < |rows| => Nums(rows[i], w))) }

  ghost function Texts(xs: seq<Text>): seq<Byte> { Block(seq(|xs|, i requires 0 <= i < |xs| => TextBytes(xs[i]))) }

  ghost function TextRows(ms: seq<seq<Text>>): seq<Byte> { Block(seq(|ms|, i requires 0 <= i < |ms| => Texts(ms[i]))) }

  /** What an event is on the wire. */
  ghost function Layout(e: Event): seq<Byte> { Joined(HeadParts(e) + OwnParts(e)) }

  ghost function HeadParts(e: Event): seq<seq<Byte>> {
    [Bytes(e.head.id, 8), Bytes(e.head.kind, 4), Bytes(e.head.status, 4)]
    + if e.ConnectEvent? || e.RouterEvent? then [] else [Bytes(e.comm.commID, 8), Bytes(e.comm.op, 4)]
  }

  ghost function OwnParts(e: Event): seq<seq<Byte>> {
    match e
    case CreateEvent(_, _, members) => [TextRows(members)]
    case DestroyEvent(_, _) => []
    case ReqEvent(_, _, setValues, attrNames, valueOp, grpIndex) => [Nums(setValues, 8), Nums(attrNames, 4), Nums(valueOp, 4), Bytes(grpIndex, 8)]
    case RespEvent(_, _, timeStamp, value, grpIndex, errValue, errAttr, errObj) =>
      [NumRows(timeStamp, 8), NumRows(value, 8), Bytes(grpIndex, 8), Nums(errValue, 4), Nums(errAttr, 4), Texts(errObj)]
    case LogReqEvent(_, _, attrName) => [Bytes(attrName, 4)]
    case LogRespEvent(_, _, errValue, errAttr, errObj) => [Nums(errValue, 4), Nums(errAttr, 4), Texts(errObj)]
    case SamplesReqEvent(_, _, count, period, startTime, attrName) => [Bytes(count, 4), Bytes(period, 8), Bytes(startTime, 8), Bytes(attrName, 4)]
    case SamplesRespEvent(_, _, errObj, errAttr, errValue, data, count, startTime) =>
      [Texts(errObj), Nums(errAttr, 4), Nums(errValue, 4), Nums(data, 8), Bytes(count, 4), Bytes(startTime, 8)]
    case ConnectEvent(_, name) => [TextBytes(name)]
    case RouterEvent(_, dest, src, eventType, payload) => [Bytes(dest, 8), Bytes(src, 8), Bytes(eventType, 4), Nums(payload, 1)]
  }

  // ---------------------------------------------------------------- one field

  ghost function Part(f: Field): seq<Byte> { Encode(Write(f.val, f.of)) }

  lemma NumberPart(n: int)
    ensures Part(Field(Int(n), U1)) == Bytes(n, 1) && Part(Field(Int(n), U4)) == Bytes(n, 4)
    ensures Part(Field(Int(n), U8)) == Bytes(n, 8) && Part(Field(Int(n), I4)) == Bytes(n, 4)
  {}

  lemma {:induction false} JoinedAll(vs: seq<Val>, parts: seq<seq<Byte>>)
    requires |vs| == |parts| && forall i :: 0 <= i < |vs| ==> Encode(vs[i]) == parts[i]
    ensures EncodeAll(vs) == Joined(parts)
  {
    hide Encode;
    EncodeLast(vs);
    if vs != [] { JoinedAll(vs[..|vs| - 1], parts[..|parts| - 1]); }
  }

  lemma VectorPart(vals: seq<CVal>, t: CType, parts: seq<seq<Byte>>)
    requires |vals| == |parts| && forall i :: 0 <= i < |vals| ==> Part(Field(vals[i], t)) == parts[i]
    ensures Part(Field(List(vals), Vector(t))) == Block(parts)
  {
    hide Joined, EncodeAll, Little;
    var vs := seq(|vals|, i requires 0 <= i < |vals| => Write(vals[i], t));
    JoinedAll(vs, parts);
    assert Write(List(vals), Vector(t)) == Vec(vs);
  }

  lemma NumsPart(xs: seq<int>)
    ensures Part(Field(IntList(xs), Vector(U1))) == Nums(xs, 1) && Part(Field(IntList(xs), Vector(U4))) == Nums(xs, 4)
    ensures Part(Field(IntList(xs), Vector(U8))) == Nums(xs, 8) && Part(Field(IntList(xs), Vector(I4))) == Nums(xs, 4)
  {
    hide Part, Block, Bytes;
    forall i | 0 <= i < |xs|
      ensures Part(Field(Int(xs[i]), U1)) == Bytes(xs[i], 1) && Part(Field(Int(xs[i]), U4)) == Bytes(xs[i], 4)
      ensures Part(Field(Int(xs[i]), U8)) == Bytes(xs[i], 8) && Part(Field(Int(xs[i]), I4)) == Bytes(xs[i], 4)
    {
      NumberPart(xs[i]);
    }
    VectorPart(IntList(xs).vals, U1, seq(|xs|, i requires 0 <= i < |xs| => Bytes(xs[i], 1)));
    VectorPart(IntList(xs).vals, U4, seq(|xs|, i requires 0 <= i < |xs| => Bytes(xs[i], 4)));
    VectorPart(IntList(xs).vals, I4, seq(|xs|, i requires 0 <= i < |xs| => Bytes(xs[i], 4)));
    VectorPart(IntList(xs).vals, U8, seq(|xs|, i requires 0 <= i < |xs| => Bytes(xs[i], 8)));
  }

  lemma RowsPart(rows: seq<seq<int>>)
    ensures Part(Field(RowList(rows), Vector(Vector(U8)))) == NumRows(rows, 8)
  {
    hide Part, Block, Nums, IntList;
    forall i | 0 <= i < |rows| ensures Part(Field(IntList(rows[i]), Vector(U8))) == Nums(rows[i], 8) { NumsPart(rows[i]); }
    VectorPart(RowList(rows).vals, Vector(U8), seq(|rows|, i requires 0 <= i < |rows| => Nums(rows[i], 8)));
  }

  lemma TextPart(t: Text)
    ensures Part(Field(Chars(t), String)) == TextBytes(t)
  {}

  lemma TextsPart(xs: seq<Text>)
    ensures Part(Field(TextList(xs), Vector(String))) == Texts(xs)
  {
    hide Part, Block, TextBytes;
    forall i | 0 <= i < |xs| ensures Part(Field(Chars(xs[i]), String)) == TextBytes(xs[i]) { TextPart(xs[i]); }
    VectorPart(TextList(xs).vals, String, seq(|xs|, i requires 0 <= i < |xs| => TextBytes(xs[i])));
  }

  lemma MembersPart(ms: seq<seq<Text>>)
    ensures Part(Field(MemberList(ms), Vector(Vector(String)))) == TextRows(ms)
  {
    hide Part, Block, Texts, TextList;
    forall i | 0 <= i < |ms| ensures Part(Field(TextList(ms[i]), Vector(String))) == Texts(ms[i]) { TextsPart(ms[i]); }
    VectorPart(MemberList(ms).vals, Vector(String), seq(|ms|, i requires 0 <= i < |ms| => Texts(ms[i])));
  }

  // ----------------------------------------------------------------- all fields

  lemma {:induction false} WrittenIsJoined(fs: seq<Field>, parts: seq<seq<Byte>>)
    requires |fs| == |parts| && forall i :: 0 <= i < |fs| ==> Part(fs[i]) == parts[i]
    ensures Written(fs) == Joined(parts)
  {
    hide Encode, Write;
    if fs != [] { WrittenIsJoined(fs[..|fs| - 1], parts[..|parts| - 1]); }
  }

  lemma HeadIsParts(e: Event)
    ensures var fs := BaseFields(e); |fs| == |HeadParts(e)| && forall i :: 0 <= i < |fs| ==> Part(fs[i]) == HeadParts(e)[i]
  {
    hide Part, Bytes;
    NumberPart(e.head.id);
    NumberPart(e.head.kind);
    NumberPart(e.head.status);
    if !e.ConnectEvent? && !e.RouterEvent? {
      NumberPart(e.comm.commID);
      NumberPart(e.comm.op);
    }
  }

  lemma OwnIsParts(e: Event)
    ensures var fs := OwnFields(e); |fs| == |OwnParts(e)| && forall i :: 0 <= i < |fs| ==> Part(fs[i]) == OwnParts(e)[i]
  {
    hide Part, Bytes, Nums, NumRows, Texts, TextRows, TextBytes, IntList, RowList, TextList, MemberList;
    match e
    case CreateEvent(_, _, members) => MembersPart(members);
    case DestroyEvent(_, _) =>
    case ReqEvent(_, _, setValues, attrNames, valueOp, grpIndex) => NumsPart(setValues); NumsPart(attrNames); NumsPart(valueOp); NumberPart(grpIndex);
    case RespEvent(_, _, timeStamp, value, grpIndex, errValue, errAttr, errObj) =>
      RowsPart(timeStamp); RowsPart(value); NumberPart(grpIndex); NumsPart(errValue); NumsPart(errAttr); TextsPart(errObj);
    case LogReqEvent(_, _, attrName) => NumberPart(attrName);
    case LogRespEvent(_, _, errValue, errAttr, errObj) => NumsPart(errValue); NumsPart(errAttr); TextsPart(errObj);
    case SamplesReqEvent(_, _, count, period, startTime, attrName) =>
      NumberPart(count); NumberPart(period); NumberPart(startTime); NumberPart(attrName);
    case SamplesRespEvent(_, _, errObj, errAttr, errValue, data, count, startTime) =>
      TextsPart(errObj); NumsPart(errAttr); NumsPart(errValue); NumsPart(data); NumberPart(count); NumberPart(startTime);
    case ConnectEvent(_, name) => TextPart(name);
    case RouterEvent(_, dest, src, eventType, payload) => NumberPart(dest); NumberPart(src); NumberPart(eventType); NumsPart(payload);
  }

  /** What serialize_out appends for an event is its layout, byte by byte. */
  lemma WireIsLayout(e: Event)
    ensures Wire(e) == Layout(e)
  {
    hide Part, HeadParts, OwnParts, Joined, Written;
    HeadIsParts(e);
    OwnIsParts(e);
    var fs, parts := BaseFields(e) + OwnFields(e), HeadParts(e) + OwnParts(e);
    assert Fields(e) == fs;
    forall i | 0 <= i < |fs| ensures Part(fs[i]) == parts[i] {}
    WrittenIsJoined(fs, parts);
  }

  // ------------------------------------------------------------ what fits

  ghost predicate UpTo(n: int, bound: nat) { 0 <= n < bound }

  ghost predicate Signed32(n: int) { -0x8000_0000 <= n < 0x8000_0000 }

  ghost predicate Long<T>(s: seq<T>) { |s| < 0x1_0000_0000 }

  /** The ranges of the C++ types, and of the 32-bit counters of the loops over vectors and
      strings. */
  ghost predicate InBounds(e: Event) {
    && UpTo(e.head.id, 0x1_0000_0000_0000_0000) && UpTo(e.head.kind, 0x1_0000_0000) && Signed32(e.head.status)
    && (!e.ConnectEvent? && !e.RouterEvent? ==> UpTo(e.comm.commID, 0x1_0000_0000_0000_0000) && UpTo(e.comm.op, 0x1_0000_0000))
    && OwnInBounds(e)
  }

  ghost predicate AllUpTo(xs: seq<int>, bound: nat) { Long(xs) && forall i :: 0 <= i < |xs| ==> UpTo(xs[i], bound) }

  ghost predicate AllSigned(xs: seq<int>) { Long(xs) && forall i :: 0 <= i < |xs| ==> Signed32(xs[i]) }

  ghost predicate AllRows(rows: seq<seq<int>>) { Long(rows) && forall i :: 0 <= i < |rows| ==> AllUpTo(rows[i], 0x1_0000_0000_0000_0000) }

  ghost predicate AllLong(xs: seq<Text>) { Long(xs) && forall i :: 0 <= i < |xs| ==> Long(xs[i]) }

  ghost predicate OwnInBounds(e: Event) {
    match e
    case CreateEvent(_, _, members) => Long(members) && forall i :: 0 <= i < |members| ==> AllLong(members[i])
    case DestroyEvent(_, _) => true
    case ReqEvent(_, _, setValues, attrNames, valueOp, grpIndex) =>
      AllUpTo(setValues, 0x1_0000_0000_0000_0000) && AllSigned(attrNames) && AllUpTo(valueOp, 0x1_0000_0000) && UpTo(grpIndex, 0x1_0000_0000_0000_0000)
    case RespEvent(_, _, timeStamp, value, grpIndex, errValue, errAttr, errObj) =>
      AllRows(timeStamp) && AllRows(value) && UpTo(grpIndex, 0x1_0000_0000_0000_0000) && AllSigned(errValue) && AllSigned(errAttr) && AllLong(errObj)
    case LogReqEvent(_, _, attrName) => Signed32(attrName)
    case LogRespEvent(_, _, errValue, errAttr, errObj) => AllSigned(errValue) && AllSigned(errAttr) && AllLong(errObj)
    case SamplesReqEvent(_, _, count, period, startTime, attrName) =>
      UpTo(count, 0x1_0000_0000) && UpTo(period, 0x1_0000_0000_0000_0000) && UpTo(startTime, 0x1_0000_0000_0000_0000) && Signed32(attrName)
    case SamplesRespEvent(_, _, errObj, errAttr, errValue, data, count, startTime) =>
      AllLong(errObj) && AllSigned(errAttr) && AllSigned(errValue) && AllUpTo(data, 0x1_0000_0000_0000_0000)
      && UpTo(count, 0x1_0000_0000) && UpTo(startTime, 0x1_0000_0000_0000_0000)
    case ConnectEvent(_, name) => Long(name)
    case RouterEvent(_, dest, src, eventType, payload) =>
      UpTo(dest, 0x1_0000_0000_0000_0000) && UpTo(src, 0x1_0000_0000_0000_0000) && UpTo(eventType, 0x1_0000_0000) && Long(payload)
  }

  lemma NumberTyped(n: int)
    ensures HasType(Int(n), U1) <==> UpTo(n, 256)
    ensures HasType(Int(n), U4) <==> UpTo(n, 0x1_0000_0000)
    ensures HasType(Int(n), U8) <==> UpTo(n, 0x1_0000_0000_0000_0000)
    ensures HasType(Int(n), I4) <==> Signed32(n)
  {
    PowValues();
  }

  lemma NumsTyped(xs: seq<int>)
    ensures HasType(IntList(xs), Vector(U1)) <==> AllUpTo(xs, 256)
    ensures HasType(IntList(xs), Vector(U4)) <==> AllUpTo(xs, 0x1_0000_0000)
    ensures HasType(IntList(xs), Vector(U8)) <==> AllUpTo(xs, 0x1_0000_0000_0000_0000)
    ensures HasType(IntList(xs), Vector(I4)) <==> AllSigned(xs)
  {
    PowValues();
    forall i | 0 <= i < |xs|
      ensures HasType(IntList(xs).vals[i], U1) <==> UpTo(xs[i], 256)
      ensures HasType(IntList(xs).vals[i], U4) <==> UpTo(xs[i], 0x1_0000_0000)
      ensures HasType(IntList(xs).vals[i], U8) <==> UpTo(xs[i], 0x1_0000_0000_0000_0000)
      ensures HasType(IntList(xs).vals[i], I4) <==> Signed32(xs[i])
    {
      NumberTyped(xs[i]);
    }
  }

  lemma RowsTyped(rows: seq<seq<int>>)
    ensures HasType(RowList(rows), Vector(Vector(U8))) <==> AllRows(rows)
  {
    hide AllUpTo, IntList;
    PowValues();
    forall i | 0 <= i < |rows| ensures HasType(RowList(rows).vals[i], Vector(U8)) <==> AllUpTo(rows[i], 0x1_0000_0000_0000_0000) { NumsTyped(rows[i]); }
  }

  lemma TextsTyped(xs: seq<Text>)
    ensures HasType(TextList(xs), Vector(String)) <==> AllLong(xs)
  {
    PowValues();
    forall i | 0 <= i < |xs| ensures HasType(TextList(xs).vals[i], String) <==> Long(xs[i]) {}
  }

  lemma MembersTyped(ms: seq<seq<Text>>)
    ensures HasType(MemberList(ms), Vector(Vector(String))) <==> Long(ms) && forall i :: 0 <= i < |ms| ==> AllLong(ms[i])
  {
    hide AllLong, TextList;
    PowValues();
    forall i | 0 <= i < |ms| ensures HasType(MemberList(ms).vals[i], Vector(String)) <==> AllLong(ms[i]) { TextsTyped(ms[i]); }
  }

  lemma AllTypedJoin(a: seq<Field>, b: seq<Field>)
    ensures AllTyped(a + b) <==> AllTyped(a) && AllTyped(b)
  {
    hide HasType;
    if AllTyped(a + b) { TypedParts(a, b); }
  }

  lemma HeadTyped(e: Event)
    ensures AllTyped(BaseFields(e)) <==>
      && UpTo(e.head.id, 0x1_0000_0000_0000_0000) && UpTo(e.head.kind, 0x1_0000_0000) && Signed32(e.head.status)
      && (!e.ConnectEvent? && !e.RouterEvent? ==> UpTo(e.comm.commID, 0x1_0000_0000_0000_0000) && UpTo(e.comm.op, 0x1_0000_0000))
  {
    hide HasType, UpTo, Signed32;
    var fs := BaseFields(e);
    NumberTyped(e.head.id);
    NumberTyped(e.head.kind);
    NumberTyped(e.head.status);
    assert fs[0] == Field(Int(e.head.id), U8) && fs[1] == Field(Int(e.head.kind), U4) && fs[2] == Field(Int(e.head.status), I4);
    if !e.ConnectEvent? && !e.RouterEvent? {
      NumberTyped(e.comm.commID);
      NumberTyped(e.comm.op);
      assert fs[3] == Field(Int(e.comm.commID), U8) && fs[4] == Field(Int(e.comm.op), U4);
    }
  }

  lemma OwnTyped(e: Event)
    ensures AllTyped(OwnFields(e)) <==> OwnInBounds(e)
  {
    hide HasType, UpTo, Signed32, AllUpTo, AllSigned, AllRows, AllLong, IntList, RowList, TextList, MemberList;
    match e
    case CreateEvent(_, _, members) => MembersTyped(members); OneTyped(OwnFields(e)[0]);
    case DestroyEvent(_, _) =>
    case ReqEvent(_, _, setValues, attrNames, valueOp, grpIndex) =>
      NumsTyped(setValues); NumsTyped(attrNames); NumsTyped(valueOp); NumberTyped(grpIndex);
      Indices4(OwnFields(e));
    case RespEvent(_, _, timeStamp, value, grpIndex, errValue, errAttr, errObj) =>
      RowsTyped(timeStamp); RowsTyped(value); NumberTyped(grpIndex); NumsTyped(errValue); NumsTyped(errAttr); TextsTyped(errObj);
      Indices6(OwnFields(e));
    case LogReqEvent(_, _, attrName) => NumberTyped(attrName); OneTyped(OwnFields(e)[0]);
    case LogRespEvent(_, _, errValue, errAttr, errObj) => NumsTyped(errValue); NumsTyped(errAttr); TextsTyped(errObj); Indices3(OwnFields(e));
    case SamplesReqEvent(_, _, count, period, startTime, attrName) =>
      NumberTyped(count); NumberTyped(period); NumberTyped(startTime); NumberTyped(attrName);
      Indices4(OwnFields(e));
    case SamplesRespEvent(_, _, errObj, errAttr, errValue, data, count, startTime) =>
      TextsTyped(errObj); NumsTyped(errAttr); NumsTyped(errValue); NumsTyped(data); NumberTyped(count); NumberTyped(startTime);
      Indices6(OwnFields(e));
    case ConnectEvent(_, name) => NameTyped(name); OneTyped(OwnFields(e)[0]);
    case RouterEvent(_, dest, src, eventType, payload) =>
      NumberTyped(dest); NumberTyped(src); NumberTyped(eventType); PayloadTyped(payload);
      Indices4(OwnFields(e));
  }

  lemma NameTyped(name: Text)
    ensures HasType(Chars(name), String) <==> Long(name)
  {
    PowValues();
  }

  lemma PayloadTyped(payload: seq<Byte>)
    ensures HasType(IntList(payload), Vector(U1)) <==> Long(payload)
  {
    NumsTyped(payload);
  }

  ghost predicate Typed(f: Field) { HasType(f.val, f.of) }

  lemma OneTyped(f: Field)
    ensures AllTyped([f]) <==> Typed(f)
  {
    assert [f][0] == f;
  }

  lemma Indices3(fs: seq<Field>)
    requires |fs| == 3
    ensures AllTyped(fs) <==> Typed(fs[0]) && Typed(fs[1]) && Typed(fs[2])
  {}

  lemma Indices4(fs: seq<Field>)
    requires |fs| == 4
    ensures AllTyped(fs) <==> Typed(fs[0]) && Typed(fs[1]) && Typed(fs[2]) && Typed(fs[3])
  {}

  lemma Indices6(fs: seq<Field>)
    requires |fs| == 6
    ensures AllTyped(fs) <==> Typed(fs[0]) && Typed(fs[1]) && Typed(fs[2]) && Typed(fs[3]) && Typed(fs[4]) && Typed(fs[5])
  {}

  /** An event can be read back whenever its fields are in the ranges of their types. */
  lemma InRangeIff(e: Event)
    ensures InRange(e) <==> InBounds(e)
  {
    hide AllTyped, UpTo, Signed32, OwnInBounds;
    HeadTyped(e);
    OwnTyped(e);
    assert Fields(e) == BaseFields(e) + OwnFields(e);
    AllTypedJoin(BaseFields(e), OwnFields(e));
  }

  /** The numbers of the event types. */
  lemma EventTypes(e: Event)
    ensures Code(KindOf(e)) ==
      if e.CreateEvent? then 1 else if e.DestroyEvent? then 2 else if e.ReqEvent? then 3 else if e.RespEvent? then 4
      else if e.LogReqEvent? then 5 else if e.LogRespEvent? then 6 else if e.SamplesReqEvent? then 7
      else if e.SamplesRespEvent? then 8 else if e.ConnectEvent? then 9 else 10
  {}
}
