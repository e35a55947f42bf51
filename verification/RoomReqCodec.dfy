/** ChatRoom.Protocol.Proto: parse, serialize, size and merge. */
module ProtoCodec {
  import opened Wrappers
  import opened BigEndian
  import opened ProtobufWire

  datatype ProtoValue = ProtoValue(ver: int32, op: int32, seqNo: int32, body: Bytes, unknown: seq<Field>)

  const NO_PROTO := ProtoValue(0, 0, 0, [], [])

  predicate ProtoKnown(f: Field) {
    if f.value.Varint? then 1 <= f.number <= 3 else f.value.Delimited? && f.number == 4
  }

  predicate ProtoFits(m: ProtoValue) {
    |m.body| < TWO64 && forall f :: f in m.unknown ==> FieldOk(f) && !ProtoKnown(f)
  }

  function ScalarPart(m: ProtoValue): seq<Field> {
    ScalarFields(1, m.ver) + ScalarFields(2, m.op) + ScalarFields(3, m.seqNo)
  }

  function ProtoFields(m: ProtoValue): seq<Field> { ScalarPart(m) + BytesFields(4, m.body) + m.unknown }

  function SerializeProto(m: ProtoValue): Bytes { FieldsBytes(ProtoFields(m)) }

  function TakeProto(m: ProtoValue, f: Field): Option<ProtoValue> {
    if f.value.Varint? && f.number == 1 then Some(m.(ver := Int32Of(f.value.n)))
    else if f.value.Varint? && f.number == 2 then Some(m.(op := Int32Of(f.value.n)))
    else if f.value.Varint? && f.number == 3 then Some(m.(seqNo := Int32Of(f.value.n)))
    else if f.value.Delimited? && f.number == 4 then Some(m.(body := f.value.bytes))
    else Some(m.(unknown := m.unknown + [f]))
  }

  function MergeProto(m: ProtoValue, from: ProtoValue): ProtoValue {
    ProtoValue(NewerInt(m.ver, from.ver), NewerInt(m.op, from.op), NewerInt(m.seqNo, from.seqNo),
               NewerBytes(m.body, from.body), m.unknown + from.unknown)
  }

  function ParseProto(m: ProtoValue, s: Bytes): Option<ProtoValue> { Parse(TakeProto, m, s) }

  // ---- laws --------------------------------------------------------------

  lemma TakeScalar(m: ProtoValue, number: nat, v: int32)
    requires 1 <= number <= 3
    ensures TakeAll(TakeProto, m, ScalarFields(number, v)) ==
      Some(if v == 0 then m else if number == 1 then m.(ver := v)
           else if number == 2 then m.(op := v) else m.(seqNo := v))
  {
    hide Int32Of, Int32Wire;
    Int32RoundTrip(v);
    if v != 0 { TakeOne(TakeProto, m, Field(number, Varint(Int32Wire(v)))); }
  }

  lemma TakeScalarPart(m: ProtoValue, b: ProtoValue)
    ensures TakeAll(TakeProto, m, ScalarPart(b)) ==
      Some(m.(ver := NewerInt(m.ver, b.ver), op := NewerInt(m.op, b.op), seqNo := NewerInt(m.seqNo, b.seqNo)))
  {
    hide TakeAll, TakeProto, ScalarFields;
    var one, two, three := ScalarFields(1, b.ver), ScalarFields(2, b.op), ScalarFields(3, b.seqNo);
    TakeAllConcat(TakeProto, m, one + two, three);
    TakeAllConcat(TakeProto, m, one, two);
    TakeScalar(m, 1, b.ver);
    var m1 := TakeAll(TakeProto, m, one).value;
    TakeScalar(m1, 2, b.op);
    TakeScalar(TakeAll(TakeProto, m1, two).value, 3, b.seqNo);
  }

  lemma TakeBody(m: ProtoValue, b: Bytes)
    ensures TakeAll(TakeProto, m, BytesFields(4, b)) == Some(m.(body := NewerBytes(m.body, b)))
  {
    if b != [] { TakeOne(TakeProto, m, Field(4, Delimited(b))); }
  }

  lemma {:induction false} TakeUnknown(m: ProtoValue, fs: seq<Field>)
    requires forall f :: f in fs ==> !ProtoKnown(f)
    ensures TakeAll(TakeProto, m, fs) == Some(m.(unknown := m.unknown + fs))
    decreases |fs|
  {
    if fs == [] {
      assert m.unknown + fs == m.unknown;
    } else {
      var m1 := m.(unknown := m.unknown + [fs[0]]);
      assert !ProtoKnown(fs[0]) && TakeProto(m, fs[0]) == Some(m1);
      TakeUnknown(m1, fs[1..]);
      assert m.unknown + fs == m1.unknown + fs[1..];
    }
  }

  lemma TakeFields(m: ProtoValue, b: ProtoValue)
    requires ProtoFits(b)
    ensures TakeAll(TakeProto, m, ProtoFields(b)) == Some(MergeProto(m, b))
  {
    hide TakeAll, TakeProto, FieldOk, ProtoKnown, ScalarPart, BytesFields;
    TakeAllConcat(TakeProto, m, ScalarPart(b) + BytesFields(4, b.body), b.unknown);
    TakeAllConcat(TakeProto, m, ScalarPart(b), BytesFields(4, b.body));
    TakeScalarPart(m, b);
    var m1 := TakeAll(TakeProto, m, ScalarPart(b)).value;
    TakeBody(m1, b.body);
    TakeUnknown(TakeAll(TakeProto, m1, BytesFields(4, b.body)).value, b.unknown);
  }

  lemma FieldsFit(m: ProtoValue)
    requires ProtoFits(m)
    ensures forall f :: f in ProtoFields(m) ==> FieldOk(f)
  {
    Int32RoundTrip(m.ver);
    Int32RoundTrip(m.op);
    Int32RoundTrip(m.seqNo);
    hide Int32Wire, ProtoKnown;
  }

  /** Parsing a serialized Proto into another one merges them. */
  lemma ParseSerialized(m: ProtoValue, b: ProtoValue, rest: Bytes)
    requires ProtoFits(b)
    ensures ParseProto(m, SerializeProto(b) + rest) == ParseProto(MergeProto(m, b), rest)
  {
    hide ProtoFits, TakeProto, ProtoFields, MergeProto;
    FieldsFit(b);
    ParseFields(TakeProto, m, ProtoFields(b), rest);
    TakeFields(m, b);
  }

  lemma MergeParsed(m: ProtoValue, b: ProtoValue)
    requires ProtoFits(b)
    ensures ParseProto(m, SerializeProto(b)) == Some(MergeProto(m, b))
  {
    hide ProtoFits, SerializeProto, MergeProto;
    ParseSerialized(m, b, []);
    assert SerializeProto(b) + [] == SerializeProto(b);
  }

  lemma MergeIntoNothing(a: ProtoValue)
    ensures MergeProto(NO_PROTO, a) == a
  {
    assert [] + a.unknown == a.unknown;
  }

  /** Round trip, and the merge law for two messages in a row. */
  lemma ProtoLaws(a: ProtoValue, b: ProtoValue)
    requires ProtoFits(a) && ProtoFits(b)
    ensures ParseProto(NO_PROTO, SerializeProto(a)) == Some(a)
    ensures ParseProto(NO_PROTO, SerializeProto(a) + SerializeProto(b)) == Some(MergeProto(a, b))
  {
    hide ProtoFits, SerializeProto, MergeProto;
    MergeParsed(NO_PROTO, a);
    MergeIntoNothing(a);
    ParseSerialized(NO_PROTO, a, SerializeProto(b));
    MergeParsed(a, b);
  }

  function ProtoSize(m: ProtoValue): nat {
    OptionalBytes(m.body) + ScalarBytes(m.ver) + ScalarBytes(m.op) + ScalarBytes(m.seqNo) + |FieldsBytes(m.unknown)|
  }

  lemma SizeOfProto(m: ProtoValue)
    ensures |SerializeProto(m)| == ProtoSize(m)
  {
    hide FieldsBytes, ScalarBytes, OptionalBytes, ScalarFields, BytesFields;
    var one, two, three := ScalarFields(1, m.ver), ScalarFields(2, m.op), ScalarFields(3, m.seqNo);
    ScalarSize(1, m.ver);
    ScalarSize(2, m.op);
    ScalarSize(3, m.seqNo);
    BytesSize(4, m.body);
    FieldsBytesConcat(one + two, three);
    FieldsBytesConcat(one, two);
    FieldsBytesConcat(ScalarPart(m) + BytesFields(4, m.body), m.unknown);
    FieldsBytesConcat(ScalarPart(m), BytesFields(4, m.body));
  }

  // ---- the class ---------------------------------------------------------

  class Proto {
    var ver: int32
    var op: int32
    var seqNo: int32
    var body: Bytes
    var unknown: seq<Field>

    ghost function Value(): ProtoValue
      reads this
    {
      ProtoValue(ver, op, seqNo, body, unknown)
    }

    constructor ()
      ensures Value() == NO_PROTO
    {
      ver, op, seqNo, body, unknown := 0, 0, 0, [], [];
    }

    method InternalParse(data: Bytes) returns (ok: bool)
      modifies this
      ensures ParseProto(old(Value()), data) == if ok then Some(Value()) else None
    {
      hide ReadTag, ReadField, ReadDelimited, ReadVarint32, TakeProto;
      var rest := data;
      while rest != []
        invariant ParseProto(old(Value()), data) == Parse(TakeProto, Value(), rest)
        decreases |rest|
      {
        var t := ReadTag(rest);
        if t.None? { return false; }
        var tag := t.value.value;
        rest := t.value.rest;
        assert ParseProto(old(Value()), data) == AfterTag(TakeProto, Value(), tag, rest);
        if tag == 8 || tag == 16 || tag == 24 {
          ScalarTurn(Value(), tag, rest);
          var v := ReadVarint32(rest);
          if v.None? { return false; }
          rest := v.value.rest;
          if tag == 8 {
            ver := Int32Of(v.value.value);
          } else if tag == 16 {
            op := Int32Of(v.value.value);
          } else {
            seqNo := Int32Of(v.value.value);
          }
        } else if tag == 34 {
          BodyTurn(Value(), rest);
          var b := ReadDelimited(rest);
          if b.None? { return false; }
          body := b.value.value;
          rest := b.value.rest;
        } else {
          UnknownTurn(Value(), tag, rest);
          if tag == 0 || tag % 8 == 4 { return false; }
          var f := ReadField(tag, rest);
          if f.None? { return false; }
          unknown := unknown + [f.value.value];
          rest := f.value.rest;
        }
      }
      ok := true;
    }

    method InternalSerialize() returns (target: Bytes)
      ensures target == SerializeProto(Value())
    {
      hide FieldBytes, FieldsBytes, ScalarFields, BytesFields;
      NoFields();
      target := WriteScalar([], [], 1, ver);
      ghost var fs := [] + ScalarFields(1, ver);
      target := WriteScalar(target, fs, 2, op);
      fs := fs + ScalarFields(2, op);
      target := WriteScalar(target, fs, 3, seqNo);
      fs := fs + ScalarFields(3, seqNo);
      target := WriteBytes(target, fs, 4, body);
      fs := fs + BytesFields(4, body);
      FieldsBytesConcat(fs, unknown);
      target := target + FieldsBytes(unknown);
      assert fs + unknown == ProtoFields(Value());
    }

    method ByteSizeLong() returns (total: nat)
      ensures total == |SerializeProto(Value())|
    {
      hide SerializeProto, ScalarBytes, OptionalBytes, FieldsBytes;
      total := OptionalBytes(body);
      total := total + ScalarBytes(ver);
      total := total + ScalarBytes(op);
      total := total + ScalarBytes(seqNo);
      total := total + |FieldsBytes(unknown)|;
      SizeOfProto(Value());
    }

    method MergeFrom(from: Proto)
      requires from != this
      modifies this
      ensures Value() == MergeProto(old(Value()), from.Value())
    {
      hide NewerInt, NewerBytes;
      body := NewerBytes(body, from.body);
      ver := NewerInt(ver, from.ver);
      op := NewerInt(op, from.op);
      seqNo := NewerInt(seqNo, from.seqNo);
      unknown := unknown + from.unknown;
    }
  }

  lemma ScalarTurn(m: ProtoValue, tag: nat, s: Bytes)
    requires tag in {8, 16, 24}
    ensures AfterTag(TakeProto, m, tag, s) ==
      match ReadVarint32(s)
      case None => None
      case Some(r) =>
        var v := Int32Of(r.value);
        Parse(TakeProto, if tag == 8 then m.(ver := v) else if tag == 16 then m.(op := v) else m.(seqNo := v), r.rest)
  {
    hide ReadVarint, Parse, Int32Of;
    match ReadVarint(s, 10)
    case None =>
    case Some(r) => LowBits(r.value);
  }

  lemma BodyTurn(m: ProtoValue, s: Bytes)
    ensures AfterTag(TakeProto, m, 34, s) ==
      match ReadDelimited(s)
      case None => None
      case Some(r) => Parse(TakeProto, m.(body := r.value), r.rest)
  {
    hide ReadDelimited, Parse;
  }

  lemma UnknownTurn(m: ProtoValue, tag: nat, s: Bytes)
    requires tag !in {8, 16, 24, 34}
    ensures tag == 0 || tag % 8 == 4 ==> ReadField(tag, s).None?
    ensures AfterTag(TakeProto, m, tag, s) ==
      match ReadField(tag, s)
      case None => None
      case Some(r) => Parse(TakeProto, m.(unknown := m.unknown + [r.value]), r.rest)
  {
    hide ReadDelimited, ReadVarint64, Parse;
  }
}

/** ChatRoom.Comet.BroadcastRoomReq: a room id and a nested Proto. */
module RoomReqCodec {
  import opened Wrappers
  import opened BigEndian
  import opened ProtobufWire
  import opened ProtoCodec

  /** An absent nested message differs from an empty one. */
  datatype RoomReqValue = RoomReqValue(roomId: Bytes, proto: Option<ProtoValue>, unknown: seq<Field>)

  const NO_REQ := RoomReqValue([], None, [])

  predicate ReqKnown(f: Field) { f.value.Delimited? && 1 <= f.number <= 2 }

  predicate ReqFits(m: RoomReqValue) {
    && |m.roomId| < TWO64
    && (m.proto.Some? ==> ProtoFits(m.proto.value) && |SerializeProto(m.proto.value)| < TWO64)
    && (forall f :: f in m.unknown ==> FieldOk(f) && !ReqKnown(f))
  }

  function NestedFields(p: Option<ProtoValue>): seq<Field> {
    match p
    case None => []
    case Some(v) => [Field(2, Delimited(SerializeProto(v)))]
  }

  function ReqFields(m: RoomReqValue): seq<Field> {
    BytesFields(1, m.roomId) + NestedFields(m.proto) + m.unknown
  }

  function SerializeReq(m: RoomReqValue): Bytes { FieldsBytes(ReqFields(m)) }

  /** The nested message, created when it is first needed. */
  function Mutable(p: Option<ProtoValue>): ProtoValue { if p.Some? then p.value else NO_PROTO }

  function TakeReq(m: RoomReqValue, f: Field): Option<RoomReqValue> {
    if f.value.Delimited? && f.number == 1 then
      if ValidUtf8(f.value.bytes) then Some(m.(roomId := f.value.bytes)) else None
    else if f.value.Delimited? && f.number == 2 then
      match ParseProto(Mutable(m.proto), f.value.bytes)
      case None => None
      case Some(p) => Some(m.(proto := Some(p)))
    else Some(m.(unknown := m.unknown + [f]))
  }

  function MergeReq(m: RoomReqValue, from: RoomReqValue): RoomReqValue {
    RoomReqValue(
      NewerBytes(m.roomId, from.roomId),
      if from.proto.Some? then Some(MergeProto(Mutable(m.proto), from.proto.value)) else m.proto,
      m.unknown + from.unknown)
  }

  function ParseReq(m: RoomReqValue, s: Bytes): Option<RoomReqValue> { Parse(TakeReq, m, s) }

  // ---- laws --------------------------------------------------------------

  lemma TakeRoomId(m: RoomReqValue, b: Bytes)
    ensures TakeAll(TakeReq, m, BytesFields(1, b)) ==
      if ValidUtf8(b) then Some(m.(roomId := NewerBytes(m.roomId, b))) else None
  {
    hide ParseProto;
    if b != [] {
      hide ValidUtf8;
      TakeOne(TakeReq, m, Field(1, Delimited(b)));
    }
  }

  lemma TakeNested(m: RoomReqValue, p: Option<ProtoValue>)
    requires p.Some? ==> ProtoFits(p.value)
    ensures TakeAll(TakeReq, m, NestedFields(p)) ==
      Some(if p.None? then m else m.(proto := Some(MergeProto(Mutable(m.proto), p.value))))
  {
    hide ParseProto, SerializeProto, MergeProto, ProtoFits, ValidUtf8;
    match p
    case None =>
    case Some(v) =>
      TakeOne(TakeReq, m, Field(2, Delimited(SerializeProto(v))));
      MergeParsed(Mutable(m.proto), v);
  }

  lemma {:induction false} TakeUnknown(m: RoomReqValue, fs: seq<Field>)
    requires forall f :: f in fs ==> !ReqKnown(f)
    ensures TakeAll(TakeReq, m, fs) == Some(m.(unknown := m.unknown + fs))
    decreases |fs|
  {
    hide ParseProto, ValidUtf8;
    if fs == [] {
      assert m.unknown + fs == m.unknown;
    } else {
      var m1 := m.(unknown := m.unknown + [fs[0]]);
      assert !ReqKnown(fs[0]) && TakeReq(m, fs[0]) == Some(m1);
      TakeUnknown(m1, fs[1..]);
      assert m.unknown + fs == m1.unknown + fs[1..];
    }
  }

  lemma TakeFields(m: RoomReqValue, b: RoomReqValue)
    requires ReqFits(b)
    ensures TakeAll(TakeReq, m, ReqFields(b)) == if ValidUtf8(b.roomId) then Some(MergeReq(m, b)) else None
  {
    hide TakeAll, TakeReq, FieldOk, ReqKnown, ProtoFits, SerializeProto, MergeProto, BytesFields, NestedFields;
    hide ValidUtf8;
    var r, n := BytesFields(1, b.roomId), NestedFields(b.proto);
    TakeAllConcat(TakeReq, m, r + n, b.unknown);
    TakeAllConcat(TakeReq, m, r, n);
    TakeRoomId(m, b.roomId);
    if ValidUtf8(b.roomId) {
      var m1 := TakeAll(TakeReq, m, r).value;
      TakeNested(m1, b.proto);
      TakeUnknown(TakeAll(TakeReq, m1, n).value, b.unknown);
    }
  }

  lemma FieldsFit(m: RoomReqValue)
    requires ReqFits(m)
    ensures forall f :: f in ReqFields(m) ==> FieldOk(f)
  {
    hide ReqKnown, ProtoFits, SerializeProto;
  }

  lemma ParseSerialized(m: RoomReqValue, b: RoomReqValue, rest: Bytes)
    requires ReqFits(b)
    ensures ParseReq(m, SerializeReq(b) + rest) ==
      if ValidUtf8(b.roomId) then ParseReq(MergeReq(m, b), rest) else None
  {
    hide ReqFits, TakeReq, ReqFields, MergeReq, ValidUtf8;
    FieldsFit(b);
    ParseFields(TakeReq, m, ReqFields(b), rest);
    TakeFields(m, b);
  }

  lemma MergeIntoNothing(a: RoomReqValue)
    ensures MergeReq(NO_REQ, a) == a
  {
    assert [] + a.unknown == a.unknown;
    if a.proto.Some? { ProtoCodec.MergeIntoNothing(a.proto.value); }
  }

  /** Merge law, recursively: two requests in a row merge their nested messages field by field. */
  lemma MergeLaw(a: RoomReqValue, b: RoomReqValue)
    requires ReqFits(a) && ReqFits(b) && ValidUtf8(a.roomId)
    ensures ParseReq(NO_REQ, SerializeReq(a) + SerializeReq(b)) ==
      if ValidUtf8(b.roomId) then Some(MergeReq(a, b)) else None
  {
    hide ReqFits, SerializeReq, ValidUtf8;
    ParseSerialized(NO_REQ, a, SerializeReq(b));
    MergeIntoNothing(a);
    ParseSerialized(a, b, []);
    assert SerializeReq(b) + [] == SerializeReq(b);
  }

  /** Round trip, absent and empty nested messages kept apart; it holds exactly when the room
      id is UTF-8. */
  lemma RoundTrip(m: RoomReqValue)
    requires ReqFits(m)
    ensures ParseReq(NO_REQ, SerializeReq(m)) == if ValidUtf8(m.roomId) then Some(m) else None
  {
    hide ReqFits, SerializeReq, ValidUtf8;
    ParseSerialized(NO_REQ, m, []);
    MergeIntoNothing(m);
    assert SerializeReq(m) + [] == SerializeReq(m);
  }

  /** A room id of one byte 0xFF is serialized and then not parsed. */
  lemma NotUtf8Example()
    ensures
      var m := NO_REQ.(roomId := [0xFF]);
      ReqFits(m) && ParseReq(NO_REQ, SerializeReq(m)) == None
  {
    var m := NO_REQ.(roomId := [0xFF]);
    assert !ValidUtf8(m.roomId);
    hide SerializeReq, ParseReq, ValidUtf8;
    RoundTrip(m);
  }

  lemma SizeOfReq(m: RoomReqValue)
    ensures |SerializeReq(m)| ==
      OptionalBytes(m.roomId) +
      (match m.proto case None => 0 case Some(p) => 1 + DelimitedSize(|SerializeProto(p)|)) +
      |FieldsBytes(m.unknown)|
  {
    hide FieldsBytes, OptionalBytes, BytesFields, SerializeProto, DelimitedSize, FieldBytes;
    BytesSize(1, m.roomId);
    FieldsBytesConcat(BytesFields(1, m.roomId) + NestedFields(m.proto), m.unknown);
    FieldsBytesConcat(BytesFields(1, m.roomId), NestedFields(m.proto));
    match m.proto
    case None => NoFields();
    case Some(p) =>
      FieldsBytesOne(Field(2, Delimited(SerializeProto(p))));
      BytesSize(2, SerializeProto(p));
  }

  // ---- the class ---------------------------------------------------------

  class BroadcastRoomReq {
    var roomId: Bytes
    var proto: Proto?
    var unknown: seq<Field>

    ghost function Value(): RoomReqValue
      reads this, proto
    {
      RoomReqValue(roomId, if proto == null then None else Some(proto.Value()), unknown)
    }

    constructor ()
      ensures Value() == NO_REQ && proto == null
    {
      roomId, proto, unknown := [], null, [];
    }

    /** _InternalParse; the nested message is parsed in place, on top of what it already holds. */
    method InternalParse(data: Bytes) returns (ok: bool)
      modifies this, proto
      ensures proto == old(proto) || fresh(proto)
      ensures ParseReq(old(Value()), data) == if ok then Some(Value()) else None
    {
      hide ReadTag, ReadField, ReadDelimited, TakeReq, ValidUtf8, ParseProto;
      var rest := data;
      while rest != []
        invariant proto == old(proto) || fresh(proto)
        invariant ParseReq(old(Value()), data) == Parse(TakeReq, Value(), rest)
        decreases |rest|
      {
        var t := ReadTag(rest);
        if t.None? { return false; }
        var tag := t.value.value;
        rest := t.value.rest;
        assert ParseReq(old(Value()), data) == AfterTag(TakeReq, Value(), tag, rest);
        if tag == 10 {
          RoomIdTurn(Value(), rest);
          var b := ReadDelimited(rest);
          if b.None? || !ValidUtf8(b.value.value) { return false; }
          roomId := b.value.value;
          rest := b.value.rest;
        } else if tag == 18 {
          NestedTurn(Value(), rest);
          var b := ReadDelimited(rest);
          if b.None? { return false; }
          MutableProto();
          ok := proto.InternalParse(b.value.value);
          if !ok { return; }
          rest := b.value.rest;
        } else {
          OtherTurn(Value(), tag, rest);
          if tag == 0 || tag % 8 == 4 { return false; }
          var f := ReadField(tag, rest);
          if f.None? { return false; }
          unknown := unknown + [f.value.value];
          rest := f.value.rest;
        }
      }
      ok := true;
    }

    /** _internal_mutable_proto. */
    method MutableProto()
      modifies this`proto
      ensures proto != null && (if old(proto) == null then fresh(proto) else proto == old(proto))
      ensures Value() == old(Value()).(proto := Some(Mutable(old(Value()).proto)))
    {
      if proto == null { proto := new Proto(); }
    }

    method InternalSerialize() returns (target: Bytes)
      ensures target == SerializeReq(Value())
    {
      hide FieldBytes, FieldsBytes, BytesFields, SerializeProto;
      NoFields();
      target := WriteBytes([], [], 1, roomId);
      ghost var fs := [] + BytesFields(1, roomId);
      FieldsBytesConcat(fs, NestedFields(Value().proto));
      if proto != null {
        var nested := proto.InternalSerialize();
        FieldsBytesOne(Field(2, Delimited(nested)));
        target := target + FieldBytes(Field(2, Delimited(nested)));
      }
      fs := fs + NestedFields(Value().proto);
      FieldsBytesConcat(fs, unknown);
      target := target + FieldsBytes(unknown);
      assert fs + unknown == ReqFields(Value());
    }

    method ByteSizeLong() returns (total: nat)
      ensures total == |SerializeReq(Value())|
    {
      hide SerializeReq, SerializeProto, OptionalBytes, DelimitedSize, FieldsBytes;
      total := OptionalBytes(roomId);
      if proto != null {
        var nested := proto.ByteSizeLong();
        total := total + 1 + DelimitedSize(nested);
      }
      total := total + |FieldsBytes(unknown)|;
      SizeOfReq(Value());
    }

    method MergeFrom(from: BroadcastRoomReq)
      requires from != this && (from.proto == null || from.proto != proto)
      modifies this, proto
      ensures Value() == MergeReq(old(Value()), old(from.Value()))
    {
      hide NewerBytes, MergeProto;
      roomId := NewerBytes(roomId, from.roomId);
      if from.proto != null {
        MutableProto();
        proto.MergeFrom(from.proto);
      }
      unknown := unknown + from.unknown;
    }
  }

  lemma RoomIdTurn(m: RoomReqValue, s: Bytes)
    ensures AfterTag(TakeReq, m, 10, s) ==
      match ReadDelimited(s)
      case None => None
      case Some(r) => if !ValidUtf8(r.value) then None else Parse(TakeReq, m.(roomId := r.value), r.rest)
  {
    hide ReadDelimited, Parse, ParseProto, ValidUtf8;
  }

  lemma NestedTurn(m: RoomReqValue, s: Bytes)
    ensures AfterTag(TakeReq, m, 18, s) ==
      match ReadDelimited(s)
      case None => None
      case Some(r) =>
        match ParseProto(Mutable(m.proto), r.value)
        case None => None
        case Some(p) => Parse(TakeReq, m.(proto := Some(p)), r.rest)
  {
    hide ReadDelimited, Parse, ParseProto, ValidUtf8;
  }

  lemma OtherTurn(m: RoomReqValue, tag: nat, s: Bytes)
    requires tag != 10 && tag != 18
    ensures tag == 0 || tag % 8 == 4 ==> ReadField(tag, s).None?
    ensures AfterTag(TakeReq, m, tag, s) ==
      match ReadField(tag, s)
      case None => None
      case Some(r) => Parse(TakeReq, m.(unknown := m.unknown + [r.value]), r.rest)
  {
    hide ReadDelimited, ReadVarint64, Parse, ParseProto, ValidUtf8;
  }
}
