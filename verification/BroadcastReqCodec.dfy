/** ChatRoom.Comet.BroadcastReq: an operation, a nested Proto and a speed. */
module BroadcastReqCodec {
  import opened Wrappers
  import opened BigEndian
  import opened ProtobufWire
  import opened ProtoCodec
  import opened RoomReqCodec

  datatype AllReqValue = AllReqValue(protoOp: int32, proto: Option<ProtoValue>, speed: int32, unknown: seq<Field>)

  const NO_ALL := AllReqValue(0, None, 0, [])

  predicate AllKnown(f: Field) {
    if f.value.Varint? then f.number == 1 || f.number == 3 else f.value.Delimited? && f.number == 2
  }

  predicate AllFits(m: AllReqValue) {
    && (m.proto.Some? ==> ProtoFits(m.proto.value) && |SerializeProto(m.proto.value)| < TWO64)
    && (forall f :: f in m.unknown ==> FieldOk(f) && !AllKnown(f))
  }

  function AllFields(m: AllReqValue): seq<Field> {
    ScalarFields(1, m.protoOp) + NestedFields(m.proto) + ScalarFields(3, m.speed) + m.unknown
  }

  function SerializeAll(m: AllReqValue): Bytes { FieldsBytes(AllFields(m)) }

  function TakeAllReq(m: AllReqValue, f: Field): Option<AllReqValue> {
    if f.value.Varint? && f.number == 1 then Some(m.(protoOp := Int32Of(f.value.n)))
    else if f.value.Varint? && f.number == 3 then Some(m.(speed := Int32Of(f.value.n)))
    else if f.value.Delimited? && f.number == 2 then
      match ParseProto(Mutable(m.proto), f.value.bytes)
      case None => None
      case Some(p) => Some(m.(proto := Some(p)))
    else Some(m.(unknown := m.unknown + [f]))
  }

  function MergeAll(m: AllReqValue, from: AllReqValue): AllReqValue {
    AllReqValue(
      NewerInt(m.protoOp, from.protoOp),
      if from.proto.Some? then Some(MergeProto(Mutable(m.proto), from.proto.value)) else m.proto,
      NewerInt(m.speed, from.speed), m.unknown + from.unknown)
  }

  function ParseAll(m: AllReqValue, s: Bytes): Option<AllReqValue> { Parse(TakeAllReq, m, s) }

  // ---- laws --------------------------------------------------------------

  lemma TakeAllScalar(m: AllReqValue, number: nat, v: int32)
    requires number == 1 || number == 3
    ensures TakeAll(TakeAllReq, m, ScalarFields(number, v)) ==
      Some(if v == 0 then m else if number == 1 then m.(protoOp := v) else m.(speed := v))
  {
    hide Int32Of, Int32Wire, ParseProto;
    Int32RoundTrip(v);
    if v != 0 { TakeOne(TakeAllReq, m, Field(number, Varint(Int32Wire(v)))); }
  }

  lemma TakeAllNested(m: AllReqValue, p: Option<ProtoValue>)
    requires p.Some? ==> ProtoFits(p.value)
    ensures TakeAll(TakeAllReq, m, NestedFields(p)) ==
      Some(if p.None? then m else m.(proto := Some(MergeProto(Mutable(m.proto), p.value))))
  {
    hide ParseProto, SerializeProto, MergeProto, ProtoFits;
    match p
    case None =>
    case Some(v) =>
      TakeOne(TakeAllReq, m, Field(2, Delimited(SerializeProto(v))));
      MergeParsed(Mutable(m.proto), v);
  }

  lemma {:induction false} TakeAllUnknown(m: AllReqValue, fs: seq<Field>)
    requires forall f :: f in fs ==> !AllKnown(f)
    ensures TakeAll(TakeAllReq, m, fs) == Some(m.(unknown := m.unknown + fs))
    decreases |fs|
  {
    hide ParseProto;
    if fs == [] {
      assert m.unknown + fs == m.unknown;
    } else {
      var m1 := m.(unknown := m.unknown + [fs[0]]);
      assert !AllKnown(fs[0]) && TakeAllReq(m, fs[0]) == Some(m1);
      TakeAllUnknown(m1, fs[1..]);
      assert m.unknown + fs == m1.unknown + fs[1..];
    }
  }

  lemma TakeAllFields(m: AllReqValue, b: AllReqValue)
    requires AllFits(b)
    ensures TakeAll(TakeAllReq, m, AllFields(b)) == Some(MergeAll(m, b))
  {
    hide TakeAll, TakeAllReq, FieldOk, AllKnown, ProtoFits, SerializeProto, MergeProto, ScalarFields, NestedFields;
    var one, two, three := ScalarFields(1, b.protoOp), NestedFields(b.proto), ScalarFields(3, b.speed);
    TakeAllConcat(TakeAllReq, m, one + two + three, b.unknown);
    TakeAllConcat(TakeAllReq, m, one + two, three);
    TakeAllConcat(TakeAllReq, m, one, two);
    TakeAllScalar(m, 1, b.protoOp);
    var m1 := TakeAll(TakeAllReq, m, one).value;
    TakeAllNested(m1, b.proto);
    var m2 := TakeAll(TakeAllReq, m1, two).value;
    TakeAllScalar(m2, 3, b.speed);
    TakeAllUnknown(TakeAll(TakeAllReq, m2, three).value, b.unknown);
  }

  lemma AllFieldsFit(m: AllReqValue)
    requires AllFits(m)
    ensures forall f :: f in AllFields(m) ==> FieldOk(f)
  {
    Int32RoundTrip(m.protoOp);
    Int32RoundTrip(m.speed);
    hide Int32Wire, AllKnown, ProtoFits, SerializeProto;
  }

  lemma ParseSerializedAll(m: AllReqValue, b: AllReqValue, rest: Bytes)
    requires AllFits(b)
    ensures ParseAll(m, SerializeAll(b) + rest) == ParseAll(MergeAll(m, b), rest)
  {
    hide AllFits, TakeAllReq, AllFields, MergeAll;
    AllFieldsFit(b);
    ParseFields(TakeAllReq, m, AllFields(b), rest);
    TakeAllFields(m, b);
  }

  lemma MergeAllIntoNothing(a: AllReqValue)
    ensures MergeAll(NO_ALL, a) == a
  {
    assert [] + a.unknown == a.unknown;
    if a.proto.Some? { ProtoCodec.MergeIntoNothing(a.proto.value); }
  }

  /** Round trip, and the merge law for two requests in a row, nested messages included. */
  lemma AllReqLaws(a: AllReqValue, b: AllReqValue)
    requires AllFits(a) && AllFits(b)
    ensures ParseAll(NO_ALL, SerializeAll(a)) == Some(a)
    ensures ParseAll(NO_ALL, SerializeAll(a) + SerializeAll(b)) == Some(MergeAll(a, b))
  {
    hide AllFits, SerializeAll, MergeAll;
    ParseSerializedAll(NO_ALL, a, []);
    assert SerializeAll(a) + [] == SerializeAll(a);
    MergeAllIntoNothing(a);
    ParseSerializedAll(NO_ALL, a, SerializeAll(b));
    ParseSerializedAll(a, b, []);
    assert SerializeAll(b) + [] == SerializeAll(b);
  }

  function NestedSize(p: Option<ProtoValue>): nat {
    match p
    case None => 0
    case Some(v) => 1 + DelimitedSize(|SerializeProto(v)|)
  }

  lemma SizeOfNested(p: Option<ProtoValue>)
    ensures |FieldsBytes(NestedFields(p))| == NestedSize(p)
  {
    hide FieldsBytes, SerializeProto, DelimitedSize, FieldBytes;
    match p
    case None => NoFields();
    case Some(v) =>
      FieldsBytesOne(Field(2, Delimited(SerializeProto(v))));
      BytesSize(2, SerializeProto(v));
  }

  lemma SizeOfAll(m: AllReqValue)
    ensures |SerializeAll(m)| ==
      NestedSize(m.proto) + ScalarBytes(m.protoOp) + ScalarBytes(m.speed) + |FieldsBytes(m.unknown)|
  {
    hide FieldsBytes, ScalarBytes, ScalarFields, NestedFields, NestedSize;
    var one, two, three := ScalarFields(1, m.protoOp), NestedFields(m.proto), ScalarFields(3, m.speed);
    ScalarSize(1, m.protoOp);
    SizeOfNested(m.proto);
    ScalarSize(3, m.speed);
    FieldsBytesConcat(one + two + three, m.unknown);
    FieldsBytesConcat(one + two, three);
    FieldsBytesConcat(one, two);
  }

  // ---- the class ---------------------------------------------------------

  class BroadcastReq {
    var protoOp: int32
    var proto: Proto?
    var speed: int32
    var unknown: seq<Field>

    ghost function Value(): AllReqValue
      reads this, proto
    {
      AllReqValue(protoOp, if proto == null then None else Some(proto.Value()), speed, unknown)
    }

    constructor ()
      ensures Value() == NO_ALL && proto == null
    {
      protoOp, proto, speed, unknown := 0, null, 0, [];
    }

    method InternalParse(data: Bytes) returns (ok: bool)
      modifies this, proto
      ensures proto == old(proto) || fresh(proto)
      ensures ParseAll(old(Value()), data) == if ok then Some(Value()) else None
    {
      hide ReadTag, ReadField, ReadDelimited, ReadVarint32, TakeAllReq, ParseProto;
      var rest := data;
      while rest != []
        invariant proto == old(proto) || fresh(proto)
        invariant ParseAll(old(Value()), data) == Parse(TakeAllReq, Value(), rest)
        decreases |rest|
      {
        var t := ReadTag(rest);
        if t.None? { return false; }
        var tag := t.value.value;
        rest := t.value.rest;
        assert ParseAll(old(Value()), data) == AfterTag(TakeAllReq, Value(), tag, rest);
        if tag == 8 || tag == 24 {
          AllScalarTurn(Value(), tag, rest);
          var v := ReadVarint32(rest);
          if v.None? { return false; }
          rest := v.value.rest;
          if tag == 8 {
            protoOp := Int32Of(v.value.value);
          } else {
            speed := Int32Of(v.value.value);
          }
        } else if tag == 18 {
          AllNestedTurn(Value(), rest);
          var b := ReadDelimited(rest);
          if b.None? { return false; }
          MutableProto();
          ok := proto.InternalParse(b.value.value);
          if !ok { return; }
          rest := b.value.rest;
        } else {
          AllOtherTurn(Value(), tag, rest);
          if tag == 0 || tag % 8 == 4 { return false; }
          var f := ReadField(tag, rest);
          if f.None? { return false; }
          unknown := unknown + [f.value.value];
          rest := f.value.rest;
        }
      }
      ok := true;
    }

    /** _internal_mutable_proto. */
    method MutableProto()
      modifies this`proto
      ensures proto != null && (if old(proto) == null then fresh(proto) else proto == old(proto))
      ensures Value() == old(Value()).(proto := Some(Mutable(old(Value()).proto)))
    {
      if proto == null { proto := new Proto(); }
    }

    method InternalSerialize() returns (target: Bytes)
      ensures target == SerializeAll(Value())
    {
      hide FieldBytes, FieldsBytes, ScalarFields, SerializeProto;
      NoFields();
      target := WriteScalar([], [], 1, protoOp);
      ghost var fs := [] + ScalarFields(1, protoOp);
      FieldsBytesConcat(fs, NestedFields(Value().proto));
      if proto != null {
        var nested := proto.InternalSerialize();
        FieldsBytesOne(Field(2, Delimited(nested)));
        target := target + FieldBytes(Field(2, Delimited(nested)));
      }
      fs := fs + NestedFields(Value().proto);
      target := WriteScalar(target, fs, 3, speed);
      fs := fs + ScalarFields(3, speed);
      FieldsBytesConcat(fs, unknown);
      target := target + FieldsBytes(unknown);
      assert fs + unknown == AllFields(Value());
    }

    method ByteSizeLong() returns (total: nat)
      ensures total == |SerializeAll(Value())|
    {
      hide SerializeAll, SerializeProto, ScalarBytes, DelimitedSize, FieldsBytes;
      total := 0;
      if proto != null {
        var nested := proto.ByteSizeLong();
        total := total + 1 + DelimitedSize(nested);
      }
      total := total + ScalarBytes(protoOp);
      total := total + ScalarBytes(speed);
      total := total + |FieldsBytes(unknown)|;
      SizeOfAll(Value());
    }

    method MergeFrom(from: BroadcastReq)
      requires from != this && (from.proto == null || from.proto != proto)
      modifies this, proto
      ensures Value() == MergeAll(old(Value()), old(from.Value()))
    {
      hide NewerInt, MergeProto;
      if from.proto != null {
        MutableProto();
        proto.MergeFrom(from.proto);
      }
      protoOp := NewerInt(protoOp, from.protoOp);
      speed := NewerInt(speed, from.speed);
      unknown := unknown + from.unknown;
    }
  }

  lemma AllScalarTurn(m: AllReqValue, tag: nat, s: Bytes)
    requires tag == 8 || tag == 24
    ensures AfterTag(TakeAllReq, m, tag, s) ==
      match ReadVarint32(s)
      case None => None
      case Some(r) =>
        var v := Int32Of(r.value);
        Parse(TakeAllReq, if tag == 8 then m.(protoOp := v) else m.(speed := v), r.rest)
  {
    hide ReadVarint, Parse, Int32Of, ParseProto;
    match ReadVarint(s, 10)
    case None =>
    case Some(r) => LowBits(r.value);
  }

  lemma AllNestedTurn(m: AllReqValue, s: Bytes)
    ensures AfterTag(TakeAllReq, m, 18, s) ==
      match ReadDelimited(s)
      case None => None
      case Some(r) =>
        match ParseProto(Mutable(m.proto), r.value)
        case None => None
        case Some(p) => Parse(TakeAllReq, m.(proto := Some(p)), r.rest)
  {
    hide ReadDelimited, Parse, ParseProto;
  }

  lemma AllOtherTurn(m: AllReqValue, tag: nat, s: Bytes)
    requires tag != 8 && tag != 18 && tag != 24
    ensures tag == 0 || tag % 8 == 4 ==> ReadField(tag, s).None?
    ensures AfterTag(TakeAllReq, m, tag, s) ==
      match ReadField(tag, s)
      case None => None
      case Some(r) => Parse(TakeAllReq, m.(unknown := m.unknown + [r.value]), r.rest)
  {
    hide ReadDelimited, ReadVarint64, Parse, ParseProto;
  }
}
