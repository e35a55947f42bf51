/** ChatRoom.Job.PushMsg: parse, serialize, size and merge. */
module PushCodec {
  import opened Wrappers
  import opened BigEndian
  import opened ProtobufWire

  datatype PushValue = PushValue(
    kind: int32, operation: int32, speed: int32,
    server: Bytes, room: Bytes, keys: seq<Bytes>, msg: Bytes,
    unknown: seq<Field>)

  const NO_PUSH := PushValue(0, 0, 0, [], [], [], [], [])

  predicate PushKnown(f: Field) {
    if f.value.Varint? then 1 <= f.number <= 3 else f.value.Delimited? && 4 <= f.number <= 7
  }

  /** A message whose sizes fit 64 bits and whose unknown fields are well formed and unknown. */
  predicate PushFits(m: PushValue) {
    && |m.server| < TWO64 && |m.room| < TWO64 && |m.msg| < TWO64
    && (forall k :: k in m.keys ==> |k| < TWO64)
    && (forall f :: f in m.unknown ==> FieldOk(f) && !PushKnown(f))
  }

  predicate PushTexts(m: PushValue) {
    ValidUtf8(m.server) && ValidUtf8(m.room) && forall k :: k in m.keys ==> ValidUtf8(k)
  }

  // ---- specification -----------------------------------------------------

  function KeyFields(keys: seq<Bytes>): seq<Field> {
    if keys == [] then [] else KeyFields(keys[..|keys| - 1]) + [Field(6, Delimited(keys[|keys| - 1]))]
  }

  function ScalarPart(m: PushValue): seq<Field> {
    ScalarFields(1, m.kind) + ScalarFields(2, m.operation) + ScalarFields(3, m.speed)
  }

  function TextPart(m: PushValue): seq<Field> { BytesFields(4, m.server) + BytesFields(5, m.room) }

  function PushFields(m: PushValue): seq<Field> {
    ScalarPart(m) + TextPart(m) + KeyFields(m.keys) + BytesFields(7, m.msg) + m.unknown
  }

  function SerializePush(m: PushValue): Bytes { FieldsBytes(PushFields(m)) }

  /** What one field does to a message; None when a string is not UTF-8. */
  function TakePush(m: PushValue, f: Field): Option<PushValue> {
    if f.value.Varint? && f.number == 1 then Some(m.(kind := Int32Of(f.value.n)))
    else if f.value.Varint? && f.number == 2 then Some(m.(operation := Int32Of(f.value.n)))
    else if f.value.Varint? && f.number == 3 then Some(m.(speed := Int32Of(f.value.n)))
    else if f.value.Delimited? && f.number == 4 then
      if ValidUtf8(f.value.bytes) then Some(m.(server := f.value.bytes)) else None
    else if f.value.Delimited? && f.number == 5 then
      if ValidUtf8(f.value.bytes) then Some(m.(room := f.value.bytes)) else None
    else if f.value.Delimited? && f.number == 6 then
      if ValidUtf8(f.value.bytes) then Some(m.(keys := m.keys + [f.value.bytes])) else None
    else if f.value.Delimited? && f.number == 7 then Some(m.(msg := f.value.bytes))
    else Some(m.(unknown := m.unknown + [f]))
  }

  /** Keys and unknown fields append; other fields override unless they have their default. */
  function MergePush(m: PushValue, from: PushValue): PushValue {
    PushValue(
      NewerInt(m.kind, from.kind), NewerInt(m.operation, from.operation), NewerInt(m.speed, from.speed),
      NewerBytes(m.server, from.server), NewerBytes(m.room, from.room),
      m.keys + from.keys,
      NewerBytes(m.msg, from.msg),
      m.unknown + from.unknown)
  }

  // ---- laws --------------------------------------------------------------

  function ParsePush(m: PushValue, s: Bytes): Option<PushValue> { Parse(TakePush, m, s) }

  lemma TakeScalarPart(m: PushValue, b: PushValue)
    ensures TakeAll(TakePush, m, ScalarPart(b)) ==
      Some(m.(kind := if b.kind != 0 then b.kind else m.kind,
              operation := if b.operation != 0 then b.operation else m.operation,
              speed := if b.speed != 0 then b.speed else m.speed))
  {
    hide Int32Of, Int32Wire, TakeAll;
    Int32RoundTrip(b.kind);
    Int32RoundTrip(b.operation);
    Int32RoundTrip(b.speed);
    var one, two, three := ScalarFields(1, b.kind), ScalarFields(2, b.operation), ScalarFields(3, b.speed);
    TakeAllConcat(TakePush, m, one + two, three);
    TakeAllConcat(TakePush, m, one, two);
    TakeScalar(m, 1, b.kind);
    var m1 := TakeAll(TakePush, m, one).value;
    TakeScalar(m1, 2, b.operation);
    var m2 := TakeAll(TakePush, m1, two).value;
    TakeScalar(m2, 3, b.speed);
  }

  lemma TakeScalar(m: PushValue, number: nat, v: int32)
    requires 1 <= number <= 3
    ensures TakeAll(TakePush, m, ScalarFields(number, v)) ==
      Some(if v == 0 then m else if number == 1 then m.(kind := v)
           else if number == 2 then m.(operation := v) else m.(speed := v))
  {
    hide Int32Of, Int32Wire;
    Int32RoundTrip(v);
    if v != 0 { TakeOne(TakePush, m, Field(number, Varint(Int32Wire(v)))); }
  }

  lemma TakeBytes(m: PushValue, number: nat, b: Bytes)
    requires number in {4, 5, 7}
    ensures TakeAll(TakePush, m, BytesFields(number, b)) ==
      if b == [] then Some(m)
      else if number == 7 then Some(m.(msg := b))
      else if !ValidUtf8(b) then None
      else if number == 4 then Some(m.(server := b)) else Some(m.(room := b))
  {
    hide ValidUtf8;
    if b != [] { TakeOne(TakePush, m, Field(number, Delimited(b))); }
  }

  lemma NoBytesValid()
    ensures ValidUtf8([])
  {}

  lemma TakeTextPart(m: PushValue, b: PushValue)
    ensures TakeAll(TakePush, m, TextPart(b)) ==
      if ValidUtf8(b.server) && ValidUtf8(b.room) then
        Some(m.(server := if b.server != [] then b.server else m.server,
                room := if b.room != [] then b.room else m.room))
      else None
  {
    hide ValidUtf8, TakeAll;
    NoBytesValid();
    TakeAllConcat(TakePush, m, BytesFields(4, b.server), BytesFields(5, b.room));
    TakeBytes(m, 4, b.server);
    var m1 := TakeAll(TakePush, m, BytesFields(4, b.server));
    if m1.Some? { TakeBytes(m1.value, 5, b.room); }
  }

  lemma {:induction false} TakeKeys(m: PushValue, keys: seq<Bytes>)
    ensures TakeAll(TakePush, m, KeyFields(keys)) ==
      if forall k :: k in keys ==> ValidUtf8(k) then Some(m.(keys := m.keys + keys)) else None
    decreases |keys|
  {
    hide ValidUtf8;
    if keys == [] {
      assert m.keys + keys == m.keys;
    } else {
      var init, last := keys[..|keys| - 1], keys[|keys| - 1];
      assert keys == init + [last];
      TakeKeys(m, init);
      TakeAllConcat(TakePush, m, KeyFields(init), [Field(6, Delimited(last))]);
      if forall k :: k in init ==> ValidUtf8(k) {
        var m1 := m.(keys := m.keys + init);
        TakeOne(TakePush, m1, Field(6, Delimited(last)));
        assert m.keys + keys == m.keys + init + [last];
      }
    }
  }

  lemma {:induction false} TakeUnknown(m: PushValue, fs: seq<Field>)
    requires forall f :: f in fs ==> !PushKnown(f)
    ensures TakeAll(TakePush, m, fs) == Some(m.(unknown := m.unknown + fs))
    decreases |fs|
  {
    hide ValidUtf8;
    if fs == [] {
      assert m.unknown + fs == m.unknown;
    } else {
      var m1 := m.(unknown := m.unknown + [fs[0]]);
      assert !PushKnown(fs[0]) && TakePush(m, fs[0]) == Some(m1);
      TakeUnknown(m1, fs[1..]);
      assert m.unknown + fs == m1.unknown + fs[1..];
    }
  }

  lemma TakeFields(m: PushValue, b: PushValue)
    requires PushFits(b)
    ensures TakeAll(TakePush, m, PushFields(b)) == if PushTexts(b) then Some(MergePush(m, b)) else None
  {
    hide ValidUtf8, TakeAll, TakePush, FieldOk, PushKnown, ScalarPart, TextPart, KeyFields, BytesFields;
    var s, t, k, g := ScalarPart(b), TextPart(b), KeyFields(b.keys), BytesFields(7, b.msg);
    TakeAllConcat(TakePush, m, s + t + k + g, b.unknown);
    TakeAllConcat(TakePush, m, s + t + k, g);
    TakeAllConcat(TakePush, m, s + t, k);
    TakeAllConcat(TakePush, m, s, t);
    TakeScalarPart(m, b);
    var m1 := TakeAll(TakePush, m, s).value;
    TakeTextPart(m1, b);
    if ValidUtf8(b.server) && ValidUtf8(b.room) {
      var m2 := TakeAll(TakePush, m1, t).value;
      TakeKeys(m2, b.keys);
      if PushTexts(b) {
        var m3 := TakeAll(TakePush, m2, k).value;
        TakeBytes(m3, 7, b.msg);
        TakeUnknown(TakeAll(TakePush, m3, g).value, b.unknown);
      }
    }
  }

  lemma FieldsFit(m: PushValue)
    requires PushFits(m)
    ensures forall f :: f in PushFields(m) ==> FieldOk(f)
  {
    hide ValidUtf8, PushKnown;
    KeyFieldsFit(m.keys);
    Int32RoundTrip(m.kind);
    Int32RoundTrip(m.operation);
    Int32RoundTrip(m.speed);
    hide Int32Wire, KeyFields;
  }

  lemma {:induction false} KeyFieldsFit(keys: seq<Bytes>)
    requires forall k :: k in keys ==> |k| < TWO64
    ensures forall f :: f in KeyFields(keys) ==> FieldOk(f)
    decreases |keys|
  {
    if keys == [] {
    } else {
      KeyFieldsFit(keys[..|keys| - 1]);
    }
  }

  /** Parsing a serialized message into another one, with more bytes behind it. */
  lemma ParseSerialized(m: PushValue, b: PushValue, rest: Bytes)
    requires PushFits(b)
    ensures ParsePush(m, SerializePush(b) + rest) ==
      if PushTexts(b) then ParsePush(MergePush(m, b), rest) else None
  {
    hide PushFits, PushTexts, TakePush, PushFields, MergePush;
    FieldsFit(b);
    ParseFields(TakePush, m, PushFields(b), rest);
    TakeFields(m, b);
  }

  /** Merge law: parsing two serialized messages in a row is merging them. */
  lemma MergeLaw(a: PushValue, b: PushValue)
    requires PushFits(a) && PushFits(b) && PushTexts(a)
    ensures ParsePush(NO_PUSH, SerializePush(a) + SerializePush(b)) ==
      if PushTexts(b) then Some(MergePush(a, b)) else None
  {
    hide PushFits, PushTexts, SerializePush;
    ParseSerialized(NO_PUSH, a, SerializePush(b));
    MergeIntoNothing(a);
    ParseSerialized(a, b, []);
    assert SerializePush(b) + [] == SerializePush(b);
  }

  lemma MergeIntoNothing(a: PushValue)
    ensures MergePush(NO_PUSH, a) == a
  {
    assert [] + a.keys == a.keys && [] + a.unknown == a.unknown;
  }

  /** Round trip: a serialized message parses back to itself exactly when its strings are
      UTF-8, and is rejected otherwise. */
  lemma RoundTrip(m: PushValue)
    requires PushFits(m)
    ensures ParsePush(NO_PUSH, SerializePush(m)) == if PushTexts(m) then Some(m) else None
  {
    hide PushFits, PushTexts, SerializePush;
    ParseSerialized(NO_PUSH, m, []);
    MergeIntoNothing(m);
    assert SerializePush(m) + [] == SerializePush(m);
  }

  /** A room name of one byte 0xFF is serialized and then not parsed. */
  lemma NotUtf8Example()
    ensures
      var m := NO_PUSH.(room := [0xFF]);
      PushFits(m) && ParsePush(NO_PUSH, SerializePush(m)) == None
  {
    var m := NO_PUSH.(room := [0xFF]);
    assert !ValidUtf8(m.room);
    hide SerializePush, ParsePush, ValidUtf8;
    RoundTrip(m);
  }

  // ---- the class ---------------------------------------------------------

  class PushMsg {
    var kind: int32
    var operation: int32
    var speed: int32
    var server: Bytes
    var room: Bytes
    var keys: seq<Bytes>
    var msg: Bytes
    var unknown: seq<Field>

    ghost function Value(): PushValue
      reads this
    {
      PushValue(kind, operation, speed, server, room, keys, msg, unknown)
    }

    constructor ()
      ensures Value() == NO_PUSH
    {
      kind, operation, speed, server, room, keys, msg, unknown := 0, 0, 0, [], [], [], [], [];
    }

    /** _InternalParse: the fields found in `data` are merged into this message. */
    method InternalParse(data: Bytes) returns (ok: bool)
      modifies this
      ensures ParsePush(old(Value()), data) == if ok then Some(Value()) else None
    {
      hide ReadTag, ReadField, ReadDelimited, ReadVarint64, ReadVarint32, TakePush, ValidUtf8;
      var rest := data;
      while rest != []
        invariant ParsePush(old(Value()), data) == Parse(TakePush, Value(), rest)
        decreases |rest|
      {
        var t := ReadTag(rest);
        if t.None? { return false; }
        var tag := t.value.value;
        rest := t.value.rest;
        assert ParsePush(old(Value()), data) == AfterTag(TakePush, Value(), tag, rest);
        if tag == 8 || tag == 16 || tag == 24 {
          ScalarTurn(Value(), tag, rest);
          var v := if tag == 8 then ReadVarint64(rest) else ReadVarint32(rest);
          if v.None? { return false; }
          rest := v.value.rest;
          if tag == 8 {
            kind := Int32Of(v.value.value);
          } else if tag == 16 {
            operation := Int32Of(v.value.value);
          } else {
            speed := Int32Of(v.value.value);
          }
        } else if tag == 34 || tag == 42 || tag == 58 {
          BytesTurn(Value(), tag, rest);
          var b := ReadDelimited(rest);
          if b.None? || (tag != 58 && !ValidUtf8(b.value.value)) { return false; }
          rest := b.value.rest;
          if tag == 34 {
            server := b.value.value;
          } else if tag == 42 {
            room := b.value.value;
          } else {
            msg := b.value.value;
          }
        } else if tag == 50 {
          ok, rest := ParseKeys(rest);
          if !ok { return; }
        } else {
          UnknownTurn(Value(), tag, rest);
          if tag == 0 || tag % 8 == 4 { return false; }
          var f := ReadField(tag, rest);
          if f.None? { return false; }
          unknown := unknown + [f.value.value];
          rest := f.value.rest;
        }
      }
      ok := true;
    }

    /** The do-while over repeated keys, entered behind a first tag 50: it does what one turn of
        the tag loop per key would do. */
    method ParseKeys(data: Bytes) returns (ok: bool, rest: Bytes)
      modifies this`keys
      ensures |rest| <= |data|
      ensures AfterTag(TakePush, old(Value()), 50, data) == if ok then Parse(TakePush, Value(), rest) else None
    {
      hide ReadTag, ReadField, ReadDelimited, TakePush, ValidUtf8;
      rest := data;
      var again := true;
      while again
        invariant |rest| <= |data|
        invariant AfterTag(TakePush, old(Value()), 50, data) ==
          if again then AfterTag(TakePush, Value(), 50, rest) else Parse(TakePush, Value(), rest)
        decreases |rest| + if again then 1 else 0
      {
        KeyTurn(Value(), rest);
        var b := ReadDelimited(rest);
        if b.None? || !ValidUtf8(b.value.value) { return false, rest; }
        keys := keys + [b.value.value];
        rest := b.value.rest;
        again := rest != [] && rest[0] == 50;
        if again {
          ExpectTag(rest);
          rest := rest[1..];
        }
      }
      ok := true;
    }

    /** _InternalSerialize. */
    method InternalSerialize() returns (target: Bytes)
      ensures target == SerializePush(Value())
    {
      hide FieldBytes, FieldsBytes, ScalarFields, BytesFields, KeyFields;
      NoFields();
      target := WriteScalar([], [], 1, kind);
      ghost var fs := [] + ScalarFields(1, kind);
      target := WriteScalar(target, fs, 2, operation);
      fs := fs + ScalarFields(2, operation);
      target := WriteScalar(target, fs, 3, speed);
      fs := fs + ScalarFields(3, speed);
      target := WriteBytes(target, fs, 4, server);
      fs := fs + BytesFields(4, server);
      target := WriteBytes(target, fs, 5, room);
      fs := fs + BytesFields(5, room);
      target := WriteKeys(target, fs);
      fs := fs + KeyFields(keys);
      target := WriteBytes(target, fs, 7, msg);
      fs := fs + BytesFields(7, msg);
      FieldsBytesConcat(fs, unknown);
      target := target + FieldsBytes(unknown);
      assert fs + unknown == PushFields(Value());
    }

    method WriteKeys(start: Bytes, ghost fs: seq<Field>) returns (target: Bytes)
      requires start == FieldsBytes(fs)
      ensures target == FieldsBytes(fs + KeyFields(keys))
    {
      hide FieldBytes, FieldsBytes;
      target := start;
      assert fs + KeyFields([]) == fs;
      for i := 0 to |keys|
        invariant target == FieldsBytes(fs + KeyFields(keys[..i]))
      {
        var f := Field(6, Delimited(keys[i]));
        target := target + FieldBytes(f);
        assert keys[..i + 1][..i] == keys[..i];
        FieldsBytesConcat(fs + KeyFields(keys[..i]), [f]);
        FieldsBytesOne(f);
        assert fs + KeyFields(keys[..i + 1]) == fs + KeyFields(keys[..i]) + [f];
      }
      assert keys[..|keys|] == keys;
    }

    /** ByteSizeLong: the exact length of the serialized message. */
    method ByteSizeLong() returns (total: nat)
      ensures total == |SerializePush(Value())|
    {
      hide SerializePush, ScalarBytes, OptionalBytes, DelimitedSize, FieldsBytes;
      total := |keys|;
      for i := 0 to |keys|
        invariant total == |keys| + KeysSize(keys[..i])
      {
        total := total + DelimitedSize(|keys[i]|);
        KeysSizeStep(keys, i);
      }
      assert keys[..|keys|] == keys;
      total := total + OptionalBytes(server);
      total := total + OptionalBytes(room);
      total := total + OptionalBytes(msg);
      total := total + ScalarBytes(kind);
      total := total + ScalarBytes(operation);
      total := total + ScalarBytes(speed);
      total := total + |FieldsBytes(unknown)|;
      SizeOfPush(Value());
    }

    /** MergeFrom. */
    method MergeFrom(from: PushMsg)
      requires from != this
      modifies this
      ensures Value() == MergePush(old(Value()), from.Value())
    {
      hide NewerInt, NewerBytes;
      keys := keys + from.keys;
      server := NewerBytes(server, from.server);
      room := NewerBytes(room, from.room);
      msg := NewerBytes(msg, from.msg);
      kind := NewerInt(kind, from.kind);
      operation := NewerInt(operation, from.operation);
      speed := NewerInt(speed, from.speed);
      unknown := unknown + from.unknown;
    }
  }

  // ---- steps of the class ------------------------------------------------

  lemma ScalarTurn(m: PushValue, tag: nat, s: Bytes)
    requires tag in {8, 16, 24}
    ensures ReadVarint64(s).Some? <==> ReadVarint32(s).Some?
    ensures AfterTag(TakePush, m, tag, s) ==
      match if tag == 8 then ReadVarint64(s) else ReadVarint32(s)
      case None => None
      case Some(r) =>
        var v := Int32Of(r.value);
        Parse(TakePush,
              if tag == 8 then m.(kind := v) else if tag == 16 then m.(operation := v) else m.(speed := v), r.rest)
  {
    hide ReadVarint, ValidUtf8, Parse, Int32Of;
    match ReadVarint(s, 10)
    case None =>
    case Some(r) => LowBits(r.value);
  }

  lemma BytesTurn(m: PushValue, tag: nat, s: Bytes)
    requires tag in {34, 42, 58}
    ensures AfterTag(TakePush, m, tag, s) ==
      match ReadDelimited(s)
      case None => None
      case Some(r) =>
        if tag != 58 && !ValidUtf8(r.value) then None
        else Parse(TakePush,
                   if tag == 34 then m.(server := r.value)
                   else if tag == 42 then m.(room := r.value) else m.(msg := r.value),
                   r.rest)
  {
    hide ReadDelimited, ValidUtf8, Parse;
  }

  lemma KeyTurn(m: PushValue, s: Bytes)
    ensures AfterTag(TakePush, m, 50, s) ==
      match ReadDelimited(s)
      case None => None
      case Some(r) => if !ValidUtf8(r.value) then None else Parse(TakePush, m.(keys := m.keys + [r.value]), r.rest)
  {
    hide ReadDelimited, ValidUtf8, Parse;
  }

  lemma UnknownTurn(m: PushValue, tag: nat, s: Bytes)
    requires tag !in {8, 16, 24, 34, 42, 50, 58}
    ensures tag == 0 || tag % 8 == 4 ==> ReadField(tag, s).None?
    ensures AfterTag(TakePush, m, tag, s) ==
      match ReadField(tag, s)
      case None => None
      case Some(r) => Parse(TakePush, m.(unknown := m.unknown + [r.value]), r.rest)
  {
    hide ReadDelimited, ReadVarint64, ValidUtf8, Parse;
  }

  lemma ExpectTag(s: Bytes)
    requires s != [] && s[0] == 50
    ensures ReadTag(s) == Some(Read(50, s[1..]))
  {}

  function KeysSize(keys: seq<Bytes>): nat {
    if keys == [] then 0 else KeysSize(keys[..|keys| - 1]) + DelimitedSize(|keys[|keys| - 1]|)
  }

  lemma KeysSizeStep(keys: seq<Bytes>, i: nat)
    requires i < |keys|
    ensures KeysSize(keys[..i + 1]) == KeysSize(keys[..i]) + DelimitedSize(|keys[i]|)
  {
    assert keys[..i + 1][..i] == keys[..i];
  }

  lemma {:induction false} KeysSized(keys: seq<Bytes>)
    ensures |FieldsBytes(KeyFields(keys))| == |keys| + KeysSize(keys)
    decreases |keys|
  {
    hide FieldBytes, FieldsBytes, DelimitedSize;
    if keys == [] {
      NoFields();
    } else {
      var init, f := keys[..|keys| - 1], Field(6, Delimited(keys[|keys| - 1]));
      KeysSized(init);
      FieldsBytesConcat(KeyFields(init), [f]);
      FieldsBytesOne(f);
      BytesSize(6, keys[|keys| - 1]);
    }
  }

  lemma SizeOfPush(m: PushValue)
    ensures |SerializePush(m)| ==
      ScalarBytes(m.kind) + ScalarBytes(m.operation) + ScalarBytes(m.speed) +
      OptionalBytes(m.server) + OptionalBytes(m.room) + (|m.keys| + KeysSize(m.keys)) +
      OptionalBytes(m.msg) + |FieldsBytes(m.unknown)|
  {
    hide FieldsBytes, ScalarBytes, OptionalBytes, ScalarFields, BytesFields, KeyFields, KeysSize;
    var one, two, three := ScalarFields(1, m.kind), ScalarFields(2, m.operation), ScalarFields(3, m.speed);
    ScalarSize(1, m.kind);
    ScalarSize(2, m.operation);
    ScalarSize(3, m.speed);
    BytesSize(4, m.server);
    BytesSize(5, m.room);
    BytesSize(7, m.msg);
    KeysSized(m.keys);
    var s, t, k, g := ScalarPart(m), TextPart(m), KeyFields(m.keys), BytesFields(7, m.msg);
    FieldsBytesConcat(one + two, three);
    FieldsBytesConcat(one, two);
    FieldsBytesConcat(BytesFields(4, m.server), BytesFields(5, m.room));
    FieldsBytesConcat(s + t + k + g, m.unknown);
    FieldsBytesConcat(s + t + k, g);
    FieldsBytesConcat(s + t, k);
    FieldsBytesConcat(s, t);
  }
}
