/** The protobuf wire format: varints, tagged fields and the tag loop every message shares. */
module ProtobufWire {
  import opened Wrappers
  import opened BigEndian

  type int32 = x: int | -0x8000_0000 <= x < 0x8000_0000

  const TWO32: nat := 0x1_0000_0000

  /** What a reader returns: a value and the bytes after it. */
  datatype Read<T> = Read(value: T, rest: Bytes)

  // ---- varints -----------------------------------------------------------

  /** Base-128 digits, least significant first, the top bit set on all but the last. */
  function VarintBytes(n: nat): (s: Bytes)
    ensures |s| >= 1
  {
    if n < 128 then [Byte(n)] else [Byte(128 + n % 128)] + VarintBytes(n / 128)
  }

  /** A varint of at most `k` bytes; None when it is cut short or too long. */
  function ReadVarint(s: Bytes, k: nat): (r: Option<Read<nat>>)
    ensures r.Some? ==> |r.value.rest| < |s|
    decreases k
  {
    if s == [] || k == 0 then None
    else if s[0] as nat < 128 then Some(Read(s[0] as nat, s[1..]))
    else match ReadVarint(s[1..], k - 1)
      case None => None
      case Some(r) => Some(Read(s[0] as nat - 128 + 128 * r.value, r.rest))
  }

  function ReadVarint64(s: Bytes): (r: Option<Read<nat>>)
    ensures r.Some? ==> |r.value.rest| < |s|
  {
    match ReadVarint(s, 10)
    case None => None
    case Some(r) => Some(Read(r.value % TWO64, r.rest))
  }

  function ReadVarint32(s: Bytes): (r: Option<Read<nat>>)
    ensures r.Some? ==> |r.value.rest| < |s|
  {
    match ReadVarint(s, 10)
    case None => None
    case Some(r) => Some(Read(r.value % TWO32, r.rest))
  }

  function ReadTag(s: Bytes): (r: Option<Read<nat>>)
    ensures r.Some? ==> |r.value.rest| < |s|
  {
    match ReadVarint(s, 5)
    case None => None
    case Some(r) => Some(Read(r.value % TWO32, r.rest))
  }

  function Pow128(k: nat): (p: nat)
    ensures p > 0
  {
    if k == 0 then 1 else 128 * Pow128(k - 1)
  }

  lemma {:induction false} VarintRoundTrip(n: nat, k: nat, t: Bytes)
    requires k >= 1 && n < Pow128(k)
    ensures ReadVarint(VarintBytes(n) + t, k) == Some(Read(n, t))
    decreases k
  {
    hide ReadVarint, Byte;
    if n < 128 {
      SmallByte(n);
      ReadOn(Byte(n), t, k);
    } else {
      SmallByte(128 + n % 128);
      VarintRoundTrip(n / 128, k - 1, t);
      assert VarintBytes(n) + t == [Byte(128 + n % 128)] + (VarintBytes(n / 128) + t);
      ReadOn(Byte(128 + n % 128), VarintBytes(n / 128) + t, k);
    }
  }

  lemma ReadOn(b: bv8, s: Bytes, k: nat)
    requires k >= 1
    ensures b as nat < 128 ==> ReadVarint([b] + s, k) == Some(Read(b as nat, s))
    ensures b as nat >= 128 && ReadVarint(s, k - 1).Some? ==>
      var r := ReadVarint(s, k - 1).value;
      ReadVarint([b] + s, k) == Some(Read(b as nat - 128 + 128 * r.value, r.rest))
  {
    assert ([b] + s)[0] == b && ([b] + s)[1..] == s;
  }

  lemma SmallByte(n: nat)
    requires n < 256
    ensures Byte(n) as nat == n
  {}

  lemma {:induction false} ReadVarintMore(s: Bytes, k: nat, t: Bytes)
    requires ReadVarint(s, k).Some?
    ensures ReadVarint(s + t, k) == Some(Read(ReadVarint(s, k).value.value, ReadVarint(s, k).value.rest + t))
    decreases k
  {
    assert (s + t)[0] == s[0] && (s + t)[1..] == s[1..] + t;
    if s[0] as nat >= 128 { ReadVarintMore(s[1..], k - 1, t); }
  }

  lemma Powers()
    ensures Pow128(5) == 0x8_0000_0000 && Pow128(9) == 0x8000_0000_0000_0000 && Pow128(10) == 128 * Pow128(9)
  {
    assert Pow128(2) == 128 * Pow128(1) == 128 * (128 * Pow128(0));
    assert Pow128(4) == 128 * Pow128(3) == 128 * (128 * Pow128(2));
    assert Pow128(6) == 128 * Pow128(5) == 128 * (128 * Pow128(4));
    assert Pow128(8) == 128 * Pow128(7) == 128 * (128 * Pow128(6));
    assert Pow128(9) == 128 * Pow128(8);
  }

  function VarintSize(n: nat): nat { if n < 128 then 1 else 1 + VarintSize(n / 128) }

  lemma {:induction false} VarintSized(n: nat)
    ensures |VarintBytes(n)| == VarintSize(n)
  {
    if n < 128 {
    } else {
      VarintSized(n / 128);
    }
  }

  lemma {:induction false} VarintSizeExact(n: nat, k: nat)
    requires Pow128(k) <= n < Pow128(k + 1) || (k == 0 && n < 128)
    ensures VarintSize(n) == k + 1
    decreases k
  {
    if k > 0 {
      LeastPower(k);
      VarintSizeExact(n / 128, k - 1);
    } else {
      assert Pow128(1) == 128 * Pow128(0);
    }
  }

  lemma LeastPower(k: nat)
    requires k > 0
    ensures Pow128(k) >= 128
  {
    assert Pow128(k) == 128 * Pow128(k - 1);
  }

  // ---- int32 -------------------------------------------------------------

  /** An int32 or enum goes out sign-extended to 64 bits and comes back from its low 32. */
  function Int32Wire(v: int32): nat { if v < 0 then v + TWO64 else v }

  function Int32Of(n: nat): int32 {
    var low := n % TWO32;
    if low >= 0x8000_0000 then low - TWO32 else low
  }

  lemma Int32RoundTrip(v: int32)
    ensures Int32Wire(v) < TWO64 && Int32Of(Int32Wire(v)) == v
  {
    if v < 0 {
      assert v + TWO64 == (TWO32 - 1) * TWO32 + (v + TWO32);
    }
  }

  lemma LowBits(n: nat)
    ensures Int32Of(n % TWO64) == Int32Of(n) && Int32Of(n % TWO32) == Int32Of(n)
  {
    LowMod(n);
  }

  lemma LowMod(n: nat)
    ensures n % TWO64 % TWO32 == n % TWO32
  {
    ModAdd(n % TWO64, TWO32 * (n / TWO64));
  }

  lemma ModAdd(a: nat, k: nat)
    ensures (a + k * TWO32) % TWO32 == a % TWO32
  {
    var q, r := a / TWO32, a % TWO32;
    assert a + k * TWO32 == (q + k) * TWO32 + r;
  }

  function Int32Size(v: int32): nat { if v < 0 then 10 else VarintSize(v) }

  lemma Int32Sized(v: int32)
    ensures |VarintBytes(Int32Wire(v))| == Int32Size(v)
  {
    VarintSized(Int32Wire(v));
    if v < 0 {
      Powers();
      VarintSizeExact(Int32Wire(v), 9);
    }
  }

  // ---- fields ------------------------------------------------------------

  datatype WireValue = Varint(n: nat) | Fixed64(eight: Bytes) | Delimited(bytes: Bytes) | Fixed32(four: Bytes)

  datatype Field = Field(number: nat, value: WireValue)

  function WireType(v: WireValue): nat {
    match v
    case Varint(_) => 0
    case Fixed64(_) => 1
    case Delimited(_) => 2
    case Fixed32(_) => 5
  }

  function Tag(f: Field): nat { f.number * 8 + WireType(f.value) }

  predicate FieldOk(f: Field) {
    && 1 <= f.number < 0x2000_0000
    && match f.value
       case Varint(n) => n < TWO64
       case Fixed64(b) => |b| == 8
       case Delimited(b) => |b| < TWO64
       case Fixed32(b) => |b| == 4
  }

  function ValueBytes(v: WireValue): Bytes {
    match v
    case Varint(n) => VarintBytes(n)
    case Fixed64(b) => b
    case Delimited(b) => VarintBytes(|b|) + b
    case Fixed32(b) => b
  }

  function FieldBytes(f: Field): (s: Bytes)
    ensures |s| >= 1
  {
    VarintBytes(Tag(f)) + ValueBytes(f.value)
  }

  function FieldsBytes(fs: seq<Field>): Bytes {
    if fs == [] then [] else FieldBytes(fs[0]) + FieldsBytes(fs[1..])
  }

  /** A length and that many bytes. */
  function ReadDelimited(s: Bytes): (r: Option<Read<Bytes>>)
    ensures r.Some? ==> |r.value.rest| < |s|
  {
    match ReadVarint64(s)
    case None => None
    case Some(r) => if r.value <= |r.rest| then Some(Read(r.rest[..r.value], r.rest[r.value..])) else None
  }

  function ReadFixed(s: Bytes, n: nat): (r: Option<Read<Bytes>>)
    ensures r.Some? ==> |r.value.rest| <= |s|
  {
    if n <= |s| then Some(Read(s[..n], s[n..])) else None
  }

  /** The field behind a tag.  No field has number 0; a zero tag or the end of a group stops
      the parser before the end of the message, which is a failure. */
  function ReadField(tag: nat, s: Bytes): (r: Option<Read<Field>>)
    ensures r.Some? ==> |r.value.rest| <= |s| && Tag(r.value.value) == tag
  {
    var number := tag / 8;
    if number == 0 then None
    else if tag % 8 == 0 then
      match ReadVarint64(s)
      case None => None
      case Some(r) => Some(Read(Field(number, Varint(r.value)), r.rest))
    else if tag % 8 == 1 then
      match ReadFixed(s, 8)
      case None => None
      case Some(r) => Some(Read(Field(number, Fixed64(r.value)), r.rest))
    else if tag % 8 == 2 then
      match ReadDelimited(s)
      case None => None
      case Some(r) => Some(Read(Field(number, Delimited(r.value)), r.rest))
    else if tag % 8 == 5 then
      match ReadFixed(s, 4)
      case None => None
      case Some(r) => Some(Read(Field(number, Fixed32(r.value)), r.rest))
    else None
  }

  lemma DelimitedRoundTrip(b: Bytes, t: Bytes)
    requires |b| < TWO64
    ensures ReadDelimited(VarintBytes(|b|) + b + t) == Some(Read(b, t))
  {
    hide VarintBytes, ReadVarint64;
    Varint64RoundTrip(|b|, b + t);
    assert VarintBytes(|b|) + b + t == VarintBytes(|b|) + (b + t);
    assert (b + t)[..|b|] == b && (b + t)[|b|..] == t;
  }

  lemma Varint64RoundTrip(n: nat, t: Bytes)
    requires n < TWO64
    ensures ReadVarint64(VarintBytes(n) + t) == Some(Read(n, t))
  {
    Powers();
    hide VarintBytes, ReadVarint, Pow128;
    VarintRoundTrip(n, 10, t);
  }

  lemma FieldRoundTrip(f: Field, t: Bytes)
    requires FieldOk(f)
    ensures ReadField(Tag(f), ValueBytes(f.value) + t) == Some(Read(f, t))
  {
    hide VarintBytes, ReadVarint64, ReadDelimited;
    match f.value {
      case Varint(n) =>
        Varint64RoundTrip(n, t);
      case Fixed64(b) =>
        assert (b + t)[..8] == b && (b + t)[8..] == t;
      case Delimited(b) =>
        DelimitedRoundTrip(b, t);
      case Fixed32(b) =>
        assert (b + t)[..4] == b && (b + t)[4..] == t;
    }
  }

  lemma TagRoundTrip(f: Field, t: Bytes)
    requires FieldOk(f)
    ensures ReadTag(FieldBytes(f) + t) == Some(Read(Tag(f), ValueBytes(f.value) + t))
  {
    hide VarintBytes, ReadVarint, ValueBytes;
    Powers();
    VarintRoundTrip(Tag(f), 5, ValueBytes(f.value) + t);
    assert FieldBytes(f) + t == VarintBytes(Tag(f)) + (ValueBytes(f.value) + t);
  }

  lemma ReadDelimitedMore(s: Bytes, t: Bytes)
    requires ReadDelimited(s).Some?
    ensures ReadDelimited(s + t) == Some(Read(ReadDelimited(s).value.value, ReadDelimited(s).value.rest + t))
  {
    hide ReadVarint;
    ReadVarintMore(s, 10, t);
    var r := ReadVarint64(s).value;
    assert (r.rest + t)[..r.value] == r.rest[..r.value] && (r.rest + t)[r.value..] == r.rest[r.value..] + t;
  }

  lemma ReadFieldMore(tag: nat, s: Bytes, t: Bytes)
    requires ReadField(tag, s).Some?
    ensures ReadField(tag, s + t) == Some(Read(ReadField(tag, s).value.value, ReadField(tag, s).value.rest + t))
  {
    hide ReadVarint, ReadDelimited;
    if tag % 8 == 0 {
      ReadVarintMore(s, 10, t);
    } else if tag % 8 == 2 {
      ReadDelimitedMore(s, t);
    } else if tag % 8 == 1 {
      assert (s + t)[..8] == s[..8] && (s + t)[8..] == s[8..] + t;
    } else {
      assert (s + t)[..4] == s[..4] && (s + t)[4..] == s[4..] + t;
    }
  }

  // ---- the tag loop ------------------------------------------------------

  /** One turn per tag: read the tag, read the field, let the message take it. */
  function Parse<M>(take: (M, Field) -> Option<M>, m: M, s: Bytes): Option<M>
    decreases |s|, 0
  {
    if s == [] then Some(m)
    else match ReadTag(s)
      case None => None
      case Some(r) => AfterTag(take, m, r.value, r.rest)
  }

  function AfterTag<M>(take: (M, Field) -> Option<M>, m: M, tag: nat, s: Bytes): Option<M>
    decreases |s|, 1
  {
    match ReadField(tag, s)
    case None => None
    case Some(r) =>
      match take(m, r.value)
      case None => None
      case Some(n) => Parse(take, n, r.rest)
  }

  function TakeAll<M>(take: (M, Field) -> Option<M>, m: M, fs: seq<Field>): Option<M> {
    if fs == [] then Some(m)
    else match take(m, fs[0])
      case None => None
      case Some(n) => TakeAll(take, n, fs[1..])
  }

  lemma {:induction false} TakeAllConcat<M>(take: (M, Field) -> Option<M>, m: M, fs: seq<Field>, gs: seq<Field>)
    ensures TakeAll(take, m, fs + gs) ==
      match TakeAll(take, m, fs)
      case None => None
      case Some(n) => TakeAll(take, n, gs)
    decreases |fs|
  {
    if fs == [] {
      assert fs + gs == gs;
    } else {
      assert (fs + gs)[0] == fs[0] && (fs + gs)[1..] == fs[1..] + gs;
      match take(m, fs[0])
      case None =>
      case Some(n) => TakeAllConcat(take, n, fs[1..], gs);
    }
  }

  lemma TakeOne<M>(take: (M, Field) -> Option<M>, m: M, f: Field)
    ensures TakeAll(take, m, [f]) == take(m, f)
  {
    match take(m, f)
    case None =>
    case Some(n) => assert TakeAll(take, n, []) == Some(n);
  }

  lemma {:induction false} FieldsBytesConcat(fs: seq<Field>, gs: seq<Field>)
    ensures FieldsBytes(fs + gs) == FieldsBytes(fs) + FieldsBytes(gs)
    decreases |fs|
  {
    hide FieldBytes;
    if fs == [] {
      assert fs + gs == gs;
    } else {
      assert (fs + gs)[0] == fs[0] && (fs + gs)[1..] == fs[1..] + gs;
      FieldsBytesConcat(fs[1..], gs);
    }
  }

  lemma FieldsBytesOne(f: Field)
    ensures FieldsBytes([f]) == FieldBytes(f)
  {
    assert FieldsBytes([]) == [];
  }

  /** Parsing printed fields is taking them one by one and going on behind them. */
  lemma {:induction false} ParseFields<M>(take: (M, Field) -> Option<M>, m: M, fs: seq<Field>, t: Bytes)
    requires forall f :: f in fs ==> FieldOk(f)
    ensures Parse(take, m, FieldsBytes(fs) + t) ==
      match TakeAll(take, m, fs)
      case None => None
      case Some(n) => Parse(take, n, t)
    decreases |fs|
  {
    hide ReadTag, ReadField, FieldBytes, ValueBytes, FieldOk;
    if fs == [] {
      assert FieldsBytes(fs) + t == t;
    } else {
      var f := fs[0];
      var rest := FieldsBytes(fs[1..]) + t;
      assert FieldsBytes(fs) + t == FieldBytes(f) + rest;
      TagRoundTrip(f, rest);
      FieldRoundTrip(f, rest);
      match take(m, f)
      case None =>
      case Some(n) => ParseFields(take, n, fs[1..], t);
    }
  }

  /** Parsing one string after another continues with the message the first one left. */
  lemma {:induction false} ParseConcat<M>(take: (M, Field) -> Option<M>, m: M, s: Bytes, t: Bytes)
    requires Parse(take, m, s).Some?
    ensures Parse(take, m, s + t) == Parse(take, Parse(take, m, s).value, t)
    decreases |s|
  {
    hide ReadField, ReadVarint;
    if s == [] {
      assert s + t == t;
    } else {
      ReadVarintMore(s, 5, t);
      var r := ReadTag(s).value;
      assert ReadTag(s + t) == Some(Read(r.value, r.rest + t));
      ReadFieldMore(r.value, r.rest, t);
      var g := ReadField(r.value, r.rest).value;
      ParseConcat(take, take(m, g.value).value, g.rest, t);
    }
  }

  // ---- parts of messages -------------------------------------------------

  /** Default values are not written. */
  function ScalarFields(number: nat, v: int32): seq<Field> {
    if v == 0 then [] else [Field(number, Varint(Int32Wire(v)))]
  }

  function BytesFields(number: nat, b: Bytes): seq<Field> {
    if b == [] then [] else [Field(number, Delimited(b))]
  }

  function DelimitedSize(n: nat): nat { VarintSize(n) + n }

  function ScalarBytes(v: int32): nat { if v == 0 then 0 else 1 + Int32Size(v) }

  function OptionalBytes(b: Bytes): nat { if b == [] then 0 else 1 + DelimitedSize(|b|) }

  /** Merging a scalar or a string: the new value wins unless it is the default. */
  function NewerInt(mine: int32, from: int32): int32 { if from != 0 then from else mine }

  function NewerBytes(mine: Bytes, from: Bytes): Bytes { if from != [] then from else mine }

  /** A number below 16 has a one-byte tag. */
  lemma TagIsByte(f: Field)
    requires f.number < 16
    ensures |FieldBytes(f)| == 1 + |ValueBytes(f.value)|
  {
    hide ValueBytes;
  }

  lemma ScalarSize(number: nat, v: int32)
    requires number < 16
    ensures |FieldsBytes(ScalarFields(number, v))| == ScalarBytes(v)
  {
    hide FieldBytes, VarintBytes;
    if v != 0 {
      var f := Field(number, Varint(Int32Wire(v)));
      FieldsBytesOne(f);
      TagIsByte(f);
      Int32Sized(v);
    }
  }

  lemma BytesSize(number: nat, b: Bytes)
    requires number < 16
    ensures |FieldBytes(Field(number, Delimited(b)))| == 1 + DelimitedSize(|b|)
    ensures |FieldsBytes(BytesFields(number, b))| == OptionalBytes(b)
  {
    hide FieldBytes, VarintBytes;
    var f := Field(number, Delimited(b));
    TagIsByte(f);
    VarintSized(|b|);
    FieldsBytesOne(f);
  }

  lemma NoFields()
    ensures FieldsBytes([]) == []
  {}

  lemma AppendScalar(fs: seq<Field>, number: nat, v: int32)
    ensures FieldsBytes(fs + ScalarFields(number, v)) ==
      if v == 0 then FieldsBytes(fs) else FieldsBytes(fs) + FieldBytes(Field(number, Varint(Int32Wire(v))))
  {
    hide FieldBytes, FieldsBytes;
    if v == 0 {
      assert fs + [] == fs;
    } else {
      FieldsBytesConcat(fs, ScalarFields(number, v));
      FieldsBytesOne(Field(number, Varint(Int32Wire(v))));
    }
  }

  lemma AppendBytes(fs: seq<Field>, number: nat, b: Bytes)
    ensures FieldsBytes(fs + BytesFields(number, b)) ==
      if b == [] then FieldsBytes(fs) else FieldsBytes(fs) + FieldBytes(Field(number, Delimited(b)))
  {
    hide FieldBytes, FieldsBytes;
    if b == [] {
      assert fs + [] == fs;
    } else {
      FieldsBytesConcat(fs, BytesFields(number, b));
      FieldsBytesOne(Field(number, Delimited(b)));
    }
  }

  /** An int32 or enum field, written unless it is zero. */
  method WriteScalar(start: Bytes, ghost fs: seq<Field>, number: nat, v: int32) returns (target: Bytes)
    requires start == FieldsBytes(fs)
    ensures target == FieldsBytes(fs + ScalarFields(number, v))
  {
    hide FieldBytes, FieldsBytes;
    target := start;
    AppendScalar(fs, number, v);
    if v != 0 { target := target + FieldBytes(Field(number, Varint(Int32Wire(v)))); }
  }

  /** A string or bytes field, written unless it is empty. */
  method WriteBytes(start: Bytes, ghost fs: seq<Field>, number: nat, b: Bytes) returns (target: Bytes)
    requires start == FieldsBytes(fs)
    ensures target == FieldsBytes(fs + BytesFields(number, b))
  {
    hide FieldBytes, FieldsBytes;
    target := start;
    AppendBytes(fs, number, b);
    if b != [] { target := target + FieldBytes(Field(number, Delimited(b))); }
  }

  // ---- UTF-8 (section 4 of RFC 3629) -------------------------------------

  predicate Tail(b: bv8) { b & 0xC0 == 0x80 }

  predicate ValidUtf8(s: Bytes) {
    if s == [] then true
    else if s[0] < 0x80 then ValidUtf8(s[1..])
    else if 0xC2 <= s[0] <= 0xDF then |s| >= 2 && Tail(s[1]) && ValidUtf8(s[2..])
    else if 0xE0 <= s[0] <= 0xEF then
      && |s| >= 3 && Tail(s[1]) && Tail(s[2])
      && (s[0] == 0xE0 ==> s[1] >= 0xA0) && (s[0] == 0xED ==> s[1] <= 0x9F)
      && ValidUtf8(s[3..])
    else if 0xF0 <= s[0] <= 0xF4 then
      && |s| >= 4 && Tail(s[1]) && Tail(s[2]) && Tail(s[3])
      && (s[0] == 0xF0 ==> s[1] >= 0x90) && (s[0] == 0xF4 ==> s[1] <= 0x8F)
      && ValidUtf8(s[4..])
    else false
  }
}
