/** UTF-8 as section 3 of RFC 3629 defines it: the texts the parsers accept are the encodings of
    sequences of Unicode scalar values. */
module Utf8 {
  import opened Wrappers
  import opened BigEndian
  import opened ProtobufWire

  /** A code point that is no surrogate. */
  predicate IsScalar(n: nat) { n < 0xD800 || 0xE000 <= n <= 0x10FFFF }

  function Encode(n: nat): seq<nat> {
    if n < 0x80 then [n]
    else if n < 0x800 then [0xC0 + n / 64, 0x80 + n % 64]
    else if n < 0x1_0000 then [0xE0 + n / 4096, 0x80 + n / 64 % 64, 0x80 + n % 64]
    else [0xF0 + n / 262144, 0x80 + n / 4096 % 64, 0x80 + n / 64 % 64, 0x80 + n % 64]
  }

  function EncodeAll(text: seq<nat>): seq<nat> {
    if text == [] then [] else Encode(text[0]) + EncodeAll(text[1..])
  }

  predicate IsText(text: seq<nat>) { forall n :: n in text ==> IsScalar(n) }

  function Numbers(s: Bytes): (v: seq<nat>)
    ensures |v| == |s| && forall i :: 0 <= i < |s| ==> v[i] == s[i] as nat
  {
    seq(|s|, i requires 0 <= i < |s| => s[i] as nat)
  }

  // ---- one character -----------------------------------------------------

  predicate Continues(n: nat) { 0x80 <= n <= 0xBF }

  /** The syntax of one character, as numbers; the length of the character or 0. */
  function CharLength(v: seq<nat>): (k: nat)
    ensures k <= 4 && k <= |v|
  {
    if v == [] then 0
    else if v[0] < 0x80 then 1
    else if 0xC2 <= v[0] <= 0xDF then if |v| >= 2 && Continues(v[1]) then 2 else 0
    else if 0xE0 <= v[0] <= 0xEF then
      if |v| >= 3 && Continues(v[1]) && Continues(v[2]) && (v[0] == 0xE0 ==> v[1] >= 0xA0)
         && (v[0] == 0xED ==> v[1] <= 0x9F) then 3 else 0
    else if 0xF0 <= v[0] <= 0xF4 then
      if |v| >= 4 && Continues(v[1]) && Continues(v[2]) && Continues(v[3]) && (v[0] == 0xF0 ==> v[1] >= 0x90)
         && (v[0] == 0xF4 ==> v[1] <= 0x8F) then 4 else 0
    else 0
  }

  lemma ByteOrder(b: bv8)
    ensures b < 0x80 <==> b as nat < 0x80
    ensures 0xC2 <= b <= 0xDF <==> 0xC2 <= b as nat <= 0xDF
    ensures 0xE0 <= b <= 0xEF <==> 0xE0 <= b as nat <= 0xEF
    ensures 0xF0 <= b <= 0xF4 <==> 0xF0 <= b as nat <= 0xF4
  {}

  lemma ByteBounds(b: bv8)
    ensures b >= 0xA0 <==> b as nat >= 0xA0
    ensures b <= 0x9F <==> b as nat <= 0x9F
    ensures b >= 0x90 <==> b as nat >= 0x90
    ensures b <= 0x8F <==> b as nat <= 0x8F
    ensures b == 0xE0 <==> b as nat == 0xE0
    ensures b == 0xED <==> b as nat == 0xED
    ensures b == 0xF0 <==> b as nat == 0xF0
    ensures b == 0xF4 <==> b as nat == 0xF4
  {}

  lemma TailIs(b: bv8)
    ensures Tail(b) <==> Continues(b as nat)
  {
    assert Tail(b) <==> 0x80 <= b <= 0xBF;
  }

  lemma ValidStep(s: Bytes)
    requires s != []
    ensures ValidUtf8(s) <==> CharLength(Numbers(s)) > 0 && ValidUtf8(s[CharLength(Numbers(s))..])
  {
    var v := Numbers(s);
    assert v[0] == s[0] as nat;
    ByteOrder(s[0]);
    ByteBounds(s[0]);
    TailsAre(s);
    hide Tail, Continues, Numbers;
    if v[0] < 0x80 {
    } else if 0xC2 <= v[0] <= 0xDF {
    } else if 0xE0 <= v[0] <= 0xEF {
    } else if 0xF0 <= v[0] <= 0xF4 {
    }
  }

  lemma TailsAre(s: Bytes)
    ensures forall i :: 1 <= i < |s| ==> (Tail(s[i]) <==> Continues(Numbers(s)[i]))
    ensures |s| >= 2 ==>
      && (s[1] >= 0xA0 <==> Numbers(s)[1] >= 0xA0) && (s[1] <= 0x9F <==> Numbers(s)[1] <= 0x9F)
      && (s[1] >= 0x90 <==> Numbers(s)[1] >= 0x90) && (s[1] <= 0x8F <==> Numbers(s)[1] <= 0x8F)
  {
    hide Tail, Continues;
    forall i | 1 <= i < |s| ensures Tail(s[i]) <==> Continues(Numbers(s)[i]) { TailIs(s[i]); }
    if |s| >= 2 { ByteBounds(s[1]); }
  }

  /** What the syntax admits is the encoding of one scalar value, ... */
  lemma Decodes(v: seq<nat>) returns (n: nat)
    requires CharLength(v) > 0
    ensures IsScalar(n) && Encode(n) == v[..CharLength(v)]
  {
    var k := CharLength(v);
    if k == 1 {
      n := v[0];
    } else if k == 2 {
      n := (v[0] - 0xC0) * 64 + (v[1] - 0x80);
    } else if k == 3 {
      n := ThreeBytes(v[0], v[1], v[2]);
    } else {
      n := FourBytes(v[0], v[1], v[2], v[3]);
    }
  }

  lemma ThreeBytes(a: nat, b: nat, c: nat) returns (n: nat)
    requires 0xE0 <= a <= 0xEF && Continues(b) && Continues(c) && (a == 0xE0 ==> b >= 0xA0) && (a == 0xED ==> b <= 0x9F)
    ensures IsScalar(n) && Encode(n) == [a, b, c]
  {
    n := ((a - 0xE0) * 64 + (b - 0x80)) * 64 + (c - 0x80);
    assert n / 64 == (a - 0xE0) * 64 + (b - 0x80) && n / 4096 == n / 64 / 64 == a - 0xE0;
  }

  lemma FourBytes(a: nat, b: nat, c: nat, d: nat) returns (n: nat)
    requires 0xF0 <= a <= 0xF4 && Continues(b) && Continues(c) && Continues(d)
    requires (a == 0xF0 ==> b >= 0x90) && (a == 0xF4 ==> b <= 0x8F)
    ensures IsScalar(n) && Encode(n) == [a, b, c, d]
  {
    n := (((a - 0xF0) * 64 + (b - 0x80)) * 64 + (c - 0x80)) * 64 + (d - 0x80);
    assert n / 64 == ((a - 0xF0) * 64 + (b - 0x80)) * 64 + (c - 0x80);
    assert n / 4096 == n / 64 / 64 == (a - 0xF0) * 64 + (b - 0x80);
    assert n / 262144 == n / 4096 / 64 == a - 0xF0;
  }

  /** ... and every such encoding is admitted. */
  lemma Encodes(n: nat, rest: seq<nat>)
    requires IsScalar(n)
    ensures CharLength(Encode(n) + rest) == |Encode(n)| && |Encode(n)| >= 1
  {
    var v := Encode(n) + rest;
    if n >= 0x1_0000 {
      assert n / 4096 == n / 262144 * 64 + n / 4096 % 64;
    } else if n >= 0x800 {
      assert n / 64 == n / 4096 * 64 + n / 64 % 64;
    }
  }

  // ---- texts -------------------------------------------------------------

  lemma {:induction false} ValidIsEncoded(s: Bytes) returns (text: seq<nat>)
    requires ValidUtf8(s)
    ensures IsText(text) && EncodeAll(text) == Numbers(s)
    decreases |s|
  {
    if s == [] {
      text := [];
    } else {
      hide ValidUtf8, Encode, IsScalar, CharLength;
      ValidStep(s);
      var v := Numbers(s);
      var k := CharLength(v);
      var n := Decodes(v);
      var rest := ValidIsEncoded(s[k..]);
      assert Numbers(s[k..]) == v[k..];
      text := [n] + rest;
      hide Numbers;
      OneMore(n, rest);
      assert v == v[..k] + v[k..];
    }
  }

  lemma OneMore(n: nat, rest: seq<nat>)
    ensures EncodeAll([n] + rest) == Encode(n) + EncodeAll(rest)
    ensures IsScalar(n) && IsText(rest) ==> IsText([n] + rest)
  {
    hide Encode, IsScalar;
    assert ([n] + rest)[1..] == rest;
  }

  lemma {:induction false} EncodedIsValid(text: seq<nat>, s: Bytes)
    requires IsText(text) && EncodeAll(text) == Numbers(s)
    ensures ValidUtf8(s)
    decreases |text|
  {
    if text == [] {
    } else {
      hide ValidUtf8, Encode, IsScalar, CharLength;
      var n, rest := text[0], text[1..];
      assert n in text;
      Encodes(n, EncodeAll(rest));
      var k := |Encode(n)|;
      var v := Numbers(s);
      assert v[k..] == EncodeAll(rest) && Numbers(s[k..]) == v[k..];
      forall m | m in rest ensures IsScalar(m) { assert m in text; }
      EncodedIsValid(rest, s[k..]);
      ValidStep(s);
    }
  }

  /** The accepted texts are exactly the encodings of sequences of scalar values. */
  lemma Utf8Exact(s: Bytes)
    ensures ValidUtf8(s) <==> exists text :: IsText(text) && EncodeAll(text) == Numbers(s)
  {
    hide ValidUtf8, EncodeAll, IsText;
    if ValidUtf8(s) { var text := ValidIsEncoded(s); }
    forall text | IsText(text) && EncodeAll(text) == Numbers(s) ensures ValidUtf8(s) { EncodedIsValid(text, s); }
  }
}
