/** base64_encode: section 4 of RFC 4648. */
module Base64 {
  import opened Wrappers
  import opened BigEndian

  const UPPER_CASE: string := "ABCDEFGHIJKLMNOPQRSTUVWXYZ"
  const LOWER_CASE: string := "abcdefghijklmnopqrstuvwxyz"
  const OTHERS: string := "0123456789+/"
  const BASE64_CHARS: string := UPPER_CASE + LOWER_CASE + OTHERS

  // ---- the encoding ------------------------------------------------------

  function Symbol(b: bv8): char { if b < 64 then BASE64_CHARS[b as nat] else '=' }

  /** The four six-bit groups of three bytes. */
  function Sextets(a: bv8, b: bv8, c: bv8): (r: Bytes)
    ensures |r| == 4
  {
    [First(a), Second(a, b), Third(b, c), Fourth(c)]
  }

  function First(a: bv8): bv8 { (a & 0xfc) >> 2 }
  function Second(a: bv8, b: bv8): bv8 { ((a & 0x03) << 4) + ((b & 0xf0) >> 4) }
  function Third(b: bv8, c: bv8): bv8 { ((b & 0x0f) << 2) + ((c & 0xc0) >> 6) }
  function Fourth(c: bv8): bv8 { c & 0x3f }

  lemma SextetsSmall(a: bv8, b: bv8, c: bv8)
    ensures forall k :: 0 <= k < 4 ==> Sextets(a, b, c)[k] < 64
  {}

  /** The symbols of the first `k` groups. */
  function Symbols(a: bv8, b: bv8, c: bv8, k: nat): (r: string)
    requires k <= 4
    ensures |r| == k
  {
    if k == 0 then "" else Symbols(a, b, c, k - 1) + [Symbol(Sextets(a, b, c)[k - 1])]
  }

  function Pads(n: nat): (r: string)
    ensures |r| == n
  {
    if n == 0 then "" else Pads(n - 1) + "="
  }

  /** One group: one to three bytes, filled up with zero bits and pads. */
  function Group(g: Bytes): (r: string)
    requires 1 <= |g| <= 3
    ensures |r| == 4
  {
    if |g| == 3 then Symbols(g[0], g[1], g[2], 4)
    else if |g| == 2 then Symbols(g[0], g[1], 0, 3) + Pads(1)
    else Symbols(g[0], 0, 0, 2) + Pads(2)
  }

  /** The length of the last group of `n` bytes. */
  function LastGroup(n: nat): nat
    requires n > 0
  {
    if n % 3 == 0 then 3 else n % 3
  }

  function Encoded(data: Bytes): string
    decreases |data|
  {
    if data == [] then ""
    else
      var cut := |data| - LastGroup(|data|);
      Encoded(data[..cut]) + Group(data[cut..])
  }

  // ---- the two overloads -------------------------------------------------

  /** Filling char_array_4 from char_array_3; only the first three entries when the group is short. */
  method Spread(three: array<bv8>, four: array<bv8>, full: bool)
    requires three.Length == 3 && four.Length == 4 && three != four
    modifies four
    ensures four[..3] == Sextets(three[0], three[1], three[2])[..3]
    ensures full ==> four[..] == Sextets(three[0], three[1], three[2])
  {
    hide First, Second, Third, Fourth, Sextets;
    var a, b, c := three[0], three[1], three[2];
    four[0] := First(a);
    four[1] := Second(a, b);
    four[2] := Third(b, c);
    if full { four[3] := Fourth(c); }
    SextetsAre(a, b, c);
    assert four[..3] == [First(a), Second(a, b), Third(b, c)];
    assert full ==> four[..] == [First(a), Second(a, b), Third(b, c), Fourth(c)];
  }

  lemma SextetsAre(a: bv8, b: bv8, c: bv8)
    ensures Sextets(a, b, c) == [First(a), Second(a, b), Third(b, c), Fourth(c)]
    ensures Sextets(a, b, c)[..3] == [First(a), Second(a, b), Third(b, c)]
  {
    hide First, Second, Third, Fourth;
  }

  /** Appending the symbols of the first `k` entries of char_array_4. */
  method Append(encoded: string, three: array<bv8>, four: array<bv8>, k: nat) returns (r: string)
    requires three.Length == 3 && four.Length == 4 && k <= 4
    requires four[..k] == Sextets(three[0], three[1], three[2])[..k]
    ensures r == encoded + Symbols(three[0], three[1], three[2], k)
  {
    hide Sextets;
    SextetsSmall(three[0], three[1], three[2]);
    r := encoded;
    var j := 0;
    while j < k
      invariant 0 <= j <= k && r == encoded + Symbols(three[0], three[1], three[2], j)
    {
      assert four[j] == four[..k][j] == Sextets(three[0], three[1], three[2])[j];
      r := r + [BASE64_CHARS[four[j] as nat]];
      j := j + 1;
    }
  }

  /** What follows the main loop: a group of `i` bytes that is not full. */
  method Finish(encoded: string, three: array<bv8>, four: array<bv8>, i: nat) returns (r: string)
    requires three.Length == 3 && four.Length == 4 && three != four && i < 3
    modifies three, four
    ensures r == if i == 0 then encoded else encoded + Group(old(three[..i]))
  {
    hide Sextets, Symbols;
    r := encoded;
    if i > 0 {
      var j := i;
      while j < 3
        invariant i <= j <= 3
        invariant forall k :: 0 <= k < i ==> three[k] == old(three[k])
        invariant forall k :: i <= k < j ==> three[k] == 0
      {
        three[j] := 0;
        j := j + 1;
      }
      Spread(three, four, false);
      r := Append(r, three, four, i + 1);
      ghost var padded := r;
      ghost var g := old(three[..i]);
      assert padded == encoded + Symbols(g[0], if i == 1 then 0 else g[1], 0, i + 1);
      var n := i;
      while n < 3
        invariant i <= n <= 3 && r == padded + Pads(n - i)
      {
        r := r + "=";
        n := n + 1;
      }
    }
  }

  /** The overload for a vector. */
  method EncodeVector(data: Bytes) returns (encoded: string)
    ensures encoded == Encoded(data)
  {
    hide Sextets, Symbols, Encoded, Group, Whole;
    EncodedNone();
    encoded := "";
    var i := 0;
    var three := new bv8[3];
    var four := new bv8[4];
    for n := 0 to |data|
      invariant 0 <= i < 3 && i <= n && Whole(n - i)
      invariant encoded == Encoded(data[..n - i])
      invariant forall k :: 0 <= k < i ==> three[k] == data[n - i + k]
    {
      three[i] := data[n];
      i := i + 1;
      if i == 3 {
        Spread(three, four, true);
        encoded := Append(encoded, three, four, 4);
        FullGroup(data, n + 1, three[..]);
        i := 0;
      }
    }
    ShortGroup(data, |data|, i);
    assert data[..|data|] == data;
    assert three[..i] == data[|data| - i..];
    encoded := Finish(encoded, three, four, i);
  }

  /** The overload for a pointer and a size; the bytes behind the pointer are only read. */
  method EncodePointer(data: Bytes, size: int) returns (encoded: string)
    requires size <= |data|
    ensures encoded == Encoded(if size < 0 then [] else data[..size])
  {
    hide Sextets, Symbols, Encoded, Group, Whole;
    EncodedNone();
    encoded := "";
    var i := 0;
    var three := new bv8[3];
    var four := new bv8[4];
    var n := 0;
    while n < size
      invariant 0 <= n <= |data| && (if size < 0 then n == 0 else n <= size)
      invariant 0 <= i < 3 && i <= n && Whole(n - i)
      invariant encoded == Encoded(data[..n - i])
      invariant forall k :: 0 <= k < i ==> three[k] == data[n - i + k]
    {
      three[i] := data[n];
      i := i + 1;
      if i == 3 {
        Spread(three, four, true);
        encoded := Append(encoded, three, four, 4);
        FullGroup(data, n + 1, three[..]);
        i := 0;
      }
      n := n + 1;
    }
    ShortGroup(data, n, i);
    assert three[..i] == data[n - i..n];
    encoded := Finish(encoded, three, four, i);
  }

  /** A whole number of groups. */
  predicate Whole(n: nat) { n % 3 == 0 }

  lemma EncodedNone()
    ensures Encoded([]) == "" && Whole(0)
  {}

  lemma FullGroup(data: Bytes, n: nat, g: Bytes)
    requires 3 <= n <= |data| && Whole(n - 3) && g == data[n - 3..n]
    ensures Encoded(data[..n]) == Encoded(data[..n - 3]) + Symbols(g[0], g[1], g[2], 4) && Whole(n)
  {
    hide Symbols;
    assert data[..n][..n - 3] == data[..n - 3] && data[..n][n - 3..] == g;
  }

  lemma ShortGroup(data: Bytes, n: nat, i: nat)
    requires i <= n <= |data| && i < 3 && Whole(n - i)
    ensures Encoded(data[..n]) ==
      if i == 0 then Encoded(data[..n - i]) else Encoded(data[..n - i]) + Group(data[n - i..n])
  {
    hide Group;
    assert data[..n][..n - i] == data[..n - i] && data[..n][n - i..] == data[n - i..n];
  }

  // ---- the decoder of RFC 4648 -------------------------------------------

  function Index(c: char): Option<nat> {
    if 'A' <= c <= 'Z' then Some(c as int - 'A' as int)
    else if 'a' <= c <= 'z' then Some(c as int - 'a' as int + 26)
    else if '0' <= c <= '9' then Some(c as int - '0' as int + 52)
    else if c == '+' then Some(62)
    else if c == '/' then Some(63)
    else None
  }

  /** The bytes of one group of four symbols; pads only in the last group, unused bits zero. */
  function DecodeGroup(q: string, last: bool): Option<Bytes>
    requires |q| == 4
  {
    if Index(q[0]).None? || Index(q[1]).None? then None
    else
      var a, b := Bits(q[0]), Bits(q[1]);
      var c, d := Bits(q[2]), Bits(q[3]);
      if Index(q[2]).Some? && Index(q[3]).Some? then Some([JoinOne(a, b), JoinTwo(b, c), JoinThree(c, d)])
      else if Index(q[2]).Some? && q[3] == '=' && last && c & 0x03 == 0 then Some([JoinOne(a, b), JoinTwo(b, c)])
      else if q[2] == '=' && q[3] == '=' && last && b & 0x0f == 0 then Some([JoinOne(a, b)])
      else None
  }

  /** The six bits of a symbol. */
  function Bits(c: char): bv8 {
    match Index(c)
    case None => 0
    case Some(k) => Byte(k)
  }

  function JoinOne(a: bv8, b: bv8): bv8 { (a << 2) | (b >> 4) }
  function JoinTwo(b: bv8, c: bv8): bv8 { (b << 4) | (c >> 2) }
  function JoinThree(c: bv8, d: bv8): bv8 { (c << 6) | d }

  function Decode(text: string, last: bool): Option<Bytes>
    decreases |text|
  {
    var n := |text|;
    if n == 0 then Some([])
    else if n < 4 then None
    else match (Decode(text[..n - 4], false), DecodeGroup(text[n - 4..], last))
      case (Some(s), Some(g)) => Some(s + g)
      case (_, _) => None
  }

  // ---- laws --------------------------------------------------------------

  function Code(k: nat): int {
    if k < 26 then 'A' as int + k
    else if k < 52 then 'a' as int + k - 26
    else if k < 62 then '0' as int + k - 52
    else if k == 62 then '+' as int
    else '/' as int
  }

  lemma Table(k: nat)
    requires k < 64
    ensures |BASE64_CHARS| == 64 && BASE64_CHARS[k] as int == Code(k)
  {
    UpperCase();
    LowerCase();
    Others();
    hide UPPER_CASE, LOWER_CASE, OTHERS;
  }

  lemma UpperCase()
    ensures |UPPER_CASE| == 26 && forall k :: 0 <= k < 26 ==> UPPER_CASE[k] as int == 'A' as int + k
  {}

  lemma LowerCase()
    ensures |LOWER_CASE| == 26 && forall k :: 0 <= k < 26 ==> LOWER_CASE[k] as int == 'a' as int + k
  {}

  lemma Others()
    ensures |OTHERS| == 12 && OTHERS[10] == '+' && OTHERS[11] == '/'
    ensures forall k :: 0 <= k < 10 ==> OTHERS[k] as int == '0' as int + k
  {}

  lemma CodeIndex(c: char, k: nat)
    requires k < 64
    ensures c as int == Code(k) <==> Index(c) == Some(k)
  {}

  lemma SymbolIndex(b: bv8)
    requires b < 64
    ensures Index(Symbol(b)) == Some(b as nat) && Bits(Symbol(b)) == b && Symbol(b) != '='
  {
    hide BASE64_CHARS, Index, Code;
    Table(b as nat);
    CodeIndex(Symbol(b), b as nat);
    ByteOf(b);
    PadHasNoIndex();
  }

  lemma PadHasNoIndex()
    ensures Index('=').None?
  {}

  lemma ByteOf(b: bv8)
    ensures Byte(b as nat) == b
  {
    SmallMod(b as nat);
  }

  lemma SmallMod(n: nat)
    requires n < 256
    ensures n % 256 == n
  {}

  lemma IndexSymbol(c: char)
    requires Index(c).Some?
    ensures Bits(c) < 64 && Symbol(Bits(c)) == c
  {
    IndexBound(c);
    hide BASE64_CHARS, Index, Code;
    var k := Index(c).value;
    Table(k);
    CodeIndex(c, k);
    SmallByte(k);
  }

  lemma IndexBound(c: char)
    requires Index(c).Some?
    ensures Index(c).value < 64
  {}

  lemma SmallByte(k: nat)
    requires k < 64
    ensures Byte(k) < 64 && Byte(k) as nat == k
  {
    hide Byte;
    SmallMod(k);
    SmallBits(Byte(k));
  }

  lemma SmallBits(b: bv8)
    requires b as nat < 64
    ensures b < 64
  {}

  lemma GroupBits(a: bv8, b: bv8, c: bv8)
    ensures JoinOne(First(a), Second(a, b)) == a && JoinTwo(Second(a, b), Third(b, c)) == b
    ensures JoinThree(Third(b, c), Fourth(c)) == c
    ensures Third(b, 0) & 0x03 == 0 && Second(a, 0) & 0x0f == 0
  {}

  lemma BitsGroup(a: bv8, b: bv8, c: bv8, d: bv8)
    requires a < 64 && b < 64 && c < 64 && d < 64
    ensures Sextets(JoinOne(a, b), JoinTwo(b, c), JoinThree(c, d)) == [a, b, c, d]
    ensures c & 0x03 == 0 ==> Sextets(JoinOne(a, b), JoinTwo(b, c), 0)[..3] == [a, b, c]
    ensures b & 0x0f == 0 ==> Sextets(JoinOne(a, b), 0, 0)[..2] == [a, b]
  {}

  lemma {:induction false} SymbolsAt(a: bv8, b: bv8, c: bv8, k: nat, j: nat)
    requires j < k <= 4
    ensures Symbols(a, b, c, k)[j] == Symbol(Sextets(a, b, c)[j])
  {
    hide Symbol, Sextets;
    if j < k - 1 { SymbolsAt(a, b, c, k - 1, j); }
  }

  /** The symbols of three bytes, and the six bits they stand for. */
  lemma SymbolBits(a: bv8, b: bv8, c: bv8, k: nat, q: string)
    requires 2 <= k <= 4 && |q| >= k && q[..k] == Symbols(a, b, c, k)
    ensures Index(q[0]).Some? && Index(q[1]).Some? && Bits(q[0]) == First(a) && Bits(q[1]) == Second(a, b)
    ensures k >= 3 ==> Index(q[2]).Some? && Bits(q[2]) == Third(b, c)
    ensures k == 4 ==> Index(q[3]).Some? && Bits(q[3]) == Fourth(c)
  {
    hide Index, Bits, Symbol, Symbols, First, Second, Third, Fourth;
    SextetsSmall(a, b, c);
    forall j | 0 <= j < k ensures Index(q[j]).Some? && Bits(q[j]) == Sextets(a, b, c)[j] {
      SymbolsAt(a, b, c, k, j);
      assert q[j] == q[..k][j];
      SymbolIndex(Sextets(a, b, c)[j]);
    }
  }

  lemma OneGroup(g: Bytes, last: bool)
    requires 1 <= |g| <= 3 && (last || |g| == 3)
    ensures DecodeGroup(Group(g), last) == Some(g)
  {
    PadsAre();
    hide Index, Bits, Symbols, First, Second, Third, Fourth, JoinOne, JoinTwo, JoinThree, Pads;
    PadHasNoIndex();
    var a, b, c := g[0], if |g| >= 2 then g[1] else 0, if |g| == 3 then g[2] else 0;
    GroupBits(a, b, c);
    SymbolBits(a, b, c, |g| + 1, Group(g));
    if |g| == 2 {
      assert Group(g)[3] == '=' && g == [a, b];
    } else if |g| == 1 {
      assert Group(g)[2] == '=' && Group(g)[3] == '=' && g == [a];
    } else {
      assert g == [a, b, c];
    }
  }

  lemma PadsAre()
    ensures Pads(1) == "=" && Pads(2) == "=="
  {
    assert Pads(2) == Pads(1) + "=" && Pads(1) == Pads(0) + "=";
  }

  lemma DecodeMore(head: string, q: string, last: bool)
    requires |q| == 4
    ensures Decode(head + q, last) ==
      match (Decode(head, false), DecodeGroup(q, last))
      case (Some(s), Some(g)) => Some(s + g)
      case (_, _) => None
  {
    hide DecodeGroup;
    var text := head + q;
    assert text[..|text| - 4] == head && text[|text| - 4..] == q;
  }

  /** The decoder recovers every byte string from its encoding. */
  lemma {:induction false} RoundTrip(data: Bytes, last: bool)
    requires last || |data| % 3 == 0
    ensures Decode(Encoded(data), last) == Some(data)
    decreases |data|
  {
    hide DecodeGroup, Group, Decode;
    if data == [] {
      DecodeNone(last);
    } else {
      var cut := |data| - LastGroup(|data|);
      RoundTrip(data[..cut], false);
      OneGroup(data[cut..], last);
      DecodeMore(Encoded(data[..cut]), Group(data[cut..]), last);
      assert data == data[..cut] + data[cut..];
    }
  }

  lemma DecodeNone(last: bool)
    ensures Decode("", last) == Some([])
  {}

  /** A group that decodes is the encoding of its bytes. */
  lemma GroupInverse(q: string, last: bool)
    requires |q| == 4 && DecodeGroup(q, last).Some?
    ensures
      var g := DecodeGroup(q, last).value;
      1 <= |g| <= 3 && (!last ==> |g| == 3) && q == Group(g)
  {
    PadsAre();
    hide Index, Bits, Symbol, Symbols, JoinOne, JoinTwo, JoinThree, Sextets, Pads;
    var a, b, c, d := Bits(q[0]), Bits(q[1]), Bits(q[2]), Bits(q[3]);
    BitsSmall(q[0]);
    BitsSmall(q[1]);
    BitsSmall(q[2]);
    BitsSmall(q[3]);
    BitsGroup(a, b, c, d);
    var g := DecodeGroup(q, last).value;
    if |g| == 3 {
      SpellsGroup(q, g[0], g[1], g[2], 4);
    } else if |g| == 2 {
      SpellsGroup(q, g[0], g[1], 0, 3);
    } else {
      SpellsGroup(q, g[0], 0, 0, 2);
    }
  }

  lemma BitsSmall(c: char)
    ensures Bits(c) < 64 && (Index(c).Some? ==> Symbol(Bits(c)) == c)
  {
    hide Symbol, BASE64_CHARS;
    if Index(c).Some? { IndexSymbol(c); }
  }

  lemma SpellsGroup(q: string, a: bv8, b: bv8, c: bv8, k: nat)
    requires k <= 4 == |q| && forall j :: 0 <= j < k ==> q[j] == Symbol(Sextets(a, b, c)[j])
    ensures q[..k] == Symbols(a, b, c, k)
  {
    hide Symbol, Sextets, Symbols;
    forall j | 0 <= j < k ensures q[..k][j] == Symbols(a, b, c, k)[j] { SymbolsAt(a, b, c, k, j); }
  }

  /** Only encodings decode: the encoder is a bijection onto the texts the decoder accepts. */
  lemma {:induction false} DecodeExact(text: string, last: bool)
    requires Decode(text, last).Some?
    ensures var data := Decode(text, last).value; Encoded(data) == text && (!last ==> |data| % 3 == 0)
    decreases |text|
  {
    hide DecodeGroup, Group, Encoded;
    if text == [] {
      EncodedNone();
    } else {
      var m := |text|;
      DecodeExact(text[..m - 4], false);
      GroupInverse(text[m - 4..], last);
      AppendedGroup(Decode(text[..m - 4], false).value, DecodeGroup(text[m - 4..], last).value);
      assert text == text[..m - 4] + text[m - 4..];
    }
  }

  lemma AppendedGroup(s: Bytes, g: Bytes)
    requires |s| % 3 == 0 && 1 <= |g| <= 3
    ensures Encoded(s + g) == Encoded(s) + Group(g)
    ensures |g| == 3 ==> |s + g| % 3 == 0
  {
    hide Group;
    var data := s + g;
    assert LastGroup(|data|) == |g|;
    assert data[..|s|] == s && data[|s|..] == g;
  }

  /** Four symbols for every three bytes begun, padded by what the last group lacks. */
  lemma {:induction false} EncodedLength(data: Bytes)
    ensures |Encoded(data)| == 4 * ((|data| + 2) / 3)
    ensures
      var pads := (3 - |data| % 3) % 3;
      pads <= |Encoded(data)| && Encoded(data)[|Encoded(data)| - pads..] == Pads(pads)
    decreases |data|
  {
    hide Group, Pads;
    NoPads();
    if data == [] {
    } else {
      EncodedLength(data[..|data| - LastGroup(|data|)]);
      GroupsCount(|data|);
      hide LastGroup;
      GroupPads(data[|data| - LastGroup(|data|)..]);
    }
  }

  lemma GroupsCount(n: nat)
    requires n > 0
    ensures LastGroup(n) <= n && (n - LastGroup(n) + 2) / 3 + 1 == (n + 2) / 3
    ensures (3 - n % 3) % 3 == 3 - LastGroup(n)
  {
    var k := n / 3;
    assert n == 3 * k + n % 3;
  }

  lemma GroupPads(g: Bytes)
    requires 1 <= |g| <= 3
    ensures Group(g)[|g| + 1..] == Pads(3 - |g|)
  {
    hide Symbols, Pads;
    NoPads();
  }

  lemma NoPads()
    ensures Pads(0) == ""
  {}
}
