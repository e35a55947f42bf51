/** RFC 6455 framing as websocket_conn.cc does it: building, parsing and cutting frames
    out of the byte stream. */
module WebSocket {
  import opened Wrappers
  import opened BigEndian

  // ---- the wire format (sections 5.2 and 5.3 of RFC 6455) -----------------

  datatype LengthForm = Short | Medium | Long

  /** A frame as a peer may send it: any first byte, any length form that fits, masked or not. */
  datatype Wire = Wire(first: bv8, form: LengthForm, key: Option<Bytes>, payload: Bytes)

  predicate FormFits(form: LengthForm, n: nat) {
    match form
    case Short => n <= 125
    case Medium => n <= 65535
    case Long => n < 0x8000_0000_0000_0000
  }

  predicate WireOk(w: Wire) {
    FormFits(w.form, |w.payload|) && (w.key.Some? ==> |w.key.value| == 4)
  }

  function Masked(payload: Bytes, key: Bytes): (r: Bytes)
    requires |key| == 4
    ensures |r| == |payload|
  {
    seq(|payload|, i requires 0 <= i < |payload| => payload[i] ^ key[i % 4])
  }

  function MaskBit(w: Wire): bv8 { if w.key.Some? then 0x80 else 0 }

  function LengthBytes(w: Wire): (s: Bytes)
    requires WireOk(w)
    ensures |s| >= 1
  {
    match w.form
    case Short => [MaskBit(w) | Byte(|w.payload|)]
    case Medium => [MaskBit(w) | 126] + ToBytes(|w.payload|, 2)
    case Long => [MaskBit(w) | 127] + ToBytes(|w.payload|, 8)
  }

  function Encode(w: Wire): Bytes
    requires WireOk(w)
  {
    [w.first] + LengthBytes(w) +
    (match w.key
     case None => w.payload
     case Some(key) => key + Masked(w.payload, key))
  }

  // ---- BuildWebSocketFrame -----------------------------------------------

  /** The frame of a server: final, unmasked, with the shortest length form. */
  function ServerWire(payload: Bytes, opcode: bv8): Wire {
    Wire(0x80 | (opcode & 0x0F),
         if |payload| <= 125 then Short else if |payload| <= 65535 then Medium else Long,
         None, payload)
  }

  function Built(payload: Bytes, opcode: bv8): Bytes {
    [0x80 | (opcode & 0x0F)] +
    (if |payload| <= 125 then [Byte(|payload|)]
     else if |payload| <= 65535 then [126] + ToBytes(|payload|, 2)
     else [127] + ToBytes(|payload|, 8)) +
    payload
  }

  lemma TwoBytes(n: nat)
    ensures ToBytes(n, 2) == [Byte(n / 256), Byte(n)]
  {
    assert ToBytes(n / 256, 1) == [] + [Byte(n / 256)];
  }

  lemma EightZero(n: nat)
    ensures ToBytes(Shifted(n, 8), 0) == []
  {}

  lemma OneByteShift(n: nat)
    ensures Shifted(n, 0) == n
  {}

  lemma NextByte(n: nat, i: nat)
    requires i <= 7
    ensures ToBytes(Shifted(n, i), 8 - i) == ToBytes(Shifted(n, i + 1), 7 - i) + [Byte(Shifted(n, i))]
  {
    hide Byte;
  }

  method BuildFrame(payload: Bytes, opcode: bv8) returns (frame: Bytes)
    ensures frame == Built(payload, opcode)
  {
    hide ToBytes, Byte, Shifted;
    frame := [0x80 | (opcode & 0x0F)];
    var n := |payload|;
    if n <= 125 {
      frame := frame + [Byte(n)];
    } else if n <= 65535 {
      frame := frame + [126];
      frame := frame + [Byte(n / 256)];
      frame := frame + [Byte(n)];
      TwoBytes(n);
    } else {
      frame := frame + [127];
      var i := 7;
      EightZero(n);
      while i >= 0
        invariant -1 <= i <= 7
        invariant frame == [0x80 | (opcode & 0x0F), 127] + ToBytes(Shifted(n, i + 1), 7 - i)
      {
        NextByte(n, i);
        frame := frame + [Byte(Shifted(n, i))];
        i := i - 1;
      }
      OneByteShift(n);
    }
    frame := frame + payload;
  }

  /** What the server builds is a frame of RFC 6455, and no frame for the payload is shorter. */
  lemma BuiltIsShortest(payload: Bytes, opcode: bv8, w: Wire)
    requires |payload| < 0x8000_0000_0000_0000
    ensures WireOk(ServerWire(payload, opcode)) && Built(payload, opcode) == Encode(ServerWire(payload, opcode))
    ensures WireOk(w) && w.payload == payload ==> |Built(payload, opcode)| <= |Encode(w)|
  {
    hide ToBytes;
    assert 0 as bv8 | Byte(|payload|) == Byte(|payload|);
  }

  // ---- ParseWebSocketFrame -----------------------------------------------

  datatype Frame = Frame(fin: bool, opcode: bv8, mask: bool, length: nat, key: Bytes, payload: Bytes)

  /** Number of extended length bytes. */
  function Extra(b: bv8): nat { if b & 0x7F == 126 then 2 else if b & 0x7F == 127 then 8 else 0 }

  function HeaderLength(b: bv8): nat { 2 + Extra(b) + if b & 0x80 != 0 then 4 else 0 }

  function PayloadLength(s: Bytes): nat
    requires |s| >= 2 && |s| >= 2 + Extra(s[1])
  {
    if Extra(s[1]) == 0 then (s[1] & 0x7F) as nat else FromBytes(s[2..2 + Extra(s[1])])
  }

  /** The frame in `data`; None when the parser would read beyond it. */
  function Parsed(data: Bytes): Option<Frame> {
    if |data| < 2 || |data| < HeaderLength(data[1]) then None
    else
      var rest := data[HeaderLength(data[1])..];
      var masked := data[1] & 0x80 != 0;
      var key := if masked then data[2 + Extra(data[1])..HeaderLength(data[1])] else [];
      Some(Frame(data[0] & 0x80 != 0, data[0] & 0x0F, masked, PayloadLength(data), key,
                 if masked then Masked(rest, key) else rest))
  }

  method ParseFrame(data: Bytes) returns (r: Option<Frame>)
    ensures r == Parsed(data)
  {
    hide LongLength, FromBytes, Masked;
    if |data| < 2 { return None; }
    var fin := data[0] & 0x80 != 0;
    var opcode := data[0] & 0x0F;
    var mask := data[1] & 0x80 != 0;
    var length: nat := (data[1] & 0x7F) as nat;
    var offset := 2;
    SmallField(data[1]);
    hide Extra;
    if length == 126 {
      if |data| < 4 { return None; }
      length := data[2] as nat * 256 + data[3] as nat;
      FromTwo(data[2..4]);
      offset := offset + 2;
    } else if length == 127 {
      if |data| < 10 { return None; }
      length := LongLength(data);
      FromEight(data);
      offset := offset + 8;
    }
    var key: Bytes := [];
    if mask {
      if |data| < offset + 4 { return None; }
      key := data[offset..offset + 4];
      offset := offset + 4;
    }
    assert offset == HeaderLength(data[1]) && length == PayloadLength(data);
    hide PayloadLength, HeaderLength;
    var payload := data[offset..];
    if mask {
      ghost var whole := payload;
      var i := 0;
      while i < |payload|
        invariant 0 <= i <= |payload| == |whole|
        invariant forall k :: 0 <= k < i ==> payload[k] == whole[k] ^ key[k % 4]
        invariant forall k :: i <= k < |payload| ==> payload[k] == whole[k]
      {
        payload := payload[i := payload[i] ^ key[i % 4]];
        i := i + 1;
      }
      MaskedAt(whole, key, payload);
    }
    r := Some(Frame(fin, opcode, mask, length, key, payload));
  }

  lemma MaskedAt(s: Bytes, key: Bytes, r: Bytes)
    requires |key| == 4 && |r| == |s| && forall k :: 0 <= k < |s| ==> r[k] == s[k] ^ key[k % 4]
    ensures r == Masked(s, key)
  {}

  /** The length byte decides the number of extended bytes. */
  lemma SmallField(b: bv8)
    ensures (b & 0x7F) as nat == 126 <==> Extra(b) == 2
    ensures (b & 0x7F) as nat == 127 <==> Extra(b) == 8
    ensures (b & 0x7F) as nat <= 127 && Extra(b) in {0, 2, 8}
  {}

  /** The eight shifted bytes of the long form. */
  function LongLength(data: Bytes): nat
    requires |data| >= 10
  {
    data[2] as nat * 0x100_0000_0000_0000 + data[3] as nat * 0x1_0000_0000_0000 +
    data[4] as nat * 0x100_0000_0000 + data[5] as nat * 0x1_0000_0000 +
    data[6] as nat * 0x100_0000 + data[7] as nat * 0x1_0000 +
    data[8] as nat * 0x100 + data[9] as nat
  }

  lemma FromEight(data: Bytes)
    requires |data| >= 10
    ensures FromBytes(data[2..10]) == LongLength(data)
  {
    hide LongLength, FromBytes;
    FromTwo(data[2..4]);
    forall k | 4 <= k < 10 ensures FromBytes(data[2..k + 1]) == FromBytes(data[2..k]) * 256 + data[k] as nat {
      assert data[2..k + 1] == data[2..k] + [data[k]];
      FromConcat(data[2..k], data[k]);
    }
    LongLengthByHorner(data, FromBytes(data[2..4]), FromBytes(data[2..5]), FromBytes(data[2..6]),
                       FromBytes(data[2..7]), FromBytes(data[2..8]), FromBytes(data[2..9]), FromBytes(data[2..10]));
  }

  lemma LongLengthByHorner(data: Bytes, a: nat, b: nat, c: nat, d: nat, e: nat, f: nat, g: nat)
    requires |data| >= 10 && a == data[2] as nat * 256 + data[3] as nat
    requires b == a * 256 + data[4] as nat && c == b * 256 + data[5] as nat && d == c * 256 + data[6] as nat
    requires e == d * 256 + data[7] as nat && f == e * 256 + data[8] as nat && g == f * 256 + data[9] as nat
    ensures g == LongLength(data)
  {}

  // ---- codec laws --------------------------------------------------------

  /** Masking twice with one key is the identity. */
  lemma MaskedTwice(payload: Bytes, key: Bytes)
    requires |key| == 4
    ensures Masked(Masked(payload, key), key) == payload
  {
    forall i | 0 <= i < |payload| ensures Masked(Masked(payload, key), key)[i] == payload[i] {}
  }

  /** The second byte of a frame tells its length form and its mask bit. */
  lemma SecondByte(w: Wire)
    requires WireOk(w)
    ensures |Encode(w)| == HeaderLength(LengthBytes(w)[0]) + |w.payload| && Encode(w)[1] == LengthBytes(w)[0]
    ensures |LengthBytes(w)| == 1 + Extra(LengthBytes(w)[0])
    ensures LengthBytes(w)[0] & 0x80 != 0 <==> w.key.Some?
    ensures Extra(LengthBytes(w)[0]) == (match w.form case Short => 0 case Medium => 2 case Long => 8)
    ensures w.form.Short? ==> (LengthBytes(w)[0] & 0x7F) as nat == |w.payload|
  {
    if w.form.Short? {
      LowByte(|w.payload|);
    }
    hide Masked;
  }

  lemma LowByte(n: nat)
    requires n <= 125
    ensures ((0x80 | Byte(n)) & 0x7F) as nat == n && ((0 as bv8 | Byte(n)) & 0x7F) as nat == n
    ensures (0x80 | Byte(n)) & 0x80 != 0 && (0 as bv8 | Byte(n)) & 0x80 == 0
    ensures Extra(0x80 | Byte(n)) == 0 && Extra(0 as bv8 | Byte(n)) == 0
  {
    var b := Byte(n);
    assert b <= 125 by { assert b as nat <= 125; }
  }

  lemma EncodedLength(w: Wire)
    requires WireOk(w)
    ensures |Encode(w)| >= 2 + Extra(Encode(w)[1]) && PayloadLength(Encode(w)) == |w.payload|
  {
    hide Masked, Extra, HeaderLength;
    SecondByte(w);
    var s := Encode(w);
    var n := |w.payload|;
    if !w.form.Short? {
      var k := Extra(s[1]);
      assert s[2..2 + k] == LengthBytes(w)[1..] == ToBytes(n, k);
      if k == 2 { Two(); } else { Eight(); }
      FromToBytes(n, k);
    }
  }

  /** A frame of any form, masked with any key or not at all, parses back to what it encodes. */
  lemma ParseEncoded(w: Wire)
    requires WireOk(w)
    ensures Parsed(Encode(w)) ==
      Some(Frame(w.first & 0x80 != 0, w.first & 0x0F, w.key.Some?, |w.payload|,
                 if w.key.Some? then w.key.value else [], w.payload))
  {
    SecondByte(w);
    EncodedLength(w);
    var s := Encode(w);
    hide Extra, LengthBytes, Masked, PayloadLength;
    var h := HeaderLength(s[1]);
    var head := [w.first] + LengthBytes(w);
    if w.key.Some? {
      var key := w.key.value;
      assert s == head + key + Masked(w.payload, key);
      assert s[2 + Extra(s[1])..h] == key;
      assert s[h..] == Masked(w.payload, key);
      MaskedTwice(w.payload, key);
    } else {
      assert s == head + w.payload;
      assert s[h..] == w.payload;
    }
  }

  /** Parsing what the server built gives back the opcode's low four bits and the payload. */
  lemma ParseBuilt(payload: Bytes, opcode: bv8)
    requires |payload| < 0x8000_0000_0000_0000
    ensures Parsed(Built(payload, opcode)) == Some(Frame(true, opcode & 0x0F, false, |payload|, [], payload))
  {
    var w := ServerWire(payload, opcode);
    BuiltIsShortest(payload, opcode, w);
    ParseEncoded(w);
    assert (0x80 | (opcode & 0x0F)) & 0x80 != 0 && (0x80 | (opcode & 0x0F)) & 0x0F == opcode & 0x0F;
  }

  // ---- cutting frames out of the stream ----------------------------------

  /** Header and payload together, once the length can be read. */
  function Extent(s: Bytes): Option<nat> {
    if |s| < 2 || |s| < 2 + Extra(s[1]) then None else Some(HeaderLength(s[1]) + PayloadLength(s))
  }

  /** total_frame_length: the sum wraps at 64 bits. */
  function Total(s: Bytes): Option<nat> {
    match Extent(s)
    case None => None
    case Some(n) => Some(n % TWO64)
  }

  /** The frames cut from a buffer, what stays in it, and whether the loop stops making
      progress there (a total of zero bytes). */
  datatype Cut = Cut(frames: seq<Bytes>, rest: Bytes, stuck: bool)

  function Split(buf: Bytes): Cut
    decreases |buf|
  {
    match Total(buf)
    case None => Cut([], buf, false)
    case Some(n) =>
      if n == 0 then Cut([], buf, true)
      else if |buf| < n then Cut([], buf, false)
      else
        var more := Split(buf[n..]);
        Cut([buf[..n]] + more.frames, more.rest, more.stuck)
  }

  /** More frames in front of a cut. */
  function Prefixed(frames: seq<Bytes>, cut: Cut): Cut { Cut(frames + cut.frames, cut.rest, cut.stuck) }

  lemma Prefixing(frames: seq<Bytes>, f: Bytes, cut: Cut)
    ensures Prefixed(frames, Prefixed([f], cut)) == Prefixed(frames + [f], cut)
    ensures Prefixed([], cut) == cut
  {
    assert frames + ([f] + cut.frames) == frames + [f] + cut.frames;
  }

  lemma TotalCases(s: Bytes)
    ensures |s| < 2 ==> Total(s).None?
    ensures |s| >= 2 && Extra(s[1]) == 0 ==> Total(s) == Some((HeaderLength(s[1]) + (s[1] & 0x7F) as nat) % TWO64)
    ensures |s| >= 2 && Extra(s[1]) == 2 ==>
      Total(s) == if |s| < 4 then None else Some((HeaderLength(s[1]) + (s[2] as nat * 256 + s[3] as nat)) % TWO64)
    ensures |s| >= 2 && Extra(s[1]) == 8 ==>
      Total(s) == if |s| < 10 then None else Some((HeaderLength(s[1]) + LongLength(s)) % TWO64)
  {
    hide LongLength, FromBytes, HeaderLength;
    if |s| >= 2 {
      if Extra(s[1]) == 2 && |s| >= 4 { FromTwo(s[2..4]); }
      if Extra(s[1]) == 8 && |s| >= 10 { FromEight(s); }
    }
  }

  lemma SplitCases(s: Bytes)
    ensures Total(s).None? ==> Split(s) == Cut([], s, false)
    ensures Total(s) == Some(0) ==> Split(s) == Cut([], s, true)
    ensures Total(s).Some? && Total(s).value > |s| ==> Split(s) == Cut([], s, false)
    ensures Total(s).Some? && 0 < Total(s).value <= |s| ==>
      Split(s) == Prefixed([s[..Total(s).value]], Split(s[Total(s).value..]))
  {
    hide Total;
  }

  /** The header arithmetic at the top of the reassembly loop; None means to wait for more. */
  method FrameTotal(buf: Bytes) returns (total: Option<nat>)
    ensures total == Total(buf)
  {
    hide Total, LongLength;
    TotalCases(buf);
    if |buf| < 2 { return None; }
    SmallField(buf[1]);
    hide Extra;
    var payloadLength: nat := (buf[1] & 0x7F) as nat;
    var headerLength := 2;
    if payloadLength == 126 {
      if |buf| < 4 { return None; }
      headerLength := headerLength + 2;
      payloadLength := buf[2] as nat * 256 + buf[3] as nat;
    } else if payloadLength == 127 {
      if |buf| < 10 { return None; }
      headerLength := headerLength + 8;
      payloadLength := LongLength(buf);
    }
    if buf[1] & 0x80 != 0 { headerLength := headerLength + 4; }
    total := Some((headerLength + payloadLength) % TWO64);
  }

  class WebSocketConn {
    var incomplete: Bytes
    /** The strings handed to the thread pool. */
    var submitted: seq<Bytes>

    constructor ()
      ensures incomplete == [] && submitted == []
    {
      incomplete, submitted := [], [];
    }

    /** OnRead after the handshake.  `stuck` stands for the loop that never ends because the
        frame length has wrapped to zero. */
    method OnRead(data: Bytes) returns (stuck: bool)
      modifies this
      ensures
        var cut := Split(old(incomplete) + data);
        submitted == old(submitted) + cut.frames && incomplete == cut.rest && stuck == cut.stuck
    {
      hide Split, Total;
      incomplete := incomplete + data;
      ghost var whole, done := incomplete, [];
      Prefixing([], [], Split(whole));
      stuck := false;
      while incomplete != []
        invariant submitted == old(submitted) + done
        invariant Split(whole) == Prefixed(done, Split(incomplete)) && !stuck
        decreases |incomplete|
      {
        SplitCases(incomplete);
        var total := FrameTotal(incomplete);
        if total.None? || |incomplete| < total.value { return; }
        if total.value == 0 { return true; }
        var frame := incomplete[..total.value];
        incomplete := incomplete[total.value..];
        Prefixing(done, frame, Split(incomplete));
        done := done + [frame];
        submitted := submitted + [frame];
      }
      SplitCases([]);
      TotalCases([]);
    }
  }

  // ---- reassembly --------------------------------------------------------

  /** A run of OnRead calls: all frames submitted and what is left. */
  function Reads(incomplete: Bytes, pieces: seq<Bytes>): Cut
    decreases |pieces|
  {
    if pieces == [] then Cut([], incomplete, false)
    else
      var cut := Split(incomplete + pieces[0]);
      if cut.stuck then Cut(cut.frames, cut.rest + Joined(pieces[1..]), true)
      else Prefixed(cut.frames, Reads(cut.rest, pieces[1..]))
  }

  function Joined(pieces: seq<Bytes>): Bytes {
    if pieces == [] then [] else pieces[0] + Joined(pieces[1..])
  }

  /** The length, once readable, does not depend on what follows. */
  lemma TotalStays(a: Bytes, b: Bytes)
    requires Total(a).Some?
    ensures Total(a + b) == Total(a)
  {
    hide HeaderLength, FromBytes;
    var s := a + b;
    assert s[1] == a[1];
    assert s[2..2 + Extra(a[1])] == a[2..2 + Extra(a[1])];
  }

  /** Cutting a longer buffer is cutting the shorter one and going on with what was left. */
  lemma {:induction false} SplitMore(a: Bytes, b: Bytes)
    ensures Split(a + b) == if Split(a).stuck then Cut(Split(a).frames, Split(a).rest + b, true)
                            else Prefixed(Split(a).frames, Split(Split(a).rest + b))
    decreases |a|
  {
    hide Total, Split;
    SplitCases(a);
    Prefixing([], [], Split(a + b));
    if Total(a).Some? {
      var n := Total(a).value;
      TotalStays(a, b);
      SplitCases(a + b);
      if 0 < n <= |a| {
        assert (a + b)[..n] == a[..n] && (a + b)[n..] == a[n..] + b;
        SplitMore(a[n..], b);
        var more := Split(a[n..]);
        if !more.stuck { PrefixedTwice([a[..n]], more.frames, Split(more.rest + b)); }
      }
    }
  }

  lemma PrefixedTwice(f: seq<Bytes>, g: seq<Bytes>, cut: Cut)
    ensures Prefixed(f, Prefixed(g, cut)) == Prefixed(f + g, cut)
  {
    assert f + (g + cut.frames) == f + g + cut.frames;
  }

  /** What a call leaves in the buffer, another call does not cut. */
  lemma LeftoverWaits(a: Bytes)
    ensures !Split(a).stuck ==> Split(Split(a).rest) == Cut([], Split(a).rest, false)
  {
    hide Split;
    SplitMore(a, []);
    assert a + [] == a && Split(a).rest + [] == Split(a).rest;
    if !Split(a).stuck {
      var more := Split(Split(a).rest);
      assert |Split(a).frames| == |Split(a).frames + more.frames|;
    }
  }

  /** Segmentation does not matter: any run of OnRead calls does what one call does. */
  lemma {:induction false} ReadsAreSplit(incomplete: Bytes, pieces: seq<Bytes>)
    requires Split(incomplete) == Cut([], incomplete, false)
    ensures Reads(incomplete, pieces) == Split(incomplete + Joined(pieces))
    decreases |pieces|
  {
    hide Split;
    if pieces == [] {
      assert incomplete + [] == incomplete;
    } else {
      var a := incomplete + pieces[0];
      var b := Joined(pieces[1..]);
      assert incomplete + Joined(pieces) == a + b;
      SplitMore(a, b);
      if !Split(a).stuck {
        LeftoverWaits(a);
        ReadsAreSplit(Split(a).rest, pieces[1..]);
      }
    }
  }

  function Stream(ws: seq<Wire>): Bytes
    requires forall w :: w in ws ==> WireOk(w)
  {
    if ws == [] then [] else Encode(ws[0]) + Stream(ws[1..])
  }

  function Encoded(ws: seq<Wire>): seq<Bytes>
    requires forall w :: w in ws ==> WireOk(w)
  {
    if ws == [] then [] else [Encode(ws[0])] + Encoded(ws[1..])
  }

  lemma EncodedTotal(w: Wire)
    requires WireOk(w)
    ensures Total(Encode(w)) == Some(|Encode(w)|) && |Encode(w)| >= 2
  {
    hide Encode, PayloadLength, LengthBytes, HeaderLength, Extra;
    SecondByte(w);
    EncodedLength(w);
    LengthBound(Encode(w));
    assert Extent(Encode(w)) == Some(|Encode(w)|);
    assert |Encode(w)| < TWO64;
  }

  /** A proper beginning of a frame is kept back. */
  lemma PartialWaits(w: Wire, k: nat)
    requires WireOk(w) && k < |Encode(w)|
    ensures Split(Encode(w)[..k]) == Cut([], Encode(w)[..k], false)
  {
    hide Encode, Total, Split;
    var s := Encode(w);
    assert s[..k] + s[k..] == s;
    EncodedTotal(w);
    if Total(s[..k]).Some? { TotalStays(s[..k], s[k..]); }
    SplitCases(s[..k]);
  }

  lemma {:induction false} StreamSplits(ws: seq<Wire>, last: Wire, k: nat)
    requires (forall w :: w in ws ==> WireOk(w)) && WireOk(last) && k < |Encode(last)|
    ensures Split(Stream(ws) + Encode(last)[..k]) == Cut(Encoded(ws), Encode(last)[..k], false)
    decreases |ws|
  {
    hide Encode, Total, Split;
    var tail := Encode(last)[..k];
    if ws == [] {
      assert Stream(ws) + tail == tail;
      PartialWaits(last, k);
    } else {
      var f := Encode(ws[0]);
      var more := Stream(ws[1..]) + tail;
      assert Stream(ws) + tail == f + more;
      EncodedTotal(ws[0]);
      TotalStays(f, more);
      SplitCases(f + more);
      assert (f + more)[..|f|] == f && (f + more)[|f|..] == more;
      StreamSplits(ws[1..], last, k);
    }
  }

  /** For every list of frames with the top length bit clear, every beginning of a further
      frame and every way the bytes arrive, exactly those frames are submitted, in order,
      and exactly the beginning is left. */
  lemma Reassembly(ws: seq<Wire>, last: Wire, k: nat, pieces: seq<Bytes>)
    requires (forall w :: w in ws ==> WireOk(w)) && WireOk(last) && k < |Encode(last)|
    requires Joined(pieces) == Stream(ws) + Encode(last)[..k]
    ensures Reads([], pieces) == Cut(Encoded(ws), Encode(last)[..k], false)
  {
    hide Encode, Split, Reads, Stream, Encoded;
    NothingWaits();
    ReadsAreSplit([], pieces);
    StreamSplits(ws, last, k);
    assert [] + Joined(pieces) == Joined(pieces);
  }

  lemma NothingWaits()
    ensures Split([]) == Cut([], [], false)
  {
    SplitCases([]);
    TotalCases([]);
  }

  /** A connection that is handed its bytes in pieces submits what the run of calls above submits,
      and stops where the loop would not end. */
  method ReadAll(conn: WebSocketConn, pieces: seq<Bytes>) returns (stuck: bool)
    modifies conn
    ensures
      var r := Reads(old(conn.incomplete), pieces);
      && conn.submitted == old(conn.submitted) + r.frames && stuck == r.stuck
      && (!stuck ==> conn.incomplete == r.rest)
  {
    hide Split, Reads, Joined, Prefixed;
    stuck := false;
    ghost var done: seq<Bytes>, want := [], Reads(conn.incomplete, pieces);
    Prefixing([], [], want);
    var left := pieces;
    while left != []
      invariant !stuck && conn.submitted == old(conn.submitted) + done
      invariant want == Prefixed(done, Reads(conn.incomplete, left))
      decreases |left|
    {
      ReadsStep(conn.incomplete, left);
      ghost var cut := Split(conn.incomplete + left[0]);
      stuck := conn.OnRead(left[0]);
      left := left[1..];
      PrefixedFrames(done, Cut(cut.frames, cut.rest + Joined(left), true));
      if stuck { return; }
      PrefixedTwice(done, cut.frames, Reads(cut.rest, left));
      done := done + cut.frames;
    }
    ReadsNothing(conn.incomplete);
    PrefixedFrames(done, Cut([], conn.incomplete, false));
    assert done + [] == done;
  }

  lemma PrefixedFrames(f: seq<Bytes>, cut: Cut)
    ensures Prefixed(f, cut) == Cut(f + cut.frames, cut.rest, cut.stuck)
  {}

  lemma ReadsStep(incomplete: Bytes, pieces: seq<Bytes>)
    requires pieces != []
    ensures
      var cut := Split(incomplete + pieces[0]);
      Reads(incomplete, pieces) ==
        if cut.stuck then Cut(cut.frames, cut.rest + Joined(pieces[1..]), true)
        else Prefixed(cut.frames, Reads(cut.rest, pieces[1..]))
  {
    hide Split;
  }

  lemma ReadsNothing(incomplete: Bytes)
    ensures Reads(incomplete, []) == Cut([], incomplete, false)
  {}

  // ---- the 64-bit wrap ---------------------------------------------------

  /** The first frame a buffer is cut into lies within the parser's bounds, with offset plus
      payload length equal to the length of the cut, exactly when header and payload together
      stay below 2^64; and then at least two bytes are removed. */
  lemma CutFits(buf: Bytes)
    requires Total(buf).Some? && 0 < Total(buf).value <= |buf|
    ensures
      var f := Parsed(buf[..Total(buf).value]);
      f.Some? && HeaderLength(buf[1]) + f.value.length == Total(buf).value <==> Extent(buf).value < TWO64
    ensures
      var f := Parsed(buf[..Total(buf).value]);
      Extent(buf).value < TWO64 ==> |f.value.payload| == f.value.length && Total(buf).value >= 2
  {
    hide Extra, HeaderLength, PayloadLength, Parsed;
    var n := Total(buf).value;
    LengthBound(buf);
    Wraps(HeaderLength(buf[1]), PayloadLength(buf));
    CutHeader(buf, n);
  }

  /** Whatever arrives: a frame that was cut out and that the parser can read within bounds
      has exactly the payload its length field announces. */
  lemma {:induction false} EveryCutFits(buf: Bytes, k: nat)
    requires k < |Split(buf).frames| && Parsed(Split(buf).frames[k]).Some?
    ensures var f := Parsed(Split(buf).frames[k]).value; |f.payload| == f.length
    decreases |buf|
  {
    hide Split, Parsed, HeaderLength, PayloadLength, Extra;
    SplitCases(buf);
    var n := Total(buf).value;
    if k == 0 {
      LengthBound(buf);
      Wraps(HeaderLength(buf[1]), PayloadLength(buf));
      CutHeader(buf, n);
    } else {
      EveryCutFits(buf[n..], k - 1);
    }
  }

  lemma Wraps(h: nat, n: nat)
    requires 2 <= h <= 14 && n < TWO64
    ensures h + n < TWO64 ==> (h + n) % TWO64 == h + n
    ensures h + n >= TWO64 ==> (h + n) % TWO64 == h + n - TWO64 < h
  {}

  lemma CutHeader(buf: Bytes, n: nat)
    requires n <= |buf| && Extent(buf).Some?
    ensures n < HeaderLength(buf[1]) ==> Parsed(buf[..n]).None?
    ensures n >= HeaderLength(buf[1]) ==>
      var f := Parsed(buf[..n]);
      f.Some? && f.value.length == PayloadLength(buf) && |f.value.payload| == n - HeaderLength(buf[1])
  {
    hide FromBytes;
    var cut := buf[..n];
    if n >= 2 { assert cut[1] == buf[1]; }
    if n >= HeaderLength(buf[1]) { assert cut[2..2 + Extra(cut[1])] == buf[2..2 + Extra(buf[1])]; }
  }

  lemma LengthBound(s: Bytes)
    requires Extent(s).Some?
    ensures PayloadLength(s) < TWO64 && HeaderLength(s[1]) <= 14 && HeaderLength(s[1]) >= 2
    ensures Extra(s[1]) != 8 ==> PayloadLength(s) < 65536
  {
    var k := Extra(s[1]);
    SmallField(s[1]);
    if k != 0 {
      FromBytesBound(s[2..2 + k]);
      Two();
      Eight();
    }
  }

  /** A clear top bit is enough for that. */
  lemma TopBitClear(s: Bytes)
    requires Extent(s).Some? && (Extra(s[1]) == 8 ==> PayloadLength(s) < 0x8000_0000_0000_0000)
    ensures Extent(s).value < TWO64 && Total(s) == Extent(s)
  {
    hide Extra, HeaderLength, PayloadLength;
    LengthBound(s);
  }

  /** At the head of the loop: no byte is removed exactly when the header in the buffer announces
      2^64 bytes in all. */
  lemma StuckGuard(buf: Bytes)
    ensures Total(buf) == Some(0) <==> Extent(buf) == Some(TWO64)
  {
    hide Extra, HeaderLength, PayloadLength;
    if Extent(buf).Some? {
      LengthBound(buf);
      Wraps(HeaderLength(buf[1]), PayloadLength(buf));
    }
  }

  /** The reassembly loop stops making progress exactly when header and payload of the next
      frame add up to 2^64. */
  lemma {:induction false} StuckExactly(buf: Bytes)
    ensures Split(buf).stuck <==> Extent(Split(buf).rest) == Some(TWO64)
    decreases |buf|
  {
    hide Split, Extra, HeaderLength, PayloadLength;
    SplitCases(buf);
    if Extent(buf).Some? { LengthBound(buf); }
    if Total(buf).Some? && 0 < Total(buf).value <= |buf| { StuckExactly(buf[Total(buf).value..]); }
  }

  /** Ten bytes of an unmasked frame whose length field is 2^64 - 10 do that. */
  lemma StuckExample()
    ensures
      var buf: Bytes := [0x81, 127, 0xFF, 0xFF, 0xFF, 0xFF, 0xFF, 0xFF, 0xFF, 0xF6];
      Split(buf) == Cut([], buf, true)
  {
    var buf: Bytes := [0x81, 127, 0xFF, 0xFF, 0xFF, 0xFF, 0xFF, 0xFF, 0xFF, 0xF6];
    hide Split, Total;
    TotalCases(buf);
    SplitCases(buf);
  }
}
