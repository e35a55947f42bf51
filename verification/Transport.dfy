/** The way of a message from logic to a client: PushMsg into Kafka, job's routing, the request to
    comet, and the frame on the connection. */
module Transport {
  import opened Wrappers
  import opened BigEndian
  import opened ProtobufWire
  import opened PushCodec
  import opened ProtoCodec
  import opened RoomReqCodec
  import opened BroadcastReqCodec
  import opened WebSocket

  const PUSH: int32 := 0
  const ROOM: int32 := 1
  const BROADCAST: int32 := 2

  /** "global" in bytes. */
  const GLOBAL: Bytes := [0x67, 0x6C, 0x6F, 0x62, 0x61, 0x6C]

  /** What handleSend and handleCreateRoom put into Kafka. */
  function MessageRecord(room: Bytes, body: Bytes): PushValue {
    NO_PUSH.(kind := PUSH, operation := 4, room := room, msg := body)
  }

  function AnnouncementRecord(body: Bytes): PushValue {
    NO_PUSH.(kind := BROADCAST, operation := 5, room := GLOBAL, msg := body)
  }

  /** A call of the job: a global broadcast or one for a room. */
  datatype CometCall = ToAll(all: AllReqValue) | ToRoom(req: RoomReqValue)

  function RequestProto(op: int32, body: Bytes): ProtoValue { ProtoValue(1, op, 0, body, []) }

  function Routed(m: PushValue): Option<CometCall> {
    if m.kind == BROADCAST then Some(ToAll(AllReqValue(0, Some(RequestProto(5, m.msg)), 0, [])))
    else if m.kind == PUSH || m.kind == ROOM then
      Some(ToRoom(RoomReqValue(m.room, Some(RequestProto(4, m.msg)), [])))
    else None
  }

  /** Empty records, records that do not parse and unknown types lead to no call. */
  function CallFor(record: Bytes): Option<CometCall> {
    if record == [] then None
    else match ParsePush(NO_PUSH, record)
      case None => None
      case Some(m) => Routed(m)
  }

  /** The body of the consumer loop. */
  method HandleRecord(record: Bytes) returns (call: Option<CometCall>)
    ensures call == CallFor(record)
  {
    if record == [] { return None; }
    var m := new PushMsg();
    var ok := m.InternalParse(record);
    if !ok { return None; }
    if m.kind == BROADCAST {
      call := Some(ToAll(AllReqValue(0, Some(RequestProto(5, m.msg)), 0, [])));
    } else if m.kind == PUSH || m.kind == ROOM {
      call := Some(ToRoom(RoomReqValue(m.room, Some(RequestProto(4, m.msg)), [])));
    } else {
      call := None;
    }
  }

  /** The frame comet sends for a room request it received; None when the request does not parse. */
  function FrameFor(request: Bytes): Option<Bytes> {
    match ParseReq(NO_REQ, request)
    case None => None
    case Some(r) => Some(Built(Mutable(r.proto).body, 1))
  }

  /** What comet does with a global request: whether its operation makes it open a room, the body
      it reads the room from, and the frame it sends. */
  datatype Announced = Announced(opensRoom: bool, body: Bytes, frame: Bytes)

  function AnnouncedBy(request: Bytes): Option<Announced> {
    match ParseAll(NO_ALL, request)
    case None => None
    case Some(r) =>
      var proto := Mutable(r.proto);
      Some(Announced(proto.op == 5, proto.body, Built(proto.body, 1)))
  }

  // ---- laws --------------------------------------------------------------

  lemma RecordFits(m: PushValue)
    requires m.server == [] && m.keys == [] && m.unknown == [] && |m.room| < TWO64 && |m.msg| < TWO64
      && ValidUtf8(m.room)
    ensures PushFits(m) && PushTexts(m)
  {}

  lemma RecordNotEmpty(m: PushValue)
    requires m.operation != 0
    ensures SerializePush(m) != []
  {
    SizeOfPush(m);
    hide SerializePush, KeysSize, Int32Size;
  }

  lemma GlobalIsText()
    ensures ValidUtf8(GLOBAL)
  {
    assert GLOBAL[1..] == [0x6C, 0x6F, 0x62, 0x61, 0x6C];
    assert GLOBAL[1..][1..] == [0x6F, 0x62, 0x61, 0x6C];
    assert GLOBAL[1..][1..][1..] == [0x62, 0x61, 0x6C];
    assert GLOBAL[1..][1..][1..][1..] == [0x61, 0x6C];
    assert GLOBAL[1..][1..][1..][1..][1..] == [0x6C];
  }

  /** What logic publishes: type PUSH, 0, and operation 4 with the room and the text; or type
      BROADCAST, 2, and operation 5 with the room "global"; nothing else is set. */
  lemma RecordsSay(room: Bytes, body: Bytes)
    ensures
      var m, a := MessageRecord(room, body), AnnouncementRecord(body);
      && m.kind == 0 && m.operation == 4 && m.room == room && m.msg == body
      && a.kind == 2 && a.operation == 5 && a.msg == body
      && |a.room| == 6 && (forall i :: 0 <= i < 6 ==> a.room[i] as int == "global"[i] as int)
      && m.server == a.server == [] && m.keys == a.keys == [] && m.unknown == a.unknown == []
  {}

  /** A request of the job carries version 1, sequence number 0, the operation and the text. */
  ghost predicate Carries(proto: Option<ProtoValue>, op: int, body: Bytes) {
    && proto.Some? && proto.value.ver == 1 && proto.value.op as int == op && proto.value.seqNo == 0
    && proto.value.body == body && proto.value.unknown == []
  }

  /** The job's routing of every record it can read: by type, 2 to all as operation 5, 0 and 1 to
      the record's room as operation 4, any other type nowhere. */
  lemma RoutingByType(m: PushValue)
    requires PushFits(m) && PushTexts(m) && SerializePush(m) != []
    ensures
      var call := CallFor(SerializePush(m));
      if m.kind == 2 then
        && call.Some? && call.value.ToAll? && Carries(call.value.all.proto, 5, m.msg)
        && call.value.all.protoOp == 0 && call.value.all.speed == 0 && call.value.all.unknown == []
      else if m.kind == 0 || m.kind == 1 then
        && call.Some? && call.value.ToRoom? && Carries(call.value.req.proto, 4, m.msg)
        && call.value.req.roomId == m.room && call.value.req.unknown == []
      else call.None?
  {
    hide SerializePush, ParsePush, PushFits, PushTexts;
    PushCodec.RoundTrip(m);
  }

  /** Whatever logic publishes, the job's routing gives back the room and the text: a message as
      version 1, operation 4 for its room, an announcement as version 1, operation 5 for all. */
  lemma RoutingKeepsContents(room: Bytes, body: Bytes)
    requires ValidUtf8(room) && |room| < TWO64 && |body| < TWO64
    ensures
      var call := CallFor(SerializePush(MessageRecord(room, body)));
      && call.Some? && call.value.ToRoom? && call.value.req.roomId == room && call.value.req.unknown == []
      && call.value.req.proto.Some?
      && var proto := call.value.req.proto.value;
         proto.ver == 1 && proto.op == 4 && proto.seqNo == 0 && proto.body == body && proto.unknown == []
    ensures
      var call := CallFor(SerializePush(AnnouncementRecord(body)));
      && call.Some? && call.value.ToAll? && call.value.all.protoOp == 0 && call.value.all.speed == 0
      && call.value.all.unknown == [] && call.value.all.proto.Some?
      && var proto := call.value.all.proto.value;
         proto.ver == 1 && proto.op == 5 && proto.seqNo == 0 && proto.body == body && proto.unknown == []
  {
    hide SerializePush, PushFits, PushTexts, ValidUtf8, CallFor;
    GlobalIsText();
    RecordFits(MessageRecord(room, body));
    RecordFits(AnnouncementRecord(body));
    RecordNotEmpty(MessageRecord(room, body));
    RecordNotEmpty(AnnouncementRecord(body));
    RoutingByType(MessageRecord(room, body));
    RoutingByType(AnnouncementRecord(body));
  }

  /** Empty records and records that do not parse lead to no call. */
  lemma UnreadableGoesNowhere(record: Bytes)
    requires record == [] || ParsePush(NO_PUSH, record).None?
    ensures CallFor(record) == None
  {
    hide ParsePush;
  }

  lemma {:induction false} VarintShort(n: nat, k: nat)
    requires n < Pow128(k + 1)
    ensures VarintSize(n) <= k + 1
    decreases k
  {
    if k == 0 {
      assert Pow128(1) == 128 * Pow128(0);
    } else if n >= 128 {
      VarintShort(n / 128, k - 1);
    }
  }

  lemma NestedFits(op: int32, body: Bytes)
    requires (op == 4 || op == 5) && |body| < 0x4000_0000_0000_0000
    ensures ProtoFits(RequestProto(op, body)) && |SerializeProto(RequestProto(op, body))| < TWO64
  {
    var p := RequestProto(op, body);
    Powers();
    VarintShort(|body|, 9);
    SizeOfProto(p);
    NoFields();
    assert Int32Size(1) == 1 && Int32Size(op) == 1;
    hide SerializeProto, VarintSize;
  }

  lemma PlainFrame(body: Bytes)
    requires |body| < 0x8000_0000_0000_0000
    ensures Parsed(Built(body, 1)) == Some(Frame(true, 1, false, |body|, [], body))
  {
    hide Built, Parsed;
    ParseBuilt(body, 1);
    assert 1 as bv8 & 0x0F == 1;
  }

  /** Comet reads from a request what the job has put in. */
  lemma RoomRequestRead(req: RoomReqValue)
    requires ReqFits(req) && ValidUtf8(req.roomId) && req.proto.Some?
    ensures FrameFor(SerializeReq(req)) == Some(Built(req.proto.value.body, 1))
  {
    hide SerializeReq, ParseReq, ReqFits, ValidUtf8, Built;
    RoomReqCodec.RoundTrip(req);
  }

  lemma GlobalRequestRead(all: AllReqValue)
    requires AllFits(all) && all.proto.Some?
    ensures AnnouncedBy(SerializeAll(all)) ==
      Some(Announced(all.proto.value.op == 5, all.proto.value.body, Built(all.proto.value.body, 1)))
  {
    hide SerializeAll, ParseAll, AllFits, Built;
    AllReqLaws(all, all);
  }

  lemma RequestFits(proto: Option<ProtoValue>, op: int32, body: Bytes, room: Bytes)
    requires (op == 4 || op == 5) && |body| < 0x4000_0000_0000_0000 && |room| < TWO64 && Carries(proto, op as int, body)
    ensures ReqFits(RoomReqValue(room, proto, [])) && AllFits(AllReqValue(0, proto, 0, []))
  {
    hide SerializeProto, ProtoFits;
    NestedFits(op, body);
    assert proto == Some(RequestProto(op, body));
  }

  /** From logic to the client: a message for a room, published, consumed, routed, sent to comet
      and framed, arrives at the parser of the other end with its text unchanged. */
  lemma MessageArrives(room: Bytes, body: Bytes)
    requires ValidUtf8(room) && |room| < TWO64 && |body| < 0x4000_0000_0000_0000
    ensures
      var call := CallFor(SerializePush(MessageRecord(room, body)));
      && call.Some? && call.value.ToRoom? && call.value.req.roomId == room
      && var frame := FrameFor(SerializeReq(call.value.req));
         frame.Some? && Parsed(frame.value) == Some(Frame(true, 1, false, |body|, [], body))
  {
    hide SerializePush, CallFor, SerializeReq, ValidUtf8, Built, Parsed, ReqFits, AllFits, FrameFor;
    RoutingKeepsContents(room, body);
    var req := CallFor(SerializePush(MessageRecord(room, body))).value.req;
    RequestFits(req.proto, 4, body, room);
    RoomRequestRead(req);
    PlainFrame(body);
  }

  /** From logic to comet and on: an announced room, published, consumed, routed and sent, reaches
      comet as the operation that opens a room, with its text unchanged, and the frame sent to
      every client carries that text. */
  lemma AnnouncementArrives(body: Bytes)
    requires |body| < 0x4000_0000_0000_0000
    ensures
      var call := CallFor(SerializePush(AnnouncementRecord(body)));
      && call.Some? && call.value.ToAll?
      && var a := AnnouncedBy(SerializeAll(call.value.all));
         && a.Some? && a.value.opensRoom && a.value.body == body
         && Parsed(a.value.frame) == Some(Frame(true, 1, false, |body|, [], body))
  {
    hide SerializePush, CallFor, SerializeAll, ValidUtf8, Built, Parsed, ReqFits, AllFits, AnnouncedBy;
    GlobalIsText();
    RoutingKeepsContents(GLOBAL, body);
    var all := CallFor(SerializePush(AnnouncementRecord(body))).value.all;
    RequestFits(all.proto, 5, body, []);
    GlobalRequestRead(all);
    PlainFrame(body);
  }
}
