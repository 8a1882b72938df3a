/**
 The repository's synthetic peer: it decodes what the client encodes, keeps a tag table and
 a connection table, and answers in the same framing.
 */
module Server {
  import opened Bytes
  import opened Encapsulation
  import opened Stream
  import opened Framing
  import opened Cip
  import opened Cpf
  import opened Message

  const SESSION_HANDLE: u32 := 0x13572468
  const SERVER_OT: u32 := 0x10203040

  /** A tag name as the peer decodes it: ASCII with U+FFFD for every other byte, or no name
      when the path is not symbolic. */
  type Key = Option<seq<int>>

  datatype Entry = Entry(key: Key, kind: u8, value: seq<byte>)

  datatype Ids = Ids(ot: u32, to: u32)

  datatype Server = Server(
    tags: seq<Entry>,          // in insertion order
    links: map<u32, Ids>,      // session handle -> connection IDs
    read: nat,                 // bytes of the client's stream consumed
    down: bool)                // an unhandled exception ended the process

  /** What one request leads to. */
  datatype Answer = Answered(cip: seq<byte>) | Raised

  // ---------------------------------------------------------------------------------------
  // The tag table

  function Find(tags: seq<Entry>, key: Key): Option<Entry> {
    if tags == [] then None
    else if tags[0].key == key then Some(tags[0])
    else Find(tags[1..], key)
  }

  /** Assigning to a dictionary key: replace in place, or add at the end. */
  function Store(tags: seq<Entry>, e: Entry): seq<Entry> {
    if tags == [] then [e]
    else if tags[0].key == e.key then [e] + tags[1..]
    else [tags[0]] + Store(tags[1..], e)
  }

  lemma {:induction false} FindAfterStore(tags: seq<Entry>, e: Entry, key: Key)
    ensures Find(Store(tags, e), key) == if key == e.key then Some(e) else Find(tags, key)
  {
    if tags != [] {
      if tags[0].key == e.key {
        assert ([e] + tags[1..])[1..] == tags[1..];
      } else {
        FindAfterStore(tags[1..], e, key);
        assert ([tags[0]] + Store(tags[1..], e))[1..] == Store(tags[1..], e);
      }
    }
  }

  // ---------------------------------------------------------------------------------------
  // Paths

  function DecodeAscii(b: seq<byte>): (s: seq<int>)
    ensures |s| == |b|
  {
    seq(|b|, i requires 0 <= i < |b| => if b[i] < 0x80 then b[i] as int else 0xFFFD)
  }

  function ParseSymbolicPath(path: seq<byte>): Key {
    if |path| < 2 || path[0] != 0x91 then None
    else
      var n: nat := path[1];
      Some(DecodeAscii(path[2..Min(2 + n, |path|)]))
  }

  function ParseInstance(path: seq<byte>): Option<u32> {
    if |path| < 4 || path[0] != 0x20 || path[1] != SYMBOL_CLASS then None
    else if path[2] == 0x24 then Some(path[3])
    else if path[2] == 0x25 && |path| >= 5 then Some(U16At(path, 3))
    else if path[2] == 0x26 && |path| >= 7 then Some(U32At(path, 3))
    else None
  }

  // ---------------------------------------------------------------------------------------
  // CIP services

  function ReplyService(service: u8): u8 {
    if service < 0x80 then service + 0x80 else service
  }

  function Status4(service: u8, code: u8): seq<byte> {
    [ReplyService(service), 0, code, 0]
  }

  function IdentityAttribute(attr: u8): Option<seq<byte>> {
    match attr
    case 1 => Some(LE16(1))
    case 2 => Some(LE16(0x000E))
    case 3 => Some(LE16(0x0001))
    case 4 => Some([1, 20])
    case 5 => Some(LE16(0))
    case 6 => Some(LE32(0x12345678))
    case 7 => Some([13, 83, 121, 110, 116, 104, 101, 116, 105, 99, 32, 80, 76, 67])   // "Synthetic PLC"
    case 8 => Some([3])
    case _ => None
  }

  /** name.encode("ascii"): fails on a missing name or a replacement character. */
  function EncodeAscii(key: Key): Option<seq<byte>> {
    match key
    case None => None
    case Some(s) =>
      if forall i | 0 <= i < |s| :: 0 <= s[i] < 0x80
      then Some(seq(|s|, i requires 0 <= i < |s| => if 0 <= s[i] < 0x80 then s[i] else 0))
      else None
  }

  /** One attribute of a symbol record; None when the peer raises. */
  function AttributeBytes(e: Entry, attr: u16): Option<seq<byte>> {
    if attr == 1 then
      match EncodeAscii(e.key)
      case None => None
      case Some(name) => if |name| < TWO32 then Some(LE32(|name|) + name) else None
    else if attr == 2 then Some(LE16(e.kind))
    else Some(LE32(0))
  }

  function AttributesBytes(e: Entry, attrs: seq<u16>): Option<seq<byte>> {
    if attrs == [] then Some([])
    else
      match (AttributeBytes(e, attrs[0]), AttributesBytes(e, attrs[1..]))
      case (Some(a), Some(b)) => Some(a + b)
      case _ => None
  }

  /** The records of the tags numbered from `index` on that are at least `start`. */
  function Records(tags: seq<Entry>, index: nat, start: nat, attrs: seq<u16>): Option<seq<byte>> {
    if tags == [] then Some([])
    else if index < start then Records(tags[1..], index + 1, start, attrs)
    else if index >= TWO32 then None
    else
      match (AttributesBytes(tags[0], attrs), Records(tags[1..], index + 1, start, attrs))
      case (Some(a), Some(b)) => Some(LE32(index) + a + b)
      case _ => None
  }

  function WordsOf(b: seq<byte>, count: nat): seq<u16>
    requires 2 * count <= |b|
  {
    if count == 0 then [] else [U16At(b, 0)] + WordsOf(b[2..], count - 1)
  }

  /** The requested attribute IDs; None when the list is cut short. */
  function AttributeIds(rest: seq<byte>): Option<seq<u16>> {
    if |rest| < 2 then Some([1, 2])
    else
      var count: nat := U16At(rest, 0);
      if 2 + 2 * count > |rest| then None else Some(WordsOf(rest[2..], count))
  }

  function ListInstances(s: Server, start: u32, rest: seq<byte>): Answer {
    match AttributeIds(rest)
    case None => Raised
    case Some(attrs) =>
      match Records(s.tags, 1, start, attrs)
      case None => Raised
      case Some(records) => Answered(Status4(GET_INSTANCE_ATTRIBUTE_LIST, 0) + records)
  }

  function HandleCip(s: Server, session: u32, service: u8, path: seq<byte>, rest: seq<byte>): (r: (Server, Answer)) {
    if service == GET_INSTANCE_ATTRIBUTE_LIST && ParseInstance(path).Some? then
      (s, ListInstances(s, ParseInstance(path).value, rest))
    else if service == GET_ATTRIBUTE_SINGLE && |path| >= 6 && path[..4] == [0x20, 0x01, 0x24, 0x01] then
      if path[4] != 0x30 then (s, Answered(Status4(service, 0x05)))
      else
        match IdentityAttribute(path[5])
        case None => (s, Answered(Status4(service, 0x09)))
        case Some(value) => (s, Answered(Status4(service, 0) + value))
    else if service == READ_TAG then
      match Find(s.tags, ParseSymbolicPath(path))
      case Some(e) => (s, Answered(Status4(service, 0) + LE16(e.kind) + e.value))
      case None => (s, Answered(Status4(service, 0x04)))
    else if service == WRITE_TAG then
      if |rest| >= 4 then
        (s.(tags := Store(s.tags, Entry(ParseSymbolicPath(path), rest[2], rest[4..]))), Answered(Status4(service, 0)))
      else (s, Answered(Status4(service, 0x04)))
    else if service == FORWARD_OPEN then
      if |rest| >= 10 then
        var to := U32At(rest, 6);
        (s.(links := s.links[session := Ids(SERVER_OT, to)]),
         Answered(Status4(service, 0) + LE32(SERVER_OT) + LE32(to) + LE16(1) + LE16(1)))
      else (s, Answered(Status4(service, 0x04)))
    else if service == FORWARD_CLOSE then (s, Answered(Status4(service, 0)))
    else (s, Answered(Status4(service, 0x08)))
  }

  // ---------------------------------------------------------------------------------------
  // Requests inside frames

  /** Python slicing: out-of-range bounds are cut back. */
  function Cut(b: seq<byte>, from: nat, to: nat): seq<byte> {
    b[Min(from, |b|)..if Min(to, |b|) < Min(from, |b|) then Min(from, |b|) else Min(to, |b|)]
  }

  datatype Call = Call(service: u8, path: seq<byte>, rest: seq<byte>)

  function CallOf(cip: seq<byte>): Call
    requires |cip| >= 2
  {
    var words: nat := cip[1];
    Call(cip[0], Cut(cip, 2, 2 + 2 * words), Cut(cip, 2 + 2 * words, |cip|))
  }

  datatype Unwrapped = NotRouted | BadWrapper | Routed(slot: u8, call: Call)

  /** Open an Unconnected Send; anything else is not routed. */
  function Unwrap(call: Call): Unwrapped {
    if call.service != UNCONNECTED_SEND then NotRouted
    else if |call.rest| < 4 then BadWrapper
    else
      var len: nat := U16At(call.rest, 2);
      var embedded := Cut(call.rest, 4, 4 + len);
      if |embedded| < 2 then BadWrapper
      else Routed(if |call.rest| >= 4 + len + 4 then call.rest[|call.rest| - 1] else 0, CallOf(embedded))
  }

  /** The unconnected-data item of a request body, if the body has a usable one. */
  function RequestItem(body: seq<byte>): Option<seq<byte>> {
    if |body| < 8 then None
    else
      match ItemsOf(body[8..], U16At(body, 6))
      case None => None
      case Some(items) =>
        var cip := LastOf(items, UNCONNECTED_DATA);
        if cip.Some? && |cip.value| >= 4 then cip else None
  }

  datatype Response = Silence | Crash | Frame(bytes: seq<byte>)

  function Packet(command: u16, session: u32, context: u64, body: seq<byte>): Response {
    if |body| < 0x1_0000 then Frame(HeaderBytes(Header(command, |body|, session, 0, context, 0)) + body) else Crash
  }

  function ReplyBody(cip: seq<byte>): seq<byte>
    requires |cip| < 0x1_0000
  {
    BodyPreamble(0) + ItemListBytes(RequestItems(cip))
  }

  function RRResponse(context: u64, a: Answer): Response {
    match a
    case Raised => Crash
    case Answered(cip) =>
      if |cip| < 0x1_0000 then Packet(SEND_RR_DATA, SESSION_HANDLE, context, ReplyBody(cip)) else Crash
  }

  function HandleRRData(s: Server, session: u32, context: u64, body: seq<byte>): (r: (Server, Response)) {
    match RequestItem(body)
    case None => (s, Silence)
    case Some(cip) =>
      var call := CallOf(cip);
      match Unwrap(call)
      case BadWrapper => (s, Silence)
      case NotRouted =>
        var (s', a) := HandleCip(s, session, call.service, call.path, call.rest);
        (s', RRResponse(context, a))
      case Routed(_, inner) =>
        var (s', a) := HandleCip(s, session, inner.service, inner.path, inner.rest);
        (s', RRResponse(context, a))
  }

  // ---------------------------------------------------------------------------------------
  // Connected requests

  datatype UnitItems = UnitItems(id: Option<u32>, data: Option<seq<byte>>)
  datatype UnitWalk = UnitSilent | UnitRaise | UnitFound(items: UnitItems)

  /** The item loop of a connected request. The ID is read from the body at the item's data,
      even past a short item; it raises only at the end of the body. */
  function UnitItemsOf(b: seq<byte>, count: nat, found: UnitItems): UnitWalk {
    if count == 0 then UnitFound(found)
    else
      match FirstItem(b)
      case None => UnitSilent
      case Some((it, rest)) =>
        if it.kind == CONNECTED_ADDRESS then
          if |b| < 8 then UnitRaise
          else UnitItemsOf(rest, count - 1, found.(id := Some(U32At(b, 4))))
        else if it.kind == CONNECTED_DATA then UnitItemsOf(rest, count - 1, found.(data := Some(it.data)))
        else UnitItemsOf(rest, count - 1, found)
  }

  /** The two tag services the connected path offers. */
  function HandleUnitCip(s: Server, call: Call): (r: (Server, seq<byte>)) {
    if call.service == READ_TAG then
      match Find(s.tags, ParseSymbolicPath(call.path))
      case Some(e) => (s, Status4(READ_TAG, 0) + LE16(e.kind) + e.value)
      case None => (s, Status4(READ_TAG, 0x04))
    else if call.service == WRITE_TAG then
      if |call.rest| >= 4 then
        (s.(tags := Store(s.tags, Entry(ParseSymbolicPath(call.path), call.rest[2], call.rest[4..]))),
         Status4(WRITE_TAG, 0))
      else (s, Status4(WRITE_TAG, 0x04))
    else (s, Status4(call.service, 0x08))
  }

  function UnitReplyBody(to: u32, sequence: u16, cip: seq<byte>): seq<byte>
    requires |cip| < 0x1_0000 - 2
  {
    BodyPreamble(0) + ItemListBytes([Item(CONNECTED_ADDRESS, LE32(to)), Item(CONNECTED_DATA, LE16(sequence) + cip)])
  }

  function HandleUnitData(s: Server, session: u32, context: u64, body: seq<byte>): (r: (Server, Response)) {
    if |body| < 8 then (s, Silence)
    else
      match UnitItemsOf(body[8..], U16At(body, 6), UnitItems(None, None))
      case UnitSilent => (s, Silence)
      case UnitRaise => (s, Crash)
      case UnitFound(UnitItems(None, _)) => (s, Silence)
      case UnitFound(UnitItems(_, None)) => (s, Silence)
      case UnitFound(UnitItems(Some(id), Some(data))) =>
        if |data| < 4 || session !in s.links || id != s.links[session].ot then (s, Silence)
        else
          var (s', cip) := HandleUnitCip(s, CallOf(data[2..]));
          if |cip| < 0x1_0000 - 2
          then (s', Packet(SEND_UNIT_DATA, session, context, UnitReplyBody(s.links[session].to, U16At(data, 0), cip)))
          else (s', Crash)
  }

  // ---------------------------------------------------------------------------------------
  // The serving loop

  function HandleFrame(s: Server, frame: seq<byte>): (r: (Server, Response))
    requires |frame| >= HEADER_SIZE
  {
    var h := HeaderOf(frame);
    var body := frame[HEADER_SIZE..];
    if h.command == REGISTER_SESSION then
      (s, Packet(REGISTER_SESSION, SESSION_HANDLE, h.context, LE16(1) + LE16(0)))
    else if h.command == UNREGISTER_SESSION then (s, Packet(UNREGISTER_SESSION, 0, h.context, []))
    else if h.command == SEND_RR_DATA then HandleRRData(s, h.session, h.context, body)
    else if h.command == SEND_UNIT_DATA then HandleUnitData(s, h.session, h.context, body)
    else (s, Silence)
  }

  /** Only the serving loop looks at how much of the stream has been consumed. */
  lemma HandlingIgnoresRead(s: Server, frame: seq<byte>, n: nat)
    requires |frame| >= HEADER_SIZE
    ensures var (s', response) := HandleFrame(s, frame);
            HandleFrame(s.(read := n), frame) == (s'.(read := n), response)
  {
    hide HeaderOf, Packet, HandleRRData, HandleUnitData;
    var h := HeaderOf(frame);
    RRDataIgnoresRead(s, h.session, h.context, frame[HEADER_SIZE..], n);
    UnitDataIgnoresRead(s, h.session, h.context, frame[HEADER_SIZE..], n);
  }

  lemma CipIgnoresRead(s: Server, session: u32, call: Call, n: nat)
    ensures var (s', a) := HandleCip(s, session, call.service, call.path, call.rest);
            HandleCip(s.(read := n), session, call.service, call.path, call.rest) == (s'.(read := n), a)
    ensures var (s', cip) := HandleUnitCip(s, call); HandleUnitCip(s.(read := n), call) == (s'.(read := n), cip)
  {
    hide U32At, LE16, LE32, Status4, Find, Store, ParseSymbolicPath, ParseInstance, IdentityAttribute;
  }

  lemma RRDataIgnoresRead(s: Server, session: u32, context: u64, body: seq<byte>, n: nat)
    ensures var (s', response) := HandleRRData(s, session, context, body);
            HandleRRData(s.(read := n), session, context, body) == (s'.(read := n), response)
  {
    hide ItemsOf, LastOf, U16At, CallOf, Unwrap, HandleCip, HandleUnitCip, RRResponse;
    if RequestItem(body).Some? {
      var call := CallOf(RequestItem(body).value);
      CipIgnoresRead(s, session, call, n);
      if Unwrap(call).Routed? {
        CipIgnoresRead(s, session, Unwrap(call).call, n);
      }
    }
  }

  lemma UnitDataIgnoresRead(s: Server, session: u32, context: u64, body: seq<byte>, n: nat)
    ensures var (s', response) := HandleUnitData(s, session, context, body);
            HandleUnitData(s.(read := n), session, context, body) == (s'.(read := n), response)
  {
    hide UnitItemsOf, CallOf, HandleCip, HandleUnitCip, Packet, UnitReplyBody, U16At;
    if |body| >= 8 {
      var walk := UnitItemsOf(body[8..], U16At(body, 6), UnitItems(None, None));
      if walk.UnitFound? && walk.items.data.Some? && |walk.items.data.value| >= 4 {
        CipIgnoresRead(s, session, CallOf(walk.items.data.value[2..]), n);
      }
    }
  }

  /** Consume one whole frame if one has arrived, and answer it. */
  function Serve(s: Server, c: Tcp): (r: (Server, Tcp)) {
    if s.down || s.read > |c.sent| then (s, c)
    else
      match FrameAt(c.sent[s.read..], 0xFFFF)
      case Short => (s, c)
      case TooLong => (s, c)
      case Whole(frame, _) =>
        var (s', response) := HandleFrame(s, frame);
        var after := s'.(read := s.read + |frame|);
        match response
        case Silence => (after, c)
        case Crash => (after.(down := true), c)
        case Frame(bytes) => (after, c.(inbox := c.inbox + bytes))
  }
}
