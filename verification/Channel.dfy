/**
 Connected messaging: Forward Open, exchanges over the opened connection (SendUnitData) and
 Forward Close. The functions on `Conn` say what each call does; the class `Connection`
 does it in place and is proved to agree.
 */
module Channel {
  import opened Bytes
  import opened Status
  import opened Encapsulation
  import opened Stream
  import opened Framing
  import opened Cip
  import opened Cpf
  import opened Message

  const MAX_DATA: nat := 508
  const CONNECTED_OVERHEAD: nat := 22
  const MAX_CONNECTED_BODY: nat := CONNECTED_OVERHEAD + MAX_DATA
  const MAX_CONN_NAME: nat := 64

  const VENDOR: u16 := 0xF33D
  const SERIAL_FALLBACK: u32 := 0x1122_3344

  /** Variable-size class 3 flags with the payload capacity or-ed into the low nine bits. */
  const CONN_PARAMS: u16 := 0x4200 + MAX_DATA

  datatype ConnPhase = Idle | Opening | Open | Sending | Closing | Closed | Failed

  datatype ConnReply = ConnReply(service: u8, code: u8, data: seq<byte>)

  /** A name that fits the connection's name buffer. */
  type TagName = s: seq<byte> | |s| < MAX_CONN_NAME

  datatype Conn = Conn(
    phase: ConnPhase,
    fwd: Msg,                  // Forward Open and Forward Close travel unconnected
    ot: u32,                   // O->T ID, assigned by the target
    to: u32,                   // T->O ID, assigned here
    sequence: u16,             // for the next request
    serial: u16,
    name: TagName,
    slot: u8,
    wire: Wire,
    reply: Option<ConnReply>,  // of the latest completed send
    deadline: u32,
    context: u64,              // for the next request
    sentContext: u64,
    sentSequence: u16,
    originator: u32)

  function NewConn(originator: u32): Conn {
    Conn(ConnPhase.Idle, NewMsg, 0, 0, 1, 0, [], NO_ROUTE, Wire([], 0, [], 0), None, 0, 1, 0, 0, originator)
  }

  // ---------------------------------------------------------------------------------------
  // Identities

  /** The low four MAC bytes, or a fixed serial when the device has none. */
  function OriginatorSerial(mac: Option<u32>): u32 {
    if mac.None? || mac.value == 0 then SERIAL_FALLBACK else mac.value
  }

  /** The process-wide connection serial counts up and skips 0. */
  function NextSerial(last: u16): u16 {
    var n := (last + 1) % 0x1_0000;
    if n == 0 then 1 else n
  }

  /** The serial after n opens. */
  function NthSerial(last: u16, n: nat): u16 {
    if n == 0 then last else NextSerial(NthSerial(last, n - 1))
  }

  lemma NextRemainder(x: nat)
    ensures (x + 1) % 0xFFFF == if x % 0xFFFF == 0xFFFE then 0 else x % 0xFFFF + 1
  {
    var q, r := x / 0xFFFF, x % 0xFFFF;
    assert x + 1 == 0xFFFF * q + (r + 1);
  }

  lemma NextOf(r: nat)
    requires r < 0xFFFF
    ensures NextSerial(1 + r) == if r == 0xFFFE then 1 else 2 + r
  {
  }

  lemma FirstSerial(last: u16)
    ensures NextSerial(last) == 1 + last % 0xFFFF
  {
    if last == 0xFFFF {
    } else {
      assert last % 0xFFFF == last;
    }
  }

  lemma {:induction false} SerialsCycle(last: u16, n: nat)
    requires n > 0
    ensures NthSerial(last, n) == 1 + (last + n - 1) % 0xFFFF
  {
    hide NextSerial;
    if n == 1 {
      FirstSerial(last);
      assert NthSerial(last, 1) == NextSerial(NthSerial(last, 0)) == NextSerial(last);
    } else {
      SerialsCycle(last, n - 1);
      var x: nat := last + n - 2;
      NextRemainder(x);
      NextOf(x % 0xFFFF);
      assert NthSerial(last, n) == NextSerial(NthSerial(last, n - 1));
    }
  }

  /** Serials are never 0, and any 65535 consecutive opens have distinct serials. */
  lemma SerialsAreDistinct(last: u16, i: nat, j: nat)
    requires 0 < i < j < i + 0xFFFF
    ensures NthSerial(last, i) != 0 && NthSerial(last, i) != NthSerial(last, j)
  {
    SerialsCycle(last, i);
    SerialsCycle(last, j);
    DistinctModulo(last + i - 1, last + j - 1);
  }

  lemma DistinctModulo(x: nat, y: nat)
    requires x < y < x + 0xFFFF
    ensures x % 0xFFFF != y % 0xFFFF
  {
    assert x == 0xFFFF * (x / 0xFFFF) + x % 0xFFFF && y == 0xFFFF * (y / 0xFFFF) + y % 0xFFFF;
  }

  /** The route to the CPU's Message Router when there is one, then the tag. */
  function ConnectionPath(slot: u8, name: seq<byte>): seq<byte> {
    (if slot == NO_ROUTE then [] else PortSegment(1, slot) + ClassSegment(2) + InstanceSegment(1)) + SymbolicPath(name)
  }

  lemma ConnectionPathFits(slot: u8, name: seq<byte>)
    requires |name| < MAX_CONN_NAME
    ensures |ConnectionPath(slot, name)| % 2 == 0 && |ConnectionPath(slot, name)| <= 72
  {
    SymbolicPathFits(name);
  }

  /** What names a connection on the wire. */
  datatype Name = Name(serial: u16, vendor: u16, originator: u32, path: seq<byte>)

  function NameOf(k: Conn): Name {
    Name(k.serial, VENDOR, k.originator, ConnectionPath(k.slot, k.name))
  }

  predicate Encodes(n: Name) {
    |n.path| % 2 == 0 && |n.path| <= 72
  }

  /** Forward Open up to its connection path. */
  function OpenHead(to: u32, n: Name): seq<byte> {
    [0x0A, 0x0E] + LE32(0) + LE32(to) + LE16(n.serial) + LE16(n.vendor) + LE32(n.originator) + OpenParams()
  }

  /** Timeout multiplier, the two packet intervals and sizes, transport class. */
  function OpenParams(): seq<byte> {
    [3, 0, 0, 0] + LE32(10000) + LE16(CONN_PARAMS) + LE32(10000) + LE16(CONN_PARAMS) + [0xA3]
  }

  function ForwardOpenData(to: u32, n: Name): seq<byte>
    requires Encodes(n)
  {
    OpenHead(to, n) + [|n.path| / 2] + n.path
  }

  function CloseHead(n: Name): seq<byte> {
    [0x0A, 0x0E] + LE16(n.serial) + LE16(n.vendor) + LE32(n.originator)
  }

  function ForwardCloseData(n: Name): seq<byte>
    requires Encodes(n)
  {
    CloseHead(n) + [|n.path| / 2, 0] + n.path
  }

  /** The T->O ID and the name in a Forward Open request, at the offsets of its layout. */
  function ReadOpen(data: seq<byte>): Option<(u32, Name)> {
    if |data| < 36 then None
    else
      var words: nat := data[35];
      if |data| != 36 + 2 * words then None
      else Some((U32At(data, 6), Name(U16At(data, 10), U16At(data, 12), U32At(data, 14), data[36..])))
  }

  function ReadClose(data: seq<byte>): Option<Name> {
    if |data| < 12 then None
    else
      var words: nat := data[10];
      if |data| != 12 + 2 * words then None
      else Some(Name(U16At(data, 2), U16At(data, 4), U32At(data, 6), data[12..]))
  }

  lemma OpenHeadFields(to: u32, n: Name)
    ensures var h := OpenHead(to, n);
            && |h| == 35
            && U32At(h, 6) == to && U16At(h, 10) == n.serial && U16At(h, 12) == n.vendor && U32At(h, 14) == n.originator
  {
    hide U16At, U32At, LE16, LE32;
    var h := OpenHead(to, n);
    var front := [0x0A, 0x0E] + LE32(0);
    var back := LE16(n.serial) + LE16(n.vendor) + LE32(n.originator) + OpenParams();
    assert h == front + LE32(to) + back;
    Read32(front, to, back);
    NameFields(front + LE32(to), n, OpenParams());
    assert h == front + LE32(to) + LE16(n.serial) + LE16(n.vendor) + LE32(n.originator) + OpenParams();
  }

  /** Serial, vendor and originator serial in a row, whatever surrounds them. */
  lemma NameFields(pre: seq<byte>, n: Name, post: seq<byte>)
    ensures var s := pre + LE16(n.serial) + LE16(n.vendor) + LE32(n.originator) + post;
            && U16At(s, |pre|) == n.serial && U16At(s, |pre| + 2) == n.vendor && U32At(s, |pre| + 4) == n.originator
  {
    hide U16At, U32At, LE16, LE32;
    var a, b, c := LE16(n.serial), LE16(n.vendor), LE32(n.originator);
    var s := pre + a + b + c + post;
    assert s == pre + a + (b + c + post);
    assert s == (pre + a) + b + (c + post);
    assert s == (pre + a + b) + c + post;
    Read16(pre, n.serial, b + c + post);
    Read16(pre + a, n.vendor, c + post);
    Read32(pre + a + b, n.originator, post);
  }

  lemma WordsInFront(s: seq<byte>, t: seq<byte>, off: nat)
    requires off + 4 <= |s|
    ensures U16At(s + t, off) == U16At(s, off) && U32At(s + t, off) == U32At(s, off)
  {
  }

  lemma OpenReadsBack(to: u32, n: Name)
    requires Encodes(n)
    ensures |ForwardOpenData(to, n)| == 36 + |n.path| <= 128
    ensures ReadOpen(ForwardOpenData(to, n)) == Some((to, n))
  {
    hide U16At, U32At, OpenHead;
    var h, tail := OpenHead(to, n), [|n.path| / 2] + n.path;
    var d := ForwardOpenData(to, n);
    OpenHeadFields(to, n);
    assert d == h + tail;
    WordsInFront(h, tail, 6);
    WordsInFront(h, tail, 10);
    WordsInFront(h, tail, 12);
    WordsInFront(h, tail, 14);
    assert d[36..] == n.path;
  }

  lemma CloseReadsBack(n: Name)
    requires Encodes(n)
    ensures |ForwardCloseData(n)| == 12 + |n.path| <= 128
    ensures ReadClose(ForwardCloseData(n)) == Some(n)
  {
    hide U16At, U32At, LE16, LE32;
    var tail := [|n.path| / 2, 0] + n.path;
    var d := ForwardCloseData(n);
    NameFields([0x0A, 0x0E], n, tail);
    assert d == [0x0A, 0x0E] + LE16(n.serial) + LE16(n.vendor) + LE32(n.originator) + tail;
    assert d[12..] == n.path;
  }

  /** A Forward Close names the connection the Forward Open named, for every name that open()
      accepts, routed or direct, and both requests fit their 128-byte buffers. */
  lemma CloseNamesWhatOpenNamed(to: u32, serial: u16, originator: u32, slot: u8, name: seq<byte>)
    requires |name| < MAX_CONN_NAME
    ensures var n := Name(serial, VENDOR, originator, ConnectionPath(slot, name));
            && Encodes(n) && |ForwardOpenData(to, n)| <= 128 && |ForwardCloseData(n)| <= 128
            && ReadOpen(ForwardOpenData(to, n)) == Some((to, n))
            && ReadClose(ForwardCloseData(n)) == Some(n)
  {
    hide ReadOpen, ReadClose, ForwardOpenData, ForwardCloseData, ConnectionPath;
    ConnectionPathFits(slot, name);
    var n := Name(serial, VENDOR, originator, ConnectionPath(slot, name));
    OpenReadsBack(to, n);
    CloseReadsBack(n);
  }

  // ---------------------------------------------------------------------------------------
  // Opening and closing

  /** The identity a new open() chooses: a nonzero T->O ID, the next serial, the name. */
  function Chosen(k: Conn, name: TagName, slot: u8, random: u32, serial: u16): Conn {
    k.(to := if random == 0 then 1 else random, ot := 0, name := name, slot := slot, serial := serial)
  }

  /** Ask for a connection with the identity in k. A refusal leaves the phase as it was. */
  function AskOpen(k: Conn, c: Tcp, session: u32, timeout: u32, now: nat): (r: (Conn, Status))
    requires Encodes(NameOf(k))
  {
    var (fwd, st) := SendMsg(k.fwd, c, session, FORWARD_OPEN, ConnectionManagerPath(),
                             ForwardOpenData(k.to, NameOf(k)), timeout, now);
    (k.(fwd := fwd, phase := if st == Pending then Opening else k.phase), st)
  }

  /** open(): also returns the process-wide serial, which it may have advanced. */
  function OpenConn(k: Conn, c: Tcp, session: u32, name: seq<byte>, timeout: u32, slot: u8,
                    random: u32, last: u16, now: nat): (r: (Conn, u16, Status))
  {
    if |name| >= MAX_CONN_NAME then (k, last, InvalidArg)
    else if k.phase.Opening? || k.phase.Sending? || k.phase.Closing? then (k, last, Busy)
    else
      ConnectionPathFits(slot, name);
      var (k', st) := AskOpen(Chosen(k, name, slot, random, NextSerial(last)), c, session, timeout, now);
      (k', NextSerial(last), st)
  }

  function CloseConn(k: Conn, c: Tcp, session: u32, timeout: u32, now: nat): (r: (Conn, Status))
  {
    if !k.phase.Open? then (k, NotReady)
    else
      ConnectionPathFits(k.slot, k.name);
      var (fwd, st) := SendMsg(k.fwd, c, session, FORWARD_CLOSE, ConnectionManagerPath(),
                               ForwardCloseData(NameOf(k)), timeout, now);
      (k.(fwd := fwd, phase := if st == Pending then Closing else Open), st)
  }

  /** The O->T ID a Forward Open reply grants: both IDs nonzero and ours echoed. */
  function Granted(reply: Option<Reply>, to: u32): Option<u32> {
    match reply
    case None => None
    case Some(r) =>
      if r.code != 0 || |r.data| < 12 then None
      else
        var ot, echo := U32At(r.data, 0), U32At(r.data, 4);
        if ot == 0 || echo == 0 || echo != to then None else Some(ot)
  }

  /** A reply to the Forward Open is in: take the O->T ID or fail. */
  function GrantTaken(k: Conn): (r: (Conn, Status)) {
    match Granted(k.fwd.reply, k.to)
    case None => (k.(phase := ConnPhase.Failed), Error)
    case Some(ot) => (k.(ot := ot, phase := Open), Ok)
  }

  function PollOpening(k: Conn, c: Tcp, now: nat): (r: (Conn, Tcp, Status)) {
    var (fwd, c', st) := PollMsg(k.fwd, c, now);
    var k1 := k.(fwd := fwd);
    if st == Pending then (k1, c', Pending)
    else if st != Ok then (k1.(phase := ConnPhase.Failed), c', st)
    else
      var (k', st') := GrantTaken(k1);
      (k', c', st')
  }

  function PollClosing(k: Conn, c: Tcp, now: nat): (r: (Conn, Tcp, Status)) {
    var (fwd, c', st) := PollMsg(k.fwd, c, now);
    var k1 := k.(fwd := fwd);
    if st == Pending then (k1, c', Pending)
    else if st != Ok then (k1.(phase := ConnPhase.Failed), c', st)
    else (k1.(phase := ConnPhase.Closed), c', Ok)
  }

  // ---------------------------------------------------------------------------------------
  // Exchanges over the connection

  function ConnectedHeader(session: u32, context: u64, cipLen: nat): Header
    requires cipLen <= MAX_DATA
  {
    Header(SEND_UNIT_DATA, CONNECTED_OVERHEAD + cipLen, session, 0, context, 0)
  }

  function ConnectedItems(id: u32, sequence: u16, cip: seq<byte>): seq<Item> {
    [Item(CONNECTED_ADDRESS, LE32(id)), Item(CONNECTED_DATA, LE16(sequence) + cip)]
  }

  function ConnectedFrame(session: u32, context: u64, id: u32, sequence: u16, cip: seq<byte>): seq<byte>
    requires |cip| <= MAX_DATA
  {
    HeaderBytes(ConnectedHeader(session, context, |cip|)) + BodyPreamble(0) + ItemListBytes(ConnectedItems(id, sequence, cip))
  }

  /** The address item, the data item's head and the sequence number. */
  function ConnectedHeads(id: u32, cipLen: nat, sequence: u16): seq<byte>
    requires cipLen + 2 < 0x1_0000
  {
    LE16(CONNECTED_ADDRESS) + LE16(4) + LE32(id) + LE16(CONNECTED_DATA) + LE16(2 + cipLen) + LE16(sequence)
  }

  lemma ConnectedItemBytes(id: u32, sequence: u16, cip: seq<byte>)
    requires |cip| + 2 < 0x1_0000
    ensures ItemListBytes(ConnectedItems(id, sequence, cip)) == ConnectedHeads(id, |cip|, sequence) + cip
  {
    hide LE16, LE32;
    var items := ConnectedItems(id, sequence, cip);
    assert items[1..] == [items[1]] && items[1..][1..] == [];
    assert ItemListBytes(items[1..]) == ItemBytes(items[1]) + [];
    assert ItemListBytes(items) == ItemBytes(items[0]) + ItemListBytes(items[1..]);
  }

  lemma ConnectedFrameLength(session: u32, context: u64, id: u32, sequence: u16, cip: seq<byte>)
    requires |cip| <= MAX_DATA
    ensures |ConnectedFrame(session, context, id, sequence, cip)| == HEADER_SIZE + CONNECTED_OVERHEAD + |cip|
  {
    ConnectedItemBytes(id, sequence, cip);
  }

  function Bump16(v: u16): u16 {
    (v + 1) % 0x1_0000
  }

  /** A frame queued, with the context and the sequence number both used up. */
  function Launched(k: Conn, frame: seq<byte>, timeout: u32, now: nat): Conn {
    k.(phase := ConnPhase.Sending, deadline := Add32(Ticks(now), timeout),
       context := Bump64(k.context), sequence := Bump16(k.sequence),
       sentContext := k.context, sentSequence := k.sequence, reply := None, wire := Queue(frame))
  }

  /** send(): the socket is not looked at until the first poll. */
  function SendConn(k: Conn, session: u32, service: u8, path: seq<byte>, data: seq<byte>,
                    timeout: u32, now: nat): (r: (Conn, Status))
  {
    if !k.phase.Open? then (k, NotReady)
    else if 2 + |path| + |data| > MAX_DATA || |path| % 2 != 0 then (k, InvalidArg)
    else
      (Launched(k, ConnectedFrame(session, k.context, k.ot, k.sequence, CipRequest(service, path, data)), timeout, now),
       Pending)
  }

  /** parseConnectedResponse(): the reply in a received frame, or None when the frame is not a
      good answer on this connection to the request with this context and sequence number. */
  function ParseConnected(rx: seq<byte>, context: u64, to: u32, sequence: u16): Option<ConnReply> {
    if |rx| < HEADER_SIZE + 8 then None
    else
      var h := HeaderOf(rx);
      if h.command != SEND_UNIT_DATA || h.status != 0 || h.context != context then None
      else
        match FindConnected(rx[HEADER_SIZE + 8..], U16At(rx, HEADER_SIZE + 6), Pair(None, None))
        case Some(Pair(Some(id), Some(data))) => ConnectedReplyOf(id, data, to, sequence)
        case _ => None
  }

  function ConnectedReplyOf(id: u32, data: seq<byte>, to: u32, sequence: u16): Option<ConnReply> {
    if |data| < 6 || id != to || U16At(data, 0) != sequence then None
    else Some(ConnReply(data[2], data[4], data[6..]))
  }

  /** The whole frame is in: judge it. */
  function Concluded(k: Conn): (r: (Conn, Status)) {
    match ParseConnected(k.wire.rx, k.sentContext, k.to, k.sentSequence)
    case Some(reply) => (k.(phase := Open, reply := Some(reply)), Ok)
    case None => (k.(phase := ConnPhase.Failed), Error)
  }

  function ReceiveConn(k: Conn, c: Tcp): (r: (Conn, Tcp, Status)) {
    var (w, c', st) := Fill(k.wire, c, MAX_CONNECTED_BODY);
    var k1 := k.(wire := w);
    if st == Pending then (k1, c', Pending)
    else if st != Ok then (k1.(phase := ConnPhase.Failed), c', st)
    else
      var (k', st') := Concluded(k1);
      (k', c', st')
  }

  function PollSending(k: Conn, c: Tcp, now: nat): (r: (Conn, Tcp, Status)) {
    if Expired(Ticks(now), k.deadline) then (k.(phase := ConnPhase.Failed), c, Timeout)
    else
      var (w, c1, st) := Drain(k.wire, c);
      if st != Ok then (k.(wire := w, phase := if st == Pending then ConnPhase.Sending else ConnPhase.Failed), c1, st)
      else ReceiveConn(k.(wire := w), c1)
  }

  function PollConn(k: Conn, c: Tcp, now: nat): (r: (Conn, Tcp, Status)) {
    match k.phase
    case Opening => PollOpening(k, c, now)
    case Sending => PollSending(k, c, now)
    case Closing => PollClosing(k, c, now)
    case Open => (k, c, Ok)
    case Closed => (k, c, Status.Closed)
    case Failed => (k, c, Error)
    case Idle => (k, c, NotReady)
  }

  // ---------------------------------------------------------------------------------------
  // What every call keeps

  predicate ConnOk(k: Conn) {
    && MsgOk(k.fwd)
    && WireOk(k.wire) && (k.phase.Sending? ==> ReceiveOk(k.wire, MAX_CONNECTED_BODY) && k.reply.None?)
    && (InFlight(k.fwd) <==> k.phase.Opening? || k.phase.Closing?)
  }

  /** What a poll keeps, whatever the line does. */
  lemma PollConnKeeps(k: Conn, c: Tcp, now: nat)
    requires ConnOk(k)
    ensures var (k', c', st) := PollConn(k, c, now);
            && ConnOk(k') && c'.epoch == c.epoch
            && k' == k.(fwd := k'.fwd, wire := k'.wire, phase := k'.phase, ot := k'.ot, reply := k'.reply)
            && k'.fwd.wire.tx == k.fwd.wire.tx && k'.wire.tx == k.wire.tx
            && k'.fwd.sentContext == k.fwd.sentContext
            && (!k.phase.Opening? ==> k'.ot == k.ot)
  {
    hide Drain, Fill, HeaderOf, PollMsg, ParseConnected, Granted;
    match k.phase
    case Opening => PollKeeps(k.fwd, c, now);
    case Closing => PollKeeps(k.fwd, c, now);
    case Sending =>
      if !Expired(Ticks(now), k.deadline) {
        DrainSends(k.wire, c);
        var (w, c1, st) := Drain(k.wire, c);
        if st == Ok {
          FillConserves(w, c1, MAX_CONNECTED_BODY);
          FillStops(w, c1, MAX_CONNECTED_BODY);
        }
      }
    case _ =>
  }

  /** Ok for a send is only ever the result of one whole frame from the front of the stream
      that answers the latest request: its context, its sequence number in the last data item
      and our T->O ID in the last address item, with every declared item in the body. */
  lemma ConnectedOkMeansAnswered(k: Conn, c: Tcp, now: nat)
    requires ConnOk(k) && k.phase.Sending?
    ensures var (k', c', st) := PollConn(k, c, now);
            var frame := k'.wire.rx;
            st == Ok ==>
            && FrameAt(k.wire.rx + c.inbox, MAX_CONNECTED_BODY) == Whole(frame, c'.inbox)
            && k'.wire.sent == |k.wire.tx|
            && |frame| >= HEADER_SIZE + 8
            && HeaderOf(frame).command == SEND_UNIT_DATA && HeaderOf(frame).status == 0
            && HeaderOf(frame).context == k.sentContext
            && ItemsOf(frame[HEADER_SIZE + 8..], U16At(frame, HEADER_SIZE + 6)).Some?
            && var items := ItemsOf(frame[HEADER_SIZE + 8..], U16At(frame, HEADER_SIZE + 6)).value;
               var id, data := LastOf(items, CONNECTED_ADDRESS), LastOf(items, CONNECTED_DATA);
               && id.Some? && |id.value| >= 4 && U32At(id.value, 0) == k.to
               && data.Some? && |data.value| >= 6 && U16At(data.value, 0) == k.sentSequence
               && k'.reply == Some(ConnReply(data.value[2], data.value[4], data.value[6..]))
               && k'.phase.Open?
  {
    hide Drain, Fill, HeaderOf;
    DrainSends(k.wire, c);
    var (w, c1, _) := Drain(k.wire, c);
    if PollConn(k, c, now).2 == Ok {
      FillConserves(w, c1, MAX_CONNECTED_BODY);
      FillIsFragmentationFree(w, c1, MAX_CONNECTED_BODY);
      var frame := PollConn(k, c, now).0.wire.rx;
      var body, count := frame[HEADER_SIZE + 8..], U16At(frame, HEADER_SIZE + 6);
      FindConnectedIsLast(body, count, Pair(None, None));
      LastOfHoldsId(ItemsOf(body, count).value);
    }
  }

  lemma OpenKeeps(k: Conn, c: Tcp, session: u32, name: seq<byte>, timeout: u32, slot: u8,
                  random: u32, last: u16, now: nat)
    requires ConnOk(k)
    ensures var (k', last', st) := OpenConn(k, c, session, name, timeout, slot, random, last, now);
            && ConnOk(k')
            && (st == Pending <==> k'.phase.Opening? && !k.phase.Opening?)
            && (last' == last || last' == NextSerial(last))
            && k'.sequence == k.sequence && k'.context == k.context
            && (k.phase.Open? ==>
                  if |name| >= MAX_CONN_NAME then k' == k && st == InvalidArg
                  else if Connected(c) then st == Pending
                  else k'.phase.Open? && k'.ot == 0)
  {
    hide RequestFrame, CipRequest, ConnectionPath, ForwardOpenData, NextSerial;
    if |name| < MAX_CONN_NAME {
      ConnectionPathFits(slot, name);
      OpenReadsBack(if random == 0 then 1 else random,
                    NameOf(Chosen(k, name, slot, random, NextSerial(last))));
    }
  }

  lemma CipRequestLength(service: u8, path: seq<byte>, data: seq<byte>)
    requires |path| < 0x200
    ensures |CipRequest(service, path, data)| == 2 + |path| + |data|
  {
  }

  lemma ChosenOk(k: Conn, name: TagName, slot: u8, random: u32, serial: u16)
    requires ConnOk(k)
    ensures ConnOk(Chosen(k, name, slot, random, serial))
  {
  }

  lemma SendKeeps(k: Conn, session: u32, service: u8, path: seq<byte>, data: seq<byte>, timeout: u32, now: nat)
    requires ConnOk(k)
    ensures ConnOk(SendConn(k, session, service, path, data, timeout, now).0)
  {
    hide ConnectedFrame;
  }

  lemma CloseKeeps(k: Conn, c: Tcp, session: u32, timeout: u32, now: nat)
    requires ConnOk(k)
    ensures var (k', st) := CloseConn(k, c, session, timeout, now);
            && ConnOk(k')
            && (st == Pending <==> k.phase.Open? && Connected(c))
            && (st == Pending <==> k'.phase.Closing? && !k.phase.Closing?)
            && k' == k.(fwd := k'.fwd, phase := k'.phase)
            && (if k.phase.Open? then k'.phase.Open? || k'.phase.Closing? else k' == k)
  {
    hide RequestFrame, CipRequest, ConnectionPath;
    ConnectionPathFits(k.slot, k.name);
    CloseReadsBack(NameOf(k));
  }

  /** The reply inside the data item at [off, off + len) of a receive buffer holding n bytes. */
  lemma ConnectedReplyInPlace(rx: seq<byte>, n: nat, off: nat, len: nat, id: u32, to: u32, sequence: u16)
    requires off + len <= n <= |rx|
    ensures ConnectedReplyOf(id, rx[..n][off..off + len], to, sequence) ==
            if len < 6 || id != to || U16At(rx, off) != sequence then None
            else Some(ConnReply(rx[off + 2], rx[off + 4], rx[off + 6..off + len]))
  {
    var data := rx[..n][off..off + len];
    assert data == rx[off..off + len];
    if len >= 6 {
      assert data[0] == rx[off] && data[1] == rx[off + 1];
      SubSlice(rx, off, len, 6, len);
    }
  }

  lemma PairWalkEnds(b: seq<byte>, found: Pair)
    ensures FindConnected(b, 0, found) == Some(found)
  {
  }

  /** One step of the item walk, seen from position p of the frame. */
  lemma PairWalkStep(s: seq<byte>, p: nat, count: nat, found: Pair)
    requires p <= |s| && count > 0
    ensures FindConnected(s[p..], count, found) ==
            if |s| - p < 4 then None
            else
              var kind, len: nat := U16At(s, p), U16At(s, p + 2);
              if len > |s| - p - 4 || (kind == CONNECTED_ADDRESS && len < 4) then None
              else FindConnected(s[p + 4 + len..], count - 1,
                                 if kind == CONNECTED_ADDRESS then found.(id := Some(U32At(s, p + 4)))
                                 else if kind == CONNECTED_DATA then found.(data := Some(s[p + 4..p + 4 + len]))
                                 else found)
  {
    hide U16At, U32At, FirstItem;
    FirstItemAt(s, p);
    if |s| - p >= 4 {
      var len: nat := U16At(s, p + 2);
      if 4 <= len <= |s| - p - 4 {
        LongOfSlice(s, p + 4, len, 0);
      }
    }
  }

  /** The item loop of parseConnectedResponse(): the ID in the last address item and where the
      last data item lies. */
  method FindConnectedItems(rx: array<byte>, rxLen: nat) returns (found: bool, id: u32, off: nat, len: nat)
    requires HEADER_SIZE + 8 <= rxLen <= rx.Length
    ensures off + len <= rxLen
    ensures var s := rx[..rxLen];
            var walked := FindConnected(s[HEADER_SIZE + 8..], U16At(s, HEADER_SIZE + 6), Pair(None, None));
            if found then walked == Some(Pair(Some(id), Some(s[off..off + len])))
            else walked.None? || walked.value.id.None? || walked.value.data.None?
  {
    hide FindConnected, FirstItem, U16At, U32At;
    ghost var s := rx[..rxLen];
    var itemCount := GetU16(rx, HEADER_SIZE + 6);
    WordOfPrefix(rx[..], rxLen, HEADER_SIZE + 6);
    var p: nat := HEADER_SIZE + 8;
    var remaining: nat := rxLen - p;
    ghost var cur := Pair(None, None);
    var haveId, haveData := false, false;
    found, id, off, len := false, 0, 0, 0;
    var i := 0;
    while i < itemCount
      invariant 0 <= i <= itemCount && p + remaining == rxLen && off + len <= rxLen
      invariant cur == Pair(if haveId then Some(id) else None, if haveData then Some(s[off..off + len]) else None)
      invariant FindConnected(s[p..], itemCount - i, cur)
                == FindConnected(s[HEADER_SIZE + 8..], itemCount, Pair(None, None))
    {
      PairWalkStep(s, p, itemCount - i, cur);
      if remaining < 4 {
        return false, 0, 0, 0;
      }
      var kind := GetU16(rx, p);
      var itemLen := GetU16(rx, p + 2);
      WordOfPrefix(rx[..], rxLen, p);
      WordOfPrefix(rx[..], rxLen, p + 2);
      p := p + 4;
      remaining := remaining - 4;
      if itemLen > remaining {
        return false, 0, 0, 0;
      }
      if kind == CONNECTED_ADDRESS {
        if itemLen < 4 {
          return false, 0, 0, 0;
        }
        id := GetU32(rx, p);
        LongOfPrefix(rx[..], rxLen, p);
        haveId := true;
        cur := cur.(id := Some(id));
      } else if kind == CONNECTED_DATA {
        haveData, off, len := true, p, itemLen;
        cur := cur.(data := Some(s[p..p + itemLen]));
      }
      p := p + itemLen;
      remaining := remaining - itemLen;
      i := i + 1;
    }
    PairWalkEnds(s[p..], cur);
    found := haveId && haveData;
  }

  // ---------------------------------------------------------------------------------------
  // The connection, updated in place

  /** The process-wide serial counter. */
  class SerialCounter {
    var last: u16

    constructor ()
      ensures last == 0
    {
      last := 0;
    }

    method Advance()
      modifies this
      ensures last == NextSerial(old(last))
    {
      last := (last + 1) % 0x1_0000;
      if last == 0 {
        last := 1;         // skip 0
      }
    }
  }

  class Connection {
    const fwd: ExplicitMessage
    const io: FrameIo
    const originator: u32
    var phase: ConnPhase
    var ot: u32
    var to: u32
    var sequence: u16
    var serial: u16
    var name: TagName
    var slot: u8
    var replyService: u8
    var resultCode: u8
    var dataOff: nat              // where the reply data starts in the receive buffer
    var dataLen: nat
    var deadline: u32
    var context: u64
    var sentContext: u64
    var sentSequence: u16
    ghost var answered: bool      // whether the accessors describe a completed send

    /** The buffers are all separate. */
    ghost predicate Apart()
      reads this, fwd, fwd.io, io
    {
      && fwd.io != io && fwd.io.Valid() && io.Valid()
      && {fwd.io.tx, fwd.io.rx} !! {io.tx, io.rx}
      && io.tx.Length == io.rx.Length == HEADER_SIZE + MAX_CONNECTED_BODY
    }

    ghost predicate Valid()
      reads this, fwd, fwd.io, fwd.io.tx, fwd.io.rx, io, io.tx, io.rx
    {
      && Apart() && fwd.Valid()
      && (answered ==> dataOff + dataLen <= io.rx.Length)
      && ConnOk(View())
    }

    ghost function Answer(): Option<ConnReply>
      reads this, io, io.rx
    {
      if answered && dataOff + dataLen <= io.rx.Length
      then Some(ConnReply(replyService, resultCode, io.rx[dataOff..dataOff + dataLen]))
      else None
    }

    ghost function View(): Conn
      requires Apart()
      reads this, fwd, fwd.io, fwd.io.tx, fwd.io.rx, io, io.tx, io.rx
    {
      Conn(phase, fwd.View(), ot, to, sequence, serial, name, slot, io.View(), Answer(),
           deadline, context, sentContext, sentSequence, originator)
    }

    constructor (mac: Option<u32>)
      ensures Valid() && View() == NewConn(OriginatorSerial(mac))
      ensures fresh(fwd) && fresh(fwd.io) && fresh(fwd.io.tx) && fresh(fwd.io.rx)
      ensures fresh(io) && fresh(io.tx) && fresh(io.rx)
    {
      fwd := new ExplicitMessage();
      io := new FrameIo(MAX_CONNECTED_BODY);
      originator := OriginatorSerial(mac);
      phase, ot, to, sequence, serial, name, slot := ConnPhase.Idle, 0, 0, 1, 0, [], NO_ROUTE;
      replyService, resultCode, dataOff, dataLen := 0, 0, 0, 0;
      deadline, context, sentContext, sentSequence := 0, 1, 0, 0;
      answered := false;
    }

    /** buildConnectionPath(): write the route and the tag into a buffer. */
    method BuildConnectionPath(out: array<byte>, off: nat) returns (n: nat)
      requires off + 72 <= out.Length
      modifies out
      ensures n == |ConnectionPath(slot, name)| && n <= 72
      ensures out[..off + n] == old(out[..off]) + ConnectionPath(slot, name)
    {
      hide SymbolicPath;
      SymbolicPathFits(name);
      var total := 0;
      if slot != NO_ROUTE {
        Put(out, off, PortSegment(1, slot));
        Put(out, off + 2, ClassSegment(2));
        Put(out, off + 4, InstanceSegment(1));
        total := 6;
        assert out[..off + 6] == old(out[..off]) + (PortSegment(1, slot) + ClassSegment(2) + InstanceSegment(1));
      }
      var m := AppendSymbolic(out, off + total, name);
      n := total + m;
    }

    /** The Forward Open request data, built in a 128-byte buffer. */
    method BuildOpenData() returns (data: seq<byte>)
      ensures Encodes(NameOf(View0())) && data == ForwardOpenData(to, NameOf(View0()))
    {
      hide LE16, LE32, ConnectionPath;
      ConnectionPathFits(slot, name);
      var buf := new byte[128];
      Put(buf, 0, [0x0A, 0x0E]);
      PutU32(buf, 2, 0);                        // O->T ID: the target assigns it
      PutU32(buf, 6, to);
      assert buf[..10] == [0x0A, 0x0E] + LE32(0) + LE32(to);
      PutName(buf, 10);
      ghost var named := buf[..18];
      PutOpenParams(buf);
      assert buf[..35] == named + OpenParams();
      ghost var n := NameOf(View0());
      assert named == [0x0A, 0x0E] + LE32(0) + LE32(to) + (LE16(n.serial) + LE16(n.vendor) + LE32(n.originator));
      assert buf[..35] == OpenHead(to, n);
      var pathLen := BuildConnectionPath(buf, 36);
      assert buf[..35] == OpenHead(to, n);
      assert buf[36..36 + pathLen] == n.path;
      buf[35] := pathLen / 2;
      data := buf[..36 + pathLen];
      assert data == buf[..35] + [buf[35]] + buf[36..36 + pathLen];
    }

    /** The identity fields alone, for naming the connection. */
    ghost function View0(): Conn
      reads this
    {
      NewConn(originator).(serial := serial, name := name, slot := slot)
    }

    /** Connection serial, vendor and originator serial. */
    method PutName(buf: array<byte>, off: nat)
      requires off + 8 <= buf.Length
      modifies buf
      ensures buf[..off + 8] == old(buf[..off]) + (LE16(serial) + LE16(VENDOR) + LE32(originator))
      ensures forall k | off + 8 <= k < buf.Length :: buf[k] == old(buf[k])
    {
      hide LE16, LE32;
      PutU16(buf, off, serial);
      PutU16(buf, off + 2, VENDOR);
      PutU32(buf, off + 4, originator);
      assert buf[..off + 8] == old(buf[..off]) + LE16(serial) + LE16(VENDOR) + LE32(originator);
    }

    static method PutOpenParams(buf: array<byte>)
      requires buf.Length >= 35
      modifies buf
      ensures buf[..35] == old(buf[..18]) + OpenParams()
    {
      hide LE16, LE32;
      ghost var head := buf[..18];
      Put(buf, 18, [3, 0, 0, 0]);               // timeout multiplier, reserved
      PutU32(buf, 22, 10000);                   // O->T packet interval
      PutU16(buf, 26, CONN_PARAMS);
      assert buf[..28] == head + ([3, 0, 0, 0] + LE32(10000) + LE16(CONN_PARAMS));
      PutU32(buf, 28, 10000);                   // T->O packet interval
      PutU16(buf, 32, CONN_PARAMS);
      Put(buf, 34, [0xA3]);                     // transport class 3
    }

    method BuildCloseData() returns (data: seq<byte>)
      ensures Encodes(NameOf(View0())) && data == ForwardCloseData(NameOf(View0()))
    {
      hide LE16, LE32, ConnectionPath;
      ConnectionPathFits(slot, name);
      var buf := new byte[128];
      Put(buf, 0, [0x0A, 0x0E]);
      PutName(buf, 2);
      ghost var n := NameOf(View0());
      assert buf[..10] == CloseHead(n);
      var pathLen := BuildConnectionPath(buf, 12);
      assert buf[..10] == CloseHead(n);
      assert buf[12..12 + pathLen] == n.path;
      buf[10] := pathLen / 2;
      buf[11] := 0;
      data := buf[..12 + pathLen];
      assert data == buf[..10] + [buf[10], buf[11]] + buf[12..12 + pathLen];
    }

    method Open(conn: TcpConnection, session: u32, tagName: seq<byte>, timeout: u32, cpuSlot: u8,
                random: u32, serials: SerialCounter, now: nat) returns (st: Status)
      requires Valid()
      modifies this, fwd, fwd.io, fwd.io.tx, serials
      ensures Valid()
      ensures (View(), serials.last, st)
              == OpenConn(old(View()), conn.View(), session, tagName, timeout, cpuSlot, random, old(serials.last), now)
    {
      hide AskOpen, ExplicitMessage.Valid, ExplicitMessage.View, MsgOk, NextSerial;
      if |tagName| >= MAX_CONN_NAME {
        return InvalidArg;
      }
      if phase == Opening || phase == ConnPhase.Sending || phase == Closing {
        return Busy;
      }
      OpenKeeps(View(), conn.View(), session, tagName, timeout, cpuSlot, random, serials.last, now);
      serials.Advance();
      Choose(tagName, cpuSlot, random, serials.last);
      st := Ask(conn, session, timeout, now);
    }

    method Choose(tagName: TagName, cpuSlot: u8, random: u32, next: u16)
      requires Valid()
      modifies this`to, this`ot, this`name, this`slot, this`serial
      ensures Valid() && View() == Chosen(old(View()), tagName, cpuSlot, random, next)
    {
      hide ExplicitMessage.Valid, ExplicitMessage.View, ConnOk, FrameIo.View;
      ghost var k := View();
      ChosenOk(k, tagName, cpuSlot, random, next);
      to := if random == 0 then 1 else random;
      ot := 0;
      name := tagName;
      slot := cpuSlot;
      serial := next;
      assert View() == Chosen(k, tagName, cpuSlot, random, next);
    }

    /** Send the Forward Open request for the identity just chosen. */
    method Ask(conn: TcpConnection, session: u32, timeout: u32, now: nat) returns (st: Status)
      requires Valid() && !InFlight(fwd.View()) && !phase.Sending?
      modifies this`phase, fwd, fwd.io, fwd.io.tx
      ensures Apart() && fwd.Valid() && Encodes(NameOf(old(View())))
      ensures (View(), st) == AskOpen(old(View()), conn.View(), session, timeout, now)
      ensures answered ==> dataOff + dataLen <= io.rx.Length
    {
      hide SendMsg, ForwardOpenData, ConnectionPath, ExplicitMessage.Valid, ExplicitMessage.View, MsgOk;
      var data := BuildOpenData();
      assert NameOf(View0()) == NameOf(View());
      var cmPath: seq<byte> := [0x20, CONNECTION_MANAGER_CLASS, 0x24, 0x01];
      assert cmPath == ConnectionManagerPath();
      st := fwd.Send(conn, session, FORWARD_OPEN, cmPath, data, timeout, now);
      if st == Pending {
        phase := Opening;
      }
    }

    method Close(conn: TcpConnection, session: u32, timeout: u32, now: nat) returns (st: Status)
      requires Valid()
      modifies this, fwd, fwd.io, fwd.io.tx
      ensures Apart() && fwd.Valid()
      ensures (View(), st) == CloseConn(old(View()), conn.View(), session, timeout, now)
      ensures Valid()
    {
      hide SendMsg, ForwardCloseData, ConnectionPath, ExplicitMessage.Valid, ExplicitMessage.View, MsgOk;
      if phase != ConnPhase.Open {
        return NotReady;
      }
      ghost var k := View();
      CloseKeeps(k, conn.View(), session, timeout, now);
      var data := BuildCloseData();
      assert NameOf(View0()) == NameOf(k);
      var cmPath: seq<byte> := [0x20, CONNECTION_MANAGER_CLASS, 0x24, 0x01];
      assert cmPath == ConnectionManagerPath();
      st := fwd.Send(conn, session, FORWARD_CLOSE, cmPath, data, timeout, now);
      if st == Pending {
        phase := Closing;
      }
    }

    method Send(session: u32, service: u8, path: seq<byte>, data: seq<byte>, timeout: u32, now: nat)
      returns (st: Status)
      requires Valid()
      modifies this, io, io.tx
      ensures Valid()
      ensures (View(), st) == SendConn(old(View()), session, service, path, data, timeout, now)
    {
      hide HeaderOf, ConnectedFrame, ExplicitMessage.Valid, ExplicitMessage.View, ConnOk, CipRequest;
      if phase != ConnPhase.Open {
        return NotReady;
      }
      var cipLen := 2 + |path| + |data|;
      if cipLen > MAX_DATA || |path| % 2 != 0 {
        return InvalidArg;
      }
      ghost var k := View();
      SendKeeps(k, session, service, path, data, timeout, now);
      ghost var cip := CipRequest(service, path, data);
      LayOut(session, service, path, data);
      assert |cip| == cipLen by {
        CipRequestLength(service, path, data);
      }
      ConnectedFrameLength(session, context, ot, sequence, cip);
      assert View() == k.(wire := io.View());
      Launch(HEADER_SIZE + CONNECTED_OVERHEAD + cipLen, timeout, now);
      st := Pending;
    }

    /** Start sending the frame laid out in the transmit buffer. */
    method Launch(len: nat, timeout: u32, now: nat)
      requires Apart() && len <= io.tx.Length
      modifies this, io
      ensures Apart() && !answered
      ensures View() == Launched(old(View()), io.tx[..len], timeout, now)
    {
      hide ExplicitMessage.Valid, ExplicitMessage.View;
      io.Start(len);
      sentContext := context;
      sentSequence := sequence;
      context := Bump64(context);
      sequence := Bump16(sequence);
      deadline := Add32(Ticks(now), timeout);
      phase := ConnPhase.Sending;
      answered := false;
    }

    method LayOut(session: u32, service: u8, path: seq<byte>, data: seq<byte>)
      requires io.Valid() && io.tx.Length == HEADER_SIZE + MAX_CONNECTED_BODY
      requires |path| % 2 == 0 && 2 + |path| + |data| <= MAX_DATA
      modifies io.tx
      ensures io.tx[..HEADER_SIZE + CONNECTED_OVERHEAD + 2 + |path| + |data|]
              == ConnectedFrame(session, context, ot, sequence, CipRequest(service, path, data))
    {
      hide HeaderBytes, ItemListBytes, LE16, ConnectedHeads, BodyPreamble;
      ghost var cip := CipRequest(service, path, data);
      var cipLen := 2 + |path| + |data|;
      var h := ConnectedHeader(session, context, cipLen);
      EncodeHeader(io.tx, h);
      LayOutBody(cipLen);
      ghost var front := HeaderBytes(h) + (BodyPreamble(0) + ConnectedHeads(ot, cipLen, sequence));
      assert io.tx[..46] == front;
      Put(io.tx, 46, [service, |path| / 2]);
      Put(io.tx, 48, path);
      Put(io.tx, 48 + |path|, data);
      assert io.tx[..46 + cipLen] == front + cip;
      ConnectedItemBytes(ot, sequence, cip);
      assert front + cip == HeaderBytes(h) + BodyPreamble(0) + (ConnectedHeads(ot, cipLen, sequence) + cip);
    }

    method LayOutBody(cipLen: nat)
      requires io.tx.Length >= 46 && cipLen <= MAX_DATA
      modifies io.tx
      ensures io.tx[..46] == old(io.tx[..24]) + (BodyPreamble(0) + ConnectedHeads(ot, cipLen, sequence))
    {
      hide LE16, LE32;
      var tx := io.tx;
      ghost var head := tx[..24];
      PutU32(tx, 24, 0);                    // interface handle
      PutU16(tx, 28, 0);                    // timeout
      PutU16(tx, 30, 2);                    // item count
      assert tx[..32] == head + BodyPreamble(0);
      PutU16(tx, 32, CONNECTED_ADDRESS);
      PutU16(tx, 34, 4);
      PutU32(tx, 36, ot);
      ghost var address := tx[..40];
      assert address == head + BodyPreamble(0) + (LE16(CONNECTED_ADDRESS) + LE16(4) + LE32(ot));
      PutU16(tx, 40, CONNECTED_DATA);
      PutU16(tx, 42, 2 + cipLen);
      PutU16(tx, 44, sequence);
      assert tx[..46] == address + (LE16(CONNECTED_DATA) + LE16(2 + cipLen) + LE16(sequence));
    }

    method Poll(conn: TcpConnection, now: nat) returns (st: Status)
      requires Valid()
      modifies this, fwd, fwd.io, fwd.io.rx, io, io.rx, conn
      ensures Valid()
      ensures (View(), conn.View(), st) == PollConn(old(View()), old(conn.View()), now)
    {
      hide PollOpening, PollSending, PollClosing, ConnOk;
      PollConnKeeps(View(), conn.View(), now);
      match phase {
        case Opening => st := AwaitOpen(conn, now);
        case Sending => st := AwaitReply(conn, now);
        case Closing => st := AwaitClose(conn, now);
        case Open => return Ok;
        case Closed => return Status.Closed;
        case Failed => return Error;
        case Idle => return NotReady;
      }
    }

    /** pollOpening() */
    method AwaitOpen(conn: TcpConnection, now: nat) returns (st: Status)
      requires Valid() && phase.Opening?
      modifies this`phase, this`ot, fwd, fwd.io, fwd.io.rx, conn
      ensures Apart() && fwd.Valid()
      ensures (View(), conn.View(), st) == PollOpening(old(View()), old(conn.View()), now)
    {
      hide PollMsg, HeaderOf, GrantTaken, ExplicitMessage.Valid, ExplicitMessage.View, MsgOk;
      st := fwd.Poll(conn, now);
      if st == Pending {
        return;
      }
      if st != Ok {
        phase := ConnPhase.Failed;
        return;
      }
      assert fwd.View().phase.Done? by {
        PollKeeps(old(fwd.View()), old(conn.View()), now);
      }
      st := TakeGrant();
    }

    method TakeGrant() returns (st: Status)
      requires Apart() && fwd.Valid() && fwd.View().phase.Done? && phase.Opening?
      modifies this`phase, this`ot
      ensures (View(), st) == GrantTaken(old(View()))
    {
      hide Granted, ExplicitMessage.Valid, ExplicitMessage.View, FrameIo.View;
      ghost var k := View();
      var granted, id := ReadGrant();
      if !granted {
        phase := ConnPhase.Failed;
        return Error;
      }
      ot := id;                              // used in every SendUnitData
      phase := ConnPhase.Open;
      assert View() == k.(ot := id, phase := ConnPhase.Open);
      return Ok;
    }

    /** Check the Forward Open reply the message holds. */
    method ReadGrant() returns (granted: bool, id: u32)
      requires fwd.Valid() && fwd.View().phase.Done?
      ensures Granted(fwd.View().reply, to) == if granted then Some(id) else None
    {
      hide U32At;
      ghost var data := fwd.View().reply.value.data;
      id := 0;
      if fwd.resultCode != 0 || fwd.dataLen < 12 {
        return false, 0;
      }
      id := GetU32(fwd.io.rx, fwd.dataOff);
      var echo := GetU32(fwd.io.rx, fwd.dataOff + 4);
      LongOfSlice(fwd.io.rx[..], fwd.dataOff, fwd.dataLen, 0);
      LongOfSlice(fwd.io.rx[..], fwd.dataOff, fwd.dataLen, 4);
      assert fwd.io.rx[..][fwd.dataOff..fwd.dataOff + fwd.dataLen] == data;
      if id == 0 || echo == 0 {
        return false, 0;
      }
      if echo != to {
        return false, 0;                     // mismatched echo
      }
      granted := true;
    }

    /** pollClosing() */
    method AwaitClose(conn: TcpConnection, now: nat) returns (st: Status)
      requires Valid() && phase.Closing?
      modifies this`phase, fwd, fwd.io, fwd.io.rx, conn
      ensures Apart() && fwd.Valid()
      ensures (View(), conn.View(), st) == PollClosing(old(View()), old(conn.View()), now)
    {
      hide PollMsg, HeaderOf, ExplicitMessage.Valid, ExplicitMessage.View, MsgOk;
      st := fwd.Poll(conn, now);
      if st == Pending {
        return;
      }
      if st != Ok {
        phase := ConnPhase.Failed;
        return;
      }
      phase := ConnPhase.Closed;
    }

    /** pollSending() */
    method AwaitReply(conn: TcpConnection, now: nat) returns (st: Status)
      requires Valid() && phase.Sending?
      modifies this, io, io.rx, conn
      ensures Apart() && fwd.Valid() && (answered ==> dataOff + dataLen <= io.rx.Length)
      ensures (View(), conn.View(), st) == PollSending(old(View()), old(conn.View()), now)
    {
      hide Drain, Fill, ParseConnected, HeaderOf, ExplicitMessage.Valid, ExplicitMessage.View, MsgOk;
      if Expired(Ticks(now), deadline) {
        phase := ConnPhase.Failed;
        return Timeout;
      }
      ghost var k := View();
      DrainSends(k.wire, conn.View());
      st := io.WritePending(conn);
      if st != Ok {
        if st != Pending {
          phase := ConnPhase.Failed;
        }
        assert View() == k.(wire := io.View(), phase := phase);
        return;
      }
      assert View() == k.(wire := io.View());
      st := Receive(conn);
    }

    method Receive(conn: TcpConnection) returns (st: Status)
      requires Valid() && phase.Sending? && !answered
      modifies this, io, io.rx, conn
      ensures Apart() && fwd.Valid() && (answered ==> dataOff + dataLen <= io.rx.Length)
      ensures (View(), conn.View(), st) == ReceiveConn(old(View()), old(conn.View()))
    {
      hide Fill, Concluded, HeaderOf, ExplicitMessage.Valid, ExplicitMessage.View, MsgOk;
      ghost var k := View();
      FillStops(k.wire, conn.View(), MAX_CONNECTED_BODY);
      st := io.ReadResponse(conn, MAX_CONNECTED_BODY);
      ghost var w := io.View();
      if st == Pending {
        assert View() == k.(wire := w);
        return;
      }
      if st != Ok {
        phase := ConnPhase.Failed;
        assert View() == k.(wire := w, phase := ConnPhase.Failed);
        return;
      }
      assert View() == k.(wire := w);
      st := Conclude();
    }

    method Conclude() returns (st: Status)
      requires Apart() && io.rxLen >= HEADER_SIZE && phase.Sending? && !answered
      modifies this
      ensures Apart() && (answered ==> dataOff + dataLen <= io.rx.Length)
      ensures (View(), st) == Concluded(old(View()))
    {
      hide ParseConnected, HeaderOf, ExplicitMessage.View;
      st := ParseResponse();
      answered := st == Ok;
      phase := if st == Ok then ConnPhase.Open else ConnPhase.Failed;
    }

    /** parseConnectedResponse() */
    method ParseResponse() returns (st: Status)
      requires io.Valid() && io.rxLen >= HEADER_SIZE
      modifies this`replyService, this`resultCode, this`dataOff, this`dataLen
      ensures var reply := ParseConnected(io.rx[..io.rxLen], sentContext, to, sentSequence);
              && st == (if reply.Some? then Ok else Error)
              && (reply.Some? ==>
                    && dataOff + dataLen <= io.rx.Length
                    && reply.value == ConnReply(replyService, resultCode, io.rx[dataOff..dataOff + dataLen]))
    {
      hide HeaderOf, FindConnected, U16At, U32At, ConnectedReplyOf;
      ghost var s := io.rx[..io.rxLen];
      var h := DecodeHeader(io.rx);
      HeaderLocal(io.rx[..], s);
      if h.command != SEND_UNIT_DATA || h.status != 0 {
        return Error;
      }
      if h.context != sentContext {
        return Error;        // stale or mismatched response
      }
      if io.rxLen < HEADER_SIZE + 8 {
        return Error;
      }
      var found, id, off, len := FindConnectedItems(io.rx, io.rxLen);
      if !found {
        return Error;
      }
      ConnectedReplyInPlace(io.rx[..], io.rxLen, off, len, id, to, sentSequence);
      if len < 4 || id != to {
        return Error;        // not this connection
      }
      var seen := GetU16(io.rx, off);
      if seen != sentSequence {
        return Error;        // stale or replayed response
      }
      if len - 2 < 4 {
        return Error;
      }
      replyService := io.rx[off + 2];
      resultCode := io.rx[off + 4];
      dataOff := off + 6;
      dataLen := len - 6;
      return Ok;
    }
  }
}
