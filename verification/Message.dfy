/**
 One CIP request/reply exchange over unconnected messaging (SendRRData): building the
 request frame, direct or wrapped for a backplane route, sending it, receiving the reply
 frame and finding the reply in it.

 The functions on `Msg` say what each call does to the exchange; the class
 `ExplicitMessage` does it in place and is proved to agree.
 */
module Message {
  import opened Bytes
  import opened Status
  import opened Encapsulation
  import opened Stream
  import opened Framing
  import opened Cip
  import opened Cpf

  const MAX_CIP: nat := 512
  const ROUTED_OVERHEAD: nat := 15
  const MAX_BODY: nat := 16 + MAX_CIP + ROUTED_OVERHEAD

  datatype Phase = Idle | Sending | Receiving | Done | Failed

  /** The reply as the accessors expose it. */
  datatype Reply = Reply(service: u8, code: u8, added: seq<byte>, data: seq<byte>)

  datatype Msg = Msg(
    phase: Phase,
    deadline: u32,
    context: u64,           // for the next request
    sentContext: u64,       // of the latest request
    wire: Wire,
    reply: Option<Reply>)   // present exactly in phase Done

  const NewMsg: Msg := Msg(Idle, 0, 1, 0, Wire([], 0, [], 0), None)

  predicate InFlight(m: Msg) {
    m.phase.Sending? || m.phase.Receiving?
  }

  predicate MsgOk(m: Msg) {
    && WireOk(m.wire)
    && (InFlight(m) ==> ReceiveOk(m.wire, MAX_BODY))
    && (m.reply.Some? <==> m.phase.Done?)
  }

  // ---------------------------------------------------------------------------------------
  // Requests

  function CipRequest(service: u8, path: seq<byte>, data: seq<byte>): (r: seq<byte>)
    requires |path| < 0x200
  {
    [service, |path| / 2] + path + data
  }

  function RequestItems(cip: seq<byte>): seq<Item> {
    [Item(NULL_ADDRESS, []), Item(UNCONNECTED_DATA, cip)]
  }

  /** Interface handle, timeout and item count, in front of the items. */
  function BodyPreamble(timeout: u16): seq<byte> {
    LE32(0) + LE16(timeout) + LE16(2)
  }

  function RequestHeader(session: u32, context: u64, cipLen: nat): Header
    requires cipLen <= MAX_CIP + ROUTED_OVERHEAD
  {
    Header(SEND_RR_DATA, 16 + cipLen, session, 0, context, 0)
  }

  function RequestFrame(session: u32, context: u64, cip: seq<byte>): (f: seq<byte>)
    requires |cip| <= MAX_CIP + ROUTED_OVERHEAD
  {
    HeaderBytes(RequestHeader(session, context, |cip|)) + BodyPreamble(10) + ItemListBytes(RequestItems(cip))
  }

  /** A null address item and the head of the data item. */
  function ItemHeads(cipLen: u16): seq<byte> {
    LE16(NULL_ADDRESS) + LE16(0) + LE16(UNCONNECTED_DATA) + LE16(cipLen)
  }

  /** The two items of a request, written out. */
  lemma RequestItemBytes(cip: seq<byte>)
    requires |cip| < 0x1_0000
    ensures ItemListBytes(RequestItems(cip)) == ItemHeads(|cip|) + cip
  {
    var items := RequestItems(cip);
    assert items[1..] == [items[1]] && items[1..][1..] == [];
    assert ItemListBytes(items[1..]) == ItemBytes(items[1]) + [];
    assert ItemListBytes(items) == ItemBytes(items[0]) + ItemListBytes(items[1..]);
  }

  /** The embedded request inside an Unconnected Send, its pad and the route. */
  function RouteWrapper(slot: u8, embedded: seq<byte>): seq<byte>
    requires |embedded| < 0x1_0000
  {
    [0x0A, 0x05] + LE16(|embedded|) + embedded + (if |embedded| % 2 == 1 then [0] else []) + BackplaneRoute(slot)
  }

  function RoutedCip(slot: u8, embedded: seq<byte>): seq<byte>
    requires |embedded| < 0x1_0000
  {
    CipRequest(UNCONNECTED_SEND, ConnectionManagerPath(), RouteWrapper(slot, embedded))
  }

  /** The arguments send() takes past its state checks. */
  predicate Sendable(path: seq<byte>, data: seq<byte>) {
    2 + |path| + |data| <= MAX_CIP && |path| % 2 == 0
  }

  /** The path-size byte never truncates, and every accepted request, wrapped or not, fits the
      wrapper and frame buffers. */
  lemma RequestsFit(slot: u8, service: u8, path: seq<byte>, data: seq<byte>)
    requires Sendable(path, data)
    ensures |path| < 0x200 && |path| / 2 * 2 == |path|
    ensures var cip := CipRequest(service, path, data);
            && |cip| <= MAX_CIP && |RouteWrapper(slot, cip)| <= ROUTED_OVERHEAD + MAX_CIP
            && |RoutedCip(slot, cip)| <= MAX_CIP + ROUTED_OVERHEAD
            && |RequestFrame(0, 0, cip)| <= HEADER_SIZE + MAX_BODY
            && |RequestFrame(0, 0, RoutedCip(slot, cip))| <= HEADER_SIZE + MAX_BODY
  {
    var cip := CipRequest(service, path, data);
    RequestItemBytes(cip);
    RequestItemBytes(RoutedCip(slot, cip));
  }

  lemma RequestFrameLength(session: u32, context: u64, cip: seq<byte>)
    requires |cip| <= MAX_CIP + ROUTED_OVERHEAD
    ensures |RequestFrame(session, context, cip)| == HEADER_SIZE + 16 + |cip|
  {
    RequestItemBytes(cip);
  }

  function Bump64(v: u64): u64 {
    (v + 1) % TWO64
  }

  function StartSend(m: Msg, session: u32, cip: seq<byte>, timeout: u32, now: nat): Msg
    requires |cip| <= MAX_CIP + ROUTED_OVERHEAD
  {
    Msg(Sending, Add32(Ticks(now), timeout), Bump64(m.context), m.context,
        Queue(RequestFrame(session, m.context, cip)), None)
  }

  function SendMsg(m: Msg, c: Tcp, session: u32, service: u8, path: seq<byte>, data: seq<byte>,
                   timeout: u32, now: nat): (r: (Msg, Status))
  {
    if InFlight(m) then (m, Busy)
    else if !Connected(c) then (m, NotReady)
    else if !Sendable(path, data) then (m, InvalidArg)
    else (StartSend(m, session, CipRequest(service, path, data), timeout, now), Pending)
  }

  function SendRouted(m: Msg, c: Tcp, session: u32, slot: u8, service: u8, path: seq<byte>, data: seq<byte>,
                      timeout: u32, now: nat): (r: (Msg, Status))
  {
    if InFlight(m) then (m, Busy)
    else if !Connected(c) then (m, NotReady)
    else if slot > 16 then (m, InvalidArg)
    else if !Sendable(path, data) then (m, InvalidArg)
    else (StartSend(m, session, RoutedCip(slot, CipRequest(service, path, data)), timeout, now), Pending)
  }

  function AbortMsg(m: Msg): Msg {
    m.(phase := Idle, reply := None)
  }

  // ---------------------------------------------------------------------------------------
  // Replies

  /** The additional status count is in 16-bit words. */
  function DeclaredStatus(cip: seq<byte>): nat
    requires |cip| >= 4
  {
    var words: int := cip[3];
    2 * words
  }

  /** Additional status bytes: the declared words, cut to what the item holds. */
  function AddedBytes(cip: seq<byte>): nat
    requires |cip| >= 4
  {
    Min(DeclaredStatus(cip), |cip| - 4)
  }

  function ReplyOf(cip: seq<byte>): Reply
    requires |cip| >= 4
  {
    var added := AddedBytes(cip);
    Reply(cip[0], cip[2], cip[4..4 + added / 2 * 2], cip[4 + added..])
  }

  /** Header, additional status and data make up the whole item, even when the declared
      status count is clamped; a clamp leaves no data and loses at most one odd byte. */
  lemma ReplyAccountsForItem(cip: seq<byte>)
    requires |cip| >= 4
    ensures var r := ReplyOf(cip);
            && 4 + AddedBytes(cip) + |r.data| == |cip|
            && (DeclaredStatus(cip) <= |cip| - 4 ==> cip == cip[..4] + r.added + r.data && |r.added| == DeclaredStatus(cip))
            && (DeclaredStatus(cip) > |cip| - 4 ==> r.data == [] && |cip| - 4 - |r.added| <= 1)
  {
    if DeclaredStatus(cip) <= |cip| - 4 {
      assert cip == cip[..4] + cip[4..4 + DeclaredStatus(cip)] + cip[4 + DeclaredStatus(cip)..];
    }
  }

  /** parseResponse(): the reply in a received frame, or None when the frame is not a good
      answer to the request with this context. */
  function ParseReply(rx: seq<byte>, sentContext: u64): Option<Reply> {
    if |rx| < HEADER_SIZE + 8 then None
    else
      var h := HeaderOf(rx);
      if h.command != SEND_RR_DATA || h.status != 0 || h.context != sentContext then None
      else
        match FindUnconnected(rx[HEADER_SIZE + 8..], U16At(rx, HEADER_SIZE + 6), None)
        case None => None
        case Some(None) => None
        case Some(Some(cip)) => if |cip| < 4 then None else Some(ReplyOf(cip))
  }

  /** The receiving half of a poll, once the request is out. */
  function ReceiveMsg(m: Msg, c: Tcp): (r: (Msg, Tcp, Status)) {
    var (w, c', st) := Fill(m.wire, c, MAX_BODY);
    if st == Pending then (m.(wire := w, phase := Receiving), c', Pending)
    else if st != Ok then (m.(wire := w, phase := Failed), c', st)
    else
      match ParseReply(w.rx, m.sentContext)
      case Some(reply) => (m.(wire := w, phase := Done, reply := Some(reply)), c', Ok)
      case None => (m.(wire := w, phase := Failed), c', Error)
  }

  function PollMsg(m: Msg, c: Tcp, now: nat): (r: (Msg, Tcp, Status)) {
    match m.phase
    case Idle => (m, c, NotReady)
    case Done => (m, c, Ok)
    case Failed => (m, c, Error)
    case _ =>
      if Expired(Ticks(now), m.deadline) then (m.(phase := Failed), c, Timeout)
      else
        var (w, c1, st) := Drain(m.wire, c);
        if st != Ok then (m.(wire := w, phase := if st == Pending then m.phase else Failed), c1, st)
        else ReceiveMsg(m.(wire := w), c1)
  }

  /** What a poll keeps, whatever the line does: the counters stay within the buffers, the
      request and its context never change, and bytes are conserved both ways. */
  lemma PollKeeps(m: Msg, c: Tcp, now: nat)
    requires MsgOk(m)
    ensures var (m', c', st) := PollMsg(m, c, now);
            && MsgOk(m')
            && m'.context == m.context && m'.sentContext == m.sentContext && m'.deadline == m.deadline
            && m'.wire.tx == m.wire.tx && m.wire.sent <= m'.wire.sent
            && c'.epoch == c.epoch
            && c'.sent == c.sent + m.wire.tx[m.wire.sent..m'.wire.sent]
            && m'.wire.rx + c'.inbox == m.wire.rx + c.inbox
            && c'.got + c'.inbox == c.got + c.inbox
            && |m'.wire.rx| + |c.got| == |c'.got| + |m.wire.rx|
            && (InFlight(m) && st == Pending <==> InFlight(m'))
            && (st == Ok <==> m'.phase.Done?)
            && (m.phase.Receiving? && m.wire.sent == |m.wire.tx| ==> m'.wire.sent == |m.wire.tx|)
  {
    hide Drain, Fill, ParseReply, HeaderOf;
    if InFlight(m) && !Expired(Ticks(now), m.deadline) {
      DrainSends(m.wire, c);
      var (w, c1, st) := Drain(m.wire, c);
      if st == Ok {
        FillConserves(w, c1, MAX_BODY);
        FillStops(w, c1, MAX_BODY);
      }
    } else {
      assert m.wire.tx[m.wire.sent..m.wire.sent] == [];
    }
  }

  /** Ok is only ever the result of one whole frame, taken from the front of the stream, that
      answers the latest request; what is reported is the last unconnected-data item in it. */
  lemma OkMeansAnswered(m: Msg, c: Tcp, now: nat)
    requires MsgOk(m) && InFlight(m)
    ensures var (m', c', st) := PollMsg(m, c, now);
            var frame := m'.wire.rx;
            st == Ok ==>
            && FrameAt(m.wire.rx + c.inbox, MAX_BODY) == Whole(frame, c'.inbox)
            && m'.wire.sent == |m.wire.tx|
            && |frame| >= HEADER_SIZE + 8
            && HeaderOf(frame).command == SEND_RR_DATA && HeaderOf(frame).status == 0
            && HeaderOf(frame).context == m.sentContext
            && ItemsOf(frame[HEADER_SIZE + 8..], U16At(frame, HEADER_SIZE + 6)).Some?
            && var items := ItemsOf(frame[HEADER_SIZE + 8..], U16At(frame, HEADER_SIZE + 6)).value;
               && LastOf(items, UNCONNECTED_DATA).Some?
               && var cip := LastOf(items, UNCONNECTED_DATA).value;
                  |cip| >= 4 && m'.reply == Some(ReplyOf(cip))
  {
    hide Drain, Fill, HeaderOf;
    DrainSends(m.wire, c);
    var (w, c1, _) := Drain(m.wire, c);
    if PollMsg(m, c, now).2 == Ok {
      FillConserves(w, c1, MAX_BODY);
      FillIsFragmentationFree(w, c1, MAX_BODY);
      var frame := PollMsg(m, c, now).0.wire.rx;
      FindUnconnectedIsLast(frame[HEADER_SIZE + 8..], U16At(frame, HEADER_SIZE + 6), None);
    }
  }

  lemma InFlightOk(m: Msg)
    requires MsgOk(m) && InFlight(m)
    ensures WireOk(m.wire) && ReceiveOk(m.wire, MAX_BODY)
  {
  }

  lemma DrainedOk(m: Msg, w: Wire)
    requires MsgOk(m) && InFlight(m) && w == m.wire.(sent := w.sent) && w.sent <= |w.tx|
    ensures MsgOk(m.(wire := w))
  {
  }

  lemma WalkEnds(b: seq<byte>, found: Option<seq<byte>>)
    ensures FindUnconnected(b, 0, found) == Some(found)
  {
  }

  /** The first item of a list, seen from position p of the frame. */
  lemma FirstItemAt(s: seq<byte>, p: nat)
    requires p <= |s|
    ensures FirstItem(s[p..]) ==
            if |s| - p < 4 then None
            else
              var len: nat := U16At(s, p + 2);
              if len > |s| - p - 4 then None
              else Some((Item(U16At(s, p), s[p + 4..p + 4 + len]), s[p + 4 + len..]))
  {
    if |s| - p >= 4 {
      var t := s[p..];
      assert U16At(t, 0) == U16At(s, p) && U16At(t, 2) == U16At(s, p + 2);
      var len: nat := U16At(s, p + 2);
      if len <= |s| - p - 4 {
        assert t[4..4 + len] == s[p + 4..p + 4 + len];
        assert t[4 + len..] == s[p + 4 + len..];
      }
    }
  }

  /** One step of the item walk, seen from position p of the frame. */
  lemma WalkStep(s: seq<byte>, p: nat, count: nat, found: Option<seq<byte>>)
    requires p <= |s| && count > 0
    ensures FindUnconnected(s[p..], count, found) ==
            if |s| - p < 4 then None
            else
              var len: nat := U16At(s, p + 2);
              if len > |s| - p - 4 then None
              else FindUnconnected(s[p + 4 + len..], count - 1,
                                   if U16At(s, p) == UNCONNECTED_DATA then Some(s[p + 4..p + 4 + len]) else found)
  {
    hide U16At, FirstItem;
    FirstItemAt(s, p);
  }

  /** The reply inside the item at [off, off + len) of a receive buffer holding n bytes. */
  lemma ReplyInPlace(rx: seq<byte>, n: nat, off: nat, len: nat)
    requires off + len <= n <= |rx| && len >= 4
    ensures var declared: int := rx[off + 3];
            var added := Min(2 * declared, len - 4);
            ReplyOf(rx[..n][off..off + len])
            == Reply(rx[off], rx[off + 2], rx[off + 4..off + 4 + added / 2 * 2], rx[off + 4 + added..off + len])
  {
    var cip := rx[..n][off..off + len];
    assert cip == rx[off..off + len];
    var added := AddedBytes(cip);
    SubSlice(rx, off, len, 4, 4 + added / 2 * 2);
    SubSlice(rx, off, len, 4 + added, len);
  }

  // ---------------------------------------------------------------------------------------
  // The exchange, updated in place

  class ExplicitMessage {
    const io: FrameIo
    var phase: Phase
    var deadline: u32
    var context: u64
    var sentContext: u64
    var replyService: u8
    var resultCode: u8
    var addStatusWords: nat
    var addOff: nat             // where the additional status starts in the receive buffer
    var dataOff: nat            // where the reply data starts in the receive buffer
    var dataLen: nat

    ghost predicate Valid()
      reads this, io, io.tx, io.rx
    {
      && io.Valid() && io.tx.Length == io.rx.Length == HEADER_SIZE + MAX_BODY
      && (phase.Done? ==> addOff + 2 * addStatusWords <= io.rx.Length && dataOff + dataLen <= io.rx.Length)
      && MsgOk(View())
    }

    ghost function View(): Msg
      requires io.Valid()
      reads this, io, io.tx, io.rx
    {
      Msg(phase, deadline, context, sentContext, io.View(),
          if phase.Done? && addOff + 2 * addStatusWords <= io.rx.Length && dataOff + dataLen <= io.rx.Length
          then Some(Reply(replyService, resultCode, io.rx[addOff..addOff + 2 * addStatusWords],
                          io.rx[dataOff..dataOff + dataLen]))
          else None)
    }

    constructor ()
      ensures Valid() && View() == NewMsg
      ensures fresh(io) && fresh(io.tx) && fresh(io.rx)
    {
      io := new FrameIo(MAX_BODY);
      phase, deadline, context, sentContext := Idle, 0, 1, 0;
      replyService, resultCode, addStatusWords, addOff, dataOff, dataLen := 0, 0, 0, 0, 0, 0;
    }

    method Abort()
      requires Valid()
      modifies this
      ensures Valid() && View() == AbortMsg(old(View()))
    {
      phase := Idle;
    }

    method Send(conn: TcpConnection, session: u32, service: u8, path: seq<byte>, data: seq<byte>,
                timeout: u32, now: nat) returns (st: Status)
      requires Valid()
      modifies this, io, io.tx
      ensures Valid()
      ensures (View(), st) == SendMsg(old(View()), conn.View(), session, service, path, data, timeout, now)
    {
      if phase == Sending || phase == Receiving {
        return Busy;
      }
      if conn.link != Up {
        return NotReady;
      }
      var cipLen := 2 + |path| + |data|;
      if cipLen > MAX_CIP || |path| % 2 != 0 {
        return InvalidArg;
      }
      st := Start(session, service, path, data, timeout, now);
    }

    method SendRoutedTo(conn: TcpConnection, session: u32, slot: u8, service: u8, path: seq<byte>, data: seq<byte>,
                        timeout: u32, now: nat) returns (st: Status)
      requires Valid()
      modifies this, io, io.tx
      ensures Valid()
      ensures (View(), st) == SendRouted(old(View()), conn.View(), session, slot, service, path, data, timeout, now)
    {
      if phase == Sending || phase == Receiving {
        return Busy;
      }
      if conn.link != Up {
        return NotReady;
      }
      if slot > 16 {
        return InvalidArg;
      }
      var embeddedLen := 2 + |path| + |data|;
      if embeddedLen > MAX_CIP || |path| % 2 != 0 {
        return InvalidArg;
      }
      var wrapper := BuildWrapper(slot, service, path, data);
      RequestsFit(slot, service, path, data);
      var cmPath: seq<byte> := [0x20, CONNECTION_MANAGER_CLASS, 0x24, 0x01];
      assert cmPath == ConnectionManagerPath();
      st := Start(session, UNCONNECTED_SEND, cmPath, wrapper, timeout, now);
    }

    /** The Unconnected Send wrapper, built in a local buffer. */
    static method BuildWrapper(slot: u8, service: u8, path: seq<byte>, data: seq<byte>) returns (wrapper: seq<byte>)
      requires Sendable(path, data)
      ensures wrapper == RouteWrapper(slot, CipRequest(service, path, data))
    {
      var buf := new byte[ROUTED_OVERHEAD + MAX_CIP];
      ghost var cip := CipRequest(service, path, data);
      var w := 4;
      Put(buf, 0, [0x0A, 0x05]);
      PutU16(buf, 2, 2 + |path| + |data|);
      assert buf[..4] == [0x0A, 0x05] + LE16(|cip|);
      Put(buf, w, [service, |path| / 2]);
      w := w + 2;
      Put(buf, w, path);
      w := w + |path|;
      Put(buf, w, data);
      w := w + |data|;
      assert buf[..w] == [0x0A, 0x05] + LE16(|cip|) + cip;
      if (2 + |path| + |data|) % 2 == 1 {      // pad to a whole word
        Put(buf, w, [0]);
        w := w + 1;
      }
      Put(buf, w, BackplaneRoute(slot));
      w := w + 4;
      wrapper := buf[..w];
    }

    /** startSend(): lay the frame out in the transmit buffer and start the exchange. */
    method Start(session: u32, service: u8, path: seq<byte>, data: seq<byte>, timeout: u32, now: nat)
      returns (st: Status)
      requires Valid() && |path| % 2 == 0 && |path| < 0x200
      requires 2 + |path| + |data| <= MAX_CIP + ROUTED_OVERHEAD
      modifies this, io, io.tx
      ensures Valid()
      ensures st == Pending
      ensures View() == StartSend(old(View()), session, CipRequest(service, path, data), timeout, now)
    {
      ghost var cip := CipRequest(service, path, data);
      var cipLen := 2 + |path| + |data|;
      LayOut(session, service, path, data);
      RequestFrameLength(session, context, cip);
      io.Start(HEADER_SIZE + 16 + cipLen);
      sentContext := context;
      context := Bump64(context);
      deadline := Add32(Ticks(now), timeout);
      phase := Sending;
      st := Pending;
    }

    method LayOut(session: u32, service: u8, path: seq<byte>, data: seq<byte>)
      requires io.Valid() && io.tx.Length == HEADER_SIZE + MAX_BODY
      requires |path| % 2 == 0 && |path| < 0x200
      requires 2 + |path| + |data| <= MAX_CIP + ROUTED_OVERHEAD
      modifies io.tx
      ensures io.tx[..HEADER_SIZE + 16 + 2 + |path| + |data|]
              == RequestFrame(session, context, CipRequest(service, path, data))
    {
      hide HeaderBytes, ItemListBytes, LE16;
      ghost var cip := CipRequest(service, path, data);
      var cipLen := 2 + |path| + |data|;
      var h := RequestHeader(session, context, cipLen);
      EncodeHeader(io.tx, h);
      LayOutBody(cipLen);
      ghost var front := HeaderBytes(h) + (BodyPreamble(10) + ItemHeads(cipLen));
      assert io.tx[..40] == front;
      Put(io.tx, 40, [service, |path| / 2]);
      Put(io.tx, 42, path);
      Put(io.tx, 42 + |path|, data);
      assert io.tx[..40 + cipLen] == front + cip;
      RequestItemBytes(cip);
      assert front + cip == HeaderBytes(h) + BodyPreamble(10) + (ItemHeads(cipLen) + cip);
    }

    method LayOutBody(cipLen: u16)
      requires io.tx.Length >= 40
      modifies io.tx
      ensures io.tx[..40] == old(io.tx[..24]) + (BodyPreamble(10) + ItemHeads(cipLen))
    {
      hide LE16, LE32;
      var tx := io.tx;
      ghost var head := tx[..24];
      PutU32(tx, 24, 0);                    // interface handle
      PutU16(tx, 28, 10);                   // timeout
      PutU16(tx, 30, 2);                    // item count
      assert tx[..32] == head + BodyPreamble(10);
      PutU16(tx, 32, NULL_ADDRESS);
      PutU16(tx, 34, 0);
      PutU16(tx, 36, UNCONNECTED_DATA);
      PutU16(tx, 38, cipLen);
      assert tx[..40] == head + BodyPreamble(10) + ItemHeads(cipLen);
    }

    method Poll(conn: TcpConnection, now: nat) returns (st: Status)
      requires Valid()
      modifies this, io, io.rx, conn
      ensures Valid()
      ensures (View(), conn.View(), st) == PollMsg(old(View()), old(conn.View()), now)
    {
      match phase {
        case Idle => return NotReady;
        case Done => return Ok;
        case Failed => return Error;
        case _ =>
      }
      if Expired(Ticks(now), deadline) {
        phase := Failed;
        return Timeout;
      }
      st := Advance(conn, now);
    }

    /** The body of poll() for an exchange in flight and in time. */
    method Advance(conn: TcpConnection, ghost now: nat) returns (st: Status)
      requires Valid() && InFlight(View()) && !Expired(Ticks(now), deadline)
      modifies this, io, io.rx, conn
      ensures Valid()
      ensures (View(), conn.View(), st) == PollMsg(old(View()), old(conn.View()), now)
    {
      hide Drain, Fill, ParseReply, HeaderOf, MsgOk;
      ghost var m, c := View(), conn.View();
      PollKeeps(m, c, now);
      assert WireOk(m.wire) && ReceiveOk(m.wire, MAX_BODY) by {
        InFlightOk(m);
      }
      DrainSends(m.wire, c);
      st := io.WritePending(conn);
      ghost var w1, c1 := io.View(), conn.View();
      if st != Ok {
        if st != Pending {
          phase := Failed;
        }
        assert View() == m.(wire := w1, phase := phase);
        return;
      }
      ghost var m1 := View();
      assert m1 == m.(wire := w1);
      DrainedOk(m, w1);
      st := ReceiveReply(conn);
    }

    method ReceiveReply(conn: TcpConnection) returns (st: Status)
      requires Valid() && InFlight(View())
      modifies this, io, io.rx, conn
      ensures io.Valid()
      ensures (View(), conn.View(), st) == ReceiveMsg(old(View()), old(conn.View()))
      ensures phase.Done? ==> addOff + 2 * addStatusWords <= io.rx.Length && dataOff + dataLen <= io.rx.Length
    {
      hide Fill, ParseReply, HeaderOf, MsgOk;
      ghost var m := View();
      InFlightOk(m);
      phase := Receiving;
      FillStops(m.wire, conn.View(), MAX_BODY);
      st := io.ReadResponse(conn, MAX_BODY);
      ghost var w := io.View();
      if st != Ok {
        if st != Pending {
          phase := Failed;
        }
        assert View() == m.(wire := w, phase := phase);
        return;
      }
      st := ParseResponse();
      assert io.View() == w;
      phase := if st == Ok then Done else Failed;
      assert View().reply == ParseReply(w.rx, m.sentContext);
    }

    /** parseResponse(): walk the items once, remembering where the last wanted one lies. */
    method ParseResponse() returns (st: Status)
      requires io.Valid() && io.rxLen >= HEADER_SIZE
      modifies this`replyService, this`resultCode, this`addStatusWords, this`addOff, this`dataOff, this`dataLen
      ensures var reply := ParseReply(io.rx[..io.rxLen], sentContext);
              && st == (if reply.Some? then Ok else Error)
              && (reply.Some? ==>
                    && addOff + 2 * addStatusWords <= io.rx.Length && dataOff + dataLen <= io.rx.Length
                    && reply.value == Reply(replyService, resultCode, io.rx[addOff..addOff + 2 * addStatusWords],
                                            io.rx[dataOff..dataOff + dataLen]))
    {
      hide HeaderOf, FindUnconnected, U16At, ReplyOf;
      ghost var s := io.rx[..io.rxLen];
      var h := DecodeHeader(io.rx);
      HeaderLocal(io.rx[..], s);
      if h.command != SEND_RR_DATA || h.status != 0 {
        return Error;
      }
      if h.context != sentContext {
        return Error;        // stale or mismatched response
      }
      if io.rxLen < HEADER_SIZE + 8 {
        return Error;
      }
      var found, off, len := FindItem(io.rx, io.rxLen);
      if !found || len < 4 {
        return Error;
      }
      replyService := io.rx[off];
      resultCode := io.rx[off + 2];
      addStatusWords, addOff, dataOff, dataLen := LocateReply(io.rx, io.rxLen, off, len);
      return Ok;
    }
  }

  /** Where the additional status and the data lie in the reply item at [off, off + len). */
  method LocateReply(rx: array<byte>, n: nat, off: nat, len: nat)
    returns (words: nat, addOff: nat, dataOff: nat, dataLen: nat)
    requires off + len <= n <= rx.Length && len >= 4
    ensures addOff + 2 * words <= rx.Length && dataOff + dataLen <= rx.Length
    ensures ReplyOf(rx[..n][off..off + len])
            == Reply(rx[off], rx[off + 2], rx[addOff..addOff + 2 * words], rx[dataOff..dataOff + dataLen])
  {
    hide ReplyOf;
    ReplyInPlace(rx[..], n, off, len);
    assert rx[..][..n] == rx[..n];
    words := rx[off + 3];
    addOff := off + 4;
    var addBytes := words * 2;
    if addBytes > len - 4 {          // bounds-check a malformed count
      addBytes := len - 4;
      words := addBytes / 2;
    }
    dataOff := off + 4 + addBytes;
    dataLen := len - 4 - addBytes;
    assert 2 * words == addBytes / 2 * 2;
  }

  /** The item loop of parseResponse(): where the last unconnected-data item lies. */
  method FindItem(rx: array<byte>, rxLen: nat) returns (found: bool, off: nat, len: nat)
    requires HEADER_SIZE + 8 <= rxLen <= rx.Length
    ensures off + len <= rxLen
    ensures var s := rx[..rxLen];
            var walked := FindUnconnected(s[HEADER_SIZE + 8..], U16At(s, HEADER_SIZE + 6), None);
            if found then walked == Some(Some(s[off..off + len])) else walked == None || walked == Some(None)
  {
    hide FindUnconnected, FirstItem, U16At;
    ghost var s := rx[..rxLen];
    var itemCount := GetU16(rx, HEADER_SIZE + 6);
    WordOfPrefix(rx[..], rxLen, HEADER_SIZE + 6);
    var p: nat := HEADER_SIZE + 8;
    var remaining: nat := rxLen - p;
    ghost var cur: Option<seq<byte>> := None;
    found, off, len := false, 0, 0;
    var i := 0;
    while i < itemCount
      invariant 0 <= i <= itemCount && p + remaining == rxLen && off + len <= rxLen
      invariant cur == if found then Some(s[off..off + len]) else None
      invariant FindUnconnected(s[p..], itemCount - i, cur)
                == FindUnconnected(s[HEADER_SIZE + 8..], itemCount, None)
    {
      WalkStep(s, p, itemCount - i, cur);
      if remaining < 4 {
        return false, 0, 0;
      }
      var kind := GetU16(rx, p);
      var itemLen := GetU16(rx, p + 2);
      WordOfPrefix(rx[..], rxLen, p);
      WordOfPrefix(rx[..], rxLen, p + 2);
      p := p + 4;
      remaining := remaining - 4;
      if itemLen > remaining {
        return false, 0, 0;
      }
      if kind == UNCONNECTED_DATA {
        found, off, len := true, p, itemLen;
        cur := Some(s[p..p + itemLen]);
      }
      p := p + itemLen;
      remaining := remaining - itemLen;
      i := i + 1;
    }
    assert FindUnconnected(s[p..], 0, cur) == Some(cur) by {
      WalkEnds(s[p..], cur);
    }
  }
}
