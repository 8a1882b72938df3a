/**
 Connected messaging against the peer: the Forward Open handshake, and connected requests
 and replies carried over any fragmentation.
 */
module ChannelExchange {
  import opened Bytes
  import opened Status
  import opened Encapsulation
  import opened Stream
  import opened Framing
  import opened Courier
  import opened Cip
  import opened Cpf
  import opened Message
  import opened Server
  import opened Channel
  import Exchange

  /** The peer grants every Forward Open the client sends: it ties the T->O ID it was given to
      its own O->T ID, and the client accepts its answer with exactly that O->T ID. */
  lemma HandshakeAgrees(s: Server, session: u32, context: u64, to: u32, n: Name)
    requires Encodes(n) && to != 0
    ensures |CipRequest(FORWARD_OPEN, ConnectionManagerPath(), ForwardOpenData(to, n))| <= MAX_CIP
    ensures var frame := RequestFrame(session, context,
                                      CipRequest(FORWARD_OPEN, ConnectionManagerPath(), ForwardOpenData(to, n)));
            && |frame| >= HEADER_SIZE
            && var (s', response) := HandleFrame(s, frame);
               && s' == s.(links := s.links[session := Ids(SERVER_OT, to)])
               && response.Frame?
               && Granted(ParseReply(response.bytes, context), to) == Some(SERVER_OT)
  {
    hide HeaderOf, RequestFrame, ForwardOpenData, ReadOpen, ParseReply, RRResponse, CipRequest, HandleFrame, HandleCip, Granted, ReplyOf;
    var data := ForwardOpenData(to, n);
    OpenReadsBack(to, n);
    OpenIdAt6(to, n);
    CipRequestLength(FORWARD_OPEN, ConnectionManagerPath(), data);
    Exchange.PeerServes(s, session, context, Exchange.Direct(FORWARD_OPEN, ConnectionManagerPath(), data));
    var answer := Status4(FORWARD_OPEN, 0) + LE32(SERVER_OT) + LE32(to) + LE16(1) + LE16(1);
    OpenIsAnswered(s, session, data, to);
    Exchange.ClientReadsReply(context, answer);
    OpenAnswerReads(to);
  }

  lemma OpenIsAnswered(s: Server, session: u32, data: seq<byte>, to: u32)
    requires |data| >= 10 && U32At(data, 6) == to
    ensures HandleCip(s, session, FORWARD_OPEN, ConnectionManagerPath(), data)
            == (s.(links := s.links[session := Ids(SERVER_OT, to)]),
                Answered(Status4(FORWARD_OPEN, 0) + LE32(SERVER_OT) + LE32(to) + LE16(1) + LE16(1)))
  {
    hide LE16, LE32, U32At;
  }

  lemma OpenIdAt6(to: u32, n: Name)
    requires Encodes(n)
    ensures |ForwardOpenData(to, n)| >= 36 && U32At(ForwardOpenData(to, n), 6) == to
  {
    hide U32At, U16At, ForwardOpenData;
    OpenReadsBack(to, n);
  }

  lemma OpenAnswerReads(to: u32)
    requires to != 0
    ensures var answer := Status4(FORWARD_OPEN, 0) + LE32(SERVER_OT) + LE32(to) + LE16(1) + LE16(1);
            Granted(Some(ReplyOf(answer)), to) == Some(SERVER_OT)
  {
    hide U32At, LE32;
    var head, tail := Status4(FORWARD_OPEN, 0), LE16(1) + LE16(1);
    var answer := head + LE32(SERVER_OT) + LE32(to) + LE16(1) + LE16(1);
    var data := answer[4..];
    assert data == [] + LE32(SERVER_OT) + (LE32(to) + tail);
    Read32([], SERVER_OT, LE32(to) + tail);
    assert data == LE32(SERVER_OT) + LE32(to) + tail;
    Read32(LE32(SERVER_OT), to, tail);
  }

  /** A two-item connected body lists its address and its data. */
  lemma ConnectedBodyLists(id: u32, sequence: u16, cip: seq<byte>)
    requires |cip| + 2 < 0x1_0000
    ensures var body := BodyPreamble(0) + ItemListBytes(ConnectedItems(id, sequence, cip));
            && |body| == 22 + |cip|
            && U16At(body, 6) == 2
            && ItemsOf(body[8..], 2) == Some(ConnectedItems(id, sequence, cip))
            && FindConnected(body[8..], 2, Pair(None, None)) == Some(Pair(Some(id), Some(LE16(sequence) + cip)))
  {
    var items := ConnectedItems(id, sequence, cip);
    var body := BodyPreamble(0) + ItemListBytes(items);
    ConnectedItemBytes(id, sequence, cip);
    assert body[6] == LE16(2)[0] && body[7] == LE16(2)[1];
    assert body[8..] == ItemListBytes(items) == ItemListBytes(items) + [];
    ItemListRoundTrip(items, []);
    FindConnectedIsLast(body[8..], 2, Pair(None, None));
    SelectedOfConnected(id, sequence, cip);
  }

  lemma SelectedOfConnected(id: u32, sequence: u16, cip: seq<byte>)
    requires |cip| + 2 < 0x1_0000
    ensures var items := ConnectedItems(id, sequence, cip);
            AddressesHoldIds(items) && Selected(items, Pair(None, None)) == Pair(Some(id), Some(LE16(sequence) + cip))
  {
    hide LE16, LE32, U32At;
    var items := ConnectedItems(id, sequence, cip);
    assert items[..1] == [items[0]];
    assert LastOf(items[..1], CONNECTED_ADDRESS) == Some(LE32(id));
    Read32([], id, []);
    assert [] + LE32(id) + [] == LE32(id);
  }

  /** Given two items, an address and data, the peer's own walk finds both. */
  lemma PeerWalksConnected(id: u32, sequence: u16, cip: seq<byte>)
    requires |cip| + 2 < 0x1_0000
    ensures UnitItemsOf(ItemListBytes(ConnectedItems(id, sequence, cip)), 2, UnitItems(None, None))
            == UnitFound(UnitItems(Some(id), Some(LE16(sequence) + cip)))
  {
    hide LE16, LE32, FirstItem, U32At;
    var items := ConnectedItems(id, sequence, cip);
    var address, data := items[0], items[1];
    var b := ItemListBytes(items);
    var rest := ItemListBytes(items[1..]);
    assert items[1..] == [data] && items[1..][1..] == [];
    assert b == ItemBytes(address) + rest;
    assert ItemListBytes(items[1..][1..]) == [];
    assert rest == ItemBytes(items[1..][0]) + ItemListBytes(items[1..][1..]);
    FirstOfList(address, rest);
    FirstOfList(data, []);
    assert b == (LE16(CONNECTED_ADDRESS) + LE16(4)) + LE32(id) + rest;
    Read32(LE16(CONNECTED_ADDRESS) + LE16(4), id, rest);
    assert UnitItemsOf([], 0, UnitItems(Some(id), Some(data.data))) == UnitFound(UnitItems(Some(id), Some(data.data)));
    assert UnitItemsOf(rest, 1, UnitItems(Some(id), None)) == UnitFound(UnitItems(Some(id), Some(data.data)));
  }

  /** A connected request frame is its header and what follows. */
  lemma ConnectedFrameSplits(session: u32, context: u64, id: u32, sequence: u16, cip: seq<byte>)
    requires |cip| <= MAX_DATA
    ensures ConnectedFrame(session, context, id, sequence, cip)
            == HeaderBytes(ConnectedHeader(session, context, |cip|)) + ConnectedTail(id, sequence, cip)
  {
    hide HeaderBytes, ItemListBytes;
  }

  function ConnectedTail(id: u32, sequence: u16, cip: seq<byte>): seq<byte>
    requires |cip| <= MAX_DATA
  {
    BodyPreamble(0) + ItemListBytes(ConnectedItems(id, sequence, cip))
  }

  /** What the peer reads out of a connected request frame. */
  lemma PeerReadsConnected(session: u32, context: u64, id: u32, sequence: u16, cip: seq<byte>)
    requires |cip| <= MAX_DATA
    ensures var frame := ConnectedFrame(session, context, id, sequence, cip);
            && |frame| == HEADER_SIZE + 22 + |cip|
            && var body := frame[HEADER_SIZE..];
               && U16At(body, 6) == 2
               && UnitItemsOf(body[8..], 2, UnitItems(None, None)) == UnitFound(UnitItems(Some(id), Some(LE16(sequence) + cip)))
  {
    hide HeaderOf, HeaderBytes, ItemListBytes, UnitItemsOf, ItemsOf, FindConnected, U16At;
    var tail := BodyPreamble(0) + ItemListBytes(ConnectedItems(id, sequence, cip));
    var frame := ConnectedFrame(session, context, id, sequence, cip);
    assert frame == HeaderBytes(ConnectedHeader(session, context, |cip|)) + tail;
    ConnectedBodyLists(id, sequence, cip);
    PeerWalksConnected(id, sequence, cip);
    assert frame[HEADER_SIZE..] == tail;
    assert tail[8..] == ItemListBytes(ConnectedItems(id, sequence, cip));
  }

  /** The client reads the peer's connected reply frame back into the reply it was made from. */
  lemma ClientReadsConnected(session: u32, context: u64, to: u32, sequence: u16, cip: seq<byte>)
    requires 4 <= |cip| < 0x1_0000 - 22
    ensures var r := Packet(SEND_UNIT_DATA, session, context, UnitReplyBody(to, sequence, cip));
            && r.Frame? && |r.bytes| == HEADER_SIZE + CONNECTED_OVERHEAD + |cip|
            && HeaderOf(r.bytes).length == CONNECTED_OVERHEAD + |cip|
            && ParseConnected(r.bytes, context, to, sequence) == Some(ConnReply(cip[0], cip[2], cip[4..]))
  {
    hide HeaderOf, HeaderBytes, ItemListBytes, ItemsOf, FindConnected, U16At, ConnectedReplyOf, LE16;
    var body := UnitReplyBody(to, sequence, cip);
    ConnectedBodyLists(to, sequence, cip);
    assert body == BodyPreamble(0) + ItemListBytes(ConnectedItems(to, sequence, cip));
    var h := Header(SEND_UNIT_DATA, |body|, session, 0, context, 0);
    var frame := HeaderBytes(h) + body;
    HeaderRoundTrip(h, body);
    assert frame[HEADER_SIZE + 8..] == body[8..];
    WordAfterHeader(HeaderBytes(h), body, 6);
    SequenceThenReply(to, sequence, cip);
  }

  lemma WordAfterHeader(head: seq<byte>, body: seq<byte>, off: nat)
    requires off + 2 <= |body|
    ensures U16At(head + body, |head| + off) == U16At(body, off)
  {
  }

  lemma SequenceThenReply(to: u32, sequence: u16, cip: seq<byte>)
    requires |cip| >= 4
    ensures ConnectedReplyOf(to, LE16(sequence) + cip, to, sequence) == Some(ConnReply(cip[0], cip[2], cip[4..]))
  {
    var data := LE16(sequence) + cip;
    assert data == [] + LE16(sequence) + cip;
    Read16([], sequence, cip);
    assert data[6..] == cip[4..];
  }

  /** On an agreed connection a connected request leads to exactly the peer's answer for the
      call in it, under the client's own context, T->O ID and sequence number. The answer fits
      the client's buffer exactly up to 508 bytes; one too long for a frame ends the peer. */
  lemma ConnectedCallIsAnswered(s: Server, session: u32, context: u64, ot: u32, to: u32, sequence: u16,
                                service: u8, path: seq<byte>, data: seq<byte>)
    requires session in s.links && s.links[session] == Ids(ot, to)
    requires |path| % 2 == 0 && 2 + |path| + |data| <= MAX_DATA
    ensures var frame := ConnectedFrame(session, context, ot, sequence, CipRequest(service, path, data));
            && |frame| >= HEADER_SIZE && FrameAt(frame, 0xFFFF) == Whole(frame, [])
            && var (s', answer) := HandleUnitCip(s, Call(service, path, data));
               var (s2, response) := HandleFrame(s, frame);
               && s2 == s' && |answer| >= 4
               && if |answer| < 0x1_0000 - 22 then
                    && response.Frame?
                    && FrameAt(response.bytes, MAX_CONNECTED_BODY)
                       == (if |answer| <= MAX_DATA then Whole(response.bytes, []) else TooLong)
                    && ParseConnected(response.bytes, context, to, sequence)
                       == Some(ConnReply(answer[0], answer[2], answer[4..]))
                  else response == Crash
  {
    hide HeaderOf, HeaderBytes, ConnectedTail, ConnectedFrame, HandleUnitCip, UnitItemsOf, U16At, CallOf, ParseConnected,
         UnitReplyBody, CipRequest;
    var cip := CipRequest(service, path, data);
    CipRequestLength(service, path, data);
    ConnectedFrameSplits(session, context, ot, sequence, cip);
    HeaderRoundTrip(ConnectedHeader(session, context, |cip|), ConnectedTail(ot, sequence, cip));
    PeerReadsConnected(session, context, ot, sequence, cip);
    var frame := ConnectedFrame(session, context, ot, sequence, cip);
    assert frame[..|frame|] == frame && frame[|frame|..] == [];
    Exchange.CallOfRequest(service, path, data);
    UnitAnswersAreReplies(s, Call(service, path, data));
    SequenceInFront(sequence, cip);
    var (s', answer) := HandleUnitCip(s, Call(service, path, data));
    if |answer| < 0x1_0000 - 22 {
      ClientReadsConnected(session, context, to, sequence, answer);
      var reply := Packet(SEND_UNIT_DATA, session, context, UnitReplyBody(to, sequence, answer)).bytes;
      assert reply[..|reply|] == reply && reply[|reply|..] == [];
    } else if |answer| < 0x1_0000 - 2 {
      ConnectedBodyLists(to, sequence, answer);
      BodyIsItems(to, sequence, answer);
    }
  }

  lemma BodyIsItems(to: u32, sequence: u16, cip: seq<byte>)
    requires |cip| + 2 < 0x1_0000
    ensures UnitReplyBody(to, sequence, cip) == BodyPreamble(0) + ItemListBytes(ConnectedItems(to, sequence, cip))
  {
  }

  lemma SequenceInFront(sequence: u16, cip: seq<byte>)
    ensures var data := LE16(sequence) + cip; U16At(data, 0) == sequence && data[2..] == cip
  {
    assert LE16(sequence) + cip == [] + LE16(sequence) + cip;
    Read16([], sequence, cip);
  }

  lemma UnitAnswersAreReplies(s: Server, call: Call)
    ensures |HandleUnitCip(s, call).1| >= 4
  {
  }

  /** The tag services mean the same over a connection and without one. */
  lemma ConnectedTagServicesAgree(s: Server, session: u32, call: Call)
    requires call.service == READ_TAG || call.service == WRITE_TAG
    ensures var (s', cip) := HandleUnitCip(s, call);
            HandleCip(s, session, call.service, call.path, call.rest) == (s', Answered(cip))
  {
    hide Find, Store, ParseSymbolicPath;
  }

  // ---------------------------------------------------------------------------------------
  // The exchange as one atomic call

  datatype World = World(k: Conn, c: Tcp, s: Server)

  function Play(w: World, t: Exchange.Turn): World {
    match t
    case ClientPoll(now, script) => var (k, c, _) := PollConn(w.k, w.c.(script := script), now); World(k, c, w.s)
    case PeerTurn => var (s, c) := Serve(w.s, w.c); World(w.k, c, s)
  }

  function PlayAll(w: World, ts: seq<Exchange.Turn>): World {
    if ts == [] then w else Play(PlayAll(w, ts[..|ts| - 1]), ts[|ts| - 1])
  }

  /** The fixed facts of a connected exchange: the connection as the send left it, and the visit. */
  datatype Setup = Setup(k: Conn, visit: Exchange.Visit)

  ghost predicate SetupOk(x: Setup) {
    Exchange.VisitOk(x.visit) && x.visit.errand.limit == MAX_CONNECTED_BODY && x.k.phase.Sending? && ConnOk(x.k)
  }

  predicate SameSend(x: Setup, k: Conn) {
    ConnOk(k) && k == x.k.(wire := k.wire, phase := k.phase, reply := k.reply)
  }

  predicate Talking(x: Setup, w: World, served: bool) {
    && SameSend(x, w.k) && w.k.phase.Sending?
    && w.s == Exchange.PeerAt(x.visit, served) && Underway(x.visit.errand, w.k.wire, w.c, served)
  }

  /** The connection has its outcome, and it is the outcome of the peer's one answer. */
  predicate Told(x: Setup, w: World) {
    && SameSend(x, w.k)
    && w.s == Exchange.PeerAt(x.visit, true) && Over(x.visit.errand, w.k.wire, w.c)
    && var reply := ParseConnected(w.k.wire.rx, x.k.sentContext, x.k.to, x.k.sentSequence);
       if Ending(x.visit.errand) == Ok && reply.Some? then w.k.phase.Open? && w.k.reply == reply else w.k.phase.Failed?
  }

  ghost predicate Stage(x: Setup, w: World) {
    Talking(x, w, false) || Talking(x, w, true) || Told(x, w)
  }

  /** A poll in time moves the wire as the courier does and judges what it brings. */
  lemma ConnPollIsPump(k: Conn, c: Tcp, now: nat)
    requires ConnOk(k) && k.phase.Sending? && !Expired(Ticks(now), k.deadline)
    ensures var (k', c', _) := PollConn(k, c, now);
            var (w, c1, st) := Pump(k.wire, c, MAX_CONNECTED_BODY);
            var reply := ParseConnected(w.rx, k.sentContext, k.to, k.sentSequence);
            && k' == k.(wire := w, phase := k'.phase, reply := k'.reply) && c' == c1
            && (st == Pending ==> k'.phase.Sending? && k'.reply == k.reply)
            && (st == Ok ==> if reply.Some? then k'.phase.Open? && k'.reply == reply else k'.phase.Failed?)
            && (st != Pending && st != Ok ==> k'.phase.Failed?)
  {
    hide Drain, Fill, ParseConnected;
  }

  lemma TalkingPoll(x: Setup, w: World, served: bool, now: nat, script: seq<Io>)
    requires SetupOk(x) && Talking(x, w, served) && !Expired(Ticks(now), x.k.deadline) && Calm(script)
    ensures var w' := Play(w, Exchange.ClientPoll(now, script));
            Talking(x, w', served) || (served && Told(x, w'))
  {
    hide PollConn, Pump, Over, Ending, Exchange.VisitOk, Exchange.PeerAt, ParseConnected, ReceiveOk, HeaderOf, FrameAt, MsgOk;
    var c := w.c.(script := script);
    assert Underway(x.visit.errand, w.k.wire, c, served);
    PollConnKeeps(w.k, c, now);
    ConnPollIsPump(w.k, c, now);
    PumpUnderway(x.visit.errand, w.k.wire, c, served);
    Exchange.EndingIsOkOrError(x.visit.errand, Pump(w.k.wire, c, MAX_CONNECTED_BODY).0, Pump(w.k.wire, c, MAX_CONNECTED_BODY).1);
  }

  lemma TalkingServed(x: Setup, w: World, served: bool)
    requires SetupOk(x) && Talking(x, w, served)
    ensures Talking(x, Play(w, Exchange.PeerTurn), served || w.k.wire.sent == |x.visit.errand.frame|)
  {
    hide Serve, Exchange.VisitOk, Underway, ConnOk;
    Exchange.ServeUnderway(x.visit, w.k.wire, w.c, served);
  }

  lemma ToldStays(x: Setup, w: World, t: Exchange.Turn)
    requires SetupOk(x) && Told(x, w)
    ensures Told(x, Play(w, t)) && Play(w, t).k == w.k && Play(w, t).s == w.s
  {
    hide HandleFrame, FrameAt, ConnOk, ParseConnected;
    if t.PeerTurn? {
      assert w.c.sent[w.s.read..] == [];
      NothingIsShort(0xFFFF);
    }
  }

  lemma {:induction false} EveryRunIsInAStage(x: Setup, w: World, ts: seq<Exchange.Turn>)
    requires SetupOk(x) && Talking(x, w, false) && Exchange.Timely(ts, x.k.deadline)
    ensures Stage(x, PlayAll(w, ts))
  {
    hide Play, Talking, Told, SetupOk;
    if ts != [] {
      var before, t := ts[..|ts| - 1], ts[|ts| - 1];
      assert Exchange.Timely(before, x.k.deadline) by {
        assert forall i | 0 <= i < |before| :: before[i] == ts[i];
      }
      EveryRunIsInAStage(x, w, before);
      var mid := PlayAll(w, before);
      if Told(x, mid) {
        ToldStays(x, mid, t);
      } else {
        var served := Talking(x, mid, true);
        match t
        case ClientPoll(now, script) => TalkingPoll(x, mid, served, now, script);
        case PeerTurn => TalkingServed(x, mid, served);
      }
    }
  }

  /** The situation right after an accepted send. */
  function SetupFor(k: Conn, c: Tcp, s: Server, session: u32, service: u8, path: seq<byte>, data: seq<byte>,
                    timeout: u32, now: nat): Setup
    requires |path| % 2 == 0 && 2 + |path| + |data| <= MAX_DATA
  {
    CipRequestLength(service, path, data);
    ConnectedFrameLength(session, k.context, k.ot, k.sequence, CipRequest(service, path, data));
    var frame := ConnectedFrame(session, k.context, k.ot, k.sequence, CipRequest(service, path, data));
    var (after, response) := HandleFrame(s, frame);
    Setup(SendConn(k, session, service, path, data, timeout, now).0,
          Exchange.Visit(Errand(frame, Exchange.BytesOf(response), c, MAX_CONNECTED_BODY), s, after, response))
  }

  lemma SetupForIsOk(k: Conn, c: Tcp, s: Server, session: u32, service: u8, path: seq<byte>, data: seq<byte>,
                     timeout: u32, now: nat)
    requires ConnOk(k) && k.phase.Open? && Exchange.Aligned(c, s)
    requires session in s.links && s.links[session] == Ids(k.ot, k.to)
    requires |path| % 2 == 0 && 2 + |path| + |data| <= MAX_DATA
    ensures SendConn(k, session, service, path, data, timeout, now).1 == Pending
    ensures var x := SetupFor(k, c, s, session, service, path, data, timeout, now);
            SetupOk(x) && Talking(x, World(x.k, c, s), false)
  {
    hide HandleFrame, HeaderOf, ConnectedFrame, HandleUnitCip, FrameAt, MsgOk;
    ConnectedCallIsAnswered(s, session, k.context, k.ot, k.to, k.sequence, service, path, data);
    SendKeeps(k, session, service, path, data, timeout, now);
    Exchange.VisitStarts(s, ConnectedFrame(session, k.context, k.ot, k.sequence, CipRequest(service, path, data)));
    QueuedUnderway(SetupFor(k, c, s, session, service, path, data, timeout, now).visit.errand);
  }

  /** Whatever the interleaving and the fragmentation, before the deadline on a calm line: the wire
      carries a part of the one request frame; the peer has served the call not at all or exactly
      once, and is down after it exactly if the answer is too long for a frame; the outcome is
      Open with exactly its answer if that fits the buffer, and Failed if it does not. */
  lemma ConnectedExchangeIsAtomic(k: Conn, c: Tcp, s: Server, session: u32, service: u8, path: seq<byte>, data: seq<byte>,
                                  timeout: u32, start: nat, ts: seq<Exchange.Turn>)
    requires ConnOk(k) && k.phase.Open? && Exchange.Aligned(c, s)
    requires session in s.links && s.links[session] == Ids(k.ot, k.to)
    requires |path| % 2 == 0 && 2 + |path| + |data| <= MAX_DATA
    requires Exchange.Timely(ts, SendConn(k, session, service, path, data, timeout, start).0.deadline)
    ensures var k1 := SendConn(k, session, service, path, data, timeout, start).0;
            var w := PlayAll(World(k1, c, s), ts);
            var frame := k1.wire.tx;
            var (s', answer) := HandleUnitCip(s, Call(service, path, data));
            && w.k.wire.sent <= |frame| && w.c.sent == c.sent + frame[..w.k.wire.sent]
            && (w.k.phase.Sending? || w.k.phase.Open? || w.k.phase.Failed?)
            && (w.s == s || w.s == s'.(read := |c.sent| + |frame|, down := |answer| >= 0x1_0000 - 22))
            && (!w.k.phase.Sending? ==> w.c.sent == c.sent + frame && w.s == s'.(read := |w.c.sent|))
            && (w.k.phase.Open? ==>
                  4 <= |answer| <= MAX_DATA && w.k.reply == Some(ConnReply(answer[0], answer[2], answer[4..]))
                  && Exchange.Aligned(w.c, w.s))
            && (w.k.phase.Failed? ==> |answer| > MAX_DATA)
  {
    hide HandleFrame, HeaderOf, ConnectedFrame, HandleUnitCip, FrameAt, ConnOk, Play, ParseConnected;
    ConnectedCallIsAnswered(s, session, k.context, k.ot, k.to, k.sequence, service, path, data);
    SetupForIsOk(k, c, s, session, service, path, data, timeout, start);
    var x := SetupFor(k, c, s, session, service, path, data, timeout, start);
    EveryRunIsInAStage(x, World(x.k, c, s), ts);
    UnitCipKeeps(s, Call(service, path, data));
    assert x.visit.errand.frame[..|x.visit.errand.frame|] == x.visit.errand.frame;
    NothingIsShort(MAX_CONNECTED_BODY);
  }

  lemma UnitCipKeeps(s: Server, call: Call)
    ensures HandleUnitCip(s, call).0.read == s.read && HandleUnitCip(s, call).0.down == s.down
  {
  }

  /** From every stage a poll that can write, a peer turn and a poll that can read tell the
      outcome. */
  lemma ConnectedCanFinish(x: Setup, w: World, now: nat, k: nat)
    requires SetupOk(x) && Stage(x, w) && !Expired(Ticks(now), x.k.deadline) && Ending(x.visit.errand) == Ok
    requires k >= HEADER_SIZE + MAX_CONNECTED_BODY && k >= |x.visit.errand.frame|
    ensures Told(x, Play(Play(Play(w, Exchange.ClientPoll(now, [Move(k)])), Exchange.PeerTurn),
                         Exchange.ClientPoll(now, [Move(k), Move(k)])))
  {
    hide Told, Pump, PollConn, Exchange.VisitOk, Exchange.PeerAt, ReceiveOk, FrameAt, ParseConnected, MsgOk;
    var t1, t3 := Exchange.ClientPoll(now, [Move(k)]), Exchange.ClientPoll(now, [Move(k), Move(k)]);
    var w1 := Play(w, t1);
    var w2 := Play(w1, Exchange.PeerTurn);
    if Told(x, w) {
      ToldStays(x, w, t1);
    } else {
      ConnectedSends(x, w, Talking(x, w, true), now, k);
    }
    if Told(x, w1) {
      ToldStays(x, w1, Exchange.PeerTurn);
      ToldStays(x, w2, t3);
    } else {
      ConnectedServes(x, w1, Talking(x, w1, true));
      var c := w2.c.(script := [Move(k), Move(k)]);
      TalkingPoll(x, w2, true, now, [Move(k), Move(k)]);
      PumpReceives(x.visit.errand, w2.k.wire, c, k);
      ConnPollIsPump(w2.k, c, now);
    }
  }

  lemma ConnectedSends(x: Setup, w: World, served: bool, now: nat, k: nat)
    requires SetupOk(x) && Talking(x, w, served) && !Expired(Ticks(now), x.k.deadline) && k >= |x.visit.errand.frame|
    ensures var w' := Play(w, Exchange.ClientPoll(now, [Move(k)]));
            Told(x, w') || (Talking(x, w', served) && w'.k.wire.sent == |x.visit.errand.frame|)
  {
    hide PollConn, Pump, Told, Exchange.VisitOk, Exchange.PeerAt, ReceiveOk, MsgOk;
    var c := w.c.(script := [Move(k)]);
    TalkingPoll(x, w, served, now, [Move(k)]);
    PumpSends(x.visit.errand, w.k.wire, c, served, k);
    ConnPollIsPump(w.k, c, now);
  }

  lemma ConnectedServes(x: Setup, w: World, served: bool)
    requires SetupOk(x) && Talking(x, w, served) && w.k.wire.sent == |x.visit.errand.frame|
    ensures Talking(x, Play(w, Exchange.PeerTurn), true)
  {
    hide Play, SetupOk, Talking;
    TalkingServed(x, w, served);
  }

  /** No connected exchange gets stuck: whatever has happened before, in time and on a calm line, a
      poll that can write, a peer turn and a poll that can read end it Open with exactly the peer's
      answer, if the answer fits 508 bytes. */
  lemma ConnectedExchangeFinishes(k: Conn, c: Tcp, s: Server, session: u32, service: u8, path: seq<byte>, data: seq<byte>,
                                  timeout: u32, start: nat, ts: seq<Exchange.Turn>, now: nat, room: nat)
    requires ConnOk(k) && k.phase.Open? && Exchange.Aligned(c, s)
    requires session in s.links && s.links[session] == Ids(k.ot, k.to)
    requires |path| % 2 == 0 && 2 + |path| + |data| <= MAX_DATA
    requires room >= HEADER_SIZE + MAX_CONNECTED_BODY
    ensures var k1 := SendConn(k, session, service, path, data, timeout, start).0;
            var w := PlayAll(World(k1, c, s), ts);
            var end := Play(Play(Play(w, Exchange.ClientPoll(now, [Move(room)])), Exchange.PeerTurn),
                            Exchange.ClientPoll(now, [Move(room), Move(room)]));
            var answer := HandleUnitCip(s, Call(service, path, data)).1;
            Exchange.Timely(ts, k1.deadline) && !Expired(Ticks(now), k1.deadline) && |answer| <= MAX_DATA ==>
              |answer| >= 4 && end.k.phase.Open? && end.k.reply == Some(ConnReply(answer[0], answer[2], answer[4..]))
  {
    hide HandleFrame, HeaderOf, ConnectedFrame, HandleUnitCip, FrameAt, ConnOk, Play, ParseConnected, Exchange.Timely,
         Exchange.Aligned, Exchange.VisitOk, Talking, Stage;
    ConnectedCallIsAnswered(s, session, k.context, k.ot, k.to, k.sequence, service, path, data);
    SetupForIsOk(k, c, s, session, service, path, data, timeout, start);
    CipRequestLength(service, path, data);
    ConnectedFrameLength(session, k.context, k.ot, k.sequence, CipRequest(service, path, data));
    var x := SetupFor(k, c, s, session, service, path, data, timeout, start);
    var answer := HandleUnitCip(s, Call(service, path, data)).1;
    if Exchange.Timely(ts, x.k.deadline) && !Expired(Ticks(now), x.k.deadline) && |answer| <= MAX_DATA {
      EveryRunIsInAStage(x, World(x.k, c, s), ts);
      ConnectedCanFinish(x, PlayAll(World(x.k, c, s), ts), now, room);
    }
  }
}
