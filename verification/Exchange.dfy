/**
 One exchange between the client's message object and the peer, over every interleaving of
 client polls and peer turns and every fragmentation of the two byte streams. The exchange
 as a whole is one atomic call on the peer.
 */
module Exchange {
  import opened Bytes
  import opened Status
  import opened Encapsulation
  import opened Stream
  import opened Framing
  import opened Courier
  import opened Cip
  import opened Cpf
  import opened Message
  import opened Server

  // ---------------------------------------------------------------------------------------
  // What the peer makes of a request frame

  /** The peer reads a request frame back into the CIP request that was put in it. */
  lemma PeerReadsRequest(session: u32, context: u64, cip: seq<byte>)
    requires 4 <= |cip| <= MAX_CIP + ROUTED_OVERHEAD
    ensures var frame := RequestFrame(session, context, cip);
            && |frame| == HEADER_SIZE + 16 + |cip|
            && HeaderOf(frame) == RequestHeader(session, context, |cip|)
            && RequestItem(frame[HEADER_SIZE..]) == Some(cip)
            && FrameAt(frame, 0xFFFF) == Whole(frame, [])
  {
    hide HeaderOf, HeaderBytes, ItemListBytes, ItemsOf;
    var h := RequestHeader(session, context, |cip|);
    var frame := RequestFrame(session, context, cip);
    var tail := BodyPreamble(10) + ItemListBytes(RequestItems(cip));
    assert frame == HeaderBytes(h) + tail;
    HeaderRoundTrip(h, tail);
    RequestFrameLength(session, context, cip);
    var body := frame[HEADER_SIZE..];
    assert body == tail;
    BodyListsItems(10, cip);
    assert frame[..|frame|] == frame && frame[|frame|..] == [];
  }

  /** A two-item body, in either direction, lists its one unconnected-data item. */
  lemma BodyListsItems(timeout: u16, cip: seq<byte>)
    requires |cip| < 0x1_0000
    ensures var body := BodyPreamble(timeout) + ItemListBytes(RequestItems(cip));
            && |body| >= 8
            && U16At(body, 6) == 2
            && ItemsOf(body[8..], 2) == Some(RequestItems(cip))
            && LastOf(RequestItems(cip), UNCONNECTED_DATA) == Some(cip)
            && FindUnconnected(body[8..], 2, None) == Some(Some(cip))
  {
    var items := RequestItems(cip);
    var body := BodyPreamble(timeout) + ItemListBytes(items);
    assert body[6] == LE16(2)[0] && body[7] == LE16(2)[1];
    assert body[8..] == ItemListBytes(items) == ItemListBytes(items) + [];
    ItemListRoundTrip(items, []);
    assert items[..1] == [items[0]];
    FindUnconnectedIsLast(body[8..], 2, None);
  }

  /** The peer's answer frame, read back by the client, is exactly the answer. */
  lemma ClientReadsReply(context: u64, cip: seq<byte>)
    requires 4 <= |cip| < 0x1_0000 - 16
    ensures var r := RRResponse(context, Answered(cip));
            && r.Frame? && |r.bytes| == HEADER_SIZE + 16 + |cip|
            && HeaderOf(r.bytes).length == 16 + |cip|
            && ParseReply(r.bytes, context) == Some(ReplyOf(cip))
  {
    hide HeaderOf, HeaderBytes, ItemListBytes, ItemsOf, FindUnconnected;
    var body := ReplyBody(cip);
    RequestItemBytes(cip);
    assert |body| == 16 + |cip|;
    var h := Header(SEND_RR_DATA, |body|, SESSION_HANDLE, 0, context, 0);
    var frame := HeaderBytes(h) + body;
    HeaderRoundTrip(h, body);
    BodyListsItems(0, cip);
    assert frame[HEADER_SIZE + 8..] == body[8..];
    assert U16At(frame, HEADER_SIZE + 6) == U16At(body, 6);
  }

  lemma CallOfRequest(service: u8, path: seq<byte>, data: seq<byte>)
    requires |path| < 0x200 && |path| % 2 == 0
    ensures CallOf(CipRequest(service, path, data)) == Call(service, path, data)
  {
    var cip := CipRequest(service, path, data);
    assert cip[2..2 + |path|] == path;
    assert cip[2 + |path|..|cip|] == data;
  }

  /** The fields of a route wrapper, where the peer looks for them. */
  lemma WrapperParts(slot: u8, cip: seq<byte>)
    requires |cip| < 0x1_0000
    ensures var wrapper := RouteWrapper(slot, cip);
            && |wrapper| >= 4 + |cip| + 4 && U16At(wrapper, 2) == |cip|
            && Cut(wrapper, 4, 4 + |cip|) == cip && wrapper[|wrapper| - 1] == slot
  {
    var wrapper := RouteWrapper(slot, cip);
    var len := LE16(|cip|);
    assert wrapper[2] == len[0] && wrapper[3] == len[1];
    assert wrapper[4..4 + |cip|] == cip;
    assert wrapper[|wrapper| - 1] == BackplaneRoute(slot)[3];
  }

  /** Routing is transparent: for every slot and every request the client accepts, with odd
      and even embedded lengths alike, the peer's unwrapping recovers exactly the slot,
      service, path and data. */
  lemma RoutingIsTransparent(slot: u8, service: u8, path: seq<byte>, data: seq<byte>)
    requires Sendable(path, data)
    ensures |CipRequest(service, path, data)| < 0x1_0000
    ensures Unwrap(CallOf(RoutedCip(slot, CipRequest(service, path, data)))) == Routed(slot, Call(service, path, data))
  {
    hide RouteWrapper, U16At, Cut, CallOf;
    var cip := CipRequest(service, path, data);
    CallOfRequest(UNCONNECTED_SEND, ConnectionManagerPath(), RouteWrapper(slot, cip));
    WrapperParts(slot, cip);
    CallOfRequest(service, path, data);
  }

  /** The request the peer ends up serving, however it was sent. */
  datatype Request = Direct(service: u8, path: seq<byte>, data: seq<byte>)
                   | ViaSlot(slot: u8, service: u8, path: seq<byte>, data: seq<byte>)

  /** Requests the peer will answer: a direct one needs two bytes past its header and must not
      be an Unconnected Send itself. */
  predicate Servable(q: Request) {
    && Sendable(q.path, q.data)
    && match q
       case Direct(service, path, data) => service != UNCONNECTED_SEND && |path| + |data| >= 2
       case ViaSlot(slot, _, _, _) => slot <= 16
  }

  function CipOf(q: Request): seq<byte>
    requires Sendable(q.path, q.data)
  {
    match q
    case Direct(service, path, data) => CipRequest(service, path, data)
    case ViaSlot(slot, service, path, data) => RoutedCip(slot, CipRequest(service, path, data))
  }

  function SendRequest(m: Msg, c: Tcp, session: u32, q: Request, timeout: u32, now: nat): (r: (Msg, Status)) {
    match q
    case Direct(service, path, data) => SendMsg(m, c, session, service, path, data, timeout, now)
    case ViaSlot(slot, service, path, data) => SendRouted(m, c, session, slot, service, path, data, timeout, now)
  }

  lemma ServableFits(q: Request)
    requires Servable(q)
    ensures 4 <= |CipOf(q)| <= MAX_CIP + ROUTED_OVERHEAD
  {
  }

  /** Sent directly or through a slot, the same call is dispatched and the same answer made. */
  lemma PeerServes(s: Server, session: u32, context: u64, q: Request)
    requires Servable(q)
    ensures 4 <= |CipOf(q)| <= MAX_CIP + ROUTED_OVERHEAD
    ensures var frame := RequestFrame(session, context, CipOf(q));
            && |frame| >= HEADER_SIZE
            && var (s', a) := HandleCip(s, session, q.service, q.path, q.data);
               HandleFrame(s, frame) == (s', RRResponse(context, a))
  {
    hide HeaderOf, RequestFrame, RequestItem, HandleCip, RRResponse, RoutedCip, CipRequest;
    ServableFits(q);
    PeerReadsRequest(session, context, CipOf(q));
    match q
    case Direct(service, path, data) => CallOfRequest(service, path, data);
    case ViaSlot(slot, service, path, data) => RoutingIsTransparent(slot, service, path, data);
  }

  // ---------------------------------------------------------------------------------------
  // An errand and the peer that serves it

  /** Client and peer agree on where the next frame starts. */
  predicate Aligned(c: Tcp, s: Server) {
    c.link.Up? && c.inbox == [] && s.read == |c.sent| && !s.down
  }

  /** An errand whose frame the peer will answer: the peer before and after, and its response. */
  datatype Visit = Visit(errand: Errand, before: Server, after: Server, response: Response)

  function BytesOf(r: Response): seq<byte> {
    if r.Frame? then r.bytes else []
  }

  /** The peer answers the frame so, however much of the stream it has consumed before it. */
  ghost predicate Handles(before: Server, frame: seq<byte>, after: Server, response: Response)
    requires |frame| >= HEADER_SIZE
  {
    forall n: nat :: HandleFrame(before.(read := n), frame) == (after.(read := n), response)
  }

  lemma VisitStarts(s: Server, frame: seq<byte>)
    requires FrameAt(frame, 0xFFFF) == Whole(frame, [])
    ensures var (after, response) := HandleFrame(s, frame); Delimited(frame, 0xFFFF) && Handles(s, frame, after, response)
  {
    hide HandleFrame, FrameAt;
    WholeIsDelimited(frame, 0xFFFF);
    forall n: nat {
      HandlingIgnoresRead(s, frame, n);
    }
  }

  ghost predicate VisitOk(x: Visit) {
    && Aligned(x.errand.from, x.before)
    && Delimited(x.errand.frame, 0xFFFF)
    && Handles(x.before, x.errand.frame, x.after, x.response)
    && x.errand.reply == BytesOf(x.response)
  }

  function PeerAt(x: Visit, served: bool): Server {
    if served then x.after.(read := x.before.read + |x.errand.frame|, down := x.response.Crash? || x.after.down)
    else x.before
  }

  /** Part of a frame is never mistaken for a frame. */
  lemma PrefixIsShort(frame: seq<byte>, k: nat)
    requires FrameAt(frame, 0xFFFF) == Whole(frame, []) && k < |frame|
    ensures FrameAt(frame[..k], 0xFFFF) == Short
  {
    hide HeaderOf;
    if k >= HEADER_SIZE {
      assert frame[..k][..HEADER_SIZE] == frame[..HEADER_SIZE];
      HeaderLocal(frame[..k], frame);
    }
  }

  /** The peer waits for the whole request, serves it once, and then has nothing more to do. */
  lemma ServeUnderway(x: Visit, w: Wire, c: Tcp, served: bool)
    requires VisitOk(x) && Underway(x.errand, w, c, served)
    ensures var (s', c') := Serve(PeerAt(x, served), c);
            var served' := served || w.sent == |x.errand.frame|;
            s' == PeerAt(x, served') && Underway(x.errand, w, c', served') && c' == c.(inbox := c'.inbox)
  {
    hide HandleFrame, HeaderOf, FrameAt, ReceiveOk;
    var frame := x.errand.frame;
    var arrived := c.sent[x.before.read..];
    assert arrived == frame[..w.sent];
    if served {
      assert c.sent[PeerAt(x, true).read..] == [];
      NothingIsShort(0xFFFF);
    } else if w.sent < |frame| {
      assert frame + [] == frame;
      PrefixIsShort(frame, w.sent);
    } else {
      assert arrived == frame + [] && frame + [] == frame && x.before.(read := x.before.read) == x.before;
      ServedUnderway(x.errand, w, c);
      assert c.inbox + [] == c.inbox;
    }
  }

  // ---------------------------------------------------------------------------------------
  // The joint machine of a message and the peer

  datatype World = World(m: Msg, c: Tcp, s: Server)

  datatype Turn =
    | ClientPoll(now: nat, script: seq<Io>)      // the socket behaves as scripted during this poll
    | PeerTurn

  function Play(w: World, t: Turn): World {
    match t
    case ClientPoll(now, script) =>
      var (m, c, _) := PollMsg(w.m, w.c.(script := script), now);
      World(m, c, w.s)
    case PeerTurn =>
      var (s, c) := Serve(w.s, w.c);
      World(w.m, c, s)
  }

  function PlayAll(w: World, ts: seq<Turn>): World {
    if ts == [] then w else Play(PlayAll(w, ts[..|ts| - 1]), ts[|ts| - 1])
  }

  /** No poll comes at or after the deadline and the line is calm. */
  predicate Timely(ts: seq<Turn>, deadline: u32) {
    forall i | 0 <= i < |ts| && ts[i].ClientPoll? ::
      !Expired(Ticks(ts[i].now), deadline) && Calm(ts[i].script)
  }

  /** The fixed facts of an exchange: the state it starts from and the visit it makes. */
  datatype Setup = Setup(start: World, visit: Visit)

  ghost predicate SetupOk(x: Setup) {
    VisitOk(x.visit) && x.visit.errand.limit == MAX_BODY && InProgress(x, x.start, false)
  }

  predicate SameRequest(x: Setup, w: World) {
    MsgOk(w.m) && w.m.sentContext == x.start.m.sentContext && w.m.deadline == x.start.m.deadline
  }

  /** The request is on its way, or served and its reply on the way. */
  predicate InProgress(x: Setup, w: World, served: bool) {
    && SameRequest(x, w) && InFlight(w.m)
    && w.s == PeerAt(x.visit, served) && Underway(x.visit.errand, w.m.wire, w.c, served)
  }

  /** The client has its outcome, and it is the outcome of the peer's one answer. */
  predicate Settled(x: Setup, w: World) {
    && SameRequest(x, w) && !InFlight(w.m)
    && w.s == PeerAt(x.visit, true) && Over(x.visit.errand, w.m.wire, w.c)
    && (if Ending(x.visit.errand) == Ok
        then w.m.reply == ParseReply(w.m.wire.rx, x.start.m.sentContext) else w.m.reply == None)
    && w.m.phase == (if w.m.reply.Some? then Done else Failed)
  }

  ghost predicate Stage(x: Setup, w: World) {
    InProgress(x, w, false) || InProgress(x, w, true) || Settled(x, w)
  }

  /** A poll in time moves the wire as the courier does and judges what it brings. */
  lemma PollIsPump(m: Msg, c: Tcp, now: nat)
    requires MsgOk(m) && InFlight(m) && !Expired(Ticks(now), m.deadline)
    ensures var (m', c', _) := PollMsg(m, c, now);
            var (w, c1, st) := Pump(m.wire, c, MAX_BODY);
            && m'.wire == w && c' == c1
            && (st == Pending ==> InFlight(m'))
            && (st == Ok ==> m'.reply == ParseReply(w.rx, m.sentContext) && m'.phase == (if m'.reply.Some? then Done else Failed))
            && (st != Pending && st != Ok ==> m'.phase == Failed)
  {
    hide Drain, Fill, ParseReply;
  }

  lemma ClientTurn(x: Setup, w: World, served: bool, now: nat, script: seq<Io>)
    requires SetupOk(x) && InProgress(x, w, served)
    requires !Expired(Ticks(now), w.m.deadline) && Calm(script)
    ensures var w' := Play(w, ClientPoll(now, script));
            InProgress(x, w', served) || (served && Settled(x, w'))
  {
    hide PollMsg, Pump, Over, Ending, VisitOk, PeerAt, ParseReply, ReceiveOk, HeaderOf, FrameAt;
    var c := w.c.(script := script);
    assert Underway(x.visit.errand, w.m.wire, c, served);
    PollKeeps(w.m, c, now);
    PollIsPump(w.m, c, now);
    PumpUnderway(x.visit.errand, w.m.wire, c, served);
    EndingIsOkOrError(x.visit.errand, Pump(w.m.wire, c, MAX_BODY).0, Pump(w.m.wire, c, MAX_BODY).1);
  }

  lemma EndingIsOkOrError(x: Errand, w: Wire, c: Tcp)
    ensures Over(x, w, c) ==> Ending(x) == Ok || Ending(x) == Error
  {
    hide FrameAt;
  }

  lemma PeerPlays(x: Setup, w: World, served: bool)
    requires SetupOk(x) && InProgress(x, w, served)
    ensures InProgress(x, Play(w, PeerTurn), served || w.m.wire.sent == |x.visit.errand.frame|)
  {
    hide Serve, VisitOk, Underway, MsgOk;
    ServeUnderway(x.visit, w.m.wire, w.c, served);
  }

  /** After the outcome nothing moves any more. */
  lemma SettledStays(x: Setup, w: World, t: Turn)
    requires SetupOk(x) && Settled(x, w)
    ensures Settled(x, Play(w, t)) && Play(w, t).m == w.m && Play(w, t).s == w.s
  {
    hide HandleFrame, FrameAt, MsgOk, ParseReply;
    if t.PeerTurn? {
      assert w.c.sent[w.s.read..] == [];
      NothingIsShort(0xFFFF);
    }
  }

  lemma SameDeadline(x: Setup, w: World, served: bool)
    requires InProgress(x, w, served)
    ensures w.m.deadline == x.start.m.deadline
  {
  }

  lemma PlayKeepsStage(x: Setup, w: World, t: Turn)
    requires SetupOk(x) && Stage(x, w)
    requires t.ClientPoll? ==> !Expired(Ticks(t.now), x.start.m.deadline) && Calm(t.script)
    ensures Stage(x, Play(w, t))
  {
    hide Play, Settled, SetupOk, InProgress;
    if Settled(x, w) {
      SettledStays(x, w, t);
    } else {
      var served := InProgress(x, w, true);
      assert w.m.deadline == x.start.m.deadline by {
        SameDeadline(x, w, served);
      }
      match t
      case ClientPoll(now, script) => ClientTurn(x, w, served, now, script);
      case PeerTurn => PeerPlays(x, w, served);
    }
  }

  lemma {:induction false} EveryRunIsInAStage(x: Setup, ts: seq<Turn>)
    requires SetupOk(x) && Timely(ts, x.start.m.deadline)
    ensures Stage(x, PlayAll(x.start, ts))
  {
    hide Play, InProgress, Settled, VisitOk;
    if ts != [] {
      var before, t := ts[..|ts| - 1], ts[|ts| - 1];
      assert Timely(before, x.start.m.deadline) by {
        assert forall i | 0 <= i < |before| :: before[i] == ts[i];
      }
      EveryRunIsInAStage(x, before);
      PlayKeepsStage(x, PlayAll(x.start, before), t);
    }
  }

  // ---------------------------------------------------------------------------------------
  // The exchange as one atomic call

  /** The situation right after an accepted send. */
  function SetupFor(m: Msg, c: Tcp, s: Server, session: u32, q: Request, timeout: u32, now: nat): (x: Setup)
    requires Servable(q)
  {
    ServableFits(q);
    PeerServes(s, session, m.context, q);
    var frame := RequestFrame(session, m.context, CipOf(q));
    var (after, response) := HandleFrame(s, frame);
    Setup(World(SendRequest(m, c, session, q, timeout, now).0, c, s),
          Visit(Errand(frame, BytesOf(response), c, MAX_BODY), s, after, response))
  }

  lemma SetupForIsOk(m: Msg, c: Tcp, s: Server, session: u32, q: Request, timeout: u32, now: nat)
    requires MsgOk(m) && !InFlight(m) && Aligned(c, s) && Servable(q)
    ensures SendRequest(m, c, session, q, timeout, now).1 == Pending
    ensures SetupOk(SetupFor(m, c, s, session, q, timeout, now))
    ensures SetupFor(m, c, s, session, q, timeout, now).start.m.sentContext == m.context
  {
    hide HandleFrame, HeaderOf, RequestFrame, CipRequest, RoutedCip;
    ServableFits(q);
    PeerReadsRequest(session, m.context, CipOf(q));
    VisitStarts(s, RequestFrame(session, m.context, CipOf(q)));
    QueuedUnderway(SetupFor(m, c, s, session, q, timeout, now).visit.errand);
  }

  /** Whatever the interleaving and the fragmentation, before the deadline on a calm line:
      the wire carries a part of the one request frame, and all of it once the client has an
      outcome; the peer has dispatched the call not at all or exactly once; the outcome is Done
      with exactly the answer's service, status and data if the answer fits the client's
      receive buffer, and Failed if it does not. */
  lemma ExchangeIsAtomic(m: Msg, c: Tcp, s: Server, session: u32, q: Request, timeout: u32, start: nat, ts: seq<Turn>)
    requires MsgOk(m) && !InFlight(m) && Aligned(c, s) && Servable(q)
    requires Timely(ts, SendRequest(m, c, session, q, timeout, start).0.deadline)
    ensures SendRequest(m, c, session, q, timeout, start).1 == Pending
    ensures 4 <= |CipOf(q)| <= MAX_CIP + ROUTED_OVERHEAD
    ensures var w := PlayAll(World(SendRequest(m, c, session, q, timeout, start).0, c, s), ts);
            var frame := RequestFrame(session, m.context, CipOf(q));
            var (s', a) := HandleCip(s, session, q.service, q.path, q.data);
            && w.m.wire.sent <= |frame| && w.c.sent == c.sent + frame[..w.m.wire.sent]
            && (w.s == s || w.s == s'.(read := |c.sent| + |frame|, down := a.Raised? || RRResponse(m.context, a).Crash?))
            && (w.m.phase.Done? || w.m.phase.Failed? ==>
                  a.Answered? && w.s == s'.(read := |w.c.sent|) && w.c.sent == c.sent + frame)
            && (w.m.phase.Done? ==>
                  4 <= |a.cip| <= MAX_BODY - 16 && w.m.reply == Some(ReplyOf(a.cip)) && Aligned(w.c, w.s))
            && (w.m.phase.Failed? ==> |a.cip| + 16 > MAX_BODY)
            && (InFlight(w.m) || w.m.phase.Done? || w.m.phase.Failed?)
  {
    hide HandleFrame, HeaderOf, RequestFrame, CipOf, HandleCip, ParseReply, RRResponse, Play, SendMsg, SendRouted, FrameAt,
         MsgOk, ReceiveOk;
    SetupForIsOk(m, c, s, session, q, timeout, start);
    ServableFits(q);
    PeerServes(s, session, m.context, q);
    var x := SetupFor(m, c, s, session, q, timeout, start);
    EveryRunIsInAStage(x, ts);
    var w := PlayAll(x.start, ts);
    var (s', a) := HandleCip(s, session, q.service, q.path, q.data);
    HandleCipKeeps(s, session, q.service, q.path, q.data);
    ResponseOfAnswer(m.context, a);
    assert x.visit.errand.frame[..|x.visit.errand.frame|] == x.visit.errand.frame;
    if Settled(x, w) {
      SettledOutcome(x, w, a);
    } else {
      InProgressIsInFlight(x, w);
    }
  }

  lemma InProgressIsInFlight(x: Setup, w: World)
    requires Stage(x, w) && !Settled(x, w)
    ensures InFlight(w.m)
  {
    hide Underway, PeerAt;
  }

  /** The dispatcher touches neither the stream position nor the run state. */
  lemma HandleCipKeeps(s: Server, session: u32, service: u8, path: seq<byte>, rest: seq<byte>)
    ensures var (s', a) := HandleCip(s, session, service, path, rest);
            s'.read == s.read && s'.down == s.down && (a.Answered? ==> |a.cip| >= 4)
  {
  }

  lemma ResponseOfAnswer(context: u64, a: Answer)
    ensures RRResponse(context, a).Frame? || RRResponse(context, a).Crash?
    ensures a.Raised? ==> RRResponse(context, a).Crash?
  {
  }

  lemma SettledOutcome(x: Setup, w: World, a: Answer)
    requires SetupOk(x) && Settled(x, w)
    requires x.visit.response == RRResponse(x.start.m.sentContext, a)
    requires a.Answered? ==> |a.cip| >= 4
    ensures a.Answered? && x.visit.response.Frame?
    ensures w.m.phase.Done? ==> w.m.reply == Some(ReplyOf(a.cip)) && w.c.inbox == [] && |a.cip| + 16 <= MAX_BODY
    ensures w.m.phase.Failed? ==> |a.cip| + 16 > MAX_BODY
    ensures w.m.phase.Done? || w.m.phase.Failed?
  {
    hide HandleFrame, HeaderOf, ParseReply, RRResponse, FrameAt;
    var context := x.start.m.sentContext;
    if a.Raised? || |a.cip| >= 0x1_0000 - 16 {
      BigAnswers(context, a);
      NothingIsShort(MAX_BODY);
    } else {
      ClientReadsReply(context, a.cip);
      AnswerFrames(context, a);
    }
  }

  /** Answers too large for the length field crash the peer, so they never settle. */
  lemma BigAnswers(context: u64, a: Answer)
    requires a.Raised? || |a.cip| >= 0x1_0000 - 16
    ensures RRResponse(context, a) == Crash
  {
    if a.Answered? && |a.cip| < 0x1_0000 {
      RequestItemBytes(a.cip);
    }
  }

  /** An answer's frame fits the receive buffer exactly when the answer does. */
  lemma AnswerFrames(context: u64, a: Answer)
    requires a.Answered? && 4 <= |a.cip| < 0x1_0000 - 16
    ensures var r := RRResponse(context, a);
            && r.Frame?
            && FrameAt(r.bytes, MAX_BODY) == if |a.cip| + 16 <= MAX_BODY then Whole(r.bytes, []) else TooLong
  {
    hide HeaderOf, RRResponse, ParseReply;
    ClientReadsReply(context, a.cip);
    var bytes := RRResponse(context, a).bytes;
    assert bytes[..|bytes|] == bytes && bytes[|bytes|..] == [];
  }

  // ---------------------------------------------------------------------------------------
  // Progress

  /** A poll that can write, a peer turn and a poll that can read. */
  function Finale(x: Setup, now: nat): seq<Turn> {
    var k := |x.visit.errand.frame| + HEADER_SIZE + MAX_BODY;
    [ClientPoll(now, [Move(k)]), PeerTurn, ClientPoll(now, [Move(k), Move(k)])]
  }

  /** From every reachable state the finale brings the exchange to its outcome: no interleaving
      ever gets it stuck. */
  lemma ExchangeCanFinish(x: Setup, w: World, now: nat)
    requires SetupOk(x) && Stage(x, w) && !Expired(Ticks(now), x.start.m.deadline)
    requires Ending(x.visit.errand) == Ok
    ensures Settled(x, PlayAll(w, Finale(x, now)))
  {
    hide PollMsg, Pump, Settled, VisitOk, PeerAt, ReceiveOk, FrameAt, ParseReply, Serve;
    var ts := Finale(x, now);
    var w1 := Play(w, ts[0]);
    var w2 := Play(w1, ts[1]);
    assert ts[..2][..1] == [ts[0]] && ts[..1][..0] == [] && ts[..2] == [ts[0], ts[1]];
    assert PlayAll(w, ts[..1]) == w1;
    assert PlayAll(w, ts[..2]) == w2;
    assert PlayAll(w, ts) == Play(w2, ts[2]);
    if Settled(x, w) {
      SettledStays(x, w, ts[0]);
    } else {
      FinaleSends(x, w, InProgress(x, w, true), now);
    }
    if Settled(x, w1) {
      SettledStays(x, w1, ts[1]);
      SettledStays(x, w2, ts[2]);
    } else {
      FinaleServes(x, w1, InProgress(x, w1, true));
      var k := |x.visit.errand.frame| + HEADER_SIZE + MAX_BODY;
      var c := w2.c.(script := [Move(k), Move(k)]);
      ClientTurn(x, w2, true, now, [Move(k), Move(k)]);
      PumpReceives(x.visit.errand, w2.m.wire, c, k);
      PollIsPump(w2.m, c, now);
    }
  }

  lemma FinaleSends(x: Setup, w: World, served: bool, now: nat)
    requires SetupOk(x) && InProgress(x, w, served) && !Expired(Ticks(now), x.start.m.deadline)
    ensures var w' := Play(w, Finale(x, now)[0]);
            Settled(x, w') || (InProgress(x, w', served) && w'.m.wire.sent == |x.visit.errand.frame|)
  {
    hide PollMsg, Pump, Settled, VisitOk, PeerAt, MsgOk, ReceiveOk;
    var k := |x.visit.errand.frame| + HEADER_SIZE + MAX_BODY;
    var c := w.c.(script := [Move(k)]);
    ClientTurn(x, w, served, now, [Move(k)]);
    PumpSends(x.visit.errand, w.m.wire, c, served, k);
    PollIsPump(w.m, c, now);
  }

  lemma FinaleServes(x: Setup, w: World, served: bool)
    requires SetupOk(x) && InProgress(x, w, served) && w.m.wire.sent == |x.visit.errand.frame|
    ensures InProgress(x, Play(w, PeerTurn), true)
  {
    hide Play, SetupOk, InProgress;
    PeerPlays(x, w, served);
  }

  /** No exchange gets stuck: whatever has happened before, in time and on a calm line, a poll that
      can write, a peer turn and a poll that can read end it Done with exactly the peer's answer,
      if the answer fits the receive buffer. */
  lemma ExchangeFinishes(m: Msg, c: Tcp, s: Server, session: u32, q: Request, timeout: u32, start: nat, ts: seq<Turn>,
                         now: nat)
    requires MsgOk(m) && !InFlight(m) && Aligned(c, s) && Servable(q)
    ensures var x := SetupFor(m, c, s, session, q, timeout, start);
            var a := HandleCip(s, session, q.service, q.path, q.data).1;
            var w := PlayAll(PlayAll(x.start, ts), Finale(x, now));
            Timely(ts, x.start.m.deadline) && !Expired(Ticks(now), x.start.m.deadline)
            && a.Answered? && |a.cip| + 16 <= MAX_BODY ==>
            |a.cip| >= 4 && w.m.phase.Done? && w.m.reply == Some(ReplyOf(a.cip))
  {
    hide HandleFrame, HeaderOf, RequestFrame, CipOf, HandleCip, ParseReply, RRResponse, Play, SendMsg, SendRouted, FrameAt,
         Timely, Finale, Stage, Settled, SetupOk, InProgress;
    SetupForIsOk(m, c, s, session, q, timeout, start);
    ServableFits(q);
    PeerServes(s, session, m.context, q);
    HandleCipKeeps(s, session, q.service, q.path, q.data);
    var x := SetupFor(m, c, s, session, q, timeout, start);
    var a := HandleCip(s, session, q.service, q.path, q.data).1;
    if Timely(ts, x.start.m.deadline) && !Expired(Ticks(now), x.start.m.deadline)
       && a.Answered? && |a.cip| + 16 <= MAX_BODY {
      EveryRunIsInAStage(x, ts);
      AnswerFrames(m.context, a);
      ExchangeCanFinish(x, PlayAll(x.start, ts), now);
      SettledOutcome(x, PlayAll(PlayAll(x.start, ts), Finale(x, now)), a);
    }
  }
}
