/**
 A session against the peer: its two requests and their answers.
 */
module SessionExchange {
  import opened Bytes
  import opened Status
  import opened Encapsulation
  import opened Stream
  import opened Framing
  import opened Courier
  import opened Session
  import Server

  /** A poll in time moves the wire as the courier does. A failure to send leaves the phase, a
      failure to receive ends it, and a whole frame is judged. */
  lemma SessionPollIsPump(s: Session, c: Tcp, now: nat)
    requires SessionOk(s) && Exchanging(s) && !Expired(Ticks(now), s.deadline)
    ensures var (s', c', st) := PollSession(s, c, now);
            var (w, c1, p) := Pump(s.wire, c, MAX_SESSION_BODY);
            && c' == c1 && s'.wire == w
            && (p == Pending ==> st == Pending && s' == s.(wire := w))
            && (p == Ok ==> (s', st) == if s.phase.Registering? then Registration(s, w, c1)
                                        else (s.(wire := w, phase := SessionPhase.Closed), Ok))
            && (p != Pending && p != Ok ==>
                  st == p && s' == s.(wire := w, phase := if Drain(s.wire, c).2 == Ok then SessionPhase.Failed else s.phase))
  {
    hide Drain, Fill, GoodRegistration, HeaderOf;
    DrainSends(s.wire, c);
  }

  lemma LateSession(s: Session, c: Tcp, now: nat)
    requires Exchanging(s) && Expired(Ticks(now), s.deadline)
    ensures PollSession(s, c, now) == (s.(phase := SessionPhase.Failed), c, Timeout)
  {
  }

  /** What registers a session: any whole reply with the right command, a zero status, a body of
      at least four bytes and a nonzero handle, whatever its context. */
  lemma RegistersForAnyContext(s: Session, c: Tcp, h: Header, body: seq<byte>, now: nat, k: nat)
    requires SessionOk(s) && s.phase.Registering? && s.wire.sent == |s.wire.tx| && s.wire.rx == []
    requires c.link.Up? && c.script == [Move(k), Move(k)] && k >= HEADER_SIZE + MAX_SESSION_BODY
    requires c.inbox == HeaderBytes(h) + body && |body| == h.length <= MAX_SESSION_BODY && !Expired(Ticks(now), s.deadline)
    ensures var s' := PollSession(s, c, now).0;
            && (s'.phase.Registered? <==>
                  h.command == REGISTER_SESSION && h.status == 0 && h.length >= 4 && h.session != 0)
            && (s'.phase.Registered? ==> s'.handle == h.session)
            && (s'.phase.Registered? || s'.phase.Failed?)
  {
    hide HeaderOf, HeaderBytes, Fill, PollSession;
    HeaderRoundTrip(h, body);
    var reply := HeaderBytes(h) + body;
    assert reply[..|reply|] == reply && reply[|reply|..] == [];
    assert s.wire.rx + c.inbox == reply;
    assert FrameAt(reply, MAX_SESSION_BODY) == Whole(reply, []);
    assert Drain(s.wire, c) == (s.wire, c, Ok);
    FillFinishes(s.wire, c, MAX_SESSION_BODY, k);
    FillIsFragmentationFree(s.wire, c, MAX_SESSION_BODY);
    SessionPollIsPump(s, c, now);
  }

  // ---------------------------------------------------------------------------------------
  // The peer's answers

  /** The peer answers an unregistration with a bare header. */
  lemma PeerUnregisters(s: Server.Server, handle: u32, context: u64)
    ensures var frame := UnregisterFrame(handle, context);
            && |frame| == HEADER_SIZE
            && FrameAt(frame, 0xFFFF) == Whole(frame, [])
            && var r := Server.HandleFrame(s, frame).1;
               && r.Frame? && |r.bytes| == HEADER_SIZE
               && FrameAt(r.bytes, MAX_SESSION_BODY) == Whole(r.bytes, [])
               && Server.HandleFrame(s, frame).0 == s
  {
    hide HeaderOf, HeaderBytes;
    var h := Header(UNREGISTER_SESSION, 0, handle, 0, context, 0);
    var frame := HeaderBytes(h);
    assert HeaderBytes(h) + [] == frame;
    HeaderRoundTrip(h, []);
    assert frame[..24] == frame && frame[24..] == [];
    var back := Header(UNREGISTER_SESSION, 0, 0, 0, context, 0);
    assert HeaderBytes(back) + [] == HeaderBytes(back);
    HeaderRoundTrip(back, []);
    var reply := HeaderBytes(back);
    assert reply[..24] == reply && reply[24..] == [];
  }

  /** The peer answers a registration with a good reply that carries its handle. */
  lemma PeerRegisters(s: Server.Server, context: u64)
    ensures var frame := RegisterFrame(context);
            && |frame| == HEADER_SIZE + 4
            && FrameAt(frame, 0xFFFF) == Whole(frame, [])
            && var r := Server.HandleFrame(s, frame).1;
               && r.Frame?
               && FrameAt(r.bytes, MAX_SESSION_BODY) == Whole(r.bytes, [])
               && GoodRegistration(r.bytes) && HeaderOf(r.bytes).session == Server.SESSION_HANDLE
               && Server.HandleFrame(s, frame).0 == s
  {
    hide HeaderOf, HeaderBytes, LE16;
    var body := LE16(1) + LE16(0);
    var h := Header(REGISTER_SESSION, 4, 0, 0, context, 0);
    var frame := RegisterFrame(context);
    assert frame == HeaderBytes(h) + body;
    HeaderRoundTrip(h, body);
    assert frame[..28] == frame && frame[28..] == [];
    var back := Header(REGISTER_SESSION, 4, Server.SESSION_HANDLE, 0, context, 0);
    var reply := HeaderBytes(back) + body;
    HeaderRoundTrip(back, body);
    assert reply[..28] == reply && reply[28..] == [];
  }
}
