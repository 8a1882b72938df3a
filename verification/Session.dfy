/**
 An encapsulation session: RegisterSession, UnregisterSession and the handle they manage.
 */
module Session {
  import opened Bytes
  import opened Status
  import opened Encapsulation
  import opened Stream
  import opened Framing

  const MAX_SESSION_BODY: nat := 512

  datatype SessionPhase = Idle | Registering | Registered | Unregistering | Closed | Failed

  datatype Session = Session(
    phase: SessionPhase,
    handle: u32,
    deadline: u32,
    context: u64,
    wire: Wire,
    openEpoch: nat,        // which dial the registration request belongs to
    handleEpoch: nat)      // which dial the handle came from

  const NewSession: Session := Session(Idle, 0, 0, 1, Wire([], 0, [], 0), 0, 0)

  predicate Exchanging(s: Session) {
    s.phase.Registering? || s.phase.Unregistering?
  }

  predicate SessionOk(s: Session) {
    WireOk(s.wire) && (Exchanging(s) ==> ReceiveOk(s.wire, MAX_SESSION_BODY))
  }

  function RegisterFrame(context: u64): seq<byte> {
    HeaderBytes(Header(REGISTER_SESSION, 4, 0, 0, context, 0)) + LE16(1) + LE16(0)
  }

  function UnregisterFrame(handle: u32, context: u64): seq<byte> {
    HeaderBytes(Header(UNREGISTER_SESSION, 0, handle, 0, context, 0))
  }

  function OpenSession(s: Session, c: Tcp, timeout: u32, now: nat): (r: (Session, Status)) {
    if s.phase.Registering? || s.phase.Registered? then (s, Busy)
    else if !Connected(c) then (s, NotReady)
    else (s.(phase := Registering, deadline := Add32(Ticks(now), timeout), wire := Queue(RegisterFrame(s.context)),
             openEpoch := c.epoch), Pending)
  }

  function AbortSession(s: Session): Session {
    s.(phase := SessionPhase.Closed, handle := 0, wire := Wire([], 0, [], 0))
  }

  /** Graceful close: asks the peer only when registered. */
  function CloseSession(s: Session): (r: (Session, Status)) {
    match s.phase
    case Registered => (s.(phase := Unregistering, wire := Queue(UnregisterFrame(s.handle, s.context))), Pending)
    case Registering => (s, Busy)
    case Unregistering => (s, Busy)
    case _ => (AbortSession(s), Ok)
  }

  /** A registration reply is good when it is one, reports success, has a body and a handle. */
  predicate GoodRegistration(rx: seq<byte>) {
    && |rx| >= HEADER_SIZE
    && HeaderOf(rx).command == REGISTER_SESSION && HeaderOf(rx).status == 0 && HeaderOf(rx).length >= 4
  }

  function Registration(s: Session, w: Wire, c: Tcp): (r: (Session, Status)) {
    if !GoodRegistration(w.rx) then (s.(wire := w, phase := Failed), Error)
    else
      var handle := HeaderOf(w.rx).session;
      if handle == 0 then (s.(wire := w, handle := 0, phase := Failed), Error)
      else (s.(wire := w, handle := handle, handleEpoch := c.epoch, phase := Registered), Ok)
  }

  /** A send failure is reported without leaving the phase; a receive failure ends it. */
  function PollSession(s: Session, c: Tcp, now: nat): (r: (Session, Tcp, Status)) {
    match s.phase
    case Idle => (s, c, NotReady)
    case Registered => (s, c, Ok)
    case Closed => (s, c, Status.Closed)
    case Failed => (s, c, Error)
    case _ =>
      if Expired(Ticks(now), s.deadline) then (s.(phase := Failed), c, Timeout)
      else
        var (w, c1, st) := Drain(s.wire, c);
        if st != Ok then (s.(wire := w), c1, st)
        else ReceiveSession(s.(wire := w), c1)
  }

  function ReceiveSession(s: Session, c: Tcp): (r: (Session, Tcp, Status)) {
    var (w, c', st) := Fill(s.wire, c, MAX_SESSION_BODY);
    if st == Pending then (s.(wire := w), c', Pending)
    else if st != Ok then (s.(wire := w, phase := Failed), c', st)
    else if s.phase.Registering? then
      var (s', st') := Registration(s, w, c');
      (s', c', st')
    else (s.(wire := w, phase := SessionPhase.Closed), c', Ok)
  }

  /** What a session poll keeps, whatever the line does, and which phases it can move between. */
  lemma SessionPollKeeps(s: Session, c: Tcp, now: nat)
    requires SessionOk(s)
    ensures var (s', c', st) := PollSession(s, c, now);
            && SessionOk(s')
            && s'.context == s.context && s'.openEpoch == s.openEpoch && s'.deadline == s.deadline
            && s'.wire.tx == s.wire.tx && s.wire.sent <= s'.wire.sent
            && c'.epoch == c.epoch
            && c'.sent == c.sent + s.wire.tx[s.wire.sent..s'.wire.sent]
            && s'.wire.rx + c'.inbox == s.wire.rx + c.inbox
            && c'.got + c'.inbox == c.got + c.inbox
            && |s'.wire.rx| + |c.got| == |c'.got| + |s.wire.rx|
            && (!Exchanging(s) ==> s' == s && c' == c)
            && (s.phase.Registering? ==> s'.phase.Registering? || s'.phase.Registered? || s'.phase.Failed?)
            && (s.phase.Unregistering? ==> s'.phase.Unregistering? || s'.phase.Closed? || s'.phase.Failed?)
            && (s.phase.Registering? ==> (st == Ok <==> s'.phase.Registered?))
            && (st == Pending ==> s'.phase == s.phase)
  {
    hide Drain, Fill, HeaderOf;
    if Exchanging(s) && !Expired(Ticks(now), s.deadline) {
      DrainSends(s.wire, c);
      var (w, c1, st) := Drain(s.wire, c);
      if st == Ok {
        FillConserves(w, c1, MAX_SESSION_BODY);
        FillStops(w, c1, MAX_SESSION_BODY);
      }
    } else {
      assert s.wire.tx[s.wire.sent..s.wire.sent] == [];
    }
  }

  /** A session becomes Registered only by one whole, successful RegisterSession reply at the
      front of the stream, and the handle is the nonzero handle in that reply, tied to the
      connection the reply was read from. */
  lemma RegisteredMeansAnswered(s: Session, c: Tcp, now: nat)
    requires SessionOk(s) && s.phase.Registering?
    ensures var (s', c', st) := PollSession(s, c, now);
            var frame := s'.wire.rx;
            st == Ok ==>
            && FrameAt(s.wire.rx + c.inbox, MAX_SESSION_BODY) == Whole(frame, c'.inbox)
            && s'.wire.sent == |s.wire.tx|
            && GoodRegistration(frame)
            && s'.phase.Registered? && s'.handle == HeaderOf(frame).session && s'.handle != 0
            && s'.handleEpoch == c.epoch
  {
    hide Drain, Fill, HeaderOf;
    DrainSends(s.wire, c);
    var (w, c1, _) := Drain(s.wire, c);
    if PollSession(s, c, now).2 == Ok {
      FillConserves(w, c1, MAX_SESSION_BODY);
      FillIsFragmentationFree(w, c1, MAX_SESSION_BODY);
    }
  }

  // ---------------------------------------------------------------------------------------
  // The session, updated in place

  class EipSession {
    const io: FrameIo
    var phase: SessionPhase
    var handle: u32
    var deadline: u32
    var context: u64
    ghost var openEpoch: nat
    ghost var handleEpoch: nat

    ghost predicate Valid()
      reads this, io, io.tx, io.rx
    {
      io.Valid() && io.tx.Length == io.rx.Length == HEADER_SIZE + MAX_SESSION_BODY && SessionOk(View())
    }

    ghost function View(): Session
      requires io.Valid()
      reads this, io, io.tx, io.rx
    {
      Session(phase, handle, deadline, context, io.View(), openEpoch, handleEpoch)
    }

    constructor ()
      ensures Valid() && View() == NewSession
      ensures fresh(io) && fresh(io.tx) && fresh(io.rx)
    {
      io := new FrameIo(MAX_SESSION_BODY);
      phase, handle, deadline, context := Idle, 0, 0, 1;
      openEpoch, handleEpoch := 0, 0;
    }

    method Open(conn: TcpConnection, timeout: u32, now: nat) returns (st: Status)
      requires Valid()
      modifies this, io, io.tx
      ensures Valid()
      ensures (View(), st) == OpenSession(old(View()), conn.View(), timeout, now)
    {
      if phase == Registering || phase == Registered {
        return Busy;
      }
      if conn.link != Up {
        return NotReady;
      }
      deadline := Add32(Ticks(now), timeout);
      openEpoch := conn.epoch;
      var h := Header(REGISTER_SESSION, 4, 0, 0, context, 0);
      EncodeHeader(io.tx, h);
      PutU16(io.tx, HEADER_SIZE, 1);         // protocol version
      PutU16(io.tx, HEADER_SIZE + 2, 0);     // options
      assert io.tx[..HEADER_SIZE + 4] == RegisterFrame(context);
      io.Start(HEADER_SIZE + 4);
      phase := Registering;
      return Pending;
    }

    method Close() returns (st: Status)
      requires Valid()
      modifies this, io, io.tx
      ensures Valid()
      ensures (View(), st) == CloseSession(old(View()))
    {
      if phase == Registered {
        var h := Header(UNREGISTER_SESSION, 0, handle, 0, context, 0);
        EncodeHeader(io.tx, h);
        io.Start(HEADER_SIZE);
        phase := Unregistering;
        return Pending;
      }
      if phase == Registering || phase == Unregistering {
        return Busy;
      }
      Abort();
      return Ok;
    }

    method Abort()
      requires Valid()
      modifies this, io
      ensures Valid() && View() == AbortSession(old(View()))
    {
      phase := SessionPhase.Closed;
      handle := 0;
      io.Reset();
    }

    method Poll(conn: TcpConnection, now: nat) returns (st: Status)
      requires Valid()
      modifies this, io, io.rx, conn
      ensures Valid()
      ensures (View(), conn.View(), st) == PollSession(old(View()), old(conn.View()), now)
    {
      match phase {
        case Idle => return NotReady;
        case Registered => return Ok;
        case Closed => return Status.Closed;
        case Failed => return Error;
        case _ =>
      }
      if Expired(Ticks(now), deadline) {
        phase := Failed;
        return Timeout;
      }
      st := Advance(conn, now);
    }

    method Advance(conn: TcpConnection, ghost now: nat) returns (st: Status)
      requires Valid() && Exchanging(View()) && !Expired(Ticks(now), deadline)
      modifies this, io, io.rx, conn
      ensures Valid()
      ensures (View(), conn.View(), st) == PollSession(old(View()), old(conn.View()), now)
    {
      hide Drain, Fill, HeaderOf;
      ghost var s, c := View(), conn.View();
      SessionPollKeeps(s, c, now);
      DrainSends(s.wire, c);
      st := io.WritePending(conn);
      if st != Ok {
        assert View() == s.(wire := io.View());
        return;
      }
      assert View() == s.(wire := io.View());
      st := Receive(conn);
    }

    method Receive(conn: TcpConnection) returns (st: Status)
      requires Valid() && Exchanging(View())
      modifies this, io, io.rx, conn
      ensures io.Valid()
      ensures (View(), conn.View(), st) == ReceiveSession(old(View()), old(conn.View()))
    {
      hide Fill, HeaderOf;
      ghost var s := View();
      FillStops(s.wire, conn.View(), MAX_SESSION_BODY);
      FillConserves(s.wire, conn.View(), MAX_SESSION_BODY);
      st := io.ReadResponse(conn, MAX_SESSION_BODY);
      ghost var w := io.View();
      if st == Pending {
        assert View() == s.(wire := w);
        return;
      }
      if st != Ok {
        phase := Failed;
        assert View() == s.(wire := w, phase := Failed);
        return;
      }
      if phase == Registering {
        st := Register(conn);
      } else {
        phase := SessionPhase.Closed;
        assert View() == s.(wire := w, phase := SessionPhase.Closed);
      }
    }

    /** Validate the RegisterSession reply in the receive buffer. */
    method Register(conn: TcpConnection) returns (st: Status)
      requires io.Valid() && io.rxLen >= HEADER_SIZE
      modifies this`phase, this`handle, this`handleEpoch
      ensures (View(), st) == Registration(old(View()), io.View(), conn.View())
    {
      hide HeaderOf;
      var h := DecodeHeader(io.rx);
      HeaderLocal(io.rx[..], io.rx[..io.rxLen]);
      if h.command != REGISTER_SESSION || h.status != 0 || h.length < 4 {
        phase := Failed;
        return Error;
      }
      handle := h.session;
      if handle == 0 {
        phase := Failed;
        return Error;
      }
      handleEpoch := conn.epoch;
      phase := Registered;
      return Ok;
    }
  }
}
