/**
 What the socket carries over a whole clean run of the client: one frame after another, in
 the order they were started, and one whole reply for each, although the session and the tag
 message write to and read from the same stream.
 */
module StreamDiscipline {
  import opened Bytes
  import opened Status
  import opened Encapsulation
  import opened Stream
  import opened Framing
  import opened Client
  import opened ClientRuns
  import Cip
  import Message
  import Session
  import Tags

  /** The frames started and the replies completed on the current connection. */
  datatype Trail = Trail(frames: seq<seq<byte>>, replies: seq<seq<byte>>)

  function Flatten(parts: seq<seq<byte>>): seq<byte> {
    if parts == [] then [] else Flatten(parts[..|parts| - 1]) + parts[|parts| - 1]
  }

  lemma FlattenSnoc(parts: seq<seq<byte>>, last: seq<byte>)
    ensures Flatten(parts + [last]) == Flatten(parts) + last
  {
    assert (parts + [last])[..|parts|] == parts;
  }

  /** The exchange that is using the socket. */
  function Active(c: Client): Option<Wire> {
    if Session.Exchanging(c.session) then Some(c.session.wire)
    else if Message.InFlight(c.msg) then Some(c.msg.wire)
    else None
  }

  /** The receive side of the exchange that just ended. */
  function Ended(before: Client, after: Client): seq<byte> {
    if Session.Exchanging(before.session) then after.session.wire.rx else after.msg.wire.rx
  }

  /** What one step adds to the trail; a new connection starts an empty one. */
  function Note(t: Trail, before: Client, after: Client): Trail {
    if after.tcp.epoch != before.tcp.epoch then Trail([], [])
    else if Active(before).None? && Active(after).Some? then t.(frames := t.frames + [Active(after).value.tx])
    else if Active(before).Some? && Active(after).None? then t.(replies := t.replies + [Ended(before, after)])
    else t
  }

  /** The step interrupts no exchange, and none fails or times out in it. */
  predicate Clean(c: Client, e: Event) {
    && Shaped(c)
    && (e.DoBegin? || e.DoConnect? || e.DoDisconnect? ==> Active(c).None?)
    && (e.DoAbort? && ValidHandle(c, e.handle) ==> !SlotBusy(c.slots[e.handle]))
    && !Step(c, e).msg.phase.Failed? && !Step(c, e).session.phase.Failed?
  }

  predicate WholeFrame(f: seq<byte>) {
    |f| >= HEADER_SIZE && |f| == HEADER_SIZE + HeaderOf(f).length
  }

  /** A reply to a message carries the context of its request. The session does not look at the
      context of its replies. */
  predicate Answers(frame: seq<byte>, reply: seq<byte>) {
    && |frame| >= HEADER_SIZE && |reply| >= HEADER_SIZE
    && (HeaderOf(frame).command == SEND_RR_DATA ==> HeaderOf(reply).context == HeaderOf(frame).context)
  }

  /** Whole frames and whole replies, the i-th reply answering the i-th frame. */
  predicate Matched(t: Trail) {
    && (forall f | f in t.frames :: WholeFrame(f)) && (forall r | r in t.replies :: WholeFrame(r))
    && |t.replies| <= |t.frames| && (forall i | 0 <= i < |t.replies| :: Answers(t.frames[i], t.replies[i]))
  }

  lemma MatchedFrame(t: Trail, frame: seq<byte>)
    requires Matched(t) && WholeFrame(frame)
    ensures Matched(t.(frames := t.frames + [frame]))
  {
    hide WholeFrame, Answers;
  }

  lemma MatchedReply(t: Trail, reply: seq<byte>)
    requires Matched(t) && |t.replies| < |t.frames| && WholeFrame(reply) && Answers(t.frames[|t.replies|], reply)
    ensures Matched(t.(replies := t.replies + [reply]))
  {
    hide WholeFrame, Answers;
  }

  /** The two streams of the current connection, accounted for. */
  predicate Accounted(t: Trail, c: Tcp, active: Option<Wire>) {
    && Matched(t)
    && match active
       case None => c.sent == Flatten(t.frames) && c.got == Flatten(t.replies) && |t.frames| == |t.replies|
       case Some(w) =>
         && w.sent <= |w.tx| && |t.frames| == |t.replies| + 1 && t.frames[|t.replies|] == w.tx
         && c.sent + w.tx[w.sent..] == Flatten(t.frames) && c.got == Flatten(t.replies) + w.rx
  }

  /** Accounted streams, and where in the connection's life each exchange may be under way. */
  ghost predicate Disciplined(t: Trail, c: Client) {
    && Inv(c)
    && Accounted(t, c.tcp, Active(c))
    && (Message.InFlight(c.msg) ==> c.state.Ready?)
    && (Session.Exchanging(c.session) ==> c.state.Registering? || c.state.Disconnecting? || c.state.Failed? || c.state.Idle?)
    && (forall f | f in c.frames :: !f.disconnected)
    && (Message.InFlight(c.msg) ==> GoodMessage(c.msg))
    && (Session.Exchanging(c.session) ==> GoodSession(c.session))
  }

  /** The request of a message in flight is one whole frame under the message's own context. */
  predicate GoodMessage(m: Msg) {
    WholeFrame(m.wire.tx) && HeaderOf(m.wire.tx).context == m.sentContext
  }

  /** The request of a session is one whole frame of another kind. */
  predicate GoodSession(s: Session.Session) {
    WholeFrame(s.wire.tx) && HeaderOf(s.wire.tx).command != SEND_RR_DATA
  }

  lemma SessionFramesAreGood(handle: u32, context: u64)
    ensures var f := Session.RegisterFrame(context); WholeFrame(f) && HeaderOf(f).command != SEND_RR_DATA
    ensures var f := Session.UnregisterFrame(handle, context); WholeFrame(f) && HeaderOf(f).command != SEND_RR_DATA
  {
    hide HeaderOf, HeaderBytes, LE16;
    var register, unregister := Header(REGISTER_SESSION, 4, 0, 0, context, 0), Header(UNREGISTER_SESSION, 0, handle, 0, context, 0);
    HeaderRoundTrip(register, LE16(1) + LE16(0));
    HeaderRoundTrip(unregister, []);
    assert Session.RegisterFrame(context) == HeaderBytes(register) + (LE16(1) + LE16(0));
    assert HeaderBytes(unregister) + [] == HeaderBytes(unregister);
  }

  // ---------------------------------------------------------------------------------------
  // One exchange moving on

  /** Taking bytes from the inbox into the reply keeps the consumed stream accounted for. */
  lemma ConsumedGrows(done: seq<byte>, rx: seq<byte>, inbox: seq<byte>, got: seq<byte>,
                      rx': seq<byte>, inbox': seq<byte>, got': seq<byte>)
    requires got == done + rx && got' + inbox' == got + inbox && rx' + inbox' == rx + inbox
    requires |rx'| + |got| == |got'| + |rx|
    ensures got' == done + rx'
  {
    assert got' + inbox' == (done + rx') + inbox' by {
      assert done + (rx + inbox) == (done + rx) + inbox;
      assert done + (rx' + inbox') == (done + rx') + inbox';
    }
    assert got' == (got' + inbox')[..|got'|];
    assert done + rx' == ((done + rx') + inbox')[..|done + rx'|];
  }

  /** An exchange that goes on, or ends with a whole reply, stays accounted for. */
  lemma AccountedAdvance(t: Trail, c: Tcp, w: Wire, c': Tcp, w': Wire)
    requires Accounted(t, c, Some(w))
    requires w'.tx == w.tx && w.sent <= w'.sent <= |w.tx|
    requires c'.sent == c.sent + w.tx[w.sent..w'.sent]
    requires w'.rx + c'.inbox == w.rx + c.inbox && c'.got + c'.inbox == c.got + c.inbox
    requires |w'.rx| + |c.got| == |c'.got| + |w.rx|
    ensures Accounted(t, c', Some(w'))
    ensures w'.sent == |w'.tx| && WholeFrame(w'.rx) && Answers(w.tx, w'.rx) ==>
              Accounted(t.(replies := t.replies + [w'.rx]), c', None)
  {
    hide WholeFrame, Answers, Matched;
    ConsumedGrows(Flatten(t.replies), w.rx, c.inbox, c.got, w'.rx, c'.inbox, c'.got);
    assert w.tx[w.sent..] == w.tx[w.sent..w'.sent] + w'.tx[w'.sent..];
    FlattenSnoc(t.replies, w'.rx);
    if w'.sent == |w'.tx| {
      assert w'.tx[w'.sent..] == [];
      assert c'.sent + w'.tx[w'.sent..] == c'.sent;
      if WholeFrame(w'.rx) && Answers(w.tx, w'.rx) {
        MatchedReply(t, w'.rx);
      }
    }
  }

  /** A frame just queued. */
  lemma AccountedStart(t: Trail, c: Tcp, frame: seq<byte>)
    requires Accounted(t, c, None) && WholeFrame(frame)
    ensures Accounted(t.(frames := t.frames + [frame]), c, Some(Queue(frame)))
  {
    hide WholeFrame, Answers, Matched;
    MatchedFrame(t, frame);
    FlattenSnoc(t.frames, frame);
    assert frame[0..] == frame;
    assert Flatten(t.replies) + [] == Flatten(t.replies);
  }

  lemma WholeFromFrameAt(stream: seq<byte>, limit: nat, frame: seq<byte>, rest: seq<byte>)
    requires FrameAt(stream, limit) == Whole(frame, rest)
    ensures WholeFrame(frame)
  {
    hide HeaderOf;
    HeaderLocal(stream, frame);
  }

  /** The tag message polled once. */
  lemma MessageAdvances(t: Trail, m: Msg, c: Tcp, now: nat)
    requires Message.MsgOk(m) && Message.InFlight(m) && GoodMessage(m) && Accounted(t, c, Some(m.wire))
    ensures var (m', c', st) := Message.PollMsg(m, c, now);
            && (Message.InFlight(m') ==> GoodMessage(m') && Accounted(t, c', Some(m'.wire)))
            && (m'.phase.Done? ==> Accounted(t.(replies := t.replies + [m'.wire.rx]), c', None))
            && (Message.InFlight(m') || m'.phase.Done? || m'.phase.Failed?)
  {
    hide Message.PollMsg, WholeFrame, FrameAt, Message.ReplyOf, HeaderOf;
    Message.PollKeeps(m, c, now);
    var (m', c', st) := Message.PollMsg(m, c, now);
    if m'.phase.Done? {
      Message.OkMeansAnswered(m, c, now);
      WholeFromFrameAt(m.wire.rx + c.inbox, Message.MAX_BODY, m'.wire.rx, c'.inbox);
      MessageIsAnswered(m, m'.wire.rx);
    }
    InFlightEnds(m, c, now);
    AccountedAdvance(t, c, m.wire, c', m'.wire);
  }

  lemma MessageIsAnswered(m: Msg, reply: seq<byte>)
    requires GoodMessage(m) && |reply| >= HEADER_SIZE && HeaderOf(reply).context == m.sentContext
    ensures Answers(m.wire.tx, reply)
  {
    hide HeaderOf;
  }

  lemma SessionIsAnswered(s: Session.Session, reply: seq<byte>)
    requires GoodSession(s) && WholeFrame(reply)
    ensures Answers(s.wire.tx, reply)
  {
    hide HeaderOf;
  }

  lemma InFlightEnds(m: Msg, c: Tcp, now: nat)
    requires Message.InFlight(m)
    ensures var m' := Message.PollMsg(m, c, now).0;
            Message.InFlight(m') || m'.phase.Done? || m'.phase.Failed?
  {
    hide Drain, Fill, Message.ParseReply;
  }

  /** The session polled once. */
  lemma SessionAdvances(t: Trail, s: Session.Session, c: Tcp, now: nat)
    requires Session.SessionOk(s) && Session.Exchanging(s) && GoodSession(s) && Accounted(t, c, Some(s.wire))
    ensures var (s', c', st) := Session.PollSession(s, c, now);
            && (Session.Exchanging(s') ==> GoodSession(s') && Accounted(t, c', Some(s'.wire)))
            && (!Session.Exchanging(s') && !s'.phase.Failed? ==> Accounted(t.(replies := t.replies + [s'.wire.rx]), c', None))
  {
    hide Session.PollSession, WholeFrame, FrameAt, HeaderOf;
    Session.SessionPollKeeps(s, c, now);
    var (s', c', st) := Session.PollSession(s, c, now);
    SessionEndsWhole(s, c, now);
    if WholeFrame(s'.wire.rx) {
      SessionIsAnswered(s, s'.wire.rx);
    }
    AccountedAdvance(t, c, s.wire, c', s'.wire);
  }

  /** A session exchange that ends without failing has sent its request and read one frame. */
  lemma SessionEndsWhole(s: Session.Session, c: Tcp, now: nat)
    requires Session.SessionOk(s) && Session.Exchanging(s)
    ensures var (s', c', _) := Session.PollSession(s, c, now);
            !Session.Exchanging(s') && !s'.phase.Failed? ==>
            s'.wire.sent == |s'.wire.tx| && WholeFrame(s'.wire.rx)
  {
    hide Drain, Fill, HeaderOf, WholeFrame, Session.GoodRegistration, FrameAt;
    DrainSends(s.wire, c);
    var (w, c1, st) := Drain(s.wire, c);
    var s' := Session.PollSession(s, c, now).0;
    if !Session.Exchanging(s') && !s'.phase.Failed? {
      FillConserves(w, c1, Session.MAX_SESSION_BODY);
      FillIsFragmentationFree(w, c1, Session.MAX_SESSION_BODY);
      var (w2, c2, st2) := Fill(w, c1, Session.MAX_SESSION_BODY);
      assert st == Ok && st2 == Ok;
      WholeFromFrameAt(w.rx + c1.inbox, Session.MAX_SESSION_BODY, w2.rx, c2.inbox);
    }
  }

  // ---------------------------------------------------------------------------------------
  // The slot loop polls the message at most once

  lemma {:induction false} QuietSlots(c: Client, i: nat, lost: bool, now: nat)
    requires Inv(c) && i <= |c.slots| && forall j | i <= j < |c.slots| :: !SlotBusy(c.slots[j])
    ensures var c' := RunSlots(c, i, lost, now).0;
            && c'.msg == c.msg
            && (!lost ==> c'.tcp == c.tcp && c'.session == c.session && c'.state == c.state)
            && (!lost && (forall f | f in c.frames :: !f.disconnected) ==> forall f | f in c'.frames :: !f.disconnected)
    decreases |c.slots| - i
  {
    hide Single, Fresh, Notified;
    if i < |c.slots| {
      if !c.slots[i].inUse {
        QuietSlots(c, i + 1, lost, now);
      } else {
        var (c1, st, fires) := PollSlot(c, i, now);
        PollSlotKeeps(c, i, now);
        assert c1.msg == c.msg && c1.tcp == c.tcp && st != Closed;
        if !fires {
          assert forall j | i + 1 <= j < |c1.slots| :: c1.slots[j] == c.slots[j];
          QuietSlots(c1, i + 1, lost, now);
        }
      }
    }
  }

  lemma {:induction false} SlotsPollOnce(c: Client, i: nat, now: nat)
    requires Inv(c) && i <= |c.slots| && forall f | f in c.frames :: !f.disconnected
    ensures var c' := RunSlots(c, i, false, now).0;
            var (m, tcp, _) := Message.PollMsg(c.msg, c.tcp, now);
            && (c'.msg == c.msg || (Message.InFlight(c.msg) && c'.msg == m))
            && (!c'.msg.phase.Failed? ==>
                  && c'.session == c.session && c'.state == c.state
                  && ((c'.msg == c.msg && c'.tcp == c.tcp) || (Message.InFlight(c.msg) && c'.msg == m && c'.tcp == tcp))
                  && forall f | f in c'.frames :: !f.disconnected)
    decreases |c.slots| - i
  {
    hide Message.PollMsg, Tags.Loaded, Fresh, Notified;
    if i < |c.slots| {
      if !c.slots[i].inUse {
        SlotsPollOnce(c, i + 1, now);
      } else {
        var (c1, st, fires) := PollSlot(c, i, now);
        PollSlotKeeps(c, i, now);
        if SlotBusy(c.slots[i]) {
          assert BusyAt(c.slots, i);
          Message.PollKeeps(c.msg, c.tcp, now);
          InFlightEnds(c.msg, c.tcp, now);
          if !fires {
            forall j | i + 1 <= j < |c1.slots|
              ensures !SlotBusy(c1.slots[j])
            {
              assert c1.slots[j] == c.slots[j];
              assert BusyAt(c.slots, j) ==> j == i;
            }
            QuietSlots(c1, i + 1, st == Closed, now);
          }
        } else {
          assert c1.msg == c.msg && c1.tcp == c.tcp && st != Closed;
          if !fires {
            SlotsPollOnce(c1, i + 1, now);
          }
        }
      }
    }
  }

  // ---------------------------------------------------------------------------------------
  // Steps

  lemma AccountedIgnoresLinkAndScript(t: Trail, c: Tcp, c': Tcp, active: Option<Wire>)
    requires Accounted(t, c, active) && c'.sent == c.sent && c'.got == c.got
    ensures Accounted(t, c', active)
  {
  }

  lemma InFlightIsActive(t: Trail, c: Client)
    requires Disciplined(t, c) && Message.InFlight(c.msg)
    ensures Message.MsgOk(c.msg) && GoodMessage(c.msg) && Active(c) == Some(c.msg.wire) && Accounted(t, c.tcp, Some(c.msg.wire))
  {
    hide Accounted, Notified;
  }

  lemma RunSlotsDisciplined(t: Trail, c: Client, i: nat, now: nat)
    requires Disciplined(t, c) && i <= |c.slots|
    requires var c' := RunSlots(c, i, false, now).0; !c'.msg.phase.Failed? && !c'.session.phase.Failed?
    ensures var c' := RunSlots(c, i, false, now).0; Disciplined(Note(t, c, c'), c')
  {
    hide Message.PollMsg, RunSlots, Accounted, Single, Notified;
    SlotsPollOnce(c, i, now);
    RunSlotsKeeps(c, i, false, now);
    if Message.InFlight(c.msg) {
      InFlightIsActive(t, c);
      MessageAdvances(t, c.msg, c.tcp, now);
      Message.PollKeeps(c.msg, c.tcp, now);
    }
  }

  lemma PollDisciplined(t: Trail, c: Client, env: Env)
    requires Disciplined(t, c) && Clean(c, DoPoll(env))
    ensures var c' := Poll(c, env).0; Disciplined(Note(t, c, c'), c')
  {
    hide RunSlots, Accounted, Single, Notified, Session.PollSession, Session.OpenSession, Fresh;
    var c0 := c.(tcp := c.tcp.(script := env.script));
    ClientRuns.PollKeeps(c, env);
    AccountedIgnoresLinkAndScript(t, c.tcp, c0.tcp, Active(c));
    FramesDoNotMatter(c, c.frames, env.script);
    assert c.(frames := c.frames, tcp := c.tcp.(script := env.script)) == c0;
    match c.state
    case Ethernet => EthernetDisciplined(t, c0, env);
    case Connecting => ConnectingDisciplined(t, c0, env);
    case Registering => RegisteringDisciplined(t, c0, env);
    case Ready => RunSlotsDisciplined(t, c0, 0, env.t0);
    case Disconnecting => DisconnectingDisciplined(t, c0, env);
    case Failed =>
    case Idle =>
  }

  lemma DialledDisciplined(t: Trail, c: Client, refusal: Option<Status>, now: nat)
    requires Accounted(t, c.tcp, None) && Active(c).None?
    ensures var c' := Dialled(c, refusal, now).0;
            && Active(c').None? && Accounted(Note(t, c, c'), c'.tcp, None)
  {
  }

  lemma EthernetDisciplined(t: Trail, c: Client, env: Env)
    requires Disciplined(t, c) && c.state.Ethernet? && Inv(PollEthernet(c, env).0)
    ensures var c' := PollEthernet(c, env).0; Disciplined(Note(t, c, c'), c')
  {
    hide Accounted, Single, Notified, GoodMessage, GoodSession;
    DialledDisciplined(t, c, env.refusal, env.t0);
    var c1 := c.(eth := EthPoll(c.eth, env.linkUp).0, wantConnect := false);
    DialledDisciplined(t, c1, env.refusal, env.t0);
  }

  lemma ConnectingDisciplined(t: Trail, c: Client, env: Env)
    requires Disciplined(t, c) && c.state.Connecting? && Inv(PollConnecting(c, env).0)
    ensures var c' := PollConnecting(c, env).0; Disciplined(Note(t, c, c'), c')
  {
    hide Accounted, Single, Notified, Session.RegisterFrame, WholeFrame, HeaderOf;
    var c' := PollConnecting(c, env).0;
    AccountedIgnoresLinkAndScript(t, c.tcp, c'.tcp, None);
    SessionFramesAreGood(0, c.session.context);
    AccountedStart(t, c'.tcp, Session.RegisterFrame(c.session.context));
  }

  lemma RegisteringDisciplined(t: Trail, c: Client, env: Env)
    requires Disciplined(t, c) && c.state.Registering? && Inv(PollRegistering(c, env).0)
    requires !PollRegistering(c, env).0.session.phase.Failed?
    ensures var c' := PollRegistering(c, env).0; Disciplined(Note(t, c, c'), c')
  {
    hide Accounted, Single, Notified, Session.PollSession;
    Session.SessionPollKeeps(c.session, c.tcp, env.t1);
    if Session.Exchanging(c.session) {
      SessionAdvances(t, c.session, c.tcp, env.t1);
    }
  }

  lemma DisconnectingDisciplined(t: Trail, c: Client, env: Env)
    requires Disciplined(t, c) && c.state.Disconnecting? && Inv(PollDisconnecting(c, env).0)
    requires !PollDisconnecting(c, env).0.session.phase.Failed?
    ensures var c' := PollDisconnecting(c, env).0; Disciplined(Note(t, c, c'), c')
  {
    hide Accounted, Single, Notified, Session.PollSession;
    Session.SessionPollKeeps(c.session, c.tcp, env.t0);
    if Session.Exchanging(c.session) {
      SessionAdvances(t, c.session, c.tcp, env.t0);
    }
    var c' := PollDisconnecting(c, env).0;
    var polled := Session.PollSession(c.session, c.tcp, env.t0).1;
    if Accounted(Note(t, c, c'), polled, Active(c')) {
      AccountedIgnoresLinkAndScript(Note(t, c, c'), polled, c'.tcp, Active(c'));
    }
  }

  /** Steps that touch neither stream nor either exchange. */
  lemma QuietStepDisciplined(t: Trail, c: Client, c': Client)
    requires Disciplined(t, c) && Inv(c')
    requires c'.msg == c.msg && c'.session == c.session && c'.frames == c.frames
    requires c'.tcp.sent == c.tcp.sent && c'.tcp.got == c.tcp.got && c'.tcp.epoch == c.tcp.epoch
    requires c'.state == c.state || Active(c).None?
    ensures Disciplined(Note(t, c, c'), c')
  {
    hide Inv, WholeFrame;
  }

  lemma ConnectDisciplined(t: Trail, c: Client, e: Event)
    requires Disciplined(t, c) && Clean(c, e) && e.DoConnect? && Inv(Step(c, e))
    ensures Disciplined(Note(t, c, Step(c, e)), Step(c, e))
  {
    hide Accounted, Single, Notified, GoodMessage, GoodSession;
    var c1 := c.(connectTimeout := e.timeout, wantConnect := false, session := Session.AbortSession(c.session), tcp := TcpClose(c.tcp));
    AccountedIgnoresLinkAndScript(t, c.tcp, c1.tcp, None);
    DialledDisciplined(t, c1, e.refusal, e.now);
  }

  lemma DisconnectDisciplined(t: Trail, c: Client)
    requires Disciplined(t, c) && Active(c).None? && Inv(Disconnect(c).0)
    ensures Disciplined(Note(t, c, Disconnect(c).0), Disconnect(c).0)
  {
    hide Accounted, Single, Notified, Session.UnregisterFrame, WholeFrame, HeaderOf;
    SessionFramesAreGood(c.session.handle, c.session.context);
    AccountedStart(t, c.tcp, Session.UnregisterFrame(c.session.handle, c.session.context));
    AccountedIgnoresLinkAndScript(t, c.tcp, TcpClose(c.tcp), None);
  }

  /** A message that just started has its whole frame queued. */
  predicate JustQueued(m: Msg) {
    m.wire == Queue(m.wire.tx) && GoodMessage(m)
  }

  lemma StartedIsQueued(c: Client, h: int, timeout: u32, now: nat)
    requires Shaped(c)
    ensures Read(c, h, timeout, now).1 == Pending ==> JustQueued(Read(c, h, timeout, now).0.msg)
    ensures Write(c, h, timeout, now).1 == Pending ==> JustQueued(Write(c, h, timeout, now).0.msg)
  {
    hide Message.RequestFrame, Message.CipRequest, Message.RoutedCip, Tags.WriteLength, GoodMessage, Tags.SendVia;
    if Refusal(c, h).None? {
      var s := c.slots[h];
      SentIsQueued(c.msg, c.tcp, c.session.handle, c.cpuSlot, Cip.READ_TAG, Cip.SymbolicPath(s.name),
                   Tags.ReadData(s.count), timeout, now);
      if Tags.WriteLength(s.tag, s.count).Some? {
        SentIsQueued(c.msg, c.tcp, c.session.handle, c.cpuSlot, Cip.WRITE_TAG, Cip.SymbolicPath(s.name),
                     Tags.WriteData(s.tag, s.count, Tags.WriteLength(s.tag, s.count).value), timeout, now);
      }
    }
  }

  lemma SentIsQueued(m: Msg, c: Tcp, session: u32, slot: u8, service: u8, path: seq<byte>, data: seq<byte>,
                     timeout: u32, now: nat)
    ensures var (m', st) := Tags.SendVia(m, c, session, slot, service, path, data, timeout, now);
            st == Pending ==> JustQueued(m')
  {
    hide Message.RequestFrame, Message.CipRequest, Message.RoutedCip, HeaderOf, HeaderBytes;
    var cip, rest := StartedFrame(m, c, session, slot, service, path, data, timeout, now);
    HeaderRoundTrip(Message.RequestHeader(session, m.context, |cip|), rest);
    Message.RequestFrameLength(session, m.context, cip);
  }

  lemma LaunchDisciplined(t: Trail, c: Client, c': Client, st: Status)
    requires Disciplined(t, c) && Inv(c') && c.state.Ready?
    requires c' == c.(slots := c'.slots, msg := c'.msg, ops := c'.ops)
    requires st != Pending ==> c'.msg == c.msg
    requires st == Pending ==> !Message.InFlight(c.msg) && Message.InFlight(c'.msg) && JustQueued(c'.msg)
    ensures Disciplined(Note(t, c, c'), c')
  {
    hide Accounted, Single, Notified, WholeFrame, HeaderOf, GoodSession;
    if st == Pending {
      AccountedStart(t, c.tcp, c'.msg.wire.tx);
    }
  }

  lemma ReadWriteDisciplined(t: Trail, c: Client, h: int, timeout: u32, now: nat)
    requires Disciplined(t, c)
    ensures var c' := Read(c, h, timeout, now).0; Disciplined(Note(t, c, c'), c')
    ensures var c' := Write(c, h, timeout, now).0; Disciplined(Note(t, c, c'), c')
  {
    hide Tags.ReadTag, Tags.WriteTag, Accounted, Notified, Fresh;
    ReadKeeps(c, h, timeout, now);
    WriteKeeps(c, h, timeout, now);
    StartedIsQueued(c, h, timeout, now);
    if Refusal(c, h).None? {
      var s := c.slots[h];
      ReadStartsOrNothing(s.tag, c.msg, c.tcp, c.session.handle, s.name, s.count, timeout, c.cpuSlot, now);
      WriteStartsOrNothing(s.tag, c.msg, c.tcp, c.session.handle, s.name, s.count, timeout, c.cpuSlot, now);
      LaunchDisciplined(t, c, Read(c, h, timeout, now).0, Read(c, h, timeout, now).1);
      LaunchDisciplined(t, c, Write(c, h, timeout, now).0, Write(c, h, timeout, now).1);
    }
  }

  lemma ResumeDisciplined(t: Trail, c: Client, env: Env)
    requires Disciplined(t, c) && Clean(c, DoResume(env))
    ensures var c' := Resume(c, env).0; Disciplined(Note(t, c, c'), c')
  {
    hide RunSlots, Accounted, Single, Notified, Fresh;
    if c.frames != [] {
      var frames := c.frames[..|c.frames| - 1];
      assert forall f | f in frames :: f in c.frames;
      var f := c.frames[|c.frames| - 1];
      assert f in c.frames;
      FramesDoNotMatter(c, frames, env.script);
      var c0 := c.(frames := frames, tcp := c.tcp.(script := env.script));
      AccountedIgnoresLinkAndScript(t, c.tcp, c0.tcp, Active(c));
      RunSlotsDisciplined(t, c0, f.next, env.t0);
    }
  }

  lemma StepDisciplined(t: Trail, c: Client, e: Event)
    requires Disciplined(t, c) && Clean(c, e)
    ensures Disciplined(Note(t, c, Step(c, e)), Step(c, e))
  {
    hide Poll, Resume, Read, Write, Connect, Disconnect, Accounted, Single, Notified, Fresh;
    StepKeeps(c, e);
    match e
    case DoConnect(_, _, _) => ConnectDisciplined(t, c, e);
    case DoDisconnect => DisconnectDisciplined(t, c);
    case DoPoll(env) => PollDisciplined(t, c, env);
    case DoResume(env) => ResumeDisciplined(t, c, env);
    case DoRead(h, timeout, now) => ReadWriteDisciplined(t, c, h, timeout, now);
    case DoWrite(h, timeout, now) => ReadWriteDisciplined(t, c, h, timeout, now);
    case _ => QuietStepDisciplined(t, c, Step(c, e));
  }

  // ---------------------------------------------------------------------------------------
  // Runs

  predicate CleanRun(n: nat, data: seq<byte>, es: seq<Event>)
    requires |data| == Tags.MAX_DATA
  {
    forall k | 0 <= k < |es| :: Clean(Run(n, data, es[..k]), es[k])
  }

  function TrailOf(n: nat, data: seq<byte>, es: seq<Event>): Trail
    requires |data| == Tags.MAX_DATA
  {
    if es == [] then Trail([], [])
    else
      var before := es[..|es| - 1];
      Note(TrailOf(n, data, before), Run(n, data, before), Run(n, data, es))
  }

  lemma {:induction false} CleanRunsAreDisciplined(n: nat, data: seq<byte>, es: seq<Event>)
    requires |data| == Tags.MAX_DATA && CleanRun(n, data, es)
    ensures Disciplined(TrailOf(n, data, es), Run(n, data, es))
  {
    hide Step, Note, Inv, Clean;
    if es == [] {
      RunKeeps(n, data, es);
      assert Accounted(Trail([], []), Run(n, data, es).tcp, None);
    } else {
      var before := es[..|es| - 1];
      forall k | 0 <= k < |before|
        ensures Clean(Run(n, data, before[..k]), before[k])
      {
        assert before[..k] == es[..k] && before[k] == es[k];
      }
      CleanRunsAreDisciplined(n, data, before);
      StepDisciplined(TrailOf(n, data, before), Run(n, data, before), es[|es| - 1]);
    }
  }

  /** Over every clean run the outbound stream of the connection is the frames started, in
      order, less the part of the last one not yet sent; the consumed inbound stream is one
      whole reply frame for each finished exchange, in order, and then the part received of
      the reply in progress. */
  lemma WholeRunStreamDiscipline(n: nat, data: seq<byte>, es: seq<Event>)
    requires |data| == Tags.MAX_DATA && CleanRun(n, data, es)
    ensures var c := Run(n, data, es);
            var t := TrailOf(n, data, es);
            && Matched(t)
            && match Active(c)
               case None =>
                 c.tcp.sent == Flatten(t.frames) && c.tcp.got == Flatten(t.replies) && |t.frames| == |t.replies|
               case Some(w) =>
                 && w.sent <= |w.tx| && |t.frames| == |t.replies| + 1
                 && c.tcp.sent + w.tx[w.sent..] == Flatten(t.frames)
                 && c.tcp.got == Flatten(t.replies) + w.rx
  {
    CleanRunsAreDisciplined(n, data, es);
  }
}
