/**
 Bringing a client up against the peer, over every interleaving of client polls and peer turns,
 every time the dial takes and every fragmentation of the two byte streams.
 */
module Connecting {
  import opened Bytes
  import opened Status
  import opened Encapsulation
  import opened Stream
  import opened Framing
  import opened Courier
  import opened Client
  import opened ClientRuns
  import opened Exchange
  import opened SessionExchange
  import opened Lifecycle
  import Session
  import Server
  import Tags

  /** Still connecting or registering. */
  predicate ComingUp(c: Client) {
    c.state.Connecting? || c.state.Registering?
  }

  /** Beats up to the outcome; after it they change nothing. */
  function ComeUp(w: Scene, ts: seq<Beat>): Scene {
    if ts == [] then w
    else
      var before := ComeUp(w, ts[..|ts| - 1]);
      if ComingUp(before.c) then Act(before, ts[|ts| - 1]) else before
  }

  /** Only the peer sends anything, the line is calm and the dial does not fail. */
  predicate Willing(t: Beat) {
    !t.Arrival? && (t.PollTurn? ==> Calm(t.env.script) && (t.env.dial.StillTrying? || t.env.dial.Made?))
  }

  /** The poll finds a deadline passed: the client's, or the session's while registering. */
  predicate TooLate(c: Client, env: Env) {
    Expired(Ticks(env.t0), c.deadline) || (c.state.Registering? && Expired(Ticks(env.t1), c.session.deadline))
  }

  // ---------------------------------------------------------------------------------------
  // Where a connect stands

  /** The visit a registration makes on a new connection. */
  function Greeting(context: u64, epoch: nat, s: Server.Server): Visit {
    var frame := Session.RegisterFrame(context);
    var (after, response) := Server.HandleFrame(s, frame);
    Visit(Errand(frame, BytesOf(response), Tcp(Up, epoch, [], [], [], []), Session.MAX_SESSION_BODY), s, after, response)
  }

  ghost predicate Welcoming(x: Visit) {
    && VisitOk(x) && x.errand.limit == Session.MAX_SESSION_BODY && x.after == x.before && x.response.Frame?
    && FrameAt(x.errand.reply, x.errand.limit) == Whole(x.errand.reply, [])
    && Session.GoodRegistration(x.errand.reply) && HeaderOf(x.errand.reply).session == Server.SESSION_HANDLE
  }

  lemma WelcomingIsOk(x: Visit)
    requires Welcoming(x)
    ensures VisitOk(x)
  {
  }

  lemma GreetingIsOk(context: u64, epoch: nat, s: Server.Server)
    requires s.read == 0 && !s.down
    ensures Welcoming(Greeting(context, epoch, s)) && |Greeting(context, epoch, s).errand.frame| == HEADER_SIZE + 4
    ensures Underway(Greeting(context, epoch, s).errand, Queue(Session.RegisterFrame(context)),
                     Greeting(context, epoch, s).errand.from, false)
  {
    hide Server.HandleFrame, Session.RegisterFrame, FrameAt, HeaderOf, Session.GoodRegistration;
    PeerRegisters(s, context);
    VisitStarts(s, Session.RegisterFrame(context));
    QueuedUnderway(Greeting(context, epoch, s).errand);
  }

  /** Dialling a new connection, with the session put away. */
  ghost predicate Dialling(x: Visit, context: u64, deadline: u32, w: Scene) {
    && Inv(w.c) && w.c.state.Connecting? && w.c.deadline == deadline
    && w.c.tcp.link.Dialing? && w.c.tcp.epoch == x.errand.from.epoch && w.c.tcp.sent == [] && w.c.tcp.inbox == []
    && w.c.session.phase.Closed? && w.c.session.context == context && w.s == x.before
  }

  /** The registration on its way, or served and its answer on the way. */
  ghost predicate Registering(x: Visit, deadline: u32, w: Scene, served: bool) {
    && Inv(w.c) && w.c.state.Registering? && w.c.deadline == deadline && w.c.session.phase.Registering?
    && w.s == PeerAt(x, served) && Underway(x.errand, w.c.session.wire, w.c.tcp, served)
  }

  /** Up, with the peer's handle, on the new connection. */
  ghost predicate Arrived(x: Visit, w: Scene) {
    && Inv(w.c) && w.c.state.Ready? && w.c.session.handle == Server.SESSION_HANDLE
    && w.c.tcp.epoch == x.errand.from.epoch && Aligned(w.c.tcp, w.s)
  }

  ghost predicate OnTheWay(x: Visit, context: u64, deadline: u32, w: Scene) {
    || Dialling(x, context, deadline, w)
    || Registering(x, deadline, w, false) || Registering(x, deadline, w, true)
  }

  // ---------------------------------------------------------------------------------------
  // One beat

  /** The registration leaves nothing waiting and nothing unread. */
  lemma OverIsAligned(x: Visit, w: Wire, c: Tcp)
    requires Welcoming(x) && Over(x.errand, w, c)
    ensures Aligned(c, PeerAt(x, true))
  {
    hide FrameAt, HeaderOf, Session.GoodRegistration, Delimited, Handles;
  }

  /** The deadline the session gets when the dial is made. */
  function Handed(deadline: u32, env: Env): u32 {
    Add32(Ticks(env.t2), Sub32(deadline, Ticks(env.t1)))
  }

  lemma DiallingPoll(x: Visit, context: u64, deadline: u32, w: Scene, env: Env)
    requires Dialling(x, context, deadline, w) && Willing(PollTurn(env)) && VisitOk(x) && x.before.read == 0
    requires Underway(x.errand, Queue(Session.RegisterFrame(context)), x.errand.from, false)
    ensures var w' := Act(w, PollTurn(env));
            if TooLate(w.c, env) then w'.c.state.Failed?
            else
              && (env.dial.Made? ==> Registering(x, deadline, w', false) && w'.c.session.deadline == Handed(deadline, env))
              && (env.dial.StillTrying? ==> Dialling(x, context, deadline, w'))
  {
    hide Single, Notified, Session.RegisterFrame, Expired, ReceiveOk, FrameAt, Server.HandleFrame;
    StepKeeps(w.c, DoPoll(env));
  }

  /** A poll while registering is a poll of the session. */
  lemma RegisteringPoll(c: Client, env: Env)
    requires Inv(c) && c.state.Registering? && c.session.phase.Registering?
    ensures var c' := Step(c, DoPoll(env));
            var (session, tcp, st) := Session.PollSession(c.session, c.tcp.(script := env.script), env.t1);
            && Inv(c') && c'.deadline == c.deadline
            && (TooLate(c, env) ==> c'.state.Failed?)
            && (!TooLate(c, env) ==>
                  && c'.session == session && c'.tcp == tcp
                  && (st == Ok ==> c'.state.Ready?) && (st == Pending ==> c'.state.Registering?))
  {
    hide Session.PollSession, Single, Notified, Fresh, Expired;
    StepKeeps(c, DoPoll(env));
    if Expired(Ticks(env.t1), c.session.deadline) {
      LateSession(c.session, c.tcp.(script := env.script), env.t1);
    }
  }

  lemma RegisteringTurn(x: Visit, deadline: u32, w: Scene, served: bool, env: Env)
    requires Registering(x, deadline, w, served) && Willing(PollTurn(env)) && Welcoming(x)
    ensures var w' := Act(w, PollTurn(env));
            if TooLate(w.c, env) then w'.c.state.Failed?
            else Registering(x, deadline, w', served) || (served && Arrived(x, w'))
  {
    hide Session.PollSession, Pump, Inv, Step, PeerAt, Expired, ReceiveOk, FrameAt, HeaderOf, VisitOk;
    var tcp := w.c.tcp.(script := env.script);
    assert Underway(x.errand, w.c.session.wire, tcp, served);
    RegisteringPoll(w.c, env);
    if !TooLate(w.c, env) {
      PumpUnderway(x.errand, w.c.session.wire, tcp, served);
      var (wire, tcp1, _) := Pump(w.c.session.wire, tcp, Session.MAX_SESSION_BODY);
      if served && Over(x.errand, wire, tcp1) {
        OverIsAligned(x, wire, tcp1);
      }
      SessionIsOk(w.c);
      SessionPollIsPump(w.c.session, tcp, env.t1);
    }
  }

  lemma RegisteringServed(x: Visit, deadline: u32, w: Scene, served: bool)
    requires Registering(x, deadline, w, served) && VisitOk(x)
    ensures Registering(x, deadline, Act(w, ServerTurn), served || w.c.session.wire.sent == |x.errand.frame|)
  {
    hide Server.Serve, VisitOk, Underway, Inv, PeerAt;
    OtherBeatsKeep(w, ServerTurn);
    ServeUnderway(x, w.c.session.wire, w.c.tcp, served);
  }

  /** Before anything is sent the peer has nothing to do. */
  lemma DiallingServed(x: Visit, context: u64, deadline: u32, w: Scene)
    requires Dialling(x, context, deadline, w) && x.before.read == 0
    ensures Act(w, ServerTurn) == w
  {
    hide Inv;
    NothingIsShort(0xFFFF);
    assert w.c.tcp.sent[0..] == [];
  }

  lemma OneBeat(x: Visit, context: u64, deadline: u32, w: Scene, t: Beat)
    requires OnTheWay(x, context, deadline, w) && Willing(t) && Welcoming(x) && x.before.read == 0
    requires Underway(x.errand, Queue(Session.RegisterFrame(context)), x.errand.from, false)
    ensures ComingUp(w.c)
    ensures var w' := Act(w, t);
            if t.PollTurn? && TooLate(w.c, t.env) then w'.c.state.Failed?
            else OnTheWay(x, context, deadline, w') || Arrived(x, w')
  {
    hide Act, Inv, TooLate, Underway, Session.RegisterFrame, Arrived;
    if Dialling(x, context, deadline, w) {
      if t.PollTurn? {
        DiallingPoll(x, context, deadline, w, t.env);
      } else {
        DiallingServed(x, context, deadline, w);
      }
    } else if t.PollTurn? {
      RegisteringTurn(x, deadline, w, Registering(x, deadline, w, true), t.env);
    } else {
      RegisteringServed(x, deadline, w, Registering(x, deadline, w, true));
    }
  }

  // ---------------------------------------------------------------------------------------
  // Whole connects

  lemma {:induction false} ComeUpRun(x: Visit, context: u64, deadline: u32, w: Scene, ts: seq<Beat>)
    requires OnTheWay(x, context, deadline, w) && Welcoming(x) && x.before.read == 0
    requires Underway(x.errand, Queue(Session.RegisterFrame(context)), x.errand.from, false)
    requires forall i | 0 <= i < |ts| :: Willing(ts[i])
    ensures var end := ComeUp(w, ts);
            if exists i :: 0 <= i < |ts| && ts[i].PollTurn? && ComingUp(ComeUp(w, ts[..i]).c) && TooLate(ComeUp(w, ts[..i]).c, ts[i].env)
            then end.c.state.Failed?
            else OnTheWay(x, context, deadline, end) || Arrived(x, end)
  {
    hide Act, TooLate, Underway, Session.RegisterFrame, Arrived, OnTheWay, Welcoming, Willing;
    if ts != [] {
      var n := |ts| - 1;
      ComeUpRun(x, context, deadline, w, ts[..n]);
      assert forall i | 0 <= i < n :: ts[..n][..i] == ts[..i] && ts[..n][i] == ts[i];
      var mid := ComeUp(w, ts[..n]);
      if exists i :: 0 <= i < n && ts[i].PollTurn? && ComingUp(ComeUp(w, ts[..i]).c) && TooLate(ComeUp(w, ts[..i]).c, ts[i].env) {
        var i :| 0 <= i < n && ts[i].PollTurn? && ComingUp(ComeUp(w, ts[..i]).c) && TooLate(ComeUp(w, ts[..i]).c, ts[i].env);
        assert ts[..n][i].PollTurn? && ComingUp(ComeUp(w, ts[..n][..i]).c) && TooLate(ComeUp(w, ts[..n][..i]).c, ts[..n][i].env);
      } else {
        if OnTheWay(x, context, deadline, mid) {
          OneBeat(x, context, deadline, mid, ts[n]);
        } else {
          ArrivedIsUp(x, mid);
        }
      }
    }
  }

  lemma ArrivedIsUp(x: Visit, w: Scene)
    requires Arrived(x, w)
    ensures w.c.state.Ready? && !ComingUp(w.c)
  {
    hide Inv;
  }

  lemma Dials(c: Client, s: Server.Server, timeout: u32, now: nat)
    requires Inv(c) && c.eth.ready && s.read == 0 && !s.down
    ensures var w := Scene(Connect(c, timeout, None, now).0, s);
            Dialling(Greeting(c.session.context, c.tcp.epoch + 1, s), c.session.context, Add32(Ticks(now), timeout), w)
  {
    hide Single, Notified, Server.HandleFrame, Session.RegisterFrame;
    StepKeeps(c, DoConnect(timeout, None, now));
    assert Step(c, DoConnect(timeout, None, now)) == Connect(c, timeout, None, now).0;
  }

  /** From any client with the Ethernet up, over any sequence of polls and peer turns, however
      long the dial takes and however the streams are cut up: the connect fails exactly when
      some poll finds a deadline passed before it is up. Otherwise it is Ready, with the peer's
      handle on the new connection and both ends agreeing on where the next frame starts, or
      still on its way. */
  lemma ConnectFailsExactlyWhenLate(c: Client, s: Server.Server, timeout: u32, now: nat, ts: seq<Beat>)
    requires Inv(c) && c.eth.ready && s.read == 0 && !s.down
    requires forall i | 0 <= i < |ts| :: Willing(ts[i])
    ensures var w := Scene(Connect(c, timeout, None, now).0, s);
            var peer, end := ComeUp(w, ts).s, ComeUp(w, ts).c;
            && (end.state.Failed? <==>
                  exists i :: 0 <= i < |ts| && ts[i].PollTurn? && ComingUp(ComeUp(w, ts[..i]).c)
                              && TooLate(ComeUp(w, ts[..i]).c, ts[i].env))
            && (end.state.Ready? ==>
                  end.session.handle == Server.SESSION_HANDLE && end.tcp.epoch == c.tcp.epoch + 1 && Aligned(end.tcp, peer))
            && (end.state.Failed? || end.state.Ready? || ComingUp(end))
  {
    hide Inv, Act, TooLate, Underway, Session.RegisterFrame, Welcoming, Willing, Connect;
    var x := Greeting(c.session.context, c.tcp.epoch + 1, s);
    GreetingIsOk(c.session.context, c.tcp.epoch + 1, s);
    Dials(c, s, timeout, now);
    ComeUpRun(x, c.session.context, Add32(Ticks(now), timeout), Scene(Connect(c, timeout, None, now).0, s), ts);
  }

  /** Nothing gets a connect stuck: from wherever it stands, four beats with no deadline passed
      and a line that moves make it Ready. */
  lemma ConnectCanFinish(c: Client, s: Server.Server, timeout: u32, now: nat, ts: seq<Beat>,
                         dialled: Env, send: Env, read: Env, k: nat)
    requires Inv(c) && c.eth.ready && s.read == 0 && !s.down
    requires forall i | 0 <= i < |ts| :: Willing(ts[i])
    requires Willing(PollTurn(dialled)) && dialled.dial.Made?
    requires Willing(PollTurn(send)) && Willing(PollTurn(read))
    requires send.script == [Move(k)] && read.script == [Move(k), Move(k)] && k >= HEADER_SIZE + Session.MAX_SESSION_BODY
    ensures var w := Scene(Connect(c, timeout, None, now).0, s);
            var end := ComeUp(w, ts);
            var e1 := Act(end, PollTurn(dialled));
            var e2 := Act(e1, PollTurn(send));
            var e3 := Act(e2, ServerTurn);
            ComingUp(end.c) && !TooLate(end.c, dialled) && (e1.c.state.Registering? ==> !TooLate(e1.c, send))
            && (e2.c.state.Registering? ==> !TooLate(e3.c, read)) ==>
              || e1.c.state.Ready? || e2.c.state.Ready? || Act(e3, PollTurn(read)).c.state.Ready?
  {
    hide Inv, Act, TooLate, Underway, Session.RegisterFrame, Willing, Connect, Registering, Welcoming;
    var x := Greeting(c.session.context, c.tcp.epoch + 1, s);
    var context, deadline := c.session.context, Add32(Ticks(now), timeout);
    GreetingIsOk(context, c.tcp.epoch + 1, s);
    Dials(c, s, timeout, now);
    var w := Scene(Connect(c, timeout, None, now).0, s);
    ComeUpRun(x, context, deadline, w, ts);
    var end := ComeUp(w, ts);
    var e1 := Act(end, PollTurn(dialled));
    var e2 := Act(e1, PollTurn(send));
    if ComingUp(end.c) && !TooLate(end.c, dialled) && (e1.c.state.Registering? ==> !TooLate(e1.c, send))
       && (e2.c.state.Registering? ==> !TooLate(Act(e2, ServerTurn).c, read)) && !e1.c.state.Ready? && !e2.c.state.Ready? {
      FinishDials(x, context, deadline, end, dialled);
      RegisteringIsState(x, deadline, e1);
      FinishSends(x, deadline, e1, Registering(x, deadline, e1, true), send, k);
      RegisteringIsState(x, deadline, e2);
      WelcomingIsOk(x);
      RegisteringServed(x, deadline, e2, Registering(x, deadline, e2, true));
      FinishReads(x, deadline, Act(e2, ServerTurn), read, k);
      ArrivedIsUp(x, Act(Act(e2, ServerTurn), PollTurn(read)));
    }
  }

  lemma RegisteringIsState(x: Visit, deadline: u32, w: Scene)
    requires Registering(x, deadline, w, false) || Registering(x, deadline, w, true)
    ensures w.c.state.Registering?
  {
    hide Inv, Underway;
  }

  lemma FinishDials(x: Visit, context: u64, deadline: u32, w: Scene, env: Env)
    requires OnTheWay(x, context, deadline, w) && Willing(PollTurn(env)) && env.dial.Made? && Welcoming(x)
    requires Underway(x.errand, Queue(Session.RegisterFrame(context)), x.errand.from, false) && x.before.read == 0
    requires !TooLate(w.c, env) && !Act(w, PollTurn(env)).c.state.Ready?
    ensures var w' := Act(w, PollTurn(env)); Registering(x, deadline, w', false) || Registering(x, deadline, w', true)
  {
    hide Act, Inv, TooLate, Underway, Session.RegisterFrame, Dialling, Registering, Willing, Welcoming;
    WelcomingIsOk(x);
    if Dialling(x, context, deadline, w) {
      DiallingPoll(x, context, deadline, w, env);
    } else {
      RegisteringTurn(x, deadline, w, Registering(x, deadline, w, true), env);
    }
  }

  lemma FinishSends(x: Visit, deadline: u32, w: Scene, served: bool, env: Env, k: nat)
    requires Registering(x, deadline, w, served) && Willing(PollTurn(env)) && Welcoming(x)
    requires env.script == [Move(k)] && k >= |x.errand.frame|
    requires !TooLate(w.c, env) && !Act(w, PollTurn(env)).c.state.Ready?
    ensures var w' := Act(w, PollTurn(env));
            && Registering(x, deadline, w', served) && w'.c.session.wire.sent == |x.errand.frame|
            && w'.c.session.deadline == w.c.session.deadline
  {
    hide Session.PollSession, Pump, Inv, Step, PeerAt, Expired, ReceiveOk, FrameAt, HeaderOf, VisitOk;
    var tcp := w.c.tcp.(script := env.script);
    RegisteringTurn(x, deadline, w, served, env);
    RegisteringPoll(w.c, env);
    PumpSends(x.errand, w.c.session.wire, tcp, served, k);
    SessionIsOk(w.c);
    SessionPollIsPump(w.c.session, tcp, env.t1);
  }

  lemma FinishReads(x: Visit, deadline: u32, w: Scene, env: Env, k: nat)
    requires Registering(x, deadline, w, true) && Willing(PollTurn(env)) && Welcoming(x)
    requires env.script == [Move(k), Move(k)] && k >= HEADER_SIZE + Session.MAX_SESSION_BODY
    requires !TooLate(w.c, env)
    ensures Arrived(x, Act(w, PollTurn(env)))
  {
    hide Session.PollSession, Pump, Inv, Step, PeerAt, Expired, ReceiveOk, FrameAt, HeaderOf, VisitOk;
    var tcp := w.c.tcp.(script := env.script);
    RegisteringPoll(w.c, env);
    PumpUnderway(x.errand, w.c.session.wire, tcp, true);
    PumpReceives(x.errand, w.c.session.wire, tcp, k);
    var (wire, tcp1, _) := Pump(w.c.session.wire, tcp, Session.MAX_SESSION_BODY);
    OverIsAligned(x, wire, tcp1);
    SessionIsOk(w.c);
    SessionPollIsPump(w.c.session, tcp, env.t1);
  }
}
