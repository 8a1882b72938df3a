/**
 Bringing a client up and taking it down against the peer, over every interleaving of client
 polls and peer turns and every fragmentation of the two byte streams. The unregistration runs
 under the deadline of the registration, so whether a disconnect ever finishes depends on when
 it is polled.
 */
module Lifecycle {
  import opened Bytes
  import opened Status
  import opened Encapsulation
  import opened Stream
  import opened Framing
  import opened Courier
  import opened Client
  import opened ClientRuns
  import Session
  import Server
  import opened Exchange
  import opened SessionExchange

  datatype Scene = Scene(c: Client, s: Server.Server)

  datatype Beat = PollTurn(env: Env) | ServerTurn | Arrival(bytes: seq<byte>)

  /** The client polls, the peer serves, or bytes of any origin arrive. */
  function Act(w: Scene, t: Beat): Scene {
    match t
    case PollTurn(env) => w.(c := Step(w.c, DoPoll(env)))
    case ServerTurn => var (s, tcp) := Server.Serve(w.s, w.c.tcp); Scene(w.c.(tcp := tcp), s)
    case Arrival(bytes) => w.(c := w.c.(tcp := w.c.tcp.(inbox := w.c.tcp.inbox + bytes)))
  }

  function ActAll(w: Scene, ts: seq<Beat>): Scene {
    if ts == [] then w else Act(ActAll(w, ts[..|ts| - 1]), ts[|ts| - 1])
  }

  /** Only the peer sends anything, and the line is calm. */
  predicate CalmBeats(ts: seq<Beat>) {
    forall i | 0 <= i < |ts| :: !ts[i].Arrival? && (ts[i].PollTurn? ==> Calm(ts[i].env.script))
  }

  lemma CalmPrefix(ts: seq<Beat>, n: nat)
    requires CalmBeats(ts) && n <= |ts|
    ensures CalmBeats(ts[..n])
  {
    assert forall i | 0 <= i < n :: ts[..n][i] == ts[i];
  }

  lemma OtherBeatsKeep(w: Scene, t: Beat)
    requires Inv(w.c) && !t.PollTurn?
    ensures var w' := Act(w, t);
            && Inv(w'.c) && w'.c == w.c.(tcp := w'.c.tcp)
            && w'.c.tcp.link == w.c.tcp.link && w'.c.tcp.epoch == w.c.tcp.epoch && w'.c.tcp.sent == w.c.tcp.sent
  {
    hide Server.HandleFrame, FrameAt;
    NotifiedIsLocal(w.c, Act(w, t).c);
  }

  // ---------------------------------------------------------------------------------------
  // Going down on any line

  /** Waiting for an unregistration that has already failed. */
  predicate Stuck(c: Client) {
    c.state.Disconnecting? && c.session.phase.Failed?
  }

  /** The poll comes at or after the deadline of the session. */
  predicate LatePoll(c: Client, env: Env) {
    Expired(Ticks(env.t0), c.session.deadline)
  }

  /** The whole request is out and the receive ends in anything but a frame, a wait or a closed
      line: a fault, or a header that declares too much. */
  predicate ReadFails(c: Client, env: Env) {
    ReceiveFails(c.session.wire, c.tcp.(script := env.script), Session.MAX_SESSION_BODY)
  }

  /** The poll that dooms a disconnect. */
  predicate Dooms(c: Client, env: Env) {
    c.state.Disconnecting? && c.session.phase.Unregistering? && (LatePoll(c, env) || ReadFails(c, env))
  }

  /** Going down: unregistering, doomed, or gone. */
  ghost predicate Leaving(c: Client) {
    && Inv(c)
    && (c.state.Idle? || (c.state.Disconnecting? && (c.session.phase.Unregistering? || c.session.phase.Failed?)))
  }

  /** A poll while disconnecting is a poll of the session. */
  lemma DisconnectingPoll(c: Client, env: Env)
    requires Inv(c) && c.state.Disconnecting?
    ensures var c' := Step(c, DoPoll(env));
            var (session, tcp, st) := Session.PollSession(c.session, c.tcp.(script := env.script), env.t0);
            && Inv(c') && c'.session == session
            && (st == Ok || st == Closed ==> c'.state.Idle?)
            && (st != Ok && st != Closed ==> c'.state.Disconnecting? && c'.tcp == tcp && Poll(c, env).1 == Returned(Pending))
  {
    hide Session.PollSession, Single, Notified, Fresh;
    StepKeeps(c, DoPoll(env));
  }

  /** A disconnecting client is doomed by exactly those polls that come late or whose receive
      fails; any other poll goes on waiting or ends it Idle. */
  lemma DoomedExactlyWhen(c: Client, env: Env)
    requires Leaving(c)
    ensures var c' := Step(c, DoPoll(env));
            && Leaving(c') && (Stuck(c') <==> Stuck(c) || Dooms(c, env))
            && (c.state.Idle? ==> c'.state.Idle?)
  {
    hide Session.PollSession, Pump, Drain, Inv, Session.Registration, Expired;
    if c.state.Disconnecting? {
      var tcp := c.tcp.(script := env.script);
      DisconnectingPoll(c, env);
      if c.session.phase.Unregistering? {
        SessionIsOk(c);
        if LatePoll(c, env) {
          LateSession(c.session, tcp, env.t0);
        } else {
          SessionPollIsPump(c.session, tcp, env.t0);
          PumpAfterDrain(c.session.wire, tcp, Session.MAX_SESSION_BODY);
        }
      } else {
        FailedStays(c.session, tcp, env.t0);
      }
    } else {
      IdlePoll(c, env);
    }
  }

  lemma PumpAfterDrain(w: Wire, c: Tcp, limit: nat)
    ensures Drain(w, c).2 != Ok ==> Pump(w, c, limit) == Drain(w, c)
  {
    hide Drain, Fill;
  }

  lemma FailedStays(s: Session.Session, c: Tcp, now: nat)
    requires s.phase.Failed?
    ensures Session.PollSession(s, c, now) == (s, c, Error)
  {
  }

  lemma IdlePoll(c: Client, env: Env)
    requires Inv(c) && c.state.Idle?
    ensures Inv(Step(c, DoPoll(env))) && Step(c, DoPoll(env)).state.Idle?
  {
    hide Single, Notified, Fresh;
    StepKeeps(c, DoPoll(env));
  }

  lemma SessionIsOk(c: Client)
    requires Inv(c)
    ensures Session.SessionOk(c.session)
  {
  }

  /** disconnect() on a ready client queues the unregistration and nothing else. */
  lemma Unregisters(c: Client)
    requires Inv(c) && c.state.Ready?
    ensures var (c', st) := Disconnect(c);
            && st == Pending && Leaving(c') && c'.state.Disconnecting? && c'.tcp == c.tcp
            && c'.session.phase.Unregistering? && c'.session.deadline == c.session.deadline
            && c'.session.wire == Queue(Session.UnregisterFrame(c.session.handle, c.session.context))
  {
    hide Single, Notified, Session.UnregisterFrame;
    StepKeeps(c, DoDisconnect);
    assert Step(c, DoDisconnect) == Disconnect(c).0;
  }

  lemma {:induction false} LeavingRun(w: Scene, ts: seq<Beat>)
    requires Leaving(w.c) && !Stuck(w.c)
    ensures Leaving(ActAll(w, ts).c)
    ensures Stuck(ActAll(w, ts).c) <==> exists i :: 0 <= i < |ts| && ts[i].PollTurn? && Dooms(ActAll(w, ts[..i]).c, ts[i].env)
  {
    hide Act, Step, Inv, Dooms;
    if ts != [] {
      var n := |ts| - 1;
      var before, t := ts[..n], ts[n];
      LeavingRun(w, before);
      var mid := ActAll(w, before);
      LeavingBeat(mid, t);
      assert forall i | 0 <= i < n :: before[..i] == ts[..i] && before[i] == ts[i];
      if Stuck(mid.c) {
        var i :| 0 <= i < n && before[i].PollTurn? && Dooms(ActAll(w, before[..i]).c, before[i].env);
        assert ts[i].PollTurn? && Dooms(ActAll(w, ts[..i]).c, ts[i].env);
      }
      if exists i :: 0 <= i < |ts| && ts[i].PollTurn? && Dooms(ActAll(w, ts[..i]).c, ts[i].env) {
        var i :| 0 <= i < |ts| && ts[i].PollTurn? && Dooms(ActAll(w, ts[..i]).c, ts[i].env);
        if i < n {
          assert before[i].PollTurn? && Dooms(ActAll(w, before[..i]).c, before[i].env);
        }
      }
    }
  }

  lemma LeavingBeat(w: Scene, t: Beat)
    requires Leaving(w.c)
    ensures var w' := Act(w, t);
            Leaving(w'.c) && (Stuck(w'.c) <==> Stuck(w.c) || (t.PollTurn? && Dooms(w.c, t.env)))
  {
    hide Step, Inv, Dooms;
    if t.PollTurn? {
      DoomedExactlyWhen(w.c, t.env);
    } else {
      OtherBeatsKeep(w, t);
    }
  }

  /** When a disconnect gets stuck, over any sequence of polls, peer turns and arrivals on any
      line: exactly when some poll of it, made while the unregistration was under way, came at
      or after the registration deadline or failed to receive. Once stuck it stays Disconnecting
      under any further polls, peer turns and arrivals, and every poll reports Pending. */
  lemma DisconnectIsStuckExactlyWhen(c: Client, s: Server.Server, ts: seq<Beat>, more: seq<Beat>, next: Env)
    requires Inv(c) && c.state.Ready?
    ensures Disconnect(c).1 == Pending
    ensures var w := Scene(Disconnect(c).0, s);
            && (Stuck(ActAll(w, ts).c) <==>
                  exists i :: 0 <= i < |ts| && ts[i].PollTurn? && Dooms(ActAll(w, ts[..i]).c, ts[i].env))
            && (Stuck(ActAll(w, ts).c) ==>
                  var later := ActAll(ActAll(w, ts), more).c;
                  later.state.Disconnecting? && Shaped(later) && Poll(later, next).1 == Returned(Pending))
  {
    hide Inv, Step, Dooms, Act, Poll;
    var w := Scene(Disconnect(c).0, s);
    Unregisters(c);
    LeavingRun(w, ts);
    if Stuck(ActAll(w, ts).c) {
      StuckForever(ActAll(w, ts), more);
      StuckPoll(ActAll(ActAll(w, ts), more).c, next);
    }
  }

  lemma StuckPoll(c: Client, env: Env)
    requires Inv(c) && Stuck(c)
    ensures Shaped(c) && Poll(c, env).1 == Returned(Pending)
  {
    hide Single, Fresh, Notified;
  }

  lemma {:induction false} StuckForever(w: Scene, ts: seq<Beat>)
    requires Leaving(w.c) && Stuck(w.c)
    ensures Leaving(ActAll(w, ts).c) && Stuck(ActAll(w, ts).c)
  {
    hide Act, Step, Inv, Stuck, Leaving, Dooms;
    if ts != [] {
      StuckForever(w, ts[..|ts| - 1]);
      LeavingBeat(ActAll(w, ts[..|ts| - 1]), ts[|ts| - 1]);
    }
  }

  /** Which polls doom a disconnect, told by clock, script and inbox: those at or after the deadline,
      and those whose script reaches, after outcomes that each move something, a fault while the
      reply is being read or the move that completes an oversized header. */
  lemma DoomsExactlyWhen(c: Client, env: Env)
    requires Inv(c) && c.state.Disconnecting? && c.session.phase.Unregistering?
    ensures Dooms(c, env) <==>
            || Expired(Ticks(env.t0), c.session.deadline)
            || exists m :: BreaksAt(c.session.wire, c.tcp.(script := env.script), Session.MAX_SESSION_BODY, m)
  {
    hide Inv, ReceiveFails, BreaksAt, Expired;
    SessionIsOk(c);
    ReceiveFailsExactlyWhen(c.session.wire, c.tcp.(script := env.script), Session.MAX_SESSION_BODY);
  }

  /** The two ways a receive fails, shown on lines where they happen: a read fault, and a reply
      whose header declares more than the session accepts. */
  lemma FaultsDoom(c: Client, env: Env, k: nat)
    requires Inv(c) && c.state.Disconnecting? && c.session.phase.Unregistering?
    requires c.session.wire.sent == |c.session.wire.tx| && c.tcp.link.Up?
    ensures (env.script == [Fault] && |c.session.wire.rx| < c.session.wire.expected) ==> Dooms(c, env)
    ensures (env.script == [Move(k)] && k >= HEADER_SIZE && c.session.wire.rx == [] && |c.tcp.inbox| >= HEADER_SIZE
             && HeaderOf(c.tcp.inbox).length > Session.MAX_SESSION_BODY) ==> Dooms(c, env)
  {
    hide HeaderOf, LatePoll;
    SessionIsOk(c);
    var w, tcp := c.session.wire, c.tcp.(script := env.script);
    assert Drain(w, tcp) == (w, tcp, Ok);
    if env.script == [Fault] && |w.rx| < w.expected {
      assert Fill(w, tcp, Session.MAX_SESSION_BODY).2 == Error;
    }
    if env.script == [Move(k)] && k >= HEADER_SIZE && w.rx == [] && |tcp.inbox| >= HEADER_SIZE
       && HeaderOf(tcp.inbox).length > Session.MAX_SESSION_BODY {
      OversizedFill(w, tcp, k);
    }
  }

  lemma OversizedFill(w: Wire, c: Tcp, k: nat)
    requires ReceiveOk(w, Session.MAX_SESSION_BODY) && w.rx == [] && c.link.Up?
    requires c.script == [Move(k)] && k >= HEADER_SIZE && |c.inbox| >= HEADER_SIZE
    requires HeaderOf(c.inbox).length > Session.MAX_SESSION_BODY
    ensures Fill(w, c, Session.MAX_SESSION_BODY).2 == Error
  {
    hide HeaderOf;
    ReadTakesAll(c, HEADER_SIZE, k);
    var rx := w.rx + c.inbox[..HEADER_SIZE];
    HeaderLocal(rx, c.inbox);
    assert Accept(w, c.inbox[..HEADER_SIZE], Session.MAX_SESSION_BODY).None?;
  }

  // ---------------------------------------------------------------------------------------
  // Going down on a calm line with the peer there

  /** The visit an unregistration makes. */
  function Farewell(c: Client, s: Server.Server): Visit {
    var frame := Session.UnregisterFrame(c.session.handle, c.session.context);
    var (after, response) := Server.HandleFrame(s, frame);
    Visit(Errand(frame, BytesOf(response), c.tcp, Session.MAX_SESSION_BODY), s, after, response)
  }

  lemma FarewellIsOk(c: Client, s: Server.Server)
    requires Aligned(c.tcp, s)
    ensures VisitOk(Farewell(c, s)) && Delimited(Farewell(c, s).errand.reply, Session.MAX_SESSION_BODY)
    ensures Underway(Farewell(c, s).errand, Queue(Farewell(c, s).errand.frame), c.tcp, false)
  {
    hide Server.HandleFrame, Session.UnregisterFrame, FrameAt;
    PeerUnregisters(s, c.session.handle, c.session.context);
    VisitStarts(s, Session.UnregisterFrame(c.session.handle, c.session.context));
    WholeIsDelimited(Farewell(c, s).errand.reply, Session.MAX_SESSION_BODY);
    QueuedUnderway(Farewell(c, s).errand);
  }

  /** The unregistration on its way, or served and its answer on the way. */
  ghost predicate Saying(x: Visit, deadline: u32, w: Scene, served: bool) {
    && Inv(w.c) && w.c.state.Disconnecting? && w.c.session.phase.Unregistering? && w.c.session.deadline == deadline
    && w.s == PeerAt(x, served) && Underway(x.errand, w.c.session.wire, w.c.tcp, served)
  }

  lemma SayingPoll(x: Visit, deadline: u32, w: Scene, served: bool, env: Env)
    requires Saying(x, deadline, w, served) && Calm(env.script)
    requires x.errand.limit == Session.MAX_SESSION_BODY && Delimited(x.errand.reply, x.errand.limit)
    ensures Dooms(w.c, env) <==> Expired(Ticks(env.t0), deadline)
    ensures !Expired(Ticks(env.t0), deadline) ==>
              var w' := Act(w, PollTurn(env));
              Saying(x, deadline, w', served) || w'.c.state.Idle?
  {
    hide Session.PollSession, Pump, Inv, Step, Ending, PeerAt, Expired, Over, ReceiveOk, Session.GoodRegistration;
    var tcp := w.c.tcp.(script := env.script);
    assert Underway(x.errand, w.c.session.wire, tcp, served);
    DelimitedEnds(x.errand);
    PumpUnderway(x.errand, w.c.session.wire, tcp, served);
    if !Expired(Ticks(env.t0), deadline) {
      SessionIsOk(w.c);
      SessionPollIsPump(w.c.session, tcp, env.t0);
      DisconnectingPoll(w.c, env);
    }
  }

  lemma SayingServed(x: Visit, deadline: u32, w: Scene, served: bool)
    requires Saying(x, deadline, w, served) && VisitOk(x)
    ensures var w' := Act(w, ServerTurn);
            Saying(x, deadline, w', served || w.c.session.wire.sent == |x.errand.frame|)
  {
    hide Server.Serve, VisitOk, Underway, Inv, PeerAt;
    OtherBeatsKeep(w, ServerTurn);
    ServeUnderway(x, w.c.session.wire, w.c.tcp, served);
  }

  /** On a calm line with the peer there: still on its way, gone, or late. */
  lemma {:induction false} FarewellRun(x: Visit, deadline: u32, w: Scene, ts: seq<Beat>)
    requires Saying(x, deadline, w, false) && VisitOk(x) && CalmBeats(ts)
    requires x.errand.limit == Session.MAX_SESSION_BODY && Delimited(x.errand.reply, x.errand.limit)
    ensures var w' := ActAll(w, ts);
            || Saying(x, deadline, w', false) || Saying(x, deadline, w', true)
            || (Inv(w'.c) && w'.c.state.Idle?) || (Inv(w'.c) && Stuck(w'.c))
    ensures forall i | 0 <= i < |ts| && ts[i].PollTurn? && !ActAll(w, ts[..i]).c.state.Idle? && !Stuck(ActAll(w, ts[..i]).c) ::
              (Dooms(ActAll(w, ts[..i]).c, ts[i].env) <==> Expired(Ticks(ts[i].env.t0), deadline))
  {
    hide Act, Saying, VisitOk, Stuck, Inv, Dooms, Ending, Delimited, Expired;
    if ts != [] {
      var n := |ts| - 1;
      CalmPrefix(ts, n);
      FarewellRun(x, deadline, w, ts[..n]);
      assert forall i | 0 <= i < n :: ts[..n][..i] == ts[..i] && ts[..n][i] == ts[i];
      FarewellBeat(x, deadline, ActAll(w, ts[..n]), ts[n]);
    }
  }

  lemma FarewellBeat(x: Visit, deadline: u32, w: Scene, t: Beat)
    requires VisitOk(x) && !t.Arrival? && (t.PollTurn? ==> Calm(t.env.script))
    requires x.errand.limit == Session.MAX_SESSION_BODY && Delimited(x.errand.reply, x.errand.limit)
    requires || Saying(x, deadline, w, false) || Saying(x, deadline, w, true)
             || (Inv(w.c) && w.c.state.Idle?) || (Inv(w.c) && Stuck(w.c))
    ensures var w' := Act(w, t);
            || Saying(x, deadline, w', false) || Saying(x, deadline, w', true)
            || (Inv(w'.c) && w'.c.state.Idle?) || (Inv(w'.c) && Stuck(w'.c))
    ensures t.PollTurn? && !w.c.state.Idle? && !Stuck(w.c) ==> (Dooms(w.c, t.env) <==> Expired(Ticks(t.env.t0), deadline))
  {
    hide VisitOk, Inv, Ending, Dooms, Step, Expired;
    var served := Saying(x, deadline, w, true);
    if (Inv(w.c) && w.c.state.Idle?) || (Inv(w.c) && Stuck(w.c)) {
      LeavingBeat(w, t);
      if t.PollTurn? && w.c.state.Idle? {
        IdlePoll(w.c, t.env);
      } else if !t.PollTurn? {
        OtherBeatsKeep(w, t);
      }
    } else if t.PollTurn? {
      SayingPoll(x, deadline, w, served, t.env);
      DoomedExactlyWhen(w.c, t.env);
    } else {
      SayingServed(x, deadline, w, served);
    }
  }

  /** With the peer there and a calm line, over any sequence of polls and peer turns and any
      fragmentation, a disconnect is stuck exactly when some poll of it, made before it was
      Idle, came at or after the registration deadline; otherwise it is Idle, or a poll that
      can write, a peer turn and a poll that can read, in time, end it Idle. */
  lemma DisconnectFinishesExactlyInTime(c: Client, s: Server.Server, ts: seq<Beat>, env1: Env, env2: Env, k: nat)
    requires Inv(c) && c.state.Ready? && Aligned(c.tcp, s) && CalmBeats(ts)
    requires env1.script == [Move(k)] && env2.script == [Move(k), Move(k)]
    requires k >= HEADER_SIZE + Session.MAX_SESSION_BODY
    ensures var w := Scene(Disconnect(c).0, s);
            var end := ActAll(w, ts);
            && (Stuck(end.c) <==>
                  exists i :: 0 <= i < |ts| && ts[i].PollTurn? && !ActAll(w, ts[..i]).c.state.Idle?
                              && Expired(Ticks(ts[i].env.t0), c.session.deadline))
            && (!Stuck(end.c) && !Expired(Ticks(env1.t0), c.session.deadline) && !Expired(Ticks(env2.t0), c.session.deadline) ==>
                  Act(Act(Act(end, PollTurn(env1)), ServerTurn), PollTurn(env2)).c.state.Idle?)
  {
    hide Act, Saying, VisitOk, Inv, Dooms, Ending, Delimited, Expired, Farewell, Leaving, Aligned, CalmBeats;
    var w := Scene(Disconnect(c).0, s);
    var x, deadline := Farewell(c, s), c.session.deadline;
    var end := ActAll(w, ts);
    Starts(c, s);
    LeavingRun(w, ts);
    FarewellRun(x, deadline, w, ts);
    LateMeansStuck(x, deadline, w, ts);
    if !Stuck(end.c) && !Expired(Ticks(env1.t0), deadline) && !Expired(Ticks(env2.t0), deadline) {
      FarewellFinale(x, deadline, end, env1, env2, k);
    }
  }

  lemma LateMeansStuck(x: Visit, deadline: u32, w: Scene, ts: seq<Beat>)
    requires Saying(x, deadline, w, false) && VisitOk(x) && CalmBeats(ts) && Leaving(w.c) && !Stuck(w.c)
    requires x.errand.limit == Session.MAX_SESSION_BODY && Delimited(x.errand.reply, x.errand.limit)
    ensures Stuck(ActAll(w, ts).c) <==>
            exists i :: 0 <= i < |ts| && ts[i].PollTurn? && !ActAll(w, ts[..i]).c.state.Idle?
                        && Expired(Ticks(ts[i].env.t0), deadline)
  {
    hide Act, Saying, VisitOk, Inv, Dooms, Ending, Delimited, Expired, Leaving, CalmBeats;
    LeavingRun(w, ts);
    FarewellRun(x, deadline, w, ts);
    if Stuck(ActAll(w, ts).c) {
      var i :| 0 <= i < |ts| && ts[i].PollTurn? && Dooms(ActAll(w, ts[..i]).c, ts[i].env);
      DoomedIsUnderway(ActAll(w, ts[..i]).c, ts[i].env);
    } else if exists i :: 0 <= i < |ts| && ts[i].PollTurn? && !ActAll(w, ts[..i]).c.state.Idle? && Expired(Ticks(ts[i].env.t0), deadline) {
      var i :| 0 <= i < |ts| && ts[i].PollTurn? && !ActAll(w, ts[..i]).c.state.Idle? && Expired(Ticks(ts[i].env.t0), deadline);
      LeavingRun(w, ts[..i]);
      ActAllAppends(w, ts, i);
      if Stuck(ActAll(w, ts[..i]).c) {
        StuckForever(ActAll(w, ts[..i]), ts[i..]);
      }
    }
  }

  lemma Starts(c: Client, s: Server.Server)
    requires Inv(c) && c.state.Ready? && Aligned(c.tcp, s)
    ensures var w := Scene(Disconnect(c).0, s);
            var x := Farewell(c, s);
            && VisitOk(x) && Delimited(x.errand.reply, x.errand.limit) && x.errand.limit == Session.MAX_SESSION_BODY
            && Saying(x, c.session.deadline, w, false) && Leaving(w.c) && !Stuck(w.c) && |x.errand.frame| == HEADER_SIZE
  {
    hide Inv, Ending, Delimited, VisitOk, Underway, Server.HandleFrame, Session.UnregisterFrame, Aligned;
    Unregisters(c);
    FarewellIsOk(c, s);
    PeerUnregisters(s, c.session.handle, c.session.context);
  }

  lemma DoomedIsUnderway(c: Client, env: Env)
    requires Dooms(c, env)
    ensures !c.state.Idle? && !Stuck(c)
  {
  }

  lemma {:induction false} ActAllAppends(w: Scene, ts: seq<Beat>, n: nat)
    requires n <= |ts|
    ensures ActAll(w, ts) == ActAll(ActAll(w, ts[..n]), ts[n..])
    decreases |ts| - n
  {
    hide Act;
    if n == |ts| {
      assert ts[..n] == ts && ts[n..] == [];
    } else {
      var m := |ts| - 1;
      ActAllAppends(w, ts[..m], n);
      assert ts[..m][..n] == ts[..n] && ts[..m][n..] == ts[n..][..m - n] && ts[n..][m - n] == ts[m];
    }
  }

  lemma FarewellFinale(x: Visit, deadline: u32, w: Scene, env1: Env, env2: Env, k: nat)
    requires VisitOk(x) && x.errand.limit == Session.MAX_SESSION_BODY && Delimited(x.errand.reply, x.errand.limit)
    requires Saying(x, deadline, w, false) || Saying(x, deadline, w, true) || (Inv(w.c) && w.c.state.Idle?)
    requires !Expired(Ticks(env1.t0), deadline) && !Expired(Ticks(env2.t0), deadline)
    requires env1.script == [Move(k)] && env2.script == [Move(k), Move(k)]
    requires k >= HEADER_SIZE + Session.MAX_SESSION_BODY && k >= |x.errand.frame|
    ensures Act(Act(Act(w, PollTurn(env1)), ServerTurn), PollTurn(env2)).c.state.Idle?
  {
    hide Act, Saying, VisitOk, Inv, Ending, Delimited, Expired;
    var w1 := Act(w, PollTurn(env1));
    var w2 := Act(w1, ServerTurn);
    if Inv(w.c) && w.c.state.Idle? {
      IdleBeat(w, PollTurn(env1));
    } else {
      FarewellSends(x, deadline, w, Saying(x, deadline, w, true), env1, k);
    }
    if Inv(w1.c) && w1.c.state.Idle? {
      IdleBeat(w1, ServerTurn);
      IdleBeat(w2, PollTurn(env2));
    } else {
      SayingServed(x, deadline, w1, Saying(x, deadline, w1, true));
      FarewellReads(x, deadline, w2, env2, k);
    }
  }

  lemma IdleBeat(w: Scene, t: Beat)
    requires Inv(w.c) && w.c.state.Idle?
    ensures Inv(Act(w, t).c) && Act(w, t).c.state.Idle?
  {
    hide Inv, Step;
    if t.PollTurn? {
      IdlePoll(w.c, t.env);
    } else {
      OtherBeatsKeep(w, t);
    }
  }

  lemma FarewellSends(x: Visit, deadline: u32, w: Scene, served: bool, env: Env, k: nat)
    requires Saying(x, deadline, w, served) && !Expired(Ticks(env.t0), deadline)
    requires x.errand.limit == Session.MAX_SESSION_BODY && Delimited(x.errand.reply, x.errand.limit)
    requires env.script == [Move(k)] && k >= |x.errand.frame|
    ensures var w' := Act(w, PollTurn(env));
            || (Saying(x, deadline, w', served) && w'.c.session.wire.sent == |x.errand.frame|)
            || (Inv(w'.c) && w'.c.state.Idle?)
  {
    hide Session.PollSession, Pump, Inv, Step, Ending, PeerAt, Expired, ReceiveOk, Session.GoodRegistration;
    var tcp := w.c.tcp.(script := env.script);
    SayingPoll(x, deadline, w, served, env);
    PumpSends(x.errand, w.c.session.wire, tcp, served, k);
    SessionIsOk(w.c);
    SessionPollIsPump(w.c.session, tcp, env.t0);
    DisconnectingPoll(w.c, env);
  }

  lemma FarewellReads(x: Visit, deadline: u32, w: Scene, env: Env, k: nat)
    requires Saying(x, deadline, w, true) && !Expired(Ticks(env.t0), deadline)
    requires x.errand.limit == Session.MAX_SESSION_BODY && Delimited(x.errand.reply, x.errand.limit)
    requires env.script == [Move(k), Move(k)] && k >= HEADER_SIZE + Session.MAX_SESSION_BODY
    ensures Act(w, PollTurn(env)).c.state.Idle?
  {
    hide Session.PollSession, Pump, Inv, Step, PeerAt, Expired, ReceiveOk, Session.GoodRegistration, FrameAt;
    var tcp := w.c.tcp.(script := env.script);
    DelimitedEnds(x.errand);
    PumpReceives(x.errand, w.c.session.wire, tcp, k);
    SessionIsOk(w.c);
    SessionPollIsPump(w.c.session, tcp, env.t0);
    DisconnectingPoll(w.c, env);
  }
}
