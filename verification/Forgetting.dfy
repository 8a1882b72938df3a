/**
 A run in which an open connection forgets its O->T ID: opened against the peer, then opened
 again while the socket is down.
 */
module Forgetting {
  import opened Bytes
  import opened Status
  import opened Encapsulation
  import opened Stream
  import opened Framing
  import opened Courier
  import opened Cip
  import opened Message
  import opened Channel
  import opened ChannelRuns
  import Tables = Server
  import Exchange
  import ChannelExchange

  const TAG: TagName := [65]
  const CHOSEN_TO: u32 := 7

  const FirstLine: Tcp := Tcp(Up, 1, [], [], [], [])
  const NewPeer: Tables.Server := Tables.Server([], map[], 0, false)

  /** The name the first open() gives. */
  function FirstName(originator: u32): Name {
    Name(1, VENDOR, originator, ConnectionPath(NO_ROUTE, TAG))
  }

  function FirstRequest(originator: u32): Exchange.Request
  {
    ConnectionPathFits(NO_ROUTE, TAG);
    Exchange.Direct(FORWARD_OPEN, ConnectionManagerPath(), ForwardOpenData(CHOSEN_TO, FirstName(originator)))
  }

  lemma FirstRequestIsServable(originator: u32)
    ensures Exchange.Servable(FirstRequest(originator))
  {
    ConnectionPathFits(NO_ROUTE, TAG);
    OpenReadsBack(CHOSEN_TO, FirstName(originator));
  }

  function Opening(originator: u32): (x: Exchange.Setup)
  {
    FirstRequestIsServable(originator);
    Exchange.SetupFor(NewMsg, FirstLine, NewPeer, 0, FirstRequest(originator), 5000, 0)
  }

  const AskFirst: Event := Ask(0, TAG, 5000, NO_ROUTE, CHOSEN_TO, 0, 0)

  /** The first open() starts exactly that exchange. */
  lemma FirstAsk(originator: u32)
    ensures var k := Step(Trace(NewConn(originator), FirstLine, None), AskFirst).k;
            && k.phase.Opening? && k.fwd == Opening(originator).start.m && k.to == CHOSEN_TO
    ensures Exchange.SetupOk(Opening(originator)) && Opening(originator).start.c == FirstLine
    ensures Opening(originator).start.m.deadline == 5000
  {
    hide RequestFrame, CipRequest, ForwardOpenData, ConnectionPath, Exchange.SetupOk, Tables.HandleFrame;
    ConnectionPathFits(NO_ROUTE, TAG);
    FirstRequestIsServable(originator);
    Exchange.SetupForIsOk(NewMsg, FirstLine, NewPeer, 0, FirstRequest(originator), 5000, 0);
  }

  /** The peer grants it. */
  lemma FirstGrant(originator: u32)
    ensures var q := FirstRequest(originator);
            var a := Tables.HandleCip(NewPeer, 0, q.service, q.path, q.data).1;
            && a.Answered? && 4 <= |a.cip| && |a.cip| + 16 <= MAX_BODY
            && Granted(Some(ReplyOf(a.cip)), CHOSEN_TO) == Some(Tables.SERVER_OT)
  {
    hide Tables.HandleCip, Granted, ReplyOf, ForwardOpenData;
    ConnectionPathFits(NO_ROUTE, TAG);
    var n := FirstName(originator);
    ChannelExchange.OpenIdAt6(CHOSEN_TO, n);
    ChannelExchange.OpenIsAnswered(NewPeer, 0, ForwardOpenData(CHOSEN_TO, n), CHOSEN_TO);
    ChannelExchange.OpenAnswerReads(CHOSEN_TO);
  }

  lemma NewIsIdle()
    ensures MsgOk(NewMsg) && !InFlight(NewMsg)
  {
  }

  lemma FirstFinishes(originator: u32)
    ensures var x := Opening(originator);
            var w := Exchange.PlayAll(x.start, Exchange.Finale(x, 0));
            w.m.phase.Done? && Granted(w.m.reply, CHOSEN_TO) == Some(Tables.SERVER_OT)
  {
    hide Exchange.Play, Granted, Tables.HandleCip, ReplyOf, FirstRequest, Exchange.Finale, PollMsg, Exchange.SetupFor,
         Exchange.SetupOk, MsgOk, SendMsg, RequestFrame, Tables.HandleFrame, Exchange.CipOf, Exchange.Servable;
    assert Exchange.PlayAll(Opening(originator).start, []) == Opening(originator).start;
    NewIsIdle();
    FirstAsk(originator);
    FirstGrant(originator);
    FirstRequestIsServable(originator);
    Exchange.ExchangeFinishes(NewMsg, FirstLine, NewPeer, 0, FirstRequest(originator), 5000, 0, [], 0);
  }

  /** The exchange played out: request sent, served, answer in. */
  lemma FirstExchange(originator: u32) returns (w1: Exchange.World, w2: Exchange.World, w3: Exchange.World)
    ensures var x := Opening(originator);
            var ts := Exchange.Finale(x, 0);
            && w1 == Exchange.Play(x.start, ts[0]) && InFlight(w1.m)
            && w2 == Exchange.Play(w1, Exchange.PeerTurn) && w2.m == w1.m
            && w3 == Exchange.Play(w2, ts[2]) && w3.m.phase.Done?
            && Granted(w3.m.reply, CHOSEN_TO) == Some(Tables.SERVER_OT)
  {
    hide Exchange.Play, Exchange.InProgress, Exchange.SetupOk, Granted, Opening, PollMsg;
    var x := Opening(originator);
    var ts := Exchange.Finale(x, 0);
    FirstAsk(originator);
    FirstFinishes(originator);
    w1 := Exchange.Play(x.start, ts[0]);
    w2 := Exchange.Play(w1, ts[1]);
    w3 := Exchange.Play(w2, ts[2]);
    assert ts[..2][..1] == [ts[0]] && ts[..1][..0] == [] && ts[..2] == [ts[0], ts[1]];
    assert Exchange.PlayAll(x.start, ts[..1]) == w1;
    assert Exchange.PlayAll(x.start, ts[..2]) == w2;
    assert Exchange.PlayAll(x.start, ts) == w3;
    StartsInProgress(x);
    Exchange.ClientTurn(x, x.start, false, 0, ts[0].script);
    InProgressFlies(x, w1);
    PeerLeavesMessage(w1);
  }

  lemma StartsInProgress(x: Exchange.Setup)
    requires Exchange.SetupOk(x)
    ensures Exchange.InProgress(x, x.start, false)
  {
    hide Exchange.InProgress;
  }

  lemma InProgressFlies(x: Exchange.Setup, w: Exchange.World)
    requires Exchange.InProgress(x, w, false)
    ensures InFlight(w.m)
  {
    hide Underway;
  }

  lemma PeerLeavesMessage(w: Exchange.World)
    ensures Exchange.Play(w, Exchange.PeerTurn).m == w.m
  {
    hide Tables.Serve;
  }

  /** A poll that leaves the Forward Open in flight leaves the connection opening; one that gets a
      grant opens it. */
  lemma OpeningPolls(t: Trace, now: nat)
    requires t.k.phase.Opening? && MsgOk(t.k.fwd)
    ensures var (fwd, c, _) := PollMsg(t.k.fwd, t.c, now);
            var k := Step(t, Poll(now)).k;
            && (InFlight(t.k.fwd) && InFlight(fwd) ==> k == t.k.(fwd := fwd))
            && (fwd.phase.Done? && Granted(fwd.reply, t.k.to).Some? ==>
                  k.phase.Open? && k.ot == Granted(fwd.reply, t.k.to).value && k.fwd == fwd && k.to == t.k.to)
  {
    hide PollMsg, Granted;
    PollKeeps(t.k.fwd, t.c, now);
  }

  lemma Snoc(originator: u32, es: seq<Event>, e: Event)
    ensures Run(originator, FirstLine, es + [e]) == Step(Run(originator, FirstLine, es), e)
  {
    assert (es + [e])[..|es|] == es;
  }

  /** The connection is opened: its O->T ID is the one the peer granted. */
  lemma OpensFirst(originator: u32) returns (es: seq<Event>)
    ensures var k := Run(originator, FirstLine, es).k;
            k.phase.Open? && k.ot == Tables.SERVER_OT != 0
  {
    hide Step, Exchange.Play, PollMsg, Granted, Tables.Serve, Opening;
    var x := Opening(originator);
    var ts := Exchange.Finale(x, 0);
    var w1, w2, w3 := FirstExchange(originator);
    FirstAsk(originator);
    var line1, line2 := Socket(x.start.c.(script := ts[0].script)), Socket(w2.c.(script := ts[2].script));
    var e1 := [AskFirst];
    var e2 := e1 + [line1];
    var e3 := e2 + [Poll(0)];
    var e4 := e3 + [line2];
    es := e4 + [Poll(0)];
    assert Run(originator, FirstLine, []) == Trace(NewConn(originator), FirstLine, None);
    assert e1 == [] + [AskFirst];
    Snoc(originator, [], AskFirst);
    Snoc(originator, e1, line1);
    Snoc(originator, e2, Poll(0));
    Snoc(originator, e3, line2);
    Snoc(originator, e4, Poll(0));
    RunIsSteady(originator, FirstLine, e2);
    RunIsSteady(originator, FirstLine, e4);
    SocketOnly(Run(originator, FirstLine, e1), line1);
    Plays(x.start, 0, ts[0].script);
    OpeningPolls(Run(originator, FirstLine, e2), 0);
    SocketOnly(Run(originator, FirstLine, e3), line2);
    Plays(w2, 0, ts[2].script);
    OpeningPolls(Run(originator, FirstLine, e4), 0);
  }

  lemma SocketOnly(t: Trace, e: Event)
    requires e.Socket?
    ensures Step(t, e) == t.(c := e.c)
  {
  }

  lemma Plays(w: Exchange.World, now: nat, script: seq<Io>)
    ensures Exchange.Play(w, Exchange.ClientPoll(now, script)).m == PollMsg(w.m, w.c.(script := script), now).0
  {
    hide PollMsg;
  }

  /** The failing input for "valid once open", from a connection that was never used: opened
      against the peer, then open() once more with the socket down. The call is refused, the
      connection is still open and its O->T ID is gone. */
  lemma ForgettingRun(originator: u32) returns (es: seq<Event>)
    ensures es != []
    ensures var before, after := Run(originator, FirstLine, es[..|es| - 1]), Run(originator, FirstLine, es);
            && before.k.phase.Open? && before.k.ot != 0
            && after.k.phase.Open? && after.k.ot == 0
            && !Careful(originator, FirstLine, es)
  {
    hide Step;
    var opened1 := OpensFirst(originator);
    var down := Socket(FirstLine.(link := Lost));
    var es1 := opened1 + [down];
    es := es1 + [AskFirst];
    Snoc(originator, opened1, down);
    Snoc(originator, es1, AskFirst);
    SocketOnly(Run(originator, FirstLine, opened1), down);
    var t := Run(originator, FirstLine, es1);
    RunIsSteady(originator, FirstLine, es1);
    assert es[..|es| - 1] == es1 && es[|es| - 1] == AskFirst;
    assert Forgets(t, AskFirst);
    ForgettingStep(t, AskFirst);
  }
}
