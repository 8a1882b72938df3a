/**
 Whole runs of one connection object: opens, sends, closes and polls in any order, with
 anything at all happening on the socket and in the serial counter in between.
 */
module ChannelRuns {
  import opened Bytes
  import opened Status
  import opened Encapsulation
  import opened Stream
  import opened Framing
  import opened Cip
  import opened Cpf
  import opened Message
  import opened Channel
  import opened Server
  import ChannelExchange
  import Exchange

  datatype Event =
    | Ask(session: u32, name: seq<byte>, timeout: u32, slot: u8, random: u32, last: u16, now: nat)
    | Say(session: u32, service: u8, path: seq<byte>, data: seq<byte>, timeout: u32, now: nat)
    | End(session: u32, timeout: u32, now: nat)
    | Poll(now: nat)
    | Socket(c: Tcp)               // the line is now in this state, whatever it was

  /** The Forward Open request frame that last succeeded, and its reply frame. */
  datatype Opened = Opened(request: seq<byte>, reply: seq<byte>)

  datatype Trace = Trace(k: Conn, c: Tcp, last: Option<Opened>)

  function Step(t: Trace, e: Event): Trace {
    match e
    case Ask(session, name, timeout, slot, random, last, now) =>
      t.(k := OpenConn(t.k, t.c, session, name, timeout, slot, random, last, now).0)
    case Say(session, service, path, data, timeout, now) =>
      t.(k := SendConn(t.k, session, service, path, data, timeout, now).0)
    case End(session, timeout, now) => t.(k := CloseConn(t.k, t.c, session, timeout, now).0)
    case Poll(now) =>
      var (k, c, _) := PollConn(t.k, t.c, now);
      Trace(k, c, if t.k.phase.Opening? && k.phase.Open? then Some(Opened(t.k.fwd.wire.tx, k.fwd.wire.rx)) else t.last)
    case Socket(c) => t.(c := c)
  }

  function Run(originator: u32, c: Tcp, es: seq<Event>): Trace {
    if es == [] then Trace(NewConn(originator), c, None)
    else Step(Run(originator, c, es[..|es| - 1]), es[|es| - 1])
  }

  /** The CIP call in a request frame, as the peer reads it. */
  function CallIn(frame: seq<byte>): Option<Call> {
    if |frame| < HEADER_SIZE then None
    else
      match RequestItem(frame[HEADER_SIZE..])
      case None => None
      case Some(cip) => Some(CallOf(cip))
  }

  // ---------------------------------------------------------------------------------------
  // What every run keeps

  /** While opening, the request on its way is the Forward Open for the identity held. */
  predicate AskedFor(k: Conn) {
    && k.to != 0
    && |k.fwd.wire.tx| >= HEADER_SIZE && HeaderOf(k.fwd.wire.tx).context == k.fwd.sentContext
    && Encodes(NameOf(k))
    && CallIn(k.fwd.wire.tx) == Some(Call(FORWARD_OPEN, ConnectionManagerPath(), ForwardOpenData(k.to, NameOf(k))))
  }

  predicate Steady(k: Conn) {
    && ConnOk(k)
    && k.sequence == k.context % 0x1_0000
    && (k.phase.Sending? ==> k.sentSequence == k.sentContext % 0x1_0000)
    && (k.phase.Opening? ==> AskedFor(k))
  }

  /** The held identity and IDs are those of the last successful Forward Open: the T->O ID was
      sent and echoed, the O->T ID was granted, and neither is 0. */
  predicate Names(o: Opened, k: Conn) {
    && k.ot != 0 && k.to != 0
    && CallIn(o.request).Some?
    && CallIn(o.request).value.service == FORWARD_OPEN && CallIn(o.request).value.path == ConnectionManagerPath()
    && ReadOpen(CallIn(o.request).value.rest) == Some((k.to, NameOf(k)))
    && |o.request| >= HEADER_SIZE
    && ParseReply(o.reply, HeaderOf(o.request).context).Some?
    && var r := ParseReply(o.reply, HeaderOf(o.request).context).value;
       && r.code == 0 && |r.data| >= 12
       && U32At(r.data, 0) == k.ot && U32At(r.data, 4) == k.to
  }

  predicate Holding(k: Conn) {
    k.phase.Open? || k.phase.Sending? || k.phase.Closing?
  }

  predicate Established(t: Trace) {
    Holding(t.k) ==> t.last.Some? && Names(t.last.value, t.k)
  }

  /** A Connection Manager request frame read back. */
  lemma ManagerCall(session: u32, context: u64, service: u8, data: seq<byte>)
    requires 2 <= |data| <= 128
    ensures |CipRequest(service, ConnectionManagerPath(), data)| <= MAX_CIP
    ensures var frame := RequestFrame(session, context, CipRequest(service, ConnectionManagerPath(), data));
            && |frame| >= HEADER_SIZE && HeaderOf(frame).context == context
            && CallIn(frame) == Some(Call(service, ConnectionManagerPath(), data))
  {
    hide HeaderOf, RequestFrame, RequestItem, CallOf;
    Exchange.PeerReadsRequest(session, context, CipRequest(service, ConnectionManagerPath(), data));
    Exchange.CallOfRequest(service, ConnectionManagerPath(), data);
  }

  lemma AskKeeps(k: Conn, c: Tcp, session: u32, name: seq<byte>, timeout: u32, slot: u8,
                 random: u32, last: u16, now: nat)
    requires Steady(k)
    ensures Steady(OpenConn(k, c, session, name, timeout, slot, random, last, now).0)
  {
    hide RequestFrame, CipRequest, ConnectionPath, CallIn, HeaderOf, ForwardOpenData, ConnOk;
    OpenKeeps(k, c, session, name, timeout, slot, random, last, now);
    if |name| < MAX_CONN_NAME {
      ConnectionPathFits(slot, name);
      var chosen := Chosen(k, name, slot, random, NextSerial(last));
      OpenReadsBack(chosen.to, NameOf(chosen));
      ManagerCall(session, k.fwd.context, FORWARD_OPEN, ForwardOpenData(chosen.to, NameOf(chosen)));
    }
  }

  lemma SayKeeps(k: Conn, session: u32, service: u8, path: seq<byte>, data: seq<byte>, timeout: u32, now: nat)
    requires Steady(k)
    ensures Steady(SendConn(k, session, service, path, data, timeout, now).0)
  {
    hide ConnectedFrame, CipRequest, AskedFor;
    assert (k.context + 1) % TWO64 % 0x1_0000 == (k.context % 0x1_0000 + 1) % 0x1_0000;
  }

  lemma PollKeepsSteady(k: Conn, c: Tcp, now: nat)
    requires Steady(k)
    ensures Steady(PollConn(k, c, now).0)
  {
    hide CallIn, HeaderOf, ForwardOpenData, ConnectionPath, PollConn, ConnOk;
    PollConnKeeps(k, c, now);
    OnlyOpensBecomeOpening(k, c, now);
  }

  lemma OnlyOpensBecomeOpening(k: Conn, c: Tcp, now: nat)
    ensures var k' := PollConn(k, c, now).0;
            && (k'.phase.Opening? ==> k.phase.Opening? && k'.ot == k.ot)
            && (k'.phase.Sending? ==> k.phase.Sending?)
            && (k'.phase.Closing? ==> k.phase.Closing?)
            && (k'.phase.Open? ==> k.phase.Open? || k.phase.Sending? || k.phase.Opening?)
  {
    hide PollMsg, Drain, Fill, ParseConnected, Granted;
  }

  lemma StepKeepsSteady(t: Trace, e: Event)
    requires Steady(t.k)
    ensures Steady(Step(t, e).k)
  {
    hide Steady, OpenConn, SendConn, CloseConn, PollConn;
    match e
    case Ask(session, name, timeout, slot, random, last, now) =>
      AskKeeps(t.k, t.c, session, name, timeout, slot, random, last, now);
    case Say(session, service, path, data, timeout, now) => SayKeeps(t.k, session, service, path, data, timeout, now);
    case End(session, timeout, now) => EndKeeps(t.k, t.c, session, timeout, now);
    case Poll(now) => PollKeepsSteady(t.k, t.c, now);
    case Socket(c) =>
  }

  lemma EndKeeps(k: Conn, c: Tcp, session: u32, timeout: u32, now: nat)
    requires Steady(k)
    ensures Steady(CloseConn(k, c, session, timeout, now).0)
  {
    hide CloseConn, AskedFor, ConnOk;
    CloseKeeps(k, c, session, timeout, now);
  }

  lemma {:induction false} RunIsSteady(originator: u32, c: Tcp, es: seq<Event>)
    ensures Steady(Run(originator, c, es).k)
  {
    hide Step, Steady;
    if es == [] {
      NewIsSteady(originator);
    } else {
      RunIsSteady(originator, c, es[..|es| - 1]);
      StepKeepsSteady(Run(originator, c, es[..|es| - 1]), es[|es| - 1]);
    }
  }

  lemma NewIsSteady(originator: u32)
    ensures Steady(NewConn(originator))
  {
  }

  /** In every reachable state the sequence number is the context, modulo 2^16, and so are the
      two numbers of the request in flight. */
  lemma SequenceTracksContext(originator: u32, c: Tcp, es: seq<Event>)
    ensures var k := Run(originator, c, es).k;
            && k.sequence == k.context % 0x1_0000
            && (k.phase.Sending? ==> k.sentSequence == k.sentContext % 0x1_0000)
  {
    RunIsSteady(originator, c, es);
  }

  // ---------------------------------------------------------------------------------------
  // The identity of an open connection

  /** A Forward Open completes only on a reply frame that grants a nonzero O->T ID and echoes
      the T->O ID that the request carried. */
  lemma OpenedMeansGranted(t: Trace, now: nat)
    requires Steady(t.k) && t.k.phase.Opening?
    ensures PollConn(t.k, t.c, now).0.phase.Open? ==> Established(Step(t, Poll(now)))
  {
    hide PollMsg, HeaderOf, CallIn, ParseReply, ForwardOpenData, ConnectionPath, ReadOpen;
    var k, c := t.k, t.c;
    var k' := PollConn(k, c, now).0;
    if k'.phase.Open? {
      PollKeeps(k.fwd, c, now);
      ReplyIsParsed(k.fwd, c, now);
      OpenReadsBack(k.to, NameOf(k));
      assert NameOf(k') == NameOf(k);
    }
  }

  /** The reply a message reports is the one parsed from the frame it received. */
  lemma ReplyIsParsed(m: Msg, c: Tcp, now: nat)
    requires InFlight(m)
    ensures var (m', _, st) := PollMsg(m, c, now);
            st == Ok ==> m'.reply == ParseReply(m'.wire.rx, m.sentContext)
  {
    hide Drain, Fill, ParseReply;
    assert PollMsg(m, c, now).2 == Ok ==> Drain(m.wire, c).2 == Ok;
  }

  /** The one step that loses the identity of an open connection: an open() made while it is
      open, refused because the socket is down, has already cleared the O->T ID. */
  predicate Forgets(t: Trace, e: Event) {
    e.Ask? && t.k.phase.Open? && |e.name| < MAX_CONN_NAME && !Connected(t.c)
  }

  lemma StepKeepsEstablished(t: Trace, e: Event)
    requires Steady(t.k) && Established(t) && !Forgets(t, e)
    ensures Established(Step(t, e))
  {
    hide OpenConn, SendConn, CloseConn, PollConn, Names, ConnectionPath;
    match e
    case Ask(session, name, timeout, slot, random, last, now) =>
      OpenKeeps(t.k, t.c, session, name, timeout, slot, random, last, now);
      AskedOrUnchanged(t.k, t.c, session, name, timeout, slot, random, last, now);
    case Say(session, service, path, data, timeout, now) =>
      SayKeepsName(t, session, service, path, data, timeout, now);
    case End(session, timeout, now) =>
      CloseKeeps(t.k, t.c, session, timeout, now);
      SameIdentity(t, Step(t, e).k);
    case Poll(now) =>
      PollConnKeeps(t.k, t.c, now);
      OnlyOpensBecomeOpening(t.k, t.c, now);
      if t.k.phase.Opening? {
        OpenedMeansGranted(t, now);
      } else {
        SameIdentity(t, Step(t, e).k);
      }
    case Socket(c) =>
  }

  lemma AskedOrUnchanged(k: Conn, c: Tcp, session: u32, name: seq<byte>, timeout: u32, slot: u8,
                         random: u32, last: u16, now: nat)
    requires Steady(k)
    ensures var (k', _, st) := OpenConn(k, c, session, name, timeout, slot, random, last, now);
            k' == k || k'.phase.Opening? || k'.phase == k.phase
    ensures var (k', _, st) := OpenConn(k, c, session, name, timeout, slot, random, last, now);
            k.phase.Sending? || k.phase.Closing? ==> k' == k
  {
    hide SendMsg, ForwardOpenData, ConnectionPath;
  }

  /** Names looks only at the identity. */
  lemma SameIdentity(t: Trace, k: Conn)
    requires k.ot == t.k.ot && k.to == t.k.to && NameOf(k) == NameOf(t.k)
    ensures t.last.Some? && Names(t.last.value, t.k) ==> Names(t.last.value, k)
  {
    hide CallIn, ReadOpen, HeaderOf, ParseReply, NameOf;
  }

  lemma SayKeepsName(t: Trace, session: u32, service: u8, path: seq<byte>, data: seq<byte>, timeout: u32, now: nat)
    requires Established(t)
    ensures Established(t.(k := SendConn(t.k, session, service, path, data, timeout, now).0))
  {
    hide Names, ConnectedFrame, CipRequest;
    SameIdentity(t, SendConn(t.k, session, service, path, data, timeout, now).0);
  }

  /** No open() along the run is made on an open connection whose socket is down. */
  predicate Careful(originator: u32, c: Tcp, es: seq<Event>) {
    forall i | 0 <= i < |es| :: !Forgets(Run(originator, c, es[..i]), es[i])
  }

  lemma CarefulPrefix(originator: u32, c: Tcp, es: seq<Event>, n: nat)
    requires Careful(originator, c, es) && n <= |es|
    ensures Careful(originator, c, es[..n])
  {
    hide Forgets, Run;
    forall i | 0 <= i < n
      ensures !Forgets(Run(originator, c, es[..n][..i]), es[..n][i])
    {
      assert es[..n][..i] == es[..i];
    }
  }

  lemma {:induction false} CarefulRunsAreEstablished(originator: u32, c: Tcp, es: seq<Event>)
    requires Careful(originator, c, es)
    ensures Established(Run(originator, c, es))
  {
    hide Step, Steady, Forgets, Names;
    if es != [] {
      var n := |es| - 1;
      CarefulPrefix(originator, c, es, n);
      CarefulRunsAreEstablished(originator, c, es[..n]);
      RunIsSteady(originator, c, es[..n]);
      StepKeepsEstablished(Run(originator, c, es[..n]), es[n]);
    }
  }

  /** Every state along the run that can send has an O->T ID. */
  predicate AlwaysHasId(originator: u32, c: Tcp, es: seq<Event>) {
    forall n | 0 <= n <= |es| ::
      var k := Run(originator, c, es[..n]).k;
      k.phase.Open? || k.phase.Sending? ==> k.ot != 0
  }

  /** The exact condition: an open connection keeps its O->T ID over a run if and only if no
      open() is made on it while its socket is down. */
  lemma OpenHasIdExactlyWhenCareful(originator: u32, c: Tcp, es: seq<Event>)
    ensures AlwaysHasId(originator, c, es) <==> Careful(originator, c, es)
  {
    hide Step, Steady, Forgets;
    if Careful(originator, c, es) {
      forall n | 0 <= n <= |es|
        ensures var k := Run(originator, c, es[..n]).k; k.phase.Open? || k.phase.Sending? ==> k.ot != 0
      {
        CarefulPrefix(originator, c, es, n);
        CarefulRunsAreEstablished(originator, c, es[..n]);
      }
    } else {
      var i :| 0 <= i < |es| && Forgets(Run(originator, c, es[..i]), es[i]);
      assert es[..i + 1][..i] == es[..i];
      RunIsSteady(originator, c, es[..i]);
      ForgettingStep(Run(originator, c, es[..i]), es[i]);
      assert Run(originator, c, es[..i + 1]) == Step(Run(originator, c, es[..i]), es[i]);
    }
  }

  lemma ForgettingStep(t: Trace, e: Event)
    requires Steady(t.k) && Forgets(t, e)
    ensures Step(t, e).k.phase.Open? && Step(t, e).k.ot == 0
  {
    hide OpenConn;
    OpenKeeps(t.k, t.c, e.session, e.name, e.timeout, e.slot, e.random, e.last, e.now);
  }

  // ---------------------------------------------------------------------------------------
  // The main results

  /** Over every careful run, an open or sending connection holds exactly the two IDs of the
      last successful Forward Open: its O->T ID is the nonzero one the target granted, its T->O
      ID the nonzero one that was sent and echoed. */
  lemma ConnectedSafety(originator: u32, c: Tcp, es: seq<Event>)
    requires Careful(originator, c, es)
    ensures var t := Run(originator, c, es);
            t.k.phase.Open? || t.k.phase.Sending? ==>
              && t.last.Some?
              && CallIn(t.last.value.request).Some? && |t.last.value.request| >= HEADER_SIZE
              && var asked := ReadOpen(CallIn(t.last.value.request).value.rest);
                 var reply := ParseReply(t.last.value.reply, HeaderOf(t.last.value.request).context);
                 && asked.Some? && asked.value.0 == t.k.to != 0
                 && reply.Some? && reply.value.code == 0 && |reply.value.data| >= 12
                 && U32At(reply.value.data, 0) == t.k.ot != 0 && U32At(reply.value.data, 4) == t.k.to
  {
    hide CallIn, ReadOpen, ParseReply, HeaderOf, NameOf;
    CarefulRunsAreEstablished(originator, c, es);
  }

  /** On any run a send completes Ok only by a frame that carries our T->O ID, the context of
      the latest request and its sequence number, which is that context modulo 2^16. */
  lemma DataReplyMatches(originator: u32, c: Tcp, es: seq<Event>, now: nat)
    ensures var t := Run(originator, c, es);
            var k', frame := PollConn(t.k, t.c, now).0, PollConn(t.k, t.c, now).0.wire.rx;
            t.k.phase.Sending? && PollConn(t.k, t.c, now).2 == Ok ==>
            && |frame| >= HEADER_SIZE + 8 && HeaderOf(frame).context == t.k.sentContext
            && ItemsOf(frame[HEADER_SIZE + 8..], U16At(frame, HEADER_SIZE + 6)).Some?
            && var items := ItemsOf(frame[HEADER_SIZE + 8..], U16At(frame, HEADER_SIZE + 6)).value;
               var id, data := LastOf(items, CONNECTED_ADDRESS), LastOf(items, CONNECTED_DATA);
               && id.Some? && |id.value| >= 4 && U32At(id.value, 0) == t.k.to
               && data.Some? && |data.value| >= 6
               && U16At(data.value, 0) == t.k.sentContext % 0x1_0000
               && k'.reply == Some(ConnReply(data.value[2], data.value[4], data.value[6..]))
  {
    hide PollConn, HeaderOf, ItemsOf, LastOf, U16At, U32At, AskedFor;
    RunIsSteady(originator, c, es);
    var t := Run(originator, c, es);
    if t.k.phase.Sending? {
      ConnectedOkMeansAnswered(t.k, t.c, now);
    }
  }

  /** On every careful run, an accepted close() sends a Forward Close that the peer reads as
      naming exactly the connection that the last successful Forward Open named. */
  lemma CloseNamesTheOpenConnection(originator: u32, c: Tcp, es: seq<Event>, session: u32, timeout: u32, now: nat)
    requires Careful(originator, c, es)
    requires var t := Run(originator, c, es); CloseConn(t.k, t.c, session, timeout, now).1 == Pending
    ensures var t := Run(originator, c, es);
            var closing := CallIn(CloseConn(t.k, t.c, session, timeout, now).0.fwd.wire.tx);
            && t.last.Some? && CallIn(t.last.value.request).Some?
            && var opening := CallIn(t.last.value.request).value;
               && opening.service == FORWARD_OPEN
               && closing.Some? && closing.value.service == FORWARD_CLOSE && closing.value.path == opening.path
               && ReadOpen(opening.rest).Some?
               && ReadClose(closing.value.rest) == Some(ReadOpen(opening.rest).value.1)
  {
    hide CallIn, ReadOpen, ReadClose, ParseReply, HeaderOf, RequestFrame, CipRequest, ConnectionPath, ForwardCloseData;
    CarefulRunsAreEstablished(originator, c, es);
    RunIsSteady(originator, c, es);
    var t := Run(originator, c, es);
    ConnectionPathFits(t.k.slot, t.k.name);
    CloseReadsBack(NameOf(t.k));
    ManagerCall(session, t.k.fwd.context, FORWARD_CLOSE, ForwardCloseData(NameOf(t.k)));
  }

  /** On every careful run, an accepted send() puts on the wire a frame that the peer reads as
      exactly the given request, addressed with the O->T ID the target granted and carrying the
      context and, modulo 2^16, the sequence number of this send. */
  lemma SentFrameCarriesGrantedId(originator: u32, c: Tcp, es: seq<Event>, session: u32, service: u8,
                                  path: seq<byte>, data: seq<byte>, timeout: u32, now: nat)
    requires Careful(originator, c, es)
    requires SendConn(Run(originator, c, es).k, session, service, path, data, timeout, now).1 == Pending
    ensures var t := Run(originator, c, es);
            var frame := SendConn(t.k, session, service, path, data, timeout, now).0.wire.tx;
            && t.last.Some? && |t.last.value.request| >= HEADER_SIZE
            && var grant := ParseReply(t.last.value.reply, HeaderOf(t.last.value.request).context);
               && grant.Some? && |grant.value.data| >= 12
               && |frame| >= HEADER_SIZE + 8
               && HeaderOf(frame).command == SEND_UNIT_DATA && HeaderOf(frame).session == session
               && HeaderOf(frame).context == t.k.context
               && U16At(frame[HEADER_SIZE..], 6) == 2 && |path| < 0x200
               && UnitItemsOf(frame[HEADER_SIZE..][8..], 2, UnitItems(None, None))
                  == UnitFound(UnitItems(Some(U32At(grant.value.data, 0)),
                                         Some(LE16(t.k.context % 0x1_0000) + CipRequest(service, path, data))))
  {
    hide CallIn, ReadOpen, ParseReply, HeaderOf, HeaderBytes, NameOf, ConnectedFrame, UnitItemsOf, U16At, U32At,
         CipRequest, Names, Careful, AskedFor, LE16, ChannelExchange.ConnectedTail;
    CarefulRunsAreEstablished(originator, c, es);
    RunIsSteady(originator, c, es);
    var t := Run(originator, c, es);
    var k := t.k;
    NamesMeansGranted(t.last.value, k);
    CipRequestLength(service, path, data);
    var cip := CipRequest(service, path, data);
    ChannelExchange.ConnectedFrameSplits(session, k.context, k.ot, k.sequence, cip);
    HeaderRoundTrip(ConnectedHeader(session, k.context, |cip|), ChannelExchange.ConnectedTail(k.ot, k.sequence, cip));
    ChannelExchange.PeerReadsConnected(session, k.context, k.ot, k.sequence, cip);
  }

  lemma NamesMeansGranted(o: Opened, k: Conn)
    requires Names(o, k)
    ensures |o.request| >= HEADER_SIZE
    ensures var grant := ParseReply(o.reply, HeaderOf(o.request).context);
            grant.Some? && |grant.value.data| >= 12 && U32At(grant.value.data, 0) == k.ot
  {
    hide CallIn, ReadOpen, ParseReply, HeaderOf;
  }
}
