/**
 One request and its reply carried over a socket in fragments, whoever sends it: the request
 goes out, the peer answers once when it has all of it, the reply comes in. Messages,
 sessions and connections all move their frames this way.
 */
module Courier {
  import opened Bytes
  import opened Status
  import opened Encapsulation
  import opened Stream
  import opened Framing

  /** Send what is left of the frame, then receive what is left of the reply. */
  function Pump(w: Wire, c: Tcp, limit: nat): (r: (Wire, Tcp, Status)) {
    var (w1, c1, st) := Drain(w, c);
    if st != Ok then (w1, c1, st) else Fill(w1, c1, limit)
  }

  /** A request, the reply it will get, the line it started on and the largest body accepted. */
  datatype Errand = Errand(frame: seq<byte>, reply: seq<byte>, from: Tcp, limit: nat)

  /** Where an errand stands: part of the request is on the wire, all of it once it is served,
      and what is received plus what waits is nothing before that and the reply after it. */
  predicate Underway(x: Errand, w: Wire, c: Tcp, served: bool) {
    && w.tx == x.frame && w.sent <= |x.frame| && ReceiveOk(w, x.limit)
    && c.link.Up? && c.epoch == x.from.epoch
    && c.sent == x.from.sent + x.frame[..w.sent]
    && (served ==> w.sent == |x.frame|)
    && w.rx + c.inbox == if served then x.reply else []
  }

  /** How an errand ends: Ok with the frame, or Error at an oversized header. */
  function Ending(x: Errand): Status {
    match FrameAt(x.reply, x.limit)
    case Short => Pending
    case TooLong => Error
    case Whole(_, _) => Ok
  }

  /** One whole frame, whatever follows it. */
  ghost predicate Delimited(frame: seq<byte>, limit: nat) {
    |frame| >= HEADER_SIZE && forall rest :: FrameAt(frame + rest, limit) == Whole(frame, rest)
  }

  lemma WholeIsDelimited(frame: seq<byte>, limit: nat)
    requires FrameAt(frame, limit) == Whole(frame, [])
    ensures Delimited(frame, limit)
  {
    hide HeaderOf;
    forall rest: seq<byte>
      ensures FrameAt(frame + rest, limit) == Whole(frame, rest)
    {
      assert (frame + rest)[..HEADER_SIZE] == frame[..HEADER_SIZE];
      HeaderLocal(frame + rest, frame);
      assert (frame + rest)[..|frame|] == frame && (frame + rest)[|frame|..] == rest;
    }
  }

  lemma DelimitedEnds(x: Errand)
    requires Delimited(x.reply, x.limit)
    ensures FrameAt(x.reply, x.limit) == Whole(x.reply, []) && Ending(x) == Ok
  {
    hide FrameAt;
    assert x.reply + [] == x.reply;
  }

  /** The errand is over: the reply was taken off the line, or its header refused. */
  predicate Over(x: Errand, w: Wire, c: Tcp) {
    && c.link.Up? && c.epoch == x.from.epoch && c.sent == x.from.sent + x.frame
    && w.tx == x.frame && w.sent == |x.frame| && w.rx + c.inbox == x.reply
    && match FrameAt(x.reply, x.limit)
       case Short => false
       case TooLong => |w.rx| == HEADER_SIZE
       case Whole(frame, rest) => w.rx == frame && c.inbox == rest
  }

  /** Sending moves an errand along. */
  lemma DrainUnderway(x: Errand, w: Wire, c: Tcp, served: bool)
    requires Underway(x, w, c, served) && Calm(c.script)
    ensures var (w', c', st) := Drain(w, c);
            Underway(x, w', c', served) && Calm(c'.script) && (st == Pending || (st == Ok && w'.sent == |x.frame|))
  {
    hide HeaderOf, Drain;
    DrainSends(w, c);
    DrainCalm(w, c);
    var w1 := Drain(w, c).0;
    assert x.frame[..w1.sent] == x.frame[..w.sent] + x.frame[w.sent..w1.sent];
    assert (x.from.sent + x.frame[..w.sent]) + x.frame[w.sent..w1.sent] == x.from.sent + x.frame[..w1.sent];
  }

  /** Receiving goes on with an errand or ends it. */
  lemma FillUnderway(x: Errand, w: Wire, c: Tcp, served: bool)
    requires Underway(x, w, c, served) && Calm(c.script) && w.sent == |x.frame|
    ensures var (w', c', st) := Fill(w, c, x.limit);
            && (st == Pending ==> Underway(x, w', c', served))
            && (st != Pending ==> served && Over(x, w', c') && st == Ending(x))
  {
    hide HeaderOf, Fill, FrameAt;
    FillConserves(w, c, x.limit);
    FillStops(w, c, x.limit);
    FillIsFragmentationFree(w, c, x.limit);
    FillCalm(w, c, x.limit);
    assert x.frame[..|x.frame|] == x.frame;
    NothingIsShort(x.limit);
  }

  /** On a calm line an errand goes on, or is over with exactly the reply, or with exactly the
      refusal of an oversized one. Before it is served it can only go on. */
  lemma PumpUnderway(x: Errand, w: Wire, c: Tcp, served: bool)
    requires Underway(x, w, c, served) && Calm(c.script)
    ensures var (w', c', st) := Pump(w, c, x.limit);
            && (st == Pending ==> Underway(x, w', c', served))
            && (st != Pending ==> served && Over(x, w', c') && st == Ending(x))
  {
    hide Drain, Fill, Underway, Over;
    DrainUnderway(x, w, c, served);
    var (w1, c1, st) := Drain(w, c);
    if st == Ok {
      FillUnderway(x, w1, c1, served);
    }
  }

  lemma SentKeepsReceiveOk(w: Wire, w1: Wire, limit: nat)
    requires ReceiveOk(w, limit) && w1 == w.(sent := w1.sent)
    ensures ReceiveOk(w1, limit)
  {
  }

  lemma NothingIsShort(limit: nat)
    ensures FrameAt([], limit) == Short
  {
  }

  /** The peer's whole part: once all of the request is on the wire the reply is on its way. */
  lemma ServedUnderway(x: Errand, w: Wire, c: Tcp)
    requires Underway(x, w, c, false) && w.sent == |x.frame|
    ensures Underway(x, w, c.(inbox := c.inbox + x.reply), true)
  {
    assert w.rx + (c.inbox + x.reply) == (w.rx + c.inbox) + x.reply;
  }

  /** A freshly queued request on a line with nothing waiting. */
  lemma QueuedUnderway(x: Errand)
    requires x.from.link.Up? && x.from.inbox == []
    ensures Underway(x, Queue(x.frame), x.from, false)
  {
    assert x.from.sent + x.frame[..0] == x.from.sent;
  }

  /** One generous write is enough for the request. */
  lemma PumpSends(x: Errand, w: Wire, c: Tcp, served: bool, k: nat)
    requires Underway(x, w, c, served) && c.script == [Move(k)] && k >= |x.frame|
    ensures Pump(w, c, x.limit).0.sent == |x.frame|
  {
    hide HeaderOf, Drain, Fill;
    DrainFinishes(w, c, k);
    DrainSends(w, c);
    var (w1, c1, _) := Drain(w, c);
    SentKeepsReceiveOk(w, w1, x.limit);
    FillConserves(w1, c1, x.limit);
  }

  /** Two generous reads are enough for the reply. */
  lemma PumpReceives(x: Errand, w: Wire, c: Tcp, k: nat)
    requires Underway(x, w, c, true) && FrameAt(x.reply, x.limit).Whole?
    requires c.script == [Move(k), Move(k)] && k >= HEADER_SIZE + x.limit
    ensures Pump(w, c, x.limit).2 == Ok
  {
    hide HeaderOf, Fill, FrameAt;
    FillFinishes(w, c, x.limit, k);
    assert Drain(w, c) == (w, c, Ok);
  }

  // ---------------------------------------------------------------------------------------
  // What breaks a receive

  /** A pump on the first m outcomes of the script. */
  function PumpOn(w: Wire, c: Tcp, limit: nat, m: nat): (Wire, Tcp, Status)
    requires m <= |c.script|
  {
    Pump(w, c.(script := c.script[..m]), limit)
  }

  /** How many bytes have moved, either way. */
  function Moved(c: Tcp): nat {
    |c.sent| + |c.got|
  }

  /** Every one of the first m outcomes moves something, and after them there is more to do. */
  predicate GoesOn(w: Wire, c: Tcp, limit: nat, m: nat)
    requires m <= |c.script|
  {
    && (forall j | 0 <= j <= m :: PumpOn(w, c, limit, j).2 == Pending)
    && (forall j | 0 <= j < m :: Moved(PumpOn(w, c, limit, j).1) < Moved(PumpOn(w, c, limit, j + 1).1))
  }

  /** The outcome breaks a receive that has come so far: a fault, or the move that completes a
      header which declares too much. */
  predicate Breaks(w: Wire, c: Tcp, limit: nat, io: Io) {
    && w.sent >= |w.tx|
    && (io.Fault?
        || (io.Move? && |w.rx| < HEADER_SIZE && Min(io.n, |c.inbox|) >= HEADER_SIZE - |w.rx|
            && HeaderOf(w.rx + c.inbox).length > limit))
  }

  predicate BreaksAt(w: Wire, c: Tcp, limit: nat, m: int) {
    0 <= m < |c.script| && GoesOn(w, c, limit, m)
    && Breaks(PumpOn(w, c, limit, m).0, PumpOn(w, c, limit, m).1, limit, c.script[m])
  }

  /** The whole frame is out and receiving ends in anything but a frame, a wait or a closed line. */
  predicate ReceiveFails(w: Wire, c: Tcp, limit: nat) {
    var st := Pump(w, c, limit).2;
    Drain(w, c).2 == Ok && st != Ok && st != Pending && st != Closed
  }

  /** Nothing moves without outcomes. */
  lemma PumpOnNone(w: Wire, c: Tcp, limit: nat)
    requires c.link.Up?
    ensures PumpOn(w, c, limit, 0) == (w, c.(script := []), if w.sent >= |w.tx| && |w.rx| >= w.expected then Ok else Pending)
  {
  }

  /** One write that moves something: the rest of the script goes on from there. */
  lemma WriteStep(w: Wire, c: Tcp, limit: nat)
    requires w.sent < |w.tx| && SockWrite(c, w.tx[w.sent..]).0 > 0
    ensures var (n, c1) := SockWrite(c, w.tx[w.sent..]);
            var w1 := w.(sent := w.sent + n);
            && c1.link.Up? && c.script != [] && c1.script == c.script[1..] && Moved(c1) > Moved(c)
            && Pump(w, c, limit) == Pump(w1, c1, limit) && Drain(w, c) == Drain(w1, c1)
            && forall m | 0 <= m <= |c1.script| :: PumpOn(w, c, limit, m + 1) == PumpOn(w1, c1, limit, m)
  {
    hide Fill;
    var (n, c1) := SockWrite(c, w.tx[w.sent..]);
    var w1 := w.(sent := w.sent + n);
    forall m | 0 <= m <= |c1.script|
      ensures PumpOn(w, c, limit, m + 1) == PumpOn(w1, c1, limit, m)
    {
      var p, p1 := c.(script := c.script[..m + 1]), c1.(script := c1.script[..m]);
      assert p.script[0] == c.script[0] && p.script[1..] == p1.script;
      assert SockWrite(p, w.tx[w.sent..]) == (n, p1);
      assert Drain(w, p) == Drain(w1, p1);
    }
  }

  /** The same for a read. */
  lemma ReadStep(w: Wire, c: Tcp, limit: nat, w1: Wire)
    requires w.sent >= |w.tx| && |w.rx| < w.expected && SockRead(c, w.expected - |w.rx|).0 > 0
    requires Accept(w, c.inbox[..SockRead(c, w.expected - |w.rx|).0], limit) == Some(w1)
    ensures var (n, c1) := SockRead(c, w.expected - |w.rx|);
            && c1.link.Up? && c.script != [] && c1.script == c.script[1..] && Moved(c1) > Moved(c)
            && Pump(w, c, limit) == Pump(w1, c1, limit) && Drain(w, c).2 == Drain(w1, c1).2 == Ok
            && forall m | 0 <= m <= |c1.script| :: PumpOn(w, c, limit, m + 1) == PumpOn(w1, c1, limit, m)
  {
    hide HeaderOf;
    var want := w.expected - |w.rx|;
    var (n, c1) := SockRead(c, want);
    assert w1.tx == w.tx && w1.sent == w.sent;
    forall m | 0 <= m <= |c1.script|
      ensures PumpOn(w, c, limit, m + 1) == PumpOn(w1, c1, limit, m)
    {
      var p, p1 := c.(script := c.script[..m + 1]), c1.(script := c1.script[..m]);
      assert p.script[0] == c.script[0] && p.script[1..] == p1.script;
      assert SockRead(p, want) == (n, p1);
      assert Fill(w, p, limit) == Fill(w1, p1, limit);
    }
  }

  /** So the later outcomes break it from where it is exactly if they break it from there. */
  lemma BreaksLater(w: Wire, c: Tcp, limit: nat, w1: Wire, c1: Tcp, m: nat)
    requires c.link.Up? && c1.link.Up? && c.script != [] && c1.script == c.script[1..] && Moved(c1) > Moved(c)
    requires w.sent < |w.tx| || |w.rx| < w.expected
    requires forall m | 0 <= m <= |c1.script| :: PumpOn(w, c, limit, m + 1) == PumpOn(w1, c1, limit, m)
    ensures BreaksAt(w, c, limit, m + 1) <==> BreaksAt(w1, c1, limit, m)
  {
    hide Pump, PumpOn, HeaderOf;
    PumpOnNone(w, c, limit);
    PumpOnNone(w1, c1, limit);
    if m < |c1.script| {
      assert PumpOn(w, c, limit, 1) == PumpOn(w1, c1, limit, 0);
      assert forall j | 0 <= j <= m + 1 :: j == 0 || PumpOn(w, c, limit, j) == PumpOn(w1, c1, limit, j - 1);
      assert forall j | 0 <= j <= m :: PumpOn(w1, c1, limit, j) == PumpOn(w, c, limit, j + 1);
      assert GoesOn(w, c, limit, m + 1) <==> GoesOn(w1, c1, limit, m);
    }
  }

  /** A receive fails exactly if some outcome of the script breaks it, after others that each moved
      something and left it unfinished. */
  lemma {:induction false} ReceiveFailsExactlyWhen(w: Wire, c: Tcp, limit: nat)
    requires WireOk(w) && ReceiveOk(w, limit)
    ensures ReceiveFails(w, c, limit) <==> exists m :: BreaksAt(w, c, limit, m)
    decreases |c.script|
  {
    hide HeaderOf, SockWrite, SockRead, Accept, ReceiveFails, BreaksAt;
    if Advances(w, c, limit).Some? {
      var (w1, c1) := Advances(w, c, limit).value;
      AdvanceKeeps(w, c, limit);
      AdvanceSteps(w, c, limit);
      ReceiveFailsExactlyWhen(w1, c1, limit);
      NoBreakAtOnce(w, c, limit);
      if exists m :: BreaksAt(w, c, limit, m) {
        var m :| BreaksAt(w, c, limit, m);
        BreakIsNatural(w, c, limit, m);
        BreaksLater(w, c, limit, w1, c1, m - 1);
      } else if exists m :: BreaksAt(w1, c1, limit, m) {
        var m :| BreaksAt(w1, c1, limit, m);
        BreakIsNatural(w1, c1, limit, m);
        BreaksLater(w, c, limit, w1, c1, m);
      }
    } else {
      BreaksAtOnce(w, c, limit);
    }
  }

  /** Where the first outcome of the script leads, if it moves something and breaks nothing. */
  function Advances(w: Wire, c: Tcp, limit: nat): Option<(Wire, Tcp)> {
    if w.sent < |w.tx| then
      var (n, c1) := SockWrite(c, w.tx[w.sent..]);
      if n > 0 then Some((w.(sent := w.sent + n), c1)) else None
    else if |w.rx| >= w.expected then None
    else
      var (n, c1) := SockRead(c, w.expected - |w.rx|);
      if n <= 0 then None
      else
        match Accept(w, c.inbox[..n], limit)
        case None => None
        case Some(w1) => Some((w1, c1))
  }

  lemma AdvanceKeeps(w: Wire, c: Tcp, limit: nat)
    requires WireOk(w) && ReceiveOk(w, limit) && Advances(w, c, limit).Some?
    ensures var (w1, c1) := Advances(w, c, limit).value;
            WireOk(w1) && ReceiveOk(w1, limit) && c.link.Up? && c.script != [] && |c1.script| < |c.script|
    ensures w.sent < |w.tx| || |w.rx| < w.expected
  {
    hide HeaderOf, Accept;
    if w.sent >= |w.tx| {
      AcceptKeepsReceiveOk(w, c.inbox[..SockRead(c, w.expected - |w.rx|).0], limit);
    }
  }

  lemma AdvanceSteps(w: Wire, c: Tcp, limit: nat)
    requires WireOk(w) && ReceiveOk(w, limit) && Advances(w, c, limit).Some?
    ensures var (w1, c1) := Advances(w, c, limit).value;
            && c1.link.Up? && c.script != [] && c1.script == c.script[1..] && Moved(c1) > Moved(c)
            && (ReceiveFails(w, c, limit) <==> ReceiveFails(w1, c1, limit))
            && (forall m | 0 <= m <= |c1.script| :: PumpOn(w, c, limit, m + 1) == PumpOn(w1, c1, limit, m))
  {
    hide HeaderOf, Pump, PumpOn, Drain, Accept;
    if w.sent < |w.tx| {
      WriteStep(w, c, limit);
    } else {
      ReadStep(w, c, limit, Advances(w, c, limit).value.0);
    }
  }

  lemma BreakIsNatural(w: Wire, c: Tcp, limit: nat, m: int)
    ensures BreaksAt(w, c, limit, m) ==> m >= 0
  {
    hide PumpOn, Breaks;
  }

  /** An outcome that advances does not break. */
  lemma NoBreakAtOnce(w: Wire, c: Tcp, limit: nat)
    requires ReceiveOk(w, limit) && Advances(w, c, limit).Some?
    ensures !BreaksAt(w, c, limit, 0)
  {
    hide HeaderOf, Pump;
    PumpOnNone(w, c, limit);
    if w.sent >= |w.tx| && c.script[0].Move? && |w.rx| < HEADER_SIZE && Min(c.script[0].n, |c.inbox|) >= HEADER_SIZE - |w.rx| {
      HeaderLocal(w.rx + c.inbox[..HEADER_SIZE - |w.rx|], w.rx + c.inbox);
    }
  }

  /** Where nothing advances, the receive fails now, by the first outcome, or not at all. */
  lemma BreaksAtOnce(w: Wire, c: Tcp, limit: nat)
    requires WireOk(w) && ReceiveOk(w, limit) && Advances(w, c, limit).None?
    ensures ReceiveFails(w, c, limit) <==> exists m :: BreaksAt(w, c, limit, m)
  {
    hide HeaderOf;
    forall m: int | m > 0
      ensures !BreaksAt(w, c, limit, m)
    {
      if m < |c.script| {
        OneOutcome(w, c, limit);
      }
    }
    BreaksNow(w, c, limit);
  }

  lemma OneOutcome(w: Wire, c: Tcp, limit: nat)
    requires WireOk(w) && ReceiveOk(w, limit) && Advances(w, c, limit).None? && c.script != []
    ensures PumpOn(w, c, limit, 1).2 != Pending || Moved(PumpOn(w, c, limit, 1).1) <= Moved(PumpOn(w, c, limit, 0).1)
  {
    hide HeaderOf;
    var p := c.(script := c.script[..1]);
    if c.link.Up? {
      PumpOnNone(w, c, limit);
    }
  }

  lemma BreaksNow(w: Wire, c: Tcp, limit: nat)
    requires WireOk(w) && ReceiveOk(w, limit) && Advances(w, c, limit).None?
    ensures ReceiveFails(w, c, limit) <==> BreaksAt(w, c, limit, 0)
  {
    hide HeaderOf, PumpOn;
    if c.link.Up? {
      PumpOnNone(w, c, limit);
      if w.sent >= |w.tx| && c.script != [] && c.script[0].Move? && |w.rx| < HEADER_SIZE
         && Min(c.script[0].n, |c.inbox|) >= HEADER_SIZE - |w.rx| {
        HeaderLocal(w.rx + c.inbox[..HEADER_SIZE - |w.rx|], w.rx + c.inbox);
      }
    } else {
      assert !BreaksAt(w, c, limit, 0) by {
        ShutPump(w, c, limit);
      }
    }
  }

  lemma ShutPump(w: Wire, c: Tcp, limit: nat)
    requires !c.link.Up?
    ensures PumpOn(w, c, limit, 0).2 != Pending && !ReceiveFails(w, c, limit)
  {
  }
}
