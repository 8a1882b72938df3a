/**
 Sending one frame and receiving one frame over a socket that moves any number of bytes
 per call. Session, ExplicitMessage and Connection each carry this code; the three copies
 differ only in the largest body they accept, so here they share it.
 */
module Framing {
  import opened Bytes
  import opened Status
  import opened Encapsulation
  import opened Stream

  /** The live part of the transmit and receive buffers. */
  datatype Wire = Wire(
    tx: seq<byte>,        // the frame being sent
    sent: nat,
    rx: seq<byte>,        // what has been received of the reply
    expected: nat)        // how much is wanted so far

  predicate WireOk(w: Wire) {
    w.sent <= |w.tx| && |w.rx| <= w.expected
  }

  /** A freshly queued frame. */
  function Queue(frame: seq<byte>): Wire {
    Wire(frame, 0, [], HEADER_SIZE)
  }

  /** writePending(). */
  function Drain(w: Wire, c: Tcp): (r: (Wire, Tcp, Status))
    decreases |c.script|
  {
    if w.sent >= |w.tx| then (w, c, Ok)
    else
      var (n, c1) := SockWrite(c, w.tx[w.sent..]);
      if n > 0 then Drain(w.(sent := w.sent + n), c1)
      else if n == 0 then (w, c1, Pending)
      else (w, c1, FromCode(n))
  }

  /** What the receiver makes of n more bytes: once the header is complete the body length is
      known, and None means the header declares more than `limit`. */
  function Accept(w: Wire, more: seq<byte>, limit: nat): Option<Wire> {
    var rx := w.rx + more;
    if |rx| == HEADER_SIZE then
      if HeaderOf(rx).length > limit then None
      else Some(w.(rx := rx, expected := HEADER_SIZE + HeaderOf(rx).length))
    else Some(w.(rx := rx))
  }

  /** readResponse(), for bodies of at most `limit` bytes. */
  function Fill(w: Wire, c: Tcp, limit: nat): (r: (Wire, Tcp, Status))
    decreases |c.script|
  {
    if |w.rx| >= w.expected then (w, c, Ok)
    else
      var (n, c1) := SockRead(c, w.expected - |w.rx|);
      if n > 0 then
        match Accept(w, c.inbox[..n], limit)
        case None => (w.(rx := w.rx + c.inbox[..n]), c1, Error)
        case Some(w1) => Fill(w1, c1, limit)
      else if n == 0 then (w, c1, Pending)
      else (w, c1, FromCode(n))
  }

  // ---------------------------------------------------------------------------------------
  // Sending

  /** Draining moves some next part of the frame onto the wire, in order, and is Ok exactly
      when the whole frame is out. */
  lemma {:induction false} DrainSends(w: Wire, c: Tcp)
    requires WireOk(w)
    ensures var (w', c', st) := Drain(w, c);
            && w' == w.(sent := w'.sent) && w.sent <= w'.sent <= |w.tx|
            && c'.sent == c.sent + w.tx[w.sent..w'.sent]
            && c'.inbox == c.inbox && c'.got == c.got && c'.epoch == c.epoch
            && (st == Ok <==> w'.sent == |w.tx|)
            && (st == Ok || st == Pending || IsFailure(st))
    decreases |c.script|
  {
    hide SockWrite;
    if w.sent < |w.tx| {
      var b := w.tx[w.sent..];
      var (n, c1) := SockWrite(c, b);
      WriteAppends(c, b);
      if n > 0 {
        var w1 := w.(sent := w.sent + n);
        DrainSends(w1, c1);
        var (w', c', st) := Drain(w1, c1);
        assert w.tx[w.sent..w'.sent] == b[..n] + w.tx[w1.sent..w'.sent];
      }
    }
  }

  lemma {:induction false} DrainCalm(w: Wire, c: Tcp)
    requires WireOk(w) && c.link.Up? && Calm(c.script)
    ensures var (w', c', st) := Drain(w, c);
            c'.link.Up? && Calm(c'.script) && (st == Ok || st == Pending)
    decreases |c.script|
  {
    hide SockWrite;
    if w.sent < |w.tx| {
      WriteAppends(c, w.tx[w.sent..]);
      var (n, c1) := SockWrite(c, w.tx[w.sent..]);
      if n > 0 {
        DrainCalm(w.(sent := w.sent + n), c1);
      }
    }
  }

  // ---------------------------------------------------------------------------------------
  // Receiving

  /** What the bytes of a stream amount to, judged without regard to how they arrive. */
  datatype Framed =
    | Short                                      // not a whole frame yet
    | TooLong                                    // the header declares too much
    | Whole(frame: seq<byte>, rest: seq<byte>)   // one frame, then the rest of the stream

  function FrameAt(s: seq<byte>, limit: nat): Framed {
    if |s| < HEADER_SIZE then Short
    else
      var total := HEADER_SIZE + HeaderOf(s).length;
      if HeaderOf(s).length > limit then TooLong
      else if |s| < total then Short
      else Whole(s[..total], s[total..])
  }

  /** The receive counters agree with the header received so far. */
  predicate ReceiveOk(w: Wire, limit: nat) {
    && |w.rx| <= w.expected <= HEADER_SIZE + limit
    && (|w.rx| < HEADER_SIZE ==> w.expected == HEADER_SIZE)
    && (|w.rx| >= HEADER_SIZE ==> w.expected == HEADER_SIZE + HeaderOf(w.rx).length)
  }

  lemma AcceptKeepsReceiveOk(w: Wire, more: seq<byte>, limit: nat)
    requires ReceiveOk(w, limit) && 0 < |more| <= w.expected - |w.rx|
    ensures match Accept(w, more, limit)
            case Some(w1) => ReceiveOk(w1, limit) && w1.rx == w.rx + more && w1.tx == w.tx && w1.sent == w.sent
            case None => |w.rx + more| == HEADER_SIZE && HeaderOf(w.rx + more).length > limit
  {
    if |w.rx + more| > HEADER_SIZE {
      HeaderLocal(w.rx, w.rx + more);
    }
  }

  /** Every byte the receiver takes moves from the front of the inbox to the end of the reply. */
  lemma {:induction false} FillConserves(w: Wire, c: Tcp, limit: nat)
    requires ReceiveOk(w, limit)
    ensures var (w', c', st) := Fill(w, c, limit);
            && w'.rx + c'.inbox == w.rx + c.inbox && c'.got + c'.inbox == c.got + c.inbox
            && |w'.rx| + |c.got| == |c'.got| + |w.rx|
            && w'.tx == w.tx && w'.sent == w.sent && c'.sent == c.sent && c'.epoch == c.epoch
    decreases |c.script|
  {
    hide HeaderOf, SockRead, Accept, ReceiveOk;
    if |w.rx| < w.expected {
      var want := w.expected - |w.rx|;
      var (n, c1) := SockRead(c, want);
      ReadMoves(c, want, w.rx);
      if n > 0 {
        AcceptKeepsReceiveOk(w, c.inbox[..n], limit);
        var next := Accept(w, c.inbox[..n], limit);
        if next.Some? {
          FillConserves(next.value, c1, limit);
        }
      }
    }
  }

  /** The counters when a receive stops, for each way it can stop. */
  lemma {:induction false} FillStops(w: Wire, c: Tcp, limit: nat)
    requires ReceiveOk(w, limit)
    ensures var (w', c', st) := Fill(w, c, limit);
            && |w'.rx| <= HEADER_SIZE + limit && |w'.rx| <= w'.expected
            && (ReceiveOk(w', limit) || (st == Error && |w'.rx| == HEADER_SIZE && HeaderOf(w'.rx).length > limit))
            && (st == Ok ==> ReceiveOk(w', limit) && |w'.rx| == w'.expected)
            && (st == Pending ==> ReceiveOk(w', limit) && |w'.rx| < w'.expected)
            && (st == Ok || st == Pending || IsFailure(st))
    decreases |c.script|
  {
    hide HeaderOf, SockRead, Accept;
    if |w.rx| < w.expected {
      var want := w.expected - |w.rx|;
      var (n, c1) := SockRead(c, want);
      ReadMoves(c, want, w.rx);
      if n > 0 {
        AcceptKeepsReceiveOk(w, c.inbox[..n], limit);
        var next := Accept(w, c.inbox[..n], limit);
        if next.Some? {
          FillStops(next.value, c1, limit);
        }
      }
    }
  }

  /** Receiving does not depend on fragmentation. However the stream is cut up, a completed
      receive is exactly the frame at the front of the stream and leaves the rest unread, an
      oversized declaration is refused after exactly 24 bytes, and a pending receive holds a
      proper part of the frame. */
  lemma FillIsFragmentationFree(w: Wire, c: Tcp, limit: nat)
    requires ReceiveOk(w, limit)
    ensures var (w', c', st) := Fill(w, c, limit);
            var framed := FrameAt(w.rx + c.inbox, limit);
            && (st == Ok ==> framed == Whole(w'.rx, c'.inbox))
            && (!ReceiveOk(w', limit) ==> st == Error && framed == TooLong && |w'.rx| == HEADER_SIZE)
            && (st == Pending ==> framed.Whole? ==> |w'.rx| < |framed.frame| && w'.rx == framed.frame[..|w'.rx|])
  {
    hide HeaderOf, Fill;
    var (w', c', st) := Fill(w, c, limit);
    var stream := w.rx + c.inbox;
    FillConserves(w, c, limit);
    FillStops(w, c, limit);
    assert stream[..|w'.rx|] == w'.rx && stream[|w'.rx|..] == c'.inbox;
    if |w'.rx| >= HEADER_SIZE {
      HeaderLocal(w'.rx, stream);
    }
    var framed := FrameAt(stream, limit);
    if st == Pending && framed.Whole? {
      assert framed.frame[..|w'.rx|] == stream[..|w'.rx|];
    }
  }

  /** On a calm line the only failure is the oversized declaration. */
  lemma {:induction false} FillCalm(w: Wire, c: Tcp, limit: nat)
    requires ReceiveOk(w, limit) && c.link.Up? && Calm(c.script)
    ensures var (w', c', st) := Fill(w, c, limit);
            && c'.link.Up? && Calm(c'.script)
            && (st == Ok || st == Pending || (st == Error && !ReceiveOk(w', limit)))
    decreases |c.script|
  {
    hide HeaderOf, SockRead, Accept;
    if |w.rx| < w.expected {
      var want := w.expected - |w.rx|;
      var (n, c1) := SockRead(c, want);
      ReadMoves(c, want, w.rx);
      if n > 0 {
        AcceptKeepsReceiveOk(w, c.inbox[..n], limit);
        var next := Accept(w, c.inbox[..n], limit);
        if next.Some? {
          FillCalm(next.value, c1, limit);
        } else {
          assert !ReceiveOk(w.(rx := w.rx + c.inbox[..n]), limit);
        }
      }
    }
  }

  // ---------------------------------------------------------------------------------------
  // Progress: what is enough to finish

  /** One generous write empties the transmit buffer. */
  lemma DrainFinishes(w: Wire, c: Tcp, k: nat)
    requires WireOk(w) && c.link.Up? && c.script == [Move(k)] && k >= |w.tx|
    ensures Drain(w, c).2 == Ok
  {
    if w.sent < |w.tx| {
      var (n, c1) := SockWrite(c, w.tx[w.sent..]);
      assert n == |w.tx| - w.sent;
      assert Drain(w.(sent := w.sent + n), c1).2 == Ok;
    }
  }

  /** One generous read takes all that is wanted when all of it has arrived. */
  lemma ReadTakesAll(c: Tcp, want: nat, k: nat)
    requires c.link.Up? && c.script != [] && c.script[0] == Move(k) && k >= want && |c.inbox| >= want > 0
    ensures var (n, c') := SockRead(c, want);
            n == want && c'.link.Up? && c'.script == c.script[1..] && c'.inbox == c.inbox[want..]
  {
  }

  /** With the whole frame on hand, two generous reads finish the receive: one may stop at the
      end of the header, the next cannot. */
  lemma FillFinishes(w: Wire, c: Tcp, limit: nat, k: nat)
    requires ReceiveOk(w, limit) && FrameAt(w.rx + c.inbox, limit).Whole?
    requires c.link.Up? && c.script == [Move(k), Move(k)] && k >= HEADER_SIZE + limit
    ensures Fill(w, c, limit).2 == Ok
  {
    hide HeaderOf, SockRead;
    if |w.rx| < w.expected {
      var c1 := FillReads(w, c, limit, k);
      var w1 := Accept(w, c.inbox[..w.expected - |w.rx|], limit).value;
      assert Fill(w, c, limit) == Fill(w1, c1, limit);
      if |w1.rx| < w1.expected {
        var c2 := FillReads(w1, c1, limit, k);
        var w2 := Accept(w1, c1.inbox[..w1.expected - |w1.rx|], limit).value;
        assert Fill(w1, c1, limit) == Fill(w2, c2, limit);
        assert Fill(w2, c2, limit).2 == Ok;
      }
    }
  }

  /** One generous read brings a receive to its current goal. */
  lemma FillReads(w: Wire, c: Tcp, limit: nat, k: nat) returns (c1: Tcp)
    requires ReceiveOk(w, limit) && |w.rx| < w.expected && FrameAt(w.rx + c.inbox, limit).Whole?
    requires c.link.Up? && c.script != [] && c.script[0] == Move(k) && k >= HEADER_SIZE + limit
    ensures var want := w.expected - |w.rx|;
            && want <= |c.inbox|
            && c1 == SockRead(c, want).1 && c1.link.Up? && c1.script == c.script[1..]
            && Accept(w, c.inbox[..want], limit).Some?
            && var w1 := Accept(w, c.inbox[..want], limit).value;
               && Fill(w, c, limit) == Fill(w1, c1, limit)
               && ReceiveOk(w1, limit)
               && w1.rx + c1.inbox == w.rx + c.inbox
               && |w1.rx| >= HEADER_SIZE && (|w.rx| >= HEADER_SIZE ==> |w1.rx| == w1.expected)
  {
    hide HeaderOf, SockRead;
    var want := w.expected - |w.rx|;
    var stream := w.rx + c.inbox;
    if |w.rx| >= HEADER_SIZE {
      HeaderLocal(w.rx, stream);
    }
    ReadTakesAll(c, want, k);
    ReadMoves(c, want, w.rx);
    c1 := SockRead(c, want).1;
    AcceptKeepsReceiveOk(w, c.inbox[..want], limit);
    var rx := w.rx + c.inbox[..want];
    assert rx + c1.inbox == stream;
    HeaderLocal(rx, stream);
  }

  // ---------------------------------------------------------------------------------------
  // The buffers, updated in place

  class FrameIo {
    const tx: array<byte>
    const rx: array<byte>
    var txLen: nat
    var txSent: nat
    var rxLen: nat
    var rxExpected: nat

    ghost predicate Valid()
      reads this
    {
      && tx != rx
      && txSent <= txLen <= tx.Length && rxLen <= rxExpected <= rx.Length
      && rx.Length >= HEADER_SIZE && tx.Length >= HEADER_SIZE
    }

    ghost function View(): Wire
      requires Valid()
      reads this, tx, rx
    {
      Wire(tx[..txLen], txSent, rx[..rxLen], rxExpected)
    }

    constructor (capacity: nat)
      ensures Valid() && fresh(tx) && fresh(rx)
      ensures tx.Length == rx.Length == HEADER_SIZE + capacity
      ensures View() == Wire([], 0, [], 0)
    {
      tx := new byte[HEADER_SIZE + capacity](_ => 0);
      rx := new byte[HEADER_SIZE + capacity](_ => 0);
      txLen, txSent, rxLen, rxExpected := 0, 0, 0, 0;
    }

    /** Make the first `len` bytes of the transmit buffer the frame to send. */
    method Start(len: nat)
      requires Valid() && len <= tx.Length
      modifies this
      ensures Valid() && View() == Queue(tx[..len])
    {
      txLen, txSent, rxLen, rxExpected := len, 0, 0, HEADER_SIZE;
    }

    method Reset()
      requires Valid()
      modifies this
      ensures Valid() && View() == Wire([], 0, [], 0)
    {
      txLen, txSent, rxLen, rxExpected := 0, 0, 0, 0;
    }

    method WritePending(conn: TcpConnection) returns (st: Status)
      requires Valid()
      modifies this, conn
      ensures Valid()
      ensures (View(), conn.View(), st) == Drain(old(View()), old(conn.View()))
    {
      while txSent < txLen
        invariant Valid()
        invariant rxLen == old(rxLen) && rxExpected == old(rxExpected) && txLen == old(txLen)
        invariant Drain(View(), conn.View()) == Drain(old(View()), old(conn.View()))
        decreases |conn.script|
      {
        assert tx[txSent..txSent + (txLen - txSent)] == View().tx[txSent..];
        var n := conn.Write(tx, txSent, txLen - txSent);
        if n > 0 {
          txSent := txSent + n;
        } else if n == 0 {
          return Pending;      // socket buffer full; retry on next poll
        } else {
          return FromCode(n);
        }
      }
      return Ok;
    }

    method ReadResponse(conn: TcpConnection, limit: nat) returns (st: Status)
      requires Valid() && HEADER_SIZE + limit <= rx.Length
      modifies this, rx, conn
      ensures Valid()
      ensures (View(), conn.View(), st) == Fill(old(View()), old(conn.View()), limit)
    {
      hide HeaderOf, SockRead;
      while rxLen < rxExpected
        invariant Valid()
        invariant txSent == old(txSent) && txLen == old(txLen)
        invariant Fill(View(), conn.View(), limit) == Fill(old(View()), old(conn.View()), limit)
        decreases |conn.script|
      {
        ghost var w, c := View(), conn.View();
        var n := conn.Read(rx, rxLen, rxExpected - rxLen);
        if n > 0 {
          rxLen := rxLen + n;
          assert rx[..rxLen] == w.rx + c.inbox[..n];
          if rxLen == HEADER_SIZE {
            var h := DecodeHeader(rx);
            HeaderLocal(rx[..], rx[..rxLen]);
            if h.length > limit {
              return Error;    // oversized or malformed packet
            }
            rxExpected := HEADER_SIZE + h.length;
          }
        } else if n == 0 {
          assert View() == w;
          return Pending;      // no data yet; retry on next poll
        } else {
          assert View() == w;
          return FromCode(n);
        }
      }
      return Ok;
    }
  }
}
