/**
 A TCP socket as two byte streams.

 What the network will do is data: `script` holds the outcomes of the next socket calls,
 in order, and an exhausted script means "would block". Quantifying over scripts is
 quantifying over every way the stream can be cut into pieces.
 */
module Stream {
  import opened Bytes
  import opened Status

  /** One socket outcome: up to n bytes move, the peer is gone, or another fault. */
  datatype Io = Move(n: nat) | Gone | Fault

  datatype Link = Shut | Dialing | Up | Lost

  /** What a non-blocking connect attempt turns out to be when polled. */
  datatype Dial = StillTrying | Made | Broke | TimedOut

  datatype Tcp = Tcp(
    link: Link,
    epoch: nat,           // how many connections have been dialled
    sent: seq<byte>,      // everything this connection accepted from us
    inbox: seq<byte>,     // what the peer sent and we have not consumed
    got: seq<byte>,       // what we consumed on this connection
    script: seq<Io>)

  predicate Connected(c: Tcp) {
    c.link.Up?
  }

  /** write(): a positive count, 0 for would-block, or a failure code. */
  function SockWrite(c: Tcp, b: seq<byte>): (r: (int, Tcp))
    ensures r.0 > 0 ==> r.0 <= |b| && |r.1.script| < |c.script|
  {
    if !c.link.Up? then (Code(Closed), c)
    else if |b| == 0 then (Code(InvalidArg), c)
    else if c.script == [] then (0, c)
    else
      var rest := c.(script := c.script[1..]);
      match c.script[0]
      case Move(k) => var n := Min(k, |b|); (n, rest.(sent := c.sent + b[..n]))
      case Gone => (Code(Closed), rest.(link := Lost))
      case Fault => (Code(Error), rest)
  }

  /** How many bytes the next read of `want` bytes delivers, or its failure code. */
  function SockRead(c: Tcp, want: nat): (r: (int, Tcp))
    ensures r.0 > 0 ==> r.0 <= want && r.0 <= |c.inbox| && |r.1.script| < |c.script|
  {
    if !c.link.Up? then (Code(Closed), c)
    else if want == 0 then (Code(InvalidArg), c)
    else if c.script == [] then (0, c)
    else
      var rest := c.(script := c.script[1..]);
      match c.script[0]
      case Move(k) =>
        var n := Min(k, Min(want, |c.inbox|));
        (n, rest.(inbox := c.inbox[n..], got := c.got + c.inbox[..n]))
      case Gone => (Code(Closed), rest.(link := Lost))
      case Fault => (Code(Error), rest)
  }

  /** Bytes a write accepts are appended to the outbound stream; nothing else moves. */
  lemma WriteAppends(c: Tcp, b: seq<byte>)
    ensures var (n, c') := SockWrite(c, b);
            && c'.inbox == c.inbox && c'.got == c.got && c'.epoch == c.epoch
            && c'.sent == (if n > 0 then c.sent + b[..n] else c.sent)
            && (n < 0 ==> IsFailure(FromCode(n)))
            && (c.link.Up? && Calm(c.script) && b != [] ==> n >= 0 && c'.link.Up? && Calm(c'.script))
  {
  }

  /** Bytes a read takes move from the front of the inbox, and appending them to a partial
      reply keeps reply plus inbox the same. */
  lemma ReadMoves(c: Tcp, want: nat, rx: seq<byte>)
    ensures var (n, c') := SockRead(c, want);
            && c'.sent == c.sent && c'.epoch == c.epoch
            && c'.got + c'.inbox == c.got + c.inbox
            && (n <= 0 ==> c'.inbox == c.inbox && c'.got == c.got)
            && (n > 0 ==> (rx + c.inbox[..n]) + c'.inbox == rx + c.inbox && |c'.got| == |c.got| + n)
            && (n < 0 ==> IsFailure(FromCode(n)))
            && (c.link.Up? && Calm(c.script) && want > 0 ==> n >= 0 && c'.link.Up? && Calm(c'.script))
  {
    var (n, c') := SockRead(c, want);
    if c'.inbox != c.inbox {
      assert c.inbox == c.inbox[..n] + c'.inbox;
    }
  }

  /** A script that only moves bytes: no fault on the line. */
  predicate Calm(script: seq<Io>) {
    forall i | 0 <= i < |script| :: script[i].Move?
  }

  function TcpClose(c: Tcp): Tcp {
    c.(link := Shut)
  }

  /** connect(): a refused dial leaves the socket shut; an accepted one starts a new connection. */
  function TcpConnect(c: Tcp, refusal: Option<Status>): (r: (Tcp, Status)) {
    match refusal
    case Some(why) => (TcpClose(c), if IsFailure(why) then why else Error)
    case None => (Tcp(Dialing, c.epoch + 1, [], [], [], c.script), Pending)
  }

  function TcpPoll(c: Tcp, dial: Dial): (r: (Tcp, Status)) {
    if c.link.Shut? then (c, Closed)
    else if c.link.Up? then (c, Ok)
    else
      match dial
      case StillTrying => (c, Pending)
      case Made => (c.(link := Up), Ok)
      case Broke => (TcpClose(c), Error)
      case TimedOut => (TcpClose(c), Timeout)
  }

  class TcpConnection {
    var link: Link
    var epoch: nat
    var sent: seq<byte>
    var inbox: seq<byte>
    var got: seq<byte>
    var script: seq<Io>

    ghost function View(): Tcp
      reads this
    {
      Tcp(link, epoch, sent, inbox, got, script)
    }

    constructor ()
      ensures View() == Tcp(Shut, 0, [], [], [], [])
    {
      link, epoch, sent, inbox, got, script := Shut, 0, [], [], [], [];
    }

    method Write(buf: array<byte>, off: nat, len: nat) returns (n: int)
      requires off + len <= buf.Length
      modifies this
      ensures (n, View()) == SockWrite(old(View()), buf[off..off + len])
    {
      if link != Up {
        return Code(Closed);
      }
      if len == 0 {
        return Code(InvalidArg);
      }
      if script == [] {
        return 0;
      }
      var io := script[0];
      script := script[1..];
      match io {
        case Move(k) =>
          n := Min(k, len);
          sent := sent + buf[off..off + n];
          assert buf[off..off + n] == buf[off..off + len][..n];
        case Gone =>
          link := Lost;
          n := Code(Closed);
        case Fault =>
          n := Code(Error);
      }
    }

    method Read(buf: array<byte>, off: nat, len: nat) returns (n: int)
      requires off + len <= buf.Length
      modifies this, buf
      ensures (n, View()) == SockRead(old(View()), len)
      ensures n > 0 ==> buf[..off + n] == old(buf[..off]) + old(inbox)[..n]
      ensures forall k | (if n > 0 then off + n else 0) <= k < buf.Length :: buf[k] == old(buf[k])
    {
      if link != Up {
        return Code(Closed);
      }
      if len == 0 {
        return Code(InvalidArg);
      }
      if script == [] {
        return 0;
      }
      var io := script[0];
      script := script[1..];
      match io {
        case Move(k) =>
          var m := Min(k, Min(len, |inbox|));
          Put(buf, off, inbox[..m]);
          got := got + inbox[..m];
          inbox := inbox[m..];
          n := m;
        case Gone =>
          link := Lost;
          n := Code(Closed);
        case Fault =>
          n := Code(Error);
      }
    }
  }
}
