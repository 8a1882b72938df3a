/**
 Result codes and wrapped-clock deadlines.
 */
module Status {
  import opened Bytes

  datatype Status =
    | Pending | Ok | Busy | WouldBlock
    | Closed | Timeout | NotReady | NoMemory | InvalidArg | Error

  /** The numeric value of a status; sockets return one of these or a byte count. */
  function Code(s: Status): int {
    match s
    case Pending => 0
    case Ok => 1
    case Busy => 2
    case WouldBlock => 3
    case Closed => -1
    case Timeout => -2
    case NotReady => -3
    case NoMemory => -4
    case InvalidArg => -5
    case Error => -6
  }

  /** The cast back from a socket result; only failure values are ever cast. */
  function FromCode(n: int): Status {
    if n == -1 then Closed
    else if n == -2 then Timeout
    else if n == -3 then NotReady
    else if n == -4 then NoMemory
    else if n == -5 then InvalidArg
    else Error
  }

  predicate IsFailure(s: Status) {
    Code(s) < 0
  }

  /** The millisecond tick as the device reads it: the unbounded clock modulo 2^32. */
  function Ticks(now: nat): u32 {
    now % TWO32
  }

  function Add32(a: u32, b: u32): u32 {
    (a + b) % TWO32
  }

  function Sub32(a: u32, b: u32): u32 {
    (a - b) % TWO32
  }

  lemma Mod32Unique(x: int, q: int, r: int)
    requires x == q * TWO32 + r && 0 <= r < TWO32
    ensures x % TWO32 == r && x / TWO32 == q
  {
  }

  /** A 32-bit word read as a two's-complement signed number. */
  function Signed32(a: u32): int {
    if a < 0x8000_0000 then a else a - TWO32
  }

  /** The deadline test every poll performs: the signed difference is non-negative. */
  predicate Expired(ticks: u32, deadline: u32) {
    Signed32(Sub32(ticks, deadline)) >= 0
  }

  /** The wrapped difference of two wrapped clocks is the true difference, wrapped. */
  lemma LatenessWraps(now: nat, start: nat, timeout: u32)
    ensures Sub32(Ticks(now), Add32(Ticks(start), timeout)) == (now - (start + timeout)) % TWO32
  {
    var due := start + timeout;
    var late := now - due;
    Mod32Unique(Ticks(start) + timeout, due / TWO32 - start / TWO32, due % TWO32);
    Mod32Unique(Ticks(now) - due % TWO32, late / TWO32 - now / TWO32 + due / TWO32, late % TWO32);
  }

  /** Within half the wrap period of the due time the test agrees with the unbounded
      clock, and outside it the test is wrong: it fires early or goes silent. */
  lemma DeadlineIsWrapSafe(now: nat, start: nat, timeout: u32)
    ensures var late := now - (start + timeout);
            var fires := Expired(Ticks(now), Add32(Ticks(start), timeout));
            && (-0x8000_0000 <= late < 0x8000_0000 ==> (fires <==> late >= 0))
            && (0x8000_0000 <= late < TWO32 ==> !fires)
            && (-TWO32 <= late < -0x8000_0000 ==> fires)
  {
    LatenessWraps(now, start, timeout);
    var late := now - (start + timeout);
    if 0 <= late < TWO32 {
      Mod32Unique(late, 0, late);
    } else if -TWO32 <= late < 0 {
      Mod32Unique(late, -1, late + TWO32);
    }
  }

  /** Handing the time left to another timer rebuilds the same wrapped deadline, moved
      only by the ticks between the two clock reads, even when the time left underflows. */
  lemma HandedDeadline(deadline: u32, t1: nat, t2: nat)
    requires t1 <= t2
    ensures Add32(Ticks(t2), Sub32(deadline, Ticks(t1))) == (deadline + (t2 - t1)) % TWO32
  {
    var left := deadline - Ticks(t1);
    var due := deadline + (t2 - t1);
    Mod32Unique(Ticks(t2) + left % TWO32, t1 / TWO32 - t2 / TWO32 - left / TWO32 + due / TWO32, due % TWO32);
  }
}
