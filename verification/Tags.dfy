/**
 A Logix tag: a typed 256-byte buffer with Read Tag and Write Tag over a shared message.
 */
module Tags {
  import opened Bytes
  import opened Status
  import opened Stream
  import opened Cip
  import opened Message

  const MAX_DATA: nat := 256

  datatype TagPhase = Idle | Reading | Writing | Done | Failed

  datatype Tag = Tag(
    phase: TagPhase,
    data: seq<byte>,        // the whole buffer
    dataLen: nat,
    dataType: u8,           // 0 = unknown
    code: u8)               // result code of the last completed exchange

  predicate TagOk(t: Tag) {
    |t.data| == MAX_DATA && t.dataLen <= MAX_DATA
  }

  predicate Busy(t: Tag) {
    t.phase.Reading? || t.phase.Writing?
  }

  function TagStatus(t: Tag): Status {
    match t.phase
    case Reading => Pending
    case Writing => Pending
    case Done => Ok
    case Failed => Error
    case Idle => NotReady
  }

  /** Direct, or through the backplane to a CPU slot. */
  function SendVia(m: Msg, c: Tcp, session: u32, slot: u8, service: u8, path: seq<byte>, data: seq<byte>,
                   timeout: u32, now: nat): (r: (Msg, Status))
  {
    if slot == NO_ROUTE then SendMsg(m, c, session, service, path, data, timeout, now)
    else SendRouted(m, c, session, slot, service, path, data, timeout, now)
  }

  function ReadData(count: u32): seq<byte> {
    LE16(count % 0x1_0000)
  }

  function ReadTag(t: Tag, m: Msg, c: Tcp, session: u32, name: seq<byte>, count: u32, timeout: u32, slot: u8, now: nat)
    : (r: (Tag, Msg, Status))
  {
    if |name| > MAX_SYMBOLIC_NAME then (t, m, InvalidArg)
    else if Busy(t) then (t, m, Status.Busy)
    else
      var (m', st) := SendVia(m, c, session, slot, READ_TAG, SymbolicPath(name), ReadData(count), timeout, now);
      if st != Pending then (t, m', st)
      else (t.(phase := Reading, dataLen := 0, code := 0), m', Pending)
  }

  /** How many buffer bytes a write sends; None when the type is unknown or the data too large. */
  function WriteLength(t: Tag, count: u32): (n: Option<nat>)
    requires TagOk(t)
    ensures n.Some? ==> n.value <= MAX_DATA
  {
    if t.dataType == TYPE_STRING then
      var len := U32At(t.data, 0);
      if len > MAX_DATA - 4 then None else Some(4 + len)
    else
      var size := ElementSize(t.dataType);
      if size == 0 || count > MAX_DATA / size then None
      else
        ProductFits(count, size);
        Some(count * size)
  }

  lemma ProductFits(count: nat, size: nat)
    requires size > 0 && count <= MAX_DATA / size
    ensures count * size <= MAX_DATA
  {
    assert count * size <= MAX_DATA / size * size <= MAX_DATA;
  }

  function WriteData(t: Tag, count: u32, n: nat): seq<byte>
    requires TagOk(t) && n <= MAX_DATA
  {
    LE16(count % 0x1_0000) + LE16(t.dataType) + t.data[..n]
  }

  function WriteTag(t: Tag, m: Msg, c: Tcp, session: u32, name: seq<byte>, count: u32, timeout: u32, slot: u8, now: nat)
    : (r: (Tag, Msg, Status))
    requires TagOk(t)
  {
    if |name| > MAX_SYMBOLIC_NAME then (t, m, InvalidArg)
    else if t.dataType == 0 then (t, m, NotReady)
    else if Busy(t) then (t, m, Status.Busy)
    else
      match WriteLength(t, count)
      case None => (t, m, InvalidArg)
      case Some(n) =>
        var (m', st) := SendVia(m, c, session, slot, WRITE_TAG, SymbolicPath(name), WriteData(t, count, n), timeout, now);
        if st != Pending then (t, m', st) else (t.(phase := Writing), m', Pending)
  }

  /** A successful read's data: a two-byte type, then the value, cut to the buffer. */
  function Loaded(t: Tag, reply: seq<byte>): Tag
    requires TagOk(t) && |reply| >= 2
  {
    var n := Min(|reply| - 2, MAX_DATA);
    t.(dataType := reply[0], data := Overlay(t.data, 0, reply[2..2 + n]), dataLen := n)
  }

  /** What a tag makes of the message it polled. */
  function TagAfter(t: Tag, m: Msg, st: Status): (r: (Tag, Status))
    requires TagOk(t)
  {
    if st == Pending then (t, Pending)
    else if st != Ok || m.reply.None? then (t.(phase := TagPhase.Failed), st)
    else
      var reply := m.reply.value;
      if reply.code != 0 then (t.(phase := TagPhase.Failed, code := reply.code), Error)
      else
        var t' := if t.phase.Reading? && |reply.data| >= 2 then Loaded(t, reply.data) else t;
        (t'.(phase := TagPhase.Done, code := 0), Ok)
  }

  function PollTag(t: Tag, m: Msg, c: Tcp, now: nat): (r: (Tag, Msg, Tcp, Status))
    requires TagOk(t)
  {
    if !Busy(t) then (t, m, c, TagStatus(t))
    else
      var (m', c', st) := PollMsg(m, c, now);
      var (t', st') := TagAfter(t, m', st);
      (t', m', c', st')
  }

  function AbortTag(t: Tag, m: Msg): (r: (Tag, Msg)) {
    (t.(phase := TagPhase.Idle, dataLen := 0), if Busy(t) then AbortMsg(m) else m)
  }

  lemma TagStaysOk(t: Tag, m: Msg, c: Tcp, now: nat)
    requires TagOk(t)
    ensures TagOk(PollTag(t, m, c, now).0)
  {
    hide PollMsg;
  }

  // ---------------------------------------------------------------------------------------
  // Typed access

  predicate InBounds(off: nat, size: nat) {
    size <= MAX_DATA && off <= MAX_DATA - size
  }

  /** Writing and reading a little-endian word of n bytes; out of bounds is ignored, and
      reads as 0. */
  function WithWord(data: seq<byte>, off: nat, n: nat, v: nat): (r: seq<byte>)
    requires |data| == MAX_DATA
  {
    if InBounds(off, n) then Overlay(data, off, LE(v, n)) else data
  }

  function WordAt(data: seq<byte>, off: nat, n: nat): nat
    requires |data| == MAX_DATA
  {
    if InBounds(off, n) then Val(data[off..off + n]) else 0
  }

  /** Two's complement at n bytes, and back. */
  function ToUnsigned(v: int, n: nat): int {
    if v < 0 then v + (Pow256(n) as int) else v
  }

  function ToSigned(u: int, n: nat): int {
    if 2 * u >= Pow256(n) then u - Pow256(n) else u
  }

  predicate FitsSigned(v: int, n: nat) {
    var p: int := Pow256(n);
    -p <= 2 * v < p
  }

  /** A word read back at the offset it was written is the word, at any in-bounds offset;
      every byte and every word outside it is untouched; out of bounds changes nothing. */
  lemma WordRoundTrip(data: seq<byte>, off: nat, n: nat, v: nat)
    requires |data| == MAX_DATA && v < Pow256(n)
    ensures var r := WithWord(data, off, n, v);
            && |r| == MAX_DATA
            && (InBounds(off, n) ==> WordAt(r, off, n) == v)
            && (!InBounds(off, n) ==> r == data && WordAt(r, off, n) == 0)
            && (forall k | 0 <= k < MAX_DATA && !(off <= k < off + n) :: r[k] == data[k])
            && (forall o: nat, w: nat | o + w <= off || off + n <= o :: WordAt(r, o, w) == WordAt(data, o, w))
  {
    var r := WithWord(data, off, n, v);
    if InBounds(off, n) {
      assert r[off..off + n] == LE(v, n);
      ValOfLE(v, n);
      forall o: nat, w: nat | (o + w <= off || off + n <= o) && InBounds(o, w)
        ensures WordAt(r, o, w) == WordAt(data, o, w)
      {
        assert r[o..o + w] == data[o..o + w];
      }
    }
  }

  /** The signed accessors: every value that fits survives the trip through the buffer. */
  lemma SignedRoundTrip(data: seq<byte>, off: nat, n: nat, v: int)
    requires |data| == MAX_DATA && FitsSigned(v, n) && InBounds(off, n)
    ensures 0 <= ToUnsigned(v, n) < Pow256(n)
    ensures ToSigned(WordAt(WithWord(data, off, n, ToUnsigned(v, n)), off, n), n) == v
  {
    var p := Pow256(n);
    assert 0 <= ToUnsigned(v, n) < p;
    WordRoundTrip(data, off, n, ToUnsigned(v, n));
  }

  function StringCut(s: seq<byte>): seq<byte> {
    s[..Min(|s|, MAX_DATA - 4)]
  }

  function WithString(t: Tag, s: seq<byte>): Tag
    requires TagOk(t)
  {
    var cut := StringCut(s);
    t.(data := Overlay(t.data, 0, LE32(|cut|) + cut), dataLen := 4 + |cut|)
  }

  /** What getString copies into a buffer of `room` bytes, before the terminator. */
  function StringAt(t: Tag, room: nat): seq<byte>
    requires TagOk(t)
  {
    if t.dataLen < 4 || room == 0 then []
    else t.data[4..4 + Min(Min(U32At(t.data, 0), t.dataLen - 4), room - 1)]
  }

  /** A string set and read back is the string, cut to 252 bytes and to the reader's buffer. */
  lemma StringRoundTrip(t: Tag, s: seq<byte>, room: nat)
    requires TagOk(t) && room > 0
    ensures TagOk(WithString(t, s))
    ensures StringAt(WithString(t, s), room) == s[..Min(Min(|s|, MAX_DATA - 4), room - 1)]
  {
    var cut := StringCut(s);
    var t' := WithString(t, s);
    assert t'.data == [] + LE32(|cut|) + (cut + t.data[4 + |cut|..]);
    Read32([], |cut|, cut + t.data[4 + |cut|..]);
    var n := Min(|cut|, room - 1);
    assert t'.data[4..4 + n] == cut[..n] == s[..n];
  }

  // ---------------------------------------------------------------------------------------
  // The tag, updated in place

  class LogixTag {
    const data: array<byte>
    var phase: TagPhase
    var dataLen: nat
    var dataType: u8
    var code: u8

    ghost predicate Valid()
      reads this, data
    {
      data.Length == MAX_DATA && TagOk(View())
    }

    ghost function View(): Tag
      reads this, data
    {
      Tag(phase, data[..], dataLen, dataType, code)
    }

    constructor ()
      ensures Valid() && fresh(data)
      ensures phase == TagPhase.Idle && dataLen == 0 && dataType == 0 && code == 0
    {
      data := new byte[MAX_DATA];
      phase, dataLen, dataType, code := TagPhase.Idle, 0, 0, 0;
    }

    method Read(msg: ExplicitMessage, conn: TcpConnection, session: u32, name: seq<byte>, count: u32,
                timeout: u32, slot: u8, now: nat) returns (st: Status)
      requires Valid() && msg.Valid() && data != msg.io.tx && data != msg.io.rx
      modifies this, msg, msg.io, msg.io.tx
      ensures Valid() && msg.Valid()
      ensures (View(), msg.View(), st)
              == ReadTag(old(View()), old(msg.View()), conn.View(), session, name, count, timeout, slot, now)
    {
      hide SendVia, SymbolicPath, MsgOk;
      if |name| > MAX_SYMBOLIC_NAME {
        return InvalidArg;
      }
      if phase == Reading || phase == Writing {
        return Status.Busy;
      }
      var path := BuildPath(name);
      var countBytes := LE16(count % 0x1_0000);
      st := Dispatch(msg, conn, session, slot, READ_TAG, path, countBytes, timeout, now);
      if st != Pending {
        return;
      }
      // Invalidate the previous result so a failed read cannot leave stale data.
      dataLen := 0;
      code := 0;
      phase := Reading;
    }

    static method Dispatch(msg: ExplicitMessage, conn: TcpConnection, session: u32, slot: u8, service: u8,
                           path: seq<byte>, bytes: seq<byte>, timeout: u32, now: nat) returns (st: Status)
      requires msg.Valid()
      modifies msg, msg.io, msg.io.tx
      ensures msg.Valid()
      ensures (msg.View(), st)
              == SendVia(old(msg.View()), conn.View(), session, slot, service, path, bytes, timeout, now)
    {
      hide SendMsg, SendRouted;
      if slot == NO_ROUTE {
        st := msg.Send(conn, session, service, path, bytes, timeout, now);
      } else {
        st := msg.SendRoutedTo(conn, session, slot, service, path, bytes, timeout, now);
      }
    }

    static method BuildPath(name: seq<byte>) returns (path: seq<byte>)
      requires |name| <= MAX_SYMBOLIC_NAME
      ensures path == SymbolicPath(name)
    {
      var buf := new byte[128];
      var n := AppendSymbolic(buf, 0, name);
      assert buf[..0] == [];
      path := buf[..n];
    }

    method Write(msg: ExplicitMessage, conn: TcpConnection, session: u32, name: seq<byte>, count: u32,
                 timeout: u32, slot: u8, now: nat) returns (st: Status)
      requires Valid() && msg.Valid() && data != msg.io.tx && data != msg.io.rx
      modifies this, msg, msg.io, msg.io.tx
      ensures Valid() && msg.Valid()
      ensures (View(), msg.View(), st)
              == WriteTag(old(View()), old(msg.View()), conn.View(), session, name, count, timeout, slot, now)
    {
      hide SendVia, SymbolicPath, MsgOk;
      if |name| > MAX_SYMBOLIC_NAME {
        return InvalidArg;
      }
      if dataType == 0 {
        return NotReady;         // data type unknown; read or set it first
      }
      if phase == Reading || phase == Writing {
        return Status.Busy;
      }
      var length := LengthToWrite(count);
      if length.None? {
        return InvalidArg;
      }
      var n := length.value;
      var path := BuildPath(name);
      var wdata := LE16(count % 0x1_0000) + LE16(dataType) + data[..n];
      assert wdata == WriteData(View(), count, n);
      st := Dispatch(msg, conn, session, slot, WRITE_TAG, path, wdata, timeout, now);
      if st != Pending {
        return;
      }
      phase := Writing;
    }

    /** The data length from the type and the element count, checked against the buffer. */
    method LengthToWrite(count: u32) returns (length: Option<nat>)
      requires Valid()
      ensures length == WriteLength(View(), count)
    {
      if dataType == TYPE_STRING {
        var strLen := GetU32(data, 0);
        if strLen > MAX_DATA - 4 {
          return None;           // string length too large
        }
        return Some(4 + strLen);
      }
      var elemSize := ElementSize(dataType);
      if elemSize == 0 || count > MAX_DATA / elemSize {
        return None;             // unknown data type or data too large
      }
      ProductFits(count, elemSize);
      return Some(count * elemSize);
    }

    method Poll(msg: ExplicitMessage, conn: TcpConnection, now: nat) returns (st: Status)
      requires Valid() && msg.Valid() && data != msg.io.tx && data != msg.io.rx
      modifies this, data, msg, msg.io, msg.io.rx, conn
      ensures Valid() && msg.Valid()
      ensures (View(), msg.View(), conn.View(), st)
              == PollTag(old(View()), old(msg.View()), old(conn.View()), now)
    {
      hide PollMsg, TagAfter, MsgOk;
      if phase != Reading && phase != Writing {
        match phase {
          case Done => return Ok;
          case Failed => return Error;
          case _ => return NotReady;
        }
      }
      ghost var t := View();
      PollKeeps(msg.View(), conn.View(), now) by {
        ValidIsOk(msg);
      }
      var polled := msg.Poll(conn, now);
      assert View() == t;
      st := Absorb(msg, polled);
    }

    static lemma ValidIsOk(msg: ExplicitMessage)
      requires msg.Valid()
      ensures MsgOk(msg.View())
    {
    }

    /** What poll() does with the outcome of the message's poll. */
    method Absorb(msg: ExplicitMessage, polled: Status) returns (st: Status)
      requires Valid() && msg.Valid() && data != msg.io.tx && data != msg.io.rx
      requires polled == Ok <==> msg.phase.Done?
      modifies this, data
      ensures Valid()
      ensures (View(), st) == TagAfter(old(View()), msg.View(), polled)
    {
      hide Loaded, MsgOk;
      if polled == Pending {
        return Pending;
      }
      if polled != Ok {
        phase := TagPhase.Failed;
        return polled;
      }
      var resultCode := msg.resultCode;
      if resultCode != 0 {
        phase := TagPhase.Failed;
        code := resultCode;
        return Error;
      }
      if phase == Reading && msg.dataLen >= 2 {
        Load(msg.io.rx, msg.dataOff, msg.dataLen);
      }
      code := resultCode;
      phase := TagPhase.Done;
      return Ok;
    }

    /** Copy a reply's type and value out of the receive buffer. */
    method Load(rx: array<byte>, off: nat, len: nat)
      requires Valid() && off + len <= rx.Length && len >= 2 && data != rx
      modifies this`dataType, this`dataLen, data
      ensures Valid()
      ensures View() == Loaded(old(View()), rx[off..off + len])
    {
      ghost var reply := rx[off..off + len];
      var n := len - 2;
      if n > MAX_DATA {
        n := MAX_DATA;
      }
      var kind := GetU16(rx, off);
      assert kind % 0x100 == reply[0];
      var payload := rx[off + 2..off + 2 + n];
      assert payload == reply[2..2 + n];
      dataType := kind % 0x100;
      Put(data, 0, payload);
      dataLen := n;
      OverlayIsSplice(old(data[..]), 0, payload, data[..]);
    }

    method Abort(msg: ExplicitMessage)
      requires Valid() && msg.Valid() && data != msg.io.tx && data != msg.io.rx
      modifies this, msg
      ensures Valid() && msg.Valid()
      ensures (View(), msg.View()) == AbortTag(old(View()), old(msg.View()))
    {
      // Aborting an idle tag must not disturb another tag's operation in flight.
      if phase == Reading || phase == Writing {
        msg.Abort();
      }
      phase := TagPhase.Idle;
      dataLen := 0;
    }

    // -------------------------------------------------------------------------------------
    // Typed accessors

    method SetUint8(off: nat, v: u8)
      requires Valid()
      modifies data
      ensures Valid() && data[..] == WithWord(old(data[..]), off, 1, v)
    {
      if InBounds(off, 1) {
        WordBytes(v, 0);
        Put(data, off, [v]);
        OverlayIsSplice(old(data[..]), off, LE(v, 1), data[..]);
      }
    }

    method SetUint16(off: nat, v: u16)
      requires Valid()
      modifies data
      ensures Valid() && data[..] == WithWord(old(data[..]), off, 2, v)
    {
      if InBounds(off, 2) {
        PutU16(data, off, v);
        WordBytes(0, v);
        OverlayIsSplice(old(data[..]), off, LE(v, 2), data[..]);
      }
    }

    method SetUint32(off: nat, v: u32)
      requires Valid()
      modifies data
      ensures Valid() && data[..] == WithWord(old(data[..]), off, 4, v)
    {
      if InBounds(off, 4) {
        PutU32(data, off, v);
        DoubleWordBytes(v);
        OverlayIsSplice(old(data[..]), off, LE(v, 4), data[..]);
      }
    }

    method SetUint64(off: nat, v: u64)
      requires Valid()
      modifies data
      ensures Valid() && data[..] == WithWord(old(data[..]), off, 8, v)
    {
      if InBounds(off, 8) {
        PutU64(data, off, v);
        OverlayIsSplice(old(data[..]), off, LE(v, 8), data[..]);
      }
    }

    method GetUint8(off: nat) returns (v: u8)
      requires Valid()
      ensures v == WordAt(data[..], off, 1)
    {
      if InBounds(off, 1) {
        assert data[..][off..off + 1] == [data[off]];
        OneByteValue(data[off]);
        return data[off];
      }
      return 0;
    }

    method GetUint16(off: nat) returns (v: u16)
      requires Valid()
      ensures v == WordAt(data[..], off, 2)
    {
      if InBounds(off, 2) {
        WordValue(data[..], off);
        v := GetU16(data, off);
        return v;
      }
      return 0;
    }

    method GetUint32(off: nat) returns (v: u32)
      requires Valid()
      ensures v == WordAt(data[..], off, 4)
    {
      if InBounds(off, 4) {
        DoubleWordValue(data[..], off);
        v := GetU32(data, off);
        return v;
      }
      return 0;
    }

    method GetUint64(off: nat) returns (v: u64)
      requires Valid()
      ensures v == WordAt(data[..], off, 8)
    {
      if InBounds(off, 8) {
        v := GetU64(data, off);
        return v;
      }
      return 0;
    }

    /** The signed accessors move the two's-complement word. */
    method SetInt16(off: nat, v: int)
      requires Valid() && FitsSigned(v, 2)
      modifies data
      ensures Valid() && ToUnsigned(v, 2) >= 0 && data[..] == WithWord(old(data[..]), off, 2, ToUnsigned(v, 2))
    {
      assert Pow256(2) == 0x1_0000;
      SetUint16(off, if v < 0 then v + 0x1_0000 else v);
    }

    method GetInt16(off: nat) returns (v: int)
      requires Valid()
      ensures v == ToSigned(WordAt(data[..], off, 2), 2)
    {
      assert Pow256(2) == 0x1_0000;
      var word := GetUint16(off);
      var u: int := word;
      v := if u >= 0x8000 then u - 0x1_0000 else u;
    }

    method SetInt32(off: nat, v: int)
      requires Valid() && FitsSigned(v, 4)
      modifies data
      ensures Valid() && ToUnsigned(v, 4) >= 0 && data[..] == WithWord(old(data[..]), off, 4, ToUnsigned(v, 4))
    {
      assert Pow256(4) == 0x1_0000 * Pow256(2) == TWO32;
      SetUint32(off, if v < 0 then v + TWO32 else v);
    }

    method GetInt32(off: nat) returns (v: int)
      requires Valid()
      ensures v == ToSigned(WordAt(data[..], off, 4), 4)
    {
      assert Pow256(4) == 0x1_0000 * Pow256(2) == TWO32;
      var word := GetUint32(off);
      var u: int := word;
      v := if u >= 0x8000_0000 then u - TWO32 else u;
    }

    method SetInt64(off: nat, v: int)
      requires Valid() && FitsSigned(v, 8)
      modifies data
      ensures Valid() && ToUnsigned(v, 8) >= 0 && data[..] == WithWord(old(data[..]), off, 8, ToUnsigned(v, 8))
    {
      Pow256Of8();
      SetUint64(off, if v < 0 then v + TWO64 else v);
    }

    method GetInt64(off: nat) returns (v: int)
      requires Valid()
      ensures v == ToSigned(WordAt(data[..], off, 8), 8)
    {
      Pow256Of8();
      var word := GetUint64(off);
      var u: int := word;
      v := if u >= 0x8000_0000_0000_0000 then u - TWO64 else u;
    }

    method SetString(s: seq<byte>)
      requires Valid()
      modifies this`dataLen, data
      ensures Valid() && View() == WithString(old(View()), s)
    {
      var len := |s|;
      if len > MAX_DATA - 4 {
        len := MAX_DATA - 4;
      }
      PutU32(data, 0, len);
      Put(data, 4, s[..len]);
      dataLen := 4 + len;
      assert data[..4 + len] == old(data[..0]) + (LE32(len) + s[..len]);
      OverlayIsSplice(old(data[..]), 0, LE32(len) + s[..len], data[..]);
    }

    method GetString(room: nat) returns (text: seq<byte>)
      requires Valid()
      ensures text == StringAt(View(), room)
    {
      if dataLen < 4 || room == 0 {
        return [];
      }
      var len := GetU32(data, 0);
      var n := if len < dataLen - 4 then len else dataLen - 4;
      if n > room - 1 {
        n := room - 1;
      }
      return data[4..4 + n];
    }
  }

  lemma WordBytes(b: u8, v: u16)
    ensures LE(b, 1) == [b] && LE(v, 2) == LE16(v)
  {
    assert LE(v, 2) == [v % 0x100] + LE(v / 0x100, 1);
  }

  lemma DoubleWordBytes(v: u32)
    ensures LE(v, 4) == LE32(v)
  {
    var w := v / 0x1_0000;
    assert LE(v, 4) == [v % 0x100, v / 0x100 % 0x100] + LE(v / 0x100 / 0x100, 2);
    assert v / 0x100 / 0x100 == w && w / 0x100 == v / 0x100_0000;
    WordBytes(0, w);
  }

  lemma OneByteValue(b: byte)
    ensures Val([b]) == b
  {
    assert [b][1..] == [];
  }

  lemma WordValue(s: seq<byte>, off: nat)
    requires off + 2 <= |s|
    ensures U16At(s, off) == Val(s[off..off + 2])
  {
    var t := s[off..off + 2];
    assert t[1..] == [t[1]];
    OneByteValue(t[1]);
  }

  lemma DoubleWordValue(s: seq<byte>, off: nat)
    requires off + 4 <= |s|
    ensures U32At(s, off) == Val(s[off..off + 4])
  {
    var t := s[off..off + 4];
    assert t[1..][1..] == [t[2], t[3]];
    assert Val(t) == t[0] + 0x100 * (t[1] + 0x100 * Val(t[1..][1..]));
    assert [t[2], t[3]][1..] == [t[3]];
    assert Val([t[2], t[3]]) == t[2] + 0x100 * Val([t[3]]);
    OneByteValue(t[3]);
  }
}
