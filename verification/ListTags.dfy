/**
 Enumerating a controller's symbols page by page: the request for one page, the parser for
 the records in it, and the loop over pages. The functions say what each step does; the
 class `TagLister` does it in place.
 */
module ListTags {
  import opened Bytes
  import opened Status
  import opened Stream
  import opened Cip
  import opened Message
  import opened Encapsulation
  import opened Framing

  const MAX_TAGS: nat := 200
  const NAME_ROOM: nat := 45          // the name buffer, less its terminator
  const CPU_SLOT: u8 := 0
  const MESSAGE_TIMEOUT: u32 := 5000

  datatype TagEntry = TagEntry(name: seq<byte>, kind: u16)

  /** One record of a page: instance, name, symbol type. */
  datatype Record = Record(instance: u32, name: seq<byte>, kind: u16)

  /** Hung: a turn of the loop never comes back. */
  datatype ListPhase = Enumerate | ReadValues | Done | Hung

  datatype Lister = Lister(phase: ListPhase, tags: seq<TagEntry>, next: u32, enumerating: bool)

  const NewLister: Lister := Lister(Enumerate, [], 0, false)

  // ---------------------------------------------------------------------------------------
  // Records

  /** A C string ends at its first NUL. */
  function CString(s: seq<byte>): (r: seq<byte>)
    ensures r <= s && 0 !in r
  {
    if s == [] || s[0] == 0 then [] else [s[0]] + CString(s[1..])
  }

  /** The table keeps the first 45 bytes of a name. */
  function EntryOf(r: Record): TagEntry {
    TagEntry(CString(r.name[..Min(|r.name|, NAME_ROOM)]), r.kind)
  }

  /** Split a whole record off the front; None when what is there is not a whole record. */
  function FirstRecord(d: seq<byte>): (r: Option<(Record, seq<byte>)>)
    ensures r.Some? ==> |r.value.1| < |d|
  {
    if |d| < 8 then None
    else
      var len: nat := U32At(d, 4);
      if 8 + len + 2 > |d| then None
      else Some((Record(U32At(d, 0), d[8..8 + len], U16At(d, 8 + len)), d[10 + len..]))
  }

  /** The whole records of a page, in order. */
  function RecordsIn(d: seq<byte>): seq<Record> {
    match FirstRecord(d)
    case None => []
    case Some((r, rest)) => [r] + RecordsIn(rest)
  }

  function RecordBytes(r: Record): seq<byte>
    requires |r.name| < TWO32
  {
    LE32(r.instance) + LE32(|r.name|) + r.name + LE16(r.kind)
  }

  predicate Encodable(rs: seq<Record>) {
    forall i | 0 <= i < |rs| :: |rs[i].name| < TWO32
  }

  function PageBytes(rs: seq<Record>): seq<byte>
    requires Encodable(rs)
  {
    if rs == [] then [] else RecordBytes(rs[0]) + PageBytes(rs[1..])
  }

  lemma FirstOfPage(r: Record, rest: seq<byte>)
    requires |r.name| < TWO32
    ensures FirstRecord(RecordBytes(r) + rest) == Some((r, rest))
  {
    hide LE32, LE16, U32At, U16At;
    var a, b, c := LE32(r.instance), LE32(|r.name|), LE16(r.kind);
    var d := RecordBytes(r) + rest;
    assert d == [] + a + (b + r.name + c + rest);
    Read32([], r.instance, b + r.name + c + rest);
    assert d == a + b + (r.name + c + rest);
    Read32(a, |r.name|, r.name + c + rest);
    assert d == (a + b + r.name) + c + rest;
    Read16(a + b + r.name, r.kind, rest);
    assert d[8..8 + |r.name|] == r.name;
    assert d[10 + |r.name|..] == rest;
  }

  /** The parser inverts the encoder, and ignores an incomplete record at the end. */
  lemma {:induction false} PageRoundTrip(rs: seq<Record>, tail: seq<byte>)
    requires Encodable(rs) && FirstRecord(tail).None?
    ensures RecordsIn(PageBytes(rs) + tail) == rs
  {
    if rs == [] {
      assert [] + tail == tail;
    } else {
      hide FirstRecord, RecordBytes;
      var rest := PageBytes(rs[1..]) + tail;
      assert PageBytes(rs) + tail == RecordBytes(rs[0]) + rest;
      FirstOfPage(rs[0], rest);
      PageRoundTrip(rs[1..], tail);
      assert [rs[0]] + rs[1..] == rs;
    }
  }

  // ---------------------------------------------------------------------------------------
  // The cursor loop, with sums of a 32-bit size

  function Sum32(p: nat, n: nat): nat {
    (p + n) % TWO32
  }

  /** One turn of the loop at position p: the record it takes and where it goes on, or None when
      it stops. The sum of position and name length wraps. A name is cut to the page. */
  function CursorStep(d: seq<byte>, p: nat): (r: Option<(Record, nat)>)
    ensures r.Some? ==> 2 <= r.value.1 <= |d|
  {
    if p + 8 > |d| then None
    else
      var len: nat := U32At(d, p + 4);
      var q := Sum32(p + 8, len);
      if q + 2 > |d| then None
      else Some((Record(U32At(d, p), d[p + 8..Min(p + 8 + len, |d|)], U16At(d, q)), q + 2))
  }

  /** The records taken in at most `turns` turns, and whether the loop has stopped by then. */
  function Scan(d: seq<byte>, p: nat, turns: nat): (r: (seq<Record>, bool))
    decreases turns
  {
    if turns == 0 then ([], false)
    else
      match CursorStep(d, p)
      case None => ([], true)
      case Some((rec, q)) => var (rs, stops) := Scan(d, q, turns - 1); ([rec] + rs, stops)
  }

  /** The records the loop takes from a page; None when it never stops. */
  function ParsePage(d: seq<byte>): Option<seq<Record>> {
    var (rs, stops) := Scan(d, 0, |d| + 2);
    if stops then Some(rs) else None
  }

  /** What is left of a page after its whole records. */
  function Tail(d: seq<byte>): (t: seq<byte>)
    ensures |t| <= |d|
  {
    match FirstRecord(d)
    case None => d
    case Some((_, rest)) => Tail(rest)
  }

  /** The length field of the incomplete record at the end wraps the cursor back into the page,
      with room for a type word there. */
  predicate WrapsBack(d: seq<byte>) {
    var t := Tail(d);
    |t| >= 8 && var end := |d| - |t| + 8 + U32At(t, 4); end >= TWO32 && end - TWO32 + 2 <= |d|
  }

  /** Nothing but the incomplete record is left of a page after its records. */
  lemma {:induction false} TailOfPage(rs: seq<Record>, tail: seq<byte>)
    requires Encodable(rs) && FirstRecord(tail).None?
    ensures Tail(PageBytes(rs) + tail) == tail
  {
    if rs == [] {
      assert [] + tail == tail;
    } else {
      hide FirstRecord, RecordBytes;
      var rest := PageBytes(rs[1..]) + tail;
      assert PageBytes(rs) + tail == RecordBytes(rs[0]) + rest;
      FirstOfPage(rs[0], rest);
      TailOfPage(rs[1..], tail);
    }
  }

  /** Parsing a page gives back its records. */
  lemma PageParses(page: seq<Record>)
    requires Encodable(page) && |PageBytes(page)| + 8 < TWO32
    ensures ParsePage(PageBytes(page)) == Some(page)
  {
    hide FirstRecord, RecordsIn, PageBytes, ParsePage;
    NoRecordInNothing();
    assert PageBytes(page) + [] == PageBytes(page);
    PageRoundTrip(page, []);
    TailOfPage(page, []);
    ParserAgreesExactlyWhen(PageBytes(page));
  }

  lemma NoRecordInNothing()
    ensures FirstRecord([]).None?
  {
  }

  lemma Wraps(p: nat, n: nat)
    requires p + n < 2 * TWO32
    ensures Sum32(p, n) == if p + n < TWO32 then p + n else p + n - TWO32
  {
    if p + n >= TWO32 {
      Mod32Unique(p + n, 1, p + n - TWO32);
    } else {
      Mod32Unique(p + n, 0, p + n);
    }
  }

  /** One turn against the reference: a whole record is taken as it is; where there is none the
      loop stops, unless the length wraps it back. */
  lemma StepAgainstReference(d: seq<byte>, p: nat)
    requires p <= |d| && |d| + 8 < TWO32
    ensures match FirstRecord(d[p..])
            case Some((r, rest)) => CursorStep(d, p) == Some((r, |d| - |rest|)) && rest == d[|d| - |rest|..]
            case None => CursorStep(d, p).Some? <==> |d| - p >= 8 && (var end := p + 8 + U32At(d, p + 4);
                                                      end >= TWO32 && end - TWO32 + 2 <= |d|)
  {
    hide U32At, U16At, Sum32;
    FirstRecordAt(d, p);
    if |d| - p >= 8 {
      Wraps(p + 8, U32At(d, p + 4));
    }
  }

  /** From position p on, with turns to spare: the loop takes the whole records, and then stops
      or takes at least one record that is not there. */
  lemma {:induction false} ScanAgainstReference(d: seq<byte>, p: nat, turns: nat)
    requires p <= |d| && |d| + 8 < TWO32 && turns > |d| - p + 1
    ensures |Tail(d[p..])| <= |d| - p
    ensures var t := Tail(d[p..]);
            var wraps := |t| >= 8 && (var end := |d| - |t| + 8 + U32At(t, 4); end >= TWO32 && end - TWO32 + 2 <= |d|);
            && (!wraps ==> Scan(d, p, turns) == (RecordsIn(d[p..]), true))
            && (wraps ==> |Scan(d, p, turns).0| > |RecordsIn(d[p..])|)
    decreases |d| - p
  {
    hide FirstRecord, CursorStep, U32At;
    StepAgainstReference(d, p);
    match FirstRecord(d[p..])
    case Some((r, rest)) =>
      var q: nat := |d| - |rest|;
      assert q > p;
      ScanAgainstReference(d, q, turns - 1);
    case None =>
      if |d| - p >= 8 {
        LongOfTail(d, p);
      }
      if CursorStep(d, p).Some? {
        assert |Scan(d, p, turns).0| >= 1;
      }
  }

  lemma LongOfTail(d: seq<byte>, p: nat)
    requires p + 8 <= |d|
    ensures U32At(d[p..], 4) == U32At(d, p + 4)
  {
  }

  /** The exact condition: the loop and the reference agree on a page if and only if the length
      field of the record that is cut off at its end does not wrap the cursor back into it. */
  lemma ParserAgreesExactlyWhen(d: seq<byte>)
    requires |d| + 8 < TWO32
    ensures ParsePage(d) == Some(RecordsIn(d)) <==> !WrapsBack(d)
  {
    hide Scan, RecordsIn, Tail, U32At;
    assert d[0..] == d;
    ScanAgainstReference(d, 0, |d| + 2);
  }

  // ---------------------------------------------------------------------------------------
  // A loop that has not stopped after that many turns never stops

  /** The position after k turns, as long as none of them stops. */
  function After(d: seq<byte>, p: nat, k: nat): Option<nat>
    decreases k
  {
    if k == 0 then Some(p)
    else
      match CursorStep(d, p)
      case None => None
      case Some((_, q)) => After(d, q, k - 1)
  }

  lemma {:induction false} StopsExactlyWhen(d: seq<byte>, p: nat, turns: nat)
    ensures Scan(d, p, turns).1 <==> After(d, p, turns).None?
    decreases turns
  {
    hide CursorStep;
    if turns > 0 && CursorStep(d, p).Some? {
      StopsExactlyWhen(d, CursorStep(d, p).value.1, turns - 1);
    }
  }

  lemma {:induction false} AfterAfter(d: seq<byte>, p: nat, j: nat, k: nat)
    requires After(d, p, j).Some?
    ensures After(d, p, j + k) == After(d, After(d, p, j).value, k)
    decreases j
  {
    hide CursorStep;
    if j > 0 {
      AfterAfter(d, CursorStep(d, p).value.1, j - 1, k);
    }
  }

  lemma {:induction false} EarlierIsSome(d: seq<byte>, p: nat, j: nat, k: nat)
    requires j <= k && After(d, p, k).Some?
    ensures After(d, p, j).Some? && (p <= |d| ==> After(d, p, j).value <= |d|)
    decreases j
  {
    hide CursorStep;
    if j > 0 {
      EarlierIsSome(d, CursorStep(d, p).value.1, j - 1, k - 1);
    }
  }

  /** A cycle goes on for ever. */
  lemma {:induction false} CycleGoesOn(d: seq<byte>, p: nat, len: nat, k: nat)
    requires len > 0 && After(d, p, len) == Some(p)
    ensures After(d, p, k).Some?
    decreases k
  {
    if k <= len {
      EarlierIsSome(d, p, k, len);
    } else {
      CycleGoesOn(d, p, len, k - len);
      AfterAfter(d, p, len, k - len);
    }
  }

  /** More numbers than values: two are equal. */
  lemma {:induction false} Pigeons(s: seq<nat>, n: nat) returns (i: nat, j: nat)
    requires |s| > n + 1 && forall k | 0 <= k < |s| :: s[k] <= n
    ensures i < j < |s| && s[i] == s[j]
    decreases n
  {
    if n == 0 {
      i, j := 0, 1;
    } else if k :| 0 <= k < |s| && s[k] == n {
      var rest := s[..k] + s[k + 1..];
      if m :| 0 <= m < |rest| && rest[m] == n {
        i, j := if m < k then m else k, if m < k then k else m + 1;
      } else {
        assert forall m | 0 <= m < |rest| :: rest[m] <= n && rest[m] != n;
        i, j := Pigeons(rest, n - 1);
        i, j := if i < k then i else i + 1, if j < k then j else j + 1;
      }
    } else {
      assert forall m | 0 <= m < |s| :: s[m] <= n && s[m] != n;
      i, j := Pigeons(s, n - 1);
    }
  }

  /** A loop that does not stop on its page within |d| + 2 turns never stops. */
  lemma UnstoppedNeverStops(d: seq<byte>, turns: nat)
    requires ParsePage(d).None?
    ensures !Scan(d, 0, turns).1
  {
    hide Scan, CursorStep;
    StopsExactlyWhen(d, 0, |d| + 2);
    forall k | 0 <= k < |d| + 2
      ensures After(d, 0, k).Some? && After(d, 0, k).value <= |d|
    {
      EarlierIsSome(d, 0, k, |d| + 2);
    }
    var places := seq(|d| + 2, k requires 0 <= k < |d| + 2 => After(d, 0, k).value);
    var i, j := Pigeons(places, |d|);
    assert After(d, 0, i).value == places[i] == places[j] == After(d, 0, j).value;
    AfterAfter(d, 0, i, j - i);
    if turns <= i {
      EarlierIsSome(d, 0, turns, i);
    } else {
      CycleGoesOn(d, After(d, 0, i).value, j - i, turns - i);
      AfterAfter(d, 0, i, turns - i);
    }
    StopsExactlyWhen(d, 0, turns);
  }

  // ---------------------------------------------------------------------------------------
  // The inputs that show it

  /** A cut-off record whose length field is 2^32 - 8: no record is there, one is taken. */
  const BOGUS: seq<byte> := [1, 0, 0, 0, 0xF8, 0xFF, 0xFF, 0xFF, 65, 66, 67, 68]

  lemma BogusWords()
    ensures |BOGUS| == 12 && U32At(BOGUS, 0) == 1 && U32At(BOGUS, 4) == 0xFFFF_FFF8 && U32At(BOGUS, 6) == 0x4241_FFFF
    ensures U16At(BOGUS, 0) == 1 && BOGUS[8..12] == [65, 66, 67, 68]
  {
  }

  lemma BogusTurns()
    ensures CursorStep(BOGUS, 0) == Some((Record(1, [65, 66, 67, 68], 1), 2)) && CursorStep(BOGUS, 2) == None
  {
    hide Sum32, U32At, U16At;
    BogusWords();
    Wraps(8, 0xFFFF_FFF8);
    Wraps(10, 0x4241_FFFF);
  }

  lemma BogusRecordIsTaken()
    ensures FirstRecord(BOGUS) == None && RecordsIn(BOGUS) == []
    ensures ParsePage(BOGUS) == Some([Record(1, [65, 66, 67, 68], 1)])
  {
    hide CursorStep, U32At, U16At;
    BogusWords();
    BogusTurns();
    assert Scan(BOGUS, 2, 13) == ([], true);
    var bogus := Record(1, [65, 66, 67, 68], 1);
    assert Scan(BOGUS, 0, 14) == ([bogus] + [], true);
    assert [bogus] + [] == [bogus];
  }

  /** One whole record, then a cut-off one whose length field is 2^32 - 10: the loop takes the
      same record over and over and never stops. */
  const ENDLESS: seq<byte> := [1, 0, 0, 0, 0, 0, 0, 0, 0xC4, 0, 2, 0, 0, 0, 0xF6, 0xFF, 0xFF, 0xFF]

  lemma EndlessTurns()
    ensures CursorStep(ENDLESS, 0).Some? && CursorStep(ENDLESS, 0).value.1 == 10
    ensures CursorStep(ENDLESS, 10).Some? && CursorStep(ENDLESS, 10).value.1 == 10
  {
    hide Sum32;
    assert U32At(ENDLESS, 4) == 0 && U32At(ENDLESS, 14) == 0xFFFF_FFF6;
    Wraps(8, 0);
    Wraps(18, 0xFFFF_FFF6);
  }

  lemma EndlessPage()
    ensures ParsePage(ENDLESS) == None
  {
    hide CursorStep;
    EndlessTurns();
    StandsStill(ENDLESS, 10, |ENDLESS| + 1);
  }

  /** A cursor that stands still never stops. */
  lemma {:induction false} StandsStill(d: seq<byte>, p: nat, turns: nat)
    requires p <= |d| && CursorStep(d, p).Some? && CursorStep(d, p).value.1 == p
    ensures !Scan(d, p, turns).1
  {
    hide CursorStep;
    if turns > 0 {
      StandsStill(d, p, turns - 1);
    }
  }

  // ---------------------------------------------------------------------------------------
  // Pages

  /** Add the records of a page while the table has room. */
  function Collect(tags: seq<TagEntry>, rs: seq<Record>): seq<TagEntry>
    decreases |rs|
  {
    if rs == [] then tags
    else Collect(if |tags| < MAX_TAGS then tags + [EntryOf(rs[0])] else tags, rs[1..])
  }

  function LastInstance(rs: seq<Record>, last: u32): u32 {
    if rs == [] then last else rs[|rs| - 1].instance
  }

  /** The loop's answer to one completed page: status 0 ends the enumeration, 6 asks for the
      page after the last instance seen, anything else gives up with what there is. If the
      record loop never stops, neither does the turn. */
  function OnPage(l: Lister, code: u8, data: seq<byte>): Lister {
    match ParsePage(data)
    case None => l.(phase := Hung)
    case Some(rs) =>
      var l1 := l.(tags := Collect(l.tags, rs), enumerating := false);
      if code == 0x06 then l1.(next := Add32(LastInstance(rs, 0), 1)) else l1.(phase := ReadValues)
  }

  /** Ask for attributes 1 (name) and 2 (symbol type). */
  function PageRequest(): seq<byte> {
    LE16(2) + LE16(1) + LE16(2)
  }

  function StepEnumerate(l: Lister, m: Msg, c: Tcp, session: u32, now: nat): (r: (Lister, Msg, Tcp)) {
    if !l.enumerating then
      var (m', st) := SendRouted(m, c, session, CPU_SLOT, GET_INSTANCE_ATTRIBUTE_LIST, SymbolPath(l.next), PageRequest(),
                                 MESSAGE_TIMEOUT, now);
      (if st == Pending then l.(enumerating := true) else l.(phase := ListPhase.Done), m', c)
    else
      var (m', c', st) := PollMsg(m, c, now);
      if st == Pending then (l, m', c')
      else if st == Ok && m'.reply.Some? then (OnPage(l, m'.reply.value.code, m'.reply.value.data), m', c')
      else (l.(phase := ListPhase.Done), m', c')
  }

  // ---------------------------------------------------------------------------------------
  // The enumeration, updated in place

  class TagLister {
    const msg: ExplicitMessage
    const table: array<TagEntry>
    var tagCount: nat
    var nextInstance: u32
    var enumerating: bool
    var phase: ListPhase

    ghost predicate Valid()
      reads this, msg, msg.io, msg.io.tx, msg.io.rx
    {
      table.Length == MAX_TAGS && tagCount <= MAX_TAGS && msg.Valid()
    }

    ghost function View(): Lister
      requires tagCount <= table.Length
      reads this, table
    {
      Lister(phase, table[..tagCount], nextInstance, enumerating)
    }

    constructor ()
      ensures Valid() && View() == NewLister && msg.View() == NewMsg
      ensures fresh(table) && fresh(msg) && fresh(msg.io) && fresh(msg.io.tx) && fresh(msg.io.rx)
    {
      msg := new ExplicitMessage();
      table := new TagEntry[MAX_TAGS](_ => TagEntry([], 0));
      tagCount, nextInstance, enumerating, phase := 0, 0, false, Enumerate;
    }

    /** buildSymbolPath(), into the caller's eight bytes. */
    static method BuildSymbolPath(path: array<byte>, instance: u32) returns (n: nat)
      requires path.Length >= 8
      modifies path
      ensures n == |SymbolPath(instance)| <= 8 && path[..n] == SymbolPath(instance)
    {
      Put(path, 0, ClassSegment(SYMBOL_CLASS));
      if instance <= 0xFF {
        Put(path, 2, InstanceSegment(instance));
        n := 4;
      } else if instance <= 0xFFFF {
        Put(path, 2, InstanceSegment16(instance));
        n := 6;
      } else {
        Put(path, 2, InstanceSegment32(instance));
        n := 8;
      }
    }

    /** startEnumerate() */
    method StartEnumerate(conn: TcpConnection, session: u32, start: u32, now: nat) returns (st: Status)
      requires Valid()
      modifies msg, msg.io, msg.io.tx
      ensures Valid()
      ensures (msg.View(), st) == SendRouted(old(msg.View()), conn.View(), session, CPU_SLOT, GET_INSTANCE_ATTRIBUTE_LIST,
                                             SymbolPath(start), PageRequest(), MESSAGE_TIMEOUT, now)
    {
      hide SendRouted, ExplicitMessage.Valid, ExplicitMessage.View, SymbolPath;
      var path := new byte[8];
      var n := BuildSymbolPath(path, start);
      var data := new byte[6];
      PutU16(data, 0, 2);                       // number of attributes
      PutU16(data, 2, 1);                       // name
      PutU16(data, 4, 2);                       // symbol type
      assert data[..] == data[..6] == PageRequest();
      st := msg.SendRoutedTo(conn, session, CPU_SLOT, GET_INSTANCE_ATTRIBUTE_LIST, path[..n], data[..], MESSAGE_TIMEOUT, now);
    }

    /** One turn of the enumerating phase of loop(). */
    method Turn(conn: TcpConnection, session: u32, now: nat)
      requires Valid() && phase.Enumerate?
      modifies this, table, msg, msg.io, msg.io.tx, msg.io.rx, conn
      ensures Valid()
      ensures var (l, m, c) := StepEnumerate(old(View()), old(msg.View()), old(conn.View()), session, now);
              msg.View() == m && conn.View() == c && if l.phase.Hung? then phase.Hung? else View() == l
    {
      hide SendRouted, PollMsg, ExplicitMessage.View, OnPage, SymbolPath, MsgOk;
      if !enumerating {
        var st := StartEnumerate(conn, session, nextInstance, now);
        if st == Pending {
          enumerating := true;
        } else {
          phase := ListPhase.Done;
        }
        return;
      }
      var st := msg.Poll(conn, now);
      if st == Pending {
        return;
      }
      if st != Ok {
        phase := ListPhase.Done;
        return;
      }
      OkIsDone(old(msg.View()), old(conn.View()), now);
      TakePage();
    }

    /** The page is here: store its records and act on its status. */
    method TakePage()
      requires Valid() && msg.View().phase.Done? && MsgOk(msg.View())
      modifies this, table
      ensures Valid() && msg.View().reply.Some?
      ensures var l := OnPage(old(View()), msg.View().reply.value.code, msg.View().reply.value.data);
              if l.phase.Hung? then phase.Hung? else View() == l
    {
      hide ParsePage, Collect, HeaderOf, ReceiveOk;
      var stops, last := ParseBatch(msg.io.rx, msg.dataOff, msg.dataLen);
      if !stops {
        phase := Hung;
        return;
      }
      enumerating := false;
      if msg.resultCode == 0x06 {
        nextInstance := Add32(last, 1);      // partial transfer: more tags remain
      } else {
        phase := ReadValues;
      }
    }

    /** Add an entry if the table has room. */
    method StoreRecord(name: seq<byte>, kind: u16)
      requires table.Length == MAX_TAGS && tagCount <= MAX_TAGS
      modifies this`tagCount, table
      ensures tagCount <= MAX_TAGS
      ensures table[..tagCount] == if old(tagCount) < MAX_TAGS then old(table[..tagCount]) + [TagEntry(CString(name), kind)]
                                   else old(table[..tagCount])
    {
      if tagCount < MAX_TAGS {
        table[tagCount] := TagEntry(CString(name), kind);
        tagCount := tagCount + 1;
      }
    }

    /** Read the record at `start`, cutting its name to the name buffer; false when the loop stops
        there. The sum of cursor and name length is a 32-bit size. */
    static method TakeRecord(buf: array<byte>, off: nat, n: nat, start: nat)
      returns (taken: bool, instance: u32, name: seq<byte>, kind: u16, p: nat)
      requires off + n <= buf.Length && start + 4 <= n
      ensures match CursorStep(buf[off..off + n], start)
              case None => !taken
              case Some((r, q)) =>
                && taken && p == q && r.instance == instance && r.kind == kind
                && name == r.name[..Min(|r.name|, NAME_ROOM)]
    {
      hide U32At, U16At, Sum32;
      ghost var d := buf[off..off + n];
      assert buf[..][off..off + n] == d;
      taken, instance, name, kind, p := false, 0, [], 0, start;
      instance := GetU32(buf, off + p);
      LongOfSlice(buf[..], off, n, p);
      p := p + 4;
      if p + 4 > n {
        return;
      }
      var nameLen := GetU32(buf, off + p);
      LongOfSlice(buf[..], off, n, p);
      p := p + 4;
      var q := Sum32(p, nameLen);
      if q > n {
        return;
      }
      var c := if nameLen < NAME_ROOM then nameLen else NAME_ROOM;
      c := Min(c, n - p);                  // what lies past the page is not modelled
      name := buf[off + p..off + p + c];
      SubSlice(buf[..], off, n, p, p + c);
      SubSlice(d, p, Min(nameLen, n - p), 0, c);
      p := q;
      if p + 2 > n {
        return;
      }
      kind := GetU16(buf, off + p);
      WordOfSlice(buf[..], off, n, p);
      p := p + 2;
      taken := true;
    }

    /** The record loop over n bytes of a buffer. It need not stop; it is given up once it has
        made more turns than there are positions. */
    method ParseBatch(buf: array<byte>, off: nat, n: nat) returns (stops: bool, last: u32)
      requires off + n <= buf.Length && table.Length == MAX_TAGS && tagCount <= MAX_TAGS
      modifies this`tagCount, table
      ensures tagCount <= MAX_TAGS
      ensures match ParsePage(old(buf[off..off + n]))
              case None => !stops
              case Some(rs) => stops && table[..tagCount] == Collect(old(table[..tagCount]), rs) && last == LastInstance(rs, 0)
    {
      hide CursorStep, Collect, CString;
      ghost var d := buf[off..off + n];
      ghost var (rs, ends) := Scan(d, 0, n + 2);
      ghost var done: seq<Record> := [];
      ghost var before := table[..tagCount];
      var p: nat, turns: nat := 0, 0;
      last := 0;
      assert [] + rs == rs;
      CollectNone(before);
      while p + 4 <= n && turns < n + 2
        decreases n + 2 - turns
        invariant p <= n && turns <= n + 2 && tagCount <= MAX_TAGS
        invariant buf[off..off + n] == d
        invariant done + Scan(d, p, n + 2 - turns).0 == rs && Scan(d, p, n + 2 - turns).1 == ends
        invariant last == LastInstance(done, 0)
        invariant table[..tagCount] == Collect(before, done)
      {
        var taken, instance, name, kind, next := TakeRecord(buf, off, n, p);
        if !taken {
          NoMore(done, rs);
          return true, last;
        }
        ghost var r := CursorStep(d, p).value.0;
        CollectSnoc(before, done, r);
        ghost var rest := Scan(d, next, n + 1 - turns).0;
        assert done + ([r] + rest) == (done + [r]) + rest;
        StoreRecord(name, kind);
        last := instance;
        done := done + [r];
        p := next;
        turns := turns + 1;
      }
      stops := turns < n + 2;
      if stops {
        NothingTaken(d, p, n + 2 - turns);
        NoMore(done, rs);
      }
    }
  }

  lemma NothingTaken(d: seq<byte>, p: nat, turns: nat)
    requires p + 4 > |d| && turns > 0
    ensures Scan(d, p, turns) == ([], true)
  {
  }

  lemma OkIsDone(m: Msg, c: Tcp, now: nat)
    requires MsgOk(m) && PollMsg(m, c, now).2 == Ok
    ensures PollMsg(m, c, now).0.phase.Done? && MsgOk(PollMsg(m, c, now).0)
  {
    hide PollMsg;
    PollKeeps(m, c, now);
  }

  lemma CollectNone(tags: seq<TagEntry>)
    ensures Collect(tags, []) == tags
  {
  }

  lemma NoMore(done: seq<Record>, rs: seq<Record>)
    requires done + [] == rs
    ensures done == rs
  {
  }

  /** Taking one more record off a page. */
  lemma {:induction false} CollectSnoc(tags: seq<TagEntry>, rs: seq<Record>, r: Record)
    ensures var soFar := Collect(tags, rs);
            Collect(tags, rs + [r]) == if |soFar| < MAX_TAGS then soFar + [EntryOf(r)] else soFar
    decreases |rs|
  {
    hide EntryOf;
    if rs == [] {
      assert [] + [r] == [r] && [r][1..] == [];
    } else {
      assert (rs + [r])[1..] == rs[1..] + [r];
      CollectSnoc(if |tags| < MAX_TAGS then tags + [EntryOf(rs[0])] else tags, rs[1..], r);
    }
  }

  /** The first record from position p of a page on. */
  lemma FirstRecordAt(d: seq<byte>, p: nat)
    requires p <= |d|
    ensures FirstRecord(d[p..]) ==
            if |d| - p < 8 then None
            else
              var len: nat := U32At(d, p + 4);
              if p + 8 + len + 2 > |d| then None
              else Some((Record(U32At(d, p), d[p + 8..p + 8 + len], U16At(d, p + 8 + len)), d[p + 10 + len..]))
  {
    hide U32At, U16At;
    if |d| - p >= 8 {
      var t := d[p..];
      assert t == d[p..p + (|d| - p)];
      LongOfSlice(d, p, |d| - p, 0);
      LongOfSlice(d, p, |d| - p, 4);
      var len: nat := U32At(d, p + 4);
      if p + 8 + len + 2 <= |d| {
        WordOfSlice(d, p, |d| - p, 8 + len);
        assert t[8..8 + len] == d[p + 8..p + 8 + len];
        assert t[10 + len..] == d[p + 10 + len..];
      }
    }
  }
}
