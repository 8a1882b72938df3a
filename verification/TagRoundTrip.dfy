/**
 A tag written through the client and the peer, then read back, direct or routed, over any
 fragmentation: the value survives and no other tag changes.
 */
module TagRoundTrip {
  import opened Bytes
  import opened Status
  import opened Stream
  import opened Cip
  import opened Message
  import opened Server
  import opened Exchange
  import Tags

  // ---------------------------------------------------------------------------------------
  // A tag riding on an exchange

  datatype TagWorld = TagWorld(t: Tags.Tag, w: World)

  /** The client polls through its tag; the peer takes turns as before. */
  function PlayTag(v: TagWorld, turn: Turn): TagWorld
    requires Tags.TagOk(v.t)
  {
    match turn
    case ClientPoll(now, script) =>
      var (t, m, c, _) := Tags.PollTag(v.t, v.w.m, v.w.c.(script := script), now);
      TagWorld(t, World(m, c, v.w.s))
    case PeerTurn => v.(w := Play(v.w, PeerTurn))
  }

  function PlayTagAll(v: TagWorld, ts: seq<Turn>): (r: TagWorld)
    requires Tags.TagOk(v.t)
    ensures Tags.TagOk(r.t)
  {
    if ts == [] then v
    else
      var before := PlayTagAll(v, ts[..|ts| - 1]);
      PlayTagKeepsOk(before, ts[|ts| - 1]);
      PlayTag(before, ts[|ts| - 1])
  }

  lemma PlayTagKeepsOk(v: TagWorld, turn: Turn)
    requires Tags.TagOk(v.t)
    ensures Tags.TagOk(PlayTag(v, turn).t)
  {
    hide PollMsg, Serve;
    if turn.ClientPoll? {
      Tags.TagStaysOk(v.t, v.w.m, v.w.c.(script := turn.script), turn.now);
    }
  }

  /** What the tag must be, given where its exchange stands. */
  predicate Follows(t: Tags.Tag, first: Tags.Tag, m: Msg)
    requires Tags.TagOk(first)
  {
    && MsgOk(m)
    && (InFlight(m) ==> t == first)
    && (m.phase.Done? ==> t == Tags.TagAfter(first, m, Ok).0)
    && (m.phase.Failed? ==> t == first.(phase := Tags.Failed))
    && !m.phase.Idle?
  }

  lemma PlayTagFollows(v: TagWorld, first: Tags.Tag, turn: Turn)
    requires Tags.TagOk(v.t) && Tags.TagOk(first) && Tags.Busy(first) && Follows(v.t, first, v.w.m)
    ensures var v' := PlayTag(v, turn);
            v'.w == Play(v.w, turn) && Follows(v'.t, first, v'.w.m)
  {
    hide PollMsg, Serve, Tags.Loaded;
    if turn.ClientPoll? {
      var c := v.w.c.(script := turn.script);
      PollKeeps(v.w.m, c, turn.now);
      if InFlight(v.w.m) {
        InFlightStatus(v.w.m, c, turn.now);
      } else {
        SettledPoll(v.w.m, c, turn.now);
      }
    } else {
      assert Play(v.w, turn).m == v.w.m;
    }
  }

  /** How a poll's status and the phase it leaves agree. */
  lemma InFlightStatus(m: Msg, c: Tcp, now: nat)
    requires MsgOk(m) && InFlight(m)
    ensures var (m', _, st) := PollMsg(m, c, now);
            && (st == Pending <==> InFlight(m')) && (st == Ok <==> m'.phase.Done?)
            && (st != Pending && st != Ok <==> m'.phase.Failed?)
  {
    hide Framing.Drain, Framing.Fill, ParseReply;
    PollKeeps(m, c, now);
  }

  lemma SettledPoll(m: Msg, c: Tcp, now: nat)
    requires MsgOk(m) && !InFlight(m)
    ensures PollMsg(m, c, now).0 == m && PollMsg(m, c, now).1 == c
  {
  }

  /** Over a whole run the tag's exchange is the plain exchange, and the tag follows it. */
  lemma {:induction false} TagRunFollows(v: TagWorld, ts: seq<Turn>)
    requires Tags.TagOk(v.t) && Tags.Busy(v.t) && MsgOk(v.w.m) && InFlight(v.w.m)
    ensures var r := PlayTagAll(v, ts);
            r.w == PlayAll(v.w, ts) && Follows(r.t, v.t, r.w.m)
  {
    hide Play, PlayTag;
    if ts != [] {
      TagRunFollows(v, ts[..|ts| - 1]);
      PlayTagFollows(PlayTagAll(v, ts[..|ts| - 1]), v.t, ts[|ts| - 1]);
    }
  }

  // ---------------------------------------------------------------------------------------
  // The two requests, as the peer sees them

  function KeyOf(name: seq<byte>): Key {
    Some(DecodeAscii(name))
  }

  /** The peer reads back the name the client encoded. */
  lemma PeerReadsName(name: seq<byte>)
    requires |name| <= MAX_SYMBOLIC_NAME
    ensures ParseSymbolicPath(SymbolicPath(name)) == KeyOf(name)
  {
    var path := SymbolicPath(name);
    assert path[1] == |name| && path[2..2 + |name|] == name;
  }

  predicate ValidSlot(slot: u8) {
    slot == NO_ROUTE || slot <= 16
  }

  function TagRequest(slot: u8, service: u8, name: seq<byte>, data: seq<byte>): Request {
    if slot == NO_ROUTE then Direct(service, SymbolicPath(name), data)
    else ViaSlot(slot, service, SymbolicPath(name), data)
  }

  /** Tag requests always fit: neither send() nor sendRouted() ever refuses their size. */
  lemma TagRequestsAreServable(slot: u8, service: u8, name: seq<byte>, data: seq<byte>)
    requires ValidSlot(slot) && service != UNCONNECTED_SEND && |data| <= 4 + Tags.MAX_DATA
    ensures Servable(TagRequest(slot, service, name, data))
  {
    SymbolicPathFits(name);
  }

  /** A tag request carried to completion: the client has exactly the peer's answer. */
  lemma TagExchange(t: Tags.Tag, m: Msg, c: Tcp, s: Server, session: u32, slot: u8, service: u8, name: seq<byte>,
                    data: seq<byte>, timeout: u32, start: nat, ts: seq<Turn>)
    requires Tags.TagOk(t) && Tags.Busy(t) && MsgOk(m) && !InFlight(m) && Aligned(c, s)
    requires ValidSlot(slot) && service != UNCONNECTED_SEND && |data| <= 4 + Tags.MAX_DATA
    requires Timely(ts, Tags.SendVia(m, c, session, slot, service, SymbolicPath(name), data, timeout, start).0.deadline)
    requires var (s', a) := HandleCip(s, session, service, SymbolicPath(name), data);
             a.Answered? && |a.cip| + 16 <= MAX_BODY
    ensures var (m1, st) := Tags.SendVia(m, c, session, slot, service, SymbolicPath(name), data, timeout, start);
            var (s', a) := HandleCip(s, session, service, SymbolicPath(name), data);
            var r := PlayTagAll(TagWorld(t, World(m1, c, s)), ts);
            && st == Pending && InFlight(m1)
            && (InFlight(r.w.m) ==> r.t == t)
            && (!InFlight(r.w.m) ==>
                  && |a.cip| >= 4
                  && r.w.m.phase.Done? && MsgOk(r.w.m) && r.w.m.reply == Some(ReplyOf(a.cip))
                  && r.t == Tags.TagAfter(t, r.w.m, Ok).0
                  && Aligned(r.w.c, r.w.s) && r.w.s == s'.(read := |r.w.c.sent|))
  {
    hide HandleCip, PlayAll, SendMsg, SendRouted, SymbolicPath, ReplyOf, Tags.TagAfter, RequestFrame, CipOf, RRResponse;
    var q := TagRequest(slot, service, name, data);
    TagRequestsAreServable(slot, service, name, data);
    assert SendRequest(m, c, session, q, timeout, start)
        == Tags.SendVia(m, c, session, slot, service, SymbolicPath(name), data, timeout, start);
    ExchangeIsAtomic(m, c, s, session, q, timeout, start, ts);
    AcceptedIsInFlight(m, c, s, session, q, timeout, start);
    TagRunFollows(TagWorld(t, World(SendRequest(m, c, session, q, timeout, start).0, c, s)), ts);
  }

  lemma AcceptedIsInFlight(m: Msg, c: Tcp, s: Server, session: u32, q: Request, timeout: u32, start: nat)
    requires MsgOk(m) && !InFlight(m) && Aligned(c, s) && Servable(q)
    ensures var (m1, st) := SendRequest(m, c, session, q, timeout, start);
            st == Pending && MsgOk(m1) && InFlight(m1)
  {
    hide RequestFrame, CipRequest, RoutedCip;
  }

  /** A write is answered with success and stores exactly the type and bytes sent. */
  lemma PeerStores(s: Server, session: u32, name: seq<byte>, t: Tags.Tag, count: u32, n: nat)
    requires |name| <= MAX_SYMBOLIC_NAME && Tags.TagOk(t) && n <= Tags.MAX_DATA
    ensures var (s', a) := HandleCip(s, session, WRITE_TAG, SymbolicPath(name), Tags.WriteData(t, count, n));
            && a == Answered(Status4(WRITE_TAG, 0))
            && s' == s.(tags := Store(s.tags, Entry(KeyOf(name), t.dataType, t.data[..n])))
  {
    var data := Tags.WriteData(t, count, n);
    PeerReadsName(name);
    assert data[2] == t.dataType;
    assert data[4..] == t.data[..n];
  }

  /** A read of a stored tag is answered with its type and bytes. */
  lemma PeerRecalls(s: Server, session: u32, name: seq<byte>, data: seq<byte>, e: Entry)
    requires |name| <= MAX_SYMBOLIC_NAME && Find(s.tags, KeyOf(name)) == Some(e)
    ensures HandleCip(s, session, READ_TAG, SymbolicPath(name), data)
            == (s, Answered(Status4(READ_TAG, 0) + LE16(e.kind) + e.value))
    ensures ReplyOf(Status4(READ_TAG, 0) + LE16(e.kind) + e.value)
            == Message.Reply(ReplyService(READ_TAG), 0, [], LE16(e.kind) + e.value)
  {
    PeerReadsName(name);
    var cip := Status4(READ_TAG, 0) + LE16(e.kind) + e.value;
    assert cip[0] == ReplyService(READ_TAG) && cip[2] == 0 && cip[3] == 0;
    assert cip[4..] == LE16(e.kind) + e.value && cip[4..4] == [];
  }

  /** Write, then read back with any tag object. Over all interleavings and fragmentations the
      write, once it leaves flight, is Done and the peer holds exactly the bytes; the read,
      once it leaves flight, is Done with the same type, length and bytes; and every other tag
      of the peer is as it was before. */
  lemma WriteThenRead(t: Tags.Tag, r: Tags.Tag, m: Msg, c: Tcp, s: Server, session: u32, name: seq<byte>, slot: u8,
                      count: u32, wTimeout: u32, wStart: nat, ws: seq<Turn>,
                      rCount: u32, rTimeout: u32, rStart: nat, rs: seq<Turn>)
    requires Tags.TagOk(t) && !Tags.Busy(t) && Tags.TagOk(r) && !Tags.Busy(r)
    requires MsgOk(m) && !InFlight(m) && Aligned(c, s)
    requires |name| <= MAX_SYMBOLIC_NAME && ValidSlot(slot)
    requires t.dataType != 0 && Tags.WriteLength(t, count).Some?
    requires Timely(ws, Tags.WriteTag(t, m, c, session, name, count, wTimeout, slot, wStart).1.deadline)
    ensures var n := Tags.WriteLength(t, count).value;
            var (t1, m1, st1) := Tags.WriteTag(t, m, c, session, name, count, wTimeout, slot, wStart);
            && st1 == Pending && Tags.TagOk(t1)
            && var written := PlayTagAll(TagWorld(t1, World(m1, c, s)), ws);
               (!InFlight(written.w.m) ==>
                  && written.t == t.(phase := Tags.Done, code := 0)
                  && written.w.s.tags == Store(s.tags, Entry(KeyOf(name), t.dataType, t.data[..n]))
                  && var (r1, m2, st2) := Tags.ReadTag(r, written.w.m, written.w.c, session, name, rCount, rTimeout, slot, rStart);
                     && st2 == Pending && Tags.TagOk(r1)
                     && (Timely(rs, m2.deadline) ==>
                           var back := PlayTagAll(TagWorld(r1, World(m2, written.w.c, written.w.s)), rs);
                           (!InFlight(back.w.m) ==>
                              && back.t.phase == Tags.Done
                              && back.t.dataType == t.dataType && back.t.dataLen == n && back.t.data[..n] == t.data[..n]
                              && forall key | key != KeyOf(name) :: Find(back.w.s.tags, key) == Find(s.tags, key))))
  {
    hide HandleCip, SymbolicPath, ReplyOf, Timely, Tags.SendVia, SendMsg, SendRouted, PlayTagAll, Tags.WriteData, Aligned;
    var n := Tags.WriteLength(t, count).value;
    var e := Entry(KeyOf(name), t.dataType, t.data[..n]);
    var data := Tags.WriteData(t, count, n);
    var busy := t.(phase := Tags.Writing);
    PeerStores(s, session, name, t, count, n);
    TagExchange(busy, m, c, s, session, slot, WRITE_TAG, name, data, wTimeout, wStart, ws) by {
      WriteDataLength(t, count, n);
    }
    var (t1, m1, st1) := Tags.WriteTag(t, m, c, session, name, count, wTimeout, slot, wStart);
    assert t1 == busy && st1 == Pending;
    var written := PlayTagAll(TagWorld(t1, World(m1, c, s)), ws);
    if !InFlight(written.w.m) {
      WriteReply();
      assert written.t == t.(phase := Tags.Done, code := 0);
      ReadBack(r, written.w, s, session, name, slot, e, rCount, rTimeout, rStart, rs);
    }
  }

  lemma WriteDataLength(t: Tags.Tag, count: u32, n: nat)
    requires Tags.TagOk(t) && n <= Tags.MAX_DATA
    ensures |Tags.WriteData(t, count, n)| == 4 + n
  {
  }

  lemma WriteReply()
    ensures ReplyOf(Status4(WRITE_TAG, 0)) == Message.Reply(ReplyService(WRITE_TAG), 0, [], [])
  {
  }

  /** The reading half. */
  lemma ReadBack(r: Tags.Tag, w: World, s: Server, session: u32, name: seq<byte>, slot: u8, e: Entry,
                 count: u32, timeout: u32, start: nat, ts: seq<Turn>)
    requires Tags.TagOk(r) && !Tags.Busy(r)
    requires MsgOk(w.m) && !InFlight(w.m) && Aligned(w.c, w.s) && w.s.tags == Store(s.tags, e)
    requires |name| <= MAX_SYMBOLIC_NAME && ValidSlot(slot) && e.key == KeyOf(name) && |e.value| <= Tags.MAX_DATA
    ensures var (r1, m1, st) := Tags.ReadTag(r, w.m, w.c, session, name, count, timeout, slot, start);
            && st == Pending && Tags.TagOk(r1)
            && (Timely(ts, m1.deadline) ==>
                  var back := PlayTagAll(TagWorld(r1, World(m1, w.c, w.s)), ts);
                  (!InFlight(back.w.m) ==>
                     && back.t.phase == Tags.Done
                     && back.t.dataType == e.kind && back.t.dataLen == |e.value| && back.t.data[..|e.value|] == e.value
                     && forall key | key != e.key :: Find(back.w.s.tags, key) == Find(s.tags, key)))
  {
    hide HandleCip, SymbolicPath, ReplyOf, Timely, Tags.SendVia, SendMsg, SendRouted, PlayTagAll, Aligned;
    var busy := r.(phase := Tags.Reading, dataLen := 0, code := 0);
    var data := Tags.ReadData(count);
    var q := TagRequest(slot, READ_TAG, name, data);
    FindAfterStore(s.tags, e, e.key);
    PeerRecalls(w.s, session, name, data, e);
    TagRequestsAreServable(slot, READ_TAG, name, data);
    AcceptedIsInFlight(w.m, w.c, w.s, session, q, timeout, start);
    TagSendIsRequest(w.m, w.c, session, slot, READ_TAG, name, data, timeout, start);
    var (r1, m1, st) := Tags.ReadTag(r, w.m, w.c, session, name, count, timeout, slot, start);
    assert r1 == busy && st == Pending;
    if Timely(ts, m1.deadline) {
      TagExchange(busy, w.m, w.c, w.s, session, slot, READ_TAG, name, data, timeout, start, ts);
      var back := PlayTagAll(TagWorld(r1, World(m1, w.c, w.s)), ts);
      if !InFlight(back.w.m) {
        LoadedValue(busy, e.kind, e.value);
        forall key | key != e.key
          ensures Find(back.w.s.tags, key) == Find(s.tags, key)
        {
          FindAfterStore(s.tags, e, key);
        }
      }
    }
  }

  lemma TagSendIsRequest(m: Msg, c: Tcp, session: u32, slot: u8, service: u8, name: seq<byte>, data: seq<byte>,
                         timeout: u32, start: nat)
    requires ValidSlot(slot)
    ensures Tags.SendVia(m, c, session, slot, service, SymbolicPath(name), data, timeout, start)
            == SendRequest(m, c, session, TagRequest(slot, service, name, data), timeout, start)
  {
    hide SendMsg, SendRouted;
  }

  lemma LoadedValue(t: Tags.Tag, kind: u8, value: seq<byte>)
    requires Tags.TagOk(t) && |value| <= Tags.MAX_DATA
    ensures var t' := Tags.Loaded(t, LE16(kind) + value);
            t'.dataType == kind && t'.dataLen == |value| && t'.data[..|value|] == value
  {
    var reply := LE16(kind) + value;
    assert reply[2..2 + |value|] == value;
  }
}
