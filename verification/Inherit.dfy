/**
 A reply that lands in another tag. A tag destroyed while its read is in flight and created anew
 under another name gets the value of the old name, whatever the interleaving and the
 fragmentation.
 */
module Inherit {
  import opened Bytes
  import opened Status
  import opened Stream
  import opened Framing
  import opened Client
  import opened ClientRuns
  import opened Lifecycle
  import opened TagRoundTrip
  import Exchange
  import Silence
  import Wedge
  import Cip
  import Courier
  import Message
  import Server
  import Session
  import Tags

  // ---------------------------------------------------------------------------------------
  // A client with one busy slot is that slot's tag and the message

  /** Slot h is in use under the name, and no other slot is busy. */
  predicate Alone(c: Client, h: nat, name: seq<byte>) {
    && h < |c.slots| && c.slots[h].inUse && c.slots[h].name == name
    && forall j | 0 <= j < |c.slots| && j != h :: !SlotBusy(c.slots[j])
  }

  /** One slot's turn: slot h is its tag, any other leaves everything that matters. */
  lemma LoneSlot(c: Client, i: nat, h: nat, name: seq<byte>, now: nat)
    requires Inv(c) && i < |c.slots| && c.slots[i].inUse && Alone(c, h, name)
    ensures var (c', st, fires) := PollSlot(c, i, now);
            var (t, m, tcp, s) := Tags.PollTag(c.slots[h].tag, c.msg, c.tcp, now);
            && Inv(c') && Alone(c', h, name) && |c'.slots| == |c.slots| && c'.state == c.state
            && (if i == h then c'.slots[h].tag == t && c'.msg == m && c'.tcp == tcp && st == s
                else !fires && st != Closed && c'.slots[h] == c.slots[h] && c'.msg == c.msg && c'.tcp == c.tcp)
  {
    hide Message.PollMsg, Tags.TagAfter, Single, Fresh;
    PollSlotKeeps(c, i, now);
    assert SlotBusy(c.slots[i]) ==> BusyAt(c.slots, i);
  }

  lemma {:induction false} LoneSlots(c: Client, i: nat, h: nat, name: seq<byte>, now: nat)
    requires Inv(c) && i <= |c.slots| && Alone(c, h, name)
    requires i <= h ==> Tags.PollTag(c.slots[h].tag, c.msg, c.tcp, now).3 != Closed
    ensures var c' := RunSlots(c, i, false, now).0;
            var (t, m, tcp, _) := Tags.PollTag(c.slots[h].tag, c.msg, c.tcp, now);
            && Inv(c') && Alone(c', h, name) && c'.state == c.state
            && (if i <= h then c'.slots[h].tag == t && c'.msg == m && c'.tcp == tcp
                else c'.slots[h] == c.slots[h] && c'.msg == c.msg && c'.tcp == c.tcp)
    decreases |c.slots| - i
  {
    hide PollSlot, Tags.PollTag, Single, Fresh, Notified;
    if i < |c.slots| {
      if !c.slots[i].inUse {
        LoneSlots(c, i + 1, h, name, now);
      } else {
        var (c1, st, fires) := PollSlot(c, i, now);
        LoneSlot(c, i, h, name, now);
        if fires {
          FramesDoNotMatter(c1, c1.frames + [Frame(i + 1, st == Closed)], c1.tcp.script);
        } else {
          LoneSlots(c1, i + 1, h, name, now);
        }
      }
    }
  }

  // ---------------------------------------------------------------------------------------
  // Client and peer play what tag and peer play

  function BeatOf(t: Exchange.Turn): Beat {
    match t
    case ClientPoll(now, script) => PollTurn(Env(now, now, now, true, None, StillTrying, script))
    case PeerTurn => ServerTurn
  }

  function BeatAll(w: Scene, ts: seq<Exchange.Turn>): Scene {
    if ts == [] then w else Act(BeatAll(w, ts[..|ts| - 1]), BeatOf(ts[|ts| - 1]))
  }

  /** The client's slot h plays the part of the tag. */
  ghost predicate Mirrors(w: Scene, v: TagWorld, h: nat, name: seq<byte>) {
    && Inv(w.c) && w.c.state.Ready? && w.c.tcp.link.Up? && Alone(w.c, h, name)
    && v == TagWorld(w.c.slots[h].tag, Exchange.World(w.c.msg, w.c.tcp, w.s))
  }

  /** On a calm line a poll of a message neither loses the line nor reports it lost. */
  lemma CalmMessagePoll(m: Msg, c: Tcp, now: nat)
    requires Message.MsgOk(m) && c.link.Up? && Calm(c.script)
    ensures var (m', c', st) := Message.PollMsg(m, c, now); st != Closed && c'.link.Up?
  {
    hide Drain, Fill, Message.ParseReply;
    if Message.InFlight(m) {
      DrainCalm(m.wire, c);
      DrainSends(m.wire, c);
      var (w1, c1, st) := Drain(m.wire, c);
      if st == Ok {
        Courier.SentKeepsReceiveOk(m.wire, w1, Message.MAX_BODY);
        FillCalm(w1, c1, Message.MAX_BODY);
      }
    }
  }

  lemma MirrorsBeat(w: Scene, v: TagWorld, h: nat, name: seq<byte>, t: Exchange.Turn)
    requires Mirrors(w, v, h, name) && Tags.TagOk(v.t) && (t.ClientPoll? ==> Calm(t.script))
    ensures Mirrors(Act(w, BeatOf(t)), PlayTag(v, t), h, name)
  {
    hide Message.PollMsg, Single, Fresh, Notified, Server.Serve, RunSlots;
    match t
    case ClientPoll(now, script) =>
      var env := Env(now, now, now, true, None, StillTrying, script);
      var c := w.c.(tcp := w.c.tcp.(script := script));
      FramesDoNotMatter(w.c, w.c.frames, script);
      assert w.c.(frames := w.c.frames, tcp := w.c.tcp.(script := script)) == c;
      IsMsgOk(w.c);
      CalmMessagePoll(c.msg, c.tcp, now);
      LoneSlots(c, 0, h, name, now);
    case PeerTurn =>
      OtherBeatsKeep(w, ServerTurn);
  }

  lemma IsMsgOk(c: Client)
    requires Inv(c)
    ensures Message.MsgOk(c.msg)
  {
  }

  lemma {:induction false} MirrorsAll(w: Scene, v: TagWorld, h: nat, name: seq<byte>, ts: seq<Exchange.Turn>)
    requires Mirrors(w, v, h, name) && Tags.TagOk(v.t) && forall i | 0 <= i < |ts| :: ts[i].ClientPoll? ==> Calm(ts[i].script)
    ensures Mirrors(BeatAll(w, ts), PlayTagAll(v, ts), h, name)
  {
    hide Act, PlayTag, Mirrors;
    if ts != [] {
      MirrorsAll(w, v, h, name, ts[..|ts| - 1]);
      MirrorsBeat(BeatAll(w, ts[..|ts| - 1]), PlayTagAll(v, ts[..|ts| - 1]), h, name, ts[|ts| - 1]);
    }
  }

  // ---------------------------------------------------------------------------------------
  // The value of another name

  /** The client after a read was started, its tag destroyed and another one created. */
  function Renamed(c: Client, h: int, timeout: u32, start: nat, name: seq<byte>, count: u32): Client {
    CreateTag(DestroyTag(Read(c, h, timeout, start).0, h).0, name, count).0
  }

  /** The new tag takes the hidden slot. */
  predicate TakesSlot(c: Client, h: int, timeout: u32, start: nat, name: seq<byte>) {
    && name != [] && |name| < MAX_TAG_NAME
    && FindFree(DestroyTag(Read(c, h, timeout, start).0, h).0.slots) == h
  }

  lemma RenamedMirrors(c: Client, s: Server.Server, h: nat, timeout: u32, start: nat, name: seq<byte>, count: u32)
    requires Inv(c) && ValidHandle(c, h) && Read(c, h, timeout, start).1 == Pending && Exchange.Aligned(c.tcp, s)
    requires TakesSlot(c, h, timeout, start, name)
    ensures var sl := c.slots[h];
            var (t1, m1, st) := Tags.ReadTag(sl.tag, c.msg, c.tcp, c.session.handle, sl.name, sl.count, timeout, c.cpuSlot, start);
            && st == Pending && !Tags.Busy(sl.tag) && Message.MsgOk(c.msg) && !Message.InFlight(c.msg) && ValidSlot(c.cpuSlot)
            && |sl.name| < MAX_TAG_NAME && Tags.TagOk(sl.tag) && Read(c, h, timeout, start).0.msg == m1
            && Mirrors(Scene(Renamed(c, h, timeout, start, name, count), s), TagWorld(t1, Exchange.World(m1, c.tcp, s)), h, name)
  {
    hide Fresh, Notified, Message.CipRequest, Message.RoutedCip, Message.StartSend, Cip.SymbolicPath;
    var c1 := Read(c, h, timeout, start).0;
    var c2 := DestroyTag(c1, h).0;
    ReadKeeps(c, h, timeout, start);
    DestroyKeeps(c1, h);
    CreateKeeps(c2, name, count);
    Silence.NoneWatchedAfterStart(c, false, h, timeout, start);
  }

  /** A tag destroyed while its read was in flight, and created anew under another name in the same
      slot: over any turns in time on a calm line, however the streams are cut up, the new tag is
      in use under its own name and pending, or it is Done with exactly the type, length and bytes
      the peer holds under the old name. */
  lemma OtherNamesValue(c: Client, s: Server.Server, h: nat, timeout: u32, start: nat, name: seq<byte>, count: u32,
                        e: Server.Entry, ts: seq<Exchange.Turn>)
    requires Inv(c) && ValidHandle(c, h) && Read(c, h, timeout, start).1 == Pending && Exchange.Aligned(c.tcp, s)
    requires TakesSlot(c, h, timeout, start, name)
    requires Server.Find(s.tags, KeyOf(c.slots[h].name)) == Some(e) && |e.value| <= Tags.MAX_DATA
    requires Exchange.Timely(ts, Read(c, h, timeout, start).0.msg.deadline)
    ensures var w := BeatAll(Scene(Renamed(c, h, timeout, start, name, count), s), ts);
            && Inv(w.c) && ValidHandle(w.c, h) && w.c.slots[h].name == name
            && var t := w.c.slots[h].tag;
               && (Tags.Busy(t) <==> Message.InFlight(w.c.msg))
               && (!Tags.Busy(t) ==>
                     t.phase == Tags.Done && t.dataType == e.kind && t.dataLen == |e.value| && t.data[..|e.value|] == e.value)
  {
    hide Single, Fresh, Notified, Server.HandleCip, Cip.SymbolicPath, Message.ReplyOf, Exchange.Timely, Tags.SendVia,
         PlayTagAll, BeatAll, Exchange.Aligned, Renamed, Read, TakesSlot, Message.MsgOk;
    RenamedMirrors(c, s, h, timeout, start, name, count);
    var sl := c.slots[h];
    var (t1, m1, st) := Tags.ReadTag(sl.tag, c.msg, c.tcp, c.session.handle, sl.name, sl.count, timeout, c.cpuSlot, start);
    var data := Tags.ReadData(sl.count);
    PeerRecalls(s, c.session.handle, sl.name, data, e);
    TagExchange(t1, c.msg, c.tcp, s, c.session.handle, c.cpuSlot, Cip.READ_TAG, sl.name, data, timeout, start, ts);
    CalmTurns(ts, m1.deadline);
    var v := TagWorld(t1, Exchange.World(m1, c.tcp, s));
    MirrorsAll(Scene(Renamed(c, h, timeout, start, name, count), s), v, h, name, ts);
    if !Message.InFlight(PlayTagAll(v, ts).w.m) {
      LoadedValue(t1, e.kind, e.value);
    }
  }

  lemma CalmTurns(ts: seq<Exchange.Turn>, deadline: u32)
    requires Exchange.Timely(ts, deadline)
    ensures forall i | 0 <= i < |ts| :: ts[i].ClientPoll? ==> Calm(ts[i].script)
  {
  }

  // ---------------------------------------------------------------------------------------
  // A run that gets there

  /** From every slot-0 read that starts on an aligned line there are three turns, in time, after
      which the message is done. */
  lemma SomeTurnsFinish(c: Client, s: Server.Server, name: seq<byte>, e: Server.Entry) returns (ts: seq<Exchange.Turn>)
    requires Inv(c) && ValidHandle(c, 0) && Read(c, 0, 5000, 0).1 == Pending && Exchange.Aligned(c.tcp, s)
    requires TakesSlot(c, 0, 5000, 0, name) && c.cpuSlot == Cip.NO_ROUTE
    requires Server.Find(s.tags, KeyOf(c.slots[0].name)) == Some(e) && |e.value| <= Tags.MAX_DATA
    ensures |ts| == 3 && ts[0].ClientPoll? && ts[1].PeerTurn? && ts[2].ClientPoll?
    ensures Exchange.Timely(ts, Read(c, 0, 5000, 0).0.msg.deadline)
    ensures !Message.InFlight(BeatAll(Scene(Renamed(c, 0, 5000, 0, name, 1), s), ts).c.msg)
  {
    hide Single, Fresh, Notified, Server.HandleCip, Cip.SymbolicPath, Message.ReplyOf, Tags.SendVia, Message.MsgOk,
         PlayTagAll, BeatAll, Exchange.Aligned, Renamed, Read, TakesSlot, Exchange.PlayAll, Exchange.SetupOk, Server.HandleFrame;
    RenamedMirrors(c, s, 0, 5000, 0, name, 1);
    var sl := c.slots[0];
    var data := Tags.ReadData(sl.count);
    var q := TagRequest(c.cpuSlot, Cip.READ_TAG, sl.name, data);
    TagRequestsAreServable(c.cpuSlot, Cip.READ_TAG, sl.name, data);
    TagSendIsRequest(c.msg, c.tcp, c.session.handle, c.cpuSlot, Cip.READ_TAG, sl.name, data, 5000, 0);
    AcceptedIsInFlight(c.msg, c.tcp, s, c.session.handle, q, 5000, 0);
    StartsAtTick0(c.msg, c.tcp, c.session.handle, q);
    PeerRecalls(s, c.session.handle, sl.name, data, e);
    var x := Exchange.SetupFor(c.msg, c.tcp, s, c.session.handle, q, 5000, 0);
    ts := Exchange.Finale(x, 0);
    Exchange.ExchangeFinishes(c.msg, c.tcp, s, c.session.handle, q, 5000, 0, [], 0);
    PlayNothing(x.start);
    var (t1, m1, st) := Tags.ReadTag(sl.tag, c.msg, c.tcp, c.session.handle, sl.name, sl.count, 5000, c.cpuSlot, 0);
    var v := TagWorld(t1, Exchange.World(m1, c.tcp, s));
    assert x.start == v.w;
    TagRunFollows(v, ts);
    CalmTurns(ts, m1.deadline);
    MirrorsAll(Scene(Renamed(c, 0, 5000, 0, name, 1), s), v, 0, name, ts);
  }

  lemma PlayNothing(w: Exchange.World)
    ensures Exchange.PlayAll(w, []) == w
  {
  }

  lemma StartsAtTick0(m: Msg, c: Tcp, session: u32, q: Exchange.Request)
    requires Exchange.Servable(q) && Exchange.SendRequest(m, c, session, q, 5000, 0).1 == Pending
    ensures Exchange.SendRequest(m, c, session, q, 5000, 0).0.deadline == 5000 && !Expired(Ticks(0), 5000)
  {
    hide Message.RequestFrame, Message.CipRequest, Message.RoutedCip;
  }

  /** The failing input for "a tag's data is that of its name": whatever the peer holds under the
      name A, there is a run from a client that was never used after which the tag named B is Done
      and holds exactly that. */
  lemma InheritedRun(n: nat, data: seq<byte>, e: Server.Entry) returns (es: seq<Event>)
    requires |data| == Tags.MAX_DATA && n > 0 && e.key == KeyOf([65]) && |e.value| <= Tags.MAX_DATA
    ensures var c := Run(n, data, es);
            && ValidHandle(c, 0) && c.slots[0].name == [66]
            && var t := c.slots[0].tag;
               t.phase == Tags.Done && t.dataType == e.kind && t.dataLen == |e.value| && |t.data| == Tags.MAX_DATA
               && t.data[..|e.value|] == e.value
  {
    hide Step, Inv, Silence.SamePool, Read, DestroyTag, CreateTag, Mirrors, BeatAll, Exchange.Timely, TakesSlot, Tags.ReadTag,
         Renamed;
    var ready := Silence.ReadyIsReachable(n, data);
    var c := Run(n, data, ready);
    var c1 := Silence.Asks(n, data, c);
    var s := Server.Server([e], map[], |c1.tcp.sent|, false);
    ReadsWithTime(c1);
    TakesItsSlot(c1);
    var ts := SomeTurnsFinish(c1, s, [66], e);
    OtherNamesValue(c1, s, 0, 5000, 0, [66], 1, e, ts);
    var c4 := Renamed(c1, 0, 5000, 0, [66], 1);
    RenamedIsSteps(c1);
    RenamedMirrors(c1, s, 0, 5000, 0, [66], 1);
    CalmTurns(ts, Read(c1, 0, 5000, 0).0.msg.deadline);
    var sl := c1.slots[0];
    var (t1, m1, _) := Tags.ReadTag(sl.tag, c1.msg, c1.tcp, c1.session.handle, sl.name, sl.count, 5000, c1.cpuSlot, 0);
    var rest := TurnsAreEvents(Scene(c4, s), TagWorld(t1, Exchange.World(m1, c1.tcp, s)), 0, [66], ts);
    var e3 := ready + [DoSetCallback(true)] + [DoCreate([65], 1)] + [DoRead(0, 5000, 0)];
    var e5 := e3 + [DoDestroy(0)] + [DoCreate([66], 1)];
    Silence.RunSnoc(n, data, ready, DoSetCallback(true));
    Silence.RunSnoc(n, data, ready + [DoSetCallback(true)], DoCreate([65], 1));
    Silence.RunSnoc(n, data, ready + [DoSetCallback(true)] + [DoCreate([65], 1)], DoRead(0, 5000, 0));
    Silence.RunSnoc(n, data, e3, DoDestroy(0));
    Silence.RunSnoc(n, data, e3 + [DoDestroy(0)], DoCreate([66], 1));
    Silence.RunSnoc(n, data, e5, rest[0]);
    Silence.RunSnoc(n, data, e5 + [rest[0]], rest[1]);
    Silence.RunSnoc(n, data, e5 + [rest[0]] + [rest[1]], rest[2]);
    es := e5 + [rest[0]] + [rest[1]] + [rest[2]];
    DoneIsSized(Run(n, data, es));
  }

  lemma DoneIsSized(c: Client)
    requires Inv(c) && ValidHandle(c, 0)
    ensures |c.slots[0].tag.data| == Tags.MAX_DATA
  {
  }

  lemma ReadsWithTime(c: Client)
    requires Inv(c) && c.state.Ready? && ValidHandle(c, 0) && c.tcp.link.Up? && c.cpuSlot == Cip.NO_ROUTE
    requires forall j | 0 <= j < |c.slots| :: !SlotBusy(c.slots[j])
    ensures Read(c, 0, 5000, 0).1 == Pending
  {
    hide Inv, Read;
    Wedge.NoneBusyInUse(c.slots);
    Wedge.BusyExactlyWhen(c, 0, 5000, 0);
  }

  lemma TakesItsSlot(c: Client)
    requires ValidHandle(c, 0) && Read(c, 0, 5000, 0).1 == Pending
    ensures TakesSlot(c, 0, 5000, 0, [66])
  {
    hide Tags.ReadTag;
  }

  lemma RenamedIsSteps(c: Client)
    requires Inv(c) && Read(c, 0, 5000, 0).1 == Pending
    ensures Renamed(c, 0, 5000, 0, [66], 1) == Step(Step(Step(c, DoRead(0, 5000, 0)), DoDestroy(0)), DoCreate([66], 1))
  {
    hide Single, Fresh, Notified, Read, DestroyTag, CreateTag;
    ReadKeeps(c, 0, 5000, 0);
    DestroyKeeps(Read(c, 0, 5000, 0).0, 0);
  }

  /** A poll, a peer turn and a poll, as events of the client. */
  lemma TurnsAreEvents(w: Scene, v: TagWorld, h: nat, name: seq<byte>, ts: seq<Exchange.Turn>) returns (es: seq<Event>)
    requires Mirrors(w, v, h, name)
    requires |ts| == 3 && ts[0].ClientPoll? && ts[1].PeerTurn? && ts[2].ClientPoll?
    requires forall i | 0 <= i < |ts| :: ts[i].ClientPoll? ==> Calm(ts[i].script)
    ensures |es| == 3 && BeatAll(w, ts).c == Step(Step(Step(w.c, es[0]), es[1]), es[2])
  {
    hide Step, Mirrors, PlayTag, Server.Serve;
    var w1 := Act(w, BeatOf(ts[0]));
    MirrorsTagOk(w, v, h, name);
    MirrorsBeat(w, v, h, name, ts[0]);
    var bytes := MirroredServe(w1, PlayTag(v, ts[0]), h, name);
    var w2 := Act(w1, ServerTurn);
    es := [DoPoll(BeatOf(ts[0]).env), Deliver(bytes), DoPoll(BeatOf(ts[2]).env)];
    assert ts[..2][..1] == [ts[0]] && ts[..1][..0] == [] && ts[..2] == [ts[0], ts[1]];
    assert BeatAll(w, ts[..1]) == w1;
    assert BeatAll(w, ts[..2]) == w2;
  }

  lemma MirrorsTagOk(w: Scene, v: TagWorld, h: nat, name: seq<byte>)
    requires Mirrors(w, v, h, name)
    ensures Tags.TagOk(v.t)
  {
  }

  lemma MirroredServe(w: Scene, v: TagWorld, h: nat, name: seq<byte>) returns (bytes: seq<byte>)
    requires Mirrors(w, v, h, name)
    ensures Act(w, ServerTurn).c == Step(w.c, Deliver(bytes))
  {
    hide Single, Fresh, Notified, Step, Server.Serve;
    bytes := Silence.ServerTurnDelivers(w);
  }
}
