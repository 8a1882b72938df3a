/**
 Destroying a slot whose operation is in flight hides that operation from the client: no poll
 moves it on any more, and the shared message stays taken.
 */
module Wedge {
  import opened Bytes
  import opened Status
  import opened Stream
  import opened Client
  import opened ClientRuns
  import Cip
  import Message
  import Session
  import Tags

  /** Slot i has an operation in flight and is not in use. */
  predicate Wedged(c: Client, i: nat) {
    i < |c.slots| && SlotBusy(c.slots[i]) && !c.slots[i].inUse
  }

  lemma {:induction false} NoneBusyInUse(slots: seq<Slot>)
    requires forall j | 0 <= j < |slots| :: slots[j].inUse ==> !SlotBusy(slots[j])
    ensures !AnyTagBusy(slots)
  {
    if slots != [] {
      NoneBusyInUse(slots[1..]);
    }
  }

  /** Every other slot is idle, and the message is in flight. */
  lemma OthersAreIdle(c: Client, i: nat)
    requires Inv(c) && Wedged(c, i)
    ensures Message.InFlight(c.msg) && Message.MsgOk(c.msg) && !AnyTagBusy(c.slots)
    ensures forall j | 0 <= j < |c.slots| && j != i :: !SlotBusy(c.slots[j])
  {
    hide Notified, Fresh;
    assert BusyAt(c.slots, i);
    forall j | 0 <= j < |c.slots| && j != i
      ensures !SlotBusy(c.slots[j])
    {
      assert !BusyAt(c.slots, j);
    }
    NoneBusyInUse(c.slots);
  }

  /** Destroying a busy slot makes one, and the check for a busy tag no longer sees it. */
  lemma DestroyWedges(c: Client, h: nat)
    requires Inv(c) && ValidHandle(c, h) && SlotBusy(c.slots[h])
    ensures var c' := DestroyTag(c, h).0;
            Inv(c') && Wedged(c', h) && !AnyTagBusy(c'.slots) && AnyTagBusy(c.slots)
  {
    hide Notified, Fresh, Single;
    DestroyKeeps(c, h);
    OthersAreIdle(DestroyTag(c, h).0, h);
    BusyIsSeen(c.slots, h);
  }

  lemma {:induction false} BusyIsSeen(slots: seq<Slot>, h: nat)
    requires h < |slots| && slots[h].inUse && SlotBusy(slots[h])
    ensures AnyTagBusy(slots)
  {
    if h > 0 {
      BusyIsSeen(slots[1..], h - 1);
    }
  }

  /** Nothing starts: a read or a write is refused, a read of a tag in use as busy. */
  lemma NothingStarts(c: Client, i: nat, h: int, timeout: u32, now: nat)
    requires Inv(c) && Wedged(c, i)
    ensures Read(c, h, timeout, now).0 == c && Read(c, h, timeout, now).1 != Pending
    ensures Write(c, h, timeout, now).0 == c && Write(c, h, timeout, now).1 != Pending
    ensures ValidHandle(c, h) && c.state.Ready? ==> Read(c, h, timeout, now).1 == Status.Busy
  {
    hide Single, Fresh, Notified, Message.CipRequest, Message.RoutedCip, Message.StartSend;
    OthersAreIdle(c, i);
    if Refusal(c, h).None? {
      var s := c.slots[h];
      ReadStartsOrNothing(s.tag, c.msg, c.tcp, c.session.handle, s.name, s.count, timeout, c.cpuSlot, now);
      WriteStartsOrNothing(s.tag, c.msg, c.tcp, c.session.handle, s.name, s.count, timeout, c.cpuSlot, now);
      assert c.slots[h := s] == c.slots;
    }
  }

  /** What a write needs of the tag itself. */
  predicate Writable(s: Slot)
    requires Tags.TagOk(s.tag)
  {
    s.tag.dataType != 0 && Tags.WriteLength(s.tag, s.count).Some?
  }

  predicate Reachable(c: Client) {
    Connected(c.tcp) && (c.cpuSlot == Cip.NO_ROUTE || c.cpuSlot <= 16)
  }

  /** When a ready client with no tag busy refuses a read or a write as busy: exactly when some
      slot is hidden with an operation in flight. Without one the call starts, if only the socket
      is connected and the CPU slot exists. */
  lemma BusyExactlyWhen(c: Client, h: int, timeout: u32, now: nat)
    requires Inv(c) && c.state.Ready? && ValidHandle(c, h) && !AnyTagBusy(c.slots)
    ensures var st := Read(c, h, timeout, now).1;
            && (st == Status.Busy <==> exists i: nat :: Wedged(c, i))
            && (st == Pending <==> Reachable(c) && !exists i: nat :: Wedged(c, i))
    ensures var st := Write(c, h, timeout, now).1;
            Writable(c.slots[h]) ==>
              && (st == Status.Busy <==> exists i: nat :: Wedged(c, i))
              && (st == Pending <==> Reachable(c) && !exists i: nat :: Wedged(c, i))
  {
    hide Fresh, Notified, Message.CipRequest, Message.RoutedCip, Message.StartSend, Cip.SymbolicPath, Tags.WriteLength;
    var s := c.slots[h];
    Cip.SymbolicPathFits(s.name);
    BusyIsWedged(c);
    if exists i: nat :: Wedged(c, i) {
      var i: nat :| Wedged(c, i);
      OthersAreIdle(c, i);
    } else {
      assert !BusyAt(c.slots, h);
    }
  }

  /** With no tag in use busy, the message is in flight exactly when a slot is hidden. */
  lemma BusyIsWedged(c: Client)
    requires Inv(c) && !AnyTagBusy(c.slots)
    ensures Message.InFlight(c.msg) <==> exists i: nat :: Wedged(c, i)
  {
    hide Fresh, Notified;
    forall i: nat | BusyAt(c.slots, i)
      ensures Wedged(c, i)
    {
      if c.slots[i].inUse {
        BusyIsSeen(c.slots, i);
      }
    }
    forall i: nat | Wedged(c, i)
      ensures BusyAt(c.slots, i)
    {
    }
  }

  /** The slot loop passes the hidden slot by and finds nothing else to move. */
  lemma {:induction false} SlotsPassBy(c: Client, i: nat, k: nat, lost: bool, now: nat)
    requires Inv(c) && Wedged(c, i) && k <= |c.slots|
    ensures var c' := RunSlots(c, k, lost, now).0;
            Wedged(c', i) && c'.msg == c.msg && c'.ops == c.ops
    decreases |c.slots| - k
  {
    hide Single, Fresh, Notified;
    if k < |c.slots| {
      if !c.slots[k].inUse {
        SlotsPassBy(c, i, k + 1, lost, now);
      } else {
        var (c1, st, fires) := PollSlot(c, k, now);
        OthersAreIdle(c, i);
        PollSlotKeeps(c, k, now);
        IdleSlotPoll(c, k, now);
        if !fires {
          SlotsPassBy(c1, i, k + 1, lost || st == Closed, now);
        }
      }
    }
  }

  lemma IdleSlotPoll(c: Client, k: nat, now: nat)
    requires Inv(c) && k < |c.slots| && !SlotBusy(c.slots[k])
    ensures var c' := PollSlot(c, k, now).0;
            c'.msg == c.msg && c'.ops == c.ops && |c'.slots| == |c.slots|
            && forall j | 0 <= j < |c.slots| && j != k :: c'.slots[j] == c.slots[j]
  {
    hide Message.PollMsg, Single, Fresh, Notified;
  }

  lemma WedgedPoll(c: Client, env: Env, i: nat)
    requires Inv(c) && Wedged(c, i)
    ensures var c' := Poll(c, env).0; Wedged(c', i) && c'.msg == c.msg && c'.ops == c.ops
  {
    hide RunSlots, Single, Fresh, Notified, Session.PollSession, Session.OpenSession;
    var c0 := c.(tcp := c.tcp.(script := env.script));
    FramesDoNotMatter(c, c.frames, env.script);
    assert c.(frames := c.frames, tcp := c.tcp.(script := env.script)) == c0;
    SlotsPassBy(c0, i, 0, false, env.t0);
  }

  lemma WedgedResume(c: Client, env: Env, i: nat)
    requires Inv(c) && Wedged(c, i)
    ensures var c' := Resume(c, env).0; Wedged(c', i) && c'.msg == c.msg && c'.ops == c.ops
  {
    hide RunSlots, Single, Fresh, Notified;
    if c.frames != [] {
      var frames := c.frames[..|c.frames| - 1];
      assert forall f | f in frames :: f in c.frames;
      var f := c.frames[|c.frames| - 1];
      assert f in c.frames;
      FramesDoNotMatter(c, frames, env.script);
      SlotsPassBy(c.(frames := frames, tcp := c.tcp.(script := env.script)), i, f.next, f.disconnected, env.t0);
    }
  }

  /** The call that takes slot i into use again. */
  predicate CreatesIn(c: Client, e: Event, i: nat) {
    e.DoCreate? && e.name != [] && |e.name| < MAX_TAG_NAME && FindFree(c.slots) == i
  }

  /** Of all events, a connect, a disconnect and an abort included, exactly the create that takes
      the slot into use again ends the wedge: then a tag is busy and no slot is hidden. Every
      other one leaves the slot hidden, the message as it is and nothing started. */
  lemma UnwedgesExactlyWhen(c: Client, e: Event, i: nat)
    requires Inv(c) && Wedged(c, i)
    ensures var c' := Step(c, e);
            && Inv(c') && c'.msg == c.msg && c'.ops == c.ops
            && (Wedged(c', i) <==> !CreatesIn(c, e, i))
            && (CreatesIn(c, e, i) ==> AnyTagBusy(c'.slots) && forall j: nat :: !Wedged(c', j))
  {
    hide Poll, Resume, Read, Write, CreateTag, Single, Fresh, Notified, Wedged;
    StepKeeps(c, e);
    OthersAreIdle(c, i);
    match e
    case DoPoll(env) => WedgedPoll(c, env, i);
    case DoResume(env) => WedgedResume(c, env, i);
    case DoRead(h, timeout, now) => NothingStarts(c, i, h, timeout, now);
    case DoWrite(h, timeout, now) => NothingStarts(c, i, h, timeout, now);
    case DoCreate(name, count) => WedgedCreate(c, name, count, i);
    case _ => CallsPassBy(c, e, i);
  }

  lemma WedgedCreate(c: Client, name: seq<byte>, count: u32, i: nat)
    requires Wedged(c, i) && forall j | 0 <= j < |c.slots| && j != i :: !SlotBusy(c.slots[j])
    ensures var c', again := CreateTag(c, name, count).0, CreatesIn(c, DoCreate(name, count), i);
            && c'.msg == c.msg && c'.ops == c.ops && (Wedged(c', i) <==> !again)
            && (again ==> AnyTagBusy(c'.slots) && forall j: nat :: !Wedged(c', j))
  {
    if CreatesIn(c, DoCreate(name, count), i) {
      BusyIsSeen(CreateTag(c, name, count).0.slots, i);
    }
  }

  /** The calls that neither poll, start nor create anything. */
  lemma CallsPassBy(c: Client, e: Event, i: nat)
    requires Wedged(c, i) && forall j | 0 <= j < |c.slots| && j != i :: !SlotBusy(c.slots[j])
    requires !e.DoPoll? && !e.DoResume? && !e.DoRead? && !e.DoWrite? && !e.DoCreate?
    ensures Wedged(Step(c, e), i) && Step(c, e).msg == c.msg && Step(c, e).ops == c.ops
  {
    hide Shaped, Session.AbortSession, Session.CloseSession, TcpConnect, TcpClose, Excuse;
  }

  /** Over any run, reconnects included, the client is wedged throughout exactly when no call of
      it creates that slot again; and then no operation starts, and none can. */
  lemma {:induction false} WedgedExactlyUntilCreated(c: Client, es: seq<Event>, i: nat, h: int, timeout: u32, now: nat)
    requires Inv(c) && Wedged(c, i)
    ensures (forall n | 0 <= n <= |es| :: Wedged(RunFrom(c, es[..n]), i)) <==>
            (forall n | 0 <= n < |es| :: !CreatesIn(RunFrom(c, es[..n]), es[n], i))
    ensures (forall n | 0 <= n < |es| :: !CreatesIn(RunFrom(c, es[..n]), es[n], i)) ==>
              var c' := RunFrom(c, es);
              && Inv(c') && Wedged(c', i) && c'.msg == c.msg && c'.ops == c.ops && !AnyTagBusy(c'.slots)
              && Read(c', h, timeout, now).1 != Pending && Write(c', h, timeout, now).1 != Pending
  {
    hide Step, Inv, Read, Write, Wedged, CreatesIn;
    if es == [] {
      OthersAreIdle(c, i);
      NothingStarts(c, i, h, timeout, now);
    } else {
      var m := |es| - 1;
      var before := es[..m];
      assert forall n | 0 <= n <= m :: before[..n] == es[..n];
      assert forall n | 0 <= n < m :: before[n] == es[n];
      assert es[..|es|] == es;
      WedgedExactlyUntilCreated(c, before, i, h, timeout, now);
      RunFromKeeps(c, before);
      var mid := RunFrom(c, before);
      if Wedged(mid, i) {
        UnwedgesExactlyWhen(mid, es[m], i);
        if Wedged(RunFrom(c, es), i) {
          OthersAreIdle(RunFrom(c, es), i);
          NothingStarts(RunFrom(c, es), i, h, timeout, now);
        }
      }
    }
  }
}
