/**
 Whole runs of the client: any interleaving of calls and network behaviour, including calls
 made from callbacks, for a tag pool of any size.
 */
module ClientRuns {
  import opened Bytes
  import opened Status
  import opened Encapsulation
  import opened Stream
  import opened Client
  import Cip
  import Cpf
  import Framing
  import Message
  import Session
  import Tags

  // ---------------------------------------------------------------------------------------
  // The invariants

  predicate BusyAt(slots: seq<Slot>, i: int) {
    0 <= i < |slots| && SlotBusy(slots[i])
  }

  /** At most one slot is reading or writing, destroyed slots included, and the shared message
      is in flight exactly when one is. */
  ghost predicate Single(c: Client) {
    && Message.MsgOk(c.msg)
    && (forall i, j | BusyAt(c.slots, i) && BusyAt(c.slots, j) :: i == j)
    && (Message.InFlight(c.msg) <==> exists i :: BusyAt(c.slots, i))
  }

  /** The handle of a ready client was asked for and issued on the current TCP connection. */
  predicate Fresh(c: Client) {
    && Session.SessionOk(c.session)
    && (c.state.Ready? ==>
          && c.session.phase.Registered? && c.session.handle != 0
          && c.session.openEpoch == c.session.handleEpoch == c.tcp.epoch)
    && (c.state.Registering? ==>
          c.session.phase.Failed? || (c.session.phase.Registering? && c.session.openEpoch == c.tcp.epoch))
  }

  predicate Logged(c: Client, k: nat) {
    exists a | 0 <= a < |c.log| :: c.log[a].op == k
  }

  /** An operation in flight that the tag callback is still owed for. */
  predicate Owed(c: Client, i: int, k: nat) {
    BusyAt(c.slots, i) && c.slots[i].inUse && c.slots[i].prev == Pending && c.slots[i].op == k
  }

  ghost predicate Notified(c: Client) {
    && (forall a, b | 0 <= a < b < |c.log| :: c.log[a].op != c.log[b].op)
    && (forall a | 0 <= a < |c.log| :: c.log[a].op in c.seen && c.log[a].op !in c.excused)
    && (forall i | BusyAt(c.slots, i) :: c.slots[i].op < c.ops && !Logged(c, c.slots[i].op))
    && (forall i | 0 <= i < |c.slots| && c.slots[i].inUse && c.slots[i].prev == Pending ::
          BusyAt(c.slots, i) && c.slots[i].op in c.seen && c.slots[i].op !in c.excused)
    && (forall k | k in c.seen :: k < c.ops && (Logged(c, k) || k in c.excused || exists i :: Owed(c, i, k)))
  }

  ghost predicate Inv(c: Client) {
    Shaped(c) && Single(c) && Fresh(c) && Notified(c)
  }

  // ---------------------------------------------------------------------------------------
  // What the tag operations do to the shared message

  /** A tag operation either starts, on an idle tag and an idle message, or changes nothing. */
  predicate StartsOrNothing(t: Tag, m: Msg, r: (Tag, Msg, Status)) {
    && Tags.TagOk(r.0) && Message.MsgOk(r.1)
    && if r.2 == Pending
       then !Tags.Busy(t) && !Message.InFlight(m) && Tags.Busy(r.0) && Message.InFlight(r.1)
       else r.0 == t && r.1 == m
  }

  lemma SendViaStartsOrNothing(m: Msg, c: Tcp, session: u32, slot: u8, service: u8, path: seq<byte>, data: seq<byte>,
                               timeout: u32, now: nat)
    requires Message.MsgOk(m)
    ensures var (m', st) := Tags.SendVia(m, c, session, slot, service, path, data, timeout, now);
            && Message.MsgOk(m')
            && (if st == Pending then !Message.InFlight(m) && Message.InFlight(m') else m' == m)
  {
    hide Message.RequestFrame, Message.CipRequest, Message.RoutedCip;
  }

  lemma ReadStartsOrNothing(t: Tag, m: Msg, c: Tcp, session: u32, name: seq<byte>, count: u32, timeout: u32, slot: u8, now: nat)
    requires Tags.TagOk(t) && Message.MsgOk(m)
    ensures StartsOrNothing(t, m, Tags.ReadTag(t, m, c, session, name, count, timeout, slot, now))
  {
    hide Tags.SendVia, Cip.SymbolicPath;
    SendViaStartsOrNothing(m, c, session, slot, Cip.READ_TAG, Cip.SymbolicPath(name), Tags.ReadData(count), timeout, now);
  }

  lemma WriteStartsOrNothing(t: Tag, m: Msg, c: Tcp, session: u32, name: seq<byte>, count: u32, timeout: u32, slot: u8, now: nat)
    requires Tags.TagOk(t) && Message.MsgOk(m)
    ensures StartsOrNothing(t, m, Tags.WriteTag(t, m, c, session, name, count, timeout, slot, now))
  {
    hide Tags.SendVia, Cip.SymbolicPath, Tags.WriteLength;
    var n := Tags.WriteLength(t, count);
    if n.Some? {
      SendViaStartsOrNothing(m, c, session, slot, Cip.WRITE_TAG, Cip.SymbolicPath(name),
                             Tags.WriteData(t, count, n.value), timeout, now);
    }
  }

  /** A busy tag stays busy exactly as long as the message stays in flight; an idle one leaves
      message and socket alone. */
  lemma PollTagFollowsMessage(t: Tag, m: Msg, c: Tcp, now: nat)
    requires Tags.TagOk(t) && Message.MsgOk(m) && (Tags.Busy(t) ==> Message.InFlight(m))
    ensures var (t', m', c', st) := Tags.PollTag(t, m, c, now);
            && Tags.TagOk(t') && Message.MsgOk(m') && c'.epoch == c.epoch
            && (Tags.Busy(t) ==> (Tags.Busy(t') <==> Message.InFlight(m')))
            && (Tags.Busy(t') <==> st == Pending)
            && (!Tags.Busy(t) ==> t' == t && m' == m && c' == c)
  {
    hide Message.PollMsg, Tags.Loaded;
    Message.PollKeeps(m, c, now);
    Tags.TagStaysOk(t, m, c, now);
  }

  // ---------------------------------------------------------------------------------------
  // One slot changes

  /** The single-in-flight invariant after slot h and the message change together. */
  lemma SingleAfterUpdate(c: Client, h: nat, s: Slot, c': Client)
    requires Single(c) && h < |c.slots| && c'.slots == c.slots[h := s] && Message.MsgOk(c'.msg)
    requires SlotBusy(c.slots[h]) ==> (SlotBusy(s) <==> Message.InFlight(c'.msg))
    requires !SlotBusy(c.slots[h]) && SlotBusy(s) ==> !Message.InFlight(c.msg) && Message.InFlight(c'.msg)
    requires !SlotBusy(c.slots[h]) && !SlotBusy(s) ==> (Message.InFlight(c'.msg) <==> Message.InFlight(c.msg))
    ensures Single(c')
  {
    assert forall i | i != h :: BusyAt(c'.slots, i) <==> BusyAt(c.slots, i);
    assert BusyAt(c'.slots, h) <==> SlotBusy(s);
    assert BusyAt(c.slots, h) <==> SlotBusy(c.slots[h]);
  }

  /** A slot change that keeps every slot's business, operation number and watched status. */
  lemma NotifiedAfterQuietUpdate(c: Client, h: nat, s: Slot, c': Client)
    requires Notified(c) && h < |c.slots| && c'.slots == c.slots[h := s]
    requires c'.log == c.log && c'.seen == c.seen && c'.excused == c.excused && c'.ops == c.ops
    requires SlotBusy(s) == SlotBusy(c.slots[h]) && s.op == c.slots[h].op
    requires s.inUse == c.slots[h].inUse && s.prev == c.slots[h].prev
    ensures Notified(c')
  {
    assert forall i :: BusyAt(c'.slots, i) <==> BusyAt(c.slots, i);
    assert forall i, k | Owed(c, i, k) :: Owed(c', i, k);
    assert forall k :: Logged(c', k) <==> Logged(c, k);
  }

  /** Nothing about slots or bookkeeping changes. */
  lemma NotifiedIsLocal(c: Client, c': Client)
    requires Notified(c)
    requires c'.slots == c.slots && c'.log == c.log && c'.seen == c.seen && c'.excused == c.excused && c'.ops == c.ops
    ensures Notified(c')
  {
    assert forall i, k :: Owed(c', i, k) <==> Owed(c, i, k);
    assert forall k :: Logged(c', k) <==> Logged(c, k);
  }

  lemma LaunchKeeps(c: Client, h: nat, r: (Tag, Msg, Status))
    requires Inv(c) && h < |c.slots| && c.slots[h].inUse
    requires StartsOrNothing(c.slots[h].tag, c.msg, r)
    ensures Inv(Launched(c, h, r).0)
  {
    var c' := Launched(c, h, r).0;
    var s := c'.slots[h];
    SingleAfterUpdate(c, h, s, c');
    if r.2 == Pending {
      assert forall i | i != h :: BusyAt(c'.slots, i) <==> BusyAt(c.slots, i);
      assert forall i, k | Owed(c, i, k) :: i != h && Owed(c', i, k);
      assert forall k :: Logged(c', k) <==> Logged(c, k);
      assert !Logged(c', s.op);
    } else {
      assert c'.slots == c.slots;
      NotifiedIsLocal(c, c');
    }
  }

  lemma CreateKeeps(c: Client, name: seq<byte>, count: u32)
    requires Inv(c)
    ensures Inv(CreateTag(c, name, count).0)
  {
    var c' := CreateTag(c, name, count).0;
    if c' != c {
      var h := FindFree(c.slots);
      SingleAfterUpdate(c, h, c'.slots[h], c');
      assert forall i :: BusyAt(c'.slots, i) <==> BusyAt(c.slots, i);
      assert forall i, k | Owed(c, i, k) :: i != h && Owed(c', i, k);
      assert forall k :: Logged(c', k) <==> Logged(c, k);
    }
  }

  lemma DestroyKeeps(c: Client, h: int)
    requires Inv(c)
    ensures Inv(DestroyTag(c, h).0)
  {
    var c' := DestroyTag(c, h).0;
    if ValidHandle(c, h) {
      SingleAfterUpdate(c, h, c'.slots[h], c');
      assert forall i :: BusyAt(c'.slots, i) <==> BusyAt(c.slots, i);
      assert forall i, k | Owed(c, i, k) :: if i == h then k in c'.excused else Owed(c', i, k);
      assert forall k :: Logged(c', k) <==> Logged(c, k);
    }
  }

  lemma AbortKeeps(c: Client, h: int)
    requires Inv(c)
    ensures Inv(AbortTag(c, h).0)
  {
    var c' := AbortTag(c, h).0;
    if ValidHandle(c, h) {
      SingleAfterUpdate(c, h, c'.slots[h], c');
      assert forall i | i != h :: BusyAt(c'.slots, i) <==> BusyAt(c.slots, i);
      assert !BusyAt(c'.slots, h);
      assert forall i, k | Owed(c, i, k) :: if i == h then k in c'.excused else Owed(c', i, k);
      assert forall k :: Logged(c', k) <==> Logged(c, k);
    }
  }

  lemma EditKeeps(c: Client, i: nat, data: seq<byte>, dataLen: nat, dataType: u8)
    requires Inv(c)
    ensures Inv(EditTag(c, i, data, dataLen, dataType))
  {
    var c' := EditTag(c, i, data, dataLen, dataType);
    if i < |c.slots| && |data| == Tags.MAX_DATA && dataLen <= Tags.MAX_DATA {
      SingleAfterUpdate(c, i, c'.slots[i], c');
      NotifiedAfterQuietUpdate(c, i, c'.slots[i], c');
    }
  }

  // ---------------------------------------------------------------------------------------
  // The slot loop

  lemma PollSlotKeepsSingle(c: Client, i: nat, now: nat)
    requires Inv(c) && i < |c.slots|
    ensures var (c', st, fires) := PollSlot(c, i, now);
            && TagsOk(c'.slots) && |c'.slots| == |c.slots| && c'.frames == c.frames
            && Single(c') && Fresh(c')
  {
    hide Tags.PollTag;
    var s := c.slots[i];
    assert SlotBusy(s) ==> BusyAt(c.slots, i);
    PollTagFollowsMessage(s.tag, c.msg, c.tcp, now);
    PollSlotKeepsTagsOk(c, i, now);
    var c' := PollSlot(c, i, now).0;
    SingleAfterUpdate(c, i, c'.slots[i], c');
  }

  lemma PollSlotKeepsNotified(c: Client, i: nat, now: nat)
    requires Inv(c) && i < |c.slots| && c.slots[i].inUse
    ensures Notified(PollSlot(c, i, now).0)
  {
    hide Tags.PollTag, Notified, Fresh;
    var s := c.slots[i];
    assert SlotBusy(s) ==> BusyAt(c.slots, i);
    PollTagFollowsMessage(s.tag, c.msg, c.tcp, now);
    var (c', st, fires) := PollSlot(c, i, now);
    NotifiedAfterPoll(c, c', i, c'.slots[i], st);
  }

  /** The bookkeeping after a poll of slot i, in use and busy alone if at all. */
  lemma NotifiedAfterPoll(c: Client, c': Client, i: nat, s': Slot, st: Status)
    requires Notified(c) && i < |c.slots| && c.slots[i].inUse
    requires c'.slots == c.slots[i := s'] && c'.ops == c.ops && s' == c.slots[i].(tag := s'.tag, prev := st)
    requires (SlotBusy(s') <==> st == Pending) && (st == Pending ==> SlotBusy(c.slots[i]))
    requires SlotBusy(c.slots[i]) ==> forall j | BusyAt(c.slots, j) :: j == i
    requires var op, due := c.slots[i].op, c.slots[i].prev == Pending && st != Pending;
             && c'.log == (if due && c.tagCallback then c.log + [Notice(i, op, st)] else c.log)
             && c'.seen == (if st == Pending then c.seen + {op} else c.seen)
             && c'.excused == (if st == Pending then c.excused - {op}
                               else if due && !c.tagCallback then c.excused + {op} else c.excused)
    ensures Notified(c')
  {
    var s, fires := c.slots[i], c'.log != c.log;
    assert forall j | j != i :: BusyAt(c'.slots, j) <==> BusyAt(c.slots, j);
    assert BusyAt(c'.slots, i) <==> st == Pending;
    if fires {
      assert c'.log[|c.log|].op == s.op;
      assert forall k :: Logged(c', k) <==> Logged(c, k) || k == s.op by {
        forall k: nat | Logged(c, k) ensures Logged(c', k) {
          var a :| 0 <= a < |c.log| && c.log[a].op == k;
          assert c'.log[a].op == k;
        }
      }
    } else {
      assert forall k :: Logged(c', k) <==> Logged(c, k);
    }
    forall j, k: nat | Owed(c, j, k)
      ensures Logged(c', k) || k in c'.excused || Owed(c', j, k)
    {
      if j != i {
        assert Owed(c', j, k);
      }
    }
    if st == Pending {
      assert Owed(c', i, s.op);
    }
  }

  lemma PollSlotKeeps(c: Client, i: nat, now: nat)
    requires Inv(c) && i < |c.slots| && c.slots[i].inUse
    ensures var (c', st, fires) := PollSlot(c, i, now);
            && Inv(c') && |c'.slots| == |c.slots| && c'.frames == c.frames
  {
    hide Tags.PollTag, Single, Fresh, Notified;
    PollSlotKeepsSingle(c, i, now);
    PollSlotKeepsNotified(c, i, now);
  }

  lemma DroppedKeeps(c: Client)
    requires Inv(c)
    ensures Inv(Dropped(c))
  {
    NotifiedIsLocal(c, Dropped(c));
  }

  lemma {:induction false} RunSlotsKeeps(c: Client, i: nat, disconnected: bool, now: nat)
    requires Inv(c) && i <= |c.slots|
    ensures var c' := RunSlots(c, i, disconnected, now).0;
            Inv(c') && |c'.slots| == |c.slots|
    decreases |c.slots| - i
  {
    hide PollSlot, Single, Fresh, Notified;
    if i == |c.slots| {
      DroppedKeeps(c);
    } else if !c.slots[i].inUse {
      RunSlotsKeeps(c, i + 1, disconnected, now);
    } else {
      var (c1, st, fires) := PollSlot(c, i, now);
      var gone := disconnected || st == Closed;
      PollSlotKeeps(c, i, now);
      if fires {
        FramesDoNotMatter(c1, c1.frames + [Frame(i + 1, gone)], c1.tcp.script);
      } else {
        RunSlotsKeeps(c1, i + 1, gone, now);
      }
    }
  }

  /** The pending frames and the network's script constrain nothing. */
  lemma FramesDoNotMatter(c: Client, frames: seq<Frame>, script: seq<Io>)
    requires Inv(c) && forall f | f in frames :: f.next <= |c.slots|
    ensures Inv(c.(frames := frames, tcp := c.tcp.(script := script)))
  {
    NotifiedIsLocal(c, c.(frames := frames, tcp := c.tcp.(script := script)));
  }

  // ---------------------------------------------------------------------------------------
  // The connection states

  /** Anything that leaves the pool, the message and the bookkeeping alone, and ends with a
      fresh session, keeps the invariants. */
  lemma ConnectionStepKeeps(c: Client, c': Client)
    requires Inv(c) && Fresh(c')
    requires c'.slots == c.slots && c'.msg == c.msg && c'.frames == c.frames
    requires c'.log == c.log && c'.seen == c.seen && c'.excused == c.excused && c'.ops == c.ops
    ensures Inv(c')
  {
    NotifiedIsLocal(c, c');
    assert Single(c');
  }

  lemma ConnectKeeps(c: Client, timeout: u32, refusal: Option<Status>, now: nat)
    requires Inv(c)
    ensures Inv(Connect(c, timeout, refusal, now).0)
  {
    ConnectionStepKeeps(c, Connect(c, timeout, refusal, now).0);
  }

  lemma DisconnectKeeps(c: Client)
    requires Inv(c)
    ensures Inv(Disconnect(c).0)
  {
    hide Session.UnregisterFrame;
    ConnectionStepKeeps(c, Disconnect(c).0);
  }

  lemma PollConnectingKeeps(c: Client, env: Env)
    requires Inv(c)
    ensures Inv(PollConnecting(c, env).0)
  {
    hide Single, Notified, Shaped, Session.RegisterFrame, Expired;
    ConnectionStepKeeps(c, PollConnecting(c, env).0);
  }

  lemma PollRegisteringKeeps(c: Client, env: Env)
    requires Inv(c) && c.state.Registering?
    ensures Inv(PollRegistering(c, env).0)
  {
    hide Session.PollSession, HeaderOf;
    Session.SessionPollKeeps(c.session, c.tcp, env.t1);
    if c.session.phase.Registering? && Session.PollSession(c.session, c.tcp, env.t1).2 == Ok {
      Session.RegisteredMeansAnswered(c.session, c.tcp, env.t1);
    }
    FailedSessionFails(c.session, c.tcp, env.t1);
    ConnectionStepKeeps(c, PollRegistering(c, env).0);
  }

  lemma FailedSessionFails(s: Session.Session, c: Tcp, now: nat)
    ensures s.phase.Failed? ==> Session.PollSession(s, c, now).2 == Error
  {
  }

  lemma PollDisconnectingKeeps(c: Client, env: Env)
    requires Inv(c) && c.state.Disconnecting?
    ensures Inv(PollDisconnecting(c, env).0)
  {
    hide Session.PollSession;
    Session.SessionPollKeeps(c.session, c.tcp, env.t0);
    ConnectionStepKeeps(c, PollDisconnecting(c, env).0);
  }

  lemma PollKeeps(c: Client, env: Env)
    requires Inv(c)
    ensures Inv(Poll(c, env).0) && |Poll(c, env).0.slots| == |c.slots|
  {
    hide PollConnecting, PollRegistering, PollDisconnecting, Single, Fresh, Notified, RunSlots, Session.PollSession;
    var c0 := c.(tcp := c.tcp.(script := env.script));
    FramesDoNotMatter(c, c.frames, env.script);
    assert c.(frames := c.frames, tcp := c.tcp.(script := env.script)) == c0;
    match c.state
    case Ethernet => PollEthernetKeeps(c0, env);
    case Connecting => PollConnectingKeeps(c0, env); PoolUntouched(c0, env);
    case Registering => PollRegisteringKeeps(c0, env); PoolUntouched(c0, env);
    case Ready => RunSlotsKeeps(c0, 0, false, env.t0);
    case Disconnecting => PollDisconnectingKeeps(c0, env); PoolUntouched(c0, env);
    case Failed => FailedOrIdleKeeps(c0);
    case Idle => FailedOrIdleKeeps(c0);
  }

  lemma FailedOrIdleKeeps(c: Client)
    requires Inv(c)
    ensures Inv(c)
  {
  }

  lemma PoolUntouched(c: Client, env: Env)
    ensures PollConnecting(c, env).0.slots == c.slots
    ensures PollRegistering(c, env).0.slots == c.slots
    ensures PollDisconnecting(c, env).0.slots == c.slots
  {
    hide Session.PollSession, Session.OpenSession;
  }

  lemma PollEthernetKeeps(c: Client, env: Env)
    requires Inv(c) && c.state.Ethernet?
    ensures Inv(PollEthernet(c, env).0) && |PollEthernet(c, env).0.slots| == |c.slots|
  {
    ConnectionStepKeeps(c, PollEthernet(c, env).0);
  }

  lemma ResumeKeeps(c: Client, env: Env)
    requires Inv(c)
    ensures Inv(Resume(c, env).0)
  {
    hide Single, Fresh, Notified, RunSlots;
    if c.frames != [] {
      var frames := c.frames[..|c.frames| - 1];
      assert forall f | f in frames :: f in c.frames;
      FramesDoNotMatter(c, frames, env.script);
      var f := c.frames[|c.frames| - 1];
      RunSlotsKeeps(c.(frames := frames, tcp := c.tcp.(script := env.script)), f.next, f.disconnected, env.t0);
    }
  }

  lemma ReadKeeps(c: Client, h: int, timeout: u32, now: nat)
    requires Inv(c)
    ensures Inv(Read(c, h, timeout, now).0)
  {
    hide Tags.ReadTag, Notified, Fresh, Launched;
    if Refusal(c, h).None? {
      var s := c.slots[h];
      ReadStartsOrNothing(s.tag, c.msg, c.tcp, c.session.handle, s.name, s.count, timeout, c.cpuSlot, now);
      LaunchKeeps(c, h, Tags.ReadTag(s.tag, c.msg, c.tcp, c.session.handle, s.name, s.count, timeout, c.cpuSlot, now));
    }
  }

  lemma WriteKeeps(c: Client, h: int, timeout: u32, now: nat)
    requires Inv(c)
    ensures Inv(Write(c, h, timeout, now).0)
  {
    hide Tags.WriteTag, Notified, Fresh, Launched;
    if Refusal(c, h).None? {
      var s := c.slots[h];
      WriteStartsOrNothing(s.tag, c.msg, c.tcp, c.session.handle, s.name, s.count, timeout, c.cpuSlot, now);
      LaunchKeeps(c, h, Tags.WriteTag(s.tag, c.msg, c.tcp, c.session.handle, s.name, s.count, timeout, c.cpuSlot, now));
    }
  }

  /** Every call and every event keeps every invariant. */
  lemma StepKeeps(c: Client, e: Event)
    requires Inv(c)
    ensures Inv(Step(c, e))
  {
    hide Single, Fresh, Notified, Connect, Disconnect, Poll, Resume, CreateTag, DestroyTag, Read, Write, AbortTag, EditTag;
    match e
    case DoBegin(up) => ConnectionStepKeeps(c, Begin(c, up).0) by { EthernetIsFresh(c, Begin(c, up).0); }
    case DoConnect(timeout, refusal, now) => ConnectKeeps(c, timeout, refusal, now);
    case DoDisconnect => DisconnectKeeps(c);
    case DoPoll(env) => PollKeeps(c, env);
    case DoResume(env) => ResumeKeeps(c, env);
    case DoCreate(name, count) => CreateKeeps(c, name, count);
    case DoDestroy(h) => DestroyKeeps(c, h);
    case DoRead(h, timeout, now) => ReadKeeps(c, h, timeout, now);
    case DoWrite(h, timeout, now) => WriteKeeps(c, h, timeout, now);
    case DoAbort(h) => AbortKeeps(c, h);
    case DoEdit(i, data, dataLen, dataType) => EditKeeps(c, i, data, dataLen, dataType);
    case DoSetSlot(slot) => ConnectionStepKeeps(c, Step(c, e)) by { SameConnectionIsFresh(c, Step(c, e)); }
    case DoSetCallback(installed) => ConnectionStepKeeps(c, Step(c, e)) by { SameConnectionIsFresh(c, Step(c, e)); }
    case Deliver(bytes) => ConnectionStepKeeps(c, Step(c, e)) by { SameConnectionIsFresh(c, Step(c, e)); }
  }

  lemma EthernetIsFresh(c: Client, c': Client)
    requires Fresh(c) && c'.session == c.session && c'.state.Ethernet?
    ensures Fresh(c')
  {
  }

  lemma SameConnectionIsFresh(c: Client, c': Client)
    requires Fresh(c) && c'.session == c.session && c'.state == c.state && c'.tcp.epoch == c.tcp.epoch
    ensures Fresh(c')
  {
  }

  // ---------------------------------------------------------------------------------------
  // Runs

  lemma NewClientOk(n: nat, data: seq<byte>)
    requires |data| == Tags.MAX_DATA
    ensures Inv(NewClient(n, data))
  {
    var c := NewClient(n, data);
    assert forall i :: !BusyAt(c.slots, i);
  }

  function RunFrom(c: Client, es: seq<Event>): Client {
    if es == [] then c else Step(RunFrom(c, es[..|es| - 1]), es[|es| - 1])
  }

  lemma {:induction false} RunFromKeeps(c: Client, es: seq<Event>)
    requires Inv(c)
    ensures Inv(RunFrom(c, es))
  {
    hide Step, Inv;
    if es != [] {
      RunFromKeeps(c, es[..|es| - 1]);
      StepKeeps(RunFrom(c, es[..|es| - 1]), es[|es| - 1]);
    }
  }

  function Run(n: nat, data: seq<byte>, es: seq<Event>): Client
    requires |data| == Tags.MAX_DATA
  {
    RunFrom(NewClient(n, data), es)
  }

  lemma RunKeeps(n: nat, data: seq<byte>, es: seq<Event>)
    requires |data| == Tags.MAX_DATA
    ensures Inv(Run(n, data, es))
  {
    hide Step, Inv;
    NewClientOk(n, data);
    RunFromKeeps(NewClient(n, data), es);
  }

  /** In every reachable state at most one pool slot, counting destroyed ones, has an operation
      in flight, and the shared message is in flight exactly when one does. */
  lemma SingleInFlight(n: nat, data: seq<byte>, es: seq<Event>)
    requires |data| == Tags.MAX_DATA
    ensures var c := Run(n, data, es);
            && (forall i, j | 0 <= i < |c.slots| && 0 <= j < |c.slots| && SlotBusy(c.slots[i]) && SlotBusy(c.slots[j]) :: i == j)
            && (Message.InFlight(c.msg) <==> exists i :: 0 <= i < |c.slots| && SlotBusy(c.slots[i]))
  {
    RunKeeps(n, data, es);
    var c := Run(n, data, es);
    assert forall i | 0 <= i < |c.slots| && SlotBusy(c.slots[i]) :: BusyAt(c.slots, i);
  }

  /** In every reachable state a ready client has a registered session with a nonzero handle
      that was requested and issued on the connection now in use. */
  lemma SessionFreshness(n: nat, data: seq<byte>, es: seq<Event>)
    requires |data| == Tags.MAX_DATA
    ensures var c := Run(n, data, es);
            c.state.Ready? ==>
              && c.session.phase.Registered? && c.session.handle != 0
              && c.session.openEpoch == c.tcp.epoch && c.session.handleEpoch == c.tcp.epoch
  {
    RunKeeps(n, data, es);
  }

  /** The frame a started message will send is the request frame for the session it was given. */
  lemma StartedFrame(m: Msg, c: Tcp, session: u32, slot: u8, service: u8, path: seq<byte>, data: seq<byte>,
                     timeout: u32, now: nat) returns (cip: seq<byte>, rest: seq<byte>)
    ensures |cip| <= Message.MAX_CIP + Message.ROUTED_OVERHEAD
    ensures var (m', st) := Tags.SendVia(m, c, session, slot, service, path, data, timeout, now);
            st == Pending ==> m'.wire == Framing.Queue(Message.RequestFrame(session, m.context, cip))
    ensures Message.RequestFrame(session, m.context, cip)
            == HeaderBytes(Message.RequestHeader(session, m.context, |cip|)) + rest
  {
    hide Message.RoutedCip, Message.CipRequest, HeaderBytes, Cpf.ItemListBytes;
    cip := [];
    if Message.Sendable(path, data) {
      SendableFits(slot, service, path, data);
      var direct := Message.CipRequest(service, path, data);
      cip := if slot == Cip.NO_ROUTE then direct else Message.RoutedCip(slot, direct);
    }
    rest := Message.BodyPreamble(10) + Cpf.ItemListBytes(Message.RequestItems(cip));
    assert Message.RequestFrame(session, m.context, cip)
        == HeaderBytes(Message.RequestHeader(session, m.context, |cip|)) + rest;
  }

  lemma SendableFits(slot: u8, service: u8, path: seq<byte>, data: seq<byte>)
    requires Message.Sendable(path, data)
    ensures |Message.CipRequest(service, path, data)| <= Message.MAX_CIP
    ensures |Message.RoutedCip(slot, Message.CipRequest(service, path, data))| <= Message.MAX_CIP + Message.ROUTED_OVERHEAD
  {
  }

  /** No tag request ever starts with a handle from before a reconnect: whatever run came
      before, an operation that starts puts the current session handle in its frame, and that
      handle belongs to the connection now in use. */
  lemma StartedRequestsAreFresh(n: nat, data: seq<byte>, es: seq<Event>, h: int, timeout: u32, now: nat)
    requires |data| == Tags.MAX_DATA
    ensures var c := Run(n, data, es);
            && Shaped(c)
            && (Read(c, h, timeout, now).1 == Pending ==> FreshRequest(c, Read(c, h, timeout, now).0.msg))
            && (Write(c, h, timeout, now).1 == Pending ==> FreshRequest(c, Write(c, h, timeout, now).0.msg))
  {
    hide Tags.SendVia, HeaderOf, Cip.SymbolicPath, Tags.WriteLength, Notified, Single, Message.RequestFrame;
    RunKeeps(n, data, es);
    var c := Run(n, data, es);
    if ValidHandle(c, h) {
      var s := c.slots[h];
      var cip, rest := StartedFrame(c.msg, c.tcp, c.session.handle, c.cpuSlot, Cip.READ_TAG, Cip.SymbolicPath(s.name),
                              Tags.ReadData(s.count), timeout, now);
      HeaderRoundTrip(Message.RequestHeader(c.session.handle, c.msg.context, |cip|), rest);
      if Tags.WriteLength(s.tag, s.count).Some? {
        var cip', rest' := StartedFrame(c.msg, c.tcp, c.session.handle, c.cpuSlot, Cip.WRITE_TAG, Cip.SymbolicPath(s.name),
                                 Tags.WriteData(s.tag, s.count, Tags.WriteLength(s.tag, s.count).value), timeout, now);
        HeaderRoundTrip(Message.RequestHeader(c.session.handle, c.msg.context, |cip'|), rest');
      }
    }
  }

  predicate FreshRequest(c: Client, m: Msg) {
    && |m.wire.tx| >= HEADER_SIZE && HeaderOf(m.wire.tx).session == c.session.handle
    && c.session.phase.Registered? && c.session.handle != 0 && c.session.handleEpoch == c.tcp.epoch
  }

  /** The operation is in flight in a slot that is in use. */
  predicate Live(c: Client, k: nat) {
    exists i | 0 <= i < |c.slots| :: SlotBusy(c.slots[i]) && c.slots[i].inUse && c.slots[i].op == k
  }

  /** Over any run each operation has at most one tag callback, none while it is in flight in a
      slot in use, and after that exactly if some poll saw it pending and since the last such
      poll it was not aborted, not destroyed, and not finished with no callback installed. */
  lemma CompletionCallbacks(n: nat, data: seq<byte>, es: seq<Event>)
    requires |data| == Tags.MAX_DATA
    ensures var c := Run(n, data, es);
            && (forall a, b | 0 <= a < b < |c.log| :: c.log[a].op != c.log[b].op)
            && (forall k | Live(c, k) :: !Logged(c, k))
            && (forall k | !Live(c, k) :: Logged(c, k) <==> k in c.seen && k !in c.excused)
  {
    RunKeeps(n, data, es);
    var c := Run(n, data, es);
    forall k | Live(c, k)
      ensures !Logged(c, k)
    {
      var i :| 0 <= i < |c.slots| && SlotBusy(c.slots[i]) && c.slots[i].inUse && c.slots[i].op == k;
      assert BusyAt(c.slots, i);
    }
    forall k | !Live(c, k)
      ensures Logged(c, k) <==> k in c.seen && k !in c.excused
    {
      assert forall i :: !Owed(c, i, k);
    }
  }

  // ---------------------------------------------------------------------------------------
  // Deadlines

  /** No poll at or after the deadline leaves the client connecting or registering under that
      deadline: the poll fails it with Timeout. Ticks wrap; the deadline is measured against
      the unbounded clock. */
  lemma DeadlineEndsConnecting(c: Client, env: Env, start: nat, timeout: u32)
    requires Shaped(c) && (c.state.Connecting? || c.state.Registering?)
    requires c.deadline == Add32(Ticks(start), timeout)
    requires start + timeout <= env.t0 < start + timeout + 0x8000_0000
    ensures Poll(c, env).0.state.Failed? && Poll(c, env).1 == Returned(Timeout)
  {
    hide Session.PollSession, Session.OpenSession;
    DeadlineIsWrapSafe(env.t0, start, timeout);
  }

  /** The session inherits the client's deadline: exactly, up to the ticks that pass between
      the two clock reads, even if the time left underflows. */
  lemma SessionInheritsDeadline(c: Client, env: Env)
    requires Shaped(c) && c.state.Connecting? && env.t1 <= env.t2
    requires Poll(c, env).0.state.Registering?
    ensures Poll(c, env).0.session.deadline == (c.deadline + (env.t2 - env.t1)) % TWO32
  {
    hide Session.RegisterFrame;
    HandedDeadline(c.deadline, env.t1, env.t2);
  }
}
