/**
 The operation without a callback: one that completes in its first poll. Shown for every ready
 client, and on a run that starts from a client that was never used.
 */
module Silence {
  import opened Bytes
  import opened Status
  import opened Encapsulation
  import opened Stream
  import opened Courier
  import opened Framing
  import opened Client
  import opened ClientRuns
  import opened Exchange
  import opened Lifecycle
  import opened Connecting
  import Cip
  import Message
  import Session
  import Server
  import Tags
  import Wedge

  /** No slot in use is watched as pending. */
  predicate NoneWatched(slots: seq<Slot>) {
    forall j | 0 <= j < |slots| :: slots[j].inUse ==> slots[j].prev != Pending
  }

  /** Operations a pass may newly see pending: those still in flight after it. */
  ghost predicate SeenInFlight(c: Client, c': Client) {
    forall k | k in c'.seen :: k in c.seen || exists j :: BusyAt(c'.slots, j) && c'.slots[j].op == k
  }

  /** A pass over slots none of which is watched makes no callback. If the message is past its
      deadline, the pass also ends every operation it meets. */
  lemma {:induction false} SilentPass(c: Client, i: nat, lost: bool, now: nat)
    requires Inv(c) && i <= |c.slots|
    requires forall j | i <= j < |c.slots| :: c.slots[j].inUse ==> c.slots[j].prev != Pending
    ensures var (c', outcome) := RunSlots(c, i, lost, now);
            && Inv(c') && |c'.slots| == |c.slots| && c'.log == c.log && c'.frames == c.frames && outcome.Returned?
            && (forall j | 0 <= j < i :: c'.slots[j] == c.slots[j])
            && (forall j | 0 <= j < |c.slots| :: c'.slots[j].inUse == c.slots[j].inUse && c'.slots[j].op == c.slots[j].op)
            && (forall j | 0 <= j < |c.slots| && SlotBusy(c'.slots[j]) :: SlotBusy(c.slots[j]))
            && SeenInFlight(c, c') && c.seen <= c'.seen && c'.ops == c.ops && c'.tagCallback == c.tagCallback
            && (forall j | 0 <= j < |c.slots| && c.slots[j].inUse && SlotBusy(c'.slots[j]) ::
                  j < i || c'.slots[j].op in c'.seen)
            && (Expired(Ticks(now), c.msg.deadline) ==>
                  && (forall j | i <= j < |c.slots| :: c'.slots[j].inUse ==> !SlotBusy(c'.slots[j]))
                  && (!lost ==> outcome == Returned(Ok) && c'.state == c.state && c'.tcp == c.tcp))
    decreases |c.slots| - i
  {
    hide Single, Fresh, Notified, Expired;
    if i == |c.slots| {
      DroppedKeeps(c);
    } else {
      if !c.slots[i].inUse {
        SilentPass(c, i + 1, lost, now);
      } else {
        var (c1, st, fires) := PollSlot(c, i, now);
        PollSlotKeeps(c, i, now);
        UnwatchedPoll(c, i, now);
        SilentPass(c1, i + 1, lost || st == Closed, now);
      }
    }
  }

  lemma UnwatchedPoll(c: Client, i: nat, now: nat)
    requires Inv(c) && i < |c.slots| && c.slots[i].inUse && c.slots[i].prev != Pending
    ensures var (c', st, fires) := PollSlot(c, i, now);
            && !fires && (SlotBusy(c'.slots[i]) <==> st == Pending) && (st == Pending ==> SlotBusy(c.slots[i]))
            && c'.slots == c.slots[i := c'.slots[i]]
            && c'.slots[i].inUse && c'.slots[i].op == c.slots[i].op
            && c'.log == c.log && c'.ops == c.ops && c'.state == c.state && c'.tagCallback == c.tagCallback
            && c'.seen == (if st == Pending then c.seen + {c.slots[i].op} else c.seen)
            && (Expired(Ticks(now), c.msg.deadline) ==>
                  st != Pending && st != Closed && c'.msg.deadline == c.msg.deadline && c'.tcp == c.tcp)
  {
    hide Notified, Fresh, Expired, Drain, Fill;
    var s := c.slots[i];
    assert SlotBusy(s) ==> BusyAt(c.slots, i);
    PollTagFollowsMessage(s.tag, c.msg, c.tcp, now);
  }

  /** A read or a write. */
  function Asked(c: Client, write: bool, h: int, timeout: u32, now: nat): (Client, Status)
    requires TagsOk(c.slots)
  {
    if write then Write(c, h, timeout, now) else Read(c, h, timeout, now)
  }

  /** Whatever a ready client did before, and whatever the line does: the first poll after a read
      or a write has started makes no callback. If it ends the operation, no later run brings one
      either; if it does not, it has seen the operation pending. A poll at the deadline ends it. */
  lemma FirstPollIsSilent(c: Client, write: bool, h: int, timeout: u32, now: nat, env: Env, es: seq<Event>)
    requires Inv(c) && Asked(c, write, h, timeout, now).1 == Pending
    ensures ValidHandle(c, h)
    ensures var c' := Poll(Asked(c, write, h, timeout, now).0, env).0;
            && Inv(c') && c'.log == c.log && c'.ops == c.ops + 1 && |c'.slots| == |c.slots|
            && c'.slots[h].inUse && c'.slots[h].op == c.ops
            && (SlotBusy(c'.slots[h]) <==> c.ops in c'.seen)
            && (!SlotBusy(c'.slots[h]) ==> !Logged(RunFrom(c', es), c.ops))
            && (Expired(Ticks(env.t0), Add32(Ticks(now), timeout)) ==> !SlotBusy(c'.slots[h]))
  {
    hide Fresh, Single, RunSlots, Expired, Read, Write, Step;
    var c1 := Asked(c, write, h, timeout, now).0;
    var c' := FirstPoll(c, write, h, timeout, now, env);
    if !SlotBusy(c'.slots[h]) {
      SilentForever(c', c.ops, es);
    }
  }

  lemma FirstPoll(c: Client, write: bool, h: int, timeout: u32, now: nat, env: Env) returns (c': Client)
    requires Inv(c) && Asked(c, write, h, timeout, now).1 == Pending
    ensures ValidHandle(c, h) && c' == Poll(Asked(c, write, h, timeout, now).0, env).0
    ensures Inv(c') && c'.log == c.log && c'.ops == c.ops + 1 && |c'.slots| == |c.slots|
    ensures c'.slots[h].inUse && c'.slots[h].op == c.ops
    ensures SlotBusy(c'.slots[h]) <==> c.ops in c'.seen
    ensures !SlotBusy(c'.slots[h]) ==> Forgotten(c', c.ops)
    ensures Expired(Ticks(env.t0), Add32(Ticks(now), timeout)) ==>
              !SlotBusy(c'.slots[h]) && c'.state == c.state && c'.tagCallback == c.tagCallback
  {
    hide Fresh, RunSlots, Expired, Read, Write;
    var c1 := Asked(c, write, h, timeout, now).0;
    ReadKeeps(c, h, timeout, now);
    WriteKeeps(c, h, timeout, now);
    NoneWatchedAfterStart(c, write, h, timeout, now);
    var c2 := c1.(tcp := c1.tcp.(script := env.script));
    FramesDoNotMatter(c1, c1.frames, env.script);
    assert c1.(frames := c1.frames, tcp := c1.tcp.(script := env.script)) == c2;
    SilentPass(c2, 0, false, env.t0);
    c' := Poll(c1, env).0;
    assert c' == RunSlots(c2, 0, false, env.t0).0;
    assert BusyAt(c1.slots, h);
    assert c.ops !in c1.seen;
    NoOtherIsNumbered(c1, c', h, c.ops);
  }

  /** Only slot h carries the newest number among the busy. */
  lemma NoOtherIsNumbered(c1: Client, c': Client, h: nat, k: nat)
    requires Inv(c') && h < |c'.slots| && c'.slots[h].op == k && k !in c1.seen && SeenInFlight(c1, c')
    requires forall j | 0 <= j < |c'.slots| && j != h && SlotBusy(c'.slots[j]) :: c'.slots[j].op != k
    requires SlotBusy(c'.slots[h]) ==> k in c'.seen
    requires k < c'.ops
    ensures SlotBusy(c'.slots[h]) <==> k in c'.seen
    ensures !SlotBusy(c'.slots[h]) ==> Forgotten(c', k)
  {
    hide Fresh, Single, Notified;
    assert forall j | BusyAt(c'.slots, j) && j != h :: c'.slots[j].op != k;
  }

  lemma NoneWatchedAfterStart(c: Client, write: bool, h: int, timeout: u32, now: nat)
    requires Inv(c) && Asked(c, write, h, timeout, now).1 == Pending
    ensures ValidHandle(c, h) && c.state.Ready?
    ensures var c' := Asked(c, write, h, timeout, now).0;
            && NoneWatched(c'.slots) && |c'.slots| == |c.slots| && c'.msg.deadline == Add32(Ticks(now), timeout)
            && c'.state == c.state && c'.log == c.log && c'.seen == c.seen && c'.ops == c.ops + 1 && c'.slots[h].op == c.ops
            && c'.slots[h].inUse && SlotBusy(c'.slots[h]) && c'.tagCallback == c.tagCallback
            && c.ops !in c.seen && forall j | 0 <= j < |c.slots| && j != h :: c'.slots[j] == c.slots[j] && !SlotBusy(c.slots[j])
  {
    hide Fresh, Message.CipRequest, Message.RoutedCip, Message.RequestFrame, Tags.WriteLength;
    var s := c.slots[h];
    ReadStartsOrNothing(s.tag, c.msg, c.tcp, c.session.handle, s.name, s.count, timeout, c.cpuSlot, now);
    WriteStartsOrNothing(s.tag, c.msg, c.tcp, c.session.handle, s.name, s.count, timeout, c.cpuSlot, now);
    forall j | 0 <= j < |c.slots|
      ensures !SlotBusy(c.slots[j]) && (c.slots[j].inUse ==> c.slots[j].prev != Pending)
    {
      assert !BusyAt(c.slots, j);
    }
  }

  // ---------------------------------------------------------------------------------------
  // An operation that is over and was never seen pending

  /** Operation k has been started, is in flight nowhere and no poll saw it pending. */
  ghost predicate Forgotten(c: Client, k: nat) {
    k < c.ops && k !in c.seen && forall j | BusyAt(c.slots, j) :: c.slots[j].op != k
  }

  lemma ForgottenSlot(c: Client, i: nat, k: nat, now: nat)
    requires Inv(c) && Forgotten(c, k) && i < |c.slots|
    ensures var c' := PollSlot(c, i, now).0; Forgotten(c', k) && |c'.slots| == |c.slots|
  {
    hide Tags.PollTag, Fresh, Notified;
    var s := c.slots[i];
    assert SlotBusy(s) ==> BusyAt(c.slots, i);
    PollTagFollowsMessage(s.tag, c.msg, c.tcp, now);
    var c' := PollSlot(c, i, now).0;
    assert forall j | BusyAt(c'.slots, j) :: BusyAt(c.slots, j) && c'.slots[j].op == c.slots[j].op;
  }

  lemma {:induction false} ForgottenSlots(c: Client, i: nat, k: nat, lost: bool, now: nat)
    requires Inv(c) && Forgotten(c, k) && i <= |c.slots|
    ensures Forgotten(RunSlots(c, i, lost, now).0, k)
    decreases |c.slots| - i
  {
    hide PollSlot, Single, Fresh, Notified;
    if i < |c.slots| {
      if !c.slots[i].inUse {
        ForgottenSlots(c, i + 1, k, lost, now);
      } else {
        var (c1, st, fires) := PollSlot(c, i, now);
        PollSlotKeeps(c, i, now);
        ForgottenSlot(c, i, k, now);
        if !fires {
          ForgottenSlots(c1, i + 1, k, lost || st == Closed, now);
        }
      }
    }
  }

  lemma ForgottenPolls(c: Client, k: nat, env: Env)
    requires Inv(c) && Forgotten(c, k)
    ensures Forgotten(Poll(c, env).0, k) && Forgotten(Resume(c, env).0, k)
  {
    hide RunSlots, Single, Fresh, Notified, Session.PollSession, Session.OpenSession;
    var c0 := c.(tcp := c.tcp.(script := env.script));
    FramesDoNotMatter(c, c.frames, env.script);
    assert c.(frames := c.frames, tcp := c.tcp.(script := env.script)) == c0;
    ForgottenSlots(c0, 0, k, false, env.t0);
    if c.frames != [] {
      var frames, f := c.frames[..|c.frames| - 1], c.frames[|c.frames| - 1];
      assert f in c.frames && forall g | g in frames :: g in c.frames;
      FramesDoNotMatter(c, frames, env.script);
      ForgottenSlots(c.(frames := frames, tcp := c.tcp.(script := env.script)), f.next, k, f.disconnected, env.t0);
    }
  }

  lemma ForgottenStart(c: Client, k: nat, write: bool, h: int, timeout: u32, now: nat)
    requires Inv(c) && Forgotten(c, k)
    ensures Forgotten(Asked(c, write, h, timeout, now).0, k)
  {
    hide Fresh, Notified, Tags.ReadTag, Tags.WriteTag;
    if Refusal(c, h).None? {
      var s := c.slots[h];
      ReadStartsOrNothing(s.tag, c.msg, c.tcp, c.session.handle, s.name, s.count, timeout, c.cpuSlot, now);
      WriteStartsOrNothing(s.tag, c.msg, c.tcp, c.session.handle, s.name, s.count, timeout, c.cpuSlot, now);
      var c' := Asked(c, write, h, timeout, now).0;
      assert forall j | BusyAt(c'.slots, j) && j != h :: BusyAt(c.slots, j);
      assert SlotBusy(s) ==> BusyAt(c.slots, h);
    }
  }

  lemma ForgottenStep(c: Client, k: nat, e: Event)
    requires Inv(c) && Forgotten(c, k)
    ensures Forgotten(Step(c, e), k)
  {
    hide Poll, Resume, Read, Write, Single, Fresh, Notified, Forgotten;
    match e
    case DoPoll(env) => ForgottenPolls(c, k, env);
    case DoResume(env) => ForgottenPolls(c, k, env);
    case DoRead(h, timeout, now) => ForgottenStart(c, k, false, h, timeout, now);
    case DoWrite(h, timeout, now) => ForgottenStart(c, k, true, h, timeout, now);
    case _ => ForgottenCall(c, k, e);
  }

  /** The calls that neither poll nor start anything. */
  lemma ForgottenCall(c: Client, k: nat, e: Event)
    requires Shaped(c) && Forgotten(c, k) && !e.DoPoll? && !e.DoResume? && !e.DoRead? && !e.DoWrite?
    ensures Forgotten(Step(c, e), k)
  {
    hide Shaped, Session.AbortSession, Session.CloseSession, TcpConnect, TcpClose, Excuse;
    var c' := Step(c, e);
    assert |c'.slots| == |c.slots|;
    assert forall j | BusyAt(c'.slots, j) :: BusyAt(c.slots, j) && c'.slots[j].op == c.slots[j].op;
  }

  lemma {:induction false} SilentForever(c: Client, k: nat, es: seq<Event>)
    requires Inv(c) && Forgotten(c, k)
    ensures Forgotten(RunFrom(c, es), k) && !Logged(RunFrom(c, es), k)
  {
    hide Step, Forgotten, Single, Fresh;
    if es != [] {
      SilentForever(c, k, es[..|es| - 1]);
      RunFromKeeps(c, es[..|es| - 1]);
      ForgottenStep(RunFrom(c, es[..|es| - 1]), k, es[|es| - 1]);
    }
    RunFromKeeps(c, es);
    ForgottenIsUnlogged(RunFrom(c, es), k);
  }

  lemma ForgottenIsUnlogged(c: Client, k: nat)
    requires Inv(c) && Forgotten(c, k)
    ensures !Logged(c, k)
  {
  }

  // ---------------------------------------------------------------------------------------
  // A run that gets there

  /** Two clients with the same pool, message and bookkeeping. */
  predicate SamePool(c: Client, c': Client) {
    && c'.slots == c.slots && c'.msg == c.msg && c'.frames == c.frames && c'.cpuSlot == c.cpuSlot
    && c'.log == c.log && c'.seen == c.seen && c'.excused == c.excused && c'.ops == c.ops
  }

  lemma ConnectionPollsLeavePool(c: Client, env: Env)
    ensures SamePool(c, PollEthernet(c, env).0) && SamePool(c, PollConnecting(c, env).0)
    ensures SamePool(c, PollRegistering(c, env).0) && SamePool(c, PollDisconnecting(c, env).0)
  {
    hide Session.PollSession, Session.OpenSession, Expired, TcpPoll, TcpConnect;
  }

  lemma ConnectionEventsLeavePool(c: Client, e: Event)
    requires Shaped(c)
    requires e.DoBegin? || e.DoConnect? || e.Deliver? || (e.DoPoll? && !c.state.Ready?)
    ensures SamePool(c, Step(c, e))
  {
    hide PollEthernet, PollConnecting, PollRegistering, PollDisconnecting, Session.AbortSession, RunSlots;
    if e.DoPoll? {
      ConnectionPollsLeavePool(c.(tcp := c.tcp.(script := e.env.script)), e.env);
    }
  }

  /** The peer's turn is a delivery of its bytes. */
  lemma ServerTurnDelivers(w: Scene) returns (bytes: seq<byte>)
    requires Shaped(w.c) && !w.c.tcp.link.Shut?
    ensures Act(w, ServerTurn).c == Step(w.c, Deliver(bytes))
  {
    hide Server.HandleFrame, FrameAt;
    bytes := Act(w, ServerTurn).c.tcp.inbox[|w.c.tcp.inbox|..];
    assert Act(w, ServerTurn).c.tcp.inbox == w.c.tcp.inbox + bytes;
  }

  function At0(dial: Dial, script: seq<Io>): Env {
    Env(0, 0, 0, true, None, dial, script)
  }

  lemma RunSnoc(n: nat, data: seq<byte>, es: seq<Event>, e: Event)
    requires |data| == Tags.MAX_DATA
    ensures Run(n, data, es + [e]) == Step(Run(n, data, es), e)
  {
    assert (es + [e])[..|es|] == es;
  }

  /** Every deadline 5000 ms after tick 0 lies ahead of tick 0. */
  lemma InTimeAt0(c: Client, dial: Dial, script: seq<Io>)
    requires c.deadline == 5000 && (c.state.Registering? ==> c.session.deadline == 5000)
    ensures !TooLate(c, At0(dial, script))
  {
  }

  lemma HandedAt0(dial: Dial, script: seq<Io>)
    ensures Handed(5000, At0(dial, script)) == 5000 && Add32(Ticks(0), 5000) == 5000
  {
  }

  lemma ConnectIsStep(c: Client)
    requires Inv(c)
    ensures Shaped(c) && Step(c, DoConnect(5000, None, 0)) == Connect(c, 5000, None, 0).0
  {
    hide Connect, Single, Fresh, Notified;
  }

  /** The connecting half, beat by beat, as events of the client. */
  lemma ComesUp(c: Client) returns (es: seq<Event>)
    requires Inv(c) && c.eth.ready
    ensures |es| == 5
    ensures var c' := Step(Step(Step(Step(Step(c, es[0]), es[1]), es[2]), es[3]), es[4]);
            Inv(c') && c'.state.Ready? && c'.tcp.link.Up? && c'.tcp.inbox == [] && SamePool(c, c')
  {
    hide Step, Inv, Act, Server.HandleFrame, Connecting.Registering, Welcoming, Underway, Session.RegisterFrame, TooLate;
    var k, s := 1000, Server.Server([], map[], 0, false);
    var dialled, send, read := At0(Made, []), At0(StillTrying, [Stream.Move(k)]), At0(StillTrying, [Stream.Move(k), Stream.Move(k)]);
    var context := c.session.context;
    var x := Greeting(context, c.tcp.epoch + 1, s);
    GreetingIsOk(context, c.tcp.epoch + 1, s);
    WelcomingIsOk(x);
    Dials(c, s, 5000, 0);
    HandedAt0(Made, []);
    ConnectIsStep(c);
    var w := Scene(Connect(c, 5000, None, 0).0, s);
    ConnectionEventsLeavePool(c, DoConnect(5000, None, 0));
    var w1 := Dialled1(x, context, w, dialled);
    var w2 := Sent1(x, w1, send, k);
    RegisteringServed(x, 5000, w2, false);
    var w3 := Act(w2, ServerTurn);
    var bytes := Delivered1(x, w2);
    Read1(x, w3, read, k);
    es := [DoConnect(5000, None, 0), DoPoll(dialled), DoPoll(send), Deliver(bytes), DoPoll(read)];
  }

  lemma Dialled1(x: Visit, context: u64, w: Scene, env: Env) returns (w': Scene)
    requires Dialling(x, context, 5000, w) && VisitOk(x) && x.before.read == 0 && env == At0(Made, [])
    requires Underway(x.errand, Queue(Session.RegisterFrame(context)), x.errand.from, false)
    ensures w' == Act(w, PollTurn(env)) && w'.c == Step(w.c, DoPoll(env)) && SamePool(w.c, w'.c)
    ensures Connecting.Registering(x, 5000, w', false) && w'.c.session.deadline == 5000
  {
    hide Step, Single, Fresh, Notified, VisitOk, Underway, Session.RegisterFrame, Connecting.Registering, TooLate;
    w' := Act(w, PollTurn(env));
    InTimeAt0(w.c, Made, []);
    HandedAt0(Made, []);
    DiallingPoll(x, context, 5000, w, env);
    ConnectionEventsLeavePool(w.c, DoPoll(env));
  }

  lemma Sent1(x: Visit, w: Scene, env: Env, k: nat) returns (w': Scene)
    requires Connecting.Registering(x, 5000, w, false) && Welcoming(x) && w.c.session.deadline == 5000
    requires k == 1000 && |x.errand.frame| <= k && env == At0(StillTrying, [Stream.Move(k)])
    ensures w' == Act(w, PollTurn(env)) && w'.c == Step(w.c, DoPoll(env)) && SamePool(w.c, w'.c)
    ensures Connecting.Registering(x, 5000, w', false) && w'.c.session.wire.sent == |x.errand.frame|
    ensures w'.c.session.deadline == 5000
  {
    hide Step, Single, Fresh, Notified, Welcoming, Underway, TooLate;
    w' := Act(w, PollTurn(env));
    InTimeAt0(w.c, StillTrying, env.script);
    RegisteringTurn(x, 5000, w, false, env);
    FinishSends(x, 5000, w, false, env, k);
    ConnectionEventsLeavePool(w.c, DoPoll(env));
  }

  lemma Delivered1(x: Visit, w: Scene) returns (bytes: seq<byte>)
    requires Connecting.Registering(x, 5000, w, false)
    ensures var c' := Act(w, ServerTurn).c;
            c' == Step(w.c, Deliver(bytes)) && SamePool(w.c, c') && c'.session == w.c.session
  {
    hide Step, Single, Fresh, Notified, Server.Serve;
    bytes := ServerTurnDelivers(w);
    ConnectionEventsLeavePool(w.c, Deliver(bytes));
  }

  lemma Read1(x: Visit, w: Scene, env: Env, k: nat)
    requires Connecting.Registering(x, 5000, w, true) && Welcoming(x) && w.c.session.deadline == 5000
    requires k == 1000 && env == At0(StillTrying, [Stream.Move(k), Stream.Move(k)])
    ensures var c' := Step(w.c, DoPoll(env));
            Inv(c') && c'.state.Ready? && c'.tcp.link.Up? && c'.tcp.inbox == [] && SamePool(w.c, c')
  {
    hide Step, Single, Fresh, Notified, Welcoming, Underway, TooLate;
    InTimeAt0(w.c, StillTrying, env.script);
    FinishReads(x, 5000, w, env, k);
    ConnectionEventsLeavePool(w.c, DoPoll(env));
  }

  /** A client that was never used can become ready, its pool untouched. */
  lemma ReadyIsReachable(n: nat, data: seq<byte>) returns (es: seq<Event>)
    requires |data| == Tags.MAX_DATA
    ensures var c := Run(n, data, es);
            Inv(c) && c.state.Ready? && c.tcp.link.Up? && c.tcp.inbox == [] && SamePool(NewClient(n, data), c)
  {
    hide Step, Inv;
    var up, link := DoBegin(true), DoPoll(At0(StillTrying, []));
    var c2 := LinkUp(n, data);
    var rest := ComesUp(c2);
    var es2 := [] + [up] + [link];
    RunSnoc(n, data, [], up);
    RunSnoc(n, data, [] + [up], link);
    RunSnoc(n, data, es2, rest[0]);
    RunSnoc(n, data, es2 + [rest[0]], rest[1]);
    RunSnoc(n, data, es2 + [rest[0]] + [rest[1]], rest[2]);
    RunSnoc(n, data, es2 + [rest[0]] + [rest[1]] + [rest[2]], rest[3]);
    RunSnoc(n, data, es2 + [rest[0]] + [rest[1]] + [rest[2]] + [rest[3]], rest[4]);
    es := es2 + [rest[0]] + [rest[1]] + [rest[2]] + [rest[3]] + [rest[4]];
  }

  lemma LinkUp(n: nat, data: seq<byte>) returns (c: Client)
    requires |data| == Tags.MAX_DATA
    ensures c == Step(Step(NewClient(n, data), DoBegin(true)), DoPoll(At0(StillTrying, [])))
    ensures Inv(c) && c.eth.ready && SamePool(NewClient(n, data), c)
  {
    hide Single, Fresh, Notified;
    var c0 := NewClient(n, data);
    NewClientOk(n, data);
    StepKeeps(c0, DoBegin(true));
    var c1 := Step(c0, DoBegin(true));
    StepKeeps(c1, DoPoll(At0(StillTrying, [])));
    c := Step(c1, DoPoll(At0(StillTrying, [])));
  }

  /** The failing input for "one callback per operation": on a client with a pool and a callback
      installed, a read with no time to spare is started and polled once. The operation is over
      and there has been no callback at all. */
  lemma AnOperationWithoutACallback(n: nat, data: seq<byte>) returns (es: seq<Event>)
    requires |data| == Tags.MAX_DATA && n > 0
    ensures var c := Run(n, data, es);
            && c.tagCallback && c.state.Ready? && c.ops == 1 && c.log == [] && |c.slots| == n
            && c.slots[0].inUse && c.slots[0].op == 0 && !SlotBusy(c.slots[0])
  {
    hide Step, Inv, SamePool;
    var ready := ReadyIsReachable(n, data);
    var c := Run(n, data, ready);
    var c1 := Asks(n, data, c);
    var poll := At0(StillTrying, []);
    var c2 := FirstPoll(c1, false, 0, 0, 0, poll);
    PollsAsStep(Read(c1, 0, 0, 0).0, poll);
    var callback, create, read := DoSetCallback(true), DoCreate([65], 1), DoRead(0, 0, 0);
    RunSnoc(n, data, ready, callback);
    RunSnoc(n, data, ready + [callback], create);
    RunSnoc(n, data, ready + [callback] + [create], read);
    RunSnoc(n, data, ready + [callback] + [create] + [read], DoPoll(poll));
    es := ready + [callback] + [create] + [read] + [DoPoll(poll)];
  }

  lemma PollsAsStep(c: Client, env: Env)
    requires Shaped(c)
    ensures Step(c, DoPoll(env)) == Poll(c, env).0
  {
  }

  /** The ready client with a callback, one tag, and a read that can start. */
  lemma Asks(n: nat, data: seq<byte>, c: Client) returns (c1: Client)
    requires |data| == Tags.MAX_DATA && n > 0
    requires Inv(c) && c.state.Ready? && c.tcp.link.Up? && c.tcp.inbox == [] && SamePool(NewClient(n, data), c)
    ensures c1 == Step(Step(c, DoSetCallback(true)), DoCreate([65], 1))
    ensures Inv(c1) && c1.tagCallback && c1.state.Ready? && c1.ops == 0 && c1.log == [] && |c1.slots| == n
    ensures c1.tcp == c.tcp && c1.cpuSlot == Cip.NO_ROUTE && c1.slots[0].inUse && c1.slots[0].name == [65]
    ensures forall j | 0 <= j < |c1.slots| :: !SlotBusy(c1.slots[j])
    ensures Read(c1, 0, 0, 0).1 == Pending && Shaped(Read(c1, 0, 0, 0).0)
    ensures Step(c1, DoRead(0, 0, 0)) == Read(c1, 0, 0, 0).0
  {
    hide Single, Fresh, Notified, Message.StartSend, Message.CipRequest;
    StepKeeps(c, DoSetCallback(true));
    StepKeeps(Step(c, DoSetCallback(true)), DoCreate([65], 1));
    c1 := Step(Step(c, DoSetCallback(true)), DoCreate([65], 1));
    assert FindFree(c.slots) == 0;
    assert c1.slots[0].inUse && c1.slots[0].name == [65] && !SlotBusy(c1.slots[0]);
    Wedge.NoneBusyInUse(c1.slots);
    StepKeeps(c1, DoRead(0, 0, 0));
    Cip.SymbolicPathFits([65]);
  }
}
