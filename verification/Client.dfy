/**
 The top-level client: one connection state machine and a pool of tags that share one
 message object. Callbacks may call back into the client.

 poll() is cut at its callback points. While a tag callback runs, the rest of the poll is a
 frame on a stack; any client call, a nested poll included, may happen before the frame is
 resumed. A state callback is the last thing a poll does, so it leaves nothing to resume.
 */
module Client {
  import opened Bytes
  import opened Status
  import opened Stream
  import opened Cip
  import Message
  import Session
  import Tags

  type Msg = Message.Msg
  type Tag = Tags.Tag

  const MAX_TAG_NAME: nat := 64

  datatype ClientState = Idle | Ethernet | Connecting | Registering | Ready | Disconnecting | Failed

  datatype Eth = Eth(started: bool, ready: bool, failed: bool)

  datatype Slot = Slot(
    tag: Tag,
    inUse: bool,
    name: seq<byte>,
    count: u32,
    prev: Status,          // status the last poll saw
    op: nat)               // number of the latest operation started here

  /** The part of a poll that is waiting for a tag callback to return. */
  datatype Frame = Frame(next: nat, disconnected: bool)

  /** A tag callback that was made. */
  datatype Notice = Notice(handle: nat, op: nat, status: Status)

  datatype Client = Client(
    state: ClientState,
    eth: Eth,
    tcp: Tcp,
    session: Session.Session,
    msg: Msg,
    slots: seq<Slot>,
    wantConnect: bool,
    connectTimeout: u32,
    deadline: u32,
    cpuSlot: u8,
    tagCallback: bool,       // whether one is installed
    frames: seq<Frame>,
    // Bookkeeping of operations, not read by any branch.
    ops: nat,                // operations started
    log: seq<Notice>,        // callbacks made, in order
    seen: set<nat>,          // operations some poll observed in flight
    excused: set<nat>)       // operations aborted, destroyed in flight or finished with no callback installed,
                             // and not seen pending since

  /** What poll() hands back, or that it is inside a tag callback. */
  datatype Outcome = Returned(st: Status) | InCallback(handle: nat, st: Status)

  /** The clock readings and the environment of one stretch of polling. */
  datatype Env = Env(
    t0: nat, t1: nat, t2: nat,       // successive millis() readings
    linkUp: bool,                    // Ethernet link and address are there
    refusal: Option<Status>,         // a dial that fails at once
    dial: Dial,                      // how a pending dial turns out
    script: seq<Io>)

  function SlotBusy(s: Slot): bool {
    Tags.Busy(s.tag)
  }

  function AnyTagBusy(slots: seq<Slot>): bool {
    slots != [] && ((slots[0].inUse && SlotBusy(slots[0])) || AnyTagBusy(slots[1..]))
  }

  /** Index of the first free slot, or |slots|. */
  function FindFree(slots: seq<Slot>): (i: nat)
    ensures i <= |slots| && (i < |slots| ==> !slots[i].inUse)
    ensures forall j | 0 <= j < i :: slots[j].inUse
  {
    if slots == [] || !slots[0].inUse then 0 else 1 + FindFree(slots[1..])
  }

  predicate ValidHandle(c: Client, h: int) {
    0 <= h < |c.slots| && c.slots[h].inUse
  }

  // ---------------------------------------------------------------------------------------
  // Connecting

  function BeginEth(up: bool): Eth {
    Eth(up, false, !up)
  }

  function Begin(c: Client, up: bool): (r: (Client, Status)) {
    (c.(state := Ethernet, wantConnect := false, eth := BeginEth(up)), if up then Pending else Error)
  }

  function EthPoll(e: Eth, linkUp: bool): (r: (Eth, Status)) {
    if e.failed then (e, Error)
    else if !e.started then (e, NotReady)
    else if e.ready then (e, Ok)
    else if linkUp then (e.(ready := true), Ok)
    else (e, Pending)
  }

  /** Start the TCP connect: a refusal fails the client. */
  function Dialled(c: Client, refusal: Option<Status>, now: nat): (r: (Client, Status)) {
    var (tcp, st) := TcpConnect(c.tcp, refusal);
    (c.(tcp := tcp, state := if st == Pending then Connecting else Failed,
        deadline := Add32(Ticks(now), c.connectTimeout)), st)
  }

  function Connect(c: Client, timeout: u32, refusal: Option<Status>, now: nat): (r: (Client, Status)) {
    var c1 := c.(connectTimeout := timeout, wantConnect := false);
    if c.eth.ready then
      // Drop any previous session so a hot reconnect cannot reuse a stale handle.
      Dialled(c1.(session := Session.AbortSession(c.session), tcp := TcpClose(c.tcp)), refusal, now)
    else (c1.(wantConnect := true, state := Ethernet), Pending)
  }

  /** Drop the session and the socket. */
  function Dropped(c: Client): Client {
    c.(session := Session.AbortSession(c.session), tcp := TcpClose(c.tcp), state := Idle)
  }

  function Disconnect(c: Client): (r: (Client, Status)) {
    if c.state.Ready? then
      (c.(state := Disconnecting, session := Session.CloseSession(c.session).0), Pending)
    else (Dropped(c), Ok)
  }

  // ---------------------------------------------------------------------------------------
  // Polling

  function PollEthernet(c: Client, env: Env): (r: (Client, Status)) {
    var (eth, st) := EthPoll(c.eth, env.linkUp);
    var c1 := c.(eth := eth);
    if st == Ok then
      if c.wantConnect then Dialled(c1.(wantConnect := false), env.refusal, env.t0)
      else (c1, Ok)
    else if st == Error then (c1.(state := Failed), Error)
    else (c1, Pending)
  }

  function PollConnecting(c: Client, env: Env): (r: (Client, Status)) {
    if Expired(Ticks(env.t0), c.deadline) then (c.(state := Failed), Timeout)
    else
      var (tcp, st) := TcpPoll(c.tcp, env.dial);
      var c1 := c.(tcp := tcp);
      if st == Ok then
        var (session, open) := Session.OpenSession(c.session, tcp, Sub32(c.deadline, Ticks(env.t1)), env.t2);
        (c1.(session := session, state := if open == Pending then Registering else Failed), open)
      else if st == Timeout || st == Error then (c1.(state := Failed), st)
      else (c1, Pending)
  }

  function PollRegistering(c: Client, env: Env): (r: (Client, Status)) {
    if Expired(Ticks(env.t0), c.deadline) then (c.(state := Failed), Timeout)
    else
      var (session, tcp, st) := Session.PollSession(c.session, c.tcp, env.t1);
      var c1 := c.(session := session, tcp := tcp);
      if st == Ok then (c1.(state := Ready), Ok)
      else if st == Timeout || st == Error then (c1.(state := Failed), st)
      else (c1, Pending)
  }

  function PollDisconnecting(c: Client, env: Env): (r: (Client, Status)) {
    var (session, tcp, st) := Session.PollSession(c.session, c.tcp, env.t0);
    var c1 := c.(session := session, tcp := tcp);
    if st == Ok || st == Closed then (c1.(tcp := TcpClose(tcp), state := Idle), Ok)
    else (c1, Pending)
  }

  /** One slot's turn in a poll: poll the tag, remember its status, and say whether the tag
      callback is due. */
  function PollSlot(c: Client, i: nat, now: nat): (r: (Client, Status, bool))
    requires i < |c.slots| && Tags.TagOk(c.slots[i].tag)
  {
    var s := c.slots[i];
    var (tag, msg, tcp, st) := Tags.PollTag(s.tag, c.msg, c.tcp, now);
    var due := s.prev == Pending && st != Pending;
    var fires := due && c.tagCallback;
    (c.(msg := msg, tcp := tcp, slots := c.slots[i := s.(tag := tag, prev := st)],
        log := if fires then c.log + [Notice(i, s.op, st)] else c.log,
        seen := if st == Pending then c.seen + {s.op} else c.seen,
        excused := if st == Pending then c.excused - {s.op}
                   else if due && !c.tagCallback then c.excused + {s.op} else c.excused),
     st, fires)
  }

  predicate TagsOk(slots: seq<Slot>) {
    forall i | 0 <= i < |slots| :: Tags.TagOk(slots[i].tag)
  }

  /** The slot loop from slot i, up to the next tag callback or the end of the poll. */
  function RunSlots(c: Client, i: nat, disconnected: bool, now: nat): (r: (Client, Outcome))
    requires TagsOk(c.slots) && i <= |c.slots|
    decreases |c.slots| - i
  {
    if i == |c.slots| then
      if disconnected then (Dropped(c), Returned(Closed)) else (c, Returned(Ok))
    else if !c.slots[i].inUse then RunSlots(c, i + 1, disconnected, now)
    else
      var (c1, st, fires) := PollSlot(c, i, now);
      var gone := disconnected || st == Closed;
      PollSlotKeepsTagsOk(c, i, now);
      if fires then (c1.(frames := c1.frames + [Frame(i + 1, gone)]), InCallback(i, st))
      else RunSlots(c1, i + 1, gone, now)
  }

  lemma PollSlotKeepsTagsOk(c: Client, i: nat, now: nat)
    requires TagsOk(c.slots) && i < |c.slots|
    ensures TagsOk(PollSlot(c, i, now).0.slots) && |PollSlot(c, i, now).0.slots| == |c.slots|
  {
    hide Message.PollMsg;
    Tags.TagStaysOk(c.slots[i].tag, c.msg, c.tcp, now);
  }

  function Poll(c: Client, env: Env): (r: (Client, Outcome))
    requires TagsOk(c.slots)
  {
    var c0 := c.(tcp := c.tcp.(script := env.script));
    match c.state
    case Ethernet => var (c', st) := PollEthernet(c0, env); (c', Returned(st))
    case Connecting => var (c', st) := PollConnecting(c0, env); (c', Returned(st))
    case Registering => var (c', st) := PollRegistering(c0, env); (c', Returned(st))
    case Ready => RunSlots(c0, 0, false, env.t0)
    case Disconnecting => var (c', st) := PollDisconnecting(c0, env); (c', Returned(st))
    case Failed => (c0, Returned(Error))
    case Idle => (c0, Returned(NotReady))
  }

  /** The innermost callback returns and its poll goes on. */
  function Resume(c: Client, env: Env): (r: (Client, Outcome))
    requires TagsOk(c.slots)
    requires forall f | f in c.frames :: f.next <= |c.slots|
  {
    if c.frames == [] then (c, Returned(NotReady))
    else
      var f := c.frames[|c.frames| - 1];
      RunSlots(c.(frames := c.frames[..|c.frames| - 1], tcp := c.tcp.(script := env.script)), f.next, f.disconnected, env.t0)
  }

  // ---------------------------------------------------------------------------------------
  // Tags

  function CreateTag(c: Client, name: seq<byte>, count: u32): (r: (Client, int)) {
    if name == [] || |name| >= MAX_TAG_NAME then (c, Code(InvalidArg))
    else
      var h := FindFree(c.slots);
      if h == |c.slots| then (c, Code(NoMemory))
      else (c.(slots := c.slots[h := c.slots[h].(inUse := true, name := name, count := count, prev := NotReady)]), h)
  }

  /** Operations in flight on a slot whose callback will no longer come. */
  function Excuse(excused: set<nat>, s: Slot): set<nat> {
    if SlotBusy(s) then excused + {s.op} else excused
  }

  function DestroyTag(c: Client, h: int): (r: (Client, Status)) {
    if !ValidHandle(c, h) then (c, InvalidArg)
    else
      var s := c.slots[h];
      (c.(slots := c.slots[h := s.(inUse := false)], excused := Excuse(c.excused, s)), Ok)
  }

  function AbortTag(c: Client, h: int): (r: (Client, Status)) {
    if !ValidHandle(c, h) then (c, InvalidArg)
    else
      var s := c.slots[h];
      var (tag, msg) := Tags.AbortTag(s.tag, c.msg);
      (c.(slots := c.slots[h := s.(tag := tag, prev := NotReady)], msg := msg, excused := Excuse(c.excused, s)), Ok)
  }

  /** The checks read() and write() share; None lets the operation go ahead. */
  function Refusal(c: Client, h: int): Option<Status> {
    if !ValidHandle(c, h) then Some(InvalidArg)
    else if !c.state.Ready? then Some(NotReady)
    else if AnyTagBusy(c.slots) then Some(Status.Busy)
    else None
  }

  /** Put a started or refused operation back into the client. */
  function Launched(c: Client, h: nat, r: (Tag, Msg, Status)): (q: (Client, Status))
    requires h < |c.slots|
  {
    var started := r.2 == Pending;
    (c.(slots := c.slots[h := c.slots[h].(tag := r.0, op := if started then c.ops else c.slots[h].op)],
        msg := r.1, ops := if started then c.ops + 1 else c.ops), r.2)
  }

  function Read(c: Client, h: int, timeout: u32, now: nat): (r: (Client, Status)) {
    var no := Refusal(c, h);
    if no.Some? then (c, no.value)
    else
      var s := c.slots[h];
      Launched(c, h, Tags.ReadTag(s.tag, c.msg, c.tcp, c.session.handle, s.name, s.count, timeout, c.cpuSlot, now))
  }

  function Write(c: Client, h: int, timeout: u32, now: nat): (r: (Client, Status))
    requires TagsOk(c.slots)
  {
    var no := Refusal(c, h);
    if no.Some? then (c, no.value)
    else
      var s := c.slots[h];
      Launched(c, h, Tags.WriteTag(s.tag, c.msg, c.tcp, c.session.handle, s.name, s.count, timeout, c.cpuSlot, now))
  }

  /** The application editing a tag's buffer and type through the pointer it was given, which
      outlives the handle. */
  function EditTag(c: Client, i: nat, data: seq<byte>, dataLen: nat, dataType: u8): Client {
    if i < |c.slots| && |data| == Tags.MAX_DATA && dataLen <= Tags.MAX_DATA
    then c.(slots := c.slots[i := c.slots[i].(tag := c.slots[i].tag.(data := data, dataLen := dataLen, dataType := dataType))])
    else c
  }

  // ---------------------------------------------------------------------------------------
  // Runs

  datatype Event =
    | DoBegin(up: bool)
    | DoConnect(timeout: u32, refusal: Option<Status>, now: nat)
    | DoDisconnect
    | DoPoll(env: Env)
    | DoResume(env: Env)
    | DoCreate(name: seq<byte>, count: u32)
    | DoDestroy(handle: int)
    | DoRead(handle: int, timeout: u32, now: nat)
    | DoWrite(handle: int, timeout: u32, now: nat)
    | DoAbort(handle: int)
    | DoEdit(index: nat, data: seq<byte>, dataLen: nat, dataType: u8)
    | DoSetSlot(slot: u8)
    | DoSetCallback(installed: bool)
    | Deliver(bytes: seq<byte>)          // the peer's bytes arrive, whatever they are

  /** The name fits the array it is copied into. */
  predicate NamesOk(slots: seq<Slot>) {
    forall i | 0 <= i < |slots| :: |slots[i].name| < MAX_TAG_NAME
  }

  predicate Shaped(c: Client) {
    TagsOk(c.slots) && NamesOk(c.slots) && forall f | f in c.frames :: f.next <= |c.slots|
  }

  /** One event; the shape that calls rely on holds in every run. */
  function Step(c: Client, e: Event): Client {
    if !Shaped(c) then c else
    match e
    case DoBegin(up) => Begin(c, up).0
    case DoConnect(timeout, refusal, now) => Connect(c, timeout, refusal, now).0
    case DoDisconnect => Disconnect(c).0
    case DoPoll(env) => Poll(c, env).0
    case DoResume(env) => Resume(c, env).0
    case DoCreate(name, count) => CreateTag(c, name, count).0
    case DoDestroy(h) => DestroyTag(c, h).0
    case DoRead(h, timeout, now) => Read(c, h, timeout, now).0
    case DoWrite(h, timeout, now) => Write(c, h, timeout, now).0
    case DoAbort(h) => AbortTag(c, h).0
    case DoEdit(i, data, dataLen, dataType) => EditTag(c, i, data, dataLen, dataType)
    case DoSetSlot(slot) => c.(cpuSlot := slot)
    case DoSetCallback(installed) => c.(tagCallback := installed)
    case Deliver(bytes) => if c.tcp.link.Shut? then c else c.(tcp := c.tcp.(inbox := c.tcp.inbox + bytes))
  }

  /** A client with a pool of n slots that was never used. The status array starts zeroed,
      which is the code of Pending. */
  function NewClient(n: nat, data: seq<byte>): Client
    requires |data| == Tags.MAX_DATA
  {
    Client(Idle, Eth(false, false, false), Tcp(Shut, 0, [], [], [], []), Session.NewSession, Message.NewMsg,
           seq(n, _ => Slot(Tags.Tag(Tags.Idle, data, 0, 0, 0), false, [], 0, Pending, 0)),
           false, 0, 0, NO_ROUTE, false, [], 0, [], {}, {})
  }

  // ---------------------------------------------------------------------------------------
  // The client, updated in place. Its socket, session, message and tags appear as the values
  // their own classes are proved to realise.

  class PlcClient {
    var state: ClientState
    var eth: Eth
    var tcp: Tcp
    var session: Session.Session
    var msg: Msg
    var slots: seq<Slot>
    var wantConnect: bool
    var connectTimeout: u32
    var deadline: u32
    var cpuSlot: u8
    var tagCallback: bool
    var frames: seq<Frame>
    // Bookkeeping of operations, not read by any branch.
    var ops: nat
    var log: seq<Notice>
    var seen: set<nat>
    var excused: set<nat>

    ghost function View(): Client
      reads this
    {
      Client(state, eth, tcp, session, msg, slots, wantConnect, connectTimeout, deadline, cpuSlot, tagCallback, frames,
             ops, log, seen, excused)
    }

    constructor (poolSize: nat, data: seq<byte>)
      requires |data| == Tags.MAX_DATA
      ensures View() == NewClient(poolSize, data)
    {
      state, eth := Idle, Eth(false, false, false);
      tcp, session, msg := Tcp(Shut, 0, [], [], [], []), Session.NewSession, Message.NewMsg;
      slots := seq(poolSize, _ => Slot(Tags.Tag(Tags.Idle, data, 0, 0, 0), false, [], 0, Pending, 0));
      wantConnect, connectTimeout, deadline, cpuSlot, tagCallback, frames := false, 0, 0, NO_ROUTE, false, [];
      ops, log, seen, excused := 0, [], {}, {};
    }

    method BeginEthernet(up: bool) returns (st: Status)
      modifies this
      ensures (View(), st) == Begin(old(View()), up)
    {
      state := Ethernet;
      wantConnect := false;
      eth := BeginEth(up);
      st := if up then Pending else Error;
    }

    method ConnectTo(timeout: u32, refusal: Option<Status>, now: nat) returns (st: Status)
      modifies this
      ensures (View(), st) == Connect(old(View()), timeout, refusal, now)
    {
      connectTimeout := timeout;
      wantConnect := false;
      if eth.ready {
        session := Session.AbortSession(session);
        tcp := TcpClose(tcp);
        st := Dial(refusal, now);
      } else {
        wantConnect := true;       // Ethernet not ready yet; queue the connect
        state := Ethernet;
        st := Pending;
      }
    }

    method Dial(refusal: Option<Status>, now: nat) returns (st: Status)
      modifies this
      ensures (View(), st) == Dialled(old(View()), refusal, now)
    {
      state := Connecting;
      deadline := Add32(Ticks(now), connectTimeout);
      var r := TcpConnect(tcp, refusal);
      tcp, st := r.0, r.1;
      if st != Pending {
        state := Failed;
      }
    }

    method DisconnectFrom() returns (st: Status)
      modifies this
      ensures (View(), st) == Disconnect(old(View()))
    {
      if state == Ready {
        state := Disconnecting;
        session := Session.CloseSession(session).0;
        return Pending;
      }
      Drop();
      return Ok;
    }

    method Drop()
      modifies this
      ensures View() == Dropped(old(View()))
    {
      session := Session.AbortSession(session);
      tcp := TcpClose(tcp);
      state := Idle;
    }

    method PollOnce(env: Env) returns (outcome: Outcome)
      requires TagsOk(slots)
      modifies this
      ensures (View(), outcome) == Poll(old(View()), env)
    {
      hide RunSlots, PollEthernet, PollConnecting, PollRegistering, PollDisconnecting;
      tcp := tcp.(script := env.script);
      var st: Status;
      match state {
        case Ethernet => st := PollLink(env);
        case Connecting => st := PollDialling(env);
        case Registering => st := PollRegistration(env);
        case Ready =>
          outcome := RunTags(0, false, env.t0);
          return;
        case Disconnecting => st := PollGoodbye(env);
        case Failed => st := Error;
        case Idle => st := NotReady;
      }
      outcome := Returned(st);
    }

    method PollLink(env: Env) returns (st: Status)
      modifies this
      ensures (View(), st) == PollEthernet(old(View()), env)
    {
      var e := EthPoll(eth, env.linkUp);
      eth, st := e.0, e.1;
      if st == Ok {
        if wantConnect {
          wantConnect := false;      // consume the queued connect
          st := Dial(env.refusal, env.t0);
        }
      } else if st == Error {
        state := Failed;
      } else {
        st := Pending;
      }
    }

    method PollGoodbye(env: Env) returns (st: Status)
      modifies this
      ensures (View(), st) == PollDisconnecting(old(View()), env)
    {
      hide Session.PollSession;
      var r := Session.PollSession(session, tcp, env.t0);
      session, tcp, st := r.0, r.1, r.2;
      if st == Ok || st == Closed {
        tcp := TcpClose(tcp);
        state := Idle;
        st := Ok;
      } else {
        st := Pending;
      }
    }

    method PollDialling(env: Env) returns (st: Status)
      modifies this
      ensures (View(), st) == PollConnecting(old(View()), env)
    {
      hide Session.OpenSession;
      if Expired(Ticks(env.t0), deadline) {
        state := Failed;
        return Timeout;
      }
      var polled := TcpPoll(tcp, env.dial);
      tcp, st := polled.0, polled.1;
      if st == Ok {
        var begun := Session.OpenSession(session, tcp, Sub32(deadline, Ticks(env.t1)), env.t2);
        session, st := begun.0, begun.1;
        state := if st == Pending then Registering else Failed;
      } else if st == Timeout || st == Error {
        state := Failed;
      } else {
        st := Pending;
      }
    }

    method PollRegistration(env: Env) returns (st: Status)
      modifies this
      ensures (View(), st) == PollRegistering(old(View()), env)
    {
      hide Session.PollSession;
      if Expired(Ticks(env.t0), deadline) {
        state := Failed;
        return Timeout;
      }
      var polled := Session.PollSession(session, tcp, env.t1);
      session, tcp, st := polled.0, polled.1, polled.2;
      if st == Ok {
        state := Ready;
      } else if st == Timeout || st == Error {
        state := Failed;
      } else {
        st := Pending;
      }
    }

    /** The slot loop of a ready poll, from slot `first` to the next callback or the end. */
    method RunTags(first: nat, lost: bool, now: nat) returns (outcome: Outcome)
      requires TagsOk(slots) && first <= |slots|
      modifies this
      ensures (View(), outcome) == RunSlots(old(View()), first, lost, now)
    {
      hide PollSlot;
      var i, disconnected := first, lost;
      while i < |slots|
        invariant TagsOk(slots) && i <= |slots| && |slots| == old(|slots|)
        invariant RunSlots(View(), i, disconnected, now) == RunSlots(old(View()), first, lost, now)
      {
        if slots[i].inUse {
          PollSlotKeepsTagsOk(View(), i, now);
          var st, fires := PollTagAt(i, now);
          if st == Closed {
            disconnected := true;        // connection lost
          }
          if fires {
            frames := frames + [Frame(i + 1, disconnected)];
            return InCallback(i, st);
          }
        }
        i := i + 1;
      }
      if disconnected {
        Drop();
        return Returned(Closed);
      }
      return Returned(Ok);
    }

    method PollTagAt(i: nat, now: nat) returns (st: Status, fires: bool)
      requires i < |slots| && Tags.TagOk(slots[i].tag)
      modifies this
      ensures (View(), st, fires) == PollSlot(old(View()), i, now)
    {
      hide Tags.PollTag;
      var s := slots[i];
      var polled := Tags.PollTag(s.tag, msg, tcp, now);
      msg, tcp, st := polled.1, polled.2, polled.3;
      slots := slots[i := s.(tag := polled.0, prev := st)];
      fires := s.prev == Pending && st != Pending && tagCallback;
      if st == Pending {
        seen := seen + {s.op};
        excused := excused - {s.op};
      } else if fires {
        log := log + [Notice(i, s.op, st)];
      } else if s.prev == Pending {
        excused := excused + {s.op};
      }
    }

    /** The innermost tag callback has returned. */
    method ResumePoll(env: Env) returns (outcome: Outcome)
      requires Shaped(View())
      modifies this
      ensures (View(), outcome) == Resume(old(View()), env)
    {
      if frames == [] {
        return Returned(NotReady);
      }
      var f := frames[|frames| - 1];
      assert f in frames;
      frames := frames[..|frames| - 1];
      tcp := tcp.(script := env.script);
      outcome := RunTags(f.next, f.disconnected, env.t0);
    }

    method Create(name: seq<byte>, count: u32) returns (handle: int)
      modifies this
      ensures (View(), handle) == CreateTag(old(View()), name, count)
    {
      if name == [] || |name| >= MAX_TAG_NAME {
        return Code(InvalidArg);
      }
      var h := FindFreeTag();
      if h < 0 {
        return Code(NoMemory);
      }
      slots := slots[h := slots[h].(name := name, count := count, prev := NotReady, inUse := true)];
      return h;
    }

    /** First free slot, or -1. */
    method FindFreeTag() returns (h: int)
      ensures h == if FindFree(slots) < |slots| then FindFree(slots) else -1
    {
      h := 0;
      while h < |slots|
        invariant 0 <= h <= |slots|
        invariant FindFree(slots) == h + FindFree(slots[h..])
      {
        if !slots[h].inUse {
          return;
        }
        assert slots[h..][1..] == slots[h + 1..];
        h := h + 1;
      }
      assert slots[h..] == [];
      h := -1;
    }

    method AnyBusy() returns (busy: bool)
      ensures busy == AnyTagBusy(slots)
    {
      var i := 0;
      while i < |slots|
        invariant 0 <= i <= |slots|
        invariant AnyTagBusy(slots) == AnyTagBusy(slots[i..])
      {
        if slots[i].inUse && Tags.TagStatus(slots[i].tag) == Pending {
          return true;
        }
        assert slots[i..][1..] == slots[i + 1..];
        i := i + 1;
      }
      assert slots[i..] == [];
      return false;
    }

    method Destroy(h: int) returns (st: Status)
      modifies this
      ensures (View(), st) == DestroyTag(old(View()), h)
    {
      if !(0 <= h < |slots| && slots[h].inUse) {
        return InvalidArg;
      }
      excused := Excuse(excused, slots[h]);
      slots := slots[h := slots[h].(inUse := false)];
      return Ok;
    }

    method Abort(h: int) returns (st: Status)
      modifies this
      ensures (View(), st) == AbortTag(old(View()), h)
    {
      if !(0 <= h < |slots| && slots[h].inUse) {
        return InvalidArg;
      }
      excused := Excuse(excused, slots[h]);
      var r := Tags.AbortTag(slots[h].tag, msg);
      msg := r.1;
      slots := slots[h := slots[h].(tag := r.0, prev := NotReady)];
      return Ok;
    }

    method ReadTag(h: int, timeout: u32, now: nat) returns (st: Status)
      modifies this
      ensures (View(), st) == Read(old(View()), h, timeout, now)
    {
      hide Tags.ReadTag;
      if !(0 <= h < |slots| && slots[h].inUse) {
        return InvalidArg;
      }
      if state != Ready {
        return NotReady;
      }
      var busy := AnyBusy();
      if busy {
        return Status.Busy;      // one tag operation at a time
      }
      var s := slots[h];
      var r := Tags.ReadTag(s.tag, msg, tcp, session.handle, s.name, s.count, timeout, cpuSlot, now);
      st := Launch(h, r.0, r.1, r.2);
    }

    method WriteTag(h: int, timeout: u32, now: nat) returns (st: Status)
      requires TagsOk(slots)
      modifies this
      ensures (View(), st) == Write(old(View()), h, timeout, now)
    {
      hide Tags.WriteTag;
      if !(0 <= h < |slots| && slots[h].inUse) {
        return InvalidArg;
      }
      if state != Ready {
        return NotReady;
      }
      var busy := AnyBusy();
      if busy {
        return Status.Busy;      // one tag operation at a time
      }
      var s := slots[h];
      var r := Tags.WriteTag(s.tag, msg, tcp, session.handle, s.name, s.count, timeout, cpuSlot, now);
      st := Launch(h, r.0, r.1, r.2);
    }

    /** Store a tag and the message as a tag operation left them. */
    method Launch(h: nat, tag: Tag, m: Msg, outcome: Status) returns (st: Status)
      requires h < |slots|
      modifies this
      ensures (View(), st) == Launched(old(View()), h, (tag, m, outcome))
    {
      var s := slots[h].(tag := tag);
      if outcome == Pending {
        s := s.(op := ops);
        ops := ops + 1;
      }
      slots := slots[h := s];
      msg := m;
      st := outcome;
    }
  }
}
