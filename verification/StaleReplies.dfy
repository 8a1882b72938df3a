/**
 Whole runs of one message object: sends, polls, aborts and anything at all happening on
 the socket in between. A reply to an earlier request never completes a later one.
 */
module StaleReplies {
  import opened Bytes
  import opened Status
  import opened Encapsulation
  import opened Stream
  import opened Framing
  import opened Message

  datatype Event =
    | Ask(session: u32, service: u8, path: seq<byte>, data: seq<byte>, timeout: u32, now: nat)
    | AskRouted(slot: u8, session: u32, service: u8, path: seq<byte>, data: seq<byte>, timeout: u32, now: nat)
    | Poll(now: nat)
    | Abort
    | Socket(c: Tcp)               // the line is now in this state, whatever it was

  /** The message, its socket, and the contexts of the requests accepted so far. */
  datatype Trace = Trace(m: Msg, c: Tcp, issued: seq<u64>)

  function Note(t: Trace, r: (Msg, Status)): Trace {
    t.(m := r.0, issued := if r.1 == Pending then t.issued + [r.0.sentContext] else t.issued)
  }

  function Step(t: Trace, e: Event): Trace {
    match e
    case Ask(session, service, path, data, timeout, now) =>
      Note(t, SendMsg(t.m, t.c, session, service, path, data, timeout, now))
    case AskRouted(slot, session, service, path, data, timeout, now) =>
      Note(t, SendRouted(t.m, t.c, session, slot, service, path, data, timeout, now))
    case Poll(now) => var (m, c, _) := PollMsg(t.m, t.c, now); t.(m := m, c := c)
    case Abort => t.(m := AbortMsg(t.m))
    case Socket(c) => t.(c := c)
  }

  function Run(c: Tcp, es: seq<Event>): Trace {
    if es == [] then Trace(NewMsg, c, [])
    else Step(Run(c, es[..|es| - 1]), es[|es| - 1])
  }

  /** The k-th request carries context k + 1, modulo 2^64. */
  predicate Numbered(t: Trace) {
    && MsgOk(t.m)
    && (forall k | 0 <= k < |t.issued| :: t.issued[k] == (k + 1) % TWO64)
    && t.m.context == (|t.issued| + 1) % TWO64
    && (InFlight(t.m) ==> t.issued != [] && t.m.sentContext == t.issued[|t.issued| - 1])
  }

  lemma NoteKeepsNumbered(t: Trace, r: (Msg, Status))
    requires Numbered(t)
    requires r.1 != Pending ==> r.0 == t.m
    requires r.1 == Pending ==> MsgOk(r.0) && r.0.sentContext == t.m.context && r.0.context == Bump64(t.m.context)
    ensures Numbered(Note(t, r))
  {
    if r.1 == Pending {
      assert (t.m.context + 1) % TWO64 == (|t.issued| + 2) % TWO64;
    }
  }

  lemma StepKeepsNumbered(t: Trace, e: Event)
    requires Numbered(t)
    ensures Numbered(Step(t, e))
  {
    hide RequestFrame, RoutedCip, CipRequest;
    match e
    case Ask(session, service, path, data, timeout, now) =>
      NoteKeepsNumbered(t, SendMsg(t.m, t.c, session, service, path, data, timeout, now));
    case AskRouted(slot, session, service, path, data, timeout, now) =>
      NoteKeepsNumbered(t, SendRouted(t.m, t.c, session, slot, service, path, data, timeout, now));
    case Poll(now) => PollKeeps(t.m, t.c, now);
    case Abort =>
    case Socket(c) =>
  }

  lemma {:induction false} RunIsNumbered(c: Tcp, es: seq<Event>)
    ensures Numbered(Run(c, es))
  {
    if es == [] {
      assert Run(c, es).m == NewMsg;
    } else {
      RunIsNumbered(c, es[..|es| - 1]);
      StepKeepsNumbered(Run(c, es[..|es| - 1]), es[|es| - 1]);
    }
  }

  /** Over any run of fewer than 2^64 requests the contexts are pairwise distinct, and a poll
      reports Ok only for a frame that carries the context of the latest request: never one
      that carries the context of an earlier request. */
  lemma StaleRepliesNeverComplete(c: Tcp, es: seq<Event>, now: nat)
    requires |Run(c, es).issued| < TWO64
    ensures var t := Run(c, es);
            && (forall j, k | 0 <= j < k < |t.issued| :: t.issued[j] != t.issued[k])
            && (InFlight(t.m) && PollMsg(t.m, t.c, now).2 == Ok ==>
                  var frame := PollMsg(t.m, t.c, now).0.wire.rx;
                  && |frame| >= HEADER_SIZE && t.issued != []
                  && HeaderOf(frame).context == t.issued[|t.issued| - 1]
                  && forall k | 0 <= k < |t.issued| - 1 :: HeaderOf(frame).context != t.issued[k])
  {
    hide PollMsg, HeaderOf;
    var t := Run(c, es);
    RunIsNumbered(c, es);
    assert forall k | 0 <= k < |t.issued| :: t.issued[k] == k + 1;
    if InFlight(t.m) && PollMsg(t.m, t.c, now).2 == Ok {
      OkMeansAnswered(t.m, t.c, now);
    }
  }
}
