/**
 Disconnects that never finish, over whole runs of the client: what gets one stuck, and what
 frees it again.
 */
module Standstill {
  import opened Bytes
  import opened Status
  import opened Stream
  import opened Client
  import opened ClientRuns
  import opened Lifecycle
  import Session
  import Tags

  /** While disconnecting the session is unregistering, or has failed to. */
  predicate Parting(c: Client) {
    c.state.Disconnecting? ==> c.session.phase.Unregistering? || c.session.phase.Failed?
  }

  /** What frees a stuck client: a call that starts over, or a poll interrupted by a tag callback
      that goes on and finds the connection lost. */
  predicate Frees(c: Client, e: Event) {
    || e.DoBegin? || e.DoConnect? || e.DoDisconnect?
    || (e.DoResume? && Shaped(c) && Resume(c, e.env).1 == Returned(Closed))
  }

  /** The slot loop leaves state and session alone unless it finds the connection lost. */
  lemma {:induction false} SlotsLeaveSession(c: Client, i: nat, lost: bool, now: nat)
    requires TagsOk(c.slots) && i <= |c.slots|
    ensures var (c', outcome) := RunSlots(c, i, lost, now);
            if outcome == Returned(Closed) then c'.state.Idle?
            else c'.state == c.state && c'.session == c.session
    decreases |c.slots| - i
  {
    hide Tags.PollTag, Session.AbortSession, TcpClose;
    if i < |c.slots| {
      if !c.slots[i].inUse {
        SlotsLeaveSession(c, i + 1, lost, now);
      } else {
        var (c1, st, fires) := PollSlot(c, i, now);
        PollSlotKeepsTagsOk(c, i, now);
        if !fires {
          SlotsLeaveSession(c1, i + 1, lost || st == Closed, now);
        }
      }
    }
  }

  lemma PollParts(c: Client, env: Env)
    requires Inv(c) && Parting(c)
    ensures var c' := Step(c, DoPoll(env));
            Parting(c') && (Stuck(c') <==> Stuck(c) || Dooms(c, env))
  {
    hide RunSlots, PollEthernet, PollConnecting, PollRegistering, PollDisconnecting, Single, Fresh, Notified, Dooms;
    if c.state.Disconnecting? {
      DoomedExactlyWhen(c, env);
    } else {
      DoomedIsUnderwayOnly(c, env);
      OtherPollsDoNotPart(c.(tcp := c.tcp.(script := env.script)), env);
      SlotsLeaveSession(c.(tcp := c.tcp.(script := env.script)), 0, false, env.t0);
    }
  }

  lemma DoomedIsUnderwayOnly(c: Client, env: Env)
    ensures Dooms(c, env) ==> c.state.Disconnecting?
  {
  }

  lemma OtherPollsDoNotPart(c: Client, env: Env)
    requires !c.state.Disconnecting?
    ensures !PollEthernet(c, env).0.state.Disconnecting? && !PollConnecting(c, env).0.state.Disconnecting?
    ensures !PollRegistering(c, env).0.state.Disconnecting?
  {
    hide Session.PollSession, Session.OpenSession, TcpPoll, TcpConnect, Expired;
  }

  lemma ResumeParts(c: Client, env: Env)
    requires Inv(c) && Parting(c)
    ensures var c' := Step(c, DoResume(env));
            Parting(c') && (Stuck(c') <==> Stuck(c) && !Frees(c, DoResume(env)))
  {
    hide RunSlots, Single, Fresh, Notified;
    if c.frames != [] {
      var f := c.frames[|c.frames| - 1];
      assert f in c.frames;
      var c1 := c.(frames := c.frames[..|c.frames| - 1], tcp := c.tcp.(script := env.script));
      SlotsLeaveSession(c1, f.next, f.disconnected, env.t0);
    }
  }

  /** Calls on tags and settings leave state and session alone. */
  lemma TagCallsPart(c: Client, e: Event)
    requires Inv(c) && !e.DoPoll? && !e.DoResume? && !e.DoBegin? && !e.DoConnect? && !e.DoDisconnect?
    ensures Step(c, e).state == c.state && Step(c, e).session == c.session
  {
    hide Single, Fresh, Notified, Tags.ReadTag, Tags.WriteTag, Tags.AbortTag, FindFree, Excuse, AnyTagBusy;
  }

  lemma ConnectionCallsPart(c: Client, e: Event)
    requires Inv(c) && (e.DoBegin? || e.DoConnect? || e.DoDisconnect?)
    ensures Parting(Step(c, e)) && !Stuck(Step(c, e))
  {
    hide Single, Notified, Session.UnregisterFrame;
  }

  /** One event: a client is stuck after it exactly if it was and the event does not free it, or
      the event is a poll that dooms it. */
  lemma StuckStep(c: Client, e: Event)
    requires Inv(c) && Parting(c)
    ensures var c' := Step(c, e);
            Parting(c') && (Stuck(c') <==> (Stuck(c) && !Frees(c, e)) || (e.DoPoll? && Dooms(c, e.env)))
  {
    hide Step, Inv, Dooms, Resume;
    if e.DoPoll? {
      PollParts(c, e.env);
    } else if e.DoResume? {
      ResumeParts(c, e.env);
    } else if e.DoBegin? || e.DoConnect? || e.DoDisconnect? {
      ConnectionCallsPart(c, e);
    } else {
      TagCallsPart(c, e);
    }
  }

  /** Event i of a run is a poll that dooms the client, and nothing after it frees it. */
  ghost predicate DoomedAt(c: Client, es: seq<Event>, i: int) {
    && 0 <= i < |es| && es[i].DoPoll? && Dooms(RunFrom(c, es[..i]), es[i].env)
    && forall j | i < j < |es| :: !Frees(RunFrom(c, es[..j]), es[j])
  }

  lemma {:induction false} StuckRun(c: Client, es: seq<Event>)
    requires Inv(c) && Parting(c) && !Stuck(c)
    ensures Parting(RunFrom(c, es))
    ensures Stuck(RunFrom(c, es)) <==> exists i :: DoomedAt(c, es, i)
  {
    hide Step, Inv, Dooms, Stuck, Frees, Parting;
    if es != [] {
      var m := |es| - 1;
      var before := es[..m];
      assert forall i | 0 <= i <= m :: before[..i] == es[..i];
      assert forall i | 0 <= i < m :: before[i] == es[i];
      StuckRun(c, before);
      RunFromKeeps(c, before);
      StuckStep(RunFrom(c, before), es[m]);
      assert forall i | i < m :: DoomedAt(c, es, i) <==> DoomedAt(c, before, i) && !Frees(RunFrom(c, before), es[m]);
      assert DoomedAt(c, es, m) <==> es[m].DoPoll? && Dooms(RunFrom(c, before), es[m].env);
    }
  }

  /** Over any run of the client, calls from callbacks included: it is stuck in a disconnect
      exactly if some poll doomed it and nothing since has freed it; and as long as it is, a poll
      reports Pending. */
  lemma StuckExactlyWhen(n: nat, data: seq<byte>, es: seq<Event>, env: Env)
    requires |data| == Tags.MAX_DATA
    ensures var c := Run(n, data, es);
            && Shaped(c)
            && (Stuck(c) <==> exists i :: DoomedAt(NewClient(n, data), es, i))
            && (Stuck(c) ==> Poll(c, env).1 == Returned(Pending))
  {
    hide Inv, Dooms, Poll;
    NewClientOk(n, data);
    RunKeeps(n, data, es);
    StuckRun(NewClient(n, data), es);
    IsShaped(Run(n, data, es));
    if Stuck(Run(n, data, es)) {
      StuckPoll(Run(n, data, es), env);
    }
  }

  lemma IsShaped(c: Client)
    requires Inv(c)
    ensures Shaped(c)
  {
  }
}
