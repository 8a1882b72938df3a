/**
 Using a slot again. createTag() leaves the tag object of a slot as it was, so a new tag takes
 over whatever the one before it was doing: a hidden operation, and its outcome.
 */
module Reuse {
  import opened Bytes
  import opened Status
  import opened Stream
  import opened Client
  import opened ClientRuns
  import opened Silence
  import opened Wedge
  import Cip
  import Message
  import Session
  import Tags

  // ---------------------------------------------------------------------------------------
  // Whose operation a tag reports

  /** The names under which the slots' latest operations were started. */
  type Names = map<int, seq<byte>>

  function Note(c: Client, asked: Names, e: Event): Names {
    if !Shaped(c) then asked
    else
      match e
      case DoRead(h, timeout, now) =>
        if Read(c, h, timeout, now).1 == Pending && 0 <= h < |c.slots| then asked[h := c.slots[h].name] else asked
      case DoWrite(h, timeout, now) =>
        if Write(c, h, timeout, now).1 == Pending && 0 <= h < |c.slots| then asked[h := c.slots[h].name] else asked
      case _ => asked
  }

  function AskedIn(c: Client, es: seq<Event>): Names {
    if es == [] then map[]
    else Note(RunFrom(c, es[..|es| - 1]), AskedIn(c, es[..|es| - 1]), es[|es| - 1])
  }

  /** The tag has something to report: an operation in flight or its outcome. */
  predicate Reports(c: Client, i: int) {
    0 <= i < |c.slots| && !c.slots[i].tag.phase.Idle?
  }

  /** Every tag in use that reports an operation reports one started under its own name. */
  predicate Own(c: Client, asked: Names) {
    forall i | 0 <= i < |c.slots| :: Reports(c, i) && c.slots[i].inUse ==> i in asked && asked[i] == c.slots[i].name
  }

  /** A create under another name in a slot whose tag still reports something. */
  predicate Inherits(c: Client, asked: Names, e: Event) {
    && e.DoCreate? && e.name != [] && |e.name| < MAX_TAG_NAME
    && var h: int := FindFree(c.slots); Reports(c, h) && h in asked && asked[h] != e.name
  }

  /** Whatever reports something was started under some name. */
  ghost predicate Noted(c: Client, asked: Names) {
    forall i | Reports(c, i) :: i in asked
  }

  /** Slots as they were, except that tags may have gone on or gone idle. */
  predicate SameTags(c: Client, c': Client) {
    |c'.slots| == |c.slots|
    && forall i | 0 <= i < |c.slots| ::
         c'.slots[i].name == c.slots[i].name && (c'.slots[i].inUse ==> c.slots[i].inUse) && (Reports(c', i) ==> Reports(c, i))
  }

  lemma SameTagsKeep(c: Client, c': Client, asked: Names)
    requires SameTags(c, c')
    ensures Own(c, asked) ==> Own(c', asked)
    ensures Noted(c, asked) ==> Noted(c', asked)
  {
  }

  lemma PolledSlotReports(c: Client, i: nat, now: nat)
    requires i < |c.slots| && Tags.TagOk(c.slots[i].tag)
    ensures SameTags(c, PollSlot(c, i, now).0)
  {
    hide Message.PollMsg;
  }

  lemma {:induction false} SlotsReport(c: Client, i: nat, lost: bool, now: nat)
    requires TagsOk(c.slots) && i <= |c.slots|
    ensures SameTags(c, RunSlots(c, i, lost, now).0)
    decreases |c.slots| - i
  {
    hide PollSlot, Session.AbortSession, TcpClose;
    if i < |c.slots| {
      if !c.slots[i].inUse {
        SlotsReport(c, i + 1, lost, now);
      } else {
        var (c1, st, fires) := PollSlot(c, i, now);
        PollSlotKeepsTagsOk(c, i, now);
        PolledSlotReports(c, i, now);
        if !fires {
          SlotsReport(c1, i + 1, lost || st == Closed, now);
        }
      }
    }
  }

  lemma PollsReport(c: Client, env: Env)
    requires Shaped(c)
    ensures SameTags(c, Poll(c, env).0) && SameTags(c, Resume(c, env).0)
  {
    hide RunSlots, Session.PollSession, Session.OpenSession, TcpPoll, TcpConnect, Expired;
    SlotsReport(c.(tcp := c.tcp.(script := env.script)), 0, false, env.t0);
    if c.frames != [] {
      var f := c.frames[|c.frames| - 1];
      assert f in c.frames;
      SlotsReport(c.(frames := c.frames[..|c.frames| - 1], tcp := c.tcp.(script := env.script)), f.next, f.disconnected, env.t0);
    }
  }

  lemma CallsReport(c: Client, e: Event)
    requires Shaped(c)
    requires !e.DoPoll? && !e.DoResume? && !e.DoCreate? && !e.DoRead? && !e.DoWrite?
    ensures SameTags(c, Step(c, e))
  {
    hide Session.AbortSession, Session.CloseSession, TcpConnect, TcpClose, Excuse, Message.AbortMsg, TagsOk, NamesOk;
  }

  /** A start is noted under the name of its tag; a refusal changes nothing. */
  lemma StartsReport(c: Client, asked: Names, write: bool, h: int, timeout: u32, now: nat)
    requires Inv(c) && Noted(c, asked)
    ensures var c' := Asked(c, write, h, timeout, now).0;
            var asked' := Note(c, asked, if write then DoWrite(h, timeout, now) else DoRead(h, timeout, now));
            Noted(c', asked') && (Own(c, asked) ==> Own(c', asked'))
  {
    hide Fresh, Notified, Tags.ReadTag, Tags.WriteTag;
    if Refusal(c, h).None? {
      var s := c.slots[h];
      ReadStartsOrNothing(s.tag, c.msg, c.tcp, c.session.handle, s.name, s.count, timeout, c.cpuSlot, now);
      WriteStartsOrNothing(s.tag, c.msg, c.tcp, c.session.handle, s.name, s.count, timeout, c.cpuSlot, now);
    }
  }

  /** A create gives one slot a new name and leaves what it reports. */
  lemma CreateReports(c: Client, asked: Names, e: Event)
    requires Inv(c) && Noted(c, asked) && Own(c, asked) && e.DoCreate?
    ensures var c' := Step(c, e);
            Noted(c', asked) && (Own(c', asked) <==> !Inherits(c, asked, e))
  {
    hide Single, Fresh, Notified;
    var c' := Step(c, e);
    if e.name != [] && |e.name| < MAX_TAG_NAME && FindFree(c.slots) < |c.slots| {
      var h := FindFree(c.slots);
      assert forall i | 0 <= i < |c.slots| && i != h :: c'.slots[i] == c.slots[i];
      assert Reports(c', h) <==> Reports(c, h);
      assert c'.slots[h].name == e.name && c'.slots[h].inUse;
      assert forall i | Reports(c', i) :: Reports(c, i);
    }
  }

  lemma OwnStep(c: Client, asked: Names, e: Event)
    requires Inv(c) && Noted(c, asked) && Own(c, asked)
    ensures var c', asked' := Step(c, e), Note(c, asked, e);
            Noted(c', asked') && (Own(c', asked') <==> !Inherits(c, asked, e))
  {
    hide Poll, Resume, Read, Write, Single, Fresh, Notified, Own, Noted, SameTags;
    if e.DoPoll? || e.DoResume? {
      PollsReport(c, e.env);
      SameTagsKeep(c, Step(c, e), asked);
    } else if e.DoCreate? {
      CreateReports(c, asked, e);
    } else if e.DoRead? {
      StartsReport(c, asked, false, e.handle, e.timeout, e.now);
    } else if e.DoWrite? {
      StartsReport(c, asked, true, e.handle, e.timeout, e.now);
    } else {
      CallsReport(c, e);
      SameTagsKeep(c, Step(c, e), asked);
    }
  }

  ghost predicate AlwaysOwn(c: Client, es: seq<Event>) {
    forall n | 0 <= n <= |es| :: Own(RunFrom(c, es[..n]), AskedIn(c, es[..n]))
  }

  /** No create of the run takes over, under another name, a slot whose tag still reports something. */
  ghost predicate NeverInherits(c: Client, es: seq<Event>) {
    forall n | 0 <= n < |es| :: !Inherits(RunFrom(c, es[..n]), AskedIn(c, es[..n]), es[n])
  }

  lemma OneMore(c: Client, es: seq<Event>, e: Event)
    ensures var all := es + [e];
            && RunFrom(c, all) == Step(RunFrom(c, es), e) && AskedIn(c, all) == Note(RunFrom(c, es), AskedIn(c, es), e)
            && (AlwaysOwn(c, all) <==> AlwaysOwn(c, es) && Own(RunFrom(c, all), AskedIn(c, all)))
            && (NeverInherits(c, all) <==> NeverInherits(c, es) && !Inherits(RunFrom(c, es), AskedIn(c, es), e))
  {
    hide Step, Own, Inherits, Note;
    var all := es + [e];
    assert all[..|es|] == es && all[..|all|] == all && es[..|es|] == es;
    assert forall n | 0 <= n <= |es| :: all[..n] == es[..n];
    assert forall n | 0 <= n < |es| :: all[n] == es[n];
    assert all[|es|] == e;
    if AlwaysOwn(c, es) && Own(RunFrom(c, all), AskedIn(c, all)) {
      forall n | 0 <= n <= |all|
        ensures Own(RunFrom(c, all[..n]), AskedIn(c, all[..n]))
      {
        assert n == |all| || all[..n] == es[..n];
      }
    }
  }

  lemma {:induction false} OwnRun(c: Client, es: seq<Event>)
    requires Inv(c) && Noted(c, map[]) && Own(c, map[])
    ensures AlwaysOwn(c, es) <==> NeverInherits(c, es)
    ensures AlwaysOwn(c, es) ==> Noted(RunFrom(c, es), AskedIn(c, es)) && Own(RunFrom(c, es), AskedIn(c, es))
  {
    hide Step, Inv, Own, Noted, Inherits, Note, AlwaysOwn, NeverInherits, RunFrom, AskedIn;
    if es == [] {
      NothingYet(c);
    } else {
      var before, e := es[..|es| - 1], es[|es| - 1];
      assert es == before + [e];
      OwnRun(c, before);
      RunFromKeeps(c, before);
      OneMore(c, before, e);
      if AlwaysOwn(c, before) {
        OwnStep(RunFrom(c, before), AskedIn(c, before), e);
      }
    }
  }

  lemma NothingYet(c: Client)
    requires Own(c, map[])
    ensures RunFrom(c, []) == c && AskedIn(c, []) == map[] && AlwaysOwn(c, []) && NeverInherits(c, [])
  {
    hide Own, Inherits;
  }

  /** Over any run: at every moment every tag in use that reports an operation or an outcome reports
      its own, exactly if no create of the run takes over, under another name, a slot whose tag
      still has one to report. */
  lemma TagsAreTheirOwnExactlyWhen(n: nat, data: seq<byte>, es: seq<Event>)
    requires |data| == Tags.MAX_DATA
    ensures AlwaysOwn(NewClient(n, data), es) <==> NeverInherits(NewClient(n, data), es)
  {
    hide Inv, AlwaysOwn, NeverInherits;
    NewClientOk(n, data);
    OwnRun(NewClient(n, data), es);
  }

  // ---------------------------------------------------------------------------------------
  // Hidden, and taken into use again

  /** Creating a tag in the hidden slot and polling once the hidden operation's deadline is over
      settles it: nothing is in flight, and a read is no longer refused as busy. */
  lemma CreatedAgainSettles(c: Client, i: nat, name: seq<byte>, count: u32, env: Env, h: int, timeout: u32, now: nat)
    requires Inv(c) && Wedged(c, i) && c.state.Ready? && CreatesIn(c, DoCreate(name, count), i)
    requires Expired(Ticks(env.t0), c.msg.deadline)
    ensures Shaped(CreateTag(c, name, count).0)
    ensures var c' := Poll(CreateTag(c, name, count).0, env).0;
            && Inv(c') && c'.state.Ready? && !Message.InFlight(c'.msg) && !AnyTagBusy(c'.slots)
            && (ValidHandle(c', h) ==> Read(c', h, timeout, now).1 != Status.Busy)
  {
    hide Fresh, Notified, RunSlots, Expired, Read, CreateTag;
    CreateKeeps(c, name, count);
    var c1 := CreateTag(c, name, count).0;
    NoneWatchedAfterCreate(c, i, name, count);
    var c2 := c1.(tcp := c1.tcp.(script := env.script));
    FramesDoNotMatter(c1, c1.frames, env.script);
    assert c1.(frames := c1.frames, tcp := c1.tcp.(script := env.script)) == c2;
    SilentPass(c2, 0, false, env.t0);
    var c' := Poll(c1, env).0;
    assert forall j :: !BusyAt(c'.slots, j);
    NoneBusyInUse(c'.slots);
    if ValidHandle(c', h) {
      BusyExactlyWhen(c', h, timeout, now);
    }
  }

  lemma NoneWatchedAfterCreate(c: Client, i: nat, name: seq<byte>, count: u32)
    requires Inv(c) && Wedged(c, i) && c.state.Ready? && CreatesIn(c, DoCreate(name, count), i)
    ensures var c1 := CreateTag(c, name, count).0;
            && NoneWatched(c1.slots) && c1.state.Ready? && c1.msg == c.msg && |c1.slots| == |c.slots| && c1.slots[i].inUse
            && forall j | 0 <= j < |c1.slots| && j != i :: !SlotBusy(c1.slots[j])
  {
    hide Fresh;
    OthersAreIdle(c, i);
    forall j | 0 <= j < |c.slots| && c.slots[j].inUse
      ensures c.slots[j].prev != Pending
    {
      assert c.slots[j].prev == Pending ==> BusyAt(c.slots, j);
    }
  }

  /** From a client that was never used a run that ends wedged: ready, a tag created, its read
      started, the tag destroyed. */
  lemma WedgeIsReachable(n: nat, data: seq<byte>) returns (es: seq<Event>)
    requires |data| == Tags.MAX_DATA && n > 0
    ensures var c := Run(n, data, es);
            Inv(c) && c.state.Ready? && Wedged(c, 0) && !AnyTagBusy(c.slots)
  {
    hide Step, Inv, SamePool, Read, DestroyTag;
    var ready := ReadyIsReachable(n, data);
    var c := Run(n, data, ready);
    var c1 := Asks(n, data, c);
    var c2 := Read(c1, 0, 0, 0).0;
    ReadStarts(c1);
    DestroyWedges(c2, 0);
    DestroyIsStep(c2, 0);
    var callback, create, read, destroy := DoSetCallback(true), DoCreate([65], 1), DoRead(0, 0, 0), DoDestroy(0);
    RunSnoc(n, data, ready, callback);
    RunSnoc(n, data, ready + [callback], create);
    RunSnoc(n, data, ready + [callback] + [create], read);
    RunSnoc(n, data, ready + [callback] + [create] + [read], destroy);
    es := ready + [callback] + [create] + [read] + [destroy];
  }

  lemma ReadStarts(c: Client)
    requires Inv(c) && Read(c, 0, 0, 0).1 == Pending
    ensures var c' := Read(c, 0, 0, 0).0;
            Inv(c') && ValidHandle(c', 0) && SlotBusy(c'.slots[0]) && c'.state.Ready?
  {
    hide Fresh, Single, Notified, Read;
    ReadKeeps(c, 0, 0, 0);
    NoneWatchedAfterStart(c, false, 0, 0, 0);
  }

  lemma DestroyIsStep(c: Client, h: nat)
    requires Shaped(c)
    ensures Step(c, DoDestroy(h)) == DestroyTag(c, h).0 && DestroyTag(c, h).0.state == c.state
  {
  }
}
