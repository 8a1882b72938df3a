/**
 Paged enumeration is complete and free of duplicates, against any peer that pages fairly and
 against the repository's own peer.
 */
module Enumeration {
  import opened Bytes
  import opened Status
  import opened Stream
  import opened Cip
  import opened Message
  import opened ListTags
  import opened Server
  import Exchange

  // ---------------------------------------------------------------------------------------
  // The table

  lemma {:induction false} CollectAppends(tags: seq<TagEntry>, rs: seq<Record>, more: seq<Record>)
    ensures Collect(Collect(tags, rs), more) == Collect(tags, rs + more)
    decreases |rs|
  {
    hide EntryOf;
    if rs == [] {
      assert [] + more == more;
    } else {
      assert (rs + more)[1..] == rs[1..] + more;
      CollectAppends(if |tags| < MAX_TAGS then tags + [EntryOf(rs[0])] else tags, rs[1..], more);
    }
  }

  /** Collecting keeps exactly the first 200 records, in order. */
  lemma {:induction false} CollectIsFirst(rs: seq<Record>)
    ensures |Collect([], rs)| == Min(|rs|, MAX_TAGS)
    ensures forall i | 0 <= i < |Collect([], rs)| :: Collect([], rs)[i] == EntryOf(rs[i])
  {
    hide EntryOf;
    if rs != [] {
      var front, last := rs[..|rs| - 1], rs[|rs| - 1];
      assert rs == front + [last];
      CollectIsFirst(front);
      CollectSnoc([], front, last);
    }
  }

  // ---------------------------------------------------------------------------------------
  // A peer that pages fairly

  /** A symbol table: instances strictly ascending. */
  ghost predicate Ascending(symbols: seq<Record>) {
    ListTags.Encodable(symbols) && forall i, j | 0 <= i < j < |symbols| :: symbols[i].instance < symbols[j].instance
  }

  /** The symbols from an instance on. */
  function From(symbols: seq<Record>, start: u32): seq<Record> {
    if symbols == [] || symbols[0].instance >= start then symbols else From(symbols[1..], start)
  }

  /** One page: how many records, and whether it says that more remain. */
  datatype Page = Page(count: nat, more: bool)

  /** A final page returns everything from the requested instance on, a partial one at least one
      record, and either fits one reply. */
  predicate Honest(symbols: seq<Record>, start: u32, p: Page)
    requires ListTags.Encodable(symbols)
  {
    var rest := From(symbols, start);
    && p.count <= |rest| && (if p.more then p.count > 0 else p.count == |rest|)
    && (SliceEncodable(symbols, start, p.count); |PageBytes(rest[..p.count])| + 20 <= MAX_BODY)
  }

  /** After the last record of a partial page there is a next instance to ask for: more records
      follow, or the last one does not have the last number there is. */
  predicate Continues(symbols: seq<Record>, start: u32, p: Page) {
    var rest := From(symbols, start);
    0 < p.count <= |rest| && (p.count < |rest| || rest[p.count - 1].instance + 1 < TWO32)
  }

  predicate Fair(symbols: seq<Record>, start: u32, p: Page)
    requires ListTags.Encodable(symbols)
  {
    Honest(symbols, start, p) && (p.more ==> Continues(symbols, start, p))
  }

  lemma {:induction false} FromIsSuffix(symbols: seq<Record>, start: u32) returns (j: nat)
    ensures j <= |symbols| && From(symbols, start) == symbols[j..]
  {
    if symbols == [] || symbols[0].instance >= start {
      j := 0;
    } else {
      var i := FromIsSuffix(symbols[1..], start);
      j := i + 1;
    }
  }

  lemma {:induction false} FromAfter(symbols: seq<Record>, j: nat)
    requires Ascending(symbols) && 0 < j <= |symbols| && symbols[j - 1].instance + 1 < TWO32
    ensures From(symbols, symbols[j - 1].instance + 1) == symbols[j..]
    decreases j
  {
    var start := symbols[j - 1].instance + 1;
    var tail := symbols[1..];
    assert forall i | 0 <= i < |tail| :: tail[i] == symbols[i + 1];
    assert symbols[0].instance < start;
    if j == 1 {
      assert tail != [] ==> tail[0].instance >= start;
    } else {
      assert Ascending(tail);
      assert tail[j - 2] == symbols[j - 1];
      FromAfter(tail, j - 1);
      assert tail[j - 1..] == symbols[j..];
    }
  }

  lemma SliceEncodable(symbols: seq<Record>, start: u32, n: nat)
    requires ListTags.Encodable(symbols) && n <= |From(symbols, start)|
    ensures ListTags.Encodable(From(symbols, start)[..n])
  {
    var j := FromIsSuffix(symbols, start);
    assert forall i | 0 <= i < n :: From(symbols, start)[..n][i] == symbols[j + i];
  }

  /** The lister after one page. */
  function Take(symbols: seq<Record>, l: Lister, p: Page): Lister
    requires ListTags.Encodable(symbols) && Honest(symbols, l.next, p)
  {
    SliceEncodable(symbols, l.next, p.count);
    OnPage(l, if p.more then 0x06 else 0x00, PageBytes(From(symbols, l.next)[..p.count]))
  }

  /** The lister after a run of pages; pages after the end change nothing. */
  function Play(symbols: seq<Record>, pages: seq<Page>): Lister
    requires ListTags.Encodable(symbols)
  {
    if pages == [] then NewLister
    else
      var l := Play(symbols, pages[..|pages| - 1]);
      var p := pages[|pages| - 1];
      if l.phase.Enumerate? && Fair(symbols, l.next, p) then Take(symbols, l, p) else l
  }

  predicate FairRun(symbols: seq<Record>, pages: seq<Page>)
    requires ListTags.Encodable(symbols)
  {
    forall i | 0 <= i < |pages| ::
      var l := Play(symbols, pages[..i]);
      l.phase.Enumerate? ==> Fair(symbols, l.next, pages[i])
  }

  /** Where the enumeration stands after taking the first j symbols. */
  predicate At(symbols: seq<Record>, l: Lister, j: nat) {
    && j <= |symbols| && l.tags == Collect([], symbols[..j])
    && (l.phase.Enumerate? ==> From(symbols, l.next) == symbols[j..])
    && (!l.phase.Enumerate? ==> l.phase.ReadValues? && j == |symbols|)
  }

  lemma HasSuccessor(symbols: seq<Record>, j: nat)
    requires Ascending(symbols) && 0 < j < |symbols|
    ensures symbols[j - 1].instance + 1 < TWO32
  {
    assert symbols[j - 1].instance < symbols[j].instance;
  }

  lemma SmallSum(last: u32)
    requires last + 1 < TWO32
    ensures Add32(last, 1) == last + 1
  {
  }

  /** The instance after the last one taken starts the next page at the next symbol, exactly
      unless it was the last symbol with the last number: then the next page starts over. */
  lemma NextPageStarts(symbols: seq<Record>, j: nat)
    requires Ascending(symbols) && 0 < j <= |symbols|
    ensures From(symbols, Add32(symbols[j - 1].instance, 1)) == symbols[j..] <==>
            j < |symbols| || symbols[j - 1].instance + 1 < TWO32
    ensures symbols[j - 1].instance + 1 == TWO32 ==> Add32(symbols[j - 1].instance, 1) == 0 && j == |symbols|
  {
    hide From, Add32;
    if j < |symbols| {
      HasSuccessor(symbols, j);
    }
    if symbols[j - 1].instance + 1 < TWO32 {
      SmallSum(symbols[j - 1].instance);
      FromAfter(symbols, j);
    } else {
      LastSum(symbols[j - 1].instance);
      FromStart(symbols);
    }
  }

  lemma LastSum(last: u32)
    requires last + 1 == TWO32
    ensures Add32(last, 1) == 0
  {
  }

  /** An honest page is taken whole, and if it is partial moves the enumeration on by exactly its
      records if and only if there is a next instance to ask for. */
  lemma PageMovesOn(symbols: seq<Record>, l: Lister, j: nat, p: Page)
    requires Ascending(symbols) && At(symbols, l, j) && l.phase.Enumerate? && Honest(symbols, l.next, p)
    ensures var l' := Take(symbols, l, p);
            && l'.tags == Collect([], symbols[..j + p.count]) && (p.more <==> l'.phase.Enumerate?)
            && (p.more ==> (At(symbols, l', j + p.count) <==> Continues(symbols, l.next, p)))
            && (!p.more ==> At(symbols, l', j + p.count))
            && (p.more && !Continues(symbols, l.next, p) ==> l'.next == 0 && j + p.count == |symbols|)
  {
    hide ParsePage, PageBytes, Collect, From, Ascending, ListTags.Encodable, Add32;
    assert ListTags.Encodable(symbols) by {
      AscendingIsEncodable(symbols);
    }
    var page := From(symbols, l.next)[..p.count];
    SliceEncodable(symbols, l.next, p.count);
    PageParses(page);
    CollectAppends([], symbols[..j], page);
    assert symbols[..j] + page == symbols[..j + p.count];
    if p.more {
      assert page[|page| - 1] == symbols[j + p.count - 1];
      NextPageStarts(symbols, j + p.count);
    }
  }

  /** The input that shows it: a partial page that ends at instance 2^32 - 1 sends the loop back
      to instance 0, and the next page enters the symbols a second time as far as there is room. */
  lemma LastInstanceStartsOver(symbols: seq<Record>, l: Lister, j: nat, p: Page, again: Page)
    requires Ascending(symbols) && At(symbols, l, j) && l.phase.Enumerate?
    requires Honest(symbols, l.next, p) && p.more && !Continues(symbols, l.next, p)
    requires |symbols| < MAX_TAGS
    ensures var l' := Take(symbols, l, p);
            && l'.phase.Enumerate? && l'.next == 0
            && (Honest(symbols, 0, again) && again.count > 0 ==>
                  var l2 := Take(symbols, l', again);
                  |l2.tags| > |symbols| && l2.tags[0] == l2.tags[|symbols|] == EntryOf(symbols[0]))
  {
    hide ParsePage, PageBytes, Collect, Ascending, ListTags.Encodable, EntryOf;
    AscendingIsEncodable(symbols);
    PageMovesOn(symbols, l, j, p);
    var l' := Take(symbols, l, p);
    assert symbols[..|symbols|] == symbols;
    if Honest(symbols, 0, again) && again.count > 0 {
      FromStart(symbols);
      var page := symbols[..again.count];
      SliceEncodable(symbols, 0, again.count);
      PageParses(page);
      CollectAppends([], symbols, page);
      CollectIsFirst(symbols + page);
      assert (symbols + page)[|symbols|] == symbols[0];
    }
  }

  /** One symbol, at the last instance number there is. */
  const LAST_SYMBOL: Record := Record(0xFFFF_FFFF, [65], 0xC4)

  /** A peer that reports more to come after it is asked for it again, and it is listed twice. */
  lemma LastSymbolIsListedTwice()
    ensures var symbols, p := [LAST_SYMBOL], Page(1, true);
            && Ascending(symbols) && Honest(symbols, 0, p) && !Continues(symbols, 0, p)
            && var l1 := Take(symbols, NewLister, p);
               && l1.next == 0
               && var l2 := Take(symbols, l1, p);
                  |l2.tags| == 2 && l2.tags[0] == l2.tags[1] == EntryOf(LAST_SYMBOL)
  {
    hide ParsePage, EntryOf, RecordBytes;
    var symbols, p := [LAST_SYMBOL], Page(1, true);
    assert From(symbols, 0) == symbols && symbols[..1] == symbols && symbols[..0] == [];
    OneRecordIsShort(LAST_SYMBOL);
    assert At(symbols, NewLister, 0);
    PageMovesOn(symbols, NewLister, 0, p);
    PageParses(symbols);
    CollectAppends([], symbols, symbols);
    CollectIsFirst(symbols + symbols);
    LastInstanceStartsOver(symbols, NewLister, 0, p, p);
  }

  lemma OneRecordIsShort(r: Record)
    requires |r.name| == 1
    ensures |PageBytes([r])| == 11
  {
    assert [r][1..] == [];
  }

  lemma AscendingIsEncodable(symbols: seq<Record>)
    requires Ascending(symbols)
    ensures ListTags.Encodable(symbols)
  {
  }

  /** After n fair pages the enumeration has either taken at least n symbols or finished. */
  lemma {:induction false} RunProgress(symbols: seq<Record>, pages: seq<Page>) returns (j: nat)
    requires Ascending(symbols) && FairRun(symbols, pages)
    ensures At(symbols, Play(symbols, pages), j)
    ensures Play(symbols, pages).phase.Enumerate? ==> j >= |pages|
  {
    hide Take, Fair, Honest, Continues, Collect;
    if pages == [] {
      j := 0;
      assert symbols[..0] == [] && symbols[0..] == symbols;
      CollectNone([]);
      FromStart(symbols);
    } else {
      var n := |pages| - 1;
      var before := pages[..n];
      assert FairRun(symbols, before) by {
        assert forall i | 0 <= i < n :: before[..i] == pages[..i] && before[i] == pages[i];
      }
      var i := RunProgress(symbols, before);
      var l := Play(symbols, before);
      j := i;
      if l.phase.Enumerate? {
        FairMovesOn(symbols, l.next, pages[n]);
        PageMovesOn(symbols, l, i, pages[n]);
        j := i + pages[n].count;
      }
    }
  }

  lemma FairMovesOn(symbols: seq<Record>, start: u32, p: Page)
    requires ListTags.Encodable(symbols) && Fair(symbols, start, p)
    ensures Honest(symbols, start, p) && (p.more ==> p.count > 0 && Continues(symbols, start, p))
  {
  }

  lemma FromStart(symbols: seq<Record>)
    ensures From(symbols, 0) == symbols
  {
  }

  /** Against any fairly paging peer the enumeration ends after at most one page per symbol and
      one more, and then the table holds exactly the first 200 symbols, in instance order, each
      once. Until then it holds a first part of them. */
  lemma EnumerationCompletes(symbols: seq<Record>, pages: seq<Page>)
    requires Ascending(symbols) && FairRun(symbols, pages)
    ensures var l := Play(symbols, pages);
            && (|pages| > |symbols| ==> l.phase.ReadValues?)
            && (l.phase.Enumerate? || l.phase.ReadValues?)
            && |l.tags| <= Min(|symbols|, MAX_TAGS)
            && (l.phase.ReadValues? ==> |l.tags| == Min(|symbols|, MAX_TAGS))
            && (forall i | 0 <= i < |l.tags| :: l.tags[i] == EntryOf(symbols[i]))
  {
    hide Play, Collect, From, FairRun;
    var j := RunProgress(symbols, pages);
    CollectIsFirst(symbols[..j]);
  }

  // ---------------------------------------------------------------------------------------
  // The repository's peer

  /** Symbol paths of all three widths are whole words and parse back through the peer. */
  lemma SymbolPathReadsBack(instance: u32)
    ensures ParseInstance(SymbolPath(instance)) == Some(instance)
  {
    hide U16At, U32At, LE16, LE32;
    var path := SymbolPath(instance);
    if instance > 0xFFFF {
      assert path == [0x20, SYMBOL_CLASS, 0x26] + LE32(instance) + [0];
      Read32([0x20, SYMBOL_CLASS, 0x26], instance, [0]);
    } else if instance > 0xFF {
      assert path == [0x20, SYMBOL_CLASS, 0x25] + LE16(instance) + [0];
      Read16([0x20, SYMBOL_CLASS, 0x25], instance, [0]);
    }
  }

  lemma RequestAsksNameAndType()
    ensures AttributeIds(PageRequest()) == Some([1, 2])
  {
    assert PageRequest() == [2, 0, 1, 0, 2, 0];
    assert PageRequest()[2..] == [1, 0, 2, 0];
    TwoWords(1, 0, 2, 0);
  }

  lemma TwoWords(a: byte, b: byte, c: byte, d: byte)
    ensures WordsOf([a, b, c, d], 2) == [Word16(a, b), Word16(c, d)]
  {
    assert [a, b, c, d][2..] == [c, d] && [c, d][2..] == [];
    assert WordsOf([], 0) == [];
    assert WordsOf([c, d], 1) == [Word16(c, d)];
  }

  /** The peer's table as symbols numbered from `index`, those before `start` left out. */
  function Symbols(tags: seq<Entry>, index: u32, start: u32): seq<Record> {
    if tags == [] then []
    else
      var rest := if index + 1 < TWO32 then Symbols(tags[1..], index + 1, start) else [];
      if index < start || EncodeAscii(tags[0].key).None? then rest
      else [Record(index, EncodeAscii(tags[0].key).value, tags[0].kind)] + rest
  }

  /** One record, as the peer writes it. */
  lemma PeerRecord(e: Entry, index: u32)
    requires AttributesBytes(e, [1, 2]).Some?
    ensures EncodeAscii(e.key).Some? && |EncodeAscii(e.key).value| < TWO32
    ensures LE32(index) + AttributesBytes(e, [1, 2]).value
            == RecordBytes(Record(index, EncodeAscii(e.key).value, e.kind))
  {
    hide EncodeAscii, LE16, LE32;
    assert [1, 2][1..] == [2] && [2][1..] == [];
    assert AttributesBytes(e, [2]) == Some(LE16(e.kind) + []);
    assert AttributesBytes(e, [1, 2]) ==
           match (AttributeBytes(e, 1), AttributesBytes(e, [2]))
           case (Some(a), Some(b)) => Some(a + b)
           case _ => None;
  }

  /** The records the peer returns are the encoding of its symbols from `start` on. */
  lemma {:induction false} PeerEncodesSymbols(tags: seq<Entry>, index: u32, start: u32)
    requires Records(tags, index, start, [1, 2]).Some? && index + |tags| < TWO32
    ensures ListTags.Encodable(Symbols(tags, index, start))
    ensures PageBytes(Symbols(tags, index, start)) == Records(tags, index, start, [1, 2]).value
    decreases |tags|
  {
    hide AttributesBytes, RecordBytes, EncodeAscii, LE32;
    if tags != [] {
      PeerEncodesSymbols(tags[1..], index + 1, start);
      var rest := Symbols(tags[1..], index + 1, start);
      if index >= start {
        PeerRecord(tags[0], index);
        var all := Symbols(tags, index, start);
        assert all[1..] == rest;
        assert forall i | 1 <= i < |all| :: all[i] == rest[i - 1];
        assert PageBytes(all) == RecordBytes(all[0]) + PageBytes(rest);
      }
    }
  }

  /** If every tag from `start` on has an ASCII name, none is left out. */
  lemma {:induction false} SymbolsAreTheTable(tags: seq<Entry>, index: u32, start: u32)
    requires Records(tags, index, start, [1, 2]).Some? && start <= index && index + |tags| < TWO32
    ensures |Symbols(tags, index, start)| == |tags|
    ensures forall i | 0 <= i < |tags| ::
              EncodeAscii(tags[i].key).Some?
              && Symbols(tags, index, start)[i] == Record(index + i, EncodeAscii(tags[i].key).value, tags[i].kind)
    decreases |tags|
  {
    hide AttributesBytes, EncodeAscii, LE32;
    if tags != [] {
      SymbolsAreTheTable(tags[1..], index + 1, start);
      PeerRecord(tags[0], index);
      forall i | 1 <= i < |tags|
        ensures tags[i] == tags[1..][i - 1] && Symbols(tags, index, start)[i] == Symbols(tags[1..], index + 1, start)[i - 1]
      {
      }
    }
  }

  /** One page from the repository's peer, whatever the fragmentation. The request leaves flight
      only if every name in the table is ASCII, and then as Done if the list fits the receive
      buffer and as Failed if it does not; taking a Done page ends the enumeration with exactly
      the first 200 entries of the peer's table, in order, each once, its name cut. */
  lemma EnumeratesThePeer(m: Msg, c: Tcp, s: Server, session: u32, start: nat, ts: seq<Exchange.Turn>)
    requires MsgOk(m) && !InFlight(m) && Exchange.Aligned(c, s) && 1 + |s.tags| < TWO32
    requires Exchange.Timely(ts, StepEnumerate(NewLister, m, c, session, start).1.deadline)
    ensures var (l1, m1, c1) := StepEnumerate(NewLister, m, c, session, start);
            var w := Exchange.PlayAll(Exchange.World(m1, c, s), ts);
            var records := Records(s.tags, 1, 0, [1, 2]);
            && l1 == NewLister.(enumerating := true) && c1 == c
            && (InFlight(w.m) || w.m.phase.Done? || w.m.phase.Failed?)
            && (w.m.phase.Failed? ==> records.Some? && |records.value| + 20 > MAX_BODY)
            && (w.m.phase.Done? ==>
                  && records.Some? && |records.value| + 20 <= MAX_BODY && w.m.reply.Some?
                  && var l2 := OnPage(l1, w.m.reply.value.code, w.m.reply.value.data);
                     && l2.phase.ReadValues? && |l2.tags| == Min(|s.tags|, MAX_TAGS)
                     && forall i | 0 <= i < |l2.tags| ::
                          EncodeAscii(s.tags[i].key).Some?
                          && l2.tags[i] == EntryOf(Record(1 + i, EncodeAscii(s.tags[i].key).value, s.tags[i].kind)))
  {
    hide HandleCip, SendRouted, Exchange.PlayAll, Exchange.Timely, Exchange.Aligned, ParsePage, Collect, Records,
         Symbols, EncodeAscii, RequestFrame, RRResponse, EntryOf, ReplyOf, Exchange.CipOf, PageBytes, FirstRecord;
    var q := Exchange.ViaSlot(CPU_SLOT, GET_INSTANCE_ATTRIBUTE_LIST, SymbolPath(0), PageRequest());
    PageRequestIsServable(0);
    PeerAnswersPage(s, session, 0);
    Exchange.ExchangeIsAtomic(m, c, s, session, q, MESSAGE_TIMEOUT, start, ts);
    if Records(s.tags, 1, 0, [1, 2]).Some? {
      PeerEncodesSymbols(s.tags, 1, 0);
      SymbolsAreTheTable(s.tags, 1, 0);
      if |Records(s.tags, 1, 0, [1, 2]).value| + 20 <= MAX_BODY {
        PageParses(Symbols(s.tags, 1, 0));
        CollectIsFirst(Symbols(s.tags, 1, 0));
      }
    }
  }

  lemma PageRequestIsServable(start: u32)
    ensures Exchange.Servable(Exchange.ViaSlot(CPU_SLOT, GET_INSTANCE_ATTRIBUTE_LIST, SymbolPath(start), PageRequest()))
  {
    SymbolPathFits(start);
  }

  lemma PeerAnswersPage(s: Server, session: u32, start: u32)
    ensures var records := Records(s.tags, 1, start, [1, 2]);
            var (s', a) := HandleCip(s, session, GET_INSTANCE_ATTRIBUTE_LIST, SymbolPath(start), PageRequest());
            && (a.Answered? <==> records.Some?)
            && (records.Some? ==>
                  && |a.cip| == 4 + |records.value| && ReplyOf(a.cip).code == 0 && ReplyOf(a.cip).data == records.value)
  {
    hide Records, ParseInstance, AttributeIds;
    SymbolPathReadsBack(start);
    RequestAsksNameAndType();
    if Records(s.tags, 1, start, [1, 2]).Some? {
      var answer := Status4(GET_INSTANCE_ATTRIBUTE_LIST, 0) + Records(s.tags, 1, start, [1, 2]).value;
      assert answer[4..] == Records(s.tags, 1, start, [1, 2]).value;
    }
  }
}
