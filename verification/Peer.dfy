/**
 The repository's peer, updated in place: its tag and connection tables, the item walks, the
 record builder and the dispatcher, proved to agree with the functions on `Server`.
 */
module Peer {
  import opened Bytes
  import opened Encapsulation
  import opened Stream
  import opened Framing
  import opened Cip
  import opened Cpf
  import opened Message
  import opened Tables = Server

  // ---------------------------------------------------------------------------------------
  // Loops over a request or over the tag table

  lemma WalkStepAt(s: seq<byte>, p: nat, count: nat)
    requires p <= |s| && count > 0
    ensures ItemsOf(s[p..], count) ==
            if |s| - p < 4 then None
            else
              var len: nat := U16At(s, p + 2);
              if len > |s| - p - 4 then None
              else
                match ItemsOf(s[p + 4 + len..], count - 1)
                case None => None
                case Some(items) => Some([Item(U16At(s, p), s[p + 4..p + 4 + len])] + items)
  {
    hide U16At, FirstItem;
    FirstItemAt(s, p);
  }

  lemma WalkDone(s: seq<byte>)
    ensures ItemsOf(s, 0) == Some([])
  {
  }

  /** The item loop of an unconnected request: None when an item does not fit, otherwise the
      last item of the wanted kind, if there is one. */
  method LastItem(body: seq<byte>, kind: u16) returns (walked: bool, found: Option<seq<byte>>)
    requires |body| >= 8
    ensures var items := ItemsOf(body[8..], U16At(body, 6));
            && walked == items.Some?
            && (walked ==> found == LastOf(items.value, kind))
  {
    hide ItemsOf, LastOf, U16At, FirstItem;
    var count := Word16(body[6], body[7]);
    assert count == U16At(body, 6) by {
      WordAt(body, 6);
    }
    var p := 8;
    ghost var done: seq<Item> := [];
    found := None;
    NoneYet(kind);
    assert forall items: seq<Item> :: [] + items == items;
    var i := 0;
    while i < count
      invariant 0 <= i <= count && 8 <= p <= |body|
      invariant found == LastOf(done, kind)
      invariant ItemsOf(body[8..], count) == match ItemsOf(body[p..], count - i)
                                             case None => None
                                             case Some(items) => Some(done + items)
    {
      WalkStepAt(body, p, count - i);
      if p + 4 > |body| {
        return false, None;
      }
      WordAt(body, p);
      WordAt(body, p + 2);
      var itemType: u16, itemLen: u16 := Word16(body[p], body[p + 1]), Word16(body[p + 2], body[p + 3]);
      p := p + 4;
      if p + itemLen > |body| {
        return false, None;
      }
      ghost var item := Item(itemType, body[p..p + itemLen]);
      LastSnoc(done, item, kind);
      if itemType == kind {
        found := Some(body[p..p + itemLen]);
      }
      p := p + itemLen;
      assert forall items: seq<Item> :: done + ([item] + items) == (done + [item]) + items;
      done := done + [item];
      i := i + 1;
    }
    WalkDone(body[p..]);
    assert done + [] == done;
    walked := true;
  }

  lemma WordAt(s: seq<byte>, off: nat)
    requires off + 2 <= |s|
    ensures Word16(s[off], s[off + 1]) == U16At(s, off)
  {
  }

  lemma NoneYet(kind: u16)
    ensures LastOf([], kind) == None
  {
  }

  lemma LastSnoc(items: seq<Item>, it: Item, kind: u16)
    ensures LastOf(items + [it], kind) == if it.kind == kind then Some(it.data) else LastOf(items, kind)
  {
    assert (items + [it])[..|items|] == items;
  }

  /** One step of the connected item walk, seen from position p of the body. */
  lemma UnitStepAt(s: seq<byte>, p: nat, count: nat, found: UnitItems)
    requires p <= |s| && count > 0
    ensures UnitItemsOf(s[p..], count, found) ==
            if |s| - p < 4 then UnitSilent
            else
              var kind, len: nat := U16At(s, p), U16At(s, p + 2);
              if len > |s| - p - 4 then UnitSilent
              else if kind == CONNECTED_ADDRESS then
                if |s| - p < 8 then UnitRaise
                else UnitItemsOf(s[p + 4 + len..], count - 1, found.(id := Some(U32At(s, p + 4))))
              else if kind == CONNECTED_DATA then
                UnitItemsOf(s[p + 4 + len..], count - 1, found.(data := Some(s[p + 4..p + 4 + len])))
              else UnitItemsOf(s[p + 4 + len..], count - 1, found)
  {
    hide U16At, U32At, FirstItem;
    FirstItemAt(s, p);
    if |s| - p >= 8 {
      LongFrom(s, p, 4);
    }
  }

  lemma LongFrom(s: seq<byte>, p: nat, at: nat)
    requires p + at + 4 <= |s|
    ensures U32At(s[p..], at) == U32At(s, p + at)
  {
  }

  lemma LongAt(s: seq<byte>, off: nat)
    requires off + 4 <= |s|
    ensures Word32(s[off], s[off + 1], s[off + 2], s[off + 3]) == U32At(s, off)
  {
  }

  lemma UnitWalkDone(s: seq<byte>, found: UnitItems)
    ensures UnitItemsOf(s, 0, found) == UnitFound(found)
  {
  }

  /** The item loop of a connected request. */
  method ConnectedItemsIn(body: seq<byte>) returns (walk: UnitWalk)
    requires |body| >= 8
    ensures walk == UnitItemsOf(body[8..], U16At(body, 6), UnitItems(None, None))
  {
    hide UnitItemsOf, U16At, U32At, FirstItem;
    var count := Word16(body[6], body[7]);
    WordAt(body, 6);
    var p := 8;
    var found := UnitItems(None, None);
    var i := 0;
    while i < count
      invariant 0 <= i <= count && 8 <= p <= |body|
      invariant UnitItemsOf(body[8..], count, UnitItems(None, None)) == UnitItemsOf(body[p..], count - i, found)
    {
      UnitStepAt(body, p, count - i, found);
      if p + 4 > |body| {
        return UnitSilent;
      }
      WordAt(body, p);
      WordAt(body, p + 2);
      var itemType: u16, itemLen: u16 := Word16(body[p], body[p + 1]), Word16(body[p + 2], body[p + 3]);
      p := p + 4;
      if p + itemLen > |body| {
        return UnitSilent;
      }
      if itemType == CONNECTED_ADDRESS {
        if p + 4 > |body| {
          return UnitRaise;          // unpacking a cut-off ID
        }
        LongAt(body, p);
        found := found.(id := Some(Word32(body[p], body[p + 1], body[p + 2], body[p + 3])));
      } else if itemType == CONNECTED_DATA {
        found := found.(data := Some(body[p..p + itemLen]));
      }
      p := p + itemLen;
      i := i + 1;
    }
    UnitWalkDone(body[p..], found);
    walk := UnitFound(found);
  }

  /** The attribute loop of one symbol record. */
  method RecordAttributes(e: Entry, attrs: seq<u16>) returns (r: Option<seq<byte>>)
    ensures r == AttributesBytes(e, attrs)
  {
    hide AttributeBytes;
    var record: seq<byte> := [];
    var i := 0;
    assert attrs[0..] == attrs;
    assert forall b: seq<byte> :: [] + b == b;
    while i < |attrs|
      invariant 0 <= i <= |attrs|
      invariant AttributesBytes(e, attrs) == match AttributesBytes(e, attrs[i..])
                                             case None => None
                                             case Some(b) => Some(record + b)
    {
      assert attrs[i..][1..] == attrs[i + 1..] && attrs[i..][0] == attrs[i];
      var a := AttributeBytes(e, attrs[i]);
      if a.None? {
        return None;
      }
      assert forall b: seq<byte> :: record + (a.value + b) == (record + a.value) + b;
      record := record + a.value;
      i := i + 1;
    }
    assert attrs[i..] == [] && record + [] == record;
    r := Some(record);
  }

  lemma NoRecords(index: nat, start: nat, attrs: seq<u16>)
    ensures Records([], index, start, attrs) == Some([])
  {
  }

  /** The record loop over the tag table. */
  method BuildRecords(tags: seq<Entry>, start: nat, attrs: seq<u16>) returns (r: Option<seq<byte>>)
    ensures r == Records(tags, 1, start, attrs)
  {
    hide AttributesBytes;
    var records: seq<byte> := [];
    var i := 0;
    assert tags[0..] == tags;
    assert forall b: seq<byte> :: [] + b == b;
    while i < |tags|
      invariant 0 <= i <= |tags|
      invariant Records(tags, 1, start, attrs) == match Records(tags[i..], i + 1, start, attrs)
                                                  case None => None
                                                  case Some(b) => Some(records + b)
    {
      assert tags[i..][1..] == tags[i + 1..] && tags[i..][0] == tags[i];
      var index := i + 1;
      if index >= start {
        if index >= TWO32 {
          return None;               // the number does not fit its field
        }
        var record := RecordAttributes(tags[i], attrs);
        if record.None? {
          return None;
        }
        var bytes := LE32(index) + record.value;
        assert forall b: seq<byte> :: records + (bytes + b) == (records + bytes) + b;
        records := records + bytes;
      }
      i := i + 1;
    }
    assert tags[i..] == [] && records + [] == records;
    NoRecords(i + 1, start, attrs);
    r := Some(records);
  }

  // ---------------------------------------------------------------------------------------
  // The peer

  class SyntheticServer {
    var tags: seq<Entry>
    var links: map<u32, Ids>
    var read: nat
    var down: bool

    ghost function View(): Server
      reads this
    {
      Server(tags, links, read, down)
    }

    constructor (tags: seq<Entry>)
      ensures View() == Server(tags, map[], 0, false)
    {
      this.tags, links, read, down := tags, map[], 0, false;
    }

    method HandleCipRequest(session: u32, service: u8, path: seq<byte>, rest: seq<byte>) returns (a: Answer)
      modifies this
      ensures (View(), a) == HandleCip(old(View()), session, service, path, rest)
    {
      hide Records, AttributeIds, Find, Store, ParseInstance, ParseSymbolicPath, IdentityAttribute, LE16, LE32, U32At;
      if service == GET_INSTANCE_ATTRIBUTE_LIST && ParseInstance(path).Some? {
        a := InstanceAttributeList(ParseInstance(path).value, rest);
        return;
      }
      if service == GET_ATTRIBUTE_SINGLE && |path| >= 6 && path[..4] == [0x20, 0x01, 0x24, 0x01] {
        if path[4] != 0x30 {
          return Answered(Status4(service, 0x05));
        }
        var value := IdentityAttribute(path[5]);
        return if value.None? then Answered(Status4(service, 0x09)) else Answered(Status4(service, 0) + value.value);
      }
      if service == READ_TAG {
        var entry := Find(tags, ParseSymbolicPath(path));
        return if entry.None? then Answered(Status4(service, 0x04))
               else Answered(Status4(service, 0) + LE16(entry.value.kind) + entry.value.value);
      }
      if service == WRITE_TAG {
        if |rest| < 4 {
          return Answered(Status4(service, 0x04));
        }
        tags := Store(tags, Entry(ParseSymbolicPath(path), rest[2], rest[4..]));
        return Answered(Status4(service, 0));
      }
      if service == FORWARD_OPEN {
        if |rest| < 10 {
          return Answered(Status4(service, 0x04));
        }
        var clientTo := U32At(rest, 6);
        links := links[session := Ids(SERVER_OT, clientTo)];
        return Answered(Status4(service, 0) + LE32(SERVER_OT) + LE32(clientTo) + LE16(1) + LE16(1));
      }
      if service == FORWARD_CLOSE {
        return Answered(Status4(service, 0));
      }
      return Answered(Status4(service, 0x08));
    }

    method InstanceAttributeList(start: u32, rest: seq<byte>) returns (a: Answer)
      ensures a == ListInstances(View(), start, rest)
    {
      hide Records, AttributeIds;
      var attrs := AttributeIds(rest);
      if attrs.None? {
        return Raised;
      }
      var records := BuildRecords(tags, start, attrs.value);
      return if records.None? then Raised else Answered(Status4(GET_INSTANCE_ATTRIBUTE_LIST, 0) + records.value);
    }

    method HandleSendRRData(session: u32, context: u64, body: seq<byte>) returns (r: Response)
      modifies this
      ensures (View(), r) == HandleRRData(old(View()), session, context, body)
    {
      hide ItemsOf, LastOf, HandleCip, CallOf, RRResponse, U16At;
      if |body| < 8 {
        return Silence;
      }
      var walked, cip := LastItem(body, UNCONNECTED_DATA);
      if !walked || cip.None? || |cip.value| < 4 {
        return Silence;
      }
      var call := CallOf(cip.value);
      var a: Answer;
      if call.service == UNCONNECTED_SEND {
        if |call.rest| < 4 {
          return Silence;
        }
        WordAt(call.rest, 2);
        var msgLen: u16 := Word16(call.rest[2], call.rest[3]);
        var embedded := Cut(call.rest, 4, 4 + msgLen);
        if |embedded| < 2 {
          return Silence;
        }
        var inner := CallOf(embedded);
        a := HandleCipRequest(session, inner.service, inner.path, inner.rest);
      } else {
        a := HandleCipRequest(session, call.service, call.path, call.rest);
      }
      r := RRResponse(context, a);
    }

    method HandleSendUnitData(session: u32, context: u64, body: seq<byte>) returns (r: Response)
      modifies this
      ensures (View(), r) == HandleUnitData(old(View()), session, context, body)
    {
      hide UnitItemsOf, CallOf, UnitReplyBody, U16At, Packet;
      if |body| < 8 {
        return Silence;
      }
      var walk := ConnectedItemsIn(body);
      match walk {
        case UnitSilent => return Silence;
        case UnitRaise => return Crash;
        case UnitFound(items) =>
          if items.id.None? || items.data.None? || |items.data.value| < 4 {
            return Silence;
          }
          var data := items.data.value;
          var sequence := U16At(data, 0);
          if session !in links || items.id.value != links[session].ot {
            return Silence;          // drop; do not respond
          }
          var cip := ConnectedService(CallOf(data[2..]));
          r := if |cip| < 0x1_0000 - 2
               then Packet(SEND_UNIT_DATA, session, context, UnitReplyBody(links[session].to, sequence, cip))
               else Crash;
      }
    }

    /** The services a connection offers. */
    method ConnectedService(call: Call) returns (cip: seq<byte>)
      modifies this`tags
      ensures (View(), cip) == HandleUnitCip(old(View()), call)
    {
      hide Find, Store, ParseSymbolicPath, LE16;
      if call.service == READ_TAG {
        var entry := Find(tags, ParseSymbolicPath(call.path));
        return if entry.None? then Status4(READ_TAG, 0x04)
               else Status4(READ_TAG, 0) + LE16(entry.value.kind) + entry.value.value;
      }
      if call.service == WRITE_TAG {
        if |call.rest| < 4 {
          return Status4(WRITE_TAG, 0x04);
        }
        tags := Store(tags, Entry(ParseSymbolicPath(call.path), call.rest[2], call.rest[4..]));
        return Status4(WRITE_TAG, 0);
      }
      return Status4(call.service, 0x08);
    }

    /** One packet, dispatched on its command. */
    method HandlePacket(frame: seq<byte>) returns (r: Response)
      requires |frame| >= HEADER_SIZE
      modifies this
      ensures (View(), r) == HandleFrame(old(View()), frame)
    {
      hide HeaderOf, HandleRRData, HandleUnitData, Packet;
      var h := HeaderOf(frame);
      var body := frame[HEADER_SIZE..];
      if h.command == REGISTER_SESSION {
        r := Packet(REGISTER_SESSION, SESSION_HANDLE, h.context, LE16(1) + LE16(0));
      } else if h.command == UNREGISTER_SESSION {
        r := Packet(UNREGISTER_SESSION, 0, h.context, []);
      } else if h.command == SEND_RR_DATA {
        r := HandleSendRRData(h.session, h.context, body);
      } else if h.command == SEND_UNIT_DATA {
        r := HandleSendUnitData(h.session, h.context, body);
      } else {
        r := Silence;
      }
    }
  }
}
