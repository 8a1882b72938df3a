/**
 The Common Packet Format item list, section 2-6 of CIP Volume 2.

 `ItemsOf` is the reference reading of a list; `FindUnconnected` and `FindConnected` are
 the one-pass walks the two receivers make, shown to select the same items.
 */
module Cpf {
  import opened Bytes

  const NULL_ADDRESS: u16 := 0x0000
  const CONNECTED_ADDRESS: u16 := 0x00A1
  const CONNECTED_DATA: u16 := 0x00B1
  const UNCONNECTED_DATA: u16 := 0x00B2

  datatype Item = Item(kind: u16, data: seq<byte>)

  predicate Encodable(items: seq<Item>) {
    forall i | 0 <= i < |items| :: |items[i].data| < 0x1_0000
  }

  function ItemBytes(it: Item): seq<byte>
    requires |it.data| < 0x1_0000
  {
    LE16(it.kind) + LE16(|it.data|) + it.data
  }

  function ItemListBytes(items: seq<Item>): seq<byte>
    requires Encodable(items)
  {
    if items == [] then [] else ItemBytes(items[0]) + ItemListBytes(items[1..])
  }

  /** Split the first item off; None when its header or its data does not fit. */
  function FirstItem(b: seq<byte>): (r: Option<(Item, seq<byte>)>)
    ensures r.Some? ==> |r.value.1| < |b|
  {
    if |b| < 4 then None
    else
      var len := U16At(b, 2);
      if len > |b| - 4 then None
      else Some((Item(U16At(b, 0), b[4..4 + len]), b[4 + len..]))
  }

  /** The first `count` items of a list, or None if they do not all fit. */
  function ItemsOf(b: seq<byte>, count: nat): Option<seq<Item>> {
    if count == 0 then Some([])
    else
      match FirstItem(b)
      case None => None
      case Some((it, rest)) =>
        match ItemsOf(rest, count - 1)
        case None => None
        case Some(items) => Some([it] + items)
  }

  /** The data of the last item of a kind. */
  function LastOf(items: seq<Item>, kind: u16): Option<seq<byte>> {
    if items == [] then None
    else if items[|items| - 1].kind == kind then Some(items[|items| - 1].data)
    else LastOf(items[..|items| - 1], kind)
  }

  lemma FirstOfList(it: Item, rest: seq<byte>)
    requires |it.data| < 0x1_0000
    ensures FirstItem(ItemBytes(it) + rest) == Some((it, rest))
  {
    var b := ItemBytes(it) + rest;
    var kind, len := LE16(it.kind), LE16(|it.data|);
    assert b[0] == kind[0] && b[1] == kind[1] && b[2] == len[0] && b[3] == len[1];
    assert U16At(b, 0) == it.kind && U16At(b, 2) == |it.data|;
    assert b[4..4 + |it.data|] == it.data;
    assert b[4 + |it.data|..] == rest;
  }

  /** Encoding an item list and reading it back is the identity, whatever follows it. */
  lemma {:induction false} ItemListRoundTrip(items: seq<Item>, rest: seq<byte>)
    requires Encodable(items)
    ensures ItemsOf(ItemListBytes(items) + rest, |items|) == Some(items)
  {
    if items != [] {
      hide FirstItem, ItemBytes;
      var tail := ItemListBytes(items[1..]) + rest;
      assert ItemListBytes(items) + rest == ItemBytes(items[0]) + tail;
      FirstOfList(items[0], tail);
      ItemListRoundTrip(items[1..], rest);
      assert [items[0]] + items[1..] == items;
    }
  }

  lemma {:induction false} LastOfCons(it: Item, items: seq<Item>, kind: u16)
    ensures LastOf([it] + items, kind) ==
            if LastOf(items, kind).Some? then LastOf(items, kind)
            else if it.kind == kind then Some(it.data) else None
  {
    var all := [it] + items;
    if items != [] {
      assert all[..|all| - 1] == [it] + items[..|items| - 1];
      LastOfCons(it, items[..|items| - 1], kind);
    } else {
      assert all[..0] == [];
    }
  }

  // ---------------------------------------------------------------------------------------
  // The walk for unconnected replies

  /** One forward pass that remembers the latest unconnected-data item. */
  function FindUnconnected(b: seq<byte>, count: nat, found: Option<seq<byte>>): Option<Option<seq<byte>>> {
    if count == 0 then Some(found)
    else
      match FirstItem(b)
      case None => None
      case Some((it, rest)) =>
        FindUnconnected(rest, count - 1, if it.kind == UNCONNECTED_DATA then Some(it.data) else found)
  }

  /** The pass succeeds exactly when every declared item fits, and selects the last item of
      the wanted kind for any number and order of items. */
  lemma {:induction false} FindUnconnectedIsLast(b: seq<byte>, count: nat, found: Option<seq<byte>>)
    ensures FindUnconnected(b, count, found) ==
            match ItemsOf(b, count)
            case None => None
            case Some(items) =>
              Some(if LastOf(items, UNCONNECTED_DATA).Some? then LastOf(items, UNCONNECTED_DATA) else found)
    decreases count
  {
    if count > 0 && FirstItem(b).Some? {
      var (it, rest) := FirstItem(b).value;
      var found' := if it.kind == UNCONNECTED_DATA then Some(it.data) else found;
      FindUnconnectedIsLast(rest, count - 1, found');
      if ItemsOf(rest, count - 1).Some? {
        LastOfCons(it, ItemsOf(rest, count - 1).value, UNCONNECTED_DATA);
      }
    }
  }

  // ---------------------------------------------------------------------------------------
  // The walk for connected replies

  datatype Pair = Pair(id: Option<u32>, data: Option<seq<byte>>)

  /** One forward pass that remembers the latest connection ID and the latest connected-data
      item; an address item too short to hold an ID fails the walk. */
  function FindConnected(b: seq<byte>, count: nat, found: Pair): Option<Pair> {
    if count == 0 then Some(found)
    else
      match FirstItem(b)
      case None => None
      case Some((it, rest)) =>
        if it.kind == CONNECTED_ADDRESS then
          if |it.data| < 4 then None
          else FindConnected(rest, count - 1, found.(id := Some(U32At(it.data, 0))))
        else if it.kind == CONNECTED_DATA then
          FindConnected(rest, count - 1, found.(data := Some(it.data)))
        else FindConnected(rest, count - 1, found)
  }

  predicate AddressesHoldIds(items: seq<Item>) {
    forall i | 0 <= i < |items| :: items[i].kind == CONNECTED_ADDRESS ==> |items[i].data| >= 4
  }

  lemma {:induction false} LastOfHoldsId(items: seq<Item>)
    requires AddressesHoldIds(items)
    ensures LastOf(items, CONNECTED_ADDRESS).Some? ==> |LastOf(items, CONNECTED_ADDRESS).value| >= 4
  {
    if items != [] {
      LastOfHoldsId(items[..|items| - 1]);
    }
  }

  /** The reference selection: the last ID and the last data item of a well-formed list. */
  function Selected(items: seq<Item>, found: Pair): Pair
    requires AddressesHoldIds(items)
  {
    LastOfHoldsId(items);
    var id := LastOf(items, CONNECTED_ADDRESS);
    var data := LastOf(items, CONNECTED_DATA);
    Pair(if id.Some? then Some(U32At(id.value, 0)) else found.id, if data.Some? then data else found.data)
  }

  lemma {:induction false} FindConnectedIsLast(b: seq<byte>, count: nat, found: Pair)
    ensures FindConnected(b, count, found) ==
            match ItemsOf(b, count)
            case None => None
            case Some(items) => if AddressesHoldIds(items) then Some(Selected(items, found)) else None
    decreases count
  {
    if count > 0 && FirstItem(b).Some? {
      var (it, rest) := FirstItem(b).value;
      var tail := ItemsOf(rest, count - 1);
      if it.kind == CONNECTED_ADDRESS && |it.data| < 4 {
        if tail.Some? {
          assert ([it] + tail.value)[0] == it;
        }
      } else {
        var found' := if it.kind == CONNECTED_ADDRESS then found.(id := Some(U32At(it.data, 0)))
                      else if it.kind == CONNECTED_DATA then found.(data := Some(it.data)) else found;
        FindConnectedIsLast(rest, count - 1, found');
        if tail.Some? {
          var items := [it] + tail.value;
          assert items[1..] == tail.value;
          assert AddressesHoldIds(items) <==> AddressesHoldIds(tail.value) by {
            assert forall i | 1 <= i < |items| :: items[i] == tail.value[i - 1];
            assert forall i | 0 <= i < |tail.value| :: tail.value[i] == items[i + 1];
          }
          LastOfCons(it, tail.value, CONNECTED_ADDRESS);
          LastOfCons(it, tail.value, CONNECTED_DATA);
        }
      }
    }
  }
}
