/**
 CIP path segments, service codes and data types.
 */
module Cip {
  import opened Bytes

  const READ_TAG: u8 := 0x4C
  const WRITE_TAG: u8 := 0x4D
  const FORWARD_OPEN: u8 := 0x54
  const FORWARD_CLOSE: u8 := 0x4E
  const UNCONNECTED_SEND: u8 := 0x52
  const GET_INSTANCE_ATTRIBUTE_LIST: u8 := 0x55
  const GET_ATTRIBUTE_SINGLE: u8 := 0x0E

  const SYMBOL_CLASS: u8 := 0x6B
  const CONNECTION_MANAGER_CLASS: u8 := 0x06

  /** "No backplane route": talk to the controller's own port. */
  const NO_ROUTE: u8 := 0xFF

  const MAX_SYMBOLIC_NAME: nat := 120

  function ClassSegment(id: u8): seq<byte> {
    [0x20, id]
  }

  function InstanceSegment(id: u8): seq<byte> {
    [0x24, id]
  }

  /** The 16- and 32-bit instance segments carry a trailing pad byte to a whole word. */
  function InstanceSegment16(id: u16): seq<byte> {
    [0x25] + LE16(id) + [0]
  }

  function InstanceSegment32(id: u32): seq<byte> {
    [0x26] + LE32(id) + [0]
  }

  /** An extended symbol segment: the name, cut to 120 bytes, padded to a whole word. */
  function SymbolicPath(name: seq<byte>): seq<byte> {
    var cut := name[..Min(|name|, MAX_SYMBOLIC_NAME)];
    [0x91, |cut|] + cut + (if |cut| % 2 == 1 then [0] else [])
  }

  function BackplaneRoute(slot: u8): seq<byte> {
    [0x01, 0x00, 0x01, slot]
  }

  function PortSegment(port: u8, link: u8): seq<byte> {
    [port % 0x10, link]
  }

  /** The Connection Manager, class 6 instance 1. */
  function ConnectionManagerPath(): seq<byte> {
    ClassSegment(CONNECTION_MANAGER_CLASS) + InstanceSegment(1)
  }

  /** A Symbol Object path with the narrowest instance segment that fits. */
  function SymbolPath(instance: u32): seq<byte> {
    ClassSegment(SYMBOL_CLASS) +
    if instance <= 0xFF then InstanceSegment(instance)
    else if instance <= 0xFFFF then InstanceSegment16(instance)
    else InstanceSegment32(instance)
  }

  /** Encoded symbolic paths are whole words and fit the 128-byte path buffers. */
  lemma SymbolicPathFits(name: seq<byte>)
    ensures |SymbolicPath(name)| % 2 == 0 && 2 <= |SymbolicPath(name)| <= 2 + MAX_SYMBOLIC_NAME
    ensures |SymbolicPath(name)| <= |name| + 3
  {
  }

  lemma SymbolPathFits(instance: u32)
    ensures |SymbolPath(instance)| % 2 == 0 && |SymbolPath(instance)| <= 8
  {
  }

  /** Write a symbolic segment into a path buffer; returns the bytes written. */
  method AppendSymbolic(out: array<byte>, off: nat, name: seq<byte>) returns (n: nat)
    requires off + 3 + Min(|name|, MAX_SYMBOLIC_NAME) <= out.Length
    modifies out
    ensures n == |SymbolicPath(name)| && off + n <= out.Length
    ensures out[..off + n] == old(out[..off]) + SymbolicPath(name)
    ensures forall k | off + n <= k < out.Length :: out[k] == old(out[k])
  {
    var len := |name|;
    if len > MAX_SYMBOLIC_NAME {
      len := MAX_SYMBOLIC_NAME;
    }
    out[off] := 0x91;
    out[off + 1] := len;
    assert out[..off + 2] == old(out[..off]) + [0x91, len];
    Put(out, off + 2, name[..len]);
    n := 2 + len;
    assert out[..off + n] == old(out[..off]) + ([0x91, len] + name[..len]);
    if len % 2 == 1 {
      out[off + n] := 0;
      assert out[..off + n + 1] == out[..off + n] + [0];
      n := n + 1;
    }
  }

  const TYPE_STRING: u8 := 0xD0

  /** Bytes per element of an elementary data type; 0 when unknown or variable. */
  function ElementSize(t: u8): nat {
    match t
    case 0xC1 => 1
    case 0xC2 => 1
    case 0xC3 => 2
    case 0xC4 => 4
    case 0xC5 => 8
    case 0xC6 => 1
    case 0xC7 => 2
    case 0xC8 => 4
    case 0xC9 => 8
    case 0xCA => 4
    case 0xCB => 8
    case _ => 0
  }
}
