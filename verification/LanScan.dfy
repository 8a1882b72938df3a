/**
 The subnet walk: from the network address up to the broadcast address, one host at a time,
 probing each except the gateway and the scanner itself.
 */
module LanScan {
  import opened Bytes
  import opened Status

  /** An IPv4 address, most significant octet first. */
  type Ip = s: seq<byte> | |s| == 4 witness [0, 0, 0, 0]

  // ---------------------------------------------------------------------------------------
  // Addresses as numbers

  /** The base-256 value, most significant digit first. */
  function Value(ip: seq<byte>): nat {
    if ip == [] then 0 else 0x100 * Value(ip[..|ip| - 1]) + ip[|ip| - 1]
  }

  lemma {:induction false} ValueIsBounded(ip: seq<byte>)
    ensures Value(ip) < Pow256(|ip|)
  {
    if ip != [] {
      ValueIsBounded(ip[..|ip| - 1]);
    }
  }

  lemma {:induction false} ValueIsInjective(a: seq<byte>, b: seq<byte>)
    requires |a| == |b| && Value(a) == Value(b)
    ensures a == b
  {
    if a != [] {
      var n := |a| - 1;
      ValueIsInjective(a[..n], b[..n]);
      assert a == a[..n] + [a[n]] && b == b[..n] + [b[n]];
    }
  }

  /** The address after this one; on overflow the digits are all zero and the flag is false. */
  function Next(ip: seq<byte>): (r: (seq<byte>, bool))
    ensures |r.0| == |ip|
  {
    if ip == [] then ([], false)
    else
      var front, last: int := ip[..|ip| - 1], ip[|ip| - 1];
      if last < 255 then (front + [last + 1], true)
      else (Next(front).0 + [0], Next(front).1)
  }

  /** nextHost is +1 on the value, and overflows only at the very last address. */
  lemma {:induction false} NextIsPlusOne(ip: seq<byte>)
    ensures var (next, ok) := Next(ip);
            && (ok ==> Value(next) == Value(ip) + 1)
            && (!ok ==> Value(ip) + 1 == Pow256(|ip|) && Value(next) == 0)
  {
    if ip != [] {
      var front := ip[..|ip| - 1];
      NextIsPlusOne(front);
      var (next, ok) := Next(ip);
      assert next[..|next| - 1] == if ip[|ip| - 1] < 255 then front else Next(front).0;
    }
  }

  /** Bitwise and/or of two numbers of n bits. */
  function And(a: nat, b: nat, n: nat): nat {
    if n == 0 then 0 else a % 2 * (b % 2) + 2 * And(a / 2, b / 2, n - 1)
  }

  function Or(a: nat, b: nat, n: nat): nat {
    if n == 0 then 0 else (if a % 2 == 1 || b % 2 == 1 then 1 else 0) + 2 * Or(a / 2, b / 2, n - 1)
  }

  function Pow2(n: nat): nat {
    if n == 0 then 1 else 2 * Pow2(n - 1)
  }

  /** Keeping the masked bits and setting the unmasked ones bracket a number, exactly the
      inverted mask apart. */
  lemma {:induction false} MaskBrackets(a: nat, m: nat, n: nat)
    requires a < Pow2(n) && m < Pow2(n)
    ensures And(a, m, n) <= a <= Or(a, Pow2(n) - 1 - m, n) < Pow2(n)
    ensures Or(a, Pow2(n) - 1 - m, n) - And(a, m, n) == Pow2(n) - 1 - m
  {
    if n > 0 {
      var inverted: nat := Pow2(n) - 1 - m;
      assert inverted % 2 == 1 - m % 2 && inverted / 2 == Pow2(n - 1) - 1 - m / 2;
      MaskBrackets(a / 2, m / 2, n - 1);
      BitProduct(a % 2, m % 2);
    }
  }

  lemma BitProduct(a: nat, b: nat)
    requires a < 2 && b < 2
    ensures a * b == if a == 1 && b == 1 then 1 else 0
  {
  }

  lemma ByteMask(a: byte, m: byte)
    ensures And(a, m, 8) <= a <= Or(a, 255 - m, 8) <= 255
    ensures Or(a, 255 - m, 8) - And(a, m, 8) == 255 - m
  {
    assert Pow2(4) == 16 && Pow2(6) == 64 && Pow2(8) == 256;
    MaskBrackets(a, m, 8);
  }

  function AndByte(a: byte, m: byte): byte {
    ByteMask(a, m);
    And(a, m, 8)
  }

  function OrNotByte(a: byte, m: byte): byte {
    ByteMask(a, m);
    Or(a, 255 - m, 8)
  }

  function Network(ip: Ip, mask: Ip): Ip {
    [AndByte(ip[0], mask[0]), AndByte(ip[1], mask[1]), AndByte(ip[2], mask[2]), AndByte(ip[3], mask[3])]
  }

  function Broadcast(ip: Ip, mask: Ip): Ip {
    [OrNotByte(ip[0], mask[0]), OrNotByte(ip[1], mask[1]), OrNotByte(ip[2], mask[2]), OrNotByte(ip[3], mask[3])]
  }

  function Inverted(mask: Ip): Ip {
    [255 - mask[0], 255 - mask[1], 255 - mask[2], 255 - mask[3]]
  }

  lemma ValueOf4(ip: Ip)
    ensures Value(ip) == Word32(ip[3], ip[2], ip[1], ip[0])
  {
    var a, b, c := ip[..3], ip[..2], ip[..1];
    assert a[..2] == b && b[..1] == c && c[..0] == [];
    assert Value(c) == ip[0];
    assert Value(b) == 0x100 * Value(c) + ip[1];
    assert Value(a) == 0x100 * Value(b) + ip[2];
  }

  /** The address lies between network and broadcast, which are the inverted mask apart. */
  lemma SubnetSpan(ip: Ip, mask: Ip)
    ensures Value(Network(ip, mask)) <= Value(ip) <= Value(Broadcast(ip, mask)) < TWO32
    ensures Value(Broadcast(ip, mask)) - Value(Network(ip, mask)) == Value(Inverted(mask))
    ensures Value(Inverted(mask)) == 0 <==> mask == [255, 255, 255, 255]
  {
    hide AndByte, OrNotByte, Value;
    OctetMask(ip[0], mask[0]);
    OctetMask(ip[1], mask[1]);
    OctetMask(ip[2], mask[2]);
    OctetMask(ip[3], mask[3]);
    ValueOf4(ip);
    ValueOf4(Network(ip, mask));
    ValueOf4(Broadcast(ip, mask));
    ValueOf4(Inverted(mask));
  }

  lemma OctetMask(a: byte, m: byte)
    ensures AndByte(a, m) <= a <= OrNotByte(a, m)
    ensures OrNotByte(a, m) - AndByte(a, m) == 255 - m
  {
    ByteMask(a, m);
  }

  // ---------------------------------------------------------------------------------------
  // The scan

  datatype ScanPhase = WaitEthernet | Scan | Connect | Register | Query | Close | Done

  const ATTRIBUTES: nat := 8

  datatype Scanner = Scanner(
    phase: ScanPhase,
    network: Ip,
    broadcast: Ip,
    current: Ip,
    queryIndex: nat,
    stepStarted: bool,
    found: nat,
    probed: seq<Ip>)         // connects started, in order

  /** The addresses the sketch is configured with. */
  datatype Config = Config(ip: Ip, mask: Ip, gateway: Ip)

  const NewScanner: Scanner := Scanner(WaitEthernet, [0, 0, 0, 0], [0, 0, 0, 0], [0, 0, 0, 0], 0, false, 0, [])

  /** The scan phase: advance, stop at the broadcast address or on overflow, skip the gateway
      and ourselves, probe anything else. */
  function ScanStep(s: Scanner, cfg: Config): Scanner {
    var (next, ok) := Next(s.current);
    var s1 := s.(current := next);
    if !ok || next == s.broadcast then s1.(phase := ScanPhase.Done)
    else if next == cfg.gateway || next == cfg.ip then s1
    else s1.(probed := s.probed + [next], phase := ScanPhase.Connect)
  }

  /** One loop() turn: `st` is what the phase's poll returns, and `accepted` whether the query it
      may start is accepted. */
  function Turn(s: Scanner, cfg: Config, st: Status, accepted: bool): Scanner {
    match s.phase
    case WaitEthernet =>
      if st == Ok then
        s.(network := Network(cfg.ip, cfg.mask), broadcast := Broadcast(cfg.ip, cfg.mask),
           current := Network(cfg.ip, cfg.mask), phase := Scan)
      else if st == Error then s.(phase := ScanPhase.Done)
      else s
    case Scan => ScanStep(s, cfg)
    case Connect =>
      if st == Ok then s.(phase := Register)
      else if st == Timeout || st == Error || st == Closed then s.(phase := Scan)
      else s
    case Register =>
      if st == Ok then s.(phase := Query, queryIndex := 0, stepStarted := false)
      else if st == Timeout || st == Error then s.(phase := Scan)
      else s
    case Query =>
      if !s.stepStarted then s.(stepStarted := accepted)
      else if st == Ok then
        var i := s.queryIndex + 1;
        s.(queryIndex := i, stepStarted := false, phase := if i >= ATTRIBUTES then ScanPhase.Close else Query)
      else if st == Timeout || st == Error || st == Closed then s.(phase := Scan)
      else s
    case Close =>
      if st == Ok || st == Closed || st == Timeout || st == Error then s.(found := s.found + 1, phase := Scan)
      else s
    case Done => s
  }

  datatype Input = Input(st: Status, accepted: bool)

  function Run(cfg: Config, ins: seq<Input>): Scanner {
    if ins == [] then NewScanner
    else Turn(Run(cfg, ins[..|ins| - 1]), cfg, ins[|ins| - 1].st, ins[|ins| - 1].accepted)
  }

  // ---------------------------------------------------------------------------------------
  // Who gets probed

  /** The values strictly between lo and hi, ascending, except those in skip. */
  function Hosts(lo: nat, hi: nat, skip: set<nat>): seq<nat>
    decreases hi - lo
  {
    if lo + 1 >= hi then []
    else (if lo + 1 in skip then [] else [lo + 1]) + Hosts(lo + 1, hi, skip)
  }

  /** The list is what it says: every value strictly between that is not skipped, once each, in
      ascending order. */
  lemma {:induction false} HostsAreExactlyTheRange(lo: nat, hi: nat, skip: set<nat>)
    ensures forall v :: v in Hosts(lo, hi, skip) <==> lo < v < hi && v !in skip
    ensures forall i, j | 0 <= i < j < |Hosts(lo, hi, skip)| :: Hosts(lo, hi, skip)[i] < Hosts(lo, hi, skip)[j]
    decreases hi - lo
  {
    if lo + 1 < hi {
      HostsAreExactlyTheRange(lo + 1, hi, skip);
      var rest := Hosts(lo + 1, hi, skip);
      forall i | 0 <= i < |rest|
        ensures rest[i] > lo + 1
      {
        assert rest[i] in rest;
      }
    }
  }

  /** One more value at the top. */
  lemma {:induction false} HostsSnoc(lo: nat, hi: nat, skip: set<nat>)
    requires lo < hi
    ensures Hosts(lo, hi + 1, skip) == Hosts(lo, hi, skip) + (if hi in skip then [] else [hi])
    decreases hi - lo
  {
    if lo + 1 == hi {
      assert Hosts(hi, hi + 1, skip) == [];
    } else {
      HostsSnoc(lo + 1, hi, skip);
    }
  }

  function Skipped(cfg: Config): set<nat> {
    {Value(cfg.gateway), Value(cfg.ip)}
  }

  function Values(ips: seq<Ip>): (vs: seq<nat>)
    ensures |vs| == |ips|
  {
    if ips == [] then [] else Values(ips[..|ips| - 1]) + [Value(ips[|ips| - 1])]
  }

  /** Where the walk ends: at the broadcast address, or at the end of the address space when
      the mask leaves no host bits. */
  function Stop(cfg: Config): nat {
    if cfg.mask == [255, 255, 255, 255] then TWO32 else Value(Broadcast(cfg.ip, cfg.mask))
  }

  /** The walk so far. */
  predicate Walking(s: Scanner, cfg: Config) {
    var from := Value(Network(cfg.ip, cfg.mask));
    && !s.phase.WaitEthernet? && s.network == Network(cfg.ip, cfg.mask) && s.broadcast == Broadcast(cfg.ip, cfg.mask)
    && if s.phase.Done? then Values(s.probed) == Hosts(from, Stop(cfg), Skipped(cfg))
       else from <= Value(s.current) < Stop(cfg)
            && Values(s.probed) == Hosts(from, Value(s.current) + 1, Skipped(cfg))
  }

  lemma StepWalks(s: Scanner, cfg: Config)
    requires Walking(s, cfg) && s.phase.Scan?
    ensures Walking(ScanStep(s, cfg), cfg)
    ensures var s' := ScanStep(s, cfg);
            s'.phase.Done? || Value(s'.current) == Value(s.current) + 1
  {
    hide Value, Next, Hosts, Broadcast, Network;
    SubnetSpan(cfg.ip, cfg.mask);
    NextIsPlusOne(s.current);
    Pow256Of4();
    var (next, ok) := Next(s.current);
    ValueIsBounded(next);
    var from, v := Value(Network(cfg.ip, cfg.mask)), Value(s.current);
    if ok {
      SameValueSameIp(next, s.broadcast);
      SameValueSameIp(next, cfg.gateway);
      SameValueSameIp(next, cfg.ip);
      HostsSnoc(from, v + 1, Skipped(cfg));
      ValuesSnoc(s.probed, next);
    }
  }

  lemma SameValueSameIp(a: Ip, b: Ip)
    ensures a == b <==> Value(a) == Value(b)
  {
    if Value(a) == Value(b) {
      ValueIsInjective(a, b);
    }
  }

  lemma ValuesSnoc(ips: seq<Ip>, ip: Ip)
    ensures Values(ips + [ip]) == Values(ips) + [Value(ip)]
  {
    assert (ips + [ip])[..|ips|] == ips;
  }

  /** Before the network is up nothing has happened; after that the walk is always on track,
      unless the network failed to come up. */
  predicate OnTrack(s: Scanner, cfg: Config) {
    || (s.phase.WaitEthernet? && s == NewScanner)
    || s == NewScanner.(phase := ScanPhase.Done)
    || Walking(s, cfg)
  }

  lemma TurnKeepsTrack(s: Scanner, cfg: Config, st: Status, accepted: bool)
    requires OnTrack(s, cfg)
    ensures OnTrack(Turn(s, cfg, st, accepted), cfg)
  {
    hide Value, Hosts, Network, Broadcast, ScanStep, Skipped;
    SubnetSpan(cfg.ip, cfg.mask);
    if s.phase.Scan? {
      StepWalks(s, cfg);
    } else if s.phase.WaitEthernet? && st == Ok {
      StartOfWalk(cfg);
    }
  }

  lemma StartOfWalk(cfg: Config)
    ensures Hosts(Value(Network(cfg.ip, cfg.mask)), Value(Network(cfg.ip, cfg.mask)) + 1, Skipped(cfg)) == []
    ensures Value(Network(cfg.ip, cfg.mask)) < Stop(cfg)
  {
    hide Value;
    SubnetSpan(cfg.ip, cfg.mask);
    ValueOf4(Network(cfg.ip, cfg.mask));
  }

  lemma {:induction false} RunKeepsTrack(cfg: Config, ins: seq<Input>)
    ensures OnTrack(Run(cfg, ins), cfg)
  {
    hide Turn, Walking;
    if ins != [] {
      RunKeepsTrack(cfg, ins[..|ins| - 1]);
      TurnKeepsTrack(Run(cfg, ins[..|ins| - 1]), cfg, ins[|ins| - 1].st, ins[|ins| - 1].accepted);
    }
  }

  /** Whatever the devices answer: at every moment the addresses probed are exactly the ones
      strictly above the network address and not above the current one, ascending, each once,
      without the gateway and ourselves; and when the scan is over they are all of those
      strictly between network and broadcast, for every mask that leaves host bits. */
  lemma ScanCoversTheSubnet(cfg: Config, ins: seq<Input>)
    requires cfg.mask != [255, 255, 255, 255]
    ensures var s := Run(cfg, ins);
            var network, broadcast := Value(Network(cfg.ip, cfg.mask)), Value(Broadcast(cfg.ip, cfg.mask));
            || (s.phase.WaitEthernet? && s.probed == [])
            || s == NewScanner.(phase := ScanPhase.Done)         // the network did not come up
            || (s.phase.Done? && Values(s.probed) == Hosts(network, broadcast, Skipped(cfg)))
            || (!s.phase.Done? && network <= Value(s.current) < broadcast
                && Values(s.probed) == Hosts(network, Value(s.current) + 1, Skipped(cfg)))
  {
    hide Value, Values, Hosts, Network, Broadcast, Skipped, Run;
    RunKeepsTrack(cfg, ins);
  }

  /** With the one mask that leaves no host bits the walk does not stop at the broadcast
      address: it goes on to the end of the address space. It then still probes exactly the
      (empty) range between network and broadcast if and only if nothing lies above us but,
      possibly, the gateway as the very last address. */
  lemma FullMaskWalksOn(cfg: Config, ins: seq<Input>)
    requires cfg.mask == [255, 255, 255, 255]
    requires Run(cfg, ins).phase.Done? && Run(cfg, ins) != NewScanner.(phase := ScanPhase.Done)
    ensures var s := Run(cfg, ins);
            var network, broadcast := Value(Network(cfg.ip, cfg.mask)), Value(Broadcast(cfg.ip, cfg.mask));
            && network == broadcast == Value(cfg.ip)
            && Values(s.probed) == Hosts(Value(cfg.ip), TWO32, Skipped(cfg))
            && (Values(s.probed) == Hosts(network, broadcast, Skipped(cfg)) <==>
                  Value(cfg.ip) == TWO32 - 1 || (Value(cfg.ip) == TWO32 - 2 && Value(cfg.gateway) == TWO32 - 1))
  {
    hide Value, Network, Broadcast;
    RunKeepsTrack(cfg, ins);
    SubnetSpan(cfg.ip, cfg.mask);
    NothingAbove(cfg);
  }

  /** The failing input for the full mask: one host below the last address. The scan ends having
      probed the address above it, which is not in the (empty) range. */
  lemma FullMaskProbesOutside()
    ensures var cfg := Config([255, 255, 255, 254], [255, 255, 255, 255], [0, 0, 0, 0]);
            var s := Run(cfg, [Input(Ok, false), Input(Pending, false), Input(Timeout, false), Input(Pending, false)]);
            && s.phase.Done? && s.probed == [[255, 255, 255, 255]]
            && Hosts(Value(Network(cfg.ip, cfg.mask)), Value(Broadcast(cfg.ip, cfg.mask)), Skipped(cfg)) == []
  {
    hide Network, Broadcast, Value, Hosts;
    var cfg := Config([255, 255, 255, 254], [255, 255, 255, 255], [0, 0, 0, 0]);
    var a, b, c, d := Input(Ok, false), Input(Pending, false), Input(Timeout, false), Input(Pending, false);
    FullMaskIsOneAddress(cfg);
    LastAddresses();
    assert [a, b, c, d][..3] == [a, b, c] && [a, b, c][..2] == [a, b] && [a, b][..1] == [a] && [a][..0] == [];
    assert Run(cfg, []) == NewScanner;
    var s1 := Run(cfg, [a]);
    assert s1.phase.Scan? && s1.current == s1.broadcast == cfg.ip;
    var s2 := Run(cfg, [a, b]);
    assert s2.phase.Connect? && s2.current == [255, 255, 255, 255] && s2.probed == [s2.current];
    assert Run(cfg, [a, b, c]) == s2.(phase := Scan);
  }

  lemma FullMaskIsOneAddress(cfg: Config)
    requires cfg.mask == [255, 255, 255, 255]
    ensures Network(cfg.ip, cfg.mask) == Broadcast(cfg.ip, cfg.mask) == cfg.ip
    ensures Hosts(Value(cfg.ip), Value(cfg.ip), Skipped(cfg)) == []
  {
    hide Value, Network, Broadcast;
    SubnetSpan(cfg.ip, cfg.mask);
    SameValueSameIp(Network(cfg.ip, cfg.mask), cfg.ip);
    SameValueSameIp(Broadcast(cfg.ip, cfg.mask), cfg.ip);
  }

  lemma LastAddresses()
    ensures Next([255, 255, 255, 254]) == ([255, 255, 255, 255], true)
    ensures !Next([255, 255, 255, 255]).1
  {
    assert [255, 255, 255, 254][..3] == [255, 255, 255];
    assert Next([255, 255, 255, 254]).0 == [255, 255, 255] + [255] == [255, 255, 255, 255];
    assert [255, 255, 255, 255][..3] == [255, 255, 255] && [255, 255, 255][..2] == [255, 255];
    assert [255, 255][..1] == [255] && [255][..0] == [];
    assert !Next([]).1 && !Next([255]).1 && !Next([255, 255]).1 && !Next([255, 255, 255]).1;
  }

  lemma NothingAbove(cfg: Config)
    ensures var v := Value(cfg.ip);
            Hosts(v, TWO32, Skipped(cfg)) == [] <==>
              v >= TWO32 - 1 || (v == TWO32 - 2 && Value(cfg.gateway) == TWO32 - 1)
  {
    hide Value, Hosts;
    var v, g := Value(cfg.ip), Value(cfg.gateway);
    var hosts := Hosts(v, TWO32, Skipped(cfg));
    HostsAreExactlyTheRange(v, TWO32, Skipped(cfg));
    if v < TWO32 - 1 && !(v == TWO32 - 2 && g == TWO32 - 1) {
      assert (if g == v + 1 then v + 2 else v + 1) in hosts;
    } else {
      NonemptyHasMember(hosts);
    }
  }

  lemma NonemptyHasMember(s: seq<nat>)
    ensures s != [] ==> exists u :: u in s
  {
    if s != [] {
      assert s[0] in s;
    }
  }

  /** The scan terminates: every scan turn moves the current address up by one or ends the scan,
      so there are at most as many as there are addresses left. */
  function ScanTurns(cfg: Config, ins: seq<Input>): nat {
    if ins == [] then 0
    else ScanTurns(cfg, ins[..|ins| - 1]) + (if Run(cfg, ins[..|ins| - 1]).phase.Scan? then 1 else 0)
  }

  lemma {:induction false} ScanTurnsAreCounted(cfg: Config, ins: seq<Input>)
    ensures var s := Run(cfg, ins);
            var turns, from := ScanTurns(cfg, ins), Value(Network(cfg.ip, cfg.mask));
            && (s.phase.WaitEthernet? ==> turns == 0)
            && (Walking(s, cfg) && !s.phase.Done? ==> turns == Value(s.current) - from)
            && turns <= Stop(cfg) - from
  {
    hide Value, Hosts, Network, Broadcast, ScanStep, Skipped, Turn, Values;
    SubnetSpan(cfg.ip, cfg.mask);
    StartOfWalk(cfg);
    if ins != [] {
      var before, input := ins[..|ins| - 1], ins[|ins| - 1];
      ScanTurnsAreCounted(cfg, before);
      RunKeepsTrack(cfg, before);
      RunKeepsTrack(cfg, ins);
      var s := Run(cfg, before);
      if s.phase.Scan? {
        StepWalks(s, cfg);
      }
      OtherTurnsStay(s, cfg, input.st, input.accepted);
    }
  }

  lemma OtherTurnsStay(s: Scanner, cfg: Config, st: Status, accepted: bool)
    ensures var s' := Turn(s, cfg, st, accepted);
            && (s.phase.Scan? ==> s' == ScanStep(s, cfg))
            && (!s.phase.Scan? && !s.phase.WaitEthernet? ==> s'.current == s.current && (s'.phase.Done? <==> s.phase.Done?))
            && (s.phase.WaitEthernet? ==>
                  || s' == s || s' == s.(phase := ScanPhase.Done)
                  || (s'.phase.Scan? && s'.current == Network(cfg.ip, cfg.mask)))
            && (s'.phase.WaitEthernet? ==> s' == s)
            && (s.phase.Done? ==> s' == s)
  {
    hide Network, Broadcast, Next;
  }

  // ---------------------------------------------------------------------------------------
  // The walk, updated in place

  /** Where the carry stops: the last octet below 255 goes up, the full ones after it go to 0. */
  lemma {:induction false} NextAt(was: seq<byte>, i: nat, now: seq<byte>)
    requires |now| == |was| && i < |was|
    requires var d: int := was[i]; d < 255 && now[i] == d + 1
    requires now[..i] == was[..i]
    requires forall k | i < k < |was| :: was[k] == 255 && now[k] == 0
    ensures Next(was) == (now, true)
  {
    var n := |was| - 1;
    if i == n {
      assert now == was[..n] + [now[n]];
    } else {
      assert now[..n][..i] == was[..n][..i];
      NextAt(was[..n], i, now[..n]);
      assert now == now[..n] + [0];
    }
  }

  lemma {:induction false} NextOverflows(was: seq<byte>, now: seq<byte>)
    requires |now| == |was|
    requires forall k | 0 <= k < |was| :: was[k] == 255 && now[k] == 0
    ensures Next(was) == (now, false)
  {
    if was != [] {
      var n := |was| - 1;
      NextOverflows(was[..n], now[..n]);
      assert now == now[..n] + [0];
    }
  }

  /** nextHost(): increment in place, carrying into higher octets. */
  method NextHost(ip: array<byte>) returns (ok: bool)
    modifies ip
    ensures (ip[..], ok) == Next(old(ip[..]))
  {
    ghost var was := ip[..];
    var i := ip.Length - 1;
    while i >= 0
      invariant -1 <= i < ip.Length
      invariant forall k | 0 <= k <= i :: ip[k] == was[k]
      invariant forall k | i < k < ip.Length :: was[k] == 255 && ip[k] == 0
    {
      if ip[i] < 255 {
        ip[i] := ip[i] + 1;
        NextAt(was, i, ip[..]);
        return true;
      }
      ip[i] := 0;
      i := i - 1;
    }
    NextOverflows(was, ip[..]);
    return false;
  }

  class LanInventory {
    const cfg: Config
    const network: array<byte>
    const broadcast: array<byte>
    const currentIp: array<byte>
    var phase: ScanPhase
    var queryIndex: nat
    var stepStarted: bool
    var found: nat
    var probed: seq<Ip>

    ghost predicate Valid()
      reads this
    {
      && network.Length == broadcast.Length == currentIp.Length == 4
      && network != broadcast && network != currentIp && broadcast != currentIp
    }

    ghost function View(): Scanner
      requires Valid()
      reads this, network, broadcast, currentIp
    {
      Scanner(phase, network[..], broadcast[..], currentIp[..], queryIndex, stepStarted, found, probed)
    }

    constructor (cfg: Config)
      ensures Valid() && View() == NewScanner && this.cfg == cfg
      ensures fresh(network) && fresh(broadcast) && fresh(currentIp)
    {
      this.cfg := cfg;
      network := new byte[4](_ => 0);
      broadcast := new byte[4](_ => 0);
      currentIp := new byte[4](_ => 0);
      phase, queryIndex, stepStarted, found, probed := WaitEthernet, 0, false, 0, [];
    }

    /** One turn of loop(). */
    method Loop(st: Status, accepted: bool)
      requires Valid()
      modifies this, network, broadcast, currentIp
      ensures Valid() && View() == Turn(old(View()), cfg, st, accepted)
    {
      hide Network, Broadcast, ScanStep;
      match phase {
        case WaitEthernet =>
          if st == Ok {
            SetUp();
            phase := Scan;
          } else if st == Error {
            phase := ScanPhase.Done;
          }
        case Scan =>
          Advance();
        case Connect =>
          if st == Ok {
            phase := Register;
          } else if st == Timeout || st == Error || st == Closed {
            phase := Scan;
          }
        case Register =>
          if st == Ok {
            queryIndex, stepStarted := 0, false;
            phase := Query;
          } else if st == Timeout || st == Error {
            phase := Scan;
          }
        case Query =>
          if !stepStarted {
            stepStarted := accepted;
          } else if st == Ok {
            queryIndex := queryIndex + 1;
            stepStarted := false;
            if queryIndex >= ATTRIBUTES {
              phase := ScanPhase.Close;
            }
          } else if st == Timeout || st == Error || st == Closed {
            phase := Scan;
          }
        case Close =>
          if st == Ok || st == Closed || st == Timeout || st == Error {
            found := found + 1;
            phase := Scan;
          }
        case Done =>
      }
    }

    /** Derive the subnet bounds octet by octet and start below the first host. */
    method SetUp()
      requires Valid()
      modifies network, broadcast, currentIp
      ensures network[..] == currentIp[..] == Network(cfg.ip, cfg.mask)
      ensures broadcast[..] == Broadcast(cfg.ip, cfg.mask)
    {
      hide AndByte, OrNotByte;
      ghost var n, b := Network(cfg.ip, cfg.mask), Broadcast(cfg.ip, cfg.mask);
      for i := 0 to 4
        invariant network[..i] == n[..i] && broadcast[..i] == b[..i]
      {
        network[i] := AndByte(cfg.ip[i], cfg.mask[i]);
        broadcast[i] := OrNotByte(cfg.ip[i], cfg.mask[i]);
        assert n[i] == network[i] && b[i] == broadcast[i];
        assert network[..i + 1] == network[..i] + [network[i]];
        assert broadcast[..i + 1] == broadcast[..i] + [broadcast[i]];
      }
      assert network[..4] == network[..] && broadcast[..4] == broadcast[..];
      Put(currentIp, 0, network[..]);
      assert currentIp[..4] == currentIp[..];
    }

    /** The scan phase. */
    method Advance()
      requires Valid() && phase.Scan?
      modifies this, currentIp
      ensures Valid() && View() == ScanStep(old(View()), cfg)
    {
      hide Next;
      var ok := NextHost(currentIp);
      if !ok || currentIp[..] == broadcast[..] {
        phase := ScanPhase.Done;
        return;
      }
      if currentIp[..] == cfg.gateway || currentIp[..] == cfg.ip {
        return;               // advance on the next turn
      }
      probed := probed + [currentIp[..]];
      phase := ScanPhase.Connect;
    }
  }
}
