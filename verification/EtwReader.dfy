/**
 Decoding of trace event payloads (internal/packet/etw_windows.go:365-557): a reader that moves
 an offset over the bytes, and the event layouts.  `...Layout` is what a payload looks like,
 followed by any bytes; parsing inverts it on every byte string.
 */
module EtwReaders {
  import opened Decimal
  import opened Options

  type Byte = x: int | 0 <= x < 256

  // ---- little-endian numbers ----

  /** `binary.LittleEndian`. */
  function Le(b: seq<Byte>): nat {
    if b == [] then 0 else b[0] + 256 * Le(b[1..])
  }

  function Encode(n: nat, width: nat): (b: seq<Byte>)
    ensures |b| == width
  {
    if width == 0 then [] else [n % 256] + Encode(n / 256, width - 1)
  }

  function Pow256(width: nat): (p: nat)
    ensures p > 0
  {
    if width == 0 then 1 else 256 * Pow256(width - 1)
  }

  lemma {:induction false} LeEncode(n: nat, width: nat)
    requires n < Pow256(width)
    ensures Le(Encode(n, width)) == n
  {
    if width > 0 {
      assert n / 256 < Pow256(width - 1);
      LeEncode(n / 256, width - 1);
      assert Encode(n, width)[1..] == Encode(n / 256, width - 1);
    }
  }

  lemma {:induction false} EncodeLe(b: seq<Byte>)
    ensures Le(b) < Pow256(|b|) && Encode(Le(b), |b|) == b
  {
    if b != [] {
      EncodeLe(b[1..]);
      assert Le(b) % 256 == b[0] && Le(b) / 256 == Le(b[1..]);
      assert b == [b[0]] + b[1..];
    }
  }

  // ---- parsing, on what is left of the payload ----

  function Uint(s: seq<Byte>, width: nat): Option<(nat, seq<Byte>)> {
    if |s| < width then None else Some((Le(s[..width]), s[width..]))
  }

  function Chunk(s: seq<Byte>, length: nat): Option<(seq<Byte>, seq<Byte>)> {
    if |s| < length then None else Some((s[..length], s[length..]))
  }

  /** A block: its length in four bytes, then that many bytes. */
  function Block(s: seq<Byte>): Option<(seq<Byte>, seq<Byte>)> {
    var (length, rest) :- Uint(s, 4);
    Chunk(rest, length)
  }

  function Width(header32: bool): nat {
    if header32 then 4 else 8
  }

  function BlockLayout(b: seq<Byte>, rest: seq<Byte>): seq<Byte> {
    Encode(|b|, 4) + (b + rest)
  }

  lemma UintInverts(n: nat, width: nat, rest: seq<Byte>)
    requires n < Pow256(width)
    ensures Uint(Encode(n, width) + rest, width) == Some((n, rest))
  {
    LeEncode(n, width);
    var s := Encode(n, width) + rest;
    assert s[..width] == Encode(n, width) && s[width..] == rest;
  }

  lemma UintIs(s: seq<Byte>, width: nat)
    requires Uint(s, width).Some?
    ensures var (n, rest) := Uint(s, width).value; n < Pow256(width) && s == Encode(n, width) + rest
  {
    EncodeLe(s[..width]);
    assert s == s[..width] + s[width..];
  }

  lemma BlockInverts(b: seq<Byte>, rest: seq<Byte>)
    requires |b| < Pow256(4)
    ensures Block(BlockLayout(b, rest)) == Some((b, rest))
  {
    UintInverts(|b|, 4, b + rest);
    assert (b + rest)[..|b|] == b && (b + rest)[|b|..] == rest;
  }

  lemma BlockIs(s: seq<Byte>)
    requires Block(s).Some?
    ensures var (b, rest) := Block(s).value; |b| < Pow256(4) && s == BlockLayout(b, rest)
  {
    UintIs(s, 4);
    var (n, t) := Uint(s, 4).value;
    assert t == t[..n] + t[n..];
  }

  // ---- the reader ----

  class EtwReader {
    const data: seq<Byte>
    var offset: int

    ghost predicate Valid()
      reads this
    {
      0 <= offset <= |data|
    }

    ghost function Rest(): seq<Byte>
      reads this
      requires Valid()
    {
      data[offset..]
    }

    constructor (data: seq<Byte>)
      ensures Valid() && this.data == data && offset == 0 && Rest() == data
    {
      this.data := data;
      offset := 0;
    }

    /** All reads stay inside the payload; a read that would not leaves the reader as it is. */
    method Bytes(length: int) returns (value: seq<Byte>, ok: bool)
      requires Valid()
      modifies this`offset
      ensures Valid()
      ensures ok <==> 0 <= length <= |old(Rest())|
      ensures ok ==> value == old(Rest())[..length] && Rest() == old(Rest())[length..]
      ensures !ok ==> offset == old(offset)
    {
      if length < 0 || offset > |data| - length {
        return [], false;
      }
      value, ok := data[offset..offset + length], true;
      assert value == data[offset..][..length] && data[offset + length..] == data[offset..][length..];
      offset := offset + length;
    }

    method U32() returns (value: nat, ok: bool)
      requires Valid()
      modifies this`offset
      ensures Valid()
      ensures ok <==> Uint(old(Rest()), 4).Some?
      ensures ok ==> (value, Rest()) == Uint(old(Rest()), 4).value
      ensures !ok ==> offset == old(offset)
    {
      var bytes;
      bytes, ok := Bytes(4);
      value := if ok then Le(bytes) else 0;
    }

    method Pointer(header32: bool) returns (value: nat, ok: bool)
      requires Valid()
      modifies this`offset
      ensures Valid()
      ensures ok <==> Uint(old(Rest()), Width(header32)).Some?
      ensures ok ==> (value, Rest()) == Uint(old(Rest()), Width(header32)).value
      ensures !ok ==> offset == old(offset)
    {
      if header32 {
        value, ok := U32();
        return;
      }
      var bytes;
      bytes, ok := Bytes(8);
      value := if ok then Le(bytes) else 0;
    }

    /** The two calls with which every event reads a block. */
    method ReadBlock() returns (value: seq<Byte>, ok: bool)
      requires Valid()
      modifies this`offset
      ensures Valid()
      ensures ok <==> Block(old(Rest())).Some?
      ensures ok ==> (value, Rest()) == Block(old(Rest())).value
    {
      var length;
      length, ok := U32();
      if !ok {
        return [], false;
      }
      value, ok := Bytes(length);
    }
  }

  // ---- the layouts ----

  datatype TcpRequest = TcpRequest(tcb: nat, local: seq<Byte>, remote: seq<Byte>)

  function TcpRequestOf(s: seq<Byte>, header32: bool): Option<TcpRequest> {
    var (tcb, s1) :- Uint(s, Width(header32));
    var (local, s2) :- Block(s1);
    var (remote, _) :- Block(s2);
    Some(TcpRequest(tcb, local, remote))
  }

  function TcpRequestLayout(r: TcpRequest, header32: bool, rest: seq<Byte>): seq<Byte> {
    Encode(r.tcb, Width(header32)) + BlockLayout(r.local, BlockLayout(r.remote, rest))
  }

  predicate TcpRequestFits(r: TcpRequest, header32: bool) {
    r.tcb < Pow256(Width(header32)) && |r.local| < Pow256(4) && |r.remote| < Pow256(4)
  }

  datatype EndpointEvent = EndpointEvent(local: seq<Byte>, remote: seq<Byte>, processId: nat, compartment: nat, tcb: nat)

  /** The status word must be zero. */
  function EndpointEventOf(s: seq<Byte>, header32: bool): Option<EndpointEvent> {
    var (local, s1) :- Block(s);
    var (remote, s2) :- Block(s1);
    var (status, s3) :- Uint(s2, 4);
    if status != 0 then None else
    var (processId, s4) :- Uint(s3, 4);
    var (compartment, s5) :- Uint(s4, 4);
    var (tcb, _) :- Uint(s5, Width(header32));
    Some(EndpointEvent(local, remote, processId, compartment, tcb))
  }

  function EndpointEventLayout(e: EndpointEvent, header32: bool, rest: seq<Byte>): seq<Byte> {
    BlockLayout(e.local, BlockLayout(e.remote, Encode(0, 4) + (Encode(e.processId, 4)
    + (Encode(e.compartment, 4) + (Encode(e.tcb, Width(header32)) + rest)))))
  }

  predicate EndpointEventFits(e: EndpointEvent, header32: bool) {
    && |e.local| < Pow256(4) && |e.remote| < Pow256(4) && e.processId < Pow256(4) && e.compartment < Pow256(4)
    && e.tcb < Pow256(Width(header32))
  }

  datatype IcmpEvent = IcmpEvent(transport: nat, direction: nat, icmpType: nat, icmpCode: nat, compartment: nat,
                                 source: seq<Byte>, destination: seq<Byte>)

  function IcmpEventOf(s: seq<Byte>): Option<IcmpEvent> {
    var (transport, s1) :- Uint(s, 4);
    var (direction, s2) :- Uint(s1, 4);
    var (icmpType, s3) :- Uint(s2, 4);
    var (icmpCode, s4) :- Uint(s3, 4);
    var (compartment, s5) :- Uint(s4, 4);
    var (source, s6) :- Block(s5);
    var (destination, _) :- Block(s6);
    Some(IcmpEvent(transport, direction, icmpType, icmpCode, compartment, source, destination))
  }

  function IcmpEventLayout(e: IcmpEvent, rest: seq<Byte>): seq<Byte> {
    Encode(e.transport, 4) + (Encode(e.direction, 4) + (Encode(e.icmpType, 4) + (Encode(e.icmpCode, 4)
    + (Encode(e.compartment, 4) + BlockLayout(e.source, BlockLayout(e.destination, rest))))))
  }

  predicate IcmpEventFits(e: IcmpEvent) {
    && e.transport < Pow256(4) && e.direction < Pow256(4) && e.icmpType < Pow256(4) && e.icmpCode < Pow256(4)
    && e.compartment < Pow256(4) && |e.source| < Pow256(4) && |e.destination| < Pow256(4)
  }

  // ---- parsing inverts encoding, whatever follows ----

  lemma TcpRequestInverts(r: TcpRequest, header32: bool, rest: seq<Byte>)
    requires TcpRequestFits(r, header32)
    ensures TcpRequestOf(TcpRequestLayout(r, header32, rest), header32) == Some(r)
  {
    var s2 := BlockLayout(r.remote, rest);
    UintInverts(r.tcb, Width(header32), BlockLayout(r.local, s2));
    BlockInverts(r.local, s2);
    BlockInverts(r.remote, rest);
  }

  lemma EndpointEventInverts(e: EndpointEvent, header32: bool, rest: seq<Byte>)
    requires EndpointEventFits(e, header32)
    ensures EndpointEventOf(EndpointEventLayout(e, header32, rest), header32) == Some(e)
  {
    var s5 := Encode(e.tcb, Width(header32)) + rest;
    var s4 := Encode(e.compartment, 4) + s5;
    var s3 := Encode(e.processId, 4) + s4;
    var s2 := Encode(0, 4) + s3;
    BlockInverts(e.local, BlockLayout(e.remote, s2));
    BlockInverts(e.remote, s2);
    UintInverts(0, 4, s3);
    UintInverts(e.processId, 4, s4);
    UintInverts(e.compartment, 4, s5);
    UintInverts(e.tcb, Width(header32), rest);
  }

  lemma IcmpEventInverts(e: IcmpEvent, rest: seq<Byte>)
    requires IcmpEventFits(e)
    ensures IcmpEventOf(IcmpEventLayout(e, rest)) == Some(e)
  {
    var s6 := BlockLayout(e.destination, rest);
    var s5 := BlockLayout(e.source, s6);
    var s4 := Encode(e.compartment, 4) + s5;
    var s3 := Encode(e.icmpCode, 4) + s4;
    var s2 := Encode(e.icmpType, 4) + s3;
    UintInverts(e.transport, 4, Encode(e.direction, 4) + s2);
    UintInverts(e.direction, 4, s2);
    UintInverts(e.icmpType, 4, s3);
    UintInverts(e.icmpCode, 4, s4);
    UintInverts(e.compartment, 4, s5);
    BlockInverts(e.source, s6);
    BlockInverts(e.destination, rest);
  }

  // ---- and only encodings are parsed ----

  lemma TcpRequestIs(s: seq<Byte>, header32: bool) returns (rest: seq<Byte>)
    requires TcpRequestOf(s, header32).Some?
    ensures var r := TcpRequestOf(s, header32).value;
            TcpRequestFits(r, header32) && s == TcpRequestLayout(r, header32, rest)
  {
    UintIs(s, Width(header32));
    var (tcb, s1) := Uint(s, Width(header32)).value;
    BlockIs(s1);
    var (local, s2) := Block(s1).value;
    BlockIs(s2);
    var (remote, s3) := Block(s2).value;
    rest := s3;
  }

  lemma EndpointEventIs(s: seq<Byte>, header32: bool) returns (rest: seq<Byte>)
    requires EndpointEventOf(s, header32).Some?
    ensures var e := EndpointEventOf(s, header32).value;
            EndpointEventFits(e, header32) && s == EndpointEventLayout(e, header32, rest)
  {
    BlockIs(s);
    var (local, s1) := Block(s).value;
    BlockIs(s1);
    var (remote, s2) := Block(s1).value;
    UintIs(s2, 4);
    var (status, s3) := Uint(s2, 4).value;
    UintIs(s3, 4);
    var (processId, s4) := Uint(s3, 4).value;
    UintIs(s4, 4);
    var (compartment, s5) := Uint(s4, 4).value;
    UintIs(s5, Width(header32));
    var (tcb, s6) := Uint(s5, Width(header32)).value;
    rest := s6;
  }

  lemma IcmpEventIs(s: seq<Byte>) returns (rest: seq<Byte>)
    requires IcmpEventOf(s).Some?
    ensures var e := IcmpEventOf(s).value; IcmpEventFits(e) && s == IcmpEventLayout(e, rest)
  {
    UintIs(s, 4);
    var (transport, s1) := Uint(s, 4).value;
    UintIs(s1, 4);
    var (direction, s2) := Uint(s1, 4).value;
    UintIs(s2, 4);
    var (icmpType, s3) := Uint(s2, 4).value;
    UintIs(s3, 4);
    var (icmpCode, s4) := Uint(s3, 4).value;
    UintIs(s4, 4);
    var (compartment, s5) := Uint(s4, 4).value;
    BlockIs(s5);
    var (source, s6) := Block(s5).value;
    BlockIs(s6);
    var (destination, s7) := Block(s6).value;
    rest := s7;
  }

  // ---- the parsers ----

  method ParsePointer(payload: seq<Byte>, header32: bool) returns (tcb: nat, ok: bool)
    ensures ok <==> Uint(payload, Width(header32)).Some?
    ensures ok ==> tcb == Uint(payload, Width(header32)).value.0
  {
    var reader := new EtwReader(payload);
    tcb, ok := reader.Pointer(header32);
  }

  method ParseTcpRequest(payload: seq<Byte>, header32: bool) returns (r: Option<TcpRequest>)
    ensures r == TcpRequestOf(payload, header32)
  {
    var reader := new EtwReader(payload);
    var tcb, ok := reader.Pointer(header32);
    if !ok {
      return None;
    }
    var local, remote;
    local, ok := reader.ReadBlock();
    if !ok {
      return None;
    }
    remote, ok := reader.ReadBlock();
    if !ok {
      return None;
    }
    r := Some(TcpRequest(tcb, local, remote));
  }

  method ParseEndpointEvent(payload: seq<Byte>, header32: bool) returns (r: Option<EndpointEvent>)
    ensures r == EndpointEventOf(payload, header32)
  {
    var reader := new EtwReader(payload);
    var local, ok := reader.ReadBlock();
    if !ok {
      return None;
    }
    var remote, status, processId, compartment, tcb;
    remote, ok := reader.ReadBlock();
    if !ok {
      return None;
    }
    status, ok := reader.U32();
    if !ok || status != 0 {
      return None;
    }
    processId, ok := reader.U32();
    if !ok {
      return None;
    }
    compartment, ok := reader.U32();
    if !ok {
      return None;
    }
    tcb, ok := reader.Pointer(header32);
    if !ok {
      return None;
    }
    r := Some(EndpointEvent(local, remote, processId, compartment, tcb));
  }

  method ParseIcmpEvent(payload: seq<Byte>) returns (r: Option<IcmpEvent>)
    ensures r == IcmpEventOf(payload)
  {
    var reader := new EtwReader(payload);
    var transport, ok := reader.U32();
    if !ok {
      return None;
    }
    var direction, icmpType, icmpCode, compartment, source, destination;
    direction, ok := reader.U32();
    if !ok {
      return None;
    }
    icmpType, ok := reader.U32();
    if !ok {
      return None;
    }
    icmpCode, ok := reader.U32();
    if !ok {
      return None;
    }
    compartment, ok := reader.U32();
    if !ok {
      return None;
    }
    source, ok := reader.ReadBlock();
    if !ok {
      return None;
    }
    destination, ok := reader.ReadBlock();
    if !ok {
      return None;
    }
    r := Some(IcmpEvent(transport, direction, icmpType, icmpCode, compartment, source, destination));
  }

  // ---- addresses ----

  function Dotted(b: seq<Byte>): string
    requires |b| == 4
  {
    Dec(b[0]) + "." + Dec(b[1]) + "." + Dec(b[2]) + "." + Dec(b[3])
  }

  function BigEndian16(b: seq<Byte>): nat
    requires |b| == 2
  {
    256 * (b[0] as int) + b[1]
  }

  /** `etwSocketAddress`; `ip6` prints the sixteen bytes of an IPv6 address. */
  function SocketAddress(ip6: seq<Byte> -> string, data: seq<Byte>): (string, nat) {
    if |data| == 4 then (Dotted(data), 0)
    else if |data| < 8 then ("", 0)
    else
      var family, port := Le(data[..2]), BigEndian16(data[2..4]);
      if family == 2 then (Dotted(data[4..8]), port)
      else if family == 10 || family == 23 then
        if |data| < 24 then ("", 0) else (ip6(data[8..24]), port)
      else if |data| == 16 then (ip6(data), 0)
      else ("", 0)
  }

  function SockaddrIn(port: nat, address: seq<Byte>): seq<Byte>
    requires port < 65536 && |address| == 4
  {
    [2, 0, port / 256, port % 256] + address
  }

  /** The family of IPv6 is 23 on Windows and 10 on Linux. */
  function SockaddrIn6(family: nat, port: nat, flow: seq<Byte>, address: seq<Byte>, scope: seq<Byte>): seq<Byte>
    requires (family == 10 || family == 23) && port < 65536 && |flow| == 4 && |address| == 16
  {
    [family, 0, port / 256, port % 256] + flow + address + scope
  }

  /** Socket addresses give back their address and port, with whatever padding follows. */
  lemma SocketAddressesDecode(ip6: seq<Byte> -> string, family: nat, port: nat, four: seq<Byte>, sixteen: seq<Byte>, flow: seq<Byte>, rest: seq<Byte>)
    requires (family == 10 || family == 23) && port < 65536 && |four| == 4 && |sixteen| == 16 && |flow| == 4
    ensures SocketAddress(ip6, SockaddrIn(port, four) + rest) == (Dotted(four), port)
    ensures SocketAddress(ip6, SockaddrIn6(family, port, flow, sixteen, rest)) == (ip6(sixteen), port)
  {
    var a, b := SockaddrIn(port, four) + rest, SockaddrIn6(family, port, flow, sixteen, rest);
    assert a[..2] == [2, 0] && b[..2] == [family, 0];
    TwoBytes(2, 0);
    TwoBytes(family, 0);
    assert a[4..8] == four && b[8..24] == sixteen;
    assert a[2..4] == [port / 256, port % 256] && b[2..4] == [port / 256, port % 256];
  }

  /** Bare addresses of either family are taken as they are, without a port; what is neither is no address. */
  lemma BareAddresses(ip6: seq<Byte> -> string, b: seq<Byte>)
    ensures |b| == 4 ==> SocketAddress(ip6, b) == (Dotted(b), 0)
    ensures |b| == 16 && Le(b[..2]) !in {2, 10, 23} ==> SocketAddress(ip6, b) == (ip6(b), 0)
    ensures |b| < 8 && |b| != 4 ==> SocketAddress(ip6, b) == ("", 0)
    ensures |b| >= 8 && |b| != 16 && Le(b[..2]) !in {2, 10, 23} ==> SocketAddress(ip6, b) == ("", 0)
    ensures 8 <= |b| < 24 && Le(b[..2]) in {10, 23} ==> SocketAddress(ip6, b) == ("", 0)
  {
  }

  lemma TwoBytes(low: Byte, high: Byte)
    ensures Le([low, high]) == low + 256 * high
  {
    assert [low, high][1..] == [high] && [high][1..] == [];
    assert Le([high]) == high + 256 * Le([]);
  }
}
