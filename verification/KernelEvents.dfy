/** The latency event as the kernel lays it out, 40 bytes little-endian with three bytes of
    padding, and its decoding in user space. */
module KernelEvents {
  import opened Lexical

  datatype RawEvent = RawEvent(saddr: bv32, daddr: bv32, sport: bv16, dport: bv16, proto: bv8,
                               rttNs: bv64, ingressNs: bv64, egressNs: bv64)

  /** What user space publishes: addresses in dotted decimal. */
  datatype LatencyEvent = LatencyEvent(srcIp: string, dstIp: string, srcPort: bv16, dstPort: bv16, proto: bv8,
                                       rttNs: bv64, ingressNs: bv64, egressNs: bv64)

  // ---------------------------------------------------------------- little-endian integers

  function Le16(b: seq<bv8>): bv16
    requires |b| == 2
  {
    b[0] as bv16 | (b[1] as bv16 << 8)
  }

  function Le32(b: seq<bv8>): bv32
    requires |b| == 4
  {
    b[0] as bv32 | (b[1] as bv32 << 8) | (b[2] as bv32 << 16) | (b[3] as bv32 << 24)
  }

  function Le64(b: seq<bv8>): bv64
    requires |b| == 8
  {
    Le32(b[..4]) as bv64 | (Le32(b[4..]) as bv64 << 32)
  }

  function Bytes16(x: bv16): (b: seq<bv8>)
    ensures |b| == 2
  {
    [(x & 0xff) as bv8, ((x >> 8) & 0xff) as bv8]
  }

  function Bytes32(x: bv32): (b: seq<bv8>)
    ensures |b| == 4
  {
    [(x & 0xff) as bv8, ((x >> 8) & 0xff) as bv8, ((x >> 16) & 0xff) as bv8, ((x >> 24) & 0xff) as bv8]
  }

  function Bytes64(x: bv64): (b: seq<bv8>)
    ensures |b| == 8
  {
    Bytes32((x & 0xffff_ffff) as bv32) + Bytes32(((x >> 32) & 0xffff_ffff) as bv32)
  }

  lemma RoundTrip16(x: bv16, b: seq<bv8>)
    requires |b| == 2
    ensures Le16(Bytes16(x)) == x
    ensures Bytes16(Le16(b)) == b
  {
  }

  lemma RoundTrip32(x: bv32, b: seq<bv8>)
    requires |b| == 4
    ensures Le32(Bytes32(x)) == x
    ensures Bytes32(Le32(b)) == b
  {
  }

  lemma RoundTrip64(x: bv64, b: seq<bv8>)
    requires |b| == 8
    ensures Le64(Bytes64(x)) == x
    ensures Bytes64(Le64(b)) == b
  {
    var lo, hi := (x & 0xffff_ffff) as bv32, ((x >> 32) & 0xffff_ffff) as bv32;
    RoundTrip32(lo, b[..4]);
    RoundTrip32(hi, b[4..]);
    assert Bytes64(x)[..4] == Bytes32(lo) && Bytes64(x)[4..] == Bytes32(hi);
    var l, h := Le32(b[..4]), Le32(b[4..]);
    assert ((l as bv64 | (h as bv64 << 32)) & 0xffff_ffff) as bv32 == l;
    assert (((l as bv64 | (h as bv64 << 32)) >> 32) & 0xffff_ffff) as bv32 == h;
    assert b == b[..4] + b[4..];
  }

  // ---------------------------------------------------------------- addresses

  function Dotted(a: string, b: string, c: string, d: string): string {
    a + ['.'] + (b + ['.'] + (c + ['.'] + d))
  }

  /** The i-th byte of an address, as a decimal. */
  function Octet(n: bv32, i: nat): string
    requires i < 4
  {
    Decimal(Bytes32(n)[i] as nat)
  }

  /** Dotted decimal of an address kept in network byte order. */
  function ToIp(n: bv32): string { Dotted(Octet(n, 0), Octet(n, 1), Octet(n, 2), Octet(n, 3)) }

  lemma IpParts(n: bv32)
    ensures Split(ToIp(n), '.') == [Octet(n, 0), Octet(n, 1), Octet(n, 2), Octet(n, 3)]
  {
    NoDots(Bytes32(n)[0] as nat);
    NoDots(Bytes32(n)[1] as nat);
    NoDots(Bytes32(n)[2] as nat);
    NoDots(Bytes32(n)[3] as nat);
    SplitDotted(Octet(n, 0), Octet(n, 1), Octet(n, 2), Octet(n, 3));
  }

  lemma SplitOne(a: string, rest: string, parts: seq<string>)
    requires Free(a, '.') && Split(rest, '.') == parts
    ensures Split(a + ['.'] + rest, '.') == [a] + parts
  {
    SplitAfter(a, '.', rest);
  }

  lemma SplitTwo(c: string, d: string)
    requires Free(c, '.') && Free(d, '.')
    ensures Split(c + ['.'] + d, '.') == [c, d]
  {
    SplitLast(d, '.');
    SplitOne(c, d, [d]);
    assert [c] + [d] == [c, d];
  }

  lemma SplitThree(b: string, c: string, d: string, rest: string)
    requires Free(b, '.') && Split(rest, '.') == [c, d]
    ensures Split(b + ['.'] + rest, '.') == [b, c, d]
  {
    SplitOne(b, rest, [c, d]);
    assert [b] + [c, d] == [b, c, d];
  }

  lemma SplitFour(a: string, b: string, c: string, d: string, rest: string)
    requires Free(a, '.') && Split(rest, '.') == [b, c, d]
    ensures Split(a + ['.'] + rest, '.') == [a, b, c, d]
  {
    SplitOne(a, rest, [b, c, d]);
    assert [a] + [b, c, d] == [a, b, c, d];
  }

  lemma SplitDotted(a: string, b: string, c: string, d: string)
    requires Free(a, '.') && Free(b, '.') && Free(c, '.') && Free(d, '.')
    ensures Split(Dotted(a, b, c, d), '.') == [a, b, c, d]
  {
    SplitTwo(c, d);
    SplitThree(b, c, d, c + ['.'] + d);
    SplitFour(a, b, c, d, b + ['.'] + (c + ['.'] + d));
  }

  lemma NoDots(n: nat)
    ensures Free(Decimal(n), '.')
  {
    DecimalRoundTrip(n);
    assert forall i :: 0 <= i < |Decimal(n)| ==> IsDigit(Decimal(n)[i]);
  }

  lemma SplitLast(s: string, c: char)
    requires Free(s, c)
    ensures Split(s, c) == [s]
  {
  }

  lemma SameByte(x: bv8, y: bv8)
    requires Decimal(x as nat) == Decimal(y as nat)
    ensures x == y
  {
    DecimalRoundTrip(x as nat);
    DecimalRoundTrip(y as nat);
    assert (x as nat) as bv8 == x && (y as nat) as bv8 == y;
  }

  lemma SameOctet(m: bv32, n: bv32, i: nat)
    requires i < 4 && Octet(m, i) == Octet(n, i)
    ensures Bytes32(m)[i] == Bytes32(n)[i]
  {
    SameByte(Bytes32(m)[i], Bytes32(n)[i]);
  }

  lemma SameFour(a: string, b: string, c: string, d: string, e: string, f: string, g: string, h: string)
    requires [a, b, c, d] == [e, f, g, h]
    ensures a == e && b == f && c == g && d == h
  {
    assert [a, b, c, d][0] == a && [a, b, c, d][1] == b && [a, b, c, d][2] == c && [a, b, c, d][3] == d;
  }

  lemma SameParts(m: bv32, n: bv32)
    requires ToIp(m) == ToIp(n)
    ensures Octet(m, 0) == Octet(n, 0) && Octet(m, 1) == Octet(n, 1)
    ensures Octet(m, 2) == Octet(n, 2) && Octet(m, 3) == Octet(n, 3)
  {
    IpParts(m);
    IpParts(n);
    SameFour(Octet(m, 0), Octet(m, 1), Octet(m, 2), Octet(m, 3), Octet(n, 0), Octet(n, 1), Octet(n, 2), Octet(n, 3));
  }

  lemma SameBytes(m: bv32, n: bv32)
    requires forall i :: 0 <= i < 4 ==> Bytes32(m)[i] == Bytes32(n)[i]
    ensures m == n
  {
    assert Bytes32(m) == Bytes32(n);
    RoundTrip32(m, Bytes32(m));
    RoundTrip32(n, Bytes32(n));
  }

  /** The printed address determines the address. */
  lemma ToIpInjective(m: bv32, n: bv32)
    requires ToIp(m) == ToIp(n)
    ensures m == n
  {
    SameParts(m, n);
    forall i | 0 <= i < 4 ensures Bytes32(m)[i] == Bytes32(n)[i] { SameOctet(m, n, i); }
    SameBytes(m, n);
  }

  // ---------------------------------------------------------------- records

  function LayoutFlow(e: RawEvent, pad: seq<bv8>): (raw: seq<bv8>)
    requires |pad| == 3
    ensures |raw| == 16
    ensures raw[0..4] == Bytes32(e.saddr) && raw[4..8] == Bytes32(e.daddr)
    ensures raw[8..10] == Bytes16(e.sport) && raw[10..12] == Bytes16(e.dport) && raw[12] == e.proto
  {
    Bytes32(e.saddr) + Bytes32(e.daddr) + Bytes16(e.sport) + Bytes16(e.dport) + [e.proto] + pad
  }

  function LayoutTimes(e: RawEvent): (raw: seq<bv8>)
    ensures |raw| == 24
    ensures raw[0..8] == Bytes64(e.rttNs) && raw[8..16] == Bytes64(e.ingressNs) && raw[16..24] == Bytes64(e.egressNs)
  {
    Bytes64(e.rttNs) + Bytes64(e.ingressNs) + Bytes64(e.egressNs)
  }

  /** The record of an event; the padding bytes may hold anything. */
  function Layout(e: RawEvent, pad: seq<bv8>): (raw: seq<bv8>)
    requires |pad| == 3
    ensures |raw| == 40
  {
    LayoutFlow(e, pad) + LayoutTimes(e)
  }

  function Decode(raw: seq<bv8>): RawEvent
    requires |raw| >= 40
  {
    RawEvent(Le32(raw[0..4]), Le32(raw[4..8]), Le16(raw[8..10]), Le16(raw[10..12]), raw[12],
             Le64(raw[16..24]), Le64(raw[24..32]), Le64(raw[32..40]))
  }

  function Shown(e: RawEvent): LatencyEvent {
    LatencyEvent(ToIp(e.saddr), ToIp(e.daddr), e.sport, e.dport, e.proto, e.rttNs, e.ingressNs, e.egressNs)
  }

  datatype Parsed = Ok(event: LatencyEvent) | ShortRecord(length: nat) | Panic

  /** Parsing a record. The guard asks for 32 bytes while 40 are read, and a slice expression
      is bounded by the capacity of the buffer: `spare` are the bytes of the buffer behind the
      record. */
  function ParseEvent(raw: seq<bv8>, spare: seq<bv8>): Parsed {
    if |raw| < 32 then ShortRecord(|raw|)
    else if |raw| + |spare| < 40 then Panic
    else Ok(Shown(Decode(raw + spare)))
  }

  /** Decoding undoes the layout, whatever the padding, and laying out undoes decoding. */
  lemma DecodeLayout(e: RawEvent, pad: seq<bv8>)
    requires |pad| == 3
    ensures Decode(Layout(e, pad)) == e
  {
    LayoutPieces(e, pad);
    var raw := Layout(e, pad);
    RoundTrip32(e.saddr, raw[0..4]);
    RoundTrip32(e.daddr, raw[4..8]);
    RoundTrip16(e.sport, raw[8..10]);
    RoundTrip16(e.dport, raw[10..12]);
    RoundTrip64(e.rttNs, raw[16..24]);
    RoundTrip64(e.ingressNs, raw[24..32]);
    RoundTrip64(e.egressNs, raw[32..40]);
  }

  lemma LayoutPieces(e: RawEvent, pad: seq<bv8>)
    requires |pad| == 3
    ensures var raw := Layout(e, pad);
            && raw[0..4] == Bytes32(e.saddr) && raw[4..8] == Bytes32(e.daddr)
            && raw[8..10] == Bytes16(e.sport) && raw[10..12] == Bytes16(e.dport) && raw[12] == e.proto
            && raw[16..24] == Bytes64(e.rttNs) && raw[24..32] == Bytes64(e.ingressNs)
            && raw[32..40] == Bytes64(e.egressNs)
  {
    FrontPieces(LayoutFlow(e, pad), LayoutTimes(e));
    BackPieces(LayoutFlow(e, pad), LayoutTimes(e));
  }

  lemma FrontPieces(flow: seq<bv8>, times: seq<bv8>)
    requires |flow| == 16
    ensures var raw := flow + times;
            && raw[0..4] == flow[0..4] && raw[4..8] == flow[4..8] && raw[8..10] == flow[8..10]
            && raw[10..12] == flow[10..12] && raw[12] == flow[12]
  {
  }

  lemma BackPieces(flow: seq<bv8>, times: seq<bv8>)
    requires |flow| == 16 && |times| == 24
    ensures var raw := flow + times;
            raw[16..24] == times[0..8] && raw[24..32] == times[8..16] && raw[32..40] == times[16..24]
  {
  }

  lemma LayoutDecode(raw: seq<bv8>)
    requires |raw| == 40
    ensures Layout(Decode(raw), raw[13..16]) == raw
  {
    RoundTrip32(0, raw[0..4]);
    RoundTrip32(0, raw[4..8]);
    RoundTrip16(0, raw[8..10]);
    RoundTrip16(0, raw[10..12]);
    RoundTrip64(0, raw[16..24]);
    RoundTrip64(0, raw[24..32]);
    RoundTrip64(0, raw[32..40]);
    JoinPieces(raw);
  }

  lemma Join(raw: seq<bv8>, i: nat, j: nat)
    requires i <= j <= |raw|
    ensures raw[0..i] + raw[i..j] == raw[0..j]
  {
  }

  lemma JoinPieces(raw: seq<bv8>)
    requires |raw| == 40
    ensures (raw[0..4] + raw[4..8] + raw[8..10] + raw[10..12] + [raw[12]] + raw[13..16])
            + (raw[16..24] + raw[24..32] + raw[32..40]) == raw
  {
    Join(raw, 4, 8);
    Join(raw, 8, 10);
    Join(raw, 10, 12);
    Join(raw, 12, 13);
    Join(raw, 13, 16);
    assert raw[12..13] == [raw[12]];
    assert raw[16..24] + raw[24..32] == raw[16..32] && raw[16..32] + raw[32..40] == raw[16..40];
    assert raw[0..16] + raw[16..40] == raw;
  }

  /** Every event comes out of the parser as it went into the kernel's record, and no two
      events come out alike. */
  lemma EventRoundTrip(e: RawEvent, f: RawEvent, pad: seq<bv8>, spare: seq<bv8>)
    requires |pad| == 3
    ensures ParseEvent(Layout(e, pad), spare) == Ok(Shown(e))
    ensures Shown(e) == Shown(f) ==> e == f
  {
    DecodeLayout(e, pad);
    var raw := Layout(e, pad);
    DecodeIgnoresSpare(raw, spare);
    if Shown(e) == Shown(f) {
      ToIpInjective(e.saddr, f.saddr);
      ToIpInjective(e.daddr, f.daddr);
    }
  }

  lemma DecodeIgnoresSpare(raw: seq<bv8>, spare: seq<bv8>)
    requires |raw| >= 40
    ensures Decode(raw + spare) == Decode(raw)
  {
    var all := raw + spare;
    assert all[0..4] == raw[0..4] && all[4..8] == raw[4..8] && all[8..10] == raw[8..10] && all[10..12] == raw[10..12];
    assert all[16..24] == raw[16..24] && all[24..32] == raw[24..32] && all[32..40] == raw[32..40];
  }

  /** The parser answers from the record alone exactly when the record is shorter than 32
      bytes or at least 40; in between it panics or reads past the record. */
  lemma RecordDecidesIff(raw: seq<bv8>)
    ensures (forall s, t :: ParseEvent(raw, s) == ParseEvent(raw, t)) <==> |raw| < 32 || |raw| >= 40
  {
    if |raw| >= 40 {
      forall s, t ensures ParseEvent(raw, s) == ParseEvent(raw, t) {
        DecodeIgnoresSpare(raw, s);
        DecodeIgnoresSpare(raw, t);
      }
    } else if |raw| >= 32 {
      assert ParseEvent(raw, []) == Panic;
      var eight: seq<bv8> := [0, 0, 0, 0, 0, 0, 0, 0];
      assert ParseEvent(raw, eight).Ok?;
    }
  }

  // ---------------------------------------------------------------- the bytes of a record

  predicate LowByteFirst16(x: bv16, b: seq<bv8>) {
    |b| == 2 && x & 0xff == b[0] as bv16 && (x >> 8) & 0xff == b[1] as bv16
  }

  predicate LowByteFirst32(x: bv32, b: seq<bv8>) {
    && |b| == 4 && x & 0xff == b[0] as bv32 && (x >> 8) & 0xff == b[1] as bv32
    && (x >> 16) & 0xff == b[2] as bv32 && (x >> 24) & 0xff == b[3] as bv32
  }

  predicate LowByteFirst64(x: bv64, b: seq<bv8>) {
    && |b| == 8 && x & 0xff == b[0] as bv64 && (x >> 8) & 0xff == b[1] as bv64
    && (x >> 16) & 0xff == b[2] as bv64 && (x >> 24) & 0xff == b[3] as bv64
    && (x >> 32) & 0xff == b[4] as bv64 && (x >> 40) & 0xff == b[5] as bv64
    && (x >> 48) & 0xff == b[6] as bv64 && (x >> 56) & 0xff == b[7] as bv64
  }

  lemma LittleEndian16(b: seq<bv8>)
    requires |b| == 2
    ensures LowByteFirst16(Le16(b), b)
  {
  }

  lemma LittleEndian32(b: seq<bv8>)
    requires |b| == 4
    ensures LowByteFirst32(Le32(b), b)
  {
  }

  /** The bytes of a word made of two halves. */
  lemma Halves(lo: bv32, hi: bv32, x: bv64, b: seq<bv8>)
    requires x == lo as bv64 | (hi as bv64 << 32)
    requires |b| == 8 && LowByteFirst32(lo, b[..4]) && LowByteFirst32(hi, b[4..])
    ensures LowByteFirst64(x, b)
  {
    HalfBytes(lo, hi, x, b[0], b[1], b[2], b[3], b[4], b[5], b[6], b[7]);
  }

  lemma HalfBytes(lo: bv32, hi: bv32, x: bv64,
                  a: bv8, b: bv8, c: bv8, d: bv8, e: bv8, f: bv8, g: bv8, h: bv8)
    requires x == lo as bv64 | (hi as bv64 << 32)
    requires lo & 0xff == a as bv32 && (lo >> 8) & 0xff == b as bv32
    requires (lo >> 16) & 0xff == c as bv32 && (lo >> 24) & 0xff == d as bv32
    requires hi & 0xff == e as bv32 && (hi >> 8) & 0xff == f as bv32
    requires (hi >> 16) & 0xff == g as bv32 && (hi >> 24) & 0xff == h as bv32
    ensures x & 0xff == a as bv64 && (x >> 8) & 0xff == b as bv64
    ensures (x >> 16) & 0xff == c as bv64 && (x >> 24) & 0xff == d as bv64
    ensures (x >> 32) & 0xff == e as bv64 && (x >> 40) & 0xff == f as bv64
    ensures (x >> 48) & 0xff == g as bv64 && (x >> 56) & 0xff == h as bv64
  {
  }

  lemma Parts64(b: seq<bv8>) returns (lo: bv32, hi: bv32, x: bv64)
    requires |b| == 8
    ensures x == Le64(b) && x == lo as bv64 | (hi as bv64 << 32)
    ensures lo == Le32(b[..4]) && hi == Le32(b[4..])
  {
    lo, hi, x := Le32(b[..4]), Le32(b[4..]), Le64(b);
  }

  lemma LowBytes32(b: seq<bv8>, x: bv32)
    requires |b| == 4 && x == Le32(b)
    ensures LowByteFirst32(x, b)
  {
    LittleEndian32(b);
  }

  lemma LittleEndian64(b: seq<bv8>) returns (x: bv64)
    requires |b| == 8
    ensures x == Le64(b) && LowByteFirst64(x, b)
  {
    var lo, hi;
    lo, hi, x := Parts64(b);
    LowBytes32(b[..4], lo);
    LowBytes32(b[4..], hi);
    Halves(lo, hi, x, b);
  }

  lemma OctetIs(b: seq<bv8>, i: nat)
    requires |b| == 4 && i < 4
    ensures Octet(Le32(b), i) == Decimal(b[i] as nat)
  {
    RoundTrip32(0, b);
  }

  lemma ToIpIs(b: seq<bv8>)
    requires |b| == 4
    ensures ToIp(Le32(b)) == Decimal(b[0] as nat) + "." + (Decimal(b[1] as nat) + "."
                             + (Decimal(b[2] as nat) + "." + Decimal(b[3] as nat)))
  {
    OctetIs(b, 0);
    OctetIs(b, 1);
    OctetIs(b, 2);
    OctetIs(b, 3);
  }

  /** What is published of a record, byte by byte of the record: the two addresses in dotted
      decimal, the ports, the protocol and the three times, all with the low byte first. */
  lemma PublishedBytes(raw: seq<bv8>, spare: seq<bv8>) returns (e: LatencyEvent)
    requires |raw| >= 40
    ensures ParseEvent(raw, spare) == Ok(e)
    ensures e.srcIp == Decimal(raw[0] as nat) + "." + (Decimal(raw[1] as nat) + "."
                       + (Decimal(raw[2] as nat) + "." + Decimal(raw[3] as nat)))
    ensures e.dstIp == Decimal(raw[4] as nat) + "." + (Decimal(raw[5] as nat) + "."
                       + (Decimal(raw[6] as nat) + "." + Decimal(raw[7] as nat)))
    ensures LowByteFirst16(e.srcPort, raw[8..10]) && LowByteFirst16(e.dstPort, raw[10..12]) && e.proto == raw[12]
    ensures LowByteFirst64(e.rttNs, raw[16..24])
    ensures LowByteFirst64(e.ingressNs, raw[24..32]) && LowByteFirst64(e.egressNs, raw[32..40])
  {
    DecodeIgnoresSpare(raw, spare);
    e := Shown(Decode(raw));
    ToIpIs(raw[0..4]);
    ToIpIs(raw[4..8]);
    LittleEndian16(raw[8..10]);
    LittleEndian16(raw[10..12]);
    var rtt := LittleEndian64(raw[16..24]);
    var ingress := LittleEndian64(raw[24..32]);
    var egress := LittleEndian64(raw[32..40]);
  }

  /** What comes of a record that is too short. */
  lemma ShortRecords(raw: seq<bv8>, spare: seq<bv8>)
    ensures |raw| < 32 <==> ParseEvent(raw, spare).ShortRecord?
    ensures |raw| < 32 ==> ParseEvent(raw, spare) == ShortRecord(|raw|)
    ensures ParseEvent(raw, spare) == Panic <==> |raw| >= 32 && |raw| + |spare| < 40
  {
  }
}
