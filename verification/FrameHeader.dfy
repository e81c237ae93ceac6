// The headers of WebSocket frames.
module FrameHeader {
  import opened FrameWords

  datatype BasicHeader = BasicHeader(b0: bv8, b1: bv8)

  const PAYLOAD_SIZE_BASIC: bv64 := 125
  const PAYLOAD_SIZE_EXTENDED: bv64 := 0xFFFF
  const CODE_16BIT: bv8 := 0x7E
  const CODE_64BIT: bv8 := 0x7F
  const MAX_EXTENDED: nat := 12

  // A header as its sender describes it.
  datatype Description = Description(op: bv8, size: bv64, fin: bool, mask: bool, rsv1: bool, rsv2: bool, rsv3: bool)

  function Flag(on: bool, bit: bv8): bv8 { if on then bit else 0 }

  function SizeCode(size: bv64): bv8 {
    if size <= PAYLOAD_SIZE_BASIC then (size & 0xFF) as bv8
    else if size <= PAYLOAD_SIZE_EXTENDED then CODE_16BIT
    else CODE_64BIT
  }

  function Basic(d: Description): BasicHeader {
    BasicHeader(
      0 | Flag(d.fin, 0x80) | Flag(d.rsv1, 0x40) | Flag(d.rsv2, 0x20) | Flag(d.rsv3, 0x10) | (d.op & 0x0F),
      0 | Flag(d.mask, 0x80) | SizeCode(d.size))
  }

  method Raise(b: bv8, on: bool, bit: bv8) returns (r: bv8)
    ensures r == b | Flag(on, bit)
  {
    r := b;
    if on {
      r := r | bit;
    }
  }

  method BasicValue(size: bv64) returns (code: bv8)
    ensures code == SizeCode(size)
  {
    if size <= PAYLOAD_SIZE_BASIC {
      code := (size & 0xFF) as bv8;
    } else if size <= PAYLOAD_SIZE_EXTENDED {
      code := CODE_16BIT;
    } else {
      code := CODE_64BIT;
    }
  }

  method NewBasicHeader(op: bv8, size: bv64, fin: bool, mask: bool, rsv1: bool, rsv2: bool, rsv3: bool)
      returns (h: BasicHeader)
    ensures h == Basic(Description(op, size, fin, mask, rsv1, rsv2, rsv3))
  {
    var b0 := Raise(0, fin, 0x80);
    b0 := Raise(b0, rsv1, 0x40);
    b0 := Raise(b0, rsv2, 0x20);
    b0 := Raise(b0, rsv3, 0x10);
    var b1 := Raise(0, mask, 0x80);
    var code := BasicValue(size);
    h := BasicHeader(b0 | (op & 0x0F), b1 | code);
  }

  function GetFin(h: BasicHeader): bool { h.b0 & 0x80 == 0x80 }
  function GetRsv1(h: BasicHeader): bool { h.b0 & 0x40 == 0x40 }
  function GetRsv2(h: BasicHeader): bool { h.b0 & 0x20 == 0x20 }
  function GetRsv3(h: BasicHeader): bool { h.b0 & 0x10 == 0x10 }
  function GetOpcode(h: BasicHeader): bv8 { h.b0 & 0x0F }
  function GetMasked(h: BasicHeader): bool { h.b1 & 0x80 == 0x80 }
  function GetBasicSize(h: BasicHeader): bv8 { h.b1 & 0x7F }

  // The flags and the size code do not run into each other.
  lemma BasicRecovered(d: Description)
    ensures var h := Basic(d);
            && GetFin(h) == d.fin && GetRsv1(h) == d.rsv1 && GetRsv2(h) == d.rsv2 && GetRsv3(h) == d.rsv3
            && GetOpcode(h) == d.op & 0x0F
            && GetMasked(h) == d.mask && GetBasicSize(h) == SizeCode(d.size)
  {
    FirstByte(d.op, d.fin, d.rsv1, d.rsv2, d.rsv3);
    SecondByte(d.mask, d.size);
  }

  lemma FirstByte(op: bv8, fin: bool, rsv1: bool, rsv2: bool, rsv3: bool)
    ensures var b := 0 | Flag(fin, 0x80) | Flag(rsv1, 0x40) | Flag(rsv2, 0x20) | Flag(rsv3, 0x10) | (op & 0x0F);
            && (b & 0x80 == 0x80 <==> fin) && (b & 0x40 == 0x40 <==> rsv1) && (b & 0x20 == 0x20 <==> rsv2)
            && (b & 0x10 == 0x10 <==> rsv3) && b & 0x0F == op & 0x0F
  {}

  lemma SecondByte(mask: bool, size: bv64)
    ensures var b := 0 | Flag(mask, 0x80) | SizeCode(size);
            && (b & 0x80 == 0x80 <==> mask) && b & 0x7F == SizeCode(size)
  {}

  function GetMaskingKeyOffset(h: BasicHeader): nat {
    if GetBasicSize(h) == CODE_16BIT then 2
    else if GetBasicSize(h) == CODE_64BIT then 8
    else 0
  }

  function GetHeaderLen(h: BasicHeader): (n: nat)
    ensures 2 <= n <= 2 + MAX_EXTENDED
  {
    2 + GetMaskingKeyOffset(h) + if GetMasked(h) then 4 else 0
  }

  // ----- the extended header

  // A 64-bit value in memory.
  function Host(littleEndian: bool): Machine { Machine(8, littleEndian) }

  // Swaps the bytes of a value where the machine does not keep them in network order.
  function Htonll(littleEndian: bool, src: bv64): bv64 {
    if littleEndian then Load(Host(littleEndian), Reversed(MemBytes(Host(littleEndian), src))) else src
  }

  function Ntohs(littleEndian: bool, src: bv64): bv64 {
    if littleEndian then Shl(src & 0xFF, 1) | (Shr(src, 1) & 0xFF) else src
  }

  function Zeros(n: nat): seq<bv8> { seq(n, i => 0) }

  function SizeBytes(size: bv64): (n: nat)
    ensures n <= 8
  {
    if size <= PAYLOAD_SIZE_BASIC then 0 else if size <= PAYLOAD_SIZE_EXTENDED then 2 else 8
  }

  // The bytes of the extended header.
  function Extended(littleEndian: bool, size: bv64, key: seq<bv8>): (e: seq<bv8>)
    requires |key| == 0 || |key| == 4
    ensures |e| == MAX_EXTENDED
  {
    var n := SizeBytes(size);
    MemBytes(Host(littleEndian), Htonll(littleEndian, size))[8 - n..] + key + Zeros(MAX_EXTENDED - n - |key|)
  }

  // The constructor of the extended header; without a masking key, `key` is empty.
  method NewExtendedHeader(littleEndian: bool, size: bv64, key: seq<bv8>) returns (bytes: array<bv8>)
    requires |key| == 0 || |key| == 4
    ensures fresh(bytes) && bytes[..] == Extended(littleEndian, size, key)
  {
    bytes := new bv8[MAX_EXTENDED](i => 0);
    assert bytes[..] == Zeros(MAX_EXTENDED);
    var payloadOffset := PayloadOffset(size);
    var temp := MemBytes(Host(littleEndian), Htonll(littleEndian, size));
    Fill(bytes, temp[payloadOffset..], key);
  }

  method PayloadOffset(size: bv64) returns (offset: nat)
    ensures offset == 8 - SizeBytes(size)
  {
    offset := 0;
    if size <= PAYLOAD_SIZE_BASIC {
      offset := 8;
    } else if size <= PAYLOAD_SIZE_EXTENDED {
      offset := 6;
    }
  }

  // Copies the size, and the key behind it.
  method Fill(bytes: array<bv8>, size: seq<bv8>, key: seq<bv8>)
    requires bytes[..] == Zeros(MAX_EXTENDED) && |size| + |key| <= MAX_EXTENDED
    modifies bytes
    ensures bytes[..] == size + key + Zeros(MAX_EXTENDED - |size| - |key|)
  {
    Copy(bytes, 0, size);
    assert bytes[..] == size + Zeros(MAX_EXTENDED - |size|);
    Copy(bytes, |size|, key);
  }

  method Copy(bytes: array<bv8>, at: nat, s: seq<bv8>)
    requires at + |s| <= bytes.Length
    modifies bytes
    ensures bytes[..] == old(bytes[..at]) + s + old(bytes[at + |s|..])
  {
    forall j | 0 <= j < |s| {
      bytes[at + j] := s[j];
    }
  }

  lemma LoadReversed(m: Machine, s: seq<bv8>, j: nat)
    requires m.wordSize == |s| == 8 && j < 8
    ensures MemBytes(m, Load(m, Reversed(s)))[j] == s[7 - j]
  {
    LoadBytes(m, Reversed(s));
  }

  // Every machine writes a value with its most significant byte first.
  lemma NetworkOrder(littleEndian: bool, x: bv64, j: nat)
    requires j < 8
    ensures MemBytes(Host(littleEndian), Htonll(littleEndian, x))[j] == Byte(x, 7 - j)
  {
    if littleEndian {
      LoadReversed(Host(true), MemBytes(Host(true), x), j);
      MemBytesAt(Host(true), x, 0, 7 - j);
    } else {
      MemBytesAt(Host(false), x, 0, j);
    }
  }

  function GetExtendedSize(littleEndian: bool, e: seq<bv8>): bv64
    requires |e| == MAX_EXTENDED
  {
    Ntohs(littleEndian, Load(Host(littleEndian), e[..2]))
  }

  function GetJumboSize(littleEndian: bool, e: seq<bv8>): bv64
    requires |e| == MAX_EXTENDED
  {
    Htonll(littleEndian, Load(Host(littleEndian), e[..8]))
  }

  function GetPayloadSize(littleEndian: bool, h: BasicHeader, e: seq<bv8>): bv64
    requires |e| == MAX_EXTENDED
  {
    var val := GetBasicSize(h);
    if val as bv64 <= PAYLOAD_SIZE_BASIC then val as bv64
    else if val == CODE_16BIT then GetExtendedSize(littleEndian, e)
    else GetJumboSize(littleEndian, e)
  }

  function GetMaskingKey(h: BasicHeader, e: seq<bv8>): (key: seq<bv8>)
    requires |e| == MAX_EXTENDED
    ensures |key| == 4
  {
    if !GetMasked(h) then [0, 0, 0, 0] else e[GetMaskingKeyOffset(h)..][..4]
  }

  function PrepareHeader(h: BasicHeader, e: seq<bv8>): (s: seq<bv8>)
    requires |e| == MAX_EXTENDED
    ensures |s| == GetHeaderLen(h)
  {
    [h.b0, h.b1] + e[..GetHeaderLen(h) - 2]
  }

  lemma SameBytes(x: bv64, y: bv64)
    requires Byte(x, 0) == Byte(y, 0) && Byte(x, 1) == Byte(y, 1) && Byte(x, 2) == Byte(y, 2)
    requires Byte(x, 3) == Byte(y, 3) && Byte(x, 4) == Byte(y, 4) && Byte(x, 5) == Byte(y, 5)
    requires Byte(x, 6) == Byte(y, 6) && Byte(x, 7) == Byte(y, 7)
    ensures x == y
  {}

  lemma JumboByte(littleEndian: bool, e: seq<bv8>, i: nat)
    requires |e| == MAX_EXTENDED && i < 8
    ensures Byte(GetJumboSize(littleEndian, e), i) == e[7 - i]
  {
    var m, s := Host(littleEndian), e[..8];
    LoadedByte(m, s, i);
    if littleEndian {
      LoadBytes(m, s);
      LoadedByte(m, Reversed(s), i);
    }
  }

  lemma ExtendedByte(littleEndian: bool, e: seq<bv8>, i: nat)
    requires |e| == MAX_EXTENDED && i < 8
    ensures Byte(GetExtendedSize(littleEndian, e), i) == if i < 2 then e[1 - i] else 0
  {
    var m, s := Host(littleEndian), e[..2];
    if littleEndian {
      FromBytesByte(s, if i < 2 then 1 - i else i);
      SwappedByte(Load(m, s), i);
    } else {
      FromBytesByte(Reversed(s), i);
    }
  }

  lemma SwappedByte(x: bv64, i: nat)
    requires i < 8
    ensures Byte(Shl(x & 0xFF, 1) | (Shr(x, 1) & 0xFF), i) == if i < 2 then Byte(x, 1 - i) else 0
  {
    match i { case 0 => case 1 => case 2 => case 3 => case 4 => case 5 => case 6 => case _ => }
  }

  // ----- what the reader recovers

  // The bytes at the start of `wire` that the reader of a header takes.
  predicate Read(wire: seq<bv8>, h: BasicHeader, e: seq<bv8>) {
    && |e| == MAX_EXTENDED && |wire| >= 2
    && h == BasicHeader(wire[0], wire[1])
    && GetHeaderLen(h) <= |wire|
    && e[..GetHeaderLen(h) - 2] == wire[2..GetHeaderLen(h)]
  }

  function Sent(littleEndian: bool, d: Description, key: seq<bv8>): (s: seq<bv8>)
    requires |key| == if d.mask then 4 else 0
  {
    PrepareHeader(Basic(d), Extended(littleEndian, d.size, key))
  }

  lemma SentLength(d: Description)
    ensures GetMaskingKeyOffset(Basic(d)) == SizeBytes(d.size)
    ensures GetHeaderLen(Basic(d)) == 2 + SizeBytes(d.size) + if d.mask then 4 else 0
  {
    BasicRecovered(d);
    CodeRange(d.size);
  }

  lemma SentByte(littleEndian: bool, size: bv64, n: nat, j: nat)
    requires j < n <= 8
    ensures MemBytes(Host(littleEndian), Htonll(littleEndian, size))[8 - n + j] == Byte(size, n - 1 - j)
  {
    NetworkOrder(littleEndian, size, 8 - n + j);
  }

  lemma SentBytes(littleEndian: bool, size: bv64, key: seq<bv8>)
    requires |key| == 0 || |key| == 4
    ensures var n, e := SizeBytes(size), Extended(littleEndian, size, key);
            && e[n..][..|key|] == key
            && forall j | 0 <= j < n :: e[j] == Byte(size, n - 1 - j)
  {
    var n, e := SizeBytes(size), Extended(littleEndian, size, key);
    Laid(MemBytes(Host(littleEndian), Htonll(littleEndian, size)), n, key, e);
    forall j | 0 <= j < n
      ensures e[j] == Byte(size, n - 1 - j)
    {
      SentByte(littleEndian, size, n, j);
    }
  }

  lemma Laid(temp: seq<bv8>, n: nat, key: seq<bv8>, e: seq<bv8>)
    requires |temp| == 8 && n <= 8 && |key| <= 4 && e == temp[8 - n..] + key + Zeros(MAX_EXTENDED - n - |key|)
    ensures e[n..][..|key|] == key
    ensures forall j | 0 <= j < n :: e[j] == temp[8 - n + j]
  {}

  lemma CodeRange(size: bv64)
    ensures SizeCode(size) == CODE_16BIT <==> PAYLOAD_SIZE_BASIC < size <= PAYLOAD_SIZE_EXTENDED
    ensures SizeCode(size) == CODE_64BIT <==> PAYLOAD_SIZE_EXTENDED < size
    ensures SizeCode(size) as bv64 <= PAYLOAD_SIZE_BASIC <==> size <= PAYLOAD_SIZE_BASIC
    ensures size <= PAYLOAD_SIZE_BASIC ==> SizeCode(size) as bv64 == size
  {}

  lemma HighZero(size: bv64, i: nat)
    requires size <= PAYLOAD_SIZE_EXTENDED && 2 <= i < 8
    ensures Byte(size, i) == 0
  {}

  // The size that the reader finds, from the bytes that the writer put down.
  lemma SizeRecovered(reader: bool, d: Description, e: seq<bv8>)
    requires |e| == MAX_EXTENDED
    requires var n := SizeBytes(d.size); forall j | 0 <= j < n :: e[j] == Byte(d.size, n - 1 - j)
    ensures GetPayloadSize(reader, Basic(d), e) == d.size
  {
    BasicRecovered(d);
    CodeRange(d.size);
    if SizeBytes(d.size) == 2 {
      ExtendedIs(reader, e, d.size);
    } else if SizeBytes(d.size) == 8 {
      JumboIs(reader, e, d.size);
    }
  }

  lemma ExtendedIs(reader: bool, e: seq<bv8>, size: bv64)
    requires |e| == MAX_EXTENDED && size <= PAYLOAD_SIZE_EXTENDED && e[0] == Byte(size, 1) && e[1] == Byte(size, 0)
    ensures GetExtendedSize(reader, e) == size
  {
    var found := GetExtendedSize(reader, e);
    forall i | 0 <= i < 8
      ensures Byte(found, i) == Byte(size, i)
    {
      ExtendedByte(reader, e, i);
      if i >= 2 {
        HighZero(size, i);
      }
    }
    SameBytes(found, size);
  }

  lemma JumboIs(reader: bool, e: seq<bv8>, size: bv64)
    requires |e| == MAX_EXTENDED && forall j | 0 <= j < 8 :: e[j] == Byte(size, 7 - j)
    ensures GetJumboSize(reader, e) == size
  {
    var found := GetJumboSize(reader, e);
    forall i | 0 <= i < 8
      ensures Byte(found, i) == Byte(size, i)
    {
      JumboByte(reader, e, i);
    }
    SameBytes(found, size);
  }

  // The reader has the bytes that were written, as far as the header goes.
  lemma ReadPrepared(g: BasicHeader, sent: seq<bv8>, rest: seq<bv8>, h: BasicHeader, e: seq<bv8>)
    requires |sent| == MAX_EXTENDED && Read(PrepareHeader(g, sent) + rest, h, e)
    ensures h == g
    ensures forall j | 0 <= j < GetHeaderLen(g) - 2 :: e[j] == sent[j]
  {
    var wire, n := PrepareHeader(g, sent) + rest, GetHeaderLen(g);
    assert wire[0] == g.b0 && wire[1] == g.b1;
    forall j | 0 <= j < n - 2
      ensures e[j] == sent[j]
    {
      assert e[..n - 2][j] == wire[2..n][j] == wire[2 + j];
    }
  }

  lemma KeyRecovered(d: Description, key: seq<bv8>, sent: seq<bv8>, e: seq<bv8>)
    requires |key| == (if d.mask then 4 else 0) && |sent| == |e| == MAX_EXTENDED
    requires sent[SizeBytes(d.size)..][..|key|] == key
    requires forall j | 0 <= j < SizeBytes(d.size) + |key| :: e[j] == sent[j]
    ensures GetMaskingKey(Basic(d), e) == if d.mask then key else [0, 0, 0, 0]
  {
    var n := SizeBytes(d.size);
    BasicRecovered(d);
    SentLength(d);
    assert forall j | 0 <= j < |key| :: e[n..][..|key|][j] == sent[n..][..|key|][j];
    assert e[n..][..|key|] == key;
  }

  // Whatever the byte orders of the two machines, the reader finds what the writer put in, for
  // every size that has 64 bits.
  lemma HeaderRecovered(writer: bool, reader: bool, d: Description, key: seq<bv8>, rest: seq<bv8>,
                        h: BasicHeader, e: seq<bv8>)
    requires |key| == if d.mask then 4 else 0
    requires Read(Sent(writer, d, key) + rest, h, e)
    ensures GetHeaderLen(h) == |Sent(writer, d, key)|
    ensures GetFin(h) == d.fin && GetRsv1(h) == d.rsv1 && GetRsv2(h) == d.rsv2 && GetRsv3(h) == d.rsv3
    ensures GetOpcode(h) == d.op & 0x0F && GetMasked(h) == d.mask
    ensures GetPayloadSize(reader, h, e) == d.size
    ensures GetMaskingKey(h, e) == if d.mask then key else [0, 0, 0, 0]
  {
    var sent := Extended(writer, d.size, key);
    ReadPrepared(Basic(d), sent, rest, h, e);
    BasicRecovered(d);
    SentLength(d);
    SentBytes(writer, d.size, key);
    SizeRecovered(reader, d, e);
    KeyRecovered(d, key, sent, e);
  }

  // The reader always finds enough bytes to read a header that was sent.
  lemma SentCanBeRead(writer: bool, d: Description, key: seq<bv8>, rest: seq<bv8>) returns (h: BasicHeader, e: seq<bv8>)
    requires |key| == if d.mask then 4 else 0
    ensures Read(Sent(writer, d, key) + rest, h, e)
  {
    h, e := Basic(d), Extended(writer, d.size, key);
    var wire := Sent(writer, d, key) + rest;
    assert wire[2..GetHeaderLen(h)] == Sent(writer, d, key)[2..];
  }

  // Headers delimit themselves: from the bytes alone, it is certain where the header ends and what it says.
  lemma HeadersSelfDelimiting(w1: bool, d1: Description, k1: seq<bv8>, rest1: seq<bv8>,
                              w2: bool, d2: Description, k2: seq<bv8>, rest2: seq<bv8>)
    requires |k1| == (if d1.mask then 4 else 0) && |k2| == (if d2.mask then 4 else 0)
    requires d1.op <= 0x0F && d2.op <= 0x0F
    requires Sent(w1, d1, k1) + rest1 == Sent(w2, d2, k2) + rest2
    ensures d1 == d2 && k1 == k2 && rest1 == rest2
  {
    var h, e := SentCanBeRead(w1, d1, k1, rest1);
    HeaderRecovered(w1, true, d1, k1, rest1, h, e);
    HeaderRecovered(w2, true, d2, k2, rest2, h, e);
    LowNibble(d1.op);
    LowNibble(d2.op);
    assert rest1 == (Sent(w1, d1, k1) + rest1)[GetHeaderLen(h)..];
    assert rest2 == (Sent(w2, d2, k2) + rest2)[GetHeaderLen(h)..];
  }

  lemma LowNibble(op: bv8)
    requires op <= 0x0F
    ensures op & 0x0F == op
  {}

  // No header with the same payload size and mask flag is shorter than the one that is written.
  lemma ShortestForm(littleEndian: bool, d: Description, h: BasicHeader, e: seq<bv8>)
    requires |e| == MAX_EXTENDED && GetMasked(h) == d.mask && GetPayloadSize(littleEndian, h, e) == d.size
    ensures GetHeaderLen(Basic(d)) <= GetHeaderLen(h)
  {
    BasicRecovered(d);
    CodeRange(d.size);
    if GetBasicSize(h) == CODE_16BIT {
      forall i | 2 <= i < 8
        ensures Byte(d.size, i) == 0
      {
        ExtendedByte(littleEndian, e, i);
      }
      SmallSize(d.size);
    } else if GetBasicSize(h) != CODE_64BIT {
      BasicCode(h);
    }
  }

  lemma SmallSize(size: bv64)
    requires Byte(size, 2) == 0 && Byte(size, 3) == 0 && Byte(size, 4) == 0
    requires Byte(size, 5) == 0 && Byte(size, 6) == 0 && Byte(size, 7) == 0
    ensures size <= PAYLOAD_SIZE_EXTENDED
  {}

  lemma BasicCode(h: BasicHeader)
    ensures GetBasicSize(h) != CODE_16BIT && GetBasicSize(h) != CODE_64BIT ==>
              GetBasicSize(h) as bv64 <= PAYLOAD_SIZE_BASIC
  {}

  // ----- the bytes on the wire

  lemma Assembled16(x: bv64)
    requires x <= 0xFFFF
    ensures ((Byte(x, 1) as bv64) << 8) | (Byte(x, 0) as bv64) == x
  {}

  // A number from its bytes, the most significant one first.
  function Number(s: seq<bv8>): bv64
    requires |s| == 8
  {
    ((s[0] as bv64) << 56) | ((s[1] as bv64) << 48) | ((s[2] as bv64) << 40) | ((s[3] as bv64) << 32)
    | ((s[4] as bv64) << 24) | ((s[5] as bv64) << 16) | ((s[6] as bv64) << 8) | (s[7] as bv64)
  }

  lemma Assembled64(x: bv64, s: seq<bv8>)
    requires |s| == 8
    requires s[0] == Byte(x, 7) && s[1] == Byte(x, 6) && s[2] == Byte(x, 5) && s[3] == Byte(x, 4)
    requires s[4] == Byte(x, 3) && s[5] == Byte(x, 2) && s[6] == Byte(x, 1) && s[7] == Byte(x, 0)
    ensures Number(s) == x
  {}

  // The last n bytes of a number, the most significant one first.
  function BigEndian(x: bv64, n: nat): (s: seq<bv8>)
    requires n <= 8
    ensures |s| == n
  {
    seq(n, j requires 0 <= j < n => Byte(x, n - 1 - j))
  }

  lemma SentLayout(littleEndian: bool, d: Description, key: seq<bv8>)
    requires |key| == if d.mask then 4 else 0
    ensures Sent(littleEndian, d, key) == [Basic(d).b0, Basic(d).b1] + BigEndian(d.size, SizeBytes(d.size)) + key
  {
    var e, n := Extended(littleEndian, d.size, key), SizeBytes(d.size);
    SentLength(d);
    SentBytes(littleEndian, d.size, key);
    assert e[..n] == BigEndian(d.size, n);
    assert e[..n + |key|] == e[..n] + e[n..][..|key|];
  }

  // RFC 6455, section 5.2: which bytes hold the size and the key.
  predicate SizeOnWire(s: seq<bv8>, size: bv64, key: seq<bv8>) {
    if size <= 125 then |s| >= 2 && (s[1] & 0x7F) as bv64 == size && s[2..] == key
    else if size <= 0xFFFF then
      |s| >= 4 && s[1] & 0x7F == 126 && ((s[2] as bv64) << 8) | (s[3] as bv64) == size && s[4..] == key
    else |s| >= 10 && s[1] & 0x7F == 127 && Number(s[2..10]) == size && s[10..] == key
  }

  lemma SmallOnWire(b0: bv8, b1: bv8, size: bv64, key: seq<bv8>)
    requires size <= 125 && (b1 & 0x7F) as bv64 == size
    ensures SizeOnWire([b0, b1] + BigEndian(size, 0) + key, size, key)
  {
    assert [b0, b1] + BigEndian(size, 0) + key == [b0, b1] + key;
  }

  lemma MediumOnWire(b0: bv8, b1: bv8, size: bv64, key: seq<bv8>)
    requires 125 < size <= 0xFFFF && b1 & 0x7F == 126
    ensures SizeOnWire([b0, b1] + BigEndian(size, 2) + key, size, key)
  {
    var s, t := [b0, b1] + BigEndian(size, 2) + key, BigEndian(size, 2);
    assert s[2] == t[0] == Byte(size, 1) && s[3] == t[1] == Byte(size, 0) && s[4..] == key;
    Assembled16(size);
  }

  lemma LargeOnWire(b0: bv8, b1: bv8, size: bv64, key: seq<bv8>)
    requires 0xFFFF < size && b1 & 0x7F == 127
    ensures SizeOnWire([b0, b1] + BigEndian(size, 8) + key, size, key)
  {
    var s, t := [b0, b1] + BigEndian(size, 8) + key, BigEndian(size, 8);
    assert s[2..10] == t && s[10..] == key;
    NumberOfBytes(size);
  }

  lemma NumberOfBytes(size: bv64)
    ensures Number(BigEndian(size, 8)) == size
  {
    var t := BigEndian(size, 8);
    assert t[0] == Byte(size, 7) && t[1] == Byte(size, 6) && t[2] == Byte(size, 5) && t[3] == Byte(size, 4);
    assert t[4] == Byte(size, 3) && t[5] == Byte(size, 2) && t[6] == Byte(size, 1) && t[7] == Byte(size, 0);
    Assembled64(size, t);
  }

  // The flags are the bits of the first two bytes, and the size and the key lie behind them.
  lemma HeaderOnWire(littleEndian: bool, d: Description, key: seq<bv8>)
    requires |key| == if d.mask then 4 else 0
    ensures var s := Sent(littleEndian, d, key);
            && |s| >= 2 && SizeOnWire(s, d.size, key)
            && (s[0] & 0x80 != 0 <==> d.fin) && (s[0] & 0x40 != 0 <==> d.rsv1) && (s[0] & 0x20 != 0 <==> d.rsv2)
            && (s[0] & 0x10 != 0 <==> d.rsv3) && s[0] & 0x0F == d.op & 0x0F && (s[1] & 0x80 != 0 <==> d.mask)
  {
    var h := Basic(d);
    BasicOnWire(d);
    SentLayout(littleEndian, d, key);
    if d.size <= 125 {
      SmallOnWire(h.b0, h.b1, d.size, key);
    } else if d.size <= 0xFFFF {
      MediumOnWire(h.b0, h.b1, d.size, key);
    } else {
      LargeOnWire(h.b0, h.b1, d.size, key);
    }
  }

  lemma BasicOnWire(d: Description)
    ensures var h := Basic(d);
            && (h.b0 & 0x80 != 0 <==> d.fin) && (h.b0 & 0x40 != 0 <==> d.rsv1) && (h.b0 & 0x20 != 0 <==> d.rsv2)
            && (h.b0 & 0x10 != 0 <==> d.rsv3) && h.b0 & 0x0F == d.op & 0x0F && (h.b1 & 0x80 != 0 <==> d.mask)
            && (d.size <= 125 ==> (h.b1 & 0x7F) as bv64 == d.size)
            && (125 < d.size <= 0xFFFF ==> h.b1 & 0x7F == 126) && (0xFFFF < d.size ==> h.b1 & 0x7F == 127)
  {
    FirstByteOnWire(d.op, d.fin, d.rsv1, d.rsv2, d.rsv3);
    SecondByteOnWire(d.mask, d.size);
  }

  lemma FirstByteOnWire(op: bv8, fin: bool, rsv1: bool, rsv2: bool, rsv3: bool)
    ensures var b := 0 | Flag(fin, 0x80) | Flag(rsv1, 0x40) | Flag(rsv2, 0x20) | Flag(rsv3, 0x10) | (op & 0x0F);
            && (b & 0x80 != 0 <==> fin) && (b & 0x40 != 0 <==> rsv1) && (b & 0x20 != 0 <==> rsv2)
            && (b & 0x10 != 0 <==> rsv3) && b & 0x0F == op & 0x0F
  {}

  lemma SecondByteOnWire(mask: bool, size: bv64)
    ensures var b := 0 | Flag(mask, 0x80) | SizeCode(size);
            && (b & 0x80 != 0 <==> mask) && (size <= 125 ==> (b & 0x7F) as bv64 == size)
            && (125 < size <= 0xFFFF ==> b & 0x7F == 126) && (0xFFFF < size ==> b & 0x7F == 127)
  {}
}
