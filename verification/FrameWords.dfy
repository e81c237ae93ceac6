// The machine words that WebSocket payloads are masked with.
module FrameWords {
  // The size of size_t in bytes, and the byte order.
  datatype Machine = Machine(wordSize: nat, littleEndian: bool)

  predicate IsMachine(m: Machine) { m.wordSize == 4 || m.wordSize == 8 }

  // ----- machine words

  // Byte i of a word, the least significant byte first.
  function Byte(x: bv64, i: nat): bv8
    requires i < 8
  {
    match i
    case 0 => (x & 0xFF) as bv8
    case 1 => ((x >> 8) & 0xFF) as bv8
    case 2 => ((x >> 16) & 0xFF) as bv8
    case 3 => ((x >> 24) & 0xFF) as bv8
    case 4 => ((x >> 32) & 0xFF) as bv8
    case 5 => ((x >> 40) & 0xFF) as bv8
    case 6 => ((x >> 48) & 0xFF) as bv8
    case _ => ((x >> 56) & 0xFF) as bv8
  }

  function Shl(x: bv64, bytes: nat): bv64
    requires bytes <= 8
  {
    match bytes
    case 0 => x
    case 1 => x << 8
    case 2 => x << 16
    case 3 => x << 24
    case 4 => x << 32
    case 5 => x << 40
    case 6 => x << 48
    case 7 => x << 56
    case _ => 0
  }

  function Shr(x: bv64, bytes: nat): bv64
    requires bytes <= 8
  {
    match bytes
    case 0 => x
    case 1 => x >> 8
    case 2 => x >> 16
    case 3 => x >> 24
    case 4 => x >> 32
    case 5 => x >> 40
    case 6 => x >> 48
    case 7 => x >> 56
    case _ => 0
  }

  lemma XorByte(x: bv64, y: bv64, i: nat)
    requires i < 8
    ensures Byte(x ^ y, i) == Byte(x, i) ^ Byte(y, i)
  {
    match i {
      case 0 =>
      case 1 =>
      case 2 =>
      case 3 =>
      case 4 =>
      case 5 =>
      case 6 =>
      case _ =>
    }
  }

  // ----- words in memory

  // Byte j of a word as it lies in memory.
  function MemByte(m: Machine, x: bv64, j: nat): bv8
    requires IsMachine(m) && j < m.wordSize
  {
    Byte(x, if m.littleEndian then j else m.wordSize - 1 - j)
  }

  function MemBytes(m: Machine, x: bv64): (s: seq<bv8>)
    requires IsMachine(m)
    ensures |s| == m.wordSize
  {
    MemBytesFrom(m, x, 0)
  }

  function MemBytesFrom(m: Machine, x: bv64, from: nat): (s: seq<bv8>)
    requires IsMachine(m) && from <= m.wordSize
    ensures |s| == m.wordSize - from
    decreases m.wordSize - from
  {
    if from == m.wordSize then [] else [MemByte(m, x, from)] + MemBytesFrom(m, x, from + 1)
  }

  lemma {:induction false} MemBytesAt(m: Machine, x: bv64, from: nat, j: nat)
    requires IsMachine(m) && from <= j < m.wordSize
    ensures MemBytesFrom(m, x, from)[j - from] == MemByte(m, x, j)
    decreases j - from
  {
    if from < j {
      MemBytesAt(m, x, from + 1, j);
    }
  }

  // The word whose bytes these are, the least significant byte first.
  function FromBytes(s: seq<bv8>): bv64
    requires |s| <= 8
  {
    if s == [] then 0 else (s[0] as bv64) | Shl(FromBytes(s[1..]), 1)
  }

  function Reversed(s: seq<bv8>): seq<bv8> { seq(|s|, i requires 0 <= i < |s| => s[|s| - 1 - i]) }

  // reinterpret_cast of some bytes to an integer.
  function Load(m: Machine, s: seq<bv8>): bv64
    requires |s| <= 8
  {
    FromBytes(if m.littleEndian then s else Reversed(s))
  }

  // A byte in front of the others.
  lemma PushedByte(b: bv8, rest: bv64, i: nat)
    requires i < 8
    ensures Byte((b as bv64) | Shl(rest, 1), i) == if i == 0 then b else Byte(rest, i - 1)
  {
    match i { case 0 => case 1 => case 2 => case 3 => case 4 => case 5 => case 6 => case _ => }
  }

  lemma ZeroByte(i: nat)
    requires i < 8
    ensures Byte(0, i) == 0
  {}

  lemma FromBytesFirst(s: seq<bv8>)
    requires 0 < |s| <= 8
    ensures Byte(FromBytes(s), 0) == s[0]
  {
    var rest := FromBytes(s[1..]);
    PushedByte(s[0], rest, 0);
  }

  lemma FromBytesNext(s: seq<bv8>, i: nat)
    requires 0 < |s| <= 8 && i < 7
    ensures Byte(FromBytes(s), i + 1) == Byte(FromBytes(s[1..]), i)
  {
    var rest := FromBytes(s[1..]);
    match i {
      case 0 => PushedByte(s[0], rest, 1);
      case 1 => PushedByte(s[0], rest, 2);
      case 2 => PushedByte(s[0], rest, 3);
      case 3 => PushedByte(s[0], rest, 4);
      case 4 => PushedByte(s[0], rest, 5);
      case 5 => PushedByte(s[0], rest, 6);
      case _ => PushedByte(s[0], rest, 7);
    }
  }

  lemma {:induction false} FromBytesByte(s: seq<bv8>, i: nat)
    requires |s| <= 8 && i < 8
    ensures Byte(FromBytes(s), i) == if i < |s| then s[i] else 0
  {
    if s == [] {
      ZeroByte(i);
    } else {
      if i == 0 {
        FromBytesFirst(s);
      } else {
        FromBytesNext(s, i - 1);
        FromBytesByte(s[1..], i - 1);
      }
    }
  }

  lemma LoadedByte(m: Machine, s: seq<bv8>, i: nat)
    requires i < |s| <= 8
    ensures Byte(Load(m, s), i) == if m.littleEndian then s[i] else s[|s| - 1 - i]
  {
    FromBytesByte(if m.littleEndian then s else Reversed(s), i);
  }

  lemma LoadByte(m: Machine, s: seq<bv8>, j: nat)
    requires IsMachine(m) && |s| == m.wordSize && j < |s|
    ensures MemByte(m, Load(m, s), j) == s[j]
  {
    LoadedByte(m, s, if m.littleEndian then j else m.wordSize - 1 - j);
  }

  // ----- keys

  // The prepared key: the 32-bit key, repeated when a word has 64 bits.
  function PrepareMaskingKey(m: Machine, key: seq<bv8>): bv64
    requires IsMachine(m) && |key| == 4
  {
    if m.wordSize == 8 then Repeated(Load(m, key)) else Low(Load(m, key))
  }

  // A conversion to 32 bits.
  function Low(x: bv64): bv64 { x & 0xFFFF_FFFF }

  function Repeated(x: bv64): bv64 { Shl(x & 0xFFFF_FFFF, 4) | (x & 0xFFFF_FFFF) }

  // Rotates the key by some bytes, as it lies in memory.
  function CircshiftPreparedKey(m: Machine, key: bv64, offset: nat): bv64
    requires IsMachine(m) && offset < m.wordSize
  {
    if offset == 0 then key
    else if m.wordSize == 8 then Circshift64(m.littleEndian, key, offset)
    else Circshift32(m.littleEndian, key, offset)
  }

  function Circshift64(littleEndian: bool, key: bv64, offset: nat): bv64
    requires 0 < offset < 8
  {
    if littleEndian then Shr(key, offset) | Shl(key, 8 - offset)
    else Shl(key, offset) | Shr(key, 8 - offset)
  }

  // With words of 32 bits, what a shift moves past bit 31 is gone.
  function Circshift32(littleEndian: bool, key: bv64, offset: nat): bv64
    requires 0 < offset < 4
  {
    if littleEndian then Shr(key & 0xFFFF_FFFF, offset) | (Shl(key, 4 - offset) & 0xFFFF_FFFF)
    else (Shl(key, offset) & 0xFFFF_FFFF) | Shr(key & 0xFFFF_FFFF, 4 - offset)
  }

  lemma RepeatedLow(x: bv64, i: nat)
    requires i < 4
    ensures Byte(Repeated(x), i) == Byte(x, i)
  {
    match i { case 0 => case 1 => case 2 => case _ => }
  }

  lemma RepeatedHigh(x: bv64, i: nat)
    requires i < 4
    ensures Byte(Repeated(x), i + 4) == Byte(x, i)
  {
    match i { case 0 => case 1 => case 2 => case _ => }
  }

  lemma LowByte(x: bv64, i: nat)
    requires i < 4
    ensures Byte(Low(x), i) == Byte(x, i)
  {
    match i { case 0 => case 1 => case 2 => case _ => }
  }

  lemma PreparedByte(m: Machine, key: seq<bv8>, i: nat)
    requires IsMachine(m) && |key| == 4 && i < m.wordSize
    ensures Byte(PrepareMaskingKey(m, key), i) == Byte(Load(m, key), i % 4)
  {
    if m.wordSize == 4 {
      LowByte(Load(m, key), i);
    } else if i < 4 {
      RepeatedLow(Load(m, key), i);
    } else {
      RepeatedHigh(Load(m, key), i - 4);
    }
  }

  lemma PreparedLittle(m: Machine, key: seq<bv8>, j: nat)
    requires IsMachine(m) && m.littleEndian && |key| == 4 && j < m.wordSize
    ensures MemByte(m, PrepareMaskingKey(m, key), j) == key[j % 4]
  {
    PreparedByte(m, key, j);
    LoadedByte(m, key, j % 4);
  }

  lemma PreparedBig(m: Machine, key: seq<bv8>, j: nat)
    requires IsMachine(m) && !m.littleEndian && |key| == 4 && j < m.wordSize
    ensures MemByte(m, PrepareMaskingKey(m, key), j) == key[j % 4]
  {
    var i := m.wordSize - 1 - j;
    MirroredPlace(m.wordSize, j);
    PreparedByte(m, key, i);
    LoadedByte(m, key, i % 4);
  }

  lemma MirroredPlace(w: nat, j: nat)
    requires (w == 4 || w == 8) && j < w
    ensures 3 - (w - 1 - j) % 4 == j % 4
  {}

  // The bytes of the prepared key are the key over and over.
  lemma PreparedBytes(m: Machine, key: seq<bv8>)
    requires IsMachine(m) && |key| == 4
    ensures forall j | 0 <= j < m.wordSize :: MemBytes(m, PrepareMaskingKey(m, key))[j] == key[j % 4]
  {
    forall j | 0 <= j < m.wordSize
      ensures MemBytes(m, PrepareMaskingKey(m, key))[j] == key[j % 4]
    {
      if m.littleEndian { PreparedLittle(m, key, j); } else { PreparedBig(m, key, j); }
      MemBytesAt(m, PrepareMaskingKey(m, key), 0, j);
    }
  }

  function Around(w: nat, i: nat): (r: nat)
    requires i < 2 * w
    ensures r < w
  {
    if i < w then i else i - w
  }

  function Rotated(k: seq<bv8>, n: nat): (r: seq<bv8>)
    requires n < |k|
    ensures |r| == |k|
  {
    seq(|k|, i requires 0 <= i < |k| => k[Around(|k|, i + n)])
  }

  // The byte that a rotation moves to place i.
  function Origin(littleEndian: bool, w: nat, offset: nat, i: nat): nat
    requires offset < w && i < w
  {
    Around(w, i + if littleEndian then offset else w - offset)
  }

  lemma Circshift64Little(key: bv64, offset: nat, i: nat)
    requires 0 < offset < 8 && i < 8
    ensures Byte(Circshift64(true, key, offset), i) == Byte(key, Origin(true, 8, offset, i))
  {
    match offset {
      case 1 => match i { case 0 => case 1 => case 2 => case 3 => case 4 => case 5 => case 6 => case _ => }
      case 2 => match i { case 0 => case 1 => case 2 => case 3 => case 4 => case 5 => case 6 => case _ => }
      case 3 => match i { case 0 => case 1 => case 2 => case 3 => case 4 => case 5 => case 6 => case _ => }
      case 4 => match i { case 0 => case 1 => case 2 => case 3 => case 4 => case 5 => case 6 => case _ => }
      case 5 => match i { case 0 => case 1 => case 2 => case 3 => case 4 => case 5 => case 6 => case _ => }
      case 6 => match i { case 0 => case 1 => case 2 => case 3 => case 4 => case 5 => case 6 => case _ => }
      case _ => match i { case 0 => case 1 => case 2 => case 3 => case 4 => case 5 => case 6 => case _ => }
    }
  }

  lemma Circshift64Big(key: bv64, offset: nat, i: nat)
    requires 0 < offset < 8 && i < 8
    ensures Byte(Circshift64(false, key, offset), i) == Byte(key, Origin(false, 8, offset, i))
  {
    match offset {
      case 1 => match i { case 0 => case 1 => case 2 => case 3 => case 4 => case 5 => case 6 => case _ => }
      case 2 => match i { case 0 => case 1 => case 2 => case 3 => case 4 => case 5 => case 6 => case _ => }
      case 3 => match i { case 0 => case 1 => case 2 => case 3 => case 4 => case 5 => case 6 => case _ => }
      case 4 => match i { case 0 => case 1 => case 2 => case 3 => case 4 => case 5 => case 6 => case _ => }
      case 5 => match i { case 0 => case 1 => case 2 => case 3 => case 4 => case 5 => case 6 => case _ => }
      case 6 => match i { case 0 => case 1 => case 2 => case 3 => case 4 => case 5 => case 6 => case _ => }
      case _ => match i { case 0 => case 1 => case 2 => case 3 => case 4 => case 5 => case 6 => case _ => }
    }
  }

  lemma Circshift32By1(littleEndian: bool, key: bv64, i: nat)
    requires i < 4
    ensures Byte(Circshift32(littleEndian, key, 1), i) == Byte(key, Origin(littleEndian, 4, 1, i))
  {
    if littleEndian {
      match i { case 0 => case 1 => case 2 => case _ => }
    } else {
      match i { case 0 => case 1 => case 2 => case _ => }
    }
  }

  lemma Circshift32By2(littleEndian: bool, key: bv64, i: nat)
    requires i < 4
    ensures Byte(Circshift32(littleEndian, key, 2), i) == Byte(key, Origin(littleEndian, 4, 2, i))
  {
    if littleEndian {
      match i { case 0 => case 1 => case 2 => case _ => }
    } else {
      match i { case 0 => case 1 => case 2 => case _ => }
    }
  }

  lemma Circshift32By3(littleEndian: bool, key: bv64, i: nat)
    requires i < 4
    ensures Byte(Circshift32(littleEndian, key, 3), i) == Byte(key, Origin(littleEndian, 4, 3, i))
  {
    if littleEndian {
      match i { case 0 => case 1 => case 2 => case _ => }
    } else {
      match i { case 0 => case 1 => case 2 => case _ => }
    }
  }

  lemma Circshift32Byte(littleEndian: bool, key: bv64, offset: nat, i: nat)
    requires 0 < offset < 4 && i < 4
    ensures Byte(Circshift32(littleEndian, key, offset), i) == Byte(key, Origin(littleEndian, 4, offset, i))
  {
    match offset {
      case 1 => Circshift32By1(littleEndian, key, i);
      case 2 => Circshift32By2(littleEndian, key, i);
      case _ => Circshift32By3(littleEndian, key, i);
    }
  }

  lemma CircshiftByte(m: Machine, key: bv64, offset: nat, i: nat)
    requires IsMachine(m) && offset < m.wordSize && i < m.wordSize
    ensures Byte(CircshiftPreparedKey(m, key, offset), i) == Byte(key, Origin(m.littleEndian, m.wordSize, offset, i))
  {
    if offset > 0 {
      if m.wordSize == 8 {
        if m.littleEndian {
          Circshift64Little(key, offset, i);
        } else {
          Circshift64Big(key, offset, i);
        }
      } else {
        Circshift32Byte(m.littleEndian, key, offset, i);
      }
    }
  }

  lemma CircshiftMemByte(m: Machine, key: bv64, offset: nat, j: nat)
    requires IsMachine(m) && offset < m.wordSize && j < m.wordSize
    ensures MemByte(m, CircshiftPreparedKey(m, key, offset), j) == MemByte(m, key, Around(m.wordSize, j + offset))
  {
    CircshiftByte(m, key, offset, if m.littleEndian then j else m.wordSize - 1 - j);
  }

  lemma CircshiftAt(m: Machine, key: bv64, offset: nat, j: nat)
    requires IsMachine(m) && offset < m.wordSize && j < m.wordSize
    ensures MemBytes(m, CircshiftPreparedKey(m, key, offset))[j] == Rotated(MemBytes(m, key), offset)[j]
  {
    var shifted := CircshiftPreparedKey(m, key, offset);
    CircshiftMemByte(m, key, offset, j);
    MemBytesAt(m, shifted, 0, j);
    MemBytesAt(m, key, 0, Around(m.wordSize, j + offset));
  }

  // On every machine the bytes of the key move to the front of memory.
  lemma CircshiftBytes(m: Machine, key: bv64, offset: nat)
    requires IsMachine(m) && offset < m.wordSize
    ensures MemBytes(m, CircshiftPreparedKey(m, key, offset)) == Rotated(MemBytes(m, key), offset)
  {
    var shifted, rotated := MemBytes(m, CircshiftPreparedKey(m, key, offset)), Rotated(MemBytes(m, key), offset);
    assert |shifted| == |rotated|;
    forall j | 0 <= j < m.wordSize
      ensures shifted[j] == rotated[j]
    {
      CircshiftAt(m, key, offset, j);
    }
  }

  lemma XorMemByte(m: Machine, x: bv64, y: bv64, j: nat)
    requires IsMachine(m) && j < m.wordSize
    ensures MemByte(m, x ^ y, j) == MemByte(m, x, j) ^ MemByte(m, y, j)
  {
    XorByte(x, y, if m.littleEndian then j else m.wordSize - 1 - j);
  }

  lemma XorAt(m: Machine, x: bv64, y: bv64, j: nat)
    requires IsMachine(m) && j < m.wordSize
    ensures MemBytes(m, x ^ y)[j] == MemBytes(m, x)[j] ^ MemBytes(m, y)[j]
  {
    XorMemByte(m, x, y, j);
    MemBytesAt(m, x ^ y, 0, j);
    MemBytesAt(m, x, 0, j);
    MemBytesAt(m, y, 0, j);
  }

  function Xor(s: seq<bv8>, t: seq<bv8>): (r: seq<bv8>)
    requires |s| == |t|
    ensures |r| == |s|
  {
    seq(|s|, j requires 0 <= j < |s| => s[j] ^ t[j])
  }

  lemma XorBytes(m: Machine, x: bv64, y: bv64)
    requires IsMachine(m)
    ensures MemBytes(m, x ^ y) == Xor(MemBytes(m, x), MemBytes(m, y))
  {
    var masked := MemBytes(m, x ^ y);
    forall j | 0 <= j < m.wordSize
      ensures masked[j] == MemBytes(m, x)[j] ^ MemBytes(m, y)[j]
    {
      XorAt(m, x, y, j);
    }
  }

  lemma LoadAt(m: Machine, s: seq<bv8>, j: nat)
    requires IsMachine(m) && |s| == m.wordSize && j < m.wordSize
    ensures MemBytes(m, Load(m, s))[j] == s[j]
  {
    LoadByte(m, s, j);
    MemBytesAt(m, Load(m, s), 0, j);
  }

  lemma LoadBytes(m: Machine, s: seq<bv8>)
    requires IsMachine(m) && |s| == m.wordSize
    ensures MemBytes(m, Load(m, s)) == s
  {
    var loaded := MemBytes(m, Load(m, s));
    forall j | 0 <= j < m.wordSize
      ensures loaded[j] == s[j]
    {
      LoadAt(m, s, j);
    }
  }

  // A word that is read, masked and stored is masked byte by byte.
  lemma MaskedWord(m: Machine, s: seq<bv8>, prepared: bv64)
    requires IsMachine(m) && |s| == m.wordSize
    ensures MemBytes(m, Load(m, s) ^ prepared) == Xor(s, MemBytes(m, prepared))
  {
    XorBytes(m, Load(m, s), prepared);
    LoadBytes(m, s);
  }
}
