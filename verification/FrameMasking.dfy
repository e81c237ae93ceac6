// Masking of WebSocket payloads, a byte or a machine word at a time.
module FrameMasking {
  import opened FrameWords

  // Every byte is combined with a byte of the key, taken round and round.
  function Masked(data: seq<bv8>, key: seq<bv8>, offset: nat): (r: seq<bv8>)
    requires key != []
    ensures |r| == |data|
  {
    seq(|data|, i requires 0 <= i < |data| => data[i] ^ key[(i + offset) % |key|])
  }

  // The buffer `output` after masking `length` bytes of `input` into it.
  twostate predicate MaskedInto(input: array<bv8>, output: array<bv8>, length: nat, key: seq<bv8>, offset: nat)
    requires key != [] && length <= input.Length && length <= output.Length
    reads input, output
  {
    && output[..length] == Masked(old(input[..length]), key, offset)
    && output[length..] == old(output[length..])
  }

  method ByteMask(input: array<bv8>, output: array<bv8>, length: nat, key: seq<bv8>, keyOffset: nat)
    requires |key| == 4 && length <= input.Length && length <= output.Length
    modifies output
    ensures MaskedInto(input, output, length, key, keyOffset)
  {
    var keyIndex := keyOffset % 4;
    var i := 0;
    while i < length
      invariant i <= length && keyIndex == (i + keyOffset) % 4
      invariant forall j | 0 <= j < i :: output[j] == old(input[j]) ^ key[(j + keyOffset) % 4]
      invariant forall j | i <= j < output.Length :: output[j] == old(output[j])
      invariant forall j | i <= j < input.Length :: input[j] == old(input[j])
    {
      output[i] := input[i] ^ key[keyIndex];
      keyIndex := (keyIndex + 1) % 4;
      i := i + 1;
    }
  }

  // ----- a word at a time

  // output_word[i] = input_word[i] ^ prepared_key
  method MaskWord(m: Machine, input: array<bv8>, output: array<bv8>, at: nat, prepared: bv64)
    requires IsMachine(m) && at + m.wordSize <= input.Length && at + m.wordSize <= output.Length
    modifies output
    ensures output[..] == old(output[..at]) + Masked(old(input[at..at + m.wordSize]), MemBytes(m, prepared), 0)
                          + old(output[at + m.wordSize..])
  {
    var s := input[at..at + m.wordSize];
    MaskedWord(m, s, prepared);
    MaskedOnce(s, MemBytes(m, prepared));
    StoreWord(output, at, MemBytes(m, Load(m, s) ^ prepared));
  }

  // output[at] = b; the bytes of `input` still to come are as they were.
  method StoreByte(input: array<bv8>, output: array<bv8>, at: nat, b: bv8)
    requires at < output.Length
    modifies output
    ensures output[..] == old(output[..])[at := b]
    ensures forall j | at < j < input.Length :: input[j] == old(input[j])
  {
    output[at] := b;
  }

  method StoreWord(output: array<bv8>, at: nat, bytes: seq<bv8>)
    requires at + |bytes| <= output.Length
    modifies output
    ensures output[..] == old(output[..at]) + bytes + old(output[at + |bytes|..])
  {
    forall j | 0 <= j < |bytes| {
      output[at + j] := bytes[j];
    }
  }

  // Masking can stop after a whole number of turns of the key, and start again with the first key byte.
  lemma MaskedAppend(s: seq<bv8>, t: seq<bv8>, key: seq<bv8>, turns: nat)
    requires (|key| == 4 || |key| == 8) && |s| == turns * |key|
    ensures Masked(s + t, key, 0) == Masked(s, key, 0) + Masked(t, key, 0)
  {
    var whole := Masked(s + t, key, 0);
    forall i | |s| <= i < |s| + |t|
      ensures whole[i] == Masked(t, key, 0)[i - |s|]
    {
      ModTurns(i - |s|, |key|, turns);
    }
    assert forall i | 0 <= i < |s| :: whole[i] == Masked(s, key, 0)[i];
  }

  lemma ModTurns(i: nat, n: nat, turns: nat)
    requires n == 4 || n == 8
    ensures (i + turns * n) % n == i % n
  {}

  lemma MaskedOnce(s: seq<bv8>, key: seq<bv8>)
    requires key != [] && |s| == |key|
    ensures Masked(s, key, 0) == Xor(s, key)
  {}

  // One more word of `from` goes masked into the buffer.
  lemma WordStep(from: seq<bv8>, into: seq<bv8>, key: seq<bv8>, turns: nat, at: nat)
    requires (|key| == 4 || |key| == 8) && at == turns * |key|
    requires at + |key| <= |from| && at + |key| <= |into|
    ensures var now, to := Masked(from[..at], key, 0) + into[at..], at + |key|;
            now[..at] + Masked(from[at..to], key, 0) + now[to..] == Masked(from[..to], key, 0) + into[to..]
  {
    var to := at + |key|;
    MaskedAppend(from[..at], from[at..to], key, turns);
    assert from[..at] + from[at..to] == from[..to];
    assert into[at..][|key|..] == into[to..];
  }

  lemma WordCount(i: nat, n: nat, w: nat)
    requires i < n && (w == 4 || w == 8)
    ensures (i + 1) * w == i * w + w <= n * w
  {}

  // Masks whole words up to `end`.
  method MaskWords(m: Machine, input: array<bv8>, output: array<bv8>, n: nat, end: nat, prepared: bv64)
    requires IsMachine(m) && end == n * m.wordSize && end <= input.Length && end <= output.Length
    modifies output
    ensures output[..] == Masked(old(input[..end]), MemBytes(m, prepared), 0) + old(output[end..])
    ensures input[end..] == old(input[end..])
  {
    ghost var k, from, into := MemBytes(m, prepared), input[..], output[..];
    var i, at := 0, 0;
    while i < n
      invariant i <= n && at == i * m.wordSize <= end
      invariant output[..] == Masked(from[..at], k, 0) + into[at..]
      invariant input[at..] == from[at..]
    {
      WordCount(i, n, m.wordSize);
      assert input[at..at + m.wordSize] == from[at..at + m.wordSize];
      WordStep(from, into, k, i, at);
      MaskWord(m, input, output, at, prepared);
      i, at := i + 1, at + m.wordSize;
    }
  }

  method WordMaskExact(m: Machine, input: array<bv8>, output: array<bv8>, length: nat, key: seq<bv8>)
    requires IsMachine(m) && |key| == 4 && length <= input.Length && length <= output.Length
    modifies output
    ensures MaskedInto(input, output, length, key, 0)
  {
    ghost var from, into := input[..], output[..];
    var prepared := PrepareMaskingKey(m, key);
    var n := length / m.wordSize;
    var start := n * m.wordSize;
    DivParts(length, m.wordSize);
    MaskWords(m, input, output, n, start, prepared);
    PreparedMasks(m, from[..start], key);
    MaskTail(input, output, start, length, key, from, into);
  }

  // The bytes after the last whole word.
  method MaskTail(input: array<bv8>, output: array<bv8>, start: nat, length: nat, key: seq<bv8>,
                  ghost from: seq<bv8>, ghost into: seq<bv8>)
    requires |key| == 4 && start <= length <= input.Length == |from| && length <= output.Length == |into|
    requires output[..] == Masked(from[..start], key, 0) + into[start..]
    requires forall j | start <= j < input.Length :: input[j] == from[j]
    modifies output
    ensures output[..] == Masked(from[..length], key, 0) + into[length..]
  {
    var i := start;
    while i < length
      invariant start <= i <= length
      invariant output[..] == Masked(from[..i], key, 0) + into[i..]
      invariant forall j | i <= j < input.Length :: input[j] == from[j]
    {
      ByteStep(from, into, key, i, 0);
      StoreByte(input, output, i, input[i] ^ key[i % 4]);
      i := i + 1;
    }
  }

  // One more byte of `from` goes masked into the buffer.
  lemma ByteStep(from: seq<bv8>, into: seq<bv8>, key: seq<bv8>, at: nat, offset: nat)
    requires key != [] && at < |from| && at < |into|
    ensures (Masked(from[..at], key, offset) + into[at..])[at := from[at] ^ key[(at + offset) % |key|]]
         == Masked(from[..at + 1], key, offset) + into[at + 1..]
  {}

  method WordMaskCirc(m: Machine, input: array<bv8>, output: array<bv8>, length: nat, prepared: bv64)
    returns (next: bv64)
    requires IsMachine(m) && length <= input.Length && length <= output.Length
    modifies output
    ensures MaskedInto(input, output, length, MemBytes(m, prepared), 0)
    ensures MemBytes(m, next) == Rotated(MemBytes(m, prepared), length % m.wordSize)
  {
    ghost var from, into := input[..], output[..];
    var w := m.wordSize;
    var n := length / w;
    DivParts(length, w);
    var l := length - n * w;
    var start := length - l;
    assert start == n * w && start + l == length && l == length % w;
    MaskWords(m, input, output, n, start, prepared);
    var byteKey := MemBytes(m, prepared);
    MaskRest(input, output, start, l, byteKey, from, into, n);
    CircshiftBytes(m, prepared, l);
    next := CircshiftPreparedKey(m, prepared, l);
  }

  lemma DivParts(length: nat, w: nat)
    requires w == 4 || w == 8
    ensures 0 <= length - length / w * w == length % w < w
  {}

  lemma RestIndex(start: nat, n: nat, w: nat, i: nat)
    requires (w == 4 || w == 8) && start == n * w && i < w
    ensures (start + i + 0) % w == i
  {
    ModTurns(i, w, n);
  }

  // The partial word at the end.
  method MaskRest(input: array<bv8>, output: array<bv8>, start: nat, l: nat, byteKey: seq<bv8>,
                  ghost from: seq<bv8>, ghost into: seq<bv8>, ghost n: nat)
    requires (|byteKey| == 4 || |byteKey| == 8) && l < |byteKey| && start == n * |byteKey|
    requires start + l <= input.Length == |from| && start + l <= output.Length == |into|
    requires output[..] == Masked(from[..start], byteKey, 0) + into[start..]
    requires forall j | start <= j < input.Length :: input[j] == from[j]
    modifies output
    ensures output[..] == Masked(from[..start + l], byteKey, 0) + into[start + l..]
  {
    var i := 0;
    while i < l
      invariant i <= l
      invariant output[..] == Masked(from[..start + i], byteKey, 0) + into[start + i..]
      invariant forall j | start + i <= j < input.Length :: input[j] == from[j]
    {
      ByteStep(from, into, byteKey, start + i, 0);
      RestIndex(start, n, |byteKey|, i);
      StoreByte(input, output, start + i, input[start + i] ^ byteKey[i]);
      i := i + 1;
    }
  }

  // The four bytes that a prepared key has after a conversion to uint32_t.
  function Narrowed(m: Machine, prepared: bv64): (s: seq<bv8>)
    requires IsMachine(m)
    ensures |s| == 4
  {
    if m.littleEndian then MemBytes(m, prepared)[..4] else MemBytes(m, prepared)[m.wordSize - 4..]
  }

  // They are the bytes of the low 32 bits, as a machine with words of 32 bits has them in memory.
  lemma NarrowedBytes(m: Machine, prepared: bv64)
    requires IsMachine(m)
    ensures Narrowed(m, prepared) == MemBytes(Machine(4, m.littleEndian), prepared)
  {
    var narrow := Machine(4, m.littleEndian);
    forall j | 0 <= j < 4
      ensures Narrowed(m, prepared)[j] == MemBytes(narrow, prepared)[j]
    {
      MemBytesAt(m, prepared, 0, if m.littleEndian then j else m.wordSize - 4 + j);
      MemBytesAt(narrow, prepared, 0, j);
    }
  }

  method ByteMaskCirc(m: Machine, input: array<bv8>, output: array<bv8>, length: nat, prepared: bv64)
    returns (next: bv64)
    requires IsMachine(m) && length <= input.Length && length <= output.Length
    modifies output
    ensures MaskedInto(input, output, length, Narrowed(m, prepared), 0)
    ensures MemBytes(m, next) == Rotated(MemBytes(m, prepared), length % 4)
  {
    ghost var from, into := input[..], output[..];
    var key := Narrowed(m, prepared);
    var i := 0;
    while i < length
      invariant i <= length
      invariant output[..] == Masked(from[..i], key, 0) + into[i..]
      invariant input[i..] == from[i..]
    {
      ByteStep(from, into, key, i, 0);
      StoreByte(input, output, i, input[i] ^ key[i % 4]);
      i := i + 1;
    }
    CircshiftBytes(m, prepared, length % 4);
    next := CircshiftPreparedKey(m, prepared, length % 4);
  }

  // ----- all forms agree

  // The bytes of k are the masking key, from place `turn` on, over and over.
  ghost predicate Repeats(k: seq<bv8>, key: seq<bv8>, turn: nat) {
    |key| == 4 && (|k| == 4 || |k| == 8) && forall j | 0 <= j < |k| :: k[j] == key[(j + turn) % 4]
  }

  lemma ModMod(i: nat, n: nat, turn: nat)
    requires n == 4 || n == 8
    ensures (i % n + turn) % 4 == (i + turn) % 4
  {}

  lemma RepeatsMasks(data: seq<bv8>, k: seq<bv8>, key: seq<bv8>, turn: nat)
    requires Repeats(k, key, turn)
    ensures Masked(data, k, 0) == Masked(data, key, turn)
  {
    forall i | 0 <= i < |data|
      ensures Masked(data, k, 0)[i] == Masked(data, key, turn)[i]
    {
      ModMod(i, |k|, turn);
    }
  }

  lemma RepeatsNarrowed(m: Machine, word: bv64, key: seq<bv8>, turn: nat)
    requires IsMachine(m) && Repeats(MemBytes(m, word), key, turn)
    ensures Repeats(Narrowed(m, word), key, turn)
  {
    RepeatsTail(MemBytes(m, word), key, turn);
  }

  lemma RepeatsTail(k: seq<bv8>, key: seq<bv8>, turn: nat)
    requires Repeats(k, key, turn)
    ensures Repeats(k[..4], key, turn) && Repeats(k[|k| - 4..], key, turn)
  {}

  // What the key that is fed forward looks like.
  lemma RepeatsRotated(k: seq<bv8>, key: seq<bv8>, turn: nat, length: nat, n: nat)
    requires Repeats(k, key, turn) && (n == 4 || n == |k|)
    ensures Repeats(Rotated(k, length % n), key, turn + length)
  {
    var r := Rotated(k, length % n);
    forall j | 0 <= j < |k|
      ensures r[j] == key[(j + (turn + length)) % 4]
    {
      AroundMod(|k|, j, length % n, turn);
      ModMod(length, n, j + turn);
    }
  }

  lemma AroundMod(w: nat, j: nat, n: nat, turn: nat)
    requires (w == 4 || w == 8) && j < w && n < w
    ensures (Around(w, j + n) + turn) % 4 == (n + (j + turn)) % 4
  {}

  lemma PreparedRepeats(m: Machine, key: seq<bv8>)
    requires IsMachine(m) && |key| == 4
    ensures Repeats(MemBytes(m, PrepareMaskingKey(m, key)), key, 0)
  {
    PreparedBytes(m, key);
  }

  lemma PreparedMasks(m: Machine, data: seq<bv8>, key: seq<bv8>)
    requires IsMachine(m) && |key| == 4
    ensures Masked(data, MemBytes(m, PrepareMaskingKey(m, key)), 0) == Masked(data, key, 0)
  {
    PreparedRepeats(m, key);
    RepeatsMasks(data, MemBytes(m, PrepareMaskingKey(m, key)), key, 0);
  }

  // A call of word_mask_circ or of byte_mask_circ.
  datatype Call = Words(data: seq<bv8>) | Bytes(data: seq<bv8>)

  // What a call writes.
  ghost function Written(m: Machine, call: Call, prepared: bv64): seq<bv8>
    requires IsMachine(m)
  {
    Masked(call.data, if call.Words? then MemBytes(m, prepared) else Narrowed(m, prepared), 0)
  }

  // How far a call turns the key.
  ghost function Turn(m: Machine, call: Call): (n: nat)
    requires IsMachine(m)
    ensures n < m.wordSize
  {
    |call.data| % if call.Words? then m.wordSize else 4
  }

  // What the calls write when each is given the key that the one before returned, as the two
  // methods promise it.
  ghost function Fed(m: Machine, calls: seq<Call>, prepared: bv64): seq<bv8>
    requires IsMachine(m)
  {
    if calls == [] then []
    else Written(m, calls[0], prepared) + Fed(m, calls[1..], CircshiftPreparedKey(m, prepared, Turn(m, calls[0])))
  }

  function Given(calls: seq<Call>): seq<bv8> {
    if calls == [] then [] else calls[0].data + Given(calls[1..])
  }

  lemma MaskedSplit(s: seq<bv8>, t: seq<bv8>, key: seq<bv8>, turn: nat)
    requires key != []
    ensures Masked(s + t, key, turn) == Masked(s, key, turn) + Masked(t, key, turn + |s|)
  {}

  lemma CallFed(m: Machine, call: Call, prepared: bv64, key: seq<bv8>, turn: nat)
    requires IsMachine(m) && Repeats(MemBytes(m, prepared), key, turn)
    ensures Written(m, call, prepared) == Masked(call.data, key, turn)
    ensures Repeats(MemBytes(m, CircshiftPreparedKey(m, prepared, Turn(m, call))), key, turn + |call.data|)
  {
    RepeatsNarrowed(m, prepared, key, turn);
    RepeatsMasks(call.data, if call.Words? then MemBytes(m, prepared) else Narrowed(m, prepared), key, turn);
    CircshiftBytes(m, prepared, Turn(m, call));
    RepeatsRotated(MemBytes(m, prepared), key, turn, |call.data|, if call.Words? then m.wordSize else 4);
  }

  lemma {:induction false} FedFromTurn(m: Machine, calls: seq<Call>, prepared: bv64, key: seq<bv8>, turn: nat)
    requires IsMachine(m) && |key| == 4 && Repeats(MemBytes(m, prepared), key, turn)
    ensures Fed(m, calls, prepared) == Masked(Given(calls), key, turn)
  {
    if calls != [] {
      var data := calls[0].data;
      CallFed(m, calls[0], prepared, key, turn);
      FedFromTurn(m, calls[1..], CircshiftPreparedKey(m, prepared, Turn(m, calls[0])), key, turn + |data|);
      MaskedSplit(data, Given(calls[1..]), key, turn);
    }
  }

  // However the data is cut and whichever of the two masks each part, the result is that of
  // byte_mask on the whole, on every machine.
  lemma ChunksMaskWhole(m: Machine, calls: seq<Call>, key: seq<bv8>)
    requires IsMachine(m) && |key| == 4
    ensures Fed(m, calls, PrepareMaskingKey(m, key)) == Masked(Given(calls), key, 0)
  {
    PreparedRepeats(m, key);
    FedFromTurn(m, calls, PrepareMaskingKey(m, key), key, 0);
  }

  // Masking again unmasks.
  lemma MaskedTwice(data: seq<bv8>, key: seq<bv8>, offset: nat)
    requires key != []
    ensures Masked(Masked(data, key, offset), key, offset) == data
  {
    forall i | 0 <= i < |data|
      ensures Masked(Masked(data, key, offset), key, offset)[i] == data[i]
    {
      XorTwice(data[i], key[(i + offset) % |key|]);
    }
  }

  lemma XorTwice(x: bv8, k: bv8)
    ensures (x ^ k) ^ k == x
  {}
}
