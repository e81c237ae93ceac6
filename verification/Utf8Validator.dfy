// The streaming UTF-8 validator: a table-driven automaton that also assembles code points.
module Utf8Validator {
  import opened Sequences

  type byte = b: int | 0 <= b < 256

  const ACCEPT: nat := 0
  const REJECT: nat := 1

  // A run of n equal table entries.
  function Run(v: nat, n: nat): (s: seq<nat>)
    ensures |s| == n && forall i | 0 <= i < n :: s[i] == v
  {
    seq(n, _ => v)
  }

  // The first 256 entries of the lookup table: the type of each byte.
  const BYTE_TYPES: seq<nat> :=
    Run(0, 0x80) + Run(1, 0x10) + Run(9, 0x10) + Run(7, 0x20) + Run(8, 2) + Run(2, 0x1E)
    + [0xA] + Run(3, 12) + [4] + Run(3, 2) + [0xB] + Run(6, 3) + [5] + Run(8, 11)

  // The other entries: for each state, the next state by byte type.
  const S0: seq<nat> := [0, 1, 2, 3, 5, 8, 7, 1, 1, 1, 4, 6, 1, 1, 1, 1]
  const S1: seq<nat> := [1, 1, 1, 1, 1, 1, 1, 1, 1, 1, 1, 1, 1, 1, 1, 1]
  const S2: seq<nat> := [1, 0, 1, 1, 1, 1, 1, 0, 1, 0, 1, 1, 1, 1, 1, 1]
  const S3: seq<nat> := [1, 2, 1, 1, 1, 1, 1, 2, 1, 2, 1, 1, 1, 1, 1, 1]
  const S4: seq<nat> := [1, 1, 1, 1, 1, 1, 1, 2, 1, 1, 1, 1, 1, 1, 1, 1]
  const S5: seq<nat> := [1, 2, 1, 1, 1, 1, 1, 1, 1, 2, 1, 1, 1, 1, 1, 1]
  const S6: seq<nat> := [1, 1, 1, 1, 1, 1, 1, 3, 1, 3, 1, 1, 1, 1, 1, 1]
  const S7: seq<nat> := [1, 3, 1, 1, 1, 1, 1, 3, 1, 3, 1, 1, 1, 1, 1, 1]
  const S8: seq<nat> := [1, 3, 1, 1, 1, 1, 1, 1, 1, 1, 1, 1, 1, 1, 1, 1]

  const STATES := S0 + S1 + S2 + S3 + S4 + S5 + S6 + S7 + S8

  const UTF8D: seq<nat> := BYTE_TYPES + STATES

  // The type of a byte, by range.
  function TypeOf(b: byte): nat {
    if b < 0x80 then 0
    else if b < 0x90 then 1
    else if b < 0xA0 then 9
    else if b < 0xC0 then 7
    else if b < 0xC2 then 8
    else if b < 0xE0 then 2
    else if b == 0xE0 then 0xA
    else if b == 0xED then 4
    else if b < 0xF0 then 3
    else if b == 0xF0 then 0xB
    else if b < 0xF4 then 6
    else if b == 0xF4 then 5
    else 8
  }

  lemma TableTypes(b: byte)
    ensures |UTF8D| == 400 && UTF8D[b] == TypeOf(b)
  {
    assert UTF8D[b] == BYTE_TYPES[b];
  }

  // The next state, by state and byte range.
  function Next(state: nat, b: byte): nat {
    var t := TypeOf(b);
    match state
    case 0 =>
      (match t
       case 0 => 0
       case 2 => 2
       case 3 => 3
       case 4 => 5
       case 5 => 8
       case 6 => 7
       case 10 => 4
       case 11 => 6
       case _ => 1)
    case 2 => if t in {1, 7, 9} then 0 else 1
    case 3 => if t in {1, 7, 9} then 2 else 1
    case 4 => if t == 7 then 2 else 1
    case 5 => if t in {1, 9} then 2 else 1
    case 6 => if t in {7, 9} then 3 else 1
    case 7 => if t in {1, 7, 9} then 3 else 1
    case 8 => if t == 1 then 3 else 1
    case _ => 1
  }

  lemma TableStates(state: nat, b: byte)
    requires state < 9
    ensures |UTF8D| == 400 && UTF8D[256 + state * 16 + TypeOf(b)] == Next(state, b) < 9
  {
    var t := TypeOf(b);
    assert UTF8D[256 + state * 16 + t] == STATES[state * 16 + t];
    Rows(S0, S1, S2, S3, S4, S5, S6, S7, S8, t);
    match state {
      case 0 =>
      case 1 =>
      case 2 =>
      case 3 =>
      case 4 =>
      case 5 =>
      case 6 =>
      case 7 =>
      case 8 =>
    }
  }

  lemma Rows(a: seq<nat>, b: seq<nat>, c: seq<nat>, d: seq<nat>, e: seq<nat>,
             f: seq<nat>, g: seq<nat>, h: seq<nat>, i: seq<nat>, t: nat)
    requires |a| == |b| == |c| == |d| == |e| == |f| == |g| == |h| == |i| == 16 && t < 16
    ensures var s := a + b + c + d + e + f + g + h + i;
            && s[t] == a[t] && s[16 + t] == b[t] && s[32 + t] == c[t] && s[48 + t] == d[t] && s[64 + t] == e[t]
            && s[80 + t] == f[t] && s[96 + t] == g[t] && s[112 + t] == h[t] && s[128 + t] == i[t]
  {}

  // (0xff >> type) & byte.
  function LowBits(t: nat, b: byte): nat {
    match t
    case 0 => b
    case 1 => b % 0x80
    case 2 => b % 0x40
    case 3 => b % 0x20
    case 4 => b % 0x10
    case 5 => b % 8
    case 6 => b % 4
    case 7 => b % 2
    case _ => 0
  }

  function Pow2(n: nat): nat {
    if n == 0 then 1 else 2 * Pow2(n - 1)
  }

  lemma PowersOf2()
    ensures Pow2(0) == 1 && Pow2(1) == 2 && Pow2(2) == 4 && Pow2(3) == 8 && Pow2(4) == 0x10 && Pow2(5) == 0x20
    ensures Pow2(6) == 0x40 && Pow2(7) == 0x80 && Pow2(8) == 0x100
  {}

  // Eight ones that are shifted by the type leave that many low bits of the byte.
  lemma LowBitsAreLow(t: nat, b: byte)
    ensures t <= 8 ==> var w := Pow2(8 - t); LowBits(t, b) < w && b == b / w * w + LowBits(t, b)
    ensures t > 8 ==> LowBits(t, b) == 0
  {
    PowersOf2();
  }

  // The new state and code point after a byte. The bits that are or-ed together do not overlap.
  function Stepped(state: nat, codep: nat, b: byte): (nat, nat) {
    (Next(state, b), if state != ACCEPT then b % 0x40 + codep * 0x40 % 0x1_0000_0000 else LowBits(TypeOf(b), b))
  }

  // One step of the decoder, by the table.
  function DecodeByte(state: nat, codep: nat, b: byte): (r: (nat, nat))
    requires state < 9
    ensures r == Stepped(state, codep, b) && r.0 < 9
  {
    TableTypes(b);
    TableStates(state, b);
    var t := UTF8D[b];
    var codep' := if state != ACCEPT then b % 0x40 + codep * 0x40 % 0x1_0000_0000 else LowBits(t, b);
    (UTF8D[256 + state * 16 + t], codep')
  }

  // The state after some bytes.
  function After(state: nat, s: seq<byte>): (end: nat)
    requires state < 9
    ensures end < 9
    decreases s
  {
    if s == [] then state
    else
      TableStates(state, s[0]);
      After(Next(state, s[0]), s[1..])
  }

  // The state and code point after some bytes.
  function SteppedAll(state: nat, codep: nat, s: seq<byte>): (end: (nat, nat))
    requires state < 9
    ensures end.0 == After(state, s)
    decreases s
  {
    if s == [] then (state, codep)
    else
      TableStates(state, s[0]);
      var (state', codep') := Stepped(state, codep, s[0]);
      SteppedAll(state', codep', s[1..])
  }

  class Validator {
    var state: nat
    var codepoint: nat
    // All bytes since the start or the last reset.
    ghost var given: seq<byte>

    ghost predicate Valid()
      reads this
    {
      state == After(ACCEPT, given)
    }

    constructor ()
      ensures Valid() && state == ACCEPT && codepoint == 0 && given == []
    {
      state, codepoint, given := ACCEPT, 0, [];
    }

    method Consume(b: byte) returns (ok: bool)
      requires Valid()
      modifies this
      ensures Valid() && given == old(given) + [b]
      ensures (state, codepoint) == Stepped(old(state), old(codepoint), b)
      ensures ok <==> state != REJECT
    {
      var (s, c) := DecodeByte(state, codepoint, b);
      AfterSplit(ACCEPT, given, [b]);
      assert After(state, [b]) == s;
      state, codepoint, given := s, c, given + [b];
      return state != REJECT;
    }

    // Feeds some bytes; false as soon as one is rejected.
    method Decode(bytes: seq<byte>) returns (ok: bool)
      requires Valid()
      modifies this
      ensures Valid() && given == old(given) + bytes && state == After(old(state), bytes)
      ensures ok <==> bytes == [] || state != REJECT
      ensures ok ==> (state, codepoint) == SteppedAll(old(state), old(codepoint), bytes)
    {
      AfterSplit(ACCEPT, given, bytes);
      given := given + bytes;
      for i := 0 to |bytes|
        invariant state < 9 && given == old(given) + bytes
        invariant SteppedAll(old(state), old(codepoint), bytes) == SteppedAll(state, codepoint, bytes[i..])
        invariant i > 0 ==> state != REJECT
      {
        var (s, c) := DecodeByte(state, codepoint, bytes[i]);
        assert bytes[i..][1..] == bytes[i + 1..];
        state, codepoint := s, c;
        if state == REJECT {
          RejectAbsorbs(bytes[i + 1..]);
          return false;
        }
      }
      return true;
    }

    // Whether what was given so far is well formed, and not cut within a character.
    method Complete() returns (complete: bool)
      requires Valid()
      ensures complete <==> WellFormed(given)
    {
      AcceptsWellFormed(given);
      return state == ACCEPT;
    }

    method Reset()
      modifies this
      ensures Valid() && state == ACCEPT && codepoint == 0 && given == []
    {
      state, codepoint, given := ACCEPT, 0, [];
    }
  }

  lemma {:induction false} RejectAbsorbs(s: seq<byte>)
    ensures After(REJECT, s) == REJECT
  {
    if s != [] {
      RejectAbsorbs(s[1..]);
    }
  }

  lemma {:induction false} AfterSplit(state: nat, a: seq<byte>, b: seq<byte>)
    requires state < 9
    ensures After(state, a + b) == After(After(state, a), b)
    decreases a
  {
    if a == [] {
      assert a + b == b;
    } else {
      assert (a + b)[1..] == a[1..] + b;
      AfterSplit(Next(state, a[0]), a[1..], b);
    }
  }

  method Validate(s: seq<byte>) returns (valid: bool)
    ensures valid <==> WellFormed(s)
  {
    var v := new Validator();
    var ok := v.Decode(s);
    AcceptsWellFormed(s);
    assert [] + s == s;
    if !ok {
      return false;
    }
    valid := v.Complete();
  }

  // ----- RFC 3629, section 4

  predicate Tail(b: byte) { 0x80 <= b <= 0xBF }

  predicate IsChar(c: seq<byte>) {
    match |c|
    case 1 => c[0] <= 0x7F
    case 2 => 0xC2 <= c[0] <= 0xDF && Tail(c[1])
    case 3 =>
      && Tail(c[2])
      && (|| (c[0] == 0xE0 && 0xA0 <= c[1] <= 0xBF)
          || (0xE1 <= c[0] <= 0xEC && Tail(c[1]))
          || (c[0] == 0xED && 0x80 <= c[1] <= 0x9F)
          || (0xEE <= c[0] <= 0xEF && Tail(c[1])))
    case 4 =>
      && Tail(c[2]) && Tail(c[3])
      && (|| (c[0] == 0xF0 && 0x90 <= c[1] <= 0xBF)
          || (0xF1 <= c[0] <= 0xF3 && Tail(c[1]))
          || (c[0] == 0xF4 && 0x80 <= c[1] <= 0x8F))
    case _ => false
  }

  predicate AllChars(parts: seq<seq<byte>>) { forall i | 0 <= i < |parts| :: IsChar(parts[i]) }

  // A concatenation of well-formed characters.
  ghost predicate WellFormed(s: seq<byte>) {
    exists parts: seq<seq<byte>> :: AllChars(parts) && Concat(parts) == s
  }

  // ----- the automaton recognises it

  // How many bytes a character still needs in each state.
  function Need(state: nat): nat
    requires 2 <= state < 9
  {
    if state == 2 then 1 else if state <= 5 then 2 else 3
  }

  // The bytes that complete a character in each state.
  predicate Completes(state: nat, t: seq<byte>)
    requires 2 <= state < 9
  {
    && |t| == Need(state) && Tail(t[|t| - 1]) && (|t| == 3 ==> Tail(t[1]))
    && match state
       case 4 => 0xA0 <= t[0] <= 0xBF
       case 5 => 0x80 <= t[0] <= 0x9F
       case 6 => 0x90 <= t[0] <= 0xBF
       case 8 => 0x80 <= t[0] <= 0x8F
       case _ => Tail(t[0])
  }

  // The byte strings that are accepted from each state.
  ghost predicate Rest(state: nat, s: seq<byte>)
    requires state < 9
  {
    if state == ACCEPT then WellFormed(s)
    else if state == REJECT then false
    else |s| >= Need(state) && Completes(state, s[..Need(state)]) && WellFormed(s[Need(state)..])
  }

  lemma WellFormedFirst(s: seq<byte>)
    ensures WellFormed(s) <==> s == [] || exists n :: 1 <= n <= |s| && IsChar(s[..n]) && WellFormed(s[n..])
  {
    if WellFormed(s) {
      var parts: seq<seq<byte>> :| AllChars(parts) && Concat(parts) == s;
      if parts != [] {
        var n := |parts[0]|;
        assert IsChar(parts[0]) && AllChars(parts[1..]);
        assert s[..n] == parts[0] && s[n..] == Concat(parts[1..]);
      }
    }
    if s == [] {
      assert AllChars([]) && Concat<byte>([]) == s;
    } else if n :| 1 <= n <= |s| && IsChar(s[..n]) && WellFormed(s[n..]) {
      PrependChar(s[..n], s[n..]);
      assert s == s[..n] + s[n..];
    }
  }

  lemma PrependChar(c: seq<byte>, rest: seq<byte>)
    requires IsChar(c) && WellFormed(rest)
    ensures WellFormed(c + rest)
  {
    var parts: seq<seq<byte>> :| AllChars(parts) && Concat(parts) == rest;
    var all := [c] + parts;
    assert all[1..] == parts && AllChars(all);
  }

  lemma CharStart(c: seq<byte>)
    requires c != []
    ensures var st := Next(ACCEPT, c[0]);
            IsChar(c) <==>
              if |c| == 1 then st == ACCEPT else 2 <= st < 9 && |c| == 1 + Need(st) && Completes(st, c[1..])
  {}

  lemma CompletesStep(state: nat, t: seq<byte>)
    requires 2 <= state < 9 && t != []
    ensures var st := Next(state, t[0]);
            Completes(state, t) <==>
              if |t| == 1 then state == 2 && st == ACCEPT
              else 2 <= st < 9 && Need(state) == 1 + Need(st) && Completes(st, t[1..])
    ensures Next(state, t[0]) == ACCEPT <==> state == 2 && Tail(t[0])
    ensures Next(state, t[0]) in {0, 1} || Need(state) == 1 + Need(Next(state, t[0]))
  {}

  lemma RestStep(state: nat, s: seq<byte>)
    requires state < 9 && s != []
    ensures Next(state, s[0]) < 9 && (Rest(state, s) <==> Rest(Next(state, s[0]), s[1..]))
  {
    TableStates(state, s[0]);
    var st := Next(state, s[0]);
    if state == ACCEPT {
      WellFormedFirst(s);
      forall n | 1 <= n <= |s|
        ensures IsChar(s[..n]) <==>
                  if n == 1 then st == ACCEPT else 2 <= st && n == 1 + Need(st) && Completes(st, s[1..][..n - 1])
      {
        CharStart(s[..n]);
        assert s[..n][1..] == s[1..][..n - 1];
      }
      if st >= 2 && |s| >= 1 + Need(st) {
        assert s[1..][Need(st)..] == s[1 + Need(st)..];
      }
    } else if state != REJECT {
      var n := Need(state);
      if |s| >= n {
        CompletesStep(state, s[..n]);
        assert s[..n][1..] == s[1..][..n - 1] && s[1..][n - 1..] == s[n..];
      } else {
        CompletesStep(state, s);
      }
    }
  }

  lemma {:induction false} AcceptsRest(state: nat, s: seq<byte>)
    requires state < 9
    ensures After(state, s) == ACCEPT <==> Rest(state, s)
    decreases s
  {
    if s == [] {
      WellFormedFirst(s);
    } else {
      RestStep(state, s);
      AcceptsRest(Next(state, s[0]), s[1..]);
    }
  }

  // The automaton accepts exactly the concatenations of well-formed characters.
  lemma AcceptsWellFormed(s: seq<byte>)
    ensures After(ACCEPT, s) == ACCEPT <==> WellFormed(s)
  {
    AcceptsRest(ACCEPT, s);
  }

  // However the input is split into chunks for one validator, all decode calls succeed and the validator ends complete
  // exactly when the whole input is well formed.
  lemma ChunksVerdict(chunks: seq<seq<byte>>)
    ensures (forall i | 0 < i <= |chunks| :: chunks[i - 1] == [] || After(ACCEPT, Concat(chunks[..i])) != REJECT)
              && After(ACCEPT, Concat(chunks)) == ACCEPT
            <==> WellFormed(Concat(chunks))
  {
    AcceptsWellFormed(Concat(chunks));
    forall i | 0 < i <= |chunks|
      ensures After(ACCEPT, Concat(chunks[..i])) == REJECT ==> After(ACCEPT, Concat(chunks)) == REJECT
    {
      ConcatAppend(chunks[..i], chunks[i..]);
      assert chunks == chunks[..i] + chunks[i..];
      AfterSplit(ACCEPT, Concat(chunks[..i]), Concat(chunks[i..]));
      RejectAbsorbs(Concat(chunks[i..]));
    }
  }
}
