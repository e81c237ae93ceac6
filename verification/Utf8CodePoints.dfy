// The code points that the UTF-8 decoder assembles.
module Utf8CodePoints {
  import opened Sequences
  import opened Utf8Validator

  predicate IsScalar(v: nat) { v <= 0x10FFFF && !(0xD800 <= v <= 0xDFFF) }

  // RFC 3629, section 3: the shortest form.
  function Encode(v: nat): seq<byte>
    requires IsScalar(v)
  {
    if v < 0x80 then [v]
    else if v < 0x800 then [0xC0 + v / 0x40, 0x80 + v % 0x40]
    else if v < 0x10000 then [0xE0 + v / 0x1000, 0x80 + v / 0x40 % 0x40, 0x80 + v % 0x40]
    else [0xF0 + v / 0x40000, 0x80 + v / 0x1000 % 0x40, 0x80 + v / 0x40 % 0x40, 0x80 + v % 0x40]
  }

  lemma NextInRange(state: nat, b: byte)
    requires state < 9
    ensures Next(state, b) < 9
  {}

  // The code points the decoder has assembled each time it is back in the accepting state.
  function Emitted(state: nat, codep: nat, s: seq<byte>): seq<nat>
    requires state < 9
    decreases s
  {
    if s == [] then []
    else
      NextInRange(state, s[0]);
      var (state', codep') := Stepped(state, codep, s[0]);
      (if state' == ACCEPT then [codep'] else []) + Emitted(state', codep', s[1..])
  }

  // The value of a well-formed character.
  function CodePoint(c: seq<byte>): (v: nat)
    requires IsChar(c)
  {
    var lead: int := c[0];
    match |c|
    case 1 => lead
    case 2 => (lead - 0xC0) * 0x40 + Payload(c[1])
    case 3 => (lead - 0xE0) * 0x1000 + Payload(c[1]) * 0x40 + Payload(c[2])
    case _ => (lead - 0xF0) * 0x40000 + Payload(c[1]) * 0x1000 + Payload(c[2]) * 0x40 + Payload(c[3])
  }

  // The six bits a tail byte carries.
  function Payload(b: byte): (n: nat)
    requires Tail(b)
    ensures n < 0x40 && b == 0x80 + n && b % 0x40 == n
  {
    var n: int := b;
    n - 0x80
  }

  // The digits of a code point in base 64.
  lemma Digits(a: nat, b: nat, c: nat, d: nat)
    requires b < 0x40 && c < 0x40 && d < 0x40
    ensures var v := a * 0x40000 + b * 0x1000 + c * 0x40 + d;
            && v % 0x40 == d && v / 0x40 == a * 0x1000 + b * 0x40 + c && v / 0x40 % 0x40 == c
            && v / 0x1000 == a * 0x40 + b && v / 0x1000 % 0x40 == b && v / 0x40000 == a
  {
    LastDigit(a, b);
    LastDigit(a * 0x40 + b, c);
    LastDigit(a * 0x1000 + b * 0x40 + c, d);
  }

  lemma LastDigit(high: nat, d: nat)
    requires d < 0x40
    ensures (high * 0x40 + d) % 0x40 == d && (high * 0x40 + d) / 0x40 == high
  {}

  // Encodings of two, three and four bytes, by the digits of the code point.
  lemma EncodeDigits(a: nat, b: nat, c: nat, d: nat)
    requires a < 5 && b < 0x40 && c < 0x40 && d < 0x40 && IsScalar(a * 0x40000 + b * 0x1000 + c * 0x40 + d)
    ensures var s := Encode(a * 0x40000 + b * 0x1000 + c * 0x40 + d);
            && (a == b == 0 && 2 <= c < 0x20 ==> s == [0xC0 + c, 0x80 + d])
            && (a == 0 && b < 0x10 && b * 0x40 + c >= 0x20 ==> s == [0xE0 + b, 0x80 + c, 0x80 + d])
            && (a * 0x40 + b >= 0x10 ==> s == [0xF0 + a, 0x80 + b, 0x80 + c, 0x80 + d])
  {
    Digits(a, b, c, d);
  }

  lemma EncodeTwo(c: seq<byte>)
    requires IsChar(c) && |c| == 2
    ensures IsScalar(CodePoint(c)) && Encode(CodePoint(c)) == c
  {
    EncodeDigits(0, 0, c[0] - 0xC0, Payload(c[1]));
  }

  lemma EncodeThree(c: seq<byte>)
    requires IsChar(c) && |c| == 3
    ensures IsScalar(CodePoint(c)) && Encode(CodePoint(c)) == c
  {
    EncodeDigits(0, c[0] - 0xE0, Payload(c[1]), Payload(c[2]));
  }

  lemma EncodeFour(c: seq<byte>)
    requires IsChar(c) && |c| == 4
    ensures IsScalar(CodePoint(c)) && Encode(CodePoint(c)) == c
  {
    EncodeDigits(c[0] - 0xF0, Payload(c[1]), Payload(c[2]), Payload(c[3]));
  }

  lemma EncodeCodePoint(c: seq<byte>)
    requires IsChar(c)
    ensures IsScalar(CodePoint(c)) && Encode(CodePoint(c)) == c
  {
    match |c| {
      case 1 =>
      case 2 => EncodeTwo(c);
      case 3 => EncodeThree(c);
      case _ => EncodeFour(c);
    }
  }

  lemma DecodeTwo(c: nat, d: nat)
    requires 2 <= c < 0x20 && d < 0x40
    ensures var s: seq<byte> := [0xC0 + c, 0x80 + d]; IsChar(s) && CodePoint(s) == c * 0x40 + d
  {}

  lemma DecodeThree(b: nat, c: nat, d: nat)
    requires b < 0x10 && c < 0x40 && d < 0x40 && b * 0x40 + c >= 0x20 && !(b == 0xD && c >= 0x20)
    ensures var s: seq<byte> := [0xE0 + b, 0x80 + c, 0x80 + d]; IsChar(s) && CodePoint(s) == b * 0x1000 + c * 0x40 + d
  {}

  lemma DecodeFour(a: nat, b: nat, c: nat, d: nat)
    requires b < 0x40 && c < 0x40 && d < 0x40 && 0x10 <= a * 0x40 + b < 0x110
    ensures var s: seq<byte> := [0xF0 + a, 0x80 + b, 0x80 + c, 0x80 + d];
            IsChar(s) && CodePoint(s) == a * 0x40000 + b * 0x1000 + c * 0x40 + d
  {}

  lemma CodePointEncode(v: nat)
    requires IsScalar(v)
    ensures IsChar(Encode(v)) && CodePoint(Encode(v)) == v
  {
    var d, r := v % 0x40, v / 0x40;
    var c, q := r % 0x40, r / 0x40;
    var b, a := q % 0x40, q / 0x40;
    assert v == a * 0x40000 + b * 0x1000 + c * 0x40 + d;
    EncodeDigits(a, b, c, d);
    if v < 0x80 {
    } else if v < 0x800 {
      DecodeTwo(c, d);
    } else if v < 0x10000 {
      DecodeThree(b, c, d);
    } else {
      DecodeFour(a, b, c, d);
    }
  }

  // Decoding one character from the accepting state.
  lemma CharEmitted(c: seq<byte>, codep: nat, rest: seq<byte>)
    requires IsChar(c)
    ensures After(ACCEPT, c + rest) == After(ACCEPT, rest)
    ensures Emitted(ACCEPT, codep, c + rest) == [CodePoint(c)] + Emitted(ACCEPT, CodePoint(c), rest)
  {
    CharStart(c);
    Step(ACCEPT, codep, c[0], c[1..] + rest, c + rest);
    if |c| > 1 {
      var lead := LowBits(TypeOf(c[0]), c[0]);
      ShiftedCodePoint(c);
      TailEmitted(Next(ACCEPT, c[0]), lead, c[1..], rest);
    }
  }

  // The code point once the bytes that a state still needs have come.
  function Shifted(codep: nat, t: seq<byte>): nat
    decreases t
  {
    if t == [] then codep else Shifted(codep * 0x40 + t[0] % 0x40, t[1..])
  }

  lemma ShiftedCodePoint(c: seq<byte>)
    requires IsChar(c) && |c| > 1
    ensures var lead := LowBits(TypeOf(c[0]), c[0]);
            Shifted(lead, c[1..]) == CodePoint(c) && Fits(lead, |c| - 1)
  {
    var lead := LowBits(TypeOf(c[0]), c[0]);
    var t := c[1..];
    assert Payload(c[1]) == t[0] % 0x40;
    assert |c| >= 3 ==> Payload(c[2]) == t[1..][0] % 0x40;
    assert |c| >= 4 ==> Payload(c[3]) == t[1..][1..][0] % 0x40;
    var v := lead * 0x40 + t[0] % 0x40;
    assert Shifted(lead, t) == Shifted(v, t[1..]);
    if |c| >= 3 {
      var w := v * 0x40 + t[1..][0] % 0x40;
      assert Shifted(v, t[1..]) == Shifted(w, t[1..][1..]);
      if |c| == 4 {
        var x := w * 0x40 + t[1..][1..][0] % 0x40;
        assert Shifted(w, t[1..][1..]) == Shifted(x, t[1..][1..][1..]) == x;
        assert LowBits(TypeOf(c[0]), c[0]) == c[0] - 0xF0;
      }
    }
  }

  // Shifting in n more bytes does not overflow 32 bits.
  predicate Fits(codep: nat, n: nat) {
    codep < if n <= 1 then 0x10000 else if n == 2 then 0x400 else 0x10
  }

  lemma {:induction false} TailEmitted(state: nat, codep: nat, t: seq<byte>, rest: seq<byte>)
    requires 2 <= state < 9 && Completes(state, t) && Fits(codep, |t|)
    ensures After(state, t + rest) == After(ACCEPT, rest)
    ensures Emitted(state, codep, t + rest) == [Shifted(codep, t)] + Emitted(ACCEPT, Shifted(codep, t), rest)
    decreases t
  {
    CompletesStep(state, t);
    Step(state, codep, t[0], t[1..] + rest, t + rest);
    var codep' := codep * 0x40 + t[0] % 0x40;
    SteppedTail(state, codep, t[0], |t|);
    assert Shifted(codep, t) == Shifted(codep', t[1..]);
    if |t| == 1 {
      assert t[1..] + rest == rest;
    } else {
      FitsNext(codep, t[0], |t|);
      TailEmitted(Next(state, t[0]), codep', t[1..], rest);
    }
  }

  lemma SteppedTail(state: nat, codep: nat, b: byte, n: nat)
    requires state != ACCEPT && Fits(codep, n)
    ensures Stepped(state, codep, b) == (Next(state, b), codep * 0x40 + b % 0x40)
  {
    assert codep * 0x40 % 0x1_0000_0000 == codep * 0x40;
  }

  lemma FitsNext(codep: nat, b: byte, n: nat)
    requires Fits(codep, n) && 2 <= n <= 3
    ensures Fits(codep * 0x40 + b % 0x40, n - 1)
  {}

  lemma Step(state: nat, codep: nat, b: byte, s: seq<byte>, whole: seq<byte>)
    requires state < 9 && whole == [b] + s
    ensures var (state', codep') := Stepped(state, codep, b);
            && state' < 9
            && After(state, whole) == After(state', s)
            && Emitted(state, codep, whole) == (if state' == ACCEPT then [codep'] else []) + Emitted(state', codep', s)
  {
    assert whole[1..] == s;
    NextInRange(state, b);
  }

  function EncodeAll(vs: seq<nat>): seq<byte>
    requires forall i | 0 <= i < |vs| :: IsScalar(vs[i])
  {
    if vs == [] then [] else Encode(vs[0]) + EncodeAll(vs[1..])
  }

  // Decoding well-formed input emits scalar values, and encoding them again gives the input.
  lemma {:induction false} ReEncode(parts: seq<seq<byte>>, codep: nat)
    requires AllChars(parts)
    ensures var vs := Emitted(ACCEPT, codep, Concat(parts));
            && |vs| == |parts| && (forall i | 0 <= i < |vs| :: IsScalar(vs[i])) && EncodeAll(vs) == Concat(parts)
  {
    if parts != [] {
      CharEmitted(parts[0], codep, Concat(parts[1..]));
      EncodeCodePoint(parts[0]);
      ReEncode(parts[1..], CodePoint(parts[0]));
    }
  }

  // Whatever the automaton accepts is the shortest-form encoding of the scalar values it emits.
  lemma AcceptedIsEncoding(s: seq<byte>, codep: nat)
    requires After(ACCEPT, s) == ACCEPT
    ensures var vs := Emitted(ACCEPT, codep, s);
            (forall i | 0 <= i < |vs| :: IsScalar(vs[i])) && EncodeAll(vs) == s
  {
    AcceptsWellFormed(s);
    var parts: seq<seq<byte>> :| AllChars(parts) && Concat(parts) == s;
    ReEncode(parts, codep);
  }

  // Decoding the encoding of any scalar values yields those values, and ends accepting.
  lemma {:induction false} DecodeEncoding(vs: seq<nat>, codep: nat)
    requires forall i | 0 <= i < |vs| :: IsScalar(vs[i])
    ensures Emitted(ACCEPT, codep, EncodeAll(vs)) == vs && After(ACCEPT, EncodeAll(vs)) == ACCEPT
  {
    if vs != [] {
      CodePointEncode(vs[0]);
      CharEmitted(Encode(vs[0]), codep, EncodeAll(vs[1..]));
      DecodeEncoding(vs[1..], vs[0]);
    }
  }
}
