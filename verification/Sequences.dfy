// Sequences of sequences, joined.
module Sequences {

  datatype Option<+T> = None | Some(value: T)

  function Concat<X>(pieces: seq<seq<X>>): seq<X> {
    if pieces == [] then [] else pieces[0] + Concat(pieces[1..])
  }

  lemma {:induction false} ConcatAppend<X>(a: seq<seq<X>>, b: seq<seq<X>>)
    ensures Concat(a + b) == Concat(a) + Concat(b)
  {
    if a == [] {
      assert a + b == b;
    } else {
      assert (a + b)[1..] == a[1..] + b;
      ConcatAppend(a[1..], b);
    }
  }

  lemma ConcatNext<X>(pieces: seq<seq<X>>, i: nat)
    requires i < |pieces|
    ensures Concat(pieces[..i + 1]) == Concat(pieces[..i]) + pieces[i]
  {
    assert pieces[..i + 1] == pieces[..i] + [pieces[i]];
    assert Concat([pieces[i]]) == pieces[i];
    ConcatAppend(pieces[..i], [pieces[i]]);
  }

  lemma ConcatAround<X>(pieces: seq<seq<X>>, i: nat)
    requires i < |pieces|
    ensures Concat(pieces) == Concat(pieces[..i]) + pieces[i] + Concat(pieces[i + 1..])
  {
    ConcatAppend(pieces[..i], pieces[i..]);
    assert pieces == pieces[..i] + pieces[i..] && pieces[i..][1..] == pieces[i + 1..];
  }

  lemma {:induction false} ConcatEmpty<X>(pieces: seq<seq<X>>)
    requires forall j | 0 <= j < |pieces| :: pieces[j] == []
    ensures Concat(pieces) == []
  {
    if pieces != [] {
      ConcatEmpty(pieces[1..]);
    }
  }

  lemma {:induction false} ConcatMember<X>(pieces: seq<seq<X>>, x: X) returns (i: nat)
    requires x in Concat(pieces)
    ensures i < |pieces| && x in pieces[i]
  {
    if x in pieces[0] {
      i := 0;
    } else {
      i := ConcatMember(pieces[1..], x);
      i := i + 1;
    }
  }

  lemma {:induction false} MemberConcat<X>(pieces: seq<seq<X>>, i: nat, x: X)
    requires i < |pieces| && x in pieces[i]
    ensures x in Concat(pieces)
  {
    if i > 0 {
      MemberConcat(pieces[1..], i - 1, x);
    }
  }
}
