// Catch's generators: one index per generator of a test case, stepped like an odometer between runs of the test.
module Generators {

  predicate InRange(indices: seq<nat>, sizes: seq<nat>) {
    |indices| == |sizes| && forall i | 0 <= i < |sizes| :: indices[i] < sizes[i]
  }

  function Product(sizes: seq<nat>): nat {
    if sizes == [] then 1 else sizes[0] * Product(sizes[1..])
  }

  // The number whose mixed-radix digits the indices are, least significant first.
  function Value(indices: seq<nat>, sizes: seq<nat>): nat
    requires |indices| == |sizes|
  {
    if sizes == [] then 0 else indices[0] + sizes[0] * Value(indices[1..], sizes[1..])
  }

  function Zeros(n: nat): seq<nat> { seq(n, _ => 0) }

  // One step of the odometer: the new indices, and whether some generator moved on.
  function Next(indices: seq<nat>, sizes: seq<nat>): (seq<nat>, bool)
    requires |indices| == |sizes|
  {
    if indices == [] then ([], false)
    else if indices[0] + 1 == sizes[0] then
      var (rest, more) := Next(indices[1..], sizes[1..]);
      ([0] + rest, more)
    else ([indices[0] + 1] + indices[1..], true)
  }

  lemma MulStep(n: nat, v: nat, w: nat)
    requires v < w
    ensures n * v + n <= n * w
  {
    var d := w - v - 1;
    assert n * d >= 0;
    calc {
      n * w;
      n * (v + (1 + d));
      n * v + n * (1 + d);
      n * v + n + n * d;
    }
  }

  lemma {:induction false} ValueBound(indices: seq<nat>, sizes: seq<nat>)
    requires InRange(indices, sizes)
    ensures Value(indices, sizes) < Product(sizes)
  {
    if sizes != [] {
      ValueBound(indices[1..], sizes[1..]);
      MulStep(sizes[0], Value(indices[1..], sizes[1..]), Product(sizes[1..]));
    }
  }

  // Different index combinations have different values, so the values name the combinations.
  lemma {:induction false} ValueInjective(a: seq<nat>, b: seq<nat>, sizes: seq<nat>)
    requires InRange(a, sizes) && InRange(b, sizes) && Value(a, sizes) == Value(b, sizes)
    ensures a == b
  {
    if sizes != [] {
      var v, w := Value(a[1..], sizes[1..]), Value(b[1..], sizes[1..]);
      if v < w {
        MulStep(sizes[0], v, w);
      } else if w < v {
        MulStep(sizes[0], w, v);
      }
      ValueInjective(a[1..], b[1..], sizes[1..]);
      assert a == [a[0]] + a[1..] && b == [b[0]] + b[1..];
    }
  }

  lemma {:induction false} ZerosValue(sizes: seq<nat>)
    ensures Value(Zeros(|sizes|), sizes) == 0
  {
    if sizes != [] {
      assert Zeros(|sizes|)[1..] == Zeros(|sizes| - 1);
      ZerosValue(sizes[1..]);
    }
  }

  // The odometer counts: it adds one to the value, or starts again from zero after the last combination.
  // A carry to the next place.
  lemma CarryCounts(n: nat, v: nat, q: nat)
    requires n > 0 && v < q
    ensures n * (v + 1) == n * v + n && n * (v + 1) <= n * q
    ensures v + 1 < q <==> n * (v + 1) < n * q
  {
    MulStep(n, v, q);
    if v + 1 < q {
      MulStep(n, v + 1, q);
    }
  }

  lemma {:induction false} NextCounts(indices: seq<nat>, sizes: seq<nat>)
    requires InRange(indices, sizes)
    ensures var (next, more) := Next(indices, sizes);
            && InRange(next, sizes)
            && (more <==> Value(indices, sizes) + 1 < Product(sizes))
            && (more ==> Value(next, sizes) == Value(indices, sizes) + 1)
            && (!more ==> next == Zeros(|sizes|))
  {
    if sizes != [] {
      var rest, tail := indices[1..], sizes[1..];
      NextCounts(rest, tail);
      ValueBound(rest, tail);
      var n, v, q := sizes[0], Value(rest, tail), Product(tail);
      assert Value(indices, sizes) == indices[0] + n * v && Product(sizes) == n * q;
      if indices[0] + 1 == n {
        var (next, more) := Next(rest, tail);
        assert ([0] + next)[1..] == next;
        CarryCounts(n, v, q);
        assert more ==> Value([0] + next, sizes) == n * (v + 1);
      } else {
        assert ([indices[0] + 1] + rest)[1..] == rest;
        MulStep(n, v, q);
      }
    }
  }

  // The step clears the generators that are at their last index and moves the first one that is not.
  lemma {:induction false} NextAt(indices: seq<nat>, sizes: seq<nat>, i: nat)
    requires |indices| == |sizes| && i <= |sizes| && forall j | 0 <= j < i :: indices[j] + 1 == sizes[j]
    ensures i == |sizes| ==> Next(indices, sizes) == (Zeros(i), false)
    ensures i < |sizes| && indices[i] + 1 != sizes[i] ==>
              Next(indices, sizes) == (Zeros(i) + [indices[i] + 1] + indices[i + 1..], true)
  {
    if i > 0 {
      NextAt(indices[1..], sizes[1..], i - 1);
      assert [0] + Zeros(i - 1) == Zeros(i);
      if i < |sizes| {
        assert [0] + (Zeros(i - 1) + [indices[i] + 1] + indices[1..][i..])
            == Zeros(i) + [indices[i] + 1] + indices[i + 1..];
      }
    } else if sizes != [] {
      assert Zeros(0) + [indices[0] + 1] + indices[1..] == [indices[0] + 1] + indices[1..];
    }
  }

  // The indices once i generators are back at zero.
  function Cleared(start: seq<nat>, i: nat): (now: seq<nat>)
    requires i <= |start|
    ensures |now| == |start|
  {
    Zeros(i) + start[i..]
  }

  lemma ClearedNext(start: seq<nat>, sizes: seq<nat>, i: nat)
    requires InRange(start, sizes) && i < |start|
    ensures var now := Cleared(start, i);
            && now[i] == start[i] && InRange(Cleared(start, i + 1), sizes)
            && now[i := 0] == Cleared(start, i + 1)
            && now[i := start[i] + 1] == Zeros(i) + [start[i] + 1] + start[i + 1..]
  {}

  lemma ClearedEnds(start: seq<nat>)
    ensures Cleared(start, 0) == start && Cleared(start, |start|) == Zeros(|start|)
  {}

  // Counting through all values meets every combination.
  lemma EveryCombination(runs: seq<seq<nat>>, sizes: seq<nat>, combination: seq<nat>)
    requires |runs| == Product(sizes) && InRange(combination, sizes)
    requires forall k | 0 <= k < |runs| :: InRange(runs[k], sizes) && Value(runs[k], sizes) == k
    ensures combination in runs
  {
    ValueBound(combination, sizes);
    var k := Value(combination, sizes);
    ValueInjective(runs[k], combination, sizes);
  }

  class GeneratorInfo {
    const size: nat
    var currentIndex: nat

    constructor (size: nat)
      ensures this.size == size && currentIndex == 0
    {
      this.size, currentIndex := size, 0;
    }

    method MoveNext() returns (moved: bool)
      modifies this
      ensures moved <==> old(currentIndex) + 1 != size
      ensures currentIndex == if moved then old(currentIndex) + 1 else 0
    {
      currentIndex := currentIndex + 1;
      if currentIndex == size {
        currentIndex := 0;
        return false;
      }
      return true;
    }
  }

  class GeneratorsForTest {
    var generatorsByName: map<string, GeneratorInfo>
    var generatorsInOrder: seq<GeneratorInfo>

    constructor ()
      ensures Valid() && generatorsInOrder == [] && generatorsByName == map[]
    {
      generatorsByName, generatorsInOrder := map[], [];
    }

    ghost predicate Listed()
      reads this
    {
      && (forall i, j | 0 <= i < j < |generatorsInOrder| :: generatorsInOrder[i] != generatorsInOrder[j])
      && (forall name | name in generatorsByName :: generatorsByName[name] in generatorsInOrder)
    }

    ghost predicate Valid()
      reads this, generatorsInOrder
    {
      Listed() && InRange(Indices(), Sizes())
    }

    function Sizes(): seq<nat>
      reads this
    {
      seq(|generatorsInOrder|, i requires 0 <= i < |generatorsInOrder| reads this => generatorsInOrder[i].size)
    }

    function Indices(): seq<nat>
      reads this, generatorsInOrder
    {
      seq(|generatorsInOrder|, i requires 0 <= i < |generatorsInOrder| reads this, generatorsInOrder =>
        generatorsInOrder[i].currentIndex)
    }

    // The generator registered under this name, added as the slowest one when it is new.
    method GetGeneratorInfo(name: string, size: nat) returns (info: GeneratorInfo)
      requires Valid() && size >= 1
      modifies this
      ensures Valid()
      ensures if name in old(generatorsByName) then
                info == old(generatorsByName[name]) && unchanged(this)
              else
                && fresh(info) && generatorsByName == old(generatorsByName)[name := info]
                && Sizes() == old(Sizes()) + [size] && Indices() == old(Indices()) + [0]
    {
      if name !in generatorsByName {
        info := new GeneratorInfo(size);
        generatorsByName := generatorsByName[name := info];
        generatorsInOrder := generatorsInOrder + [info];
        assert Sizes() == old(Sizes()) + [size] && Indices() == old(Indices()) + [0];
        return info;
      }
      return generatorsByName[name];
    }

    // Moves the i-th generator.
    method MoveOne(i: nat) returns (moved: bool)
      requires Valid() && i < |generatorsInOrder|
      modifies generatorsInOrder
      ensures generatorsInOrder == old(generatorsInOrder) && Sizes() == old(Sizes())
      ensures moved <==> old(Indices())[i] + 1 != Sizes()[i]
      ensures Indices() == old(Indices())[i := if moved then old(Indices())[i] + 1 else 0]
    {
      moved := generatorsInOrder[i].MoveNext();
    }

    method MoveNext() returns (more: bool)
      requires Valid()
      modifies generatorsInOrder
      ensures Valid() && Sizes() == old(Sizes())
      ensures (Indices(), more) == old(Next(Indices(), Sizes()))
    {
      ghost var start, sizes := Indices(), Sizes();
      NextCounts(start, sizes);
      ClearedEnds(start);
      for i := 0 to |generatorsInOrder|
        invariant forall j | 0 <= j < i :: start[j] + 1 == sizes[j]
        invariant Valid() && Sizes() == sizes && Indices() == Cleared(start, i)
      {
        NextAt(start, sizes, i);
        ClearedNext(start, sizes, i);
        var moved := MoveOne(i);
        if moved {
          assert (Indices(), true) == Next(start, sizes);
          return true;
        }
        assert Indices() == Cleared(start, i + 1);
      }
      NextAt(start, sizes, |start|);
      assert (Indices(), false) == Next(start, sizes);
      return false;
    }
  }
}
