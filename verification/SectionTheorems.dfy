// What the planned cycles of a test case amount to.
module SectionTheorems {
  import opened Sequences
  import opened Trackers
  import opened SectionPlans

  ghost predicate Distinct<X>(xs: seq<X>) {
    forall i, j | 0 <= i < j < |xs| :: xs[i] != xs[j]
  }

  // A path of section names below s that ends at a leaf body.
  ghost predicate LeafAt(s: Section, below: Path) {
    if s.IsLeaf() then below == []
    else below != [] && exists i :: 0 <= i < |s.kids| && s.kids[i].id == below[0] && LeafAt(s.kids[i], below[1..])
  }

  // The bodies whose last section is a throwing leaf.
  function Settlings(s: Section): nat {
    Sum(seq(|s.kids|, i requires 0 <= i < |s.kids| => Settlings(s.kids[i]))) + if s.Settles() then 1 else 0
  }

  function Sum(ns: seq<nat>): nat {
    if ns == [] then 0 else ns[0] + Sum(ns[1..])
  }

  lemma {:induction false} ConcatTwice<X>(a: seq<seq<seq<X>>>, b: seq<seq<X>>)
    requires |a| == |b| && forall i | 0 <= i < |a| :: Concat(a[i]) == b[i]
    ensures Concat(Concat(a)) == Concat(b)
  {
    if a != [] {
      ConcatTwice(a[1..], b[1..]);
      ConcatAppend(a[0], Concat(a[1..]));
    }
  }

  // Over all its cycles, a test case enters its leaf bodies in depth-first order.
  lemma {:induction false} CyclesEnterLeaves(s: Section, p: Path)
    ensures Concat(FullPlan(s, p)) == Leaves(s, p)
  {
    if s.IsLeaf() {
      assert Concat([[p]]) == [p];
    } else {
      var plans := seq(|s.kids|, i requires 0 <= i < |s.kids| => FullPlan(s.kids[i], p + [s.kids[i].id]));
      var leaves := seq(|s.kids|, i requires 0 <= i < |s.kids| => Leaves(s.kids[i], p + [s.kids[i].id]));
      forall i | 0 <= i < |s.kids|
        ensures Concat(plans[i]) == leaves[i]
      {
        CyclesEnterLeaves(s.kids[i], p + [s.kids[i].id]);
      }
      ConcatTwice(plans, leaves);
      ConcatAppend(Concat(plans), [[]]);
      assert Concat<Path>([[]]) == [];
      assert Concat(plans) + [] == Concat(plans);
      assert Leaves(s, p) == Concat(leaves) == Concat(leaves) + [];
    }
  }

  lemma {:induction false} CycleShapes(s: Section, p: Path)
    ensures forall cycle | cycle in FullPlan(s, p) :: |cycle| <= 1
  {
    if !s.IsLeaf() {
      var plans := seq(|s.kids|, i requires 0 <= i < |s.kids| => FullPlan(s.kids[i], p + [s.kids[i].id]));
      forall cycle | cycle in Concat(plans)
        ensures |cycle| <= 1
      {
        var i := ConcatMember(plans, cycle);
        CycleShapes(s.kids[i], p + [s.kids[i].id]);
      }
    }
  }

  lemma {:induction false} ConcatDistinct<X>(pieces: seq<seq<X>>)
    requires forall i | 0 <= i < |pieces| :: Distinct(pieces[i])
    requires forall i, j, x | 0 <= i < j < |pieces| && x in pieces[i] :: x !in pieces[j]
    ensures Distinct(Concat(pieces))
  {
    if pieces != [] {
      var rest := pieces[1..];
      ConcatDistinct(rest);
      forall x | x in Concat(rest)
        ensures x !in pieces[0]
      {
        var i := ConcatMember(rest, x);
        assert x in pieces[i + 1];
      }
      var whole, n := pieces[0] + Concat(rest), |pieces[0]|;
      forall i, j | 0 <= i < j < |whole|
        ensures whole[i] != whole[j]
      {
        if j < n {
          assert whole[i] == pieces[0][i] && whole[j] == pieces[0][j];
        } else if i < n {
          assert whole[i] in pieces[0] && whole[j] == Concat(rest)[j - n] && whole[j] in Concat(rest);
        } else {
          assert whole[i] == Concat(rest)[i - n] && whole[j] == Concat(rest)[j - n];
        }
      }
    }
  }

  lemma {:induction false} LeavesAreLeaves(s: Section, p: Path)
    requires s.WellFormed()
    ensures forall q | q in Leaves(s, p) :: p <= q && LeafAt(s, q[|p|..])
  {
    if s.IsLeaf() {
      assert p[|p|..] == [];
    } else {
      var leaves := seq(|s.kids|, i requires 0 <= i < |s.kids| => Leaves(s.kids[i], p + [s.kids[i].id]));
      forall q | q in Concat(leaves)
        ensures p <= q && LeafAt(s, q[|p|..])
      {
        var i := ConcatMember(leaves, q);
        LeavesAreLeaves(s.kids[i], p + [s.kids[i].id]);
        var below := q[|p|..];
        assert q[|p|] == s.kids[i].id && below[1..] == q[|p| + 1..];
      }
    }
  }

  lemma {:induction false} LeavesHaveAll(s: Section, p: Path, below: Path)
    requires s.WellFormed() && LeafAt(s, below)
    ensures p + below in Leaves(s, p)
  {
    if s.IsLeaf() {
      assert p + [] == p;
    } else {
      var leaves := seq(|s.kids|, i requires 0 <= i < |s.kids| => Leaves(s.kids[i], p + [s.kids[i].id]));
      var i :| 0 <= i < |s.kids| && s.kids[i].id == below[0] && LeafAt(s.kids[i], below[1..]);
      LeavesHaveAll(s.kids[i], p + [s.kids[i].id], below[1..]);
      assert p + [s.kids[i].id] + below[1..] == p + below;
      MemberConcat(leaves, i, p + below);
    }
  }

  lemma {:induction false} LeavesDistinct(s: Section, p: Path)
    requires s.WellFormed()
    ensures Distinct(Leaves(s, p))
  {
    if !s.IsLeaf() {
      var leaves := seq(|s.kids|, i requires 0 <= i < |s.kids| => Leaves(s.kids[i], p + [s.kids[i].id]));
      forall i | 0 <= i < |s.kids|
        ensures Distinct(leaves[i])
        ensures forall q | q in leaves[i] :: p + [s.kids[i].id] <= q
      {
        LeavesDistinct(s.kids[i], p + [s.kids[i].id]);
        LeavesAreLeaves(s.kids[i], p + [s.kids[i].id]);
      }
      forall i, j, q | 0 <= i < j < |leaves| && q in leaves[i]
        ensures q !in leaves[j]
      {
        assert q[|p|] == s.kids[i].id;
      }
      ConcatDistinct(leaves);
    }
  }

  // Every leaf body is entered, none twice, and nothing else is.
  lemma LeavesExact(s: Section, p: Path)
    requires s.WellFormed()
    ensures Distinct(Leaves(s, p))
    ensures forall q | q in Leaves(s, p) :: p <= q && LeafAt(s, q[|p|..])
    ensures forall below | LeafAt(s, below) :: p + below in Leaves(s, p)
  {
    LeavesDistinct(s, p);
    LeavesAreLeaves(s, p);
    forall below | LeafAt(s, below)
      ensures p + below in Leaves(s, p)
    {
      LeavesHaveAll(s, p, below);
    }
  }

  lemma {:induction false} ConcatLength<X, Y>(a: seq<seq<X>>, b: seq<seq<Y>>, ns: seq<nat>)
    requires |a| == |b| == |ns| && forall i | 0 <= i < |a| :: |a[i]| == |b[i]| + ns[i]
    ensures |Concat(a)| == |Concat(b)| + Sum(ns)
  {
    if a != [] {
      ConcatLength(a[1..], b[1..], ns[1..]);
    }
  }

  // The number of cycles: one for each leaf, and one more for each body whose last section throws.
  lemma {:induction false} CycleCount(s: Section, p: Path)
    ensures |FullPlan(s, p)| == |Leaves(s, p)| + Settlings(s)
  {
    if !s.IsLeaf() {
      var plans := seq(|s.kids|, i requires 0 <= i < |s.kids| => FullPlan(s.kids[i], p + [s.kids[i].id]));
      var leaves := seq(|s.kids|, i requires 0 <= i < |s.kids| => Leaves(s.kids[i], p + [s.kids[i].id]));
      var extras := seq(|s.kids|, i requires 0 <= i < |s.kids| => Settlings(s.kids[i]));
      forall i | 0 <= i < |s.kids|
        ensures |plans[i]| == |leaves[i]| + extras[i]
      {
        CycleCount(s.kids[i], p + [s.kids[i].id]);
      }
      ConcatLength(plans, leaves, extras);
    }
  }

  // A test case with more cycles than leaves: its one section throws, and another cycle enters nothing.
  lemma ThrowingLeafCyclesTwice(id: NameAndLocation, leaf: NameAndLocation)
    ensures var test := Section(id, [Section(leaf, [], true)], false);
            test.WellFormed() && Leaves(test, []) == [[leaf]] && FullPlan(test, []) == [[[leaf]], []]
  {
    var test := Section(id, [Section(leaf, [], true)], false);
    var plans := seq(|test.kids|, i requires 0 <= i < |test.kids| => FullPlan(test.kids[i], [] + [test.kids[i].id]));
    var leaves := seq(|test.kids|, i requires 0 <= i < |test.kids| => Leaves(test.kids[i], [] + [test.kids[i].id]));
    var p: Path := [];
    assert p + [leaf] == [leaf];
    assert plans[0] == [[[leaf]]] && leaves[0] == [[leaf]];
    assert Concat(plans) == plans[0] && Concat(leaves) == leaves[0];
  }

  predicate NeverThrows(s: Section) {
    !s.throws && forall k | k in s.kids :: NeverThrows(k)
  }

  lemma {:induction false} SumZero(ns: seq<nat>)
    requires forall i | 0 <= i < |ns| :: ns[i] == 0
    ensures Sum(ns) == 0
  {
    if ns != [] {
      SumZero(ns[1..]);
    }
  }

  lemma {:induction false} NoSettlings(s: Section)
    requires NeverThrows(s)
    ensures Settlings(s) == 0
  {
    forall i | 0 <= i < |s.kids|
      ensures Settlings(s.kids[i]) == 0
    {
      NoSettlings(s.kids[i]);
    }
    SumZero(seq(|s.kids|, i requires 0 <= i < |s.kids| => Settlings(s.kids[i])));
    assert s.kids != [] ==> NeverThrows(s.kids[|s.kids| - 1]);
  }

  // The cycles of a test case enter every leaf body exactly once, in depth-first order and at most one to a cycle; when
  // no leaf throws, there are as many cycles as leaves.
  lemma EveryLeafOnce(test: Section)
    requires test.WellFormed()
    ensures var cycles := FullPlan(test, []);
            && Concat(cycles) == Leaves(test, []) && Distinct(Concat(cycles))
            && (forall q :: q in Concat(cycles) <==> LeafAt(test, q))
            && (forall cycle | cycle in cycles :: |cycle| <= 1)
            && |cycles| == |Leaves(test, [])| + Settlings(test)
            && (NeverThrows(test) ==> |cycles| == |Leaves(test, [])|)
  {
    CyclesEnterLeaves(test, []);
    CycleShapes(test, []);
    LeavesExact(test, []);
    CycleCount(test, []);
    if NeverThrows(test) {
      NoSettlings(test);
    }
    forall q: Path
      ensures q in Leaves(test, []) <==> LeafAt(test, q)
    {
      assert [] + q == q && q[0..] == q;
    }
  }
}
