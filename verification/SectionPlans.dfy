// What running a test body should do, and the tracker tree seen as a value.
module SectionPlans {
  import opened Sequences
  import opened Trackers

  // A test body or section body: the sections it meets in order. A body without sections is a leaf; it may throw.
  datatype Section = Section(id: NameAndLocation, kids: seq<Section>, throws: bool) {
    predicate IsLeaf() { kids == [] }

    predicate ThrowingLeaf() { IsLeaf() && throws }

    // Sibling sections are told apart by name and location, and only leaf bodies throw.
    predicate WellFormed() {
      && (throws ==> IsLeaf())
      && (forall i, j | 0 <= i < j < |kids| :: kids[i].id != kids[j].id)
      && forall k | k in kids :: k.WellFormed()
    }

    // The last section of this body is a throwing leaf, so one more cycle is needed to complete the body.
    predicate Settles() { kids != [] && kids[|kids| - 1].ThrowingLeaf() }
  }

  type Path = seq<NameAndLocation>

  // The leaves below a section, depth first.
  function Leaves(s: Section, p: Path): seq<Path> {
    if s.IsLeaf() then [p]
    else Concat(seq(|s.kids|, i requires 0 <= i < |s.kids| => Leaves(s.kids[i], p + [s.kids[i].id])))
  }

  // A tracker subtree as a value: the object at its top, and a footprint that contains all its objects.
  datatype Tree = Tree(obj: Tracker, state: CycleState, kids: seq<Tree>, foot: set<Tracker>) {
    ghost predicate Complete() { CompleteState(state) }

    // The heap below obj is exactly this tree, and its subtrees share no tracker.
    ghost predicate Matches()
      reads foot
      decreases this
    {
      obj in foot && obj.runState == state && Holds(obj, kids, foot - {obj})
    }
  }

  // The child trackers of a tracker are these trees, within this footprint.
  ghost predicate Holds(parent: Tracker, ts: seq<Tree>, foot: set<Tracker>)
    reads parent`children, foot
    decreases ts
  {
    && parent.WellPlaced() && parent !in foot
    && |parent.children| == |ts|
    && (forall i | 0 <= i < |ts| ::
          && parent.children[i] == ts[i].obj && ts[i].obj.parent == parent && ts[i].obj.ctx == parent.ctx
          && ts[i].obj.WellPlaced() && ts[i].foot <= foot && ts[i].Matches())
    && (forall i, j | 0 <= i < j < |ts| :: ts[i].foot !! ts[j].foot)
  }

  // Between cycles, siblings are complete ones, then at most one partly run, then untouched ones.
  ghost predicate SiblingOrder(ts: seq<Tree>) {
    forall i, j | 0 <= i < j < |ts| :: ts[i].Complete() || ts[j].state == NotStarted
  }

  ghost predicate AllComplete(ts: seq<Tree>, ss: seq<Section>) {
    |ts| == |ss| && forall i | 0 <= i < |ts| :: ts[i].Complete()
  }

  // The state of a section's tracker between cycles.
  ghost predicate Settled(t: Tree, s: Section)
    decreases s
  {
    && t.obj.nameAndLocation == s.id
    && match t.state {
         case NotStarted => t.kids == []
         case Executing => false
         case ExecutingChildren => PartlyRun(t, s)
         case NeedsAnotherRun => PartlyRun(t, s)
         case CompletedSuccessfully => true
         case Failed => true
       }
  }

  ghost predicate PartlyRun(t: Tree, s: Section)
    decreases s, 0
  {
    && |t.kids| <= |s.kids| && s.kids != []
    && (forall i | 0 <= i < |t.kids| :: Settled(t.kids[i], s.kids[i]))
    && SiblingOrder(t.kids)
    && (AllComplete(t.kids, s.kids) ==> s.Settles())
  }

  ghost predicate SettledAll(ts: seq<Tree>, ss: seq<Section>) {
    && |ts| <= |ss|
    && (forall i | 0 <= i < |ts| :: Settled(ts[i], ss[i]))
    && SiblingOrder(ts)
  }

  // The cycles still to come: for each, the leaf bodies it enters. A cycle enters one leaf, or none when all it does
  // is complete a body whose last section threw.
  ghost function Plan(t: Tree, s: Section, p: Path): seq<seq<Path>>
    decreases s, 1
  {
    if t.Complete() then []
    else if s.IsLeaf() then [[p]]
    else Concat(Plans(t.kids, s.kids, p)) + (if s.Settles() then [[]] else [])
  }

  ghost function Plans(ts: seq<Tree>, ss: seq<Section>, p: Path): (plans: seq<seq<seq<Path>>>)
    decreases ss, 0
  {
    seq(|ss|, i requires 0 <= i < |ss| =>
      if i < |ts| then Plan(ts[i], ss[i], p + [ss[i].id]) else FullPlan(ss[i], p + [ss[i].id]))
  }

  // The cycles of a section that has never been entered.
  function FullPlan(s: Section, p: Path): seq<seq<Path>> {
    if s.IsLeaf() then [[p]]
    else
      Concat(seq(|s.kids|, i requires 0 <= i < |s.kids| => FullPlan(s.kids[i], p + [s.kids[i].id])))
      + (if s.Settles() then [[]] else [])
  }

  lemma UntouchedPlan(t: Tree, s: Section, p: Path)
    requires t.state == NotStarted && t.kids == []
    ensures Plan(t, s, p) == FullPlan(s, p)
  {
    if !s.IsLeaf() {
      assert Plans([], s.kids, p) ==
             seq(|s.kids|, i requires 0 <= i < |s.kids| => FullPlan(s.kids[i], p + [s.kids[i].id]));
    }
  }

  // Taking the head off the first non-empty piece takes it off the whole.
  lemma {:induction false} ConcatStep<X>(before: seq<seq<X>>, after: seq<seq<X>>, d: nat, x: X)
    requires d < |before| == |after|
    requires forall j | 0 <= j < d :: before[j] == []
    requires forall j | 0 <= j < |before| && j != d :: before[j] == after[j]
    requires before[d] == [x] + after[d]
    ensures Concat(before) == [x] + Concat(after)
  {
    if d > 0 {
      ConcatStep(before[1..], after[1..], d - 1, x);
    } else {
      assert before[1..] == after[1..];
    }
  }

  lemma NothingPlanned(ts: seq<Tree>, ss: seq<Section>, p: Path)
    requires AllComplete(ts, ss)
    ensures Concat(Plans(ts, ss, p)) == []
  {
    ConcatEmpty(Plans(ts, ss, p));
  }

  // What running the body of a section in one cycle does: to the trees of its child trackers, and to the state its own
  // tracker has when the body ends.
  ghost predicate BodyRan(s: Section, p: Path, kids: seq<Tree>, us: seq<Tree>, cycle: seq<Path>, thrown: bool,
                          state: CycleState)
  {
    && SettledAll(us, s.kids)
    && if s.IsLeaf() then
         us == [] && cycle == [p] && thrown == s.throws && state == Executing
       else if AllComplete(kids, s.kids) then
         us == kids && cycle == [] && !thrown && state == Executing
       else
         && Concat(Plans(kids, s.kids, p)) == [cycle] + Concat(Plans(us, s.kids, p))
         && AllProgress(kids, us)
         && us != [] && state in {NeedsAnotherRun, ExecutingChildren}
         && (state == NeedsAnotherRun ==> thrown && (AllComplete(us, s.kids) ==> s.Settles()))
         && (state == ExecutingChildren && us[|us| - 1].Complete() ==>
               !thrown && AllComplete(us, s.kids) && !s.Settles())
  }

  // The state of an entered section's tracker once its Section object is gone.
  ghost function EndState(s: Section, us: seq<Tree>, thrown: bool, state: CycleState): CycleState {
    if thrown && s.IsLeaf() then Failed
    else ClosedState(state, us != [] && us[|us| - 1].Complete(), us == [])
  }

  // Ending the body of a section executes the first planned cycle of the section.
  lemma BodyEnded(s: Section, p: Path, kids: seq<Tree>, cycle: seq<Path>, thrown: bool, state: CycleState, u: Tree)
    requires s.WellFormed() && BodyRan(s, p, kids, u.kids, cycle, thrown, state)
    requires if s.IsLeaf() then kids == [] else AllComplete(kids, s.kids) ==> s.Settles()
    requires u.obj.nameAndLocation == s.id && u.state == EndState(s, u.kids, thrown, state)
    ensures Settled(u, s)
    ensures Plan(u.(state := Executing, kids := kids), s, p) == [cycle] + Plan(u, s, p)
    ensures thrown ==> s.ThrowingLeaf() || !u.Complete()
    ensures s.ThrowingLeaf() ==> thrown && u.Complete()
    ensures GrewAll(kids, u.kids) && DoneAll(kids) < Done(u)
  {
    if s.IsLeaf() {
    } else if AllComplete(kids, s.kids) {
      GrewSelf(Tree(u.obj, Executing, kids, {}));
      NothingPlanned(kids, s.kids, p);
    } else if u.Complete() {
      NothingPlanned(u.kids, s.kids, p);
    } else {
      assert AllComplete(u.kids, s.kids) ==> u.kids[|u.kids| - 1].Complete();
    }
  }

  // ----- progress

  // How many trackers of a tree are complete.
  ghost function Done(t: Tree): nat
    decreases t, 1
  {
    DoneAll(t.kids) + if t.Complete() then 1 else 0
  }

  ghost function DoneAll(ts: seq<Tree>): nat
    decreases ts, 0
  {
    if ts == [] then 0 else Done(ts[0]) + DoneAll(ts[1..])
  }

  // The same trackers and maybe more; complete ones, and all below them, are as they were.
  ghost predicate Grew(t: Tree, u: Tree)
    decreases t, 1
  {
    t.obj == u.obj && (t.Complete() ==> u == t) && GrewAll(t.kids, u.kids)
  }

  ghost predicate GrewAll(ts: seq<Tree>, us: seq<Tree>)
    decreases ts, 0
  {
    |ts| <= |us| && forall i | 0 <= i < |ts| :: Grew(ts[i], us[i])
  }

  lemma {:induction false} GrewSelf(t: Tree)
    ensures Grew(t, t)
  {
    forall i | 0 <= i < |t.kids|
      ensures Grew(t.kids[i], t.kids[i])
    {
      GrewSelf(t.kids[i]);
    }
  }

  // The i-th tracker got on: it or one below it is newly complete.
  ghost predicate Progress(ts: seq<Tree>, us: seq<Tree>, i: nat)
    requires i < |us|
  {
    if i < |ts| then Grew(ts[i], us[i]) && Done(ts[i]) < Done(us[i]) else 0 < Done(us[i])
  }

  ghost predicate AllProgress(ts: seq<Tree>, us: seq<Tree>) { GrewAll(ts, us) && DoneAll(ts) < DoneAll(us) }

  ghost predicate SameOrNew(ts: seq<Tree>, us: seq<Tree>, j: nat)
    requires j < |us|
  {
    if j < |ts| then us[j] == ts[j] else us[j].state == NotStarted && us[j].kids == []
  }

  lemma {:induction false} DoneSame(ts: seq<Tree>, us: seq<Tree>)
    requires |ts| <= |us| && forall j | 0 <= j < |us| :: SameOrNew(ts, us, j)
    ensures DoneAll(ts) == DoneAll(us)
  {
    if us != [] {
      assert SameOrNew(ts, us, 0);
      var rest := if ts == [] then [] else ts[1..];
      forall j | 0 <= j < |us| - 1
        ensures SameOrNew(rest, us[1..], j)
      {
        assert SameOrNew(ts, us, j + 1);
      }
      DoneSame(rest, us[1..]);
    }
  }

  lemma {:induction false} DoneMore(ts: seq<Tree>, us: seq<Tree>, d: nat)
    requires |ts| <= |us| && d < |us| && Progress(ts, us, d)
    requires forall j | 0 <= j < |us| && j != d :: SameOrNew(ts, us, j)
    ensures DoneAll(ts) < DoneAll(us)
  {
    var rest := if ts == [] then [] else ts[1..];
    forall j | 0 <= j < |us| - 1 && j + 1 != d
      ensures SameOrNew(rest, us[1..], j)
    {
      assert SameOrNew(ts, us, j + 1);
    }
    if d == 0 {
      DoneSame(rest, us[1..]);
    } else {
      assert SameOrNew(ts, us, 0);
      DoneMore(rest, us[1..], d - 1);
    }
  }

  lemma BodyProgress(ts: seq<Tree>, us: seq<Tree>, d: nat)
    requires |ts| <= |us| && d < |us| && Progress(ts, us, d)
    requires forall j | 0 <= j < |us| && j != d :: SameOrNew(ts, us, j)
    ensures AllProgress(ts, us)
  {
    DoneMore(ts, us, d);
    forall i | 0 <= i < |ts|
      ensures Grew(ts[i], us[i])
    {
      if i != d {
        assert SameOrNew(ts, us, i);
        GrewSelf(ts[i]);
      }
    }
  }

  // ----- one cycle

  // The i-th section of a body, entered in this cycle: its first planned cycle is the one executed.
  lemma SectionPlanned(ts: seq<Tree>, us: seq<Tree>, ss: seq<Section>, i: nat, p: Path, running: Tree, cycle: seq<Path>)
    requires i < |ss| && i < |us| && running.state == Executing
    requires i < |ts| ==> !ts[i].Complete() && running.kids == ts[i].kids
    requires i >= |ts| ==> running.kids == []
    requires var q := p + [ss[i].id]; Plan(running, ss[i], q) == [cycle] + Plan(us[i], ss[i], q)
    ensures Plans(ts, ss, p)[i] == [cycle] + Plan(us[i], ss[i], p + [ss[i].id])
  {
    if i >= |ts| {
      UntouchedPlan(running.(state := NotStarted), ss[i], p + [ss[i].id]);
    }
  }

  // The same for progress.
  lemma SectionProgress(ts: seq<Tree>, us: seq<Tree>, i: nat, running: Tree)
    requires i < |us| && running.state == Executing && Grew(running, us[i]) && Done(running) < Done(us[i])
    requires i < |ts| ==> !ts[i].Complete() && running.kids == ts[i].kids && running.obj == ts[i].obj
    ensures Progress(ts, us, i)
  {}

  // Section d is the one this cycle entered: all before it were complete, all after it are as they were or untouched.
  ghost predicate Stepped(ts: seq<Tree>, us: seq<Tree>, ss: seq<Section>, d: nat, p: Path, cycle: seq<Path>) {
    && d <= |ts| <= |us| <= |ss| && d < |us|
    && (forall j | 0 <= j < d :: ts[j].Complete())
    && (d < |ts| ==> !ts[d].Complete())
    && (forall j | 0 <= j < |us| && j != d :: if j < |ts| then us[j] == ts[j] else us[j].state == NotStarted)
    && Plans(ts, ss, p)[d] == [cycle] + Plan(us[d], ss[d], p + [ss[d].id])
    && Progress(ts, us, d)
  }

  // What meeting the i-th section does: it is entered if this cycle has not completed a section yet and
  // its own tracker is not complete. `over` and `state` are whether a section was completed and the
  // state of the parent's tracker, before and after.
  ghost predicate SectionRan(ts: seq<Tree>, us: seq<Tree>, ss: seq<Section>, i: nat, p: Path, cycle: seq<Path>,
                             thrown: bool, over: bool, over': bool, state: CycleState, state': CycleState)
    requires i < |ss|
  {
    && i < |us| && |us| == (if i < |ts| then |ts| else i + 1)
    && (forall j | 0 <= j < |ts| && j != i :: us[j] == ts[j])
    && if !over && !(i < |ts| && ts[i].Complete()) then
         over' && SectionStepped(ts, us, ss, i, p, cycle) && SectionLeft(us, ss, i, thrown, state')
       else
         && !thrown && cycle == [] && state' == state && over' == over
         && (if i < |ts| then us[i] == ts[i] else us[i].state == NotStarted)
  }

  ghost predicate SectionStepped(ts: seq<Tree>, us: seq<Tree>, ss: seq<Section>, i: nat, p: Path, cycle: seq<Path>)
    requires i < |us| && i < |ss|
  {
    Plans(ts, ss, p)[i] == [cycle] + Plan(us[i], ss[i], p + [ss[i].id]) && Progress(ts, us, i)
  }

  // How an entered section leaves its tracker and its parent's.
  ghost predicate SectionLeft(us: seq<Tree>, ss: seq<Section>, i: nat, thrown: bool, state: CycleState)
    requires i < |us| && i < |ss|
  {
    && (thrown ==> ss[i].ThrowingLeaf() || !us[i].Complete())
    && (ss[i].ThrowingLeaf() ==> thrown && us[i].Complete())
    && state == if ss[i].ThrowingLeaf() then NeedsAnotherRun else ExecutingChildren
  }

  // Meeting a section that is entered, by the trees before, at its start and after.
  lemma SectionEntered(ts: seq<Tree>, before: seq<Tree>, us: seq<Tree>, ss: seq<Section>, i: nat, p: Path,
                       cycle: seq<Path>, thrown: bool, state: CycleState, state': CycleState)
    requires i < |ss| && i <= |ts| && i < |before| && |us| == |before| == (if i < |ts| then |ts| else i + 1)
    requires forall j | 0 <= j < |ts| && j != i :: before[j] == ts[j]
    requires forall j | 0 <= j < |us| && j != i :: us[j] == before[j]
    requires before[i].state == Executing && before[i].kids == (if i < |ts| then ts[i].kids else [])
    requires i < |ts| ==> before[i].obj == ts[i].obj && !ts[i].Complete()
    requires var q := p + [ss[i].id]; Plan(before[i], ss[i], q) == [cycle] + Plan(us[i], ss[i], q)
    requires Grew(before[i], us[i]) && Done(before[i]) < Done(us[i]) && SectionLeft(us, ss, i, thrown, state')
    ensures SectionRan(ts, us, ss, i, p, cycle, thrown, false, true, state, state')
  {
    SectionPlanned(ts, us, ss, i, p, before[i], cycle);
    SectionProgress(ts, us, i, before[i]);
  }

  // The state of a body after its first i sections: either all were complete, or the d-th was entered.
  ghost predicate BodySoFar(ts: seq<Tree>, us: seq<Tree>, ss: seq<Section>, i: nat, d: nat, p: Path,
                            cycle: seq<Path>, thrown: bool, over: bool, state: CycleState)
  {
    if !over then
      && us == ts && i <= |ts| && (forall j | 0 <= j < i :: ts[j].Complete())
      && !thrown && cycle == [] && state == Executing
    else
      d < i <= |us| && Stepped(ts, us, ss, d, p, cycle) && SectionLeft(us, ss, d, thrown, state)
  }

  lemma BodyNext(ts: seq<Tree>, us: seq<Tree>, us': seq<Tree>, ss: seq<Section>, i: nat, d: nat, p: Path,
                 cycle: seq<Path>, e: seq<Path>, thrown: bool, over: bool, over': bool,
                 state: CycleState, state': CycleState)
    requires i < |ss| && |us'| <= |ss| && SiblingOrder(ts)
    requires BodySoFar(ts, us, ss, i, d, p, cycle, false, over, state)
    requires SectionRan(us, us', ss, i, p, e, thrown, over, over', state, state')
    ensures BodySoFar(ts, us', ss, i + 1, if over then d else i, p, cycle + e, thrown, over', state')
  {
    assert cycle + e == if over then cycle else e;
  }

  lemma SteppedProgress(ts: seq<Tree>, us: seq<Tree>, ss: seq<Section>, d: nat, p: Path, cycle: seq<Path>)
    requires Stepped(ts, us, ss, d, p, cycle) && forall j | 0 <= j < |us| :: Settled(us[j], ss[j])
    ensures AllProgress(ts, us)
  {
    forall j | 0 <= j < |us| && j != d
      ensures SameOrNew(ts, us, j)
    {
      assert Settled(us[j], ss[j]);
    }
    BodyProgress(ts, us, d);
  }

  lemma SteppedPlans(ts: seq<Tree>, us: seq<Tree>, ss: seq<Section>, d: nat, p: Path, cycle: seq<Path>)
    requires Stepped(ts, us, ss, d, p, cycle) && forall j | 0 <= j < |us| :: Settled(us[j], ss[j])
    ensures Concat(Plans(ts, ss, p)) == [cycle] + Concat(Plans(us, ss, p))
  {
    var before, after := Plans(ts, ss, p), Plans(us, ss, p);
    forall j | 0 <= j < |ss| && j != d
      ensures before[j] == after[j]
    {
      if |ts| <= j < |us| {
        UntouchedPlan(us[j], ss[j], p + [ss[j].id]);
      }
    }
    forall j | 0 <= j < d
      ensures before[j] == []
    {
      assert Plan(ts[j], ss[j], p + [ss[j].id]) == [];
    }
    ConcatStep(before, after, d, cycle);
  }

  lemma SteppedBody(s: Section, ts: seq<Tree>, us: seq<Tree>, d: nat, p: Path, cycle: seq<Path>, thrown: bool,
                    state: CycleState)
    requires Stepped(ts, us, s.kids, d, p, cycle) && SectionLeft(us, s.kids, d, thrown, state)
    requires (!thrown ==> |us| == |s.kids|) && SiblingOrder(ts)
    requires forall j | 0 <= j < |us| :: Settled(us[j], s.kids[j])
    ensures BodyRan(s, p, ts, us, cycle, thrown, state)
  {
    SteppedPlans(ts, us, s.kids, d, p, cycle);
    SteppedProgress(ts, us, s.kids, d, p, cycle);
    assert us[|us| - 1].Complete() ==> d == |us| - 1;
  }
}
