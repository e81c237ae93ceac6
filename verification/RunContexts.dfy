// Catch's run context: section callbacks, one cycle of a test body, and the loop that repeats cycles.
module RunContexts {
  import opened Sequences
  import opened Trackers
  import opened SectionPlans
  import opened Generators

  // One pass over the test case: the generator indices it saw and the leaves each of its cycles entered.
  datatype Pass = Pass(indices: seq<nat>, cycles: seq<seq<Path>>)

  lemma HoldsCanAcquire(parent: Tracker, ts: seq<Tree>, foot: set<Tracker>)
    requires Holds(parent, ts, foot)
    ensures forall c | c in parent.children :: c.WellPlaced() && c.parent == parent && c.ctx == parent.ctx
  {
    forall c | c in parent.children
      ensures c.WellPlaced() && c.parent == parent && c.ctx == parent.ctx
    {
      var k :| 0 <= k < |ts| && parent.children[k] == c;
      assert ts[k].Matches();
    }
  }

  // A section's tracker is the child at the section's own position, if that child exists yet.
  lemma SectionFound(parent: Tracker, ts: seq<Tree>, foot: set<Tracker>, ss: seq<Section>, i: nat)
    requires Holds(parent, ts, foot) && i < |ss| && i <= |ts| <= |ss|
    requires forall j | 0 <= j < |ts| :: ts[j].obj.nameAndLocation == ss[j].id
    requires forall j, k | 0 <= j < k < |ss| :: ss[j].id != ss[k].id
    ensures Named(parent.children, ss[i].id) == if i < |ts| then {ts[i].obj} else {}
  {
    forall c | c in Named(parent.children, ss[i].id)
      ensures i < |ts| && c == ts[i].obj
    {
      var k :| 0 <= k < |ts| && parent.children[k] == c;
    }
    if i < |ts| {
      assert parent.children[i] == ts[i].obj;
    }
  }

  // Replacing the i-th child tree, or adding one, when the other trees are untouched.
  lemma HoldsReplaced(parent: Tracker, ts: seq<Tree>, us: seq<Tree>, i: nat, foot: set<Tracker>, foot': set<Tracker>)
    requires parent.WellPlaced() && parent !in foot' && |parent.children| == |us|
    requires i <= |ts| && |us| == (if i < |ts| then |ts| else i + 1) && foot <= foot' && us[i].foot <= foot'
    requires forall j | 0 <= j < |us| ::
               && parent.children[j] == us[j].obj && us[j].obj.parent == parent && us[j].obj.ctx == parent.ctx
               && us[j].obj.WellPlaced() && us[j].Matches()
    requires forall j | 0 <= j < |ts| && j != i ::
               us[j] == ts[j] && ts[j].foot <= foot && us[i].foot !! ts[j].foot
    requires forall j, k | 0 <= j < k < |ts| :: ts[j].foot !! ts[k].foot
    ensures Holds(parent, us, foot')
  {
    forall j, k | 0 <= j < k < |us|
      ensures us[j].foot !! us[k].foot
    {}
  }

  // A tracker with these child trees, between the sections of a body that is running.
  ghost predicate Running(parent: Tracker, ts: seq<Tree>, foot: set<Tracker>, ss: seq<Section>)
    reads parent`children, parent.parent, foot
  {
    && Holds(parent, ts, foot) && parent.line !! foot
    && (parent.parent != null ==> parent.parent.runState == ExecutingChildren)
    && |ts| <= |ss| && Siblings(ss)
    && forall j | 0 <= j < |ts| :: Settled(ts[j], ss[j])
  }

  // Whether meeting the i-th section opens its tracker.
  ghost predicate Opens(ctx: TrackerContext, ts: seq<Tree>, i: nat)
    reads ctx
  {
    ctx.runState != CompletedCycle && !(i < |ts| && ts[i].Complete())
  }

  // The trees below the parent once the tracker of the i-th section has been found or added.
  twostate predicate ChildAcquired(ctx: TrackerContext, parent: Tracker, ts: seq<Tree>, foot: set<Tracker>,
                                   ss: seq<Section>, i: nat, new us: seq<Tree>, new foot': set<Tracker>, opens: bool)
    requires i < |ss|
    reads ctx, parent, parent.line, foot'
  {
    && i < |us| && |us| == (if i < |ts| then |ts| else i + 1)
    && (forall j | 0 <= j < |ts| && j != i :: us[j] == ts[j])
    && Holds(parent, us, foot') && parent.line !! foot' && foot <= foot' && fresh(foot' - foot)
    && us[i].obj.nameAndLocation == ss[i].id
    && (i < |ts| ==> us[i].obj == ts[i].obj)
    && us[i].kids == (if i < |ts| then ts[i].kids else [])
    && us[i].state == (if opens then Executing else if i < |ts| then ts[i].state else NotStarted)
    && (!opens && i < |ts| ==> us[i] == ts[i])
    && parent.runState == (if opens then ExecutingChildren else old(parent.runState))
    && Kept(parent.line - {parent})
    && ctx.currentTracker == (if opens then us[i].obj else parent)
  }

  // Acquire, with the trees of the child trackers before and after.
  method AcquireChild(ctx: TrackerContext, id: NameAndLocation, ghost ss: seq<Section>, ghost i: nat,
                      ghost parent: Tracker, ghost ts: seq<Tree>, ghost foot: set<Tracker>)
    returns (section: Tracker, ghost us: seq<Tree>, ghost foot': set<Tracker>)
    requires i < |ss| && ss[i].id == id && i <= |ts| && Running(parent, ts, foot, ss)
    requires parent.ctx == ctx && ctx.currentTracker == parent
    modifies ctx`currentTracker, parent.line, if i < |ts| then {ts[i].obj} else {}
    ensures ChildAcquired(ctx, parent, ts, foot, ss, i, us, foot', Opens(ctx, ts, i)) && section == us[i].obj
  {
    HoldsCanAcquire(parent, ts, foot);
    SectionFound(parent, ts, foot, ss, i);
    assert parent in parent.line && parent.Touched() <= {parent} && (i < |ts| ==> parent.children[i] == ts[i].obj);
    assert i < |ts| ==> ts[i].Matches() && ts[i].obj.runState == ts[i].state;
    section := Acquire(ctx, id);
    if i < |ts| {
      us, foot' := ts[i := ts[i].(state := section.runState)], foot;
      assert section == ts[i].obj;
    } else {
      us, foot' := ts + [Tree(section, section.runState, [], {section})], foot + {section};
    }
    assert us[i].Matches();
    HoldsReplaced(parent, ts, us, i, foot, foot');
  }

  // The end of a cycle of a test case, whose tracker is closed even when the body threw.
  lemma TestEnded(test: Section, kids: seq<Tree>, cycle: seq<Path>, thrown: bool, state: CycleState, u: Tree)
    requires test.WellFormed() && BodyRan(test, [], kids, u.kids, cycle, thrown, state)
    requires if test.IsLeaf() then kids == [] else AllComplete(kids, test.kids) ==> test.Settles()
    requires u.obj.nameAndLocation == test.id
    requires u.state == ClosedState(state, u.kids != [] && u.kids[|u.kids| - 1].Complete(), u.kids == [])
    ensures Settled(u, test) && (u.Complete() ==> u.state == CompletedSuccessfully)
    ensures Plan(u.(state := Executing, kids := kids), test, []) == [cycle] + Plan(u, test, [])
    ensures GrewAll(kids, u.kids) && DoneAll(kids) < Done(u)
  {
    if test.IsLeaf() {
      assert u.state == CompletedSuccessfully;
    } else {
      assert u.state == EndState(test, u.kids, thrown, state);
      BodyEnded(test, [], kids, cycle, thrown, state, u);
    }
  }

  // The cycles a test case has still to run.
  ghost function Remaining(ts: seq<Tree>, test: Section): seq<seq<Path>> {
    if ts == [] then FullPlan(test, []) else Plan(ts[0], test, [])
  }

  // A cycle, by the trees of the test case before it, at its start and after it.
  lemma CycleDone(ts: seq<Tree>, t: Tree, u: Tree, test: Section, entered: seq<Path>)
    requires |ts| <= 1 && t.obj == u.obj && t.state == Executing
    requires GrewAll(t.kids, u.kids) && DoneAll(t.kids) < Done(u)
    requires ts != [] ==> !ts[0].Complete() && ts[0].obj == t.obj && ts[0].kids == t.kids
    requires Remaining(ts, test) == Plan(t, test, [])
    requires Plan(u.(state := Executing, kids := t.kids), test, []) == [entered] + Plan(u, test, [])
    ensures AllProgress(ts, [u]) && Remaining(ts, test) == [entered] + Remaining([u], test)
  {}

  ghost predicate Siblings(ss: seq<Section>) {
    && (forall j, k | 0 <= j < k < |ss| :: ss[j].id != ss[k].id)
    && (forall j | 0 <= j < |ss| :: ss[j].WellFormed())
  }

  lemma SettledOpens(t: Tree, s: Section)
    requires s.WellFormed() && Settled(t, s) && !t.Complete()
    ensures Siblings(s.kids) && SettledAll(t.kids, s.kids)
    ensures !s.IsLeaf() && AllComplete(t.kids, s.kids) ==> s.Settles()
  {}

  // The tree of a test case once it is open.
  lemma CaseOpens(ts: seq<Tree>, t: Tree, test: Section)
    requires test.WellFormed() && |ts| <= 1 && t.state == Executing && t.obj.nameAndLocation == test.id
    requires if ts == [] then t.kids == [] else t.kids == ts[0].kids && Settled(ts[0], test) && !ts[0].Complete()
    ensures Siblings(test.kids) && SettledAll(t.kids, test.kids)
    ensures !test.IsLeaf() && AllComplete(t.kids, test.kids) ==> test.Settles()
    ensures Remaining(ts, test) == Plan(t, test, [])
  {
    if ts == [] {
      SettledOpens(t.(state := NotStarted), test);
      UntouchedPlan(t.(state := NotStarted), test, []);
    } else {
      SettledOpens(ts[0], test);
    }
  }

  // The passes count through the combinations, and each has these cycles.
  predicate Counted(passes: seq<Pass>, sizes: seq<nat>, cycles: seq<seq<Path>>) {
    forall k | 0 <= k < |passes| ::
      InRange(passes[k].indices, sizes) && Value(passes[k].indices, sizes) == k && passes[k].cycles == cycles
  }

  lemma AllCombinations(passes: seq<Pass>, sizes: seq<nat>, cycles: seq<seq<Path>>)
    requires |passes| == Product(sizes) && Counted(passes, sizes, cycles)
    ensures forall combination | InRange(combination, sizes) ::
              exists k :: 0 <= k < |passes| && passes[k].indices == combination
  {
    var runs := seq(|passes|, k requires 0 <= k < |passes| => passes[k].indices);
    forall combination | InRange(combination, sizes)
      ensures exists k :: 0 <= k < |passes| && passes[k].indices == combination
    {
      EveryCombination(runs, sizes, combination);
      var k :| 0 <= k < |runs| && runs[k] == combination;
      assert passes[k].indices == combination;
    }
  }

  class RunContext {
    const ctx: TrackerContext
    var activeSections: seq<Tracker>
    var unfinishedSections: seq<NameAndLocation>
    var testCaseTracker: Tracker?

    constructor (ctx: TrackerContext)
      ensures this.ctx == ctx && activeSections == [] && unfinishedSections == []
    {
      this.ctx := ctx;
      activeSections, unfinishedSections, testCaseTracker := [], [], null;
    }

    // End of a section block that ran to its end; also the late report of one that did not.
    method SectionEnded() returns (logicError: bool)
      requires activeSections != [] ==>
                 var back := activeSections[|activeSections| - 1];
                 back == ctx.currentTracker && back.ctx == ctx && back.parent != null
      modifies `activeSections, ctx`currentTracker, ctx`runState
      modifies (set t | t in activeSections && t == activeSections[|activeSections| - 1])`runState
      ensures old(activeSections) == [] ==> !logicError && unchanged(this) && unchanged(ctx)
      ensures old(activeSections) != [] ==>
                var back := old(activeSections[|activeSections| - 1]);
                && (logicError <==> old(!back.IsOpen()))
                && activeSections == old(activeSections)[..|old(activeSections)| - 1]
                && (!logicError ==>
                      && back.runState == ClosedState(old(back.runState),
                             old(back.children != [] && back.children[|back.children| - 1].IsComplete()),
                             old(back.children == []))
                      && ctx.currentTracker == back.parent && ctx.runState == CompletedCycle)
    {
      logicError := false;
      if activeSections != [] {
        logicError := activeSections[|activeSections| - 1].Close();
        activeSections := activeSections[..|activeSections| - 1];
      }
    }

    method SectionEndedEarly(id: NameAndLocation) returns (logicError: bool)
      requires activeSections != []
      requires var back := activeSections[|activeSections| - 1];
               back == ctx.currentTracker && back.ctx == ctx && back.parent != null && back.parent != back
      modifies `activeSections, `unfinishedSections, ctx`currentTracker, ctx`runState
      modifies ctx.currentTracker`runState, ctx.currentTracker.parent`runState
      ensures var back := old(activeSections[|activeSections| - 1]);
              && activeSections == old(activeSections)[..|old(activeSections)| - 1]
              && unfinishedSections == old(unfinishedSections) + [id]
              && (logicError <==> old(unfinishedSections) != [] && old(!back.IsOpen()))
              && (!logicError ==> ctx.currentTracker == back.parent && ctx.runState == CompletedCycle)
              && (old(unfinishedSections) == [] ==> back.runState == Failed && back.parent.runState == NeedsAnotherRun)
              && (old(unfinishedSections) != [] && !logicError ==>
                    && back.parent.runState == old(back.parent.runState)
                    && back.runState == ClosedState(old(back.runState),
                         old(back.children != [] && back.children[|back.children| - 1].IsComplete()),
                         old(back.children == [])))
    {
      logicError := false;
      if unfinishedSections == [] {
        activeSections[|activeSections| - 1].Fail();
      } else {
        logicError := activeSections[|activeSections| - 1].Close();
      }
      activeSections := activeSections[..|activeSections| - 1];
      unfinishedSections := unfinishedSections + [id];
    }

    // The parent's body is running with these child trees, and is the current tracker.
    ghost predicate Ready(parent: Tracker, ts: seq<Tree>, foot: set<Tracker>, ss: seq<Section>)
      reads this, ctx, parent`children, parent.parent, foot
    {
      ctx.currentTracker == parent && parent.ctx == ctx && parent.parent != null && Running(parent, ts, foot, ss)
    }

    // The end of the Section object of an entered block, by normal exit or while an exception unwinds.
    method SectionDestroyed(s: Section, thrown: bool, ghost section: Tracker, ghost us: seq<Tree>,
                            ghost foot: set<Tracker>)
      returns (ghost u: Tree)
      requires Ready(section, us, foot, s.kids) && section.IsOpen()
      requires activeSections != [] && activeSections[|activeSections| - 1] == section
      requires (thrown && !s.IsLeaf()) <==> unfinishedSections != []
      modifies `activeSections, `unfinishedSections, ctx`currentTracker, ctx`runState
      modifies section`runState, section.parent`runState
      ensures u.obj == section && u.Matches() && u.kids == us && u.foot == {section} + foot
      ensures u.state == EndState(s, us, thrown, old(section.runState))
      ensures section.parent.runState == if thrown && s.IsLeaf() then NeedsAnotherRun else ExecutingChildren
      ensures ctx.currentTracker == section.parent && ctx.runState == CompletedCycle
      ensures activeSections == old(activeSections)[..|old(activeSections)| - 1]
      ensures thrown <==> unfinishedSections != []
    {
      assert section.WellPlaced() && section.parent.WellPlaced();
      assert section in section.line && section.parent in section.line;
      assert us != [] ==> section.children[|us| - 1] == us[|us| - 1].obj && us[|us| - 1].Matches();
      var logicError;
      if thrown {
        logicError := SectionEndedEarly(s.id);
      } else {
        logicError := SectionEnded();
      }
      assert !logicError;
      u := Tree(section, section.runState, us, {section} + foot);
      assert Holds(section, us, foot) && u.foot - {section} == foot;
    }

    // The Section object at the head of the i-th SECTION block of a body: its value says whether the block is entered.
    method SectionStarted(id: NameAndLocation, ghost ss: seq<Section>, ghost i: nat, ghost parent: Tracker,
                          ghost ts: seq<Tree>, ghost foot: set<Tracker>)
      returns (included: bool, ghost us: seq<Tree>, ghost foot': set<Tracker>)
      requires i < |ss| && ss[i].id == id && i <= |ts| && Ready(parent, ts, foot, ss)
      requires ctx.runState == CompletedCycle && i < |ts| ==> ts[i].Complete() || ts[i].state == NotStarted
      modifies `activeSections, ctx`currentTracker, parent.line, if i < |ts| then {ts[i].obj} else {}
      ensures included == Opens(ctx, ts, i)
      ensures ChildAcquired(ctx, parent, ts, foot, ss, i, us, foot', included)
      ensures activeSections == old(activeSections) + if included then [us[i].obj] else []
    {
      var section;
      section, us, foot' := AcquireChild(ctx, id, ss, i, parent, ts, foot);
      assert us[i].Matches();
      if !section.IsOpen() {
        return false, us, foot';
      }
      activeSections := activeSections + [section];
      return true, us, foot';
    }

    // One SECTION statement of a running body, the i-th.
    method RunSection(ss: seq<Section>, i: nat, p: Path, ghost parent: Tracker, ghost ts: seq<Tree>,
      ghost foot: set<Tracker>)
      returns (thrown: bool, entered: seq<Path>, ghost us: seq<Tree>, ghost foot': set<Tracker>)
      requires i < |ss| && i <= |ts|
      requires Ready(parent, ts, foot, ss) && unfinishedSections == []
      requires ctx.runState != CompletedCycle ==> parent.runState == Executing
      requires ctx.runState == CompletedCycle && i < |ts| ==> ts[i].Complete() || ts[i].state == NotStarted
      modifies `activeSections, `unfinishedSections, ctx`currentTracker, ctx`runState, parent.line, foot
      ensures Ready(parent, us, foot', ss) && fresh(foot' - foot)
      ensures Kept(parent.line - {parent}) && activeSections == old(activeSections)
      ensures thrown <==> unfinishedSections != []
      ensures SectionRan(ts, us, ss, i, p, entered, thrown, old(ctx.runState) == CompletedCycle,
                         ctx.runState == CompletedCycle, old(parent.runState), parent.runState)
      decreases ss, 0, 1
    {
      var s := ss[i];
      var included;
      assert s.WellFormed();
      assert parent.WellPlaced() && parent.parent.WellPlaced() && parent.parent in parent.line - {parent};
      assert i < |ts| ==> ts[i].Matches() && ts[i].obj in foot;
      included, us, foot' := SectionStarted(s.id, ss, i, parent, ts, foot);
      thrown, entered := false, [];
      if included {
        ghost var before := us;
        SettledOpens(if i < |ts| then ts[i] else us[i].(state := NotStarted), s);
        thrown, entered, us, foot' := RunEntered(ss, i, p, parent, us, foot');
        SectionEntered(ts, before, us, ss, i, p, entered, thrown, old(parent.runState), parent.runState);
      }
    }

    // Running the block of the i-th section once it is entered.
    method RunEntered(ss: seq<Section>, i: nat, p: Path, ghost parent: Tracker, ghost ts: seq<Tree>,
                      ghost foot: set<Tracker>)
      returns (thrown: bool, entered: seq<Path>, ghost us: seq<Tree>, ghost foot': set<Tracker>)
      requires i < |ss| && i < |ts| <= |ss| && ss[i].WellFormed() && unfinishedSections == []
      requires Holds(parent, ts, foot) && parent.line !! foot && parent.ctx == ctx && parent.parent != null
      requires parent.runState == ExecutingChildren && ctx.runState != CompletedCycle
      requires ctx.currentTracker == ts[i].obj && ts[i].state == Executing && ts[i].obj.nameAndLocation == ss[i].id
      requires SettledAll(ts[i].kids, ss[i].kids)
      requires !ss[i].IsLeaf() && AllComplete(ts[i].kids, ss[i].kids) ==> ss[i].Settles()
      requires activeSections != [] && activeSections[|activeSections| - 1] == ts[i].obj
      modifies `activeSections, `unfinishedSections, ctx`currentTracker, ctx`runState, parent.line, foot
      ensures ctx.currentTracker == parent && ctx.runState == CompletedCycle
      ensures Holds(parent, us, foot') && parent.line !! foot' && fresh(foot' - foot)
      ensures |us| == |ts| && (forall j | 0 <= j < |ts| && j != i :: us[j] == ts[j]) && Settled(us[i], ss[i])
      ensures Kept(parent.line - {parent}) && activeSections == old(activeSections)[..|old(activeSections)| - 1]
      ensures thrown <==> unfinishedSections != []
      ensures var q := p + [ss[i].id]; Plan(ts[i], ss[i], q) == [entered] + Plan(us[i], ss[i], q)
      ensures Grew(ts[i], us[i]) && Done(ts[i]) < Done(us[i])
      ensures SectionLeft(us, ss, i, thrown, parent.runState)
      decreases ss, 0, 0
    {
      ghost var t := ts[i];
      ghost var u;
      assert t.Matches() && t.obj.WellPlaced() && t.obj.line == {t.obj} + parent.line;
      thrown, entered, u := RunBlock(ss[i], p + [ss[i].id], t.obj, t.kids, t.foot - {t.obj});
      us, foot' := ts[i := u], foot + u.foot;
      HoldsReplaced(parent, ts, us, i, foot, foot');
    }

    // A section block that is entered: its body, and the destruction of the Section object, normal or by unwinding.
    method RunBlock(s: Section, p: Path, ghost section: Tracker, ghost kids: seq<Tree>,
      ghost foot: set<Tracker>)
      returns (thrown: bool, entered: seq<Path>, ghost u: Tree)
      requires s.WellFormed() && section.nameAndLocation == s.id
      requires Ready(section, kids, foot, s.kids) && SiblingOrder(kids) && unfinishedSections == []
      requires section.runState == Executing && ctx.runState != CompletedCycle
      requires !s.IsLeaf() && AllComplete(kids, s.kids) ==> s.Settles()
      requires activeSections != [] && activeSections[|activeSections| - 1] == section
      modifies `activeSections, `unfinishedSections, ctx`currentTracker, ctx`runState, section.line, foot
      ensures u.obj == section && u.Matches() && Settled(u, s)
      ensures fresh(u.foot - {section} - foot) && u.foot !! section.parent.line
      ensures ctx.currentTracker == section.parent && ctx.runState == CompletedCycle
      ensures Kept(section.line - {section, section.parent}) && section.parent.children == old(section.parent.children)
      ensures section.parent.runState == if s.ThrowingLeaf() then NeedsAnotherRun else ExecutingChildren
      ensures activeSections == old(activeSections)[..|old(activeSections)| - 1]
      ensures thrown <==> unfinishedSections != []
      ensures Plan(Tree(section, Executing, kids, {}), s, p) == [entered] + Plan(u, s, p)
      ensures GrewAll(kids, u.kids) && DoneAll(kids) < Done(u)
      ensures thrown ==> s.ThrowingLeaf() || !u.Complete()
      ensures s.ThrowingLeaf() ==> thrown && u.Complete()
      decreases s, 1
    {
      ghost var us, foot';
      thrown, entered, us, foot' := Invoke(s, p, section, kids, foot);
      ghost var state := section.runState;
      assert section.WellPlaced() && section.parent.WellPlaced();
      assert section in section.line && section.parent in section.line;
      u := SectionDestroyed(s, thrown, section, us, foot');
      BodyEnded(s, p, kids, entered, thrown, state, u);
    }

    // The body of a section or test case: a leaf body, or the SECTION statements it consists of.
    method Invoke(s: Section, p: Path, ghost section: Tracker, ghost kids: seq<Tree>, ghost foot: set<Tracker>)
      returns (thrown: bool, entered: seq<Path>, ghost us: seq<Tree>, ghost foot': set<Tracker>)
      requires s.WellFormed() && Ready(section, kids, foot, s.kids) && SiblingOrder(kids) && unfinishedSections == []
      requires section.runState == Executing && ctx.runState != CompletedCycle
      modifies `activeSections, `unfinishedSections, ctx`currentTracker, ctx`runState, section.line, foot
      ensures Ready(section, us, foot', s.kids) && fresh(foot' - foot)
      ensures Kept(section.line - {section}) && activeSections == old(activeSections)
      ensures (thrown && !s.IsLeaf()) <==> unfinishedSections != []
      ensures BodyRan(s, p, kids, us, entered, thrown, section.runState)
      decreases s, 0
    {
      if s.kids == [] {
        thrown, entered, us, foot' := s.throws, [p], kids, foot;
      } else {
        ghost var d;
        thrown, entered, us, foot', d := RunBody(s.kids, p, section, kids, foot);
        if ctx.runState == CompletedCycle {
          SteppedBody(s, kids, us, d, p, entered, thrown, section.runState);
        }
      }
    }

    // The SECTION statements of a body, in order, until one throws.
    method RunBody(ss: seq<Section>, p: Path, ghost parent: Tracker, ghost ts: seq<Tree>, ghost foot: set<Tracker>)
      returns (thrown: bool, entered: seq<Path>, ghost us: seq<Tree>, ghost foot': set<Tracker>, ghost d: nat)
      requires Ready(parent, ts, foot, ss) && SiblingOrder(ts) && unfinishedSections == []
      requires parent.runState == Executing && ctx.runState != CompletedCycle
      modifies `activeSections, `unfinishedSections, ctx`currentTracker, ctx`runState, parent.line, foot
      ensures Ready(parent, us, foot', ss) && fresh(foot' - foot)
      ensures Kept(parent.line - {parent}) && activeSections == old(activeSections)
      ensures thrown <==> unfinishedSections != []
      ensures !thrown ==> |us| == |ss|
      ensures if ctx.runState != CompletedCycle then
                us == ts && AllComplete(ts, ss) && !thrown && entered == [] && parent.runState == Executing
              else
                Stepped(ts, us, ss, d, p, entered) && SectionLeft(us, ss, d, thrown, parent.runState)
      decreases ss, 1, |ss|
    {
      thrown, entered, us, foot', d := false, [], ts, foot, 0;
      var i := 0;
      while i < |ss| && !thrown
        invariant i <= |us| && i <= |ss|
        invariant Ready(parent, us, foot', ss) && fresh(foot' - foot)
        invariant Kept(parent.line - {parent}) && activeSections == old(activeSections)
        invariant thrown <==> unfinishedSections != []
        invariant BodySoFar(ts, us, ss, i, d, p, entered, thrown, ctx.runState == CompletedCycle, parent.runState)
      {
        ghost var before, over, state := us, ctx.runState == CompletedCycle, parent.runState;
        var e;
        thrown, e, us, foot' := RunSection(ss, i, p, parent, us, foot');
        BodyNext(ts, before, us, ss, i, d, p, entered, e, thrown, over, ctx.runState == CompletedCycle,
                 state, parent.runState);
        d := if over then d else i;
        entered := entered + e;
        i := i + 1;
      }
    }

    // Reports the sections that an exception cut short; their trackers were left while it unwound.
    method HandleUnfinishedSections()
      requires activeSections == []
      modifies `unfinishedSections, `activeSections, ctx`currentTracker, ctx`runState
      ensures unfinishedSections == [] && activeSections == [] && unchanged(ctx)
    {
      for i := |unfinishedSections| downto 0
        invariant activeSections == [] && unchanged(ctx)
      {
        var logicError := SectionEnded();
      }
      unfinishedSections := [];
    }

    // One cycle of the test body, exceptions caught.
    method RunCurrentTest(test: Section, ghost kids: seq<Tree>, ghost foot: set<Tracker>)
      returns (entered: seq<Path>, ghost u: Tree)
      requires testCaseTracker != null && test.WellFormed() && testCaseTracker.nameAndLocation == test.id
      requires Ready(testCaseTracker, kids, foot, test.kids) && SettledAll(kids, test.kids)
      requires activeSections == [] && unfinishedSections == []
      requires testCaseTracker.runState == Executing && ctx.runState != CompletedCycle
      requires !test.IsLeaf() && AllComplete(kids, test.kids) ==> test.Settles()
      modifies `activeSections, `unfinishedSections, ctx`currentTracker, ctx`runState, testCaseTracker.line, foot
      ensures testCaseTracker == old(testCaseTracker) && activeSections == [] && unfinishedSections == []
      ensures u.obj == testCaseTracker && u.Matches() && Settled(u, test)
      ensures u.Complete() ==> u.state == CompletedSuccessfully
      ensures fresh(u.foot - {testCaseTracker} - foot) && u.foot !! testCaseTracker.parent.line
      ensures ctx.currentTracker == testCaseTracker.parent && Kept(testCaseTracker.line - {testCaseTracker})
      ensures Plan(u.(state := Executing, kids := kids), test, []) == [entered] + Plan(u, test, [])
      ensures GrewAll(kids, u.kids) && DoneAll(kids) < Done(u)
    {
      ghost var tracker := testCaseTracker;
      var thrown;
      ghost var us, foot';
      thrown, entered, us, foot' := Invoke(test, [], tracker, kids, foot);
      assert tracker.WellPlaced() && tracker.parent.WellPlaced();
      u := TestCaseEnded(test, kids, entered, thrown, us, foot');
    }

    method TestCaseEnded(test: Section, ghost kids: seq<Tree>, ghost entered: seq<Path>, ghost thrown: bool,
                         ghost us: seq<Tree>, ghost foot: set<Tracker>) returns (ghost u: Tree)
      requires testCaseTracker != null && Ready(testCaseTracker, us, foot, test.kids) && testCaseTracker.IsOpen()
      requires activeSections == [] && test.WellFormed() && testCaseTracker.nameAndLocation == test.id
      requires BodyRan(test, [], kids, us, entered, thrown, testCaseTracker.runState)
      requires if test.IsLeaf() then kids == [] else AllComplete(kids, test.kids) ==> test.Settles()
      modifies `activeSections, `unfinishedSections, ctx`currentTracker, ctx`runState, testCaseTracker`runState
      ensures activeSections == [] && unfinishedSections == [] && ctx.currentTracker == testCaseTracker.parent
      ensures u.obj == testCaseTracker && u.Matches() && u.kids == us && u.foot == {testCaseTracker} + foot
      ensures Settled(u, test) && (u.Complete() ==> u.state == CompletedSuccessfully)
      ensures Plan(u.(state := Executing, kids := kids), test, []) == [entered] + Plan(u, test, [])
      ensures GrewAll(kids, u.kids) && DoneAll(kids) < Done(u)
    {
      ghost var state := testCaseTracker.runState;
      u := CloseTestCase(test.kids, us, foot);
      TestEnded(test, kids, entered, thrown, state, u);
      HandleUnfinishedSections();
    }

    // Closes the test case's tracker.
    method CloseTestCase(ghost ss: seq<Section>, ghost us: seq<Tree>, ghost foot: set<Tracker>) returns (ghost u: Tree)
      requires testCaseTracker != null && Ready(testCaseTracker, us, foot, ss) && testCaseTracker.IsOpen()
      modifies ctx`currentTracker, ctx`runState, testCaseTracker`runState
      ensures ctx.currentTracker == testCaseTracker.parent
      ensures u.obj == testCaseTracker && u.Matches() && u.kids == us && u.foot == {testCaseTracker} + foot
      ensures u.state == ClosedState(old(testCaseTracker.runState), us != [] && us[|us| - 1].Complete(), us == [])
    {
      ghost var tracker := testCaseTracker;
      assert tracker.WellPlaced() && tracker.parent.WellPlaced();
      assert us != [] ==> tracker.children[|us| - 1] == us[|us| - 1].obj && us[|us| - 1].Matches();
      var logicError := testCaseTracker.Close();
      assert !logicError;
      u := Tree(tracker, tracker.runState, us, {tracker} + foot);
      assert Holds(tracker, us, foot) && u.foot - {tracker} == foot;
    }

    // Starts a cycle: the test case's tracker is found or created below the root, and opened.
    method StartTestCase(test: Section, ghost root: Tracker, ghost ts: seq<Tree>, ghost foot: set<Tracker>)
      returns (ghost us: seq<Tree>, ghost foot': set<Tracker>)
      requires test.WellFormed()
      requires ctx.rootTracker == root && root.ctx == ctx && root.parent == null && Running(root, ts, foot, [test])
      requires ts != [] ==> !ts[0].Complete()
      modifies `testCaseTracker, ctx`currentTracker, ctx`runState, root, foot
      ensures |us| == 1 && us[0].obj == testCaseTracker && us[0].state == Executing
      ensures us[0].obj.nameAndLocation == test.id && us[0].obj.line == {us[0].obj, root}
      ensures Holds(root, us, foot') && root !in foot' && fresh(foot' - foot) && root.runState == ExecutingChildren
      ensures ctx.runState != CompletedCycle && Ready(testCaseTracker, us[0].kids, us[0].foot - {us[0].obj}, test.kids)
      ensures SettledAll(us[0].kids, test.kids)
      ensures !test.IsLeaf() && AllComplete(us[0].kids, test.kids) ==> test.Settles()
      ensures Remaining(ts, test) == Plan(us[0], test, [])
      ensures ts != [] ==> us[0].obj == ts[0].obj && us[0].kids == ts[0].kids
    {
      us, foot' := OpenTestCase(test, root, ts, foot);
      assert us[0].Matches() && us[0].obj.WellPlaced();
      CaseOpens(ts, us[0], test);
    }

    method OpenTestCase(test: Section, ghost root: Tracker, ghost ts: seq<Tree>, ghost foot: set<Tracker>)
      returns (ghost us: seq<Tree>, ghost foot': set<Tracker>)
      requires test.WellFormed()
      requires ctx.rootTracker == root && root.ctx == ctx && root.parent == null && Running(root, ts, foot, [test])
      requires ts != [] ==> !ts[0].Complete()
      modifies `testCaseTracker, ctx`currentTracker, ctx`runState, root, foot
      ensures ctx.runState != CompletedCycle
      ensures ChildAcquired(ctx, root, ts, foot, [test], 0, us, foot', true) && testCaseTracker == us[0].obj
    {
      assert root.line == {root} && (ts != [] ==> ts[0].Matches() && ts[0].obj in foot);
      ctx.StartCycle();
      testCaseTracker, us, foot' := AcquireChild(ctx, test.id, [test], 0, root, ts, foot);
    }

    // One round of the loop in runTest: a cycle of the test case.
    method RunCycle(test: Section, ghost root: Tracker, ghost ts: seq<Tree>, ghost foot: set<Tracker>)
      returns (entered: seq<Path>, ghost us: seq<Tree>, ghost foot': set<Tracker>)
      requires test.WellFormed() && activeSections == [] && unfinishedSections == []
      requires ctx.rootTracker == root && root.ctx == ctx && root.parent == null && Running(root, ts, foot, [test])
      requires ts != [] ==> !ts[0].Complete()
      modifies this, ctx`currentTracker, ctx`runState, root, foot
      ensures activeSections == [] && unfinishedSections == []
      ensures |us| == 1 && Running(root, us, foot', [test]) && fresh(foot' - foot)
      ensures testCaseTracker == us[0].obj && (us[0].Complete() ==> us[0].state == CompletedSuccessfully)
      ensures Remaining(ts, test) == [entered] + Remaining(us, test)
      ensures AllProgress(ts, us)
    {
      ghost var before, started, u;
      before, started := StartTestCase(test, root, ts, foot);
      entered, u, foot' := RunStarted(test, root, before, started);
      us := [u];
      CycleDone(ts, before[0], u, test, entered);
    }

    // The rest of the round, once the test case's tracker is open.
    method RunStarted(test: Section, ghost root: Tracker, ghost before: seq<Tree>, ghost started: set<Tracker>)
      returns (entered: seq<Path>, ghost u: Tree, ghost foot': set<Tracker>)
      requires test.WellFormed() && activeSections == [] && unfinishedSections == []
      requires ctx.rootTracker == root && root.ctx == ctx && root.parent == null && root !in started
      requires |before| == 1 && before[0].obj == testCaseTracker && before[0].state == Executing
      requires before[0].obj.nameAndLocation == test.id && before[0].obj.line == {before[0].obj, root}
      requires Holds(root, before, started) && root.runState == ExecutingChildren && ctx.runState != CompletedCycle
      requires Ready(testCaseTracker, before[0].kids, before[0].foot - {before[0].obj}, test.kids)
      requires SettledAll(before[0].kids, test.kids)
      requires !test.IsLeaf() && AllComplete(before[0].kids, test.kids) ==> test.Settles()
      modifies this, ctx`currentTracker, ctx`runState, root, started
      ensures activeSections == [] && unfinishedSections == [] && u.obj == before[0].obj == testCaseTracker
      ensures Running(root, [u], foot', [test]) && fresh(foot' - started)
      ensures u.Complete() ==> u.state == CompletedSuccessfully
      ensures Plan(u.(state := Executing, kids := before[0].kids), test, []) == [entered] + Plan(u, test, [])
      ensures GrewAll(before[0].kids, u.kids) && DoneAll(before[0].kids) < Done(u)
    {
      ghost var t := before[0];
      entered, u := RunCurrentTest(test, t.kids, t.foot - {t.obj});
      foot' := started + u.foot;
      HoldsReplaced(root, before, [u], 0, started, foot');
    }

    // Runs cycles until the test case's tracker is successfully completed.
    method RunCycles(test: Section, rootName: NameAndLocation) returns (cycles: seq<seq<Path>>)
      requires test.WellFormed() && activeSections == [] && unfinishedSections == []
      modifies this, ctx
      ensures cycles == FullPlan(test, [])
      ensures activeSections == [] && unfinishedSections == []
      ensures testCaseTracker != null && testCaseTracker.runState == CompletedSuccessfully
    {
      ghost var root := ctx.StartRun(rootName);
      ghost var ts, foot: set<Tracker> := [], {};
      ghost var rest := FullPlan(test, []);
      cycles := [];
      var successful := false;
      while !successful
        invariant ctx.rootTracker == root && fresh(root) && fresh(foot) && root.ctx == ctx && root.parent == null
        invariant activeSections == [] && unfinishedSections == []
        invariant Running(root, ts, foot, [test])
        invariant rest == Remaining(ts, test)
        invariant cycles + rest == FullPlan(test, [])
        invariant if ts == [] then !successful else testCaseTracker == ts[0].obj && (ts[0].Complete() ==> successful)
        invariant successful ==>
                    testCaseTracker != null && testCaseTracker.runState == CompletedSuccessfully && rest == []
        decreases |rest|
      {
        var entered;
        entered, ts, foot := RunCycle(test, root, ts, foot);
        cycles, rest := cycles + [entered], Remaining(ts, test);
        assert ts[0].Matches();
        successful := testCaseTracker.IsSuccessfullyCompleted();
      }
    }

    // Runs a test case: all its cycles, once for every combination of generator indices.
    method RunTest(test: Section, rootName: NameAndLocation, generators: GeneratorsForTest) returns (passes: seq<Pass>)
      requires test.WellFormed() && activeSections == [] && unfinishedSections == []
      requires generators.Valid() && generators.Indices() == Zeros(|generators.Sizes()|)
      modifies this, ctx, generators.generatorsInOrder
      ensures generators.Valid() && generators.Sizes() == old(generators.Sizes())
      ensures generators.Indices() == Zeros(|generators.Sizes()|)
      ensures |passes| == Product(generators.Sizes()) && Counted(passes, generators.Sizes(), FullPlan(test, []))
      ensures forall combination | InRange(combination, generators.Sizes()) ::
                exists k :: 0 <= k < |passes| && passes[k].indices == combination
      ensures activeSections == [] && unfinishedSections == []
    {
      passes := [];
      var more := true;
      ghost var sizes := generators.Sizes();
      ZerosValue(sizes);
      while more
        invariant activeSections == [] && unfinishedSections == []
        invariant generators.Valid() && generators.Sizes() == sizes
        invariant generators.generatorsInOrder == old(generators.generatorsInOrder)
        invariant if more then Value(generators.Indices(), sizes) == |passes|
                  else generators.Indices() == Zeros(|sizes|) && |passes| == Product(sizes)
        invariant Counted(passes, sizes, FullPlan(test, []))
        decreases Product(sizes) - |passes|, more
      {
        ghost var indices := generators.Indices();
        NextCounts(indices, sizes);
        ValueBound(indices, sizes);
        var pass;
        pass, more := RunPass(test, rootName, generators);
        passes := passes + [pass];
      }
      AllCombinations(passes, sizes, FullPlan(test, []));
    }

    // One round of the outer loop in runTest, and the step of the generators after it.
    method RunPass(test: Section, rootName: NameAndLocation, generators: GeneratorsForTest)
      returns (pass: Pass, more: bool)
      requires test.WellFormed() && activeSections == [] && unfinishedSections == [] && generators.Valid()
      modifies this, ctx, generators.generatorsInOrder
      ensures activeSections == [] && unfinishedSections == []
      ensures generators.Valid() && generators.Sizes() == old(generators.Sizes())
      ensures generators.generatorsInOrder == old(generators.generatorsInOrder)
      ensures pass == Pass(old(generators.Indices()), FullPlan(test, []))
      ensures (generators.Indices(), more) == old(Next(generators.Indices(), generators.Sizes()))
    {
      var indices := generators.Indices();
      var cycles := RunCycles(test, rootName);
      assert generators.Indices() == indices;
      pass := Pass(indices, cycles);
      more := generators.MoveNext();
    }
  }
}
