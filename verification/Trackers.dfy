// The tracker tree of Catch's section engine: one tracker per SECTION, kept across cycles.
module Trackers {

  datatype NameAndLocation = NameAndLocation(name: string, file: string, line: nat)

  datatype CycleState =
    | NotStarted
    | Executing
    | ExecutingChildren
    | NeedsAnotherRun
    | CompletedSuccessfully
    | Failed

  datatype RunState = RunNotStarted | RunExecuting | CompletedCycle

  predicate CompleteState(state: CycleState) {
    state == CompletedSuccessfully || state == Failed
  }

  class TrackerContext {
    var rootTracker: Tracker?
    var currentTracker: Tracker?
    var runState: RunState

    constructor ()
      ensures rootTracker == null && currentTracker == null && runState == RunNotStarted
    {
      rootTracker, currentTracker, runState := null, null, RunNotStarted;
    }

    method StartRun(rootName: NameAndLocation) returns (root: Tracker)
      modifies this
      ensures fresh(root) && root.WellPlaced() && root.ctx == this && root.parent == null
      ensures root.runState == NotStarted && root.children == []
      ensures rootTracker == root && currentTracker == null && runState == RunExecuting
    {
      root := new Tracker(rootName, this, null);
      rootTracker, currentTracker, runState := root, null, RunExecuting;
    }

    method StartCycle()
      modifies `currentTracker, `runState
      ensures currentTracker == rootTracker && runState == RunExecuting
    {
      currentTracker, runState := rootTracker, RunExecuting;
    }
  }

  class Tracker {
    const nameAndLocation: NameAndLocation
    const ctx: TrackerContext
    const parent: Tracker?
    var children: seq<Tracker>
    var runState: CycleState

    // This tracker and every tracker above it, with the distance to the root.
    ghost const line: set<Tracker>
    ghost const depth: nat

    ghost predicate WellPlaced()
      decreases depth
    {
      && line == {this} + (if parent == null then {} else parent.line)
      && (forall a | a in line :: a == this || a.depth < depth)
      && (parent != null ==> parent.depth < depth && parent.ctx == ctx && parent.WellPlaced())
    }

    constructor (nameAndLocation: NameAndLocation, ctx: TrackerContext, parent: Tracker?)
      requires parent != null ==> parent.WellPlaced() && parent.ctx == ctx
      ensures this.nameAndLocation == nameAndLocation && this.ctx == ctx && this.parent == parent
      ensures children == [] && runState == NotStarted
      ensures WellPlaced()
    {
      this.nameAndLocation, this.ctx, this.parent := nameAndLocation, ctx, parent;
      children, runState := [], NotStarted;
      line := {this} + (if parent == null then {} else parent.line);
      depth := if parent == null then 0 else parent.depth + 1;
    }

    predicate IsComplete()
      reads this
    {
      CompleteState(runState)
    }

    predicate IsSuccessfullyCompleted()
      reads this
    {
      runState == CompletedSuccessfully
    }

    predicate IsOpen()
      reads this
    {
      runState != NotStarted && !IsComplete()
    }

    method AddChild(child: Tracker)
      modifies this`children
      ensures children == old(children) + [child]
    {
      children := children + [child];
    }

    // The first child with this name and location, or null when there is none.
    method FindChild(nameAndLocation: NameAndLocation) returns (child: Tracker?)
      ensures child == null <==> forall c | c in children :: c.nameAndLocation != nameAndLocation
      ensures child != null ==> child in children && child.nameAndLocation == nameAndLocation
    {
      for i := 0 to |children|
        invariant forall j | 0 <= j < i :: children[j].nameAndLocation != nameAndLocation
      {
        if children[i].nameAndLocation == nameAndLocation {
          return children[i];
        }
      }
      return null;
    }

    // The trackers that OpenChild sets: from here up to the first one that is executing children already.
    ghost function Touched(): set<Tracker>
      requires WellPlaced()
      reads line`runState
      decreases depth
    {
      if runState == ExecutingChildren then {}
      else {this} + (if parent == null then {} else parent.Touched())
    }

    method OpenChild()
      requires WellPlaced()
      modifies line`runState
      ensures forall a | a in line :: a.runState == if a in old(Touched()) then ExecutingChildren else old(a.runState)
      decreases depth
    {
      if runState != ExecutingChildren {
        runState := ExecutingChildren;
        if parent != null {
          parent.OpenChild();
        }
      }
    }

    method Open()
      requires WellPlaced()
      modifies line`runState, ctx`currentTracker
      ensures runState == Executing && ctx.currentTracker == this
      ensures forall a | a in line && a != this ::
                a.runState == if a in old(parent.Touched()) then ExecutingChildren else old(a.runState)
    {
      runState := Executing;
      ctx.currentTracker := this;
      if parent != null {
        parent.OpenChild();
      }
    }

    // Closing an open tracker at the end of its body. Closing one that is not open throws a logic error
    // in the original, before anything has changed.
    method Close() returns (logicError: bool)
      requires ctx.currentTracker == this && parent != null
      modifies this`runState, ctx`currentTracker, ctx`runState
      ensures logicError <==> old(!IsOpen())
      ensures logicError ==> runState == old(runState) && unchanged(ctx)
      ensures !logicError ==>
                && runState == ClosedState(old(runState), old(children != [] && children[|children| - 1].IsComplete()),
                                           old(children == []))
                && ctx.currentTracker == parent && ctx.runState == CompletedCycle
    {
      match runState {
        case NotStarted => return true;
        case CompletedSuccessfully => return true;
        case Failed => return true;
        case NeedsAnotherRun =>
        case Executing => runState := CompletedSuccessfully;
        case ExecutingChildren =>
          if children == [] || children[|children| - 1].IsComplete() {
            runState := CompletedSuccessfully;
          }
      }
      ctx.currentTracker := parent;
      ctx.runState := CompletedCycle;
      return false;
    }

    method Fail()
      requires parent != null && parent != this
      modifies this`runState, parent`runState, ctx`currentTracker, ctx`runState
      ensures runState == Failed && parent.runState == NeedsAnotherRun
      ensures ctx.currentTracker == parent && ctx.runState == CompletedCycle
    {
      runState := Failed;
      parent.MarkAsNeedingAnotherRun();
      ctx.currentTracker := parent;
      ctx.runState := CompletedCycle;
    }

    method MarkAsNeedingAnotherRun()
      modifies this`runState
      ensures runState == NeedsAnotherRun
    {
      runState := NeedsAnotherRun;
    }
  }

  // What an open tracker becomes when its body ends.
  function ClosedState(state: CycleState, lastComplete: bool, childless: bool): CycleState {
    if state == NeedsAnotherRun || (state == ExecutingChildren && !childless && !lastComplete) then state
    else CompletedSuccessfully
  }

  twostate predicate Kept(ts: set<Tracker>)
    reads ts
  {
    forall t | t in ts :: t.runState == old(t.runState) && t.children == old(t.children)
  }

  // What finding or creating a section's tracker does to the heap: the tracker is the child with that name, new at
  // the end when there was none, and it is opened unless this cycle or the section itself has already completed.
  twostate predicate Acquired(ctx: TrackerContext, current: Tracker, id: NameAndLocation, new section: Tracker)
    requires current.WellPlaced()
    reads ctx, current.line, current.children, section
  {
    var found := old(Named(current.children, id)) != {};
    var before := if found && old(allocated(section)) then old(section.runState) else NotStarted;
    var opens := old(ctx.runState) != CompletedCycle && !CompleteState(before);
    && section.nameAndLocation == id && section.WellPlaced() && section.parent == current && section.ctx == ctx
    && (if found then section in old(Named(current.children, id)) && current.children == old(current.children)
        else fresh(section) && current.children == old(current.children) + [section])
    && section.children == (if found && old(allocated(section)) then old(section.children) else [])
    && section.runState == (if opens then Executing else before)
    && ctx.currentTracker == (if opens then section else current)
    && (forall a | a in current.line ::
          a.runState == if opens && a in old(current.Touched()) then ExecutingChildren else old(a.runState))
    && (forall a | a in current.line && a != current :: a.children == old(a.children))
  }

  ghost function Named(ts: seq<Tracker>, id: NameAndLocation): set<Tracker> {
    set t | t in ts && t.nameAndLocation == id
  }

  ghost predicate CanAcquire(ctx: TrackerContext)
    reads ctx, ctx.currentTracker
  {
    && ctx.currentTracker != null && ctx.currentTracker.WellPlaced() && ctx.currentTracker.ctx == ctx
    && forall c | c in ctx.currentTracker.children ::
         c.WellPlaced() && c.parent == ctx.currentTracker && c.ctx == ctx
  }

  method Acquire(ctx: TrackerContext, id: NameAndLocation) returns (section: Tracker)
    requires CanAcquire(ctx)
    modifies ctx`currentTracker, ctx.currentTracker.line, Named(ctx.currentTracker.children, id)
    ensures Acquired(ctx, old(ctx.currentTracker), id, section)
  {
    var current := ctx.currentTracker;
    var child := current.FindChild(id);
    assert child == null ==> Named(current.children, id) == {};
    assert child != null ==> child in Named(current.children, id);
    if child != null {
      section := child;
    } else {
      section := new Tracker(id, ctx, current);
      current.AddChild(section);
    }
    if ctx.runState != CompletedCycle {
      if !section.IsComplete() {
        section.Open();
      }
    }
  }
}
