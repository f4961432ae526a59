/** The loop that moves the items of a task, over a tree of files that every operation may leave half changed.

    How an operation ends is a parameter, its `Fate`: a removal or a copy that fails, or is cut short, leaves any
    part of its own subtree changed. `trail` keeps every state of the tree, the ones in the middle of an operation
    included. The class has the loop itself; each of its methods is proved to do what a function of the tree and
    of the fates says, and the lemmas are about those functions and hold for all fates. */
module FileMove {

  datatype Name = Name(text: string)

  type Path = seq<Name>

  type Item = p: Path | p != [] witness [Name("")]

  datatype Node = Folder | File(content: int)

  type Tree = map<Path, Node>

  datatype Style = Skip | Overwrite

  datatype Rename = Renamed | CrossDevice | RenameFailed

  datatype Error = NoError | SamePath | MountPoint | NotRegular | LinkOutside | MoveFailed

  /** A removal finds something mounted and does nothing, or goes through a state in which the paths `gone` are
      removed and ends there or with everything removed. */
  datatype Removal = Refuses | Removes(gone: set<Path>, all: bool)

  /** How one turn of the loop goes: when the task is told to stop, and how each operation ends. */
  datatype Fate = Fate(
    stop: bool, clear: Removal, rename: Rename, mounted: bool, copied: Error, half: Tree, stopCopying: bool,
    last: Removal, stopLate: bool)

  function Target(from: Item, to: Path): Item {
    to + [from[|from| - 1]]
  }

  /** Whether moving `from` into `to` would write over it or into it. */
  predicate Overlap(from: Item, to: Path) {
    from <= to || Target(from, to) <= from
  }

  /** Neither path is the other or is under it. */
  predicate Apart(p: Path, q: Path) {
    !(p <= q) && !(q <= p)
  }

  predicate There(t: Tree, p: Path) {
    exists q :: q in t && p <= q
  }

  // ---------------------------------------------------------------- what the operations do to a tree

  /** A state an operation ends in, the states it went through, and its error. */
  datatype Outcome = Outcome(tree: Tree, passed: seq<Tree>, err: Error)

  function Without(t: Tree, p: Path): Tree {
    map q | q in t && !(p <= q) :: t[q]
  }

  function Removed(t: Tree, p: Path, r: Removal): Outcome {
    if r.Refuses? then Outcome(t, [], MountPoint)
    else
      var part := map q | q in t && !(p <= q && q in r.gone) :: t[q];
      if r.all then Outcome(Without(t, p), [part, Without(t, p)], NoError) else Outcome(part, [part], MoveFailed)
  }

  /** The paths under `target` that the entries under `from` get. */
  function Destinations(t: Tree, from: Path, target: Path): set<Path> {
    set q | q in t && from <= q :: target + q[|from|..]
  }

  function Copy(t: Tree, from: Path, target: Path): Tree {
    map r | r in Destinations(t, from, target) && from + r[|target|..] in t :: t[from + r[|target|..]]
  }

  function Relocated(t: Tree, from: Path, target: Path): Tree {
    Without(t, from) + Copy(t, from, target)
  }

  /** A copy ends with everything copied or, on an error or told to stop, with anything under `target`. */
  function Copied(t: Tree, from: Path, target: Path, f: Fate): Outcome {
    var half := t + map r | r in f.half && target <= r :: f.half[r];
    var err := if f.stopCopying && f.copied == NoError then MoveFailed else f.copied;
    if err == NoError then Outcome(t + Copy(t, from, target), [half, t + Copy(t, from, target)], NoError)
    else Outcome(half, [half], err)
  }

  /** What is done to one item: `stopped` when the task was told to stop in the middle of it. */
  datatype Step = Step(tree: Tree, passed: seq<Tree>, skipped: bool, err: Error, stopped: bool)

  function Placed(t: Tree, from: Item, target: Path, f: Fate): Step {
    if !There(t, from) || f.rename.RenameFailed? then Step(t, [], false, MoveFailed, false)
    else if f.rename.Renamed? then Step(Relocated(t, from, target), [Relocated(t, from, target)], false, NoError, false)
    else if f.mounted then Step(t, [], false, MountPoint, false)
    else
      var copy := Copied(t, from, target, f);
      var last := Removed(copy.tree, if copy.err == NoError then from else target, f.last);
      Step(last.tree, copy.passed + last.passed, false, if copy.err == NoError then last.err else copy.err, f.stopCopying)
  }

  function ItemMoved(t: Tree, from: Item, to: Path, style: Style, f: Fate): Step {
    var target := Target(from, to);
    if !There(t, target) then Placed(t, from, target, f)
    else if style.Skip? then Step(t, [], true, NoError, false)
    else
      var clear := Removed(t, target, f.clear);
      if clear.err != NoError then Step(clear.tree, clear.passed, false, clear.err, false)
      else var step := Placed(clear.tree, from, target, f); step.(passed := clear.passed + step.passed)
  }

  // ---------------------------------------------------------------- the turns of the loop

  /** The task: its tree, every state the tree was in, which items were skipped, and the first failure. */
  datatype Task = Task(tree: Tree, trail: seq<Tree>, skipped: seq<bool>, error: Error, stopped: bool)

  function Turn(s: Task, from: Item, to: Path, style: Style, f: Fate): Task {
    if s.stopped || f.stop then s.(stopped := true)
    else
      var step := if Overlap(from, to) then Step(s.tree, [], false, SamePath, false) else ItemMoved(s.tree, from, to, style, f);
      var stopped := step.stopped || f.stopLate;
      Task(step.tree, s.trail + step.passed, s.skipped + [step.skipped],
           if step.err != NoError && !stopped && s.error == NoError then step.err else s.error, stopped)
  }

  /** The task after `n` turns. */
  function After(origin: Tree, items: seq<Item>, to: Path, style: Style, fates: seq<Fate>, n: nat): Task
    requires n <= |items| == |fates|
  {
    if n == 0 then Task(origin, [origin], [], NoError, false)
    else Turn(After(origin, items, to, style, fates, n - 1), items[n - 1], to, style, fates[n - 1])
  }

  /** Told to stop, it does nothing more. */
  lemma {:induction false} StoppedStays(origin: Tree, items: seq<Item>, to: Path, style: Style, fates: seq<Fate>, n: nat, m: nat)
    requires n <= m <= |items| == |fates| && After(origin, items, to, style, fates, n).stopped
    ensures After(origin, items, to, style, fates, m) == After(origin, items, to, style, fates, n)
  {
    if n < m {
      StoppedStays(origin, items, to, style, fates, n, m - 1);
    }
  }

  lemma {:induction false} StopsHere(origin: Tree, items: seq<Item>, to: Path, style: Style, fates: seq<Fate>, n: nat)
    requires n < |items| == |fates| && (After(origin, items, to, style, fates, n).stopped || fates[n].stop)
    ensures After(origin, items, to, style, fates, |items|) == After(origin, items, to, style, fates, n).(stopped := true)
  {
    StoppedStays(origin, items, to, style, fates, n + 1, |items|);
  }

  class Disk {
    var tree: Tree
    ghost var trail: seq<Tree>
    // the operation was told to stop: it stays told
    var cancelled: bool

    constructor (t: Tree)
      ensures tree == t && trail == [t] && !cancelled
    {
      tree, trail, cancelled := t, [t], false;
    }

    method Enter(t: Tree)
      modifies this`tree, this`trail
      ensures tree == t && trail == old(trail) + [t]
    {
      tree, trail := t, trail + [t];
    }

    /** Removes `p` and what is under it, or, with something mounted there, nothing; on a failure a part of it. */
    method RemoveAllNoCross(p: Path, r: Removal) returns (err: Error)
      modifies this`tree, this`trail
      ensures old(trail) <= trail
      ensures Removed(old(tree), p, r) == Outcome(tree, trail[|old(trail)|..], err)
      ensures forall t :: t in trail[|old(trail)|..] + [tree] ==> Shrunk(old(tree), t, p)
      ensures err == NoError ==> Cleared(tree, p)
    {
      RemovedShrinks(tree, p, r);
      if r.Refuses? {
        return MountPoint;
      }
      var before := tree;
      Enter(map q | q in before && !(p <= q && q in r.gone) :: before[q]);
      err := MoveFailed;
      if r.all {
        Enter(Without(before, p));
        err := NoError;
      }
    }

    method CopyEntry(from: Path, target: Path, f: Fate) returns (err: Error)
      modifies this
      ensures old(trail) <= trail
      ensures Copied(old(tree), from, target, f) == Outcome(tree, trail[|old(trail)|..], err)
      ensures cancelled == (old(cancelled) || f.stopCopying)
    {
      var before := tree;
      Enter(before + map r | r in f.half && target <= r :: f.half[r]);
      cancelled := cancelled || f.stopCopying;
      err := if f.stopCopying && f.copied == NoError then MoveFailed else f.copied;
      if err == NoError {
        Enter(before + Copy(before, from, target));
      }
    }

    method PlaceItem(from: Item, target: Path, f: Fate) returns (err: Error)
      modifies this
      ensures old(trail) <= trail
      ensures var step := Placed(old(tree), from, target, f);
        && step == Step(tree, trail[|old(trail)|..], false, err, step.stopped)
        && cancelled == (old(cancelled) || step.stopped)
    {
      err := NoError;
      if !There(tree, from) || f.rename.RenameFailed? {
        return MoveFailed;
      }
      if f.rename.Renamed? {
        Enter(Relocated(tree, from, target));
        return;
      }
      // what would refuse the removal of the source is looked for before the copy is made
      if f.mounted {
        return MountPoint;
      }
      err := CopyEntry(from, target, f);
      if err == NoError {
        err := RemoveAllNoCross(from, f.last);
      } else {
        var ignored := RemoveAllNoCross(target, f.last);
      }
    }

    /** The loop's body for an item that may be moved: `skipped` when its target is there and the style leaves it. */
    method MoveItem(from: Item, to: Path, style: Style, f: Fate) returns (skipped: bool, err: Error)
      modifies this
      ensures old(trail) <= trail
      ensures var step := ItemMoved(old(tree), from, to, style, f);
        && step == Step(tree, trail[|old(trail)|..], skipped, err, step.stopped)
        && cancelled == (old(cancelled) || step.stopped)
    {
      var target := Target(from, to);
      skipped, err := false, NoError;
      if There(tree, target) {
        if style.Skip? {
          return true, NoError;
        }
        err := RemoveAllNoCross(target, f.clear);
        if err != NoError {
          return;
        }
      }
      err := PlaceItem(from, target, f);
    }

    /** The loop's body: one item, and the first failure of the task. */
    method TakeTurn(from: Item, to: Path, style: Style, f: Fate, skipped: seq<bool>, error: Error)
      returns (skippedNow: seq<bool>, errorNow: Error)
      requires !cancelled && !f.stop
      modifies this
      ensures Turn(Task(old(tree), old(trail), skipped, error, false), from, to, style, f)
              == Task(tree, trail, skippedNow, errorNow, cancelled)
    {
      var skip, err := false, SamePath;
      if !Overlap(from, to) {
        skip, err := MoveItem(from, to, style, f);
        assert trail == old(trail) + trail[|old(trail)|..];
      }
      cancelled := cancelled || f.stopLate;
      errorNow := if err != NoError && !cancelled && error == NoError then err else error;
      skippedNow := skipped + [skip];
    }

    method TakeTurnOf(ghost origin: Tree, items: seq<Item>, to: Path, style: Style, fates: seq<Fate>, i: nat,
                      skipped: seq<bool>, error: Error)
      returns (skippedNow: seq<bool>, errorNow: Error)
      requires i < |items| == |fates| && !cancelled && !fates[i].stop
      requires After(origin, items, to, style, fates, i) == Task(tree, trail, skipped, error, false)
      modifies this
      ensures After(origin, items, to, style, fates, i + 1) == Task(tree, trail, skippedNow, errorNow, cancelled)
    {
      skippedNow, errorNow := TakeTurn(items[i], to, style, fates[i], skipped, error);
    }

    method MoveItems(items: seq<Item>, to: Path, style: Style, fates: seq<Fate>) returns (skipped: seq<bool>, error: Error)
      requires |fates| == |items| && trail == [tree] && !cancelled
      modifies this
      ensures After(old(tree), items, to, style, fates, |items|) == Task(tree, trail, skipped, error, cancelled)
    {
      skipped, error := [], NoError;
      var i := 0;
      while i < |items|
        invariant i <= |items|
        invariant After(old(tree), items, to, style, fates, i) == Task(tree, trail, skipped, error, cancelled)
      {
        cancelled := cancelled || fates[i].stop;
        if cancelled {
          StopsHere(old(tree), items, to, style, fates, i);
          return;
        }
        skipped, error := TakeTurnOf(old(tree), items, to, style, fates, i, skipped, error);
        i := i + 1;
      }
    }
  }

  // ---------------------------------------------------------------- what each operation may change

  /** Nothing changed but under `p`. */
  ghost predicate SameOutside(before: Tree, after: Tree, p: Path) {
    forall q :: !(p <= q) ==> (q in after <==> q in before) && (q in before ==> after[q] == before[q])
  }

  /** Nothing changed but under `p` and under `r`. */
  ghost predicate SameBeyond(before: Tree, after: Tree, p: Path, r: Path) {
    forall q :: !(p <= q) && !(r <= q) ==> (q in after <==> q in before) && (q in before ==> after[q] == before[q])
  }

  ghost predicate Cleared(t: Tree, p: Path) {
    forall q :: p <= q ==> q !in t
  }

  /** The state of a removal of `p` that went as far as it went. */
  ghost predicate Shrunk(before: Tree, after: Tree, p: Path) {
    SameOutside(before, after, p) && forall q :: q in after ==> q in before && after[q] == before[q]
  }

  /** Everything under `from` in `origin` is in `t` under `at`. */
  ghost predicate Whole(origin: Tree, t: Tree, from: Path, at: Path) {
    forall q :: from <= q && q in origin ==> at + q[|from|..] in t && t[at + q[|from|..]] == origin[q]
  }

  lemma {:induction false} RemovedShrinks(t: Tree, p: Path, r: Removal)
    ensures var o := Removed(t, p, r);
      && (forall s :: s in o.passed + [o.tree] ==> Shrunk(t, s, p))
      && (o.err == NoError ==> Cleared(o.tree, p))
  {
  }

  /** What is whole somewhere stays whole when only other places change. */
  lemma {:induction false} WholeStays(origin: Tree, before: Tree, after: Tree, from: Path, at: Path, p: Path, r: Path)
    requires Whole(origin, before, from, at) && SameBeyond(before, after, p, r) && Apart(at, p) && Apart(at, r)
    ensures Whole(origin, after, from, at)
  {
  }

  lemma {:induction false} CopyArrives(origin: Tree, t: Tree, from: Path, target: Path)
    requires Whole(origin, t, from, from)
    ensures forall r :: r in Copy(t, from, target) ==> target <= r
    ensures Whole(origin, Copy(t, from, target), from, target)
  {
    forall q | from <= q && q in origin
      ensures target + q[|from|..] in Copy(t, from, target) && Copy(t, from, target)[target + q[|from|..]] == origin[q]
    {
      assert from + q[|from|..] == q;
      assert (target + q[|from|..])[|target|..] == q[|from|..];
      assert target + q[|from|..] in Destinations(t, from, target);
    }
  }

  lemma {:induction false} NoOverlapApart(from: Item, to: Path)
    requires !Overlap(from, to)
    ensures Apart(from, Target(from, to))
  {
  }

  /** An item that is whole at one of its two places at the least. */
  ghost predicate Kept(origin: Tree, t: Tree, from: Item, to: Path) {
    Whole(origin, t, from, from) || Whole(origin, t, from, Target(from, to))
  }

  /** A state that an operation on the item may leave. */
  ghost predicate Fair(origin: Tree, before: Tree, t: Tree, from: Item, to: Path) {
    SameBeyond(before, t, from, Target(from, to)) && Kept(origin, t, from, to)
  }

  lemma {:induction false} RemovalIsFair(origin: Tree, before: Tree, t: Tree, from: Item, to: Path, at: Item, p: Item, r: Removal)
    requires !Overlap(from, to) && SameBeyond(before, t, from, Target(from, to)) && Whole(origin, t, from, at)
    requires (at == from && p == Target(from, to)) || (at == Target(from, to) && p == from)
    ensures var o := Removed(t, p, r);
      && (forall s :: s in o.passed + [o.tree] ==> Fair(origin, before, s, from, to))
      && Whole(origin, o.tree, from, at)
  {
    NoOverlapApart(from, to);
    var o := Removed(t, p, r);
    RemovedShrinks(t, p, r);
    forall s | s in o.passed + [o.tree]
      ensures Fair(origin, before, s, from, to) && Whole(origin, s, from, at)
    {
      WholeStays(origin, t, s, from, at, p, p);
    }
    assert o.tree in o.passed + [o.tree];
  }

  lemma {:induction false} CopyIsFair(origin: Tree, before: Tree, t: Tree, from: Item, to: Path, f: Fate)
    requires !Overlap(from, to) && SameBeyond(before, t, from, Target(from, to)) && Whole(origin, t, from, from)
    ensures var o := Copied(t, from, Target(from, to), f);
      && (forall s :: s in o.passed + [o.tree] ==> Fair(origin, before, s, from, to))
      && Whole(origin, o.tree, from, from) && (o.err == NoError ==> Whole(origin, o.tree, from, Target(from, to)))
  {
    NoOverlapApart(from, to);
    var target := Target(from, to);
    var o := Copied(t, from, target, f);
    CopyArrives(origin, t, from, target);
    forall s | s in o.passed + [o.tree]
      ensures Fair(origin, before, s, from, to) && Whole(origin, s, from, from)
    {
      assert SameOutside(t, s, target);
      WholeStays(origin, t, s, from, from, target, target);
    }
    assert o.tree in o.passed + [o.tree];
  }

  lemma {:induction false} RenameIsFair(origin: Tree, before: Tree, t: Tree, from: Item, to: Path)
    requires !Overlap(from, to) && SameBeyond(before, t, from, Target(from, to)) && Whole(origin, t, from, from)
    ensures var s := Relocated(t, from, Target(from, to));
      Fair(origin, before, s, from, to) && Whole(origin, s, from, Target(from, to))
  {
    CopyArrives(origin, t, from, Target(from, to));
  }

  /** What is said of the item when the operation on it ends. */
  ghost predicate EndsWell(origin: Tree, step: Step, from: Item, to: Path) {
    && (step.skipped ==> Whole(origin, step.tree, from, from))
    && (!step.skipped && step.err == NoError ==> Whole(origin, step.tree, from, Target(from, to)))
  }

  lemma {:induction false} PlacingIsFair(origin: Tree, before: Tree, t: Tree, from: Item, to: Path, f: Fate)
    requires !Overlap(from, to) && SameBeyond(before, t, from, Target(from, to)) && Whole(origin, t, from, from)
    ensures var step := Placed(t, from, Target(from, to), f);
      EndsWell(origin, step, from, to) && forall s :: s in step.passed + [step.tree] ==> Fair(origin, before, s, from, to)
  {
    var target := Target(from, to);
    if There(t, from) && f.rename.Renamed? {
      RenameIsFair(origin, before, t, from, to);
    } else if There(t, from) && f.rename.CrossDevice? && !f.mounted {
      var copy := Copied(t, from, target, f);
      CopyIsFair(origin, before, t, from, to, f);
      if copy.err == NoError {
        RemovalIsFair(origin, before, copy.tree, from, to, target, from, f.last);
      } else {
        RemovalIsFair(origin, before, copy.tree, from, to, from, target, f.last);
      }
    }
  }

  /** Whatever happens to it, in every state on the way an item that may be moved is whole at one of its places,
      and nothing else is touched. */
  lemma {:induction false} MovingIsFair(origin: Tree, t: Tree, from: Item, to: Path, style: Style, f: Fate)
    requires !Overlap(from, to) && Whole(origin, t, from, from)
    ensures var step := ItemMoved(t, from, to, style, f);
      && EndsWell(origin, step, from, to)
      && (forall s :: s in step.passed + [step.tree] ==> Fair(origin, t, s, from, to))
      && (style.Skip? && There(t, Target(from, to)) ==> step.passed == [] && step.tree == t && step.skipped)
  {
    var target := Target(from, to);
    if !There(t, target) {
      PlacingIsFair(origin, t, t, from, to, f);
    } else if style.Overwrite? {
      var clear := Removed(t, target, f.clear);
      RemovalIsFair(origin, t, t, from, to, from, target, f.clear);
      if clear.err == NoError {
        assert clear.tree in clear.passed + [clear.tree];
        PlacingIsFair(origin, t, clear.tree, from, to, f);
      }
    }
  }

  // ---------------------------------------------------------------- when an item is moved

  /** The item is at its target, exactly as it was, and nothing is left at its source. */
  ghost predicate IsMoved(before: Tree, after: Tree, from: Path, target: Path) {
    && Cleared(after, from)
    && forall q :: target <= q ==>
         (q in after <==> from + q[|target|..] in before) && (q in after ==> after[q] == before[from + q[|target|..]])
  }

  lemma {:induction false} CopyIsExact(t: Tree, from: Path, target: Path, q: Path)
    requires target <= q
    ensures q in Copy(t, from, target) <==> from + q[|target|..] in t
    ensures q in Copy(t, from, target) ==> Copy(t, from, target)[q] == t[from + q[|target|..]]
  {
    var p := from + q[|target|..];
    if p in t {
      assert p[|from|..] == q[|target|..] && target + p[|from|..] == q;
      assert q in Destinations(t, from, target);
    }
  }

  lemma {:induction false} CopyMoves(t: Tree, rest: Tree, from: Path, target: Path)
    requires Cleared(t, target) && Apart(from, target) && Cleared(rest, target)
    requires Cleared(rest, from)
    ensures IsMoved(t, rest + Copy(t, from, target), from, target)
  {
    var after := rest + Copy(t, from, target);
    forall q | target <= q
      ensures (q in after <==> from + q[|target|..] in t) && (q in after ==> after[q] == t[from + q[|target|..]])
    {
      CopyIsExact(t, from, target, q);
    }
    assert forall q :: q in Copy(t, from, target) ==> target <= q;
  }

  /** When one item is moved: its target is not there, or is removed to be overwritten, it is there itself, and it is
      renamed, or copied across disks with nothing mounted in it and then removed; and then it is moved exactly. It is
      skipped exactly when its target is there and is not overwritten, and then nothing is changed. */
  lemma {:induction false} MovesExactly(t: Tree, from: Item, to: Path, style: Style, f: Fate)
    requires !Overlap(from, to)
    ensures
      var target, step := Target(from, to), ItemMoved(t, from, to, style, f);
      var isFree := !There(t, target) || (style.Overwrite? && f.clear.Removes? && f.clear.all);
      var moves := f.rename.Renamed?
        || (f.rename.CrossDevice? && !f.mounted && f.copied == NoError && !f.stopCopying && f.last.Removes? && f.last.all);
      && (step.skipped <==> There(t, target) && style.Skip?)
      && (step.skipped ==> step.tree == t && step.err == NoError)
      && (step.err == NoError && !step.skipped <==> isFree && There(t, from) && moves)
      && (step.err == NoError && !step.skipped ==> IsMoved(t, step.tree, from, target))
      && (isFree && There(t, from) && f.rename.CrossDevice? && f.mounted ==> step.err == MountPoint)
      && (isFree && There(t, from) && f.rename.CrossDevice? && !f.mounted && f.copied != NoError ==> step.err == f.copied)
  {
    var target := Target(from, to);
    NoOverlapApart(from, to);
    var clear := Without(t, target);
    if !There(t, target) {
      assert clear == t;
    }
    PlacesExactly(clear, from, to, f);
    if There(t, from) {
      var q :| q in t && from <= q;
      assert q in clear;
    }
    forall q | target <= q
      ensures from + q[|target|..] in clear <==> from + q[|target|..] in t
    {
      assert from <= from + q[|target|..];
    }
  }

  lemma {:induction false} CopyThenRemove(t: Tree, from: Path, target: Path)
    requires Apart(from, target)
    ensures Without(t + Copy(t, from, target), from) == Relocated(t, from, target)
  {
    assert forall q :: q in Copy(t, from, target) ==> target <= q;
  }

  lemma {:induction false} PlacesExactly(t: Tree, from: Item, to: Path, f: Fate)
    requires !Overlap(from, to) && Cleared(t, Target(from, to))
    ensures
      var target := Target(from, to);
      var step := Placed(t, from, target, f);
      var moves := f.rename.Renamed?
        || (f.rename.CrossDevice? && !f.mounted && f.copied == NoError && !f.stopCopying && f.last.Removes? && f.last.all);
      && !step.skipped
      && (step.err == NoError <==> There(t, from) && moves)
      && (step.err == NoError ==> IsMoved(t, step.tree, from, target))
  {
    var target := Target(from, to);
    var step := Placed(t, from, target, f);
    NoOverlapApart(from, to);
    if step.err == NoError {
      CopyMoves(t, Without(t, from), from, target);
      CopyThenRemove(t, from, target);
    }
  }

  /** What a turn tells: whether its item was skipped, and the first failure of the task that came before it was told to
      stop. */
  lemma {:induction false} TurnTells(s: Task, from: Item, to: Path, style: Style, f: Fate)
    requires !s.stopped && !f.stop
    ensures
      var next, step := Turn(s, from, to, style, f), ItemMoved(s.tree, from, to, style, f);
      && next.skipped == s.skipped + [!Overlap(from, to) && step.skipped]
      && (Overlap(from, to) ==> next.tree == s.tree && next.trail == s.trail)
      && (s.error != NoError || next.stopped ==> next.error == s.error)
      && (s.error == NoError && !next.stopped ==> next.error == if Overlap(from, to) then SamePath else step.err)
      && (next.stopped <==> f.stopLate || (!Overlap(from, to) && step.stopped))
  {
    assert s.trail + [] == s.trail;
  }

  // ---------------------------------------------------------------- what the loop keeps

  /** What a request is checked for, of items that are there and none of which is another or lies in it. */
  ghost predicate Request(origin: Tree, items: seq<Item>, to: Path) {
    && (forall k :: 0 <= k < |items| ==> !Overlap(items[k], to) && There(origin, items[k]))
    && (forall i, k :: 0 <= i < |items| && 0 <= k < |items| && i != k ==> Apart(items[i], items[k]))
  }

  /** No item lies under the target of another, or is it, and no two have one target. */
  ghost predicate NoneInTheWay(items: seq<Item>, to: Path) {
    forall i, k :: 0 <= i < |items| && 0 <= k < |items| && i != k ==>
      !(Target(items[i], to) <= items[k]) && Target(items[i], to) != Target(items[k], to)
  }

  ghost predicate AllKept(origin: Tree, t: Tree, items: seq<Item>, to: Path) {
    forall k :: 0 <= k < |items| ==> Kept(origin, t, items[k], to)
  }

  /** An item that is whole at its target, under which no item from `n` on lies. */
  ghost predicate Away(origin: Tree, t: Tree, items: seq<Item>, to: Path, n: nat, k: nat)
    requires n <= |items| && k < |items|
  {
    && Whole(origin, t, items[k], Target(items[k], to))
    && forall m :: n <= m < |items| && m != k ==> !(Target(items[k], to) <= items[m])
  }

  /** Before turn `n`: the items from `n` on are where they were, and the others there or away. */
  ghost predicate Midway(origin: Tree, t: Tree, items: seq<Item>, to: Path, n: nat)
    requires n <= |items|
  {
    forall k :: 0 <= k < |items| ==> Whole(origin, t, items[k], items[k]) || (k < n && Away(origin, t, items, to, n, k))
  }

  lemma {:induction false} TargetsApart(origin: Tree, items: seq<Item>, to: Path, i: nat, k: nat)
    requires Request(origin, items, to) && i < |items| && k < |items| && i != k
    ensures Target(items[i], to) != Target(items[k], to) ==> Apart(Target(items[i], to), Target(items[k], to))
    ensures !(items[k] <= Target(items[i], to)) || items[k] == Target(items[i], to)
  {
    assert |Target(items[i], to)| == |Target(items[k], to)|;
  }

  /** With an item at its target, that target is there. */
  lemma {:induction false} AwayIsThere(origin: Tree, t: Tree, items: seq<Item>, to: Path, k: nat)
    requires Request(origin, items, to) && k < |items| && Whole(origin, t, items[k], Target(items[k], to))
    ensures There(t, Target(items[k], to))
  {
    var q :| q in origin && items[k] <= q;
    var r := Target(items[k], to) + q[|items[k]|..];
    assert r in t && Target(items[k], to) <= r;
  }

  /** With an item at home under a target, that target is there. */
  lemma {:induction false} HomeIsThere(origin: Tree, t: Tree, items: seq<Item>, to: Path, k: nat, p: Path)
    requires Request(origin, items, to) && k < |items| && Whole(origin, t, items[k], items[k]) && p <= items[k]
    ensures There(t, p)
  {
    var q :| q in origin && items[k] <= q;
    assert items[k] + q[|items[k]|..] == q;
    assert q in t && p <= q;
  }

  /** A turn that touches the places of item `n` alone leaves every other item where it is, when none is
      in the way of another or the style leaves targets that are there. */
  lemma {:induction false} OthersStay(origin: Tree, t: Tree, s: Tree, items: seq<Item>, to: Path, style: Style, n: nat, k: nat)
    requires Request(origin, items, to) && n < |items| && k < |items| && k != n
    requires style.Skip? || NoneInTheWay(items, to)
    requires SameBeyond(t, s, items[n], Target(items[n], to))
    requires style.Skip? && There(t, Target(items[n], to)) ==> s == t
    ensures Whole(origin, t, items[k], items[k]) ==> Whole(origin, s, items[k], items[k])
    ensures Away(origin, t, items, to, n, k) ==> Away(origin, s, items, to, n + 1, k)
  {
    TargetsApart(origin, items, to, n, k);
    TargetsApart(origin, items, to, k, n);
    if Whole(origin, t, items[k], items[k]) {
      if Target(items[n], to) <= items[k] {
        HomeIsThere(origin, t, items, to, k, Target(items[n], to));
      } else {
        WholeStays(origin, t, s, items[k], items[k], items[n], Target(items[n], to));
      }
    }
    if Away(origin, t, items, to, n, k) && Target(items[n], to) == Target(items[k], to) {
      AwayIsThere(origin, t, items, to, k);
    } else if Away(origin, t, items, to, n, k) {
      WholeStays(origin, t, s, items[k], Target(items[k], to), items[n], Target(items[n], to));
    }
  }

  /** An item that was moved has no waiting item under its target. */
  lemma {:induction false} MovedIsAway(origin: Tree, t: Tree, s: Tree, items: seq<Item>, to: Path, style: Style, n: nat)
    requires Request(origin, items, to) && n < |items| && Midway(origin, t, items, to, n)
    requires style.Skip? || NoneInTheWay(items, to)
    requires !(style.Skip? && There(t, Target(items[n], to)))
    requires Whole(origin, s, items[n], Target(items[n], to))
    ensures Away(origin, s, items, to, n + 1, n)
  {
    forall m | n + 1 <= m < |items|
      ensures !(Target(items[n], to) <= items[m])
    {
      if Target(items[n], to) <= items[m] {
        HomeIsThere(origin, t, items, to, m, Target(items[n], to));
      }
    }
  }

  /** A state of turn `n` keeps every item, and the turn leaves the loop ready for the next one. */
  lemma {:induction false} TurnKeeps(origin: Tree, t: Tree, s: Tree, items: seq<Item>, to: Path, style: Style, n: nat)
    requires Request(origin, items, to) && n < |items| && Midway(origin, t, items, to, n)
    requires style.Skip? || NoneInTheWay(items, to)
    requires Fair(origin, t, s, items[n], to)
    requires style.Skip? && There(t, Target(items[n], to)) ==> s == t
    ensures AllKept(origin, s, items, to) && Midway(origin, s, items, to, n + 1)
  {
    forall k | 0 <= k < |items|
      ensures Whole(origin, s, items[k], items[k]) || (k < n + 1 && Away(origin, s, items, to, n + 1, k))
    {
      if k != n {
        OthersStay(origin, t, s, items, to, style, n, k);
      } else if !Whole(origin, s, items[n], items[n]) {
        MovedIsAway(origin, t, s, items, to, style, n);
      }
    }
  }

  /** Where an item is that no failure is reported of: at home when it was skipped, and away otherwise. */
  ghost predicate Settled(origin: Tree, t: Tree, items: seq<Item>, to: Path, skipped: seq<bool>)
    requires |skipped| <= |items|
  {
    forall k :: 0 <= k < |skipped| ==>
      if skipped[k] then Whole(origin, t, items[k], items[k]) else Away(origin, t, items, to, |skipped|, k)
  }

  lemma {:induction false} TurnSettles(origin: Tree, t: Tree, step: Step, items: seq<Item>, to: Path, style: Style, skipped: seq<bool>)
    requires Request(origin, items, to) && |skipped| < |items| && Midway(origin, t, items, to, |skipped|)
    requires style.Skip? || NoneInTheWay(items, to)
    requires Settled(origin, t, items, to, skipped)
    requires EndsWell(origin, step, items[|skipped|], to) && step.err == NoError
    requires SameBeyond(t, step.tree, items[|skipped|], Target(items[|skipped|], to))
    requires style.Skip? && There(t, Target(items[|skipped|], to)) ==> step.tree == t && step.skipped
    ensures Settled(origin, step.tree, items, to, skipped + [step.skipped])
  {
    var n := |skipped|;
    forall k | 0 <= k <= n
      ensures if (skipped + [step.skipped])[k] then Whole(origin, step.tree, items[k], items[k])
              else Away(origin, step.tree, items, to, n + 1, k)
    {
      if k < n {
        OthersStay(origin, t, step.tree, items, to, style, n, k);
      } else if !step.skipped {
        MovedIsAway(origin, t, step.tree, items, to, style, n);
      }
    }
  }

  /** The task as the loop keeps it. */
  ghost predicate Sound(origin: Tree, s: Task, items: seq<Item>, to: Path, n: nat)
    requires n <= |items|
  {
    && Midway(origin, s.tree, items, to, n)
    && (forall t :: t in s.trail ==> AllKept(origin, t, items, to))
    && (!s.stopped ==> |s.skipped| == n)
    && |s.skipped| <= n
    && (!s.stopped && s.error == NoError ==> Settled(origin, s.tree, items, to, s.skipped))
  }

  lemma {:induction false} StartIsSound(origin: Tree, items: seq<Item>, to: Path)
    ensures Sound(origin, Task(origin, [origin], [], NoError, false), items, to, 0)
  {
    forall k, q | 0 <= k < |items| && items[k] <= q && q in origin
      ensures items[k] + q[|items[k]|..] == q
    {
    }
  }

  lemma {:induction false} TurnIsSound(origin: Tree, s: Task, items: seq<Item>, to: Path, style: Style, f: Fate, n: nat)
    requires Request(origin, items, to) && n < |items| && Sound(origin, s, items, to, n)
    requires style.Skip? || NoneInTheWay(items, to)
    ensures Sound(origin, Turn(s, items[n], to, style, f), items, to, n + 1)
  {
    if s.stopped || f.stop {
      return;
    }
    var step := ItemMoved(s.tree, items[n], to, style, f);
    MovingIsFair(origin, s.tree, items[n], to, style, f);
    forall t | t in step.passed + [step.tree]
      ensures AllKept(origin, t, items, to) && Midway(origin, t, items, to, n + 1)
    {
      TurnKeeps(origin, s.tree, t, items, to, style, n);
    }
    assert step.tree in step.passed + [step.tree];
    if s.error == NoError && step.err == NoError {
      TurnSettles(origin, s.tree, step, items, to, style, s.skipped);
    }
  }

  lemma {:induction false} NextIsSound(origin: Tree, items: seq<Item>, to: Path, style: Style, fates: seq<Fate>, n: nat)
    requires Request(origin, items, to) && n < |items| == |fates|
    requires style.Skip? || NoneInTheWay(items, to)
    requires Sound(origin, After(origin, items, to, style, fates, n), items, to, n)
    ensures Sound(origin, After(origin, items, to, style, fates, n + 1), items, to, n + 1)
  {
    TurnIsSound(origin, After(origin, items, to, style, fates, n), items, to, style, fates[n], n);
  }

  lemma {:induction false} RunIsSound(origin: Tree, items: seq<Item>, to: Path, style: Style, fates: seq<Fate>, n: nat)
    requires Request(origin, items, to) && n <= |items| == |fates|
    requires style.Skip? || NoneInTheWay(items, to)
    ensures Sound(origin, After(origin, items, to, style, fates, n), items, to, n)
  {
    StartIsSound(origin, items, to);
    for i := 0 to n
      invariant Sound(origin, After(origin, items, to, style, fates, i), items, to, i)
    {
      NextIsSound(origin, items, to, style, fates, i);
    }
  }

  // ---------------------------------------------------------------- when a move may lose an item

  /** Whatever happens in the loop, every state it goes through keeps every item, and a task that reports no
      failure and was not told to stop left each of them where it says. */
  ghost predicate AlwaysKept(origin: Tree, items: seq<Item>, to: Path, style: Style) {
    forall fates: seq<Fate> | |fates| == |items| :: RunKeeps(origin, items, to, style, fates)
  }

  ghost predicate RunKeeps(origin: Tree, items: seq<Item>, to: Path, style: Style, fates: seq<Fate>)
    requires |fates| == |items|
  {
    var s := After(origin, items, to, style, fates, |items|);
    && AllKept(origin, s.tree, items, to)
    && (forall t :: t in s.trail ==> AllKept(origin, t, items, to))
    && (!s.stopped && s.error == NoError ==> |s.skipped| == |items| && forall k :: 0 <= k < |items| ==>
          Whole(origin, s.tree, items[k], if s.skipped[k] then items[k] else Target(items[k], to)))
  }

  /** The targets of two items are removed and the other removals do nothing, and every rename fails but, if it does
      not, the one of the first. */
  function Losing(n: nat, i: nat, k: nat, rename: Rename): Fate {
    Fate(false, Removes({}, n == i || n == k), if n == i then rename else RenameFailed, false, NoError, map[], false,
         Refuses, false)
  }

  /** What such a turn leaves. */
  function Changed(t: Tree, from: Item, to: Path, clears: bool, renames: bool): Tree {
    var cleared := if clears then Without(t, Target(from, to)) else t;
    if renames && There(cleared, from) then Relocated(cleared, from, Target(from, to)) else cleared
  }

  function Left(origin: Tree, items: seq<Item>, to: Path, n: nat, i: nat, k: nat, rename: Rename): Tree
    requires n <= |items|
  {
    if n == 0 then origin
    else Changed(Left(origin, items, to, n - 1, i, k, rename), items[n - 1], to, n - 1 == i || n - 1 == k,
                 n - 1 == i && rename.Renamed?)
  }

  lemma {:induction false} LosingTurn(s: Task, next: Task, from: Item, to: Path, n: nat, i: nat, k: nat, rename: Rename)
    requires !s.stopped && !Overlap(from, to) && next == Turn(s, from, to, Overwrite, Losing(n, i, k, rename))
    requires !rename.CrossDevice?
    ensures !next.stopped && next.tree == Changed(s.tree, from, to, n == i || n == k, n == i && rename.Renamed?)
  {
    assert (map q | q in s.tree && !(Target(from, to) <= q && q in {}) :: s.tree[q]) == s.tree;
    if !There(s.tree, Target(from, to)) {
      assert Without(s.tree, Target(from, to)) == s.tree;
    }
  }

  lemma {:induction false} LosingNext(origin: Tree, items: seq<Item>, to: Path, fates: seq<Fate>, n: nat, i: nat, k: nat,
                                      rename: Rename)
    requires Request(origin, items, to) && n < |items| == |fates| && fates[n] == Losing(n, i, k, rename)
    requires !rename.CrossDevice? && !After(origin, items, to, Overwrite, fates, n).stopped
    requires After(origin, items, to, Overwrite, fates, n).tree == Left(origin, items, to, n, i, k, rename)
    ensures !After(origin, items, to, Overwrite, fates, n + 1).stopped
    ensures After(origin, items, to, Overwrite, fates, n + 1).tree == Left(origin, items, to, n + 1, i, k, rename)
  {
    LosingTurn(After(origin, items, to, Overwrite, fates, n), After(origin, items, to, Overwrite, fates, n + 1),
               items[n], to, n, i, k, rename);
  }

  lemma {:induction false} LosingRun(origin: Tree, items: seq<Item>, to: Path, fates: seq<Fate>, i: nat, k: nat, rename: Rename)
    requires Request(origin, items, to) && |items| == |fates| && !rename.CrossDevice?
    requires forall j :: 0 <= j < |fates| ==> fates[j] == Losing(j, i, k, rename)
    ensures After(origin, items, to, Overwrite, fates, |items|).tree == Left(origin, items, to, |items|, i, k, rename)
  {
    for n := 0 to |items|
      invariant !After(origin, items, to, Overwrite, fates, n).stopped
      invariant After(origin, items, to, Overwrite, fates, n).tree == Left(origin, items, to, n, i, k, rename)
    {
      LosingNext(origin, items, to, fates, n, i, k, rename);
    }
  }

  /** When nothing is left at either place of an item, the loop has lost it. */
  lemma {:induction false} LossIsARun(origin: Tree, items: seq<Item>, to: Path, i: nat, k: nat, rename: Rename, lost: nat)
    requires Request(origin, items, to) && lost < |items| && !rename.CrossDevice?
    requires forall q :: q in origin && items[lost] <= q ==> q !in Left(origin, items, to, |items|, i, k, rename)
    requires Cleared(Left(origin, items, to, |items|, i, k, rename), Target(items[lost], to))
    ensures !AlwaysKept(origin, items, to, Overwrite)
  {
    var fates := seq(|items|, n requires 0 <= n => Losing(n, i, k, rename));
    LosingRun(origin, items, to, fates, i, k, rename);
    var q :| q in origin && items[lost] <= q;
    var s := After(origin, items, to, Overwrite, fates, |items|);
    var target := Target(items[lost], to);
    assert items[lost] + q[|items[lost]|..] == q && q !in s.tree;
    assert target <= target + q[|items[lost]|..];
    assert target + q[|items[lost]|..] !in s.tree;
    assert !Whole(origin, s.tree, items[lost], items[lost]) && !Whole(origin, s.tree, items[lost], target);
    assert !RunKeeps(origin, items, to, Overwrite, fates);
  }

  lemma {:induction false} BothAreCleared(origin: Tree, items: seq<Item>, to: Path, n: nat, i: nat, k: nat)
    requires n <= |items| && i < |items| && k < |items|
    ensures var t := Left(origin, items, to, n, i, k, RenameFailed);
      && (forall q :: q in t ==> q in origin)
      && (i < n ==> Cleared(t, Target(items[i], to))) && (k < n ==> Cleared(t, Target(items[k], to)))
  {
    if n > 0 {
      BothAreCleared(origin, items, to, n - 1, i, k);
    }
  }

  /** An item under the target of another goes with it: a later one at once, an earlier one when it could not be
      moved. */
  lemma {:induction false} UnderTargetIsLost(origin: Tree, items: seq<Item>, to: Path, i: nat, k: nat)
    requires Request(origin, items, to) && i < |items| && k < |items| && Target(items[i], to) <= items[k]
    ensures !AlwaysKept(origin, items, to, Overwrite)
  {
    BothAreCleared(origin, items, to, |items|, i, k);
    LossIsARun(origin, items, to, i, k, RenameFailed, k);
  }

  lemma {:induction false} FirstIsMoved(origin: Tree, items: seq<Item>, to: Path, n: nat, i: nat, k: nat)
    requires Request(origin, items, to) && n <= |items| && i < k < |items|
    ensures var t := Left(origin, items, to, n, i, k, Renamed);
      (n <= i ==> t == origin) && (i < n ==> Cleared(t, items[i])) && (k < n ==> Cleared(t, Target(items[k], to)))
  {
    if n > 0 {
      FirstIsMoved(origin, items, to, n - 1, i, k);
      if n - 1 == i {
        NoOverlapApart(items[i], to);
        var q :| q in origin && items[i] <= q;
        assert q in Without(origin, Target(items[i], to));
      }
    }
  }

  /** Of two items that have one target the first is moved there, and the second takes its place. */
  lemma {:induction false} SameTargetIsLost(origin: Tree, items: seq<Item>, to: Path, i: nat, k: nat)
    requires Request(origin, items, to) && i < k < |items| && Target(items[i], to) == Target(items[k], to)
    ensures !AlwaysKept(origin, items, to, Overwrite)
  {
    FirstIsMoved(origin, items, to, |items|, i, k);
    LossIsARun(origin, items, to, i, k, Renamed, i);
  }

  /** The loop can lose an item of a request exactly when it overwrites and an item lies under the target of
      another, wherever the two are in the list, or two items have one target. */
  lemma {:induction false} KeptExactly(origin: Tree, items: seq<Item>, to: Path, style: Style)
    requires Request(origin, items, to)
    ensures AlwaysKept(origin, items, to, style) <==> style.Skip? || NoneInTheWay(items, to)
  {
    if style.Skip? || NoneInTheWay(items, to) {
      forall fates: seq<Fate> | |fates| == |items|
        ensures RunKeeps(origin, items, to, style, fates)
      {
        RunIsSound(origin, items, to, style, fates, |items|);
      }
    } else {
      var i, k :| 0 <= i < |items| && 0 <= k < |items| && i != k
              && (Target(items[i], to) <= items[k] || Target(items[i], to) == Target(items[k], to));
      if Target(items[i], to) <= items[k] {
        UnderTargetIsLost(origin, items, to, i, k);
      } else {
        SameTargetIsLost(origin, items, to, if i < k then i else k, if i < k then k else i);
      }
    }
  }

  /** The request /a/x and /b/x/y to /b passes the check, and overwriting can lose the second. */
  lemma {:induction false} OverwriteCanLoseAnItem()
    ensures exists origin: Tree, items: seq<Item>, to: Path ::
      |items| == 2 && Request(origin, items, to) && !AlwaysKept(origin, items, to, Overwrite)
  {
    var a, b, x, y := Name("a"), Name("b"), Name("x"), Name("y");
    assert a.text[0] == 'a' && b.text[0] == 'b' && x.text[0] == 'x' && y.text[0] == 'y';
    var items: seq<Item> := [[a, x], [b, x, y]];
    var to: Path := [b];
    var origin: Tree := map[items[0] := File(1), items[1] := File(2)];
    assert Target(items[0], to) == [b, x] && Target(items[1], to) == [b, y];
    assert items[0][0] == a && items[1][0] == b && items[1][1] == x && [b, y][1] == y && [b, x][0] == b;
    forall k | 0 <= k < 2
      ensures !Overlap(items[k], to) && There(origin, items[k])
    {
      assert items[k] in origin && (k == 0 || k == 1);
    }
    UnderTargetIsLost(origin, items, to, 0, 1);
  }
}
