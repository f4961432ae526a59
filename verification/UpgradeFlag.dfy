/** The flag of an open upgrade of the operating system, and the looks that keep it: what a look may take away
    while starts, closes and units change the files beside it, and what one look that is left alone makes of any
    state of them.

    What the reducer makes of a run that is open and has had an attempt, and whether the files of a run speak against its log, are
    parameters. Of the flag itself only its being there and the run it names matter. */
module UpgradeFlag {

  datatype Option<T> = None | Some(value: T)

  type Id = nat

  /** The lines of a run's log. */
  datatype Line = Queued | RunLine | Attempt | StartFailed | BootSeen | Ack | Other

  /** The folder of a run: whether it can be read, its log, and what else it holds. */
  datatype Folder = Folder(readable: bool, log: seq<Line>, rest: nat)

  datatype Current = NoRun | BadRun | Names(id: Id)

  datatype Flag = Down | Up(of: Option<Id>)

  datatype Disk = Disk(current: Current, flag: Flag, folders: map<Id, Folder>)

  /** What a look is told beside the files: what systemd says of the unit, whether the machine is in a boot that the
      log has not seen, and the time. */
  datatype Obs = Obs(unitAnswers: bool, unitActive: bool, newBoot: bool, now: int)

  /** What the reducer says to do next about a run that is busy. */
  datatype Action = Nothing | LaunchUnit | Judge

  // ---------------------------------------------------------------- the state of a run

  /** What the flag is kept by, of a state of the reducer. `known` is whether it says whose run it is. */
  datatype State = State(busy: bool, idle: bool, closed: bool, known: bool)

  /** The parts of the reducer that are not modelled: the state of a run that is open and has had an
      attempt, what is next about one that is busy, whether packages are being changed or files are damaged, and whether a start was written so long ago
      that it is not waited for. */
  datatype Machine = Machine(judge: (Folder, Obs) -> State, next: (Folder, Obs) -> Action,
                             speaksAgainst: (Folder, Obs) -> bool, isLost: (Folder, Obs) -> bool)

  predicate IsOpened(f: Folder) {
    f.log != [] && f.log[0] == Queued && RunLine in f.log
  }

  /** The log without the boots that were noted in it, which say nothing of the run. */
  function WithoutBoots(log: seq<Line>): seq<Line> {
    if log == [] then [] else WithoutBoots(log[..|log| - 1]) + if log[|log| - 1] == BootSeen then [] else [log[|log| - 1]]
  }

  function Reduce(m: Machine, f: Folder, obs: Obs): State {
    var g := f.(log := WithoutBoots(f.log));
    if !IsOpened(f) then
      if m.speaksAgainst(g, obs) || obs.unitActive then State(true, false, false, false) else State(false, true, false, false)
    else if Ack in g.log then State(false, true, true, true)
    else if g.log == [Queued, RunLine] then
      // no attempt yet: packages that are being changed, or a unit, are not the run's own; else it is waited for
      if m.speaksAgainst(g, obs) || obs.unitActive then State(true, false, false, true)
      else State(false, !m.isLost(g, obs), false, true)
    else m.judge(g, obs).(known := true, closed := false)
  }

  predicate Holds(s: State) {
    s.busy || (s.idle && !s.closed && s.known)
  }

  /** A look says whose run it is by the folder, when the log does not. */
  predicate HoldsAsRead(m: Machine, f: Folder, obs: Obs) {
    Holds(Reduce(m, f, obs).(known := true))
  }

  predicate CanRead(d: Disk, id: Id) {
    id in d.folders && d.folders[id].readable
  }

  /** A start whose log never got its second line, and that is not waited for any more. */
  predicate IsDead(m: Machine, f: Folder, obs: Obs) {
    f.log == [Queued] && m.isLost(f, obs)
  }

  // ---------------------------------------------------------------- what is done under the lock

  function StrayDropped(d: Disk): Disk {
    if d.current.NoRun? then d.(flag := Down) else d
  }

  function UnreadHeld(d: Disk, id: Option<Id>): Disk {
    if d.flag.Up? then d else d.(flag := Up(id))
  }

  function DeadForgotten(m: Machine, d: Disk, id: Id, obs: Obs): Disk {
    if d.current == Names(id) && CanRead(d, id) && IsDead(m, d.folders[id], obs) then d.(current := NoRun, flag := Down) else d
  }

  /** The flag as a look has it that read that the run holds the machine, or does not. */
  function FlagKept(m: Machine, d: Disk, id: Id, holds: bool, obs: Obs): Disk {
    if d.current != Names(id) then d
    else if holds then d.(flag := if d.flag.Up? && d.flag.of == Some(id) then d.flag else Up(Some(id)))
    else if !CanRead(d, id) || Holds(Reduce(m, d.folders[id], obs)) then d
    else d.(flag := Down)
  }

  function Forgotten(d: Disk, id: Id): Disk {
    if d.current == Names(id) then d.(current := NoRun, flag := Down) else d
  }

  /** How a launch that a look makes ends, and the verdict it writes, if it can judge the machine. */
  datatype Launched = Refused | IsOnItsWay | DidNotStart

  datatype Acts = Acts(launched: Launched, verdict: Option<nat>)

  /** The run with the boot noted that its log has not seen, while it is busy. */
  function BootNoted(m: Machine, f: Folder, obs: Obs): Folder {
    if Reduce(m, f, obs).busy && obs.newBoot && f.log != [] then f.(log := f.log + [BootSeen]) else f
  }

  function ActionOf(m: Machine, f: Folder, obs: Obs): Action {
    if IsOpened(f) && Reduce(m, f, obs).busy then m.next(f, obs) else Nothing
  }

  function LinesOf(launched: Launched): seq<Line> {
    match launched
    case Refused => []
    case IsOnItsWay => [Attempt]
    case DidNotStart => [Attempt, StartFailed]
  }

  /** The run once what is next about it was done. */
  function Acted(m: Machine, f: Folder, obs: Obs, acts: Acts): Folder {
    match ActionOf(m, f, obs)
    case Nothing => f
    case LaunchUnit => f.(log := f.log + LinesOf(acts.launched))
    case Judge => if acts.verdict.Some? then f.(rest := acts.verdict.value) else f
  }

  /** What one look makes of a disk that nothing else changes: the flag, then the boot, then what is next. */
  function Looked(m: Machine, d: Disk, obs: Obs, acts: Acts): Disk {
    match d.current
    case NoRun => d.(flag := Down)
    case BadRun => UnreadHeld(d, None)
    case Names(id) =>
      if !CanRead(d, id) then UnreadHeld(d, Some(id))
      else
        var f := d.folders[id];
        if IsDead(m, f, obs) && obs.unitAnswers && !obs.unitActive then d.(current := NoRun, flag := Down)
        else
          var kept := FlagKept(m, d, id, HoldsAsRead(m, f, obs), obs);
          if IsOpened(f) && Reduce(m, f, obs).closed then Forgotten(kept, id)
          else kept.(folders := kept.folders[id := Acted(m, BootNoted(m, f, obs), obs, acts)])
  }

  /** The flag and the files of one machine. */
  class Engine {
    var disk: Disk

    method DropStrayFlag()
      modifies this
      ensures disk == StrayDropped(old(disk))
    {
      if disk.flag.Down? {
        return;
      }
      // a start may have raised the flag since the first reading, and name its run by now
      if !disk.current.NoRun? {
        return;
      }
      disk := disk.(flag := Down);
    }

    method HoldUnread(id: Option<Id>)
      modifies this
      ensures disk == UnreadHeld(old(disk), id)
    {
      if disk.flag.Up? {
        return;
      }
      disk := disk.(flag := Up(id));
    }

    method ForgetDeadStart(m: Machine, id: Id, f: Folder, obs: Obs) returns (forgotten: bool)
      modifies this
      ensures
        var dead := IsDead(m, f, obs) && obs.unitAnswers && !obs.unitActive;
        && disk == (if dead then DeadForgotten(m, old(disk), id, obs) else old(disk))
        && (forgotten <==> dead && old(disk).current == Names(id) && CanRead(old(disk), id) && IsDead(m, old(disk).folders[id], obs))
    {
      if !IsDead(m, f, obs) || !obs.unitAnswers || obs.unitActive {
        return false;
      }
      if disk.current != Names(id) || !CanRead(disk, id) || !IsDead(m, disk.folders[id], obs) {
        return false;
      }
      disk := disk.(current := NoRun);
      disk := disk.(flag := Down);
      return true;
    }

    method KeepFlagLocked(m: Machine, id: Id, holds: bool, obs: Obs)
      modifies this
      ensures disk == FlagKept(m, old(disk), id, holds, obs)
    {
      if disk.current != Names(id) {
        return;
      }
      if !holds {
        // lowered only on a second reading that says the same
        if !CanRead(disk, id) || Holds(Reduce(m, disk.folders[id], obs)) {
          return;
        }
        if disk.flag.Up? {
          disk := disk.(flag := Down);
        }
        return;
      }
      if disk.flag.Up? && disk.flag.of == Some(id) {
        return;
      }
      disk := disk.(flag := Up(Some(id)));
    }

    method Forget(id: Id)
      modifies this
      ensures disk == Forgotten(old(disk), id)
    {
      if disk.current != Names(id) {
        return;
      }
      disk := disk.(current := NoRun);
      disk := disk.(flag := Down);
    }

    method Append(id: Id, line: Line)
      requires id in disk.folders
      modifies this
      ensures disk == old(disk).(folders := old(disk).folders[id := old(disk).folders[id].(log := old(disk).folders[id].log + [line])])
    {
      disk := disk.(folders := disk.folders[id := disk.folders[id].(log := disk.folders[id].log + [line])]);
    }

    /** What is next about a run, done: a unit that is started, or the machine that is judged. */
    method Do(m: Machine, id: Id, obs: Obs, acts: Acts)
      requires id in disk.folders
      modifies this
      ensures disk == old(disk).(folders := old(disk).folders[id := Acted(m, old(disk).folders[id], obs, acts)])
    {
      ghost var f := disk.folders[id];
      match ActionOf(m, disk.folders[id], obs)
      case Nothing =>
        assert disk.folders[id := f] == disk.folders;
      case LaunchUnit =>
        if acts.launched.Refused? {
          assert f.log + [] == f.log && disk.folders[id := f] == disk.folders;
          return;
        }
        Append(id, Attempt);
        if acts.launched.DidNotStart? {
          Append(id, StartFailed);
          assert f.log + [Attempt] + [StartFailed] == f.log + [Attempt, StartFailed];
        }
      case Judge =>
        if acts.verdict.Some? {
          disk := disk.(folders := disk.folders[id := disk.folders[id].(rest := acts.verdict.value)]);
        } else {
          assert disk.folders[id := f] == disk.folders;
        }
    }

    /** One look, with nothing else beside it. */
    method SettleOnce(m: Machine, obs: Obs, acts: Acts)
      modifies this
      ensures disk == Looked(m, old(disk), obs, acts)
    {
      match disk.current
      case NoRun => DropStrayFlag();
      case BadRun => HoldUnread(None);
      case Names(id) =>
        if !CanRead(disk, id) {
          HoldUnread(Some(id));
          return;
        }
        var f := disk.folders[id];
        var forgotten := ForgetDeadStart(m, id, f, obs);
        if forgotten {
          return;
        }
        KeepFlagLocked(m, id, HoldsAsRead(m, f, obs), obs);
        if IsOpened(f) && Reduce(m, f, obs).closed {
          Forget(id);
          return;
        }
        if Reduce(m, f, obs).busy && obs.newBoot && f.log != [] {
          Append(id, BootSeen);
        }
        Do(m, id, obs, acts);
    }
  }

  // ---------------------------------------------------------------- a look that is left alone

  /** The flag is there exactly when the current file names a run that holds the machine, or one that cannot be read. */
  predicate FlagIsRight(m: Machine, d: Disk, obs: Obs) {
    d.flag.Up? <==>
      match d.current
      case NoRun => false
      case BadRun => true
      case Names(id) => !CanRead(d, id) || HoldsAsRead(m, d.folders[id], obs)
  }

  lemma {:induction false} BootSaysNothing(m: Machine, f: Folder, obs: Obs)
    ensures Reduce(m, BootNoted(m, f, obs), obs) == Reduce(m, f, obs)
    ensures IsOpened(BootNoted(m, f, obs)) <==> IsOpened(f)
  {
    assert (f.log + [BootSeen])[..|f.log|] == f.log;
    assert WithoutBoots(f.log + [BootSeen]) == WithoutBoots(f.log);
  }

  /** The run that a look goes as far as to act on: it can be read, it is not a start that never began and that a
      unit cannot begin any more, and it is open. */
  predicate IsActedOn(m: Machine, d: Disk, obs: Obs) {
    && d.current.Names? && CanRead(d, d.current.id)
    && !(IsDead(m, d.folders[d.current.id], obs) && obs.unitAnswers && !obs.unitActive)
    && !(IsOpened(d.folders[d.current.id]) && Reduce(m, d.folders[d.current.id], obs).closed)
  }

  /** Whether the look's own act ends the hold of a busy run: a machine that is judged, and is well, or a unit whose
      attempt leaves the run with nothing to hold the machine for. Nothing else of a look does. */
  predicate ActEndsHold(m: Machine, f: Folder, obs: Obs, acts: Acts) {
    match ActionOf(m, f, obs)
    case Nothing => false
    case LaunchUnit => !HoldsAsRead(m, f.(log := f.log + LinesOf(acts.launched)), obs)
    case Judge => acts.verdict.Some? && !HoldsAsRead(m, f.(rest := acts.verdict.value), obs)
  }

  /** From any state, whatever a crash left, one look makes the flag right: unless it judges the machine, or starts a
      unit, and that ends the hold of the run it kept the flag for. */
  lemma {:induction false} OneLookSettles(m: Machine, d: Disk, obs: Obs, acts: Acts)
    ensures FlagIsRight(m, Looked(m, d, obs, acts), obs)
       <==> !(IsActedOn(m, d, obs) && ActEndsHold(m, BootNoted(m, d.folders[d.current.id], obs), obs, acts))
  {
    if IsActedOn(m, d, obs) {
      var f := d.folders[d.current.id];
      BootSaysNothing(m, f, obs);
      assert HoldsAsRead(m, f, obs) || !Holds(Reduce(m, f, obs));
      ActsWhileBusy(m, BootNoted(m, f, obs), obs, acts);
    }
  }

  lemma {:induction false} ActsWhileBusy(m: Machine, f: Folder, obs: Obs, acts: Acts)
    ensures HoldsAsRead(m, Acted(m, f, obs, acts), obs) == (HoldsAsRead(m, f, obs) && !ActEndsHold(m, f, obs, acts))
    ensures Acted(m, f, obs, acts).readable == f.readable
  {
    if ActionOf(m, f, obs) == LaunchUnit && acts.launched.Refused? {
      assert f.log + [] == f.log;
    }
  }

  /** And then the next look makes it right: whatever a look does, two are enough. */
  lemma {:induction false} TwoLooksSettle(m: Machine, d: Disk, obs: Obs, acts: Acts, again: Acts)
    requires !FlagIsRight(m, Looked(m, d, obs, acts), obs)
    ensures FlagIsRight(m, Looked(m, Looked(m, d, obs, acts), obs, again), obs)
  {
    OneLookSettles(m, d, obs, acts);
    var f := BootNoted(m, d.folders[d.current.id], obs);
    BootSaysNothing(m, d.folders[d.current.id], obs);
    ActsWhileBusy(m, f, obs, acts);
    var after, d' := Acted(m, f, obs, acts), Looked(m, d, obs, acts);
    assert d'.current == d.current && d'.folders[d.current.id] == after && !HoldsAsRead(m, after, obs);
    BootSaysNothing(m, after, obs);
    OneLookSettles(m, d', obs, again);
  }

  /** What a look makes of the flag and of the current file, by what the reducer says of a run that can be read. A start
      whose log never got its second line is forgotten once it is not waited for and no unit can begin it. Otherwise the
      flag is up, in the run's name, for a run that is busy, and for one that is idle and not closed; it is down for one
      that is neither; and with one that is closed the current file goes too. */
  lemma {:induction false} LookSays(m: Machine, d: Disk, id: Id, obs: Obs, acts: Acts)
    requires d.current == Names(id) && CanRead(d, id)
    ensures
      var f, s, t := d.folders[id], Reduce(m, d.folders[id], obs), Looked(m, d, obs, acts);
      if f.log == [Queued] && m.isLost(f, obs) && obs.unitAnswers && !obs.unitActive then
        t == d.(current := NoRun, flag := Down)
      else
        && (s.busy || (s.idle && !s.closed) ==> t.flag == Up(Some(id)) && t.current == Names(id))
        && (!s.busy && !s.idle ==> t.flag == Down && t.current == Names(id))
        && (s.closed ==> t == d.(current := NoRun, flag := Down))
  {
  }

  /** What it makes of the run itself while that holds the machine: a boot is noted that the log has not seen, and then
      the one thing is done that is next. No other run is touched. */
  lemma {:induction false} LookDoes(m: Machine, d: Disk, id: Id, obs: Obs, acts: Acts)
    requires d.current == Names(id) && CanRead(d, id) && IsOpened(d.folders[id]) && Reduce(m, d.folders[id], obs).busy
    ensures
      var f, t := d.folders[id], Looked(m, d, obs, acts);
      var noted := f.(log := f.log + if obs.newBoot then [BootSeen] else []);
      && t.folders - {id} == d.folders - {id} && id in t.folders
      && t.folders[id] == match m.next(noted, obs)
           case Nothing => noted
           case LaunchUnit =>
             noted.(log := noted.log + match acts.launched
               case Refused => []
               case IsOnItsWay => [Attempt]
               case DidNotStart => [Attempt, StartFailed])
           case Judge => noted.(rest := if acts.verdict.Some? then acts.verdict.value else f.rest)
  {
    BootSaysNothing(m, d.folders[id], obs);
    assert forall log: seq<Line> :: log + [] == log;
  }

  /** The same of the part under the lock, for a state that was read before: a flag is lowered only when a reading made
      there says the same, and by then knows whose run it is. */
  lemma {:induction false} KeepingSays(m: Machine, d: Disk, id: Id, f: Folder, obs: Obs)
    ensures
      var s, t := Reduce(m, f, obs), FlagKept(m, d, id, HoldsAsRead(m, f, obs), obs);
      && t.current == d.current && t.folders == d.folders
      && (d.current != Names(id) ==> t.flag == d.flag)
      && (d.current == Names(id) && (s.busy || (s.idle && !s.closed)) ==> t.flag == Up(Some(id)))
      && (d.current == Names(id) && !s.busy && (!s.idle || s.closed) ==>
            t.flag == if CanRead(d, id) && IsLetGo(Reduce(m, d.folders[id], obs)) then Down else d.flag)
  {
  }

  lemma {:induction false} BootsAside(log: seq<Line>, line: Line)
    requires line != BootSeen
    ensures line in WithoutBoots(log) <==> line in log
  {
    if log != [] {
      BootsAside(log[..|log| - 1], line);
      assert log == log[..|log| - 1] + [log[|log| - 1]];
    }
  }

  /** A run that was written and has had no attempt, whatever boots were noted in it. */
  predicate IsNewStart(f: Folder) {
    f.readable && f.log != [] && f.log[0] == Queued && WithoutBoots(f.log) == [Queued, RunLine]
  }

  /** Such a run holds the machine until it is not waited for any more, and longer while its files or a unit speak
      against it. */
  lemma {:induction false} NewStartHolds(m: Machine, d: Disk, id: Id, obs: Obs, acts: Acts)
    requires d.current == Names(id) && id in d.folders && IsNewStart(d.folders[id])
    ensures
      var g := d.folders[id].(log := [Queued, RunLine]);
      Looked(m, d, obs, acts).flag == if m.speaksAgainst(g, obs) || obs.unitActive || !m.isLost(g, obs) then Up(Some(id)) else Down
  {
    BootsAside(d.folders[id].log, RunLine);
    LookSays(m, d, id, obs, acts);
  }

  // ---------------------------------------------------------------- a look beside everything else

  /** Where a look is: between any two of these places anything else may happen. */
  datatype Look =
    | NotLooking
    | SawCurrent(current: Current)
    | SawFolder(id: Id, folder: Folder, obs: Obs)
    | NotForgotten(id: Id, folder: Folder, obs: Obs)
    | Kept(id: Id, folder: Folder, obs: Obs)

  /** `used` are the ids that ever were a run's: a new run takes a new one. */
  datatype System = System(disk: Disk, look: Look, used: set<Id>)

  /** What a look does next. It may also end, as when the core is lost. */
  datatype Move = ReadCurrent | ReadFolder(obs: Obs) | DropStray | HoldUnread | ForgetDead | KeepFlag | Act(after: Folder) | Forget | End

  predicate MayMove(m: Machine, s: System, move: Move) {
    match move
    case ReadCurrent => s.look.NotLooking?
    case ReadFolder(_) => s.look.SawCurrent? && s.look.current.Names? && CanRead(s.disk, s.look.current.id)
    case DropStray => s.look == SawCurrent(NoRun)
    case HoldUnread => s.look.SawCurrent? && (s.look.current.BadRun? || (s.look.current.Names? && !CanRead(s.disk, s.look.current.id)))
    case ForgetDead => s.look.SawFolder?
    case KeepFlag => s.look.NotForgotten?
    case Act(after) => s.look.Kept? && s.look.id in s.disk.folders && (Ack in s.disk.folders[s.look.id].log ==> Ack in after.log)
    case Forget => s.look.Kept? && IsOpened(s.look.folder) && Reduce(m, s.look.folder, s.look.obs).closed
    case End => true
  }

  function Moved(m: Machine, s: System, move: Move): System
    requires MayMove(m, s, move)
  {
    match move
    case ReadCurrent => s.(look := SawCurrent(s.disk.current))
    case ReadFolder(obs) => s.(look := SawFolder(s.look.current.id, s.disk.folders[s.look.current.id], obs))
    case DropStray => s.(disk := StrayDropped(s.disk), look := NotLooking)
    case HoldUnread => s.(disk := UnreadHeld(s.disk, if s.look.current.Names? then Some(s.look.current.id) else None), look := NotLooking)
    case ForgetDead =>
      var Look(id, f, obs) := LookAt(s.look);
      var dead := IsDead(m, f, obs) && obs.unitAnswers && !obs.unitActive;
      var d := if dead then DeadForgotten(m, s.disk, id, obs) else s.disk;
      s.(disk := d, look := if d != s.disk then NotLooking else NotForgotten(id, f, obs))
    case KeepFlag =>
      var Look(id, f, obs) := LookAt(s.look);
      s.(disk := FlagKept(m, s.disk, id, HoldsAsRead(m, f, obs), obs), look := Kept(id, f, obs))
    case Act(after) => s.(disk := s.disk.(folders := s.disk.folders[s.look.id := after]), look := NotLooking)
    case Forget => s.(disk := Forgotten(s.disk, s.look.id), look := NotLooking)
    case End => s.(look := NotLooking)
  }

  datatype LookedAt = Look(id: Id, folder: Folder, obs: Obs)

  function LookAt(look: Look): LookedAt
    requires look.SawFolder? || look.NotForgotten? || look.Kept?
  {
    Look(look.id, look.folder, look.obs)
  }

  /** Anything else that happens to the files: it takes no closing back, and gives no id twice. */
  ghost predicate Elsewhere(s: System, t: System) {
    && t.look == s.look && s.used <= t.used && t.disk.folders.Keys <= t.used
    && (forall id :: id in t.disk.folders && id in s.used ==>
          id in s.disk.folders && (Ack in s.disk.folders[id].log ==> Ack in t.disk.folders[id].log))
  }

  ghost predicate Leads(m: Machine, s: System, t: System) {
    Elsewhere(s, t) || exists move :: MayMove(m, s, move) && t == Moved(m, s, move)
  }

  ghost predicate LeadsAt(m: Machine, run: seq<System>, i: nat) {
    i + 1 < |run| && Leads(m, run[i], run[i + 1])
  }

  ghost predicate IsRun(m: Machine, run: seq<System>) {
    forall i :: 0 <= i < |run| - 1 ==> LeadsAt(m, run, i)
  }

  predicate IsInit(s: System) {
    s.look.NotLooking? && s.disk.folders.Keys <= s.used
  }

  /** A run that the look read as closed is closed still, or its folder is gone. */
  predicate Inv(s: System) {
    && s.disk.folders.Keys <= s.used
    && ((s.look.SawFolder? || s.look.NotForgotten? || s.look.Kept?) ==>
          s.look.id in s.used && (Ack in s.look.folder.log && s.look.id in s.disk.folders ==> Ack in s.disk.folders[s.look.id].log))
  }

  lemma {:induction false} MoveKeepsInv(m: Machine, s: System, move: Move)
    requires Inv(s) && MayMove(m, s, move)
    ensures Inv(Moved(m, s, move))
  {
  }

  lemma {:induction false} RunKeepsInv(m: Machine, run: seq<System>, i: nat)
    requires i < |run| && IsRun(m, run) && IsInit(run[0])
    ensures Inv(run[i])
  {
    if i > 0 {
      RunKeepsInv(m, run, i - 1);
      assert LeadsAt(m, run, i - 1);
      var s, t := run[i - 1], run[i];
      if !Elsewhere(s, t) {
        var move :| MayMove(m, s, move) && t == Moved(m, s, move);
        MoveKeepsInv(m, s, move);
      }
    }
  }

  /** A state in which nothing goes on, and nothing is waited for. */
  predicate IsLetGo(s: State) {
    !s.busy && (!s.idle || s.closed || !s.known)
  }

  /** What the current file names when a look takes the flag away: nothing, or a run that, read there and then, does not
      hold the machine, is closed, or is a start that never began, or is gone. */
  predicate IsFree(m: Machine, d: Disk, obs: Obs) {
    match d.current
    case NoRun => true
    case BadRun => false
    case Names(id) =>
      || id !in d.folders
      || Ack in d.folders[id].log
      || (d.folders[id].readable && (IsLetGo(Reduce(m, d.folders[id], obs)) || IsDead(m, d.folders[id], obs)))
  }

  /** The observation a look goes by. */
  function ObsOf(look: Look): Obs {
    if look.SawFolder? || look.NotForgotten? || look.Kept? then look.obs else Obs(false, false, false, 0)
  }

  lemma {:induction false} MoveSpares(m: Machine, s: System, move: Move)
    requires Inv(s) && MayMove(m, s, move) && s.disk.flag.Up? && Moved(m, s, move).disk.flag.Down?
    ensures IsFree(m, s.disk, ObsOf(s.look))
  {
    if move.Forget? {
      BootsAside(s.look.folder.log, Ack);
    }
  }

  /** Whatever else happens beside a look, it never takes away the flag of a run that the current file names and that
      holds the machine as its folder reads at that moment. */
  lemma {:induction false} LooksSpareWhatHolds(m: Machine, run: seq<System>, i: nat, move: Move)
    requires i < |run| && IsRun(m, run) && IsInit(run[0]) && MayMove(m, run[i], move)
    requires run[i].disk.flag.Up? && Moved(m, run[i], move).disk.flag.Down?
    ensures IsFree(m, run[i].disk, ObsOf(run[i].look))
  {
    RunKeepsInv(m, run, i);
    MoveSpares(m, run[i], move);
  }

  /** The new start is there, with its flag, and the look, when it has read something, does not take it for one that is
      not waited for any more. */
  predicate IsWaitedFor(m: Machine, s: System, id: Id) {
    && s.disk.current == Names(id) && id in s.disk.folders && IsNewStart(s.disk.folders[id])
    && !m.isLost(s.disk.folders[id].(log := [Queued, RunLine]), ObsOf(s.look))
  }

  lemma {:induction false} NewStartIsNotFree(m: Machine, d: Disk, id: Id, obs: Obs)
    requires d.current == Names(id) && id in d.folders && IsNewStart(d.folders[id])
    requires !m.isLost(d.folders[id].(log := [Queued, RunLine]), obs)
    ensures !IsFree(m, d, obs)
  {
    BootsAside(d.folders[id].log, Ack);
    BootsAside(d.folders[id].log, RunLine);
  }

  lemma {:induction false} MoveKeepsName(m: Machine, s: System, move: Move, id: Id)
    requires MayMove(m, s, move) && s.disk.current == Names(id) && s.disk.flag == Up(Some(id))
    ensures Moved(m, s, move).disk.flag in {Down, Up(Some(id))}
  {
  }

  /** Before step `n` the new start is waited for, and what the step does elsewhere leaves the flag alone. */
  ghost predicate Undisturbed(m: Machine, run: seq<System>, n: nat, id: Id) {
    n + 1 < |run| && IsWaitedFor(m, run[n], id) && (Elsewhere(run[n], run[n + 1]) ==> run[n + 1].disk.flag == run[n].disk.flag)
  }

  lemma {:induction false} StepKeepsNewFlag(m: Machine, run: seq<System>, n: nat, id: Id)
    requires LeadsAt(m, run, n) && Inv(run[n]) && Undisturbed(m, run, n, id) && run[n].disk.flag == Up(Some(id))
    ensures run[n + 1].disk.flag == Up(Some(id))
  {
    var s, t := run[n], run[n + 1];
    if !Elsewhere(s, t) {
      var move :| MayMove(m, s, move) && t == Moved(m, s, move);
      MoveKeepsName(m, s, move, id);
      NewStartIsNotFree(m, s.disk, id, ObsOf(s.look));
      if t.disk.flag.Down? {
        MoveSpares(m, s, move);
      }
    }
  }

  /** From the start's last write until its first attempt, no look takes its flag away. */
  lemma {:induction false} NewStartKeepsFlag(m: Machine, run: seq<System>, i: nat, j: nat, id: Id)
    requires i <= j < |run| && IsRun(m, run) && IsInit(run[0]) && run[i].disk.flag == Up(Some(id))
    requires forall n :: i <= n < j ==> Undisturbed(m, run, n, id)
    ensures run[j].disk.flag == Up(Some(id))
  {
    for n := i to j
      invariant run[n].disk.flag == Up(Some(id))
    {
      RunKeepsInv(m, run, n);
      assert LeadsAt(m, run, n);
      StepKeepsNewFlag(m, run, n, id);
    }
  }
}
