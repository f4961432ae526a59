/** Beginning and taking back a run of the upgrade, write by write: what a crash between any two writes leaves,
    what a start that breaks puts back, and what one start does to another. */
module UpgradeStart {
  import opened UpgradeFlag

  datatype Write =
    | Put(id: Id)
    | Tear(id: Id)
    | Remove(id: Id)
    | Append(id: Id, line: Line)
    | Raise(id: Id)
    | Lower
    | Point(current: Current)

  function Written(d: Disk, w: Write): Disk {
    match w
    case Put(id) => d.(folders := d.folders[id := Folder(true, [], 0)])
    case Tear(id) => if id in d.folders then d.(folders := d.folders[id := d.folders[id].(log := [])]) else d
    case Remove(id) => d.(folders := d.folders - {id})
    case Append(id, line) =>
      // the first line makes the log, and no other line does
      if id in d.folders && (d.folders[id].log == [] <==> line.Queued?)
      then d.(folders := d.folders[id := d.folders[id].(log := d.folders[id].log + [line])]) else d
    case Raise(id) => d.(flag := Up(Some(id)))
    case Lower => d.(flag := Down)
    case Point(current) => d.(current := current)
  }

  function WrittenAll(d: Disk, ws: seq<Write>): Disk
    decreases |ws|
  {
    if ws == [] then d else WrittenAll(Written(d, ws[0]), ws[1..])
  }

  lemma {:induction false} WrittenMore(d: Disk, a: seq<Write>, b: seq<Write>)
    ensures WrittenAll(d, a + b) == WrittenAll(WrittenAll(d, a), b)
    decreases |a|
  {
    if a == [] {
      assert a + b == b;
    } else {
      assert (a + b)[1..] == a[1..] + b;
      WrittenMore(Written(d, a[0]), a[1..], b);
    }
  }

  lemma {:induction false} One(d: Disk, a: Write)
    ensures WrittenAll(d, [a]) == Written(d, a)
  {
    assert [a][1..] == [];
  }

  lemma {:induction false} Two(d: Disk, a: Write, b: Write)
    ensures WrittenAll(d, [a, b]) == Written(Written(d, a), b)
  {
    assert [a, b] == [a] + [b];
    WrittenMore(d, [a], [b]);
    One(d, a);
    One(Written(d, a), b);
  }

  // ---------------------------------------------------------------- the writes of a start

  function BeginWrites(id: Id): seq<Write> {
    [Put(id), Raise(id), Append(id, Queued), Append(id, RunLine), Point(Names(id))]
  }

  function CurrentOf(previous: Option<Id>): Current {
    if previous.Some? then Names(previous.value) else NoRun
  }

  /** Whether the current file names a run that is neither this one nor the one before it. */
  predicate IsAnothers(current: Current, id: Id, previous: Option<Id>) {
    current.Names? && current.id != id && Some(current.id) != previous
  }

  function AbandonWrites(current: Current, id: Id, previous: Option<Id>): seq<Write> {
    [Tear(id), Remove(id)] + if IsAnothers(current, id, previous) then [] else [Lower, Point(CurrentOf(previous))]
  }

  /** The writes of a start of which the one at `failAt` fails: those before it, and what takes them back. */
  function OpenWrites(current: Current, id: Id, previous: Option<Id>, failAt: nat): seq<Write> {
    if failAt >= 5 then BeginWrites(id)
    else BeginWrites(id)[..failAt] + if failAt == 0 then [] else AbandonWrites(current, id, previous)
  }

  class Starter {
    var disk: Disk

    method Do(w: Write)
      modifies this
      ensures disk == Written(old(disk), w)
    {
      disk := Written(disk, w);
    }

    method AbandonLocked(id: Id, previous: Option<Id>)
      modifies this
      ensures disk == WrittenAll(old(disk), AbandonWrites(old(disk).current, id, previous))
    {
      ghost var before := disk;
      Do(Tear(id));
      Do(Remove(id));
      Two(before, Tear(id), Remove(id));
      Two(disk, Lower, Point(CurrentOf(previous)));
      WrittenMore(before, [Tear(id), Remove(id)], if IsAnothers(disk.current, id, previous) then [] else [Lower, Point(CurrentOf(previous))]);
      // another start came in between, and what it wrote stays
      if disk.current.Names? && disk.current.id != id && (previous.None? || disk.current.id != previous.value) {
        return;
      }
      Do(Lower);
      if previous.Some? {
        Do(Point(Names(previous.value)));
      } else {
        Do(Point(NoRun));
      }
    }

    method OpenRun(id: Id, previous: Option<Id>, failAt: nat) returns (ok: bool)
      modifies this
      ensures disk == WrittenAll(old(disk), OpenWrites(old(disk).current, id, previous, failAt))
      ensures ok <==> failAt >= 5
    {
      var begin, i := BeginWrites(id), 0;
      while i < 5 && i != failAt
        invariant i <= 5 && i <= failAt
        invariant disk == WrittenAll(old(disk), begin[..i]) && (i < 5 ==> disk.current == old(disk).current)
      {
        assert begin[..i + 1] == begin[..i] + [begin[i]];
        WrittenMore(old(disk), begin[..i], [begin[i]]);
        One(disk, begin[i]);
        Do(begin[i]);
        i := i + 1;
      }
      if i == 5 {
        assert begin[..5] == begin;
        return true;
      }
      if i > 0 {
        WrittenMore(old(disk), begin[..i], AbandonWrites(disk.current, id, previous));
        AbandonLocked(id, previous);
      } else {
        assert begin[..0] + [] == [];
      }
      return false;
    }
  }

  // ---------------------------------------------------------------- what a start leaves

  lemma {:induction false} Five(d: Disk, a: Write, b: Write, c: Write, e: Write, f: Write)
    ensures WrittenAll(d, [a, b, c, e, f]) == Written(Written(Written(Written(Written(d, a), b), c), e), f)
  {
    assert [a, b, c, e, f] == [a, b] + ([c, e] + [f]);
    WrittenMore(d, [a, b], [c, e] + [f]);
    Two(d, a, b);
    var t := Written(Written(d, a), b);
    WrittenMore(t, [c, e], [f]);
    Two(t, c, e);
    One(Written(Written(t, c), e), f);
  }

  /** A start that goes through is named by the current file with its log whole, has the flag, and changes no other
      run. */
  lemma {:induction false} OpenedRunIsWhole(d: Disk, id: Id)
    ensures WrittenAll(d, BeginWrites(id)) == Disk(Names(id), Up(Some(id)), d.folders[id := Folder(true, [Queued, RunLine], 0)])
  {
    Five(d, Put(id), Raise(id), Append(id, Queued), Append(id, RunLine), Point(Names(id)));
    var put := Written(Written(d, Put(id)), Raise(id));
    assert [] + [Queued] == [Queued] && [Queued] + [RunLine] == [Queued, RunLine];
    assert Written(put, Append(id, Queued)).folders[id] == Folder(true, [Queued], 0);
    assert Written(Written(put, Append(id, Queued)), Append(id, RunLine)).folders == d.folders[id := Folder(true, [Queued, RunLine], 0)];
  }

  /** The next look, whoever makes it, keeps the flag of that start, unless so much time has passed that no attempt is
      waited for. */
  lemma {:induction false} OpenedRunKeepsFlag(m: Machine, d: Disk, id: Id, obs: Obs, acts: Acts)
    requires !m.isLost(Folder(true, [Queued, RunLine], 0), obs)
    ensures Looked(m, WrittenAll(d, BeginWrites(id)), obs, acts).flag == Up(Some(id))
  {
    OpenedRunIsWhole(d, id);
    assert [Queued, RunLine][..1] == [Queued] && [Queued][..0] == [];
    NewStartHolds(m, WrittenAll(d, BeginWrites(id)), id, obs, acts);
  }

  lemma {:induction false} BegunOnly(d: Disk, id: Id, n: nat)
    requires n <= 4
    ensures
      var t := WrittenAll(d, BeginWrites(id)[..n]);
      t.current == d.current && t.folders - {id} == d.folders - {id} && (n == 0 ==> t == d)
  {
    if n > 0 {
      BegunOnly(d, id, n - 1);
      var begin := BeginWrites(id);
      assert begin[..n] == begin[..n - 1] + [begin[n - 1]];
      WrittenMore(d, begin[..n - 1], [begin[n - 1]]);
      One(WrittenAll(d, begin[..n - 1]), begin[n - 1]);
    }
  }

  lemma {:induction false} Abandoned(d: Disk, id: Id, previous: Option<Id>)
    ensures
      var t := WrittenAll(d, AbandonWrites(d.current, id, previous));
      && t.folders == d.folders - {id}
      && (IsAnothers(d.current, id, previous) ==> t.current == d.current && t.flag == d.flag)
      && (!IsAnothers(d.current, id, previous) ==> t.current == CurrentOf(previous) && t.flag == Down)
  {
    var rest := if IsAnothers(d.current, id, previous) then [] else [Lower, Point(CurrentOf(previous))];
    Two(d, Tear(id), Remove(id));
    var removed := Written(Written(d, Tear(id)), Remove(id));
    assert removed == d.(folders := d.folders - {id});
    WrittenMore(d, [Tear(id), Remove(id)], rest);
    Two(removed, Lower, Point(CurrentOf(previous)));
  }

  /** A start that breaks at any of its writes leaves the current file and every run as it found them, and the flag
      down. */
  lemma {:induction false} BrokenStartUndoes(d: Disk, id: Id, previous: Option<Id>, failAt: nat)
    requires id !in d.folders && d.current == CurrentOf(previous) && failAt < 5
    ensures WrittenAll(d, OpenWrites(d.current, id, previous, failAt)) == d.(flag := if failAt == 0 then d.flag else Down)
  {
    var begun := WrittenAll(d, BeginWrites(id)[..failAt]);
    BegunOnly(d, id, failAt);
    WrittenMore(d, BeginWrites(id)[..failAt], if failAt == 0 then [] else AbandonWrites(d.current, id, previous));
    Abandoned(begun, id, previous);
    assert d.folders - {id} == d.folders;
  }

  /** Taking a start back touches no run but its own; and the current file and the flag only while they are its own, or
      those of the run before it. */
  lemma {:induction false} AbandonSparesOthers(d: Disk, id: Id, previous: Option<Id>, other: Id)
    requires other != id
    ensures
      var t := WrittenAll(d, AbandonWrites(d.current, id, previous));
      && (other in t.folders <==> other in d.folders) && (other in d.folders ==> t.folders[other] == d.folders[other])
      && (d.current == Names(other) && Some(other) != previous ==> t.current == Names(other) && t.flag == d.flag)
  {
    Abandoned(d, id, previous);
  }

  // ---------------------------------------------------------------- many starts

  /** Where a start is; `previous` is the run that the current file named when it began. */
  datatype Start =
    | Opened(previous: Option<Id>)
    | ToAbandon(previous: Option<Id>)
    | Launching(previous: Option<Id>)
    | Failed(previous: Option<Id>)

  /** The files, the ids that ever were a run's, those that the current file ever named, the starts that are being made,
      and the count of calls of systemd-run that have not returned. */
  datatype World = World(disk: Disk, used: set<Id>, named: set<Id>, starts: map<Id, Start>, launching: int)

  /** `cut` is after how many writes the core is lost, if it is. */
  datatype Step =
    | Open(id: Id, failAt: nat, cut: Option<nat>)
    | Prepare(id: Id, works: bool, cut: Option<nat>)
    | Abandon(id: Id, cut: Option<nat>)
    | Returned(id: Id, works: bool, isTold: bool)
    | ClearFlag(id: Id)
    | Close(cut: Option<nat>)
    | LetGo(cut: Option<nat>)
    | Log(id: Id, line: Line)
    | Prune(id: Id)
    | LookKeeps(flag: Flag)
    | LookForgets(cut: Option<nat>)
    | Lose

  function PreviousOf(current: Current): Option<Id> {
    if current.Names? then Some(current.id) else None
  }

  predicate Enabled(s: World, step: Step) {
    match step
    case Open(id, _, _) => id !in s.used && s.launching == 0 && (s.disk.current.NoRun? || (s.disk.current.Names? && CanRead(s.disk, s.disk.current.id)))
    case Prepare(id, _, _) => id in s.starts && s.starts[id].Opened?
    case Abandon(id, _) => id in s.starts && (s.starts[id].Opened? || s.starts[id].ToAbandon?)
    case Returned(id, _, _) => id in s.starts && s.starts[id].Launching?
    case ClearFlag(id) => id in s.starts && s.starts[id].Failed?
    case Close(_) => s.disk.current.Names? && CanRead(s.disk, s.disk.current.id)
    case LetGo(_) => s.disk.current.BadRun? || (s.disk.current.Names? && !CanRead(s.disk, s.disk.current.id))
    case Log(id, line) => id in s.disk.folders && !line.Queued? && !line.RunLine?
    case Prune(id) => s.disk.current != Names(id)
    case LookKeeps(_) => true
    case LookForgets(_) => s.disk.current.Names?
    case Lose => true
  }

  /** What a step writes, in order. */
  function Writes(s: World, step: Step): seq<Write>
    requires Enabled(s, step)
  {
    match step
    case Open(id, failAt, _) => OpenWrites(s.disk.current, id, PreviousOf(s.disk.current), failAt)
    case Prepare(id, works, _) =>
      if !works || s.disk.current != Names(id) then []
      else [Append(id, Attempt)] + if s.starts[id].previous.Some? then [Append(s.starts[id].previous.value, Ack)] else []
    case Abandon(id, _) => AbandonWrites(s.disk.current, id, s.starts[id].previous)
    case Returned(id, works, isTold) => if works || !isTold then [] else [Append(id, StartFailed)]
    case ClearFlag(_) => [Lower]
    case Close(_) => [Append(s.disk.current.id, Ack), Point(NoRun), Lower]
    case LetGo(_) => [Point(NoRun), Lower]
    case Log(id, line) => [Append(id, line)]
    case Prune(id) => [Remove(id)]
    case LookKeeps(flag) => if flag.Up? && flag.of.Some? then [Raise(flag.of.value)] else if flag.Up? then [] else [Lower]
    case LookForgets(_) => [Point(NoRun), Lower]
    case Lose => []
  }

  function CutOf(step: Step): Option<nat> {
    match step
    case Open(_, _, cut) => cut
    case Prepare(_, _, cut) => cut
    case Abandon(_, cut) => cut
    case Close(cut) => cut
    case LetGo(cut) => cut
    case LookForgets(cut) => cut
    case Lose => Some(0)
    case _ => None
  }

  function Starts(s: World, step: Step): map<Id, Start>
    requires Enabled(s, step)
  {
    match step
    case Open(id, failAt, _) => if failAt < 5 then s.starts else s.starts[id := Opened(PreviousOf(s.disk.current))]
    case Prepare(id, works, _) =>
      var previous := s.starts[id].previous;
      s.starts[id := if works && s.disk.current == Names(id) then Launching(previous) else ToAbandon(previous)]
    case Abandon(id, _) => s.starts - {id}
    case Returned(id, works, _) => if works then s.starts - {id} else s.starts[id := Failed(s.starts[id].previous)]
    case ClearFlag(id) => s.starts - {id}
    case _ => s.starts
  }

  function LaunchingAfter(s: World, step: Step): int
    requires Enabled(s, step)
  {
    match step
    case Prepare(id, works, _) => if works && s.disk.current == Names(id) then s.launching + 1 else s.launching
    case Returned(_, _, _) => s.launching - 1
    case _ => s.launching
  }

  function Apply(s: World, step: Step): World
    requires Enabled(s, step)
  {
    var ws, cut := Writes(s, step), CutOf(step);
    var made := if cut.Some? && cut.value < |ws| then ws[..cut.value] else ws;
    var disk := WrittenAll(s.disk, made);
    World(disk, if step.Open? then s.used + {step.id} else s.used,
           if step.Open? && Point(Names(step.id)) in made then s.named + {step.id} else s.named,
           if cut.Some? then map[] else Starts(s, step), if cut.Some? then 0 else LaunchingAfter(s, step))
  }

  predicate IsInit(s: World) {
    s.disk == Disk(NoRun, Down, map[]) && s.used == {} && s.named == {} && s.starts == map[] && s.launching == 0
  }

  ghost predicate Leads(s: World, t: World) {
    exists step :: Enabled(s, step) && t == Apply(s, step)
  }

  ghost predicate LeadsAt(run: seq<World>, i: nat) {
    i + 1 < |run| && Leads(run[i], run[i + 1])
  }

  ghost predicate IsRun(run: seq<World>) {
    forall i :: 0 <= i < |run| - 1 ==> LeadsAt(run, i)
  }

  // ---------------------------------------------------------------- what the other steps come to

  /** The log of a run with a line more, for a run whose log is there. */
  function WithLine(folders: map<Id, Folder>, id: Id, line: Line): map<Id, Folder> {
    if id in folders && folders[id].log != [] then folders[id := folders[id].(log := folders[id].log + [line])] else folders
  }

  /** A close, from its first write to its last: the run's log says it, the current file names no run, and the flag is
      down. Letting go of a run that cannot be read touches nothing of it. */
  lemma {:induction false} ClosesExactly(s: World, step: Step)
    requires Enabled(s, step) && (step == Close(None) || step == LetGo(None) || step == LookForgets(None))
    ensures Apply(s, step).disk
         == Disk(NoRun, Down, if step.Close? then WithLine(s.disk.folders, s.disk.current.id, Ack) else s.disk.folders)
  {
    var d := s.disk;
    if step.Close? {
      assert [Append(d.current.id, Ack), Point(NoRun), Lower] == [Append(d.current.id, Ack)] + [Point(NoRun), Lower];
      WrittenMore(d, [Append(d.current.id, Ack)], [Point(NoRun), Lower]);
      One(d, Append(d.current.id, Ack));
      Two(Written(d, Append(d.current.id, Ack)), Point(NoRun), Lower);
    } else {
      Two(d, Point(NoRun), Lower);
    }
  }

  /** The second locked part of a start: it takes its first number exactly when the launch may be prepared and the run is
      the one that the current file names, and then the run before it is closed in its log; otherwise it is taken back. */
  lemma {:induction false} PreparesExactly(s: World, id: Id, works: bool)
    requires Inv(s) && Enabled(s, Prepare(id, works, None))
    ensures
      var t, previous := Apply(s, Prepare(id, works, None)), s.starts[id].previous;
      if works && s.disk.current == Names(id) then
        && t.starts == s.starts[id := Launching(previous)] && t.launching == s.launching + 1
        && t.disk.current == s.disk.current && t.disk.flag == s.disk.flag
        && t.disk.folders == (var taken := WithLine(s.disk.folders, id, Attempt);
                              if previous.Some? then WithLine(taken, previous.value, Ack) else taken)
      else t.disk == s.disk && t.starts == s.starts[id := ToAbandon(previous)] && t.launching == s.launching
  {
    if works && s.disk.current == Names(id) {
      One(s.disk, Append(id, Attempt));
      if s.starts[id].previous.Some? {
        Two(s.disk, Append(id, Attempt), Append(s.starts[id].previous.value, Ack));
      }
    }
  }

  /** The end of the call of systemd-run: the log says that the unit did not start exactly when it did not and the log can
      be told, and only then is a clear of the flag to come. */
  lemma {:induction false} ReturnsExactly(s: World, id: Id, works: bool, isTold: bool)
    requires Enabled(s, Returned(id, works, isTold))
    ensures
      var t := Apply(s, Returned(id, works, isTold));
      && t.disk == s.disk.(folders := if !works && isTold then WithLine(s.disk.folders, id, StartFailed) else s.disk.folders)
      && t.launching == s.launching - 1
      && (works ==> t.starts == s.starts - {id}) && (!works ==> t.starts == s.starts[id := Failed(s.starts[id].previous)])
  {
    One(s.disk, Append(id, StartFailed));
  }

  // ---------------------------------------------------------------- the current file names only whole logs

  /** A log has both its first lines, or nothing of it is left. */
  predicate IsWhole(log: seq<Line>) {
    log == [] || [Queued, RunLine] <= log
  }

  /** What holds of the runs that the current file ever named. */
  ghost predicate DiskInv(d: Disk, named: set<Id>) {
    && !d.current.BadRun? && (d.current.Names? ==> d.current.id in named)
    && forall id :: id in named && id in d.folders ==> IsWhole(d.folders[id].log)
  }

  /** A write that keeps it, whatever was written before. */
  predicate IsSafe(w: Write, named: set<Id>) {
    match w
    case Put(id) => id !in named
    case Append(id, line) => id !in named || !line.Queued?
    case Point(current) => current.NoRun? || (current.Names? && current.id in named)
    case _ => true
  }

  predicate AreSafe(ws: seq<Write>, named: set<Id>) {
    forall i :: 0 <= i < |ws| ==> IsSafe(ws[i], named)
  }

  lemma {:induction false} SafeWritesKeep(d: Disk, ws: seq<Write>, named: set<Id>)
    requires DiskInv(d, named) && AreSafe(ws, named)
    ensures DiskInv(WrittenAll(d, ws), named)
    decreases |ws|
  {
    if ws != [] {
      var t := Written(d, ws[0]);
      assert IsSafe(ws[0], named);
      assert AreSafe(ws[1..], named);
      forall id | id in named && id in t.folders
        ensures IsWhole(t.folders[id].log)
      {
        assert id in d.folders ==> IsWhole(d.folders[id].log);
      }
      SafeWritesKeep(t, ws[1..], named);
    }
  }

  ghost predicate Inv(s: World) {
    && s.named <= s.used && DiskInv(s.disk, s.named)
    && forall id :: id in s.starts ==> id in s.named && (s.starts[id].previous.Some? ==> s.starts[id].previous.value in s.named)
  }

  /** What is made of a step's writes. */
  function Made(s: World, step: Step): seq<Write>
    requires Enabled(s, step)
  {
    var ws, cut := Writes(s, step), CutOf(step);
    if cut.Some? && cut.value < |ws| then ws[..cut.value] else ws
  }

  lemma {:induction false} OtherWritesAreSafe(s: World, step: Step)
    requires Inv(s) && Enabled(s, step) && !step.Open?
    ensures AreSafe(Made(s, step), s.named)
  {
    assert AreSafe(Writes(s, step), s.named);
  }

  lemma {:induction false} StepKeepsStarts(s: World, step: Step)
    requires Inv(s) && Enabled(s, step) && !step.Open?
    ensures forall id :: id in Starts(s, step) ==>
      id in s.starts && Starts(s, step)[id].previous == s.starts[id].previous
  {
  }

  lemma {:induction false} BeginIsSafe(id: Id, named: set<Id>, w: Write)
    requires id !in named && w in BeginWrites(id)
    ensures w == Point(Names(id)) || IsSafe(w, named)
  {
  }

  lemma {:induction false} AbandonIsSafe(current: Current, id: Id, previous: Option<Id>, named: set<Id>)
    requires previous.Some? ==> previous.value in named
    ensures AreSafe(AbandonWrites(current, id, previous), named)
  {
  }

  lemma {:induction false} BrokenOpenIsSafe(s: World, step: Step)
    requires Inv(s) && Enabled(s, step) && step.Open? && Point(Names(step.id)) !in Made(s, step)
    ensures AreSafe(Made(s, step), s.named)
  {
    var made, previous := Made(s, step), PreviousOf(s.disk.current);
    var abandon := AbandonWrites(s.disk.current, step.id, previous);
    AbandonIsSafe(s.disk.current, step.id, previous, s.named);
    forall i | 0 <= i < |made|
      ensures IsSafe(made[i], s.named)
    {
      assert made[i] in made && made[i] == Writes(s, step)[i];
      if made[i] in BeginWrites(step.id) {
        BeginIsSafe(step.id, s.named, made[i]);
      } else {
        assert made[i] == abandon[i - step.failAt];
      }
    }
  }

  lemma {:induction false} PointsLast(s: World, step: Step)
    requires Inv(s) && Enabled(s, step) && step.Open? && Point(Names(step.id)) in Made(s, step)
    ensures Made(s, step) == BeginWrites(step.id) && step.failAt >= 5
  {
  }

  lemma {:induction false} OpenKeepsInv(s: World, step: Step)
    requires Inv(s) && Enabled(s, step) && step.Open?
    ensures Inv(Apply(s, step))
  {
    var id, made := step.id, Made(s, step);
    if Point(Names(id)) in made {
      PointsLast(s, step);
      OpenedRunIsWhole(s.disk, id);
    } else {
      BrokenOpenIsSafe(s, step);
      SafeWritesKeep(s.disk, made, s.named);
      NotNamedNotOpened(s, step);
    }
  }

  lemma {:induction false} NotNamedNotOpened(s: World, step: Step)
    requires Enabled(s, step) && step.Open? && Point(Names(step.id)) !in Made(s, step)
    ensures step.failAt < 5 || step.cut.Some?
  {
    if step.failAt >= 5 && step.cut.None? {
      assert BeginWrites(step.id)[4] == Point(Names(step.id));
    }
  }

  lemma {:induction false} StepKeepsInv(s: World, t: World)
    requires Inv(s) && Leads(s, t)
    ensures Inv(t)
  {
    var step :| Enabled(s, step) && t == Apply(s, step);
    if step.Open? {
      OpenKeepsInv(s, step);
    } else {
      OtherWritesAreSafe(s, step);
      SafeWritesKeep(s.disk, Made(s, step), s.named);
      StepKeepsStarts(s, step);
    }
  }

  lemma {:induction false} RunKeepsInv(run: seq<World>, i: nat)
    requires i < |run| && IsRun(run) && IsInit(run[0])
    ensures Inv(run[i])
  {
    if i > 0 {
      RunKeepsInv(run, i - 1);
      assert LeadsAt(run, i - 1);
      StepKeepsInv(run[i - 1], run[i]);
    }
  }

  /** Through every crash, failed write and start that is taken back, the current file never names a run whose log is
      not whole: so no start that a look would forget as one that never began is ever named. */
  lemma {:induction false} CurrentNamesWholeLogs(run: seq<World>, i: nat, m: Machine, obs: Obs)
    requires i < |run| && IsRun(run) && IsInit(run[0])
    ensures
      var d := run[i].disk;
      && !d.current.BadRun?
      && (d.current.Names? && d.current.id in d.folders ==>
            IsWhole(d.folders[d.current.id].log) && !IsDead(m, d.folders[d.current.id], obs))
  {
    RunKeepsInv(run, i);
  }

  // ---------------------------------------------------------------- the clear after a failed launch

  /** Whether nothing holds the machine: no run is named, or one that can be read and does not hold it. */
  predicate IsFreed(m: Machine, d: Disk, obs: Obs) {
    d.current.NoRun? || (d.current.Names? && CanRead(d, d.current.id) && !HoldsAsRead(m, d.folders[d.current.id], obs))
  }

  /** A start whose unit did not start takes the flag away without looking at the current file again. In every world
      that can be reached, that leaves the flag right exactly when nothing holds the machine then. It is wrong in two
      ways: the file names the start's own run, whose attempt is still waited for, or that cannot be read; or it
      names another run, that went in meanwhile. In both ways a look puts the flag back, or the one after it does. */
  lemma {:induction false} ClearIsRightExactly(run: seq<World>, i: nat, id: Id, m: Machine, obs: Obs, acts: Acts, again: Acts)
    requires i < |run| && IsRun(run) && IsInit(run[0]) && Enabled(run[i], ClearFlag(id))
    ensures
      var d, t := run[i].disk, Apply(run[i], ClearFlag(id)).disk;
      && t == d.(flag := Down)
      && (FlagIsRight(m, t, obs) <==> IsFreed(m, d, obs))
      && (!FlagIsRight(m, t, obs) ==>
            d.current == Names(id) || (d.current.Names? && d.current.id != id && d.current.id in run[i].named))
      && (FlagIsRight(m, Looked(m, t, obs, acts), obs)
            || FlagIsRight(m, Looked(m, Looked(m, t, obs, acts), obs, again), obs))
  {
    RunKeepsInv(run, i);
    var d := run[i].disk;
    One(d, Lower);
    var t := Apply(run[i], ClearFlag(id)).disk;
    if !FlagIsRight(m, Looked(m, t, obs, acts), obs) {
      TwoLooksSettle(m, t, obs, acts, again);
    }
  }

  lemma {:induction false} Extended(run: seq<World>, step: Step) returns (more: seq<World>)
    requires |run| > 0 && IsRun(run) && Enabled(run[|run| - 1], step)
    ensures more == run + [Apply(run[|run| - 1], step)] && IsRun(more)
  {
    more := run + [Apply(run[|run| - 1], step)];
    forall i | 0 <= i < |more| - 1
      ensures LeadsAt(more, i)
    {
      if i < |run| - 1 {
        assert LeadsAt(run, i);
        assert more[i] == run[i] && more[i + 1] == run[i + 1];
      }
    }
  }

  lemma {:induction false} OpenApplies(s: World, id: Id)
    requires Enabled(s, Open(id, 5, None))
    ensures Apply(s, Open(id, 5, None))
         == World(Disk(Names(id), Up(Some(id)), s.disk.folders[id := Folder(true, [Queued, RunLine], 0)]), s.used + {id},
                  s.named + {id}, s.starts[id := Opened(PreviousOf(s.disk.current))], s.launching)
  {
    OpenedRunIsWhole(s.disk, id);
    assert BeginWrites(id)[4] == Point(Names(id));
  }

  function LogOf(isTold: bool): seq<Line> {
    [Queued, RunLine] + [Attempt] + if isTold then [StartFailed] else []
  }

  /** A start on a machine with no run, whose unit is asked for and does not start. */
  lemma {:induction false} StartFails(id: Id, isTold: bool) returns (run: seq<World>)
    ensures |run| > 0 && IsRun(run) && IsInit(run[0])
    ensures run[|run| - 1]
         == World(Disk(Names(id), Up(Some(id)), map[id := Folder(true, LogOf(isTold), 0)]), {id}, {id}, map[id := Failed(None)], 0)
  {
    var s0 := World(Disk(NoRun, Down, map[]), {}, {}, map[], 0);
    run := [s0];
    OpenApplies(s0, id);
    run := Extended(run, Open(id, 5, None));
    One(run[|run| - 1].disk, Append(id, Attempt));
    assert [Append(id, Attempt)] + [] == [Append(id, Attempt)];
    run := Extended(run, Prepare(id, true, None));
    One(run[|run| - 1].disk, Append(id, StartFailed));
    run := Extended(run, Returned(id, false, isTold));
    assert LogOf(false) == [Queued, RunLine] + [Attempt];
  }

  /** The first way: the log could not be told that the unit did not start, and the run's own flag goes while its
      attempt is waited for. */
  lemma {:induction false} ClearLowersItsOwn(id: Id, m: Machine, obs: Obs) returns (run: seq<World>)
    requires HoldsAsRead(m, Folder(true, LogOf(false), 0), obs)
    ensures |run| > 0 && IsRun(run) && IsInit(run[0])
    ensures run[|run| - 1].disk == Disk(Names(id), Down, map[id := Folder(true, LogOf(false), 0)])
    ensures !FlagIsRight(m, run[|run| - 1].disk, obs)
  {
    run := StartFails(id, false);
    One(run[|run| - 1].disk, Lower);
    run := Extended(run, ClearFlag(id));
  }

  lemma {:induction false} AnotherOpens(run: seq<World>, a: Id, b: Id) returns (more: seq<World>)
    requires a != b && |run| > 0 && IsRun(run)
    requires run[|run| - 1]
          == World(Disk(Names(a), Up(Some(a)), map[a := Folder(true, LogOf(true), 0)]), {a}, {a}, map[a := Failed(None)], 0)
    ensures IsRun(more) && |more| == |run| + 1 && more[..|run|] == run
    ensures
      var d, t := run[|run| - 1].disk, more[|run|];
      && t.disk == Disk(Names(b), Up(Some(b)), d.folders[b := Folder(true, [Queued, RunLine], 0)])
      && t.starts == map[a := Failed(None), b := Opened(Some(a))]
  {
    OpenApplies(run[|run| - 1], b);
    more := Extended(run, Open(b, 5, None));
  }

  /** The second way: the log was told, the run holds nothing, and another start goes in before the flag is taken
      away, which is then the other's. */
  lemma {:induction false} ClearLowersAnothers(a: Id, b: Id, m: Machine, obs: Obs) returns (run: seq<World>)
    requires a != b && HoldsAsRead(m, Folder(true, [Queued, RunLine], 0), obs) && !HoldsAsRead(m, Folder(true, LogOf(true), 0), obs)
    ensures |run| > 2 && IsRun(run) && IsInit(run[0])
    ensures IsFreed(m, run[|run| - 3].disk, obs) && run[|run| - 3].disk.current == Names(a)
    ensures run[|run| - 1].disk.current == Names(b) && !FlagIsRight(m, run[|run| - 1].disk, obs)
  {
    run := StartFails(a, true);
    var before := run;
    run := AnotherOpens(before, a, b);
    assert run[0] == run[..|before|][0] && run[|before| - 1] == run[..|before|][|before| - 1];
    One(run[|run| - 1].disk, Lower);
    run := Extended(run, ClearFlag(a));
  }
}
