/** Calling off an upgrade of the operating system: any number of calls, each a few reads and writes of files,
    beside the driver that runs the blocks. Every read and write is a step of its own, and the core may be lost
    at any of them.

    What the reducer says of a run beside its log and files is a parameter of the decision. */
module UpgradeAbort {

  datatype Block = Verify | Timers | Snapshot | Sources | Download | Minimal | Full | Prereboot
                 | RCheck | RSources | RUpgrade | RDone

  /** The phases whose units can be stopped. */
  datatype Phase = Refresh | Rehearse | Hop

  function BlockList(phase: Phase): seq<Block> {
    match phase
    case Refresh => [RCheck, RSources, RUpgrade, RDone]
    case Rehearse => [Verify, Timers, Snapshot, Sources, Download]
    case Hop => [Verify, Timers, Snapshot, Sources, Download, Minimal, Full, Prereboot]
  }

  /** A block in which a run cannot be called off. */
  predicate IsPast(b: Block) {
    b.Minimal? || b.Full? || b.Prereboot? || b.RUpgrade? || b.RDone?
  }

  datatype Mark = BlockStart(id: Block) | BlockDone(id: Block) | BlockSkipped(id: Block) | Stop | Done

  /** Whether the last block that the log says began is one in which a run cannot be called off. */
  predicate LastIsPast(log: seq<Mark>) {
    log != [] && var last := log[|log| - 1]; if last.BlockStart? then IsPast(last.id) else LastIsPast(log[..|log| - 1])
  }

  predicate HasEnded(log: seq<Mark>) {
    Stop in log || Done in log
  }

  /** The driver: before a block, having written that it begins, in it, or gone. */
  datatype Driver = Before(next: nat) | Announced(at: nat) | Inside(at: nat) | Gone

  datatype Outcome = CalledOff | Refused | UnderWay | CouldNot

  /** A call: what it has done and seen. */
  datatype Call =
    | Looked
    | Flagged
    | HasLog(past: bool, ended: bool)
    | HasFiles(past: bool, ended: bool, pnr: bool)
    | Stopping
    | Over(outcome: Outcome)

  /** The folder of a run, its driver and the calls. `passed` is whether the driver ever went past its look at the
      flag into a block in which a run cannot be called off, `decided` whether a call ever decided to stop the
      unit, and `lost` whether the core was ever lost. */
  datatype System = System(phase: Phase, log: seq<Mark>, flag: bool, begun: bool, done: set<Block>, driver: Driver,
                           calls: map<nat, Call>, passed: bool, decided: bool, lost: bool)

  /** The point of no return, as the files say it. */
  predicate Pnr(s: System) {
    s.begun || Minimal in s.done
  }

  /** What a call does. */
  datatype Act = Look | MakeFlag(works: bool) | ReadLog(works: bool) | ReadFiles | Decide(running: bool) | StopUnit(works: bool)

  /** What the driver does, or what becomes of it. */
  datatype Move = Skip | Announce | LookAtFlag | Begin(yes: bool) | WriteDone | Leave(ok: bool) | Finish | Kill

  datatype Step = OfCall(id: nat, act: Act) | OfDriver(move: Move) | Lose

  predicate MayAct(s: System, id: nat, act: Act) {
    if act.Look? then id !in s.calls
    else id in s.calls && match act
      case Look => false
      case MakeFlag(_) => s.calls[id].Looked?
      case ReadLog(_) => s.calls[id].Flagged?
      case ReadFiles => s.calls[id].HasLog?
      case Decide(_) => s.calls[id].HasFiles?
      case StopUnit(_) => s.calls[id].Stopping?
  }

  /** What becomes of the call, and of the flag. */
  function Acted(s: System, id: nat, act: Act): (Call, bool)
    requires MayAct(s, id, act)
  {
    match act
    case Look => (Looked, s.flag)
    case MakeFlag(works) =>
      if s.flag then (Over(UnderWay), s.flag) else if works then (Flagged, true) else (Over(CouldNot), s.flag)
    case ReadLog(works) => if works then (HasLog(LastIsPast(s.log), HasEnded(s.log)), s.flag) else (Over(CouldNot), false)
    case ReadFiles => (HasFiles(s.calls[id].past, s.calls[id].ended, Pnr(s)), s.flag)
    case Decide(running) =>
      var call := s.calls[id];
      if running && !call.pnr && !call.past && !call.ended then (Stopping, s.flag) else (Over(Refused), false)
    case StopUnit(_) => (Over(CalledOff), s.flag)
  }

  predicate MayMove(s: System, move: Move) {
    var list := BlockList(s.phase);
    match move
    case Skip => s.driver.Before? && s.driver.next < |list| && list[s.driver.next] in s.done
    case Announce => s.driver.Before? && s.driver.next < |list| && list[s.driver.next] !in s.done
    case LookAtFlag => s.driver.Announced? && s.driver.at < |list|
    case Begin(_) => s.driver.Inside? && s.driver.at < |list| && list[s.driver.at] == Minimal
    case WriteDone => s.driver.Inside? && s.driver.at < |list|
    case Leave(_) => s.driver.Inside? && s.driver.at < |list|
    case Finish => s.driver.Before? && s.driver.next == |list|
    case Kill => true
  }

  function Moved(s: System, move: Move): System
    requires MayMove(s, move)
  {
    var list := BlockList(s.phase);
    match move
    case Skip => s.(log := s.log + [BlockSkipped(list[s.driver.next])], driver := Before(s.driver.next + 1))
    case Announce => s.(log := s.log + [BlockStart(list[s.driver.next])], driver := Announced(s.driver.next))
    case LookAtFlag =>
      if s.flag && !Pnr(s) then s.(log := s.log + [Stop], driver := Gone)
      else s.(driver := Inside(s.driver.at), passed := s.passed || IsPast(list[s.driver.at]))
    case Begin(yes) => s.(begun := yes)
    case WriteDone => s.(done := s.done + {list[s.driver.at]})
    case Leave(ok) =>
      if ok then s.(log := s.log + [BlockDone(list[s.driver.at])], driver := Before(s.driver.at + 1))
      else s.(log := s.log + [Stop], driver := Gone)
    case Finish => s.(log := s.log + [Done], driver := Gone)
    case Kill => s.(driver := Gone)
  }

  predicate Enabled(s: System, step: Step) {
    match step
    case OfCall(id, act) => MayAct(s, id, act)
    case OfDriver(move) => MayMove(s, move)
    case Lose => true
  }

  function Apply(s: System, step: Step): System
    requires Enabled(s, step)
  {
    match step
    case OfCall(id, act) =>
      var (call, flag) := Acted(s, id, act);
      s.(calls := s.calls[id := call], flag := flag, decided := s.decided || call.Stopping?,
         driver := if act.StopUnit? && act.works then Gone else s.driver)
    case OfDriver(move) => Moved(s, move)
    case Lose => s.(calls := map[], lost := true)
  }

  ghost predicate Leads(s: System, t: System) {
    exists step :: Enabled(s, step) && t == Apply(s, step)
  }

  predicate Is(s: System, id: nat, call: Call) {
    id in s.calls && s.calls[id] == call
  }

  /** A unit that begins, of a run that nobody called off. */
  predicate IsInit(s: System) {
    && s.log == [] && !s.flag && !s.begun && s.done == {} && s.driver == Before(0)
    && s.calls == map[] && !s.passed && !s.decided && !s.lost
  }

  ghost predicate LeadsAt(run: seq<System>, i: nat) {
    i + 1 < |run| && Leads(run[i], run[i + 1])
  }

  ghost predicate IsRun(run: seq<System>) {
    forall i :: 0 <= i < |run| - 1 ==> LeadsAt(run, i)
  }

  // ---------------------------------------------------------------- what every step keeps

  /** A call that has made the flag and is not over. */
  predicate Owns(call: Call) {
    call.Flagged? || call.HasLog? || call.HasFiles? || call.Stopping?
  }

  ghost predicate OneOwner(s: System) {
    forall a, b :: a in s.calls && b in s.calls && Owns(s.calls[a]) && Owns(s.calls[b]) ==> a == b
  }

  ghost predicate OwnerHasFlag(s: System) {
    forall id :: id in s.calls && Owns(s.calls[id]) ==> s.flag
  }

  /** The blocks that remain, once the driver went past, are all past. */
  predicate DriverHolds(s: System) {
    var list := BlockList(s.phase);
    && (s.passed ==> LastIsPast(s.log))
    && (Pnr(s) ==> s.passed)
    && (s.driver.Before? && s.passed ==> s.driver.next > 0 && s.driver.next <= |list| && IsPast(list[s.driver.next - 1]))
    && (s.driver.Announced? ==>
          s.driver.at < |list| && LastIsPast(s.log) == IsPast(list[s.driver.at]) && (s.passed ==> IsPast(list[s.driver.at])))
    && (s.driver.Inside? ==>
          s.driver.at < |list| && LastIsPast(s.log) == IsPast(list[s.driver.at]) && (s.passed <==> IsPast(list[s.driver.at])))
  }

  /** A call that has not seen a block in which a run cannot be called off. */
  predicate SawNothingPast(call: Call) {
    (call.HasLog? && !call.past) || (call.HasFiles? && !call.past) || call.Stopping?
  }

  ghost predicate SeenHolds(s: System) {
    forall id :: id in s.calls && SawNothingPast(s.calls[id]) ==> !s.passed
  }

  /** Once it is decided, the flag stays and nothing is passed. */
  ghost predicate DecidedHolds(s: System) {
    && (s.decided ==> s.flag && !s.passed && forall id :: id in s.calls && Owns(s.calls[id]) ==> s.calls[id].Stopping?)
    && forall id :: id in s.calls && s.calls[id].Stopping? ==> s.decided
  }

  /** A flag is some call's, or stands for one that decided, unless the core was lost. */
  ghost predicate FlagIsOwned(s: System) {
    s.flag && !s.lost ==> s.decided || exists id :: id in s.calls && Owns(s.calls[id])
  }

  ghost predicate Inv(s: System) {
    OneOwner(s) && OwnerHasFlag(s) && DriverHolds(s) && SeenHolds(s) && DecidedHolds(s) && FlagIsOwned(s)
  }

  lemma {:induction false} LastAfter(log: seq<Mark>, mark: Mark)
    ensures LastIsPast(log + [mark]) == if mark.BlockStart? then IsPast(mark.id) else LastIsPast(log)
  {
    assert (log + [mark])[..|log|] == log;
  }

  lemma {:induction false} AnnounceKeepsHolds(s: System)
    requires DriverHolds(s) && MayMove(s, Announce)
    ensures DriverHolds(Moved(s, Announce))
  {
  }

  lemma {:induction false} SkipKeepsHolds(s: System)
    requires DriverHolds(s) && MayMove(s, Skip)
    ensures DriverHolds(Moved(s, Skip))
  {
  }

  lemma {:induction false} LookKeepsHolds(s: System)
    requires DriverHolds(s) && MayMove(s, LookAtFlag)
    ensures DriverHolds(Moved(s, LookAtFlag))
  {
    LastAfter(s.log, Stop);
  }

  lemma {:induction false} LeaveKeepsHolds(s: System, ok: bool)
    requires DriverHolds(s) && MayMove(s, Leave(ok))
    ensures DriverHolds(Moved(s, Leave(ok)))
  {
    LastAfter(s.log, BlockDone(BlockList(s.phase)[s.driver.at]));
    LastAfter(s.log, Stop);
  }

  lemma {:induction false} WorkKeepsHolds(s: System, move: Move)
    requires DriverHolds(s) && MayMove(s, move) && (move.Begin? || move.WriteDone?)
    ensures DriverHolds(Moved(s, move))
  {
  }

  lemma {:induction false} MoveKeepsHolds(s: System, move: Move)
    requires DriverHolds(s) && MayMove(s, move)
    ensures DriverHolds(Moved(s, move))
  {
    match move
    case Announce => AnnounceKeepsHolds(s);
    case Skip => SkipKeepsHolds(s);
    case LookAtFlag => LookKeepsHolds(s);
    case Leave(ok) => LeaveKeepsHolds(s, ok);
    case Finish => LastAfter(s.log, Done);
    case Begin(_) => WorkKeepsHolds(s, move);
    case WriteDone => WorkKeepsHolds(s, move);
    case Kill =>
  }

  /** A driver that sees the flag does not go past. */
  lemma {:induction false} FlagStops(s: System, move: Move)
    requires DriverHolds(s) && MayMove(s, move)
    ensures s.flag && !s.passed ==> !Moved(s, move).passed
  {
  }

  lemma {:induction false} MoveKeepsInv(s: System, move: Move)
    requires Inv(s) && MayMove(s, move)
    ensures Inv(Moved(s, move))
  {
    MoveKeepsHolds(s, move);
    FlagStops(s, move);
    var t := Moved(s, move);
    assert t.calls == s.calls && t.flag == s.flag && t.decided == s.decided && t.lost == s.lost;
    assert forall id :: id in s.calls && SawNothingPast(s.calls[id]) ==> Owns(s.calls[id]);
  }

  /** A call makes the flag only when there is none, takes it away only when it is its own, and keeps it when it
      decides to stop the unit. */
  lemma {:induction false} CallHandlesFlag(s: System, id: nat, act: Act)
    requires MayAct(s, id, act) && OwnerHasFlag(s)
    ensures
      var (call, flag) := Acted(s, id, act);
      var owned := id in s.calls && Owns(s.calls[id]);
      && (Owns(call) ==> flag && (owned || !s.flag))
      && (flag != s.flag ==> if flag then Owns(call) else owned && !Owns(call) && !s.calls[id].Stopping?)
      && (owned ==> Owns(call) || !flag || s.calls[id].Stopping?)
      && (SawNothingPast(call) ==> (owned && SawNothingPast(s.calls[id])) || !LastIsPast(s.log))
      && (owned && s.calls[id].Stopping? ==> !Owns(call))
  {
  }

  lemma {:induction false} ActKeepsInv(s: System, id: nat, act: Act)
    requires Inv(s) && MayAct(s, id, act)
    ensures Inv(Apply(s, OfCall(id, act)))
  {
    CallHandlesFlag(s, id, act);
    var t := Apply(s, OfCall(id, act));
    assert forall other :: other in t.calls && other != id ==> other in s.calls && t.calls[other] == s.calls[other];
    assert FlagIsOwned(t) by {
      if t.flag && !t.lost && !t.decided && !Owns(t.calls[id]) {
        var other :| other in s.calls && Owns(s.calls[other]);
        assert other in t.calls;
      }
    }
  }

  lemma {:induction false} StepKeepsInv(s: System, t: System)
    requires Inv(s) && Leads(s, t)
    ensures Inv(t)
  {
    var step :| Enabled(s, step) && t == Apply(s, step);
    match step
    case OfCall(id, act) => ActKeepsInv(s, id, act);
    case OfDriver(move) => MoveKeepsInv(s, move);
    case Lose =>
  }

  lemma {:induction false} RunKeepsInv(run: seq<System>, i: nat)
    requires IsRun(run) && i < |run| && IsInit(run[0])
    ensures Inv(run[i])
  {
    if i > 0 {
      RunKeepsInv(run, i - 1);
      assert LeadsAt(run, i - 1);
      StepKeepsInv(run[i - 1], run[i]);
    }
  }

  // ---------------------------------------------------------------- what is promised

  lemma {:induction false} MovedKeepsCalls(s: System, move: Move)
    requires MayMove(s, move)
    ensures var t := Moved(s, move); t.decided == s.decided && t.calls == s.calls && t.lost == s.lost
  {
  }

  lemma {:induction false} StepKeepsDecided(s: System, t: System)
    requires Leads(s, t) && s.decided
    ensures t.decided
  {
    var step :| Enabled(s, step) && t == Apply(s, step);
    if step.OfDriver? {
      MovedKeepsCalls(s, step.move);
    }
  }

  lemma {:induction false} DecidedStays(run: seq<System>, i: nat, j: nat)
    requires IsRun(run) && i <= j < |run| && run[i].decided
    ensures run[j].decided
    decreases j
  {
    if i < j {
      DecidedStays(run, i, j - 1);
      assert LeadsAt(run, j - 1);
      StepKeepsDecided(run[j - 1], run[j]);
    }
  }

  /** The unit is never stopped once the driver has gone past its look at the flag into the minimal upgrade, or
      into the upgrade of a refresh; and from the moment a call has decided to stop it, it never goes there. */
  lemma {:induction false} NeverStoppedPast(run: seq<System>, i: nat, j: nat, id: nat)
    requires i <= j < |run| && IsRun(run) && IsInit(run[0])
    ensures Is(run[i], id, Stopping) ==> !run[i].passed && !Pnr(run[i])
    ensures run[i].decided ==> !run[j].passed && run[j].flag
  {
    RunKeepsInv(run, i);
    RunKeepsInv(run, j);
    if run[i].decided {
      DecidedStays(run, i, j);
    }
  }

  /** A call that finds that block begun takes its flag back, and one that was refused leaves none: with no call
      under way and none that decided, the driver is not held up. */
  lemma {:induction false} RefusedLeavesNoFlag(run: seq<System>, i: nat)
    requires i < |run| && IsRun(run) && IsInit(run[0]) && !run[i].lost && !run[i].decided
    requires forall id :: id in run[i].calls ==> !Owns(run[i].calls[id])
    ensures !run[i].flag
  {
    RunKeepsInv(run, i);
  }

  // ---------------------------------------------------------------- what a call that comes too late does

  /** A call that is taken back, or still can be: it has read nothing, or that the block has begun. */
  predicate IsLate(call: Call) {
    match call
    case Flagged => true
    case HasLog(past, _) => past
    case HasFiles(past, _, _) => past
    case Over(outcome) => outcome.Refused? || outcome.CouldNot?
    case _ => false
  }

  lemma {:induction false} LateStays(s: System, t: System, id: nat)
    requires Inv(s) && Leads(s, t) && s.passed && id in s.calls && id in t.calls && IsLate(s.calls[id])
    ensures t.passed && IsLate(t.calls[id])
    ensures t.calls[id].Over? && !s.calls[id].Over? ==> !t.flag
  {
    var step :| Enabled(s, step) && t == Apply(s, step);
    if step.OfDriver? {
      var move := step.move;
      assert Moved(s, move).calls == s.calls && (move.LookAtFlag? || Moved(s, move).passed == s.passed);
    }
  }

  /** A call that makes its flag once the driver has gone past never stops the unit, whatever comes between its
      steps: it is refused, or cannot read the run, and takes the flag away as it ends. */
  lemma {:induction false} FindsItBegun(run: seq<System>, i: nat, j: nat, id: nat)
    requires i <= j < |run| && IsRun(run) && IsInit(run[0])
    requires Is(run[i], id, Flagged) && run[i].passed
    requires forall n :: i <= n <= j ==> id in run[n].calls
    ensures run[j].passed && IsLate(run[j].calls[id])
    ensures i < j && run[j].calls[id].Over? && !run[j - 1].calls[id].Over? ==> !run[j].flag
    decreases j
  {
    if i < j {
      FindsItBegun(run, i, j - 1, id);
      RunKeepsInv(run, j - 1);
      assert LeadsAt(run, j - 1);
      LateStays(run[j - 1], run[j], id);
    }
  }

  // ---------------------------------------------------------------- what stops the driver

  /** How far a call is. */
  function StageOf(call: Call): nat {
    match call
    case Looked => 0
    case Flagged => 1
    case HasLog(_, _) => 2
    case HasFiles(_, _, _) => 3
    case Stopping => 4
    case Over(_) => 5
  }

  function Stage(s: System, id: nat): int {
    if id in s.calls then StageOf(s.calls[id]) else -1
  }

  lemma {:induction false} ActGoesOn(s: System, id: nat, act: Act)
    requires MayAct(s, id, act)
    ensures id in s.calls ==> StageOf(s.calls[id]) < StageOf(Acted(s, id, act).0)
  {
  }

  lemma {:induction false} StageGrows(s: System, t: System, id: nat)
    requires Leads(s, t) && !t.lost
    ensures !s.lost && Stage(s, id) <= Stage(t, id)
  {
    var step :| Enabled(s, step) && t == Apply(s, step);
    match step
    case OfCall(other, act) =>
      ActGoesOn(s, other, act);
      assert id != other ==> (id in t.calls <==> id in s.calls) && Stage(t, id) == Stage(s, id);
    case OfDriver(move) => MovedKeepsCalls(s, move);
    case Lose =>
  }

  lemma {:induction false} StagesGrow(run: seq<System>, i: nat, j: nat, id: nat)
    requires i <= j < |run| && IsRun(run) && !run[j].lost
    ensures !run[i].lost && Stage(run[i], id) <= Stage(run[j], id)
    decreases j
  {
    if i < j {
      assert LeadsAt(run, j - 1);
      StageGrows(run[j - 1], run[j], id);
      StagesGrow(run, i, j - 1, id);
    }
  }

  /** Turn `n` of the run is a look of the driver at the flag. */
  predicate IsLook(run: seq<System>, n: nat) {
    n + 1 < |run| && MayMove(run[n], LookAtFlag) && run[n + 1] == Moved(run[n], LookAtFlag)
  }

  /** The flag as the files have it: it is there while a call that made it is not over, from the decision of one
      on, and otherwise only once the core was lost. */
  lemma {:induction false} FlagExactly(run: seq<System>, n: nat)
    requires n < |run| && IsRun(run) && IsInit(run[0]) && !run[n].lost
    ensures run[n].flag <==> run[n].decided || exists id :: id in run[n].calls && Owns(run[n].calls[id])
  {
    RunKeepsInv(run, n);
  }

  /** A call that makes the flag at `a` and is refused at `b` stops the driver all the same exactly when the driver
      looks at the flag in between and is not past the point of no return. */
  lemma {:induction false} RefusedCallStops(run: seq<System>, a: nat, b: nat, n: nat, id: nat)
    requires a < b && b + 1 < |run| && IsRun(run) && IsInit(run[0]) && !run[|run| - 1].lost && IsLook(run, n)
    requires Is(run[a], id, Looked) && Is(run[a + 1], id, Flagged)
    requires id in run[b].calls && run[b].calls[id].HasFiles? && Is(run[b + 1], id, Over(Refused))
    requires !run[n].decided && forall other :: other in run[n].calls && Owns(run[n].calls[other]) ==> other == id
    ensures run[n + 1].driver.Gone? <==> a < n <= b && !Pnr(run[n])
  {
    StagesGrow(run, n, |run| - 1, id);
    FlagExactly(run, n);
    if n <= a {
      StagesGrow(run, a, |run| - 1, id);
      StagesGrow(run, n, a, id);
    } else if n <= b {
      StagesGrow(run, b, |run| - 1, id);
      StagesGrow(run, n, b, id);
      StagesGrow(run, a + 1, n, id);
    } else {
      StagesGrow(run, b + 1, n, id);
    }
    assert run[n].flag <==> a < n <= b;
  }

  // ---------------------------------------------------------------- what a call comes to

  /** Step `n` of the run is this one of the call's. */
  predicate IsAct(run: seq<System>, n: nat, id: nat, act: Act) {
    n + 1 < |run| && MayAct(run[n], id, act) && run[n + 1] == Apply(run[n], OfCall(id, act))
  }

  lemma {:induction false} CallStays(s: System, t: System, id: nat)
    requires Leads(s, t) && id in s.calls && id in t.calls
    ensures StageOf(s.calls[id]) < StageOf(t.calls[id]) || s.calls[id] == t.calls[id]
  {
    var step :| Enabled(s, step) && t == Apply(s, step);
    match step
    case OfCall(other, act) => ActGoesOn(s, other, act);
    case OfDriver(move) => MovedKeepsCalls(s, move);
    case Lose =>
  }

  lemma {:induction false} CallsStay(run: seq<System>, i: nat, j: nat, id: nat)
    requires i <= j < |run| && IsRun(run) && forall n :: i <= n <= j ==> id in run[n].calls
    ensures StageOf(run[i].calls[id]) < StageOf(run[j].calls[id]) || run[i].calls[id] == run[j].calls[id]
    decreases j
  {
    if i < j {
      CallsStay(run, i, j - 1, id);
      assert LeadsAt(run, j - 1);
      CallStays(run[j - 1], run[j], id);
    }
  }

  /** A call that read the log in step `r` and the files in step `f` is refused in step `d`, and takes its flag away,
      exactly when the unit is not running, or the log said then that the run ended or that a block began in which it
      cannot be called off, or the files that it is past the point of no return. Otherwise it goes on to stop the unit,
      and its flag stays. */
  lemma {:induction false} CallIsDecided(run: seq<System>, r: nat, f: nat, d: nat, id: nat, running: bool)
    requires r < f < d < |run| - 1 && IsRun(run) && IsInit(run[0])
    requires IsAct(run, r, id, ReadLog(true)) && IsAct(run, f, id, ReadFiles) && IsAct(run, d, id, Decide(running))
    requires forall n :: r <= n <= d ==> id in run[n].calls
    ensures
      var refuses := !running || LastIsPast(run[r].log) || HasEnded(run[r].log) || Pnr(run[f]);
      && (refuses ==> Is(run[d + 1], id, Over(Refused)) && !run[d + 1].flag)
      && (!refuses ==> Is(run[d + 1], id, Stopping) && run[d + 1].flag && run[d + 1].decided)
  {
    CallsStay(run, r + 1, f, id);
    CallsStay(run, f + 1, d, id);
    RunKeepsInv(run, d);
  }

  /** A call that goes on so ends called off, its flag stays from then on, and a stop that works leaves no driver. */
  lemma {:induction false} CallIsCarriedOut(run: seq<System>, c: nat, j: nat, id: nat, works: bool)
    requires c < j < |run| && IsRun(run) && IsInit(run[0]) && IsAct(run, c, id, StopUnit(works))
    ensures Is(run[c + 1], id, Over(CalledOff)) && (works ==> run[c + 1].driver.Gone?)
    ensures run[j].flag && !run[j].passed
  {
    RunKeepsInv(run, c);
    NeverStoppedPast(run, c, j, id);
  }

  /** And one that does not work leaves it to the next look of the driver at the flag, which is its last. */
  lemma {:induction false} DecisionStops(run: seq<System>, i: nat, n: nat)
    requires i <= n && IsLook(run, n) && IsRun(run) && IsInit(run[0]) && run[i].decided
    ensures run[n + 1].driver.Gone?
  {
    NeverStoppedPast(run, i, n, 0);
    RunKeepsInv(run, n);
  }

  /** A call makes the flag, when it can, exactly when no other call is under way and none decided; another is told that
      one is under way. */
  lemma {:induction false} OneCallAtATime(run: seq<System>, n: nat, id: nat, works: bool)
    requires IsAct(run, n, id, MakeFlag(works)) && IsRun(run) && IsInit(run[0]) && !run[n].lost
    ensures
      var other := run[n].decided || exists o :: o in run[n].calls && Owns(run[n].calls[o]);
      && (other ==> Is(run[n + 1], id, Over(UnderWay)) && run[n + 1].flag)
      && (!other && works ==> Is(run[n + 1], id, Flagged) && run[n + 1].flag)
      && (!other && !works ==> Is(run[n + 1], id, Over(CouldNot)) && !run[n + 1].flag)
  {
    FlagExactly(run, n);
  }

  lemma {:induction false} Extended(run: seq<System>, step: Step, t: System) returns (more: seq<System>)
    requires |run| > 0 && IsRun(run) && Enabled(run[|run| - 1], step) && t == Apply(run[|run| - 1], step)
    ensures more == run + [t] && IsRun(more)
  {
    more := run + [t];
    forall i | 0 <= i < |more| - 1
      ensures LeadsAt(more, i)
    {
      if i < |run| - 1 {
        assert LeadsAt(run, i);
        assert more[i] == run[i] && more[i + 1] == run[i + 1];
      }
    }
  }

  lemma {:induction false} OneBlock(run: seq<System>, s: System, i: nat, id: Block) returns (more: seq<System>, t: System)
    requires |run| > 0 && IsRun(run) && run[|run| - 1] == s && s.driver == Before(i) && !s.flag && s.done == {}
    requires i < |BlockList(s.phase)| && BlockList(s.phase)[i] == id && !IsPast(id)
    ensures IsRun(more) && more != [] && more[0] == run[0] && more[|more| - 1] == t
    ensures t == s.(log := s.log + [BlockStart(id)] + [BlockDone(id)], driver := Before(i + 1))
  {
    var begun := s.(log := s.log + [BlockStart(id)], driver := Announced(i));
    more := Extended(run, OfDriver(Announce), begun);
    var inside := begun.(driver := Inside(i));
    more := Extended(more, OfDriver(LookAtFlag), inside);
    t := inside.(log := inside.log + [BlockDone(id)], driver := Before(i + 1));
    more := Extended(more, OfDriver(Leave(true)), t);
  }

  lemma {:induction false} CallReads(run: seq<System>, s: System) returns (more: seq<System>, t: System)
    requires |run| > 0 && IsRun(run) && run[|run| - 1] == s && !s.flag && s.calls == map[0 := Looked]
    ensures IsRun(more) && more != [] && more[0] == run[0] && more[|more| - 1] == t
    ensures t == s.(calls := map[0 := HasLog(LastIsPast(s.log), HasEnded(s.log))], flag := true)
  {
    var flagged := s.(calls := map[0 := Flagged], flag := true);
    more := Extended(run, OfCall(0, MakeFlag(true)), flagged);
    t := flagged.(calls := map[0 := HasLog(LastIsPast(s.log), HasEnded(s.log))]);
    more := Extended(more, OfCall(0, ReadLog(true)), t);
  }

  lemma {:induction false} CallBeside(run: seq<System>, s: System) returns (more: seq<System>, t: System)
    requires |run| > 0 && IsRun(run) && run[|run| - 1] == s && s.phase == Refresh && s.driver == Before(2)
    requires !s.flag && s.done == {} && s.calls == map[] && !HasEnded(s.log)
    ensures IsRun(more) && more != [] && more[0] == run[0] && more[|more| - 1] == t
    ensures t == s.(log := s.log + [BlockStart(RUpgrade)], driver := Announced(2), calls := map[0 := HasLog(true, false)], flag := true)
  {
    var looked := s.(calls := map[0 := Looked]);
    more := Extended(run, OfCall(0, Look), looked);
    var begun := looked.(log := s.log + [BlockStart(RUpgrade)], driver := Announced(2));
    LastAfter(s.log, BlockStart(RUpgrade));
    more := Extended(more, OfDriver(Announce), begun);
    more, t := CallReads(more, begun);
  }

  /** Such a run: one of the two sees the other, and here both do. */
  lemma {:induction false} BothMaySee() returns (run: seq<System>)
    ensures |run| > 0 && IsRun(run) && IsInit(run[0])
    ensures var s := run[|run| - 1]; Is(s, 0, Over(Refused)) && s.driver == Gone && Stop in s.log && !s.flag && !s.passed
  {
    var s := System(Refresh, [], false, false, {}, Before(0), map[], false, false, false);
    run := [s];
    run, s := OneBlock(run, s, 0, RCheck);
    run, s := OneBlock(run, s, 1, RSources);
    run, s := CallBeside(run, s);
    var t := s.(log := s.log + [Stop], driver := Gone);
    run := Extended(run, OfDriver(LookAtFlag), t);
    s := t.(calls := map[0 := HasFiles(true, false, false)]);
    run := Extended(run, OfCall(0, ReadFiles), s);
    t := s.(calls := map[0 := Over(Refused)], flag := false);
    run := Extended(run, OfCall(0, Decide(true)), t);
    assert t.log[|t.log| - 1] == Stop;
  }

  /** A run in which a call stops the unit before its first block. */
  lemma {:induction false} OneIsCalledOff() returns (run: seq<System>)
    ensures |run| > 0 && IsRun(run) && IsInit(run[0])
    ensures var s := run[|run| - 1]; Is(s, 0, Over(CalledOff)) && s.driver == Gone && s.flag
  {
    var s := System(Hop, [], false, false, {}, Before(0), map[], false, false, false);
    run := [s];
    s := s.(calls := map[0 := Looked]);
    run := Extended(run, OfCall(0, Look), s);
    run, s := CallReads(run, s);
    s := s.(calls := map[0 := HasFiles(false, false, false)]);
    run := Extended(run, OfCall(0, ReadFiles), s);
    s := s.(calls := map[0 := Stopping], decided := true);
    run := Extended(run, OfCall(0, Decide(true)), s);
    s := s.(calls := map[0 := Over(CalledOff)], driver := Gone);
    run := Extended(run, OfCall(0, StopUnit(true)), s);
  }
}
