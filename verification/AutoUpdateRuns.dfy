/** Automatic updates over a whole run: checks, starts, the owner's changes and crashes of the core, in any
    order. */
module AutoUpdateRuns {
  import opened UpdateWindow
  import opened AutoUpdate

  /** An attempt that was made: its release, when, and how many failures were held against it then. */
  datatype Attempt = Attempt(release: Release, now: int, held: nat, takenBack: bool)

  datatype Event = DidFail(version: Version) | DidSucceed | DidResume

  /** Where the goroutine that checks is. */
  datatype Phase = Idle | Read(state: State, now: int) | Starting(release: Release, before: Option<Last>)

  datatype System = System(file: State, phase: Phase, clock: int, attempts: seq<Attempt>, events: seq<Event>)

  datatype Answer = Started | Busy | Refused

  datatype Step =
    | Tick(to: int)
    | Settle(unitActive: bool, isInstalled: bool, saves: bool)
    | Load
    | Begin(current: Version, latest: Release, settled: Release, unitActive: bool, appsBusy: bool, saves: bool)
    | Return(answer: Answer, saves: bool)
    | Update(change: Change, saves: bool)
    | Crash

  predicate Enabled(s: System, step: Step) {
    match step
    case Tick(to) => s.clock <= to
    case Settle(_, _, _) => s.phase.Idle?
    case Load => s.phase.Idle?
    case Begin(_, _, _, _, _, _) => s.phase.Read?
    case Return(_, _) => s.phase.Starting?
    case Update(_, _) => true
    case Crash => true
  }

  function FactsOf(s: System, step: Step): Facts
    requires s.phase.Read? && step.Begin?
  {
    Facts(s.phase.now, s.phase.state, step.current, step.latest, step.settled, step.unitActive, step.appsBusy)
  }

  /** A state after which a failure was counted. */
  function Logged(events: seq<Event>, before: State, after: State): seq<Event> {
    if IsRunning(before) && after.last.Some? && after.last.value.result == Failed then events + [DidFail(before.last.value.version)]
    else if IsRunning(before) && after.last.Some? && after.last.value.result == Succeeded then events + [DidSucceed]
    else events
  }

  function TookBack(attempts: seq<Attempt>): seq<Attempt> {
    if attempts == [] then [] else attempts[|attempts| - 1 := attempts[|attempts| - 1].(takenBack := true)]
  }

  function Apply(newer: Newer, s: System, step: Step): System
    requires Enabled(s, step)
  {
    match step
    case Tick(to) => s.(clock := to)
    case Settle(unitActive, isInstalled, saves) =>
      var file := if saves then Concluded(s.file, unitActive, isInstalled) else s.file;
      s.(file := file, events := Logged(s.events, s.file, file))
    case Load => s.(phase := Read(s.file, s.clock))
    case Begin(_, _, _, _, _, saves) =>
      var f := FactsOf(s, step);
      if Decide(newer, f).start && saves then
        var release := Target(newer, f);
        s.(file := Recorded(s.file, release.version, f.now), phase := Starting(release, s.file.last),
           attempts := s.attempts + [Attempt(release, f.now, Held(s.file, release.version), false)])
      else s.(phase := Idle)
    case Return(answer, saves) =>
      var version := s.phase.release.version;
      if answer.Started? || !saves then s.(phase := Idle)
      else if answer.Busy? then
        var file := TakenBack(s.file, version, s.phase.before);
        s.(file := file, phase := Idle, attempts := if file == s.file then s.attempts else TookBack(s.attempts))
      else
        var file := StartFailed(s.file);
        s.(file := file, phase := Idle, events := Logged(s.events, s.file, file))
    case Update(change, saves) =>
      if saves then s.(file := Updated(s.file, change), events := if change.resume && IsAccepted(s.file, change) then s.events + [DidResume] else s.events) else s
    case Crash => s.(phase := Idle)
  }

  ghost predicate IsRun(newer: Newer, run: seq<System>) {
    forall i :: 0 <= i < |run| - 1 ==> exists step :: Enabled(run[i], step) && run[i + 1] == Apply(newer, run[i], step)
  }

  /** A box whose file holds an earlier attempt or none, at which nothing has happened yet. */
  predicate IsInit(s: System) {
    && s.phase.Idle? && s.attempts == [] && s.events == [] && IsValid(s.file.window)
    && (s.file.last.Some? ==> s.file.last.value.startedAt <= s.clock)
    && (s.file.failures.Some? ==> s.file.failures.value.count <= 2)
    && (IsRunning(s.file) ==> Held(s.file, s.file.last.value.version) < 2)
  }

  // ---------------------------------------------------------------- what is started

  predicate WasDue(a: Attempt) {
    a.release.published.Some? && a.release.published.value + MIN_AGE <= a.now && a.held < 2
  }

  ghost predicate AllWereDue(s: System) {
    forall i :: 0 <= i < |s.attempts| ==> WasDue(s.attempts[i])
  }

  /** What the goroutine has read still holds, but for what the owner may change. */
  predicate ReadHolds(s: System) {
    match s.phase
    case Idle => true
    case Read(state, now) =>
      && IsValid(state.window) && now <= s.clock && s.file.last == state.last
      && (s.file.failures == state.failures || s.file.failures == None)
    case Starting(release, before) =>
      && IsRunning(s.file) && s.file.last.value.version == release.version
      && (before.Some? ==> before.value.result != Running)
  }

  predicate IsSane(s: System) {
    && IsValid(s.file.window)
    && (s.file.last.Some? ==> s.file.last.value.startedAt <= if s.phase.Read? then s.phase.now else s.clock)
    && (s.phase.Starting? && s.phase.before.Some? ==> s.phase.before.value.startedAt <= s.clock)
    && (s.file.failures.Some? ==> s.file.failures.value.count <= 2)
    && (IsRunning(s.file) ==> Held(s.file, s.file.last.value.version) < 2)
  }

  /** How many failures of a release the events end with. */
  function Trailing(events: seq<Event>, version: Version): nat {
    if events != [] && events[|events| - 1] == DidFail(version) then Trailing(events[..|events| - 1], version) + 1 else 0
  }

  ghost predicate Tallies(s: System) {
    forall version :: Trailing(s.events, version) <= Held(s.file, version)
  }

  /** No release fails three times in a row, unless the owner resumes it. */
  ghost predicate NeverThrice(events: seq<Event>) {
    forall i :: 0 <= i < |events| - 2 && events[i].DidFail? ==> !(events[i] == events[i + 1] == events[i + 2])
  }

  ghost predicate Inv(s: System) {
    IsSane(s) && ReadHolds(s) && AllWereDue(s) && Tallies(s) && NeverThrice(s.events)
  }

  lemma {:induction false} TrailingSnoc(events: seq<Event>, event: Event, version: Version)
    ensures Trailing(events + [event], version) == if event == DidFail(version) then Trailing(events, version) + 1 else 0
  {
    assert (events + [event])[..|events|] == events;
  }

  lemma {:induction false} ThriceTrails(events: seq<Event>, event: Event)
    requires NeverThrice(events) && (event.DidFail? ==> Trailing(events, event.version) < 2)
    ensures NeverThrice(events + [event])
  {
  }

  lemma {:induction false} FailureCounts(s: System, t: System)
    requires Tallies(s) && NeverThrice(s.events) && IsSane(s) && IsRunning(s.file)
    requires t.file == WithFailure(s.file) && t.events == s.events + [DidFail(s.file.last.value.version)]
    ensures Tallies(t) && NeverThrice(t.events)
  {
    var failed := s.file.last.value.version;
    assert Trailing(s.events, failed) <= Held(s.file, failed);
    ThriceTrails(s.events, DidFail(failed));
    forall version
      ensures Trailing(t.events, version) <= Held(t.file, version)
    {
      TrailingSnoc(s.events, DidFail(failed), version);
    }
  }

  lemma {:induction false} OtherEvent(s: System, t: System, event: Event)
    requires Tallies(s) && NeverThrice(s.events) && !event.DidFail? && t.events == s.events + [event]
    ensures Tallies(t) && NeverThrice(t.events)
  {
  }

  lemma {:induction false} SettleKeepsInv(newer: Newer, s: System, step: Step)
    requires Inv(s) && Enabled(s, step) && step.Settle?
    ensures Inv(Apply(newer, s, step))
  {
    var t := Apply(newer, s, step);
    if IsRunning(s.file) && step.saves && !step.unitActive {
      if step.isInstalled {
        OtherEvent(s, t, DidSucceed);
      } else {
        FailureCounts(s, t);
      }
    } else {
      assert t.file == s.file && t.events == s.events;
    }
  }

  lemma {:induction false} BeginKeepsInv(newer: Newer, s: System, step: Step)
    requires Inv(s) && Enabled(s, step) && step.Begin?
    ensures Inv(Apply(newer, s, step))
  {
  }

  lemma {:induction false} ReturnKeepsInv(newer: Newer, s: System, step: Step)
    requires Inv(s) && Enabled(s, step) && step.Return?
    ensures Inv(Apply(newer, s, step))
  {
    var t := Apply(newer, s, step);
    if step.saves && step.answer.Refused? {
      FailureCounts(s, t);
    } else {
      assert t.events == s.events;
      forall version
        ensures Held(t.file, version) == Held(s.file, version)
      {
      }
    }
  }

  lemma {:induction false} UpdateKeepsInv(newer: Newer, s: System, step: Step)
    requires Inv(s) && Enabled(s, step) && step.Update?
    ensures Inv(Apply(newer, s, step))
  {
  }

  /** When an attempt is made, and that it is in the file before anything starts. */
  lemma {:induction false} BeginsExactly(newer: Newer, s: System, step: Step)
    requires Inv(s) && Enabled(s, step) && step.Begin?
    ensures
      var f, t := FactsOf(s, step), Apply(newer, s, step);
      var starts :=
        && step.saves && MayAim(newer, f) && Target(newer, f).published.value + DAY <= f.now
        && (exists day :: IsFree(f.state.window, day, f.now, Attempted(f.state))) && !f.unitActive && !f.appsBusy;
      && (starts ==>
            && |t.attempts| == |s.attempts| + 1 && t.attempts[|s.attempts|].release == Target(newer, f)
            && t.file.last == Some(Last(Target(newer, f).version, f.now - f.now % 1000000000, Running))
            && t.phase == Starting(Target(newer, f), s.file.last))
      && (!starts ==> t == s.(phase := Idle))
  {
    StartsExactly(newer, FactsOf(s, step));
  }

  /** How it goes on: a start that worked leaves the file; one that found the updater busy puts the attempt back, whose
      release is the one it recorded; one that was refused counts as a failure. A write that does not work changes
      nothing, and the attempt is concluded by a later check. */
  lemma {:induction false} ReturnsExactly(newer: Newer, s: System, step: Step)
    requires Inv(s) && Enabled(s, step) && step.Return?
    ensures
      var version, t := s.phase.release.version, Apply(newer, s, step);
      && t.phase == Idle && t.file.enabled == s.file.enabled && t.file.window == s.file.window
      && match step.answer
         case Started => t.file == s.file && t.events == s.events && t.attempts == s.attempts
         case Busy => t.file.last == (if step.saves then s.phase.before else s.file.last) && t.file.failures == s.file.failures
         case Refused =>
           if !step.saves then t.file == s.file && t.events == s.events
           else
             && t.file.last == Some(s.file.last.value.(result := Failed)) && Held(t.file, version) == Held(s.file, version) + 1
             && t.events == s.events + [DidFail(version)]
  {
  }

  lemma {:induction false} StepKeepsInv(newer: Newer, s: System, step: Step)
    requires Inv(s) && Enabled(s, step)
    ensures Inv(Apply(newer, s, step))
  {
    match step
    case Settle(_, _, _) => SettleKeepsInv(newer, s, step);
    case Begin(_, _, _, _, _, _) => BeginKeepsInv(newer, s, step);
    case Return(_, _) => ReturnKeepsInv(newer, s, step);
    case Update(_, _) => UpdateKeepsInv(newer, s, step);
    case Tick(_) =>
    case Load =>
    case Crash =>
  }

  lemma {:induction false} RunKeepsInv(newer: Newer, run: seq<System>, i: nat)
    requires IsRun(newer, run) && i < |run| && IsInit(run[0])
    ensures Inv(run[i])
  {
    if i > 0 {
      RunKeepsInv(newer, run, i - 1);
      var step :| Enabled(run[i - 1], step) && run[i] == Apply(newer, run[i - 1], step);
      StepKeepsInv(newer, run[i - 1], step);
    }
  }

  /** Whatever happens, nothing starts that is not a day old or against which two failures are held, and no
      release fails a third time in a row without the owner resuming it. */
  lemma {:induction false} OnlyWhatIsDue(newer: Newer, run: seq<System>, i: nat)
    requires IsRun(newer, run) && i < |run| && IsInit(run[0])
    ensures AllWereDue(run[i]) && NeverThrice(run[i].events)
  {
    RunKeepsInv(newer, run, i);
  }

  // ---------------------------------------------------------------- once a night

  /** No two attempts that were not taken back were made in one occurrence of the window. */
  ghost predicate OnceEach(w: Window, attempts: seq<Attempt>) {
    forall i, j, day ::
      0 <= i < j < |attempts| && !attempts[i].takenBack && !attempts[j].takenBack && IsIn(w, day, attempts[i].now)
      ==> !IsIn(w, day, attempts[j].now)
  }

  predicate IsNoLater(a: Attempt, last: Option<Last>) {
    a.takenBack || (last.Some? && Truncated(a.now) <= last.value.startedAt)
  }

  ghost predicate AreNoLater(attempts: seq<Attempt>, last: Option<Last>) {
    forall i :: 0 <= i < |attempts| ==> IsNoLater(attempts[i], last)
  }

  /** The file's last attempt is no earlier than any that stands, and what it would be put back to neither, but
      for the attempt that is being made. */
  ghost predicate LastIsLatest(s: System) {
    && AreNoLater(s.attempts, s.file.last)
    && (s.phase.Starting? ==>
          s.attempts != [] && AreNoLater(s.attempts[..|s.attempts| - 1], s.phase.before))
  }

  ghost predicate NightInv(w: Window, s: System) {
    && Inv(s) && s.file.window == w && (s.phase.Read? ==> s.phase.state.window == w)
    && LastIsLatest(s) && OnceEach(w, s.attempts)
  }

  lemma {:induction false} WholeSeconds(w: Window, day: int, t: int)
    requires IsIn(w, day, t)
    ensures IsIn(w, day, Truncated(t))
  {
  }

  /** An attempt made now is in no occurrence of an earlier one that stands. */
  lemma {:induction false} NewNight(w: Window, attempts: seq<Attempt>, last: Option<Last>, a: Attempt, free: int)
    requires IsValid(w) && AreNoLater(attempts, last) && OnceEach(w, attempts)
    requires last.Some? ==> last.value.startedAt <= a.now
    requires IsFree(w, free, a.now, if last.Some? then Some(last.value.startedAt) else None)
    ensures OnceEach(w, attempts + [a])
  {
    forall i, day | 0 <= i < |attempts| && !attempts[i].takenBack && IsIn(w, day, attempts[i].now)
      ensures !IsIn(w, day, a.now)
    {
      if IsIn(w, day, a.now) {
        OccurrenceIsOne(w, day, free, a.now);
        assert IsNoLater(attempts[i], last);
        WholeSeconds(w, day, attempts[i].now);
      }
    }
  }

  lemma {:induction false} LaterLast(attempts: seq<Attempt>, last: Option<Last>, a: Attempt, next: Last)
    requires AreNoLater(attempts, last) && (last.Some? ==> last.value.startedAt <= a.now) && next.startedAt == Truncated(a.now)
    ensures AreNoLater(attempts + [a], Some(next))
  {
  }

  lemma {:induction false} BeginKeepsNight(newer: Newer, w: Window, s: System, step: Step)
    requires NightInv(w, s) && Enabled(s, step) && step.Begin?
    ensures NightInv(w, Apply(newer, s, step))
  {
    StepKeepsInv(newer, s, step);
    var f, t := FactsOf(s, step), Apply(newer, s, step);
    if Decide(newer, f).start && step.saves {
      StartsExactly(newer, f);
      var release := Target(newer, f);
      var a := Attempt(release, f.now, Held(s.file, release.version), false);
      var free :| IsFree(w, free, f.now, Attempted(f.state));
      AttemptKeepsNight(w, s.attempts, s.file.last, a, free, Last(release.version, Truncated(f.now), Running), t);
    }
  }

  lemma {:induction false} AttemptKeepsNight(w: Window, attempts: seq<Attempt>, last: Option<Last>, a: Attempt, free: int, next: Last, t: System)
    requires IsValid(w) && AreNoLater(attempts, last) && OnceEach(w, attempts) && (last.Some? ==> last.value.startedAt <= a.now)
    requires IsFree(w, free, a.now, if last.Some? then Some(last.value.startedAt) else None)
    requires next.startedAt == Truncated(a.now)
    requires t.attempts == attempts + [a] && t.phase.Starting? && t.phase.before == last && t.file.last == Some(next)
    ensures LastIsLatest(t) && OnceEach(w, t.attempts)
  {
    NewNight(w, attempts, last, a, free);
    LaterLast(attempts, last, a, next);
    assert t.attempts[..|t.attempts| - 1] == attempts;
  }

  lemma {:induction false} TakingBackKeepsNight(w: Window, s: System, t: System)
    requires LastIsLatest(s) && OnceEach(w, s.attempts) && s.phase.Starting?
    requires t.file.last == s.phase.before && t.phase.Idle? && t.attempts == TookBack(s.attempts)
    ensures LastIsLatest(t) && OnceEach(w, t.attempts)
  {
  }

  lemma {:induction false} SameLastKeepsNight(s: System, t: System)
    requires LastIsLatest(s) && t.attempts == s.attempts && !t.phase.Starting?
    requires t.file.last == s.file.last
      || (s.file.last.Some? && t.file.last.Some? && t.file.last.value.startedAt == s.file.last.value.startedAt)
    ensures LastIsLatest(t)
  {
  }

  lemma {:induction false} ReturnKeepsNight(newer: Newer, w: Window, s: System, step: Step)
    requires NightInv(w, s) && Enabled(s, step) && step.Return?
    ensures NightInv(w, Apply(newer, s, step))
  {
    StepKeepsInv(newer, s, step);
    var t := Apply(newer, s, step);
    if step.saves && step.answer.Busy? {
      TakingBackKeepsNight(w, s, t);
    } else {
      SameLastKeepsNight(s, t);
    }
  }

  lemma {:induction false} StepKeepsNight(newer: Newer, w: Window, s: System, step: Step)
    requires NightInv(w, s) && Enabled(s, step) && Apply(newer, s, step).file.window == w
    ensures NightInv(w, Apply(newer, s, step))
  {
    match step
    case Begin(_, _, _, _, _, _) => BeginKeepsNight(newer, w, s, step);
    case Return(_, _) => ReturnKeepsNight(newer, w, s, step);
    case Settle(_, _, _) =>
      StepKeepsInv(newer, s, step);
      SameLastKeepsNight(s, Apply(newer, s, step));
    case Update(_, _) => StepKeepsInv(newer, s, step);
    case Tick(_) => StepKeepsInv(newer, s, step);
    case Load => StepKeepsInv(newer, s, step);
    case Crash => StepKeepsInv(newer, s, step);
  }

  lemma {:induction false} RunKeepsNight(newer: Newer, w: Window, run: seq<System>, i: nat)
    requires IsRun(newer, run) && i < |run| && IsInit(run[0])
    requires forall j :: 0 <= j < |run| ==> run[j].file.window == w
    ensures NightInv(w, run[i])
  {
    if i == 0 {
      RunKeepsInv(newer, run, 0);
    } else {
      RunKeepsNight(newer, w, run, i - 1);
      var step :| Enabled(run[i - 1], step) && run[i] == Apply(newer, run[i - 1], step);
      StepKeepsNight(newer, w, run[i - 1], step);
    }
  }

  /** As long as the window stays the same, at most one attempt that is not taken back is made in each of its
      occurrences: through crashes, writes that fail and whatever else the owner changes. */
  lemma {:induction false} AtMostOneANight(newer: Newer, w: Window, run: seq<System>, i: nat)
    requires IsRun(newer, run) && i < |run| && IsInit(run[0])
    requires forall j :: 0 <= j < |run| ==> run[j].file.window == w
    ensures OnceEach(w, run[i].attempts)
  {
    RunKeepsNight(newer, w, run, i);
  }
}
