/** Updates that install themselves: when one starts, and what is kept of the attempts.

    The comparison of two releases is a parameter, `newer`. So is what a check is told of the box. */
module AutoUpdate {
  import opened UpdateWindow

  datatype Version = Version(text: string)

  /** A release, and when it was published, if that can be read. */
  datatype Release = Release(version: Version, published: Option<int>)

  datatype Result = Running | Succeeded | Failed

  datatype Last = Last(version: Version, startedAt: int, result: Result)

  datatype Failures = Failures(version: Version, count: nat)

  datatype State = State(enabled: bool, window: Window, last: Option<Last>, failures: Option<Failures>)

  type Newer = (Version, Version) -> bool

  /** How old a release must be. */
  const MIN_AGE := DAY

  function Attempted(s: State): Option<int> {
    match s.last
    case None => None
    case Some(last) => Some(last.startedAt)
  }

  predicate IsRunning(s: State) {
    s.last.Some? && s.last.value.result == Running
  }

  /** How many failures in a row are held against a release. */
  function Held(s: State, version: Version): nat {
    if s.failures.Some? && s.failures.value.version == version then s.failures.value.count else 0
  }

  // ---------------------------------------------------------------- the decision

  datatype Facts = Facts(now: int, state: State, current: Version, latest: Release, settled: Release, unitActive: bool, appsBusy: bool)

  datatype Shown = Off | UpToDate | Waiting | Updating | Paused

  datatype Next = Next(version: Version, notBefore: int)

  datatype Verdict = Verdict(shown: Shown, next: Option<Next>, start: bool)

  predicate TooYoung(release: Release, now: int) {
    release.published.Some? && release.published.value + MIN_AGE > now
  }

  /** The release aimed at. */
  function Target(newer: Newer, f: Facts): Release {
    if TooYoung(f.latest, f.now) && newer(f.settled.version, f.current) then f.settled else f.latest
  }

  function Decide(newer: Newer, f: Facts): Verdict {
    if !f.state.enabled then Verdict(Off, None, false)
    else if IsRunning(f.state) then Verdict(Updating, None, false)
    else if !newer(f.latest.version, f.current) then Verdict(UpToDate, None, false)
    else
      var target := Target(newer, f);
      if f.state.failures.Some? && f.state.failures.value.version == target.version && f.state.failures.value.count >= 2
      then Verdict(Paused, None, false)
      else match target.published {
        case None => Verdict(Waiting, None, false)
        case Some(published) =>
          var ready := published + MIN_AGE;
          var notBefore := Earliest(f.state.window, if ready > f.now then ready else f.now, Attempted(f.state));
          Verdict(Waiting, Some(Next(target.version, notBefore)), notBefore <= f.now && !f.unitActive && !f.appsBusy)
      }
  }

  /** Whether a release may start, whatever the time and the box. */
  predicate MayAim(newer: Newer, f: Facts) {
    && f.state.enabled && !IsRunning(f.state) && newer(f.latest.version, f.current)
    && Held(f.state, Target(newer, f).version) < 2 && Target(newer, f).published.Some?
  }

  /** The release aimed at: the latest, unless that is not a day old and an earlier one that is is newer than what is
      installed. */
  lemma {:induction false} TargetExactly(newer: Newer, f: Facts)
    ensures
      var young := f.latest.published.Some? && f.now < f.latest.published.value + 24 * 60 * MINUTE;
      Target(newer, f) == if young && newer(f.settled.version, f.current) then f.settled else f.latest
  {
  }

  /** What is shown of the automatic updates. */
  lemma {:induction false} ShownExactly(newer: Newer, f: Facts)
    ensures
      var s, shown := f.state, Decide(newer, f).shown;
      var runs := s.last.Some? && s.last.value.result == Running;
      var paused := s.failures.Some? && s.failures.value.version == Target(newer, f).version && s.failures.value.count >= 2;
      && (shown == Off <==> !s.enabled)
      && (shown == Updating <==> s.enabled && runs)
      && (shown == UpToDate <==> s.enabled && !runs && !newer(f.latest.version, f.current))
      && (shown == Paused <==> s.enabled && !runs && newer(f.latest.version, f.current) && paused)
      && (shown == Waiting <==> s.enabled && !runs && newer(f.latest.version, f.current) && !paused)
  {
  }

  lemma {:induction false} AimsExactly(newer: Newer, f: Facts)
    ensures MayAim(newer, f) <==>
      && f.state.enabled && !(f.state.last.Some? && f.state.last.value.result == Running) && newer(f.latest.version, f.current)
      && !(f.state.failures.Some? && f.state.failures.value.version == Target(newer, f).version && f.state.failures.value.count >= 2)
      && Target(newer, f).published.Some?
  {
  }

  /** An update starts exactly when automatic updates are on, none runs, there is a newer release, the one aimed
      at has not failed twice and is a day old, no attempt was made in the occurrence of the window that it is
      now, and the box is free. */
  lemma {:induction false} StartsExactly(newer: Newer, f: Facts)
    requires IsValid(f.state.window)
    ensures Decide(newer, f).start <==>
      && MayAim(newer, f) && Target(newer, f).published.value + MIN_AGE <= f.now
      && (exists day :: IsFree(f.state.window, day, f.now, Attempted(f.state)))
      && !f.unitActive && !f.appsBusy
    ensures Decide(newer, f).start ==> Decide(newer, f).next == Some(Next(Target(newer, f).version, f.now))
  {
    EarliestIsNow(f.state.window, f.now, Attempted(f.state));
    if MayAim(newer, f) {
      var ready := Target(newer, f).published.value + MIN_AGE;
      EarliestIsNow(f.state.window, ready, Attempted(f.state));
    }
  }

  /** The time shown is the first at which the release aimed at is a day old and the window is free. */
  lemma {:induction false} ShowsEarliest(newer: Newer, f: Facts)
    requires IsValid(f.state.window)
    ensures Decide(newer, f).next.Some? <==> MayAim(newer, f)
    ensures MayAim(newer, f) ==>
      var ready := Target(newer, f).published.value + MIN_AGE;
      && Decide(newer, f).next.value.version == Target(newer, f).version
      && IsEarliest(f.state.window, if ready > f.now then ready else f.now, Attempted(f.state), Decide(newer, f).next.value.notBefore)
  {
    if MayAim(newer, f) {
      var ready := Target(newer, f).published.value + MIN_AGE;
      EarliestIsEarliest(f.state.window, if ready > f.now then ready else f.now, Attempted(f.state));
    }
  }

  // ---------------------------------------------------------------- the file

  /** A change of the settings. A window that is not one is refused. */
  datatype Change = Change(enabled: Option<bool>, window: Option<Window>, resume: bool)

  predicate IsAccepted(s: State, c: Change) {
    IsValid(if c.window.Some? then c.window.value else s.window)
  }

  function Updated(s: State, c: Change): State {
    if !IsAccepted(s, c) then s
    else State(if c.enabled.Some? then c.enabled.value else s.enabled, if c.window.Some? then c.window.value else s.window,
               s.last, if c.resume then None else s.failures)
  }

  function WithFailure(s: State): State
    requires s.last.Some?
  {
    var version := s.last.value.version;
    s.(last := Some(s.last.value.(result := Failed)), failures := Some(Failures(version, Held(s, version) + 1)))
  }

  /** The installed release is the one attempted, or a newer one that was found at download time. */
  predicate IsReached(newer: Newer, installed: Version, version: Version) {
    installed == version || newer(installed, version)
  }

  /** The last attempt concluded, once it no longer runs. */
  function Concluded(s: State, unitActive: bool, isInstalled: bool): State {
    if !IsRunning(s) || unitActive then s
    else if isInstalled then s.(last := Some(s.last.value.(result := Succeeded)), failures := None)
    else WithFailure(s)
  }

  /** An attempt that runs, and whose unit is over, has succeeded exactly when its release is reached, and then no
      failures are held any more; otherwise it has failed, and one more is held against its release, or the first. */
  lemma {:induction false} ConcludedExactly(s: State, unitActive: bool, isInstalled: bool)
    ensures
      var t := Concluded(s, unitActive, isInstalled);
      if s.last.None? || s.last.value.result != Running || unitActive then t == s
      else
        && t.enabled == s.enabled && t.window == s.window && t.last.Some?
        && t.last.value.version == s.last.value.version && t.last.value.startedAt == s.last.value.startedAt
        && (t.last.value.result == Succeeded <==> isInstalled) && (t.last.value.result == Failed <==> !isInstalled)
        && (t.failures == None <==> isInstalled)
        && (!isInstalled ==>
              && t.failures.value.version == s.last.value.version
              && t.failures.value.count ==
                   if s.failures.Some? && s.failures.value.version == s.last.value.version then s.failures.value.count + 1 else 1)
  {
  }

  /** A change that is accepted sets what it names and clears the failures when it resumes; every other field stays. */
  lemma {:induction false} UpdatedExactly(s: State, c: Change)
    ensures
      var t := Updated(s, c);
      if !IsValid(if c.window.Some? then c.window.value else s.window) then t == s
      else
        && t.last == s.last
        && t.enabled == (if c.enabled.Some? then c.enabled.value else s.enabled)
        && t.window == (if c.window.Some? then c.window.value else s.window)
        && t.failures == (if c.resume then None else s.failures)
  {
  }

  function Truncated(t: int): int {
    t - t % SECOND
  }

  function Recorded(s: State, version: Version, now: int): State {
    s.(last := Some(Last(version, Truncated(now), Running)))
  }

  /** An attempt that started nothing is taken back. */
  function TakenBack(s: State, version: Version, before: Option<Last>): State {
    if IsRunning(s) && s.last.value.version == version then s.(last := before) else s
  }

  function StartFailed(s: State): State {
    if IsRunning(s) then WithFailure(s) else s
  }

  /** The owner's state file. Every method is one read, change and write under the lock; `saves` says whether
      the write works, and the file stays as it was when it does not. */
  class StateFile {
    var state: State

    method Fail(s: State) returns (failed: State)
      requires s.last.Some?
      ensures failed == WithFailure(s)
    {
      failed := s.(last := Some(s.last.value.(result := Failed)));
      var version := failed.last.value.version;
      if failed.failures.None? || failed.failures.value.version != version {
        failed := failed.(failures := Some(Failures(version, 0)));
      }
      failed := failed.(failures := Some(Failures(version, failed.failures.value.count + 1)));
    }

    method Settle(unitActive: bool, installed: Version, newer: Newer, saves: bool)
      modifies this
      ensures state == if saves && old(IsRunning(state))
        then Concluded(old(state), unitActive, IsReached(newer, installed, old(state).last.value.version)) else old(state)
      // succeeded, with no failures held, exactly when the installed release is the one attempted or a newer one
      ensures saves && old(IsRunning(state)) && !unitActive ==>
        var version := old(state).last.value.version;
        if installed == version || newer(installed, version)
        then state == old(state).(last := Some(old(state).last.value.(result := Succeeded)), failures := None)
        else state.last == Some(old(state).last.value.(result := Failed)) && Held(state, version) == Held(old(state), version) + 1
    {
      if state.last.None? || state.last.value.result != Running {
        return;
      }
      if unitActive {
        return;
      }
      var s := state;
      if installed == s.last.value.version || newer(installed, s.last.value.version) {
        s := s.(last := Some(s.last.value.(result := Succeeded)), failures := None);
      } else {
        s := Fail(s);
      }
      if saves {
        state := s;
      }
    }

    method Update(c: Change, saves: bool) returns (ok: bool)
      modifies this
      ensures ok <==> saves && IsAccepted(old(state), c)
      ensures state == if saves then Updated(old(state), c) else old(state)
    {
      var s := state;
      if c.enabled.Some? {
        s := s.(enabled := c.enabled.value);
      }
      if c.window.Some? {
        s := s.(window := c.window.value);
      }
      if c.resume {
        s := s.(failures := None);
      }
      if !IsValid(s.window) || !saves {
        return false;
      }
      state := s;
      return true;
    }

    /** What a check would start, if anything. */
    method Check(newer: Newer, now: int, current: Version, latest: Release, settledBefore: int -> Release,
                 unitActive: bool, appsBusy: bool)
      returns (next: Option<Version>)
      requires IsValid(state.window)
      ensures
        var nothing := Release(Version(""), None);
        var settled := if TooYoung(latest, now) then settledBefore(now - MIN_AGE) else nothing;
        var verdict := Decide(newer, Facts(now, state, current, latest, settled, unitActive, appsBusy));
        next == if verdict.start then Some(verdict.next.value.version) else None
    {
      EarliestIsNow(state.window, now, Attempted(state));
      var earliest, turns := FindEarliest(state.window, now, Attempted(state));
      ghost var nothing := Release(Version(""), None);
      ghost var told := if TooYoung(latest, now) then settledBefore(now - MIN_AGE) else nothing;
      StartsExactly(newer, Facts(now, state, current, latest, told, unitActive, appsBusy));
      if !state.enabled || earliest > now {
        return None;
      }
      var settled := Release(Version(""), None);
      if TooYoung(latest, now) {
        settled := settledBefore(now - MIN_AGE);
      }
      var f := Facts(now, state, current, latest, settled, false, false);
      StartsExactly(newer, f);
      if !Decide(newer, f).start {
        return None;
      }
      var verdict := Decide(newer, f.(unitActive := unitActive, appsBusy := appsBusy));
      next := if verdict.start then Some(verdict.next.value.version) else None;
    }

    method Record(version: Version, now: int, saves: bool) returns (before: Option<Last>)
      modifies this
      ensures before == old(state).last
      ensures state == if saves then Recorded(old(state), version, now) else old(state)
    {
      before := state.last;
      if saves {
        state := state.(last := Some(Last(version, now - now % SECOND, Running)));
      }
    }

    method TakeBack(version: Version, before: Option<Last>, saves: bool)
      modifies this
      ensures state == if saves then TakenBack(old(state), version, before) else old(state)
    {
      if state.last.None? || state.last.value.result != Running || state.last.value.version != version {
        return;
      }
      if saves {
        state := state.(last := before);
      }
    }

    method FailStart(saves: bool)
      modifies this
      ensures state == if saves then StartFailed(old(state)) else old(state)
    {
      if state.last.None? || state.last.value.result != Running {
        return;
      }
      var s := Fail(state);
      if saves {
        state := s;
      }
    }
  }

  function AllUpdated(s: State, changes: seq<Change>): State
    decreases |changes|
  {
    if changes == [] then s else AllUpdated(Updated(s, changes[0]), changes[1..])
  }

  lemma {:induction false} UpdatesKeepLast(s: State, changes: seq<Change>, last: Option<Last>)
    ensures AllUpdated(s, changes).last == s.last
    ensures AllUpdated(s.(last := last), changes) == AllUpdated(s, changes).(last := last)
    decreases |changes|
  {
    if changes != [] {
      UpdatesKeepLast(Updated(s, changes[0]), changes[1..], last);
    }
  }

  /** An attempt that is taken back leaves no trace: whatever the owner changed meanwhile, the file is what those
      changes alone make of it. */
  lemma {:induction false} TakingBackUndoes(s: State, version: Version, now: int, changes: seq<Change>)
    ensures TakenBack(AllUpdated(Recorded(s, version, now), changes), version, s.last) == AllUpdated(s, changes)
  {
    UpdatesKeepLast(Recorded(s, version, now), changes, s.last);
    assert Recorded(s, version, now).(last := s.last) == s;
  }
}
