/** The unit that updates Docker, and the holds of its packages: dpkg drops the hold of every package it unpacks,
    and the unit puts back those that it may.

    What apt, dpkg and Docker answer are parameters of a run, under what is promised of them: apt unpacks only
    packages among the names, and without the flag none that is on hold; apt-mark holds all that it is given, or
    fails and holds nothing. The owner may hold and lift up to the unit's second look at the holds. */
module DockerHold {

  datatype Name = Name(text: string)

  datatype Reason = ByGuard | ByDownload | ByInstall | ByDaemon

  datatype Mark =
    | Started
    | Guard
    | Held(names: set<Name>)
    | Previous
    | Downloaded
    | Installed
    | Daemon
    | NotReturned(container: nat)
    | Holds(names: set<Name>)
    | Failed(why: Reason)
    | Success
    | RestartPending

  predicate IsTerminal(m: Mark) {
    m.Failed? || m.Success? || m.RestartPending?
  }

  /** The owner's word that apt may go ahead of a hold. */
  datatype Word = NoWord | Yes | Another

  /** What the unit is given: whether there are pins and names of a good shape, the names it may touch, those of the
      engine's packages that the core saw on hold, and the word. */
  datatype Given = Given(isPlan: bool, names: set<Name>, held: seq<Name>, word: Word)

  /** What becomes of a run: whether apt would do what was confirmed, the download, the holds when it is over, what
      dpkg unpacks and whether the install works, what the daemon does, and the containers that do not return. */
  datatype Fate = Fate(simulates: bool, downloads: bool, onHold: set<Name>, unpacked: set<Name>, installs: bool,
                       answers: bool, answersLate: bool, isNew: bool, missing: seq<nat>)

  const TRIES := 10

  class Unit {
    /** The machine: what is installed and what is on hold. */
    var installed: set<Name>
    var onHold: set<Name>
    /** The unit's log, and its variables. */
    var log: seq<Mark>
    var holdMarked: bool
    var heldNames: set<Name>
    var heldStart: set<Name>
    var installRan: bool
    var holdsBack: bool
    var holdFlag: bool
    /** How many times apt-mark was tried. */
    var tried: nat

    constructor (installed: set<Name>, onHold: set<Name>)
      ensures this.installed == installed && this.onHold == onHold && log == [] && tried == 0
      ensures !holdMarked && heldNames == {} && heldStart == {} && !installRan && !holdsBack && !holdFlag
    {
      this.installed, this.onHold, log, tried := installed, onHold, [], 0;
      holdMarked, heldNames, heldStart, installRan, holdsBack, holdFlag := false, {}, {}, false, false, false;
    }

    /** Those of the names that dpkg has on hold and installed. */
    function HeldAmong(names: set<Name>): set<Name>
      reads this
    {
      names * onHold * installed
    }

    method Say(m: Mark)
      modifies this`log
      ensures log == old(log) + [m]
    {
      log := log + [m];
    }

    /** Tries to put the holds back, ten times at most, unless it worked before. */
    method RestoreHolds(works: nat -> bool)
      modifies this`onHold, this`holdsBack, this`tried
      ensures
        var due := installRan && !old(holdsBack) && heldStart != {};
        && (!due ==> onHold == old(onHold) && holdsBack == old(holdsBack) && tried == old(tried))
        && (due && holdsBack ==> onHold == old(onHold) + heldStart)
        && (due && !holdsBack ==> onHold == old(onHold) && tried == old(tried) + TRIES)
        && (due ==> holdsBack == exists k :: old(tried) <= k < old(tried) + TRIES && works(k))
        && (due && !holdsBack ==> forall k :: old(tried) <= k < old(tried) + TRIES ==> !works(k))
    {
      if !installRan || holdsBack || heldStart == {} {
        return;
      }
      var tries := 0;
      while true
        invariant 0 <= tries < TRIES && tried == old(tried) + tries
        invariant onHold == old(onHold) && !holdsBack
        invariant forall k :: old(tried) <= k < tried ==> !works(k)
        decreases TRIES - tries
      {
        tried := tried + 1;
        if works(tried - 1) {
          onHold := onHold + heldStart;
          holdsBack := true;
          return;
        }
        tries := tries + 1;
        if tries >= TRIES {
          return;
        }
      }
    }

    /** Ends a run that fails: with the holds put back once the install was started, and told at the end once they
        were told at the start. */
    method Fail(why: Reason, works: nat -> bool)
      modifies this`onHold, this`holdsBack, this`tried, this`log
      ensures
        var due := installRan && !old(holdsBack) && heldStart != {};
        && (!due ==> onHold == old(onHold) && holdsBack == old(holdsBack) && tried == old(tried))
        && (due && holdsBack ==> onHold == old(onHold) + heldStart)
        && (due && !holdsBack ==>
              onHold == old(onHold) && tried == old(tried) + TRIES
              && forall k :: old(tried) <= k < old(tried) + TRIES ==> !works(k))
      ensures log == old(log) + (if holdMarked then [Holds(HeldAmong(heldNames))] else []) + [Failed(why)]
    {
      RestoreHolds(works);
      if holdMarked {
        Say(Holds(HeldAmong(heldNames)));
      }
      Say(Failed(why));
    }

    /** Whether a package that the unit may touch is on hold whose hold it would not put back. */
    predicate IsUnrestorable(names: set<Name>, putBack: set<Name>)
      reads this
    {
      holdFlag && !(HeldAmong(names) <= putBack)
    }

    method RefuseUnrestorableHolds(names: set<Name>, putBack: set<Name>, works: nat -> bool) returns (refused: bool)
      requires !installRan
      modifies this`onHold, this`holdsBack, this`tried, this`log
      ensures refused == old(IsUnrestorable(names, putBack))
      ensures onHold == old(onHold) && holdsBack == old(holdsBack) && tried == old(tried)
      ensures log == old(log) + if !refused then [] else
        [Guard] + (if holdMarked then [Holds(HeldAmong(heldNames))] else []) + [Failed(ByGuard)]
    {
      if !holdFlag {
        return false;
      }
      var left := HeldAmong(names);
      while left != {}
        invariant left <= HeldAmong(names) && HeldAmong(names) - left <= putBack
        decreases |left|
      {
        var name :| name in left;
        if name !in putBack {
          Say(Guard);
          Fail(ByGuard, works);
          return true;
        }
        left := left - {name};
      }
      return false;
    }

    /** The names that were seen on hold: whether one is of a bad shape, there twice, or neither among the names nor
        the engine's. */
    method ReadHeld(given: Given, isName: Name -> bool, isEngine: Name -> bool) returns (bad: bool, read: set<Name>)
      ensures read == set i | 0 <= i < |given.held| :: given.held[i]
      ensures bad <==> !AreGood(given, isName, isEngine)
    {
      bad, read := false, {};
      for i := 0 to |given.held|
        invariant read == set j | 0 <= j < i :: given.held[j]
        invariant bad <==> !(forall j :: 0 <= j < i ==>
          && isName(given.held[j]) && (given.held[j] in given.names || isEngine(given.held[j]))
          && forall k :: 0 <= k < j ==> given.held[k] != given.held[j])
      {
        var name := given.held[i];
        if !isName(name) || name in read || (name !in given.names && !isEngine(name)) {
          bad := true;
        }
        read := read + {name};
      }
    }

    /** What holds as the install begins: the unit would put back every hold that it may make dpkg drop. */
    predicate IsReady(given: Given)
      reads this
    {
      holdMarked && tried == 0 && !installRan && !holdsBack && (given.word.Yes? ==> HeldAmong(given.names) <= heldStart)
    }

    predicate IsNew()
      reads this
    {
      log == [] && tried == 0 && !holdMarked && heldNames == {} && heldStart == {} && !installRan && !holdsBack && !holdFlag
    }

    /** The holds are told at the end as they are, once they were told at the start. */
    predicate TellsHolds()
      reads this
    {
      holdMarked ==> |log| >= 2 && log[|log| - 2] == Holds(HeldAmong(heldNames))
    }

    /** What the unit does before anything is looked at: whether it goes on. */
    method Check(given: Given, isName: Name -> bool, isEngine: Name -> bool, works: nat -> bool) returns (go: bool)
      requires IsNew()
      modifies this
      ensures installed == old(installed) && onHold == old(onHold) && tried == 0
      ensures !installRan && !holdsBack && heldStart == {} && !holdMarked
      ensures go <==> IsWellFormed(given, isName, isEngine)
      ensures log == if go then [Started] else [Started, Guard, Failed(ByGuard)]
      ensures go ==> heldNames == HeldNames(given) && holdFlag == given.word.Yes?
    {
      Say(Started);
      if !given.isPlan {
        Say(Guard);
        Fail(ByGuard, works);
        return false;
      }
      var bad, read := ReadHeld(given, isName, isEngine);
      heldNames := read;
      assert given.held != [] ==> given.held[0] in read;
      match given.word {
        case NoWord => bad := bad || heldNames != {};
        case Yes =>
          holdFlag := true;
          bad := bad || heldNames == {};
        case Another => bad := true;
      }
      if bad {
        Say(Guard);
        Fail(ByGuard, works);
        return false;
      }
      return true;
    }

    /** Up to the holds that are told at the start: whether it goes on. */
    method Begin(given: Given, isName: Name -> bool, isEngine: Name -> bool, works: nat -> bool) returns (go: bool)
      requires IsNew()
      modifies this
      ensures installed == old(installed) && onHold == old(onHold) && tried == 0 && !installRan && !holdsBack
      ensures go <==> IsAllowed(given, old(installed), old(onHold), isName, isEngine)
      ensures go ==>
        && heldNames == HeldNames(given) && heldStart == HeldNames(given) * onHold * installed && holdMarked
        && holdFlag == given.word.Yes? && log == [Started, Held(heldStart), Previous]
      ensures !go ==> !holdMarked && heldStart == {} && log == [Started, Guard, Failed(ByGuard)]
    {
      go := Check(given, isName, isEngine, works);
      if !go {
        return;
      }
      var refused := RefuseUnrestorableHolds(given.names, heldNames, works);
      if refused {
        assert log == [Started, Guard, Failed(ByGuard)];
        return false;
      }
      heldStart := HeldAmong(heldNames);
      Say(Held(heldStart));
      holdMarked := true;
      Say(Previous);
    }

    /** Up to the install: whether it goes on to it, and what is said when it does not. */
    method Prepare(given: Given, fate: Fate, isName: Name -> bool, isEngine: Name -> bool, works: nat -> bool) returns (go: bool)
      requires IsNew()
      modifies this
      ensures installed == old(installed) && tried == 0 && !installRan && !holdsBack
      ensures go <==> GoesOnToInstall(given, fate, old(installed), old(onHold), isName, isEngine)
      ensures
        var allowed := IsAllowed(given, old(installed), old(onHold), isName, isEngine);
        && holdMarked == allowed
        && onHold == (if allowed && fate.simulates && fate.downloads then fate.onHold else old(onHold))
        && heldStart == (if allowed then HeldNames(given) * old(onHold) * installed else {})
        && (allowed ==> heldNames == HeldNames(given) && holdFlag == given.word.Yes?)
        && log ==
             if !allowed then [Started, Guard, Failed(ByGuard)]
             else if !fate.simulates then [Started, Held(heldStart), Previous, Guard, Holds(HeldAmong(heldNames)), Failed(ByGuard)]
             else if !fate.downloads then [Started, Held(heldStart), Previous, Holds(HeldAmong(heldNames)), Failed(ByDownload)]
             else if go then [Started, Held(heldStart), Previous, Downloaded]
             else [Started, Held(heldStart), Previous, Downloaded, Guard, Holds(HeldAmong(heldNames)), Failed(ByGuard)]
    {
      go := Begin(given, isName, isEngine, works);
      if !go {
        return;
      }
      if !fate.simulates {
        Say(Guard);
        Fail(ByGuard, works);
        return false;
      }
      if !fate.downloads {
        Fail(ByDownload, works);
        return false;
      }
      Say(Downloaded);
      // the owner may have changed holds while the download ran
      onHold := fate.onHold;
      var refused := RefuseUnrestorableHolds(given.names, heldStart, works);
      go := !refused;
    }

    /** The install, and the hold right after it. */
    method Install(given: Given, fate: Fate, works: nat -> bool)
      requires IsReady(given)
      requires fate.unpacked <= given.names && (given.word != Yes ==> fate.unpacked !! onHold)
      modifies this`installRan, this`onHold, this`installed, this`holdsBack, this`tried
      ensures installRan
      ensures onHold == old(onHold) - fate.unpacked + if holdsBack then heldStart else {}
      ensures holdsBack ==> heldStart != {}
      ensures holdsBack || heldStart == {} ==> old(onHold * installed) <= onHold
      ensures heldStart != {} && !holdsBack ==> tried == TRIES && forall k :: 0 <= k < TRIES ==> !works(k)
    {
      installRan := true;
      onHold := onHold - fate.unpacked;
      installed := installed + fate.unpacked;
      RestoreHolds(works);
    }

    method TellMissing(missing: seq<nat>)
      modifies this`log
      ensures log == old(log) + NotReturnedMarks(missing)
    {
      for i := 0 to |missing|
        modifies this`log
        invariant log == old(log) + NotReturnedMarks(missing[..i])
      {
        assert missing[..i + 1][..i] == missing[..i];
        Say(NotReturned(missing[i]));
      }
      assert missing[..|missing|] == missing;
    }

    /** The end of a run that went through. */
    method End(outcome: Mark, works: nat -> bool)
      requires installRan
      modifies this`onHold, this`holdsBack, this`tried, this`log
      ensures
        var due := !old(holdsBack) && heldStart != {};
        && (!due ==> onHold == old(onHold) && holdsBack == old(holdsBack) && tried == old(tried))
        && (due && holdsBack ==> onHold == old(onHold) + heldStart)
        && (due && !holdsBack ==>
              onHold == old(onHold) && tried == old(tried) + TRIES
              && forall k :: old(tried) <= k < old(tried) + TRIES ==> !works(k))
      ensures log == old(log) + [Holds(HeldAmong(heldNames)), outcome]
    {
      RestoreHolds(works);
      Say(Holds(HeldAmong(heldNames)));
      Say(outcome);
    }

    /** What follows the install. */
    method Conclude(fate: Fate, works: nat -> bool)
      requires installRan && holdMarked && (holdsBack ==> heldStart != {})
      modifies this`onHold, this`holdsBack, this`tried, this`log
      ensures old(holdsBack) || heldStart == {} ==> onHold == old(onHold) && holdsBack == old(holdsBack)
      ensures !old(holdsBack) && holdsBack ==> onHold == old(onHold) + heldStart
      ensures !holdsBack ==> onHold == old(onHold)
      ensures heldStart != {} && !holdsBack ==>
        tried == old(tried) + TRIES && forall k :: old(tried) <= k < tried ==> !works(k)
      ensures log == old(log) + LastMarks(fate, HeldAmong(heldNames))
    {
      if !fate.installs {
        Fail(ByInstall, works);
        return;
      }
      Say(Installed);
      if !fate.answers && !fate.answersLate {
        Fail(ByDaemon, works);
        return;
      }
      Say(Daemon);
      TellMissing(fate.missing);
      End(if fate.isNew then Success else RestartPending, works);
    }

    /** The unit, from its start to its end. */
    method Run(given: Given, fate: Fate, isName: Name -> bool, isEngine: Name -> bool, works: nat -> bool)
      requires IsNew()
      requires fate.unpacked <= given.names && (given.word != Yes ==> fate.unpacked !! fate.onHold)
      modifies this
      ensures EndsOnce(log) && TellsHolds()
      ensures installRan <==> GoesOnToInstall(given, fate, old(installed), old(onHold), isName, isEngine)
      // how it ends
      ensures log[|log| - 1] ==
        if !installRan then
          Failed(if IsAllowed(given, old(installed), old(onHold), isName, isEngine) && fate.simulates && !fate.downloads
                 then ByDownload else ByGuard)
        else if !fate.installs then Failed(ByInstall)
        else if !fate.answers && !fate.answersLate then Failed(ByDaemon)
        else if fate.isNew then Success else RestartPending
      ensures Installed in log <==> installRan && fate.installs
      // every package on hold, and installed, as the install began is on hold again, when one try works
      ensures installRan && (holdsBack || heldStart == {}) ==> fate.onHold * old(installed) <= onHold
      ensures installRan && heldStart != {} && !holdsBack ==> tried == 2 * TRIES && forall k :: 0 <= k < tried ==> !works(k)
      // and nothing else is put on hold than what was when the unit started and that the owner was told of
      ensures onHold <= old(onHold) + fate.onHold
      ensures installRan ==> onHold == fate.onHold - fate.unpacked + if holdsBack then heldStart else {}
      ensures installRan ==> heldStart == HeldNames(given) * old(onHold * installed)
    {
      var go := Prepare(given, fate, isName, isEngine, works);
      if !go {
        return;
      }
      Install(given, fate, works);
      ghost var said := log;
      Conclude(fate, works);
      LastMarksEnd(said, fate, HeldAmong(heldNames));
    }
  }

  function NotReturnedMarks(missing: seq<nat>): (marks: seq<Mark>)
    ensures |marks| == |missing| && forall i :: 0 <= i < |marks| ==> marks[i] == NotReturned(missing[i])
  {
    if missing == [] then [] else NotReturnedMarks(missing[..|missing| - 1]) + [NotReturned(missing[|missing| - 1])]
  }

  /** What a run says once the install ran, with the holds as they are then. */
  function LastMarks(fate: Fate, holds: set<Name>): seq<Mark> {
    if !fate.installs then [Holds(holds), Failed(ByInstall)]
    else if !fate.answers && !fate.answersLate then [Installed, Holds(holds), Failed(ByDaemon)]
    else [Installed, Daemon] + NotReturnedMarks(fate.missing) + [Holds(holds), if fate.isNew then Success else RestartPending]
  }

  /** It ends as failed when the install failed, and when the daemon did not answer after one that worked; else as a
      success or with a restart to come. The holds come right before, and the rest ends nothing. */
  lemma {:induction false} LastMarksEnd(said: seq<Mark>, fate: Fate, holds: set<Name>)
    requires forall k :: 0 <= k < |said| ==> !IsTerminal(said[k]) && said[k] != Installed
    ensures
      var log := said + LastMarks(fate, holds);
      && EndsOnce(log) && |log| >= 2 && log[|log| - 2] == Holds(holds)
      && (Installed in log <==> fate.installs)
      && (log[|log| - 1] == Failed(ByInstall) <==> !fate.installs)
      && (log[|log| - 1] == Failed(ByDaemon) <==> fate.installs && !fate.answers && !fate.answersLate)
      && (log[|log| - 1] == Success <==> fate.installs && (fate.answers || fate.answersLate) && fate.isNew)
      && (log[|log| - 1] == RestartPending <==> fate.installs && (fate.answers || fate.answersLate) && !fate.isNew)
  {
    var log := said + LastMarks(fate, holds);
    if fate.installs {
      assert log[|said|] == Installed;
    }
  }

  function HeldNames(given: Given): set<Name> {
    set i | 0 <= i < |given.held| :: given.held[i]
  }

  /** What the unit is given is of a good shape: there is a plan, the names that were seen on hold are good ones, and
      they are there exactly when the owner gave the word, which is nothing else. */
  predicate IsWellFormed(given: Given, isName: Name -> bool, isEngine: Name -> bool) {
    given.isPlan && AreGood(given, isName, isEngine) && given.word != Another && (given.word == Yes <==> given.held != [])
  }

  /** And with the word, nothing that it may touch is on hold but what was seen. */
  predicate IsAllowed(given: Given, installed: set<Name>, onHold: set<Name>, isName: Name -> bool, isEngine: Name -> bool) {
    && IsWellFormed(given, isName, isEngine)
    && (given.word == Yes ==> given.names * onHold * installed <= HeldNames(given))
  }

  /** Whether a run comes to the install: it is allowed, apt would do what was confirmed, the download works, and with
      the word nothing that it may touch is on hold by then but what was as the unit started, and was seen. */
  predicate GoesOnToInstall(given: Given, fate: Fate, installed: set<Name>, onHold: set<Name>, isName: Name -> bool,
                            isEngine: Name -> bool) {
    && IsAllowed(given, installed, onHold, isName, isEngine) && fate.simulates && fate.downloads
    && (given.word == Yes ==> given.names * fate.onHold * installed <= HeldNames(given) * onHold)
  }

  predicate AreGood(given: Given, isName: Name -> bool, isEngine: Name -> bool) {
    forall j :: 0 <= j < |given.held| ==>
      && isName(given.held[j]) && (given.held[j] in given.names || isEngine(given.held[j]))
      && forall k :: 0 <= k < j ==> given.held[k] != given.held[j]
  }

  /** The log has one terminal marker, and it is the last. */
  predicate EndsOnce(log: seq<Mark>) {
    log != [] && IsTerminal(log[|log| - 1]) && forall k :: 0 <= k < |log| - 1 ==> !IsTerminal(log[k])
  }

  // ---------------------------------------------------------------- which holds survive

  /** What is on hold after an install that unpacked some packages and put some holds back. */
  function HoldsAfter(onHold: set<Name>, unpacked: set<Name>, putBack: set<Name>): set<Name> {
    onHold - unpacked + putBack
  }

  /** A run that put the holds back leaves them as they were when the install began exactly when it unpacked no
      package that was on hold and not installed, but for those it puts back, and the owner lifted none of those
      while it downloaded. */
  lemma {:induction false} HoldsSurviveExactly(names: set<Name>, installed: set<Name>, onHold: set<Name>, unpacked: set<Name>, heldStart: set<Name>)
    requires unpacked <= names && names * onHold * installed <= heldStart
    ensures HoldsAfter(onHold, unpacked, heldStart) == onHold
       <==> unpacked * onHold - installed <= heldStart && heldStart <= onHold
    ensures onHold * installed <= HoldsAfter(onHold, unpacked, heldStart)
  {
  }

  /** A new package that the owner put on hold before it was ever installed loses that hold, and a hold that the
      owner lifted during the download is put back. */
  lemma {:induction false} HoldsThatChange(added: Name, lifted: Name)
    requires added != lifted
    ensures HoldsAfter({added}, {added, lifted}, {lifted}) == {lifted}
  {
  }
}
