/** Launching the attempts of an upgrade of the operating system: the log in which an attempt's number is taken
    before its unit is asked for, however many launchers there are and whenever the core is lost.

    Whether the end of a unit decided its run for good depends on the machine and the clock when the log is read,
    so every reading has an oracle of its own, by place in the log. What else the reducer says is a parameter. */
module UpgradeLaunch {

  datatype Option<T> = None | Some(value: T)

  datatype Kind = RefreshRun | RehearsalRun | HopRun

  datatype Phase = Refresh | Rehearse | Run | Recover | Verify | Unwind

  /** The lines of the log of a run that has been opened. */
  datatype Mark =
    | Attempt(n: nat, phase: Phase)
    | StartFailed(n: nat)
    | UnitStart(n: nat, phase: Phase)
    | UnitEnd(n: nat)
    | Takeover
    | Other

  type Log = seq<Mark>
  type Oracle = nat -> bool

  /** Whether a run of this kind can have an attempt of this phase as its next one. */
  predicate PhaseFits(kind: Kind, phase: Phase, first: bool) {
    match kind
    case RefreshRun => (phase.Refresh? && first) || (phase.Unwind? && !first)
    case RehearsalRun => (phase.Rehearse? && first) || (phase.Unwind? && !first)
    case HopRun => (phase.Run? && first) || (!first && (phase.Recover? || phase.Verify? || phase.Unwind?))
  }

  // ---------------------------------------------------------------- reading the log

  /** What a log comes to: how many attempts it counts, how the last of them stands, and whether the run was
      decided for good, after which nothing is counted. */
  datatype View = View(count: nat, phase: Phase, started: bool, failed: bool, ended: bool, sealed: bool)

  function Add(kind: Kind, v: View, m: Mark, seals: bool): View {
    if v.sealed then v
    else match m
      case Attempt(n, phase) =>
        if n == v.count + 1 && PhaseFits(kind, phase, v.count == 0) then View(n, phase, false, false, false, false) else v
      case StartFailed(n) => if 0 < v.count == n && !v.started then v.(failed := true) else v
      case UnitStart(n, phase) =>
        if 0 < v.count == n && !v.started && phase == v.phase then v.(started := true, failed := false) else v
      case UnitEnd(n) => if 0 < v.count == n && v.started && !v.ended then v.(ended := true, sealed := seals) else v
      case Takeover => v.(sealed := true)
      case Other => v
  }

  function Scan(kind: Kind, log: Log, seals: Oracle): View {
    if log == [] then View(0, Refresh, false, false, false, false)
    else Add(kind, Scan(kind, log[..|log| - 1], seals), log[|log| - 1], seals(|log| - 1))
  }

  function Never(): Oracle {
    n => false
  }

  /** How many attempts the log counts, when no end decides the run. */
  function Counted(kind: Kind, log: Log): nat {
    Scan(kind, log, Never()).count
  }

  lemma {:induction false} ScanSnoc(kind: Kind, log: Log, m: Mark, seals: Oracle)
    ensures Scan(kind, log + [m], seals) == Add(kind, Scan(kind, log, seals), m, seals(|log|))
  {
    assert (log + [m])[..|log|] == log;
  }

  /** A reading that finds the run undecided reads the same whatever the machine and the clock say. */
  lemma {:induction false} UndecidedIsTheSame(kind: Kind, log: Log, seals: Oracle)
    requires !Scan(kind, log, seals).sealed
    ensures Scan(kind, log, seals) == Scan(kind, log, Never())
  {
    if log != [] {
      UndecidedIsTheSame(kind, log[..|log| - 1], seals);
    }
  }

  /** The number of the next attempt, when the log would take one of this phase. */
  function Admitted(kind: Kind, read: Log, phase: Phase, seals: Oracle): Option<nat> {
    var n := Scan(kind, read, seals).count + 1;
    if n > 999 || Scan(kind, read + [Attempt(n, phase)], seals).count + 1 != n + 1 then None else Some(n)
  }

  /** A number is admitted only when it is one more than any reading of the log has counted. */
  lemma {:induction false} AdmittedIsNew(kind: Kind, log: Log, phase: Phase, seals: Oracle)
    requires Admitted(kind, log, phase, seals).Some?
    ensures
      var n := Admitted(kind, log, phase, seals).value;
      n == Counted(kind, log) + 1 && n == Counted(kind, log + [Attempt(n, phase)])
  {
    var n := Admitted(kind, log, phase, seals).value;
    ScanSnoc(kind, log, Attempt(n, phase), seals);
    UndecidedIsTheSame(kind, log, seals);
    ScanSnoc(kind, log, Attempt(n, phase), Never());
  }

  /** Whether the part of a log that is read counts every attempt that the whole counts, and hides no end of it. */
  predicate SeesAll(kind: Kind, log: Log, limit: nat) {
    && Counted(kind, log) == Counted(kind, Read(log, limit))
    && (Scan(kind, log, Never()).sealed ==> Scan(kind, Read(log, limit), Never()).sealed)
  }

  /** A number that is admitted by the part that is read is new to the whole log, and counted in it once its line is
      there, exactly when that part hides nothing; when it hides an attempt, the number is one that the log has. */
  lemma {:induction false} NumberIsNewExactly(kind: Kind, log: Log, limit: nat, phase: Phase, seals: Oracle)
    requires Admitted(kind, Read(log, limit), phase, seals).Some?
    ensures
      var n := Admitted(kind, Read(log, limit), phase, seals).value;
      && (n == Counted(kind, log) + 1 && n == Counted(kind, log + [Attempt(n, phase)]) <==> SeesAll(kind, log, limit))
      && (Counted(kind, log) != Counted(kind, Read(log, limit)) <==> n <= Counted(kind, log))
      && (n <= Counted(kind, log) ==> exists again :: Attempt(n, again) in log)
  {
    var read := Read(log, limit);
    var n := Admitted(kind, read, phase, seals).value;
    AdmittedIsNew(kind, read, phase, seals);
    ScanSnoc(kind, read, Attempt(n, phase), seals);
    UndecidedIsTheSame(kind, read, seals);
    ScanSnoc(kind, log, Attempt(n, phase), Never());
    assert log == read + log[|read|..];
    CountedGrows(kind, read, log[|read|..]);
    if n <= Counted(kind, log) {
      CountedIsThere(kind, log, n);
    }
  }

  lemma {:induction false} CountedGrows(kind: Kind, log: Log, more: Log)
    ensures Counted(kind, log) <= Counted(kind, log + more)
    decreases |more|
  {
    if more == [] {
      assert log + more == log;
    } else {
      var last := more[|more| - 1];
      CountedGrows(kind, log, more[..|more| - 1]);
      assert log + more == log + more[..|more| - 1] + [last];
      ScanSnoc(kind, log + more[..|more| - 1], last, Never());
    }
  }

  /** Every number up to the count has its line. */
  lemma {:induction false} CountedIsThere(kind: Kind, log: Log, n: nat)
    requires 1 <= n <= Counted(kind, log)
    ensures exists phase :: Attempt(n, phase) in log
  {
    var before, last := log[..|log| - 1], log[|log| - 1];
    if n <= Counted(kind, before) {
      CountedIsThere(kind, before, n);
      var phase :| Attempt(n, phase) in before;
      assert Attempt(n, phase) in log;
    } else {
      assert last.Attempt? && last.n == n;
      assert Attempt(n, last.phase) in log;
    }
  }

  /** A number is admitted exactly while the run is not decided, has numbers left, and takes this phase next: its own one
      first, and then the undoing, or of a hop the three phases that can follow. */
  lemma {:induction false} AdmittedExactly(kind: Kind, log: Log, phase: Phase, seals: Oracle)
    ensures
      var v := Scan(kind, log, seals);
      && (Admitted(kind, log, phase, seals).Some? <==>
            && !v.sealed && v.count < 999
            && match kind
               case RefreshRun => phase == if v.count == 0 then Refresh else Unwind
               case RehearsalRun => phase == if v.count == 0 then Rehearse else Unwind
               case HopRun => if v.count == 0 then phase == Run else phase in {Recover, Verify, Unwind})
      && (Admitted(kind, log, phase, seals).Some? ==> Admitted(kind, log, phase, seals).value == v.count + 1)
  {
    ScanSnoc(kind, log, Attempt(Scan(kind, log, seals).count + 1, phase), seals);
  }

  // ---------------------------------------------------------------- one launch

  /** What a launcher finds: whether the run can be read and the machine can start units, whether systemd answered
      that no unit runs, whether the reducer says that no attempt is on its way and that the run is open, whether
      the files are those that were written, and whether there is a list of blocks and it can be written. */
  datatype Found = Found(canRead: bool, isSupported: bool, unitFree: bool, idle: bool, isOpen: bool, verifies: bool,
                         hasList: bool, writesList: bool)

  /** How a line is appended: it fails, it is written but the call says it failed, or it is written. */
  datatype Append = Fails | FailsWritten | Works

  datatype Answer = UnitBusy | NotAllowed | Unsupported | Damaged | NothingToRun | Broken | Prepared(n: nat)

  /** The part of a log that is read. */
  function Read(log: Log, limit: nat): Log {
    if |log| <= limit then log else log[..limit]
  }

  /** Whether the reducer says that an attempt is on its way. A log that is longer than it is read is a damaged run
      to it, which needs attention and is on no way. */
  predicate IsLive(log: Log, limit: nat, found: Found) {
    |log| <= limit && !found.idle
  }

  /** The lines a launch adds to the log, and what it answers. */
  function Prepare(kind: Kind, log: Log, limit: nat, phase: Phase, seals: Oracle, found: Found, append: Append): (Log, Answer) {
    if !found.canRead then ([], Broken)
    else if !found.isSupported then ([], Unsupported)
    else if !found.unitFree || IsLive(log, limit, found) then ([], UnitBusy)
    else if !found.isOpen then ([], NotAllowed)
    else match Admitted(kind, Read(log, limit), phase, seals)
      case None => ([], NotAllowed)
      case Some(n) =>
        if !found.verifies then
          (if append.Fails? then [] else if append.FailsWritten? then [Attempt(n, phase)] else [Attempt(n, phase), StartFailed(n)], Damaged)
        else if !found.hasList then ([], NothingToRun)
        else if !found.writesList then ([], Broken)
        else match append
          case Fails => ([], Broken)
          case FailsWritten => ([Attempt(n, phase)], Broken)
          case Works => ([Attempt(n, phase)], Prepared(n))
  }

  /** Whether an attempt may take its number: the run can be read and the machine can start units, systemd answered that
      none runs, no attempt is on its way, or the log is too long to say, the run is open, and its log takes the phase. */
  predicate MayTake(kind: Kind, log: Log, limit: nat, phase: Phase, seals: Oracle, found: Found) {
    && found.canRead && found.isSupported && found.unitFree && (|log| > limit || found.idle) && found.isOpen
    && Admitted(kind, Read(log, limit), phase, seals).Some?
  }

  /** Whether it may be launched: its files are those that were written, and its list of blocks is there and written. */
  predicate MayLaunch(kind: Kind, log: Log, limit: nat, phase: Phase, seals: Oracle, found: Found) {
    MayTake(kind, log, limit, phase, seals, found) && found.verifies && found.hasList && found.writesList
  }

  /** When a launch is prepared, and for what it is refused; and what the log is told. */
  lemma {:induction false} PreparedExactly(kind: Kind, log: Log, limit: nat, phase: Phase, seals: Oracle, found: Found, append: Append)
    ensures
      var (more, answer) := Prepare(kind, log, limit, phase, seals, found, append);
      && (answer.Prepared? <==> MayLaunch(kind, log, limit, phase, seals, found) && append.Works?)
      && (found.canRead && found.isSupported && (!found.unitFree || (|log| <= limit && !found.idle)) ==> answer == UnitBusy)
      && (answer == Damaged <==> MayTake(kind, log, limit, phase, seals, found) && !found.verifies)
      && (more != [] <==>
            && !append.Fails? && MayTake(kind, log, limit, phase, seals, found)
            && (found.verifies ==> MayLaunch(kind, log, limit, phase, seals, found)))
      && (more != [] ==>
            var n := Scan(kind, Read(log, limit), seals).count + 1;
            more == [Attempt(n, phase)] + if found.verifies || !append.Works? then [] else [StartFailed(n)])
  {
    AdmittedExactly(kind, Read(log, limit), phase, seals);
    assert forall more: Log :: more + [] == more;
  }

  /** A run's log, the count of the launches that are under way, and the calls of systemd-run. */
  class Engine {
    const kind: Kind
    const limit: nat
    var log: Log
    var launching: int
    var calls: seq<nat>

    /** The locked part of a launch. */
    method LaunchPrepareLocked(phase: Phase, seals: Oracle, found: Found, append: Append) returns (answer: Answer)
      modifies this`log, this`launching
      ensures log == old(log) + Prepare(kind, old(log), limit, phase, seals, found, append).0
      ensures answer == Prepare(kind, old(log), limit, phase, seals, found, append).1
      ensures launching == old(launching) + if answer.Prepared? then 1 else 0
      ensures answer.Prepared? <==> MayLaunch(kind, old(log), limit, phase, seals, found) && append.Works?
      ensures !MayTake(kind, old(log), limit, phase, seals, found) ==> log == old(log)
    {
      PreparedExactly(kind, log, limit, phase, seals, found, append);
      if !found.canRead {
        return Broken;
      }
      var read := if |log| <= limit then log else log[..limit];
      if !found.isSupported {
        return Unsupported;
      }
      if !found.unitFree {
        return UnitBusy;
      }
      if |log| <= limit && !found.idle {
        return UnitBusy;
      }
      if !found.isOpen {
        return NotAllowed;
      }
      var n := Scan(kind, read, seals).count + 1;
      var attempt := Attempt(n, phase);
      if n > 999 || Scan(kind, read + [attempt], seals).count + 1 != n + 1 {
        return NotAllowed;
      }
      if !found.verifies {
        if !append.Fails? {
          log := log + [attempt];
        }
        if append.Works? {
          log := log + [StartFailed(n)];
        }
        return Damaged;
      }
      if !found.hasList {
        return NothingToRun;
      }
      if !found.writesList {
        return Broken;
      }
      if !append.Fails? {
        log := log + [attempt];
      }
      if !append.Works? {
        return Broken;
      }
      launching := launching + 1;
      return Prepared(n);
    }

    /** The call of systemd-run for a number that is in the log: `starts` is whether it reports no error, `told`
        whether systemd then answers that it has no such unit. */
    method LaunchRun(n: nat, starts: bool, told: bool, append: Append) returns (ok: bool)
      modifies this
      ensures ok <==> starts || !told
      ensures log == old(log) + if ok || append.Fails? then [] else [StartFailed(n)]
      ensures launching == old(launching) - 1 && calls == old(calls) + [n]
    {
      calls := calls + [n];
      ok := starts || !told;
      if !ok && !append.Fails? {
        log := log + [StartFailed(n)];
      }
      launching := launching - 1;
    }

    /** One launch from its lock to its end, with the other lines that are appended to the log in between: whatever
        comes of it, the counter is what it was, and its unit is asked for exactly when it was prepared, with a
        number that is in the log by then and that no call had before, if the log that was read hides no attempt. */
    method LaunchAttempt(phase: Phase, seals: Oracle, found: Found, append: Append, meanwhile: Log,
                         starts: bool, told: bool, appendFailed: Append)
      returns (answer: Answer, ok: bool)
      requires forall i :: 0 <= i < |calls| ==> calls[i] <= Counted(kind, log)
      modifies this
      ensures launching == old(launching) && old(log) <= log
      ensures answer.Prepared? <==> MayLaunch(kind, old(log), limit, phase, seals, found) && append.Works?
      ensures !answer.Prepared? ==> !ok && calls == old(calls)
      ensures answer.Prepared? ==>
        && calls == old(calls) + [answer.n] && Attempt(answer.n, phase) in log && (ok <==> starts || !told)
        && (SeesAll(kind, old(log), limit) ==> answer.n !in old(calls))
    {
      answer := LaunchPrepareLocked(phase, seals, found, append);
      ok := false;
      if answer.Prepared? {
        NumberIsNewExactly(kind, old(log), limit, phase, seals);
        assert log[|log| - 1] == Attempt(answer.n, phase);
        log := log + meanwhile;
        ok := LaunchRun(answer.n, starts, told, appendFailed);
      }
    }
  }

  // ---------------------------------------------------------------- every launcher

  datatype Book = Book(kind: Kind, log: Log)

  /** A number of a run. */
  datatype Ticket = Ticket(run: nat, n: nat)

  datatype Launch = Launch(ticket: Ticket, called: bool)

  /** The runs, the callers that decided on a launch and the run each decided on, the launches that were prepared
      and have not returned, the counter of them, and every call of systemd-run that was ever made. */
  datatype System = System(limit: nat, books: map<nat, Book>, deciders: map<nat, nat>, launches: map<nat, Launch>,
                           launching: int, calls: seq<Ticket>)

  datatype Step =
    | Open(run: nat, kind: Kind)
    | Note(run: nat, mark: Mark)
    | Decide(id: nat, run: nat)
    | Begin(id: nat, phase: Phase, seals: Oracle, found: Found, append: Append)
    | CallUnit(id: nat)
    | Return(id: nat, isTold: bool)
    | Lose

  predicate Enabled(s: System, step: Step) {
    match step
    case Open(run, _) => run !in s.books
    case Note(run, mark) => run in s.books && !mark.Attempt?
    // a caller looks at the run first, and a log that is longer than it is read is a damaged run, on which none decides
    case Decide(id, run) => run in s.books && id !in s.deciders && |s.books[run].log| <= s.limit
    case Begin(id, _, _, _, _) => id in s.deciders && id !in s.launches && s.deciders[id] in s.books
    case CallUnit(id) => id in s.launches && !s.launches[id].called
    case Return(id, _) => id in s.launches && s.launches[id].called && s.launches[id].ticket.run in s.books
    case Lose => true
  }

  function Noted(s: System, run: nat, more: Log): map<nat, Book>
    requires run in s.books
  {
    s.books[run := s.books[run].(log := s.books[run].log + more)]
  }

  function Apply(s: System, step: Step): System
    requires Enabled(s, step)
  {
    match step
    case Open(run, kind) => s.(books := s.books[run := Book(kind, [])])
    case Note(run, mark) => s.(books := Noted(s, run, [mark]))
    case Decide(id, run) => s.(deciders := s.deciders[id := run])
    case Begin(id, phase, seals, found, append) =>
      var run := s.deciders[id];
      var book, deciders := s.books[run], s.deciders - {id};
      var (more, answer) := Prepare(book.kind, book.log, s.limit, phase, seals, found, append);
      if answer.Prepared?
      then s.(books := Noted(s, run, more), deciders := deciders,
              launches := s.launches[id := Launch(Ticket(run, answer.n), false)], launching := s.launching + 1)
      else s.(books := Noted(s, run, more), deciders := deciders)
    case CallUnit(id) =>
      s.(launches := s.launches[id := s.launches[id].(called := true)], calls := s.calls + [s.launches[id].ticket])
    case Return(id, isTold) =>
      var ticket := s.launches[id].ticket;
      s.(books := if isTold then Noted(s, ticket.run, [StartFailed(ticket.n)]) else s.books,
         launches := s.launches - {id}, launching := s.launching - 1)
    case Lose => s.(deciders := map[], launches := map[], launching := 0)
  }

  predicate IsInit(s: System) {
    s.books == map[] && s.deciders == map[] && s.launches == map[] && s.launching == 0 && s.calls == []
  }

  ghost predicate Leads(s: System, t: System) {
    exists step :: Enabled(s, step) && t == Apply(s, step)
  }

  ghost predicate LeadsAt(run: seq<System>, i: nat) {
    i + 1 < |run| && Leads(run[i], run[i + 1])
  }

  ghost predicate IsRun(run: seq<System>) {
    forall i :: 0 <= i < |run| - 1 ==> LeadsAt(run, i)
  }

  /** What is read of the log of every run on which a caller decided hides nothing. */
  ghost predicate AllSeen(s: System) {
    forall id :: id in s.deciders && s.deciders[id] in s.books ==>
      SeesAll(s.books[s.deciders[id]].kind, s.books[s.deciders[id]].log, s.limit)
  }

  /** The number is in the log of its run. */
  ghost predicate IsLogged(books: map<nat, Book>, t: Ticket) {
    t.run in books && exists phase :: Attempt(t.n, phase) in books[t.run].log
  }

  /** What holds whatever the logs hide: the number is in the log before its unit is asked for, and the counter is
      the number of launches that were prepared and have not returned. */
  ghost predicate BaseInv(s: System) {
    && s.launching == |s.launches|
    && (forall id :: id in s.launches ==> IsLogged(s.books, s.launches[id].ticket))
    && forall i :: 0 <= i < |s.calls| ==> IsLogged(s.books, s.calls[i])
  }

  /** The number is taken in the log of its run, and counted. */
  ghost predicate IsTaken(books: map<nat, Book>, t: Ticket) {
    && t.run in books && t.n <= Counted(books[t.run].kind, books[t.run].log)
    && exists phase :: Attempt(t.n, phase) in books[t.run].log
  }

  ghost predicate AllTaken(s: System) {
    && (forall id :: id in s.launches ==> IsTaken(s.books, s.launches[id].ticket))
    && forall i :: 0 <= i < |s.calls| ==> IsTaken(s.books, s.calls[i])
  }

  ghost predicate TicketsAreOwn(launches: map<nat, Launch>, calls: seq<Ticket>) {
    && (forall a, b :: a in launches && b in launches && a != b ==> launches[a].ticket != launches[b].ticket)
    && (forall id :: id in launches && !launches[id].called ==> launches[id].ticket !in calls)
    && forall i, j :: 0 <= i < j < |calls| ==> calls[i] != calls[j]
  }

  ghost predicate Inv(s: System) {
    AllTaken(s) && TicketsAreOwn(s.launches, s.calls)
  }

  lemma {:induction false} TakenStays(books: map<nat, Book>, run: nat, mark: Mark, t: Ticket)
    requires run in books && IsTaken(books, t)
    ensures IsTaken(books[run := books[run].(log := books[run].log + [mark])], t)
  {
  }

  /** A line more in one log keeps what is taken. */
  lemma {:induction false} NoteKeepsTaken(s: System, run: nat, mark: Mark, t: System)
    requires AllTaken(s) && run in s.books && t == s.(books := Noted(s, run, [mark]))
    ensures AllTaken(t)
  {
    forall id | id in s.launches
      ensures IsTaken(t.books, s.launches[id].ticket)
    {
      TakenStays(s.books, run, mark, s.launches[id].ticket);
    }
    forall i | 0 <= i < |s.calls|
      ensures IsTaken(t.books, s.calls[i])
    {
      TakenStays(s.books, run, mark, s.calls[i]);
    }
  }

  lemma {:induction false} NotesKeepTaken(s: System, run: nat, more: Log, t: System)
    requires AllTaken(s) && run in s.books && t == s.(books := Noted(s, run, more))
    ensures AllTaken(t)
    decreases |more|
  {
    var log := s.books[run].log;
    if more == [] {
      assert log + [] == log && s.books[run := s.books[run]] == s.books;
    } else {
      var taken := s.(books := Noted(s, run, [more[0]]));
      NoteKeepsTaken(s, run, more[0], taken);
      assert log + [more[0]] + more[1..] == log + more;
      assert Noted(taken, run, more[1..]) == Noted(s, run, more);
      NotesKeepTaken(taken, run, more[1..], t);
    }
  }

  /** A number just taken is no launch's and was never called. */
  lemma {:induction false} NewTicket(s: System, run: nat, phase: Phase, seals: Oracle, taken: System)
    requires Inv(s) && run in s.books && Admitted(s.books[run].kind, Read(s.books[run].log, s.limit), phase, seals).Some?
    requires SeesAll(s.books[run].kind, s.books[run].log, s.limit)
    requires
      var n := Admitted(s.books[run].kind, Read(s.books[run].log, s.limit), phase, seals).value;
      taken == s.(books := Noted(s, run, [Attempt(n, phase)]))
    ensures
      var t := Ticket(run, Admitted(s.books[run].kind, Read(s.books[run].log, s.limit), phase, seals).value);
      && IsTaken(taken.books, t) && t !in s.calls && forall id :: id in s.launches ==> s.launches[id].ticket != t
  {
    var n := Admitted(s.books[run].kind, Read(s.books[run].log, s.limit), phase, seals).value;
    NumberIsNewExactly(s.books[run].kind, s.books[run].log, s.limit, phase, seals);
    var log := s.books[run].log + [Attempt(n, phase)];
    assert log[|log| - 1] == Attempt(n, phase);
    assert forall t :: IsTaken(s.books, t) && t.run == run ==> t.n < n;
  }

  lemma {:induction false} OneMore<K, V>(m: map<K, V>, k: K, v: V)
    ensures |m[k := v]| == if k in m then |m| else |m| + 1
  {
    assert m[k := v].Keys == m.Keys + {k};
    assert |m[k := v]| == |m[k := v].Keys| && |m| == |m.Keys|;
  }

  lemma {:induction false} OwnTicketAdded(launches: map<nat, Launch>, calls: seq<Ticket>, id: nat, ticket: Ticket)
    requires TicketsAreOwn(launches, calls) && ticket !in calls && id !in launches
    requires forall other :: other in launches ==> launches[other].ticket != ticket
    ensures TicketsAreOwn(launches[id := Launch(ticket, false)], calls)
  {
  }

  lemma {:induction false} OwnTicketCalled(launches: map<nat, Launch>, calls: seq<Ticket>, id: nat)
    requires TicketsAreOwn(launches, calls) && id in launches && !launches[id].called
    ensures TicketsAreOwn(launches[id := launches[id].(called := true)], calls + [launches[id].ticket])
  {
  }

  lemma {:induction false} LaunchIsTaken(s: System, id: nat, ticket: Ticket, called: bool, t: System)
    requires AllTaken(s) && IsTaken(s.books, ticket)
    requires t == s.(launches := s.launches[id := Launch(ticket, called)], deciders := t.deciders, launching := t.launching, calls := t.calls)
    requires t.calls == s.calls || t.calls == s.calls + [ticket]
    ensures AllTaken(t)
  {
  }

  lemma {:induction false} LaunchKeepsInv(s: System, id: nat, run: nat, n: nat, more: Log, t: System)
    requires Inv(s) && id !in s.launches && run in s.books
    requires t.books == Noted(s, run, more) && t.launches == s.launches[id := Launch(Ticket(run, n), false)] && t.calls == s.calls
    requires t.limit == s.limit && IsTaken(t.books, Ticket(run, n)) && Ticket(run, n) !in s.calls
    requires forall id :: id in s.launches ==> s.launches[id].ticket != Ticket(run, n)
    ensures Inv(t)
  {
    var noted := s.(books := Noted(s, run, more));
    NotesKeepTaken(s, run, more, noted);
    LaunchIsTaken(noted, id, Ticket(run, n), false, t);
    OwnTicketAdded(s.launches, s.calls, id, Ticket(run, n));
  }

  lemma {:induction false} BeginKeepsInv(s: System, step: Step)
    requires Inv(s) && AllSeen(s) && Enabled(s, step) && step.Begin?
    ensures Inv(Apply(s, step))
  {
    var run, t := s.deciders[step.id], Apply(s, step);
    var book := s.books[run];
    var (more, answer) := Prepare(book.kind, book.log, s.limit, step.phase, step.seals, step.found, step.append);
    if answer.Prepared? {
      assert more == [Attempt(answer.n, step.phase)];
      NewTicket(s, run, step.phase, step.seals, s.(books := Noted(s, run, more)));
      LaunchKeepsInv(s, step.id, run, answer.n, more, t);
    } else {
      NotesKeepTaken(s, run, more, s.(books := Noted(s, run, more)));
    }
  }

  lemma {:induction false} ReturnKeepsInv(s: System, step: Step)
    requires Inv(s) && Enabled(s, step) && step.Return?
    ensures Inv(Apply(s, step))
  {
    var ticket := s.launches[step.id].ticket;
    if step.isTold {
      NoteKeepsTaken(s, ticket.run, StartFailed(ticket.n), s.(books := Noted(s, ticket.run, [StartFailed(ticket.n)])));
    }
  }

  lemma {:induction false} CallKeepsInv(s: System, step: Step)
    requires Inv(s) && Enabled(s, step) && step.CallUnit?
    ensures Inv(Apply(s, step))
  {
    LaunchIsTaken(s, step.id, s.launches[step.id].ticket, true, Apply(s, step));
    OwnTicketCalled(s.launches, s.calls, step.id);
  }

  lemma {:induction false} OpenKeepsInv(s: System, step: Step)
    requires Inv(s) && Enabled(s, step) && step.Open?
    ensures Inv(Apply(s, step))
  {
    var t := Apply(s, step);
    assert forall ticket :: IsTaken(s.books, ticket) ==> IsTaken(t.books, ticket);
  }

  lemma {:induction false} StepKeepsInv(s: System, t: System)
    requires Inv(s) && AllSeen(s) && Leads(s, t)
    ensures Inv(t)
  {
    var step :| Enabled(s, step) && t == Apply(s, step);
    match step
    case Open(_, _) => OpenKeepsInv(s, step);
    case Note(run, mark) => NoteKeepsTaken(s, run, mark, t);
    case Decide(_, _) =>
    case Begin(_, _, _, _, _) => BeginKeepsInv(s, step);
    case CallUnit(_) => CallKeepsInv(s, step);
    case Return(_, _) => ReturnKeepsInv(s, step);
    case Lose =>
  }

  /** Lines are only ever added. */
  ghost predicate Longer(books: map<nat, Book>, after: map<nat, Book>) {
    forall run :: run in books ==> run in after && books[run].log <= after[run].log
  }

  lemma {:induction false} LoggedStays(books: map<nat, Book>, after: map<nat, Book>, t: Ticket)
    requires Longer(books, after) && IsLogged(books, t)
    ensures IsLogged(after, t)
  {
    var phase :| Attempt(t.n, phase) in books[t.run].log;
    var i :| 0 <= i < |books[t.run].log| && books[t.run].log[i] == Attempt(t.n, phase);
    assert after[t.run].log[i] == Attempt(t.n, phase);
  }

  lemma {:induction false} StepAddsLines(s: System, step: Step)
    requires Enabled(s, step)
    ensures Longer(s.books, Apply(s, step).books)
  {
  }

  lemma {:induction false} NewIsLogged(s: System, step: Step)
    requires Enabled(s, step) && step.Begin? && step.id in Apply(s, step).launches
    ensures IsLogged(Apply(s, step).books, Apply(s, step).launches[step.id].ticket)
  {
    var t, run := Apply(s, step), s.deciders[step.id];
    var log := t.books[run].log;
    assert log[|log| - 1].Attempt?;
    assert Attempt(t.launches[step.id].ticket.n, step.phase) in log;
  }

  lemma {:induction false} OneLess<K, V>(m: map<K, V>, k: K)
    requires k in m
    ensures |m - {k}| == |m| - 1
  {
    assert (m - {k}).Keys == m.Keys - {k};
    assert |m - {k}| == |(m - {k}).Keys| && |m| == |m.Keys|;
  }

  lemma {:induction false} StepKeepsCounter(s: System, step: Step)
    requires Enabled(s, step) && s.launching == |s.launches|
    ensures Apply(s, step).launching == |Apply(s, step).launches|
  {
    match step
    case Begin(id, _, _, _, _) =>
      if id in Apply(s, step).launches {
        OneMore(s.launches, id, Apply(s, step).launches[id]);
      }
    case CallUnit(id) => OneMore(s.launches, id, s.launches[id].(called := true));
    case Return(id, _) => OneLess(s.launches, id);
    case _ =>
  }

  /** A launch was there before, or has just been prepared; and a call is one of a launch that was there. */
  ghost predicate ComesFrom(s: System, t: System, made: Option<nat>) {
    && (forall id :: id in t.launches ==> made == Some(id) || (id in s.launches && t.launches[id].ticket == s.launches[id].ticket))
    && (t.calls == s.calls || exists id :: id in s.launches && t.calls == s.calls + [s.launches[id].ticket])
  }

  lemma {:induction false} LaunchesComeFrom(s: System, step: Step)
    requires Enabled(s, step)
    ensures ComesFrom(s, Apply(s, step), if step.Begin? then Some(step.id) else None)
  {
  }

  lemma {:induction false} AllStayLogged(s: System, books: map<nat, Book>)
    requires BaseInv(s) && Longer(s.books, books)
    ensures forall id :: id in s.launches ==> IsLogged(books, s.launches[id].ticket)
    ensures forall i :: 0 <= i < |s.calls| ==> IsLogged(books, s.calls[i])
  {
    forall id | id in s.launches
      ensures IsLogged(books, s.launches[id].ticket)
    {
      LoggedStays(s.books, books, s.launches[id].ticket);
    }
    forall i | 0 <= i < |s.calls|
      ensures IsLogged(books, s.calls[i])
    {
      LoggedStays(s.books, books, s.calls[i]);
    }
  }

  lemma {:induction false} BaseFrom(s: System, t: System, made: Option<nat>)
    requires BaseInv(s) && ComesFrom(s, t, made) && t.launching == |t.launches| && Longer(s.books, t.books)
    requires made.Some? && made.value in t.launches ==> IsLogged(t.books, t.launches[made.value].ticket)
    ensures BaseInv(t)
  {
    AllStayLogged(s, t.books);
  }

  lemma {:induction false} StepKeepsBase(s: System, t: System)
    requires BaseInv(s) && Leads(s, t)
    ensures BaseInv(t)
  {
    var step :| Enabled(s, step) && t == Apply(s, step);
    StepKeepsCounter(s, step);
    StepAddsLines(s, step);
    LaunchesComeFrom(s, step);
    if step.Begin? && step.id in t.launches {
      NewIsLogged(s, step);
    }
    BaseFrom(s, t, if step.Begin? then Some(step.id) else None);
  }

  lemma {:induction false} RunKeepsBase(run: seq<System>, i: nat)
    requires i < |run| && IsRun(run) && IsInit(run[0])
    ensures BaseInv(run[i])
  {
    if i > 0 {
      RunKeepsBase(run, i - 1);
      assert LeadsAt(run, i - 1);
      StepKeepsBase(run[i - 1], run[i]);
    }
  }

  lemma {:induction false} RunKeepsInv(run: seq<System>, i: nat)
    requires i < |run| && IsRun(run) && IsInit(run[0]) && forall j :: 0 <= j < i ==> AllSeen(run[j])
    ensures Inv(run[i])
  {
    if i > 0 {
      RunKeepsInv(run, i - 1);
      assert LeadsAt(run, i - 1);
      StepKeepsInv(run[i - 1], run[i]);
    }
  }

  // ---------------------------------------------------------------- what is promised

  /** In every run, whatever is lost: a number is in the log of its run before its unit is asked for, and the counter
      is the number of launches that were prepared and have not returned. */
  lemma {:induction false} LoggedAndCounted(run: seq<System>, i: nat)
    requires i < |run| && IsRun(run) && IsInit(run[0])
    ensures run[i].launching == |run[i].launches|
    ensures forall id :: id in run[i].launches ==> IsLogged(run[i].books, run[i].launches[id].ticket)
    ensures forall a :: 0 <= a < |run[i].calls| ==> IsLogged(run[i].books, run[i].calls[a])
  {
    RunKeepsBase(run, i);
  }

  /** The unit of a number is asked for at most once, however many launchers there are and whenever the core is
      lost, as long as no launch is prepared on a log that hides an attempt past the part that is read. */
  lemma {:induction false} AtMostOnce(run: seq<System>, i: nat)
    requires i < |run| && IsRun(run) && IsInit(run[0]) && forall j :: 0 <= j < i ==> AllSeen(run[j])
    ensures forall a, b :: 0 <= a < b < |run[i].calls| ==> run[i].calls[a] != run[i].calls[b]
  {
    RunKeepsInv(run, i);
  }

  // ---------------------------------------------------------------- and when it is twice

  /** A launch that is begun in any run: it joins those under way, with the number of an attempt whose line is then the
      last of its log, exactly when it may be launched; and it does not while a unit runs or an attempt is on its way. */
  lemma {:induction false} BegunExactly(s: System, step: Step)
    requires Enabled(s, step) && step.Begin?
    ensures
      var book, t := s.books[s.deciders[step.id]], Apply(s, step);
      && (step.id in t.launches <==>
            MayLaunch(book.kind, book.log, s.limit, step.phase, step.seals, step.found) && step.append.Works?)
      && (!step.found.unitFree || (|book.log| <= s.limit && !step.found.idle) ==> t == s.(deciders := s.deciders - {step.id}))
      && (step.id in t.launches ==>
            && t.launches[step.id].ticket.run == s.deciders[step.id]
            && t.books[s.deciders[step.id]].log == book.log + [Attempt(t.launches[step.id].ticket.n, step.phase)])
  {
    var run := s.deciders[step.id];
    PreparedExactly(s.books[run].kind, s.books[run].log, s.limit, step.phase, step.seals, step.found, step.append);
    assert s.books[run].log + [] == s.books[run].log;
    assert s.books[run := s.books[run]] == s.books;
  }

  lemma {:induction false} Extended(run: seq<System>, step: Step) returns (more: seq<System>)
    requires |run| > 0 && IsRun(run) && Enabled(run[|run| - 1], step)
    ensures more == run + [Apply(run[|run| - 1], step)] && IsRun(more)
  {
    more := run + [Apply(run[|run| - 1], step)];
    forall i | 0 <= i < |more| - 1
      ensures LeadsAt(more, i)
    {
      if i < |run| - 1 {
        assert LeadsAt(run, i);
        assert more[i] == run[i] && more[i + 1] == run[i + 1];
      }
    }
  }

  function Others(n: nat): Log {
    seq(n, _ => Other)
  }

  /** The log of a hop whose first attempt ended, with so many other lines. */
  function EndedLog(others: nat): Log {
    [Attempt(1, Run), UnitStart(1, Run), UnitEnd(1)] + Others(others)
  }

  lemma {:induction false} EndedAlone()
    ensures Scan(HopRun, EndedLog(0), Never()) == View(1, Run, true, false, true, false)
  {
    var first, begun := [Attempt(1, Run)], [Attempt(1, Run)] + [UnitStart(1, Run)];
    assert EndedLog(0) == begun + [UnitEnd(1)];
    assert first == [] + [Attempt(1, Run)];
    ScanSnoc(HopRun, [], Attempt(1, Run), Never());
    ScanSnoc(HopRun, first, UnitStart(1, Run), Never());
    ScanSnoc(HopRun, begun, UnitEnd(1), Never());
  }

  lemma {:induction false} EndedCounts(others: nat)
    ensures Scan(HopRun, EndedLog(others), Never()) == View(1, Run, true, false, true, false)
  {
    if others == 0 {
      EndedAlone();
    } else {
      EndedCounts(others - 1);
      assert EndedLog(others) == EndedLog(others - 1) + [Other];
      ScanSnoc(HopRun, EndedLog(others - 1), Other, Never());
    }
  }

  const FREE := Found(true, true, true, true, true, true, true, true)

  /** Both read what was there before either wrote: a second attempt is admitted. */
  lemma {:induction false} SecondIsAdmitted(others: nat)
    ensures Admitted(HopRun, EndedLog(others), Recover, Never()) == Some(2)
  {
    EndedCounts(others);
    ScanSnoc(HopRun, EndedLog(others), Attempt(2, Recover), Never());
  }

  lemma {:induction false} FirstAttemptEnds(limit: nat) returns (run: seq<System>)
    requires limit >= 3
    ensures |run| > 0 && IsRun(run) && IsInit(run[0])
    ensures run[|run| - 1] == System(limit, map[0 := Book(HopRun, EndedLog(0))], map[], map[], 0, [Ticket(0, 1)])
  {
    run := [System(limit, map[], map[], map[], 0, [])];
    run := Extended(run, Open(0, HopRun));
    run := Extended(run, Decide(0, 0));
    var s := run[|run| - 1];
    assert [] + [Attempt(1, Run)] == [Attempt(1, Run)];
    ScanSnoc(HopRun, [], Attempt(1, Run), Never());
    assert Prepare(HopRun, [], limit, Run, Never(), FREE, Works) == ([Attempt(1, Run)], Prepared(1));
    run := Extended(run, Begin(0, Run, Never(), FREE, Works));
    run := Extended(run, CallUnit(0));
    run := Extended(run, Note(0, UnitStart(1, Run)));
    run := Extended(run, Return(0, false));
    run := Extended(run, Note(0, UnitEnd(1)));
    assert [] + [Attempt(1, Run)] + [UnitStart(1, Run)] + [UnitEnd(1)] == EndedLog(0);
  }

  lemma {:induction false} Filled(limit: nat, others: nat) returns (run: seq<System>)
    requires limit >= 3
    ensures |run| > 0 && IsRun(run) && IsInit(run[0])
    ensures run[|run| - 1] == System(limit, map[0 := Book(HopRun, EndedLog(others))], map[], map[], 0, [Ticket(0, 1)])
  {
    if others == 0 {
      run := FirstAttemptEnds(limit);
    } else {
      run := Filled(limit, others - 1);
      assert EndedLog(others - 1) + [Other] == EndedLog(others);
      run := Extended(run, Note(0, Other));
    }
  }

  /** Whatever length of a log is read, it can be: two callers that decided while a log was just as long launch the
      same number, the second on a log that has the first one's line past the part that is read. */
  lemma {:induction false} LongLogRepeats(limit: nat) returns (run: seq<System>)
    requires limit >= 3
    ensures |run| > 0 && IsRun(run) && IsInit(run[0])
    ensures
      var s := run[|run| - 1];
      s.limit == limit && |s.calls| == 3 && s.calls[1] == s.calls[2] == Ticket(0, 2)
  {
    var others := limit - 3;
    var log, once := EndedLog(others), EndedLog(others) + [Attempt(2, Recover)];
    run := Filled(limit, others);
    SecondIsAdmitted(others);
    run := Extended(run, Decide(1, 0));
    run := Extended(run, Decide(2, 0));
    assert |log| == limit && Read(log, limit) == log;
    assert Prepare(HopRun, log, limit, Recover, Never(), FREE, Works) == ([Attempt(2, Recover)], Prepared(2));
    run := Extended(run, Begin(1, Recover, Never(), FREE, Works));
    assert run[|run| - 1].books[0].log == once;
    assert Read(once, limit) == log;
    // though the first attempt is on its way, a run that reads as damaged is not one whose attempt is
    var onItsWay := FREE.(idle := false);
    assert Prepare(HopRun, once, limit, Recover, Never(), onItsWay, Works) == ([Attempt(2, Recover)], Prepared(2));
    run := Extended(run, Begin(2, Recover, Never(), onItsWay, Works));
    run := Extended(run, CallUnit(1));
    run := Extended(run, CallUnit(2));
  }
}
