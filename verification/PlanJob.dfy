/** The job that makes the plan of an upgrade: one slot, changed with no lock by requests that start a job, by the
    job, and by the owner who drops a plan. */
module PlanJob {

  datatype Kind = Idle | Running | Done | Failed

  /** What the slot points to. `ref` is its address: no two have one. `job` are the handles of a job that runs, by
      which it is cancelled and waited for. */
  datatype PlanState = PlanState(ref: nat, kind: Kind, phase: nat, job: nat)

  /** What is at an address. */
  datatype Stored = Stored(kind: Kind, phase: nat, job: nat)

  datatype Answer = AlreadyRunning | Refused | Started

  function StoredIn(state: PlanState): Stored {
    Stored(state.kind, state.phase, state.job)
  }

  function LastOf(was: Stored, changes: seq<Stored>): Stored {
    if changes == [] then was else changes[|changes| - 1]
  }

  predicate IsDisturbed(others: seq<seq<Stored>>, n: nat) {
    n < |others| && others[n] != []
  }

  /** What is in the slot before turn `n` of a request, by what others store alone. */
  function LeftBy(was: Stored, others: seq<seq<Stored>>, n: nat): Stored {
    if n == 0 then was
    else LastOf(LeftBy(was, others, n - 1), if n <= |others| then others[n - 1] else [])
  }

  /** The slot, and where the next address is. */
  class Slot {
    var state: PlanState
    var next: nat

    method CompareAndSwap(expected: PlanState, kind: Kind, phase: nat, job: nat) returns (swapped: bool)
      modifies this
      ensures swapped == (old(state).ref == expected.ref)
      ensures state == if swapped then PlanState(old(next), kind, phase, job) else old(state)
      ensures next == old(next) + 1
    {
      var made := PlanState(next, kind, phase, job);
      next := next + 1;
      swapped := state.ref == expected.ref;
      if swapped {
        state := made;
      }
    }

    method Store(kind: Kind, phase: nat, job: nat)
      modifies this
      ensures state == PlanState(old(next), kind, phase, job) && next == old(next) + 1
    {
      state := PlanState(next, kind, phase, job);
      next := next + 1;
    }

    /** What others store, in order, while a request is between its load and its swap. */
    method Interfere(changes: seq<Stored>)
      requires state.ref < next
      modifies this
      ensures old(next) <= next && state.ref < next
      ensures state.ref == old(state).ref <==> changes == []
      ensures StoredIn(state) == LastOf(StoredIn(old(state)), changes)
    {
      for i := 0 to |changes|
        invariant old(next) <= next && state.ref < next
        invariant if i == 0 then state == old(state) else state.ref >= old(next)
        invariant StoredIn(state) == LastOf(StoredIn(old(state)), changes[..i])
      {
        Store(changes[i].kind, changes[i].phase, changes[i].job);
      }
      assert changes[..|changes|] == changes;
    }

    /** A request that starts a job. `others[n]` is what others store during its turn `n`, `refuses` the answer when
        the machine is asked whether a plan can be made. The job is started in the first turn that nobody
        interfered with, unless a turn before it, or this one, began with a job running; a refusal is told in the
        first turn, and the machine is not asked again. Nothing is stored but the job that is started. */
    method Start(job: nat, refuses: bool, others: seq<seq<Stored>>) returns (answer: Answer, turns: nat)
      requires state.ref < next
      modifies this
      ensures forall n :: 0 <= n < turns ==> LeftBy(StoredIn(old(state)), others, n).kind != Running
      ensures match answer
        case AlreadyRunning =>
          && StoredIn(state) == LeftBy(StoredIn(old(state)), others, turns) && state.kind == Running
          && (refuses ==> turns == 0) && forall n :: 0 <= n < turns ==> IsDisturbed(others, n)
        case Refused => refuses && turns == 1 && StoredIn(state) == LeftBy(StoredIn(old(state)), others, 1)
        case Started =>
          && !refuses && turns > 0 && StoredIn(state) == Stored(Running, 0, job)
          && forall n :: 0 <= n < turns ==> (IsDisturbed(others, n) <==> n < turns - 1)
    {
      var asked := false;
      turns := 0;
      while true
        invariant state.ref < next && StoredIn(state) == LeftBy(StoredIn(old(state)), others, turns)
        invariant asked <==> turns > 0
        invariant asked ==> !refuses
        invariant forall n :: 0 <= n < turns ==> LeftBy(StoredIn(old(state)), others, n).kind != Running
        invariant forall n :: 0 <= n < turns ==> IsDisturbed(others, n)
        decreases |others| - turns
      {
        var seen := state;
        if seen.kind == Running {
          return AlreadyRunning, turns;
        }
        Interfere(if turns < |others| then others[turns] else []);
        turns := turns + 1;
        if !asked {
          if refuses {
            return Refused, turns;
          }
          asked := true;
        }
        var swapped := CompareAndSwap(seen, Running, 0, job);
        if swapped {
          return Started, turns;
        }
      }
    }

    /** The plan that is live is dropped, if one is. */
    method DropPlan() returns (dropped: bool)
      modifies this
      ensures dropped == (old(state).kind == Done)
      ensures dropped ==> state.kind == Idle
      ensures !dropped ==> state == old(state)
    {
      var seen := state;
      dropped := false;
      if seen.kind == Done {
        dropped := CompareAndSwap(seen, Idle, 0, 0);
      }
    }
  }

  // ---------------------------------------------------------------- every interleaving

  /** A request that has loaded the slot and not swapped it yet: one that starts a job, or drops a plan. */
  datatype Request = Starts(seen: PlanState) | Drops(seen: PlanState)

  /** `live` are the jobs that were started and have not stored how they ended. */
  datatype System = System(state: PlanState, next: nat, requests: map<nat, Request>, live: set<nat>, jobs: nat)

  datatype Step =
    | LoadToStart(id: nat)
    | SwapToStart(id: nat)
    | LoadToDrop(id: nat)
    | SwapToDrop(id: nat)
    | Progress(job: nat, phase: nat)
    | Finish(job: nat, ok: bool)

  predicate Enabled(s: System, step: Step) {
    match step
    case LoadToStart(id) => id !in s.requests
    case SwapToStart(id) => id in s.requests && s.requests[id].Starts?
    case LoadToDrop(id) => id !in s.requests
    case SwapToDrop(id) => id in s.requests && s.requests[id].Drops?
    case Progress(job, _) => job in s.live
    case Finish(job, _) => job in s.live
  }

  function Apply(s: System, step: Step): System
    requires Enabled(s, step)
  {
    match step
    case LoadToStart(id) => if s.state.kind == Running then s else s.(requests := s.requests[id := Starts(s.state)])
    case SwapToStart(id) =>
      var swapped := s.state.ref == s.requests[id].seen.ref;
      s.(state := if swapped then PlanState(s.next, Running, 0, s.jobs) else s.state, next := s.next + 1,
         requests := s.requests - {id}, live := if swapped then s.live + {s.jobs} else s.live, jobs := s.jobs + 1)
    case LoadToDrop(id) => if s.state.kind == Done then s.(requests := s.requests[id := Drops(s.state)]) else s
    case SwapToDrop(id) =>
      var swapped := s.state.ref == s.requests[id].seen.ref;
      s.(state := if swapped then PlanState(s.next, Idle, 0, 0) else s.state, next := s.next + 1, requests := s.requests - {id})
    case Progress(job, phase) => s.(state := PlanState(s.next, Running, phase, job), next := s.next + 1)
    case Finish(job, ok) =>
      s.(state := PlanState(s.next, if ok then Done else Failed, 0, job), next := s.next + 1, live := s.live - {job})
  }

  ghost predicate Leads(s: System, t: System) {
    exists step :: Enabled(s, step) && t == Apply(s, step)
  }

  ghost predicate LeadsAt(run: seq<System>, i: nat) {
    i + 1 < |run| && Leads(run[i], run[i + 1])
  }

  ghost predicate IsRun(run: seq<System>) {
    forall i :: 0 <= i < |run| - 1 ==> LeadsAt(run, i)
  }

  predicate IsInit(s: System) {
    s.state == PlanState(0, Idle, 0, 0) && s.next == 1 && s.requests == map[] && s.live == {} && s.jobs == 0
  }

  /** The slot says that a job runs exactly while one does, and then it has that one's handles. */
  predicate SlotIsLive(s: System) {
    s.live == if s.state.kind == Running then {s.state.job} else {}
  }

  /** What was loaded from an address is what is there, if it is the slot's still. */
  ghost predicate AddressesHold(s: System) {
    && s.state.ref < s.next
    && forall id :: id in s.requests ==>
      && s.requests[id].seen.ref < s.next
      && (s.requests[id].seen.ref == s.state.ref ==> s.requests[id].seen == s.state)
      && s.requests[id].seen.kind != Running
  }

  ghost predicate Inv(s: System) {
    SlotIsLive(s) && AddressesHold(s) && forall job :: job in s.live ==> job < s.jobs
  }

  lemma {:induction false} StepKeepsInv(s: System, t: System)
    requires Inv(s) && Leads(s, t)
    ensures Inv(t)
  {
    var step :| Enabled(s, step) && t == Apply(s, step);
    match step
    case LoadToStart(_) =>
    case SwapToStart(_) =>
    case LoadToDrop(_) =>
    case SwapToDrop(_) =>
    case Progress(_, _) =>
    case Finish(job, _) => assert s.live == {job};
  }

  /** What a swap, and the end of a job, come to: a start begins a job, and a drop clears the plan, exactly when the slot
      holds what was loaded still, and else nothing is changed; a job that ends leaves its outcome and no job. */
  lemma {:induction false} StepsExactly(s: System, step: Step)
    requires Inv(s) && Enabled(s, step)
    ensures
      var t := Apply(s, step);
      match step
      case LoadToStart(id) => t == if s.state.kind == Running then s else s.(requests := s.requests[id := Starts(s.state)])
      case SwapToStart(id) =>
        && id !in t.requests
        && (s.state == s.requests[id].seen ==> StoredIn(t.state) == Stored(Running, 0, s.jobs) && t.live == {s.jobs})
        && (s.state != s.requests[id].seen ==> t.state == s.state && t.live == s.live)
      case LoadToDrop(id) => t == if s.state.kind != Done then s else s.(requests := s.requests[id := Drops(s.state)])
      case SwapToDrop(id) =>
        && id !in t.requests && t.live == s.live
        && (s.state == s.requests[id].seen ==> t.state.kind == Idle) && (s.state != s.requests[id].seen ==> t.state == s.state)
      case Progress(job, phase) => StoredIn(t.state) == Stored(Running, phase, job) && t.live == s.live
      case Finish(job, ok) => t.state.kind == (if ok then Done else Failed) && t.live == {}
  {
    if step.Finish? {
      assert s.live == {step.job};
    }
  }

  lemma {:induction false} RunKeepsInv(run: seq<System>, i: nat)
    requires i < |run| && IsRun(run) && IsInit(run[0])
    ensures Inv(run[i])
  {
    if i > 0 {
      RunKeepsInv(run, i - 1);
      assert LeadsAt(run, i - 1);
      StepKeepsInv(run[i - 1], run[i]);
    }
  }

  /** At most one job is live, the slot says running exactly while one is and holds its handles, and a job only ever
      replaces what it stored itself. */
  lemma {:induction false} OneJobAtATime(run: seq<System>, i: nat, step: Step)
    requires i < |run| && IsRun(run) && IsInit(run[0]) && Enabled(run[i], step)
    ensures |run[i].live| <= 1
    ensures run[i].state.kind == Running <==> run[i].live != {}
    ensures run[i].state.kind == Running ==> run[i].live == {run[i].state.job}
    ensures step.Progress? || step.Finish? ==> run[i].state.kind == Running && run[i].state.job == step.job
  {
    RunKeepsInv(run, i);
  }
}
