/** The queue of copy and move tasks: the state that one lock guards, the calls that change it, and the
    goroutines between them.

    The calls are methods of `Queue`, each proved against a function of the locked state. The functions are
    then the steps of a machine in which every call, every start and end of an operation, every notifier and
    every progress writer may interleave in any order. */
module FileQueue {

  /** The id of a task, the name that a queued task got. */
  datatype Id = Id(text: string)

  /** The id that cancels every task; no task has it. */
  const EVERY_TASK := Id("0")

  /** What stands for "no task" where the head of the queue is remembered; no task has it. */
  const NO_TASK := Id("")

  datatype Item = Item(from: string, size: int, processedSize: int, finished: bool)

  datatype Task = Task(items: seq<Item>, processedSize: int, finished: bool, error: string)

  datatype Status = Starting | Processing | Done | Failed

  /** What the notifier says of one task. */
  datatype Report = Report(id: Id, processedSize: int, status: Status, error: string)

  datatype Option<+T> = None | Some(value: T)

  /** What the lock guards. `cancels` holds the registered operations, and whether each was told to stop. */
  datatype Shared = Shared(order: seq<Id>, tasks: map<Id, Task>, cancels: map<Id, bool>)

  /** What an operation knows of its task: it has not looked, it found none, or it works on its own copy. */
  datatype Local = NotLoaded | Missing | Loaded(temp: Task)

  /** How an operation ended: it ran to its end with its own items and first error, or it panicked. */
  datatype Outcome = Ran(items: seq<Item>, error: string) | Panicked

  // ---------------------------------------------------------------- the calls, as functions

  /** The ids of `order` that are in `keep`, in their order. */
  function Restrict(order: seq<Id>, keep: set<Id>): (kept: seq<Id>)
    ensures forall v :: v in kept <==> v in order && v in keep
  {
    if order == [] then []
    else if order[0] in keep then [order[0]] + Restrict(order[1..], keep)
    else Restrict(order[1..], keep)
  }

  function HeadOf(order: seq<Id>): Id {
    if order == [] then NO_TASK else order[0]
  }

  /** Whether a call that replaced the order starts the next task: the head is another one. */
  predicate Wakes(before: seq<Id>, after: seq<Id>) {
    after != [] && after[0] != HeadOf(before)
  }

  function Enqueued(q: Shared, id: Id, task: Task): Shared {
    q.(order := q.order + [id], tasks := q.tasks[id := task])
  }

  /** What a start would start now, if any. */
  function NextTask(q: Shared): Option<Id> {
    if q.order == [] || q.cancels != map[] then None
    else if q.order[0] !in q.tasks || q.tasks[q.order[0]].finished then None
    else Some(q.order[0])
  }

  function Started(q: Shared): Shared {
    match NextTask(q)
    case None => q
    case Some(k) => q.(cancels := q.cancels[k := false])
  }

  /** Whether the cancel of `id` is for task `k` too. */
  predicate Hits(id: Id, k: Id) {
    id == EVERY_TASK || k == id
  }

  function Cancelled(q: Shared, id: Id): Shared {
    Shared(
      Restrict(q.order, set v | v in q.order && !Hits(id, v)),
      map k | k in q.tasks && !Hits(id, k) :: q.tasks[k],
      map k | k in q.cancels :: q.cancels[k] || (k in q.tasks && Hits(id, k)))
  }

  function FinishedIds(q: Shared): set<Id> {
    set v | v in q.order && v in q.tasks && q.tasks[v].finished
  }

  function WaitingIds(q: Shared): set<Id> {
    set v | v in q.order && v in q.tasks && !q.tasks[v].finished
  }

  function Swept(q: Shared): Shared {
    if q.tasks == map[] then q
    else q.(order := Restrict(q.order, WaitingIds(q)), tasks := q.tasks - FinishedIds(q))
  }

  function ReportOf(id: Id, t: Task): Report {
    if t.finished then Report(id, t.processedSize, if t.error != "" then Failed else Done, t.error)
    else Report(id, t.processedSize, if t.processedSize == 0 then Starting else Processing, "")
  }

  function Reports(order: seq<Id>, tasks: map<Id, Task>): seq<Report> {
    if order == [] then []
    else if order[0] in tasks then [ReportOf(order[0], tasks[order[0]])] + Reports(order[1..], tasks)
    else Reports(order[1..], tasks)
  }

  function Ended(q: Shared, k: Id, local: Local, outcome: Outcome): Shared {
    var tasks :=
      if k !in q.tasks then q.tasks
      else if outcome.Panicked? then q.tasks[k := q.tasks[k].(finished := true, error := "internal")]
      else if local.Loaded? then q.tasks[k := local.temp.(items := outcome.items, finished := true, error := outcome.error)]
      else q.tasks;
    q.(tasks := tasks, cancels := q.cancels - {k})
  }

  function Progressed(q: Shared, id: Id, items: seq<Item>, size: int): Shared {
    if id !in q.tasks then q
    else q.(tasks := q.tasks[id := q.tasks[id].(items := items, processedSize := size)])
  }

  // ---------------------------------------------------------------- the calls, as the source makes them

  predicate Distinct(s: seq<Id>) {
    forall i, j :: 0 <= i < j < |s| ==> s[i] != s[j]
  }

  lemma {:induction false} RestrictAppend(s: seq<Id>, v: Id, keep: set<Id>)
    ensures Restrict(s + [v], keep) == Restrict(s, keep) + (if v in keep then [v] else [])
  {
    if s == [] {
      assert Restrict([v], keep) == (if v in keep then [v] else []) + Restrict([], keep);
    } else {
      assert (s + [v])[1..] == s[1..] + [v];
      RestrictAppend(s[1..], v, keep);
    }
  }

  lemma {:induction false} ReportsAppend(s: seq<Id>, v: Id, tasks: map<Id, Task>)
    ensures Reports(s + [v], tasks) == Reports(s, tasks) + (if v in tasks then [ReportOf(v, tasks[v])] else [])
  {
    if s == [] {
    } else {
      assert (s + [v])[1..] == s[1..] + [v];
      ReportsAppend(s[1..], v, tasks);
    }
  }

  class Queue {
    var order: seq<Id>
    var tasks: map<Id, Task>
    var cancels: map<Id, bool>
    // the starts that were asked for in the background and have not looked at the queue yet
    var wakes: nat

    ghost function State(): Shared
      reads this
    {
      Shared(order, tasks, cancels)
    }

    constructor ()
      ensures State() == Shared([], map[], map[]) && wakes == 0
    {
      order, tasks, cancels, wakes := [], map[], map[], 0;
    }

    method Enqueue(id: Id, task: Task)
      modifies this
      ensures State() == Enqueued(old(State()), id, task)
      ensures wakes == old(wakes) + (if old(order) == [] then 1 else 0)
    {
      tasks := tasks[id := task];
      order := order + [id];
      if |order| == 1 {
        wakes := wakes + 1;
      }
    }

    method ExecOpFile() returns (started: Option<Id>)
      modifies this`cancels
      ensures started == NextTask(old(State()))
      ensures State() == Started(old(State()))
    {
      if |order| == 0 || |cancels| > 0 {
        return None;
      }
      var k := order[0];
      if k !in tasks || tasks[k].finished {
        return None;
      }
      cancels := cancels[k := false];
      return Some(k);
    }

    /** The tasks that are cancelled go, and their registered operations are told to stop. */
    method DropTasks(id: Id)
      modifies this`tasks, this`cancels
      ensures tasks == Cancelled(old(State()), id).tasks
      ensures cancels == Cancelled(old(State()), id).cancels
    {
      var todo := tasks.Keys;
      while todo != {}
        invariant todo <= old(tasks).Keys
        invariant forall k :: k in tasks <==> k in old(tasks) && (k in todo || !Hits(id, k))
        invariant forall k :: k in tasks ==> tasks[k] == old(tasks)[k]
        invariant cancels.Keys == old(cancels).Keys
        invariant forall k :: k in cancels ==>
          cancels[k] == (old(cancels)[k] || (k in old(tasks) && k !in todo && Hits(id, k)))
        decreases todo
      {
        var k :| k in todo;
        todo := todo - {k};
        if Hits(id, k) {
          tasks := tasks - {k};
          if k in cancels {
            cancels := cancels[k := true];
          }
        }
      }
    }

    method CancelFileOperate(id: Id)
      modifies this
      ensures State() == Cancelled(old(State()), id)
      ensures wakes == old(wakes) + (if Wakes(old(order), order) then 1 else 0)
    {
      var running := NO_TASK;
      if |order| > 0 {
        running := order[0];
      }
      var waiting: seq<Id> := [];
      ghost var keep := set v | v in order && !Hits(id, v);
      for i := 0 to |order|
        modifies {}
        invariant waiting == Restrict(order[..i], keep)
      {
        var v := order[i];
        assert order[..i + 1] == order[..i] + [v];
        RestrictAppend(order[..i], v, keep);
        if !Hits(id, v) {
          waiting := waiting + [v];
        }
      }
      assert order[..|order|] == order;
      order := waiting;
      DropTasks(id);
      if |order| > 0 && order[0] != running {
        wakes := wakes + 1;
      }
    }

    /** What is said of every task; finished ones go. `waiting` are the ids of the others. */
    method SweepTasks() returns (list: seq<Report>, waiting: seq<Id>)
      requires Distinct(order)
      modifies this`tasks
      ensures list == Reports(order, old(tasks)) && waiting == Restrict(order, WaitingIds(old(State())))
      ensures tasks == old(tasks) - set v | v in order && v in old(tasks) && old(tasks)[v].finished
    {
      ghost var before := tasks;
      ghost var live := WaitingIds(State());
      waiting, list := [], [];
      for i := 0 to |order|
        modifies this`tasks
        invariant waiting == Restrict(order[..i], live)
        invariant list == Reports(order[..i], before)
        invariant tasks == before - (set v | v in order[..i] && v in before && before[v].finished)
      {
        var v := order[i];
        assert order[..i + 1] == order[..i] + [v];
        assert v !in order[..i];
        RestrictAppend(order[..i], v, live);
        ReportsAppend(order[..i], v, before);
        if v !in tasks {
          continue;
        }
        var temp := tasks[v];
        if temp.finished {
          tasks := tasks - {v};
          list := list + [Report(v, temp.processedSize, if temp.error != "" then Failed else Done, temp.error)];
          continue;
        }
        waiting := waiting + [v];
        list := list + [Report(v, temp.processedSize, if temp.processedSize == 0 then Starting else Processing, "")];
      }
      assert order[..|order|] == order;
    }

    /** `list` is what the notifier says of every task, finished ones a last time. */
    method FileOperateTasks() returns (list: seq<Report>, queued: bool)
      requires Distinct(order)
      modifies this
      ensures queued <==> old(tasks) != map[]
      ensures list == if queued then Reports(old(order), old(tasks)) else []
      ensures State() == Swept(old(State()))
      ensures wakes == old(wakes) + (if queued && Wakes(old(order), order) then 1 else 0)
    {
      queued := |tasks| > 0;
      list := [];
      if !queued {
        return;
      }
      var running := NO_TASK;
      if |order| > 0 {
        running := order[0];
      }
      var waiting;
      list, waiting := SweepTasks();
      order := waiting;
      if |order| > 0 && order[0] != running {
        wakes := wakes + 1;
      }
    }

    /** The end of the operation of `k`, whatever way it ended; the caller then asks for the next start. */
    method Finish(k: Id, local: Local, outcome: Outcome)
      modifies this
      ensures State() == Ended(old(State()), k, local, outcome)
      ensures wakes == old(wakes) + 1
    {
      cancels := cancels - {k};
      if k in tasks && outcome.Panicked? {
        tasks := tasks[k := tasks[k].(finished := true, error := "internal")];
      } else if k in tasks && local.Loaded? {
        tasks := tasks[k := local.temp.(items := outcome.items, finished := true, error := outcome.error)];
      }
      wakes := wakes + 1;
    }

    method StoreProgress(id: Id, items: seq<Item>, size: int)
      modifies this`tasks
      ensures State() == Progressed(old(State()), id, items, size)
    {
      if id in tasks {
        tasks := tasks[id := tasks[id].(items := items, processedSize := size)];
      }
    }
  }

  // ---------------------------------------------------------------- the machine

  /** The queue with what runs around it: each operation's own knowledge, the starts that are pending, the
      notifiers that loop, when each id arrived, and every start so far. */
  datatype System = System(
    q: Shared,
    locals: map<Id, Local>,
    pending: nat,
    notifiers: nat,
    arrived: map<Id, nat>,
    starts: seq<Id>)

  datatype Step =
    | Enqueue(id: Id, task: Task)
    | Exec
    | Load(id: Id)
    | End(id: Id, outcome: Outcome)
    | Cancel(id: Id)
    | Notify(looping: bool)
    | Progress(id: Id, items: seq<Item>, size: int)

  function Init(): System {
    System(Shared([], map[], map[]), map[], 0, 0, map[], [])
  }

  /** When a step can happen. An id is fresh; an operation that found no task returns at once. */
  predicate Enabled(s: System, step: Step) {
    match step
    case Enqueue(id, _) => id !in s.arrived && id != EVERY_TASK && id != NO_TASK
    case Exec => s.pending > 0
    case Load(id) => id in s.locals && s.locals[id].NotLoaded?
    case End(id, outcome) =>
      id in s.locals && !s.locals[id].NotLoaded? && (s.locals[id].Missing? ==> outcome.Ran?)
    case Cancel(_) => true
    case Notify(looping) => looping ==> s.notifiers > 0
    case Progress(_, _, _) => true
  }

  function One(b: bool): nat {
    if b then 1 else 0
  }

  function Apply(s: System, step: Step): System
    requires Enabled(s, step)
  {
    match step
    case Enqueue(id, task) =>
      var first := s.q.order == [];
      s.(q := Enqueued(s.q, id, task), arrived := s.arrived[id := |s.arrived|],
         pending := s.pending + One(first), notifiers := s.notifiers + One(first))
    case Exec =>
      (match NextTask(s.q)
       case None => s.(pending := s.pending - 1)
       case Some(k) =>
         s.(q := Started(s.q), pending := s.pending - 1, locals := s.locals[k := NotLoaded], starts := s.starts + [k]))
    case Load(id) =>
      s.(locals := s.locals[id := if id in s.q.tasks then Loaded(s.q.tasks[id]) else Missing])
    case End(id, outcome) =>
      s.(q := Ended(s.q, id, s.locals[id], outcome), locals := s.locals - {id}, pending := s.pending + 1)
    case Cancel(id) =>
      var q' := Cancelled(s.q, id);
      s.(q := q', pending := s.pending + One(Wakes(s.q.order, q'.order)))
    case Notify(looping) =>
      var q' := Swept(s.q);
      if s.q.tasks == map[] then s.(notifiers := s.notifiers - One(looping))
      else s.(q := q', pending := s.pending + One(Wakes(s.q.order, q'.order)))
    case Progress(id, items, size) =>
      s.(q := Progressed(s.q, id, items, size))
  }

  /** A run: each state is the one before it after an enabled step. */
  ghost predicate IsRun(states: seq<System>, steps: seq<Step>) {
    && |states| == |steps| + 1
    && states[0] == Init()
    && forall i :: 0 <= i < |steps| ==> Enabled(states[i], steps[i]) && states[i + 1] == Apply(states[i], steps[i])
  }

  // ---------------------------------------------------------------- what every state keeps

  /** Nothing wakes the queue only when there is nothing to wake it for. */
  predicate Awake(s: System) {
    s.q.cancels == map[] && s.q.order != [] && s.q.order[0] in s.q.tasks && !s.q.tasks[s.q.order[0]].finished
    ==> s.pending > 0
  }

  predicate Exclusive(s: System) {
    |s.q.cancels| <= 1
  }

  ghost predicate Arrivals(s: System) {
    && NO_TASK !in s.arrived && EVERY_TASK !in s.arrived
    && (forall k :: k in s.arrived ==> s.arrived[k] < |s.arrived|)
    && (forall a, b :: a in s.arrived && b in s.arrived && s.arrived[a] == s.arrived[b] ==> a == b)
  }

  predicate Rising(ids: seq<Id>, arrived: map<Id, nat>) {
    && (forall i :: 0 <= i < |ids| ==> ids[i] in arrived)
    && (forall i, j :: 0 <= i < j < |ids| ==> arrived[ids[i]] < arrived[ids[j]])
  }

  ghost predicate Consistent(q: Shared) {
    forall k :: k in q.tasks <==> k in q.order
  }

  /** Of the operations: one at most, each for a task that was started and has no outcome yet. */
  ghost predicate Operations(s: System) {
    && s.locals.Keys == s.q.cancels.Keys
    && (forall a, b :: a in s.q.cancels && b in s.q.cancels ==> a == b)
    && (forall k :: k in s.q.cancels ==> k in s.starts)
    && (forall k :: k in s.q.cancels && k in s.q.tasks ==> !s.q.tasks[k].finished)
    && (forall k :: k in s.locals && s.locals[k].Missing? ==> k !in s.q.tasks)
    && (forall k :: k in s.starts && k in s.q.tasks && !s.q.tasks[k].finished ==> k in s.q.cancels)
  }

  /** What was started came no later than what is still queued. */
  ghost predicate StartsFirst(s: System) {
    && Rising(s.starts, s.arrived)
    && forall a, b :: a in s.starts && b in s.q.order && b in s.arrived ==> s.arrived[a] <= s.arrived[b]
  }

  ghost predicate Inv(s: System) {
    && Arrivals(s)
    && Rising(s.q.order, s.arrived)
    && Consistent(s.q)
    && Operations(s)
    && StartsFirst(s)
    && Awake(s)
    && (s.q.order != [] ==> s.notifiers > 0)
  }

  lemma {:induction false} RestrictRising(ids: seq<Id>, keep: set<Id>, arrived: map<Id, nat>)
    requires Rising(ids, arrived)
    ensures Rising(Restrict(ids, keep), arrived)
    ensures Restrict(ids, keep) != [] && ids[0] in keep ==> Restrict(ids, keep)[0] == ids[0]
  {
    if ids != [] {
      var rest := ids[1..];
      assert Rising(rest, arrived);
      RestrictRising(rest, keep, arrived);
      var kept := Restrict(rest, keep);
      forall i | 0 <= i < |kept|
        ensures arrived[ids[0]] < arrived[kept[i]]
      {
        assert kept[i] in kept;
        assert kept[i] in rest;
      }
    }
  }

  lemma {:induction false} OneKey(m: map<Id, bool>)
    requires forall a, b :: a in m && b in m ==> a == b
    ensures |m| <= 1
  {
    if m != map[] {
      var k :| k in m;
      assert m.Keys == {k};
      assert |m| == |m.Keys|;
    }
  }

  lemma {:induction false} ArrivalKeepsRising(ids: seq<Id>, arrived: map<Id, nat>, id: Id)
    requires Rising(ids, arrived) && id !in arrived
    requires forall k :: k in arrived ==> arrived[k] < |arrived|
    ensures Rising(ids, arrived[id := |arrived|]) && Rising(ids + [id], arrived[id := |arrived|])
  {
  }

  lemma {:induction false} EnqueueKeepsArrivals(s: System, id: Id, task: Task)
    requires Arrivals(s) && Enabled(s, Enqueue(id, task))
    ensures Arrivals(Apply(s, Enqueue(id, task)))
  {
    var t := Apply(s, Enqueue(id, task));
    assert t.arrived.Keys == s.arrived.Keys + {id};
    assert |t.arrived| == |t.arrived.Keys| == |s.arrived| + 1;
  }

  lemma {:induction false} EnqueueKeepsInv(s: System, id: Id, task: Task)
    requires Inv(s) && Enabled(s, Enqueue(id, task))
    ensures Inv(Apply(s, Enqueue(id, task)))
  {
    EnqueueKeepsArrivals(s, id, task);
    ArrivalKeepsRising(s.q.order, s.arrived, id);
    ArrivalKeepsRising(s.starts, s.arrived, id);
    assert id !in s.q.order && id !in s.starts;
  }

  lemma {:induction false} HeadStartsNext(starts: seq<Id>, order: seq<Id>, arrived: map<Id, nat>)
    requires order != [] && Rising(order, arrived) && Rising(starts, arrived) && order[0] !in starts
    requires forall a, b :: a in arrived && b in arrived && arrived[a] == arrived[b] ==> a == b
    requires forall a, b :: a in starts && b in order && b in arrived ==> arrived[a] <= arrived[b]
    ensures Rising(starts + [order[0]], arrived)
    ensures forall a, b :: a in starts + [order[0]] && b in order && b in arrived ==> arrived[a] <= arrived[b]
  {
    assert order[0] in order;
  }

  lemma {:induction false} StartedHolds(s: System, t: System, k: Id)
    requires Operations(s) && NextTask(s.q) == Some(k) && Consistent(s.q)
    requires t.q == Started(s.q) && t.locals == s.locals[k := NotLoaded] && t.starts == s.starts + [k]
    ensures Operations(t) && k !in s.starts
  {
    assert t.q.cancels.Keys == {k};
    assert forall a :: a in t.starts <==> a in s.starts || a == k;
  }

  lemma {:induction false} ExecKeepsInv(s: System)
    requires Inv(s) && Enabled(s, Exec)
    ensures Inv(Apply(s, Exec))
  {
    var t := Apply(s, Exec);
    match NextTask(s.q) {
      case None =>
      case Some(k) =>
        StartedHolds(s, t, k);
        HeadStartsNext(s.starts, s.q.order, s.arrived);
    }
  }

  lemma {:induction false} LoadKeepsInv(s: System, id: Id)
    requires Inv(s) && Enabled(s, Load(id))
    ensures Inv(Apply(s, Load(id)))
  {
  }

  /** Nothing that the invariant speaks of is changed by other tasks in the same places, as finished as before. */
  lemma {:induction false} SameFlagsKeepInv(s: System, t: System)
    requires Inv(s) && t == s.(q := s.q.(tasks := t.q.tasks)) && t.q.tasks.Keys == s.q.tasks.Keys
    requires forall k :: k in t.q.tasks ==> t.q.tasks[k].finished == s.q.tasks[k].finished
    ensures Inv(t)
  {
    assert forall k :: k in t.q.tasks <==> k in s.q.tasks;
  }

  lemma {:induction false} ProgressKeepsInv(s: System, id: Id, items: seq<Item>, size: int)
    requires Inv(s)
    ensures Inv(Apply(s, Progress(id, items, size)))
  {
    var t := Apply(s, Progress(id, items, size));
    assert t.q.tasks.Keys == s.q.tasks.Keys;
    SameFlagsKeepInv(s, t);
  }

  lemma {:induction false} EndKeepsInv(s: System, id: Id, outcome: Outcome)
    requires Inv(s) && Enabled(s, End(id, outcome))
    ensures Inv(Apply(s, End(id, outcome)))
  {
  }

  /** What a cancel and a notifier have in common: ids leave, and their tasks with them. */
  ghost predicate Drops(q: Shared, keep: set<Id>, q': Shared) {
    && q'.order == Restrict(q.order, keep)
    && (forall k :: k in q'.tasks <==> k in q.tasks && k in keep)
    && (forall k :: k in q'.tasks ==> q'.tasks[k] == q.tasks[k])
    && q'.cancels.Keys == q.cancels.Keys
  }

  function Dropped(s: System, q': Shared): System {
    s.(q := q', pending := s.pending + One(Wakes(s.q.order, q'.order)))
  }

  lemma {:induction false} DropKeepsOperations(s: System, keep: set<Id>, q': Shared)
    requires Operations(s) && Drops(s.q, keep, q')
    ensures Operations(Dropped(s, q'))
  {
  }

  lemma {:induction false} DropKeepsAwake(s: System, keep: set<Id>, q': Shared)
    requires Awake(s) && Consistent(s.q) && Drops(s.q, keep, q') && Rising(s.q.order, s.arrived)
    requires NO_TASK !in s.arrived
    ensures Awake(Dropped(s, q'))
  {
  }

  lemma {:induction false} DropKeepsInv(s: System, keep: set<Id>, q': Shared)
    requires Inv(s) && Drops(s.q, keep, q')
    ensures Inv(Dropped(s, q'))
  {
    RestrictRising(s.q.order, keep, s.arrived);
    DropKeepsOperations(s, keep, q');
    DropKeepsAwake(s, keep, q');
  }

  lemma {:induction false} CancelKeepsInv(s: System, id: Id)
    requires Inv(s)
    ensures Inv(Apply(s, Cancel(id)))
  {
    var keep := set v | v in s.q.order && !Hits(id, v);
    assert Drops(s.q, keep, Cancelled(s.q, id));
    DropKeepsInv(s, keep, Cancelled(s.q, id));
  }

  lemma {:induction false} NoTasksNoOrder(q: Shared)
    requires forall v :: v in q.order ==> v in q.tasks
    ensures q.order == [] || q.tasks != map[]
  {
    if q.order != [] {
      assert q.order[0] in q.tasks;
    }
  }

  lemma {:induction false} NotifyKeepsInv(s: System, looping: bool)
    requires Inv(s) && Enabled(s, Notify(looping))
    ensures Inv(Apply(s, Notify(looping)))
  {
    if s.q.tasks == map[] {
      NoTasksNoOrder(s.q);
    } else {
      assert Drops(s.q, WaitingIds(s.q), Swept(s.q));
      DropKeepsInv(s, WaitingIds(s.q), Swept(s.q));
    }
  }

  lemma {:induction false} StepKeepsInv(s: System, step: Step)
    requires Inv(s) && Enabled(s, step)
    ensures Inv(Apply(s, step))
  {
    match step
    case Enqueue(id, task) => EnqueueKeepsInv(s, id, task);
    case Exec => ExecKeepsInv(s);
    case Load(id) => LoadKeepsInv(s, id);
    case End(id, outcome) => EndKeepsInv(s, id, outcome);
    case Cancel(id) => CancelKeepsInv(s, id);
    case Notify(looping) => NotifyKeepsInv(s, looping);
    case Progress(id, items, size) => ProgressKeepsInv(s, id, items, size);
  }

  // ---------------------------------------------------------------- the main results

  lemma {:induction false} RunKeepsInv(states: seq<System>, steps: seq<Step>, i: nat)
    requires IsRun(states, steps) && i < |states|
    ensures Inv(states[i])
  {
    if i > 0 {
      RunKeepsInv(states, steps, i - 1);
      StepKeepsInv(states[i - 1], steps[i - 1]);
    }
  }

  /** In every state of every run one operation at most is registered, one that was told to stop included; a
      task at the head that nothing runs and that has no outcome has a start pending, which starts it; and
      while anything is queued a notifier looks at it. */
  lemma {:induction false} OneAtATimeAndNoLostWakeUp(states: seq<System>, steps: seq<Step>, i: nat)
    requires IsRun(states, steps) && i < |states|
    ensures Exclusive(states[i])
    ensures var q := states[i].q;
            q.cancels == map[] && q.order != [] && !(q.order[0] in q.tasks && q.tasks[q.order[0]].finished)
            ==> Enabled(states[i], Exec) && Apply(states[i], Exec).starts == states[i].starts + [q.order[0]]
    ensures states[i].q.tasks != map[] ==> states[i].notifiers > 0
  {
    RunKeepsInv(states, steps, i);
    var q := states[i].q;
    OneKey(q.cancels);
    if q.order != [] {
      assert q.order[0] in q.order;
    }
    if q.tasks != map[] {
      var k :| k in q.tasks;
      assert k in q.order;
    }
  }

  /** What became of an id that arrived: nothing yet, its outcome, or it left the queue. */
  datatype Fate = Queued | Over(error: string) | Gone

  function FateOf(s: System, k: Id): Fate {
    if k !in s.q.tasks then Gone
    else if s.q.tasks[k].finished then Over(s.q.tasks[k].error)
    else Queued
  }

  /** A fate is only ever followed by itself, an outcome by leaving, and nothing follows leaving. */
  predicate Follows(before: Fate, after: Fate) {
    match before
    case Queued => true
    case Over(error) => after == before || after == Gone
    case Gone => after == Gone
  }

  /** How a later state relates to an earlier one: the starts and the arrivals of the earlier are the first of
      the later, and every fate was followed. */
  ghost predicate Since(s: System, t: System) {
    && s.starts <= t.starts
    && (forall k :: k in s.arrived ==> k in t.arrived && t.arrived[k] == s.arrived[k])
    && (forall k :: k in s.arrived ==> Follows(FateOf(s, k), FateOf(t, k)))
  }

  lemma {:induction false} StepKeepsFate(s: System, step: Step, k: Id)
    requires Inv(s) && Enabled(s, step) && k in s.arrived
    ensures Follows(FateOf(s, k), FateOf(Apply(s, step), k))
  {
  }

  lemma {:induction false} StepSince(s: System, step: Step)
    requires Inv(s) && Enabled(s, step)
    ensures Since(s, Apply(s, step))
  {
    var t := Apply(s, step);
    assert s.starts <= t.starts;
    forall k | k in s.arrived
      ensures Follows(FateOf(s, k), FateOf(t, k))
    {
      StepKeepsFate(s, step, k);
    }
  }

  lemma {:induction false} StatesSince(states: seq<System>, steps: seq<Step>, i: nat)
    requires IsRun(states, steps) && i < |steps|
    ensures Since(states[i], states[i + 1])
  {
    RunKeepsInv(states, steps, i);
    StepSince(states[i], steps[i]);
  }

  lemma {:induction false} SinceTransitive(s: System, t: System, u: System)
    requires Since(s, t) && Since(t, u)
    ensures Since(s, u)
  {
  }

  lemma {:induction false} SinceAlong(states: seq<System>, i: nat, j: nat)
    requires i <= j < |states|
    requires forall m :: i <= m < j ==> Since(states[m], states[m + 1])
    ensures Since(states[i], states[j])
    decreases j
  {
    if i < j {
      SinceAlong(states, i, j - 1);
      SinceTransitive(states[i], states[j - 1], states[j]);
    }
  }

  /** Tasks start in the order they arrived in, each once at most. And over time: starts are only ever added,
      an outcome that was stored stays what it is until its task leaves, whatever a progress writer stores, and
      a task that left, cancelled or reported, is never in the queue again. */
  lemma {:induction false} StartsInOrderAndOutcomesStay(states: seq<System>, steps: seq<Step>, i: nat, j: nat)
    requires IsRun(states, steps) && i <= j < |states|
    ensures Rising(states[j].starts, states[j].arrived)
    ensures Since(states[i], states[j])
  {
    RunKeepsInv(states, steps, j);
    forall m | i <= m < j
      ensures Since(states[m], states[m + 1])
    {
      StatesSince(states, steps, m);
    }
    SinceAlong(states, i, j);
  }

  lemma {:induction false} ReportsFollowOrder(order: seq<Id>, tasks: map<Id, Task>)
    requires forall k :: k in order ==> k in tasks
    ensures |Reports(order, tasks)| == |order|
    ensures forall i :: 0 <= i < |order| ==> Reports(order, tasks)[i] == ReportOf(order[i], tasks[order[i]])
  {
    if order != [] {
      assert order[0] in order;
      ReportsFollowOrder(order[1..], tasks);
    }
  }

  /** In every run a task that has its outcome leaves by the owner's cancel of it, or by a notifier that says
      this outcome of it; and the owner's cancel takes only what it names, and stops its operation. */
  lemma {:induction false} LeavesCancelledOrReported(states: seq<System>, steps: seq<Step>, i: nat, k: Id)
    requires IsRun(states, steps) && i < |steps| && k in states[i].q.tasks && k !in states[i + 1].q.tasks
    ensures
      match steps[i]
      case Cancel(id) =>
        Hits(id, k) && (k in states[i].q.cancels ==> k in states[i + 1].q.cancels && states[i + 1].q.cancels[k])
      case Notify(_) =>
        var t := states[i].q.tasks[k];
        && t.finished
        && Report(k, t.processedSize, if t.error == "" then Done else Failed, t.error) in Reports(states[i].q.order, states[i].q.tasks)
      case _ => false
  {
    RunKeepsInv(states, steps, i);
    var q := states[i].q;
    if steps[i].Notify? {
      ReportsFollowOrder(q.order, q.tasks);
      assert k in q.order;
      var n :| 0 <= n < |q.order| && q.order[n] == k;
      assert Reports(q.order, q.tasks)[n] == ReportOf(k, q.tasks[k]);
    }
  }

  // ---------------------------------------------------------------- whose outcome it is

  /** The end of an operation whose task is still queued: the task has its outcome from then on, with the items the
      operation leaves and its first error, or, when it panicked, as it was and with an error of that kind. The other
      tasks are as they were, and nothing is registered for it any more. */
  lemma {:induction false} EndStoresOutcome(states: seq<System>, steps: seq<Step>, i: nat, k: Id, outcome: Outcome)
    requires IsRun(states, steps) && i < |steps| && steps[i] == End(k, outcome) && k in states[i].q.tasks
    ensures k in states[i + 1].q.tasks && k !in states[i + 1].q.cancels
    ensures states[i + 1].q.tasks - {k} == states[i].q.tasks - {k} && states[i + 1].q.order == states[i].q.order
    ensures
      var task := states[i + 1].q.tasks[k];
      match outcome
      case Ran(items, error) => FateOf(states[i + 1], k) == Over(error) && task.items == items
      case Panicked => FateOf(states[i + 1], k) == Over("internal") && task.items == states[i].q.tasks[k].items
  {
    RunKeepsInv(states, steps, i);
  }

  /** A task as it was: there or not, and the same. */
  predicate IsAsBefore(s: System, t: System, k: Id) {
    (k in t.q.tasks <==> k in s.q.tasks) && (k in s.q.tasks ==> t.q.tasks[k] == s.q.tasks[k])
  }

  /** What every other step makes of a task: a cancel takes exactly those it names, a notifier exactly those that have
      their outcome, an arrival brings its own, progress changes the sizes of its own, and nothing else changes any. */
  lemma {:induction false} StepChangesTask(s: System, step: Step, k: Id)
    requires Inv(s) && Enabled(s, step) && !step.End?
    ensures
      var t := Apply(s, step);
      match step
      case Enqueue(id, task) => if k == id then k in t.q.tasks && t.q.tasks[k] == task else IsAsBefore(s, t, k)
      case Cancel(id) => if k == id || id == Id("0") then k !in t.q.tasks else IsAsBefore(s, t, k)
      case Notify(_) => if k in s.q.tasks && s.q.tasks[k].finished then k !in t.q.tasks else IsAsBefore(s, t, k)
      case Progress(id, items, size) =>
        if k == id && k in s.q.tasks
        then k in t.q.tasks && t.q.tasks[k] == s.q.tasks[k].(items := items, processedSize := size) else IsAsBefore(s, t, k)
      case _ => IsAsBefore(s, t, k)
  {
    if step.Notify? {
      assert k in s.q.tasks ==> k in s.q.order;
    }
  }

  /** A cancel tells the operations of what it names to stop, and no other. */
  lemma {:induction false} CancelStops(s: System, id: Id, k: Id)
    requires Inv(s) && k in s.q.cancels
    ensures
      var t := Apply(s, Cancel(id));
      k in t.q.cancels && (t.q.cancels[k] <==> s.q.cancels[k] || (k in s.q.tasks && (k == id || id == Id("0"))))
  {
  }

  /** Whether a step gives a task this outcome: its operation ends with it, or it arrives with it. */
  predicate GivesOutcome(step: Step, k: Id, error: string) {
    match step
    case End(id, Ran(_, e)) => id == k && e == error
    case End(id, Panicked) => id == k && error == "internal"
    case Enqueue(id, task) => id == k && task.finished && task.error == error
    case _ => false
  }

  lemma {:induction false} StepGivesOutcome(s: System, step: Step, k: Id, error: string)
    requires Inv(s) && Enabled(s, step) && FateOf(Apply(s, step), k) == Over(error) && FateOf(s, k) != Over(error)
    ensures GivesOutcome(step, k, error)
  {
    if !step.End? {
      StepChangesTask(s, step, k);
    }
  }

  /** An outcome comes from the end of the task's own operation, or was there when the task arrived. */
  lemma {:induction false} OutcomeComesFrom(states: seq<System>, steps: seq<Step>, j: nat, k: Id, error: string)
    requires IsRun(states, steps) && j < |states| && FateOf(states[j], k) == Over(error)
    ensures exists i :: 0 <= i < j && GivesOutcome(steps[i], k, error)
  {
    if FateOf(states[0], k) != Over(error) && j > 0 {
      if FateOf(states[j - 1], k) == Over(error) {
        OutcomeComesFrom(states, steps, j - 1, k, error);
      } else {
        RunKeepsInv(states, steps, j - 1);
        StepGivesOutcome(states[j - 1], steps[j - 1], k, error);
      }
    }
  }

  /** A task that a notifier drops was told of as its operation ended: as failed, with the operation's own error, or as
      done when it had none. */
  lemma {:induction false} DroppedAsItEnded(states: seq<System>, steps: seq<Step>, n: nat, k: Id)
    requires IsRun(states, steps) && n < |steps| && steps[n].Notify?
    requires k in states[n].q.tasks && k !in states[n + 1].q.tasks
    ensures
      var error := states[n].q.tasks[k].error;
      && (exists i :: 0 <= i < n && GivesOutcome(steps[i], k, error))
      && Report(k, states[n].q.tasks[k].processedSize, if error == "" then Done else Failed, error)
         in Reports(states[n].q.order, states[n].q.tasks)
  {
    LeavesCancelledOrReported(states, steps, n, k);
    OutcomeComesFrom(states, steps, n, k, states[n].q.tasks[k].error);
  }

  /** What a notifier tells: of every task in the queue, in order, its size so far, and whether it has not begun, is
      under way, failed, or is done. */
  lemma {:induction false} TellsEveryTask(states: seq<System>, steps: seq<Step>, i: nat, n: nat)
    requires IsRun(states, steps) && i < |states| && n < |states[i].q.order|
    ensures
      var q := states[i].q;
      var k := q.order[n];
      && |Reports(q.order, q.tasks)| == |q.order| && k in q.tasks
      && var task, told := q.tasks[k], Reports(q.order, q.tasks)[n];
      && told.id == k && told.processedSize == task.processedSize
      && (told.status == Failed <==> task.finished && task.error != "")
      && (told.status == Done <==> task.finished && task.error == "")
      && (told.status == Starting <==> !task.finished && task.processedSize == 0)
      && told.error == if told.status == Failed then task.error else ""
  {
    RunKeepsInv(states, steps, i);
    var q := states[i].q;
    assert q.order[n] in q.order;
    ReportsFollowOrder(q.order, q.tasks);
  }
}
