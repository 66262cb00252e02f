/** The two-thread task queue: the critical sections of its mutexes as functions
    on the shared fields, the object whose methods compute them, and the
    interleavings of the owner thread and the worker thread. */
module TaskQueues {
  import opened Wrappers

  /** A task's id is its address; the serial number tells apart two tasks that
      were given the same address one after the other. */
  datatype Task = Task(id: nat, serial: nat)

  const EMPTY_TASK_ID: nat := 0

  /** What the two mutexes protect. */
  datatype Shared = Shared(toProcess: seq<Task>, toFinish: seq<Task>, inProcess: nat)

  /** find_if and erase: the first task with this id goes. */
  function EraseFirst(queue: seq<Task>, id: nat): seq<Task> {
    if queue == [] then []
    else if queue[0].id == id then queue[1..]
    else [queue[0]] + EraseFirst(queue[1..], id)
  }

  /** Erasing the first match cuts the queue there. */
  lemma {:induction false} EraseAt(queue: seq<Task>, id: nat, i: nat)
    requires i <= |queue| && (forall k :: 0 <= k < i ==> queue[k].id != id)
    requires i < |queue| ==> queue[i].id == id
    ensures EraseFirst(queue, id) == if i < |queue| then queue[..i] + queue[i + 1..] else queue
  {
    if i > 0 {
      EraseAt(queue[1..], id, i - 1);
      if i < |queue| {
        assert queue[1..][..i - 1] == queue[1..i];
        assert [queue[0]] + queue[1..i] == queue[..i];
        assert queue[1..][i..] == queue[i + 1..];
        assert [queue[0]] + (queue[1..i] + queue[i + 1..]) == queue[..i] + queue[i + 1..];
      }
    }
  }

  // ---- Critical sections -------------------------------------------------------

  /** cancelTask, under the first mutex. */
  function CancelWaiting(q: Shared, id: nat): Shared {
    Shared(EraseFirst(q.toProcess, id), q.toFinish, if q.inProcess == id then EMPTY_TASK_ID else q.inProcess)
  }

  /** cancelTask, under the second mutex. */
  function CancelFinishing(q: Shared, id: nat): Shared { q.(toFinish := EraseFirst(q.toFinish, id)) }

  /** The worker takes the next task, if there is one. */
  function TakeNext(q: Shared): (Shared, Option<Task>) {
    if q.toProcess == [] then (q, None)
    else (q.(toProcess := q.toProcess[1..], inProcess := q.toProcess[0].id), Some(q.toProcess[0]))
  }

  /** The worker, still holding the first mutex: is the task still wanted? */
  function Release(q: Shared, task: Task): (Shared, bool) {
    if q.inProcess == task.id then (q.(inProcess := EMPTY_TASK_ID), true) else (q, false)
  }

  /** The owner takes the next finished task, if there is one. */
  function TakeFinished(q: Shared): (Shared, Option<Task>) {
    if q.toFinish == [] then (q, None) else (q.(toFinish := q.toFinish[1..]), Some(q.toFinish[0]))
  }

  class TaskQueue {
    var toProcess: seq<Task>
    var toFinish: seq<Task>
    var inProcess: nat

    ghost function View(): Shared
      reads this
    {
      Shared(toProcess, toFinish, inProcess)
    }

    constructor ()
      ensures View() == Shared([], [], EMPTY_TASK_ID)
    {
      toProcess, toFinish, inProcess := [], [], EMPTY_TASK_ID;
    }

    static method RemoveFrom(queue: seq<Task>, id: nat) returns (rest: seq<Task>)
      ensures rest == EraseFirst(queue, id)
    {
      var i := 0;
      while i < |queue| && queue[i].id != id
        invariant 0 <= i <= |queue|
        invariant forall k :: 0 <= k < i ==> queue[k].id != id
      {
        i := i + 1;
      }
      EraseAt(queue, id, i);
      rest := if i < |queue| then queue[..i] + queue[i + 1..] else queue;
    }

    method AddTasks(tasks: seq<Task>)
      modifies this
      ensures View() == old(View()).(toProcess := old(toProcess) + tasks)
    {
      for k := 0 to |tasks|
        invariant View() == old(View()).(toProcess := old(toProcess) + tasks[..k])
      {
        toProcess := toProcess + [tasks[k]];
      }
    }

    method CancelUnderProcessMutex(id: nat)
      modifies this
      ensures View() == CancelWaiting(old(View()), id)
    {
      toProcess := RemoveFrom(toProcess, id);
      if inProcess == id {
        inProcess := EMPTY_TASK_ID;
      }
    }

    method CancelUnderFinishMutex(id: nat)
      modifies this
      ensures View() == CancelFinishing(old(View()), id)
    {
      toFinish := RemoveFrom(toFinish, id);
    }

    method WorkerTakes() returns (task: Option<Task>)
      modifies this
      ensures (View(), task) == TakeNext(old(View()))
    {
      task := None;
      if toProcess != [] {
        task := Some(toProcess[0]);
        toProcess := toProcess[1..];
        inProcess := task.value.id;
      }
    }

    /** The transfer: both mutexes are held from the check to the push. */
    method WorkerTransfers(task: Task, left: bool) returns (left': bool, emitProcessed: bool)
      modifies this
      ensures var (q, wanted) := Release(old(View()), task);
              && View() == (if wanted then q.(toFinish := q.toFinish + [task]) else q)
              && left' == (if wanted then q.toProcess != [] else left)
              && emitProcessed == (wanted && q.toFinish == [])
    {
      left', emitProcessed := left, false;
      if inProcess == task.id {
        inProcess := EMPTY_TASK_ID;
        left' := toProcess != [];
        emitProcessed := toFinish == [];
        toFinish := toFinish + [task];
      }
    }

    method OwnerTakes() returns (task: Option<Task>)
      modifies this
      ensures (View(), task) == TakeFinished(old(View()))
    {
      task := None;
      if toFinish != [] {
        task := Some(toFinish[0]);
        toFinish := toFinish[1..];
      }
    }
  }

  // ---- The two threads ---------------------------------------------------------------

  /** Where the worker is in onTaskAdded; `left` is its someTasksLeft. */
  datatype Worker =
    | Idle
    | Taking(left: bool)
    | Processing(task: Task, left: bool)
    | Processed(task: Task, left: bool)
    | Holding(task: Task, left: bool)       // first mutex held, task still wanted
    | Emitting(left: bool)
    | InEvents(left: bool)

  /** Where the owner is in onTaskProcessed. */
  datatype Drain = NotDraining | AtHead | Finishing(task: Task)

  /** Where the owner is in addTask or cancelTask; `victims` are the serial numbers
      of the tasks that carried the id when the cancellation began. */
  datatype Owner = Free | Adding | Canceling(id: nat, victims: set<nat>)

  /** `addedSignals` and `processedSignals` are queued signals; `finished` is the
      order in which finish() was started; `condemned` are the victims of every
      cancellation and `canceled` those of the cancellations that have returned. */
  datatype State = State(
    q: Shared, worker: Worker, drain: Drain, owner: Owner,
    addedSignals: nat, processedSignals: nat, interrupted: bool,
    nextSerial: nat, finished: seq<Task>, processed: set<nat>, condemned: set<nat>, canceled: set<nat>)

  const START := State(Shared([], [], EMPTY_TASK_ID), Idle, NotDraining, Free, 0, 0, false, 0, [], {}, {}, {})

  datatype Step =
    | Add(ids: seq<nat>)      // push under the first mutex
    | EmitAdded
    | CancelFirst(id: nat)
    | CancelSecond
    | DeliverProcessed        // onTaskProcessed is called
    | DrainHead
    | FinishReturns
    | DeliverAdded            // onTaskAdded is called
    | Take
    | ProcessDone
    | CheckWanted             // lock the first mutex and compare
    | Push                    // lock the second mutex, push, unlock both
    | EmitProcessed
    | Swallow                 // a nested onTaskAdded returns at once
    | Leave                   // the test at the end of the loop
    | Interrupt

  function WorkerTask(w: Worker): seq<Task> {
    if w.Processing? || w.Processed? || w.Holding? then [w.task] else []
  }

  function DrainTask(d: Drain): seq<Task> { if d.Finishing? then [d.task] else [] }

  /** Every task that still exists. */
  function Existing(s: State): seq<Task> {
    DrainTask(s.drain) + s.q.toFinish + WorkerTask(s.worker) + s.q.toProcess
  }

  function Numbered(ids: seq<nat>, from: nat): (tasks: seq<Task>)
    ensures |tasks| == |ids| && forall k :: 0 <= k < |ids| ==> tasks[k] == Task(ids[k], from + k)
  {
    seq(|ids|, k requires 0 <= k < |ids| => Task(ids[k], from + k))
  }

  function WithId(tasks: seq<Task>, id: nat): set<nat> { set t | t in tasks && t.id == id :: t.serial }

  /** The tasks that cancelTask(id) is about: not one whose finish() has started. */
  function Victims(s: State, id: nat): set<nat> {
    WithId(s.q.toFinish, id) + WithId(WorkerTask(s.worker), id) + WithId(s.q.toProcess, id)
  }

  /** The owner thread runs user code outside its slots or inside finish(). */
  predicate OwnerFree(s: State) { s.owner == Free && s.drain != AtHead }

  /** Whether a thread can take this step now. New tasks live at addresses that no
      existing task occupies. */
  predicate Enabled(s: State, step: Step) {
    match step
    case Add(ids) =>
      OwnerFree(s) && !s.worker.Holding?
      && (forall k :: 0 <= k < |ids| ==> ids[k] != EMPTY_TASK_ID && forall t :: t in Existing(s) ==> t.id != ids[k])
      && (forall j, k :: 0 <= j < k < |ids| ==> ids[j] != ids[k])
    case EmitAdded => s.owner == Adding
    case CancelFirst(_) => OwnerFree(s) && !s.worker.Holding?
    case CancelSecond => s.owner.Canceling?
    case DeliverProcessed => s.owner == Free && s.drain == NotDraining && s.processedSignals > 0
    case DrainHead => s.owner == Free && s.drain == AtHead
    case FinishReturns => s.owner == Free && s.drain.Finishing?
    case DeliverAdded => s.worker == Idle && s.addedSignals > 0 && !s.interrupted
    case Take => s.worker.Taking?
    case ProcessDone => s.worker.Processing?
    case CheckWanted => s.worker.Processed?
    case Push => s.worker.Holding?
    case EmitProcessed => s.worker.Emitting?
    case Swallow => s.worker.InEvents? && s.addedSignals > 0
    case Leave => s.worker.InEvents?
    case Interrupt => OwnerFree(s)
  }

  function Next(s: State, step: Step): State
    requires Enabled(s, step)
  {
    match step
    case Add(ids) =>
      s.(q := s.q.(toProcess := s.q.toProcess + Numbered(ids, s.nextSerial)),
         nextSerial := s.nextSerial + |ids|, owner := Adding)
    case EmitAdded => s.(owner := Free, addedSignals := s.addedSignals + 1)
    case CancelFirst(id) =>
      var victims := Victims(s, id);
      s.(q := CancelWaiting(s.q, id), owner := Canceling(id, victims), condemned := s.condemned + victims)
    case CancelSecond =>
      s.(q := CancelFinishing(s.q, s.owner.id), owner := Free, canceled := s.canceled + s.owner.victims)
    case DeliverProcessed => s.(processedSignals := s.processedSignals - 1, drain := AtHead)
    case DrainHead =>
      var (q, task) := TakeFinished(s.q);
      if task.None? then s.(drain := NotDraining)
      else s.(q := q, drain := Finishing(task.value), finished := s.finished + [task.value])
    case FinishReturns => s.(drain := AtHead)
    case DeliverAdded => s.(addedSignals := s.addedSignals - 1, worker := Taking(false))
    case Take =>
      var (q, task) := TakeNext(s.q);
      s.(q := q, worker := if task.None? then InEvents(s.worker.left) else Processing(task.value, s.worker.left))
    case ProcessDone =>
      s.(worker := Processed(s.worker.task, s.worker.left), processed := s.processed + {s.worker.task.serial})
    case CheckWanted =>
      var (q, wanted) := Release(s.q, s.worker.task);
      s.(q := q, worker := if wanted then Holding(s.worker.task, q.toProcess != []) else InEvents(s.worker.left))
    case Push =>
      s.(q := s.q.(toFinish := s.q.toFinish + [s.worker.task]),
         worker := if s.q.toFinish == [] then Emitting(s.worker.left) else InEvents(s.worker.left))
    case EmitProcessed => s.(worker := InEvents(s.worker.left), processedSignals := s.processedSignals + 1)
    case Swallow => s.(addedSignals := s.addedSignals - 1)
    case Leave => s.(worker := if s.worker.left && !s.interrupted then Taking(s.worker.left) else Idle)
    case Interrupt => s.(interrupted := true)
  }

  predicate CanRun(s: State, steps: seq<Step>)
    decreases |steps|
  {
    steps == [] || (Enabled(s, steps[0]) && CanRun(Next(s, steps[0]), steps[1..]))
  }

  function RunOf(s: State, steps: seq<Step>): State
    requires CanRun(s, steps)
    decreases |steps|
  {
    if steps == [] then s else RunOf(Next(s, steps[0]), steps[1..])
  }
}
