/** What holds in every interleaving of the two threads of the task queue. */
module TaskQueueProofs {
  import opened TaskQueues

  // ---- The invariant ------------------------------------------------------------

  /** Every task that was ever finished or still exists, oldest stage first. */
  function Line(s: State): seq<Task> {
    s.finished + s.q.toFinish + WorkerTask(s.worker) + s.q.toProcess
  }

  predicate Increasing(tasks: seq<Task>) {
    forall i, j :: 0 <= i < j < |tasks| ==> tasks[i].serial < tasks[j].serial
  }

  predicate DistinctIds(tasks: seq<Task>) {
    forall i, j :: 0 <= i < j < |tasks| ==> tasks[i].id != tasks[j].id
  }

  predicate Ordered(s: State) {
    && Increasing(Line(s)) && DistinctIds(Existing(s))
    && (forall t :: t in Line(s) ==> t.serial < s.nextSerial)
    && (forall t :: t in Existing(s) ==> t.id != EMPTY_TASK_ID)
    && (s.drain.Finishing? ==> s.drain.task in s.finished)
  }

  /** The worker's task is either wanted, or was cancelled while in process. */
  predicate InProcessOk(s: State) {
    && (s.worker.Processing? || s.worker.Processed? ==>
          s.q.inProcess == s.worker.task.id
          || (s.q.inProcess == EMPTY_TASK_ID && s.worker.task.serial in s.condemned))
    && (!s.worker.Processing? && !s.worker.Processed? ==> s.q.inProcess == EMPTY_TASK_ID)
  }

  predicate ProcessedFirst(s: State) {
    && (forall t :: t in s.finished ==> t.serial in s.processed)
    && (forall t :: t in s.q.toFinish ==> t.serial in s.processed)
    && (s.worker.Processed? || s.worker.Holding? ==> s.worker.task.serial in s.processed)
  }

  /** No lost completion. */
  predicate CompletionSeen(s: State) {
    s.q.toFinish == [] || s.processedSignals > 0 || s.worker.Emitting? || s.drain != NotDraining
  }

  /** The task with this serial number will not reach the finish queue again. */
  predicate WillDrop(s: State, c: nat) {
    && (forall t :: t in s.q.toProcess ==> t.serial != c)
    && (forall t :: t in WorkerTask(s.worker) && t.serial == c ==> !s.worker.Holding? && s.q.inProcess == EMPTY_TASK_ID)
  }

  predicate CancelOk(s: State) {
    && s.condemned == s.canceled + (if s.owner.Canceling? then s.owner.victims else {})
    && (forall t :: t in s.finished ==> t.serial !in s.condemned)
    && (forall c :: c in s.condemned ==> c < s.nextSerial)
    && (forall c :: c in s.canceled ==> WillDrop(s, c) && forall t :: t in s.q.toFinish ==> t.serial != c)
    && (s.owner.Canceling? ==>
          && (forall c :: c in s.owner.victims ==>
                WillDrop(s, c) && forall t :: t in s.q.toFinish && t.serial == c ==> t.id == s.owner.id)
          && (forall t :: t in s.q.toFinish && t.id == s.owner.id ==> t.serial in s.owner.victims)
          && (forall t :: t in s.q.toProcess ==> t.id != s.owner.id)
          && (forall t :: t in WorkerTask(s.worker) && t.id == s.owner.id ==>
                !s.worker.Holding? && s.q.inProcess == EMPTY_TASK_ID))
  }

  /** Nothing vanishes but what was cancelled. */
  predicate Conserved(s: State) {
    forall n: nat :: n < s.nextSerial ==> n in s.condemned || exists t :: t in Line(s) && t.serial == n
  }

  predicate Inv(s: State) {
    Ordered(s) && InProcessOk(s) && ProcessedFirst(s) && CompletionSeen(s) && CancelOk(s) && Conserved(s)
  }

  // ---- Lines with a task fewer ----------------------------------------------------

  lemma EraseCuts(queue: seq<Task>, id: nat) returns (i: nat)
    ensures i <= |queue|
    ensures i < |queue| ==> queue[i].id == id
    ensures forall k :: 0 <= k < i ==> queue[k].id != id
    ensures EraseFirst(queue, id) == if i < |queue| then queue[..i] + queue[i + 1..] else queue
  {
    i := 0;
    while i < |queue| && queue[i].id != id
      invariant i <= |queue| && forall k :: 0 <= k < i ==> queue[k].id != id
    {
      i := i + 1;
    }
    EraseAt(queue, id, i);
  }

  /** b is a with its element at i left out. */
  predicate IsCut(a: seq<Task>, b: seq<Task>, i: nat) {
    i < |a| && b == a[..i] + a[i + 1..]
  }

  lemma CutKeeps(a: seq<Task>, b: seq<Task>, i: nat)
    requires IsCut(a, b, i)
    ensures Increasing(a) ==> Increasing(b)
    ensures DistinctIds(a) ==> DistinctIds(b)
    ensures forall t :: t in b ==> t in a
    ensures forall t :: t in a ==> t in b || t == a[i]
  {
    forall t | t in a
      ensures t in b || t == a[i]
    {
      var k :| 0 <= k < |a| && a[k] == t;
      assert k < i ==> b[k] == t;
      assert k > i ==> b[k - 1] == t;
    }
  }

  /** The same tasks in the same order. */
  lemma OrderedSame(s: State, s': State)
    requires Ordered(s) && Conserved(s)
    requires Line(s') == Line(s) && Existing(s') == Existing(s) && s'.nextSerial == s.nextSerial
    requires s.condemned <= s'.condemned && (s'.drain.Finishing? ==> s'.drain.task in s'.finished)
    ensures Ordered(s') && Conserved(s')
  {
  }

  /** One task fewer, and that one condemned. */
  lemma OrderedCut(s: State, s': State, i: nat, j: nat)
    requires Ordered(s) && Conserved(s)
    requires IsCut(Line(s), Line(s'), i) && IsCut(Existing(s), Existing(s'), j) && s'.nextSerial == s.nextSerial
    requires s.condemned <= s'.condemned && Line(s)[i].serial in s'.condemned
    requires s'.drain == s.drain && s'.finished == s.finished
    ensures Ordered(s') && Conserved(s')
  {
    CutKeeps(Line(s), Line(s'), i);
    CutKeeps(Existing(s), Existing(s'), j);
    forall n: nat | n < s'.nextSerial && n !in s'.condemned
      ensures exists t :: t in Line(s') && t.serial == n
    {
      var t :| t in Line(s) && t.serial == n;
      assert t in Line(s');
    }
  }

  // ---- One step, one aspect at a time ----------------------------------------------

  lemma HeadMoves(a: seq<Task>, b: seq<Task>)
    requires b != []
    ensures a + [] + b == a + [b[0]] + b[1..]
    ensures a + b == a + [b[0]] + b[1..]
  {
  }

  lemma AddLines(s: State, ids: seq<nat>)
    requires Ordered(s) && Conserved(s) && Enabled(s, Add(ids))
    ensures Ordered(Next(s, Add(ids))) && Conserved(Next(s, Add(ids)))
  {
    hide Numbered, OwnerFree, Victims, CancelFinishing, TakeNext;
    var s' := Next(s, Add(ids));
    var tasks := Numbered(ids, s.nextSerial);
    assert Line(s') == Line(s) + tasks;
    assert Existing(s') == Existing(s) + tasks;
    forall n: nat | n < s'.nextSerial
      ensures n in s'.condemned || exists t :: t in Line(s') && t.serial == n
    {
      if n >= s.nextSerial {
        assert tasks[n - s.nextSerial] in Line(s');
      } else if n !in s.condemned {
        var t :| t in Line(s) && t.serial == n;
        assert t in Line(s');
      }
    }
  }

  lemma TakeLines(s: State)
    requires Ordered(s) && Conserved(s) && Enabled(s, Take)
    ensures Ordered(Next(s, Take)) && Conserved(Next(s, Take))
  {
    var s' := Next(s, Take);
    if s.q.toProcess != [] {
      HeadMoves(s.finished + s.q.toFinish, s.q.toProcess);
      HeadMoves(DrainTask(s.drain) + s.q.toFinish, s.q.toProcess);
    }
    OrderedSame(s, s');
  }

  lemma CheckCuts(s: State)
    requires Enabled(s, CheckWanted) && Next(s, CheckWanted).worker.InEvents?
    ensures var s' := Next(s, CheckWanted);
            var i, j := |s.finished| + |s.q.toFinish|, |DrainTask(s.drain)| + |s.q.toFinish|;
            IsCut(Line(s), Line(s'), i) && Line(s)[i] == s.worker.task && IsCut(Existing(s), Existing(s'), j)
  {
    hide DrainTask;
    var one := [s.worker.task];
    assert one[..0] + one[1..] == [];
    CutInside(s.finished + s.q.toFinish, one, s.q.toProcess, 0);
    CutInside(DrainTask(s.drain) + s.q.toFinish, one, s.q.toProcess, 0);
  }

  lemma CheckLines(s: State)
    requires Ordered(s) && Conserved(s) && InProcessOk(s) && Enabled(s, CheckWanted)
    ensures Ordered(Next(s, CheckWanted)) && Conserved(Next(s, CheckWanted))
  {
    var s' := Next(s, CheckWanted);
    if s'.worker.Holding? {
      OrderedSame(s, s');
    } else {
      CheckCuts(s);
      OrderedCut(s, s', |s.finished| + |s.q.toFinish|, |DrainTask(s.drain)| + |s.q.toFinish|);
    }
  }

  lemma PushLines(s: State)
    requires Ordered(s) && Conserved(s) && Enabled(s, Push)
    ensures Ordered(Next(s, Push)) && Conserved(Next(s, Push))
  {
    var s' := Next(s, Push);
    assert Line(s') == Line(s) && Existing(s') == Existing(s);
    OrderedSame(s, s');
  }

  lemma DrainLines(s: State)
    requires Ordered(s) && Conserved(s) && Enabled(s, DrainHead)
    ensures Ordered(Next(s, DrainHead)) && Conserved(Next(s, DrainHead))
  {
    var s' := Next(s, DrainHead);
    if s.q.toFinish != [] {
      HeadMoves(s.finished, s.q.toFinish);
      HeadMoves([], s.q.toFinish);
      assert s'.drain.task in s'.finished;
    }
    OrderedSame(s, s');
  }

  lemma FinishReturnsLines(s: State)
    requires Ordered(s) && Conserved(s) && Enabled(s, FinishReturns)
    ensures Ordered(Next(s, FinishReturns)) && Conserved(Next(s, FinishReturns))
  {
    CutKeeps(Existing(s), Existing(Next(s, FinishReturns)), 0);
  }

  /** What the first half of a cancellation changes. */
  lemma CancelFirstShape(s: State, id: nat)
    requires Enabled(s, CancelFirst(id))
    ensures var s' := Next(s, CancelFirst(id));
            && s'.q.toProcess == EraseFirst(s.q.toProcess, id) && s'.q.toFinish == s.q.toFinish
            && s'.q.inProcess == (if s.q.inProcess == id then EMPTY_TASK_ID else s.q.inProcess)
            && s'.worker == s.worker && s'.drain == s.drain && s'.finished == s.finished
            && s'.nextSerial == s.nextSerial && s'.owner == Canceling(id, Victims(s, id))
            && s'.condemned == s.condemned + Victims(s, id)
            && s'.canceled == s.canceled
  {
    hide Victims, EraseFirst;
  }

  /** The stretch before the waiting tasks is the same before and after. */
  lemma CutWaiting(before: seq<Task>, queue: seq<Task>, i: nat)
    requires i < |queue|
    ensures IsCut(before + queue, before + (queue[..i] + queue[i + 1..]), |before| + i)
    ensures (before + queue)[|before| + i] == queue[i]
  {
  }

  lemma CancelFirstCuts(s: State, id: nat, i: nat) returns (k: nat, m: nat)
    requires Enabled(s, CancelFirst(id)) && i < |s.q.toProcess| && s.q.toProcess[i].id == id
    requires EraseFirst(s.q.toProcess, id) == s.q.toProcess[..i] + s.q.toProcess[i + 1..]
    ensures var s' := Next(s, CancelFirst(id));
            && IsCut(Line(s), Line(s'), k) && Line(s)[k].serial in Victims(s, id)
            && IsCut(Existing(s), Existing(s'), m)
  {
    CancelFirstShape(s, id);
    hide Next, Enabled, EraseFirst, IsCut, WorkerTask, DrainTask;
    var held := s.finished + s.q.toFinish + WorkerTask(s.worker);
    var existing := DrainTask(s.drain) + s.q.toFinish + WorkerTask(s.worker);
    k, m := |held| + i, |existing| + i;
    CutWaiting(held, s.q.toProcess, i);
    CutWaiting(existing, s.q.toProcess, i);
    assert s.q.toProcess[i].serial in WithId(s.q.toProcess, id);
  }

  lemma CancelFirstLines(s: State, id: nat)
    requires Ordered(s) && Conserved(s) && Enabled(s, CancelFirst(id))
    ensures Ordered(Next(s, CancelFirst(id))) && Conserved(Next(s, CancelFirst(id)))
  {
    CancelFirstShape(s, id);
    var s' := Next(s, CancelFirst(id));
    var i := EraseCuts(s.q.toProcess, id);
    if i < |s.q.toProcess| {
      hide *;
      var k, m := CancelFirstCuts(s, id, i);
      OrderedCut(s, s', k, m);
    } else {
      assert s.drain.Finishing? ==> s.drain.task in s.finished;
      hide Next, Enabled, EraseFirst, Conserved, Ordered, Victims;
      OrderedSame(s, s');
    }
  }

  lemma CutInside(a: seq<Task>, b: seq<Task>, c: seq<Task>, i: nat)
    requires i < |b|
    ensures IsCut(a + b + c, a + (b[..i] + b[i + 1..]) + c, |a| + i) && (a + b + c)[|a| + i] == b[i]
    ensures c == [] ==> a + b + c == a + b && a + (b[..i] + b[i + 1..]) + c == a + (b[..i] + b[i + 1..])
  {
  }

  lemma CutSecondOfFour(a: seq<Task>, b: seq<Task>, b': seq<Task>, c: seq<Task>, d: seq<Task>, i: nat)
    requires IsCut(b, b', i)
    ensures IsCut(a + b + c + d, a + b' + c + d, |a| + i) && (a + b + c + d)[|a| + i] == b[i]
  {
    CutInside(a, b, c + d, i);
    assert a + b + c + d == a + b + (c + d);
    assert a + b' + c + d == a + b' + (c + d);
  }

  lemma CancelSecondCuts(s: State, i: nat)
    requires Enabled(s, CancelSecond) && i < |s.q.toFinish|
    requires EraseFirst(s.q.toFinish, s.owner.id) == s.q.toFinish[..i] + s.q.toFinish[i + 1..]
    ensures var s' := Next(s, CancelSecond);
            && IsCut(Line(s), Line(s'), |s.finished| + i) && Line(s)[|s.finished| + i] == s.q.toFinish[i]
            && IsCut(Existing(s), Existing(s'), |DrainTask(s.drain)| + i)
  {
    var rest := EraseFirst(s.q.toFinish, s.owner.id);
    CutSecondOfFour(s.finished, s.q.toFinish, rest, WorkerTask(s.worker), s.q.toProcess, i);
    CutSecondOfFour(DrainTask(s.drain), s.q.toFinish, rest, WorkerTask(s.worker), s.q.toProcess, i);
  }

  lemma CancelSecondShape(s: State)
    requires Enabled(s, CancelSecond)
    ensures var s' := Next(s, CancelSecond);
            && s'.q == s.q.(toFinish := EraseFirst(s.q.toFinish, s.owner.id)) && s'.worker == s.worker
            && s'.drain == s.drain && s'.finished == s.finished && s'.nextSerial == s.nextSerial
            && s'.condemned == s.condemned
  {
    hide EraseFirst;
  }

  lemma CancelSecondLines(s: State)
    requires Ordered(s) && Conserved(s) && Enabled(s, CancelSecond)
    requires forall k :: 0 <= k < |s.q.toFinish| && s.q.toFinish[k].id == s.owner.id ==>
               s.q.toFinish[k].serial in s.condemned
    ensures Ordered(Next(s, CancelSecond)) && Conserved(Next(s, CancelSecond))
  {
    assert s.owner.Canceling?;
    CancelSecondShape(s);
    assert s.drain.Finishing? ==> s.drain.task in s.finished;
    hide Next, Enabled, EraseFirst, Conserved, Ordered;
    var s' := Next(s, CancelSecond);
    var i := EraseCuts(s.q.toFinish, s.owner.id);
    if i < |s.q.toFinish| {
      hide Line, Existing, IsCut;
      CancelSecondCuts(s, i);
      OrderedCut(s, s', |s.finished| + i, |DrainTask(s.drain)| + i);
    } else {
      OrderedSame(s, s');
    }
  }

  lemma StepLines(s: State, step: Step)
    requires Inv(s) && Enabled(s, step)
    ensures Ordered(Next(s, step)) && Conserved(Next(s, step))
  {
    match step
    case Add(ids) => AddLines(s, ids);
    case CancelFirst(id) => CancelFirstLines(s, id);
    case CancelSecond => CancelSecondLines(s);
    case DrainHead => DrainLines(s);
    case FinishReturns => FinishReturnsLines(s);
    case Take => TakeLines(s);
    case CheckWanted => CheckLines(s);
    case Push => PushLines(s);
    case EmitAdded => OrderedSame(s, Next(s, step));
    case DeliverProcessed => OrderedSame(s, Next(s, step));
    case DeliverAdded => OrderedSame(s, Next(s, step));
    case ProcessDone => OrderedSame(s, Next(s, step));
    case EmitProcessed => OrderedSame(s, Next(s, step));
    case Swallow => OrderedSame(s, Next(s, step));
    case Leave => OrderedSame(s, Next(s, step));
    case Interrupt => OrderedSame(s, Next(s, step));
  }

  // ---- Cancellation -------------------------------------------------------------------

  lemma CutHasNot(queue: seq<Task>, rest: seq<Task>, i: nat, t: Task)
    requires DistinctIds(queue) && IsCut(queue, rest, i) && t in rest
    ensures t in queue && t.id != queue[i].id
  {
    CutKeeps(queue, rest, i);
    var k :| 0 <= k < |rest| && rest[k] == t;
    assert t == queue[if k < i then k else k + 1];
  }

  /** Erasing the task with this id, when ids are distinct, leaves none with it. */
  lemma EraseLeavesNone(queue: seq<Task>, id: nat)
    requires DistinctIds(queue)
    ensures forall t :: t in EraseFirst(queue, id) ==> t in queue && t.id != id
  {
    var i := EraseCuts(queue, id);
    if i < |queue| {
      hide EraseFirst, IsCut, DistinctIds;
      forall t | t in EraseFirst(queue, id)
        ensures t in queue && t.id != id
      {
        CutHasNot(queue, EraseFirst(queue, id), i, t);
      }
    }
  }

  /** A stretch of a line with distinct ids has distinct ids. */
  lemma StretchDistinct(a: seq<Task>, b: seq<Task>, c: seq<Task>)
    requires DistinctIds(a + b + c)
    ensures DistinctIds(b)
  {
    forall i, j | 0 <= i < j < |b|
      ensures b[i].id != b[j].id
    {
      assert b[i] == (a + b + c)[|a| + i] && b[j] == (a + b + c)[|a| + j];
    }
  }

  lemma QueuesDistinct(s: State)
    requires DistinctIds(Existing(s))
    ensures DistinctIds(s.q.toProcess) && DistinctIds(s.q.toFinish)
  {
    var a, b, c := DrainTask(s.drain), WorkerTask(s.worker), s.q.toProcess;
    assert Existing(s) == a + s.q.toFinish + (b + c);
    StretchDistinct(a, s.q.toFinish, b + c);
    assert Existing(s) == (a + s.q.toFinish + b) + c + [];
    StretchDistinct(a + s.q.toFinish + b, c, []);
  }

  predicate InQueues(s: State, t: Task) {
    t in s.q.toFinish || t in WorkerTask(s.worker) || t in s.q.toProcess
  }

  /** Serial numbers identify tasks. */
  lemma SameSerialSameTask(s: State, u: Task, v: Task)
    requires Increasing(Line(s)) && InQueues(s, u) && InQueues(s, v) && u.serial == v.serial
    ensures u == v
  {
    assert u in Line(s) && v in Line(s);
  }

  lemma VictimsHaveId(s: State, id: nat, c: nat, t: Task)
    requires Increasing(Line(s)) && c in Victims(s, id) && InQueues(s, t) && t.serial == c
    ensures t.id == id
  {
    var v :| InQueues(s, v) && v.id == id && v.serial == c;
    SameSerialSameTask(s, t, v);
  }

  /** After the first half, a victim is only left in the finish queue or with a
      worker that will drop it. */
  lemma CancelFirstInProcess(s: State, id: nat)
    requires InProcessOk(s) && Enabled(s, CancelFirst(id))
    ensures InProcessOk(Next(s, CancelFirst(id)))
  {
    CancelFirstShape(s, id);
    hide Next, Enabled, EraseFirst;
    if s.q.inProcess == id && (s.worker.Processing? || s.worker.Processed?) {
      assert s.worker.task in WorkerTask(s.worker);
    }
  }

  /** The victims' tasks, where they still are. */
  lemma VictimsDrop(s: State, id: nat, c: nat)
    requires InProcessOk(s) && Enabled(s, CancelFirst(id)) && c in Victims(s, id)
    requires forall t :: InQueues(s, t) && t.serial == c ==> t.id == id
    requires forall t :: InQueues(s, t) ==> t.serial < s.nextSerial
    requires forall t, u :: t in s.finished && InQueues(s, u) ==> t.serial < u.serial
    requires forall t :: t in EraseFirst(s.q.toProcess, id) ==> t in s.q.toProcess && t.id != id
    ensures WillDrop(Next(s, CancelFirst(id)), c) && c < s.nextSerial
    ensures forall t :: t in s.finished ==> t.serial != c
  {
    CancelFirstShape(s, id);
    hide Next, EraseFirst;
    var s' := Next(s, CancelFirst(id));
    forall t | t in s'.q.toProcess
      ensures t.serial != c
    {
      assert InQueues(s, t);
    }
    forall t | t in WorkerTask(s'.worker) && t.serial == c
      ensures s'.q.inProcess == EMPTY_TASK_ID
    {
      assert InQueues(s, t);
    }
    var v :| InQueues(s, v) && v.serial == c;
  }

  lemma DropStays(s: State, id: nat, c: nat)
    requires Enabled(s, CancelFirst(id)) && WillDrop(s, c)
    requires forall t :: t in EraseFirst(s.q.toProcess, id) ==> t in s.q.toProcess && t.id != id
    ensures WillDrop(Next(s, CancelFirst(id)), c)
  {
    CancelFirstShape(s, id);
    hide Next, EraseFirst, Enabled;
  }

  lemma CancelFirstWants(s: State, id: nat)
    requires InProcessOk(s) && CancelOk(s) && Enabled(s, CancelFirst(id))
    requires forall c, t :: c in Victims(s, id) && InQueues(s, t) && t.serial == c ==> t.id == id
    requires forall t :: InQueues(s, t) ==> t.serial < s.nextSerial
    requires forall t, u :: t in s.finished && InQueues(s, u) ==> t.serial < u.serial
    requires forall t :: t in EraseFirst(s.q.toProcess, id) ==> t in s.q.toProcess && t.id != id
    ensures InProcessOk(Next(s, CancelFirst(id))) && CancelOk(Next(s, CancelFirst(id)))
  {
    CancelFirstInProcess(s, id);
    CancelFirstShape(s, id);
    assert s.owner == Free && !s.worker.Holding?;
    forall c | c in Victims(s, id)
      ensures WillDrop(Next(s, CancelFirst(id)), c) && c < s.nextSerial && forall t :: t in s.finished ==> t.serial != c
    {
      VictimsDrop(s, id, c);
    }
    var s' := Next(s, CancelFirst(id));
    forall c | WillDrop(s, c)
      ensures WillDrop(s', c)
    {
      DropStays(s, id, c);
    }
    hide Next, Enabled, EraseFirst, WillDrop;
    assert forall t :: t in s.q.toFinish && t.id == id ==> t.serial in WithId(s.q.toFinish, id);
    assert forall t :: t in WorkerTask(s.worker) && t.id == id ==> t.serial in WithId(WorkerTask(s.worker), id);
    hide WithId, Victims;
    forall t | t in s'.q.toFinish && t.serial in s'.owner.victims
      ensures t.id == id
    {
      assert InQueues(s, t);
    }
    assert forall t :: t in WorkerTask(s.worker) ==> InQueues(s, t);
  }

  lemma FinishedIsOlder(s: State)
    requires Increasing(Line(s))
    ensures forall t, u :: t in s.finished && InQueues(s, u) ==> t.serial < u.serial
  {
    var rest := s.q.toFinish + WorkerTask(s.worker) + s.q.toProcess;
    assert Line(s) == s.finished + rest;
    forall t, u | t in s.finished && InQueues(s, u)
      ensures t.serial < u.serial
    {
      assert u in rest;
      var i :| 0 <= i < |s.finished| && s.finished[i] == t;
      var j :| 0 <= j < |rest| && rest[j] == u;
      assert Line(s)[i] == t && Line(s)[|s.finished| + j] == u;
    }
  }

  lemma CancelSecondWants(s: State)
    requires InProcessOk(s) && CancelOk(s) && Enabled(s, CancelSecond)
    requires forall t :: t in EraseFirst(s.q.toFinish, s.owner.id) ==> t in s.q.toFinish && t.id != s.owner.id
    ensures InProcessOk(Next(s, CancelSecond)) && CancelOk(Next(s, CancelSecond))
  {
  }

  lemma CheckWants(s: State)
    requires InProcessOk(s) && CancelOk(s) && Enabled(s, CheckWanted)
    requires forall t :: t in WorkerTask(s.worker) ==> t.id != EMPTY_TASK_ID
    ensures InProcessOk(Next(s, CheckWanted)) && CancelOk(Next(s, CheckWanted))
  {
    assert s.worker.task in WorkerTask(s.worker);
  }

  lemma TakeWants(s: State)
    requires InProcessOk(s) && CancelOk(s) && Enabled(s, Take)
    ensures InProcessOk(Next(s, Take)) && CancelOk(Next(s, Take))
  {
    if s.q.toProcess != [] {
      assert s.q.toProcess[0] in s.q.toProcess;
    }
  }

  lemma PushWants(s: State)
    requires InProcessOk(s) && CancelOk(s) && Enabled(s, Push)
    ensures InProcessOk(Next(s, Push)) && CancelOk(Next(s, Push))
  {
    assert s.worker.task in WorkerTask(s.worker);
  }

  lemma AddWants(s: State, ids: seq<nat>)
    requires InProcessOk(s) && CancelOk(s) && Enabled(s, Add(ids))
    ensures InProcessOk(Next(s, Add(ids))) && CancelOk(Next(s, Add(ids)))
  {
    var s' := Next(s, Add(ids));
    assert forall c :: c in s.condemned && WillDrop(s, c) ==> WillDrop(s', c);
  }

  lemma DrainWants(s: State)
    requires InProcessOk(s) && CancelOk(s) && Enabled(s, DrainHead)
    ensures InProcessOk(Next(s, DrainHead)) && CancelOk(Next(s, DrainHead))
  {
    var s' := Next(s, DrainHead);
    assert forall c :: WillDrop(s, c) ==> WillDrop(s', c);
    if s.q.toFinish != [] {
      assert s.q.toFinish[0] in s.q.toFinish;
    }
  }

  lemma OtherWants(s: State, step: Step)
    requires InProcessOk(s) && CancelOk(s) && Enabled(s, step)
    requires !step.Add? && !step.CancelFirst? && !step.CancelSecond? && !step.Take? && !step.CheckWanted?
    requires !step.Push? && !step.DrainHead?
    ensures InProcessOk(Next(s, step)) && CancelOk(Next(s, step))
  {
    var s' := Next(s, step);
    assert WorkerTask(s'.worker) == WorkerTask(s.worker);
    assert forall c :: WillDrop(s, c) ==> WillDrop(s', c);
  }

  lemma StepWants(s: State, step: Step)
    requires Inv(s) && Enabled(s, step)
    ensures InProcessOk(Next(s, step)) && CancelOk(Next(s, step))
  {
    match step
    case Add(ids) => AddWants(s, ids);
    case CancelFirst(id) =>
      forall c, t | c in Victims(s, id) && InQueues(s, t) && t.serial == c
        ensures t.id == id
      {
        VictimsHaveId(s, id, c, t);
      }
      assert forall t :: InQueues(s, t) ==> t in Line(s);
      FinishedIsOlder(s);
      QueuesDistinct(s);
      EraseLeavesNone(s.q.toProcess, id);
      CancelFirstWants(s, id);
    case CancelSecond =>
      QueuesDistinct(s);
      EraseLeavesNone(s.q.toFinish, s.owner.id);
      CancelSecondWants(s);
    case Take => TakeWants(s);
    case CheckWanted =>
      assert forall t :: t in WorkerTask(s.worker) ==> t in Existing(s);
      CheckWants(s);
    case Push => PushWants(s);
    case EmitAdded => OtherWants(s, step);
    case DeliverProcessed => OtherWants(s, step);
    case DrainHead => DrainWants(s);
    case FinishReturns => OtherWants(s, step);
    case DeliverAdded => OtherWants(s, step);
    case ProcessDone => OtherWants(s, step);
    case EmitProcessed => OtherWants(s, step);
    case Swallow => OtherWants(s, step);
    case Leave => OtherWants(s, step);
    case Interrupt => OtherWants(s, step);
  }

  // ---- Processing before finishing, and the finisher's wake-up --------------------------

  lemma EraseShrinks(queue: seq<Task>, id: nat)
    ensures forall t :: t in EraseFirst(queue, id) ==> t in queue
    ensures queue == [] ==> EraseFirst(queue, id) == []
  {
    var i := EraseCuts(queue, id);
    if i < |queue| {
      CutKeeps(queue, EraseFirst(queue, id), i);
    }
  }

  lemma StepProcessed(s: State, step: Step)
    requires ProcessedFirst(s) && CompletionSeen(s) && Enabled(s, step)
    ensures ProcessedFirst(Next(s, step)) && CompletionSeen(Next(s, step))
  {
    if step == CancelSecond {
      EraseShrinks(s.q.toFinish, s.owner.id);
    }
  }

  /** One step of either thread keeps the invariant. */
  lemma StepKeeps(s: State, step: Step)
    requires Inv(s) && Enabled(s, step)
    ensures Inv(Next(s, step))
  {
    StepLines(s, step);
    StepWants(s, step);
    StepProcessed(s, step);
  }

  // ---- Every interleaving -------------------------------------------------------------

  lemma {:induction false} RunKeeps(s: State, steps: seq<Step>)
    requires Inv(s) && CanRun(s, steps)
    ensures Inv(RunOf(s, steps))
    decreases |steps|
  {
    if steps != [] {
      StepKeeps(s, steps[0]);
      RunKeeps(Next(s, steps[0]), steps[1..]);
    }
  }

  /** Whatever the two threads do: tasks are finished in the order they were added,
      each at most once and only after being processed; no task is both cancelled
      and finished; every task added is finished, cancelled or still in one of the
      four places. */
  lemma EveryInterleaving(steps: seq<Step>)
    requires CanRun(START, steps)
    ensures var s := RunOf(START, steps);
            && Increasing(s.finished)
            && (forall t :: t in s.finished ==> t.serial in s.processed && t.serial !in s.condemned)
            && Increasing(Line(s)) && DistinctIds(Existing(s))
            && Conserved(s) && CompletionSeen(s)
  {
    RunKeeps(START, steps);
    var s := RunOf(START, steps);
    assert forall i :: 0 <= i < |s.finished| ==> Line(s)[i] == s.finished[i];
  }

  /** When no completion signal is pending or about to be sent and the finisher is
      not draining, nothing is left to finish. */
  lemma FinisherAtRest(steps: seq<Step>)
    requires CanRun(START, steps)
    requires var s := RunOf(START, steps);
             s.processedSignals == 0 && !s.worker.Emitting? && s.drain == NotDraining
    ensures RunOf(START, steps).q.toFinish == []
  {
    RunKeeps(START, steps);
  }

  /** The worker's transfer, with both mutexes held from the check to the push: a task
      that is still wanted joins the finish queue, and a completion signal will follow
      exactly if that queue was empty; any other task is dropped and nothing else
      changes. */
  lemma TransferSignalsIff(s: State)
    requires s.worker.Processed?
    ensures var task, t := s.worker.task, Next(s, CheckWanted);
            && (t.worker.Holding? <==> s.q.inProcess == task.id)
            && (t.worker.Holding? ==>
                  var u := Next(t, Push);
                  && u.q == Shared(s.q.toProcess, s.q.toFinish + [task], EMPTY_TASK_ID)
                  && (u.worker.Emitting? <==> s.q.toFinish == [])
                  && (u.worker.Emitting? || u.worker.InEvents?) && u.worker.left == (s.q.toProcess != []))
            && (!t.worker.Holding? ==> t == s.(worker := InEvents(s.worker.left)))
  {
  }

  /** Once cancelTask has returned, finish() is never started for the task it was
      about, however the threads go on. */
  lemma {:induction false} CancelIsFinal(s: State, steps: seq<Step>, c: nat)
    requires Inv(s) && CanRun(s, steps) && c in s.canceled
    ensures var s' := RunOf(s, steps);
            c in s'.canceled && forall t :: t in s'.finished ==> t.serial != c
    decreases |steps|
  {
    if steps != [] {
      StepKeeps(s, steps[0]);
      CancelIsFinal(Next(s, steps[0]), steps[1..], c);
    }
  }

  /** cancelTask(id) is about the task with that id that is waiting, in process or
      waiting to be finished: when it returns, that task counts as cancelled. */
  lemma CancelTaskCancels(s: State, id: nat, between: seq<Step>, t: Task)
    requires Inv(s) && Enabled(s, CancelFirst(id)) && InQueues(s, t) && t.id == id
    requires CanRun(Next(s, CancelFirst(id)), between)
    requires forall k :: 0 <= k < |between| ==> IsWorkerStep(between[k])
    ensures var s1 := RunOf(Next(s, CancelFirst(id)), between);
            Enabled(s1, CancelSecond) && t.serial in Next(s1, CancelSecond).canceled
  {
    StepKeeps(s, CancelFirst(id));
    var s0 := Next(s, CancelFirst(id));
    assert t.serial in WithId(s.q.toFinish, id) + WithId(WorkerTask(s.worker), id) + WithId(s.q.toProcess, id);
    WorkerKeepsOwner(s0, between);
  }

  predicate IsWorkerStep(step: Step) {
    step.DeliverAdded? || step.Take? || step.ProcessDone? || step.CheckWanted? || step.Push?
    || step.EmitProcessed? || step.Swallow? || step.Leave?
  }

  lemma {:induction false} WorkerKeepsOwner(s: State, steps: seq<Step>)
    requires CanRun(s, steps) && forall k :: 0 <= k < |steps| ==> IsWorkerStep(steps[k])
    ensures RunOf(s, steps).owner == s.owner
    decreases |steps|
  {
    if steps != [] {
      assert IsWorkerStep(steps[0]);
      WorkerKeepsOwner(Next(s, steps[0]), steps[1..]);
    }
  }

  // ---- Interruption ----------------------------------------------------------------------

  function Takes(steps: seq<Step>): nat {
    if steps == [] then 0 else (if steps[0].Take? then 1 else 0) + Takes(steps[1..])
  }

  /** Once its thread has been asked to stop, the worker takes no further task, except the
      one it may be about to take. */
  lemma {:induction false} InterruptedStops(s: State, steps: seq<Step>)
    requires s.interrupted && CanRun(s, steps)
    ensures Takes(steps) <= if s.worker.Taking? then 1 else 0
    decreases |steps|
  {
    if steps != [] {
      InterruptedStops(Next(s, steps[0]), steps[1..]);
    }
  }
}
