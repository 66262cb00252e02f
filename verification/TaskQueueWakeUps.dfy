/** When a waiting task is looked at again: the worker's wake-ups, and exactly which
    steps lose one. */
module TaskQueueWakeUps {
  import opened TaskQueues
  import opened TaskQueueProofs

  /** The worker is before its test of the waiting queue and will make it, or knows
      that something is left. */
  predicate WillLook(s: State) {
    match s.worker
    case Idle => false
    case Taking(_) => true
    case Processing(t, left) => s.q.inProcess == t.id || left
    case Processed(t, left) => s.q.inProcess == t.id || left
    case Holding(_, left) => left
    case Emitting(left) => left
    case InEvents(left) => left
  }

  /** Whatever waits will be looked at without another addTask. */
  predicate Seen(s: State) {
    s.q.toProcess == [] || s.interrupted || s.addedSignals > 0 || s.owner == Adding || WillLook(s)
  }

  /** A task waits, and nothing is under way that would make the worker look. */
  predicate Stranded(s: State) { s.worker == Idle && !Seen(s) }

  /** The nested call that swallows the last wake-up after the worker has found the
      queue empty, and the cancellation of the task in process before the worker has
      learnt that another one waits. */
  predicate Loses(s: State, step: Step) {
    && !s.interrupted && s.q.toProcess != []
    && match step
       case Swallow => s.addedSignals == 1 && s.worker == InEvents(false) && s.owner != Adding
       case CancelFirst(id) =>
         && s.addedSignals == 0 && (s.worker.Processing? || s.worker.Processed?)
         && s.worker.task.id == id == s.q.inProcess && !s.worker.left
       case _ => false
  }

  // ---- One step -------------------------------------------------------------------------

  lemma LaterIdsDiffer(a: seq<Task>, t: Task, c: seq<Task>)
    requires DistinctIds(a + [t] + c)
    ensures forall k :: 0 <= k < |c| ==> c[k].id != t.id
  {
    var all := a + [t] + c;
    forall k | 0 <= k < |c|
      ensures c[k].id != t.id
    {
      assert all[|a|] == t && all[|a| + 1 + k] == c[k];
    }
  }

  lemma WorkerTaskHasId(s: State)
    requires Inv(s) && WorkerTask(s.worker) != []
    ensures s.worker.task.id != EMPTY_TASK_ID
  {
    hide InProcessOk, ProcessedFirst, CompletionSeen, CancelOk, Conserved, Increasing, DistinctIds;
    assert s.worker.task in Existing(s);
  }

  lemma InLine(s: State)
    requires Inv(s) && s.q.toProcess != []
    ensures s.q.toProcess[0].id != EMPTY_TASK_ID
  {
    hide InProcessOk, ProcessedFirst, CompletionSeen, CancelOk, Conserved, Increasing, DistinctIds;
    assert s.q.toProcess[0] in Existing(s);
  }

  /** The task in process waits in no queue, so cancelling it removes no waiting one. */
  lemma InProcessIsNotWaiting(s: State, id: nat)
    requires Inv(s) && (s.worker.Processing? || s.worker.Processed?) && s.worker.task.id == id
    ensures EraseFirst(s.q.toProcess, id) == s.q.toProcess && id != EMPTY_TASK_ID
  {
    WorkerTaskHasId(s);
    hide InProcessOk, ProcessedFirst, CompletionSeen, CancelOk, Conserved, Increasing, DistinctIds, EraseFirst;
    LaterIdsDiffer(DrainTask(s.drain) + s.q.toFinish, s.worker.task, s.q.toProcess);
    var i := EraseCuts(s.q.toProcess, id);
  }

  lemma CancelLosesIff(s: State, id: nat)
    requires Inv(s) && Seen(s) && Enabled(s, CancelFirst(id))
    ensures !Seen(Next(s, CancelFirst(id))) <==> Loses(s, CancelFirst(id))
  {
    CancelFirstShape(s, id);
    if (s.worker.Processing? || s.worker.Processed?) && s.worker.task.id == id {
      InProcessIsNotWaiting(s, id);
    }
    assert InProcessOk(s);
    var i := EraseCuts(s.q.toProcess, id);
    hide Inv, Next, EraseFirst;
  }

  /** A wake-up that is on its way is lost by exactly these steps. */
  lemma LosesIff(s: State, step: Step)
    requires Inv(s) && Seen(s) && Enabled(s, step)
    ensures !Seen(Next(s, step)) <==> Loses(s, step)
  {
    if step.CancelFirst? {
      CancelLosesIff(s, step.id);
    } else {
      if step == Take && s.q.toProcess != [] {
        InLine(s);
      }
      assert InProcessOk(s);
      hide Inv, EraseFirst, Victims, Numbered;
    }
  }

  /** A lost wake-up comes back only with another addTask, with the end of the worker,
      or by cancelling the last task that waits. */
  lemma FoundIff(s: State, step: Step)
    requires Inv(s) && !Seen(s) && Enabled(s, step)
    ensures Seen(Next(s, step))
       <==> step.Add? || step == Interrupt || (step.CancelFirst? && EraseFirst(s.q.toProcess, step.id) == [])
  {
    if WorkerTask(s.worker) != [] {
      WorkerTaskHasId(s);
    }
    hide Inv, EraseFirst, Victims, Numbered;
  }

  // ---- Runs -----------------------------------------------------------------------------

  /** No step of the run loses a wake-up. */
  predicate LosesNone(s: State, steps: seq<Step>)
    requires CanRun(s, steps)
    decreases |steps|
  {
    steps == [] || (!Loses(s, steps[0]) && LosesNone(Next(s, steps[0]), steps[1..]))
  }

  /** In every state of the run whatever waits will be looked at. */
  predicate AlwaysSeen(s: State, steps: seq<Step>)
    requires CanRun(s, steps)
    decreases |steps|
  {
    Seen(s) && (steps == [] || AlwaysSeen(Next(s, steps[0]), steps[1..]))
  }

  lemma NotSeenAtOnce(s: State, steps: seq<Step>)
    requires CanRun(s, steps) && !Seen(s)
    ensures !AlwaysSeen(s, steps)
  {
    hide Seen, Next, Enabled;
  }

  /** Waiting tasks are seen all along if and only if no step loses a wake-up. */
  lemma {:induction false} AlwaysSeenIff(s: State, steps: seq<Step>)
    requires Inv(s) && Seen(s) && CanRun(s, steps)
    ensures AlwaysSeen(s, steps) <==> LosesNone(s, steps)
    decreases |steps|
  {
    hide Inv, Seen, Loses, Next, Enabled;
    if steps != [] {
      StepKeeps(s, steps[0]);
      LosesIff(s, steps[0]);
      if !Loses(s, steps[0]) {
        AlwaysSeenIff(Next(s, steps[0]), steps[1..]);
      } else {
        NotSeenAtOnce(Next(s, steps[0]), steps[1..]);
      }
    }
  }

  /** Steps after which a lost wake-up may be found again. */
  predicate Finds(step: Step) { step.Add? || step == Interrupt || step.CancelFirst? }

  /** Once lost, a wake-up stays lost until the owner adds, cancels or interrupts; when
      the worker comes to rest before that, the task is stranded. */
  lemma {:induction false} LostStaysLost(s: State, steps: seq<Step>)
    requires Inv(s) && !Seen(s) && CanRun(s, steps) && forall k :: 0 <= k < |steps| ==> !Finds(steps[k])
    ensures !Seen(RunOf(s, steps)) && (RunOf(s, steps).worker == Idle ==> Stranded(RunOf(s, steps)))
    decreases |steps|
  {
    hide Inv, Seen, Next, Enabled;
    if steps != [] {
      assert !Finds(steps[0]);
      FoundIff(s, steps[0]);
      StepKeeps(s, steps[0]);
      LostStaysLost(Next(s, steps[0]), steps[1..]);
    }
  }

  /** Both threads have come to rest. */
  predicate AtRest(s: State) {
    && s.worker == Idle && s.addedSignals == 0 && s.owner == Free && !s.interrupted
    && s.processedSignals == 0 && s.drain == NotDraining
  }

  /** Every task ever added has been finished or cancelled. */
  predicate AllDone(s: State) {
    forall n: nat :: n < s.nextSerial ==> n in s.canceled || exists t :: t in s.finished && t.serial == n
  }

  lemma AloneInLine(s: State, t: Task)
    requires Increasing(Line(s)) && t in s.q.toProcess
    ensures t in Line(s) && forall u :: u in s.finished ==> u.serial != t.serial
  {
    var i :| 0 <= i < |s.q.toProcess| && s.q.toProcess[i] == t;
    var k := |s.finished| + |s.q.toFinish| + |WorkerTask(s.worker)| + i;
    assert Line(s)[k] == t;
    forall u | u in s.finished
      ensures u.serial != t.serial
    {
      var j :| 0 <= j < |s.finished| && s.finished[j] == u;
      assert Line(s)[j] == u;
    }
  }

  lemma RestIsDoneIff(s: State)
    requires Inv(s) && AtRest(s)
    ensures AllDone(s) <==> Seen(s)
  {
    hide InProcessOk, ProcessedFirst, DistinctIds, Increasing;
    if s.q.toProcess == [] {
      assert Line(s) == s.finished;
      assert s.canceled == s.condemned;
    } else {
      var t := s.q.toProcess[0];
      AloneInLine(s, t);
      assert t.serial < s.nextSerial && t.serial !in s.canceled;
    }
  }

  lemma StartIsQuiet()
    ensures Inv(START) && Seen(START)
  {
  }

  lemma {:induction false} SeenAtTheEnd(s: State, steps: seq<Step>)
    requires CanRun(s, steps) && AlwaysSeen(s, steps)
    ensures Seen(RunOf(s, steps))
    decreases |steps|
  {
    hide Seen, Next, Enabled;
    if steps != [] {
      SeenAtTheEnd(Next(s, steps[0]), steps[1..]);
    }
  }

  /** When both threads have come to rest, every task ever added has been finished or
      cancelled if and only if no wake-up is lost; and none is along a run that loses
      none. */
  lemma EveryRunIsDoneIff(steps: seq<Step>)
    requires CanRun(START, steps)
    ensures AlwaysSeen(START, steps) <==> LosesNone(START, steps)
    ensures LosesNone(START, steps) ==> Seen(RunOf(START, steps))
    ensures AtRest(RunOf(START, steps)) ==> (AllDone(RunOf(START, steps)) <==> Seen(RunOf(START, steps)))
  {
    StartIsQuiet();
    hide Inv, Seen, RunOf, CanRun, LosesNone, AlwaysSeen, AtRest, AllDone;
    RunKeeps(START, steps);
    AlwaysSeenIff(START, steps);
    if AlwaysSeen(START, steps) {
      SeenAtTheEnd(START, steps);
    }
    if AtRest(RunOf(START, steps)) {
      RestIsDoneIff(RunOf(START, steps));
    }
  }

  // ---- Two runs that strand a task --------------------------------------------------------

  /** A run from the start that leads to this state. */
  predicate LeadsTo(steps: seq<Step>, s: State) { CanRun(START, steps) && RunOf(START, steps) == s }

  lemma {:induction false} More(s: State, steps: seq<Step>, step: Step)
    requires CanRun(s, steps) && Enabled(RunOf(s, steps), step)
    ensures CanRun(s, steps + [step]) && RunOf(s, steps + [step]) == Next(RunOf(s, steps), step)
    decreases |steps|
  {
    hide Next, Enabled;
    if steps == [] {
      assert steps + [step] == [step] && [step][1..] == [];
    } else {
      assert (steps + [step])[1..] == steps[1..] + [step];
      More(Next(s, steps[0]), steps[1..], step);
    }
  }

  lemma OneMore(steps: seq<Step>, s: State, step: Step) returns (steps': seq<Step>, s': State)
    requires LeadsTo(steps, s) && Enabled(s, step)
    ensures LeadsTo(steps', s') && steps' == steps + [step] && s' == Next(s, step)
  {
    More(START, steps, step);
    steps', s' := steps + [step], Next(s, step);
  }

  /** Some tasks are added, and the worker takes the first one. */
  function TakingRun(ids: seq<nat>): seq<Step> {
    [] + [Add(ids)] + [EmitAdded] + [DeliverAdded] + [Take]
  }

  /** A task is processed; another one is added, and a nested call swallows its wake-up. */
  function SwallowingRun(a: nat, b: nat): seq<Step> {
    TakingRun([a]) + [ProcessDone] + [CheckWanted] + [Push] + [EmitProcessed] + [Add([b])] + [EmitAdded]
      + [Swallow] + [Leave] + [DeliverProcessed] + [DrainHead] + [FinishReturns] + [DrainHead]
  }

  /** The task in process is cancelled while another one waits. */
  function CancelingRun(a: nat, b: nat): seq<Step> {
    TakingRun([a, b]) + [CancelFirst(a)] + [CancelSecond] + [ProcessDone] + [CheckWanted] + [Leave]
  }

  lemma Taken(ids: seq<nat>) returns (steps: seq<Step>, s: State)
    requires ids != [] && (forall k :: 0 <= k < |ids| ==> ids[k] != EMPTY_TASK_ID)
    requires forall j, k :: 0 <= j < k < |ids| ==> ids[j] != ids[k]
    ensures LeadsTo(steps, s) && steps == TakingRun(ids)
    ensures s.q == Shared(Numbered(ids, 0)[1..], [], ids[0]) && s.worker == Processing(Task(ids[0], 0), false)
    ensures s.drain == NotDraining && s.owner == Free && s.addedSignals == s.processedSignals == 0
    ensures !s.interrupted && s.nextSerial == |ids|
  {
    steps, s := [], START;
    assert LeadsTo(steps, s);
    hide LeadsTo, Numbered, Victims;
    steps, s := OneMore(steps, s, Add(ids));
    assert s.q.toProcess == Numbered(ids, 0);
    steps, s := OneMore(steps, s, EmitAdded);
    steps, s := OneMore(steps, s, DeliverAdded);
    steps, s := OneMore(steps, s, Take);
  }

  /** Processed, pushed and announced, with nothing left to do. */
  lemma Announced(a: nat) returns (steps: seq<Step>, s: State)
    requires a != EMPTY_TASK_ID
    ensures LeadsTo(steps, s) && steps == TakingRun([a]) + [ProcessDone] + [CheckWanted] + [Push] + [EmitProcessed]
    ensures s.q == Shared([], [Task(a, 0)], EMPTY_TASK_ID) && s.worker == InEvents(false) && s.drain == NotDraining
    ensures s.owner == Free && s.addedSignals == 0 && s.processedSignals == 1 && !s.interrupted && s.nextSerial == 1
  {
    hide LeadsTo, TakingRun, Existing, Victims;
    steps, s := Taken([a]);
    steps, s := OneMore(steps, s, ProcessDone);
    steps, s := OneMore(steps, s, CheckWanted);
    steps, s := OneMore(steps, s, Push);
    steps, s := OneMore(steps, s, EmitProcessed);
  }

  lemma LeftUndone(steps: seq<Step>, s: State)
    requires LeadsTo(steps, s) && AtRest(s) && !Seen(s)
    ensures !AllDone(s)
  {
    hide AllDone, Inv, RunOf, CanRun;
    EveryRunIsDoneIff(steps);
  }

  /** For every two tasks: the second one waits for ever after both threads have come
      to rest, though nobody cancelled anything. */
  lemma SwallowedWakeUpStrands(a: nat, b: nat) returns (s: State)
    requires a != b && a != EMPTY_TASK_ID && b != EMPTY_TASK_ID
    ensures LeadsTo(SwallowingRun(a, b), s) && Stranded(s) && AtRest(s) && !AllDone(s)
  {
    hide LeadsTo, TakingRun, Victims, AllDone, Inv, Numbered;
    var steps;
    steps, s := Announced(a);
    steps, s := OneMore(steps, s, Add([b]));
    assert s.q.toProcess == [Task(b, 1)];
    hide Existing;
    steps, s := OneMore(steps, s, EmitAdded);
    steps, s := OneMore(steps, s, Swallow);
    steps, s := OneMore(steps, s, Leave);
    steps, s := OneMore(steps, s, DeliverProcessed);
    steps, s := OneMore(steps, s, DrainHead);
    steps, s := OneMore(steps, s, FinishReturns);
    steps, s := OneMore(steps, s, DrainHead);
    LeftUndone(steps, s);
  }

  /** For every two tasks: cancelling the first one while it is in process strands the
      second one. */
  lemma CancelInProcessStrands(a: nat, b: nat) returns (s: State)
    requires a != b && a != EMPTY_TASK_ID && b != EMPTY_TASK_ID
    ensures LeadsTo(CancelingRun(a, b), s) && Stranded(s) && AtRest(s) && !AllDone(s)
  {
    hide LeadsTo, TakingRun, AllDone, Inv;
    var steps;
    steps, s := Taken([a, b]);
    hide Existing, Numbered, Victims;
    steps, s := OneMore(steps, s, CancelFirst(a));
    steps, s := OneMore(steps, s, CancelSecond);
    steps, s := OneMore(steps, s, ProcessDone);
    steps, s := OneMore(steps, s, CheckWanted);
    steps, s := OneMore(steps, s, Leave);
    LeftUndone(steps, s);
  }
}
