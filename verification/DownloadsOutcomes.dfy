/** What becomes of a row that asks for a transfer, and of a row whose transfer ends. */
module DownloadsOutcomes {
  import opened Wrappers
  import opened Disks
  import opened Downloads
  import opened DownloadsInvariant
  import opened DownloadsTheorems

  // ---- A row that asks for a slot ---------------------------------------------------------

  predicate SameDownload(e: Entry, e': Entry) {
    && e'.id == e.id && e'.url == e.url && e'.destPath == e.destPath && e'.mime == e.mime && e'.total == e.total
    && e'.persisted == e.persisted
  }

  /** Size and free space are known, and the rest with 64 MiB to spare does not fit. */
  predicate TooLarge(e: Entry, available: int) {
    var rest := if e.total > e.received then e.total - e.received else 0;
    e.total > 0 && 0 <= available < rest + 67108864
  }

  /** A transfer is refused before it starts. */
  predicate Denied(e: Entry, k: KickEnv) { TooLarge(e, k.available) || !k.openOk || !k.replyOk }

  /** What is on disk is worth a Range request. */
  predicate WorthKeeping(e: Entry, d: Disk) {
    e.destPath in d.parts && |d.parts[e.destPath]| >= 65536
    && (e.total > 0 ==> |d.parts[e.destPath]| < e.total)
  }

  /** The row runs, from the end of what it had on disk or from the start. */
  predicate RunsFrom(e: Entry, d: Disk, e': Entry, d': Disk) {
    && e'.status == Downloading && e'.destPath in d'.parts
    && d'.parts[e'.destPath] == (if WorthKeeping(e, d) then d.parts[e.destPath] else [])
    && e'.received == |d'.parts[e'.destPath]|
    && e'.reply == Some(Reply(e'.received, 0, 0, false)) && e'.file.Some? && e'.file.value.resumeFrom == e'.received
  }

  /** The row has failed with the reason. What is worth keeping is still there, unless
      the file had been opened already. */
  predicate FailsFor(e: Entry, d: Disk, k: KickEnv, e': Entry, d': Disk) {
    && e'.status == Failed && e'.file.None?
    && if TooLarge(e, k.available) then e'.errorReason == ErrorDiskSpace && SamePart(d, d', e.destPath)
       else if !k.openOk then
         e'.errorReason == ErrorDiskWrite
         && (if WorthKeeping(e, d) then SamePart(d, d', e.destPath) else e.destPath !in d'.parts)
       else e'.errorReason == ErrorNetwork && e.destPath !in d'.parts
  }

  /** The row has been given a slot: it runs if nothing refuses it, or has failed with
      the reason. */
  predicate Attempted(e: Entry, d: Disk, e': Entry, d': Disk, k: KickEnv) {
    && SameDownload(e, e') && e'.retriesLeft == e.retriesLeft && e'.kicks == e.kicks + 1 && e'.resumes == e.resumes
    && e'.userPaused == e.userPaused && e'.userCanceled == e.userCanceled
    && if Denied(e, k) then FailsFor(e, d, k, e', d') else RunsFrom(e, d, e', d')
  }

  lemma BudgetIs(e: Entry, available: int)
    ensures DiskBudgetOk(e, available) <==> !TooLarge(e, available)
  {
  }

  lemma OpenedFile(e: Entry, d: Disk)
    ensures var (d1, h) := Opened(d, e.destPath, MIN_RESUME_BYTES, e.total, true);
            && h.Some? && e.destPath in d1.parts
            && d1.parts[e.destPath] == (if WorthKeeping(e, d) then d.parts[e.destPath] else [])
            && h.value.resumeFrom == |d1.parts[e.destPath]|
  {
  }

  lemma KickFails(s: State, i: nat, k: KickEnv)
    requires IsQueuedAt(s, i) && s.entries[i].errorReason == ErrorNone && s.entries[i].file.None?
    requires Denied(s.entries[i], k)
    ensures Attempted(s.entries[i], s.disk, KickOff(s, i, k).entries[i], KickOff(s, i, k).disk, k)
  {
    var e := s.entries[i];
    BudgetIs(e, k.available);
    BudgetIs(e.(kicks := e.kicks + 1), k.available);
    hide DiskBudgetOk, TooLarge, RunsFrom;
  }

  lemma KickRuns(s: State, i: nat, k: KickEnv)
    requires IsQueuedAt(s, i) && s.entries[i].errorReason == ErrorNone && s.entries[i].file.None?
    requires !Denied(s.entries[i], k)
    ensures Attempted(s.entries[i], s.disk, KickOff(s, i, k).entries[i], KickOff(s, i, k).disk, k)
  {
    var e := s.entries[i];
    BudgetIs(e, k.available);
    BudgetIs(e.(kicks := e.kicks + 1), k.available);
    OpenedFile(e, s.disk);
    hide DiskBudgetOk, TooLarge, Opened, WorthKeeping, RemovePart, FailsFor, SetStatus;
  }

  lemma KickAttempts(s: State, i: nat, k: KickEnv)
    requires IsQueuedAt(s, i) && s.entries[i].errorReason == ErrorNone && s.entries[i].file.None?
    ensures Attempted(s.entries[i], s.disk, KickOff(s, i, k).entries[i], KickOff(s, i, k).disk, k)
  {
    hide KickOff, Attempted, Denied;
    if Denied(s.entries[i], k) {
      KickFails(s, i, k);
    } else {
      KickRuns(s, i, k);
    }
  }

  lemma AttemptFrames(e: Entry, d0: Disk, d: Disk, e': Entry, d': Disk, d1: Disk, k: KickEnv)
    requires Attempted(e, d, e', d', k) && SamePart(d0, d, e.destPath) && SamePart(d', d1, e.destPath)
    ensures Attempted(e, d0, e', d1, k)
  {
  }

  /** A queued row after the queue has been processed: it has been given a slot, or it
      waits as it was because no slot is free. */
  predicate Dispatched(e: Entry, d: Disk, i: nat, s': State, env: Kicks) {
    && i < |s'.entries|
    && (Attempted(e, d, s'.entries[i], s'.disk, env(e.id))
        || (s'.entries[i] == e && ActiveCount(s'.entries) >= 3 && SamePart(d, s'.disk, e.destPath)))
  }

  lemma DispatchedLater(e: Entry, d0: Disk, d: Disk, i: nat, s': State, env: Kicks)
    requires Dispatched(e, d, i, s', env) && SamePart(d0, d, e.destPath)
    ensures Dispatched(e, d0, i, s', env)
  {
    hide Attempted, ActiveCount;
    if Attempted(e, d, s'.entries[i], s'.disk, env(e.id)) {
      AttemptFrames(e, d0, d, s'.entries[i], s'.disk, s'.disk, env(e.id));
    }
  }

  /** The other queued rows have other paths. */
  predicate Alone(s: State, i: nat) {
    && IsQueuedAt(s, i) && s.entries[i].errorReason == ErrorNone && s.entries[i].file.None?
    && forall j :: 0 <= j < |s.entries| && j != i && s.entries[j].status == Queued ==>
         s.entries[j].destPath != s.entries[i].destPath
  }

  lemma KickLeavesPart(s: State, j: nat, k: KickEnv, p: Path)
    requires IsQueuedAt(s, j) && s.entries[j].destPath != p
    ensures SamePart(s.disk, KickOff(s, j, k).disk, p)
  {
    hide IsJunk;
  }

  lemma KickKeepsAlone(s: State, i: nat, j: nat, k: KickEnv)
    requires Alone(s, i) && IsQueuedAt(s, j) && j != i
    ensures Alone(KickOff(s, j, k), i) && KickOff(s, j, k).entries[i] == s.entries[i]
  {
    KickOffTouches(s, j, k);
    hide KickOff;
  }

  lemma DispatchedNow(s: State, i: nat, env: Kicks)
    requires Alone(s, i)
    ensures Dispatched(s.entries[i], s.disk, i, ProcessFrom(KickOff(s, i, env(s.entries[i].id)), i + 1, env), env)
  {
    var k := env(s.entries[i].id);
    var s1 := KickOff(s, i, k);
    KickAttempts(s, i, k);
    KickOffTouches(s, i, k);
    hide KickOff, Attempted, ProcessFrom;
    var cut := ProcessIsFifo(s1, i + 1, env);
    ProcessLeavesPart(s1, i + 1, env, s.entries[i].destPath);
    var s' := ProcessFrom(s1, i + 1, env);
    AttemptFrames(s.entries[i], s.disk, s.disk, s1.entries[i], s1.disk, s'.disk, k);
  }

  lemma {:induction false} ProcessDispatches(s: State, from: nat, env: Kicks, i: nat)
    requires Alone(s, i) && from <= i
    ensures Dispatched(s.entries[i], s.disk, i, ProcessFrom(s, from, env), env)
    decreases i - from
  {
    hide KickOff, Attempted, ActiveCount;
    if ActiveCount(s.entries) < MAX_CONCURRENT {
      if from == i {
        DispatchedNow(s, i, env);
      } else if s.entries[from].status == Queued {
        var k := env(s.entries[from].id);
        KickKeepsAlone(s, i, from, k);
        KickLeavesPart(s, from, k, s.entries[i].destPath);
        ProcessDispatches(KickOff(s, from, k), from + 1, env, i);
        DispatchedLater(s.entries[i], s.disk, KickOff(s, from, k).disk, i, ProcessFrom(s, from, env), env);
      } else {
        ProcessDispatches(s, from + 1, env, i);
      }
    }
  }

  lemma QueuedIsAlone(s: State, i: nat, origin: Origin, lossless: bool)
    requires Core(s, origin, lossless) && IsQueuedAt(s, i)
    ensures Alone(s, i)
  {
    assert RowOk(s.entries[i], s.disk, origin, lossless);
    OnlyMine(s, i, origin, lossless);
    hide Core, RowOk;
  }

  /** A row that waits for a slot gets one or is still in the queue because all three are
      taken. */
  lemma QueuedIsDispatched(s: State, i: nat, env: Kicks, origin: Origin, lossless: bool)
    requires Core(s, origin, lossless) && IsQueuedAt(s, i)
    ensures Dispatched(s.entries[i], s.disk, i, ProcessQueue(s, env), env)
    ensures ActiveCount(ProcessQueue(s, env).entries) <= 3
  {
    QueuedIsAlone(s, i, origin, lossless);
    ProcessKeeps(s, 0, env, origin, lossless);
    hide Rows, Alone, ProcessFrom;
    ProcessDispatches(s, 0, env, i);
  }

  // ---- Waking a paused row ------------------------------------------------------------------

  /** Row i was paused. It keeps its place and its data, no user flag is left on it, and
      it runs, has failed, or waits with every slot taken; what it runs from is what was on
      disk when that is worth a Range request. */
  predicate Wakes(s: State, i: nat, s': State, env: Kicks) {
    && i < |s.entries| == |s'.entries|
    && var e, e' := s.entries[i], s'.entries[i];
    && SameDownload(e, e') && e'.retriesLeft == e.retriesLeft && !e'.userPaused && !e'.userCanceled
    && match e'.status
       case Queued =>
         ActiveCount(s'.entries) == 3 && SamePart(s.disk, s'.disk, e.destPath) && e'.errorReason == ErrorNone
       case Downloading => !Denied(e, env(e.id)) && RunsFrom(e, s.disk, e', s'.disk)
       case Failed => Denied(e, env(e.id)) && FailsFor(e, s.disk, env(e.id), e', s'.disk)
       case _ => false
  }

  /** The row as resuming puts it into the queue. */
  predicate Requeued(e: Entry, e': Entry) {
    && e'.status == Queued && SameDownload(e, e') && e'.retriesLeft == e.retriesLeft && e'.received == e.received
    && !e'.userPaused && e'.userCanceled == e.userCanceled && e'.file == e.file && e'.errorReason == ErrorNone
  }

  lemma DispatchedWakes(s: State, i: nat, s1: State, s': State, env: Kicks)
    requires i < |s.entries| == |s1.entries| == |s'.entries| && Requeued(s.entries[i], s1.entries[i])
    requires !s.entries[i].userCanceled && s1.disk == s.disk
    requires Dispatched(s1.entries[i], s1.disk, i, s', env) && ActiveCount(s'.entries) <= 3
    ensures Wakes(s, i, s', env)
  {
    hide ActiveCount;
  }

  lemma ResumedRow(s: State, i: nat)
    requires i < |s.entries|
    ensures var s1 := ResumeRow(s, i);
            && |s1.entries| == |s.entries| && s1.disk == s.disk && s1.timers == s.timers
            && Requeued(s.entries[i], s1.entries[i])
            && forall j :: 0 <= j < |s.entries| && j != i ==> s1.entries[j] == s.entries[j]
  {
  }

  lemma WokenByQueue(s: State, i: nat, s1: State, env: Kicks, origin: Origin, lossless: bool)
    requires Inv(s, origin, lossless) && Core(s1, origin, lossless) && i < |s.entries| == |s1.entries|
    requires s.entries[i].status == Paused && Requeued(s.entries[i], s1.entries[i]) && s1.disk == s.disk
    ensures Wakes(s, i, ProcessQueue(s1, env), env)
  {
    RowIsOk(s, i, origin, lossless);
    hide Inv, Core, ProcessQueue, Dispatched, Wakes, ByteExact;
    QueuedIsDispatched(s1, i, env, origin, lossless);
    SameLength(s1, env);
    DispatchedWakes(s, i, s1, ProcessQueue(s1, env), env);
  }

  lemma SameLength(s: State, env: Kicks)
    ensures |ProcessQueue(s, env).entries| == |s.entries| && ProcessQueue(s, env).timers == s.timers
  {
  }

  /** Resuming a paused row wakes it, and at most starts rows that were waiting. */
  lemma ResumeWakes(s: State, id: Id, env: Kicks, origin: Origin, lossless: bool)
    requires Inv(s, origin, lossless)
    requires var i := IndexOf(s.entries, id); i >= 0 && s.entries[i].status == Paused
    ensures var i, s' := IndexOf(s.entries, id), Resume(s, id, env);
            && Wakes(s, i, s', env) && s'.timers == s.timers
            && forall j :: 0 <= j < |s.entries| && j != i ==> KickedRow(s.entries[j], s'.entries[j])
  {
    hide IndexFrom;
    var i := IndexOf(s.entries, id);
    var s1 := ResumeRow(s, i);
    ResumedRow(s, i);
    ResumeRowKeeps(s, i, origin, lossless);
    hide Inv, Core, ProcessQueue, Requeued, Wakes, KickedRow, ResumeRow;
    WokenByQueue(s, i, s1, env, origin, lossless);
    ServedRows(s1, env);
    SameLength(s1, env);
  }

  /** start() on a paused row wakes it too, whatever the request says of size and type. */
  lemma StartWakes(s: State, id: Id, url: Url, mime: string, size: int, dest: Path, env: Kicks,
                   origin: Origin, lossless: bool)
    requires Inv(s, origin, lossless) && id != "" && url != ""
    requires var i := IndexOf(s.entries, id); i >= 0 && s.entries[i].status == Paused
    ensures var i, s' := IndexOf(s.entries, id), Start(s, id, url, mime, size, dest, env);
            && Wakes(s, i, s', env) && s'.timers == s.timers
            && forall j :: 0 <= j < |s.entries| && j != i ==> KickedRow(s.entries[j], s'.entries[j])
  {
    hide Inv, IndexFrom, Wakes, Resume;
    ResumeWakes(s, id, env, origin, lossless);
  }

  /** So does retry(), unless the row's own id or address is empty: then it does nothing. */
  lemma RetryWakesIff(s: State, id: Id, dest: Path, env: Kicks, origin: Origin, lossless: bool)
    requires Inv(s, origin, lossless)
    requires var i := IndexOf(s.entries, id); i >= 0 && s.entries[i].status == Paused
    ensures var i, s' := IndexOf(s.entries, id), Retry(s, id, dest, env);
            && (id != "" && s.entries[i].url != "" <==> Wakes(s, i, s', env))
            && (id == "" || s.entries[i].url == "" ==> s' == s)
  {
    hide Inv, IndexFrom, Wakes, Start;
    var i := IndexOf(s.entries, id);
    var e := s.entries[i];
    if id != "" && e.url != "" {
      StartWakes(s, id, e.url, e.mime, e.total, dest, env, origin, lossless);
    } else {
      StartsNothing(s, id, e.url, e.mime, e.total, dest, env);
      StillPaused(s, i, env);
    }
  }

  lemma StartsNothing(s: State, id: Id, url: Url, mime: string, size: int, dest: Path, env: Kicks)
    requires id == "" || url == ""
    ensures Start(s, id, url, mime, size, dest, env) == s
  {
  }

  lemma StillPaused(s: State, i: nat, env: Kicks)
    requires i < |s.entries| && s.entries[i].status == Paused
    ensures !Wakes(s, i, s, env)
  {
  }

  /** What resumeAll() does to the list before it looks at the queue. */
  lemma {:induction false} ResumedRows(s: State, k: nat)
    requires k <= |s.entries|
    ensures var s1 := ResumeFrom(s, k);
            && s1.disk == s.disk && s1.timers == s.timers
            && (forall j :: 0 <= j < k ==> s1.entries[j] == s.entries[j])
            && forall j :: k <= j < |s.entries| ==>
                 if s.entries[j].status == Paused then Requeued(s.entries[j], s1.entries[j])
                 else s1.entries[j] == s.entries[j]
    decreases |s.entries| - k
  {
    hide ResumeRow, Requeued;
    if k < |s.entries| {
      if s.entries[k].status == Paused {
        ResumedRow(s, k);
        ResumedRows(ResumeRow(s, k), k + 1);
      } else {
        ResumedRows(s, k + 1);
      }
    }
  }

  /** resumeAll() wakes every paused row, so none stays paused. */
  lemma ResumeAllWakes(s: State, env: Kicks, i: nat, origin: Origin, lossless: bool)
    requires Inv(s, origin, lossless) && i < |s.entries|
    ensures var e, s' := s.entries[i], ResumeAll(s, env);
            && |s'.entries| == |s.entries| && s'.timers == s.timers && s'.entries[i].status != Paused
            && (e.status == Paused ==> Wakes(s, i, s', env))
            && (e.status != Paused ==> KickedRow(e, s'.entries[i]))
  {
    var s1 := ResumeFrom(s, 0);
    ResumedRows(s, 0);
    ResumeFromKeeps(s, 0, origin, lossless);
    hide Inv, Core, ProcessQueue, Requeued, ResumeFrom;
    if AnyPaused(s.entries) {
      if s.entries[i].status == Paused {
        WokenByQueue(s, i, s1, env, origin, lossless);
      }
      ServedRows(s1, env);
      SameLength(s1, env);
    }
  }

  // ---- A transfer that ends -----------------------------------------------------------------

  /** The status code by which the end of a reply is judged. */
  function CodeOf(e: Entry): nat
    requires e.reply.Some?
  {
    if e.httpStatus > 0 then e.httpStatus else e.reply.value.code
  }

  /** Dropped connections, timeouts and aborts that are not for an HTTP error. */
  predicate Interrupted(e: Entry, f: FinishEnv) {
    e.reply.Some? && CodeOf(e) < 400 && (f.err == OperationCanceled || f.err == Timeout || f.err == OtherTransient)
  }

  lemma SettleRetries(s: State, i: nat, f: FinishEnv, origin: Origin, lossless: bool)
    requires Inv(s, origin, lossless) && i < |s.entries| && Interrupted(s.entries[i], f) && s.entries[i].retriesLeft > 0
    ensures var e := s.entries[i];
            Settle(s, i, f)
              == (Put(s, i, e.(reply := None, file := None, httpStatus := 0, status := Queued,
                               retriesLeft := e.retriesLeft - 1))
                    .(timers := s.timers + [Timer(e.id, if e.retriesLeft == 2 then 1500 else 3000)]), false)
  {
    RowIsOk(s, i, origin, lossless);
    assert Backoff(0) == 1500 && Backoff(1) == 3000;
    hide Inv, ByteExact, Backoff;
  }

  /** A dropped transfer with a retry left goes back to its place in the queue with what
      it has on disk, and a timer will look at the queue after 1.5 seconds the first time
      and 3 seconds the second; nothing else changes. */
  lemma InterruptedIsRetried(s: State, id: Id, f: FinishEnv, env: Kicks, origin: Origin, lossless: bool)
    requires Inv(s, origin, lossless) && Legal(s, Ends(id, f, env), origin, lossless)
    requires var i := IndexOf(s.entries, id); i >= 0 && Interrupted(s.entries[i], f) && s.entries[i].retriesLeft > 0
    ensures var i := IndexOf(s.entries, id);
            var e, s' := s.entries[i], Finished(s, id, f, env);
            && |s'.entries| == |s.entries|
            && s'.entries[i].status == Queued && s'.entries[i].retriesLeft == e.retriesLeft - 1
            && SameDownload(e, s'.entries[i]) && s'.entries[i].received == e.received
            && s'.disk == s.disk
            && s'.timers == s.timers + [Timer(id, if e.retriesLeft == 2 then 1500 else 3000)]
            && forall j :: 0 <= j < |s.entries| && j != i ==> s'.entries[j] == s.entries[j]
  {
    var i := IndexOf(s.entries, id);
    assert Drain(s, i, f) == s;
    SettleRetries(s, i, f, origin, lossless);
    hide Inv, Settle, IndexFrom;
  }

  /** Why a transfer that ends for good has failed. */
  function Blame(e: Entry, f: FinishEnv): ErrorReason
    requires e.reply.Some?
  {
    if CodeOf(e) == 401 || CodeOf(e) == 403 then ErrorAuth
    else if CodeOf(e) >= 400 then ErrorHttp
    else if f.err == Timeout then ErrorTimeout
    else ErrorNetwork
  }

  lemma SettleFails(s: State, i: nat, f: FinishEnv, origin: Origin, lossless: bool)
    requires Inv(s, origin, lossless) && i < |s.entries| && s.entries[i].reply.Some? && f.err != NoError
    requires Interrupted(s.entries[i], f) ==> s.entries[i].retriesLeft == 0
    ensures var e, (s1, process) := s.entries[i], Settle(s, i, f);
            && process && |s1.entries| == |s.entries| && s1.timers == s.timers
            && s1.entries[i].status == Failed && s1.entries[i].errorReason == Blame(e, f)
            && SameDownload(e, s1.entries[i]) && s1.entries[i].retriesLeft == e.retriesLeft
            && s1.disk == (if e.file.Some? then RemovePart(s.disk, e.destPath) else s.disk)
            && forall j :: 0 <= j < |s.entries| && j != i ==> s1.entries[j] == s.entries[j]
  {
    RowIsOk(s, i, origin, lossless);
    hide Inv, ByteExact, Backoff, RetriesCounted, RemovePart;
  }

  lemma StaysInQueue(s: State, i: nat, env: Kicks)
    requires i < |s.entries| && s.entries[i].status != Queued
    ensures ProcessQueue(s, env).entries[i] == s.entries[i]
  {
    var cut := ProcessIsFifo(s, 0, env);
  }

  /** A row that has ended stays as it is while the others get their turn. */
  lemma OthersGetTheirTurn(s: State, s1: State, i: nat, env: Kicks)
    requires i < |s.entries| == |s1.entries| && s1.entries[i].status != Queued && s1.timers == s.timers
    requires forall j :: 0 <= j < |s.entries| && j != i ==> s1.entries[j] == s.entries[j]
    ensures var s' := ProcessQueue(s1, env);
            && |s'.entries| == |s.entries| && s'.timers == s.timers && s'.entries[i] == s1.entries[i]
            && forall j :: 0 <= j < |s.entries| && j != i ==> KickedRow(s.entries[j], s'.entries[j])
  {
    hide ProcessQueue, KickedRow;
    StaysInQueue(s1, i, env);
    ServedRows(s1, env);
    SameLength(s1, env);
  }

  /** Nobody else waits for the path of a row that owned it. */
  lemma PathIsFree(s: State, s1: State, i: nat, env: Kicks, origin: Origin, lossless: bool)
    requires Inv(s, origin, lossless) && i < |s.entries| == |s1.entries| && Owns(s.entries[i])
    requires s1.entries[i].status != Queued && s.entries[i].destPath !in s1.disk.parts
    requires forall j :: 0 <= j < |s.entries| && j != i ==> s1.entries[j] == s.entries[j]
    ensures s.entries[i].destPath !in ProcessQueue(s1, env).disk.parts
  {
    OnlyMine(s, i, origin, lossless);
    hide Inv, ProcessQueue;
    PartStaysAway(s1, env, s.entries[i].destPath);
  }

  /** Any other end with an error, and a dropped transfer without a retry left, fails for
      good with its reason: no timer, the working file gone, and the slot passed on. */
  lemma ErrorIsFinal(s: State, id: Id, f: FinishEnv, env: Kicks, origin: Origin, lossless: bool)
    requires Inv(s, origin, lossless) && Legal(s, Ends(id, f, env), origin, lossless) && f.err != NoError
    requires var i := IndexOf(s.entries, id);
             i >= 0 && s.entries[i].reply.Some? && (Interrupted(s.entries[i], f) ==> s.entries[i].retriesLeft == 0)
    ensures var i := IndexOf(s.entries, id);
            var e, s' := s.entries[i], Finished(s, id, f, env);
            && |s'.entries| == |s.entries| && s'.timers == s.timers
            && s'.entries[i].status == Failed && s'.entries[i].errorReason == Blame(e, f)
            && SameDownload(e, s'.entries[i]) && s'.entries[i].retriesLeft == e.retriesLeft
            && (e.file.Some? ==> e.destPath !in s'.disk.parts)
            && forall j :: 0 <= j < |s.entries| && j != i ==> KickedRow(s.entries[j], s'.entries[j])
  {
    var i := IndexOf(s.entries, id);
    assert Drain(s, i, f) == s;
    RowIsOk(s, i, origin, lossless);
    SettleFails(s, i, f, origin, lossless);
    hide Inv, Settle, IndexFrom, RetriesCounted, ByteExact, Blame, Interrupted, KickedRow, Core, Drain, LegalEnd,
         ProcessQueue;
    var s1 := Settle(s, i, f).0;
    OthersGetTheirTurn(s, s1, i, env);
    if s.entries[i].file.Some? {
      PathIsFree(s, s1, i, env, origin, lossless);
    }
  }

  // ---- A clean end --------------------------------------------------------------------------

  /** A clean end completes the row exactly when there is a file and the rename works;
      the size is then known. Otherwise the row fails for the disk, and neither the
      working file nor what was at the destination is left. */
  lemma CleanEndIff(s: State, id: Id, f: FinishEnv, env: Kicks, origin: Origin, lossless: bool)
    requires Inv(s, origin, lossless) && Legal(s, Ends(id, f, env), origin, lossless) && f.err == NoError
    requires IndexOf(s.entries, id) >= 0
    ensures var i := IndexOf(s.entries, id);
            var e, s' := s.entries[i], Finished(s, id, f, env);
            && |s'.entries| == |s.entries| && s'.timers == s.timers
            && (s'.entries[i].status == Completed <==> e.file.Some? && f.renameOk)
            && (s'.entries[i].status == Completed ==>
                  s'.entries[i].total == if e.total > 0 then e.total else s'.entries[i].received)
            && (s'.entries[i].status != Completed ==>
                  s'.entries[i].status == Failed && s'.entries[i].errorReason == ErrorDiskWrite)
            && (e.file.Some? ==> e.destPath !in s'.disk.parts && (e.destPath in s'.disk.files <==> f.renameOk))
            && forall j :: 0 <= j < |s.entries| && j != i ==> KickedRow(s.entries[j], s'.entries[j])
  {
    var i := IndexOf(s.entries, id);
    RowIsOk(s, i, origin, lossless);
    assert Core(s, origin, lossless) && Owns(s.entries[i]);
    hide Inv, Core, RowOk, Drain, Settle, IndexFrom, KickedRow, ProcessQueue;
    DrainKeeps(s, i, f, origin, lossless);
    var s1 := Drain(s, i, f);
    DrainTakesFile(s, i, f);
    CleanSettles(s1, i, f, origin);
    var s2 := Settle(s1, i, f).0;
    hide Ending, LegalEnd;
    OthersGetTheirTurn(s, s2, i, env);
    ProcessLeavesFiles(s2, 0, env);
    if s.entries[i].file.Some? {
      PathIsFree(s, s2, i, env, origin, lossless);
    }
  }

  lemma DrainTakesFile(s: State, i: nat, f: FinishEnv)
    requires i < |s.entries| && f.tailTaken <= |f.tail|
    ensures Drain(s, i, f).entries[i].file.Some? <==> s.entries[i].file.Some?
  {
    hide Written;
  }

  lemma CleanSettles(s: State, i: nat, f: FinishEnv, origin: Origin)
    requires Ending(s, i, f, origin) && f.err == NoError
    ensures var e, (s1, process) := s.entries[i], Settle(s, i, f);
            && process && |s1.entries| == |s.entries| && s1.timers == s.timers
            && (if e.file.Some? && f.renameOk
                then s1.entries[i].status == Completed && s1.entries[i].received == e.received
                     && s1.entries[i].total == (if e.total > 0 then e.total else e.received)
                else s1.entries[i].status == Failed && s1.entries[i].errorReason == ErrorDiskWrite)
            && (e.file.Some? ==> e.destPath !in s1.disk.parts && (e.destPath in s1.disk.files <==> f.renameOk))
            && forall j :: 0 <= j < |s.entries| && j != i ==> s1.entries[j] == s.entries[j]
  {
    hide Backoff, RetriesCounted;
  }

  // ---- Replies of rows that the user has stopped ---------------------------------------------

  /** A reply that ends after its row was paused leaves the working file and the status
      alone, whatever it says. */
  lemma PausedReplyEnds(s: State, i: nat, f: FinishEnv)
    requires i < |s.entries| && s.entries[i].userPaused
    ensures var e, (s1, process) := s.entries[i], Settle(s, i, f);
            && process && s1.disk == s.disk && s1.timers == s.timers
            && s1.entries == s.entries[i := e.(reply := None, file := None, userCanceled := false)]
  {
    hide EndRow, CleanEnd, Backoff;
  }

  /** One that ends because its row was cancelled takes the working file with it and is
      never retried. */
  lemma CanceledReplyEnds(s: State, i: nat, f: FinishEnv)
    requires i < |s.entries| && s.entries[i].userCanceled && !s.entries[i].userPaused && f.err == OperationCanceled
    ensures var e, (s1, process) := s.entries[i], Settle(s, i, f);
            && process && s1.timers == s.timers && |s1.entries| == |s.entries|
            && s1.entries[i].status == Canceled && s1.entries[i].reply.None? && s1.entries[i].file.None?
            && s1.disk == (if e.file.Some? then RemovePart(s.disk, e.file.value.destPath) else s.disk)
            && forall j :: 0 <= j < |s.entries| && j != i ==> s1.entries[j] == s.entries[j]
  {
    hide CleanEnd, Backoff, RemovePart;
  }
}
