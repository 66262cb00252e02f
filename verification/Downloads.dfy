/** The state of the download engine and the effect of each slot, callback and
    timer on it, as functions on values. The class `DownloadsModel` is proved to
    compute these functions; the properties are proved about them. */
module Downloads {
  import opened Wrappers
  import opened Disks

  type Id = string
  type Url = string

  const MAX_CONCURRENT := 3
  const MAX_RETRIES := 2
  const RETRY_BACKOFF_MS := 1500
  const MIN_RESUME_BYTES: nat := 64 * 1024
  const DISK_SAFETY_BYTES := 64 * 1024 * 1024

  datatype Status = Queued | Downloading | Completed | Failed | Canceled | Paused

  datatype ErrorReason =
    ErrorNone | ErrorNetwork | ErrorTimeout | ErrorHttp | ErrorDiskSpace | ErrorDiskWrite | ErrorAuth

  /** A live network reply: the Range offset asked for, the HTTP status received
      (0 before any), and the offset in the resource of the next body byte. */
  datatype Reply = Reply(rangeFrom: nat, code: nat, next: nat, aborted: bool)

  /** One row. `kicks` and `resumes` count the transfer attempts and the user's
      resumes; nothing reads them but the properties. */
  datatype Entry = Entry(
    id: Id, url: Url, destPath: Path, mime: string,
    received: nat, total: int,
    status: Status, errorReason: ErrorReason,
    file: Option<Handle>, reply: Option<Reply>,
    retriesLeft: nat, userCanceled: bool, userPaused: bool,
    httpStatus: nat, destReconciled: bool, persisted: bool,
    kicks: nat, resumes: nat)

  datatype Timer = Timer(id: Id, delayMs: nat)

  datatype State = State(entries: seq<Entry>, disk: Disk, timers: seq<Timer>)

  // ---- What the environment answers -------------------------------------

  /** Free disk space (negative: unknown), the answer to QFile::open, and
      whether the network layer hands out a reply. */
  datatype KickEnv = KickEnv(available: int, openOk: bool, replyOk: bool)

  type Kicks = Id -> KickEnv

  datatype NetErr = NoError | OperationCanceled | Timeout | OtherTransient | Permanent

  /** How a reply ends: its error, the buffered tail, how much of the tail the
      disk takes, and whether the rename works. */
  datatype FinishEnv = FinishEnv(err: NetErr, tail: Bytes, tailTaken: nat, renameOk: bool)

  /** The response's MIME type (empty: unusable), whether it changes the file
      extension, the re-derived path, and the answer to opening it. */
  datatype Sniff = Sniff(mime: string, newExtension: bool, newPath: Path, openOk: bool)

  predicate IsTransient(e: NetErr) {
    e == OperationCanceled || e == Timeout || e == OtherTransient
  }

  // ---- Lookups ------------------------------------------------------------

  /** The first row with this id, or -1. */
  function IndexFrom(entries: seq<Entry>, id: Id, k: nat): (i: int)
    requires k <= |entries|
    ensures i == -1 || k <= i < |entries|
    ensures i >= 0 ==> entries[i].id == id && forall j :: k <= j < i ==> entries[j].id != id
    ensures i == -1 ==> forall j :: k <= j < |entries| ==> entries[j].id != id
    decreases |entries| - k
  {
    if k == |entries| then -1 else if entries[k].id == id then k else IndexFrom(entries, id, k + 1)
  }

  function IndexOf(entries: seq<Entry>, id: Id): int { IndexFrom(entries, id, 0) }

  function One(b: bool): nat { if b then 1 else 0 }

  /** The rows weighted by `w` and added up. */
  function Sum(entries: seq<Entry>, w: Entry -> nat): nat {
    if entries == [] then 0 else Sum(entries[..|entries| - 1], w) + w(entries[|entries| - 1])
  }

  const ACTIVE: Entry -> nat := (e: Entry) => One(e.status == Downloading)

  function ActiveCount(entries: seq<Entry>): nat { Sum(entries, ACTIVE) }

  predicate IsLive(s: Status) { s == Queued || s == Downloading || s == Paused }

  predicate IsOver(s: Status) { s == Completed || s == Failed || s == Canceled }

  // ---- Single-row changes ----------------------------------------------------

  /** setStatus(): only Failed keeps a reason. */
  function SetStatus(e: Entry, s: Status, reason: ErrorReason): Entry {
    e.(status := s, errorReason := if s == Failed then reason else ErrorNone)
  }

  function Put(s: State, i: nat, e: Entry): State
    requires i < |s.entries|
  {
    s.(entries := s.entries[i := e])
  }

  /** teardownTransfer(): drop the reply and the file; without `keepPart` the
      working file goes too. */
  function Teardown(s: State, i: nat, keepPart: bool): State
    requires i < |s.entries|
  {
    var e := s.entries[i];
    Put(s, i, e.(reply := None, file := None))
      .(disk := if keepPart then s.disk
                else RemovePart(s.disk, if e.file.Some? then e.file.value.destPath else e.destPath))
  }

  // ---- Scheduling -------------------------------------------------------------

  function Max(a: int, b: int): int { if a >= b then a else b }

  predicate DiskBudgetOk(e: Entry, available: int) {
    e.total <= 0 || available < 0 || available >= Max(0, e.total - e.received) + DISK_SAFETY_BYTES
  }

  /** kickOff(): pre-flight, open the working file, ask for the rest. */
  function KickOff(s: State, i: nat, k: KickEnv): (s': State)
    requires i < |s.entries|
    ensures |s'.entries| == |s.entries| && s'.timers == s.timers
  {
    var e := s.entries[i].(kicks := s.entries[i].kicks + 1);
    if !DiskBudgetOk(e, k.available) then Put(s, i, SetStatus(e, Failed, ErrorDiskSpace))
    else
      var (disk, h) := Opened(s.disk, e.destPath, MIN_RESUME_BYTES, e.total, k.openOk);
      if h.None? then Put(s, i, SetStatus(e.(file := None), Failed, ErrorDiskWrite)).(disk := disk)
      else if !k.replyOk then
        Put(s, i, SetStatus(e.(file := None), Failed, ErrorNetwork)).(disk := RemovePart(disk, e.destPath))
      else
        var from := h.value.resumeFrom;
        Put(s, i, e.(file := h, reply := Some(Reply(from, 0, 0, false)), received := from,
                     httpStatus := 0, destReconciled := false, status := Downloading))
          .(disk := disk)
  }

  /** processQueue() from row i on: fill the slots in list order. */
  function ProcessFrom(s: State, i: nat, env: Kicks): (s': State)
    requires i <= |s.entries|
    ensures |s'.entries| == |s.entries| && s'.timers == s.timers
    decreases |s.entries| - i
  {
    if i == |s.entries| || ActiveCount(s.entries) >= MAX_CONCURRENT then s
    else if s.entries[i].status != Queued then ProcessFrom(s, i + 1, env)
    else ProcessFrom(KickOff(s, i, env(s.entries[i].id)), i + 1, env)
  }

  function ProcessQueue(s: State, env: Kicks): State { ProcessFrom(s, 0, env) }

  // ---- User slots ----------------------------------------------------------------

  function FreshEntry(id: Id, url: Url, mime: string, size: int, dest: Path): Entry {
    Entry(id, url, dest, mime, 0, if size > 0 then size else 0, Queued, ErrorNone, None, None,
          MAX_RETRIES, false, false, 0, false, false, 0, 0)
  }

  function Erase(s: State, i: nat): State
    requires i < |s.entries|
  {
    s.(entries := s.entries[..i] + s.entries[i + 1..])
  }

  function Start(s: State, id: Id, url: Url, mime: string, size: int, dest: Path, env: Kicks): State {
    if id == "" || url == "" then s
    else
      var i := IndexOf(s.entries, id);
      if i >= 0 && (s.entries[i].status == Downloading || s.entries[i].status == Queued) then s
      else if i >= 0 && s.entries[i].status == Paused then Resume(s, id, env)
      else
        var s1 := if i >= 0 then Erase(s, i) else s;
        ProcessQueue(s1.(entries := s1.entries + [FreshEntry(id, url, mime, size, dest)]), env)
  }

  /** retry(): start again from the cached payload, unless running or saved. */
  function Retry(s: State, id: Id, dest: Path, env: Kicks): State {
    var i := IndexOf(s.entries, id);
    if i < 0 || s.entries[i].status == Downloading || s.entries[i].status == Queued
       || s.entries[i].status == Completed then s
    else Start(s, id, s.entries[i].url, s.entries[i].mime, s.entries[i].total, dest, env)
  }

  function CancelRow(s: State, i: nat): State
    requires i < |s.entries|
  {
    var s1 := Teardown(s, i, false);
    Put(s1, i, SetStatus(s1.entries[i].(userCanceled := true, userPaused := false), Canceled, ErrorNone))
  }

  function Cancel(s: State, id: Id, env: Kicks): State {
    var i := IndexOf(s.entries, id);
    if i < 0 || !IsLive(s.entries[i].status) then s else ProcessQueue(CancelRow(s, i), env)
  }

  function PauseRow(s: State, i: nat): State
    requires i < |s.entries|
  {
    var s1 := Teardown(s, i, true);
    Put(s1, i, SetStatus(s1.entries[i].(userPaused := true), Paused, ErrorNone))
  }

  predicate IsRunning(s: Status) { s == Downloading || s == Queued }

  function Pause(s: State, id: Id, env: Kicks): State {
    var i := IndexOf(s.entries, id);
    if i < 0 || !IsRunning(s.entries[i].status) then s else ProcessQueue(PauseRow(s, i), env)
  }

  function ResumeRow(s: State, i: nat): State
    requires i < |s.entries|
  {
    var e := s.entries[i];
    Put(s, i, SetStatus(e.(userPaused := false, resumes := e.resumes + 1), Queued, ErrorNone))
  }

  function Resume(s: State, id: Id, env: Kicks): State {
    var i := IndexOf(s.entries, id);
    if i < 0 || s.entries[i].status != Paused then s else ProcessQueue(ResumeRow(s, i), env)
  }

  function PauseFrom(s: State, i: nat): (s': State)
    requires i <= |s.entries|
    ensures |s'.entries| == |s.entries|
    decreases |s.entries| - i
  {
    if i == |s.entries| then s
    else if !IsRunning(s.entries[i].status) then PauseFrom(s, i + 1)
    else PauseFrom(PauseRow(s, i), i + 1)
  }

  /** pauseAll(): nothing is left to schedule, so the queue is not processed. */
  function PauseAll(s: State): State { PauseFrom(s, 0) }

  function ResumeFrom(s: State, i: nat): (s': State)
    requires i <= |s.entries|
    ensures |s'.entries| == |s.entries|
    decreases |s.entries| - i
  {
    if i == |s.entries| then s
    else if s.entries[i].status != Paused then ResumeFrom(s, i + 1)
    else ResumeFrom(ResumeRow(s, i), i + 1)
  }

  predicate AnyPaused(entries: seq<Entry>) { exists i :: 0 <= i < |entries| && entries[i].status == Paused }

  function ResumeAll(s: State, env: Kicks): State {
    if AnyPaused(s.entries) then ProcessQueue(ResumeFrom(s, 0), env) else s
  }

  function Remove(s: State, id: Id, env: Kicks): State {
    var i := IndexOf(s.entries, id);
    if i < 0 then s
    else if IsLive(s.entries[i].status) then ProcessQueue(Erase(Teardown(s, i, false), i), env)
    else Erase(s, i)
  }

  /** clearCompleted(): every row that is over goes, from the last to the first. */
  function ClearBelow(s: State, n: nat): (s': State)
    requires n <= |s.entries|
    ensures s'.disk == s.disk && s'.timers == s.timers
    decreases n
  {
    if n == 0 then s
    else if IsOver(s.entries[n - 1].status) then ClearBelow(Erase(s, n - 1), n - 1)
    else ClearBelow(s, n - 1)
  }

  function ClearCompleted(s: State): State { ClearBelow(s, |s.entries|) }

  function LogoutFrom(s: State, i: nat): (s': State)
    requires i <= |s.entries|
    ensures |s'.entries| == |s.entries|
    decreases |s.entries| - i
  {
    if i == |s.entries| then s
    else if !IsRunning(s.entries[i].status) then LogoutFrom(s, i + 1)
    else
      var s1 := Teardown(s, i, false);
      LogoutFrom(Put(s1, i, SetStatus(s1.entries[i].(userCanceled := true), Canceled, ErrorNone)), i + 1)
  }

  /** The session went away: running transfers are dropped. */
  function Logout(s: State): State { LogoutFrom(s, 0) }

  // ---- What outlives the program ----------------------------------------------------

  /** What the settings keep of a row. */
  datatype Saved = Saved(id: Id, url: Url, destPath: Path, mime: string, size: int)

  function RecordOf(e: Entry): Saved { Saved(e.id, e.url, e.destPath, e.mime, e.total) }

  /** The records of the rows with this status, in list order. */
  function Records(entries: seq<Entry>, status: Status): (saved: seq<Saved>)
    ensures forall r :: r in saved <==> exists e :: e in entries && e.status == status && RecordOf(e) == r
  {
    if entries == [] then []
    else
      var last := |entries| - 1;
      assert entries == entries[..last] + [entries[last]];
      Records(entries[..last], status) + (if entries[last].status == status then [RecordOf(entries[last])] else [])
  }

  function DoneRow(r: Saved): Entry {
    Entry(r.id, r.url, r.destPath, r.mime, if r.size > 0 then r.size else 0, r.size, Completed, ErrorNone, None, None,
          0, false, false, 0, false, true, 0, 0)
  }

  /** The working file is the source of truth for what has been received. */
  function PausedRow(r: Saved, disk: Disk): Entry
    requires r.destPath in disk.parts
  {
    Entry(r.id, r.url, r.destPath, r.mime, |disk.parts[r.destPath]|, r.size, Paused, ErrorNone, None, None,
          MAX_RETRIES, false, true, 0, false, false, 0, 0)
  }

  predicate LoadsDone(r: Saved) { r.id != "" && r.destPath != "" }

  /** A paused record without its working file is dropped. */
  predicate LoadsPaused(r: Saved, disk: Disk) { r.destPath != "" && r.destPath in disk.parts && r.id != "" }

  function LoadDone(done: seq<Saved>): seq<Entry> {
    if done == [] then []
    else LoadDone(done[..|done| - 1]) + (if LoadsDone(done[|done| - 1]) then [DoneRow(done[|done| - 1])] else [])
  }

  function LoadPaused(paused: seq<Saved>, disk: Disk): seq<Entry> {
    if paused == [] then []
    else
      LoadPaused(paused[..|paused| - 1], disk)
        + (if LoadsPaused(paused[|paused| - 1], disk) then [PausedRow(paused[|paused| - 1], disk)] else [])
  }

  predicate IsStale(e: Entry, disk: Disk) {
    e.status == Completed && (e.destPath == "" || e.destPath !in disk.files)
  }

  /** purgeStaleCompleted(): completed rows without their file go, from the last to the
      first. */
  function PurgeBelow(s: State, n: nat): (s': State)
    requires n <= |s.entries|
    ensures s'.disk == s.disk && s'.timers == s.timers
    decreases n
  {
    if n == 0 then s
    else if IsStale(s.entries[n - 1], s.disk) then PurgeBelow(Erase(s, n - 1), n - 1)
    else PurgeBelow(s, n - 1)
  }

  function Loaded(done: seq<Saved>, paused: seq<Saved>, disk: Disk): State {
    State(LoadDone(done) + LoadPaused(paused, disk), disk, [])
  }

  /** The list as the program starts with it. */
  function Restored(done: seq<Saved>, paused: seq<Saved>, disk: Disk): State {
    var s := Loaded(done, paused, disk);
    PurgeBelow(s, |s.entries|)
  }

  // ---- Timers and network callbacks ------------------------------------------------

  function RemoveTimer(ts: seq<Timer>, t: nat): seq<Timer>
    requires t < |ts|
  {
    ts[..t] + ts[t + 1..]
  }

  /** A backoff timer fires. */
  function TimerFired(s: State, t: nat, env: Kicks): State
    requires t < |s.timers|
  {
    var s1 := s.(timers := RemoveTimer(s.timers, t));
    var i := IndexOf(s.entries, s.timers[t].id);
    if i < 0 || s.entries[i].status != Queued || s.entries[i].userCanceled || s.entries[i].userPaused then s1
    else ProcessQueue(s1, env)
  }

  predicate IsRedirect(code: nat) { 300 <= code < 400 }

  predicate IsFinalCode(code: nat) { code != 0 && !IsRedirect(code) }

  /** The response head reaches the client; with it the server has decided where
      the body starts. */
  function HeadSeen(r: Reply, code: nat): Reply {
    if IsFinalCode(r.code) then r
    else r.(code := code, next := if code == 206 then r.rangeFrom else 0)
  }

  function Abort(e: Entry): Entry
    requires e.reply.Some?
  {
    e.(reply := Some(e.reply.value.(aborted := true)))
  }

  /** reconcileDestFromContentType(). */
  function Reconcile(s: State, i: nat, sn: Sniff): (s': State)
    requires i < |s.entries|
    ensures |s'.entries| == |s.entries|
  {
    var e := s.entries[i];
    if e.destReconciled then s
    else
      var e1 := e.(destReconciled := true);
      if e.file.None? || e.file.value.bytesOnDisk > 0 || sn.mime == "" || sn.mime == e.mime then Put(s, i, e1)
      else if !sn.newExtension then Put(s, i, e1.(mime := sn.mime))
      else
        var d1 := RemovePart(s.disk, e.file.value.destPath);
        var (d2, h) := Opened(d1, sn.newPath, MIN_RESUME_BYTES, e.total, sn.openOk);
        Put(s, i, e1.(destPath := sn.newPath, mime := sn.mime, file := h)).(disk := d2)
  }

  /** The final head of a reply; the row is `e` by now. */
  function FinalHead(s: State, i: nat, e: Entry, code: nat, full: nat, sn: Sniff, outcome: TruncateOutcome): State
    requires i < |s.entries| && e.reply.Some?
  {
    var resuming := e.file.Some? && e.file.value.resumeFrom > 0;
    if code == 206 && resuming then
      Reconcile(Put(s, i, e.(total := if full > 0 then full else e.total)), i, sn)
    else if code == 200 && resuming && e.file.value.destPath in s.disk.parts then
      var (d, h) := TruncatedTo0(s.disk, e.file.value, outcome);
      if outcome != Truncated then Put(s, i, Abort(e)).(disk := d)
      else Reconcile(Put(s, i, e.(file := Some(h), received := 0)).(disk := d), i, sn)
    else if code == 416 && resuming then Put(s, i, Abort(e.(httpStatus := 0)))
    else if 200 <= code < 300 then Reconcile(Put(s, i, e), i, sn)
    else if e.httpStatus != 0 then Put(s, i, e)
    else Put(s, i, Abort(e.(httpStatus := code)))
  }

  /** metaDataChanged: `full` is the total of the Content-Range header, 0 when
      it gives none. */
  function MetaData(s: State, id: Id, code: nat, full: nat, sn: Sniff, outcome: TruncateOutcome): State {
    var i := IndexOf(s.entries, id);
    if i < 0 || s.entries[i].reply.None? then s
    else
      var e := s.entries[i].(reply := Some(HeadSeen(s.entries[i].reply.value, code)));
      if !IsFinalCode(code) then Put(s, i, e) else FinalHead(s, i, e, code, full, sn, outcome)
  }

  /** readyRead: the chunk goes to the working file; `taken` bytes of it are
      accepted by the disk. */
  function Chunk(s: State, id: Id, data: Bytes, taken: nat): State
    requires taken <= |data|
  {
    var i := IndexOf(s.entries, id);
    if i < 0 || s.entries[i].reply.None? || s.entries[i].file.None?
       || s.entries[i].file.value.destPath !in s.disk.parts then s
    else
      var e := s.entries[i];
      var r := e.reply.value.(next := e.reply.value.next + |data|);
      if e.httpStatus >= 400 then Put(s, i, e.(reply := Some(r)))
      else if data == [] then s
      else
        var (d, h) := Written(s.disk, e.file.value, data, taken);
        if taken < |data| then
          Put(s, i, Abort(e.(reply := Some(r), userCanceled := false))).(disk := d)
        else Put(s, i, e.(reply := Some(r), file := Some(h), received := h.bytesOnDisk)).(disk := d)
  }

  /** downloadProgress: Content-Length, ignored while resuming. */
  function Progress(s: State, id: Id, total: int): State {
    var i := IndexOf(s.entries, id);
    if i < 0 || s.entries[i].reply.None? then s
    else
      var e := s.entries[i];
      if (e.file.Some? && e.file.value.resumeFrom > 0) || total <= 0 then s
      else Put(s, i, e.(total := total))
  }

  /** The working file of row i is closed and deleted; the row is then over. */
  function EndRow(s: State, i: nat, status: Status, reason: ErrorReason): State
    requires i < |s.entries|
  {
    var e := s.entries[i];
    Put(s, i, SetStatus(e.(file := None), status, reason))
      .(disk := if e.file.Some? then RemovePart(s.disk, e.file.value.destPath) else s.disk)
  }

  /** kRetryBackoffMsBase * (1 << attempt). */
  function Backoff(attempt: int): nat {
    if attempt <= 0 then RETRY_BACKOFF_MS else 2 * Backoff(attempt - 1)
  }

  /** After a clean end the buffered tail goes to the working file; a failed
      write is ignored. */
  function Drain(s: State, i: nat, f: FinishEnv): (s': State)
    requires i < |s.entries| && f.tailTaken <= |f.tail|
    ensures |s'.entries| == |s.entries|
  {
    var e := s.entries[i];
    if f.err == NoError && e.reply.Some? && e.file.Some? && f.tail != [] && e.file.value.destPath in s.disk.parts then
      var (d, h) := Written(s.disk, e.file.value, f.tail, f.tailTaken);
      Put(s, i, e.(file := Some(h), received := h.bytesOnDisk)).(disk := d)
    else s
  }

  /** A clean end: the working file becomes the destination. */
  function CleanEnd(s: State, i: nat, renameOk: bool): (s': State)
    requires i < |s.entries|
    ensures |s'.entries| == |s.entries|
  {
    var e := s.entries[i];
    if e.file.None? || e.file.value.destPath !in s.disk.parts then EndRow(s, i, Failed, ErrorDiskWrite)
    else
      var d := Finalized(s.disk, e.file.value.destPath, renameOk);
      if !renameOk then EndRow(s.(disk := d), i, Failed, ErrorDiskWrite)
      else
        Put(s, i, SetStatus(e.(file := None, total := if e.total <= 0 then e.received else e.total),
                            Completed, ErrorNone)).(disk := d)
  }

  /** The verdict on a finished reply: the new state, and whether the queue is to
      be processed. */
  function Settle(s: State, i: nat, f: FinishEnv): (r: (State, bool))
    requires i < |s.entries|
    ensures |r.0.entries| == |s.entries|
  {
    var e0 := s.entries[i];
    var httpCode := if e0.httpStatus > 0 then e0.httpStatus
                    else if e0.reply.Some? then e0.reply.value.code else 0;
    var userCancel := f.err == OperationCanceled && e0.userCanceled && !e0.userPaused;
    var transient := !userCancel && !e0.userPaused && httpCode < 400 && IsTransient(f.err);
    var e := e0.(reply := None, userCanceled := false);
    var s1 := Put(s, i, e);
    if e.userPaused then (Put(s, i, e.(file := None)), true)
    else if userCancel then (EndRow(s1, i, Canceled, ErrorNone), true)
    else if transient && e.retriesLeft > 0 then
      (Put(s, i, e.(retriesLeft := e.retriesLeft - 1, file := None, httpStatus := 0, status := Queued))
         .(timers := s.timers + [Timer(e.id, Backoff(MAX_RETRIES - e.retriesLeft))]), false)
    else if httpCode >= 400 then
      (EndRow(s1, i, Failed, if httpCode == 401 || httpCode == 403 then ErrorAuth else ErrorHttp), true)
    else if f.err != NoError then
      (EndRow(s1, i, Failed, if f.err == Timeout then ErrorTimeout else ErrorNetwork), true)
    else (CleanEnd(s1, i, f.renameOk), true)
  }

  /** handleFinished(): a retry keeps its slot idle until the timer fires. */
  function Finished(s: State, id: Id, f: FinishEnv, env: Kicks): State
    requires f.tailTaken <= |f.tail|
  {
    var i := IndexOf(s.entries, id);
    if i < 0 then s
    else
      var (s1, process) := Settle(Drain(s, i, f), i, f);
      if process then ProcessQueue(s1, env) else s1
  }

  // ---- Events ---------------------------------------------------------------------

  datatype Event =
    | UserStart(id: Id, url: Url, mime: string, size: int, dest: Path, env: Kicks)
    | UserRetry(id: Id, dest: Path, env: Kicks)
    | UserCancel(id: Id, env: Kicks)
    | UserPause(id: Id, env: Kicks)
    | UserResume(id: Id, env: Kicks)
    | UserPauseAll
    | UserResumeAll(env: Kicks)
    | UserRemove(id: Id, env: Kicks)
    | UserClear
    | SessionGone
    | TimerFires(t: nat, env: Kicks)
    | Head(id: Id, code: nat, full: nat, sniff: Sniff, outcome: TruncateOutcome)
    | Body(id: Id, data: Bytes, taken: nat)
    | Length(id: Id, total: int)
    | Ends(id: Id, f: FinishEnv, env: Kicks)

  predicate WellFormed(s: State, ev: Event) {
    match ev
    case TimerFires(t, _) => t < |s.timers|
    case Body(_, data, taken) => taken <= |data|
    case Ends(_, f, _) => f.tailTaken <= |f.tail|
    case _ => true
  }

  function Apply(s: State, ev: Event): State
    requires WellFormed(s, ev)
  {
    match ev
    case UserStart(id, url, mime, size, dest, env) => Start(s, id, url, mime, size, dest, env)
    case UserRetry(id, dest, env) => Retry(s, id, dest, env)
    case UserCancel(id, env) => Cancel(s, id, env)
    case UserPause(id, env) => Pause(s, id, env)
    case UserResume(id, env) => Resume(s, id, env)
    case UserPauseAll => PauseAll(s)
    case UserResumeAll(env) => ResumeAll(s, env)
    case UserRemove(id, env) => Remove(s, id, env)
    case UserClear => ClearCompleted(s)
    case SessionGone => Logout(s)
    case TimerFires(t, env) => TimerFired(s, t, env)
    case Head(id, code, full, sniff, outcome) => MetaData(s, id, code, full, sniff, outcome)
    case Body(id, data, taken) => Chunk(s, id, data, taken)
    case Length(id, total) => Progress(s, id, total)
    case Ends(id, f, env) => Finished(s, id, f, env)
  }
}
