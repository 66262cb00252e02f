/** What holds of the download engine over every run. */
module DownloadsInvariant {
  import opened Wrappers
  import opened Disks
  import opened Downloads

  /** The bytes behind each URL; they do not change during a run. */
  type Origin = Url -> Bytes

  // ---- The invariant --------------------------------------------------------

  /** Rows whose destination nobody else may use. */
  predicate Owns(e: Entry) { IsLive(e.status) || e.status == Completed }

  /** An open file against the live reply that feeds it: until the reply is
      aborted, the next body byte belongs at the end of the file. */
  predicate InStep(h: Handle, r: Reply, size: nat) {
    !r.aborted ==>
      && h.bytesOnDisk == size
      && (if IsFinalCode(r.code)
          then r.next == size && (r.code == 200 ==> h.resumeFrom == 0) && (r.code == 206 ==> 0 < h.resumeFrom <= size)
          else h.resumeFrom == size == r.rangeFrom)
  }

  /** Status governs resources. */
  predicate Governed(e: Entry, disk: Disk) {
    && (e.reply.Some? <==> e.status == Downloading)
    && (e.file.Some? ==> e.status == Downloading && e.file.value.destPath == e.destPath && e.destPath in disk.parts)
    && (e.userPaused <==> e.status == Paused)
    && (e.userCanceled ==> e.status == Canceled)
    && (e.errorReason != ErrorNone <==> e.status == Failed)
    && (e.file.Some? && e.reply.Some? && !e.reply.value.aborted ==> e.received == e.file.value.bytesOnDisk)
    && (e.reply.Some? && !e.reply.value.aborted ==>
          e.httpStatus == 0
          && (IsFinalCode(e.reply.value.code) ==> e.reply.value.code == 200 || e.reply.value.code == 206))
  }

  predicate RetriesCounted(e: Entry) {
    && e.retriesLeft <= MAX_RETRIES
    && e.kicks + e.retriesLeft + One(e.status == Queued) <= 1 + MAX_RETRIES + e.resumes
  }

  /** Every byte on disk is the resource's; `lossless` says that no tail write
      has failed in this run. */
  ghost predicate ByteExact(e: Entry, disk: Disk, origin: Origin, lossless: bool) {
    && (IsLive(e.status) && e.destPath in disk.parts ==> disk.parts[e.destPath] <= origin(e.url))
    && (e.file.Some? && e.reply.Some? && e.destPath in disk.parts ==>
          InStep(e.file.value, e.reply.value, |disk.parts[e.destPath]|))
    && (e.status == Completed ==>
          && e.destPath !in disk.parts && e.destPath in disk.files
          && disk.files[e.destPath] <= origin(e.url)
          && (lossless ==>
                disk.files[e.destPath] == origin(e.url) && (!e.persisted ==> e.received == |origin(e.url)|)))
  }

  ghost predicate RowOk(e: Entry, disk: Disk, origin: Origin, lossless: bool) {
    Governed(e, disk) && RetriesCounted(e) && ByteExact(e, disk, origin, lossless)
  }

  predicate DistinctIds(entries: seq<Entry>) {
    forall i, j :: 0 <= i < j < |entries| ==> entries[i].id != entries[j].id
  }

  predicate Apart(entries: seq<Entry>) {
    forall i, j :: 0 <= i < j < |entries| && Owns(entries[i]) && Owns(entries[j])
      ==> entries[i].destPath != entries[j].destPath
  }

  ghost predicate Rows(s: State, origin: Origin, lossless: bool) {
    && DistinctIds(s.entries)
    && Apart(s.entries)
    && forall i :: 0 <= i < |s.entries| ==> RowOk(s.entries[i], s.disk, origin, lossless)
  }

  predicate TimersOk(timers: seq<Timer>) {
    forall t :: 0 <= t < |timers| ==> timers[t].delayMs == 1500 || timers[t].delayMs == 3000
  }

  ghost predicate Core(s: State, origin: Origin, lossless: bool) {
    Rows(s, origin, lossless) && ActiveCount(s.entries) <= MAX_CONCURRENT && TimersOk(s.timers)
  }

  predicate IsQueuedAt(s: State, i: int) { 0 <= i < |s.entries| && s.entries[i].status == Queued }

  /** A pending backoff timer of a row that is still queued. */
  predicate WakesAt(s: State, t: int, i: int) {
    0 <= t < |s.timers| && IsQueuedAt(s, i) && s.timers[t].id == s.entries[i].id
  }

  predicate NoQueued(s: State) { forall i :: 0 <= i < |s.entries| ==> s.entries[i].status != Queued }

  /** No stranded queue: whatever is queued will be looked at again. */
  ghost predicate NotStranded(s: State) {
    NoQueued(s) || ActiveCount(s.entries) == MAX_CONCURRENT || exists t, i :: WakesAt(s, t, i)
  }

  ghost predicate Inv(s: State, origin: Origin, lossless: bool) {
    Core(s, origin, lossless) && NotStranded(s)
  }

  // ---- What is assumed of the environment -----------------------------------

  /** computeDestPath returns a path with neither a file nor a working file; that
      it also differs from the paths of live rows is an assumption. */
  predicate FreshPath(s: State, p: Path) {
    && p !in s.disk.parts && p !in s.disk.files
    && forall i :: 0 <= i < |s.entries| && IsLive(s.entries[i].status) ==> s.entries[i].destPath != p
  }

  ghost predicate LegalHead(r: Reply, code: nat) {
    && !r.aborted
    && (if IsFinalCode(r.code) then code == r.code
        else code == 0 || IsRedirect(code) || code == 200 || code >= 400 || (code == 206 && r.rangeFrom > 0))
  }

  ghost predicate LegalBody(r: Reply, resource: Bytes, data: Bytes) {
    && !r.aborted && (r.code == 200 || r.code == 206)
    && r.next + |data| <= |resource| && data == resource[r.next..r.next + |data|]
  }

  ghost predicate LegalEnd(r: Reply, resource: Bytes, f: FinishEnv, lossless: bool) {
    && (r.aborted ==> f.err == OperationCanceled)
    && (f.err == NoError ==>
          (r.code == 200 || r.code == 206) && r.next <= |resource| && f.tail == resource[r.next..])
    && (lossless ==> f.tailTaken == |f.tail|)
  }

  /** The server answers a Range with 206 or 200, or with an error; the head
      comes before the body; body bytes are the resource's from where the head
      says; a clean end means the whole body was handed over. */
  ghost predicate Legal(s: State, ev: Event, origin: Origin, lossless: bool) {
    && WellFormed(s, ev)
    && match ev
       case UserStart(_, _, _, _, dest, _) => FreshPath(s, dest)
       case UserRetry(_, dest, _) => FreshPath(s, dest)
       case Head(id, code, _, sniff, _) =>
         var i := IndexOf(s.entries, id);
         i >= 0 && s.entries[i].reply.Some? ==>
           LegalHead(s.entries[i].reply.value, code) && FreshPath(s, sniff.newPath)
       case Body(id, data, _) =>
         var i := IndexOf(s.entries, id);
         i >= 0 && s.entries[i].reply.Some? ==> LegalBody(s.entries[i].reply.value, origin(s.entries[i].url), data)
       case Ends(id, f, _) =>
         var i := IndexOf(s.entries, id);
         i >= 0 ==> s.entries[i].reply.Some?
                    && LegalEnd(s.entries[i].reply.value, origin(s.entries[i].url), f, lossless)
       case _ => true
  }

  // ---- Counting ----------------------------------------------------------------

  lemma {:induction false} SumUpdate(entries: seq<Entry>, i: nat, e: Entry, w: Entry -> nat)
    requires i < |entries|
    ensures Sum(entries[i := e], w) + w(entries[i]) == Sum(entries, w) + w(e)
  {
    var n := |entries| - 1;
    if i < n {
      assert entries[i := e][..n] == entries[..n][i := e];
      SumUpdate(entries[..n], i, e, w);
    } else {
      assert entries[i := e][..n] == entries[..n];
    }
  }

  lemma {:induction false} SumAppend(a: seq<Entry>, b: seq<Entry>, w: Entry -> nat)
    ensures Sum(a + b, w) == Sum(a, w) + Sum(b, w)
  {
    if b == [] {
      assert a + b == a;
    } else {
      assert (a + b)[..|a + b| - 1] == a + b[..|b| - 1];
      SumAppend(a, b[..|b| - 1], w);
    }
  }

  lemma SumErase(s: State, i: nat, w: Entry -> nat)
    requires i < |s.entries|
    ensures Sum(Erase(s, i).entries, w) + w(s.entries[i]) == Sum(s.entries, w)
  {
    var a, b := s.entries[..i], s.entries[i + 1..];
    assert s.entries == a + [s.entries[i]] + b;
    SumAppend(a + [s.entries[i]], b, w);
    SumAppend(a, [s.entries[i]], w);
    SumAppend(a, b, w);
    assert [s.entries[i]][..0] == [];
  }

  lemma SumAdd(entries: seq<Entry>, e: Entry, w: Entry -> nat)
    ensures Sum(entries + [e], w) == Sum(entries, w) + w(e)
  {
    assert (entries + [e])[..|entries|] == entries;
  }

  // ---- Changing one row ---------------------------------------------------------

  lemma RowFrame(e: Entry, d: Disk, d': Disk, paths: set<Path>, origin: Origin, lossless: bool)
    requires RowOk(e, d, origin, lossless) && SameOutside(d, d', paths)
    requires Owns(e) ==> e.destPath !in paths
    ensures RowOk(e, d', origin, lossless)
  {
  }

  /** Row i becomes `e`, and the disk changes at its old and new paths only. */
  lemma RowChange(s: State, i: nat, e: Entry, d: Disk, origin: Origin, lossless: bool)
    requires Rows(s, origin, lossless) && i < |s.entries| && e.id == s.entries[i].id
    requires SameOutside(s.disk, d, {s.entries[i].destPath, e.destPath})
    requires forall j :: 0 <= j < |s.entries| && j != i && Owns(s.entries[j]) ==>
               s.entries[j].destPath != s.entries[i].destPath && s.entries[j].destPath != e.destPath
    requires RowOk(e, d, origin, lossless)
    ensures Rows(Put(s, i, e).(disk := d), origin, lossless)
  {
    forall j | 0 <= j < |s.entries| && j != i
      ensures RowOk(s.entries[j], d, origin, lossless)
    {
      RowFrame(s.entries[j], s.disk, d, {s.entries[i].destPath, e.destPath}, origin, lossless);
    }
  }

  /** As above when the row keeps its path. */
  lemma OwnRowChange(s: State, i: nat, e: Entry, d: Disk, origin: Origin, lossless: bool)
    requires Rows(s, origin, lossless) && i < |s.entries| && Owns(s.entries[i])
    requires e.id == s.entries[i].id && e.destPath == s.entries[i].destPath
    requires SameOutside(s.disk, d, {e.destPath})
    requires RowOk(e, d, origin, lossless)
    ensures Rows(Put(s, i, e).(disk := d), origin, lossless)
  {
    RowChange(s, i, e, d, origin, lossless);
  }

  // ---- Scheduling -----------------------------------------------------------------

  /** What processing the queue may do to a row. */
  predicate KickedRow(e: Entry, e': Entry) {
    e' == e
    || (e.status == Queued && (e'.status == Downloading || e'.status == Failed)
        && e'.id == e.id && e'.url == e.url && e'.destPath == e.destPath
        && e'.retriesLeft == e.retriesLeft && e'.resumes == e.resumes && e'.kicks == e.kicks + 1)
  }

  lemma KickOffRow(s: State, i: nat, k: KickEnv, origin: Origin, lossless: bool)
    requires IsQueuedAt(s, i) && RowOk(s.entries[i], s.disk, origin, lossless)
    ensures var s' := KickOff(s, i, k);
            var e := s'.entries[i];
            && RowOk(e, s'.disk, origin, lossless) && SameOutside(s.disk, s'.disk, {s.entries[i].destPath})
            && s' == Put(s, i, e).(disk := s'.disk) && KickedRow(s.entries[i], e) && e.status != Queued
            && e.id == s.entries[i].id && e.destPath == s.entries[i].destPath
  {
    hide DiskBudgetOk;
  }

  lemma KickOffKeeps(s: State, i: nat, k: KickEnv, origin: Origin, lossless: bool)
    requires Core(s, origin, lossless) && IsQueuedAt(s, i) && ActiveCount(s.entries) < MAX_CONCURRENT
    ensures Core(KickOff(s, i, k), origin, lossless)
    ensures KickedRow(s.entries[i], KickOff(s, i, k).entries[i])
    ensures KickOff(s, i, k).entries[i].status != Queued
    ensures KickOff(s, i, k).entries == s.entries[i := KickOff(s, i, k).entries[i]]
  {
    hide KickOff, RowOk, KickedRow;
    var s' := KickOff(s, i, k);
    var e := s'.entries[i];
    KickOffRow(s, i, k, origin, lossless);
    OwnRowChange(s, i, e, s'.disk, origin, lossless);
    SumUpdate(s.entries, i, e, ACTIVE);
  }

  lemma {:induction false} ProcessKeeps(s: State, i: nat, env: Kicks, origin: Origin, lossless: bool)
    requires Core(s, origin, lossless) && i <= |s.entries|
    ensures Core(ProcessFrom(s, i, env), origin, lossless)
    decreases |s.entries| - i
  {
    if i < |s.entries| && ActiveCount(s.entries) < MAX_CONCURRENT {
      if s.entries[i].status == Queued {
        KickOffKeeps(s, i, env(s.entries[i].id), origin, lossless);
        ProcessKeeps(KickOff(s, i, env(s.entries[i].id)), i + 1, env, origin, lossless);
      } else {
        ProcessKeeps(s, i + 1, env, origin, lossless);
      }
    }
  }

  /** The rows in [from, cut) have been served and no other row has changed. */
  predicate Served(a: seq<Entry>, b: seq<Entry>, from: nat, cut: nat) {
    && |a| == |b| && from <= cut <= |a|
    && (forall j :: 0 <= j < from ==> b[j] == a[j])
    && (forall j :: from <= j < cut ==> KickedRow(a[j], b[j]) && b[j].status != Queued)
    && (forall j :: cut <= j < |a| ==> b[j] == a[j])
  }

  lemma KickOffTouches(s: State, i: nat, k: KickEnv)
    requires IsQueuedAt(s, i)
    ensures KickedRow(s.entries[i], KickOff(s, i, k).entries[i])
    ensures KickOff(s, i, k).entries[i].status != Queued
    ensures forall j :: 0 <= j < |s.entries| && j != i ==> KickOff(s, i, k).entries[j] == s.entries[j]
  {
    hide DiskBudgetOk;
  }

  /** processQueue() serves the rows in list order: there is a cut before which
      nothing stays queued and from which on nothing is touched, and it stops
      before the end only with every slot busy. */
  lemma {:induction false} ProcessIsFifo(s: State, i: nat, env: Kicks) returns (cut: nat)
    requires i <= |s.entries|
    ensures Served(s.entries, ProcessFrom(s, i, env).entries, i, cut)
    ensures cut < |s.entries| ==> ActiveCount(ProcessFrom(s, i, env).entries) >= MAX_CONCURRENT
    decreases |s.entries| - i
  {
    hide KickOff, ActiveCount;
    if i == |s.entries| || ActiveCount(s.entries) >= MAX_CONCURRENT {
      cut := i;
    } else if s.entries[i].status == Queued {
      KickOffTouches(s, i, env(s.entries[i].id));
      cut := ProcessIsFifo(KickOff(s, i, env(s.entries[i].id)), i + 1, env);
    } else {
      cut := ProcessIsFifo(s, i + 1, env);
    }
  }

  /** After processQueue() nothing is stranded. */
  lemma ProcessSettles(s: State, env: Kicks, origin: Origin, lossless: bool)
    requires Core(s, origin, lossless)
    ensures Inv(ProcessQueue(s, env), origin, lossless)
    ensures NoQueued(ProcessQueue(s, env)) || ActiveCount(ProcessQueue(s, env).entries) == MAX_CONCURRENT
  {
    ProcessKeeps(s, 0, env, origin, lossless);
    var cut := ProcessIsFifo(s, 0, env);
  }

  // ---- User slots ---------------------------------------------------------------------

  /** Any change of one row that keeps or gives up its path. */
  lemma CoreChange(s: State, i: nat, e: Entry, d: Disk, origin: Origin, lossless: bool)
    requires Core(s, origin, lossless) && i < |s.entries| && Owns(s.entries[i])
    requires e.id == s.entries[i].id && e.destPath == s.entries[i].destPath
    requires SameOutside(s.disk, d, {e.destPath}) && RowOk(e, d, origin, lossless)
    requires e.status == Downloading ==> s.entries[i].status == Downloading
    ensures Core(Put(s, i, e).(disk := d), origin, lossless)
  {
    OwnRowChange(s, i, e, d, origin, lossless);
    SumUpdate(s.entries, i, e, ACTIVE);
  }

  lemma CancelRowKeeps(s: State, i: nat, origin: Origin, lossless: bool)
    requires Core(s, origin, lossless) && i < |s.entries| && IsLive(s.entries[i].status)
    ensures Core(CancelRow(s, i), origin, lossless)
    ensures CancelRow(s, i).entries[i].destPath !in CancelRow(s, i).disk.parts
  {
    var s' := CancelRow(s, i);
    assert RowOk(s.entries[i], s.disk, origin, lossless);
    CoreChange(s, i, s'.entries[i], s'.disk, origin, lossless);
    assert s' == Put(s, i, s'.entries[i]).(disk := s'.disk);
  }

  lemma PauseRowKeeps(s: State, i: nat, origin: Origin, lossless: bool)
    requires Core(s, origin, lossless) && i < |s.entries| && IsRunning(s.entries[i].status)
    ensures Core(PauseRow(s, i), origin, lossless)
  {
    var s' := PauseRow(s, i);
    assert RowOk(s.entries[i], s.disk, origin, lossless);
    CoreChange(s, i, s'.entries[i], s'.disk, origin, lossless);
    assert s' == Put(s, i, s'.entries[i]).(disk := s'.disk);
  }

  lemma ResumeRowKeeps(s: State, i: nat, origin: Origin, lossless: bool)
    requires Core(s, origin, lossless) && i < |s.entries| && s.entries[i].status == Paused
    ensures Core(ResumeRow(s, i), origin, lossless)
  {
    var s' := ResumeRow(s, i);
    assert RowOk(s.entries[i], s.disk, origin, lossless);
    CoreChange(s, i, s'.entries[i], s'.disk, origin, lossless);
    assert s' == Put(s, i, s'.entries[i]).(disk := s'.disk);
  }

  /** Dropping a row, and with it the claim on its path. */
  lemma EraseKeeps(s: State, i: nat, origin: Origin, lossless: bool)
    requires Core(s, origin, lossless) && i < |s.entries|
    ensures Core(Erase(s, i), origin, lossless)
  {
    hide RowOk, Sum, Owns;
    SumErase(s, i, ACTIVE);
  }

  lemma AddKeeps(s: State, e: Entry, origin: Origin, lossless: bool)
    requires Core(s, origin, lossless) && e.status == Queued && RowOk(e, s.disk, origin, lossless)
    requires forall j :: 0 <= j < |s.entries| ==> s.entries[j].id != e.id
    requires FreshPath(s, e.destPath)
    ensures Core(s.(entries := s.entries + [e]), origin, lossless)
  {
    hide Sum;
    SumAdd(s.entries, e, ACTIVE);
    forall j | 0 <= j < |s.entries| && Owns(s.entries[j])
      ensures s.entries[j].destPath != e.destPath
    {
      assert RowOk(s.entries[j], s.disk, origin, lossless);
    }
  }

  lemma ResumeKeeps(s: State, id: Id, env: Kicks, origin: Origin, lossless: bool)
    requires Inv(s, origin, lossless)
    ensures Inv(Resume(s, id, env), origin, lossless)
  {
    var i := IndexOf(s.entries, id);
    if i >= 0 && s.entries[i].status == Paused {
      ResumeRowKeeps(s, i, origin, lossless);
      ProcessSettles(ResumeRow(s, i), env, origin, lossless);
    }
  }

  lemma StartKeeps(s: State, id: Id, url: Url, mime: string, size: int, dest: Path, env: Kicks,
                   origin: Origin, lossless: bool)
    requires Inv(s, origin, lossless) && FreshPath(s, dest)
    ensures Inv(Start(s, id, url, mime, size, dest, env), origin, lossless)
  {
    var i := IndexOf(s.entries, id);
    if i >= 0 && s.entries[i].status == Paused {
      ResumeKeeps(s, id, env, origin, lossless);
    } else if id != "" && url != "" && (i >= 0 ==> !IsRunning(s.entries[i].status)) {
      var s1 := if i >= 0 then Erase(s, i) else s;
      if i >= 0 {
        EraseKeeps(s, i, origin, lossless);
      }
      var e := FreshEntry(id, url, mime, size, dest);
      AddKeeps(s1, e, origin, lossless);
      ProcessSettles(s1.(entries := s1.entries + [e]), env, origin, lossless);
    }
  }

  lemma CancelKeeps(s: State, id: Id, env: Kicks, origin: Origin, lossless: bool)
    requires Inv(s, origin, lossless)
    ensures Inv(Cancel(s, id, env), origin, lossless)
  {
    var i := IndexOf(s.entries, id);
    if i >= 0 && IsLive(s.entries[i].status) {
      CancelRowKeeps(s, i, origin, lossless);
      ProcessSettles(CancelRow(s, i), env, origin, lossless);
    }
  }

  lemma PauseKeeps(s: State, id: Id, env: Kicks, origin: Origin, lossless: bool)
    requires Inv(s, origin, lossless)
    ensures Inv(Pause(s, id, env), origin, lossless)
  {
    var i := IndexOf(s.entries, id);
    if i >= 0 && IsRunning(s.entries[i].status) {
      PauseRowKeeps(s, i, origin, lossless);
      ProcessSettles(PauseRow(s, i), env, origin, lossless);
    }
  }

  lemma {:induction false} PauseFromKeeps(s: State, i: nat, origin: Origin, lossless: bool)
    requires Core(s, origin, lossless) && i <= |s.entries|
    requires forall j :: 0 <= j < i ==> s.entries[j].status != Queued
    ensures Core(PauseFrom(s, i), origin, lossless) && NoQueued(PauseFrom(s, i))
    decreases |s.entries| - i
  {
    hide Core, RowOk, RemovePart;
    if i < |s.entries| {
      if IsRunning(s.entries[i].status) {
        PauseRowKeeps(s, i, origin, lossless);
        PauseFromKeeps(PauseRow(s, i), i + 1, origin, lossless);
      } else {
        PauseFromKeeps(s, i + 1, origin, lossless);
      }
    }
  }

  lemma {:induction false} ResumeFromKeeps(s: State, i: nat, origin: Origin, lossless: bool)
    requires Core(s, origin, lossless) && i <= |s.entries|
    ensures Core(ResumeFrom(s, i), origin, lossless)
    decreases |s.entries| - i
  {
    if i < |s.entries| {
      if s.entries[i].status == Paused {
        ResumeRowKeeps(s, i, origin, lossless);
        ResumeFromKeeps(ResumeRow(s, i), i + 1, origin, lossless);
      } else {
        ResumeFromKeeps(s, i + 1, origin, lossless);
      }
    }
  }

  lemma RemoveKeeps(s: State, id: Id, env: Kicks, origin: Origin, lossless: bool)
    requires Inv(s, origin, lossless)
    ensures Inv(Remove(s, id, env), origin, lossless)
  {
    var i := IndexOf(s.entries, id);
    if i >= 0 {
      if IsLive(s.entries[i].status) {
        CancelRowKeeps(s, i, origin, lossless);
        EraseKeeps(CancelRow(s, i), i, origin, lossless);
        assert Erase(CancelRow(s, i), i).entries == Erase(Teardown(s, i, false), i).entries;
        ProcessSettles(Erase(Teardown(s, i, false), i), env, origin, lossless);
      } else {
        EraseKeeps(s, i, origin, lossless);
        EraseSettled(s, i);
      }
    }
  }

  /** Dropping a row that is not queued strands nothing. */
  lemma EraseSettled(s: State, i: nat)
    requires i < |s.entries| && s.entries[i].status != Queued && s.entries[i].status != Downloading
    requires NotStranded(s)
    ensures NotStranded(Erase(s, i))
  {
    SumErase(s, i, ACTIVE);
    var s' := Erase(s, i);
    assert ActiveCount(s'.entries) == ActiveCount(s.entries);
    assert forall j :: 0 <= j < |s'.entries| ==> s'.entries[j] == s.entries[if j < i then j else j + 1];
    hide ActiveCount, Erase;
    if t, q :| WakesAt(s, t, q) {
      assert WakesAt(s', t, if q < i then q else q - 1);
    } else if NoQueued(s) {
      assert NoQueued(s');
    }
  }

  lemma EraseOverKeeps(s: State, i: nat, origin: Origin, lossless: bool)
    requires Inv(s, origin, lossless) && i < |s.entries| && IsOver(s.entries[i].status)
    ensures Inv(Erase(s, i), origin, lossless)
  {
    hide Core, NotStranded, Erase;
    EraseKeeps(s, i, origin, lossless);
    EraseSettled(s, i);
  }

  lemma {:induction false} ClearKeeps(s: State, n: nat, origin: Origin, lossless: bool)
    requires Inv(s, origin, lossless) && n <= |s.entries|
    ensures Inv(ClearBelow(s, n), origin, lossless)
    decreases n
  {
    hide Inv;
    if n > 0 {
      if IsOver(s.entries[n - 1].status) {
        EraseOverKeeps(s, n - 1, origin, lossless);
        ClearKeeps(Erase(s, n - 1), n - 1, origin, lossless);
      } else {
        ClearKeeps(s, n - 1, origin, lossless);
      }
    }
  }

  /** A row that runs is not paused, so dropping it is cancelling it. */
  lemma LogoutRow(s: State, i: nat)
    requires i < |s.entries| && !s.entries[i].userPaused
    ensures var s1 := Teardown(s, i, false);
            Put(s1, i, SetStatus(s1.entries[i].(userCanceled := true), Canceled, ErrorNone)) == CancelRow(s, i)
  {
  }

  lemma CancelRowTouches(s: State, i: nat)
    requires i < |s.entries|
    ensures |CancelRow(s, i).entries| == |s.entries| && CancelRow(s, i).entries[i].status == Canceled
    ensures forall j :: 0 <= j < |s.entries| && j != i ==> CancelRow(s, i).entries[j] == s.entries[j]
  {
  }

  /** What the logout does to a running row. */
  lemma LogoutRowKeeps(s: State, i: nat, origin: Origin, lossless: bool)
    requires Core(s, origin, lossless) && i < |s.entries| && IsRunning(s.entries[i].status)
    ensures LogoutFrom(s, i) == LogoutFrom(CancelRow(s, i), i + 1) && Core(CancelRow(s, i), origin, lossless)
    ensures |CancelRow(s, i).entries| == |s.entries| && CancelRow(s, i).entries[i].status == Canceled
    ensures forall j :: 0 <= j < |s.entries| && j != i ==> CancelRow(s, i).entries[j] == s.entries[j]
  {
    hide Teardown, Put, ByteExact, SetStatus;
    assert RowOk(s.entries[i], s.disk, origin, lossless);
    LogoutRow(s, i);
    hide Core, RowOk, CancelRow;
    CancelRowTouches(s, i);
    CancelRowKeeps(s, i, origin, lossless);
  }

  lemma {:induction false} LogoutKeeps(s: State, i: nat, origin: Origin, lossless: bool)
    requires Core(s, origin, lossless) && i <= |s.entries|
    requires forall j :: 0 <= j < i ==> !IsRunning(s.entries[j].status)
    ensures Core(LogoutFrom(s, i), origin, lossless)
    ensures forall j :: 0 <= j < |s.entries| ==> !IsRunning(LogoutFrom(s, i).entries[j].status)
    decreases |s.entries| - i
  {
    hide Core, CancelRow, Teardown, Put, SetStatus;
    if i < |s.entries| {
      if IsRunning(s.entries[i].status) {
        LogoutRowKeeps(s, i, origin, lossless);
        LogoutKeeps(CancelRow(s, i), i + 1, origin, lossless);
      } else {
        LogoutKeeps(s, i + 1, origin, lossless);
      }
    }
  }

  // ---- Network callbacks -----------------------------------------------------------------

  lemma RowIsOk(s: State, i: nat, origin: Origin, lossless: bool)
    requires Inv(s, origin, lossless) && i < |s.entries|
    ensures RowOk(s.entries[i], s.disk, origin, lossless)
  {
  }

  /** A row that is transferring before and after. */
  lemma TransferKeeps(s: State, i: nat, e: Entry, d: Disk, origin: Origin, lossless: bool)
    requires Inv(s, origin, lossless) && i < |s.entries|
    requires s.entries[i].status == e.status == Downloading && e.id == s.entries[i].id
    requires e.destPath == s.entries[i].destPath || FreshPath(s, e.destPath)
    requires SameOutside(s.disk, d, {s.entries[i].destPath, e.destPath}) && RowOk(e, d, origin, lossless)
    ensures Inv(Put(s, i, e).(disk := d), origin, lossless)
  {
    var s' := Put(s, i, e).(disk := d);
    forall j | 0 <= j < |s.entries| && j != i && Owns(s.entries[j])
      ensures s.entries[j].destPath != s.entries[i].destPath && s.entries[j].destPath != e.destPath
    {
      assert RowOk(s.entries[j], s.disk, origin, lossless);
    }
    RowChange(s, i, e, d, origin, lossless);
    SumUpdate(s.entries, i, e, ACTIVE);
    if t, q :| WakesAt(s, t, q) {
      assert WakesAt(s', t, q);
    }
  }

  /** The reply of row i has its final head and is still being read. */
  predicate Flowing(s: State, i: int) {
    && 0 <= i < |s.entries| && s.entries[i].reply.Some? && !s.entries[i].reply.value.aborted
    && IsFinalCode(s.entries[i].reply.value.code)
  }

  lemma ReconcileRow(s: State, i: nat, sn: Sniff, origin: Origin, lossless: bool)
    requires Flowing(s, i) && FreshPath(s, sn.newPath) && RowOk(s.entries[i], s.disk, origin, lossless)
    ensures var s' := Reconcile(s, i, sn);
            var e := s'.entries[i];
            && RowOk(e, s'.disk, origin, lossless)
            && SameOutside(s.disk, s'.disk, {s.entries[i].destPath, e.destPath})
            && s' == Put(s, i, e).(disk := s'.disk)
            && s.entries[i].status == e.status == Downloading && e.id == s.entries[i].id
            && (e.destPath == s.entries[i].destPath || e.destPath == sn.newPath)
  {
    hide IsJunk;
  }

  lemma ReconcileKeeps(s: State, i: nat, sn: Sniff, origin: Origin, lossless: bool)
    requires Inv(s, origin, lossless) && Flowing(s, i) && FreshPath(s, sn.newPath)
    ensures Inv(Reconcile(s, i, sn), origin, lossless)
  {
    hide Inv, Reconcile, RowOk, FreshPath;
    var s' := Reconcile(s, i, sn);
    RowIsOk(s, i, origin, lossless);
    ReconcileRow(s, i, sn, origin, lossless);
    TransferKeeps(s, i, s'.entries[i], s'.disk, origin, lossless);
  }

  /** The head as it affects the row itself, before the path is reconciled. */
  function HeadRow(s: State, i: nat, code: nat, full: nat, outcome: TruncateOutcome): State
    requires i < |s.entries| && s.entries[i].reply.Some?
  {
    var e := s.entries[i].(reply := Some(HeadSeen(s.entries[i].reply.value, code)));
    var resuming := e.file.Some? && e.file.value.resumeFrom > 0;
    if code == 206 && resuming then Put(s, i, e.(total := if full > 0 then full else e.total))
    else if code == 200 && resuming && e.file.value.destPath in s.disk.parts then
      var (d, h) := TruncatedTo0(s.disk, e.file.value, outcome);
      if outcome != Truncated then Put(s, i, Abort(e)).(disk := d)
      else Put(s, i, e.(file := Some(h), received := 0)).(disk := d)
    else if code == 416 && resuming then Put(s, i, Abort(e.(httpStatus := 0)))
    else if code < 400 || e.httpStatus != 0 then Put(s, i, e)
    else Put(s, i, Abort(e.(httpStatus := code)))
  }

  lemma HeadRowShape(s: State, i: nat, code: nat, full: nat, outcome: TruncateOutcome)
    requires i < |s.entries| && s.entries[i].reply.Some? && Governed(s.entries[i], s.disk)
    ensures var s' := HeadRow(s, i, code, full, outcome);
            && s' == Put(s, i, s'.entries[i]).(disk := s'.disk)
            && SameOutside(s.disk, s'.disk, {s.entries[i].destPath})
            && s'.entries[i].status == s.entries[i].status && s'.entries[i].id == s.entries[i].id
            && s'.entries[i].destPath == s.entries[i].destPath
  {
    hide TruncatedTo0;
  }

  lemma HeadRowExact(s: State, i: nat, code: nat, full: nat, outcome: TruncateOutcome,
                     origin: Origin, lossless: bool)
    requires i < |s.entries| && s.entries[i].reply.Some? && RowOk(s.entries[i], s.disk, origin, lossless)
    requires LegalHead(s.entries[i].reply.value, code)
    ensures var s' := HeadRow(s, i, code, full, outcome); ByteExact(s'.entries[i], s'.disk, origin, lossless)
  {
    hide TruncatedTo0, RetriesCounted;
    var e := s.entries[i];
    if e.destPath in s.disk.parts {
      assert s.disk.parts[e.destPath][..0] == [] && [] <= origin(e.url);
    }
  }

  /** An aborted reply leaves little to govern. */
  lemma AbortGoverned(e: Entry, disk: Disk, disk': Disk, r: Reply, status: nat)
    requires Governed(e, disk) && e.reply.Some? && (e.destPath in disk.parts ==> e.destPath in disk'.parts)
    ensures Governed(Abort(e.(reply := Some(r), httpStatus := status)), disk')
  {
    hide IsFinalCode;
  }

  lemma HeadRowGoverned(s: State, i: nat, code: nat, full: nat, outcome: TruncateOutcome)
    requires i < |s.entries| && s.entries[i].reply.Some? && Governed(s.entries[i], s.disk)
    requires LegalHead(s.entries[i].reply.value, code)
    ensures var s' := HeadRow(s, i, code, full, outcome); Governed(s'.entries[i], s'.disk)
  {
    hide TruncatedTo0;
    var e, e' := s.entries[i], HeadRow(s, i, code, full, outcome).entries[i];
    if e'.reply.value.aborted {
      hide Governed, IsFinalCode;
      AbortGoverned(e, s.disk, HeadRow(s, i, code, full, outcome).disk, HeadSeen(e.reply.value, code), e'.httpStatus);
    }
  }

  lemma HeadRowOk(s: State, i: nat, code: nat, full: nat, outcome: TruncateOutcome,
                  origin: Origin, lossless: bool)
    requires i < |s.entries| && s.entries[i].reply.Some? && RowOk(s.entries[i], s.disk, origin, lossless)
    requires LegalHead(s.entries[i].reply.value, code)
    ensures var s' := HeadRow(s, i, code, full, outcome); RowOk(s'.entries[i], s'.disk, origin, lossless)
  {
    hide ByteExact, IsFinalCode;
    HeadRowExact(s, i, code, full, outcome, origin, lossless);
    HeadRowGoverned(s, i, code, full, outcome);
    hide TruncatedTo0, Governed;
  }

  lemma HeadRowKeeps(s: State, i: nat, code: nat, full: nat, outcome: TruncateOutcome,
                     origin: Origin, lossless: bool)
    requires Inv(s, origin, lossless) && i < |s.entries| && s.entries[i].reply.Some?
    requires LegalHead(s.entries[i].reply.value, code)
    ensures Inv(HeadRow(s, i, code, full, outcome), origin, lossless)
  {
    var s' := HeadRow(s, i, code, full, outcome);
    hide Inv, HeadRow, LegalHead, ByteExact, RetriesCounted;
    RowIsOk(s, i, origin, lossless);
    HeadRowShape(s, i, code, full, outcome);
    HeadRowOk(s, i, code, full, outcome, origin, lossless);
    TransferKeeps(s, i, s'.entries[i], s'.disk, origin, lossless);
  }

  /** The rest of the handler: after a final success the path is reconciled. */
  lemma HeadThenPath(s: State, id: Id, code: nat, full: nat, sn: Sniff, outcome: TruncateOutcome, i: nat)
    requires IndexOf(s.entries, id) == i && i < |s.entries| && s.entries[i].reply.Some?
    requires LegalHead(s.entries[i].reply.value, code) && Governed(s.entries[i], s.disk)
    ensures var s1 := HeadRow(s, i, code, full, outcome);
            MetaData(s, id, code, full, sn, outcome)
              == if Flowing(s1, i) && (code == 200 || code == 206) then Reconcile(s1, i, sn) else s1
  {
    hide TruncatedTo0, Reconcile;
  }

  lemma FreshAfterHead(s: State, i: nat, code: nat, full: nat, outcome: TruncateOutcome, p: Path,
                       origin: Origin, lossless: bool)
    requires i < |s.entries| && s.entries[i].reply.Some? && RowOk(s.entries[i], s.disk, origin, lossless)
    requires LegalHead(s.entries[i].reply.value, code) && FreshPath(s, p)
    ensures FreshPath(HeadRow(s, i, code, full, outcome), p)
  {
    HeadRowShape(s, i, code, full, outcome);
    var s1 := HeadRow(s, i, code, full, outcome);
    hide HeadRow, RetriesCounted, ByteExact;
    assert s.entries[i].destPath != p;
    assert s1.entries == s.entries[i := s1.entries[i]];
  }

  lemma MetaDataKeeps(s: State, id: Id, code: nat, full: nat, sn: Sniff, outcome: TruncateOutcome,
                      origin: Origin, lossless: bool)
    requires Inv(s, origin, lossless) && Legal(s, Head(id, code, full, sn, outcome), origin, lossless)
    ensures Inv(MetaData(s, id, code, full, sn, outcome), origin, lossless)
  {
    var i := IndexOf(s.entries, id);
    if i >= 0 && s.entries[i].reply.Some? {
      var s1 := HeadRow(s, i, code, full, outcome);
      hide Inv, HeadRow, MetaData, LegalHead, FreshPath, ByteExact, RetriesCounted, Governed;
      RowIsOk(s, i, origin, lossless);
      HeadRowKeeps(s, i, code, full, outcome, origin, lossless);
      HeadThenPath(s, id, code, full, sn, outcome, i);
      if Flowing(s1, i) {
        FreshAfterHead(s, i, code, full, outcome, sn.newPath, origin, lossless);
        ReconcileKeeps(s1, i, sn, origin, lossless);
      }
    }
  }

  lemma PrefixGrows(whole: Bytes, a: Bytes, b: Bytes, k: nat)
    requires a <= whole && |a| + |b| <= |whole| && b == whole[|a|..|a| + |b|] && k <= |b|
    ensures a + b[..k] <= whole
  {
    assert whole[..|a| + k] == a + b[..k];
  }

  lemma ChunkRow(s: State, i: nat, data: Bytes, taken: nat, origin: Origin, lossless: bool)
    requires i < |s.entries| && IndexOf(s.entries, s.entries[i].id) == i && taken <= |data|
    requires RowOk(s.entries[i], s.disk, origin, lossless) && s.entries[i].reply.Some?
    requires LegalBody(s.entries[i].reply.value, origin(s.entries[i].url), data)
    ensures var s' := Chunk(s, s.entries[i].id, data, taken);
            && s' == Put(s, i, s'.entries[i]).(disk := s'.disk)
            && SameOutside(s.disk, s'.disk, {s.entries[i].destPath})
            && s'.entries[i].status == s.entries[i].status && s'.entries[i].id == s.entries[i].id
            && s'.entries[i].destPath == s.entries[i].destPath
            && RowOk(s'.entries[i], s'.disk, origin, lossless)
  {
    var e := s.entries[i];
    if e.file.Some? {
      PrefixGrows(origin(e.url), s.disk.parts[e.destPath], data, taken);
    }
    hide Written;
  }

  lemma ChunkKeeps(s: State, id: Id, data: Bytes, taken: nat, origin: Origin, lossless: bool)
    requires Inv(s, origin, lossless) && Legal(s, Body(id, data, taken), origin, lossless)
    ensures Inv(Chunk(s, id, data, taken), origin, lossless)
  {
    var i := IndexOf(s.entries, id);
    if i >= 0 && s.entries[i].reply.Some? {
      var s' := Chunk(s, id, data, taken);
      hide Inv, Chunk, LegalBody, ByteExact, RetriesCounted;
      RowIsOk(s, i, origin, lossless);
      ChunkRow(s, i, data, taken, origin, lossless);
      TransferKeeps(s, i, s'.entries[i], s'.disk, origin, lossless);
    }
  }

  lemma ProgressKeeps(s: State, id: Id, total: int, origin: Origin, lossless: bool)
    requires Inv(s, origin, lossless)
    ensures Inv(Progress(s, id, total), origin, lossless)
  {
    var i := IndexOf(s.entries, id);
    var s' := Progress(s, id, total);
    if s' != s {
      assert RowOk(s.entries[i], s.disk, origin, lossless);
      TransferKeeps(s, i, s'.entries[i], s'.disk, origin, lossless);
      assert s' == Put(s, i, s'.entries[i]).(disk := s'.disk);
    }
  }

  lemma TimerKeeps(s: State, t: nat, env: Kicks, origin: Origin, lossless: bool)
    requires Inv(s, origin, lossless) && t < |s.timers|
    ensures Inv(TimerFired(s, t, env), origin, lossless)
  {
    var s1 := s.(timers := RemoveTimer(s.timers, t));
    assert Core(s1, origin, lossless);
    var i := IndexOf(s.entries, s.timers[t].id);
    if i >= 0 {
      assert RowOk(s.entries[i], s.disk, origin, lossless);
    }
    if IsQueuedAt(s, i) {
      ProcessSettles(s1, env, origin, lossless);
    } else if t', q :| WakesAt(s, t', q) {
      assert t' != t;
      assert WakesAt(s1, if t' < t then t' else t' - 1, q);
    }
  }

  // ---- The end of a reply -------------------------------------------------------------------

  /** Row i of a reply that is about to be settled: the file may no longer be in
      step with its counters, but it still holds nothing but the resource, and all
      of it after a clean end with a whole tail. */
  ghost predicate Ending(s: State, i: nat, f: FinishEnv, origin: Origin) {
    && i < |s.entries|
    && var e := s.entries[i];
    && Governed(e, s.disk) && RetriesCounted(e) && e.reply.Some?
    && LegalCode(e.reply.value, f)
    && (e.destPath in s.disk.parts ==> s.disk.parts[e.destPath] <= origin(e.url))
    && (e.file.Some? && f.err == NoError && f.tailTaken == |f.tail| ==>
          s.disk.parts[e.destPath] == origin(e.url) && e.received == |origin(e.url)|)
  }

  predicate LegalCode(r: Reply, f: FinishEnv) {
    && (r.aborted ==> f.err == OperationCanceled)
    && (f.err == NoError ==> r.code == 200 || r.code == 206)
  }

  lemma DrainKeeps(s: State, i: nat, f: FinishEnv, origin: Origin, lossless: bool)
    requires Core(s, origin, lossless) && i < |s.entries| && s.entries[i].reply.Some?
    requires f.tailTaken <= |f.tail| && LegalEnd(s.entries[i].reply.value, origin(s.entries[i].url), f, lossless)
    ensures var s1 := Drain(s, i, f);
            && Ending(s1, i, f, origin)
            && s1.timers == s.timers && s1.entries == s.entries[i := s1.entries[i]]
            && SameOutside(s.disk, s1.disk, {s.entries[i].destPath})
            && s1.entries[i] == s.entries[i].(file := s1.entries[i].file, received := s1.entries[i].received)
  {
    var e := s.entries[i];
    assert RowOk(e, s.disk, origin, lossless);
    if f.err == NoError && e.file.Some? {
      var part := s.disk.parts[e.destPath];
      assert part == origin(e.url)[..|part|];
      PrefixGrows(origin(e.url), part, f.tail, f.tailTaken);
      assert f.tail[..|f.tail|] == f.tail;
      assert part + f.tail == origin(e.url);
    }
  }

  lemma SettledRow(s: State, i: nat, f: FinishEnv)
    requires i < |s.entries|
    ensures var (s', process) := Settle(s, i, f);
            && s'.entries == s.entries[i := s'.entries[i]]
            && s'.entries[i].id == s.entries[i].id && s'.entries[i].destPath == s.entries[i].destPath
            && (!process ==> s'.entries[i].status == Queued
                             && s.entries[i].retriesLeft == s'.entries[i].retriesLeft + 1
                             && s'.timers == s.timers + [Timer(s.entries[i].id,
                                                               Backoff(MAX_RETRIES - s.entries[i].retriesLeft))])
  {
    hide Backoff, RemovePart, Finalized;
  }

  lemma SettledDisk(s: State, i: nat, f: FinishEnv, origin: Origin)
    requires Ending(s, i, f, origin)
    ensures var (s', process) := Settle(s, i, f);
            && SameOutside(s.disk, s'.disk, {s.entries[i].destPath})
            && (process ==> IsOver(s'.entries[i].status) && s'.timers == s.timers)
  {
    hide Backoff, RetriesCounted;
  }

  lemma SettledCounted(s: State, i: nat, f: FinishEnv)
    requires i < |s.entries| && RetriesCounted(s.entries[i]) && s.entries[i].status == Downloading
    ensures RetriesCounted(Settle(s, i, f).0.entries[i])
  {
    hide Backoff, RemovePart, Finalized, IsTransient;
  }

  /** A row without file and reply, in a status that needs neither. */
  predicate Idle(e: Entry) {
    && e.file.None? && e.reply.None? && !e.userPaused && !e.userCanceled
    && e.status != Downloading && e.status != Paused && (e.errorReason != ErrorNone <==> e.status == Failed)
  }

  /** The row once the reply has been taken off it. */
  predicate Released(e: Entry) { e.reply.None? && !e.userPaused && !e.userCanceled && e.errorReason == ErrorNone }

  lemma EndedIdle(s: State, i: nat)
    requires i < |s.entries| && Released(s.entries[i])
    ensures Idle(EndRow(s, i, Canceled, ErrorNone).entries[i])
    ensures forall reason :: reason != ErrorNone ==> Idle(EndRow(s, i, Failed, reason).entries[i])
  {
    hide RemovePart;
  }

  lemma CleanEndIdle(s: State, i: nat, renameOk: bool)
    requires i < |s.entries| && Released(s.entries[i])
    ensures Idle(CleanEnd(s, i, renameOk).entries[i])
  {
    hide RemovePart, Finalized;
  }

  lemma SettledIdle(s: State, i: nat, f: FinishEnv)
    requires i < |s.entries| && s.entries[i].status == Downloading && !s.entries[i].userPaused
    requires s.entries[i].errorReason == ErrorNone
    ensures Idle(Settle(s, i, f).0.entries[i])
  {
    hide Backoff, EndRow, CleanEnd, IsTransient;
    var s1 := Put(s, i, s.entries[i].(reply := None, userCanceled := false));
    EndedIdle(s1, i);
    CleanEndIdle(s1, i, f.renameOk);
  }

  lemma SettledGoverned(s: State, i: nat, f: FinishEnv, origin: Origin)
    requires Ending(s, i, f, origin)
    ensures var (s', process) := Settle(s, i, f); Governed(s'.entries[i], s'.disk)
  {
    hide Settle, RetriesCounted, LegalCode, IsFinalCode;
    SettledIdle(s, i, f);
  }

  lemma SettledExact(s: State, i: nat, f: FinishEnv, origin: Origin, lossless: bool)
    requires Ending(s, i, f, origin) && (lossless ==> f.tailTaken == |f.tail|)
    ensures var (s', process) := Settle(s, i, f); ByteExact(s'.entries[i], s'.disk, origin, lossless)
  {
    hide Backoff, RetriesCounted, LegalCode, IsTransient, InStep, RemovePart;
  }

  lemma SettledOk(s: State, i: nat, f: FinishEnv, origin: Origin, lossless: bool)
    requires Ending(s, i, f, origin) && (lossless ==> f.tailTaken == |f.tail|)
    ensures var (s', process) := Settle(s, i, f); RowOk(s'.entries[i], s'.disk, origin, lossless)
  {
    assert s.entries[i].status == Downloading && RetriesCounted(s.entries[i]);
    SettledGoverned(s, i, f, origin);
    SettledCounted(s, i, f);
    SettledExact(s, i, f, origin, lossless);
    hide Settle, Ending, Governed, RetriesCounted, ByteExact;
  }

  lemma SettleRow(s: State, i: nat, f: FinishEnv, origin: Origin, lossless: bool)
    requires Ending(s, i, f, origin) && (lossless ==> f.tailTaken == |f.tail|)
    ensures var (s', process) := Settle(s, i, f);
            && RowOk(s'.entries[i], s'.disk, origin, lossless)
            && SameOutside(s.disk, s'.disk, {s.entries[i].destPath})
            && s'.entries == s.entries[i := s'.entries[i]]
            && s'.entries[i].id == s.entries[i].id && s'.entries[i].destPath == s.entries[i].destPath
            && (process ==> IsOver(s'.entries[i].status) && s'.timers == s.timers)
            && (!process ==> s'.entries[i].status == Queued
                             && s.entries[i].retriesLeft == s'.entries[i].retriesLeft + 1
                             && s'.timers == s.timers + [Timer(s.entries[i].id,
                                                               Backoff(MAX_RETRIES - s.entries[i].retriesLeft))])
  {
    assert i < |s.entries|;
    hide Settle, Ending, RowOk, SameOutside, IsOver, Backoff;
    SettledRow(s, i, f);
    SettledDisk(s, i, f, origin);
    SettledOk(s, i, f, origin, lossless);
  }

  lemma ConcludeKeeps(s: State, i: nat, f: FinishEnv, origin: Origin, lossless: bool)
    requires Core(s, origin, lossless) && i < |s.entries| && s.entries[i].reply.Some?
    requires f.tailTaken <= |f.tail| && LegalEnd(s.entries[i].reply.value, origin(s.entries[i].url), f, lossless)
    ensures var (s', process) := Settle(Drain(s, i, f), i, f);
            Core(s', origin, lossless) && (!process ==> NotStranded(s'))
  {
    hide Settle, Drain, RowOk, ActiveCount;
    var s1 := Drain(s, i, f);
    var (s', process) := Settle(s1, i, f);
    DrainKeeps(s, i, f, origin, lossless);
    SettleRow(s1, i, f, origin, lossless);
    assert Owns(s.entries[i]) by {
      assert RowOk(s.entries[i], s.disk, origin, lossless);
    }
    CoreChange(s, i, s'.entries[i], s'.disk, origin, lossless);
    var s2 := Put(s, i, s'.entries[i]).(disk := s'.disk);
    assert s'.entries == s2.entries && s'.disk == s2.disk;
    if !process {
      assert Backoff(1) == 3000 && Backoff(0) == 1500;
      assert WakesAt(s', |s.timers|, i);
    }
  }

  lemma FinishedKeeps(s: State, id: Id, f: FinishEnv, env: Kicks, origin: Origin, lossless: bool)
    requires Inv(s, origin, lossless) && Legal(s, Ends(id, f, env), origin, lossless)
    ensures Inv(Finished(s, id, f, env), origin, lossless)
  {
    var i := IndexOf(s.entries, id);
    if i >= 0 {
      ConcludeKeeps(s, i, f, origin, lossless);
      var (s1, process) := Settle(Drain(s, i, f), i, f);
      if process {
        ProcessSettles(s1, env, origin, lossless);
      }
    }
  }

  // ---- Every run ------------------------------------------------------------------------------

  /** One event keeps the invariant. */
  lemma EventKeeps(s: State, ev: Event, origin: Origin, lossless: bool)
    requires Inv(s, origin, lossless) && Legal(s, ev, origin, lossless)
    ensures Inv(Apply(s, ev), origin, lossless)
  {
    match ev
    case UserStart(id, url, mime, size, dest, env) => StartKeeps(s, id, url, mime, size, dest, env, origin, lossless);
    case UserRetry(id, dest, env) =>
      var i := IndexOf(s.entries, id);
      if i >= 0 {
        StartKeeps(s, id, s.entries[i].url, s.entries[i].mime, s.entries[i].total, dest, env, origin, lossless);
      }
    case UserCancel(id, env) => CancelKeeps(s, id, env, origin, lossless);
    case UserPause(id, env) => PauseKeeps(s, id, env, origin, lossless);
    case UserResume(id, env) => ResumeKeeps(s, id, env, origin, lossless);
    case UserPauseAll => PauseFromKeeps(s, 0, origin, lossless);
    case UserResumeAll(env) =>
      if AnyPaused(s.entries) {
        ResumeFromKeeps(s, 0, origin, lossless);
        ProcessSettles(ResumeFrom(s, 0), env, origin, lossless);
      }
    case UserRemove(id, env) => RemoveKeeps(s, id, env, origin, lossless);
    case UserClear => ClearKeeps(s, |s.entries|, origin, lossless);
    case SessionGone => LogoutKeeps(s, 0, origin, lossless);
    case TimerFires(t, env) => TimerKeeps(s, t, env, origin, lossless);
    case Head(id, code, full, sniff, outcome) => MetaDataKeeps(s, id, code, full, sniff, outcome, origin, lossless);
    case Body(id, data, taken) => ChunkKeeps(s, id, data, taken, origin, lossless);
    case Length(id, total) => ProgressKeeps(s, id, total, origin, lossless);
    case Ends(id, f, env) => FinishedKeeps(s, id, f, env, origin, lossless);
  }

  ghost predicate LegalRun(s: State, evs: seq<Event>, origin: Origin, lossless: bool)
    decreases |evs|
  {
    evs == [] || (Legal(s, evs[0], origin, lossless) && LegalRun(Apply(s, evs[0]), evs[1..], origin, lossless))
  }

  ghost function Run(s: State, evs: seq<Event>, origin: Origin, lossless: bool): State
    requires LegalRun(s, evs, origin, lossless)
    decreases |evs|
  {
    if evs == [] then s else Run(Apply(s, evs[0]), evs[1..], origin, lossless)
  }

  lemma {:induction false} RunKeeps(s: State, evs: seq<Event>, origin: Origin, lossless: bool)
    requires Inv(s, origin, lossless) && LegalRun(s, evs, origin, lossless)
    ensures Inv(Run(s, evs, origin, lossless), origin, lossless)
    decreases |evs|
  {
    if evs != [] {
      EventKeeps(s, evs[0], origin, lossless);
      RunKeeps(Apply(s, evs[0]), evs[1..], origin, lossless);
    }
  }
}
