/** The promises of the download engine, drawn from the invariant. */
module DownloadsTheorems {
  import opened Wrappers
  import opened Disks
  import opened Downloads
  import opened DownloadsInvariant
  import opened DownloadsRestarts

  // ---- Safety over every run ---------------------------------------------------

  /** In every state a run reaches from the list that the program starts with: at most
      three transfers, distinct ids, no stranded queue, backoff delays of 1500 or 3000
      ms, a live reply exactly for Downloading rows, an open file only for them, no user
      flag on Queued and Downloading rows, a reason exactly for Failed ones, and no more
      attempts than retries and resumes allow. */
  lemma EveryRunIsGoverned(done: seq<Saved>, paused: seq<Saved>, disk: Disk, evs: seq<Event>, origin: Origin)
    requires Sound(done, paused, disk, origin, false) && LegalRun(Restored(done, paused, disk), evs, origin, false)
    ensures var s := Run(Restored(done, paused, disk), evs, origin, false);
            && ActiveCount(s.entries) <= 3
            && DistinctIds(s.entries)
            && NotStranded(s)
            && (forall t :: 0 <= t < |s.timers| ==> s.timers[t].delayMs == 1500 || s.timers[t].delayMs == 3000)
            && forall i :: 0 <= i < |s.entries| ==>
                 var e := s.entries[i];
                 && (e.reply.Some? <==> e.status == Downloading)
                 && (e.file.Some? ==> e.status == Downloading)
                 && (IsRunning(e.status) ==> !e.userPaused && !e.userCanceled)
                 && (e.errorReason != ErrorNone <==> e.status == Failed)
                 && e.kicks <= 1 + MAX_RETRIES + e.resumes
  {
    RestoredKeepsIff(done, paused, disk, origin, false);
    RunKeeps(Restored(done, paused, disk), evs, origin, false);
    var s := Run(Restored(done, paused, disk), evs, origin, false);
    hide Restored;
    forall i | 0 <= i < |s.entries|
      ensures RowOk(s.entries[i], s.disk, origin, false)
    {
    }
  }

  /** Byte-exact resume, also of what an earlier session has paused: whatever chunks,
      short writes, drops, retries, pauses and resumes happen, a live row's working file
      is a prefix of its resource, the progress shown is what is on disk, and if no tail
      write fails, a completed row has the whole resource at its destination and no
      working file. */
  lemma EveryRunIsByteExact(done: seq<Saved>, paused: seq<Saved>, disk: Disk, evs: seq<Event>,
                            origin: Origin, lossless: bool, i: nat)
    requires Sound(done, paused, disk, origin, lossless)
    requires LegalRun(Restored(done, paused, disk), evs, origin, lossless)
    requires i < |Run(Restored(done, paused, disk), evs, origin, lossless).entries|
    ensures var s := Run(Restored(done, paused, disk), evs, origin, lossless);
            var e := s.entries[i];
            && (IsLive(e.status) && e.destPath in s.disk.parts ==> s.disk.parts[e.destPath] <= origin(e.url))
            && (e.status == Completed ==>
                  && e.destPath !in s.disk.parts && e.destPath in s.disk.files
                  && s.disk.files[e.destPath] <= origin(e.url))
            && (e.status == Completed && lossless ==>
                  s.disk.files[e.destPath] == origin(e.url) && (!e.persisted ==> e.received == |origin(e.url)|))
            && (e.file.Some? ==> e.reply.Some?)
            && (e.file.Some? && !e.reply.value.aborted ==>
                  e.destPath in s.disk.parts && e.received == |s.disk.parts[e.destPath]|)
  {
    RestoredKeepsIff(done, paused, disk, origin, lossless);
    RunKeeps(Restored(done, paused, disk), evs, origin, lossless);
    var s := Run(Restored(done, paused, disk), evs, origin, lossless);
    hide Restored;
    assert RowOk(s.entries[i], s.disk, origin, lossless);
  }

  /** When the timer that guards a queued row fires, either every slot is filled or
      nothing is left queued. */
  lemma WakeUpSettles(s: State, t: nat, i: nat, env: Kicks, origin: Origin, lossless: bool)
    requires Inv(s, origin, lossless) && WakesAt(s, t, i)
    ensures var s' := TimerFired(s, t, env);
            NoQueued(s') || ActiveCount(s'.entries) == MAX_CONCURRENT
  {
    var q := IndexOf(s.entries, s.timers[t].id);
    assert q == i;
    assert RowOk(s.entries[i], s.disk, origin, lossless);
    var s1 := s.(timers := RemoveTimer(s.timers, t));
    assert Core(s1, origin, lossless);
    ProcessSettles(s1, env, origin, lossless);
  }

  /** First come, first served: a queued row is not kicked off while an earlier
      one stays queued. */
  lemma EarlierFirst(s: State, env: Kicks, i: nat, j: nat)
    requires i < j < |s.entries| && IsQueuedAt(s, i) && IsQueuedAt(s, j)
    ensures ProcessQueue(s, env).entries[j].status != Queued ==> ProcessQueue(s, env).entries[i].status != Queued
  {
    var cut := ProcessIsFifo(s, 0, env);
  }

  // ---- What processing the queue leaves alone --------------------------------------

  lemma {:induction false} ProcessLeavesFiles(s: State, i: nat, env: Kicks)
    requires i <= |s.entries|
    ensures ProcessFrom(s, i, env).disk.files == s.disk.files
    decreases |s.entries| - i
  {
    if i < |s.entries| && ActiveCount(s.entries) < MAX_CONCURRENT {
      ProcessLeavesFiles(if s.entries[i].status == Queued then KickOff(s, i, env(s.entries[i].id)) else s, i + 1, env);
    }
  }

  /** Two disks agree on the working file of `p`. */
  predicate SamePart(d: Disk, d': Disk, p: Path) {
    (p in d.parts <==> p in d'.parts) && (p in d.parts ==> d.parts[p] == d'.parts[p])
  }

  lemma {:induction false} ProcessLeavesPart(s: State, i: nat, env: Kicks, p: Path)
    requires i <= |s.entries|
    requires forall j :: 0 <= j < |s.entries| && s.entries[j].status == Queued ==> s.entries[j].destPath != p
    ensures SamePart(s.disk, ProcessFrom(s, i, env).disk, p)
    decreases |s.entries| - i
  {
    hide ActiveCount, SetStatus, Max, IsJunk;
    if i < |s.entries| && ActiveCount(s.entries) < MAX_CONCURRENT {
      if s.entries[i].status == Queued {
        KickOffTouches(s, i, env(s.entries[i].id));
        ProcessLeavesPart(KickOff(s, i, env(s.entries[i].id)), i + 1, env, p);
      } else {
        ProcessLeavesPart(s, i + 1, env, p);
      }
    }
  }

  /** Row i is over and its path is unused: still so after the queue is processed. */
  lemma OverStaysOver(s: State, i: nat, env: Kicks)
    requires i < |s.entries| && IsOver(s.entries[i].status) && s.entries[i].destPath !in s.disk.parts
    requires forall j :: 0 <= j < |s.entries| && s.entries[j].status == Queued ==>
               s.entries[j].destPath != s.entries[i].destPath
    ensures ProcessQueue(s, env).entries[i] == s.entries[i]
    ensures s.entries[i].destPath !in ProcessQueue(s, env).disk.parts
  {
    var cut := ProcessIsFifo(s, 0, env);
    ProcessLeavesPart(s, 0, env, s.entries[i].destPath);
  }

  lemma OnlyMine(s: State, i: nat, origin: Origin, lossless: bool)
    requires Core(s, origin, lossless) && i < |s.entries| && Owns(s.entries[i])
    ensures forall j :: 0 <= j < |s.entries| && j != i && Owns(s.entries[j]) ==>
              s.entries[j].destPath != s.entries[i].destPath
  {
  }

  // ---- Single transitions -----------------------------------------------------------

  /** Cancelling a queued, running or paused download leaves no working file. */
  lemma CancelLeavesNoPart(s: State, id: Id, env: Kicks, origin: Origin, lossless: bool)
    requires Inv(s, origin, lossless)
    requires var i := IndexOf(s.entries, id); i >= 0 && IsLive(s.entries[i].status)
    ensures var i := IndexOf(s.entries, id);
            var s' := Cancel(s, id, env);
            s'.entries[i].status == Canceled && s.entries[i].destPath !in s'.disk.parts
  {
    var i := IndexOf(s.entries, id);
    OnlyMine(s, i, origin, lossless);
    CancelRowKeeps(s, i, origin, lossless);
    var s1 := CancelRow(s, i);
    assert forall j :: 0 <= j < |s.entries| && j != i ==> s1.entries[j] == s.entries[j];
    OverStaysOver(s1, i, env);
  }

  lemma TeardownRemoves(s: State, i: nat, origin: Origin, lossless: bool)
    requires i < |s.entries| && RowOk(s.entries[i], s.disk, origin, lossless)
    ensures Teardown(s, i, false).disk == RemovePart(s.disk, s.entries[i].destPath)
    ensures CancelRow(s, i).disk == RemovePart(s.disk, s.entries[i].destPath)
    ensures |Teardown(s, i, false).entries| == |s.entries|
    ensures forall j :: 0 <= j < |s.entries| && j != i ==> Teardown(s, i, false).entries[j] == s.entries[j]
  {
    hide RetriesCounted, ByteExact;
  }

  lemma ProcessAddsNoId(s: State, env: Kicks, id: Id)
    requires forall j :: 0 <= j < |s.entries| ==> s.entries[j].id != id
    ensures IndexOf(ProcessQueue(s, env).entries, id) == -1
  {
    var cut := ProcessIsFifo(s, 0, env);
  }

  lemma ErasedRows(s: State, s1: State, i: nat)
    requires i < |s.entries| == |s1.entries|
    requires forall j :: 0 <= j < |s.entries| && j != i ==> s1.entries[j] == s.entries[j]
    ensures |Erase(s1, i).entries| == |s.entries| - 1 && Erase(s1, i).disk == s1.disk
    ensures forall j :: 0 <= j < |s.entries| - 1 ==> Erase(s1, i).entries[j] == s.entries[if j < i then j else j + 1]
  {
  }

  /** Removing a download that is not over leaves neither the row nor its working file. */
  lemma RemoveLeavesNothing(s: State, id: Id, env: Kicks, origin: Origin, lossless: bool)
    requires Inv(s, origin, lossless)
    requires var i := IndexOf(s.entries, id); i >= 0 && IsLive(s.entries[i].status)
    ensures var i := IndexOf(s.entries, id);
            var s' := Remove(s, id, env);
            s.entries[i].destPath !in s'.disk.parts && IndexOf(s'.entries, id) == -1
  {
    var i := IndexOf(s.entries, id);
    OnlyMine(s, i, origin, lossless);
    RowIsOk(s, i, origin, lossless);
    assert DistinctIds(s.entries);
    hide Inv, RowOk;
    var s1 := Teardown(s, i, false);
    TeardownRemoves(s, i, origin, lossless);
    ErasedRows(s, s1, i);
    hide Teardown, Erase, ProcessQueue, IndexFrom;
    var s2 := Erase(s1, i);
    PartStaysAway(s2, env, s.entries[i].destPath);
    ProcessAddsNoId(s2, env, id);
  }

  lemma PartStaysAway(s: State, env: Kicks, p: Path)
    requires forall j :: 0 <= j < |s.entries| && s.entries[j].status == Queued ==> s.entries[j].destPath != p
    requires p !in s.disk.parts
    ensures p !in ProcessQueue(s, env).disk.parts
  {
    ProcessLeavesPart(s, 0, env, p);
  }

  /** From row i on, running rows are cancelled and their working files are gone; paused
      rows are as they were. */
  predicate Dropped(s: State, s': State, i: nat) {
    && |s'.entries| == |s.entries| && s'.disk.parts.Keys <= s.disk.parts.Keys
    && (forall j :: i <= j < |s.entries| && IsRunning(s.entries[j].status) ==>
          s'.entries[j].status == Canceled && s.entries[j].destPath !in s'.disk.parts)
    && (forall j :: 0 <= j < |s.entries| && s.entries[j].status == Paused ==>
          s'.entries[j] == s.entries[j] && SamePart(s.disk, s'.disk, s.entries[j].destPath))
    && (forall j :: 0 <= j < i && j < |s.entries| ==> s'.entries[j] == s.entries[j])
  }

  lemma DroppedOne(s: State, s1: State, s': State, i: nat)
    requires i < |s.entries| && IsRunning(s.entries[i].status) && Dropped(s1, s', i + 1)
    requires |s1.entries| == |s.entries| && s1.entries[i].status == Canceled
    requires forall j :: 0 <= j < |s.entries| && j != i ==> s1.entries[j] == s.entries[j]
    requires s1.disk == RemovePart(s.disk, s.entries[i].destPath)
    requires forall j :: 0 <= j < |s.entries| && j != i && Owns(s.entries[j]) ==>
               s.entries[j].destPath != s.entries[i].destPath
    ensures Dropped(s, s', i)
  {
  }

  lemma {:induction false} LogoutDrops(s: State, i: nat, origin: Origin, lossless: bool)
    requires Core(s, origin, lossless) && i <= |s.entries|
    ensures Dropped(s, LogoutFrom(s, i), i)
    decreases |s.entries| - i
  {
    hide Teardown, Sum;
    if i < |s.entries| {
      if IsRunning(s.entries[i].status) {
        OnlyMine(s, i, origin, lossless);
        assert RowOk(s.entries[i], s.disk, origin, lossless);
        LogoutRow(s, i);
        hide Core, CancelRow, Put, RowOk, Dropped, SetStatus;
        CancelRowTouches(s, i);
        TeardownRemoves(s, i, origin, lossless);
        CancelRowKeeps(s, i, origin, lossless);
        LogoutDrops(CancelRow(s, i), i + 1, origin, lossless);
        DroppedOne(s, CancelRow(s, i), LogoutFrom(s, i), i);
      } else {
        hide Core;
        LogoutDrops(s, i + 1, origin, lossless);
      }
    }
  }

  /** When the session goes away, every queued or running row is cancelled and leaves no
      working file; the paused rows keep theirs. */
  lemma LogoutLeavesNoParts(s: State, i: nat, origin: Origin, lossless: bool)
    requires Inv(s, origin, lossless) && i < |s.entries|
    ensures var e, s' := s.entries[i], Logout(s);
            && (IsRunning(e.status) ==> s'.entries[i].status == Canceled && e.destPath !in s'.disk.parts)
            && (e.status == Paused ==> s'.entries[i] == e && SamePart(s.disk, s'.disk, e.destPath))
  {
    hide Core, LogoutFrom;
    LogoutDrops(s, 0, origin, lossless);
  }

  /** Pausing keeps every byte, even though the freed slot goes to another row. */
  lemma PauseKeepsPart(s: State, id: Id, env: Kicks, origin: Origin, lossless: bool)
    requires Inv(s, origin, lossless)
    requires var i := IndexOf(s.entries, id); i >= 0 && IsRunning(s.entries[i].status)
    ensures var i := IndexOf(s.entries, id);
            var s' := Pause(s, id, env);
            s'.entries[i].status == Paused && SamePart(s.disk, s'.disk, s.entries[i].destPath)
  {
    hide Core, IndexFrom;
    var i := IndexOf(s.entries, id);
    OnlyMine(s, i, origin, lossless);
    PauseRowKeeps(s, i, origin, lossless);
    var s1 := PauseRow(s, i);
    assert forall j :: 0 <= j < |s.entries| && j != i ==> s1.entries[j] == s.entries[j];
    ProcessLeavesPart(s1, 0, env, s.entries[i].destPath);
    var cut := ProcessIsFifo(s1, 0, env);
  }

  /** The next attempt continues where the working file ends if and only if the
      file has at least 64 KiB and is shorter than the known total; otherwise it
      starts from an empty file. */
  lemma AttemptContinuesIff(s: State, i: nat, k: KickEnv)
    requires IsQueuedAt(s, i) && s.entries[i].destPath in s.disk.parts && s.disk.parts[s.entries[i].destPath] != []
    requires DiskBudgetOk(s.entries[i], k.available) && k.openOk && k.replyOk
    ensures var e := s.entries[i];
            var part := s.disk.parts[e.destPath];
            var s' := KickOff(s, i, k);
            && s'.entries[i].status == Downloading
            && s'.entries[i].reply == Some(Reply(|s'.disk.parts[e.destPath]|, 0, 0, false))
            && (s'.disk.parts[e.destPath] == part <==> 65536 <= |part| && (e.total > 0 ==> |part| < e.total))
            && (s'.disk.parts[e.destPath] != part ==> s'.disk.parts[e.destPath] == [])
  {
  }

  /** A clean end whose rename works always completes the row, but the file it
      leaves is the resource exactly when the disk took the whole tail: the result
      of that last write is not looked at. */
  lemma CompletesWholeIff(s: State, id: Id, f: FinishEnv, env: Kicks, origin: Origin)
    requires Inv(s, origin, false) && Legal(s, Ends(id, f, env), origin, false)
    requires f.err == NoError && f.renameOk
    requires var i := IndexOf(s.entries, id); i >= 0 && s.entries[i].file.Some?
    ensures var i := IndexOf(s.entries, id);
            var s' := Finished(s, id, f, env);
            && s'.entries[i].status == Completed
            && s.entries[i].destPath in s'.disk.files
            && (s'.disk.files[s.entries[i].destPath] == origin(s.entries[i].url) <==> f.tailTaken == |f.tail|)
  {
    hide Settle, ActiveCount;
    var i := IndexOf(s.entries, id);
    RowIsOk(s, i, origin, false);
    hide Inv;
    DrainKeeps(s, i, f, origin, false);
    DrainedWholeIff(s, i, f, origin);
    var s1 := Drain(s, i, f);
    hide Drain, RowOk, LegalEnd;
    CleanEndMoves(s1, i, f, origin);
    var s2 := Settle(s1, i, f).0;
    hide Ending;
    ProcessLeavesFiles(s2, 0, env);
    var cut := ProcessIsFifo(s2, 0, env);
  }

  /** With the tail the working file is the whole resource, unless some of it was
      not written. */
  lemma DrainedWholeIff(s: State, i: nat, f: FinishEnv, origin: Origin)
    requires i < |s.entries| && RowOk(s.entries[i], s.disk, origin, false) && s.entries[i].file.Some?
    requires f.tailTaken <= |f.tail| && f.err == NoError
    requires LegalEnd(s.entries[i].reply.value, origin(s.entries[i].url), f, false)
    ensures var e := s.entries[i];
            && e.destPath in Drain(s, i, f).disk.parts
            && Drain(s, i, f).disk.files == s.disk.files
            && (Drain(s, i, f).disk.parts[e.destPath] == origin(e.url) <==> f.tailTaken == |f.tail|)
  {
    var e := s.entries[i];
    var part := s.disk.parts[e.destPath];
    assert part == origin(e.url)[..|part|];
    assert part + f.tail == origin(e.url);
    if f.tailTaken < |f.tail| {
      assert |Drain(s, i, f).disk.parts[e.destPath]| < |origin(e.url)|;
    } else {
      assert f.tail[..f.tailTaken] == f.tail;
    }
  }

  /** A clean end moves the working file into place. */
  lemma CleanEndMoves(s: State, i: nat, f: FinishEnv, origin: Origin)
    requires Ending(s, i, f, origin) && s.entries[i].file.Some? && f.err == NoError && f.renameOk
    ensures var (s', process) := Settle(s, i, f);
            && process && s'.entries[i].status == Completed
            && s.entries[i].destPath in s'.disk.files
            && s'.disk.files[s.entries[i].destPath] == s.disk.parts[s.entries[i].destPath]
  {
  }

  /** The reply of row i has been aborted for an HTTP error. */
  predicate Rejected(e: Entry, code: nat) {
    && e.status == Downloading && e.reply.Some? && e.reply.value.aborted && e.reply.value.code == code
    && (e.httpStatus == 0 || e.httpStatus == code)
  }

  lemma ErrorHeadRejects(s: State, id: Id, code: nat, full: nat, sn: Sniff, outcome: TruncateOutcome,
                         origin: Origin, lossless: bool)
    requires Inv(s, origin, lossless) && Legal(s, Head(id, code, full, sn, outcome), origin, lossless)
    requires var i := IndexOf(s.entries, id); i >= 0 && s.entries[i].reply.Some?
    requires code >= 400
    ensures var i := IndexOf(s.entries, id);
            var s1 := MetaData(s, id, code, full, sn, outcome);
            && s1 == Put(s, i, s1.entries[i]) && Rejected(s1.entries[i], code)
            && s1.entries[i].retriesLeft == s.entries[i].retriesLeft && s1.entries[i].file == s.entries[i].file
            && s1.entries[i].destPath == s.entries[i].destPath && s1.entries[i].id == id
  {
    var i := IndexOf(s.entries, id);
    assert RowOk(s.entries[i], s.disk, origin, lossless);
  }

  lemma RejectionSettles(s: State, i: nat, code: nat, f: FinishEnv, env: Kicks, origin: Origin, lossless: bool)
    requires Inv(s, origin, lossless) && i < |s.entries| && Rejected(s.entries[i], code) && code >= 400
    requires Legal(s, Ends(s.entries[i].id, f, env), origin, lossless)
    ensures var s2 := Finished(s, s.entries[i].id, f, env);
            && s2.entries[i].status == Failed
            && s2.entries[i].errorReason == (if code == 401 || code == 403 then ErrorAuth else ErrorHttp)
            && s2.entries[i].retriesLeft == s.entries[i].retriesLeft
            && (s.entries[i].file.Some? ==> s.entries[i].destPath !in s2.disk.parts)
  {
    hide NotStranded, IndexFrom, ProcessFrom;
    assert IndexOf(s.entries, s.entries[i].id) == i;
    assert RowOk(s.entries[i], s.disk, origin, lossless);
    OnlyMine(s, i, origin, lossless);
    var s1 := Settle(s, i, f).0;
    assert Drain(s, i, f) == s;
    assert forall j :: 0 <= j < |s.entries| && j != i ==> s1.entries[j] == s.entries[j];
    if s.entries[i].file.Some? {
      OverStaysOver(s1, i, env);
    } else {
      var cut := ProcessIsFifo(s1, 0, env);
    }
  }

  /** An HTTP error is never retried, whatever retries are left: the row fails and
      its working file is deleted. This includes 416, which the comments of the
      handler promise to treat as success. */
  lemma HttpErrorsFail(s: State, id: Id, code: nat, full: nat, sn: Sniff, outcome: TruncateOutcome,
                       f: FinishEnv, env: Kicks, origin: Origin, lossless: bool)
    requires Inv(s, origin, lossless) && Legal(s, Head(id, code, full, sn, outcome), origin, lossless)
    requires var i := IndexOf(s.entries, id); i >= 0 && s.entries[i].reply.Some?
    requires code >= 400
    requires Legal(MetaData(s, id, code, full, sn, outcome), Ends(id, f, env), origin, lossless)
    ensures var i := IndexOf(s.entries, id);
            var s2 := Finished(MetaData(s, id, code, full, sn, outcome), id, f, env);
            && i < |s2.entries| && s2.entries[i].status == Failed
            && s2.entries[i].errorReason == (if code == 401 || code == 403 then ErrorAuth else ErrorHttp)
            && s2.entries[i].retriesLeft == s.entries[i].retriesLeft
            && (s.entries[i].file.Some? ==> s.entries[i].destPath !in s2.disk.parts)
  {
    var i := IndexOf(s.entries, id);
    ErrorHeadRejects(s, id, code, full, sn, outcome, origin, lossless);
    MetaDataKeeps(s, id, code, full, sn, outcome, origin, lossless);
    RejectionSettles(MetaData(s, id, code, full, sn, outcome), i, code, f, env, origin, lossless);
  }

  /** A head that empties a non-empty working file is the first final head of its
      reply (so no body byte has arrived), says 200, and leaves nothing for a later
      head of the same reply to truncate. */
  lemma TruncatesOnceBeforeTheBody(s: State, id: Id, code: nat, full: nat, sn: Sniff, outcome: TruncateOutcome,
                                   origin: Origin, lossless: bool)
    requires Inv(s, origin, lossless) && Legal(s, Head(id, code, full, sn, outcome), origin, lossless)
    requires var i := IndexOf(s.entries, id);
             i >= 0 && s.entries[i].file.Some? && s.disk.parts[s.entries[i].destPath] != []
    ensures var i := IndexOf(s.entries, id);
            var p := s.entries[i].destPath;
            var s' := MetaData(s, id, code, full, sn, outcome);
            p !in s'.disk.parts || s'.disk.parts[p] != s.disk.parts[p] ==>
              && !IsFinalCode(s.entries[i].reply.value.code) && code == 200
              && (s'.entries[i].reply.value.aborted
                  || s'.entries[i].file.None? || s'.entries[i].file.value.resumeFrom == 0)
  {
    hide IsFinalCode;
    var i := IndexOf(s.entries, id);
    assert RowOk(s.entries[i], s.disk, origin, lossless);
  }

  // ---- Two downloads at one path -----------------------------------------------------------

  /** The rows that start() keeps: one that is over goes. */
  function Kept(s: State, id: Id): seq<Entry> {
    var i := IndexOf(s.entries, id);
    if i >= 0 then Erase(s, i).entries else s.entries
  }

  /** A row that is there may be started afresh when it is over. */
  predicate StartsFresh(s: State, id: Id, url: Url) {
    var i := IndexOf(s.entries, id);
    id != "" && url != "" && (i >= 0 ==> IsOver(s.entries[i].status))
  }

  lemma StartQueues(s: State, id: Id, url: Url, mime: string, size: int, dest: Path, env: Kicks)
    requires StartsFresh(s, id, url)
    ensures Start(s, id, url, mime, size, dest, env)
         == ProcessQueue(s.(entries := Kept(s, id) + [FreshEntry(id, url, mime, size, dest)]), env)
  {
    hide ProcessQueue, FreshEntry, IndexFrom;
  }

  lemma ErasedApart(s: State, i: nat)
    requires i < |s.entries| && Apart(s.entries)
    ensures Apart(Erase(s, i).entries)
    ensures forall e :: e in Erase(s, i).entries ==> e in s.entries
  {
    ErasedRows(s, s, i);
    hide Erase, Owns;
  }

  lemma KeptRows(s: State, id: Id, origin: Origin, lossless: bool)
    requires Inv(s, origin, lossless)
    ensures Apart(Kept(s, id)) && forall e :: e in Kept(s, id) ==> e in s.entries
  {
    assert Apart(s.entries);
    hide Inv, Apart, Erase;
    if IndexOf(s.entries, id) >= 0 {
      ErasedApart(s, IndexOf(s.entries, id));
    }
  }

  lemma DoneIsElsewhere(s: State, e: Entry, dest: Path, origin: Origin, lossless: bool)
    requires Inv(s, origin, lossless) && e in s.entries && e.status == Completed && dest !in s.disk.files
    ensures e.destPath != dest
  {
    var i :| 0 <= i < |s.entries| && s.entries[i] == e;
    hide Inv;
    RowIsOk(s, i, origin, lossless);
  }

  /** Processing the queue gives no row another path, and makes none own one. */
  lemma KickedOwns(e: Entry, e': Entry)
    requires KickedRow(e, e')
    ensures e'.destPath == e.destPath && (Owns(e') ==> Owns(e)) && (e'.status == Completed ==> e.status == Completed)
  {
  }

  lemma KickedLast(e: Entry, e': Entry)
    requires KickedRow(e, e') && e.status == Queued
    ensures e'.destPath == e.destPath && (Owns(e') <==> e'.status != Failed)
  {
  }

  lemma ServedApartIff(a: seq<Entry>, b: seq<Entry>, dest: Path)
    requires a != [] && |a| == |b| && (forall j :: 0 <= j < |a| ==> KickedRow(a[j], b[j]))
    requires Apart(a[..|a| - 1]) && a[|a| - 1].status == Queued && a[|a| - 1].destPath == dest
    requires forall e :: e in a[..|a| - 1] && e.status == Completed ==> e.destPath != dest
    ensures var n := |b| - 1;
            Apart(b) <==> b[n].status == Failed
                          || forall j :: 0 <= j < n && IsLive(b[j].status) ==> b[j].destPath != dest
  {
    var n := |b| - 1;
    forall j | 0 <= j < n
      ensures b[j].destPath == a[j].destPath && (Owns(b[j]) ==> Owns(a[j])) && a[j] in a[..n]
      ensures b[j].status == Completed ==> b[j].destPath != dest
    {
      KickedOwns(a[j], b[j]);
      assert a[..n][j] == a[j];
    }
    hide KickedRow;
    forall i, j | 0 <= i < j < n && Owns(b[i]) && Owns(b[j])
      ensures b[i].destPath != b[j].destPath
    {
      assert a[..n][i] == a[i] && a[..n][j] == a[j];
    }
    assert b[n].destPath == dest && (Owns(b[n]) <==> b[n].status != Failed) by {
      KickedLast(a[n], b[n]);
    }
  }

  lemma ServedRows(s: State, env: Kicks)
    ensures var s' := ProcessQueue(s, env);
            |s'.entries| == |s.entries| && forall j :: 0 <= j < |s.entries| ==> KickedRow(s.entries[j], s'.entries[j])
  {
    var cut := ProcessIsFifo(s, 0, env);
  }

  /** Nothing on disk keeps two downloads of the same title apart when the earlier one has
      no file yet. With slots free or not: starting a video at a path without a file keeps
      the paths apart if and only if its transfer fails at once or no other row is then
      waiting for that path. */
  lemma StartIsApartIff(s: State, id: Id, url: Url, mime: string, size: int, dest: Path, env: Kicks,
                        origin: Origin, lossless: bool)
    requires Inv(s, origin, lossless) && StartsFresh(s, id, url) && dest !in s.disk.files
    ensures var rows := Start(s, id, url, mime, size, dest, env).entries;
            var n := |rows| - 1;
            && n >= 0
            && (Apart(rows) <==> rows[n].status == Failed
                                 || forall j :: 0 <= j < n && IsLive(rows[j].status) ==> rows[j].destPath != dest)
  {
    var kept, e := Kept(s, id), FreshEntry(id, url, mime, size, dest);
    var s1 := s.(entries := kept + [e]);
    assert e.status == Queued && e.destPath == dest;
    StartQueues(s, id, url, mime, size, dest, env);
    hide *;
    KeptRows(s, id, origin, lossless);
    forall o | o in kept && o.status == Completed
      ensures o.destPath != dest
    {
      DoneIsElsewhere(s, o, dest, origin, lossless);
    }
    assert s1.entries[..|s1.entries| - 1] == kept;
    ServedRows(s1, env);
    ServedApartIff(s1.entries, ProcessQueue(s1, env).entries, dest);
  }

  /** With every slot busy that can be told before: a new video at a path that does not
      exist yet keeps the live paths apart if and only if no live row waits for it. */
  lemma BusyStartIsApartIff(s: State, id: Id, url: Url, mime: string, size: int, dest: Path, env: Kicks,
                            origin: Origin, lossless: bool)
    requires Inv(s, origin, lossless) && ActiveCount(s.entries) == MAX_CONCURRENT
    requires id != "" && url != "" && IndexOf(s.entries, id) == -1
    requires dest !in s.disk.parts && dest !in s.disk.files
    ensures Apart(Start(s, id, url, mime, size, dest, env).entries)
            <==> forall i :: 0 <= i < |s.entries| && IsLive(s.entries[i].status) ==> s.entries[i].destPath != dest
  {
    var s1 := s.(entries := s.entries + [FreshEntry(id, url, mime, size, dest)]);
    SumAdd(s.entries, FreshEntry(id, url, mime, size, dest), ACTIVE);
    assert Start(s, id, url, mime, size, dest, env) == s1;
    var n := |s.entries|;
    assert s1.entries[n].destPath == dest;
    forall i | 0 <= i < n && s.entries[i].status == Completed
      ensures s.entries[i].destPath != dest
    {
      assert RowOk(s.entries[i], s.disk, origin, lossless);
    }
    assert forall i :: 0 <= i < n ==> s1.entries[i] == s.entries[i];
  }

  // ---- Retry termination ---------------------------------------------------------------

  /** How far a row is from coming to rest when the user does nothing. */
  const RANK: Entry -> nat :=
    (e: Entry) => if e.status == Queued then 2 * e.retriesLeft + 2
                  else if e.status == Downloading then 2 * e.retriesLeft + 1 else 0

  function Potential(s: State): nat { 2 * Sum(s.entries, RANK) + |s.timers| }

  lemma KickLowersRank(s: State, i: nat, k: KickEnv)
    requires IsQueuedAt(s, i)
    ensures Sum(KickOff(s, i, k).entries, RANK) <= Sum(s.entries, RANK)
  {
    var s1 := KickOff(s, i, k);
    SumUpdate(s.entries, i, s1.entries[i], RANK);
    assert s1.entries == s.entries[i := s1.entries[i]];
  }

  lemma {:induction false} ProcessLowersRank(s: State, i: nat, env: Kicks)
    requires i <= |s.entries|
    ensures Sum(ProcessFrom(s, i, env).entries, RANK) <= Sum(s.entries, RANK)
    decreases |s.entries| - i
  {
    if i < |s.entries| && ActiveCount(s.entries) < MAX_CONCURRENT {
      if s.entries[i].status == Queued {
        var s1 := KickOff(s, i, env(s.entries[i].id));
        KickLowersRank(s, i, env(s.entries[i].id));
        hide KickOff, ActiveCount;
        ProcessLowersRank(s1, i + 1, env);
      } else {
        ProcessLowersRank(s, i + 1, env);
      }
    }
  }

  /** The engine moves on its own when a reply ends or a timer fires. */
  predicate Moves(s: State, ev: Event) {
    match ev
    case TimerFires(t, _) => t < |s.timers|
    case Ends(id, _, _) => IndexOf(s.entries, id) >= 0
    case _ => false
  }

  predicate IsNetwork(ev: Event) { ev.TimerFires? || ev.Head? || ev.Body? || ev.Length? || ev.Ends? }

  lemma MoveLowersPotential(s: State, ev: Event, origin: Origin, lossless: bool)
    requires Inv(s, origin, lossless) && Legal(s, ev, origin, lossless) && Moves(s, ev)
    ensures Potential(Apply(s, ev)) < Potential(s)
  {
    hide Start, Retry, Cancel, Pause, Resume, PauseAll, ResumeAll, Remove, ClearCompleted, Logout, MetaData, Chunk,
         Progress, Core, NotStranded;
    match ev
    case TimerFires(t, env) =>
      hide Finished;
      ProcessLowersRank(s.(timers := RemoveTimer(s.timers, t)), 0, env);
    case Ends(id, f, env) =>
      hide TimerFired, Finished;
      EndLowersPotential(s, id, f, env, origin, lossless);
  }

  lemma EndLowersPotential(s: State, id: Id, f: FinishEnv, env: Kicks, origin: Origin, lossless: bool)
    requires Inv(s, origin, lossless) && Legal(s, Ends(id, f, env), origin, lossless) && IndexOf(s.entries, id) >= 0
    ensures Potential(Finished(s, id, f, env)) < Potential(s)
  {
    hide RetriesCounted, Drain;
    var i := IndexOf(s.entries, id);
    RowIsOk(s, i, origin, lossless);
    assert s.entries[i].status == Downloading;
    hide Inv, ByteExact;
    DrainKeeps(s, i, f, origin, lossless);
    var s1 := Drain(s, i, f);
    hide Settle, RowOk, LegalEnd, Ending, SameOutside;
    SettleRow(s1, i, f, origin, lossless);
    var s2 := Settle(s1, i, f).0;
    assert s2.entries == s.entries[i := s2.entries[i]];
    SumUpdate(s.entries, i, s2.entries[i], RANK);
    ProcessLowersRank(s2, 0, env);
  }

  /** The row with this id, if there is one, changes its transfer only. */
  predicate Undisturbed(s: State, id: Id, s': State) {
    var i := IndexOf(s.entries, id);
    && s'.timers == s.timers
    && (s'.entries == s.entries
        || (i >= 0 && i < |s'.entries| && s'.entries == s.entries[i := s'.entries[i]]
            && s'.entries[i].status == s.entries[i].status && s'.entries[i].retriesLeft == s.entries[i].retriesLeft))
  }

  /** A row with another transfer, but the same status and retries. */
  predicate OnlyTransfer(s: State, i: nat, s': State) {
    && i < |s.entries| && |s'.entries| == |s.entries| && s'.timers == s.timers
    && s'.entries == s.entries[i := s'.entries[i]]
    && s'.entries[i].status == s.entries[i].status && s'.entries[i].retriesLeft == s.entries[i].retriesLeft
  }

  lemma HeadRowUndisturbed(s: State, i: nat, code: nat, full: nat, outcome: TruncateOutcome)
    requires i < |s.entries| && s.entries[i].reply.Some?
    ensures OnlyTransfer(s, i, HeadRow(s, i, code, full, outcome))
  {
    hide TruncatedTo0;
  }

  lemma ReconcileUndisturbed(s: State, i: nat, sn: Sniff)
    requires i < |s.entries|
    ensures OnlyTransfer(s, i, Reconcile(s, i, sn))
  {
    hide Opened, RemovePart;
  }

  lemma TransferTwice(s: State, i: nat, s1: State, s2: State)
    requires OnlyTransfer(s, i, s1) && OnlyTransfer(s1, i, s2)
    ensures OnlyTransfer(s, i, s2)
  {
  }

  /** The reply is aborted for its status. */
  function Refused(s: State, i: nat, code: nat): State
    requires i < |s.entries| && s.entries[i].reply.Some?
  {
    var e := s.entries[i].(reply := Some(HeadSeen(s.entries[i].reply.value, code)));
    Put(s, i, Abort(e.(httpStatus := code)))
  }

  lemma RefusedUndisturbed(s: State, i: nat, code: nat)
    requires i < |s.entries| && s.entries[i].reply.Some?
    ensures OnlyTransfer(s, i, Refused(s, i, code))
  {
  }

  /** The head either is all there is, or the destination is reconciled after it. */
  lemma HeadSplits(s: State, id: Id, code: nat, full: nat, sn: Sniff, outcome: TruncateOutcome)
    requires var i := IndexOf(s.entries, id); i >= 0 && s.entries[i].reply.Some?
    ensures var i := IndexOf(s.entries, id);
            var s1 := HeadRow(s, i, code, full, outcome);
            var s' := MetaData(s, id, code, full, sn, outcome);
            s' == s1 || s' == Reconcile(s1, i, sn) || s' == Refused(s, i, code)
  {
    hide TruncatedTo0, Reconcile;
  }

  lemma HeadUndisturbed(s: State, id: Id, code: nat, full: nat, sn: Sniff, outcome: TruncateOutcome)
    ensures Undisturbed(s, id, MetaData(s, id, code, full, sn, outcome))
  {
    var i := IndexOf(s.entries, id);
    if i >= 0 && s.entries[i].reply.Some? {
      HeadSplits(s, id, code, full, sn, outcome);
      hide MetaData, HeadRow, Reconcile, Refused;
      RefusedUndisturbed(s, i, code);
      var s1 := HeadRow(s, i, code, full, outcome);
      HeadRowUndisturbed(s, i, code, full, outcome);
      ReconcileUndisturbed(s1, i, sn);
      TransferTwice(s, i, s1, Reconcile(s1, i, sn));
    }
  }

  lemma BodyUndisturbed(s: State, id: Id, data: Bytes, taken: nat)
    requires taken <= |data|
    ensures Undisturbed(s, id, Chunk(s, id, data, taken))
  {
  }

  /** The other callbacks change neither a status nor a retry count. */
  lemma CallbackKeepsPotential(s: State, ev: Event, origin: Origin, lossless: bool)
    requires Inv(s, origin, lossless) && Legal(s, ev, origin, lossless) && IsNetwork(ev) && !Moves(s, ev)
    ensures Potential(Apply(s, ev)) == Potential(s)
  {
    var s' := Apply(s, ev);
    var id;
    match ev {
      case Head(hid, code, full, sn, outcome) =>
        id := hid;
        HeadUndisturbed(s, id, code, full, sn, outcome);
      case Body(bid, data, taken) =>
        id := bid;
        BodyUndisturbed(s, id, data, taken);
      case Length(lid, _) =>
        id := lid;
      case Ends(eid, _, _) =>
        id := eid;
    }
    UndisturbedPotential(s, id, s');
  }

  lemma UndisturbedPotential(s: State, id: Id, s': State)
    requires Undisturbed(s, id, s')
    ensures Potential(s') == Potential(s)
  {
    var i := IndexOf(s.entries, id);
    if s'.entries != s.entries {
      SumUpdate(s.entries, i, s'.entries[i], RANK);
    }
  }

  ghost function MoveCount(s: State, evs: seq<Event>, origin: Origin, lossless: bool): nat
    requires LegalRun(s, evs, origin, lossless)
    decreases |evs|
  {
    if evs == [] then 0
    else One(Moves(s, evs[0])) + MoveCount(Apply(s, evs[0]), evs[1..], origin, lossless)
  }

  /** Without the user, replies end and timers fire only so often. */
  lemma {:induction false} RetriesEnd(s: State, evs: seq<Event>, origin: Origin, lossless: bool)
    requires Inv(s, origin, lossless) && LegalRun(s, evs, origin, lossless)
    requires forall k :: 0 <= k < |evs| ==> IsNetwork(evs[k])
    ensures MoveCount(s, evs, origin, lossless) + Potential(Run(s, evs, origin, lossless)) <= Potential(s)
    decreases |evs|
  {
    if evs != [] {
      EventKeeps(s, evs[0], origin, lossless);
      if Moves(s, evs[0]) {
        MoveLowersPotential(s, evs[0], origin, lossless);
      } else {
        CallbackKeepsPotential(s, evs[0], origin, lossless);
      }
      RetriesEnd(Apply(s, evs[0]), evs[1..], origin, lossless);
    }
  }

  /** Where no reply is live and no timer is pending, every row is over or paused. */
  lemma AtRestMeansDone(s: State, origin: Origin, lossless: bool)
    requires Inv(s, origin, lossless)
    requires s.timers == [] && forall i :: 0 <= i < |s.entries| ==> s.entries[i].reply.None?
    ensures forall i :: 0 <= i < |s.entries| ==> IsOver(s.entries[i].status) || s.entries[i].status == Paused
  {
    forall i | 0 <= i < |s.entries|
      ensures s.entries[i].status != Downloading
    {
      assert RowOk(s.entries[i], s.disk, origin, lossless);
    }
    NoneActive(s.entries);
  }

  lemma {:induction false} NoneActive(entries: seq<Entry>)
    requires forall i :: 0 <= i < |entries| ==> entries[i].status != Downloading
    ensures ActiveCount(entries) == 0
  {
    if entries != [] {
      NoneActive(entries[..|entries| - 1]);
    }
  }
}
