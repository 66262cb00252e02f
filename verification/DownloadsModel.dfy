/** The mutable download list. Every slot and callback is proved to take the
    object from one state to the next exactly as the functions of `Downloads`
    say. */
module DownloadsModels {
  import opened Wrappers
  import opened Disks
  import opened Downloads

  class DownloadsModel {
    var entries: seq<Entry>
    var disk: Disk
    var timers: seq<Timer>

    ghost function View(): State
      reads this
    {
      State(entries, disk, timers)
    }

    constructor (done: seq<Saved>, paused: seq<Saved>, disk: Disk)
      ensures View() == Restored(done, paused, disk)
    {
      this.entries, this.disk, this.timers := [], disk, [];
      new;
      LoadPersisted(done, paused);
      PurgeStaleCompleted();
    }

    method LoadPersisted(done: seq<Saved>, paused: seq<Saved>)
      requires entries == []
      modifies this
      ensures View() == old(View()).(entries := LoadDone(done) + LoadPaused(paused, old(disk)))
    {
      for k := 0 to |done|
        invariant View() == old(View()).(entries := LoadDone(done[..k]))
      {
        assert done[..k + 1][..k] == done[..k];
        if done[k].id != "" && done[k].destPath != "" {
          entries := entries + [DoneRow(done[k])];
        }
      }
      assert done[..|done|] == done;
      for k := 0 to |paused|
        invariant View() == old(View()).(entries := LoadDone(done) + LoadPaused(paused[..k], disk))
      {
        assert paused[..k + 1][..k] == paused[..k];
        var r := paused[k];
        if r.destPath != "" && r.destPath in disk.parts && r.id != "" {
          entries := entries + [PausedRow(r, disk)];
        }
      }
      assert paused[..|paused|] == paused;
    }

    method PurgeStaleCompleted()
      modifies this
      ensures View() == PurgeBelow(old(View()), |old(entries)|)
    {
      var i := |entries|;
      while i > 0
        invariant 0 <= i <= |entries|
        invariant PurgeBelow(old(View()), |old(entries)|) == PurgeBelow(View(), i)
      {
        i := i - 1;
        if entries[i].status == Completed && (entries[i].destPath == "" || entries[i].destPath !in disk.files) {
          entries := entries[..i] + entries[i + 1..];
        }
      }
    }

    /** What savePaused() writes. */
    method PausedRecords() returns (saved: seq<Saved>)
      ensures saved == Records(entries, Paused)
    {
      saved := [];
      for k := 0 to |entries|
        invariant saved == Records(entries[..k], Paused)
      {
        assert entries[..k + 1][..k] == entries[..k];
        if entries[k].status == Paused {
          saved := saved + [RecordOf(entries[k])];
        }
      }
      assert entries[..|entries|] == entries;
    }

    method CountActive() returns (n: nat)
      ensures n == ActiveCount(entries)
    {
      n := 0;
      for i := 0 to |entries|
        invariant n == ActiveCount(entries[..i])
      {
        assert entries[..i + 1][..i] == entries[..i];
        if entries[i].status == Downloading {
          n := n + 1;
        }
      }
      assert entries[..|entries|] == entries;
    }

    method Find(id: Id) returns (i: int)
      ensures i == IndexOf(entries, id)
    {
      for k := 0 to |entries|
        invariant IndexOf(entries, id) == IndexFrom(entries, id, k)
      {
        if entries[k].id == id {
          return k;
        }
      }
      return -1;
    }

    method Set(i: nat, e: Entry)
      requires i < |entries|
      modifies this
      ensures View() == Put(old(View()), i, e)
    {
      entries := entries[i := e];
    }

    method TeardownTransfer(i: nat, keepPart: bool)
      requires i < |entries|
      modifies this
      ensures View() == Teardown(old(View()), i, keepPart)
    {
      var e := entries[i];
      e := e.(reply := None);
      if e.file.Some? {
        if !keepPart {
          disk := RemovePart(disk, e.file.value.destPath);
        }
        e := e.(file := None);
      } else if !keepPart {
        disk := RemovePart(disk, e.destPath);
      }
      Set(i, e);
    }

    // ---- Scheduling ---------------------------------------------------------

    /** Whether the rest of the file fits, with a margin; an unknown size or free space
        is no obstacle. */
    method CheckDiskBudget(e: Entry, available: int) returns (enough: bool)
      ensures enough == DiskBudgetOk(e, available)
    {
      if e.total <= 0 || available < 0 {
        return true;
      }
      var remaining := if e.total > e.received then e.total - e.received else 0;
      return available >= remaining + DISK_SAFETY_BYTES;
    }

    method StartTransfer(i: nat, k: KickEnv)
      requires i < |entries|
      modifies this
      ensures View() == KickOff(old(View()), i, k)
    {
      hide Opened, RemovePart, DiskBudgetOk, SetStatus;
      var e := entries[i];
      e := e.(kicks := e.kicks + 1);
      var enough := CheckDiskBudget(e, k.available);
      if !enough {
        Set(i, SetStatus(e, Failed, ErrorDiskSpace));
        return;
      }
      var (d, h) := Opened(disk, e.destPath, MIN_RESUME_BYTES, e.total, k.openOk);
      disk := d;
      if h.None? {
        Set(i, SetStatus(e.(file := None), Failed, ErrorDiskWrite));
        return;
      }
      if !k.replyOk {
        disk := RemovePart(disk, e.destPath);
        Set(i, SetStatus(e.(file := None), Failed, ErrorNetwork));
        return;
      }
      var from := h.value.resumeFrom;
      e := e.(file := h, reply := Some(Reply(from, 0, 0, false)));
      e := e.(received := from, httpStatus := 0, destReconciled := false, status := Downloading);
      Set(i, e);
    }

    /** Each transfer is started with no earlier row left queued. */
    method FillSlots(env: Kicks)
      modifies this
      ensures View() == ProcessQueue(old(View()), env)
      ensures |entries| == |old(entries)|
    {
      hide ActiveCount;
      var i := 0;
      while i < |entries|
        invariant 0 <= i <= |entries| == |old(entries)|
        invariant ProcessQueue(old(View()), env) == ProcessFrom(View(), i, env)
        invariant forall j :: 0 <= j < i ==> entries[j].status != Queued
      {
        var active := CountActive();
        if active >= MAX_CONCURRENT {
          return;
        }
        if entries[i].status == Queued {
          StartTransfer(i, env(entries[i].id));
        }
        i := i + 1;
      }
    }

    // ---- User slots -----------------------------------------------------------

    method StartDownload(id: Id, url: Url, mime: string, size: int, dest: Path, env: Kicks)
      modifies this
      ensures View() == Start(old(View()), id, url, mime, size, dest, env)
    {
      if id == "" || url == "" {
        return;
      }
      var i := Find(id);
      if i >= 0 {
        var status := entries[i].status;
        if status == Downloading || status == Queued {
          return;
        }
        if status == Paused {
          ResumeDownload(id, env);
          return;
        }
        entries := entries[..i] + entries[i + 1..];
      }
      entries := entries + [FreshEntry(id, url, mime, size, dest)];
      FillSlots(env);
    }

    method RetryDownload(id: Id, dest: Path, env: Kicks)
      modifies this
      ensures View() == Retry(old(View()), id, dest, env)
    {
      var i := Find(id);
      if i < 0 {
        return;
      }
      var e := entries[i];
      if e.status == Downloading || e.status == Queued || e.status == Completed {
        return;
      }
      StartDownload(e.id, e.url, e.mime, e.total, dest, env);
    }

    method CancelDownload(id: Id, env: Kicks)
      modifies this
      ensures View() == Cancel(old(View()), id, env)
    {
      var i := Find(id);
      if i < 0 || !IsLive(entries[i].status) {
        return;
      }
      TeardownTransfer(i, false);
      Set(i, SetStatus(entries[i].(userCanceled := true, userPaused := false), Canceled, ErrorNone));
      FillSlots(env);
    }

    method PauseDownload(id: Id, env: Kicks)
      modifies this
      ensures View() == Pause(old(View()), id, env)
    {
      var i := Find(id);
      if i < 0 || !IsRunning(entries[i].status) {
        return;
      }
      TeardownTransfer(i, true);
      Set(i, SetStatus(entries[i].(userPaused := true), Paused, ErrorNone));
      FillSlots(env);
    }

    method ResumeDownload(id: Id, env: Kicks)
      modifies this
      ensures View() == Resume(old(View()), id, env)
    {
      var i := Find(id);
      if i < 0 || entries[i].status != Paused {
        return;
      }
      Set(i, SetStatus(entries[i].(userPaused := false, resumes := entries[i].resumes + 1), Queued, ErrorNone));
      FillSlots(env);
    }

    method PauseEverything()
      modifies this
      ensures View() == PauseAll(old(View()))
    {
      var i := 0;
      while i < |entries|
        invariant 0 <= i <= |entries|
        invariant PauseAll(old(View())) == PauseFrom(View(), i)
      {
        if IsRunning(entries[i].status) {
          TeardownTransfer(i, true);
          Set(i, SetStatus(entries[i].(userPaused := true), Paused, ErrorNone));
        }
        i := i + 1;
      }
    }

    method ResumeEverything(env: Kicks)
      modifies this
      ensures View() == ResumeAll(old(View()), env)
    {
      var touched := false;
      var i := 0;
      while i < |entries|
        invariant 0 <= i <= |entries| == |old(entries)|
        invariant ResumeFrom(old(View()), 0) == ResumeFrom(View(), i)
        invariant entries[i..] == old(entries)[i..]
        invariant touched <==> exists j :: 0 <= j < i && old(entries)[j].status == Paused
        invariant !touched ==> View() == old(View())
      {
        assert entries[i] == entries[i..][0] == old(entries)[i];
        if entries[i].status == Paused {
          Set(i, SetStatus(entries[i].(userPaused := false, resumes := entries[i].resumes + 1), Queued, ErrorNone));
          touched := true;
        }
        i := i + 1;
      }
      if touched {
        FillSlots(env);
      }
    }

    method RemoveDownload(id: Id, env: Kicks)
      modifies this
      ensures View() == Remove(old(View()), id, env)
    {
      var i := Find(id);
      if i < 0 {
        return;
      }
      var wasActive := IsLive(entries[i].status);
      if wasActive {
        TeardownTransfer(i, false);
      }
      entries := entries[..i] + entries[i + 1..];
      if wasActive {
        FillSlots(env);
      }
    }

    method ClearFinished()
      modifies this
      ensures View() == ClearCompleted(old(View()))
    {
      var i := |entries|;
      while i > 0
        invariant 0 <= i <= |entries|
        invariant ClearCompleted(old(View())) == ClearBelow(View(), i)
      {
        i := i - 1;
        if IsOver(entries[i].status) {
          entries := entries[..i] + entries[i + 1..];
        }
      }
    }

    method OnSessionGone()
      modifies this
      ensures View() == Logout(old(View()))
    {
      var i := 0;
      while i < |entries|
        invariant 0 <= i <= |entries|
        invariant Logout(old(View())) == LogoutFrom(View(), i)
      {
        if IsRunning(entries[i].status) {
          TeardownTransfer(i, false);
          Set(i, SetStatus(entries[i].(userCanceled := true), Canceled, ErrorNone));
        }
        i := i + 1;
      }
    }

    // ---- Timers and callbacks ----------------------------------------------------

    method OnTimer(t: nat, env: Kicks)
      requires t < |timers|
      modifies this
      ensures View() == TimerFired(old(View()), t, env)
    {
      var id := timers[t].id;
      timers := RemoveTimer(timers, t);
      var i := Find(id);
      if i < 0 {
        return;
      }
      if entries[i].status != Queued || entries[i].userCanceled || entries[i].userPaused {
        return;
      }
      FillSlots(env);
    }

    method ReconcileDest(i: nat, sn: Sniff)
      requires i < |entries|
      modifies this
      ensures View() == Reconcile(old(View()), i, sn)
    {
      var e := entries[i];
      if e.destReconciled {
        return;
      }
      e := e.(destReconciled := true);
      if e.file.None? || e.file.value.bytesOnDisk > 0 || sn.mime == "" || sn.mime == e.mime {
        Set(i, e);
        return;
      }
      e := e.(mime := sn.mime);
      if sn.newExtension {
        disk := RemovePart(disk, e.file.value.destPath);
        var (d, h) := Opened(disk, sn.newPath, MIN_RESUME_BYTES, e.total, sn.openOk);
        disk := d;
        e := e.(destPath := sn.newPath, file := h);
      }
      Set(i, e);
    }

    /** The server sends the whole body to a resumed transfer: start over. */
    method OnWholeBody(i: nat, e: Entry, sn: Sniff, outcome: TruncateOutcome)
      requires i < |entries| && e.file.Some? && e.file.value.destPath in disk.parts && e.reply.Some?
      modifies this
      ensures var s := old(View());
              var (d, h) := TruncatedTo0(s.disk, e.file.value, outcome);
              View() == if outcome != Truncated then Put(s, i, Abort(e)).(disk := d)
                        else Reconcile(Put(s, i, e.(file := Some(h), received := 0)).(disk := d), i, sn)
    {
      var (d, h) := TruncatedTo0(disk, e.file.value, outcome);
      disk := d;
      if outcome != Truncated {
        Set(i, Abort(e));
        return;
      }
      Set(i, e.(file := Some(h), received := 0));
      ReconcileDest(i, sn);
    }

    method OnFinalHead(i: nat, e: Entry, code: nat, full: nat, sn: Sniff, outcome: TruncateOutcome)
      requires i < |entries| && e.reply.Some?
      modifies this
      ensures View() == FinalHead(old(View()), i, e, code, full, sn, outcome)
    {
      hide Reconcile, TruncatedTo0, Abort;
      if e.file.Some? && e.file.value.resumeFrom > 0 {
        if code == 206 {
          Set(i, e.(total := if full > 0 then full else e.total));
          ReconcileDest(i, sn);
          return;
        }
        if code == 200 && e.file.value.destPath in disk.parts {
          OnWholeBody(i, e, sn, outcome);
          return;
        }
        if code == 416 {
          Set(i, Abort(e.(httpStatus := 0)));
          return;
        }
      }
      if 200 <= code < 300 {
        Set(i, e);
        ReconcileDest(i, sn);
        return;
      }
      if e.httpStatus != 0 {
        Set(i, e);
        return;
      }
      Set(i, Abort(e.(httpStatus := code)));
    }

    method OnMetaData(id: Id, code: nat, full: nat, sn: Sniff, outcome: TruncateOutcome)
      modifies this
      ensures View() == MetaData(old(View()), id, code, full, sn, outcome)
    {
      hide HeadSeen, IsFinalCode, IndexFrom, FinalHead;
      var i := Find(id);
      if i < 0 || entries[i].reply.None? {
        return;
      }
      var e := entries[i].(reply := Some(HeadSeen(entries[i].reply.value, code)));
      if !IsFinalCode(code) {
        Set(i, e);
        return;
      }
      OnFinalHead(i, e, code, full, sn, outcome);
    }

    method OnReadyRead(id: Id, data: Bytes, taken: nat)
      requires taken <= |data|
      modifies this
      ensures View() == Chunk(old(View()), id, data, taken)
    {
      var i := Find(id);
      if i < 0 || entries[i].reply.None? || entries[i].file.None?
         || entries[i].file.value.destPath !in disk.parts {
        return;
      }
      var e := entries[i];
      var r := e.reply.value.(next := e.reply.value.next + |data|);
      if e.httpStatus >= 400 {
        Set(i, e.(reply := Some(r)));
        return;
      }
      if data == [] {
        return;
      }
      var (d, h) := Written(disk, e.file.value, data, taken);
      disk := d;
      if taken < |data| {
        Set(i, Abort(e.(reply := Some(r), userCanceled := false)));
        return;
      }
      Set(i, e.(reply := Some(r), file := Some(h), received := h.bytesOnDisk));
    }

    method OnDownloadProgress(id: Id, total: int)
      modifies this
      ensures View() == Progress(old(View()), id, total)
    {
      var i := Find(id);
      if i < 0 || entries[i].reply.None? {
        return;
      }
      var e := entries[i];
      if e.file.Some? && e.file.value.resumeFrom > 0 {
        return;
      }
      if total > 0 {
        Set(i, e.(total := total));
      }
    }

    method DropFile(i: nat, status: Status, reason: ErrorReason)
      requires i < |entries|
      modifies this
      ensures View() == EndRow(old(View()), i, status, reason)
    {
      var e := entries[i];
      if e.file.Some? {
        disk := RemovePart(disk, e.file.value.destPath);
        e := e.(file := None);
      }
      Set(i, SetStatus(e, status, reason));
    }

    method DrainTail(i: nat, f: FinishEnv)
      requires i < |entries| && f.tailTaken <= |f.tail|
      modifies this
      ensures View() == Drain(old(View()), i, f)
    {
      var e := entries[i];
      if f.err == NoError && e.reply.Some? && e.file.Some? && f.tail != [] && e.file.value.destPath in disk.parts {
        var (d, h) := Written(disk, e.file.value, f.tail, f.tailTaken);
        disk := d;
        Set(i, e.(file := Some(h), received := h.bytesOnDisk));
      }
    }

    /** The transfer ended cleanly: the working file moves into place. */
    method OnCleanEnd(i: nat, renameOk: bool)
      requires i < |entries|
      modifies this
      ensures View() == CleanEnd(old(View()), i, renameOk)
    {
      hide RemovePart, Finalized;
      var e := entries[i];
      if e.file.None? || e.file.value.destPath !in disk.parts {
        DropFile(i, Failed, ErrorDiskWrite);
        return;
      }
      disk := Finalized(disk, e.file.value.destPath, renameOk);
      if !renameOk {
        DropFile(i, Failed, ErrorDiskWrite);
        return;
      }
      Set(i, SetStatus(e.(file := None, total := if e.total <= 0 then e.received else e.total), Completed, ErrorNone));
    }

    method SettleReply(i: nat, f: FinishEnv) returns (process: bool)
      requires i < |entries|
      modifies this
      ensures (View(), process) == Settle(old(View()), i, f)
    {
      hide Backoff, IsTransient, SetStatus, EndRow, CleanEnd;
      ghost var before := entries;
      var e := entries[i];
      var httpCode := e.httpStatus;
      if httpCode == 0 && e.reply.Some? {
        httpCode := e.reply.value.code;
      }
      var userCancel := f.err == OperationCanceled && e.userCanceled && !e.userPaused;
      var transient := !userCancel && !e.userPaused && httpCode < 400 && IsTransient(f.err);
      e := e.(reply := None, userCanceled := false);
      Set(i, e);
      process := true;
      if e.userPaused {
        Set(i, e.(file := None));
        assert entries == before[i := entries[i]];
      } else if userCancel {
        DropFile(i, Canceled, ErrorNone);
      } else if transient && e.retriesLeft > 0 {
        var attempt := MAX_RETRIES - e.retriesLeft;
        Set(i, e.(retriesLeft := e.retriesLeft - 1, file := None, httpStatus := 0, status := Queued));
        timers := timers + [Timer(e.id, Backoff(attempt))];
        assert entries == before[i := entries[i]];
        process := false;
      } else if httpCode >= 400 {
        DropFile(i, Failed, if httpCode == 401 || httpCode == 403 then ErrorAuth else ErrorHttp);
      } else if f.err != NoError {
        DropFile(i, Failed, if f.err == Timeout then ErrorTimeout else ErrorNetwork);
      } else {
        OnCleanEnd(i, f.renameOk);
      }
    }

    method OnFinished(id: Id, f: FinishEnv, env: Kicks)
      requires f.tailTaken <= |f.tail|
      modifies this
      ensures View() == Finished(old(View()), id, f, env)
    {
      var i := Find(id);
      if i < 0 {
        return;
      }
      DrainTail(i, f);
      var process := SettleReply(i, f);
      if process {
        FillSlots(env);
      }
    }
  }
}
