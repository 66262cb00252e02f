/** The list that the program starts with: the completed and the paused rows of the last
    session, as far as their files are still there. */
module DownloadsRestarts {
  import opened Disks
  import opened Downloads
  import opened DownloadsInvariant

  predicate Different(saved: seq<Saved>) {
    forall i, j :: 0 <= i < j < |saved| ==> saved[i].id != saved[j].id && saved[i].destPath != saved[j].destPath
  }

  /** No two rows have the same id or the same path. */
  predicate AllApart(entries: seq<Entry>) {
    forall i, j :: 0 <= i < j < |entries| ==>
      entries[i].id != entries[j].id && entries[i].destPath != entries[j].destPath
  }

  predicate LoadsWhole(r: Saved, disk: Disk) { LoadsDone(r) && r.destPath in disk.files }

  /** The rows that are restored are of different downloads at different paths; their
      working files hold a prefix of the resource, their finished files the resource. */
  ghost predicate Sound(done: seq<Saved>, paused: seq<Saved>, disk: Disk, origin: Origin, lossless: bool) {
    && AllApart(Restored(done, paused, disk).entries)
    && (forall r :: r in paused && LoadsPaused(r, disk) ==> disk.parts[r.destPath] <= origin(r.url))
    && (forall r :: r in done && LoadsWhole(r, disk) ==>
          && r.destPath !in disk.parts && disk.files[r.destPath] <= origin(r.url)
          && (lossless ==> disk.files[r.destPath] == origin(r.url)))
  }

  lemma {:induction false} DoneRows(done: seq<Saved>)
    ensures Different(done) ==> AllApart(LoadDone(done))
    ensures forall e :: e in LoadDone(done) ==> exists r :: r in done && LoadsDone(r) && e == DoneRow(r)
    ensures forall r :: r in done && LoadsDone(r) ==> DoneRow(r) in LoadDone(done)
    decreases |done|
  {
    if done != [] {
      var rest, last := done[..|done| - 1], done[|done| - 1];
      assert done == rest + [last];
      DoneRows(rest);
      forall e | e in LoadDone(rest) && Different(done)
        ensures e.id != last.id && e.destPath != last.destPath
      {
        var r :| r in rest && e == DoneRow(r);
      }
    }
  }

  lemma {:induction false} PausedRows(paused: seq<Saved>, disk: Disk)
    ensures Different(paused) ==> AllApart(LoadPaused(paused, disk))
    ensures forall e :: e in LoadPaused(paused, disk) ==>
              exists r :: r in paused && LoadsPaused(r, disk) && e == PausedRow(r, disk)
    ensures forall r :: r in paused && LoadsPaused(r, disk) ==> PausedRow(r, disk) in LoadPaused(paused, disk)
    decreases |paused|
  {
    if paused != [] {
      var rest, last := paused[..|paused| - 1], paused[|paused| - 1];
      assert paused == rest + [last];
      PausedRows(rest, disk);
      forall e | e in LoadPaused(rest, disk) && Different(paused)
        ensures e.id != last.id && e.destPath != last.destPath
      {
        var r :| r in rest && LoadsPaused(r, disk) && e == PausedRow(r, disk);
      }
    }
  }

  lemma DifferentParts(a: seq<Saved>, b: seq<Saved>)
    requires Different(a + b)
    ensures Different(a) && Different(b)
    ensures forall r, t :: r in a && t in b ==> r.id != t.id && r.destPath != t.destPath
  {
    assert forall i :: 0 <= i < |a| ==> (a + b)[i] == a[i];
    assert forall i :: 0 <= i < |b| ==> (a + b)[|a| + i] == b[i];
  }

  lemma LoadedApart(done: seq<Saved>, paused: seq<Saved>, disk: Disk)
    requires Different(done + paused)
    ensures AllApart(Loaded(done, paused, disk).entries)
  {
    DifferentParts(done, paused);
    DoneRows(done);
    PausedRows(paused, disk);
    var a, b := LoadDone(done), LoadPaused(paused, disk);
    hide LoadDone, LoadPaused, Different;
    forall e, f | e in a && f in b
      ensures e.id != f.id && e.destPath != f.destPath
    {
      var r :| r in done && e == DoneRow(r);
      var t :| t in paused && LoadsPaused(t, disk) && f == PausedRow(t, disk);
    }
    var all := Loaded(done, paused, disk).entries;
    forall i, j | 0 <= i < j < |all|
      ensures all[i].id != all[j].id && all[i].destPath != all[j].destPath
    {
      assert all[i] == if i < |a| then a[i] else b[i - |a|];
      assert all[j] == if j < |a| then a[j] else b[j - |a|];
    }
  }

  lemma ErasedMembers(s: State, i: nat)
    requires i < |s.entries|
    ensures AllApart(s.entries) ==> AllApart(Erase(s, i).entries)
    ensures forall j :: i <= j < |Erase(s, i).entries| ==> Erase(s, i).entries[j] == s.entries[j + 1]
    ensures forall e :: e in Erase(s, i).entries ==> e in s.entries
    ensures forall e :: e in s.entries && e != s.entries[i] ==> e in Erase(s, i).entries
  {
    forall e | e in s.entries && e != s.entries[i]
      ensures e in Erase(s, i).entries
    {
      var j :| 0 <= j < |s.entries| && s.entries[j] == e;
      assert Erase(s, i).entries[if j < i then j else j - 1] == e;
    }
  }

  lemma {:induction false} PurgeKeepsApart(s: State, n: nat)
    requires n <= |s.entries| && AllApart(s.entries)
    ensures AllApart(PurgeBelow(s, n).entries)
    decreases n
  {
    hide IsStale, AllApart;
    if n > 0 {
      if IsStale(s.entries[n - 1], s.disk) {
        ErasedMembers(s, n - 1);
        PurgeKeepsApart(Erase(s, n - 1), n - 1);
      } else {
        PurgeKeepsApart(s, n - 1);
      }
    }
  }

  /** Purging leaves rows that were there, and no stale one. */
  lemma {:induction false} PurgeLeaves(s: State, n: nat, e: Entry)
    requires n <= |s.entries|
    requires forall j :: n <= j < |s.entries| ==> !IsStale(s.entries[j], s.disk)
    ensures e in PurgeBelow(s, n).entries <==> e in s.entries && !IsStale(e, s.disk)
    decreases n
  {
    hide IsStale, AllApart;
    if n > 0 {
      if IsStale(s.entries[n - 1], s.disk) {
        ErasedMembers(s, n - 1);
        PurgeLeaves(Erase(s, n - 1), n - 1, e);
      } else {
        PurgeLeaves(s, n - 1, e);
      }
    }
  }

  /** What is restored: the records that load and whose files are there. */
  lemma RestoredRows(done: seq<Saved>, paused: seq<Saved>, disk: Disk)
    ensures var rows := Restored(done, paused, disk).entries;
            && (Different(done + paused) ==> AllApart(rows))
            && (forall e :: e in rows ==>
                  || (exists r :: r in done && LoadsWhole(r, disk) && e == DoneRow(r))
                  || (exists r :: r in paused && LoadsPaused(r, disk) && e == PausedRow(r, disk)))
            && (forall r :: r in done && LoadsWhole(r, disk) ==> DoneRow(r) in rows)
            && (forall r :: r in paused && LoadsPaused(r, disk) ==> PausedRow(r, disk) in rows)
  {
    var s := Loaded(done, paused, disk);
    DoneRows(done);
    PausedRows(paused, disk);
    if Different(done + paused) {
      LoadedApart(done, paused, disk);
    }
    if AllApart(s.entries) {
      PurgeKeepsApart(s, |s.entries|);
    }
    forall e {
      PurgeLeaves(s, |s.entries|, e);
    }
    hide LoadDone, LoadPaused, Different, PurgeBelow, AllApart;
  }

  /** A row without a transfer, as a session starts with it. */
  predicate AtRest(e: Entry) {
    && e.file.None? && e.reply.None? && e.errorReason == ErrorNone && !e.userCanceled && e.httpStatus == 0
    && !e.destReconciled && e.kicks == 0 && e.resumes == 0
  }

  /** Of a completed record with its file: all of its size has been received. */
  predicate ComesBackDone(e: Entry, done: seq<Saved>, disk: Disk) {
    && e.status == Completed && RecordOf(e) in done && e.id != "" && e.destPath != "" && e.destPath in disk.files
    && e.received == (if e.total > 0 then e.total else 0)
    && e.persisted && !e.userPaused && e.retriesLeft == 0
  }

  /** Of a paused record with its working file: the length of that file has been received,
      whatever the last session knew, and all retries are there again. */
  predicate ComesBackPaused(e: Entry, paused: seq<Saved>, disk: Disk) {
    && e.status == Paused && RecordOf(e) in paused && e.id != "" && e.destPath != "" && e.destPath in disk.parts
    && e.received == |disk.parts[e.destPath]|
    && !e.persisted && e.userPaused && e.retriesLeft == 2
  }

  /** The rows that a session starts with are exactly these. */
  lemma RestoredIff(done: seq<Saved>, paused: seq<Saved>, disk: Disk, e: Entry)
    ensures e in Restored(done, paused, disk).entries
       <==> AtRest(e) && (ComesBackDone(e, done, disk) || ComesBackPaused(e, paused, disk))
  {
    RestoredRows(done, paused, disk);
    hide Restored, Different, AllApart;
    if AtRest(e) && ComesBackDone(e, done, disk) {
      assert e == DoneRow(RecordOf(e));
    }
    if AtRest(e) && ComesBackPaused(e, paused, disk) {
      assert e == PausedRow(RecordOf(e), disk);
    }
  }

  lemma {:induction false} NoneActive(entries: seq<Entry>)
    requires forall e :: e in entries ==> e.status != Downloading
    ensures ActiveCount(entries) == 0
    decreases |entries|
  {
    if entries != [] {
      NoneActive(entries[..|entries| - 1]);
    }
  }

  lemma SoundRows(done: seq<Saved>, paused: seq<Saved>, disk: Disk, origin: Origin, lossless: bool, e: Entry)
    requires Sound(done, paused, disk, origin, lossless) && e in Restored(done, paused, disk).entries
    ensures RowOk(e, disk, origin, lossless) && (e.status == Completed || e.status == Paused)
  {
    RestoredRows(done, paused, disk);
    hide Restored, Different, AllApart;
  }

  lemma RestingRowsApart(s: State, origin: Origin, lossless: bool)
    requires Inv(s, origin, lossless) && forall e :: e in s.entries ==> Owns(e)
    ensures AllApart(s.entries)
  {
    hide RowOk;
    assert DistinctIds(s.entries) && Apart(s.entries);
  }

  lemma SoundDone(r: Saved, disk: Disk, origin: Origin, lossless: bool)
    requires RowOk(DoneRow(r), disk, origin, lossless)
    ensures r.destPath in disk.files && r.destPath !in disk.parts && disk.files[r.destPath] <= origin(r.url)
    ensures lossless ==> disk.files[r.destPath] == origin(r.url)
  {
  }

  lemma SoundPaused(r: Saved, disk: Disk, origin: Origin, lossless: bool)
    requires r.destPath in disk.parts && RowOk(PausedRow(r, disk), disk, origin, lossless)
    ensures disk.parts[r.destPath] <= origin(r.url)
  {
  }

  lemma RestingRow(done: seq<Saved>, paused: seq<Saved>, disk: Disk, e: Entry)
    requires e in Restored(done, paused, disk).entries
    ensures e.status == Completed || e.status == Paused
  {
    RestoredRows(done, paused, disk);
    hide Restored, Different, AllApart;
  }

  lemma RowsAreSound(done: seq<Saved>, paused: seq<Saved>, disk: Disk, origin: Origin, lossless: bool)
    requires Inv(Restored(done, paused, disk), origin, lossless)
    ensures Sound(done, paused, disk, origin, lossless)
  {
    RestoredRows(done, paused, disk);
    var s := Restored(done, paused, disk);
    assert s.disk == disk && forall e :: e in s.entries ==> RowOk(e, disk, origin, lossless);
    hide Restored, Different, RowOk, Inv, DoneRow, PausedRow, AllApart;
    forall e | e in s.entries
      ensures Owns(e)
    {
      RestingRow(done, paused, disk, e);
    }
    RestingRowsApart(s, origin, lossless);
    forall r | r in paused && LoadsPaused(r, disk)
      ensures disk.parts[r.destPath] <= origin(r.url)
    {
      SoundPaused(r, disk, origin, lossless);
    }
    forall r | r in done && LoadsWhole(r, disk)
      ensures r.destPath !in disk.parts && disk.files[r.destPath] <= origin(r.url)
      ensures lossless ==> disk.files[r.destPath] == origin(r.url)
    {
      SoundDone(r, disk, origin, lossless);
    }
  }

  /** The list that the program starts with meets all that holds of the engine in every
      run if and only if the records and the files are sound. */
  lemma RestoredKeepsIff(done: seq<Saved>, paused: seq<Saved>, disk: Disk, origin: Origin, lossless: bool)
    ensures Inv(Restored(done, paused, disk), origin, lossless) <==> Sound(done, paused, disk, origin, lossless)
  {
    var s := Restored(done, paused, disk);
    if Sound(done, paused, disk, origin, lossless) {
      forall e | e in s.entries
        ensures RowOk(e, disk, origin, lossless) && (e.status == Completed || e.status == Paused)
      {
        SoundRows(done, paused, disk, origin, lossless, e);
      }
      assert AllApart(s.entries);
      hide Restored, RowOk;
      NoneActive(s.entries);
    }
    if Inv(s, origin, lossless) {
      RowsAreSound(done, paused, disk, origin, lossless);
    }
  }
}
