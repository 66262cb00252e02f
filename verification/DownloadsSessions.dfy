/** Runs that go on after a restart: which records the settings hold, and exactly when
    they stop to describe the list. */
module DownloadsSessions {
  import opened Wrappers
  import opened Disks
  import opened Downloads
  import opened DownloadsInvariant
  import opened DownloadsTheorems
  import opened DownloadsRestarts
  import opened DownloadsFrames

  const MAX_PERSISTED_COMPLETED := 100

  /** The list, and the two lists of records in the settings. */
  datatype Session = Session(s: State, done: seq<Saved>, paused: seq<Saved>)

  /** One event, or the end of the program and its next start; `kept` is what is written
      when the completed rows are saved. */
  datatype Move = Happens(ev: Event, kept: seq<Saved>) | Restarts(kept: seq<Saved>)

  predicate HasStatus(s: State, id: Id, status: Status) {
    var i := IndexOf(s.entries, id);
    i >= 0 && s.entries[i].status == status
  }

  predicate AnyRow(s: State, p: Status -> bool) { exists e :: e in s.entries && p(e.status) }

  /** savePaused() is called. */
  predicate SavesPaused(s: State, ev: Event) {
    match ev
    case UserStart(id, url, _, _, _, _) => id != "" && url != "" && HasStatus(s, id, Paused)
    case UserRetry(id, _, _) =>
      id != "" && HasStatus(s, id, Paused) && s.entries[IndexOf(s.entries, id)].url != ""
    case UserPause(id, _) => HasStatus(s, id, Queued) || HasStatus(s, id, Downloading)
    case UserPauseAll => AnyRow(s, IsRunning)
    case UserResume(id, _) => HasStatus(s, id, Paused)
    case UserResumeAll(_) => AnyPaused(s.entries)
    case _ => false
  }

  /** savePersisted() is called: a row is completed, or completed rows go. */
  predicate SavesDone(s: State, ev: Event)
    requires WellFormed(s, ev)
  {
    match ev
    case UserRemove(id, _) => HasStatus(s, id, Completed)
    case UserClear => AnyRow(s, (st: Status) => st == Completed)
    case Ends(id, _, _) => HasStatus(Apply(s, ev), id, Completed)
    case _ => false
  }

  predicate DistinctRecords(saved: seq<Saved>) {
    forall i, j :: 0 <= i < j < |saved| ==> saved[i].id != saved[j].id
  }

  /** Each record is that of a row with this status. */
  predicate Backed(saved: seq<Saved>, entries: seq<Entry>, status: Status) {
    forall r :: r in saved ==> r in Records(entries, status)
  }

  /** The newest hundred of the completed rows, in any order. */
  predicate LegalKept(entries: seq<Entry>, kept: seq<Saved>) {
    |kept| <= MAX_PERSISTED_COMPLETED && DistinctRecords(kept) && Backed(kept, entries, Completed)
  }

  /** Stale rows are purged on the start, and the completed rows saved. */
  predicate Purges(se: Session) {
    |Restored(se.done, se.paused, se.s.disk).entries| < |Loaded(se.done, se.paused, se.s.disk).entries|
  }

  ghost predicate LegalMove(se: Session, m: Move, origin: Origin, lossless: bool) {
    match m
    case Restarts(kept) =>
      Purges(se) ==> LegalKept(Restored(se.done, se.paused, se.s.disk).entries, kept)
    case Happens(ev, kept) =>
      && Legal(se.s, ev, origin, lossless)
      && (SavesDone(se.s, ev) ==> LegalKept(Apply(se.s, ev).entries, kept))
  }

  function Moved(se: Session, m: Move): Session
    requires m.Happens? ==> WellFormed(se.s, m.ev)
  {
    match m
    case Restarts(kept) =>
      Session(Restored(se.done, se.paused, se.s.disk), if Purges(se) then kept else se.done, se.paused)
    case Happens(ev, kept) =>
      var s' := Apply(se.s, ev);
      Session(s', if SavesDone(se.s, ev) then kept else se.done,
              if SavesPaused(se.s, ev) then Records(s'.entries, Paused) else se.paused)
  }

  /** The settings describe rows of the list, each at most once. */
  predicate Current(se: Session) {
    && DistinctRecords(se.done) && Backed(se.done, se.s.entries, Completed)
    && DistinctRecords(se.paused) && Backed(se.paused, se.s.entries, Paused)
  }

  /** The row's record is in the settings. */
  predicate Recorded(se: Session, id: Id, status: Status) {
    HasStatus(se.s, id, status)
    && RecordOf(se.s.entries[IndexOf(se.s.entries, id)]) in (if status == Paused then se.paused else se.done)
  }

  /** The moves after which the settings hold a record of no row: a paused download is
      cancelled or removed, a completed one is downloaded again, or a restart drops a
      record that cannot be restored. None of them saves. */
  predicate Forgets(se: Session, m: Move) {
    match m
    case Restarts(_) =>
      || (exists r :: r in se.paused && !LoadsPaused(r, se.s.disk))
      || (!Purges(se) && exists r :: r in se.done && !LoadsWhole(r, se.s.disk))
    case Happens(ev, _) =>
      match ev
      case UserCancel(id, _) => Recorded(se, id, Paused)
      case UserRemove(id, _) => Recorded(se, id, Paused)
      case UserStart(id, url, _, _, _, _) => id != "" && url != "" && Recorded(se, id, Completed)
      case _ => false
  }

  // ---- One move ----------------------------------------------------------------------------

  lemma {:induction false} SameRecords(a: seq<Entry>, b: seq<Entry>, status: Status)
    requires |a| == |b|
    requires forall i :: 0 <= i < |a| && (a[i].status == status || b[i].status == status) ==> a[i] == b[i]
    ensures Records(a, status) == Records(b, status)
    decreases |a|
  {
    if a != [] {
      SameRecords(a[..|a| - 1], b[..|b| - 1], status);
    }
  }

  /** The slots save before they process the queue; what they save is the same after. */
  lemma ProcessKeepsRecords(s: State, env: Kicks, status: Status)
    requires status == Paused || status == Completed
    ensures Records(ProcessQueue(s, env).entries, status) == Records(s.entries, status)
  {
    var cut := ProcessIsFifo(s, 0, env);
    SameRecords(s.entries, ProcessQueue(s, env).entries, status);
  }

  lemma {:induction false} RecordsDistinct(entries: seq<Entry>, status: Status)
    requires DistinctIds(entries)
    ensures DistinctRecords(Records(entries, status))
    decreases |entries|
  {
    if entries != [] {
      var rest, last := entries[..|entries| - 1], entries[|entries| - 1];
      RecordsDistinct(rest, status);
      forall r | r in Records(rest, status)
        ensures r.id != last.id
      {
        var e :| e in rest && RecordOf(e) == r;
      }
    }
  }

  /** An event that neither saves the paused rows nor forgets one leaves every recorded
      one alone. */
  lemma PausedStays(se: Session, ev: Event, kept: seq<Saved>, e: Entry, origin: Origin, lossless: bool)
    requires Inv(se.s, origin, lossless) && Legal(se.s, ev, origin, lossless)
    requires e in se.s.entries && e.status == Paused && RecordOf(e) in se.paused
    requires !SavesPaused(se.s, ev) && !Forgets(se, Happens(ev, kept))
    ensures e in Apply(se.s, ev).entries
  {
    var s := se.s;
    FoundById(s, e, origin, lossless);
    RowIsOk(s, IndexOf(s.entries, e.id), origin, lossless);
    assert e.reply.None?;
    hide Inv, RowOk, ProcessQueue, Settle, Drain, PauseFrom, ResumeFrom, ClearBelow, LogoutFrom;
    if !Addresses(ev, e) {
      UnaddressedStays(s, ev, e);
    } else {
      assert Apply(s, ev) == s;
    }
  }

  lemma DoneStays(se: Session, ev: Event, kept: seq<Saved>, e: Entry, origin: Origin, lossless: bool)
    requires Inv(se.s, origin, lossless) && Legal(se.s, ev, origin, lossless)
    requires e in se.s.entries && e.status == Completed && RecordOf(e) in se.done
    requires !SavesDone(se.s, ev) && !Forgets(se, Happens(ev, kept))
    ensures e in Apply(se.s, ev).entries
  {
    var s := se.s;
    FoundById(s, e, origin, lossless);
    RowIsOk(s, IndexOf(s.entries, e.id), origin, lossless);
    assert e.reply.None?;
    hide Inv, RowOk, ProcessQueue, Settle, Drain, PauseFrom, ResumeFrom, ClearBelow, LogoutFrom;
    if !Addresses(ev, e) {
      UnaddressedStays(s, ev, e);
    } else {
      assert Apply(s, ev) == s;
    }
  }

  /** Two records of one list, or of both, are those of different rows. */
  lemma RowsDiffer(s: State, e: Entry, f: Entry, origin: Origin, lossless: bool)
    requires Inv(s, origin, lossless) && e in s.entries && f in s.entries && Owns(e) && Owns(f) && e != f
    ensures e.id != f.id && e.destPath != f.destPath
  {
    hide RowOk;
    assert DistinctIds(s.entries) && Apart(s.entries);
  }

  predicate IsKept(status: Status) { status == Completed || status == Paused }

  lemma RecordsDiffer(se: Session, r: Saved, t: Saved, a: Status, b: Status, origin: Origin, lossless: bool)
    requires Inv(se.s, origin, lossless) && IsKept(a) && IsKept(b)
    requires r in Records(se.s.entries, a) && t in Records(se.s.entries, b) && (a != b || r.id != t.id)
    ensures r.id != t.id && r.destPath != t.destPath
  {
    var e :| e in se.s.entries && e.status == a && RecordOf(e) == r;
    var f :| f in se.s.entries && f.status == b && RecordOf(f) == t;
    hide Inv;
    RowsDiffer(se.s, e, f, origin, lossless);
  }

  lemma CurrentIsDifferent(se: Session, origin: Origin, lossless: bool)
    requires Inv(se.s, origin, lossless) && Current(se)
    ensures Different(se.done + se.paused)
  {
    hide Inv, Records;
    var n, all := |se.done|, se.done + se.paused;
    forall i, j | 0 <= i < j < |all|
      ensures all[i].id != all[j].id && all[i].destPath != all[j].destPath
    {
      assert all[i] == if i < n then se.done[i] else se.paused[i - n];
      assert all[j] == if j < n then se.done[j] else se.paused[j - n];
      assert all[i] in Records(se.s.entries, if i < n then Completed else Paused);
      assert all[j] in Records(se.s.entries, if j < n then Completed else Paused);
      RecordsDiffer(se, all[i], all[j], if i < n then Completed else Paused, if j < n then Completed else Paused,
                    origin, lossless);
    }
  }

  lemma CurrentIsSound(se: Session, origin: Origin, lossless: bool)
    requires Inv(se.s, origin, lossless) && Current(se)
    ensures Sound(se.done, se.paused, se.s.disk, origin, lossless)
  {
    CurrentIsDifferent(se, origin, lossless);
    RestoredRows(se.done, se.paused, se.s.disk);
    hide Restored, AllApart, Different;
    forall r | r in se.paused && LoadsPaused(r, se.s.disk)
      ensures se.s.disk.parts[r.destPath] <= origin(r.url)
    {
      var e :| e in se.s.entries && e.status == Paused && RecordOf(e) == r;
      assert RowOk(e, se.s.disk, origin, lossless);
    }
    forall r | r in se.done && LoadsWhole(r, se.s.disk)
      ensures r.destPath !in se.s.disk.parts && se.s.disk.files[r.destPath] <= origin(r.url)
      ensures lossless ==> se.s.disk.files[r.destPath] == origin(r.url)
    {
      var e :| e in se.s.entries && e.status == Completed && RecordOf(e) == r;
      assert RowOk(e, se.s.disk, origin, lossless);
    }
  }

  /** While the settings describe the list, a restart keeps all that holds of it. */
  lemma MoveKeeps(se: Session, m: Move, origin: Origin, lossless: bool)
    requires Inv(se.s, origin, lossless) && Current(se) && LegalMove(se, m, origin, lossless)
    ensures Inv(Moved(se, m).s, origin, lossless)
  {
    hide Inv, Current, Sound;
    if m.Happens? {
      EventKeeps(se.s, m.ev, origin, lossless);
    } else {
      CurrentIsSound(se, origin, lossless);
      RestoredKeepsIff(se.done, se.paused, se.s.disk, origin, lossless);
    }
  }

  lemma EventKeepsCurrent(se: Session, ev: Event, kept: seq<Saved>, origin: Origin, lossless: bool)
    requires Inv(se.s, origin, lossless) && Current(se) && LegalMove(se, Happens(ev, kept), origin, lossless)
    requires !Forgets(se, Happens(ev, kept))
    ensures Current(Moved(se, Happens(ev, kept)))
  {
    EventKeeps(se.s, ev, origin, lossless);
    var s' := Apply(se.s, ev);
    assert DistinctIds(s'.entries);
    hide Inv, Apply, Forgets, SavesPaused, SavesDone, Legal;
    if SavesPaused(se.s, ev) {
      RecordsDistinct(s'.entries, Paused);
    } else {
      forall r | r in se.paused
        ensures r in Records(s'.entries, Paused)
      {
        var e :| e in se.s.entries && e.status == Paused && RecordOf(e) == r;
        PausedStays(se, ev, kept, e, origin, lossless);
      }
    }
    if !SavesDone(se.s, ev) {
      forall r | r in se.done
        ensures r in Records(s'.entries, Completed)
      {
        var e :| e in se.s.entries && e.status == Completed && RecordOf(e) == r;
        DoneStays(se, ev, kept, e, origin, lossless);
      }
    }
  }

  /** No row with the status has the record's id any more. */
  lemma NotBacked(saved: seq<Saved>, entries: seq<Entry>, status: Status, r: Saved)
    requires r in saved && forall e :: e in entries && e.id == r.id ==> e.status != status
    ensures !Backed(saved, entries, status)
  {
  }

  lemma CancelForgets(se: Session, id: Id, env: Kicks, origin: Origin, lossless: bool)
    requires Inv(se.s, origin, lossless) && Recorded(se, id, Paused)
    ensures !Backed(se.paused, Cancel(se.s, id, env).entries, Paused)
  {
    var s, i := se.s, IndexOf(se.s.entries, id);
    var s' := Cancel(s, id, env);
    CancelKeeps(s, id, env, origin, lossless);
    CancelRowTouches(s, i);
    var e := CancelRow(s, i).entries[i];
    hide CancelRow, ProcessQueue;
    ProcessHas(CancelRow(s, i), env, e);
    CancelRowId(s, i);
    forall f | f in s'.entries && f.id == id
      ensures f.status != Paused
    {
      FoundById(s', e, origin, lossless);
      FoundById(s', f, origin, lossless);
    }
    hide Inv;
    NotBacked(se.paused, s'.entries, Paused, RecordOf(s.entries[i]));
  }

  lemma CancelRowId(s: State, i: nat)
    requires i < |s.entries|
    ensures CancelRow(s, i).entries[i].id == s.entries[i].id
  {
  }

  lemma RemoveForgets(se: Session, id: Id, env: Kicks, origin: Origin, lossless: bool)
    requires Inv(se.s, origin, lossless) && Recorded(se, id, Paused)
    ensures !Backed(se.paused, Remove(se.s, id, env).entries, Paused)
  {
    RemoveLeavesNothing(se.s, id, env, origin, lossless);
    hide Inv, Remove;
    NotBacked(se.paused, Remove(se.s, id, env).entries, Paused,
              RecordOf(se.s.entries[IndexOf(se.s.entries, id)]));
  }

  lemma IdsDiffer(s: State, origin: Origin, lossless: bool)
    requires Inv(s, origin, lossless)
    ensures DistinctIds(s.entries)
  {
  }

  predicate NoneDone(entries: seq<Entry>, id: Id) { forall e :: e in entries && e.id == id ==> e.status != Completed }

  lemma ProcessCompletesNone(s: State, env: Kicks, id: Id)
    requires NoneDone(s.entries, id)
    ensures NoneDone(ProcessQueue(s, env).entries, id)
  {
    var cut := ProcessIsFifo(s, 0, env);
    var s' := ProcessQueue(s, env);
    hide ProcessQueue;
    forall f | f in s'.entries && f.id == id
      ensures f.status != Completed
    {
      var j :| 0 <= j < |s'.entries| && s'.entries[j] == f;
      assert KickedRow(s.entries[j], f) && s.entries[j] in s.entries;
    }
  }

  lemma ReplacedRow(s: State, i: nat, e: Entry)
    requires i < |s.entries| && DistinctIds(s.entries) && e.id == s.entries[i].id && e.status != Completed
    ensures NoneDone(Erase(s, i).entries + [e], e.id)
  {
    ErasedRows(s, s, i);
    hide Erase;
  }

  lemma StartForgets(se: Session, id: Id, url: Url, mime: string, size: int, dest: Path, env: Kicks,
                     origin: Origin, lossless: bool)
    requires Inv(se.s, origin, lossless) && id != "" && url != "" && Recorded(se, id, Completed)
    ensures !Backed(se.done, Start(se.s, id, url, mime, size, dest, env).entries, Completed)
  {
    var s, i := se.s, IndexOf(se.s.entries, id);
    IdsDiffer(s, origin, lossless);
    hide Inv, Erase, ProcessQueue, Records, Backed;
    var e := FreshEntry(id, url, mime, size, dest);
    ReplacedRow(s, i, e);
    ProcessCompletesNone(Erase(s, i).(entries := Erase(s, i).entries + [e]), env, id);
    NotBacked(se.done, Start(s, id, url, mime, size, dest, env).entries, Completed, RecordOf(s.entries[i]));
  }

  lemma EventForgets(se: Session, ev: Event, kept: seq<Saved>, origin: Origin, lossless: bool)
    requires Inv(se.s, origin, lossless) && LegalMove(se, Happens(ev, kept), origin, lossless)
    requires Forgets(se, Happens(ev, kept))
    ensures !Current(Moved(se, Happens(ev, kept)))
  {
    hide Inv, Cancel, Remove, Start, Backed;
    match ev
    case UserCancel(id, env) => CancelForgets(se, id, env, origin, lossless);
    case UserRemove(id, env) => RemoveForgets(se, id, env, origin, lossless);
    case UserStart(id, url, mime, size, dest, env) =>
      StartForgets(se, id, url, mime, size, dest, env, origin, lossless);
  }

  /** What a restart restores of the paused records, and of the completed ones. */
  lemma RestoredRecords(se: Session, r: Saved, disk: Disk)
    requires disk == se.s.disk
    ensures var rows := Restored(se.done, se.paused, disk).entries;
            && (r in se.paused && LoadsPaused(r, disk) ==> r in Records(rows, Paused))
            && (r in se.done && LoadsWhole(r, disk) ==> r in Records(rows, Completed))
            && (r in Records(rows, Paused) ==> LoadsPaused(r, disk))
            && (r in Records(rows, Completed) ==> LoadsWhole(r, disk))
  {
    var rows := Restored(se.done, se.paused, disk).entries;
    RestoredRows(se.done, se.paused, disk);
    hide Restored, Different, AllApart;
    if r in se.paused && LoadsPaused(r, disk) {
      assert RecordOf(PausedRow(r, disk)) == r;
    }
    if r in se.done && LoadsWhole(r, disk) {
      assert RecordOf(DoneRow(r)) == r;
    }
    if r in Records(rows, Paused) {
      var e :| e in rows && e.status == Paused && RecordOf(e) == r;
    }
    if r in Records(rows, Completed) {
      var e :| e in rows && e.status == Completed && RecordOf(e) == r;
    }
  }

  lemma RestartIff(se: Session, kept: seq<Saved>, origin: Origin, lossless: bool)
    requires Current(se) && LegalMove(se, Restarts(kept), origin, lossless)
    ensures Current(Moved(se, Restarts(kept))) <==> !Forgets(se, Restarts(kept))
  {
    hide Restored, Records, Purges;
    forall r: Saved {
      RestoredRecords(se, r, se.s.disk);
    }
  }

  /** Exactly these moves leave a record of no row in the settings. */
  lemma CurrentIff(se: Session, m: Move, origin: Origin, lossless: bool)
    requires Inv(se.s, origin, lossless) && Current(se) && LegalMove(se, m, origin, lossless)
    ensures Current(Moved(se, m)) <==> !Forgets(se, m)
  {
    hide Inv, Current, Forgets, LegalMove, Moved;
    if m.Restarts? {
      RestartIff(se, m.kept, origin, lossless);
    } else if Forgets(se, m) {
      EventForgets(se, m.ev, m.kept, origin, lossless);
    } else {
      EventKeepsCurrent(se, m.ev, m.kept, origin, lossless);
    }
  }

  // ---- Runs over several sessions -------------------------------------------------------------

  lemma LegalIsWellFormed(se: Session, m: Move, origin: Origin, lossless: bool)
    requires LegalMove(se, m, origin, lossless)
    ensures m.Happens? ==> WellFormed(se.s, m.ev)
  {
  }

  ghost predicate LegalMoves(se: Session, moves: seq<Move>, origin: Origin, lossless: bool)
    decreases |moves|
  {
    moves == []
    || (LegalMove(se, moves[0], origin, lossless) && LegalMoves(Moved(se, moves[0]), moves[1..], origin, lossless))
  }

  ghost function AfterMoves(se: Session, moves: seq<Move>, origin: Origin, lossless: bool): Session
    requires LegalMoves(se, moves, origin, lossless)
    decreases |moves|
  {
    if moves == [] then se else AfterMoves(Moved(se, moves[0]), moves[1..], origin, lossless)
  }

  /** No move of the run leaves a record of no row. */
  ghost predicate NothingForgotten(se: Session, moves: seq<Move>, origin: Origin, lossless: bool)
    requires LegalMoves(se, moves, origin, lossless)
    decreases |moves|
  {
    moves == []
    || (!Forgets(se, moves[0]) && NothingForgotten(Moved(se, moves[0]), moves[1..], origin, lossless))
  }

  /** In every state of the run the settings describe the list. */
  ghost predicate AlwaysCurrent(se: Session, moves: seq<Move>, origin: Origin, lossless: bool)
    requires LegalMoves(se, moves, origin, lossless)
    decreases |moves|
  {
    Current(se) && (moves == [] || AlwaysCurrent(Moved(se, moves[0]), moves[1..], origin, lossless))
  }

  lemma CurrentNow(se: Session, moves: seq<Move>, origin: Origin, lossless: bool)
    requires LegalMoves(se, moves, origin, lossless) && AlwaysCurrent(se, moves, origin, lossless)
    ensures Current(se)
  {
  }

  lemma {:induction false} AlwaysCurrentIff(se: Session, moves: seq<Move>, origin: Origin, lossless: bool)
    requires Inv(se.s, origin, lossless) && Current(se) && LegalMoves(se, moves, origin, lossless)
    ensures AlwaysCurrent(se, moves, origin, lossless) <==> NothingForgotten(se, moves, origin, lossless)
    ensures NothingForgotten(se, moves, origin, lossless) ==>
              Inv(AfterMoves(se, moves, origin, lossless).s, origin, lossless)
    decreases |moves|
  {
    if moves != [] {
      LegalIsWellFormed(se, moves[0], origin, lossless);
      var se' := Moved(se, moves[0]);
      hide Inv, Current, Moved, LegalMove, Forgets;
      MoveKeeps(se, moves[0], origin, lossless);
      CurrentIff(se, moves[0], origin, lossless);
      if Forgets(se, moves[0]) {
        if AlwaysCurrent(se', moves[1..], origin, lossless) {
          CurrentNow(se', moves[1..], origin, lossless);
        }
      } else {
        AlwaysCurrentIff(se', moves[1..], origin, lossless);
      }
    }
  }

  /** The first start. */
  function FirstSession(disk: Disk): Session { Session(State([], disk, []), [], []) }

  lemma FirstIsCurrent(disk: Disk, origin: Origin, lossless: bool)
    ensures Inv(FirstSession(disk).s, origin, lossless) && Current(FirstSession(disk))
  {
  }

  /** Resuming is byte-exact across restarts: over any number of sessions, if no record of
      no row was left in the settings, every live row's working file is a prefix of its
      resource, and a completed row has nothing but its resource at its destination, all
      of it when no tail write failed. */
  lemma EverySessionIsByteExact(disk: Disk, moves: seq<Move>, origin: Origin, lossless: bool, i: nat)
    requires LegalMoves(FirstSession(disk), moves, origin, lossless)
    requires NothingForgotten(FirstSession(disk), moves, origin, lossless)
    requires i < |AfterMoves(FirstSession(disk), moves, origin, lossless).s.entries|
    ensures var s := AfterMoves(FirstSession(disk), moves, origin, lossless).s;
            var e := s.entries[i];
            && DistinctIds(s.entries)
            && (IsLive(e.status) && e.destPath in s.disk.parts ==> s.disk.parts[e.destPath] <= origin(e.url))
            && (e.status == Completed ==>
                  && e.destPath !in s.disk.parts && e.destPath in s.disk.files
                  && s.disk.files[e.destPath] <= origin(e.url)
                  && (lossless ==> s.disk.files[e.destPath] == origin(e.url)))
  {
    FirstIsCurrent(disk, origin, lossless);
    hide Inv, Current, FirstSession;
    AlwaysCurrentIff(FirstSession(disk), moves, origin, lossless);
    var s := AfterMoves(FirstSession(disk), moves, origin, lossless).s;
    hide AfterMoves, NothingForgotten, LegalMoves;
    IdsDiffer(s, origin, lossless);
    RowIsOk(s, i, origin, lossless);
  }
}
