/** What an event leaves alone: rows that it does not address, and paths that no row
    left behind. */
module DownloadsFrames {
  import opened Wrappers
  import opened Disks
  import opened Downloads
  import opened DownloadsInvariant
  import opened DownloadsTheorems

  /** The events that are about this row: those with its id, and those about all rows
      of its status. */
  predicate Addresses(ev: Event, e: Entry) {
    match ev
    case UserStart(id, _, _, _, _, _) => id == e.id
    case UserRetry(id, _, _) => id == e.id
    case UserCancel(id, _) => id == e.id
    case UserPause(id, _) => id == e.id
    case UserResume(id, _) => id == e.id
    case UserPauseAll => IsRunning(e.status)
    case UserResumeAll(_) => e.status == Paused
    case UserRemove(id, _) => id == e.id
    case UserClear => IsOver(e.status)
    case SessionGone => IsRunning(e.status)
    case TimerFires(_, _) => false
    case Head(id, _, _, _, _) => id == e.id
    case Body(id, _, _) => id == e.id
    case Length(id, _) => id == e.id
    case Ends(id, _, _) => id == e.id
  }

  lemma ProcessHas(s: State, env: Kicks, e: Entry)
    requires e in s.entries && e.status != Queued
    ensures e in ProcessQueue(s, env).entries
  {
    var i :| 0 <= i < |s.entries| && s.entries[i] == e;
    var cut := ProcessIsFifo(s, 0, env);
    assert ProcessQueue(s, env).entries[i] == e;
  }

  lemma PutHas(s: State, i: nat, x: Entry, e: Entry)
    requires i < |s.entries| && e in s.entries && s.entries[i] != e
    ensures e in Put(s, i, x).entries
  {
    var j :| 0 <= j < |s.entries| && s.entries[j] == e;
    assert Put(s, i, x).entries[j] == e;
  }

  lemma EraseHas(s: State, i: nat, e: Entry)
    requires i < |s.entries| && e in s.entries && s.entries[i] != e
    ensures e in Erase(s, i).entries
  {
    var j :| 0 <= j < |s.entries| && s.entries[j] == e;
    assert Erase(s, i).entries[if j < i then j else j - 1] == e;
  }

  /** At most row i has changed. */
  lemma OtherRowsHas(s: State, s': State, i: nat, e: Entry)
    requires i < |s.entries| == |s'.entries| && e in s.entries && s.entries[i] != e
    requires forall j :: 0 <= j < |s.entries| && j != i ==> s'.entries[j] == s.entries[j]
    ensures e in s'.entries
  {
    var j :| 0 <= j < |s.entries| && s.entries[j] == e;
    assert s'.entries[j] == e;
  }

  lemma ResumeHas(s: State, id: Id, env: Kicks, e: Entry)
    requires e in s.entries && e.status != Queued && e.id != id
    ensures e in Resume(s, id, env).entries
  {
    hide ProcessQueue;
    var i := IndexOf(s.entries, id);
    if i >= 0 && s.entries[i].status == Paused {
      PutHas(s, i, ResumeRow(s, i).entries[i], e);
      ProcessHas(ResumeRow(s, i), env, e);
    }
  }

  lemma StartHas(s: State, id: Id, url: Url, mime: string, size: int, dest: Path, env: Kicks, e: Entry)
    requires e in s.entries && e.status != Queued && e.id != id
    ensures e in Start(s, id, url, mime, size, dest, env).entries
  {
    hide ProcessQueue;
    var i := IndexOf(s.entries, id);
    if i >= 0 && s.entries[i].status == Paused {
      ResumeHas(s, id, env, e);
    } else if id != "" && url != "" && (i >= 0 ==> !IsRunning(s.entries[i].status)) {
      var s1 := if i >= 0 then Erase(s, i) else s;
      if i >= 0 {
        EraseHas(s, i, e);
      }
      ProcessHas(s1.(entries := s1.entries + [FreshEntry(id, url, mime, size, dest)]), env, e);
    }
  }

  lemma CancelHas(s: State, id: Id, env: Kicks, e: Entry)
    requires e in s.entries && e.status != Queued && e.id != id
    ensures e in Cancel(s, id, env).entries
  {
    hide ProcessQueue;
    var i := IndexOf(s.entries, id);
    if i >= 0 && IsLive(s.entries[i].status) {
      CancelRowTouches(s, i);
      OtherRowsHas(s, CancelRow(s, i), i, e);
      ProcessHas(CancelRow(s, i), env, e);
    }
  }

  lemma PauseHas(s: State, id: Id, env: Kicks, e: Entry)
    requires e in s.entries && e.status != Queued && e.id != id
    ensures e in Pause(s, id, env).entries
  {
    hide ProcessQueue;
    var i := IndexOf(s.entries, id);
    if i >= 0 && IsRunning(s.entries[i].status) {
      OtherRowsHas(s, PauseRow(s, i), i, e);
      ProcessHas(PauseRow(s, i), env, e);
    }
  }

  lemma RemoveHas(s: State, id: Id, env: Kicks, e: Entry)
    requires e in s.entries && e.status != Queued && e.id != id
    ensures e in Remove(s, id, env).entries
  {
    hide ProcessQueue;
    var i := IndexOf(s.entries, id);
    if i >= 0 {
      OtherRowsHas(s, Teardown(s, i, false), i, e);
      if IsLive(s.entries[i].status) {
        EraseHas(Teardown(s, i, false), i, e);
        ProcessHas(Erase(Teardown(s, i, false), i), env, e);
      } else {
        EraseHas(s, i, e);
      }
    }
  }

  lemma {:induction false} PauseFromHas(s: State, i: nat, e: Entry)
    requires e in s.entries && !IsRunning(e.status) && i <= |s.entries|
    ensures e in PauseFrom(s, i).entries
    decreases |s.entries| - i
  {
    if i < |s.entries| {
      if IsRunning(s.entries[i].status) {
        OtherRowsHas(s, PauseRow(s, i), i, e);
        PauseFromHas(PauseRow(s, i), i + 1, e);
      } else {
        PauseFromHas(s, i + 1, e);
      }
    }
  }

  lemma {:induction false} ResumeFromHas(s: State, i: nat, e: Entry)
    requires e in s.entries && e.status != Paused && i <= |s.entries|
    ensures e in ResumeFrom(s, i).entries
    decreases |s.entries| - i
  {
    if i < |s.entries| {
      if s.entries[i].status == Paused {
        PutHas(s, i, ResumeRow(s, i).entries[i], e);
        ResumeFromHas(ResumeRow(s, i), i + 1, e);
      } else {
        ResumeFromHas(s, i + 1, e);
      }
    }
  }

  lemma {:induction false} ClearHas(s: State, n: nat, e: Entry)
    requires e in s.entries && !IsOver(e.status) && n <= |s.entries|
    ensures e in ClearBelow(s, n).entries
    decreases n
  {
    if n > 0 {
      if IsOver(s.entries[n - 1].status) {
        EraseHas(s, n - 1, e);
        ClearHas(Erase(s, n - 1), n - 1, e);
      } else {
        ClearHas(s, n - 1, e);
      }
    }
  }

  lemma {:induction false} LogoutHas(s: State, i: nat, e: Entry)
    requires e in s.entries && !IsRunning(e.status) && i <= |s.entries|
    ensures e in LogoutFrom(s, i).entries
    decreases |s.entries| - i
  {
    if i < |s.entries| {
      if IsRunning(s.entries[i].status) {
        var s1 := Teardown(s, i, false);
        var s2 := Put(s1, i, SetStatus(s1.entries[i].(userCanceled := true), Canceled, ErrorNone));
        OtherRowsHas(s, s2, i, e);
        LogoutHas(s2, i + 1, e);
      } else {
        LogoutHas(s, i + 1, e);
      }
    }
  }

  /** A callback of another row. */
  lemma UndisturbedHas(s: State, id: Id, s': State, e: Entry)
    requires Undisturbed(s, id, s') && e in s.entries && e.id != id
    ensures e in s'.entries
  {
    var i := IndexOf(s.entries, id);
    if s'.entries != s.entries {
      PutHas(s, i, s'.entries[i], e);
    }
  }

  lemma FinishedHas(s: State, id: Id, f: FinishEnv, env: Kicks, e: Entry)
    requires f.tailTaken <= |f.tail| && e in s.entries && e.status != Queued && e.id != id
    ensures e in Finished(s, id, f, env).entries
  {
    var i := IndexOf(s.entries, id);
    if i >= 0 {
      assert Drain(s, i, f).entries == s.entries[i := Drain(s, i, f).entries[i]];
      hide Drain, Settle, ProcessQueue;
      var (s1, process) := Settle(Drain(s, i, f), i, f);
      SettledRow(Drain(s, i, f), i, f);
      OtherRowsHas(s, s1, i, e);
      if process {
        ProcessHas(s1, env, e);
      }
    }
  }

  /** A row that is not queued is left exactly as it is by every event that does not
      address it. */
  lemma UnaddressedStays(s: State, ev: Event, e: Entry)
    requires WellFormed(s, ev) && e in s.entries && e.status != Queued && !Addresses(ev, e)
    ensures e in Apply(s, ev).entries
  {
    hide Start, Cancel, Pause, Resume, Remove, ProcessQueue, MetaData, Chunk, Finished, PauseFrom, ResumeFrom,
         ClearBelow, LogoutFrom, Undisturbed;
    match ev
    case UserStart(id, url, mime, size, dest, env) => StartHas(s, id, url, mime, size, dest, env, e);
    case UserRetry(id, dest, env) =>
      var i := IndexOf(s.entries, id);
      if i >= 0 {
        var o := s.entries[i];
        StartHas(s, id, o.url, o.mime, o.total, dest, env, e);
      }
    case UserCancel(id, env) => CancelHas(s, id, env, e);
    case UserPause(id, env) => PauseHas(s, id, env, e);
    case UserResume(id, env) => ResumeHas(s, id, env, e);
    case UserPauseAll => PauseFromHas(s, 0, e);
    case UserResumeAll(env) =>
      ResumeFromHas(s, 0, e);
      ProcessHas(ResumeFrom(s, 0), env, e);
    case UserRemove(id, env) => RemoveHas(s, id, env, e);
    case UserClear => ClearHas(s, |s.entries|, e);
    case SessionGone => LogoutHas(s, 0, e);
    case TimerFires(t, env) => ProcessHas(s.(timers := RemoveTimer(s.timers, t)), env, e);
    case Head(id, code, full, sn, outcome) =>
      HeadUndisturbed(s, id, code, full, sn, outcome);
      UndisturbedHas(s, id, MetaData(s, id, code, full, sn, outcome), e);
    case Body(id, data, taken) =>
      BodyUndisturbed(s, id, data, taken);
      UndisturbedHas(s, id, Chunk(s, id, data, taken), e);
    case Length(id, total) =>
      if Progress(s, id, total) != s {
        PutHas(s, IndexOf(s.entries, id), Progress(s, id, total).entries[IndexOf(s.entries, id)], e);
      }
    case Ends(id, f, env) => FinishedHas(s, id, f, env, e);
  }

  // ---- One truncation an attempt ----------------------------------------------------------

  /** The row with this id has a live reply. */
  predicate Transferring(s: State, id: Id) {
    var i := IndexOf(s.entries, id);
    i >= 0 && s.entries[i].reply.Some?
  }

  /** The event empties the row's working file, or drops it, while something is in it. */
  predicate Truncates(s: State, ev: Event, id: Id)
    requires WellFormed(s, ev)
  {
    var i := IndexOf(s.entries, id);
    ev.Head? && ev.id == id && i >= 0 && s.entries[i].file.Some?
    && var p := s.entries[i].destPath;
    p in s.disk.parts && s.disk.parts[p] != []
    && (p !in Apply(s, ev).disk.parts || Apply(s, ev).disk.parts[p] != s.disk.parts[p])
  }

  /** The attempt's reply is dead, or its file is not one that was continued. */
  predicate Spent(e: Entry) {
    e.reply.Some? && (e.reply.value.aborted || e.file.None? || e.file.value.resumeFrom == 0)
  }

  /** Ids are distinct, so a row is found by its id. */
  lemma FoundById(s: State, e: Entry, origin: Origin, lossless: bool)
    requires Inv(s, origin, lossless) && e in s.entries
    ensures var i := IndexOf(s.entries, e.id); i >= 0 && s.entries[i] == e
  {
  }

  lemma HeadStaysSpent(s: State, id: Id, code: nat, full: nat, sn: Sniff, outcome: TruncateOutcome,
                       origin: Origin, lossless: bool)
    requires Inv(s, origin, lossless) && Legal(s, Head(id, code, full, sn, outcome), origin, lossless)
    requires var i := IndexOf(s.entries, id); i >= 0 && Spent(s.entries[i])
    ensures var i := IndexOf(s.entries, id);
            var s' := MetaData(s, id, code, full, sn, outcome);
            s'.entries[i].id == id && Spent(s'.entries[i])
  {
    hide Inv, IndexFrom, HeadSeen, IsFinalCode;
    RowIsOk(s, IndexOf(s.entries, id), origin, lossless);
    hide TruncatedTo0;
  }

  /** The row that a change has left without a reply stays so while the queue is
      processed. */
  lemma StoppedStays(s: State, env: Kicks, i: nat, s': State, origin: Origin, lossless: bool)
    requires i < |s.entries| && s.entries[i].reply.None? && s.entries[i].status != Queued
    requires s' == ProcessQueue(s, env) && Inv(s', origin, lossless)
    ensures !Transferring(s', s.entries[i].id)
  {
    hide Inv, ProcessQueue;
    ProcessHas(s, env, s.entries[i]);
    FoundById(s', s.entries[i], origin, lossless);
  }

  lemma StopEndsAttempt(s: State, ev: Event, id: Id, origin: Origin, lossless: bool)
    requires Inv(s, origin, lossless) && Legal(s, ev, origin, lossless) && Transferring(s, id)
    requires (ev.UserCancel? || ev.UserPause? || ev.UserRemove?) && ev.id == id
    ensures !Transferring(Apply(s, ev), id)
  {
    var i := IndexOf(s.entries, id);
    RowIsOk(s, i, origin, lossless);
    EventKeeps(s, ev, origin, lossless);
    hide Inv, Core, RowOk, ProcessQueue;
    match ev
    case UserCancel(_, env) => StoppedStays(CancelRow(s, i), env, i, Apply(s, ev), origin, lossless);
    case UserPause(_, env) => StoppedStays(PauseRow(s, i), env, i, Apply(s, ev), origin, lossless);
    case UserRemove(_, env) => RemoveLeavesNothing(s, id, env, origin, lossless);
  }

  lemma {:induction false} PauseFromStops(s: State, i: nat)
    requires i <= |s.entries|
    ensures forall j :: 0 <= j < i ==> PauseFrom(s, i).entries[j] == s.entries[j]
    ensures forall j :: i <= j < |s.entries| ==> PauseFrom(s, i).entries[j].status != Downloading
    decreases |s.entries| - i
  {
    if i < |s.entries| {
      PauseFromStops(if IsRunning(s.entries[i].status) then PauseRow(s, i) else s, i + 1);
    }
  }

  lemma BulkEndsAttempts(s: State, ev: Event, id: Id, origin: Origin, lossless: bool)
    requires Inv(s, origin, lossless) && Legal(s, ev, origin, lossless) && (ev.UserPauseAll? || ev.SessionGone?)
    ensures !Transferring(Apply(s, ev), id)
  {
    var s' := Apply(s, ev);
    EventKeeps(s, ev, origin, lossless);
    if ev.UserPauseAll? {
      PauseFromStops(s, 0);
    } else {
      LogoutKeeps(s, 0, origin, lossless);
    }
    var i := IndexOf(s'.entries, id);
    if i >= 0 {
      RowIsOk(s', i, origin, lossless);
    }
  }

  lemma EndEndsAttempt(s: State, id: Id, f: FinishEnv, env: Kicks, origin: Origin, lossless: bool)
    requires Inv(s, origin, lossless) && Legal(s, Ends(id, f, env), origin, lossless) && Transferring(s, id)
    ensures !Transferring(Finished(s, id, f, env), id)
  {
    hide Settle, Core, IndexFrom, IsLive;
    var i := IndexOf(s.entries, id);
    var s' := Finished(s, id, f, env);
    EventKeeps(s, Ends(id, f, env), origin, lossless);
    RowIsOk(s, i, origin, lossless);
    DrainKeeps(s, i, f, origin, lossless);
    var s1 := Drain(s, i, f);
    SettleRow(s1, i, f, origin, lossless);
    var (s2, process) := Settle(s1, i, f);
    hide Inv, Drain, ProcessQueue;
    if process {
      StoppedStays(s2, env, i, s', origin, lossless);
    } else {
      FoundById(s', s2.entries[i], origin, lossless);
    }
  }

  /** The row with this id has a spent reply. */
  predicate SpentRow(s: State, id: Id) {
    var i := IndexOf(s.entries, id);
    i >= 0 && Spent(s.entries[i])
  }

  lemma BodyStaysSpent(s: State, id: Id, data: Bytes, taken: nat)
    requires taken <= |data| && SpentRow(s, id)
    ensures var i := IndexOf(s.entries, id);
            var s' := Chunk(s, id, data, taken);
            s'.entries[i].id == id && Spent(s'.entries[i])
  {
    hide Written;
  }

  lemma LengthStaysSpent(s: State, id: Id, total: int)
    requires SpentRow(s, id)
    ensures var i := IndexOf(s.entries, id);
            var s' := Progress(s, id, total);
            s'.entries[i].id == id && Spent(s'.entries[i])
  {
  }

  lemma SpentById(s: State, e: Entry, origin: Origin, lossless: bool)
    requires Inv(s, origin, lossless) && e in s.entries && Spent(e)
    ensures SpentRow(s, e.id)
  {
    hide Inv, Spent;
    FoundById(s, e, origin, lossless);
  }

  lemma CallbackStaysSpent(s: State, ev: Event, id: Id, origin: Origin, lossless: bool)
    requires Inv(s, origin, lossless) && Legal(s, ev, origin, lossless) && SpentRow(s, id)
    requires (ev.Head? || ev.Body? || ev.Length?) && ev.id == id
    ensures SpentRow(Apply(s, ev), id)
  {
    EventKeeps(s, ev, origin, lossless);
    assert WellFormed(s, ev);
    assert SpentRow(s, id) ==> IndexOf(s.entries, id) >= 0 && Spent(s.entries[IndexOf(s.entries, id)]);
    hide Inv, Legal, MetaData, Chunk, Progress, Spent, SpentRow;
    if ev.Head? {
      HeadStaysSpent(s, id, ev.code, ev.full, ev.sniff, ev.outcome, origin, lossless);
    } else if ev.Body? {
      BodyStaysSpent(s, id, ev.data, ev.taken);
    } else {
      LengthStaysSpent(s, id, ev.total);
    }
    SpentById(Apply(s, ev), Apply(s, ev).entries[IndexOf(s.entries, id)], origin, lossless);
  }

  /** As long as the attempt lives, it stays spent. */
  lemma SpentStays(s: State, ev: Event, id: Id, origin: Origin, lossless: bool)
    requires Inv(s, origin, lossless) && Legal(s, ev, origin, lossless) && SpentRow(s, id)
    ensures Transferring(Apply(s, ev), id) ==> SpentRow(Apply(s, ev), id)
  {
    var e := s.entries[IndexOf(s.entries, id)];
    RowIsOk(s, IndexOf(s.entries, id), origin, lossless);
    assert e.status == Downloading && WellFormed(s, ev);
    EventKeeps(s, ev, origin, lossless);
    hide Inv, RowOk, MetaData, Chunk, Progress, Finished, ProcessQueue, PauseFrom, ResumeFrom, ClearBelow, LogoutFrom,
         Legal, Cancel, Pause, Remove;
    if !Addresses(ev, e) {
      UnaddressedStays(s, ev, e);
      FoundById(Apply(s, ev), e, origin, lossless);
    } else if ev.UserCancel? || ev.UserPause? || ev.UserRemove? {
      StopEndsAttempt(s, ev, id, origin, lossless);
    } else if ev.UserPauseAll? || ev.SessionGone? {
      BulkEndsAttempts(s, ev, id, origin, lossless);
    } else if ev.Ends? {
      EndEndsAttempt(s, id, ev.f, ev.env, origin, lossless);
    } else if ev.Head? || ev.Body? || ev.Length? {
      CallbackStaysSpent(s, ev, id, origin, lossless);
    } else {
      assert Apply(s, ev) == s;
    }
  }

  lemma HeadRowKeepsReply(s: State, i: nat, code: nat, full: nat, outcome: TruncateOutcome)
    requires i < |s.entries| && s.entries[i].reply.Some?
    ensures var e := HeadRow(s, i, code, full, outcome).entries[i]; e.id == s.entries[i].id && e.reply.Some?
    ensures var e := Refused(s, i, code).entries[i]; e.id == s.entries[i].id && e.reply.Some?
  {
    hide TruncatedTo0;
  }

  lemma ReconcileKeepsReply(s: State, i: nat, sn: Sniff)
    requires i < |s.entries|
    ensures var e := Reconcile(s, i, sn).entries[i]; e.id == s.entries[i].id && e.reply == s.entries[i].reply
  {
    hide Opened;
  }

  lemma HeadKeepsRow(s: State, id: Id, code: nat, full: nat, sn: Sniff, outcome: TruncateOutcome)
    requires var i := IndexOf(s.entries, id); i >= 0 && s.entries[i].reply.Some?
    ensures var i := IndexOf(s.entries, id);
            var s' := MetaData(s, id, code, full, sn, outcome);
            i < |s'.entries| && s'.entries[i].id == id && s'.entries[i].reply.Some?
  {
    var i := IndexOf(s.entries, id);
    HeadSplits(s, id, code, full, sn, outcome);
    HeadRowKeepsReply(s, i, code, full, outcome);
    HeadRowUndisturbed(s, i, code, full, outcome);
    RefusedUndisturbed(s, i, code);
    hide MetaData, HeadRow, Reconcile, Refused;
    ReconcileKeepsReply(HeadRow(s, i, code, full, outcome), i, sn);
    ReconcileUndisturbed(HeadRow(s, i, code, full, outcome), i, sn);
  }

  /** An attempt that truncates was not spent before, and is after. */
  lemma TruncatingSpends(s: State, id: Id, code: nat, full: nat, sn: Sniff, outcome: TruncateOutcome,
                         origin: Origin, lossless: bool)
    requires Inv(s, origin, lossless) && Legal(s, Head(id, code, full, sn, outcome), origin, lossless)
    requires Truncates(s, Head(id, code, full, sn, outcome), id)
    ensures !SpentRow(s, id) && SpentRow(MetaData(s, id, code, full, sn, outcome), id)
  {
    var i := IndexOf(s.entries, id);
    var s' := MetaData(s, id, code, full, sn, outcome);
    RowIsOk(s, i, origin, lossless);
    EventKeeps(s, Head(id, code, full, sn, outcome), origin, lossless);
    hide Inv, MetaData, RetriesCounted;
    TruncatesOnceBeforeTheBody(s, id, code, full, sn, outcome, origin, lossless);
    HeadKeepsRow(s, id, code, full, sn, outcome);
    FoundById(s', s'.entries[i], origin, lossless);
  }

  /** The attempt lasts: in every state of the run the row has a live reply. */
  ghost predicate Lasts(s: State, evs: seq<Event>, id: Id, origin: Origin, lossless: bool)
    requires LegalRun(s, evs, origin, lossless)
    decreases |evs|
  {
    Transferring(s, id) && (evs == [] || Lasts(Apply(s, evs[0]), evs[1..], id, origin, lossless))
  }

  ghost function Truncations(s: State, evs: seq<Event>, id: Id, origin: Origin, lossless: bool): nat
    requires LegalRun(s, evs, origin, lossless)
    decreases |evs|
  {
    if evs == [] then 0
    else One(Truncates(s, evs[0], id)) + Truncations(Apply(s, evs[0]), evs[1..], id, origin, lossless)
  }

  /** Whatever happens between the start and the end of a reply, to this row and to
      others, its working file is truncated at most once. */
  lemma {:induction false} TruncatesAtMostOnce(s: State, evs: seq<Event>, id: Id, origin: Origin, lossless: bool)
    requires Inv(s, origin, lossless) && LegalRun(s, evs, origin, lossless) && Lasts(s, evs, id, origin, lossless)
    ensures Truncations(s, evs, id, origin, lossless) <= 1
    ensures SpentRow(s, id) ==> Truncations(s, evs, id, origin, lossless) == 0
    decreases |evs|
  {
    if evs != [] {
      var ev := evs[0];
      assert WellFormed(s, ev) && (Truncates(s, ev, id) ==> ev.Head? && ev.id == id);
      hide Inv, Apply, Legal, Truncates, SpentRow, Transferring;
      EventKeeps(s, ev, origin, lossless);
      TruncatesAtMostOnce(Apply(s, ev), evs[1..], id, origin, lossless);
      if Truncates(s, ev, id) {
        TruncatingSpends(s, id, ev.code, ev.full, ev.sniff, ev.outcome, origin, lossless);
      }
      if SpentRow(s, id) {
        SpentStays(s, ev, id, origin, lossless);
      }
    }
  }
}
