/** What each request of the user does to the whole list, and exactly when it does
    nothing. */
module DownloadsSlots {
  import opened Wrappers
  import opened Disks
  import opened Downloads
  import opened DownloadsInvariant
  import opened DownloadsTheorems
  import opened DownloadsOutcomes

  // ---- Starting and retrying ----------------------------------------------------------------

  /** The rows other than row i, in order. */
  function Others(entries: seq<Entry>, i: int): seq<Entry>
    requires i < |entries|
  {
    if i < 0 then entries else entries[..i] + entries[i + 1..]
  }

  /** Each row is as it was, or has been given a slot. */
  predicate Kicked(a: seq<Entry>, b: seq<Entry>) {
    |a| == |b| && forall j :: 0 <= j < |a| ==> KickedRow(a[j], b[j])
  }

  /** A new row for a download: nothing received, two retries, and the size that the
      request gives. */
  predicate IsNew(e: Entry, id: Id, url: Url, mime: string, size: int, dest: Path) {
    && e.id == id && e.url == url && e.mime == mime && e.destPath == dest && e.total == (if size > 0 then size else 0)
    && e.received == 0 && e.retriesLeft == 2 && !e.userPaused && !e.userCanceled && !e.persisted
    && e.status == Queued && e.errorReason == ErrorNone && e.file.None? && e.reply.None?
  }

  lemma FreshRowOk(id: Id, url: Url, mime: string, size: int, dest: Path, disk: Disk, origin: Origin, lossless: bool)
    requires dest !in disk.parts
    ensures var e := FreshEntry(id, url, mime, size, dest);
            RowOk(e, disk, origin, lossless) && IsNew(e, id, url, mime, size, dest)
  {
  }

  lemma ErasedStaysFresh(s: State, i: nat, p: Path)
    requires i < |s.entries| && FreshPath(s, p) && DistinctIds(s.entries)
    ensures FreshPath(Erase(s, i), p)
    ensures forall j :: 0 <= j < |Erase(s, i).entries| ==> Erase(s, i).entries[j].id != s.entries[i].id
  {
    ErasedRows(s, s, i);
    hide Erase;
  }

  lemma StartRows(s: State, id: Id, e: Entry, origin: Origin, lossless: bool)
    requires Inv(s, origin, lossless) && FreshPath(s, e.destPath) && e.id == id
    requires e.status == Queued && RowOk(e, s.disk, origin, lossless)
    ensures Core(s.(entries := Others(s.entries, IndexOf(s.entries, id)) + [e]), origin, lossless)
  {
    assert Core(s, origin, lossless) && DistinctIds(s.entries);
    var i := IndexOf(s.entries, id);
    hide Core, RowOk, FreshPath, IndexFrom, DistinctIds, Inv;
    if i >= 0 {
      ErasedStaysFresh(s, i, e.destPath);
      EraseKeeps(s, i, origin, lossless);
      AddKeeps(Erase(s, i), e, origin, lossless);
    } else {
      AddKeeps(s, e, origin, lossless);
    }
  }

  lemma KeptIsOthers(s: State, id: Id)
    ensures Kept(s, id) == Others(s.entries, IndexOf(s.entries, id))
  {
    hide IndexFrom;
  }

  /** A new row at the end of the queue. */
  lemma QueuedLast(s1: State, kept: seq<Entry>, e: Entry, env: Kicks, origin: Origin, lossless: bool)
    requires Core(s1, origin, lossless) && s1.entries == kept + [e] && e.status == Queued
    ensures var s' := ProcessQueue(s1, env);
            && s'.entries != [] && s'.timers == s1.timers && Kicked(kept, s'.entries[..|s'.entries| - 1])
            && Dispatched(e, s1.disk, |kept|, s', env)
  {
    hide Core, ProcessQueue, Dispatched, KickedRow;
    QueuedIsDispatched(s1, |kept|, env, origin, lossless);
    ServedRows(s1, env);
    SameLength(s1, env);
    forall j | 0 <= j < |kept|
      ensures KickedRow(kept[j], ProcessQueue(s1, env).entries[j])
    {
      assert s1.entries[j] == kept[j];
    }
  }

  /** Starting a video that has no row, or one that is over, drops that row and puts a new
      one at the end, which is given a slot or waits with every slot taken. */
  lemma StartAdds(s: State, id: Id, url: Url, mime: string, size: int, dest: Path, env: Kicks,
                  origin: Origin, lossless: bool)
    requires Inv(s, origin, lossless) && FreshPath(s, dest) && StartsFresh(s, id, url)
    ensures var s' := Start(s, id, url, mime, size, dest, env);
            var kept := Others(s.entries, IndexOf(s.entries, id));
            && s'.entries != [] && s'.timers == s.timers && Kicked(kept, s'.entries[..|s'.entries| - 1])
            && exists e :: IsNew(e, id, url, mime, size, dest) && Dispatched(e, s.disk, |kept|, s', env)
  {
    var e := FreshEntry(id, url, mime, size, dest);
    var kept := Others(s.entries, IndexOf(s.entries, id));
    assert dest !in s.disk.parts;
    FreshRowOk(id, url, mime, size, dest, s.disk, origin, lossless);
    StartQueues(s, id, url, mime, size, dest, env);
    KeptIsOthers(s, id);
    hide Inv, Core, FreshEntry, ProcessQueue, Start, Dispatched, FreshPath, Kicked, RowOk, Others, Kept;
    StartRows(s, id, e, origin, lossless);
    QueuedLast(s.(entries := kept + [e]), kept, e, env, origin, lossless);
  }

  /** Retrying a row that has failed or was cancelled starts it again from its own data. */
  lemma RetryAdds(s: State, id: Id, dest: Path, env: Kicks, origin: Origin, lossless: bool)
    requires Inv(s, origin, lossless) && FreshPath(s, dest)
    requires var i := IndexOf(s.entries, id);
             && i >= 0 && (s.entries[i].status == Failed || s.entries[i].status == Canceled)
             && id != "" && s.entries[i].url != ""
    ensures var i, s' := IndexOf(s.entries, id), Retry(s, id, dest, env);
            var o, kept := s.entries[i], Others(s.entries, i);
            && s'.entries != [] && s'.timers == s.timers && Kicked(kept, s'.entries[..|s'.entries| - 1])
            && exists e :: IsNew(e, id, o.url, o.mime, o.total, dest) && Dispatched(e, s.disk, |kept|, s', env)
  {
    var o := s.entries[IndexOf(s.entries, id)];
    hide Inv, Start, FreshPath, Kicked, Dispatched, IsNew, Others, IndexFrom;
    StartAdds(s, id, o.url, o.mime, o.total, dest, env, origin, lossless);
  }

  // ---- Stopping -----------------------------------------------------------------------------

  /** The row as a pause leaves it: everything it had, but no transfer. */
  function Paused(e: Entry): Entry {
    e.(reply := None, file := None, userPaused := true, status := Status.Paused, errorReason := ErrorNone)
  }

  /** From row k on exactly the running and queued rows are paused. */
  predicate AllPaused(a: seq<Entry>, b: seq<Entry>, k: nat) {
    && |a| == |b|
    && forall j :: 0 <= j < |a| ==> b[j] == if j >= k && IsRunning(a[j].status) then Paused(a[j]) else a[j]
  }

  lemma PausedOne(s: State, k: nat)
    requires k < |s.entries|
    ensures PauseRow(s, k) == s.(entries := s.entries[k := Paused(s.entries[k])])
  {
  }

  lemma {:induction false} PauseFromIs(s: State, k: nat)
    requires k <= |s.entries|
    ensures AllPaused(s.entries, PauseFrom(s, k).entries, k)
    ensures PauseFrom(s, k).disk == s.disk && PauseFrom(s, k).timers == s.timers
    decreases |s.entries| - k
  {
    hide PauseRow, Paused;
    if k < |s.entries| {
      if IsRunning(s.entries[k].status) {
        PausedOne(s, k);
        PauseFromIs(PauseRow(s, k), k + 1);
      } else {
        PauseFromIs(s, k + 1);
      }
    }
  }

  /** pauseAll() pauses exactly the running and queued rows, and keeps every file. */
  lemma PauseAllIs(s: State)
    ensures AllPaused(s.entries, PauseAll(s).entries, 0)
    ensures PauseAll(s).disk == s.disk && PauseAll(s).timers == s.timers
  {
    PauseFromIs(s, 0);
  }

  // ---- Dropping rows --------------------------------------------------------------------------

  /** Removing a row takes it out of the list, whatever its status, and at most starts
      rows that were waiting; a row that is over keeps its file. */
  lemma RemoveDrops(s: State, id: Id, env: Kicks, origin: Origin, lossless: bool)
    requires Inv(s, origin, lossless) && IndexOf(s.entries, id) >= 0
    ensures var i, s' := IndexOf(s.entries, id), Remove(s, id, env);
            && Kicked(Others(s.entries, i), s'.entries) && s'.timers == s.timers && IndexOf(s'.entries, id) == -1
            && (IsOver(s.entries[i].status) ==> s'.entries == Others(s.entries, i) && s'.disk == s.disk)
  {
    var i := IndexOf(s.entries, id);
    assert DistinctIds(s.entries);
    hide Inv;
    TeardownOthers(s, i);
    ErasedRows(s, Teardown(s, i, false), i);
    ErasedRows(s, s, i);
    var s2 := Erase(Teardown(s, i, false), i);
    assert Erase(s, i).entries == s2.entries == Others(s.entries, i);
    hide Erase, Teardown, ProcessQueue, Others, KickedRow;
    ProcessAddsNoId(s2, env, id);
    ServedRows(s2, env);
    SameLength(s2, env);
  }

  lemma TeardownOthers(s: State, i: nat)
    requires i < |s.entries|
    ensures var s1 := Teardown(s, i, false);
            && |s1.entries| == |s.entries| && s1.timers == s.timers
            && forall j :: 0 <= j < |s.entries| && j != i ==> s1.entries[j] == s.entries[j]
  {
    hide RemovePart;
  }

  /** The rows that are not over, in order. */
  function NotOver(entries: seq<Entry>): seq<Entry> {
    if entries == [] then []
    else (if IsOver(entries[0].status) then [] else [entries[0]]) + NotOver(entries[1..])
  }

  lemma {:induction false} NotOverJoin(a: seq<Entry>, b: seq<Entry>)
    ensures NotOver(a + b) == NotOver(a) + NotOver(b)
    decreases |a|
  {
    if a == [] {
      assert a + b == b;
    } else {
      assert (a + b)[1..] == a[1..] + b;
      NotOverJoin(a[1..], b);
    }
  }

  lemma {:induction false} ClearedBelow(s: State, n: nat)
    requires n <= |s.entries|
    ensures ClearBelow(s, n).entries == NotOver(s.entries[..n]) + s.entries[n..]
    decreases n
  {
    hide NotOver;
    if n > 0 {
      var last := s.entries[n - 1];
      assert s.entries[..n] == s.entries[..n - 1] + [last];
      NotOverJoin(s.entries[..n - 1], [last]);
      NotOverOne(last);
      if IsOver(last.status) {
        assert Erase(s, n - 1).entries[..n - 1] == s.entries[..n - 1];
        assert Erase(s, n - 1).entries[n - 1..] == s.entries[n..];
        ClearedBelow(Erase(s, n - 1), n - 1);
      } else {
        assert s.entries[n - 1..] == [last] + s.entries[n..];
        ClearedBelow(s, n - 1);
      }
    } else {
      NotOverNone();
      assert s.entries[..0] == [] && s.entries[0..] == s.entries;
    }
  }

  lemma NotOverNone()
    ensures NotOver([]) == []
  {
  }

  lemma NotOverOne(e: Entry)
    ensures NotOver([e]) == if IsOver(e.status) then [] else [e]
  {
    assert [e][1..] == [];
  }

  /** clearCompleted() leaves exactly the rows that are not over, in order, and every
      file. */
  lemma ClearLeaves(s: State)
    ensures ClearCompleted(s).entries == NotOver(s.entries)
    ensures ClearCompleted(s).disk == s.disk && ClearCompleted(s).timers == s.timers
  {
    ClearedBelow(s, |s.entries|);
    assert s.entries[..|s.entries|] == s.entries && s.entries[|s.entries|..] == [];
  }

  // ---- Requests that do nothing ------------------------------------------------------------------

  predicate NoRow(s: State, p: Status -> bool) { forall e :: e in s.entries ==> !p(e.status) }

  /** The row with this id, if there is one, is in none of these states. */
  predicate NotIn(s: State, id: Id, p: Status -> bool) {
    var i := IndexOf(s.entries, id);
    i >= 0 ==> !p(s.entries[i].status)
  }

  /** Requests that find nothing to do. */
  predicate Ignored(s: State, ev: Event) {
    match ev
    case UserStart(id, url, _, _, _, _) => id == "" || url == "" || !NotIn(s, id, IsRunning)
    case UserRetry(id, _, _) =>
      var i := IndexOf(s.entries, id);
      i < 0 || IsRunning(s.entries[i].status) || s.entries[i].status == Completed || id == "" || s.entries[i].url == ""
    case UserCancel(id, _) => NotIn(s, id, IsLive)
    case UserPause(id, _) => NotIn(s, id, IsRunning)
    case UserResume(id, _) => NotIn(s, id, x => x == Status.Paused)
    case UserRemove(id, _) => IndexOf(s.entries, id) < 0
    case UserPauseAll => NoRow(s, IsRunning)
    case UserResumeAll(_) => NoRow(s, x => x == Status.Paused)
    case UserClear => NoRow(s, IsOver)
    case SessionGone => NoRow(s, IsRunning)
    case _ => false
  }

  lemma {:induction false} LogoutNobody(s: State, k: nat)
    requires k <= |s.entries| && NoRow(s, IsRunning)
    ensures LogoutFrom(s, k) == s
    decreases |s.entries| - k
  {
    if k < |s.entries| {
      LogoutNobody(s, k + 1);
    }
  }

  lemma {:induction false} PauseNobody(s: State, k: nat)
    requires k <= |s.entries| && NoRow(s, IsRunning)
    ensures PauseFrom(s, k) == s
    decreases |s.entries| - k
  {
    if k < |s.entries| {
      PauseNobody(s, k + 1);
    }
  }

  lemma {:induction false} ClearNobody(s: State, n: nat)
    requires n <= |s.entries| && NoRow(s, IsOver)
    ensures ClearBelow(s, n) == s
    decreases n
  {
    if n > 0 {
      ClearNobody(s, n - 1);
    }
  }

  lemma IgnoredDoesNothing(s: State, ev: Event)
    requires WellFormed(s, ev) && Ignored(s, ev)
    ensures Apply(s, ev) == s
  {
    hide ProcessQueue, Teardown, IndexFrom, ResumeFrom;
    match ev
    case UserPauseAll => PauseNobody(s, 0);
    case UserClear => ClearNobody(s, |s.entries|);
    case SessionGone => LogoutNobody(s, 0);
    case _ =>
  }

  lemma {:induction false} NotOverHas(entries: seq<Entry>, e: Entry)
    requires e in NotOver(entries)
    ensures !IsOver(e.status)
    decreases |entries|
  {
    if e in NotOver(entries[1..]) {
      NotOverHas(entries[1..], e);
    }
  }

  /** Requests about all rows change some row of the kind they are about. */
  lemma BulkActs(s: State, ev: Event, origin: Origin, lossless: bool)
    requires Inv(s, origin, lossless) && !Ignored(s, ev)
    requires ev.UserPauseAll? || ev.UserResumeAll? || ev.UserClear? || ev.SessionGone?
    ensures Apply(s, ev) != s
  {
    hide Inv, PauseFrom, ResumeAll, ClearBelow, LogoutFrom, NotOver, Wakes;
    match ev
    case UserPauseAll =>
      PauseAllIs(s);
      var e :| e in s.entries && IsRunning(e.status);
      var i :| 0 <= i < |s.entries| && s.entries[i] == e;
    case UserResumeAll(env) =>
      var e :| e in s.entries && e.status == Status.Paused;
      var i :| 0 <= i < |s.entries| && s.entries[i] == e;
      ResumeAllWakes(s, env, i, origin, lossless);
    case UserClear =>
      ClearLeaves(s);
      var e :| e in s.entries && IsOver(e.status);
      if e in NotOver(s.entries) {
        NotOverHas(s.entries, e);
      }
    case SessionGone =>
      var e :| e in s.entries && IsRunning(e.status);
      var i :| 0 <= i < |s.entries| && s.entries[i] == e;
      LogoutLeavesNoParts(s, i, origin, lossless);
  }

  /** Requests about one row change that row. */
  lemma RequestActs(s: State, ev: Event, origin: Origin, lossless: bool)
    requires Inv(s, origin, lossless) && !Ignored(s, ev)
    requires ev.UserCancel? || ev.UserPause? || ev.UserResume? || ev.UserRemove?
    ensures Apply(s, ev) != s
  {
    hide Inv, Cancel, Pause, Resume, Remove, Wakes, Kicked, IndexFrom;
    match ev
    case UserCancel(id, env) => CancelLeavesNoPart(s, id, env, origin, lossless);
    case UserPause(id, env) => PauseKeepsPart(s, id, env, origin, lossless);
    case UserResume(id, env) =>
      ResumeWakes(s, id, env, origin, lossless);
      StillPaused(s, IndexOf(s.entries, id), env);
    case UserRemove(id, env) => RemoveDrops(s, id, env, origin, lossless);
  }

  /** The user's requests other than starts change nothing if and only if there is no row
      in the right state for them. */
  lemma IgnoredIff(s: State, ev: Event, origin: Origin, lossless: bool)
    requires Inv(s, origin, lossless) && (ev.UserCancel? || ev.UserPause? || ev.UserResume? || ev.UserRemove?
                                          || ev.UserPauseAll? || ev.UserResumeAll? || ev.UserClear? || ev.SessionGone?)
    ensures Apply(s, ev) == s <==> Ignored(s, ev)
  {
    hide Inv, Apply, Ignored;
    if Ignored(s, ev) {
      IgnoredDoesNothing(s, ev);
    } else if ev.UserCancel? || ev.UserPause? || ev.UserResume? || ev.UserRemove? {
      RequestActs(s, ev, origin, lossless);
    } else {
      BulkActs(s, ev, origin, lossless);
    }
  }
}
