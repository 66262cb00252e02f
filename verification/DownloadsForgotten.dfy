/** Two runs after which a restart goes wrong: the settings still hold a record of a row
    that is no longer there. */
module DownloadsForgotten {
  import opened Wrappers
  import opened Disks
  import opened Downloads
  import opened DownloadsInvariant
  import opened DownloadsSessions

  /** A run from an empty disk that leads to this session. */
  ghost predicate LeadsTo(moves: seq<Move>, se: Session, origin: Origin) {
    && LegalMoves(FirstSession(Disk(map[], map[])), moves, origin, true)
    && AfterMoves(FirstSession(Disk(map[], map[])), moves, origin, true) == se
  }

  lemma {:induction false} More(se: Session, moves: seq<Move>, m: Move, origin: Origin)
    requires LegalMoves(se, moves, origin, true) && LegalMove(AfterMoves(se, moves, origin, true), m, origin, true)
    ensures LegalMoves(se, moves + [m], origin, true)
    ensures AfterMoves(se, moves + [m], origin, true) == Moved(AfterMoves(se, moves, origin, true), m)
    decreases |moves|
  {
    if moves == [] {
      assert moves + [m] == [m] && [m][1..] == [];
    } else {
      assert (moves + [m])[1..] == moves[1..] + [m];
      LegalIsWellFormed(se, moves[0], origin, true);
      hide Moved, LegalMove;
      More(Moved(se, moves[0]), moves[1..], m, origin);
    }
  }

  lemma OneMore(moves: seq<Move>, se: Session, m: Move, se': Session, origin: Origin) returns (moves': seq<Move>)
    requires LeadsTo(moves, se, origin) && LegalMove(se, m, origin, true) && se' == Moved(se, m)
    ensures LeadsTo(moves', se', origin) && moves' == moves + [m]
  {
    hide LegalMove, Moved;
    More(FirstSession(Disk(map[], map[])), moves, m, origin);
    moves' := moves + [m];
  }

  /** Every answer of the system is good. */
  const GOOD: Kicks := (id: Id) => KickEnv(-1, true, true)

  const PLAIN := Sniff("", false, "", true)

  function Fresh(id: Id, url: Url, dest: Path): Entry { FreshEntry(id, url, "", 0, dest) }

  /** The row as it is when its transfer has started with an empty file. */
  function Started(id: Id, url: Url, dest: Path): Entry {
    Fresh(id, url, dest).(status := Downloading, kicks := 1, file := Some(Handle(dest, 0, 0, 0)),
                          reply := Some(Reply(0, 0, 0, false)))
  }

  lemma {:induction false} ActiveAreRows(entries: seq<Entry>)
    ensures ActiveCount(entries) <= |entries|
    decreases |entries|
  {
    if entries != [] {
      ActiveAreRows(entries[..|entries| - 1]);
    }
  }

  lemma Go(moves: seq<Move>, se: Session, m: Move, origin: Origin) returns (moves': seq<Move>, se': Session)
    requires LeadsTo(moves, se, origin) && LegalMove(se, m, origin, true)
    ensures m.Happens? ==> WellFormed(se.s, m.ev)
    ensures LeadsTo(moves', se', origin) && moves' == moves + [m] && se' == Moved(se, m)
  {
    LegalIsWellFormed(se, m, origin, true);
    hide LegalMove, Moved, LeadsTo;
    se' := Moved(se, m);
    moves' := OneMore(moves, se, m, se', origin);
  }

  lemma StartRuns(s: State, id: Id, url: Url, dest: Path)
    requires |s.entries| <= 1 && IndexOf(s.entries, id) == -1 && id != "" && url != "" && dest !in s.disk.parts
    requires forall e :: e in s.entries ==> e.status != Queued
    ensures Start(s, id, url, "", 0, dest, GOOD)
         == State(s.entries + [Started(id, url, dest)], s.disk.(parts := s.disk.parts[dest := []]), s.timers)
  {
    var s1 := s.(entries := s.entries + [Fresh(id, url, dest)]);
    var n := |s.entries|;
    ActiveAreRows(s1.entries);
    hide ActiveCount;
    var s2 := KickOff(s1, n, GOOD(id));
    assert s2.entries == s.entries + [Started(id, url, dest)];
    assert ProcessFrom(s1, n, GOOD) == ProcessFrom(s2, n + 1, GOOD) == s2;
    assert ProcessFrom(s1, 0, GOOD) == s2;
  }

  // ---- A cancelled download takes over another one's file -------------------------------------

  function Disk1(dest: Path, data: Bytes): Disk { Disk(map[dest := data], map[]) }

  const EMPTY_DISK := Disk(map[], map[])

  function PausedA(a: Id, urlA: Url, dest: Path): Entry {
    Started(a, urlA, dest).(status := Paused, userPaused := true, file := None, reply := None)
  }

  function CanceledA(a: Id, urlA: Url, dest: Path): Entry {
    PausedA(a, urlA, dest).(status := Canceled, userPaused := false, userCanceled := true)
  }

  lemma {:induction false} NothingToServe(s: State, i: nat, env: Kicks)
    requires i <= |s.entries| && forall j :: i <= j < |s.entries| ==> s.entries[j].status != Queued
    ensures ProcessFrom(s, i, env) == s
    decreases |s.entries| - i
  {
    if i < |s.entries| {
      NothingToServe(s, i + 1, env);
    }
  }

  lemma PauseRuns(a: Id, urlA: Url, dest: Path, d: Disk)
    ensures Pause(State([Started(a, urlA, dest)], d, []), a, GOOD) == State([PausedA(a, urlA, dest)], d, [])
  {
    var s := State([Started(a, urlA, dest)], d, []);
    assert PauseRow(s, 0) == State([PausedA(a, urlA, dest)], d, []);
    NothingToServe(PauseRow(s, 0), 0, GOOD);
    hide PauseRow, ProcessFrom;
    assert IndexOf(s.entries, a) == 0;
  }

  lemma CancelRuns(a: Id, urlA: Url, dest: Path, d: Disk)
    ensures Cancel(State([PausedA(a, urlA, dest)], d, []), a, GOOD)
         == State([CanceledA(a, urlA, dest)], RemovePart(d, dest), [])
  {
    var s := State([PausedA(a, urlA, dest)], d, []);
    assert CancelRow(s, 0) == State([CanceledA(a, urlA, dest)], RemovePart(d, dest), []);
    NothingToServe(CancelRow(s, 0), 0, GOOD);
    hide CancelRow, ProcessFrom;
    assert IndexOf(s.entries, a) == 0;
  }

  function RecordA(a: Id, urlA: Url, dest: Path): Saved { Saved(a, urlA, dest, "", 0) }

  lemma OneRecord(e: Entry, status: Status)
    ensures Records([e], status) == if e.status == status then [RecordOf(e)] else []
  {
    assert [e][..0] == [];
  }

  lemma PauseMoves(a: Id, urlA: Url, dest: Path, d: Disk, done: seq<Saved>, origin: Origin)
    ensures var se, m := Session(State([Started(a, urlA, dest)], d, []), done, []), Happens(UserPause(a, GOOD), []);
            && LegalMove(se, m, origin, true)
            && Moved(se, m) == Session(State([PausedA(a, urlA, dest)], d, []), done, [RecordA(a, urlA, dest)])
  {
    PauseRuns(a, urlA, dest, d);
    OneRecord(PausedA(a, urlA, dest), Paused);
    hide Pause, Records;
    assert IndexOf([Started(a, urlA, dest)], a) == 0;
  }

  lemma CancelMoves(a: Id, urlA: Url, dest: Path, origin: Origin)
    ensures var se, m := Session(State([PausedA(a, urlA, dest)], Disk1(dest, []), []), [], [RecordA(a, urlA, dest)]),
                         Happens(UserCancel(a, GOOD), []);
            && LegalMove(se, m, origin, true)
            && Moved(se, m)
               == Session(State([CanceledA(a, urlA, dest)], EMPTY_DISK, []), [], [RecordA(a, urlA, dest)])
  {
    CancelRuns(a, urlA, dest, Disk1(dest, []));
    assert RemovePart(Disk1(dest, []), dest) == EMPTY_DISK;
    hide Cancel;
  }

  lemma Canceled1(a: Id, urlA: Url, dest: Path, origin: Origin) returns (moves: seq<Move>)
    requires a != "" && urlA != "" && dest != ""
    ensures LeadsTo(moves, Session(State([CanceledA(a, urlA, dest)], EMPTY_DISK, []), [], [RecordA(a, urlA, dest)]),
                    origin)
    ensures moves == [] + [Happens(UserStart(a, urlA, "", 0, dest, GOOD), [])] + [Happens(UserPause(a, GOOD), [])]
                        + [Happens(UserCancel(a, GOOD), [])]
  {
    var se := FirstSession(EMPTY_DISK);
    moves := [];
    assert LeadsTo(moves, se, origin);
    StartRuns(se.s, a, urlA, dest);
    var se1 := Session(State([Started(a, urlA, dest)], Disk1(dest, []), []), [], []);
    hide LeadsTo, Start;
    moves := OneMore(moves, se, Happens(UserStart(a, urlA, "", 0, dest, GOOD), []), se1, origin);
    PauseMoves(a, urlA, dest, Disk1(dest, []), [], origin);
    CancelMoves(a, urlA, dest, origin);
    hide Moved, LegalMove;
    moves, se := Go(moves, se1, Happens(UserPause(a, GOOD), []), origin);
    moves, se := Go(moves, se, Happens(UserCancel(a, GOOD), []), origin);
  }

  /** Both rows once the second transfer has its head. */
  function Flowing2(a: Id, b: Id, urlA: Url, urlB: Url, dest: Path): State {
    State([CanceledA(a, urlA, dest),
           Started(b, urlB, dest).(reply := Some(Reply(0, 200, 0, false)), destReconciled := true)],
          Disk1(dest, []), [])
  }

  lemma SecondStartMoves(a: Id, b: Id, urlA: Url, urlB: Url, dest: Path, r: Saved, origin: Origin)
    requires a != b && b != "" && urlB != ""
    ensures var se := Session(State([CanceledA(a, urlA, dest)], EMPTY_DISK, []), [], [r]);
            var m := Happens(UserStart(b, urlB, "", 0, dest, GOOD), []);
            && LegalMove(se, m, origin, true)
            && Moved(se, m) == Session(State([CanceledA(a, urlA, dest), Started(b, urlB, dest)], Disk1(dest, []), []),
                                       [], [r])
  {
    var s := State([CanceledA(a, urlA, dest)], EMPTY_DISK, []);
    StartRuns(s, b, urlB, dest);
    assert s.entries + [Started(b, urlB, dest)] == [CanceledA(a, urlA, dest), Started(b, urlB, dest)];
    hide Start;
  }

  lemma HeadMoves(a: Id, b: Id, urlA: Url, urlB: Url, dest: Path, r: Saved, origin: Origin)
    requires a != b && dest != ""
    ensures var se := Session(State([CanceledA(a, urlA, dest), Started(b, urlB, dest)], Disk1(dest, []), []), [], [r]);
            var m := Happens(Head(b, 200, 0, PLAIN, Truncated), []);
            && LegalMove(se, m, origin, true)
            && Moved(se, m) == Session(Flowing2(a, b, urlA, urlB, dest), [], [r])
  {
    var s := State([CanceledA(a, urlA, dest), Started(b, urlB, dest)], Disk1(dest, []), []);
    assert s.entries[0].id == a && s.entries[1].id == b;
    assert IndexOf(s.entries, b) == 1;
    var e := s.entries[1].(reply := Some(Reply(0, 200, 0, false)));
    assert Put(s, 1, e).entries == [CanceledA(a, urlA, dest), e];
    assert MetaData(s, b, 200, 0, PLAIN, Truncated) == Flowing2(a, b, urlA, urlB, dest);
    hide MetaData;
  }

  lemma BodyMoves(a: Id, b: Id, urlA: Url, urlB: Url, dest: Path, data: Bytes, r: Saved, origin: Origin)
    requires a != b && data != [] && data <= origin(urlB)
    ensures var se := Session(Flowing2(a, b, urlA, urlB, dest), [], [r]);
            var m := Happens(Body(b, data, |data|), []);
            && LegalMove(se, m, origin, true)
            && Moved(se, m).s.disk == Disk1(dest, data) && Moved(se, m).done == [] && Moved(se, m).paused == [r]
  {
    var s := Flowing2(a, b, urlA, urlB, dest);
    assert s.entries[0].id == a && s.entries[1].id == b;
    assert IndexOf(s.entries, b) == 1;
    assert data == origin(urlB)[0..|data|] && [] + data[..|data|] == data;
    assert Chunk(s, b, data, |data|).disk.parts == map[dest := data];
    hide Chunk;
  }

  lemma RestartMoves(s: State, dest: Path, data: Bytes, r: Saved, origin: Origin)
    requires s.disk == Disk1(dest, data) && r.destPath == dest && dest != "" && r.id != ""
    ensures var se := Session(s, [], [r]);
            && LegalMove(se, Restarts([]), origin, true)
            && Moved(se, Restarts([])) == Session(State([PausedRow(r, s.disk)], s.disk, []), [], [r])
  {
    assert [r][..0] == [];
    assert LoadPaused([r], s.disk) == [PausedRow(r, s.disk)];
    var t := Loaded([], [r], s.disk);
    assert PurgeBelow(t, 1) == PurgeBelow(t, 0) == t;
  }

  /** One file is started, paused and cancelled, which leaves its record in the settings;
      another one is started at the same path and receives some bytes; then the program
      is started again. */
  function TakingOver(a: Id, b: Id, urlA: Url, urlB: Url, dest: Path, data: Bytes): seq<Move> {
    [] + [Happens(UserStart(a, urlA, "", 0, dest, GOOD), [])] + [Happens(UserPause(a, GOOD), [])]
       + [Happens(UserCancel(a, GOOD), [])] + [Happens(UserStart(b, urlB, "", 0, dest, GOOD), [])]
       + [Happens(Head(b, 200, 0, PLAIN, Truncated), [])] + [Happens(Body(b, data, |data|), [])] + [Restarts([])]
  }

  /** Whatever the two files hold: after this run, which is legal and loses no tail, the
      restored row of the first one has a working file that is no prefix of its resource,
      and resuming it will ask for the rest of the wrong file. */
  lemma CancelledTakesOver(a: Id, b: Id, urlA: Url, urlB: Url, dest: Path, data: Bytes, origin: Origin)
    returns (moves: seq<Move>, se: Session)
    requires a != b && a != "" && b != "" && urlA != "" && urlB != "" && dest != ""
    requires data <= origin(urlB) && !(data <= origin(urlA))
    ensures moves == TakingOver(a, b, urlA, urlB, dest, data) && LeadsTo(moves, se, origin)
    ensures |se.s.entries| == 1
    ensures var e := se.s.entries[0];
            && e.id == a && e.url == urlA && e.status == Paused && e.destPath in se.s.disk.parts
            && se.s.disk.parts[e.destPath] == data && !Inv(se.s, origin, true)
  {
    var r := RecordA(a, urlA, dest);
    moves := Canceled1(a, urlA, dest, origin);
    se := Session(State([CanceledA(a, urlA, dest)], EMPTY_DISK, []), [], [r]);
    hide LeadsTo, LegalMove, Moved;
    SecondStartMoves(a, b, urlA, urlB, dest, r, origin);
    moves, se := Go(moves, se, Happens(UserStart(b, urlB, "", 0, dest, GOOD), []), origin);
    HeadMoves(a, b, urlA, urlB, dest, r, origin);
    moves, se := Go(moves, se, Happens(Head(b, 200, 0, PLAIN, Truncated), []), origin);
    BodyMoves(a, b, urlA, urlB, dest, data, r, origin);
    moves, se := Go(moves, se, Happens(Body(b, data, |data|), []), origin);
    RestartMoves(se.s, dest, data, r, origin);
    moves, se := Go(moves, se, Restarts([]), origin);
    assert !RowOk(se.s.entries[0], se.s.disk, origin, true);
  }

  // ---- A download that is there twice -----------------------------------------------------------

  /** A file is downloaded, downloaded again at another path, and paused; then the
      program is started again. */
  function Doubling(a: Id, url: Url, dest: Path, dest2: Path, whole: Bytes): seq<Move> {
    [] + [Happens(UserStart(a, url, "", 0, dest, GOOD), [])] + [Happens(Head(a, 200, 0, PLAIN, Truncated), [])]
       + [Happens(Ends(a, FinishEnv(NoError, whole, |whole|, true), GOOD), [Saved(a, url, dest, "", |whole|)])]
       + [Happens(UserStart(a, url, "", 0, dest2, GOOD), [])] + [Happens(UserPause(a, GOOD), [])] + [Restarts([])]
  }

  function FlowingRow(a: Id, url: Url, dest: Path): Entry {
    Started(a, url, dest).(reply := Some(Reply(0, 200, 0, false)), destReconciled := true)
  }

  function DoneA(a: Id, url: Url, dest: Path, n: nat): Entry {
    FlowingRow(a, url, dest).(reply := None, file := None, received := n, total := n, status := Completed)
  }

  /** The finished file, and the working file of the second download. */
  function BothFiles(dest: Path, dest2: Path, whole: Bytes): Disk { Disk(map[dest2 := []], map[dest := whole]) }

  lemma HeadAloneMoves(a: Id, url: Url, dest: Path, origin: Origin)
    requires dest != ""
    ensures var se := Session(State([Started(a, url, dest)], Disk1(dest, []), []), [], []);
            var m := Happens(Head(a, 200, 0, PLAIN, Truncated), []);
            && LegalMove(se, m, origin, true)
            && Moved(se, m) == Session(State([FlowingRow(a, url, dest)], Disk1(dest, []), []), [], [])
  {
    var s := State([Started(a, url, dest)], Disk1(dest, []), []);
    assert IndexOf(s.entries, a) == 0;
    assert MetaData(s, a, 200, 0, PLAIN, Truncated) == State([FlowingRow(a, url, dest)], Disk1(dest, []), []);
    hide MetaData;
  }

  lemma EndRuns(a: Id, url: Url, dest: Path, whole: Bytes)
    requires whole != []
    ensures Finished(State([FlowingRow(a, url, dest)], Disk1(dest, []), []), a,
                     FinishEnv(NoError, whole, |whole|, true), GOOD)
         == State([DoneA(a, url, dest, |whole|)], Disk(map[], map[dest := whole]), [])
  {
    var s, f := State([FlowingRow(a, url, dest)], Disk1(dest, []), []), FinishEnv(NoError, whole, |whole|, true);
    assert IndexOf(s.entries, a) == 0;
    var s1 := Drain(s, 0, f);
    assert [] + whole[..|whole|] == whole;
    assert s1.disk.parts == map[dest := whole];
    var s2 := CleanEnd(Put(s1, 0, s1.entries[0].(reply := None, userCanceled := false)), 0, true);
    assert s2.disk == Disk(map[], map[dest := whole]);
    assert s2.entries == [DoneA(a, url, dest, |whole|)];
    hide Drain, CleanEnd;
    NothingToServe(s2, 0, GOOD);
  }

  lemma EndMoves(a: Id, url: Url, dest: Path, whole: Bytes, origin: Origin)
    requires whole != [] && whole == origin(url)
    ensures var se := Session(State([FlowingRow(a, url, dest)], Disk1(dest, []), []), [], []);
            var r := Saved(a, url, dest, "", |whole|);
            var m := Happens(Ends(a, FinishEnv(NoError, whole, |whole|, true), GOOD), [r]);
            && LegalMove(se, m, origin, true)
            && Moved(se, m)
               == Session(State([DoneA(a, url, dest, |whole|)], Disk(map[], map[dest := whole]), []), [r], [])
  {
    EndRuns(a, url, dest, whole);
    OneRecord(DoneA(a, url, dest, |whole|), Completed);
    hide Finished, Records;
    assert IndexOf([FlowingRow(a, url, dest)], a) == 0;
    assert IndexOf([DoneA(a, url, dest, |whole|)], a) == 0;
  }

  lemma AgainRuns(a: Id, url: Url, dest: Path, dest2: Path, whole: Bytes)
    requires a != "" && url != ""
    ensures var s := State([DoneA(a, url, dest, |whole|)], Disk(map[], map[dest := whole]), []);
            Start(s, a, url, "", 0, dest2, GOOD) == State([Started(a, url, dest2)], BothFiles(dest, dest2, whole), [])
  {
    var s := State([DoneA(a, url, dest, |whole|)], Disk(map[], map[dest := whole]), []);
    var s1 := State([], s.disk, []);
    assert IndexOf(s.entries, a) == 0 && Erase(s, 0) == s1;
    StartRuns(s1, a, url, dest2);
    hide ProcessQueue;
    assert Start(s, a, url, "", 0, dest2, GOOD) == Start(s1, a, url, "", 0, dest2, GOOD);
    assert [] + [Started(a, url, dest2)] == [Started(a, url, dest2)];
  }

  lemma AgainMoves(a: Id, url: Url, dest: Path, dest2: Path, whole: Bytes, r: Saved, origin: Origin)
    requires a != "" && url != "" && dest != dest2
    ensures var se := Session(State([DoneA(a, url, dest, |whole|)], Disk(map[], map[dest := whole]), []), [r], []);
            var m := Happens(UserStart(a, url, "", 0, dest2, GOOD), []);
            && LegalMove(se, m, origin, true)
            && Moved(se, m) == Session(State([Started(a, url, dest2)], BothFiles(dest, dest2, whole), []), [r], [])
  {
    hide Started, BothFiles, LegalKept;
    AgainRuns(a, url, dest, dest2, whole);
    var e := DoneA(a, url, dest, |whole|);
    assert e.id == a && e.status == Completed;
    assert FreshPath(State([e], Disk(map[], map[dest := whole]), []), dest2);
    hide Start, FreshPath, DoneA;
    assert IndexOf([e], a) == 0;
  }

  lemma BothRestored(s: State, r: Saved, r2: Saved, dest: Path, dest2: Path, whole: Bytes, origin: Origin)
    requires s.disk == BothFiles(dest, dest2, whole) && r.destPath == dest && r2.destPath == dest2
    requires dest != "" && dest2 != "" && r.id != "" && r2.id != ""
    ensures var se := Session(s, [r], [r2]);
            && LegalMove(se, Restarts([]), origin, true)
            && Moved(se, Restarts([])).s.entries == [DoneRow(r), PausedRow(r2, s.disk)]
  {
    assert [r][..0] == [] && [r2][..0] == [];
    assert LoadDone([r]) == [DoneRow(r)];
    assert LoadPaused([r2], s.disk) == [PausedRow(r2, s.disk)];
    var t := Loaded([r], [r2], s.disk);
    assert t.entries == [DoneRow(r), PausedRow(r2, s.disk)];
    assert PurgeBelow(t, 2) == PurgeBelow(t, 1) == PurgeBelow(t, 0) == t;
  }

  /** After this run two rows have the same id. A lookup finds the completed one, so that
      the paused one can no longer be resumed. */
  lemma DownloadedAgainDoubles(a: Id, url: Url, dest: Path, dest2: Path, whole: Bytes, origin: Origin, env: Kicks)
    returns (moves: seq<Move>, se: Session)
    requires a != "" && url != "" && dest != "" && dest2 != "" && dest != dest2
    requires whole != [] && whole == origin(url)
    ensures moves == Doubling(a, url, dest, dest2, whole) && LeadsTo(moves, se, origin)
    ensures |se.s.entries| == 2 && se.s.entries[0].id == se.s.entries[1].id == a && se.s.entries[1].status == Paused
    ensures Resume(se.s, a, env) == se.s && !Inv(se.s, origin, true)
  {
    var r := Saved(a, url, dest, "", |whole|);
    se := FirstSession(EMPTY_DISK);
    moves := [];
    assert LeadsTo(moves, se, origin);
    StartRuns(se.s, a, url, dest);
    assert LegalMove(se, Happens(UserStart(a, url, "", 0, dest, GOOD), []), origin, true);
    assert Moved(se, Happens(UserStart(a, url, "", 0, dest, GOOD), []))
        == Session(State([Started(a, url, dest)], Disk1(dest, []), []), [], []);
    hide LeadsTo, LegalMove, Moved;
    moves, se := Go(moves, se, Happens(UserStart(a, url, "", 0, dest, GOOD), []), origin);
    HeadAloneMoves(a, url, dest, origin);
    moves, se := Go(moves, se, Happens(Head(a, 200, 0, PLAIN, Truncated), []), origin);
    EndMoves(a, url, dest, whole, origin);
    moves, se := Go(moves, se, Happens(Ends(a, FinishEnv(NoError, whole, |whole|, true), GOOD), [r]), origin);
    AgainMoves(a, url, dest, dest2, whole, r, origin);
    moves, se := Go(moves, se, Happens(UserStart(a, url, "", 0, dest2, GOOD), []), origin);
    PauseMoves(a, url, dest2, BothFiles(dest, dest2, whole), [r], origin);
    moves, se := Go(moves, se, Happens(UserPause(a, GOOD), []), origin);
    BothRestored(se.s, r, RecordA(a, url, dest2), dest, dest2, whole, origin);
    moves, se := Go(moves, se, Restarts([]), origin);
  }
}
