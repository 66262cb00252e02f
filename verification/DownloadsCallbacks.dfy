/** What the callbacks of a running transfer do to its row and its working file. */
module DownloadsCallbacks {
  import opened Wrappers
  import opened Disks
  import opened Downloads
  import opened DownloadsInvariant
  import opened DownloadsTheorems
  import opened DownloadsOutcomes
  import opened DownloadsSlots

  /** Only row i has changed, and no timer. */
  predicate OnlyRow(s: State, i: nat, s': State) {
    && i < |s.entries| == |s'.entries| && s'.timers == s.timers
    && forall j :: 0 <= j < |s.entries| && j != i ==> s'.entries[j] == s.entries[j]
  }

  /** A reason given for any status but Failed is not kept. */
  lemma ReasonIsKeptIff(e: Entry, s: Status, reason: ErrorReason)
    requires reason != ErrorNone
    ensures SetStatus(e, s, reason).errorReason == reason <==> s == Failed
  {
  }

  // ---- Body bytes ---------------------------------------------------------------------------

  /** The bytes that the disk takes are appended to the working file. With all of them
      taken the progress shown is the new length; with fewer the reply is aborted, so that
      its end is that of a dropped transfer. */
  lemma BodyAppends(s: State, id: Id, data: Bytes, taken: nat, origin: Origin, lossless: bool)
    requires Inv(s, origin, lossless) && Legal(s, Body(id, data, taken), origin, lossless)
    requires var i := IndexOf(s.entries, id); i >= 0 && s.entries[i].file.Some?
    ensures var i, s' := IndexOf(s.entries, id), Chunk(s, id, data, taken);
            var e, e', p := s.entries[i], s'.entries[i], s.entries[i].destPath;
            && OnlyRow(s, i, s') && SameOutside(s.disk, s'.disk, {p}) && SameDownload(e, e') && e'.status == Downloading
            && p in s.disk.parts && p in s'.disk.parts && s'.disk.parts[p] == s.disk.parts[p] + data[..taken]
            && e'.reply.Some? && e'.reply.value.next == e.reply.value.next + |data|
            && (e'.reply.value.aborted <==> taken < |data|)
            && e'.received == (if taken == |data| then |s'.disk.parts[p]| else e.received)
            && (taken < |data| ==> !e'.userCanceled && CodeOf(e') < 400)
  {
    hide IndexFrom, RetriesCounted;
    var i := IndexOf(s.entries, id);
    RowIsOk(s, i, origin, lossless);
    hide Inv;
    if data == [] {
      assert s.disk.parts[s.entries[i].destPath] + data[..taken] == s.disk.parts[s.entries[i].destPath];
    }
  }

  /** Without an open file the bytes go nowhere. */
  lemma BodyIsDropped(s: State, id: Id, data: Bytes, taken: nat)
    requires taken <= |data|
    requires var i := IndexOf(s.entries, id); i >= 0 ==> s.entries[i].reply.None? || s.entries[i].file.None?
    ensures Chunk(s, id, data, taken) == s
  {
  }

  /** Nor do those of an error response; they are only counted. */
  lemma ErrorBodyIsDropped(s: State, id: Id, data: Bytes, taken: nat)
    requires taken <= |data|
    requires var i := IndexOf(s.entries, id);
             i >= 0 && s.entries[i].reply.Some? && s.entries[i].file.Some? && s.entries[i].httpStatus >= 400
             && s.entries[i].file.value.destPath in s.disk.parts
    ensures var i, s' := IndexOf(s.entries, id), Chunk(s, id, data, taken);
            && OnlyRow(s, i, s') && s'.disk == s.disk && s'.entries[i] == s.entries[i].(reply := s'.entries[i].reply)
            && s'.entries[i].reply.Some? && s'.entries[i].reply.value.next == s.entries[i].reply.value.next + |data|
  {
    hide Written, IndexFrom;
  }

  /** A known length is the size of a transfer that starts from nothing; a resumed one is
      told the size by its head. */
  lemma LengthIsTotalIff(s: State, id: Id, total: int)
    requires var i := IndexOf(s.entries, id); i >= 0 && s.entries[i].reply.Some? && s.entries[i].total != total
    ensures var i, s' := IndexOf(s.entries, id), Progress(s, id, total);
            var e := s.entries[i];
            && OnlyRow(s, i, s') && s'.disk == s.disk && s'.entries[i] == e.(total := s'.entries[i].total)
            && (s'.entries[i].total == total
                <==> total > 0 && !(e.file.Some? && e.file.value.resumeFrom > 0))
            && (s'.entries[i].total != total ==> s' == s)
  {
  }

  // ---- Response heads -----------------------------------------------------------------------

  /** Heads without a status and redirecting ones change nothing but what is known of the
      reply. */
  lemma EarlyHead(s: State, id: Id, code: nat, full: nat, sn: Sniff, outcome: TruncateOutcome)
    requires code == 0 || 300 <= code < 400
    requires var i := IndexOf(s.entries, id);
             i >= 0 && s.entries[i].reply.Some? && !IsFinalCode(s.entries[i].reply.value.code)
    ensures var i, s' := IndexOf(s.entries, id), MetaData(s, id, code, full, sn, outcome);
            var r := s.entries[i].reply.value;
            s' == s.(entries := s.entries[i := s.entries[i].(reply := Some(Reply(r.rangeFrom, code, 0, r.aborted)))])
  {
    hide FinalHead, IndexFrom;
  }

  /** A row that runs from the end of its working file. */
  predicate Resuming(e: Entry) { e.reply.Some? && e.file.Some? && e.file.value.resumeFrom > 0 }

  /** The rest comes as asked for: the working file stays, and a total in the head is the
      size. */
  lemma PartialHead(s: State, id: Id, full: nat, sn: Sniff, outcome: TruncateOutcome, origin: Origin, lossless: bool)
    requires Inv(s, origin, lossless) && Legal(s, Head(id, 206, full, sn, outcome), origin, lossless)
    requires var i := IndexOf(s.entries, id); i >= 0 && Resuming(s.entries[i])
    ensures var i, s' := IndexOf(s.entries, id), MetaData(s, id, 206, full, sn, outcome);
            var e, e' := s.entries[i], s'.entries[i];
            && OnlyRow(s, i, s') && s'.disk == s.disk && e'.destPath == e.destPath && e'.file == e.file
            && e'.received == e.received && e'.total == (if full > 0 then full else e.total)
            && e'.reply.Some? && e'.reply.value.code == 206 && !e'.reply.value.aborted
            && e'.reply.value.next == e'.received
  {
    hide IndexFrom, RetriesCounted;
    RowIsOk(s, IndexOf(s.entries, id), origin, lossless);
    hide Inv;
  }

  /** The whole comes instead: the transfer goes on from an empty file, or is aborted when
      the file cannot be emptied. */
  lemma WholeHead(s: State, id: Id, full: nat, sn: Sniff, outcome: TruncateOutcome, origin: Origin, lossless: bool)
    requires Inv(s, origin, lossless) && Legal(s, Head(id, 200, full, sn, outcome), origin, lossless)
    requires var i := IndexOf(s.entries, id); i >= 0 && Resuming(s.entries[i])
    ensures var i, s' := IndexOf(s.entries, id), MetaData(s, id, 200, full, sn, outcome);
            var e, e' := s.entries[i], s'.entries[i];
            && OnlyRow(s, i, s') && e'.reply.Some? && (e'.reply.value.aborted <==> outcome != Truncated)
            && (outcome == Truncated ==> e'.received == 0 && e'.total == e.total)
            && (outcome == Truncated && e'.destPath == e.destPath ==>
                  e'.file.Some? && e'.file.value.resumeFrom == 0
                  && e.destPath in s'.disk.parts && s'.disk.parts[e.destPath] == [])
            && (outcome != Truncated ==> e'.destPath == e.destPath && CodeOf(e') < 400)
  {
    hide IndexFrom, RetriesCounted, IsJunk, Inv, Core;
    RowIsOk(s, IndexOf(s.entries, id), origin, lossless);
  }

  /** Before any byte is on disk the destination follows the type of a first whole
      response: with another extension the working file moves to the new path, and a type
      that is the same or unusable changes nothing. */
  lemma TypeMovesFile(s: State, id: Id, full: nat, sn: Sniff, outcome: TruncateOutcome, origin: Origin, lossless: bool)
    requires Inv(s, origin, lossless) && Legal(s, Head(id, 200, full, sn, outcome), origin, lossless)
    requires var i := IndexOf(s.entries, id);
             i >= 0 && s.entries[i].reply.Some? && s.entries[i].file.Some? && !s.entries[i].destReconciled
             && s.entries[i].file.value.bytesOnDisk == 0
    ensures var i, s' := IndexOf(s.entries, id), MetaData(s, id, 200, full, sn, outcome);
            var e, e' := s.entries[i], s'.entries[i];
            var other := sn.mime != "" && sn.mime != e.mime;
            && OnlyRow(s, i, s') && e'.destReconciled && e'.mime == (if other then sn.mime else e.mime)
            && (if other && sn.newExtension
                then e'.destPath == sn.newPath && e.destPath !in s'.disk.parts && (e'.file.Some? <==> sn.openOk)
                     && (sn.openOk ==> sn.newPath in s'.disk.parts && s'.disk.parts[sn.newPath] == [])
                else e'.destPath == e.destPath && e'.file == e.file && s'.disk == s.disk)
  {
    hide IndexFrom, RetriesCounted, IsJunk, TruncatedTo0;
    RowIsOk(s, IndexOf(s.entries, id), origin, lossless);
    hide Inv;
  }

  /** Once there are bytes, or after the first time, the destination stays. */
  lemma DestinationStays(s: State, i: nat, sn: Sniff)
    requires i < |s.entries|
    requires s.entries[i].destReconciled || s.entries[i].file.None? || s.entries[i].file.value.bytesOnDisk > 0
    ensures Reconcile(s, i, sn) == s.(entries := s.entries[i := s.entries[i].(destReconciled := true)])
  {
    assert s.entries[i].destReconciled ==> s.entries[i := s.entries[i].(destReconciled := true)] == s.entries;
    hide Opened, RemovePart;
  }

  // ---- Timers -------------------------------------------------------------------------------

  /** A timer is spent when it fires. It looks at the queue for a row that still waits and
      has not been stopped, and does nothing otherwise. */
  lemma TimerIsSpent(s: State, t: nat, env: Kicks)
    requires t < |s.timers|
    ensures var i, s' := IndexOf(s.entries, s.timers[t].id), TimerFired(s, t, env);
            && s'.timers == s.timers[..t] + s.timers[t + 1..] && Kicked(s.entries, s'.entries)
            && (i < 0 || s.entries[i].status != Queued || s.entries[i].userPaused || s.entries[i].userCanceled ==>
                  s'.entries == s.entries && s'.disk == s.disk)
  {
    var s1 := s.(timers := RemoveTimer(s.timers, t));
    hide ProcessQueue, IndexFrom;
    ServedRows(s1, env);
    SameLength(s1, env);
  }
}
