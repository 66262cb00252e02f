/** The stored count under concurrent adds: exactly which steps make it fall behind the
    number of rows. */
module PlaylistCounts {
  import opened ItemOrder
  import opened PlaylistTables
  import opened PlaylistHandlers
  import opened PlaylistNames
  import opened PlaylistAdds
  import opened PlaylistCourses
  import opened PlaylistRefinement

  function Count(t: Tables, p: string): int { if p in t.byId then t.byId[p].row.count else 0 }

  function RowCount(t: Tables, p: string): nat { |Items(t, p)| }

  /** The stored count is the number of rows. */
  predicate CountIsRight(t: Tables, p: string) { Count(t, p) == RowCount(t, p) }

  /** The handler has read the playlist and not yet inserted. */
  predicate Reading(op: Op) { op.AddLookup? || op.AddExisting? || op.AddVideo? || op.AddClaim? || op.AddItem? }

  /** The handler would write the right count if it went on alone: no row has come since
      it read, but its own. */
  predicate UpToDate(t: Tables, op: Op, p: string) {
    && op.pid == p
    && ((Reading(op) && op.row.count == RowCount(t, p)) || (op.AddById? && op.row.count + 1 == RowCount(t, p)))
  }

  /** The count is right, or a handler may still make it right. */
  predicate Right(w: World, p: string) {
    CountIsRight(w.tables, p)
    || exists i :: 0 <= i < |w.ops| && UpToDate(w.tables, w.ops[i], p)
  }

  /** No handler but the one at i is up to date. */
  predicate OnlyOne(w: World, p: string, i: nat) {
    forall j :: 0 <= j < |w.ops| && j != i ==> !UpToDate(w.tables, w.ops[j], p)
  }

  /** A row is inserted or a count written after reading an old count, or the only
      handler that would have corrected the count ends without having written it. */
  predicate LosesCount(fold: Fold, w: World, p: string, ev: Event) {
    match ev
    case Start(_) => false
    case Stop(i) => i < |w.ops| && !CountIsRight(w.tables, p) && OnlyOne(w, p, i)
    case Advance(i, env) =>
      i < |w.ops|
      && var op := w.ops[i];
         if op.AddItem? && op.pid == p then op.row.count < RowCount(w.tables, p)
         else if op.AddById? && op.pid == p then op.row.count + 1 < RowCount(w.tables, p) && OnlyOne(w, p, i)
         else
           && Step(fold, w.tables, op, env).1.Done?
           && !CountIsRight(w.tables, p) && OnlyOne(w, p, i)
  }

  // ---- One step ---------------------------------------------------------------------------

  /** Only an insertion changes the number of rows, and only one write changes the count. */
  lemma StepCounts(t: Tables, op: Op, env: Env, p: string)
    requires Adding(op) && AddOk(t, op)
    ensures var t' := StepAdd(t, op, env).0;
            && RowCount(t', p) == RowCount(t, p) + (if op.AddItem? && op.pid == p then 1 else 0)
            && Count(t', p) == if op.AddById? && op.pid == p then op.row.count + 1 else Count(t, p)
  {
    if op.AddItem? && op.pid == p {
      InsertedItem(t, op, env);
    } else {
      StepKeepsItems(t, op, env, p);
    }
    hide Items, Prepended;
  }

  lemma ReadingGoesOn(t: Tables, op: Op, env: Env)
    requires Reading(op) || op.AddLoad?
    ensures var next := StepAdd(t, op, env).1;
            && (op.AddItem? <==> next.AddById?)
            && (next.Done? || next.AddById? || Reading(next))
            && (Reading(op) && !next.Done? ==> next.row == op.row)
            && (op.AddLoad? && !next.Done? ==> next.row.count == Count(t, op.pid))
  {
    hide Items, Prepended, Recounted, IdRow, UserRow, PutItem, PutUser;
  }

  lemma ReadAtMost(t: Tables, op: Op)
    requires AddOk(t, op)
    ensures Reading(op) ==> op.row.count <= RowCount(t, op.pid)
    ensures op.AddById? ==> op.row.count + 1 <= RowCount(t, op.pid)
  {
  }

  /** An insertion leaves no other handler up to date; nothing else touches them. */
  lemma OthersUpToDate(t: Tables, op: Op, env: Env, other: Op, p: string)
    requires Adding(op) && AddOk(t, op) && AddOk(t, other)
    ensures UpToDate(StepAdd(t, op, env).0, other, p) <==> UpToDate(t, other, p) && !(op.AddItem? && op.pid == p)
  {
    StepCounts(t, op, env, p);
    ReadAtMost(t, other);
    hide StepAdd, AddOk, RowCount;
  }

  lemma WritingEnds(t: Tables, op: Op, env: Env)
    requires op.AddById? || op.AddByUser?
    ensures var next := StepAdd(t, op, env).1; next.AddByUser? || next.Done?
  {
    hide Prepended, Recounted, IdRow, UserRow;
  }

  /** The handler has read a count as high as the number of rows, or reads one now. */
  predicate Reads(t: Tables, op: Op, p: string) {
    op.pid == p
    && ((op.AddLoad? && CountIsRight(t, p)) || (Reading(op) && op.row.count == RowCount(t, p)))
  }

  /** The handler itself: reading brings it up to date with a right count, inserting
      keeps it so if no row has come since, and the rest do not bring it up to date. */
  lemma OwnUpToDate(t: Tables, op: Op, env: Env, p: string)
    requires Adding(op) && AddOk(t, op)
    ensures var (t', next) := StepAdd(t, op, env); UpToDate(t', next, p) <==> !next.Done? && Reads(t, op, p)
  {
    StepCounts(t, op, env, p);
    AddGoesOn(t, op, env);
    var (t', next) := StepAdd(t, op, env);
    assert next.pid == op.pid by {
      assert GoesOn(op, next);
    }
    if op.AddById? || op.AddByUser? {
      WritingEnds(t, op, env);
    } else {
      ReadingGoesOn(t, op, env);
    }
    hide StepAdd, AddOk, RowCount, Count, GoesOn;
  }

  lemma AdvanceOps(fold: Fold, w: World, i: nat, env: Env, j: nat)
    requires i < |w.ops| && j < |w.ops| && Adding(w.ops[i])
    ensures var w' := Next(fold, w, Advance(i, env));
            var (t', next) := StepAdd(w.tables, w.ops[i], env);
            w'.tables == t' && |w'.ops| == |w.ops| && w'.ops[j] == if j == i then next else w.ops[j]
  {
    hide StepAdd;
  }

  /** The other handlers after a step. */
  lemma OnlyOneAfter(fold: Fold, w: World, p: string, i: nat, env: Env)
    requires AddInv(w) && i < |w.ops| && Adding(w.ops[i])
    ensures OnlyOne(Next(fold, w, Advance(i, env)), p, i)
         <==> OnlyOne(w, p, i) || (w.ops[i].AddItem? && w.ops[i].pid == p)
  {
    var w' := Next(fold, w, Advance(i, env));
    assert |w'.ops| == |w.ops|;
    forall j | 0 <= j < |w.ops| && j != i
      ensures UpToDate(w'.tables, w'.ops[j], p)
         <==> UpToDate(w.tables, w.ops[j], p) && !(w.ops[i].AddItem? && w.ops[i].pid == p)
    {
      AdvanceOps(fold, w, i, env, j);
      assert AddOk(w.tables, w.ops[i]) && AddOk(w.tables, w.ops[j]);
      hide Next, StepAdd, AddOk, UpToDate;
      OthersUpToDate(w.tables, w.ops[i], env, w.ops[j], p);
    }
  }

  lemma RightSplits(w: World, p: string, i: nat)
    requires i < |w.ops|
    ensures Right(w, p) <==> CountIsRight(w.tables, p) || UpToDate(w.tables, w.ops[i], p)
                             || !OnlyOne(w, p, i)
  {
  }

  lemma AdvanceRightIff(fold: Fold, w: World, p: string, i: nat, env: Env)
    requires AddInv(w) && i < |w.ops| && Adding(w.ops[i])
    ensures var w' := Next(fold, w, Advance(i, env));
            && (Right(w, p) ==> (Right(w', p) <==> !LosesCount(fold, w, p, Advance(i, env))))
            && (!Right(w, p) ==> !Right(w', p))
  {
    var w' := Next(fold, w, Advance(i, env));
    var t, op := w.tables, w.ops[i];
    assert AddOk(t, op) && SafePlaylist(t, p);
    assert Count(t, p) <= RowCount(t, p);
    OnlyOneAfter(fold, w, p, i, env);
    AdvanceOps(fold, w, i, env, i);
    assert Step(fold, t, op, env) == StepAdd(t, op, env);
    hide AddInv, StepAdd, Step, Next, SafePlaylist, OnlyOne, Right;
    StepCounts(t, op, env, p);
    OwnUpToDate(t, op, env, p);
    ReadAtMost(t, op);
    RightSplits(w, p, i);
    RightSplits(w', p, i);
    hide AddOk, RowCount, Count;
  }

  lemma NotYetRead(t: Tables, op: Op, p: string)
    requires op.AddLoad? || op.Done?
    ensures !UpToDate(t, op, p)
  {
  }

  lemma StartRight(fold: Fold, w: World, p: string, op: Op)
    requires op.AddLoad?
    ensures Right(Next(fold, w, Start(op)), p) <==> Right(w, p)
  {
    var w' := Next(fold, w, Start(op));
    hide UpToDate, Count, RowCount;
    assert !UpToDate(w.tables, op, p) by {
      NotYetRead(w.tables, op, p);
    }
    if i :| 0 <= i < |w.ops| && UpToDate(w.tables, w.ops[i], p) {
      assert UpToDate(w'.tables, w'.ops[i], p);
    }
  }

  lemma StopRight(fold: Fold, w: World, p: string, i: nat)
    requires i < |w.ops|
    ensures var w' := Next(fold, w, Stop(i));
            Right(w', p) <==> CountIsRight(w.tables, p) || !OnlyOne(w, p, i)
  {
    var w' := Next(fold, w, Stop(i));
    NotYetRead(w.tables, w'.ops[i], p);
    RightSplits(w', p, i);
    hide UpToDate, Count, RowCount, Right;
    assert forall j :: 0 <= j < |w.ops| && j != i ==> w'.ops[j] == w.ops[j];
  }

  lemma IdleRight(fold: Fold, w: World, p: string, i: nat, env: Env)
    requires i < |w.ops| && w.ops[i].Done?
    ensures Right(Next(fold, w, Advance(i, env)), p) <==> Right(w, p)
    ensures Right(w, p) ==> !LosesCount(fold, w, p, Advance(i, env))
  {
    var w' := Next(fold, w, Advance(i, env));
    assert w'.ops == w.ops && w'.tables == w.tables;
    NotYetRead(w.tables, w.ops[i], p);
    RightSplits(w, p, i);
    hide UpToDate, Count, RowCount, Next, OnlyOne;
  }

  /** The count falls behind by exactly these steps, and never catches up again. */
  lemma RightIff(fold: Fold, w: World, p: string, ev: Event)
    requires AddInv(w) && (ev.Start? ==> ev.op.AddLoad?)
    ensures Right(w, p) ==> (Right(Next(fold, w, ev), p) <==> !LosesCount(fold, w, p, ev))
    ensures !Right(w, p) ==> !Right(Next(fold, w, ev), p)
  {
    match ev
    case Start(op) =>
      hide AddInv, Right;
      StartRight(fold, w, p, op);
    case Stop(i) =>
      if i < |w.ops| {
        RightSplits(w, p, i);
        hide AddInv, Right, OnlyOne, Next, Count, RowCount;
        StopRight(fold, w, p, i);
      }
    case Advance(i, env) =>
      if i < |w.ops| {
        assert AddOk(w.tables, w.ops[i]);
        assert Adding(w.ops[i]) || w.ops[i].Done?;
        hide AddInv, Right, Next, LosesCount, AddOk;
        if w.ops[i].Done? {
          IdleRight(fold, w, p, i, env);
        } else {
          AdvanceRightIff(fold, w, p, i, env);
        }
      }
  }

  // ---- Every run ----------------------------------------------------------------------------

  /** No step of the run makes the count of p fall behind. */
  predicate KeepsCount(fold: Fold, w: World, p: string, evs: seq<Event>)
    decreases |evs|
  {
    evs == [] || (!LosesCount(fold, w, p, evs[0]) && KeepsCount(fold, Next(fold, w, evs[0]), p, evs[1..]))
  }

  lemma {:induction false} RunRightIff(fold: Fold, w: World, p: string, evs: seq<Event>)
    requires AddInv(w) && AddsOnly(evs)
    ensures Right(w, p) ==> (Right(After(fold, w, evs), p) <==> KeepsCount(fold, w, p, evs))
    ensures !Right(w, p) ==> !Right(After(fold, w, evs), p)
    decreases |evs|
  {
    hide AddInv, Next, Right, LosesCount;
    if evs != [] {
      assert evs[0] in evs;
      NextKeepsAdds(fold, w, evs[0]);
      RightIff(fold, w, p, evs[0]);
      RunRightIff(fold, Next(fold, w, evs[0]), p, evs[1..]);
    }
  }

  /** No handler is under way on p. */
  predicate AtRest(w: World, p: string) { forall i :: 0 <= i < |w.ops| && w.ops[i].pid == p ==> w.ops[i].Done? }

  lemma RightAtRest(w: World, p: string)
    requires AtRest(w, p)
    ensures Right(w, p) <==> CountIsRight(w.tables, p)
  {
  }

  /** After any interleaving of adds, with stops, that has come to rest on a playlist, the
      stored count is the number of rows if and only if it was before and no step lost
      it: none inserted or counted from an old reading, and no handler that had to
      correct the count stopped. */
  lemma CountIsRightIff(fold: Fold, t: Tables, evs: seq<Event>, p: string)
    requires (forall q :: SafePlaylist(t, q)) && AddsOnly(evs) && AtRest(After(fold, World(t, []), evs), p)
    ensures CountIsRight(After(fold, World(t, []), evs).tables, p)
       <==> CountIsRight(t, p) && KeepsCount(fold, World(t, []), p, evs)
  {
    assert AddInv(World(t, []));
    hide AddInv, After, KeepsCount, SafePlaylist;
    RunRightIff(fold, World(t, []), p, evs);
    RightAtRest(World(t, []), p);
    RightAtRest(After(fold, World(t, []), evs), p);
  }

  // ---- Removes ------------------------------------------------------------------------------

  /** The video is an item of the user's playlist. */
  predicate HasItem(t: Tables, user: int, pid: string, video: string) {
    && Owned(t, user, pid) && (user, video, pid) in t.byVideo
    && Key(t.byVideo[(user, video, pid)], video) in Items(t, pid)
  }

  /** The deletion of the item fails. */
  predicate ItemStays(t: Tables, user: int, pid: string, video: string, answers: Answers)
    requires HasItem(t, user, pid, video)
  {
    answers(RemoveItem(user, pid, video, t.byId[pid].row, t.byVideo[(user, video, pid)])).fails
  }

  /** The first write of the new count fails. */
  predicate CountStays(t: Tables, user: int, pid: string, video: string, answers: Answers)
    requires HasItem(t, user, pid, video)
  {
    var row, added := t.byId[pid].row, t.byVideo[(user, video, pid)];
    var rows := if ItemStays(t, user, pid, video, answers) then Items(t, pid) else Items(t, pid) - {Key(added, video)};
    var answer := answers(RemoveCovers(user, pid, row));
    var covers := if answer.fails then row.covers else Recomputed(rows);
    answers(RemoveById(user, pid, row, covers, answer.now)).fails
  }

  /** Whichever operations of an uninterrupted remove fail: the rows and the count it
      leaves. */
  lemma RemoveLeaves(fold: Fold, t: Tables, user: int, pid: string, video: string, answers: Answers)
    requires HasItem(t, user, pid, video)
    ensures var t' := Course(fold, t, RemoveLoad(user, pid, video), answers).0;
            && RowCount(t', pid) == RowCount(t, pid) - (if ItemStays(t, user, pid, video, answers) then 0 else 1)
            && Count(t', pid)
               == if CountStays(t, user, pid, video, answers) then Count(t, pid) else OneLess(Count(t, pid))
  {
    hide Course, Recomputed;
    var row, added := t.byId[pid].row, t.byVideo[(user, video, pid)];
    RemoveLoads(fold, t, user, pid, video, answers);
    RemoveDrops(fold, t, user, pid, video, row, added, answers);
    var t1 := if ItemStays(t, user, pid, video, answers) then t else DropItem(t, pid, Key(added, video));
    var t2 := if answers(RemoveMember(user, pid, video, row)).fails then t1
              else t1.(byVideo := t.byVideo - {(user, video, pid)});
    assert RowCount(t2, pid) == RowCount(t, pid) - (if ItemStays(t, user, pid, video, answers) then 0 else 1) by {
      DroppedRows(t, pid, Key(added, video));
    }
    RemoveCounts(fold, t2, user, pid, row, answers);
  }

  lemma DroppedRows(t: Tables, pid: string, k: Key)
    requires k in Items(t, pid)
    ensures RowCount(DropItem(t, pid, k), pid) == RowCount(t, pid) - 1
  {
    var rows := Items(t, pid);
    assert (rows - {k}).Keys == rows.Keys - {k};
    assert |rows.Keys - {k}| == |rows.Keys| - 1;
    assert |rows| == |rows.Keys| && |rows - {k}| == |(rows - {k}).Keys|;
  }

  /** A remove that nothing interrupts keeps a right count right if and only if the
      deletion of the item and the write of the count both take effect or both fail. */
  lemma RemoveKeepsCountIff(fold: Fold, t: Tables, user: int, pid: string, video: string, answers: Answers)
    requires HasItem(t, user, pid, video) && CountIsRight(t, pid)
    ensures CountIsRight(Course(fold, t, RemoveLoad(user, pid, video), answers).0, pid)
       <==> (ItemStays(t, user, pid, video, answers) <==> CountStays(t, user, pid, video, answers))
  {
    assert RowCount(t, pid) > 0;
    hide Course, ItemStays, CountStays, RowCount, Count;
    RemoveLeaves(fold, t, user, pid, video, answers);
  }

  /** So a count that is one behind comes right again by such a failure. */
  lemma RemoveRestoresCount(fold: Fold, t: Tables, user: int, pid: string, video: string, answers: Answers)
    requires HasItem(t, user, pid, video) && Count(t, pid) + 1 == RowCount(t, pid)
    requires !ItemStays(t, user, pid, video, answers) && CountStays(t, user, pid, video, answers)
    ensures CountIsRight(Course(fold, t, RemoveLoad(user, pid, video), answers).0, pid)
  {
    hide Course, ItemStays, CountStays, RowCount, Count;
    RemoveLeaves(fold, t, user, pid, video, answers);
  }

  // ---- Counts stay in range ---------------------------------------------------------------

  /** The count of the row that a handler goes by. */
  function CountRead(op: Op): int {
    match op
    case AddLookup(_, _, _, row) => row.count
    case AddExisting(_, _, _, row, _) => row.count
    case AddVideo(_, _, _, row) => row.count
    case AddClaim(_, _, _, row, _) => row.count
    case AddItem(_, _, _, row, _, _) => row.count
    case AddById(_, _, row, _, _) => row.count
    case AddByUser(_, _, row, _, _) => row.count
    case RemoveLookup(_, _, _, row) => row.count
    case RemoveItem(_, _, _, row, _) => row.count
    case RemoveMember(_, _, _, row) => row.count
    case RemoveCovers(_, _, row) => row.count
    case RemoveById(_, _, row, _, _) => row.count
    case RemoveByUser(_, _, row, _, _) => row.count
    case _ => 0
  }

  /** An add that has passed the cap. */
  predicate PassedCap(op: Op) { op.AddClaim? || op.AddItem? || op.AddById? || op.AddByUser? }

  predicate ReadInRange(op: Op) { 0 <= CountRead(op) <= if PassedCap(op) then 4999 else 5000 }

  predicate CountsInRange(t: Tables) {
    && (forall p :: p in t.byId ==> 0 <= t.byId[p].row.count <= 5000)
    && (forall k :: k in t.byUser ==> 0 <= t.byUser[k].count <= 5000)
  }

  lemma CreateKeepsRange(fold: Fold, t: Tables, op: Op, env: Env)
    requires CountsInRange(t) && Creating(op)
    ensures var (t', op') := StepCreate(fold, t, op, env); CountsInRange(t') && ReadInRange(op')
  {
    hide Listed;
  }

  lemma RenameKeepsRange(fold: Fold, t: Tables, op: Op, env: Env)
    requires CountsInRange(t) && Renaming(op)
    ensures var (t', op') := StepRename(fold, t, op, env); CountsInRange(t') && ReadInRange(op')
  {
  }

  lemma DeleteKeepsRange(fold: Fold, t: Tables, op: Op, env: Env)
    requires CountsInRange(t) && Deleting(op)
    ensures var (t', op') := StepDelete(fold, t, op, env); CountsInRange(t') && ReadInRange(op')
  {
    hide Videos, Sorted, Items;
  }

  lemma NamingKeepsRange(fold: Fold, t: Tables, op: Op, env: Env)
    requires CountsInRange(t) && (Creating(op) || Renaming(op) || Deleting(op))
    ensures var (t', op') := Step(fold, t, op, env); CountsInRange(t') && ReadInRange(op')
  {
    hide StepCreate, StepRename, StepDelete, StepAdd, StepRemove, CountsInRange, ReadInRange;
    if Creating(op) {
      CreateKeepsRange(fold, t, op, env);
    } else if Renaming(op) {
      RenameKeepsRange(fold, t, op, env);
    } else {
      DeleteKeepsRange(fold, t, op, env);
    }
  }

  lemma AddKeepsRange(fold: Fold, t: Tables, op: Op, env: Env)
    requires CountsInRange(t) && Adding(op) && ReadInRange(op)
    ensures var (t', op') := Step(fold, t, op, env); CountsInRange(t') && ReadInRange(op')
  {
    hide StepCreate, StepRename, StepDelete, StepRemove, Prepended;
  }

  lemma RemoveKeepsRange(fold: Fold, t: Tables, op: Op, env: Env)
    requires CountsInRange(t) && Removing(op) && ReadInRange(op)
    ensures var (t', op') := Step(fold, t, op, env); CountsInRange(t') && ReadInRange(op')
  {
    hide StepCreate, StepRename, StepDelete, StepAdd, Recomputed;
  }

  lemma NextKeepsRange(fold: Fold, w: World, ev: Event)
    requires CountsInRange(w.tables) && (forall i :: 0 <= i < |w.ops| ==> ReadInRange(w.ops[i])) && Enabled(w, ev)
    ensures var w' := Next(fold, w, ev);
            CountsInRange(w'.tables) && forall i :: 0 <= i < |w'.ops| ==> ReadInRange(w'.ops[i])
  {
    hide Step, CountsInRange, MayOverlap;
    match ev
    case Start(op) =>
    case Stop(i) =>
    case Advance(i, env) =>
      var op := w.ops[i];
      hide ReadInRange;
      if Adding(op) {
        AddKeepsRange(fold, w.tables, op, env);
      } else if Removing(op) {
        RemoveKeepsRange(fold, w.tables, op, env);
      } else {
        NamingKeepsRange(fold, w.tables, op, env);
      }
  }

  /** Whatever adds and removes run beside each other, and wherever handlers stop, both
      stored counts of every playlist stay between 0 and the cap, even where they are not
      the number of rows. */
  lemma {:induction false} CountsStayInRange(fold: Fold, w: World, evs: seq<Event>)
    requires CountsInRange(w.tables) && (forall i :: 0 <= i < |w.ops| ==> ReadInRange(w.ops[i]))
    requires CanRun(fold, w, evs)
    ensures CountsInRange(After(fold, w, evs).tables)
    decreases |evs|
  {
    hide CountsInRange, ReadInRange, Next, Enabled;
    if evs != [] {
      NextKeepsRange(fold, w, evs[0]);
      CountsStayInRange(fold, Next(fold, w, evs[0]), evs[1..]);
    }
  }
}
