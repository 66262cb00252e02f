/** Adding videos to playlists concurrently: any number of add handlers, also of one
    playlist and of one video, interleave, and any of them may stop after any step. */
module PlaylistAdds {
  import opened Sizes
  import opened ItemOrder
  import opened PlaylistTables
  import opened PlaylistHandlers
  import opened PlaylistNames

  /** Every item has its membership row with the same time, and no count is above the
      number of items. */
  ghost predicate SafePlaylist(t: Tables, p: string) {
    && (forall k :: k in Items(t, p) ==> p in t.byId && IsMember(t, t.byId[p].user, k.video, p, k.added))
    && (p in t.byId ==> t.byId[p].row.count <= |Items(t, p)|)
    && (forall u :: (u, p) in t.byUser ==> t.byUser[(u, p)].count <= |Items(t, p)|)
  }

  predicate IsMember(t: Tables, user: int, video: string, pid: string, added: int) {
    (user, video, pid) in t.byVideo && t.byVideo[(user, video, pid)] == added
  }

  /** What an add handler may rely on between its steps. */
  predicate AddOk(t: Tables, op: Op) {
    match op
    case AddLoad(_, _, _) => true
    case AddLookup(user, pid, _, row) => Loaded(t, user, pid, row.count)
    case AddExisting(user, pid, _, row, _) => Loaded(t, user, pid, row.count)
    case AddVideo(user, pid, _, row) => Loaded(t, user, pid, row.count)
    case AddClaim(user, pid, _, row, _) => Loaded(t, user, pid, row.count)
    case AddItem(user, pid, video, row, _, added) =>
      && Loaded(t, user, pid, row.count) && IsMember(t, user, video, pid, added)
      && forall k :: k in Items(t, pid) ==> k.video != video
    case AddById(user, pid, row, _, _) => Loaded(t, user, pid, row.count + 1)
    case AddByUser(user, pid, row, _, _) => Loaded(t, user, pid, row.count + 1)
    case Done(_, _, _) => true
    case _ => false
  }

  predicate Loaded(t: Tables, user: int, pid: string, count: int) {
    Owned(t, user, pid) && count <= |Items(t, pid)|
  }

  /** No two handlers are about to insert the same video. */
  predicate Apart(op: Op, other: Op) {
    op.AddItem? && other.AddItem? ==> (op.user, op.pid, op.video) != (other.user, other.pid, other.video)
  }

  ghost predicate AddInv(w: World) {
    && (forall p :: SafePlaylist(w.tables, p))
    && (forall i :: 0 <= i < |w.ops| ==> AddOk(w.tables, w.ops[i]))
    && (forall i, j :: 0 <= i < j < |w.ops| ==> Apart(w.ops[i], w.ops[j]))
  }

  // ---- One step --------------------------------------------------------------------------

  /** Playlists keep their owners, and items and memberships stay. */
  ghost predicate Grows(t: Tables, t': Tables) {
    && (forall p :: p in t.byId ==> p in t'.byId && t'.byId[p].user == t.byId[p].user)
    && (forall p :: Items(t, p).Keys <= Items(t', p).Keys)
    && (forall m :: m in t.byVideo ==> m in t'.byVideo && t'.byVideo[m] == t.byVideo[m])
  }

  lemma LoadedGrows(t: Tables, t': Tables, user: int, pid: string, count: int)
    requires Grows(t, t') && Loaded(t, user, pid, count)
    ensures Loaded(t', user, pid, count)
  {
    SubsetSize(Items(t, pid).Keys, Items(t', pid).Keys);
    assert |Items(t, pid)| == |Items(t, pid).Keys| && |Items(t', pid)| == |Items(t', pid).Keys|;
  }

  lemma StepGrows(t: Tables, op: Op, env: Env)
    requires Adding(op) && AddOk(t, op)
    ensures Grows(t, StepAdd(t, op, env).0)
  {
    hide Prepended;
  }

  /** Steps other than the insertion leave the items alone. */
  lemma StepKeepsItems(t: Tables, op: Op, env: Env, p: string)
    requires Adding(op) && (op.AddItem? ==> p != op.pid)
    ensures Items(StepAdd(t, op, env).0, p) == Items(t, p)
  {
    hide Prepended;
  }

  lemma InsertedItem(t: Tables, op: Op, env: Env)
    requires op.AddItem? && AddOk(t, op)
    ensures var t' := StepAdd(t, op, env).0;
            && Items(t', op.pid) == Items(t, op.pid)[Key(op.added, op.video) := op.snap]
            && |Items(t', op.pid)| == |Items(t, op.pid)| + 1
  {
    var k := Key(op.added, op.video);
    var rows := Items(t, op.pid);
    assert k !in rows;
    assert rows[k := op.snap].Keys == rows.Keys + {k};
  }

  lemma StepKeepsSafe(t: Tables, op: Op, env: Env, p: string)
    requires Adding(op) && AddOk(t, op) && SafePlaylist(t, p)
    ensures SafePlaylist(StepAdd(t, op, env).0, p)
  {
    var t' := StepAdd(t, op, env).0;
    StepGrows(t, op, env);
    if op.AddItem? && p == op.pid {
      InsertedItem(t, op, env);
    } else {
      StepKeepsItems(t, op, env, p);
      hide Prepended, Items;
    }
  }

  lemma ReadingKeepsAdd(t: Tables, op: Op, env: Env)
    requires op.AddLoad? || op.AddLookup? || op.AddExisting? || op.AddVideo?
    requires AddOk(t, op) && SafePlaylist(t, op.pid)
    ensures var (t', next) := StepAdd(t, op, env); AddOk(t', next)
  {
    hide Prepended, Items, Recounted, IdRow, UserRow;
  }

  lemma WritingKeepsAdd(t: Tables, op: Op, env: Env)
    requires op.AddClaim? || op.AddItem? || op.AddById? || op.AddByUser?
    requires AddOk(t, op) && SafePlaylist(t, op.pid)
    ensures var (t', next) := StepAdd(t, op, env); AddOk(t', next)
  {
    if op.AddItem? {
      InsertedItem(t, op, env);
    } else {
      if op.AddClaim? {
        NoMemberNoItem(t, op);
      }
      StepKeepsItems(t, op, env, op.pid);
      hide Prepended, Items, Recounted, UserRow, SafePlaylist;
    }
  }

  lemma NoMemberNoItem(t: Tables, op: Op)
    requires op.AddClaim? && Owned(t, op.user, op.pid) && SafePlaylist(t, op.pid)
    ensures (op.user, op.video, op.pid) !in t.byVideo ==> forall k :: k in Items(t, op.pid) ==> k.video != op.video
  {
  }

  lemma OtherStaysApart(t: Tables, op: Op, env: Env, other: Op)
    requires Adding(op) && AddOk(t, op) && AddOk(t, other) && Apart(op, other)
    ensures Apart(StepAdd(t, op, env).1, other)
  {
    hide Prepended, Items, Recounted, IdRow, UserRow, PutItem;
  }

  lemma GrownKeepsAdd(t: Tables, t': Tables, op: Op)
    requires Grows(t, t') && AddOk(t, op)
    requires op.AddItem? ==> forall k :: k in Items(t', op.pid) ==> k.video != op.video
    ensures AddOk(t', op)
  {
    if !op.Done? && !op.AddLoad? {
      LoadedGrows(t, t', op.user, op.pid, if op.AddById? || op.AddByUser? then op.row.count + 1 else op.row.count);
    }
    hide Items, Loaded;
  }

  lemma OtherKeepsAdd(t: Tables, op: Op, env: Env, other: Op)
    requires Adding(op) && AddOk(t, op) && AddOk(t, other) && Apart(op, other)
    ensures AddOk(StepAdd(t, op, env).0, other)
  {
    StepGrows(t, op, env);
    if other.AddItem? {
      if op.AddItem? && other.pid == op.pid {
        InsertedItem(t, op, env);
      } else {
        StepKeepsItems(t, op, env, other.pid);
      }
    }
    hide StepAdd, Grows, Items, Loaded;
    GrownKeepsAdd(t, StepAdd(t, op, env).0, other);
  }

  // ---- Every run ------------------------------------------------------------------------

  lemma NextKeepsAdds(fold: Fold, w: World, ev: Event)
    requires AddInv(w) && (ev.Start? ==> ev.op.AddLoad?)
    ensures AddInv(Next(fold, w, ev))
  {
    if ev.Advance? && ev.i < |w.ops| && !w.ops[ev.i].Done? {
      var op := w.ops[ev.i];
      assert Adding(op);
      var (t, next) := StepAdd(w.tables, op, ev.env);
      hide StepAdd, AddOk, SafePlaylist, Apart;
      forall p
        ensures SafePlaylist(t, p)
      {
        StepKeepsSafe(w.tables, op, ev.env, p);
      }
      if op.AddLoad? || op.AddLookup? || op.AddExisting? || op.AddVideo? {
        ReadingKeepsAdd(w.tables, op, ev.env);
      } else {
        WritingKeepsAdd(w.tables, op, ev.env);
      }
      forall j | 0 <= j < |w.ops| && j != ev.i
        ensures AddOk(t, w.ops[j]) && Apart(next, w.ops[j]) && Apart(w.ops[j], next)
      {
        ApartIsMutual(op, w.ops[j]);
        OtherKeepsAdd(w.tables, op, ev.env, w.ops[j]);
        OtherStaysApart(w.tables, op, ev.env, w.ops[j]);
        ApartIsMutual(next, w.ops[j]);
      }
    } else {
      hide SafePlaylist;
    }
  }

  lemma ApartIsMutual(op: Op, other: Op)
    ensures Apart(op, other) <==> Apart(other, op)
  {
  }

  lemma {:induction false} AfterKeepsAdds(fold: Fold, w: World, evs: seq<Event>)
    requires AddInv(w) && AddsOnly(evs)
    ensures AddInv(After(fold, w, evs))
    decreases |evs|
  {
    hide AddInv, Next;
    if evs != [] {
      assert evs[0] in evs;
      NextKeepsAdds(fold, w, evs[0]);
      AfterKeepsAdds(fold, Next(fold, w, evs[0]), evs[1..]);
    }
  }

  predicate AddsOnly(evs: seq<Event>) { forall ev :: ev in evs && ev.Start? ==> ev.op.AddLoad? }

  /** In any interleaving of adds a playlist has at most one row for a video, every row
      has its membership with the same time, and no stored count exceeds the number of
      rows. */
  lemma AddsAreSafe(fold: Fold, t: Tables, evs: seq<Event>, p: string)
    requires (forall q :: SafePlaylist(t, q)) && AddsOnly(evs)
    ensures var u := After(fold, World(t, []), evs).tables;
            && (forall k, l :: k in Items(u, p) && l in Items(u, p) && k.video == l.video ==> k == l)
            && (forall k :: k in Items(u, p) ==> p in u.byId && IsMember(u, u.byId[p].user, k.video, p, k.added))
            && (p in u.byId ==> u.byId[p].row.count <= |Items(u, p)|)
            && (forall user :: (user, p) in u.byUser ==> u.byUser[(user, p)].count <= |Items(u, p)|)
  {
    AfterKeepsAdds(fold, World(t, []), evs);
    var u := After(fold, World(t, []), evs).tables;
    hide After, AddOk, Apart;
    assert SafePlaylist(u, p);
  }
}
