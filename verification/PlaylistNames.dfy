/** Playlist names under interruption: handlers interleave table operation by table
    operation, and any of them may stop for good after any one. */
module PlaylistNames {
  import opened PlaylistTables
  import opened PlaylistHandlers

  datatype World = World(tables: Tables, ops: seq<Op>)

  datatype Event = Start(op: Op) | Advance(i: nat, env: Env) | Stop(i: nat)

  /** On one playlist, adds and removes run beside each other and beside a creation or
      a renaming; two of the latter do not, and nothing runs beside a deletion. */
  predicate MayOverlap(op: Op, other: Op) {
    || op.Done? || other.Done? || op.pid != other.pid
    || (ItemsOnly(op) && !Deleting(other)) || (ItemsOnly(other) && !Deleting(op))
  }

  predicate Enabled(w: World, ev: Event) {
    match ev
    case Start(op) => First(op) && forall i :: 0 <= i < |w.ops| ==> MayOverlap(w.ops[i], op)
    case Advance(i, env) => i < |w.ops| && !w.ops[i].Done?
    case Stop(i) => i < |w.ops|
  }

  function Next(fold: Fold, w: World, ev: Event): World {
    match ev
    case Start(op) => w.(ops := w.ops + [op])
    case Advance(i, env) =>
      if i >= |w.ops| then w
      else
        var (t, op) := Step(fold, w.tables, w.ops[i], env);
        World(t, w.ops[i := op])
    case Stop(i) =>
      if i >= |w.ops| then w else w.(ops := w.ops[i := Done(w.ops[i].user, w.ops[i].pid, 0)])
  }

  function After(fold: Fold, w: World, evs: seq<Event>): World
    decreases |evs|
  {
    if evs == [] then w else After(fold, Next(fold, w, evs[0]), evs[1..])
  }

  predicate CanRun(fold: Fold, w: World, evs: seq<Event>)
    decreases |evs|
  {
    evs == [] || (Enabled(w, evs[0]) && CanRun(fold, Next(fold, w, evs[0]), evs[1..]))
  }

  // ---- The invariant ------------------------------------------------------------------

  predicate Owned(t: Tables, user: int, pid: string) { pid in t.byId && t.byId[pid].user == user }

  predicate OwnedAs(t: Tables, user: int, pid: string, name: string) {
    Owned(t, user, pid) && t.byId[pid].row.name == name
  }

  /** The folded name is reserved to this playlist. */
  predicate Reserved(fold: Fold, t: Tables, user: int, name: string, pid: string) {
    (user, fold(name)) in t.names && t.names[(user, fold(name))] == pid
  }

  predicate Named(fold: Fold, t: Tables, pid: string) {
    pid in t.byId ==> Reserved(fold, t, t.byId[pid].user, t.byId[pid].row.name, pid)
  }

  ghost predicate ListedIsThere(t: Tables, pid: string) {
    forall u :: (u, pid) in t.byUser ==> Owned(t, u, pid)
  }

  ghost predicate PlaylistOk(fold: Fold, t: Tables, pid: string) { Named(fold, t, pid) && ListedIsThere(t, pid) }

  /** What a handler may rely on between its steps. */
  predicate OpOk(fold: Fold, t: Tables, op: Op) {
    match op
    case CreateCount(_, pid, _) => pid !in t.byId
    case CreateReserve(_, pid, _) => pid !in t.byId
    case CreateById(user, pid, name) => pid !in t.byId && Reserved(fold, t, user, name, pid)
    case CreateByUser(user, pid, name, _) => OwnedAs(t, user, pid, name)
    case RenameReserve(user, pid, name, oldName, _) => OwnedAs(t, user, pid, oldName) && fold(oldName) != fold(name)
    case RenameById(user, pid, name, oldName, _, release) =>
      OwnedAs(t, user, pid, oldName) && Reserved(fold, t, user, name, pid) && (release <==> fold(oldName) != fold(name))
    case RenameByUser(user, pid, name, oldName, _, release) =>
      && OwnedAs(t, user, pid, name) && (release <==> fold(oldName) != fold(name))
      && (release ==> Reserved(fold, t, user, oldName, pid))
    case RenameRelease(user, pid, name, oldName) =>
      OwnedAs(t, user, pid, name) && Reserved(fold, t, user, oldName, pid) && fold(oldName) != fold(name)
    case DeleteByUser(user, pid, oldName) => OwnedAs(t, user, pid, oldName)
    case DeleteById(user, pid, oldName) => OwnedAs(t, user, pid, oldName) && (user, pid) !in t.byUser
    case DeleteRelease(user, pid, oldName) => pid !in t.byId && Reserved(fold, t, user, oldName, pid)
    case AddLookup(user, pid, _, _) => Owned(t, user, pid)
    case AddExisting(user, pid, _, _, _) => Owned(t, user, pid)
    case AddVideo(user, pid, _, _) => Owned(t, user, pid)
    case AddClaim(user, pid, _, _, _) => Owned(t, user, pid)
    case AddItem(user, pid, _, _, _, _) => Owned(t, user, pid)
    case AddById(user, pid, _, _, _) => Owned(t, user, pid)
    case AddByUser(user, pid, _, _, _) => Owned(t, user, pid)
    case RemoveLookup(user, pid, _, _) => Owned(t, user, pid)
    case RemoveItem(user, pid, _, _, _) => Owned(t, user, pid)
    case RemoveMember(user, pid, _, _) => Owned(t, user, pid)
    case RemoveCovers(user, pid, _) => Owned(t, user, pid)
    case RemoveById(user, pid, _, _, _) => Owned(t, user, pid)
    case RemoveByUser(user, pid, _, _, _) => Owned(t, user, pid)
    case _ => true
  }

  predicate Exclusive(ops: seq<Op>) { forall i, j :: 0 <= i < j < |ops| ==> MayOverlap(ops[i], ops[j]) }

  ghost predicate Inv(fold: Fold, w: World) {
    && (forall p :: PlaylistOk(fold, w.tables, p))
    && (forall i :: 0 <= i < |w.ops| ==> OpOk(fold, w.tables, w.ops[i]))
    && Exclusive(w.ops)
  }

  // ---- A step concerns its own playlist only ------------------------------------------

  /** As far as names and ownership go, nothing changed for playlist q. */
  ghost predicate Same(t: Tables, t': Tables, q: string) {
    && (q in t.byId <==> q in t'.byId) && (q in t.byId ==> t.byId[q] == t'.byId[q])
    && (forall u :: (u, q) in t.byUser <==> (u, q) in t'.byUser)
    && (forall k :: k in t.names && t.names[k] == q <==> k in t'.names && t'.names[k] == q)
  }

  lemma SameKeepsPlaylist(fold: Fold, t: Tables, t': Tables, q: string)
    requires Same(t, t', q) && PlaylistOk(fold, t, q)
    ensures PlaylistOk(fold, t', q)
  {
  }

  lemma SameKeepsOp(fold: Fold, t: Tables, t': Tables, op: Op)
    requires Same(t, t', op.pid) && OpOk(fold, t, op)
    ensures OpOk(fold, t', op)
  {
  }

  lemma CreateLeavesOthers(fold: Fold, t: Tables, op: Op, env: Env, q: string)
    requires Creating(op) && OpOk(fold, t, op) && q != op.pid
    ensures Same(t, StepCreate(fold, t, op, env).0, q)
  {
  }

  lemma RenameLeavesOthers(fold: Fold, t: Tables, op: Op, env: Env, q: string)
    requires Renaming(op) && OpOk(fold, t, op) && q != op.pid
    ensures Same(t, StepRename(fold, t, op, env).0, q)
  {
  }

  lemma DeleteLeavesOthers(fold: Fold, t: Tables, op: Op, env: Env, q: string)
    requires Deleting(op) && OpOk(fold, t, op) && q != op.pid
    ensures Same(t, StepDelete(fold, t, op, env).0, q)
  {
    hide Items, Videos, ItemOrder.Sorted;
  }

  lemma AddLeavesOthers(fold: Fold, t: Tables, op: Op, env: Env, q: string)
    requires Adding(op) && OpOk(fold, t, op) && q != op.pid
    ensures Same(t, StepAdd(t, op, env).0, q)
  {
    hide Items, Prepended;
  }

  lemma RemoveLeavesOthers(fold: Fold, t: Tables, op: Op, env: Env, q: string)
    requires Removing(op) && OpOk(fold, t, op) && q != op.pid
    ensures Same(t, StepRemove(t, op, env).0, q)
  {
    hide Items, Recomputed, OneLess;
  }

  lemma StepLeavesOthers(fold: Fold, t: Tables, op: Op, env: Env, q: string)
    requires OpOk(fold, t, op) && q != op.pid
    ensures Same(t, Step(fold, t, op, env).0, q)
  {
    assert op.Done? ==> Same(t, t, q);
    hide OpOk, PlaylistOk, StepCreate, StepRename, StepDelete, StepAdd, StepRemove, Same;
    if Creating(op) {
      CreateLeavesOthers(fold, t, op, env, q);
    } else if Renaming(op) {
      RenameLeavesOthers(fold, t, op, env, q);
    } else if Deleting(op) {
      DeleteLeavesOthers(fold, t, op, env, q);
    } else if Adding(op) {
      AddLeavesOthers(fold, t, op, env, q);
    } else if Removing(op) {
      RemoveLeavesOthers(fold, t, op, env, q);
    }
  }

  lemma CreateKeepsOwn(fold: Fold, t: Tables, op: Op, env: Env)
    requires Creating(op) && OpOk(fold, t, op) && PlaylistOk(fold, t, op.pid)
    ensures var (t', next) := StepCreate(fold, t, op, env); PlaylistOk(fold, t', op.pid) && OpOk(fold, t', next)
  {
  }

  lemma RenameKeepsOwn(fold: Fold, t: Tables, op: Op, env: Env)
    requires Renaming(op) && OpOk(fold, t, op) && PlaylistOk(fold, t, op.pid)
    ensures var (t', next) := StepRename(fold, t, op, env); PlaylistOk(fold, t', op.pid) && OpOk(fold, t', next)
  {
  }

  lemma DeleteKeepsPlaylist(fold: Fold, t: Tables, op: Op, env: Env)
    requires Deleting(op) && OpOk(fold, t, op) && PlaylistOk(fold, t, op.pid)
    ensures PlaylistOk(fold, StepDelete(fold, t, op, env).0, op.pid)
  {
    hide Items, Videos, ItemOrder.Sorted;
  }

  lemma DeleteKeepsOp(fold: Fold, t: Tables, op: Op, env: Env)
    requires Deleting(op) && OpOk(fold, t, op) && PlaylistOk(fold, t, op.pid)
    ensures var (t', next) := StepDelete(fold, t, op, env); OpOk(fold, t', next)
  {
    hide Items, Videos, ItemOrder.Sorted;
  }

  lemma AddKeepsPlaylist(fold: Fold, t: Tables, op: Op, env: Env)
    requires Adding(op) && OpOk(fold, t, op) && PlaylistOk(fold, t, op.pid)
    ensures PlaylistOk(fold, StepAdd(t, op, env).0, op.pid)
  {
    hide Items, Prepended;
  }

  lemma AddKeepsOp(fold: Fold, t: Tables, op: Op, env: Env)
    requires Adding(op) && OpOk(fold, t, op)
    ensures var (t', next) := StepAdd(t, op, env); OpOk(fold, t', next)
  {
    hide PlaylistOk, Reserved, Items, Renamed, Prepended;
  }

  lemma RemoveKeepsPlaylist(fold: Fold, t: Tables, op: Op, env: Env)
    requires Removing(op) && OpOk(fold, t, op) && PlaylistOk(fold, t, op.pid)
    ensures PlaylistOk(fold, StepRemove(t, op, env).0, op.pid)
  {
    hide Items, Recomputed, OneLess;
  }

  lemma RemoveKeepsOp(fold: Fold, t: Tables, op: Op, env: Env)
    requires Removing(op) && OpOk(fold, t, op)
    ensures var (t', next) := StepRemove(t, op, env); OpOk(fold, t', next)
  {
    hide PlaylistOk, Reserved, Items, Renamed, Recomputed, OneLess;
  }

  lemma StepKeepsOwn(fold: Fold, t: Tables, op: Op, env: Env)
    requires OpOk(fold, t, op) && PlaylistOk(fold, t, op.pid)
    ensures var (t', next) := Step(fold, t, op, env); PlaylistOk(fold, t', op.pid) && OpOk(fold, t', next)
  {
    hide OpOk, PlaylistOk, StepCreate, StepRename, StepDelete, StepAdd, StepRemove, Same;
    if Creating(op) {
      CreateKeepsOwn(fold, t, op, env);
    } else if Renaming(op) {
      RenameKeepsOwn(fold, t, op, env);
    } else if Deleting(op) {
      DeleteKeepsPlaylist(fold, t, op, env);
      DeleteKeepsOp(fold, t, op, env);
    } else if Adding(op) {
      AddKeepsPlaylist(fold, t, op, env);
      AddKeepsOp(fold, t, op, env);
    } else if Removing(op) {
      RemoveKeepsPlaylist(fold, t, op, env);
      RemoveKeepsOp(fold, t, op, env);
    }
  }

  // ---- Every run ------------------------------------------------------------------------

  /** The playlist is the same one, with the same owner and name. */
  predicate SameNaming(t: Tables, t': Tables, pid: string) {
    && t'.names == t.names && (pid in t.byId <==> pid in t'.byId)
    && (pid in t.byId ==>
          t'.byId[pid].user == t.byId[pid].user && t'.byId[pid].row.name == t.byId[pid].row.name)
  }

  lemma AddLeavesNaming(fold: Fold, t: Tables, op: Op, env: Env)
    requires Adding(op) && OpOk(fold, t, op)
    ensures SameNaming(t, StepAdd(t, op, env).0, op.pid)
  {
    hide Items, Prepended, Reserved;
  }

  lemma RemoveLeavesNaming(fold: Fold, t: Tables, op: Op, env: Env)
    requires Removing(op) && OpOk(fold, t, op)
    ensures SameNaming(t, StepRemove(t, op, env).0, op.pid)
  {
    hide Items, Recomputed, OneLess, Reserved;
  }

  lemma CreateKeepsOwner(fold: Fold, t: Tables, op: Op, env: Env, user: int)
    requires Creating(op) && OpOk(fold, t, op) && Owned(t, user, op.pid)
    ensures Owned(StepCreate(fold, t, op, env).0, user, op.pid)
  {
    hide Listed;
  }

  lemma RenameKeepsOwner(fold: Fold, t: Tables, op: Op, env: Env, user: int)
    requires Renaming(op) && OpOk(fold, t, op) && Owned(t, user, op.pid)
    ensures Owned(StepRename(fold, t, op, env).0, user, op.pid)
  {
  }

  lemma SameNamingKeepsOp(fold: Fold, t: Tables, t': Tables, op: Op)
    requires OpOk(fold, t, op) && SameNaming(t, t', op.pid) && !Deleting(op)
    ensures OpOk(fold, t', op)
  {
  }

  /** All that an add or a remove relies on is who owns the playlist. */
  lemma OwnerKeepsOp(fold: Fold, t: Tables, t': Tables, op: Op)
    requires OpOk(fold, t, op) && ItemsOnly(op) && (Owned(t, op.user, op.pid) ==> Owned(t', op.user, op.pid))
    ensures OpOk(fold, t', op)
  {
    hide Owned, Reserved;
  }

  lemma ItemsKeepOp(fold: Fold, t: Tables, op: Op, env: Env, other: Op)
    requires OpOk(fold, t, op) && OpOk(fold, t, other) && other.pid == op.pid
    requires ItemsOnly(op) && !Deleting(other)
    ensures OpOk(fold, Step(fold, t, op, env).0, other)
  {
    hide OpOk, StepCreate, StepRename, StepDelete, StepAdd, StepRemove, SameNaming;
    if Adding(op) {
      AddLeavesNaming(fold, t, op, env);
    } else {
      RemoveLeavesNaming(fold, t, op, env);
    }
    SameNamingKeepsOp(fold, t, Step(fold, t, op, env).0, other);
  }

  lemma NamingKeepsOp(fold: Fold, t: Tables, op: Op, env: Env, other: Op)
    requires OpOk(fold, t, op) && OpOk(fold, t, other) && other.pid == op.pid
    requires ItemsOnly(other) && (Creating(op) || Renaming(op))
    ensures OpOk(fold, Step(fold, t, op, env).0, other)
  {
    hide OpOk, StepCreate, StepRename, StepDelete, StepAdd, StepRemove, ItemsOnly;
    if Owned(t, other.user, op.pid) {
      if Creating(op) {
        CreateKeepsOwner(fold, t, op, env, other.user);
      } else {
        RenameKeepsOwner(fold, t, op, env, other.user);
      }
    }
    OwnerKeepsOp(fold, t, Step(fold, t, op, env).0, other);
  }

  lemma OtherOpKept(fold: Fold, t: Tables, op: Op, env: Env, other: Op)
    requires OpOk(fold, t, op) && OpOk(fold, t, other) && !op.Done? && MayOverlap(op, other)
    ensures OpOk(fold, Step(fold, t, op, env).0, other)
  {
    assert other.Done? ==> OpOk(fold, Step(fold, t, op, env).0, other);
    hide Step, OpOk, Same;
    if !other.Done? {
      if other.pid != op.pid {
        StepLeavesOthers(fold, t, op, env, other.pid);
        SameKeepsOp(fold, t, Step(fold, t, op, env).0, other);
      } else if ItemsOnly(op) && !Deleting(other) {
        ItemsKeepOp(fold, t, op, env, other);
      } else {
        NamingKeepsOp(fold, t, op, env, other);
      }
    }
  }

  lemma OverlapContinues(op: Op, next: Op, other: Op)
    requires GoesOn(op, next) && !op.Done?
    requires next.Done? || ((ItemsOnly(op) ==> ItemsOnly(next)) && (Deleting(next) ==> Deleting(op)))
    ensures MayOverlap(op, other) ==> MayOverlap(next, other)
  {
    hide ItemsOnly, Deleting, Phase, Left;
  }

  lemma OverlapIsMutual(op: Op, other: Op)
    ensures MayOverlap(op, other) <==> MayOverlap(other, op)
  {
    hide ItemsOnly, Deleting;
  }

  lemma AdvanceKeeps(fold: Fold, w: World, i: nat, env: Env)
    requires Inv(fold, w) && i < |w.ops| && !w.ops[i].Done?
    ensures Inv(fold, Next(fold, w, Advance(i, env)))
  {
    hide Step, OpOk, PlaylistOk, Same, MayOverlap, GoesOn, ItemsOnly, Deleting;
    var op := w.ops[i];
    var (t, next) := Step(fold, w.tables, op, env);
    StepKeepsOwn(fold, w.tables, op, env);
    StepGoesOn(fold, w.tables, op, env);
    StepContinues(fold, w.tables, op, env);
    forall p | p != op.pid
      ensures PlaylistOk(fold, t, p)
    {
      StepLeavesOthers(fold, w.tables, op, env, p);
      SameKeepsPlaylist(fold, w.tables, t, p);
    }
    forall j | 0 <= j < |w.ops| && j != i
      ensures OpOk(fold, t, w.ops[j]) && MayOverlap(w.ops[j], next) && MayOverlap(next, w.ops[j])
    {
      OverlapIsMutual(op, w.ops[j]);
      OverlapContinues(op, next, w.ops[j]);
      OverlapIsMutual(next, w.ops[j]);
      OtherOpKept(fold, w.tables, op, env, w.ops[j]);
    }
  }

  lemma NextKeeps(fold: Fold, w: World, ev: Event)
    requires Inv(fold, w) && Enabled(w, ev)
    ensures Inv(fold, Next(fold, w, ev))
  {
    if ev.Advance? {
      hide Next, Inv;
      AdvanceKeeps(fold, w, ev.i, ev.env);
    } else {
      hide Step, PlaylistOk;
    }
  }

  lemma {:induction false} AfterKeeps(fold: Fold, w: World, evs: seq<Event>)
    requires Inv(fold, w) && CanRun(fold, w, evs)
    ensures Inv(fold, After(fold, w, evs))
    decreases |evs|
  {
    hide Inv, Next, Enabled;
    if evs != [] {
      NextKeeps(fold, w, evs[0]);
      AfterKeeps(fold, Next(fold, w, evs[0]), evs[1..]);
    }
  }

  /** Tables to start from: what playlist_by_id says is reserved, what is listed is
      there. Empty tables are like that. */
  ghost predicate Consistent(fold: Fold, t: Tables) { forall p :: PlaylistOk(fold, t, p) }

  predicate SameName(fold: Fold, m: Meta, n: Meta) { m.user == n.user && fold(m.row.name) == fold(n.row.name) }

  /** Wherever handlers are, and whichever have stopped, the names of a user's playlists
      differ after folding, each is reserved to its playlist, and a listed playlist can
      be looked up. */
  lemma NamesStayUnique(fold: Fold, t: Tables, evs: seq<Event>, p: string, q: string)
    requires Consistent(fold, t) && CanRun(fold, World(t, []), evs)
    ensures var u := After(fold, World(t, []), evs).tables;
            && (p in u.byId ==> Reserved(fold, u, u.byId[p].user, u.byId[p].row.name, p))
            && (forall user :: (user, p) in u.byUser ==> Owned(u, user, p))
            && (p in u.byId && q in u.byId && SameName(fold, u.byId[p], u.byId[q]) ==> p == q)
  {
    var w := World(t, []);
    AfterKeeps(fold, w, evs);
    var v := After(fold, w, evs);
    hide After;
    assert PlaylistOk(fold, v.tables, p) && PlaylistOk(fold, v.tables, q);
  }

  /** No handler takes a name that is reserved to another playlist, or releases it. */
  lemma ReservationsAreSafe(fold: Fold, t: Tables, evs: seq<Event>, ev: Event, k: (int, string))
    requires Consistent(fold, t) && CanRun(fold, World(t, []), evs) && Enabled(After(fold, World(t, []), evs), ev)
    requires k in After(fold, World(t, []), evs).tables.names
    ensures var w := After(fold, World(t, []), evs);
            var names := Next(fold, w, ev).tables.names;
            (k in names && names[k] == w.tables.names[k])
            || (ev.Advance? && w.tables.names[k] == w.ops[ev.i].pid && k !in names)
  {
    var w := After(fold, World(t, []), evs);
    AfterKeeps(fold, World(t, []), evs);
    hide After, OpOk, Same, Step, PlaylistOk;
    if ev.Advance? {
      OwnReservation(fold, w.tables, w.ops[ev.i], ev.env, k);
    }
  }

  lemma OwnReservation(fold: Fold, t: Tables, op: Op, env: Env, k: (int, string))
    requires OpOk(fold, t, op) && k in t.names
    ensures var names := Step(fold, t, op, env).0.names;
            (k in names && names[k] == t.names[k]) || (t.names[k] == op.pid && k !in names)
  {
    hide Step, OpOk;
    var q := t.names[k];
    if q != op.pid {
      StepLeavesOthers(fold, t, op, env, q);
      assert Same(t, Step(fold, t, op, env).0, q);
    } else {
      NamesStep(fold, t, op, env, k);
    }
  }

  /** A reservation is only ever made where there was none. */
  lemma NamesStep(fold: Fold, t: Tables, op: Op, env: Env, k: (int, string))
    requires k in t.names
    ensures var names := Step(fold, t, op, env).0.names;
            k in names ==> names[k] == t.names[k]
  {
    if Creating(op) || Renaming(op) {
      EarlyNamesStep(fold, t, op, env, k);
    } else if Deleting(op) {
      DeleteNamesStep(fold, t, op, env, k);
    } else {
      hide StepCreate, StepRename, StepDelete, Items, Recomputed, Prepended, OneLess;
    }
  }

  lemma EarlyNamesStep(fold: Fold, t: Tables, op: Op, env: Env, k: (int, string))
    requires k in t.names && (Creating(op) || Renaming(op))
    ensures var names := Step(fold, t, op, env).0.names;
            k in names ==> names[k] == t.names[k]
  {
    hide StepDelete, StepAdd, StepRemove, Listed, IdRow, UserRow, Renamed;
  }

  lemma DeleteNamesStep(fold: Fold, t: Tables, op: Op, env: Env, k: (int, string))
    requires k in t.names && Deleting(op)
    ensures var names := Step(fold, t, op, env).0.names;
            k in names ==> names[k] == t.names[k]
  {
    hide StepCreate, StepRename, StepAdd, StepRemove, Items, ItemOrder.Sorted, Videos;
  }
}
