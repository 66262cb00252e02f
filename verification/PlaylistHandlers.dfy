/** The five playlist handlers as sequences of single table operations. A handler can
    be interrupted between any two of them, and stop there for good. */
module PlaylistHandlers {
  import opened Wrappers
  import opened ItemOrder
  import opened PlaylistTables

  const OK := 200
  const CREATED := 201
  const NO_CONTENT := 204
  const NOT_FOUND := 404
  const CONFLICT := 409
  const TOO_LARGE := 413

  /** Where a handler is: the table operation it performs next, with what it has read
      so far. */
  datatype Op =
    | CreateLoad(user: int, pid: string, name: string)
    | CreateCount(user: int, pid: string, name: string)
    | CreateReserve(user: int, pid: string, name: string)
    | CreateById(user: int, pid: string, name: string)
    | CreateByUser(user: int, pid: string, name: string, now: int)
    | RenameLoad(user: int, pid: string, name: string)
    | RenameReserve(user: int, pid: string, name: string, oldName: string, now: int)
    | RenameById(user: int, pid: string, name: string, oldName: string, now: int, release: bool)
    | RenameByUser(user: int, pid: string, name: string, oldName: string, now: int, release: bool)
    | RenameRelease(user: int, pid: string, name: string, oldName: string)
    | DeleteLoad(user: int, pid: string)
    | DeleteByUser(user: int, pid: string, oldName: string)
    | DeleteById(user: int, pid: string, oldName: string)
    | DeleteRelease(user: int, pid: string, oldName: string)
    | DeleteRead(user: int, pid: string)
    | DeletePurge(user: int, pid: string, videos: seq<string>)
    | DeleteItems(user: int, pid: string)
    | AddLoad(user: int, pid: string, video: string)
    | AddLookup(user: int, pid: string, video: string, row: Row)
    | AddExisting(user: int, pid: string, video: string, row: Row, added: int)
    | AddVideo(user: int, pid: string, video: string, row: Row)
    | AddClaim(user: int, pid: string, video: string, row: Row, snap: Snap)
    | AddItem(user: int, pid: string, video: string, row: Row, snap: Snap, added: int)
    | AddById(user: int, pid: string, row: Row, snap: Snap, added: int)
    | AddByUser(user: int, pid: string, row: Row, snap: Snap, added: int)
    | RemoveLoad(user: int, pid: string, video: string)
    | RemoveLookup(user: int, pid: string, video: string, row: Row)
    | RemoveItem(user: int, pid: string, video: string, row: Row, added: int)
    | RemoveMember(user: int, pid: string, video: string, row: Row)
    | RemoveCovers(user: int, pid: string, row: Row)
    | RemoveById(user: int, pid: string, row: Row, covers: seq<string>, now: int)
    | RemoveByUser(user: int, pid: string, row: Row, covers: seq<string>, now: int)
    | Done(user: int, pid: string, status: int)

  /** What the outside answers a step: the clock, the canonical video merged with the
      client's fields, and whether a write that may fail without consequence does. */
  datatype Env = Env(now: int, canonical: Option<Snap>, fails: bool)

  predicate Creating(op: Op) {
    op.CreateLoad? || op.CreateCount? || op.CreateReserve? || op.CreateById? || op.CreateByUser?
  }

  predicate Renaming(op: Op) {
    op.RenameLoad? || op.RenameReserve? || op.RenameById? || op.RenameByUser? || op.RenameRelease?
  }

  predicate Deleting(op: Op) {
    op.DeleteLoad? || op.DeleteByUser? || op.DeleteById? || op.DeleteRelease? || op.DeleteRead? || op.DeletePurge?
    || op.DeleteItems?
  }

  predicate Adding(op: Op) {
    op.AddLoad? || op.AddLookup? || op.AddExisting? || op.AddVideo? || op.AddClaim? || op.AddItem? || op.AddById?
    || op.AddByUser?
  }

  predicate Removing(op: Op) {
    op.RemoveLoad? || op.RemoveLookup? || op.RemoveItem? || op.RemoveMember? || op.RemoveCovers? || op.RemoveById?
    || op.RemoveByUser?
  }

  function StepCreate(fold: Fold, t: Tables, op: Op, env: Env): (Tables, Op)
    requires Creating(op)
  {
    match op
    case CreateLoad(user, pid, name) =>
      (t, if pid in t.byId then
            var m := t.byId[pid];
            Done(user, pid, if m.user == user && fold(m.row.name) == fold(name) then OK else CONFLICT)
          else CreateCount(user, pid, name))
    case CreateCount(user, pid, name) =>
      (t, if |Listed(t, user)| >= MAX_PLAYLISTS then Done(user, pid, CONFLICT) else CreateReserve(user, pid, name))
    case CreateReserve(user, pid, name) =>
      if (user, fold(name)) in t.names then (t, Done(user, pid, CONFLICT))
      else (t.(names := t.names[(user, fold(name)) := pid]), CreateById(user, pid, name))
    case CreateById(user, pid, name) =>
      (PutId(t, pid, Meta(user, Row(name, env.now, env.now, 0, []))), CreateByUser(user, pid, name, env.now))
    case CreateByUser(user, pid, name, now) =>
      (PutUser(t, user, pid, Row(name, now, now, 0, [])), Done(user, pid, CREATED))
  }

  function StepRename(fold: Fold, t: Tables, op: Op, env: Env): (Tables, Op)
    requires Renaming(op)
  {
    match op
    case RenameLoad(user, pid, name) =>
      (t, if pid !in t.byId || t.byId[pid].user != user then Done(user, pid, NOT_FOUND)
          else
            var oldName := t.byId[pid].row.name;
            if fold(oldName) != fold(name) then RenameReserve(user, pid, name, oldName, env.now)
            else if oldName != name then RenameById(user, pid, name, oldName, env.now, false)
            else Done(user, pid, OK))
    case RenameReserve(user, pid, name, oldName, now) =>
      if (user, fold(name)) in t.names then (t, Done(user, pid, CONFLICT))
      else (t.(names := t.names[(user, fold(name)) := pid]), RenameById(user, pid, name, oldName, now, true))
    case RenameById(user, pid, name, oldName, now, release) =>
      (PutId(t, pid, IdRow(t, pid).(row := Renamed(IdRow(t, pid).row, name, now))),
       RenameByUser(user, pid, name, oldName, now, release))
    case RenameByUser(user, pid, name, oldName, now, release) =>
      (PutUser(t, user, pid, Renamed(UserRow(t, user, pid), name, now)),
       if release then RenameRelease(user, pid, name, oldName) else Done(user, pid, OK))
    case RenameRelease(user, pid, name, oldName) =>
      (if env.fails then t else t.(names := t.names - {(user, fold(oldName))}), Done(user, pid, OK))
  }

  function StepDelete(fold: Fold, t: Tables, op: Op, env: Env): (Tables, Op)
    requires Deleting(op)
  {
    match op
    case DeleteLoad(user, pid) =>
      (t, if pid !in t.byId || t.byId[pid].user != user then Done(user, pid, NO_CONTENT)
          else DeleteByUser(user, pid, t.byId[pid].row.name))
    case DeleteByUser(user, pid, oldName) =>
      (t.(byUser := t.byUser - {(user, pid)}), DeleteById(user, pid, oldName))
    case DeleteById(user, pid, oldName) =>
      (t.(byId := t.byId - {pid}), DeleteRelease(user, pid, oldName))
    case DeleteRelease(user, pid, oldName) =>
      (if env.fails then t else t.(names := t.names - {(user, fold(oldName))}), DeleteRead(user, pid))
    case DeleteRead(user, pid) =>
      (t, DeletePurge(user, pid, if env.fails then [] else Videos(Sorted(Items(t, pid).Keys))))
    case DeletePurge(user, pid, videos) =>
      if videos == [] then (t, DeleteItems(user, pid))
      else (if env.fails then t else t.(byVideo := t.byVideo - {(user, videos[0], pid)}),
            DeletePurge(user, pid, videos[1..]))
    case DeleteItems(user, pid) =>
      (if env.fails then t else DropItems(t, pid), Done(user, pid, NO_CONTENT))
  }

  function StepAdd(t: Tables, op: Op, env: Env): (Tables, Op)
    requires Adding(op)
  {
    match op
    case AddLoad(user, pid, video) =>
      (t, if pid !in t.byId || t.byId[pid].user != user then Done(user, pid, NOT_FOUND)
          else AddLookup(user, pid, video, t.byId[pid].row))
    case AddLookup(user, pid, video, row) =>
      (t, if (user, video, pid) in t.byVideo then AddExisting(user, pid, video, row, t.byVideo[(user, video, pid)])
          else AddVideo(user, pid, video, row))
    case AddExisting(user, pid, video, row, added) =>
      (t, if Key(added, video) in Items(t, pid) then Done(user, pid, OK) else AddVideo(user, pid, video, row))
    case AddVideo(user, pid, video, row) =>
      (t, if row.count >= MAX_ITEMS then Done(user, pid, TOO_LARGE)
          else if env.canonical.None? then Done(user, pid, NOT_FOUND)
          else AddClaim(user, pid, video, row, env.canonical.value))
    case AddClaim(user, pid, video, row, snap) =>
      if (user, video, pid) in t.byVideo then (t, Done(user, pid, OK))
      else (t.(byVideo := t.byVideo[(user, video, pid) := env.now]), AddItem(user, pid, video, row, snap, env.now))
    case AddItem(user, pid, video, row, snap, added) =>
      (PutItem(t, pid, Key(added, video), snap), AddById(user, pid, row, snap, added))
    case AddById(user, pid, row, snap, added) =>
      var covers := Prepended(snap.thumbnail, row.covers);
      (PutId(t, pid, IdRow(t, pid).(row := Recounted(IdRow(t, pid).row, row.count + 1, covers, added))),
       AddByUser(user, pid, row, snap, added))
    case AddByUser(user, pid, row, snap, added) =>
      var covers := Prepended(snap.thumbnail, row.covers);
      (PutUser(t, user, pid, Recounted(UserRow(t, user, pid), row.count + 1, covers, added)),
       Done(user, pid, CREATED))
  }

  function StepRemove(t: Tables, op: Op, env: Env): (Tables, Op)
    requires Removing(op)
  {
    match op
    case RemoveLoad(user, pid, video) =>
      (t, if pid !in t.byId || t.byId[pid].user != user then Done(user, pid, NO_CONTENT)
          else RemoveLookup(user, pid, video, t.byId[pid].row))
    case RemoveLookup(user, pid, video, row) =>
      (t, if (user, video, pid) !in t.byVideo then Done(user, pid, NO_CONTENT)
          else RemoveItem(user, pid, video, row, t.byVideo[(user, video, pid)]))
    case RemoveItem(user, pid, video, row, added) =>
      (if env.fails then t else DropItem(t, pid, Key(added, video)), RemoveMember(user, pid, video, row))
    case RemoveMember(user, pid, video, row) =>
      (if env.fails then t else t.(byVideo := t.byVideo - {(user, video, pid)}), RemoveCovers(user, pid, row))
    case RemoveCovers(user, pid, row) =>
      (t, RemoveById(user, pid, row, if env.fails then row.covers else Recomputed(Items(t, pid)), env.now))
    case RemoveById(user, pid, row, covers, now) =>
      if env.fails then (t, Done(user, pid, NO_CONTENT))
      else
        (PutId(t, pid, IdRow(t, pid).(row := Recounted(IdRow(t, pid).row, OneLess(row.count), covers, now))),
         RemoveByUser(user, pid, row, covers, now))
    case RemoveByUser(user, pid, row, covers, now) =>
      (if env.fails then t
       else PutUser(t, user, pid, Recounted(UserRow(t, user, pid), OneLess(row.count), covers, now)),
       Done(user, pid, NO_CONTENT))
  }

  function OneLess(count: int): int { if count > 0 then count - 1 else 0 }

  /** One table operation of a handler. */
  function Step(fold: Fold, t: Tables, op: Op, env: Env): (Tables, Op) {
    if op.Done? then (t, op)
    else if Creating(op) then StepCreate(fold, t, op, env)
    else if Renaming(op) then StepRename(fold, t, op, env)
    else if Deleting(op) then StepDelete(fold, t, op, env)
    else if Adding(op) then StepAdd(t, op, env)
    else StepRemove(t, op, env)
  }

  /** How many kinds of operations are still ahead. */
  function Phase(op: Op): nat {
    match op
    case CreateLoad(_, _, _) => 5
    case CreateCount(_, _, _) => 4
    case CreateReserve(_, _, _) => 3
    case CreateById(_, _, _) => 2
    case CreateByUser(_, _, _, _) => 1
    case RenameLoad(_, _, _) => 5
    case RenameReserve(_, _, _, _, _) => 4
    case RenameById(_, _, _, _, _, _) => 3
    case RenameByUser(_, _, _, _, _, _) => 2
    case RenameRelease(_, _, _, _) => 1
    case DeleteLoad(_, _) => 7
    case DeleteByUser(_, _, _) => 6
    case DeleteById(_, _, _) => 5
    case DeleteRelease(_, _, _) => 4
    case DeleteRead(_, _) => 3
    case DeletePurge(_, _, _) => 2
    case DeleteItems(_, _) => 1
    case AddLoad(_, _, _) => 8
    case AddLookup(_, _, _, _) => 7
    case AddExisting(_, _, _, _, _) => 6
    case AddVideo(_, _, _, _) => 5
    case AddClaim(_, _, _, _, _) => 4
    case AddItem(_, _, _, _, _, _) => 3
    case AddById(_, _, _, _, _) => 2
    case AddByUser(_, _, _, _, _) => 1
    case RemoveLoad(_, _, _) => 7
    case RemoveLookup(_, _, _, _) => 6
    case RemoveItem(_, _, _, _, _) => 5
    case RemoveMember(_, _, _, _) => 4
    case RemoveCovers(_, _, _) => 3
    case RemoveById(_, _, _, _, _) => 2
    case RemoveByUser(_, _, _, _, _) => 1
    case Done(_, _, _) => 0
  }

  function Left(op: Op): nat { if op.DeletePurge? then |op.videos| else 0 }

  predicate GoesOn(op: Op, next: Op) {
    && (Phase(next) < Phase(op) || (Phase(next) == Phase(op) && Left(next) < Left(op)))
    && next.pid == op.pid && next.user == op.user
  }

  lemma CreateGoesOn(fold: Fold, t: Tables, op: Op, env: Env)
    requires Creating(op)
    ensures GoesOn(op, StepCreate(fold, t, op, env).1)
  {
    hide PutId, PutUser, IdRow, UserRow, Renamed, Recounted, Items, PutItem, DropItem, DropItems, Recomputed,
         Prepended, OneLess, Listed, Sorted, Videos;
  }

  lemma RenameGoesOn(fold: Fold, t: Tables, op: Op, env: Env)
    requires Renaming(op)
    ensures GoesOn(op, StepRename(fold, t, op, env).1)
  {
    hide PutId, PutUser, IdRow, UserRow, Renamed, Recounted, Items, PutItem, DropItem, DropItems, Recomputed,
         Prepended, OneLess, Listed, Sorted, Videos;
  }

  lemma DeleteGoesOn(fold: Fold, t: Tables, op: Op, env: Env)
    requires Deleting(op)
    ensures GoesOn(op, StepDelete(fold, t, op, env).1)
  {
    hide PutId, PutUser, IdRow, UserRow, Renamed, Recounted, Items, PutItem, DropItem, DropItems, Recomputed,
         Prepended, OneLess, Listed, Sorted, Videos;
  }

  lemma AddGoesOn(t: Tables, op: Op, env: Env)
    requires Adding(op)
    ensures GoesOn(op, StepAdd(t, op, env).1)
  {
    hide PutId, PutUser, IdRow, UserRow, Renamed, Recounted, Items, PutItem, DropItem, DropItems, Recomputed,
         Prepended, OneLess, Listed, Sorted, Videos;
  }

  lemma RemoveGoesOn(t: Tables, op: Op, env: Env)
    requires Removing(op)
    ensures GoesOn(op, StepRemove(t, op, env).1)
  {
    hide PutId, PutUser, IdRow, UserRow, Renamed, Recounted, Items, PutItem, DropItem, DropItems, Recomputed,
         Prepended, OneLess, Listed, Sorted, Videos, Left;
  }

  lemma StepGoesOn(fold: Fold, t: Tables, op: Op, env: Env)
    requires !op.Done?
    ensures GoesOn(op, Step(fold, t, op, env).1)
  {
    hide GoesOn, Phase, StepCreate, StepRename, StepDelete, StepAdd, StepRemove;
    if Creating(op) {
      CreateGoesOn(fold, t, op, env);
    } else if Renaming(op) {
      RenameGoesOn(fold, t, op, env);
    } else if Deleting(op) {
      DeleteGoesOn(fold, t, op, env);
    } else if Adding(op) {
      AddGoesOn(t, op, env);
    } else {
      RemoveGoesOn(t, op, env);
    }
  }

  predicate ItemsOnly(op: Op) { Adding(op) || Removing(op) }

  lemma CreateContinues(fold: Fold, t: Tables, op: Op, env: Env)
    requires Creating(op)
    ensures Creating(StepCreate(fold, t, op, env).1) || StepCreate(fold, t, op, env).1.Done?
  {
    hide PutId, PutUser, Listed;
  }

  lemma RenameContinues(fold: Fold, t: Tables, op: Op, env: Env)
    requires Renaming(op)
    ensures Renaming(StepRename(fold, t, op, env).1) || StepRename(fold, t, op, env).1.Done?
  {
    hide PutId, PutUser, IdRow, UserRow, Renamed;
  }

  lemma AddContinues(t: Tables, op: Op, env: Env)
    requires Adding(op)
    ensures Adding(StepAdd(t, op, env).1) || StepAdd(t, op, env).1.Done?
  {
    hide Items, Prepended, Recounted, IdRow, UserRow, PutItem;
  }

  lemma RemoveContinues(t: Tables, op: Op, env: Env)
    requires Removing(op)
    ensures Removing(StepRemove(t, op, env).1) || StepRemove(t, op, env).1.Done?
  {
    hide Items, Recomputed, OneLess, Recounted, IdRow, UserRow, DropItem;
  }

  /** A handler stays the kind of handler it is. */
  lemma StepContinues(fold: Fold, t: Tables, op: Op, env: Env)
    requires !op.Done?
    ensures var next := Step(fold, t, op, env).1;
            next.Done? || ((ItemsOnly(op) ==> ItemsOnly(next)) && (Deleting(next) ==> Deleting(op)))
  {
    hide StepCreate, StepRename, StepDelete, StepAdd, StepRemove;
    if Creating(op) {
      CreateContinues(fold, t, op, env);
    } else if Renaming(op) {
      RenameContinues(fold, t, op, env);
    } else if Adding(op) {
      AddContinues(t, op, env);
    } else if Removing(op) {
      RemoveContinues(t, op, env);
    }
  }

  /** A handler that nothing interrupts, to its end: the tables and the status. */
  function Alone(fold: Fold, t: Tables, op: Op, env: Env): (Tables, int)
    decreases Phase(op), Left(op)
  {
    if op.Done? then (t, op.status)
    else
      StepGoesOn(fold, t, op, env);
      var (t', next) := Step(fold, t, op, env);
      Alone(fold, t', next, env)
  }

  /** What the outside answers each operation of a handler. */
  type Answers = Op -> Env

  /** As above, with an answer of its own for every operation. */
  function Course(fold: Fold, t: Tables, op: Op, answers: Answers): (Tables, int)
    decreases Phase(op), Left(op)
  {
    if op.Done? then (t, op.status)
    else
      StepGoesOn(fold, t, op, answers(op));
      var (t', next) := Step(fold, t, op, answers(op));
      Course(fold, t', next, answers)
  }

  lemma CourseStep(fold: Fold, t: Tables, op: Op, answers: Answers, t': Tables, next: Op)
    requires !op.Done? && Step(fold, t, op, answers(op)) == (t', next)
    ensures Course(fold, t, op, answers) == Course(fold, t', next, answers)
  {
    hide Step;
  }

  lemma CourseDone(fold: Fold, t: Tables, op: Op, answers: Answers)
    requires op.Done?
    ensures Course(fold, t, op, answers) == (t, op.status)
  {
  }

  /** With the same answer throughout, the two are the same. */
  lemma {:induction false} CourseIsAlone(fold: Fold, t: Tables, op: Op, env: Env, answers: Answers)
    requires forall o :: answers(o) == env
    ensures Course(fold, t, op, answers) == Alone(fold, t, op, env)
    decreases Phase(op), Left(op)
  {
    hide Step;
    if !op.Done? {
      StepGoesOn(fold, t, op, env);
      var (t', next) := Step(fold, t, op, env);
      CourseIsAlone(fold, t', next, env, answers);
    }
  }

  predicate First(op: Op) { op.CreateLoad? || op.RenameLoad? || op.DeleteLoad? || op.AddLoad? || op.RemoveLoad? }
}
