/** How the handlers go on from one table operation to the next when each of them is
    answered on its own, and those that may fail do or do not. */
module PlaylistCourses {
  import opened ItemOrder
  import opened PlaylistTables
  import opened PlaylistHandlers
  import opened PlaylistRefinement

  lemma Ends(fold: Fold, t: Tables, op: Op, answers: Answers, t': Tables, last: Op)
    requires !op.Done? && Step(fold, t, op, answers(op)) == (t', last) && last.Done?
    ensures Course(fold, t, op, answers) == (t', last.status)
  {
    hide Step;
    CourseStep(fold, t, op, answers, t', last);
    CourseDone(fold, t', last, answers);
  }

  // ---- Rename -----------------------------------------------------------------------------

  lemma RenameLoads(fold: Fold, t: Tables, user: int, pid: string, name: string, answers: Answers)
    ensures var load := RenameLoad(user, pid, name);
            var now := answers(load).now;
            Course(fold, t, load, answers)
              == if pid !in t.byId || t.byId[pid].user != user then (t, NOT_FOUND)
                 else
                   var oldName := t.byId[pid].row.name;
                   if fold(oldName) != fold(name) then
                     Course(fold, t, RenameReserve(user, pid, name, oldName, now), answers)
                   else if oldName != name then
                     Course(fold, t, RenameById(user, pid, name, oldName, now, false), answers)
                   else (t, OK)
  {
    hide StepCreate, StepDelete, StepAdd, StepRemove, Course;
    var load := RenameLoad(user, pid, name);
    var (_, next) := Step(fold, t, load, answers(load));
    if next.Done? {
      Ends(fold, t, load, answers, t, next);
    } else {
      CourseStep(fold, t, load, answers, t, next);
    }
  }

  lemma RenameReserves(fold: Fold, t: Tables, user: int, pid: string, name: string, oldName: string, now: int,
                       answers: Answers)
    ensures Course(fold, t, RenameReserve(user, pid, name, oldName, now), answers)
         == if (user, fold(name)) in t.names then (t, CONFLICT)
            else Course(fold, t.(names := t.names[(user, fold(name)) := pid]),
                        RenameById(user, pid, name, oldName, now, true), answers)
  {
    hide StepCreate, StepDelete, StepAdd, StepRemove, Course;
    var op := RenameReserve(user, pid, name, oldName, now);
    var (t1, next) := Step(fold, t, op, answers(op));
    if next.Done? {
      Ends(fold, t, op, answers, t1, next);
    } else {
      CourseStep(fold, t, op, answers, t1, next);
    }
  }

  /** Both rows get the name; then the old reservation goes, unless that fails. */
  lemma RenameWrites(fold: Fold, t: Tables, user: int, pid: string, name: string, oldName: string, now: int,
                     release: bool, answers: Answers)
    ensures var u := RenamedTables(fold, t, user, pid, name, name, now, false);
            Course(fold, t, RenameById(user, pid, name, oldName, now, release), answers)
              == (if release && !answers(RenameRelease(user, pid, name, oldName)).fails then
                    u.(names := u.names - {(user, fold(oldName))})
                  else u, OK)
  {
    hide StepCreate, StepDelete, StepAdd, StepRemove, Course;
    var a := RenameById(user, pid, name, oldName, now, release);
    var (t1, b) := Step(fold, t, a, answers(a));
    CourseStep(fold, t, a, answers, t1, b);
    var (t2, c) := Step(fold, t1, b, answers(b));
    if !release {
      Ends(fold, t1, b, answers, t2, c);
    } else {
      CourseStep(fold, t1, b, answers, t2, c);
      var (t3, d) := Step(fold, t2, c, answers(c));
      Ends(fold, t2, c, answers, t3, d);
    }
  }

  // ---- Delete -----------------------------------------------------------------------------

  lemma DeleteLoads(fold: Fold, t: Tables, user: int, pid: string, answers: Answers)
    ensures Course(fold, t, DeleteLoad(user, pid), answers)
         == if pid !in t.byId || t.byId[pid].user != user then (t, NO_CONTENT)
            else Course(fold, t, DeleteByUser(user, pid, t.byId[pid].row.name), answers)
  {
    hide StepCreate, StepRename, StepAdd, StepRemove, Course;
    var op := DeleteLoad(user, pid);
    var (_, next) := Step(fold, t, op, answers(op));
    if next.Done? {
      Ends(fold, t, op, answers, t, next);
    } else {
      CourseStep(fold, t, op, answers, t, next);
    }
  }

  lemma DeleteUnlists(fold: Fold, t: Tables, user: int, pid: string, name: string, answers: Answers)
    ensures var u := Unlisted(fold, t, user, pid, name);
            Course(fold, t, DeleteByUser(user, pid, name), answers)
              == Course(fold, if answers(DeleteRelease(user, pid, name)).fails then u.(names := t.names) else u,
                        DeleteRead(user, pid), answers)
  {
    hide StepCreate, StepRename, StepAdd, StepRemove, Course;
    var a := DeleteByUser(user, pid, name);
    var (t1, b) := Step(fold, t, a, answers(a));
    CourseStep(fold, t, a, answers, t1, b);
    var (t2, c) := Step(fold, t1, b, answers(b));
    CourseStep(fold, t1, b, answers, t2, c);
    var (t3, d) := Step(fold, t2, c, answers(c));
    CourseStep(fold, t2, c, answers, t3, d);
  }

  lemma DeleteReads(fold: Fold, t: Tables, user: int, pid: string, answers: Answers)
    ensures var videos := if answers(DeleteRead(user, pid)).fails then [] else Videos(Sorted(Items(t, pid).Keys));
            Course(fold, t, DeleteRead(user, pid), answers)
              == Course(fold, t, DeletePurge(user, pid, videos), answers)
  {
    hide StepCreate, StepRename, StepAdd, StepRemove, Course, Videos, Sorted, Items;
    var op := DeleteRead(user, pid);
    var (_, next) := Step(fold, t, op, answers(op));
    CourseStep(fold, t, op, answers, t, next);
  }

  lemma DeletePurges(fold: Fold, t: Tables, user: int, pid: string, videos: seq<string>, answers: Answers)
    ensures Course(fold, t, DeletePurge(user, pid, videos), answers)
         == if videos == [] then Course(fold, t, DeleteItems(user, pid), answers)
            else Course(fold, if answers(DeletePurge(user, pid, videos)).fails then t
                              else t.(byVideo := t.byVideo - {(user, videos[0], pid)}),
                        DeletePurge(user, pid, videos[1..]), answers)
  {
    hide StepCreate, StepRename, StepAdd, StepRemove, Course, Videos, Sorted, Items;
    var op := DeletePurge(user, pid, videos);
    var (t1, next) := Step(fold, t, op, answers(op));
    CourseStep(fold, t, op, answers, t1, next);
  }

  lemma DeleteDrops(fold: Fold, t: Tables, user: int, pid: string, answers: Answers)
    ensures Course(fold, t, DeleteItems(user, pid), answers)
         == (if answers(DeleteItems(user, pid)).fails then t else DropItems(t, pid), NO_CONTENT)
  {
    hide StepCreate, StepRename, StepAdd, StepRemove, Course, Videos, Sorted, Items;
    var op := DeleteItems(user, pid);
    var (t1, next) := Step(fold, t, op, answers(op));
    Ends(fold, t, op, answers, t1, next);
  }

  // ---- Remove -----------------------------------------------------------------------------

  lemma RemoveLoads(fold: Fold, t: Tables, user: int, pid: string, video: string, answers: Answers)
    ensures Course(fold, t, RemoveLoad(user, pid, video), answers)
         == if pid !in t.byId || t.byId[pid].user != user || (user, video, pid) !in t.byVideo then (t, NO_CONTENT)
            else Course(fold, t, RemoveItem(user, pid, video, t.byId[pid].row, t.byVideo[(user, video, pid)]), answers)
  {
    hide StepCreate, StepRename, StepDelete, StepAdd, Course;
    var a := RemoveLoad(user, pid, video);
    var (_, b) := Step(fold, t, a, answers(a));
    if b.Done? {
      Ends(fold, t, a, answers, t, b);
    } else {
      CourseStep(fold, t, a, answers, t, b);
      var (_, c) := Step(fold, t, b, answers(b));
      if c.Done? {
        Ends(fold, t, b, answers, t, c);
      } else {
        CourseStep(fold, t, b, answers, t, c);
      }
    }
  }

  lemma RemoveDrops(fold: Fold, t: Tables, user: int, pid: string, video: string, row: Row, added: int,
                    answers: Answers)
    ensures var t1 := if answers(RemoveItem(user, pid, video, row, added)).fails then t
                      else DropItem(t, pid, Key(added, video));
            var t2 := if answers(RemoveMember(user, pid, video, row)).fails then t1
                      else t1.(byVideo := t.byVideo - {(user, video, pid)});
            Course(fold, t, RemoveItem(user, pid, video, row, added), answers)
              == Course(fold, t2, RemoveCovers(user, pid, row), answers)
  {
    hide StepCreate, StepRename, StepDelete, StepAdd, Course, Items, Recomputed;
    var a := RemoveItem(user, pid, video, row, added);
    var (t1, b) := Step(fold, t, a, answers(a));
    CourseStep(fold, t, a, answers, t1, b);
    var (t2, c) := Step(fold, t1, b, answers(b));
    CourseStep(fold, t1, b, answers, t2, c);
  }

  /** The counts are written to the first table, then to the second; a write that fails
      is the last. */
  function CountedAsFar(t: Tables, user: int, pid: string, count: int, covers: seq<string>, now: int,
                        idFails: bool, userFails: bool): Tables {
    if idFails then t
    else if userFails then PutId(t, pid, IdRow(t, pid).(row := Recounted(IdRow(t, pid).row, count, covers, now)))
    else Counted(t, user, pid, count, covers, now)
  }

  lemma RemoveWrites(fold: Fold, t: Tables, user: int, pid: string, row: Row, covers: seq<string>, now: int,
                     answers: Answers)
    ensures Course(fold, t, RemoveById(user, pid, row, covers, now), answers)
         == (CountedAsFar(t, user, pid, OneLess(row.count), covers, now,
                          answers(RemoveById(user, pid, row, covers, now)).fails,
                          answers(RemoveByUser(user, pid, row, covers, now)).fails),
             NO_CONTENT)
  {
    hide StepCreate, StepRename, StepDelete, StepAdd, Course, Recomputed, OneLess, Recounted;
    var b := RemoveById(user, pid, row, covers, now);
    var (t1, c) := Step(fold, t, b, answers(b));
    if c.Done? {
      Ends(fold, t, b, answers, t1, c);
    } else {
      CourseStep(fold, t, b, answers, t1, c);
      var (t2, d) := Step(fold, t1, c, answers(c));
      Ends(fold, t1, c, answers, t2, d);
    }
  }

  lemma RemoveCounts(fold: Fold, t: Tables, user: int, pid: string, row: Row, answers: Answers)
    ensures var answer := answers(RemoveCovers(user, pid, row));
            var covers := if answer.fails then row.covers else Recomputed(Items(t, pid));
            Course(fold, t, RemoveCovers(user, pid, row), answers)
              == (CountedAsFar(t, user, pid, OneLess(row.count), covers, answer.now,
                               answers(RemoveById(user, pid, row, covers, answer.now)).fails,
                               answers(RemoveByUser(user, pid, row, covers, answer.now)).fails),
                  NO_CONTENT)
  {
    hide StepCreate, StepRename, StepDelete, StepAdd, Course, Items, Recomputed, OneLess, CountedAsFar;
    var a := RemoveCovers(user, pid, row);
    var (_, b) := Step(fold, t, a, answers(a));
    CourseStep(fold, t, a, answers, t, b);
    RemoveWrites(fold, t, user, pid, row, b.covers, b.now, answers);
  }
}
