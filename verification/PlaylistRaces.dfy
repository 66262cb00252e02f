/** What goes wrong when two handlers run on one playlist, or an add stops halfway. */
module PlaylistRaces {
  import opened Wrappers
  import opened Sizes
  import opened ItemOrder
  import opened PlaylistTables
  import opened PlaylistHandlers
  import opened PlaylistNames
  import opened PlaylistRefinement

  /** Two handlers' steps, taken in a given order: true stands for the first. */
  function Race(fold: Fold, t: Tables, a: Op, b: Op, order: seq<bool>, env: Env): Tables
    decreases |order|
  {
    if order == [] then t
    else if order[0] then
      var (u, next) := Step(fold, t, a, env);
      Race(fold, u, next, b, order[1..], env)
    else
      var (u, next) := Step(fold, t, b, env);
      Race(fold, u, a, next, order[1..], env)
  }

  /** One playlist of user 7, called "a". */
  function OneCalledA(fold: Fold, now: int): Tables {
    var row := Row("a", now, now, 0, []);
    Tables(map["p" := Meta(7, row)], map[(7, "p") := row], map[], map[], map[(7, fold("a")) := "p"])
  }

  function Reserving(fold: Fold, now: int): Tables {
    var t := OneCalledA(fold, now);
    t.(names := t.names[(7, fold("b")) := "p"])
  }

  function Emptied(fold: Fold, now: int): Tables {
    Tables(map[], map[], map[], map[], Reserving(fold, now).names)
  }

  /** A clock reading, and no faults. */
  function At(now: int): Env { Env(now, None, false) }

  const RACE := [true, true, false, false, false, true]

  lemma RenameReserves(fold: Fold, now: int)
    requires fold("a") != fold("b")
    ensures Race(fold, OneCalledA(fold, now), RenameLoad(7, "p", "b"), DeleteLoad(7, "p"), RACE, At(now))
         == Race(fold, Reserving(fold, now), RenameById(7, "p", "b", "a", now, true), DeleteLoad(7, "p"), RACE[2..],
                 At(now))
  {
    hide Race, StepCreate, StepDelete, StepAdd, StepRemove;
    var t, env := OneCalledA(fold, now), At(now);
    RaceStep(fold, t, RenameLoad(7, "p", "b"), DeleteLoad(7, "p"), RACE, env);
    RaceStep(fold, t, RenameReserve(7, "p", "b", "a", now), DeleteLoad(7, "p"), RACE[1..], env);
    assert RACE[1..][1..] == RACE[2..];
  }

  /** The playlist is off its owner's list, and its row still there. */
  function OffTheList(fold: Fold, now: int): Tables { Reserving(fold, now).(byUser := map[]) }

  lemma DeleteHides(fold: Fold, now: int, a: Op)
    ensures Race(fold, Reserving(fold, now), a, DeleteLoad(7, "p"), RACE[2..], At(now))
         == Race(fold, OffTheList(fold, now), a, DeleteById(7, "p", "a"), RACE[4..], At(now))
  {
    hide Race, StepCreate, StepRename, StepAdd, StepRemove;
    var t, env := Reserving(fold, now), At(now);
    assert t.byUser - {(7, "p")} == map[];
    RaceStep(fold, t, a, DeleteLoad(7, "p"), RACE[2..], env);
    RaceStep(fold, t, a, DeleteByUser(7, "p", "a"), RACE[3..], env);
    assert RACE[2..][1..] == RACE[3..] && RACE[3..][1..] == RACE[4..];
  }

  lemma DeleteEmpties(fold: Fold, now: int, a: Op)
    ensures Race(fold, Reserving(fold, now), a, DeleteLoad(7, "p"), RACE[2..], At(now))
         == Race(fold, Emptied(fold, now), a, DeleteRelease(7, "p", "a"), RACE[5..], At(now))
  {
    hide Race, StepCreate, StepRename, StepAdd, StepRemove;
    DeleteHides(fold, now, a);
    assert OffTheList(fold, now).byId - {"p"} == map[];
    RaceStep(fold, OffTheList(fold, now), a, DeleteById(7, "p", "a"), RACE[4..], At(now));
    assert RACE[4..][1..] == RACE[5..];
  }

  /** A playlist that is deleted while it is being renamed comes back as a row without
      an owner, whose name is reserved to nobody. */
  lemma RenameDuringDelete(fold: Fold, now: int)
    requires fold("a") != fold("b")
    ensures Consistent(fold, OneCalledA(fold, now))
    ensures var u := Race(fold, OneCalledA(fold, now), RenameLoad(7, "p", "b"), DeleteLoad(7, "p"), RACE, At(now));
            !PlaylistOk(fold, u, "p") && Owned(u, 0, "p")
  {
    hide Race, StepCreate, StepDelete, StepAdd, StepRemove;
    RenameReserves(fold, now);
    DeleteEmpties(fold, now, RenameById(7, "p", "b", "a", now, true));
    var t, env := Emptied(fold, now), At(now);
    var (u, next) := Step(fold, t, RenameById(7, "p", "b", "a", now, true), env);
    RaceStep(fold, t, RenameById(7, "p", "b", "a", now, true), DeleteRelease(7, "p", "a"), RACE[5..], env);
    assert RACE[5..][1..] == [];
    RaceEnds(fold, u, next, DeleteRelease(7, "p", "a"), env);
    assert u.byId["p"] == Meta(0, Renamed(BLANK, "b", now)) && (0, fold("b")) !in u.names;
  }

  lemma RaceStep(fold: Fold, t: Tables, a: Op, b: Op, order: seq<bool>, env: Env)
    requires order != []
    ensures var (u, next) := Step(fold, t, if order[0] then a else b, env);
            Race(fold, t, a, b, order, env)
              == if order[0] then Race(fold, u, next, b, order[1..], env) else Race(fold, u, a, next, order[1..], env)
  {
    hide Step;
  }

  lemma RaceEnds(fold: Fold, t: Tables, a: Op, b: Op, env: Env)
    ensures Race(fold, t, a, b, [], env) == t
  {
  }

  /** Two adds that both read the playlist before either writes count as one: the item
      rows grow by two, the count by one. */
  lemma LostUpdate(fold: Fold, t: Tables, user: int, pid: string, v: string, w: string, env: Env)
    requires pid in t.byId && t.byId[pid].user == user && t.byId[pid].row.count < MAX_ITEMS && env.canonical.Some?
    requires v != w && (user, v, pid) !in t.byVideo && (user, w, pid) !in t.byVideo
    requires Key(env.now, v) !in Items(t, pid) && Key(env.now, w) !in Items(t, pid)
    ensures var row := t.byId[pid].row;
            var (u, first) := Alone(fold, t, AddLookup(user, pid, v, row), env);
            var (x, second) := Alone(fold, u, AddLookup(user, pid, w, row), env);
            && first == CREATED && second == CREATED && pid in x.byId
            && x.byId[pid].row.count == row.count + 1
            && |Items(x, pid)| == |Items(t, pid)| + 2
  {
    var row, snap := t.byId[pid].row, env.canonical.value;
    AddFromLookup(fold, t, user, pid, v, row, env);
    AddedOne(t, user, pid, v, row, snap, env.now);
    var u := Added(t, user, pid, v, row, snap, env.now);
    hide Alone, Added, Items;
    AddFromLookup(fold, u, user, pid, w, row, env);
    AddedOne(u, user, pid, w, row, snap, env.now);
  }

  lemma AddFromLookup(fold: Fold, t: Tables, user: int, pid: string, video: string, row: Row, env: Env)
    requires (user, video, pid) !in t.byVideo && row.count < MAX_ITEMS && env.canonical.Some?
    ensures Alone(fold, t, AddLookup(user, pid, video, row), env)
         == (Added(t, user, pid, video, row, env.canonical.value, env.now), CREATED)
  {
    hide Alone, StepCreate, StepRename, StepDelete, StepRemove, Added;
    AloneStep(fold, t, AddLookup(user, pid, video, row), env, t, AddVideo(user, pid, video, row));
    AddVideoAlone(fold, t, user, pid, video, row, env);
  }

  lemma AddedOne(t: Tables, user: int, pid: string, video: string, row: Row, snap: Snap, now: int)
    requires Key(now, video) !in Items(t, pid)
    ensures var u := Added(t, user, pid, video, row, snap, now);
            && pid in u.byId && u.byId[pid].row.count == row.count + 1
            && Items(u, pid) == Items(t, pid)[Key(now, video) := snap]
            && |Items(u, pid)| == |Items(t, pid)| + 1
            && u.byVideo == t.byVideo[(user, video, pid) := now]
  {
    MapGrown(Items(t, pid), Key(now, video), snap);
    hide Prepended;
  }

  /** An add that stopped between claiming the membership and inserting the item is
      never completed by adding again: the answer is a success, the tables stay. */
  lemma HalfAddedStays(fold: Fold, t: Tables, user: int, pid: string, video: string, env: Env)
    requires pid in t.byId && t.byId[pid].user == user && t.byId[pid].row.count < MAX_ITEMS && env.canonical.Some?
    requires (user, video, pid) in t.byVideo && Key(t.byVideo[(user, video, pid)], video) !in Items(t, pid)
    ensures Alone(fold, t, AddLoad(user, pid, video), env) == (t, OK)
  {
    AddAloneAny(fold, t, user, pid, video, env);
  }
}
