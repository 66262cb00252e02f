/** What the playlist handlers are for: users, their playlists, and the videos in them,
    as one map. */
module PlaylistLibrary {
  import opened Wrappers
  import opened ItemOrder
  import opened PlaylistTables
  import opened PlaylistHandlers

  datatype Saved = Saved(added: int, snap: Snap)

  datatype Playlist = Playlist(
    user: int, name: string, created: int, updated: int, videos: map<string, Saved>, covers: seq<string>)

  type Library = map<string, Playlist>

  function Playlists(lib: Library, user: int): set<string> { set p | p in lib && lib[p].user == user }

  function NameKey(fold: Fold, p: Playlist): (int, string) { (p.user, fold(p.name)) }

  predicate Taken(fold: Fold, lib: Library, user: int, name: string) {
    exists p :: p in lib && NameKey(fold, lib[p]) == (user, fold(name))
  }

  predicate Owns(lib: Library, user: int, pid: string) { pid in lib && lib[pid].user == user }

  function CreateIn(fold: Fold, lib: Library, user: int, pid: string, name: string, now: int): (Library, int) {
    if pid in lib then (lib, if NameKey(fold, lib[pid]) == (user, fold(name)) then OK else CONFLICT)
    else if |Playlists(lib, user)| >= 200 || Taken(fold, lib, user, name) then (lib, CONFLICT)
    else (lib[pid := Playlist(user, name, now, now, map[], [])], CREATED)
  }

  function RenameIn(fold: Fold, lib: Library, user: int, pid: string, name: string, now: int): (Library, int) {
    if !Owns(lib, user, pid) then (lib, NOT_FOUND)
    else if lib[pid].name == name then (lib, OK)
    else if NameKey(fold, lib[pid]) != (user, fold(name)) && Taken(fold, lib, user, name) then (lib, CONFLICT)
    else (lib[pid := lib[pid].(name := name, updated := now)], OK)
  }

  function DeleteIn(lib: Library, user: int, pid: string): (Library, int) {
    (if Owns(lib, user, pid) then lib - {pid} else lib, NO_CONTENT)
  }

  function AddIn(lib: Library, user: int, pid: string, video: string, canonical: Option<Snap>, now: int)
    : (Library, int)
  {
    if !Owns(lib, user, pid) then (lib, NOT_FOUND)
    else if video in lib[pid].videos then (lib, OK)
    else if |lib[pid].videos| >= 5000 then (lib, TOO_LARGE)
    else if canonical.None? then (lib, NOT_FOUND)
    else (lib[pid := WithVideo(lib[pid], video, canonical.value, now)], CREATED)
  }

  function WithVideo(p: Playlist, video: string, snap: Snap, now: int): Playlist {
    p.(videos := p.videos[video := Saved(now, snap)], covers := Prepended(snap.thumbnail, p.covers), updated := now)
  }

  function RemoveIn(lib: Library, user: int, pid: string, video: string, now: int): (Library, int) {
    if Owns(lib, user, pid) && video in lib[pid].videos then
      (lib[pid := WithoutVideo(lib[pid], video, now)], NO_CONTENT)
    else (lib, NO_CONTENT)
  }

  function WithoutVideo(p: Playlist, video: string, now: int): Playlist {
    var videos := p.videos - {video};
    p.(videos := videos, covers := Recomputed(RowsOf(videos)), updated := now)
  }

  /** The item rows of a playlist. */
  function RowsOf(videos: map<string, Saved>): map<Key, Snap> {
    map v | v in videos :: Key(videos[v].added, v) := videos[v].snap
  }

  lemma RowsOfGrown(videos: map<string, Saved>, video: string, saved: Saved)
    requires video !in videos
    ensures RowsOf(videos[video := saved]) == RowsOf(videos)[Key(saved.added, video) := saved.snap]
  {
    var more := videos[video := saved];
    var a, b := RowsOf(more), RowsOf(videos)[Key(saved.added, video) := saved.snap];
    forall k
      ensures k in a <==> k in b
      ensures k in a ==> a[k] == b[k]
    {
      RowOfVideo(more, k);
      RowOfVideo(videos, k);
    }
  }

  lemma RowOfVideo(videos: map<string, Saved>, k: Key)
    ensures k in RowsOf(videos) <==> k.video in videos && videos[k.video].added == k.added
    ensures k in RowsOf(videos) ==> RowsOf(videos)[k] == videos[k.video].snap
  {
  }

  lemma RowsOfShrunk(videos: map<string, Saved>, video: string)
    requires video in videos
    ensures RowsOf(videos - {video}) == RowsOf(videos) - {Key(videos[video].added, video)}
  {
  }

  function RowOf(p: Playlist): Row { Row(p.name, p.created, p.updated, |p.videos|, p.covers) }

  // ---- The tables that stand for a library ------------------------------------------------

  function At(lib: Library, p: string): Option<Playlist> { if p in lib then Some(lib[p]) else None }

  /** Both metadata tables have the playlist's row, under its owner, or none. */
  ghost predicate RowsHold(t: Tables, p: string, l: Option<Playlist>) {
    match l
    case None => p !in t.byId && forall u :: (u, p) !in t.byUser
    case Some(l) =>
      && p in t.byId && t.byId[p] == Meta(l.user, RowOf(l))
      && (forall u :: (u, p) in t.byUser <==> u == l.user) && t.byUser[(l.user, p)] == RowOf(l)
  }

  /** The partition has the playlist's videos. */
  predicate ItemsHold(t: Tables, p: string, l: Option<Playlist>) {
    Items(t, p) == if l.Some? then RowsOf(l.value.videos) else map[]
  }

  /** Membership is the inverse of the items. */
  ghost predicate MembersHold(t: Tables, p: string, l: Option<Playlist>) {
    forall u, v ::
      if l.Some? && u == l.value.user && v in l.value.videos then
        (u, v, p) in t.byVideo && t.byVideo[(u, v, p)] == l.value.videos[v].added
      else (u, v, p) !in t.byVideo
  }

  /** The folded name is all that is reserved to the playlist. */
  ghost predicate NameHolds(fold: Fold, t: Tables, p: string, l: Option<Playlist>) {
    forall k :: k in t.names && t.names[k] == p <==> l.Some? && k == NameKey(fold, l.value)
  }

  /** The five tables hold playlist p of the library, and nothing else about p. */
  ghost predicate Holds(fold: Fold, t: Tables, p: string, l: Option<Playlist>) {
    RowsHold(t, p, l) && ItemsHold(t, p, l) && MembersHold(t, p, l) && NameHolds(fold, t, p, l)
  }

  ghost predicate Represents(fold: Fold, t: Tables, lib: Library) { forall p :: Holds(fold, t, p, At(lib, p)) }

  ghost predicate WithinCaps(lib: Library) {
    && (forall u :: |Playlists(lib, u)| <= 200)
    && (forall p :: p in lib ==> |lib[p].videos| <= 5000)
  }
}

/** Run one after another without faults, the handlers do what the library says. */
module PlaylistRefinement {
  import opened Wrappers
  import opened Sizes
  import opened ItemOrder
  import opened PlaylistTables
  import opened PlaylistHandlers
  import opened PlaylistLibrary

  lemma AloneStep(fold: Fold, t: Tables, op: Op, env: Env, t': Tables, next: Op)
    requires !op.Done? && Step(fold, t, op, env) == (t', next)
    ensures Alone(fold, t, op, env) == Alone(fold, t', next, env)
  {
    hide Step;
  }

  lemma AloneDone(fold: Fold, t: Tables, op: Op, env: Env)
    requires op.Done?
    ensures Alone(fold, t, op, env) == (t, op.status)
  {
  }

  /** Everything about playlist p is as before. */
  ghost predicate Untouched(t: Tables, t': Tables, p: string) {
    && (p in t.byId <==> p in t'.byId) && (p in t.byId ==> t.byId[p] == t'.byId[p])
    && (forall u :: (u, p) in t.byUser <==> (u, p) in t'.byUser)
    && (forall u :: (u, p) in t.byUser ==> t.byUser[(u, p)] == t'.byUser[(u, p)])
    && Items(t, p) == Items(t', p)
    && (forall u, v :: (u, v, p) in t.byVideo <==> (u, v, p) in t'.byVideo)
    && (forall u, v :: (u, v, p) in t.byVideo ==> t.byVideo[(u, v, p)] == t'.byVideo[(u, v, p)])
    && (forall k :: k in t.names && t.names[k] == p <==> k in t'.names && t'.names[k] == p)
  }

  lemma UntouchedHolds(fold: Fold, t: Tables, t': Tables, p: string, l: Option<Playlist>)
    requires Holds(fold, t, p, l) && Untouched(t, t', p)
    ensures Holds(fold, t', p, l)
  {
    hide RowsOf;
  }

  lemma HoldsAt(fold: Fold, t: Tables, lib: Library, p: string)
    requires Represents(fold, t, lib)
    ensures Holds(fold, t, p, At(lib, p))
  {
  }

  lemma AtUpdate(lib: Library, pid: string, l: Playlist)
    ensures At(lib[pid := l], pid) == Some(l)
    ensures forall p :: p != pid ==> At(lib, p) == At(lib[pid := l], p)
  {
  }

  /** A change of one playlist. */
  lemma OnePlaylistChanged(fold: Fold, t: Tables, t': Tables, lib: Library, lib': Library, pid: string)
    requires Represents(fold, t, lib) && Holds(fold, t', pid, At(lib', pid))
    requires forall p :: p != pid ==> Untouched(t, t', p)
    requires forall p :: p != pid ==> At(lib, p) == At(lib', p)
    ensures Represents(fold, t', lib')
  {
    hide Holds, Untouched, At;
    forall p
      ensures Holds(fold, t', p, At(lib', p))
    {
      if p != pid {
        UntouchedHolds(fold, t, t', p, At(lib, p));
      }
    }
  }

  lemma ChangedTo(fold: Fold, t: Tables, t': Tables, lib: Library, pid: string, l: Playlist)
    requires Represents(fold, t, lib) && Holds(fold, t', pid, Some(l))
    requires forall p :: p != pid ==> Untouched(t, t', p)
    ensures Represents(fold, t', lib[pid := l])
  {
    hide *;
    AtUpdate(lib, pid, l);
    OnePlaylistChanged(fold, t, t', lib, lib[pid := l], pid);
  }

  lemma ListedArePlaylists(fold: Fold, t: Tables, lib: Library, user: int)
    requires Represents(fold, t, lib)
    ensures Listed(t, user) == Playlists(lib, user)
  {
    forall p
      ensures p in Listed(t, user) <==> p in Playlists(lib, user)
    {
      assert Holds(fold, t, p, At(lib, p));
      assert p in Listed(t, user) <==> (user, p) in t.byUser;
    }
  }

  lemma NamesAreTaken(fold: Fold, t: Tables, lib: Library, user: int, name: string)
    requires Represents(fold, t, lib)
    ensures (user, fold(name)) in t.names <==> Taken(fold, lib, user, name)
  {
    var k := (user, fold(name));
    if k in t.names {
      assert Holds(fold, t, t.names[k], At(lib, t.names[k]));
    }
    if Taken(fold, lib, user, name) {
      var p :| p in lib && NameKey(fold, lib[p]) == k;
      assert Holds(fold, t, p, At(lib, p));
    }
  }

  // ---- Create -----------------------------------------------------------------------------

  function Created(fold: Fold, t: Tables, user: int, pid: string, name: string, now: int): Tables {
    var row := Row(name, now, now, 0, []);
    PutUser(PutId(t.(names := t.names[(user, fold(name)) := pid]), pid, Meta(user, row)), user, pid, row)
  }

  lemma CreateAlone(fold: Fold, t: Tables, user: int, pid: string, name: string, env: Env)
    ensures Alone(fold, t, CreateLoad(user, pid, name), env)
         == if pid in t.byId then
              (t, if t.byId[pid].user == user && fold(t.byId[pid].row.name) == fold(name) then OK else CONFLICT)
            else if |Listed(t, user)| >= MAX_PLAYLISTS || (user, fold(name)) in t.names then (t, CONFLICT)
            else (Created(fold, t, user, pid, name, env.now), CREATED)
  {
    var a := CreateLoad(user, pid, name);
    var (_, b) := Step(fold, t, a, env);
    AloneStep(fold, t, a, env, t, b);
    if b.CreateCount? {
      var (_, c) := Step(fold, t, b, env);
      AloneStep(fold, t, b, env, t, c);
      if c.CreateReserve? {
        var (t1, d) := Step(fold, t, c, env);
        AloneStep(fold, t, c, env, t1, d);
        if d.CreateById? {
          var (t2, e) := Step(fold, t1, d, env);
          var (t3, f) := Step(fold, t2, e, env);
          AloneStep(fold, t1, d, env, t2, e);
          AloneStep(fold, t2, e, env, t3, f);
        }
      }
    }
    hide Listed;
  }

  function New(user: int, name: string, now: int): Playlist { Playlist(user, name, now, now, map[], []) }

  lemma CreatedRows(fold: Fold, t: Tables, user: int, pid: string, name: string, now: int)
    requires RowsHold(t, pid, None)
    ensures RowsHold(Created(fold, t, user, pid, name, now), pid, Some(New(user, name, now)))
  {
  }

  lemma CreatedItems(fold: Fold, t: Tables, user: int, pid: string, name: string, now: int)
    requires ItemsHold(t, pid, None)
    ensures ItemsHold(Created(fold, t, user, pid, name, now), pid, Some(New(user, name, now)))
  {
    assert RowsOf(map[]) == map[];
  }

  lemma CreatedMembers(fold: Fold, t: Tables, user: int, pid: string, name: string, now: int)
    requires MembersHold(t, pid, None)
    ensures MembersHold(Created(fold, t, user, pid, name, now), pid, Some(New(user, name, now)))
  {
  }

  lemma CreatedName(fold: Fold, t: Tables, user: int, pid: string, name: string, now: int)
    requires NameHolds(fold, t, pid, None)
    ensures NameHolds(fold, Created(fold, t, user, pid, name, now), pid, Some(New(user, name, now)))
  {
  }

  lemma CreatedHolds(fold: Fold, t: Tables, user: int, pid: string, name: string, now: int)
    requires Holds(fold, t, pid, None)
    ensures Holds(fold, Created(fold, t, user, pid, name, now), pid, Some(New(user, name, now)))
  {
    hide RowsHold, ItemsHold, MembersHold, NameHolds, Created, New;
    CreatedRows(fold, t, user, pid, name, now);
    CreatedItems(fold, t, user, pid, name, now);
    CreatedMembers(fold, t, user, pid, name, now);
    CreatedName(fold, t, user, pid, name, now);
  }

  lemma CreatedLeaves(fold: Fold, t: Tables, user: int, pid: string, name: string, now: int, p: string)
    requires p != pid && (user, fold(name)) !in t.names
    ensures Untouched(t, Created(fold, t, user, pid, name, now), p)
  {
  }

  lemma CreateRefines(fold: Fold, t: Tables, lib: Library, user: int, pid: string, name: string, env: Env)
    requires Represents(fold, t, lib)
    ensures var (t', status) := Alone(fold, t, CreateLoad(user, pid, name), env);
            var (lib', status') := CreateIn(fold, lib, user, pid, name, env.now);
            Represents(fold, t', lib') && status == status'
  {
    assert Holds(fold, t, pid, At(lib, pid));
    LoadedRow(fold, t, lib, pid);
    CreateAlone(fold, t, user, pid, name, env);
    ListedArePlaylists(fold, t, lib, user);
    NamesAreTaken(fold, t, lib, user, name);
    hide Alone, Listed, Playlists, Taken, Created, Holds, Untouched, Represents;
    if CreateIn(fold, lib, user, pid, name, env.now).1 == CREATED {
      CreatedRepresents(fold, t, lib, user, pid, name, env.now);
    }
  }

  lemma CreatedRepresents(fold: Fold, t: Tables, lib: Library, user: int, pid: string, name: string, now: int)
    requires Represents(fold, t, lib) && At(lib, pid) == None && (user, fold(name)) !in t.names
    ensures Represents(fold, Created(fold, t, user, pid, name, now), lib[pid := New(user, name, now)])
  {
    hide *;
    HoldsAt(fold, t, lib, pid);
    CreatedHolds(fold, t, user, pid, name, now);
    CreatedLeavesAll(fold, t, user, pid, name, now);
    ChangedTo(fold, t, Created(fold, t, user, pid, name, now), lib, pid, New(user, name, now));
  }

  lemma CreatedLeavesAll(fold: Fold, t: Tables, user: int, pid: string, name: string, now: int)
    requires (user, fold(name)) !in t.names
    ensures forall p :: p != pid ==> Untouched(t, Created(fold, t, user, pid, name, now), p)
  {
    hide *;
    forall p | p != pid
      ensures Untouched(t, Created(fold, t, user, pid, name, now), p)
    {
      CreatedLeaves(fold, t, user, pid, name, now, p);
    }
  }

  /** What LoadPlaylistById finds. */
  lemma LoadedRow(fold: Fold, t: Tables, lib: Library, pid: string)
    requires Holds(fold, t, pid, At(lib, pid))
    ensures pid in t.byId <==> pid in lib
    ensures pid in lib ==> t.byId[pid] == Meta(lib[pid].user, RowOf(lib[pid]))
  {
  }

  // ---- Rename -----------------------------------------------------------------------------

  /** The effect of a rename; with a release, the folded name changes too. */
  function RenamedTables(fold: Fold, t: Tables, user: int, pid: string, name: string, oldName: string, now: int,
                         release: bool): Tables {
    var names := if release then t.names[(user, fold(name)) := pid] - {(user, fold(oldName))} else t.names;
    var u := PutId(t, pid, IdRow(t, pid).(row := Renamed(IdRow(t, pid).row, name, now)));
    PutUser(u, user, pid, Renamed(UserRow(u, user, pid), name, now)).(names := names)
  }

  lemma RenameTail(fold: Fold, t: Tables, user: int, pid: string, name: string, oldName: string, now: int,
                   release: bool, env: Env)
    requires !env.fails && (release ==> (user, fold(name)) !in t.names && fold(name) != fold(oldName))
    ensures var t1 := if release then t.(names := t.names[(user, fold(name)) := pid]) else t;
            var op := RenameById(user, pid, name, oldName, now, release);
            Alone(fold, t1, op, env) == (RenamedTables(fold, t, user, pid, name, oldName, now, release), OK)
  {
    hide Alone, StepCreate, StepDelete, StepAdd, StepRemove;
    var t1 := if release then t.(names := t.names[(user, fold(name)) := pid]) else t;
    var a := RenameById(user, pid, name, oldName, now, release);
    var (t2, b) := Step(fold, t1, a, env);
    var (t3, c) := Step(fold, t2, b, env);
    var (t4, d) := Step(fold, t3, c, env);
    AloneStep(fold, t1, a, env, t2, b);
    AloneStep(fold, t2, b, env, t3, c);
    if release {
      AloneStep(fold, t3, c, env, t4, d);
      AloneDone(fold, t4, d, env);
    } else {
      AloneDone(fold, t3, c, env);
    }
  }

  lemma RenameAlone(fold: Fold, t: Tables, user: int, pid: string, name: string, env: Env)
    requires !env.fails
    ensures Alone(fold, t, RenameLoad(user, pid, name), env)
         == if pid !in t.byId || t.byId[pid].user != user then (t, NOT_FOUND)
            else
              var oldName := t.byId[pid].row.name;
              if oldName == name then (t, OK)
              else if fold(oldName) == fold(name) then
                (RenamedTables(fold, t, user, pid, name, oldName, env.now, false), OK)
              else if (user, fold(name)) in t.names then (t, CONFLICT)
              else (RenamedTables(fold, t, user, pid, name, oldName, env.now, true), OK)
  {
    var a := RenameLoad(user, pid, name);
    var (_, b) := Step(fold, t, a, env);
    AloneStep(fold, t, a, env, t, b);
    if b.RenameReserve? {
      var (t1, c) := Step(fold, t, b, env);
      AloneStep(fold, t, b, env, t1, c);
      if c.RenameById? {
        RenameTail(fold, t, user, pid, name, b.oldName, env.now, true, env);
      }
    } else if b.RenameById? {
      RenameTail(fold, t, user, pid, name, b.oldName, env.now, false, env);
    }
    hide RenamedTables;
  }

  function NewName(l: Playlist, name: string, now: int): Playlist { l.(name := name, updated := now) }

  lemma RenamedRows(fold: Fold, t: Tables, pid: string, l: Playlist, name: string, now: int, release: bool)
    requires RowsHold(t, pid, Some(l))
    ensures RowsHold(RenamedTables(fold, t, l.user, pid, name, l.name, now, release), pid, Some(NewName(l, name, now)))
  {
  }

  lemma RenamedOthers(fold: Fold, t: Tables, pid: string, l: Playlist, name: string, now: int, release: bool)
    requires ItemsHold(t, pid, Some(l)) && MembersHold(t, pid, Some(l))
    ensures var t' := RenamedTables(fold, t, l.user, pid, name, l.name, now, release);
            ItemsHold(t', pid, Some(NewName(l, name, now))) && MembersHold(t', pid, Some(NewName(l, name, now)))
  {
    hide RowsOf;
  }

  lemma RenamedName(fold: Fold, t: Tables, pid: string, l: Playlist, name: string, now: int, release: bool)
    requires NameHolds(fold, t, pid, Some(l)) && (release <==> fold(name) != fold(l.name))
    requires release ==> (l.user, fold(name)) !in t.names
    ensures NameHolds(fold, RenamedTables(fold, t, l.user, pid, name, l.name, now, release), pid,
                      Some(NewName(l, name, now)))
  {
  }

  lemma RenamedHolds(fold: Fold, t: Tables, pid: string, l: Playlist, name: string, now: int, release: bool)
    requires Holds(fold, t, pid, Some(l)) && (release <==> fold(name) != fold(l.name))
    requires release ==> (l.user, fold(name)) !in t.names
    ensures Holds(fold, RenamedTables(fold, t, l.user, pid, name, l.name, now, release), pid,
                  Some(NewName(l, name, now)))
  {
    hide RowsHold, ItemsHold, MembersHold, NameHolds, RenamedTables, NewName;
    RenamedRows(fold, t, pid, l, name, now, release);
    RenamedOthers(fold, t, pid, l, name, now, release);
    RenamedName(fold, t, pid, l, name, now, release);
  }

  lemma RenamedLeaves(fold: Fold, t: Tables, pid: string, l: Playlist, name: string, now: int, release: bool, p: string)
    requires p != pid && NameHolds(fold, t, pid, Some(l)) && (release ==> (l.user, fold(name)) !in t.names)
    ensures Untouched(t, RenamedTables(fold, t, l.user, pid, name, l.name, now, release), p)
  {
    assert t.names[NameKey(fold, l)] == pid;
  }

  lemma RenamedRepresents(fold: Fold, t: Tables, lib: Library, pid: string, name: string, now: int, release: bool)
    requires Represents(fold, t, lib) && pid in lib && (release <==> fold(name) != fold(lib[pid].name))
    requires release ==> (lib[pid].user, fold(name)) !in t.names
    ensures Represents(fold, RenamedTables(fold, t, lib[pid].user, pid, name, lib[pid].name, now, release),
                       lib[pid := NewName(lib[pid], name, now)])
  {
    var l := lib[pid];
    assert Holds(fold, t, pid, At(lib, pid)) && At(lib, pid) == Some(l);
    var t' := RenamedTables(fold, t, l.user, pid, name, l.name, now, release);
    RenamedHolds(fold, t, pid, l, name, now, release);
    hide RenamedTables, RowsHold, ItemsHold, MembersHold, NameHolds, Untouched, Represents, NewName, At;
    forall p | p != pid
      ensures Untouched(t, t', p)
    {
      RenamedLeaves(fold, t, pid, l, name, now, release, p);
    }
    ChangedTo(fold, t, t', lib, pid, NewName(l, name, now));
  }

  lemma RenameRefines(fold: Fold, t: Tables, lib: Library, user: int, pid: string, name: string, env: Env)
    requires Represents(fold, t, lib) && !env.fails
    ensures var (t', status) := Alone(fold, t, RenameLoad(user, pid, name), env);
            var (lib', status') := RenameIn(fold, lib, user, pid, name, env.now);
            Represents(fold, t', lib') && status == status'
  {
    assert Holds(fold, t, pid, At(lib, pid));
    LoadedRow(fold, t, lib, pid);
    RenameAlone(fold, t, user, pid, name, env);
    NamesAreTaken(fold, t, lib, user, name);
    hide Alone, Taken, RenamedTables, Holds, Represents;
    if Owns(lib, user, pid) && lib[pid].name != name {
      var release := fold(name) != fold(lib[pid].name);
      if !release || (user, fold(name)) !in t.names {
        RenamedRepresents(fold, t, lib, pid, name, env.now, release);
      }
    }
  }

  // ---- Delete -----------------------------------------------------------------------------

  function Purged(t: Tables, user: int, pid: string, videos: seq<string>): Tables {
    t.(byVideo := t.byVideo - set v | v in videos :: (user, v, pid))
  }

  lemma {:induction false} PurgeAlone(fold: Fold, t: Tables, user: int, pid: string, videos: seq<string>, env: Env)
    requires !env.fails
    ensures Alone(fold, t, DeletePurge(user, pid, videos), env)
         == (DropItems(Purged(t, user, pid, videos), pid), NO_CONTENT)
    decreases |videos|
  {
    var op := DeletePurge(user, pid, videos);
    var (t1, next) := Step(fold, t, op, env);
    AloneStep(fold, t, op, env, t1, next);
    if videos != [] {
      PurgeAlone(fold, t1, user, pid, videos[1..], env);
      PurgeOne(t, user, pid, videos);
    } else {
      assert Purged(t, user, pid, videos) == t;
      var (t2, end) := Step(fold, t, next, env);
      AloneStep(fold, t, next, env, t2, end);
    }
  }

  lemma PurgeOne(t: Tables, user: int, pid: string, videos: seq<string>)
    requires videos != []
    ensures Purged(t.(byVideo := t.byVideo - {(user, videos[0], pid)}), user, pid, videos[1..])
         == Purged(t, user, pid, videos)
  {
    var all := set v | v in videos :: (user, v, pid);
    var rest := set v | v in videos[1..] :: (user, v, pid);
    assert videos == [videos[0]] + videos[1..];
    assert all == {(user, videos[0], pid)} + rest;
    assert t.byVideo - {(user, videos[0], pid)} - rest == t.byVideo - all;
  }

  /** The metadata rows and the reservation gone. */
  function Unlisted(fold: Fold, t: Tables, user: int, pid: string, oldName: string): Tables {
    t.(byUser := t.byUser - {(user, pid)}, byId := t.byId - {pid}, names := t.names - {(user, fold(oldName))})
  }

  function Deleted(fold: Fold, t: Tables, user: int, pid: string, oldName: string): Tables {
    DropItems(Purged(Unlisted(fold, t, user, pid, oldName), user, pid, Videos(Sorted(Items(t, pid).Keys))), pid)
  }

  lemma DeleteTail(fold: Fold, t: Tables, user: int, pid: string, env: Env)
    requires !env.fails
    ensures Alone(fold, t, DeleteRead(user, pid), env)
         == (DropItems(Purged(t, user, pid, Videos(Sorted(Items(t, pid).Keys))), pid), NO_CONTENT)
  {
    var op := DeleteRead(user, pid);
    var (_, next) := Step(fold, t, op, env);
    hide Purged, Videos, Sorted, Items;
    AloneStep(fold, t, op, env, t, next);
    PurgeAlone(fold, t, user, pid, next.videos, env);
  }

  lemma DeleteHead(fold: Fold, t: Tables, user: int, pid: string, oldName: string, env: Env)
    requires !env.fails
    ensures Alone(fold, t, DeleteByUser(user, pid, oldName), env)
         == Alone(fold, Unlisted(fold, t, user, pid, oldName), DeleteRead(user, pid), env)
  {
    hide Alone, StepCreate, StepRename, StepAdd, StepRemove, Items;
    var b := DeleteByUser(user, pid, oldName);
    var (t2, c) := Step(fold, t, b, env);
    var (t3, d) := Step(fold, t2, c, env);
    var (t4, e) := Step(fold, t3, d, env);
    AloneStep(fold, t, b, env, t2, c);
    AloneStep(fold, t2, c, env, t3, d);
    AloneStep(fold, t3, d, env, t4, e);
  }

  lemma DeleteAlone(fold: Fold, t: Tables, user: int, pid: string, env: Env)
    requires !env.fails
    ensures Alone(fold, t, DeleteLoad(user, pid), env)
         == if pid !in t.byId || t.byId[pid].user != user then (t, NO_CONTENT)
            else (Deleted(fold, t, user, pid, t.byId[pid].row.name), NO_CONTENT)
  {
    var a := DeleteLoad(user, pid);
    var (_, b) := Step(fold, t, a, env);
    AloneStep(fold, t, a, env, t, b);
    if b.DeleteByUser? {
      var u := Unlisted(fold, t, user, pid, b.oldName);
      assert Items(u, pid) == Items(t, pid);
      hide Purged, Videos, Sorted, Unlisted, Alone, Items;
      DeleteHead(fold, t, user, pid, b.oldName, env);
      DeleteTail(fold, u, user, pid, env);
    }
  }

  lemma DeletedRows(fold: Fold, t: Tables, pid: string, l: Playlist)
    requires RowsHold(t, pid, Some(l))
    ensures RowsHold(Deleted(fold, t, l.user, pid, l.name), pid, None)
  {
    hide Videos, Sorted, Items;
  }

  lemma DeletedItems(fold: Fold, t: Tables, pid: string, l: Playlist)
    ensures ItemsHold(Deleted(fold, t, l.user, pid, l.name), pid, None)
  {
    hide Videos, Sorted;
  }

  /** Every video of a playlist is read, and so purged. */
  lemma VideoIsRead(videos: map<string, Saved>, v: string)
    requires v in videos
    ensures v in Videos(Sorted(RowsOf(videos).Keys))
  {
    var ks := Sorted(RowsOf(videos).Keys);
    var k := Key(videos[v].added, v);
    assert k in RowsOf(videos) && k in ks;
    var i :| 0 <= i < |ks| && ks[i] == k;
    assert Videos(ks)[i] == v;
  }

  lemma DeletedMembers(fold: Fold, t: Tables, pid: string, l: Playlist)
    requires MembersHold(t, pid, Some(l)) && ItemsHold(t, pid, Some(l))
    ensures MembersHold(Deleted(fold, t, l.user, pid, l.name), pid, None)
  {
    hide Videos, Sorted, RowsOf, Items;
    forall u, v
      ensures (u, v, pid) !in Deleted(fold, t, l.user, pid, l.name).byVideo
    {
      if v in l.videos {
        VideoIsRead(l.videos, v);
      }
    }
  }

  lemma DeletedName(fold: Fold, t: Tables, pid: string, l: Playlist)
    requires NameHolds(fold, t, pid, Some(l))
    ensures NameHolds(fold, Deleted(fold, t, l.user, pid, l.name), pid, None)
  {
    hide Videos, Sorted, Items;
  }

  lemma DeletedHolds(fold: Fold, t: Tables, pid: string, l: Playlist)
    requires Holds(fold, t, pid, Some(l))
    ensures Holds(fold, Deleted(fold, t, l.user, pid, l.name), pid, None)
  {
    hide RowsHold, ItemsHold, MembersHold, NameHolds, Deleted;
    DeletedRows(fold, t, pid, l);
    DeletedItems(fold, t, pid, l);
    DeletedMembers(fold, t, pid, l);
    DeletedName(fold, t, pid, l);
  }

  lemma UnlistedLeaves(fold: Fold, t: Tables, pid: string, l: Playlist, p: string)
    requires p != pid && NameHolds(fold, t, pid, Some(l))
    ensures Untouched(t, Unlisted(fold, t, l.user, pid, l.name), p)
  {
    assert t.names[NameKey(fold, l)] == pid;
  }

  lemma PurgedLeaves(t: Tables, user: int, pid: string, videos: seq<string>, p: string)
    requires p != pid
    ensures Untouched(t, DropItems(Purged(t, user, pid, videos), pid), p)
  {
  }

  lemma UntouchedTwice(t: Tables, t1: Tables, t2: Tables, p: string)
    requires Untouched(t, t1, p) && Untouched(t1, t2, p)
    ensures Untouched(t, t2, p)
  {
    hide Items;
  }

  lemma DeletedLeaves(fold: Fold, t: Tables, pid: string, l: Playlist, p: string)
    requires p != pid && NameHolds(fold, t, pid, Some(l))
    ensures Untouched(t, Deleted(fold, t, l.user, pid, l.name), p)
  {
    hide Untouched, NameHolds, Unlisted, Purged, DropItems, Videos, Sorted;
    var u := Unlisted(fold, t, l.user, pid, l.name);
    UnlistedLeaves(fold, t, pid, l, p);
    PurgedLeaves(u, l.user, pid, Videos(Sorted(Items(t, pid).Keys)), p);
    UntouchedTwice(t, u, Deleted(fold, t, l.user, pid, l.name), p);
  }

  lemma DeleteRefines(fold: Fold, t: Tables, lib: Library, user: int, pid: string, env: Env)
    requires Represents(fold, t, lib) && !env.fails
    ensures var (t', status) := Alone(fold, t, DeleteLoad(user, pid), env);
            var (lib', status') := DeleteIn(lib, user, pid);
            Represents(fold, t', lib') && status == status'
  {
    assert Holds(fold, t, pid, At(lib, pid));
    LoadedRow(fold, t, lib, pid);
    DeleteAlone(fold, t, user, pid, env);
    if Owns(lib, user, pid) {
      var l := lib[pid];
      DeletedHolds(fold, t, pid, l);
      hide Alone, Deleted, RowsHold, ItemsHold, MembersHold, NameHolds, Represents, Untouched;
      forall p | p != pid
        ensures Untouched(t, Deleted(fold, t, user, pid, l.name), p)
      {
        DeletedLeaves(fold, t, pid, l, p);
      }
      OnePlaylistChanged(fold, t, Deleted(fold, t, user, pid, l.name), lib, lib - {pid}, pid);
    }
  }

  // ---- Add --------------------------------------------------------------------------------

  function Inserted(t: Tables, user: int, pid: string, video: string, row: Row, snap: Snap, now: int): Tables {
    PutItem(t.(byVideo := t.byVideo[(user, video, pid) := now]), pid, Key(now, video), snap)
  }

  /** The two metadata rows, with a new count and new covers. */
  function Counted(t: Tables, user: int, pid: string, count: int, covers: seq<string>, now: int): Tables {
    var u := PutId(t, pid, IdRow(t, pid).(row := Recounted(IdRow(t, pid).row, count, covers, now)));
    PutUser(u, user, pid, Recounted(UserRow(u, user, pid), count, covers, now))
  }

  function Added(t: Tables, user: int, pid: string, video: string, row: Row, snap: Snap, now: int): Tables {
    Counted(Inserted(t, user, pid, video, row, snap, now), user, pid, row.count + 1,
            Prepended(snap.thumbnail, row.covers), now)
  }

  lemma AddCount(fold: Fold, t: Tables, user: int, pid: string, row: Row, snap: Snap, added: int, env: Env)
    ensures Alone(fold, t, AddById(user, pid, row, snap, added), env)
         == (Counted(t, user, pid, row.count + 1, Prepended(snap.thumbnail, row.covers), added), CREATED)
  {
    hide Alone, StepCreate, StepRename, StepDelete, StepRemove, Prepended;
    var a := AddById(user, pid, row, snap, added);
    var (t1, b) := Step(fold, t, a, env);
    var (t2, c) := Step(fold, t1, b, env);
    AloneStep(fold, t, a, env, t1, b);
    AloneStep(fold, t1, b, env, t2, c);
    AloneDone(fold, t2, c, env);
  }

  lemma AddTail(fold: Fold, t: Tables, user: int, pid: string, video: string, row: Row, snap: Snap, env: Env)
    requires (user, video, pid) !in t.byVideo
    ensures Alone(fold, t, AddClaim(user, pid, video, row, snap), env)
         == (Added(t, user, pid, video, row, snap, env.now), CREATED)
  {
    hide Alone, StepCreate, StepRename, StepDelete, StepRemove, Prepended, Items, Counted;
    var a := AddClaim(user, pid, video, row, snap);
    var (t1, b) := Step(fold, t, a, env);
    var (t2, c) := Step(fold, t1, b, env);
    AloneStep(fold, t, a, env, t1, b);
    AloneStep(fold, t1, b, env, t2, c);
    AddCount(fold, t2, user, pid, row, snap, env.now, env);
  }

  lemma AddAloneAny(fold: Fold, t: Tables, user: int, pid: string, video: string, env: Env)
    ensures Alone(fold, t, AddLoad(user, pid, video), env)
         == if pid !in t.byId || t.byId[pid].user != user then (t, NOT_FOUND)
            else
              var row := t.byId[pid].row;
              var m := (user, video, pid);
              if m in t.byVideo && Key(t.byVideo[m], video) in Items(t, pid) then (t, OK)
              else if row.count >= MAX_ITEMS then (t, TOO_LARGE)
              else if env.canonical.None? then (t, NOT_FOUND)
              else if m in t.byVideo then (t, OK)
              else (Added(t, user, pid, video, row, env.canonical.value, env.now), CREATED)
  {
    hide Alone, StepCreate, StepRename, StepDelete, StepRemove, Added, Items, Prepended;
    var a := AddLoad(user, pid, video);
    var (_, b) := Step(fold, t, a, env);
    AloneStep(fold, t, a, env, t, b);
    if b.AddLookup? {
      var (_, c) := Step(fold, t, b, env);
      AloneStep(fold, t, b, env, t, c);
      if c.AddExisting? {
        var (_, d) := Step(fold, t, c, env);
        AloneStep(fold, t, c, env, t, d);
        if d.AddVideo? {
          AddVideoAlone(fold, t, user, pid, video, b.row, env);
        } else {
          AloneDone(fold, t, d, env);
        }
      } else {
        AddVideoAlone(fold, t, user, pid, video, b.row, env);
      }
    } else {
      AloneDone(fold, t, b, env);
    }
  }

  lemma AddVideoAlone(fold: Fold, t: Tables, user: int, pid: string, video: string, row: Row, env: Env)
    ensures Alone(fold, t, AddVideo(user, pid, video, row), env)
         == if row.count >= MAX_ITEMS then (t, TOO_LARGE)
            else if env.canonical.None? then (t, NOT_FOUND)
            else if (user, video, pid) in t.byVideo then (t, OK)
            else (Added(t, user, pid, video, row, env.canonical.value, env.now), CREATED)
  {
    hide Alone, StepCreate, StepRename, StepDelete, StepRemove, Added, Items, Prepended;
    var a := AddVideo(user, pid, video, row);
    var (_, b) := Step(fold, t, a, env);
    AloneStep(fold, t, a, env, t, b);
    if b.AddClaim? {
      if (user, video, pid) in t.byVideo {
        AloneStep(fold, t, b, env, t, Done(user, pid, OK));
        AloneDone(fold, t, Done(user, pid, OK), env);
      } else {
        AddTail(fold, t, user, pid, video, row, b.snap, env);
      }
    } else {
      AloneDone(fold, t, b, env);
    }
  }

  lemma AddedRows(t: Tables, pid: string, l: Playlist, video: string, snap: Snap, now: int)
    requires RowsHold(t, pid, Some(l)) && video !in l.videos
    ensures RowsHold(Added(t, l.user, pid, video, RowOf(l), snap, now), pid, Some(WithVideo(l, video, snap, now)))
  {
    MapGrown(l.videos, video, Saved(now, snap));
    hide Prepended, Items;
  }

  lemma AddedItems(t: Tables, pid: string, l: Playlist, video: string, snap: Snap, now: int)
    requires ItemsHold(t, pid, Some(l)) && video !in l.videos
    ensures ItemsHold(Added(t, l.user, pid, video, RowOf(l), snap, now), pid, Some(WithVideo(l, video, snap, now)))
  {
    RowsOfGrown(l.videos, video, Saved(now, snap));
    hide Prepended, RowsOf;
  }

  lemma AddedMembers(t: Tables, pid: string, l: Playlist, video: string, snap: Snap, now: int)
    requires MembersHold(t, pid, Some(l)) && video !in l.videos
    ensures MembersHold(Added(t, l.user, pid, video, RowOf(l), snap, now), pid, Some(WithVideo(l, video, snap, now)))
  {
    hide Prepended, Items, RowsOf;
  }

  lemma AddedName(fold: Fold, t: Tables, pid: string, l: Playlist, video: string, snap: Snap, now: int)
    requires NameHolds(fold, t, pid, Some(l))
    ensures NameHolds(fold, Added(t, l.user, pid, video, RowOf(l), snap, now), pid,
                      Some(WithVideo(l, video, snap, now)))
  {
    hide Prepended, Items, RowsOf;
  }

  lemma AddedHolds(fold: Fold, t: Tables, pid: string, l: Playlist, video: string, snap: Snap, now: int)
    requires Holds(fold, t, pid, Some(l)) && video !in l.videos
    ensures Holds(fold, Added(t, l.user, pid, video, RowOf(l), snap, now), pid, Some(WithVideo(l, video, snap, now)))
  {
    hide RowsHold, ItemsHold, MembersHold, NameHolds, Added, WithVideo;
    AddedRows(t, pid, l, video, snap, now);
    AddedItems(t, pid, l, video, snap, now);
    AddedMembers(t, pid, l, video, snap, now);
    AddedName(fold, t, pid, l, video, snap, now);
  }

  lemma CountedLeaves(t: Tables, user: int, pid: string, count: int, covers: seq<string>, now: int, p: string)
    requires p != pid
    ensures Untouched(t, Counted(t, user, pid, count, covers, now), p)
  {
  }

  lemma InsertedLeaves(t: Tables, user: int, pid: string, video: string, row: Row, snap: Snap, now: int, p: string)
    requires p != pid
    ensures Untouched(t, Inserted(t, user, pid, video, row, snap, now), p)
  {
  }

  lemma AddedLeavesAll(t: Tables, user: int, pid: string, video: string, row: Row, snap: Snap, now: int)
    ensures forall p :: p != pid ==> Untouched(t, Added(t, user, pid, video, row, snap, now), p)
  {
    hide Untouched, Inserted, Counted, Prepended;
    var u := Inserted(t, user, pid, video, row, snap, now);
    var covers := Prepended(snap.thumbnail, row.covers);
    forall p | p != pid
      ensures Untouched(t, Added(t, user, pid, video, row, snap, now), p)
    {
      InsertedLeaves(t, user, pid, video, row, snap, now, p);
      CountedLeaves(u, user, pid, row.count + 1, covers, now, p);
      UntouchedTwice(t, u, Added(t, user, pid, video, row, snap, now), p);
    }
  }

  /** What the add handler reads about a video. */
  lemma MembershipRead(fold: Fold, t: Tables, pid: string, l: Playlist, video: string)
    requires Holds(fold, t, pid, Some(l))
    ensures (l.user, video, pid) in t.byVideo <==> video in l.videos
    ensures video in l.videos ==>
              t.byVideo[(l.user, video, pid)] == l.videos[video].added
              && Key(l.videos[video].added, video) in Items(t, pid)
  {
    hide Items;
  }

  lemma AddRefines(fold: Fold, t: Tables, lib: Library, user: int, pid: string, video: string, env: Env)
    requires Represents(fold, t, lib)
    ensures var (t', status) := Alone(fold, t, AddLoad(user, pid, video), env);
            var (lib', status') := AddIn(lib, user, pid, video, env.canonical, env.now);
            Represents(fold, t', lib') && status == status'
  {
    HoldsAt(fold, t, lib, pid);
    LoadedRow(fold, t, lib, pid);
    if Owns(lib, user, pid) {
      var l := lib[pid];
      hide Represents, Holds, Untouched, Alone, Added, WithVideo, Items;
      MembershipRead(fold, t, pid, l, video);
      AddAloneAny(fold, t, user, pid, video, env);
      if AddIn(lib, user, pid, video, env.canonical, env.now).1 == CREATED {
        AddedHolds(fold, t, pid, l, video, env.canonical.value, env.now);
        AddedLeavesAll(t, user, pid, video, RowOf(l), env.canonical.value, env.now);
        ChangedTo(fold, t, Added(t, user, pid, video, RowOf(l), env.canonical.value, env.now), lib, pid,
                  WithVideo(l, video, env.canonical.value, env.now));
      }
    } else {
      NotOwned(fold, t, AddLoad(user, pid, video), env);
    }
  }

  /** Nothing happens to somebody else's playlist. */
  lemma NotOwned(fold: Fold, t: Tables, op: Op, env: Env)
    requires op.AddLoad? || op.RemoveLoad?
    requires op.pid !in t.byId || t.byId[op.pid].user != op.user
    ensures Alone(fold, t, op, env) == (t, if op.AddLoad? then NOT_FOUND else NO_CONTENT)
  {
    var (_, next) := Step(fold, t, op, env);
    AloneStep(fold, t, op, env, t, next);
  }

  // ---- Remove -----------------------------------------------------------------------------

  function Dropped(t: Tables, user: int, pid: string, video: string, added: int): Tables {
    DropItem(t, pid, Key(added, video)).(byVideo := t.byVideo - {(user, video, pid)})
  }

  function Removed(t: Tables, user: int, pid: string, video: string, row: Row, added: int, now: int): Tables {
    var u := Dropped(t, user, pid, video, added);
    Counted(u, user, pid, OneLess(row.count), Recomputed(Items(u, pid)), now)
  }

  lemma RemoveHead(fold: Fold, t: Tables, user: int, pid: string, video: string, row: Row, added: int, env: Env)
    requires !env.fails
    ensures Alone(fold, t, RemoveItem(user, pid, video, row, added), env)
         == Alone(fold, Dropped(t, user, pid, video, added), RemoveCovers(user, pid, row), env)
  {
    hide Alone, StepCreate, StepRename, StepDelete, StepAdd, Items, Recomputed;
    var a := RemoveItem(user, pid, video, row, added);
    var (t1, b) := Step(fold, t, a, env);
    var (t2, c) := Step(fold, t1, b, env);
    AloneStep(fold, t, a, env, t1, b);
    AloneStep(fold, t1, b, env, t2, c);
  }

  lemma RemoveCount(fold: Fold, t: Tables, user: int, pid: string, row: Row, covers: seq<string>, now: int, env: Env)
    requires !env.fails
    ensures Alone(fold, t, RemoveById(user, pid, row, covers, now), env)
         == (Counted(t, user, pid, OneLess(row.count), covers, now), NO_CONTENT)
  {
    hide Alone, StepCreate, StepRename, StepDelete, StepAdd, OneLess;
    var a := RemoveById(user, pid, row, covers, now);
    var (t1, b) := Step(fold, t, a, env);
    var (t2, c) := Step(fold, t1, b, env);
    AloneStep(fold, t, a, env, t1, b);
    AloneStep(fold, t1, b, env, t2, c);
    AloneDone(fold, t2, c, env);
  }

  lemma RemoveTail(fold: Fold, t: Tables, user: int, pid: string, row: Row, env: Env)
    requires !env.fails
    ensures Alone(fold, t, RemoveCovers(user, pid, row), env)
         == (Counted(t, user, pid, OneLess(row.count), Recomputed(Items(t, pid)), env.now), NO_CONTENT)
  {
    hide Alone, StepCreate, StepRename, StepDelete, StepAdd, OneLess, Recomputed, Items, Counted;
    var a := RemoveCovers(user, pid, row);
    var (t1, b) := Step(fold, t, a, env);
    AloneStep(fold, t, a, env, t1, b);
    RemoveCount(fold, t, user, pid, row, Recomputed(Items(t, pid)), env.now, env);
  }

  lemma RemoveAlone(fold: Fold, t: Tables, user: int, pid: string, video: string, env: Env)
    requires !env.fails && pid in t.byId && t.byId[pid].user == user
    ensures Alone(fold, t, RemoveLoad(user, pid, video), env)
         == if (user, video, pid) !in t.byVideo then (t, NO_CONTENT)
            else (Removed(t, user, pid, video, t.byId[pid].row, t.byVideo[(user, video, pid)], env.now), NO_CONTENT)
  {
    var a := RemoveLoad(user, pid, video);
    var row := t.byId[pid].row;
    var b := RemoveLookup(user, pid, video, row);
    AloneStep(fold, t, a, env, t, b);
    var (_, c) := Step(fold, t, b, env);
    AloneStep(fold, t, b, env, t, c);
    if c.RemoveItem? {
      hide Alone, Step, Dropped, Counted, Recomputed, Items;
      RemoveHead(fold, t, user, pid, video, row, c.added, env);
      RemoveTail(fold, Dropped(t, user, pid, video, c.added), user, pid, row, env);
    } else {
      AloneDone(fold, t, c, env);
    }
  }

  lemma DroppedItems(t: Tables, pid: string, l: Playlist, video: string)
    requires ItemsHold(t, pid, Some(l)) && video in l.videos
    ensures Items(Dropped(t, l.user, pid, video, l.videos[video].added), pid) == RowsOf(l.videos - {video})
  {
    RowsOfShrunk(l.videos, video);
  }

  lemma RemovedRows(t: Tables, pid: string, l: Playlist, video: string, now: int)
    requires RowsHold(t, pid, Some(l)) && ItemsHold(t, pid, Some(l)) && video in l.videos
    ensures RowsHold(Removed(t, l.user, pid, video, RowOf(l), l.videos[video].added, now), pid,
                     Some(WithoutVideo(l, video, now)))
  {
    MapShrunk(l.videos, video);
    DroppedItems(t, pid, l, video);
    hide Recomputed, Items, RowsOf, ItemsHold;
  }

  lemma RemovedItems(t: Tables, pid: string, l: Playlist, video: string, now: int)
    requires ItemsHold(t, pid, Some(l)) && video in l.videos
    ensures ItemsHold(Removed(t, l.user, pid, video, RowOf(l), l.videos[video].added, now), pid,
                      Some(WithoutVideo(l, video, now)))
  {
    RowsOfShrunk(l.videos, video);
    hide Recomputed, RowsOf;
  }

  lemma RemovedMembers(t: Tables, pid: string, l: Playlist, video: string, now: int)
    requires MembersHold(t, pid, Some(l)) && video in l.videos
    ensures MembersHold(Removed(t, l.user, pid, video, RowOf(l), l.videos[video].added, now), pid,
                        Some(WithoutVideo(l, video, now)))
  {
    hide Recomputed, Items, RowsOf;
  }

  lemma RemovedName(fold: Fold, t: Tables, pid: string, l: Playlist, video: string, now: int)
    requires NameHolds(fold, t, pid, Some(l)) && video in l.videos
    ensures NameHolds(fold, Removed(t, l.user, pid, video, RowOf(l), l.videos[video].added, now), pid,
                      Some(WithoutVideo(l, video, now)))
  {
    hide Recomputed, Items, RowsOf;
  }

  lemma RemovedHolds(fold: Fold, t: Tables, pid: string, l: Playlist, video: string, now: int)
    requires Holds(fold, t, pid, Some(l)) && video in l.videos
    ensures Holds(fold, Removed(t, l.user, pid, video, RowOf(l), l.videos[video].added, now), pid,
                  Some(WithoutVideo(l, video, now)))
  {
    hide RowsHold, ItemsHold, MembersHold, NameHolds, Removed, WithoutVideo;
    RemovedRows(t, pid, l, video, now);
    RemovedItems(t, pid, l, video, now);
    RemovedMembers(t, pid, l, video, now);
    RemovedName(fold, t, pid, l, video, now);
  }

  lemma DroppedLeaves(t: Tables, user: int, pid: string, video: string, added: int, p: string)
    requires p != pid
    ensures Untouched(t, Dropped(t, user, pid, video, added), p)
  {
  }

  lemma RemovedLeavesAll(t: Tables, user: int, pid: string, video: string, row: Row, added: int, now: int)
    ensures forall p :: p != pid ==> Untouched(t, Removed(t, user, pid, video, row, added, now), p)
  {
    hide Untouched, Dropped, Counted, Recomputed, Items;
    var u := Dropped(t, user, pid, video, added);
    forall p | p != pid
      ensures Untouched(t, Removed(t, user, pid, video, row, added, now), p)
    {
      DroppedLeaves(t, user, pid, video, added, p);
      CountedLeaves(u, user, pid, OneLess(row.count), Recomputed(Items(u, pid)), now, p);
      UntouchedTwice(t, u, Removed(t, user, pid, video, row, added, now), p);
    }
  }

  lemma RemoveRefines(fold: Fold, t: Tables, lib: Library, user: int, pid: string, video: string, env: Env)
    requires Represents(fold, t, lib) && !env.fails
    ensures var (t', status) := Alone(fold, t, RemoveLoad(user, pid, video), env);
            var (lib', status') := RemoveIn(lib, user, pid, video, env.now);
            Represents(fold, t', lib') && status == status'
  {
    HoldsAt(fold, t, lib, pid);
    LoadedRow(fold, t, lib, pid);
    if Owns(lib, user, pid) {
      var l := lib[pid];
      hide Represents, Holds, Untouched, Alone, Removed, WithoutVideo, Items;
      MembershipRead(fold, t, pid, l, video);
      RemoveAlone(fold, t, user, pid, video, env);
      if video in l.videos {
        RemovedHolds(fold, t, pid, l, video, env.now);
        RemovedLeavesAll(t, user, pid, video, RowOf(l), l.videos[video].added, env.now);
        ChangedTo(fold, t, Removed(t, user, pid, video, RowOf(l), l.videos[video].added, env.now), lib, pid,
                  WithoutVideo(l, video, env.now));
      }
    } else {
      NotOwned(fold, t, RemoveLoad(user, pid, video), env);
    }
  }

  // ---- Any sequence of requests -----------------------------------------------------------

  datatype Request = Request(op: Op, env: Env)

  predicate Proper(r: Request) { First(r.op) && !r.env.fails }

  /** What a request does to the library, and the status it answers. */
  function Handled(fold: Fold, lib: Library, r: Request): (Library, int)
    requires Proper(r)
  {
    match r.op
    case CreateLoad(user, pid, name) => CreateIn(fold, lib, user, pid, name, r.env.now)
    case RenameLoad(user, pid, name) => RenameIn(fold, lib, user, pid, name, r.env.now)
    case DeleteLoad(user, pid) => DeleteIn(lib, user, pid)
    case AddLoad(user, pid, video) => AddIn(lib, user, pid, video, r.env.canonical, r.env.now)
    case RemoveLoad(user, pid, video) => RemoveIn(lib, user, pid, video, r.env.now)
  }

  lemma HandlerRefines(fold: Fold, t: Tables, lib: Library, r: Request)
    requires Represents(fold, t, lib) && Proper(r)
    ensures var (t', status) := Alone(fold, t, r.op, r.env);
            var (lib', status') := Handled(fold, lib, r);
            Represents(fold, t', lib') && status == status'
  {
    hide Represents, Alone, CreateIn, RenameIn, DeleteIn, AddIn, RemoveIn;
    match r.op
    case CreateLoad(user, pid, name) => CreateRefines(fold, t, lib, user, pid, name, r.env);
    case RenameLoad(user, pid, name) => RenameRefines(fold, t, lib, user, pid, name, r.env);
    case DeleteLoad(user, pid) => DeleteRefines(fold, t, lib, user, pid, r.env);
    case AddLoad(user, pid, video) => AddRefines(fold, t, lib, user, pid, video, r.env);
    case RemoveLoad(user, pid, video) => RemoveRefines(fold, t, lib, user, pid, video, r.env);
  }

  /** A request that leaves the playlists with their owners, or takes one away. */
  lemma CapsKept(lib: Library, lib': Library)
    requires WithinCaps(lib) && forall p :: p in lib' ==> p in lib && lib'[p].user == lib[p].user
    requires forall p :: p in lib' ==> |lib'[p].videos| <= 5000
    ensures WithinCaps(lib')
  {
    forall u
      ensures |Playlists(lib', u)| <= 200
    {
      SubsetSize(Playlists(lib', u), Playlists(lib, u));
    }
  }

  lemma PlaylistsGrown(lib: Library, pid: string, l: Playlist, u: int)
    requires pid !in lib
    ensures |Playlists(lib[pid := l], u)| == |Playlists(lib, u)| + if u == l.user then 1 else 0
  {
    assert Playlists(lib[pid := l], u) == Playlists(lib, u) + if u == l.user then {pid} else {};
  }

  lemma CreateKeepsCaps(fold: Fold, lib: Library, user: int, pid: string, name: string, now: int)
    requires WithinCaps(lib)
    ensures WithinCaps(CreateIn(fold, lib, user, pid, name, now).0)
  {
    hide Playlists, Taken;
    var (lib', status) := CreateIn(fold, lib, user, pid, name, now);
    if status == CREATED {
      forall u
        ensures |Playlists(lib', u)| <= 200
      {
        PlaylistsGrown(lib, pid, lib'[pid], u);
      }
    }
  }

  lemma AddKeepsCaps(lib: Library, user: int, pid: string, video: string, canonical: Option<Snap>, now: int)
    requires WithinCaps(lib)
    ensures WithinCaps(AddIn(lib, user, pid, video, canonical, now).0)
  {
    var lib' := AddIn(lib, user, pid, video, canonical, now).0;
    if Owns(lib, user, pid) && video !in lib[pid].videos && canonical.Some? {
      MapGrown(lib[pid].videos, video, Saved(now, canonical.value));
    }
    hide Prepended, Playlists;
    CapsKept(lib, lib');
  }

  lemma RemoveKeepsCaps(lib: Library, user: int, pid: string, video: string, now: int)
    requires WithinCaps(lib)
    ensures WithinCaps(RemoveIn(lib, user, pid, video, now).0)
  {
    var lib' := RemoveIn(lib, user, pid, video, now).0;
    if Owns(lib, user, pid) && video in lib[pid].videos {
      MapShrunk(lib[pid].videos, video);
    }
    hide Recomputed, Playlists, RowsOf;
    CapsKept(lib, lib');
  }

  lemma HandledKeepsCaps(fold: Fold, lib: Library, r: Request)
    requires WithinCaps(lib) && Proper(r)
    ensures WithinCaps(Handled(fold, lib, r).0)
  {
    hide WithinCaps, CreateIn, AddIn, RemoveIn, Taken;
    match r.op
    case CreateLoad(user, pid, name) => CreateKeepsCaps(fold, lib, user, pid, name, r.env.now);
    case RenameLoad(user, pid, name) => RenameKeepsCaps(fold, lib, user, pid, name, r.env.now);
    case DeleteLoad(user, pid) => DeleteKeepsCaps(lib, user, pid);
    case AddLoad(user, pid, video) => AddKeepsCaps(lib, user, pid, video, r.env.canonical, r.env.now);
    case RemoveLoad(user, pid, video) => RemoveKeepsCaps(lib, user, pid, video, r.env.now);
  }

  lemma RenameKeepsCaps(fold: Fold, lib: Library, user: int, pid: string, name: string, now: int)
    requires WithinCaps(lib)
    ensures WithinCaps(RenameIn(fold, lib, user, pid, name, now).0)
  {
    hide Taken, Playlists;
    CapsKept(lib, RenameIn(fold, lib, user, pid, name, now).0);
  }

  lemma DeleteKeepsCaps(lib: Library, user: int, pid: string)
    requires WithinCaps(lib)
    ensures WithinCaps(DeleteIn(lib, user, pid).0)
  {
    hide Playlists;
    CapsKept(lib, DeleteIn(lib, user, pid).0);
  }

  function Served(fold: Fold, t: Tables, rs: seq<Request>): (Tables, seq<int>)
    decreases |rs|
  {
    if rs == [] then (t, [])
    else
      var (t', status) := Alone(fold, t, rs[0].op, rs[0].env);
      var (u, statuses) := Served(fold, t', rs[1..]);
      (u, [status] + statuses)
  }

  function HandledAll(fold: Fold, lib: Library, rs: seq<Request>): (Library, seq<int>)
    requires forall i :: 0 <= i < |rs| ==> Proper(rs[i])
    decreases |rs|
  {
    if rs == [] then (lib, [])
    else
      var (lib', status) := Handled(fold, lib, rs[0]);
      var (end, statuses) := HandledAll(fold, lib', rs[1..]);
      (end, [status] + statuses)
  }

  /** Whatever complete requests are served one after another, the five tables stay
      those of the library, every request is answered as the library answers it, and
      the caps hold. */
  lemma {:induction false} HandlersRefine(fold: Fold, t: Tables, lib: Library, rs: seq<Request>)
    requires Represents(fold, t, lib) && WithinCaps(lib) && forall i :: 0 <= i < |rs| ==> Proper(rs[i])
    ensures var (u, statuses) := Served(fold, t, rs);
            var (end, statuses') := HandledAll(fold, lib, rs);
            Represents(fold, u, end) && WithinCaps(end) && statuses == statuses'
    decreases |rs|
  {
    hide Represents, WithinCaps, Alone, Handled, Proper;
    if rs != [] {
      assert Proper(rs[0]);
      HandlerRefines(fold, t, lib, rs[0]);
      HandledKeepsCaps(fold, lib, rs[0]);
      HandlersRefine(fold, Alone(fold, t, rs[0].op, rs[0].env).0, Handled(fold, lib, rs[0]).0, rs[1..]);
    }
  }

  /** The empty tables stand for the empty library. */
  lemma EmptyRepresents(fold: Fold)
    ensures Represents(fold, Tables(map[], map[], map[], map[], map[]), map[]) && WithinCaps(map[])
  {
    forall u
      ensures Playlists(map[], u) == {}
    {
    }
  }
}
