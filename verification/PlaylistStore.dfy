/** The playlist handlers as they run, against five tables that they update in place. */
module PlaylistStores {
  import opened Wrappers
  import opened ItemOrder
  import opened PlaylistTables
  import opened PlaylistHandlers
  import opened PlaylistLibrary
  import opened PlaylistRefinement
  import opened PlaylistCourses

  class PlaylistStore {
    const fold: Fold
    var byId: map<string, Meta>
    var byUser: map<(int, string), Row>
    var items: map<string, map<Key, Snap>>
    var byVideo: map<(int, string, string), int>
    var names: map<(int, string), string>

    function View(): Tables
      reads this
    {
      Tables(byId, byUser, items, byVideo, names)
    }

    constructor (fold: Fold)
      ensures View() == Tables(map[], map[], map[], map[], map[]) && this.fold == fold
      ensures Represents(fold, View(), map[])
    {
      this.fold := fold;
      byId, byUser, items, byVideo, names := map[], map[], map[], map[], map[];
      new;
      EmptyRepresents(fold);
    }

    // ---- Single table operations ------------------------------------------------------

    method LoadPlaylistById(pid: string) returns (m: Option<Meta>)
      ensures m == if pid in byId then Some(byId[pid]) else None
    {
      if pid in byId {
        return Some(byId[pid]);
      }
      return None;
    }

    method InsertMetadataBoth(pid: string, m: Meta)
      modifies this
      ensures View() == PutUser(PutId(old(View()), pid, m), m.user, pid, m.row)
    {
      byId := byId[pid := m];
      byUser := byUser[(m.user, pid) := m.row];
    }

    /** The first write that fails ends it. */
    method UpdateCountAndCovers(user: int, pid: string, count: int, covers: seq<string>, now: int,
                                idFails: bool, userFails: bool)
      modifies this
      ensures View() == CountedAsFar(old(View()), user, pid, count, covers, now, idFails, userFails)
    {
      if idFails {
        return;
      }
      var m := IdRow(View(), pid);
      byId := byId[pid := m.(row := Recounted(m.row, count, covers, now))];
      if userFails {
        return;
      }
      var r := UserRow(View(), user, pid);
      byUser := byUser[(user, pid) := Recounted(r, count, covers, now)];
    }

    method UpdateName(user: int, pid: string, name: string, now: int)
      modifies this
      ensures View() == RenamedTables(fold, old(View()), user, pid, name, name, now, false)
    {
      var m := IdRow(View(), pid);
      byId := byId[pid := m.(row := Renamed(m.row, name, now))];
      var r := UserRow(View(), user, pid);
      byUser := byUser[(user, pid) := Renamed(r, name, now)];
    }

    method TryReserveName(user: int, folded: string, pid: string) returns (applied: bool)
      modifies this
      ensures applied == ((user, folded) !in old(names))
      ensures View() == if applied then old(View()).(names := old(names)[(user, folded) := pid]) else old(View())
    {
      applied := (user, folded) !in names;
      if applied {
        names := names[(user, folded) := pid];
      }
    }

    method ReleaseName(user: int, folded: string)
      modifies this
      ensures View() == old(View()).(names := old(names) - {(user, folded)})
    {
      names := names - {(user, folded)};
    }

    /** Newest sixteen rows, first four covers. */
    method RecomputeCoverThumbnails(pid: string) returns (out: seq<string>)
      ensures out == Recomputed(Items(View(), pid))
    {
      hide Newest, Items;
      var urls := Newest(Items(View(), pid));
      urls := if |urls| <= 16 then urls else urls[..16];
      out := [];
      var i := 0;
      while i < |urls|
        invariant 0 <= i <= |urls| && |out| < PREVIEW_THUMBS
        invariant FirstFour([], urls) == FirstFour(out, urls[i..])
      {
        var url := urls[i];
        assert urls[i..][1..] == urls[i + 1..];
        i := i + 1;
        if url == "" {
          continue;
        }
        out := out + [url];
        if |out| >= PREVIEW_THUMBS {
          return;
        }
      }
    }

    /** The covers after adding a thumbnail. */
    method NewCovers(thumbnail: string, covers: seq<string>) returns (out: seq<string>)
      ensures out == Prepended(thumbnail, covers)
    {
      out := [];
      if thumbnail != "" {
        out := out + [thumbnail];
      }
      assert covers[0..] == covers && out == if thumbnail == "" then [] else [thumbnail];
      for i := 0 to |covers|
        invariant Prepended(thumbnail, covers) == Fill(out, covers[i..])
      {
        if |out| >= PREVIEW_THUMBS {
          return;
        }
        var url := covers[i];
        assert covers[i..][1..] == covers[i + 1..];
        if url == "" || url in out {
          continue;
        }
        out := out + [url];
      }
    }

    /** The membership of videos[i] goes, unless that one write fails. */
    predicate Purges(user: int, pid: string, videos: seq<string>, answers: Answers, i: int) {
      0 <= i < |videos| && !answers(DeletePurge(user, pid, videos[i..])).fails
    }

    /** One write for every video read; each may fail on its own. */
    method PurgeMembership(user: int, pid: string, videos: seq<string>, answers: Answers)
      modifies this
      ensures View() == old(View()).(byVideo := byVideo)
      ensures forall m :: m in old(byVideo) && m !in byVideo ==>
                exists i :: Purges(user, pid, videos, answers, i) && m == (user, videos[i], pid)
      ensures forall i :: Purges(user, pid, videos, answers, i) ==> (user, videos[i], pid) !in byVideo
      ensures forall m :: m in byVideo ==> m in old(byVideo) && byVideo[m] == old(byVideo)[m]
      ensures Course(fold, old(View()), DeletePurge(user, pid, videos), answers)
           == Course(fold, View(), DeleteItems(user, pid), answers)
    {
      hide Course;
      ghost var t := View();
      assert videos[0..] == videos;
      for i := 0 to |videos|
        invariant View() == t.(byVideo := byVideo)
        invariant forall m :: m in t.byVideo && m !in byVideo ==>
                    exists k :: Purges(user, pid, videos, answers, k) && m == (user, videos[k], pid)
        invariant forall k :: k < i && Purges(user, pid, videos, answers, k) ==> (user, videos[k], pid) !in byVideo
        invariant forall m :: m in byVideo ==> m in t.byVideo && byVideo[m] == t.byVideo[m]
        invariant Course(fold, t, DeletePurge(user, pid, videos), answers)
               == Course(fold, View(), DeletePurge(user, pid, videos[i..]), answers)
      {
        DeletePurges(fold, View(), user, pid, videos[i..], answers);
        assert videos[i..][1..] == videos[i + 1..];
        if !answers(DeletePurge(user, pid, videos[i..])).fails {
          assert Purges(user, pid, videos, answers, i);
          byVideo := byVideo - {(user, videos[i], pid)};
        }
      }
      DeletePurges(fold, View(), user, pid, videos[|videos|..], answers);
    }

    // ---- The handlers -----------------------------------------------------------------

    method Create(user: int, pid: string, name: string, env: Env) returns (status: int)
      modifies this
      ensures (View(), status) == Alone(fold, old(View()), CreateLoad(user, pid, name), env)
    {
      CreateAlone(fold, View(), user, pid, name, env);
      hide Alone, Listed;
      var existing := LoadPlaylistById(pid);
      if existing.Some? {
        if existing.value.user != user {
          return CONFLICT;
        }
        if fold(existing.value.row.name) == fold(name) {
          return OK;
        }
        return CONFLICT;
      }
      if |Listed(View(), user)| >= MAX_PLAYLISTS {
        return CONFLICT;
      }
      var applied := TryReserveName(user, fold(name), pid);
      if !applied {
        return CONFLICT;
      }
      InsertMetadataBoth(pid, Meta(user, Row(name, env.now, env.now, 0, [])));
      return CREATED;
    }

    /** Reserve first, then the new name; releasing the old one may fail. */
    method Rename(user: int, pid: string, name: string, answers: Answers) returns (status: int)
      modifies this
      ensures (View(), status) == Course(fold, old(View()), RenameLoad(user, pid, name), answers)
    {
      hide Course, RenamedTables;
      RenameLoads(fold, View(), user, pid, name, answers);
      var meta := LoadPlaylistById(pid);
      if meta.None? || meta.value.user != user {
        return NOT_FOUND;
      }
      var oldName, now := meta.value.row.name, answers(RenameLoad(user, pid, name)).now;
      if fold(oldName) == fold(name) {
        if oldName != name {
          RenameWrites(fold, View(), user, pid, name, oldName, now, false, answers);
          UpdateName(user, pid, name, now);
        }
        return OK;
      }
      RenameReserves(fold, View(), user, pid, name, oldName, now, answers);
      var applied := TryReserveName(user, fold(name), pid);
      if !applied {
        return CONFLICT;
      }
      RenameWrites(fold, View(), user, pid, name, oldName, now, true, answers);
      UpdateName(user, pid, name, now);
      if !answers(RenameRelease(user, pid, name, oldName)).fails {
        ReleaseName(user, fold(oldName));
      }
      return OK;
    }

    /** Off the list first, then the point lookup, then the name, which may fail. */
    method Unlist(user: int, pid: string, name: string, fails: bool)
      modifies this
      ensures var u := Unlisted(fold, old(View()), user, pid, name);
              View() == if fails then u.(names := old(names)) else u
    {
      byUser := byUser - {(user, pid)};
      byId := byId - {pid};
      if !fails {
        ReleaseName(user, fold(name));
      }
    }

    method Delete(user: int, pid: string, answers: Answers) returns (status: int)
      modifies this
      ensures (View(), status) == Course(fold, old(View()), DeleteLoad(user, pid), answers)
    {
      hide Course, Sorted, Videos, Items, Unlisted;
      DeleteLoads(fold, View(), user, pid, answers);
      var meta := LoadPlaylistById(pid);
      if meta.None? || meta.value.user != user {
        return NO_CONTENT;
      }
      var name := meta.value.row.name;
      DeleteUnlists(fold, View(), user, pid, name, answers);
      Unlist(user, pid, name, answers(DeleteRelease(user, pid, name)).fails);
      DeleteReads(fold, View(), user, pid, answers);
      var videos := [];
      if !answers(DeleteRead(user, pid)).fails {
        videos := Videos(Sorted(Items(View(), pid).Keys));
      }
      PurgeMembership(user, pid, videos, answers);
      DeleteDrops(fold, View(), user, pid, answers);
      if !answers(DeleteItems(user, pid)).fails {
        items := items - {pid};
      }
      return NO_CONTENT;
    }

    method AddItem(user: int, pid: string, video: string, env: Env) returns (status: int)
      modifies this
      ensures (View(), status) == Alone(fold, old(View()), AddLoad(user, pid, video), env)
    {
      AddAloneAny(fold, View(), user, pid, video, env);
      hide Alone, Prepended, Counted;
      var meta := LoadPlaylistById(pid);
      if meta.None? || meta.value.user != user {
        return NOT_FOUND;
      }
      var row := meta.value.row;
      if (user, video, pid) in byVideo && Key(byVideo[(user, video, pid)], video) in Items(View(), pid) {
        return OK;
      }
      if row.count >= MAX_ITEMS {
        return TOO_LARGE;
      }
      if env.canonical.None? {
        return NOT_FOUND;
      }
      var snap := env.canonical.value;
      if (user, video, pid) in byVideo {
        return OK;
      }
      byVideo := byVideo[(user, video, pid) := env.now];
      items := items[pid := Items(View(), pid)[Key(env.now, video) := snap]];
      assert View() == Inserted(old(View()), user, pid, video, row, snap, env.now);
      var covers := NewCovers(snap.thumbnail, row.covers);
      UpdateCountAndCovers(user, pid, row.count + 1, covers, env.now, false, false);
      return CREATED;
    }

    /** The item, the membership, the covers and the counts may each fail. */
    method RemoveItem(user: int, pid: string, video: string, answers: Answers) returns (status: int)
      modifies this
      ensures (View(), status) == Course(fold, old(View()), RemoveLoad(user, pid, video), answers)
    {
      hide Course, Recomputed, Counted, CountedAsFar, Items;
      RemoveLoads(fold, View(), user, pid, video, answers);
      var meta := LoadPlaylistById(pid);
      if meta.None? || meta.value.user != user || (user, video, pid) !in byVideo {
        return NO_CONTENT;
      }
      var row, added := meta.value.row, byVideo[(user, video, pid)];
      RemoveDrops(fold, View(), user, pid, video, row, added, answers);
      if !answers(Op.RemoveItem(user, pid, video, row, added)).fails {
        items := items[pid := Items(View(), pid) - {Key(added, video)}];
      }
      if !answers(RemoveMember(user, pid, video, row)).fails {
        byVideo := byVideo - {(user, video, pid)};
      }
      RemoveCounts(fold, View(), user, pid, row, answers);
      var covers, now := row.covers, answers(RemoveCovers(user, pid, row)).now;
      if !answers(RemoveCovers(user, pid, row)).fails {
        covers := RecomputeCoverThumbnails(pid);
      }
      var count := if row.count > 0 then row.count - 1 else 0;
      UpdateCountAndCovers(user, pid, count, covers, now,
                           answers(RemoveById(user, pid, row, covers, now)).fails,
                           answers(RemoveByUser(user, pid, row, covers, now)).fails);
      return NO_CONTENT;
    }
  }
}
