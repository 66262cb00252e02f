/** The stored covers as a cache of the newest thumbnails: an add puts its thumbnail in
    front, a remove recomputes them from the rows. */
module PlaylistCovers {
  import opened Sizes
  import opened ItemOrder
  import opened PlaylistTables
  import opened PlaylistLibrary

  function Take(n: nat, urls: seq<string>): seq<string> { if |urls| <= n then urls else urls[..n] }

  predicate NoneEmpty(urls: seq<string>) { forall i :: 0 <= i < |urls| ==> urls[i] != "" }

  predicate NoRepeats(urls: seq<string>) { forall i, j :: 0 <= i < j < |urls| ==> urls[i] != urls[j] }

  lemma {:induction false} FirstFourTakes(covers: seq<string>, urls: seq<string>)
    requires NoneEmpty(urls) && |covers| <= PREVIEW_THUMBS
    ensures FirstFour(covers, urls) == Take(PREVIEW_THUMBS, covers + urls)
    decreases |urls|
  {
    if urls == [] {
      assert covers + urls == covers;
    } else if |covers| >= PREVIEW_THUMBS {
      assert (covers + urls)[..4] == covers;
    } else {
      assert urls[0] != "";
      FirstFourTakes(covers + [urls[0]], urls[1..]);
      assert covers + [urls[0]] + urls[1..] == covers + urls;
    }
  }

  // ---- Any thumbnails -------------------------------------------------------------------

  function WithoutEmpty(urls: seq<string>): seq<string> {
    if urls == [] then [] else (if urls[0] == "" then [] else [urls[0]]) + WithoutEmpty(urls[1..])
  }

  /** Each url once, where it comes first. */
  function Once(urls: seq<string>): seq<string> {
    if urls == [] then []
    else
      var n := |urls| - 1;
      Once(urls[..n]) + (if urls[n] in urls[..n] then [] else [urls[n]])
  }

  lemma {:induction false} FirstFourAre(covers: seq<string>, urls: seq<string>)
    requires |covers| <= 4
    ensures FirstFour(covers, urls) == Take(4, covers + WithoutEmpty(urls))
    decreases |urls|
  {
    if urls == [] {
      assert covers + [] == covers;
    } else if |covers| == 4 {
      assert (covers + WithoutEmpty(urls))[..4] == covers;
    } else if urls[0] == "" {
      assert [] + WithoutEmpty(urls[1..]) == WithoutEmpty(urls[1..]);
      FirstFourAre(covers, urls[1..]);
    } else {
      FirstFourAre(covers + [urls[0]], urls[1..]);
      assert covers + ([urls[0]] + WithoutEmpty(urls[1..])) == covers + [urls[0]] + WithoutEmpty(urls[1..]);
    }
  }

  /** Whatever the thumbnails, recomputing gives the first four that are not empty among
      the newest sixteen: with more than twelve empty ones there can be fewer than four,
      although older rows have some. */
  lemma RecomputedAre(rows: map<Key, Snap>)
    ensures Recomputed(rows) == Take(4, WithoutEmpty(Take(16, Newest(rows))))
  {
    hide Newest, FirstFour, WithoutEmpty;
    var sixteen := Take(16, Newest(rows));
    FirstFourAre([], sixteen);
    assert [] + WithoutEmpty(sixteen) == WithoutEmpty(sixteen);
  }

  lemma {:induction false} OnceHas(urls: seq<string>, url: string)
    ensures url in Once(urls) <==> url in urls
    decreases |urls|
  {
    if urls != [] {
      var n := |urls| - 1;
      assert urls == urls[..n] + [urls[n]];
      OnceHas(urls[..n], url);
    }
  }

  lemma OnceGrown(seen: seq<string>, url: string)
    ensures Once(seen + [url]) == Once(seen) + (if url in seen then [] else [url])
  {
    assert (seen + [url])[..|seen|] == seen;
  }

  lemma {:induction false} OnceStarts(seen: seq<string>, urls: seq<string>)
    ensures Once(seen) <= Once(seen + urls)
    decreases |urls|
  {
    if urls == [] {
      assert seen + urls == seen;
    } else {
      OnceGrown(seen, urls[0]);
      OnceStarts(seen + [urls[0]], urls[1..]);
      assert seen + [urls[0]] + urls[1..] == seen + urls;
    }
  }

  /** `seen` is what has been looked at, and the covers are each of it once. */
  lemma {:induction false} FillIs(seen: seq<string>, covers: seq<string>, urls: seq<string>)
    requires covers == Once(seen) && |covers| <= 4
    ensures Fill(covers, urls) == Take(4, Once(seen + WithoutEmpty(urls)))
    decreases |urls|
  {
    hide Once;
    if urls == [] {
      assert seen + [] == seen;
    } else if |covers| == 4 {
      OnceStarts(seen, WithoutEmpty(urls));
    } else if urls[0] == "" {
      assert [] + WithoutEmpty(urls[1..]) == WithoutEmpty(urls[1..]);
      FillIs(seen, covers, urls[1..]);
    } else {
      OnceHas(seen, urls[0]);
      OnceGrown(seen, urls[0]);
      assert seen + [urls[0]] + WithoutEmpty(urls[1..]) == seen + WithoutEmpty(urls);
      assert covers + [] == covers;
      FillIs(seen + [urls[0]], if urls[0] in covers then covers else covers + [urls[0]], urls[1..]);
    }
  }

  /** Whatever the covers, prepending gives the first four different ones that are not
      empty, the new one first. */
  lemma PrependedAre(thumbnail: string, covers: seq<string>)
    ensures Prepended(thumbnail, covers) == Take(4, Once(WithoutEmpty([thumbnail] + covers)))
  {
    var first := if thumbnail == "" then [] else [thumbnail];
    assert ([thumbnail] + covers)[1..] == covers;
    OnceGrown([], thumbnail);
    assert [] + [thumbnail] == [thumbnail] && Once([]) == [];
    FillIs(first, first, covers);
    assert first + WithoutEmpty(covers) == WithoutEmpty([thumbnail] + covers);
  }

  // ---- Thumbnails that are not empty ------------------------------------------------------

  /** With no empty thumbnails, recomputing gives the newest four. */
  lemma RecomputedIsNewest(rows: map<Key, Snap>)
    requires NoneEmpty(Newest(rows))
    ensures Recomputed(rows) == Take(4, Newest(rows))
  {
    hide Newest, FirstFour;
    var urls := Newest(rows);
    var sixteen := Take(16, urls);
    FirstFourTakes([], sixteen);
    assert [] + sixteen == sixteen;
    assert Take(4, sixteen) == Take(4, urls);
  }

  /** A row newer than all others comes first. */
  lemma NewestGrown(rows: map<Key, Snap>, k: Key, s: Snap)
    requires k !in rows && forall l :: l in rows ==> Less(l, k)
    ensures Newest(rows[k := s]) == [s.thumbnail] + Newest(rows)
  {
    var more := rows[k := s];
    assert more.Keys == rows.Keys + {k};
    assert IsGreatest(more.Keys, k);
    assert more.Keys - {k} == rows.Keys;
    SortedStep(more.Keys, k);
    NewestAppended(rows, k, s, Sorted(rows.Keys));
  }

  lemma NewestAt(rows: map<Key, Snap>, i: nat)
    requires i < |rows|
    ensures var ks := Sorted(rows.Keys);
            |ks| == |rows| && ks[|ks| - 1 - i] in rows && Newest(rows)[i] == rows[ks[|ks| - 1 - i]].thumbnail
  {
    hide Sorted, Ascending;
    var ks := Sorted(rows.Keys);
    assert ks[|ks| - 1 - i] in ks;
  }

  lemma NewestAppended(rows: map<Key, Snap>, k: Key, s: Snap, ks: seq<Key>)
    requires k !in rows && ks == Sorted(rows.Keys) && Sorted(rows[k := s].Keys) == ks + [k]
    ensures Newest(rows[k := s]) == [s.thumbnail] + Newest(rows)
  {
    hide Newest, Sorted, Less;
    var more := rows[k := s];
    MapGrown(rows, k, s);
    var a, b := Newest(more), [s.thumbnail] + Newest(rows);
    forall i | 0 <= i < |a|
      ensures a[i] == b[i]
    {
      NewestAt(more, i);
      if i > 0 {
        NewestAt(rows, i - 1);
      }
    }
  }

  /** Filling never repeats a cover, and keeps what is there. */
  lemma {:induction false} FillNoRepeats(covers: seq<string>, urls: seq<string>)
    requires NoRepeats(covers)
    ensures NoRepeats(Fill(covers, urls))
    decreases |urls|
  {
    if urls != [] && |covers| < PREVIEW_THUMBS {
      if urls[0] == "" || urls[0] in covers {
        FillNoRepeats(covers, urls[1..]);
      } else {
        FillNoRepeats(covers + [urls[0]], urls[1..]);
      }
    }
  }

  lemma {:induction false} FillTakes(covers: seq<string>, urls: seq<string>)
    requires NoneEmpty(urls) && |covers| <= PREVIEW_THUMBS && NoRepeats(Take(PREVIEW_THUMBS, covers + urls))
    ensures Fill(covers, urls) == Take(PREVIEW_THUMBS, covers + urls)
    decreases |urls|
  {
    if urls == [] {
      assert covers + urls == covers;
    } else if |covers| >= PREVIEW_THUMBS {
      assert (covers + urls)[..4] == covers;
    } else {
      assert urls[0] != "";
      assert covers + [urls[0]] + urls[1..] == covers + urls;
      NotAmong(covers, urls);
      FillTakes(covers + [urls[0]], urls[1..]);
    }
  }

  lemma NotAmong(covers: seq<string>, urls: seq<string>)
    requires urls != [] && |covers| < PREVIEW_THUMBS && NoRepeats(Take(PREVIEW_THUMBS, covers + urls))
    ensures urls[0] !in covers
  {
    var all := Take(PREVIEW_THUMBS, covers + urls);
    assert all[|covers|] == urls[0];
    assert forall i :: 0 <= i < |covers| ==> all[i] == covers[i];
  }

  /** Putting the new thumbnail in front of correct covers gives the correct covers if
      and only if it and the three newest before it are all different. */
  lemma PrependAgreesIff(rows: map<Key, Snap>, k: Key, s: Snap)
    requires k !in rows && forall l :: l in rows ==> Less(l, k)
    requires NoneEmpty(Newest(rows)) && s.thumbnail != ""
    ensures Prepended(s.thumbnail, Recomputed(rows)) == Recomputed(rows[k := s])
       <==> NoRepeats([s.thumbnail] + Take(3, Newest(rows)))
  {
    var urls := Newest(rows);
    var covers := Take(4, urls);
    NewestGrown(rows, k, s);
    RecomputedIsNewest(rows);
    hide Newest, Recomputed, NoRepeats;
    RecomputedIsNewest(rows[k := s]);
    Shifted(s.thumbnail, urls);
    FillNoRepeats([s.thumbnail], covers) by {
      assert NoRepeats([s.thumbnail]) by {
        OneNoRepeat(s.thumbnail);
      }
    }
    if NoRepeats([s.thumbnail] + Take(3, urls)) {
      FillTakes([s.thumbnail], covers);
    }
  }

  lemma OneNoRepeat(url: string)
    ensures NoRepeats([url])
  {
  }

  lemma Shifted(url: string, urls: seq<string>)
    ensures Take(4, [url] + Take(4, urls)) == [url] + Take(3, urls) == Take(4, [url] + urls)
  {
  }

  // ---- Any sequence of adds and removes ----------------------------------------------------

  datatype Change = Save(video: string, snap: Snap, now: int) | Unsave(video: string, now: int)

  function Changed(l: Playlist, c: Change): Playlist {
    match c
    case Save(video, snap, now) => if video in l.videos then l else WithVideo(l, video, snap, now)
    case Unsave(video, now) => if video in l.videos then WithoutVideo(l, video, now) else l
  }

  /** The clock has moved on since the last add, and the thumbnail is there and not one
      that another video in the playlist has. */
  predicate Distinct(l: Playlist, c: Change) {
    c.Save? && c.video !in l.videos ==>
      && c.snap.thumbnail != ""
      && forall v :: v in l.videos ==> l.videos[v].added < c.now && l.videos[v].snap.thumbnail != c.snap.thumbnail
  }

  predicate DistinctRun(l: Playlist, cs: seq<Change>)
    decreases |cs|
  {
    cs == [] || (Distinct(l, cs[0]) && DistinctRun(Changed(l, cs[0]), cs[1..]))
  }

  function ChangedAll(l: Playlist, cs: seq<Change>): Playlist
    decreases |cs|
  {
    if cs == [] then l else ChangedAll(Changed(l, cs[0]), cs[1..])
  }

  predicate ThumbnailsDiffer(l: Playlist) {
    && (forall v :: v in l.videos ==> l.videos[v].snap.thumbnail != "")
    && (forall v, w :: v in l.videos && w in l.videos && v != w
                       ==> l.videos[v].snap.thumbnail != l.videos[w].snap.thumbnail)
  }

  lemma NewestOf(l: Playlist, i: nat) returns (v: string)
    requires i < |Newest(RowsOf(l.videos))|
    ensures v in l.videos && Newest(RowsOf(l.videos))[i] == l.videos[v].snap.thumbnail
    ensures var ks := Sorted(RowsOf(l.videos).Keys); |ks| - 1 - i >= 0 && ks[|ks| - 1 - i] == Key(l.videos[v].added, v)
  {
    hide Newest, RowsOf, Sorted, Less;
    var rows := RowsOf(l.videos);
    var ks := Sorted(rows.Keys);
    NewestAt(rows, i);
    RowOfVideo(l.videos, ks[|ks| - 1 - i]);
    v := ks[|ks| - 1 - i].video;
  }

  lemma NewestDiffer(l: Playlist)
    requires ThumbnailsDiffer(l)
    ensures NoneEmpty(Newest(RowsOf(l.videos))) && NoRepeats(Newest(RowsOf(l.videos)))
  {
    var urls := Newest(RowsOf(l.videos));
    var ks := Sorted(RowsOf(l.videos).Keys);
    hide Newest, RowsOf, Sorted;
    forall i | 0 <= i < |urls|
      ensures urls[i] != ""
    {
      var v := NewestOf(l, i);
    }
    forall i, j | 0 <= i < j < |urls|
      ensures urls[i] != urls[j]
    {
      var v := NewestOf(l, i);
      var w := NewestOf(l, j);
      Total(ks[|ks| - 1 - j], ks[|ks| - 1 - j]);
    }
  }

  lemma SavedIsNewer(l: Playlist, video: string, snap: Snap, now: int)
    requires video !in l.videos && Distinct(l, Save(video, snap, now))
    ensures Key(now, video) !in RowsOf(l.videos) && forall r :: r in RowsOf(l.videos) ==> Less(r, Key(now, video))
  {
    hide RowsOf;
    forall r | r in RowsOf(l.videos)
      ensures Less(r, Key(now, video)) && r != Key(now, video)
    {
      RowOfVideo(l.videos, r);
    }
  }

  lemma SavedDiffers(l: Playlist, video: string, snap: Snap, now: int)
    requires ThumbnailsDiffer(l) && video !in l.videos && Distinct(l, Save(video, snap, now))
    ensures ThumbnailsDiffer(WithVideo(l, video, snap, now))
  {
    hide Prepended;
  }

  lemma FrontDiffers(url: string, urls: seq<string>)
    requires NoRepeats([url] + urls)
    ensures NoRepeats([url] + Take(3, urls))
  {
    var a, b := [url] + Take(3, urls), [url] + urls;
    assert forall i :: 0 <= i < |a| ==> a[i] == b[i];
  }

  lemma SaveKeepsCovers(l: Playlist, video: string, snap: Snap, now: int)
    requires ThumbnailsDiffer(l) && l.covers == Recomputed(RowsOf(l.videos))
    requires video !in l.videos && Distinct(l, Save(video, snap, now))
    ensures var m := WithVideo(l, video, snap, now);
            ThumbnailsDiffer(m) && m.covers == Recomputed(RowsOf(m.videos))
  {
    assert snap.thumbnail != "";
    hide Newest, RowsOf, Recomputed, Prepended, ThumbnailsDiffer, Distinct, Less, NoRepeats;
    var rows, k := RowsOf(l.videos), Key(now, video);
    SavedIsNewer(l, video, snap, now);
    SavedDiffers(l, video, snap, now);
    RowsOfGrown(l.videos, video, Saved(now, snap));
    NewestDiffer(l);
    NewestDiffer(WithVideo(l, video, snap, now));
    NewestGrown(rows, k, snap);
    FrontDiffers(snap.thumbnail, Newest(rows));
    PrependAgreesIff(rows, k, snap);
  }

  lemma ChangeKeepsCovers(l: Playlist, c: Change)
    requires ThumbnailsDiffer(l) && l.covers == Recomputed(RowsOf(l.videos)) && Distinct(l, c)
    ensures var m := Changed(l, c);
            ThumbnailsDiffer(m) && m.covers == Recomputed(RowsOf(m.videos))
  {
    hide RowsOf, Recomputed, Prepended;
    if c.Save? && c.video !in l.videos {
      SaveKeepsCovers(l, c.video, c.snap, c.now);
    }
  }

  /** From a new playlist on, whatever is added and removed, the stored covers are the
      newest four thumbnails, if the clock moves on between adds and no two videos in
      the playlist share a thumbnail. */
  lemma {:induction false} CoversAreNewest(l: Playlist, cs: seq<Change>)
    requires ThumbnailsDiffer(l) && l.covers == Recomputed(RowsOf(l.videos)) && DistinctRun(l, cs)
    ensures var m := ChangedAll(l, cs);
            m.covers == Recomputed(RowsOf(m.videos)) == Take(4, Newest(RowsOf(m.videos)))
    decreases |cs|
  {
    hide RowsOf, Recomputed, Newest, ThumbnailsDiffer, Changed, Distinct;
    if cs == [] {
      NewestDiffer(l);
      RecomputedIsNewest(RowsOf(l.videos));
    } else {
      ChangeKeepsCovers(l, cs[0]);
      CoversAreNewest(Changed(l, cs[0]), cs[1..]);
    }
  }
}
