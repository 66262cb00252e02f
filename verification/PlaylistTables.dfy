/** Playlist item rows and the order in which a partition holds them: by time added,
    then by video id. */
module ItemOrder {
  datatype Key = Key(added: int, video: string)

  predicate TextLess(a: string, b: string) {
    b != [] && (a == [] || a[0] < b[0] || (a[0] == b[0] && TextLess(a[1..], b[1..])))
  }

  predicate Less(k: Key, l: Key) { k.added < l.added || (k.added == l.added && TextLess(k.video, l.video)) }

  lemma {:induction false} TextTotal(a: string, b: string)
    ensures a == b || TextLess(a, b) || TextLess(b, a)
    ensures !(TextLess(a, b) && TextLess(b, a)) && !TextLess(a, a)
  {
    if a != [] {
      TextTotal(a[1..], a[1..]);
      if b != [] {
        TextTotal(a[1..], b[1..]);
        assert a == [a[0]] + a[1..] && b == [b[0]] + b[1..];
      }
    }
  }

  lemma {:induction false} TextTransitive(a: string, b: string, c: string)
    requires TextLess(a, b) && TextLess(b, c)
    ensures TextLess(a, c)
  {
    if a != [] && a[0] == b[0] && b[0] == c[0] {
      TextTransitive(a[1..], b[1..], c[1..]);
    }
  }

  /** The texts are equal up to some place, where the first one ends or has the smaller
      character. */
  predicate DiffersAt(a: string, b: string, k: int) {
    0 <= k <= |a| && k < |b| && a[..k] == b[..k] && (k == |a| || a[k] < b[k])
  }

  lemma SameStart(a: string, b: string, k: nat)
    requires 0 < k && a != [] && b != []
    ensures k <= |a| && k <= |b| && a[..k] == b[..k] ==> a[0] == b[0]
  {
    if k <= |a| && k <= |b| {
      assert a[0] == a[..k][0] && b[0] == b[..k][0];
    }
  }

  lemma {:induction false} TextLessIff(a: string, b: string)
    ensures TextLess(a, b) <==> exists k :: DiffersAt(a, b, k)
  {
    if b != [] {
      if a == [] || a[0] < b[0] {
        assert DiffersAt(a, b, 0);
      } else if a[0] == b[0] {
        TextLessIff(a[1..], b[1..]);
        if k :| DiffersAt(a[1..], b[1..], k) {
          assert a[..k + 1] == [a[0]] + a[1..][..k] && b[..k + 1] == [b[0]] + b[1..][..k];
          assert DiffersAt(a, b, k + 1);
        }
        if k :| DiffersAt(a, b, k) {
          assert a[1..][..k - 1] == a[..k][1..] && b[1..][..k - 1] == b[..k][1..];
          assert DiffersAt(a[1..], b[1..], k - 1);
        }
      } else {
        forall k | k > 0
          ensures !DiffersAt(a, b, k)
        {
          SameStart(a, b, k);
        }
      }
    }
  }

  lemma Total(k: Key, l: Key)
    ensures k == l || Less(k, l) || Less(l, k)
    ensures !(Less(k, l) && Less(l, k)) && !Less(k, k)
  {
    TextTotal(k.video, l.video);
    TextTotal(k.video, k.video);
  }

  lemma Transitive(k: Key, l: Key, m: Key)
    requires Less(k, l) && Less(l, m)
    ensures Less(k, m)
  {
    if k.added == m.added {
      TextTransitive(k.video, l.video, m.video);
    }
  }

  predicate IsGreatest(s: set<Key>, k: Key) { k in s && forall l :: l in s && l != k ==> Less(l, k) }

  lemma {:induction false} GreatestExists(s: set<Key>) returns (k: Key)
    requires s != {}
    ensures IsGreatest(s, k)
  {
    k :| k in s;
    var rest := s - {k};
    assert forall l :: l in s && l != k ==> l in rest;
    if rest != {} {
      var m := GreatestExists(rest);
      Total(k, m);
      if Less(k, m) {
        k := m;
      } else {
        forall l | l in s && l != k
          ensures Less(l, k)
        {
          if l != m {
            Transitive(l, m, k);
          }
        }
      }
    }
  }

  predicate Ascending(ks: seq<Key>) { forall i, j :: 0 <= i < j < |ks| ==> Less(ks[i], ks[j]) }

  /** The rows of a partition in order. */
  function Sorted(s: set<Key>): (ks: seq<Key>)
    ensures Ascending(ks) && |ks| == |s| && forall k :: k in ks <==> k in s
  {
    if s == {} then []
    else
      HasGreatest(s);
      GreatestIsOne(s);
      var k :| IsGreatest(s, k);
      Sorted(s - {k}) + [k]
  }

  lemma HasGreatest(s: set<Key>)
    requires s != {}
    ensures exists k :: IsGreatest(s, k)
  {
    var k := GreatestExists(s);
  }

  lemma GreatestIsOne(s: set<Key>)
    ensures forall k, l :: IsGreatest(s, k) && IsGreatest(s, l) ==> k == l
  {
    forall k, l | IsGreatest(s, k) && IsGreatest(s, l)
      ensures k == l
    {
      Total(k, l);
    }
  }

  /** The last of the keys in order. */
  lemma LastIsGreatest(ks: seq<Key>, s: set<Key>)
    requires Ascending(ks) && (forall k :: k in ks <==> k in s) && ks != []
    ensures IsGreatest(s, ks[|ks| - 1])
  {
    var last := ks[|ks| - 1];
    forall l | l in s && l != last
      ensures Less(l, last)
    {
      var i :| 0 <= i < |ks| && ks[i] == l;
    }
  }

  lemma WithoutLast(ks: seq<Key>, s: set<Key>)
    requires Ascending(ks) && (forall k :: k in ks <==> k in s) && ks != []
    ensures var last := ks[|ks| - 1];
            forall k :: k in ks[..|ks| - 1] <==> k in s - {last}
  {
    var last, front := ks[|ks| - 1], ks[..|ks| - 1];
    forall k | k in front
      ensures k in s - {last}
    {
      var i :| 0 <= i < |front| && front[i] == k;
      Total(ks[i], last);
      assert Less(ks[i], last) && ks[i] in ks;
    }
    assert ks == front + [last];
  }

  /** A sequence in order is determined by what is in it. */
  lemma {:induction false} SortedIs(ks: seq<Key>, s: set<Key>)
    requires Ascending(ks) && forall k :: k in ks <==> k in s
    ensures Sorted(s) == ks
    decreases |ks|
  {
    if ks == [] {
      assert s == {};
    } else {
      hide Sorted, Less;
      var last, front := ks[|ks| - 1], ks[..|ks| - 1];
      LastIsGreatest(ks, s);
      WithoutLast(ks, s);
      SortedIs(front, s - {last});
      assert front + [last] == ks;
      SortedStep(s, last);
    }
  }

  lemma SortedStep(s: set<Key>, last: Key)
    requires IsGreatest(s, last)
    ensures Sorted(s) == Sorted(s - {last}) + [last]
  {
    GreatestIsOne(s);
  }
}

/** The five tables of the playlist store. */
module PlaylistTables {
  import opened ItemOrder

  const MAX_PLAYLISTS := 200
  const MAX_ITEMS := 5000
  const PREVIEW_THUMBS := 4

  /** Case folding, whatever it does. */
  type Fold = string -> string

  /** The columns both metadata tables share. */
  datatype Row = Row(name: string, created: int, updated: int, count: int, covers: seq<string>)

  datatype Meta = Meta(user: int, row: Row)

  /** A row of playlist_items apart from its key: the thumbnail, and the other columns. */
  datatype Snap = Snap(thumbnail: string, other: string)

  datatype Tables = Tables(
    byId: map<string, Meta>,
    byUser: map<(int, string), Row>,
    items: map<string, map<Key, Snap>>,
    byVideo: map<(int, string, string), int>,
    names: map<(int, string), string>)

  function Items(t: Tables, pid: string): map<Key, Snap> { if pid in t.items then t.items[pid] else map[] }

  // ---- Writes: an update of a missing row makes the row ------------------------------

  /** What reading back a missing row's columns gives. */
  const BLANK := Row("", 0, 0, 0, [])

  function IdRow(t: Tables, pid: string): Meta { if pid in t.byId then t.byId[pid] else Meta(0, BLANK) }

  function UserRow(t: Tables, user: int, pid: string): Row {
    if (user, pid) in t.byUser then t.byUser[(user, pid)] else BLANK
  }

  function PutId(t: Tables, pid: string, m: Meta): Tables { t.(byId := t.byId[pid := m]) }

  function PutUser(t: Tables, user: int, pid: string, r: Row): Tables { t.(byUser := t.byUser[(user, pid) := r]) }

  function Renamed(r: Row, name: string, now: int): Row { r.(name := name, updated := now) }

  function Recounted(r: Row, count: int, covers: seq<string>, now: int): Row {
    r.(count := count, covers := covers, updated := now)
  }

  function PutItem(t: Tables, pid: string, k: Key, s: Snap): Tables {
    t.(items := t.items[pid := Items(t, pid)[k := s]])
  }

  function DropItem(t: Tables, pid: string, k: Key): Tables { t.(items := t.items[pid := Items(t, pid) - {k}]) }

  function DropItems(t: Tables, pid: string): Tables { t.(items := t.items - {pid}) }

  // ---- Reads --------------------------------------------------------------------------

  /** The playlists a user is listed with. */
  function Listed(t: Tables, user: int): set<string> { set k | k in t.byUser && k.0 == user :: k.1 }

  /** The videos of a partition, in its order. */
  function Videos(ks: seq<Key>): (vs: seq<string>)
    ensures |vs| == |ks| && forall i :: 0 <= i < |ks| ==> vs[i] == ks[i].video
  {
    seq(|ks|, i requires 0 <= i < |ks| => ks[i].video)
  }

  // ---- Covers -------------------------------------------------------------------------

  /** Adds, up to four covers, those of `urls` that are neither empty nor there yet. */
  function Fill(covers: seq<string>, urls: seq<string>): seq<string>
    decreases |urls|
  {
    if urls == [] || |covers| >= PREVIEW_THUMBS then covers
    else if urls[0] == "" || urls[0] in covers then Fill(covers, urls[1..])
    else Fill(covers + [urls[0]], urls[1..])
  }

  /** The covers after an add: the new thumbnail ahead of the old covers. */
  function Prepended(thumbnail: string, covers: seq<string>): seq<string> {
    Fill(if thumbnail == "" then [] else [thumbnail], covers)
  }

  /** The first four urls that are not empty. */
  function FirstFour(covers: seq<string>, urls: seq<string>): seq<string>
    decreases |urls|
  {
    if urls == [] || |covers| >= PREVIEW_THUMBS then covers
    else if urls[0] == "" then FirstFour(covers, urls[1..])
    else FirstFour(covers + [urls[0]], urls[1..])
  }

  /** The thumbnails of a partition, newest first. */
  function Newest(rows: map<Key, Snap>): (urls: seq<string>)
    ensures |urls| == |rows|
  {
    var ks := Sorted(rows.Keys);
    seq(|ks|, i requires 0 <= i < |ks| =>
      assert ks[|ks| - 1 - i] in ks; rows[ks[|ks| - 1 - i]].thumbnail)
  }

  /** The covers after a remove: recomputed from the newest sixteen rows. */
  function Recomputed(rows: map<Key, Snap>): seq<string> {
    var urls := Newest(rows);
    FirstFour([], if |urls| <= 16 then urls else urls[..16])
  }
}
