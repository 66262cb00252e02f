/** The article cache: a primary map, and three indexes kept beside it. */
module ArticlesCaches {
  import opened Wrappers
  import opened ItemOrder

  datatype Article = Article(
    id: string, slug: string, created: int, author: string, tags: set<string>, favoritedBy: set<string>,
    followers: set<string>, rest: string)

  /** The key of the recency index: time of creation, then id. */
  function TimeKey(a: Article): Key { Key(a.created, a.id) }

  datatype Cache = Cache(
    byKey: map<string, Article>,
    bySlug: map<string, Article>,
    byFollower: map<string, map<string, Article>>,
    recent: map<Key, Article>)

  function Of(byFollower: map<string, map<string, Article>>, follower: string): map<string, Article> {
    if follower in byFollower then byFollower[follower] else map[]
  }

  /** Followers that an older version of the article had and the new one has not. */
  function Dropped(c: Cache, a: Article): set<string> {
    if a.id in c.byKey then c.byKey[a.id].followers - a.followers else {}
  }

  function Inserted(c: Cache, a: Article): Cache {
    Cache(
      c.byKey[a.id := a],
      (if a.id in c.byKey then c.bySlug - {c.byKey[a.id].slug} else c.bySlug)[a.slug := a],
      map f | f in c.byFollower.Keys + Dropped(c, a) + a.followers ::
        if f in a.followers then Of(c.byFollower, f)[a.id := a]
        else if f in Dropped(c, a) then Of(c.byFollower, f) - {a.id} else Of(c.byFollower, f),
      c.recent[TimeKey(a) := a])
  }

  // ---- Queries ------------------------------------------------------------------------------

  datatype Filter = Filter(
    tag: Option<string>, author: Option<string>, favorited: Option<string>, offset: int, limit: nat)

  predicate Passes(a: Article, filter: Filter) {
    && (filter.tag.Some? ==> filter.tag.value in a.tags)
    && (filter.author.Some? ==> a.author == filter.author.value)
    && (filter.favorited.Some? ==> filter.favorited.value in a.favoritedBy)
  }

  function Filtered(all: seq<Article>, filter: Filter): (r: seq<Article>)
    ensures |r| <= |all|
  {
    if all == [] then []
    else
      var front, last := all[..|all| - 1], all[|all| - 1];
      Filtered(front, filter) + if Passes(last, filter) then [last] else []
  }

  /** Drop the first `offset`, keep at most `limit`, or all if the limit is 0. */
  function Page(all: seq<Article>, offset: int, limit: nat): seq<Article> {
    var kept := if offset <= 0 then all else if offset >= |all| then [] else all[offset..];
    if limit == 0 || |kept| <= limit then kept else kept[..limit]
  }

  /** The articles of a recency index, newest first. */
  function NewestFirst(recent: map<Key, Article>): (r: seq<Article>)
    ensures |r| == |recent|
  {
    var ks := Sorted(recent.Keys);
    seq(|ks|, i requires 0 <= i < |ks| => assert ks[|ks| - 1 - i] in ks; recent[ks[|ks| - 1 - i]])
  }

  predicate Keyed(articles: map<string, Article>) { forall k :: k in articles ==> articles[k].id == k }

  /** The recency index of these articles. */
  function ByTime(articles: map<string, Article>): map<Key, Article>
    requires Keyed(articles)
  {
    map k | k in (set id | id in articles :: TimeKey(articles[id])) :: articles[k.video]
  }

  /** The articles whose author this user follows. */
  function FollowedBy(byKey: map<string, Article>, follower: string): map<string, Article> {
    map id | id in byKey && follower in byKey[id].followers :: byKey[id]
  }

  // ---- Agreement ----------------------------------------------------------------------------

  /** The slug index is exactly what the primary map determines. */
  predicate SlugsAgree(byKey: map<string, Article>, bySlug: map<string, Article>) {
    && (forall k :: k in byKey ==> byKey[k].slug in bySlug && bySlug[byKey[k].slug] == byKey[k])
    && (forall s :: s in bySlug ==> bySlug[s].slug == s && bySlug[s].id in byKey && byKey[bySlug[s].id] == bySlug[s])
  }

  ghost predicate FollowersAgree(c: Cache) { forall f :: Of(c.byFollower, f) == FollowedBy(c.byKey, f) }

  ghost predicate Agrees(c: Cache) {
    Keyed(c.byKey) && SlugsAgree(c.byKey, c.bySlug) && FollowersAgree(c) && c.recent == ByTime(c.byKey)
  }

  predicate SlugIsFree(c: Cache, a: Article) { a.slug in c.bySlug ==> c.bySlug[a.slug].id == a.id }

  predicate SameTime(c: Cache, a: Article) { a.id in c.byKey ==> c.byKey[a.id].created == a.created }

  lemma ByTimeHas(articles: map<string, Article>, k: Key)
    requires Keyed(articles)
    ensures k in ByTime(articles) <==> k.video in articles && articles[k.video].created == k.added
    ensures k in ByTime(articles) ==> ByTime(articles)[k] == articles[k.video]
  {
    if k.video in articles && articles[k.video].created == k.added {
      assert TimeKey(articles[k.video]) == k;
    }
  }

  lemma OfInserted(c: Cache, a: Article, f: string)
    ensures Of(Inserted(c, a).byFollower, f)
         == if f in a.followers then Of(c.byFollower, f)[a.id := a]
            else if f in Dropped(c, a) then Of(c.byFollower, f) - {a.id} else Of(c.byFollower, f)
  {
  }

  lemma FollowerStays(c: Cache, a: Article, f: string)
    requires Keyed(c.byKey) && Of(c.byFollower, f) == FollowedBy(c.byKey, f)
    ensures Of(Inserted(c, a).byFollower, f) == FollowedBy(c.byKey[a.id := a], f)
  {
    OfInserted(c, a, f);
    hide Of, Inserted;
  }

  lemma FollowersStay(c: Cache, a: Article)
    requires Keyed(c.byKey) && FollowersAgree(c)
    ensures FollowersAgree(Inserted(c, a))
  {
    var d := Inserted(c, a);
    assert d.byKey == c.byKey[a.id := a];
    hide Inserted, FollowedBy, Of, Keyed;
    forall f
      ensures Of(d.byFollower, f) == FollowedBy(d.byKey, f)
    {
      FollowerStays(c, a, f);
    }
  }

  lemma SlugsStayIff(c: Cache, a: Article)
    requires Keyed(c.byKey) && SlugsAgree(c.byKey, c.bySlug)
    ensures SlugsAgree(Inserted(c, a).byKey, Inserted(c, a).bySlug) <==> SlugIsFree(c, a)
  {
    var d := Inserted(c, a);
    if SlugIsFree(c, a) {
      forall k | k in d.byKey
        ensures d.byKey[k].slug in d.bySlug && d.bySlug[d.byKey[k].slug] == d.byKey[k]
      {
      }
    } else {
      var b := c.bySlug[a.slug];
      assert b.id in d.byKey && d.byKey[b.id] == b;
    }
  }

  lemma TimesGrown(byKey: map<string, Article>, a: Article)
    requires Keyed(byKey) && (a.id in byKey ==> byKey[a.id].created == a.created)
    ensures Keyed(byKey[a.id := a]) && ByTime(byKey[a.id := a]) == ByTime(byKey)[TimeKey(a) := a]
  {
    var more := byKey[a.id := a];
    hide ByTime;
    forall k
      ensures k in ByTime(more) <==> k in ByTime(byKey)[TimeKey(a) := a]
      ensures k in ByTime(more) ==> ByTime(more)[k] == ByTime(byKey)[TimeKey(a) := a][k]
    {
      ByTimeHas(byKey, k);
      ByTimeHas(more, k);
    }
  }

  lemma StaleTime(byKey: map<string, Article>, a: Article)
    requires Keyed(byKey) && a.id in byKey && byKey[a.id].created != a.created
    ensures Keyed(byKey[a.id := a]) && ByTime(byKey[a.id := a]) != ByTime(byKey)[TimeKey(a) := a]
  {
    var stale := TimeKey(byKey[a.id]);
    hide ByTime;
    ByTimeHas(byKey, stale);
    ByTimeHas(byKey[a.id := a], stale);
    assert stale in ByTime(byKey)[TimeKey(a) := a];
  }

  lemma TimesStayIff(c: Cache, a: Article)
    requires Keyed(c.byKey) && c.recent == ByTime(c.byKey)
    ensures Keyed(Inserted(c, a).byKey)
    ensures Inserted(c, a).recent == ByTime(Inserted(c, a).byKey) <==> SameTime(c, a)
  {
    assert Inserted(c, a).byKey == c.byKey[a.id := a] && Inserted(c, a).recent == c.recent[TimeKey(a) := a];
    hide Inserted, ByTime;
    if SameTime(c, a) {
      TimesGrown(c.byKey, a);
    } else {
      StaleTime(c.byKey, a);
    }
  }

  /** From indexes that agree, an insertion leads to indexes that agree if and only if
      no other article holds the slug and the article's creation time has not changed. */
  lemma InsertAgreesIff(c: Cache, a: Article)
    requires Agrees(c)
    ensures Agrees(Inserted(c, a)) <==> SlugIsFree(c, a) && SameTime(c, a)
  {
    hide FollowersAgree, SlugsAgree, ByTime, SlugIsFree, SameTime, Keyed, Inserted;
    FollowersStay(c, a);
    SlugsStayIff(c, a);
    TimesStayIff(c, a);
  }

  const EMPTY := Cache(map[], map[], map[], map[])

  function InsertedAll(c: Cache, articles: seq<Article>): Cache
    decreases |articles|
  {
    if articles == [] then c else InsertedAll(Inserted(c, articles[0]), articles[1..])
  }

  predicate Orderly(c: Cache, articles: seq<Article>)
    decreases |articles|
  {
    articles == []
    || (SlugIsFree(c, articles[0]) && SameTime(c, articles[0]) && Orderly(Inserted(c, articles[0]), articles[1..]))
  }

  lemma EmptyAgrees()
    ensures Agrees(EMPTY)
  {
    assert ByTime(map[]) == map[];
    assert FollowersAgree(EMPTY);
  }

  lemma {:induction false} RunAgrees(c: Cache, articles: seq<Article>)
    requires Agrees(c) && Orderly(c, articles)
    ensures Agrees(InsertedAll(c, articles))
    decreases |articles|
  {
    hide Agrees, Inserted, SlugIsFree, SameTime;
    if articles != [] {
      InsertAgreesIff(c, articles[0]);
      RunAgrees(Inserted(c, articles[0]), articles[1..]);
    }
  }

  /** After any such sequence of insertions into an empty cache, the newest articles
      and a user's feed are determined by the primary map alone. */
  lemma QueriesComeFromPrimary(articles: seq<Article>, follower: string)
    requires Orderly(EMPTY, articles)
    ensures var c := InsertedAll(EMPTY, articles);
            && Keyed(c.byKey) && c.recent == ByTime(c.byKey)
            && Of(c.byFollower, follower) == FollowedBy(c.byKey, follower)
            && forall k :: k in c.byKey ==> c.byKey[k].slug in c.bySlug && c.bySlug[c.byKey[k].slug] == c.byKey[k]
  {
    EmptyAgrees();
    RunAgrees(EMPTY, articles);
    hide InsertedAll, Orderly, ByTime;
  }

  // ---- Pages ----------------------------------------------------------------------------------

  lemma NewestAscends(recent: map<Key, Article>, i: nat, j: nat)
    requires (forall k :: k in recent ==> TimeKey(recent[k]) == k) && i < j < |recent|
    ensures Less(TimeKey(NewestFirst(recent)[j]), TimeKey(NewestFirst(recent)[i]))
  {
    var ks := Sorted(recent.Keys);
    hide Less, Sorted;
    assert ks[|ks| - 1 - i] in ks && ks[|ks| - 1 - j] in ks;
  }

  lemma FilterStep(all: seq<Article>, i: nat, filter: Filter)
    requires i < |all|
    ensures Filtered(all[..i + 1], filter)
         == Filtered(all[..i], filter) + if Passes(all[i], filter) then [all[i]] else []
  {
    assert all[..i + 1][..i] == all[..i];
  }

  lemma {:induction false} FilterPrefix(all: seq<Article>, i: nat, filter: Filter)
    requires i <= |all|
    ensures Filtered(all[..i], filter) <= Filtered(all, filter)
    decreases |all| - i
  {
    if i == |all| {
      assert all[..i] == all;
    } else {
      FilterStep(all, i, filter);
      FilterPrefix(all, i + 1, filter);
    }
  }

  predicate NewerFirst(all: seq<Article>) {
    forall i, j :: 0 <= i < j < |all| ==> Less(TimeKey(all[j]), TimeKey(all[i]))
  }

  /** The articles with the tag, by the author and liked by the user that are asked for,
      all of them, once and in the order of the list. */
  lemma {:induction false} FilteredAre(all: seq<Article>, filter: Filter)
    requires NewerFirst(all)
    ensures NewerFirst(Filtered(all, filter))
    ensures forall a :: a in Filtered(all, filter) <==>
              && a in all && (filter.tag.Some? ==> filter.tag.value in a.tags)
              && (filter.author.Some? ==> a.author == filter.author.value)
              && (filter.favorited.Some? ==> filter.favorited.value in a.favoritedBy)
    decreases |all|
  {
    hide Less;
    if all != [] {
      var n := |all| - 1;
      assert all == all[..n] + [all[n]];
      FilteredAre(all[..n], filter);
      forall a | a in all[..n]
        ensures Less(TimeKey(all[n]), TimeKey(a))
      {
        var i :| 0 <= i < n && all[i] == a;
      }
    }
  }

  function Skipped(n: nat, offset: int): nat { if offset <= 0 then 0 else if offset <= n then offset else n }

  /** One more article, while the page is not full. */
  lemma PageStep(all: seq<Article>, a: Article, offset: int, limit: nat)
    requires limit == 0 || |Page(all, offset, limit)| < limit
    ensures Page(all + [a], offset, limit)
         == Page(all, offset, limit) + if Skipped(|all|, offset) < offset then [] else [a]
    ensures Skipped(|all| + 1, offset) == Skipped(|all|, offset) + if Skipped(|all|, offset) < offset then 1 else 0
  {
    if 0 < offset < |all| {
      assert (all + [a])[offset..] == all[offset..] + [a];
    } else if offset == |all| && offset > 0 {
      assert (all + [a])[offset..] == [a];
    }
  }

  /** A full page does not change. */
  lemma PageFull(all: seq<Article>, more: seq<Article>, offset: int, limit: nat)
    requires all <= more && limit > 0 && |Page(all, offset, limit)| >= limit
    ensures Page(more, offset, limit) == Page(all, offset, limit)
  {
    if 0 < offset < |all| {
      assert all[offset..] <= more[offset..];
    }
  }

  /** The loop of a query: skipping what is before the offset, stopping at the limit. */
  method Select(all: seq<Article>, filter: Filter) returns (articles: seq<Article>)
    ensures articles == Page(Filtered(all, filter), filter.offset, filter.limit)
  {
    hide Page, Skipped, Passes;
    articles := [];
    var offset := 0;
    assert Filtered(all[..0], filter) == [];
    NothingYet(filter.offset, filter.limit);
    for i := 0 to |all|
      invariant offset == Skipped(|Filtered(all[..i], filter)|, filter.offset)
      invariant articles == Page(Filtered(all[..i], filter), filter.offset, filter.limit)
    {
      var seen := Filtered(all[..i], filter);
      if filter.limit != 0 && |articles| >= filter.limit {
        FilterPrefix(all, i, filter);
        PageFull(seen, Filtered(all, filter), filter.offset, filter.limit);
        return;
      }
      FilterStep(all, i, filter);
      if !Passes(all[i], filter) {
        assert seen + [] == seen;
        continue;
      }
      PageStep(seen, all[i], filter.offset, filter.limit);
      if filter.offset != 0 && offset < filter.offset {
        offset := offset + 1;
        assert articles + [] == articles;
        continue;
      }
      OffsetReached(|seen|, filter.offset);
      articles := articles + [all[i]];
    }
    assert all[..|all|] == all;
  }

  lemma NothingYet(offset: int, limit: nat)
    ensures Page([], offset, limit) == [] && Skipped(0, offset) == 0
  {
  }

  lemma OffsetReached(n: nat, offset: int)
    ensures offset == 0 ==> !(Skipped(n, offset) < offset)
  {
  }

  // ---- The cache -----------------------------------------------------------------------------

  class ArticlesCacheContainer {
    var byKey: map<string, Article>
    var bySlug: map<string, Article>
    var byFollower: map<string, map<string, Article>>
    var recent: map<Key, Article>

    function View(): Cache
      reads this
    {
      Cache(byKey, bySlug, byFollower, recent)
    }

    constructor ()
      ensures View() == EMPTY && Agrees(View())
    {
      byKey, bySlug, byFollower, recent := map[], map[], map[], map[];
      new;
      EmptyAgrees();
    }

    /** Takes the article out of the maps of followers it no longer has. */
    method DropFollowers(id: string, gone: set<string>)
      modifies `byFollower
      ensures byFollower == map f | f in old(byFollower).Keys + gone ::
                                if f in gone then Of(old(byFollower), f) - {id} else Of(old(byFollower), f)
    {
      ghost var was := byFollower;
      var todo := gone;
      while todo != {}
        invariant todo <= gone
        invariant byFollower == map f | f in was.Keys + (gone - todo) ::
                                    if f in gone - todo then Of(was, f) - {id} else Of(was, f)
        decreases todo
      {
        var follower :| follower in todo;
        byFollower := byFollower[follower := Of(byFollower, follower) - {id}];
        todo := todo - {follower};
      }
    }

    method AddFollowers(a: Article, followers: set<string>)
      modifies `byFollower
      ensures byFollower == map f | f in old(byFollower).Keys + followers ::
                                if f in followers then Of(old(byFollower), f)[a.id := a] else Of(old(byFollower), f)
    {
      ghost var was := byFollower;
      var todo := followers;
      while todo != {}
        invariant todo <= followers
        invariant byFollower == map f | f in was.Keys + (followers - todo) ::
                                    if f in followers - todo then Of(was, f)[a.id := a] else Of(was, f)
        decreases todo
      {
        var follower :| follower in todo;
        byFollower := byFollower[follower := Of(byFollower, follower)[a.id := a]];
        todo := todo - {follower};
      }
    }

    method UpdateFollowers(a: Article, gone: set<string>)
      requires gone !! a.followers
      modifies `byFollower
      ensures byFollower == map f | f in old(byFollower).Keys + gone + a.followers ::
                                if f in a.followers then Of(old(byFollower), f)[a.id := a]
                                else if f in gone then Of(old(byFollower), f) - {a.id} else Of(old(byFollower), f)
    {
      DropFollowers(a.id, gone);
      AddFollowers(a, a.followers);
    }

    method InsertOrAssign(a: Article)
      modifies this
      ensures View() == Inserted(old(View()), a)
      ensures Agrees(old(View())) ==> (Agrees(View()) <==> SlugIsFree(old(View()), a) && SameTime(old(View()), a))
    {
      ghost var c := View();
      hide Agrees, SlugIsFree, SameTime, Of;
      var gone := {};
      if a.id in byKey {
        var before := byKey[a.id];
        bySlug := bySlug - {before.slug};
        gone := before.followers - a.followers;
      }
      UpdateFollowers(a, gone);
      byKey := byKey[a.id := a];
      bySlug := bySlug[a.slug := a];
      recent := recent[TimeKey(a) := a];
      if Agrees(c) {
        InsertAgreesIff(c, a);
      }
    }

    method FindArticleBySlug(slug: string) returns (r: Option<Article>)
      ensures Agrees(View()) ==>
                match r
                case Some(a) => a.slug == slug && a.id in byKey && byKey[a.id] == a
                case None => forall k :: k in byKey ==> byKey[k].slug != slug
    {
      if slug !in bySlug {
        return None;
      }
      return Some(bySlug[slug]);
    }

    method GetRecent(filter: Filter) returns (articles: seq<Article>)
      ensures Agrees(View()) ==>
                articles == Page(Filtered(NewestFirst(ByTime(byKey)), filter), filter.offset, filter.limit)
    {
      hide FollowersAgree, SlugsAgree, ByTime, Page, Filtered, NewestFirst;
      articles := Select(NewestFirst(recent), filter);
    }

    method GetFeed(offset: int, limit: nat, user: string) returns (articles: seq<Article>)
      ensures Agrees(View()) ==> articles == Page(NewestFirst(ByTime(FollowedBy(byKey, user))), offset, limit)
    {
      var filter := Filter(None, None, None, offset, limit);
      if user !in byFollower {
        assert Agrees(View()) ==> FollowedBy(byKey, user) == map[] by {
          assert Of(byFollower, user) == map[];
        }
        return [];
      }
      var followed := Of(byFollower, user);
      var ordered := InOrder(followed);
      articles := Select(NewestFirst(ordered), filter);
      NoFilter(NewestFirst(ordered), filter);
    }
  }

  function Part(articles: map<string, Article>, todo: set<string>): map<string, Article> {
    map id | id in articles && id !in todo :: articles[id]
  }

  lemma OnePart(articles: map<string, Article>, todo: set<string>, id: string)
    requires Keyed(articles) && id in todo && id in articles
    ensures ByTime(Part(articles, todo - {id})) == ByTime(Part(articles, todo))[TimeKey(articles[id]) := articles[id]]
  {
    hide ByTime;
    assert Part(articles, todo - {id}) == Part(articles, todo)[id := articles[id]];
    TimesGrown(Part(articles, todo), articles[id]);
  }

  /** Orders the articles of one map by time. */
  method InOrder(articles: map<string, Article>) returns (ordered: map<Key, Article>)
    ensures Keyed(articles) ==> ordered == ByTime(articles)
  {
    assert ByTime(map[]) == map[];
    hide ByTime, Part;
    ordered := map[];
    var todo := articles.Keys;
    PartEnds(articles);
    while todo != {}
      invariant todo <= articles.Keys
      invariant Keyed(articles) ==> ordered == ByTime(Part(articles, todo))
      decreases todo
    {
      var id :| id in todo;
      if Keyed(articles) {
        OnePart(articles, todo, id);
      }
      ordered := ordered[TimeKey(articles[id]) := articles[id]];
      todo := todo - {id};
    }
  }

  lemma PartEnds(articles: map<string, Article>)
    ensures Part(articles, articles.Keys) == map[] && Part(articles, {}) == articles
  {
  }

  lemma {:induction false} NoFilter(all: seq<Article>, filter: Filter)
    requires filter.tag.None? && filter.author.None? && filter.favorited.None?
    ensures Filtered(all, filter) == all
    decreases |all|
  {
    if all != [] {
      NoFilter(all[..|all| - 1], filter);
    }
  }
}
