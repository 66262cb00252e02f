/** Reading a playlist page by page: each request takes one row more than it returns,
    and the token of the last row returned continues the list. */
module Pagination {
  import opened Wrappers
  import opened Sizes
  import opened Texts
  import opened ItemOrder
  import opened Cursors

  /** The rows a query may return: those after the cursor. */
  function Beyond(keys: set<Key>, cursor: Option<Key>): set<Key> {
    set k | k in keys && (cursor.None? || Less(cursor.value, k))
  }

  /** The partition in order from the cursor on, and at most n rows of it. */
  function Query(keys: set<Key>, cursor: Option<Key>, n: nat): (rows: seq<Key>)
    ensures |rows| <= n && |rows| <= |Sorted(Beyond(keys, cursor))| && rows == Sorted(Beyond(keys, cursor))[..|rows|]
    ensures |rows| == n || rows == Sorted(Beyond(keys, cursor))
  {
    var all := Sorted(Beyond(keys, cursor));
    if |all| <= n then all else all[..n]
  }

  /** What a page holds: the rows, and the last of them if there are more. */
  predicate IsPage(keys: set<Key>, cursor: Option<Key>, limit: nat, items: seq<Key>, next: Option<Key>) {
    var all := Sorted(Beyond(keys, cursor));
    && |items| <= |all| && items == all[..|items|]
    && if |all| <= limit then items == all && next == None
       else |items| == limit && limit > 0 && next == Some(items[limit - 1])
  }

  /** One page, as the handlers build it: the limit is at least 1. */
  method Page(keys: set<Key>, cursor: Option<Key>, limit: nat) returns (items: seq<Key>, next: Option<Key>)
    requires limit >= 1
    ensures IsPage(keys, cursor, limit, items, next)
  {
    hide Less, Beyond, Sorted;
    items := [];
    var hasMore := false;
    var rows := Query(keys, cursor, limit + 1);
    var i := 0;
    while i < |rows| && !hasMore
      invariant 0 <= i <= |rows| && i <= limit
      invariant items == rows[..i] && (hasMore ==> i == limit < |rows|)
      decreases |rows| - i, !hasMore
    {
      if |items| == limit {
        hasMore := true;
      } else {
        items := items + [rows[i]];
        i := i + 1;
      }
    }
    next := None;
    if hasMore && items != [] {
      next := Some(items[|items| - 1]);
    }
  }

  // ---- Scans --------------------------------------------------------------------------------

  /** One request of a scan: the partition as it is then, the limit, and what it got. */
  datatype Read = Read(keys: set<Key>, limit: nat, items: seq<Key>, next: Option<Key>)

  /** Requests that follow each other's tokens, from a cursor on: only the last one may
      have no token. */
  predicate Scan(cursor: Option<Key>, pages: seq<Read>)
    decreases |pages|
  {
    pages == []
    || (&& pages[0].limit >= 1
        && IsPage(pages[0].keys, cursor, pages[0].limit, pages[0].items, pages[0].next)
        && if pages[0].next.None? then |pages| == 1 else Scan(pages[0].next, pages[1..]))
  }

  function Listed(pages: seq<Read>): seq<Key>
    decreases |pages|
  {
    if pages == [] then [] else pages[0].items + Listed(pages[1..])
  }

  predicate Ended(pages: seq<Read>) { pages != [] && pages[|pages| - 1].next.None? }

  // ---- One page -------------------------------------------------------------------------------

  lemma PageShape(r: Read, cursor: Option<Key>)
    requires r.limit >= 1 && IsPage(r.keys, cursor, r.limit, r.items, r.next)
    ensures Ascending(r.items)
    ensures forall k :: k in r.items ==> k in r.keys && (cursor.None? || Less(cursor.value, k))
    ensures r.next.Some? ==> r.items != [] && r.next.value == r.items[|r.items| - 1]
  {
    var all := Sorted(Beyond(r.keys, cursor));
    hide Sorted, Less;
    forall k | k in r.items
      ensures k in Beyond(r.keys, cursor)
    {
      assert k in all;
    }
  }

  /** No row is skipped: what is after the cursor and not after the last row returned is
      on the page, and all of it is if there is no token. */
  lemma PageMisses(r: Read, cursor: Option<Key>, k: Key)
    requires r.limit >= 1 && IsPage(r.keys, cursor, r.limit, r.items, r.next)
    requires k in Beyond(r.keys, cursor)
    ensures k in r.items || (r.next.Some? && Less(r.next.value, k))
  {
    var all := Sorted(Beyond(r.keys, cursor));
    var i :| 0 <= i < |all| && all[i] == k;
    if i < |r.items| {
      assert r.items[i] == k;
    } else {
      assert Less(all[|r.items| - 1], all[i]);
    }
  }

  // ---- Whole scans -----------------------------------------------------------------------------

  lemma {:induction false} ListedIsBeyond(cursor: Option<Key>, pages: seq<Read>)
    requires Scan(cursor, pages)
    ensures forall k :: k in Listed(pages) && cursor.Some? ==> Less(cursor.value, k)
    decreases |pages|
  {
    if pages != [] {
      var r := pages[0];
      PageShape(r, cursor);
      if r.next.Some? {
        ListedIsBeyond(r.next, pages[1..]);
        hide IsPage, Less, Scan;
        forall k | k in Listed(pages) && cursor.Some?
          ensures Less(cursor.value, k)
        {
          if k !in r.items {
            assert k in Listed(pages[1..]);
            Transitive(cursor.value, r.next.value, k);
          }
        }
      } else {
        assert pages[1..] == [] && r.items + [] == r.items;
      }
    }
  }

  /** The keys a scan lists ascend strictly, whatever is added or removed between its
      pages. */
  lemma {:induction false} ScanAscends(cursor: Option<Key>, pages: seq<Read>)
    requires Scan(cursor, pages)
    ensures Ascending(Listed(pages))
    decreases |pages|
  {
    if pages == [] {
      assert Listed(pages) == [];
    } else {
      hide IsPage, Less, Ascending, Scan, Listed;
      var r := pages[0];
      ScanStep(cursor, pages);
      PageShape(r, cursor);
      ListedStep(pages);
      if r.next.Some? {
        ListedIsBeyond(r.next, pages[1..]);
        ScanAscends(r.next, pages[1..]);
        Joined(r.items, r.next.value, Listed(pages[1..]));
      }
    }
  }

  lemma ScanStep(cursor: Option<Key>, pages: seq<Read>)
    requires Scan(cursor, pages) && pages != []
    ensures pages[0].limit >= 1
    ensures IsPage(pages[0].keys, cursor, pages[0].limit, pages[0].items, pages[0].next)
    ensures pages[0].next.Some? ==> Scan(pages[0].next, pages[1..])
    ensures pages[0].next.None? ==> Listed(pages) == pages[0].items
  {
    hide IsPage;
    if pages[0].next.None? {
      assert pages[1..] == [] && pages[0].items + [] == pages[0].items;
    }
  }

  lemma ListedStep(pages: seq<Read>)
    requires pages != []
    ensures Listed(pages) == pages[0].items + Listed(pages[1..])
  {
  }

  lemma Joined(a: seq<Key>, last: Key, b: seq<Key>)
    requires Ascending(a) && Ascending(b) && a != [] && last == a[|a| - 1] && forall k :: k in b ==> Less(last, k)
    ensures Ascending(a + b)
  {
    hide Less;
    var c := a + b;
    forall i, j | 0 <= i < j < |c|
      ensures Less(c[i], c[j])
    {
      if i < |a| <= j {
        assert c[j] in b;
        if i < |a| - 1 {
          Transitive(a[i], a[|a| - 1], c[j]);
        }
      }
    }
  }

  /** An item that is there at every request of a complete scan is listed exactly once,
      whatever else comes and goes. */
  lemma {:induction false} ScanFinds(cursor: Option<Key>, pages: seq<Read>, k: Key)
    requires Scan(cursor, pages) && Ended(pages)
    requires (forall i :: 0 <= i < |pages| ==> k in pages[i].keys) && (cursor.Some? ==> Less(cursor.value, k))
    ensures k in Listed(pages)
    ensures forall i, j :: 0 <= i < j < |Listed(pages)| ==> Listed(pages)[i] != Listed(pages)[j]
    decreases |pages|
  {
    var r := pages[0];
    assert k in Beyond(r.keys, cursor);
    PageMisses(r, cursor, k);
    if k !in r.items {
      ScanFinds(r.next, pages[1..], k);
    }
    ScanAscends(cursor, pages);
    AscendingDiffers(Listed(pages));
  }

  lemma AscendingDiffers(ks: seq<Key>)
    requires Ascending(ks)
    ensures forall i, j :: 0 <= i < j < |ks| ==> ks[i] != ks[j]
  {
    hide Less;
    forall i, j | 0 <= i < j < |ks|
      ensures ks[i] != ks[j]
    {
      Total(ks[i], ks[i]);
    }
  }

  /** Nothing is listed that was not there. */
  lemma {:induction false} ScanInvents(cursor: Option<Key>, pages: seq<Read>, keys: set<Key>)
    requires Scan(cursor, pages) && forall i :: 0 <= i < |pages| ==> pages[i].keys == keys
    ensures forall k :: k in Listed(pages) ==> k in Beyond(keys, cursor)
    decreases |pages|
  {
    if pages != [] {
      var r := pages[0];
      PageShape(r, cursor);
      ListedIsBeyond(cursor, pages);
      if r.next.Some? {
        ScanInvents(r.next, pages[1..], keys);
      } else {
        assert pages[1..] == [];
      }
      hide IsPage, Less, Scan;
    }
  }

  /** On a playlist that does not change, the pages of a complete scan together are the
      list in order. */
  lemma ScanIsList(pages: seq<Read>, keys: set<Key>)
    requires Scan(None, pages) && Ended(pages) && forall i :: 0 <= i < |pages| ==> pages[i].keys == keys
    ensures Listed(pages) == Sorted(keys)
  {
    ScanAscends(None, pages);
    ScanInvents(None, pages, keys);
    hide Scan, Ascending, IsPage, Listed;
    forall k
      ensures k in Listed(pages) <==> k in keys
    {
      if k in keys {
        ScanFinds(None, pages, k);
      }
    }
    SortedIs(Listed(pages), keys);
  }

  /** And the scan ends: it cannot have more requests than there are items, or than one. */
  lemma {:induction false} ScanEnds(cursor: Option<Key>, pages: seq<Read>, keys: set<Key>)
    requires Scan(cursor, pages) && forall i :: 0 <= i < |pages| ==> pages[i].keys == keys
    ensures |pages| <= if |Beyond(keys, cursor)| == 0 then 1 else |Beyond(keys, cursor)|
    decreases |pages|
  {
    if pages != [] && pages[0].next.Some? {
      var r := pages[0];
      ScanEnds(r.next, pages[1..], keys);
      MoreIsBeyond(r, cursor);
      hide Scan, IsPage, Beyond;
    }
  }

  /** After a page with a token there is at least one row left, and fewer than before. */
  lemma MoreIsBeyond(r: Read, cursor: Option<Key>)
    requires r.limit >= 1 && IsPage(r.keys, cursor, r.limit, r.items, r.next) && r.next.Some?
    ensures 0 < |Beyond(r.keys, r.next)| < |Beyond(r.keys, cursor)|
  {
    var all := Sorted(Beyond(r.keys, cursor));
    var last, after := all[r.limit - 1], all[r.limit];
    assert Less(last, after) && after in all && last in all;
    assert after in Beyond(r.keys, r.next);
    PageShape(r, cursor);
    BeyondShrinks(r.keys, cursor, last);
  }

  lemma BeyondShrinks(keys: set<Key>, cursor: Option<Key>, last: Key)
    requires last in Beyond(keys, cursor)
    ensures |Beyond(keys, Some(last))| < |Beyond(keys, cursor)|
  {
    var a, b := Beyond(keys, Some(last)), Beyond(keys, cursor);
    forall k | k in a
      ensures k in b - {last}
    {
      Total(last, last);
      if cursor.Some? {
        Transitive(cursor.value, last, k);
      }
    }
    SubsetSize(a, b - {last});
  }

  // ---- Tokens ------------------------------------------------------------------------------------

  const DEFAULT_ITEMS_LIMIT := 50
  const MAX_ITEMS_LIMIT := 100

  /** The limit argument of a request, as std::stoi reads it. */
  datatype LimitArg = Absent | NotANumber | Number(n: int)

  /** std::clamp between one and the greatest limit. */
  function Limit(arg: LimitArg): (limit: nat)
    requires !arg.NotANumber?
    ensures 1 <= limit <= MAX_ITEMS_LIMIT
    ensures arg.Number? && 1 <= arg.n <= MAX_ITEMS_LIMIT ==> limit == arg.n
    ensures arg.Number? ==> (arg.n < 1 <==> limit > arg.n) && (arg.n > 100 <==> limit < arg.n)
  {
    match arg
    case Absent => DEFAULT_ITEMS_LIMIT
    case Number(n) => if n < 1 then 1 else if n > MAX_ITEMS_LIMIT then MAX_ITEMS_LIMIT else n
  }

  /** The list handler from the limit on: a limit that is no number is refused, and so is
      a token that is neither empty nor a cursor; then the playlist must be the user's;
      then one page is read. */
  method ListItems(j: Json, owner: Option<int>, user: int, keys: set<Key>, token: string, limitArg: LimitArg)
    returns (status: int, items: seq<Key>, nextToken: Option<string>)
    requires forall k :: IsBytes(j.write(k))
    ensures status == 400 <==> limitArg.NotANumber? || (token != "" && DecodeItemCursor(j, token).None?)
    ensures status == 404 <==> status != 400 && owner != Some(user)
    ensures status == 200 <==> status != 400 && owner == Some(user)
    ensures status != 200 ==> items == [] && nextToken == None
    ensures status == 200 && nextToken.None? ==>
              forall k :: k in items <==>
                k in keys && (token != "" ==> Less(DecodeItemCursor(j, token).value, k))
    ensures nextToken.Some? && limitArg.Absent? ==> |items| == 50
    ensures nextToken.Some? && limitArg.Number? && 1 <= limitArg.n <= 100 ==> |items| == limitArg.n
    ensures nextToken.Some? && limitArg.Number? && limitArg.n < 1 ==> |items| == 1
    ensures nextToken.Some? && limitArg.Number? && limitArg.n > 100 ==> |items| == 100
    ensures status == 200 ==> |items| <= 100
    ensures status == 200 && nextToken.Some? ==> nextToken.value == EncodeItemCursor(j, items[|items| - 1])
    ensures status == 200 ==> exists next ::
              && IsPage(keys, if token == "" then None else DecodeItemCursor(j, token), Limit(limitArg), items, next)
              && nextToken == if next.Some? then Some(EncodeItemCursor(j, next.value)) else None
  {
    status, items, nextToken := 400, [], None;
    if limitArg.NotANumber? {
      return;
    }
    var limit := Limit(limitArg);
    var cursor: Option<Key> := None;
    if token != "" {
      var bytes := Decode(token);
      cursor := if bytes.Some? then j.read(bytes.value) else None;
      if cursor.None? {
        return;
      }
    }
    if owner.None? || owner.value != user {
      return 404, [], None;
    }
    var next;
    items, next := Page(keys, cursor, limit);
    if next.Some? {
      var text := Encode(j.write(next.value));
      nextToken := Some(text);
    }
    status := 200;
  }
}
