/** Walking through the pages of the instance list: fetch one more than a page holds, keep a
    page, go on from the last kept row. */
module PageWalk {
  import opened Types
  import opened Query

  // ---- The database ----

  /** Row a comes before row b in ORDER BY created_at DESC, id DESC. */
  predicate Newer(t: Instances, a: nat, b: nat)
    requires a in t && b in t
  {
    Older(b, t[b].created, Cursor(t[a].created, a))
  }

  ghost predicate Descending(t: Instances, out: seq<nat>)
  {
    && (forall i :: 0 <= i < |out| ==> out[i] in t)
    && (forall i, j :: 0 <= i < j < |out| ==> Newer(t, out[i], out[j]))
  }

  /** The rows are the newest of those wanted, up to the limit if it is positive. */
  ghost predicate Newest(t: Instances, wanted: set<nat>, limit: int, out: seq<nat>)
  {
    && Descending(t, out) && (forall id :: id in out ==> id in wanted) && (limit > 0 ==> |out| <= limit)
    && (forall id :: id in wanted && id in t && id !in out ==>
          limit > 0 && |out| == limit && forall i :: 0 <= i < |out| ==> Newer(t, out[i], id))
  }

  /** The rows that the filter selects. */
  function Wanted(t: Instances, f: Filter): set<nat>
  {
    set id | id in t && Matches(f, id, t[id])
  }

  /** The newest of some rows. */
  method Pick(t: Instances, ids: set<nat>) returns (id: nat)
    requires ids != {} && ids <= t.Keys
    ensures id in ids && forall k :: k in ids && k != id ==> Newer(t, id, k)
  {
    id :| id in ids;
    var left := ids - {id};
    while left != {}
      invariant id in ids && left <= ids && id !in left
      invariant forall k :: k in ids && k !in left && k != id ==> Newer(t, id, k)
      decreases |left|
    {
      var k :| k in left;
      left := left - {k};
      if Newer(t, k, id) { id := k; }
    }
  }

  /** What the database answers to a query. */
  method RunQuery(t: Instances, q: Sql) returns (out: seq<nat>)
    requires q.limit.Some? ==> exists k :: k > 0 && Arg(q.args, q.limit.value) == Some(Count(k))
    ensures Newest(t, set id | id in t && Selects(q.conds, q.args, id, t[id]),
                   if q.limit.Some? then q.args[q.limit.value - 1].k else 0, out)
  {
    var limit := if q.limit.Some? then q.args[q.limit.value - 1].k else 0;
    ghost var wanted := set id | id in t && Selects(q.conds, q.args, id, t[id]);
    var left := set id | id in t && Selects(q.conds, q.args, id, t[id]);
    out := [];
    while left != {} && (limit <= 0 || |out| < limit)
      invariant left <= wanted && Descending(t, out) && (limit > 0 ==> |out| <= limit)
      invariant forall id :: id in out ==> id in wanted
      invariant forall id :: id in wanted <==> id in left || id in out
      invariant forall i, id :: 0 <= i < |out| && id in left ==> Newer(t, out[i], id)
      decreases |left|
    {
      var id := Pick(t, left);
      out := out + [id];
      left := left - {id};
    }
  }

  method ListInstances(t: Instances, f: Filter) returns (out: seq<nat>)
    ensures Newest(t, Wanted(t, f), f.limit, out)
  {
    var q := BuildQuery(f);
    out := RunQuery(t, q);
    assert Wanted(t, f) == set id | id in t && Selects(q.conds, q.args, id, t[id]);
  }

  /** Which rows those are: each row once, newest first and by falling identifier among those
      of the same time; each meets every part of the filter; and a row that does and is not
      among them is older than all of them, of which there are then as many as the limit says. */
  lemma ListsExactly(t: Instances, f: Filter, out: seq<nat>, id: nat)
    requires Newest(t, Wanted(t, f), f.limit, out)
    ensures forall i :: 0 <= i < |out| ==> out[i] in t
    ensures forall i, j :: 0 <= i < j < |out| ==>
              || t[out[j]].created < t[out[i]].created
              || (t[out[j]].created == t[out[i]].created && out[j] < out[i])
    ensures f.limit > 0 ==> |out| <= f.limit
    ensures id in t ==>
              var r := t[id];
              var chosen :=
                && (f.statuses != [] ==> r.status in f.statuses)
                && (f.workflow != "" ==> r.workflow == f.workflow)
                && (f.after != -62_135_596_800_000_000 ==> f.after <= r.created)
                && (f.before != -62_135_596_800_000_000 ==> r.created <= f.before)
                && (f.cursorTime.Some? && f.cursorId.Some? ==>
                      || r.created < f.cursorTime.value
                      || (r.created == f.cursorTime.value && id < f.cursorId.value));
              && (id in out ==> chosen)
              && (chosen && id !in out ==>
                    && f.limit > 0 && |out| == f.limit
                    && forall i :: 0 <= i < |out| ==>
                         r.created < t[out[i]].created || (r.created == t[out[i]].created && id < out[i]))
  {
    if id in t { assert id in Wanted(t, f) <==> Matches(f, id, t[id]); }
    forall i | 0 <= i < |out| && id in Wanted(t, f) && id !in out ensures Newer(t, out[i], id) {}
  }

  // ---- One page ----

  datatype Page = Page(items: seq<nat>, next: Option<Cursor>)

  predicate IsBehind(id: nat, r: Info, cursor: Option<Cursor>)
  {
    cursor.Some? ==> Older(id, r.created, cursor.value)
  }

  /** The rows that the filter selects behind the cursor. */
  function Behind(t: Instances, f: Filter, cursor: Option<Cursor>): set<nat>
  {
    set id | id in Wanted(t, f) && IsBehind(id, t[id], cursor)
  }

  /** A page holds at most p of the rows behind the cursor, newest first. Without a next
      cursor these are all; with one the page is full, the cursor is its last row, and the
      others, of which there are some, are behind it. */
  ghost predicate IsPage(t: Instances, f: Filter, cursor: Option<Cursor>, p: nat, page: Page)
  {
    && Descending(t, page.items) && |page.items| <= p
    && (forall id :: id in page.items ==> id in Behind(t, f, cursor))
    && (if page.next.None? then forall id :: id in Behind(t, f, cursor) ==> id in page.items
        else
          && |page.items| == p > 0
          && page.next.value == Cursor(t[page.items[p - 1]].created, page.items[p - 1])
          && (forall id :: id in Behind(t, f, cursor) && id !in page.items ==> IsBehind(id, t[id], page.next))
          && exists id :: id in Behind(t, f, cursor) && id !in page.items)
  }

  /** Of p + 1 rows the first p are kept. */
  lemma KeepsPage(t: Instances, f: Filter, cursor: Option<Cursor>, p: nat, all: seq<nat>)
    requires p >= 1 && |all| == p + 1 && Newest(t, Behind(t, f, cursor), p + 1, all)
    ensures IsPage(t, f, cursor, p, Page(all[..p], Some(Cursor(t[all[p - 1]].created, all[p - 1]))))
  {
    var items, next := all[..p], Cursor(t[all[p - 1]].created, all[p - 1]);
    forall id | id in Behind(t, f, cursor) && id !in items ensures IsBehind(id, t[id], Some(next)) {
      assert id in all ==> id == all[p];
      assert Newer(t, all[p - 1], id);
    }
    forall i | 0 <= i < p ensures all[p] != items[i] { assert Newer(t, all[i], all[p]); }
    assert all[p] in all && all[p] in Behind(t, f, cursor) && all[p] !in items;
  }

  /** The grid of runs, and likewise the list of instances: the next cursor is what the link
      to the following page carries. */
  method BuildRunsGrid(t: Instances, f: Filter, cursor: Option<Cursor>, p: nat) returns (page: Page)
    requires p >= 1 && f.cursorTime.None? && f.cursorId.None?
    ensures IsPage(t, f, cursor, p, page)
  {
    var rf := f.(limit := p + 1);
    if cursor.Some? { rf := rf.(cursorTime := Some(cursor.value.time), cursorId := Some(cursor.value.id)); }
    var instances := ListInstances(t, rf);
    assert Wanted(t, rf) == Behind(t, f, cursor);
    ghost var all := instances;
    var hasMore := |instances| > p;
    if hasMore { instances := instances[..p]; }
    var next: Option<Cursor> := None;
    if hasMore {
      var last := instances[|instances| - 1];
      next := Some(Cursor(t[last].created, last));
      KeepsPage(t, f, cursor, p, all);
    }
    page := Page(instances, next);
  }

  // ---- Walks ----

  function CursorBefore(pages: seq<Page>, i: nat): Option<Cursor>
    requires i <= |pages|
  {
    if i == 0 then None else pages[i - 1].next
  }

  ghost predicate PageAt(f: Filter, p: nat, tables: seq<Instances>, pages: seq<Page>, i: nat)
  {
    i < |pages| && i < |tables| ==>
      && IsPage(tables[i], f, CursorBefore(pages, i), p, pages[i])
      && (pages[i].next.None? <==> i == |pages| - 1)
  }

  /** The pages were read one after the other, each from the table of its moment, up to the
      page without a link. */
  ghost predicate IsWalk(f: Filter, p: nat, tables: seq<Instances>, pages: seq<Page>)
  {
    |tables| == |pages| > 0 && forall i: nat :: PageAt(f, p, tables, pages, i)
  }

  /** Rows may come, go and change between the pages, but no row changes when it was created. */
  ghost predicate SameCreation(tables: seq<Instances>)
  {
    forall i, j, id :: 0 <= i < |tables| && 0 <= j < |tables| && id in tables[i] && id in tables[j] ==>
      tables[i][id].created == tables[j][id].created
  }

  predicate NotBehind(a: Cursor, c: Cursor)
  {
    a == c || Older(c.id, c.time, a)
  }

  /** Item a of page i lies between the cursors around the page. */
  lemma ItemBetween(f: Filter, p: nat, tables: seq<Instances>, pages: seq<Page>, i: nat, a: nat)
    requires IsWalk(f, p, tables, pages) && i < |pages| && a < |pages[i].items|
    ensures var id := pages[i].items[a];
            && id in tables[i]
            && (i > 0 ==> pages[i - 1].next.Some? && Older(id, tables[i][id].created, pages[i - 1].next.value))
            && (i < |pages| - 1 ==> pages[i].next.Some? && NotBehind(Cursor(tables[i][id].created, id), pages[i].next.value))
  {
    assert PageAt(f, p, tables, pages, i);
    if i > 0 { assert PageAt(f, p, tables, pages, i - 1); }
    var id := pages[i].items[a];
    assert id in pages[i].items;
    if i < |pages| - 1 && a < p - 1 { assert Newer(tables[i], id, pages[i].items[p - 1]); }
  }

  /** Each cursor is behind the one before. */
  lemma CursorsDrop(f: Filter, p: nat, tables: seq<Instances>, pages: seq<Page>, i: nat)
    requires IsWalk(f, p, tables, pages) && 0 < i < |pages| - 1
    ensures pages[i - 1].next.Some? && pages[i].next.Some?
    ensures var c := pages[i].next.value; Older(c.id, c.time, pages[i - 1].next.value)
  {
    assert PageAt(f, p, tables, pages, i);
    ItemBetween(f, p, tables, pages, i, p - 1);
  }

  ghost predicate Links(pages: seq<Page>)
  {
    forall i :: 0 <= i < |pages| - 1 ==> pages[i].next.Some?
  }

  lemma HasLinks(f: Filter, p: nat, tables: seq<Instances>, pages: seq<Page>)
    requires IsWalk(f, p, tables, pages)
    ensures Links(pages)
  {
    forall i | 0 <= i < |pages| - 1 ensures pages[i].next.Some? {
      assert PageAt(f, p, tables, pages, i);
    }
  }

  /** Whatever is behind the cursor of a later page is behind that of an earlier one. */
  lemma {:induction false} CursorsDescend(f: Filter, p: nat, tables: seq<Instances>, pages: seq<Page>, i: nat,
        j: nat, id: nat, created: Time)
    requires IsWalk(f, p, tables, pages) && Links(pages) && i < j < |pages|
    requires Older(id, created, pages[j - 1].next.value)
    ensures Older(id, created, pages[i].next.value)
    decreases j - i
  {
    if i < j - 1 {
      CursorsDrop(f, p, tables, pages, j - 1);
      CursorsDescend(f, p, tables, pages, i, j - 1, id, created);
    }
  }

  /** No row is returned twice. */
  lemma NoDuplicates(f: Filter, p: nat, tables: seq<Instances>, pages: seq<Page>, i: nat, a: nat, j: nat, b: nat)
    requires IsWalk(f, p, tables, pages) && SameCreation(tables)
    requires i < |pages| && a < |pages[i].items| && j < |pages| && b < |pages[j].items|
    requires i < j || (i == j && a < b)
    ensures pages[i].items[a] != pages[j].items[b]
  {
    var x, y := pages[i].items[a], pages[j].items[b];
    ItemBetween(f, p, tables, pages, i, a);
    ItemBetween(f, p, tables, pages, j, b);
    if i == j {
      assert PageAt(f, p, tables, pages, i);
      assert Newer(tables[i], x, y);
    } else {
      HasLinks(f, p, tables, pages);
      CursorsDescend(f, p, tables, pages, i, j, y, tables[j][y].created);
    }
  }

  /** The row is there and selected whenever a page is read. */
  ghost predicate Throughout(f: Filter, tables: seq<Instances>, id: nat)
  {
    forall i :: 0 <= i < |tables| ==> id in Wanted(tables[i], f)
  }

  lemma {:induction false} FoundFrom(f: Filter, p: nat, tables: seq<Instances>, pages: seq<Page>, i: nat, id: nat)
    returns (j: nat)
    requires IsWalk(f, p, tables, pages) && SameCreation(tables) && Throughout(f, tables, id)
    requires i < |pages| && id in Behind(tables[i], f, CursorBefore(pages, i))
    ensures i <= j < |pages| && id in pages[j].items
    decreases |pages| - i
  {
    assert PageAt(f, p, tables, pages, i);
    if id in pages[i].items {
      j := i;
    } else {
      assert tables[i + 1][id].created == tables[i][id].created;
      j := FoundFrom(f, p, tables, pages, i + 1, id);
    }
  }

  /** Every row that is there and selected throughout is returned, and by NoDuplicates only once. */
  lemma FoundOnce(f: Filter, p: nat, tables: seq<Instances>, pages: seq<Page>, id: nat) returns (j: nat, b: nat)
    requires IsWalk(f, p, tables, pages) && SameCreation(tables) && Throughout(f, tables, id)
    ensures j < |pages| && b < |pages[j].items| && pages[j].items[b] == id
    ensures forall i, a :: 0 <= i < |pages| && 0 <= a < |pages[i].items| && pages[i].items[a] == id ==> i == j && a == b
  {
    j := FoundFrom(f, p, tables, pages, 0, id);
    b :| b < |pages[j].items| && pages[j].items[b] == id;
    forall i, a | 0 <= i < |pages| && 0 <= a < |pages[i].items| && pages[i].items[a] == id
      ensures i == j && a == b
    {
      if i < j || (i == j && a < b) { NoDuplicates(f, p, tables, pages, i, a, j, b); }
      if j < i || (i == j && b < a) { NoDuplicates(f, p, tables, pages, j, b, i, a); }
    }
  }

  // ---- A frozen table ----

  function Together(pages: seq<Page>, k: nat): seq<nat>
    requires k <= |pages|
  {
    if k == 0 then [] else Together(pages, k - 1) + pages[k - 1].items
  }

  /** What the first k pages hold. */
  ghost predicate FirstPages(t: Instances, f: Filter, pages: seq<Page>, k: nat)
    requires k <= |pages|
  {
    var out, cursor := Together(pages, k), CursorBefore(pages, k);
    && Descending(t, out)
    && (forall id :: id in out ==> id in Wanted(t, f))
    && (forall id :: id in Wanted(t, f) ==> id in out || (k > 0 ==> cursor.Some? && IsBehind(id, t[id], cursor)))
    && (k > 0 && cursor.Some? ==> forall id :: id in out ==> id in t && NotBehind(Cursor(t[id].created, id), cursor.value))
  }

  lemma OnePageMore(t: Instances, f: Filter, p: nat, pages: seq<Page>, k: nat)
    requires 0 < k <= |pages| && FirstPages(t, f, pages, k - 1)
    requires IsPage(t, f, CursorBefore(pages, k - 1), p, pages[k - 1])
    requires k > 1 ==> pages[k - 2].next.Some?
    ensures FirstPages(t, f, pages, k)
  {
    var was, items, out := Together(pages, k - 1), pages[k - 1].items, Together(pages, k);
    forall i, j | 0 <= i < j < |out| ensures Newer(t, out[i], out[j]) {
      if i < |was| <= j {
        assert out[j] == items[j - |was|] && items[j - |was|] in items && out[i] == was[i] && was[i] in was;
      }
    }
    if pages[k - 1].next.Some? {
      forall id | id in out
        ensures NotBehind(Cursor(t[id].created, id), pages[k - 1].next.value)
      {
        if id in items {
          var i :| 0 <= i < |items| && items[i] == id;
          assert i < p - 1 ==> Newer(t, id, items[p - 1]);
        } else {
          assert id in was && items[p - 1] in items;
        }
      }
    }
  }

  lemma {:induction false} FirstPagesHold(t: Instances, f: Filter, p: nat, tables: seq<Instances>,
        pages: seq<Page>, k: nat)
    requires IsWalk(f, p, tables, pages) && k <= |pages|
    requires forall i :: 0 <= i < |tables| ==> tables[i] == t
    ensures FirstPages(t, f, pages, k)
    decreases k
  {
    if k > 0 {
      FirstPagesHold(t, f, p, tables, pages, k - 1);
      assert PageAt(f, p, tables, pages, k - 1);
      if k > 1 { assert PageAt(f, p, tables, pages, k - 2); }
      OnePageMore(t, f, p, pages, k);
    }
  }

  lemma HeadIsNewest(t: Instances, a: seq<nat>, x: nat)
    requires Descending(t, a) && x in a
    ensures x == a[0] || Newer(t, a[0], x)
  {
    var i :| 0 <= i < |a| && a[i] == x;
  }

  lemma SameHeads(t: Instances, a: seq<nat>, b: seq<nat>)
    requires Descending(t, a) && Descending(t, b) && a != [] && b != [] && b[0] in a && a[0] in b
    ensures a[0] == b[0]
  {
    HeadIsNewest(t, a, b[0]);
    HeadIsNewest(t, b, a[0]);
  }

  lemma SameTails(t: Instances, a: seq<nat>, b: seq<nat>)
    requires Descending(t, a) && Descending(t, b) && forall id :: id in a <==> id in b
    requires a != [] && b != [] && a[0] == b[0]
    ensures forall id :: id in a[1..] <==> id in b[1..]
  {
    forall id ensures id in a[1..] ==> id in b[1..] {
      if id in a[1..] {
        var i :| 1 <= i < |a| && a[i] == id;
        assert Newer(t, a[0], a[i]) && id in a;
        var j :| 0 <= j < |b| && b[j] == id;
        assert b[1..][j - 1] == id;
      }
    }
    forall id ensures id in b[1..] ==> id in a[1..] {
      if id in b[1..] {
        var i :| 1 <= i < |b| && b[i] == id;
        assert Newer(t, b[0], b[i]) && id in b;
        var j :| 0 <= j < |a| && a[j] == id;
        assert a[1..][j - 1] == id;
      }
    }
  }

  /** Two lists of the same rows in the same order are the same. */
  lemma {:induction false} SameList(t: Instances, a: seq<nat>, b: seq<nat>)
    requires Descending(t, a) && Descending(t, b) && forall id :: id in a <==> id in b
    ensures a == b
    decreases |a|
  {
    assert b != [] ==> b[0] in b;
    if a != [] {
      assert a[0] in a;
      SameHeads(t, a, b);
      SameTails(t, a, b);
      SameList(t, a[1..], b[1..]);
      assert a == [a[0]] + a[1..] && b == [b[0]] + b[1..];
    }
  }

  /** The same table at every moment. */
  function Frozen(t: Instances, n: nat): (r: seq<Instances>)
    ensures |r| == n && forall i :: 0 <= i < n ==> r[i] == t
  {
    if n == 0 then [] else Frozen(t, n - 1) + [t]
  }

  /** Over a table that does not change, the pages together are the unlimited list. */
  lemma FrozenWalk(t: Instances, f: Filter, p: nat, pages: seq<Page>, all: seq<nat>)
    requires IsWalk(f, p, Frozen(t, |pages|), pages)
    requires Newest(t, Wanted(t, f), 0, all)
    ensures Together(pages, |pages|) == all
  {
    FirstPagesHold(t, f, p, Frozen(t, |pages|), pages, |pages|);
    assert PageAt(f, p, Frozen(t, |pages|), pages, |pages| - 1);
    SameList(t, Together(pages, |pages|), all);
  }

  ghost predicate ReadSoFar(t: Instances, f: Filter, p: nat, pages: seq<Page>, i: nat)
  {
    i < |pages| ==>
      IsPage(t, f, CursorBefore(pages, i), p, pages[i]) && (i < |pages| - 1 ==> pages[i].next.Some?)
  }

  lemma Smaller(a: set<nat>, b: set<nat>, x: nat)
    requires a <= b && x in b && x !in a
    ensures |a| < |b|
  {
    var rest := b - a;
    assert b == a + rest && a !! rest && x in rest;
    assert |b| == |a| + |rest|;
  }

  lemma FewerLeft(t: Instances, f: Filter, cursor: Option<Cursor>, p: nat, page: Page)
    requires IsPage(t, f, cursor, p, page) && page.next.Some?
    ensures |Behind(t, f, page.next)| < |Behind(t, f, cursor)|
  {
    var last := page.items[p - 1];
    assert last in page.items;
    forall id | id in Behind(t, f, page.next) ensures id in Behind(t, f, cursor) {
      assert cursor.Some? ==> Older(last, t[last].created, cursor.value);
    }
    Smaller(Behind(t, f, page.next), Behind(t, f, cursor), last);
  }

  /** Following the links through a table that does not change comes to an end. */
  method Walk(t: Instances, f: Filter, p: nat) returns (pages: seq<Page>)
    requires p >= 1 && f.cursorTime.None? && f.cursorId.None?
    ensures IsWalk(f, p, Frozen(t, |pages|), pages)
  {
    var page := BuildRunsGrid(t, f, None, p);
    pages := [page];
    while page.next.Some?
      invariant |pages| > 0 && page == pages[|pages| - 1]
      invariant forall i: nat :: ReadSoFar(t, f, p, pages, i)
      decreases if page.next.Some? then |Behind(t, f, page.next)| + 1 else 0
    {
      var cursor := page.next;
      page := BuildRunsGrid(t, f, cursor, p);
      forall i: nat ensures ReadSoFar(t, f, p, pages + [page], i) { assert ReadSoFar(t, f, p, pages, i); }
      pages := pages + [page];
      if page.next.Some? { FewerLeft(t, f, cursor, p, page); }
    }
    forall i: nat ensures PageAt(f, p, Frozen(t, |pages|), pages, i) { assert ReadSoFar(t, f, p, pages, i); }
  }

  // ---- The filter of the page ----

  const DAY: Time := 86_400_000_000

  /** Days since the epoch; no date is the empty form field. */
  datatype RunsFilter = RunsFilter(statuses: seq<string>, workflow: string, after: Option<int>, before: Option<int>)

  function RunsFilterToRepo(f: RunsFilter): Filter
  {
    Filter(
      f.statuses,
      f.workflow,
      if f.after.Some? then f.after.value * DAY else ZERO_TIME,
      if f.before.Some? then f.before.value * DAY + DAY - 1 else ZERO_TIME,
      0,
      None,
      None)
  }

  /** Both days count as a whole. */
  lemma WholeDays(f: RunsFilter, id: nat, r: Info)
    requires r.created >= ZERO_TIME
    ensures Matches(RunsFilterToRepo(f), id, r) <==>
              && (f.statuses != [] ==> r.status in f.statuses)
              && (f.workflow != "" ==> r.workflow == f.workflow)
              && (f.after.Some? ==> f.after.value <= r.created / 86_400_000_000)
              && (f.before.Some? ==> r.created / 86_400_000_000 <= f.before.value)
  {
    assert ZERO_TIME == -719_162 * DAY;
    if f.before.Some? { assert f.before.value * DAY + DAY - 1 != ZERO_TIME; }
  }
}
