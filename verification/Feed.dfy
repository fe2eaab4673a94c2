/**
 The feed: keyset pagination over a table that changes between requests.

 The cursor's text form (RFC 3339 time, uuid, base64) is not part of the model;
 a cursor is the key it names.
 */
module Feed {
  import opened Options
  import opened Stages
  import opened Text

  type Id = nat

  const DEFAULT_PAGE_SIZE: int := 25
  const MAX_PAGE_SIZE: int := 100

  datatype Row = Row(
    firstSeen: int, stage: Stage, closed: bool, merged: bool, title: string,
    roleFamily: Option<string>, workMode: Option<string>, country: Option<string>, geoScope: Option<string>)

  type Table = map<Id, Row>

  /** The sort key: first_seen_at, then id, both descending. */
  datatype Key = Key(seen: int, id: Id)

  predicate Below(a: Key, b: Key) {
    a.seen < b.seen || (a.seen == b.seen && a.id < b.id)
  }

  datatype Filter = Filter(roleFamily: Option<string>, workMode: Option<string>, country: Option<string>)

  predicate Wanted(wanted: Option<string>, value: Option<string>) {
    wanted.None? || wanted == value
  }

  predicate Matches(f: Filter, r: Row) {
    && r.stage == Ready && !r.closed && !r.merged
    && Wanted(f.roleFamily, r.roleFamily) && Wanted(f.workMode, r.workMode)
    && (Wanted(f.country, r.country)
        || (f.country.Some? && r.geoScope.Some? && Contains(r.geoScope.value, f.country.value)))
  }

  function KeyOf(t: Table, id: Id): Key
    requires id in t
  {
    Key(t[id].firstSeen, id)
  }

  /** The keys the WHERE clause keeps. */
  function Candidates(t: Table, f: Filter, after: Option<Key>): set<Key> {
    set id | id in t && Matches(f, t[id]) && (after.None? || Below(KeyOf(t, id), after.value)) :: KeyOf(t, id)
  }

  // ---------------------------------------------------------------- ordering

  predicate Descending(s: seq<Key>) {
    forall i, j :: 0 <= i < j < |s| ==> Below(s[j], s[i])
  }

  lemma {:induction false} HasHighest(ks: set<Key>)
    requires ks != {}
    ensures exists m :: m in ks && forall k | k in ks && k != m :: Below(k, m)
    decreases ks
  {
    var x :| x in ks;
    if ks - {x} == {} {
      assert ks == {x};
    } else {
      HasHighest(ks - {x});
      var m :| m in ks - {x} && forall k | k in ks - {x} && k != m :: Below(k, m);
      var top := if Below(x, m) then m else x;
      forall k | k in ks && k != top
        ensures Below(k, top)
      {
        assert k == x || k == m || (k in ks - {x} && Below(k, m));
      }
    }
  }

  ghost function Highest(ks: set<Key>): (m: Key)
    requires ks != {}
    ensures m in ks && forall k | k in ks && k != m :: Below(k, m)
  {
    HasHighest(ks);
    var m :| m in ks && forall k | k in ks && k != m :: Below(k, m);
    m
  }

  /** ORDER BY key DESC. */
  ghost function Sorted(ks: set<Key>): seq<Key>
    decreases ks
  {
    if ks == {} then [] else [Highest(ks)] + Sorted(ks - {Highest(ks)})
  }

  lemma {:induction false} SortedIsSorted(ks: set<Key>)
    ensures |Sorted(ks)| == |ks| && Descending(Sorted(ks))
    ensures forall k :: k in Sorted(ks) <==> k in ks
    decreases ks
  {
    if ks != {} {
      SortedIsSorted(ks - {Highest(ks)});
    }
  }

  /** A descending list is determined by its elements. */
  lemma {:induction false} SortedIsUnique(s: seq<Key>, ks: set<Key>)
    requires Descending(s) && forall k :: k in s <==> k in ks
    ensures s == Sorted(ks)
    decreases |s|
  {
    if |s| == 0 {
      assert forall k | k in ks :: k in s;
      assert ks == {};
    } else {
      assert s[0] in ks;
      assert s[0] == Highest(ks) by {
        var j :| 0 <= j < |s| && s[j] == Highest(ks);
      }
      forall k
        ensures k in s[1..] <==> k in ks - {s[0]}
      {
        if k in ks - {s[0]} {
          var j :| 0 <= j < |s| && s[j] == k;
          assert s[1..][j - 1] == k;
        }
      }
      SortedIsUnique(s[1..], ks - {s[0]});
    }
  }

  // ---------------------------------------------------------------- one page

  /** LIMIT. */
  function Take(s: seq<Key>, n: nat): seq<Key> {
    if n < |s| then s[..n] else s
  }

  /** The answer to ListOpportunities. */
  ghost function PageKeys(t: Table, f: Filter, after: Option<Key>, size: nat): seq<Key> {
    Take(Sorted(Candidates(t, f, after)), size)
  }

  /** A page is the top of the candidates: sorted, all candidates, and above every candidate it leaves out. */
  lemma PageIsTheTop(t: Table, f: Filter, after: Option<Key>, size: nat)
    requires size > 0
    ensures var p := PageKeys(t, f, after, size);
            && Descending(p) && |p| <= size
            && (forall k | k in p :: k in Candidates(t, f, after))
            && (forall k | k in Candidates(t, f, after) && k !in p :: |p| == size && Below(k, p[size - 1]))
  {
    var all := Sorted(Candidates(t, f, after));
    SortedIsSorted(Candidates(t, f, after));
    var p := PageKeys(t, f, after, size);
    forall k | k in Candidates(t, f, after) && k !in p
      ensures |p| == size && Below(k, p[size - 1])
    {
      var j :| 0 <= j < |all| && all[j] == k;
      assert forall i :: 0 <= i < |p| ==> p[i] == all[i];
    }
  }

  /** A row candidates may see: through the pipeline, open, and nobody else's duplicate. */
  predicate Open(r: Row) {
    r.stage == Ready && (!r.closed && !r.merged)
  }

  /** What was asked for: each condition that was given holds; a posting is open to a country by place or by scope. */
  predicate Asked(f: Filter, r: Row) {
    && (f.roleFamily.Some? ==> r.roleFamily == f.roleFamily)
    && (f.workMode.Some? ==> r.workMode == f.workMode)
    && (f.country.Some? ==>
          r.country == f.country
          || (r.geoScope.Some? && exists i | 0 <= i <= |r.geoScope.value| :: f.country.value <= r.geoScope.value[i..]))
  }

  lemma {:induction false} ContainsIff(text: string, part: string)
    ensures Contains(text, part) <==> exists i | 0 <= i <= |text| :: part <= text[i..]
  {
    if Contains(text, part) {
      assert text[0..] == text;
      if !(part <= text) {
        ContainsIff(text[1..], part);
        var i :| 0 <= i <= |text[1..]| && part <= text[1..][i..];
        assert text[1..][i..] == text[i + 1..];
      }
    } else if i :| 0 <= i <= |text| && part <= text[i..] {
      assert text[0..] == text;
      if i > 0 {
        assert text[1..][i - 1..] == text[i..];
        ContainsIff(text[1..], part);
      }
    }
  }

  lemma MatchesIff(f: Filter, r: Row)
    ensures Matches(f, r) <==> Open(r) && Asked(f, r)
  {
    if f.country.Some? && r.geoScope.Some? {
      ContainsIff(r.geoScope.value, f.country.value);
    }
  }

  /**
   Which rows a page shows, in the columns of the table: exactly the open rows that were
   asked for, older than the cursor or as old with a lower id, down to the last one there
   is room for.
   */
  lemma PageShows(t: Table, f: Filter, after: Option<Key>, size: nat, id: Id)
    requires size > 0 && id in t
    ensures var p, r := PageKeys(t, f, after, size), t[id];
            Key(r.firstSeen, id) in p <==>
            && Open(r) && Asked(f, r)
            && (after.Some? ==>
                r.firstSeen < after.value.seen || (r.firstSeen == after.value.seen && id < after.value.id))
            && (|p| == size ==>
                r.firstSeen > p[size - 1].seen || (r.firstSeen == p[size - 1].seen && id >= p[size - 1].id))
  {
    MatchesIff(f, t[id]);
    PageIsTheTop(t, f, after, size);
    var p, k := PageKeys(t, f, after, size), Key(t[id].firstSeen, id);
    if k in p {
      var i :| 0 <= i < |p| && p[i] == k;
      assert |p| == size && i < size - 1 ==> Below(p[size - 1], p[i]);
    }
    if |p| == size {
      assert p[size - 1] in p;
    }
  }

  /** Every key on a page is that of a row of the table. */
  lemma PagesShowRows(t: Table, f: Filter, after: Option<Key>, size: nat, k: Key)
    requires size > 0 && k in PageKeys(t, f, after, size)
    ensures k.id in t && k.seen == t[k.id].firstSeen
  {
    PageIsTheTop(t, f, after, size);
  }

  /** A page has 25 rows unless a size is given, and never more than 100. */
  lemma PageSizes(pageSize: int)
    ensures pageSize <= 0 ==> Clamp(pageSize) == 25
    ensures 1 <= pageSize <= 100 ==> Clamp(pageSize) == pageSize
    ensures pageSize > 100 ==> Clamp(pageSize) == 100
  {
  }

  datatype Summary = Summary(id: Id, title: string, firstSeen: int)

  datatype Page = Page(items: seq<Summary>, next: Option<Key>)

  function Clamp(pageSize: int): int {
    var size := if pageSize <= 0 then DEFAULT_PAGE_SIZE else pageSize;
    if size > MAX_PAGE_SIZE then MAX_PAGE_SIZE else size
  }

  method List(t: Table, f: Filter, pageSize: int, cursor: Option<Key>, rows: seq<Key>) returns (page: Page)
    requires rows == PageKeys(t, f, cursor, Clamp(pageSize))
    ensures |page.items| == |rows|
    ensures forall i :: 0 <= i < |rows| ==>
            rows[i].id in t && page.items[i] == Summary(rows[i].id, t[rows[i].id].title, rows[i].seen)
    ensures page.next == if |rows| == Clamp(pageSize) then Some(rows[|rows| - 1]) else None
  {
    var size := pageSize;
    if size <= 0 {
      size := DEFAULT_PAGE_SIZE;
    }
    if size > MAX_PAGE_SIZE {
      size := MAX_PAGE_SIZE;
    }
    PageIsTheTop(t, f, cursor, size);
    var items: seq<Summary> := [];
    for i := 0 to |rows|
      invariant |items| == i
      invariant forall k :: 0 <= k < i ==>
                rows[k].id in t && items[k] == Summary(rows[k].id, t[rows[k].id].title, rows[k].seen)
    {
      assert rows[i] in Candidates(t, f, cursor);
      items := items + [Summary(rows[i].id, t[rows[i].id].title, t[rows[i].id].firstSeen)];
    }
    page := Page(items, if |rows| == size then Some(rows[|rows| - 1]) else None);
  }

  // ---------------------------------------------------------------- a walk

  /** A client follows cursors until there is none; the k-th request sees the k-th table. */
  ghost predicate FinishedWalk(tables: seq<Table>, f: Filter, size: nat, after: Option<Key>, pages: seq<seq<Key>>)
    decreases |pages|
  {
    && size > 0 && |tables| == |pages| > 0
    && pages[0] == PageKeys(tables[0], f, after, size)
    && if |pages[0]| == size then FinishedWalk(tables[1..], f, size, Some(pages[0][size - 1]), pages[1..])
       else |pages| == 1
  }

  function Flatten(pages: seq<seq<Key>>): seq<Key> {
    if |pages| == 0 then [] else pages[0] + Flatten(pages[1..])
  }

  /** first_seen_at is written once, when the row is inserted. */
  ghost predicate FirstSeenIsFixed(tables: seq<Table>) {
    forall i, j, id | 0 <= i < |tables| && 0 <= j < |tables| && id in tables[i] && id in tables[j] ::
      tables[i][id].firstSeen == tables[j][id].firstSeen
  }

  lemma DescendingConcat(a: seq<Key>, b: seq<Key>)
    requires Descending(a) && Descending(b) && forall x, y | x in a && y in b :: Below(y, x)
    ensures Descending(a + b)
  {
    forall i, j | 0 <= i < j < |a + b|
      ensures Below((a + b)[j], (a + b)[i])
    {
      if i < |a| <= j {
        assert (a + b)[i] in a && (a + b)[j] in b;
      }
    }
  }

  /** Every key is below `after` and was a candidate in one of the tables. */
  ghost predicate WalkedBelow(tables: seq<Table>, f: Filter, after: Option<Key>, keys: seq<Key>) {
    forall k | k in keys :: (after.Some? ==> Below(k, after.value)) && exists i ::
        0 <= i < |tables| && k in Candidates(tables[i], f, None)
  }

  lemma PageThenRest(tables: seq<Table>, f: Filter, size: nat, after: Option<Key>, page: seq<Key>, rest: seq<Key>)
    requires size > 0 && |tables| > 0 && page == PageKeys(tables[0], f, after, size) && |page| == size
    requires Descending(rest) && WalkedBelow(tables[1..], f, Some(page[size - 1]), rest)
    ensures Descending(page + rest) && WalkedBelow(tables, f, after, page + rest)
  {
    PageIsTheTop(tables[0], f, after, size);
    assert page[size - 1] in page;
    forall k | k in rest
      ensures forall x | x in page :: Below(k, x)
    {
    }
    DescendingConcat(page, rest);
    forall k | k in page + rest
      ensures (after.Some? ==> Below(k, after.value)) && exists i ::
              0 <= i < |tables| && k in Candidates(tables[i], f, None)
    {
      if k in page {
        assert k in Candidates(tables[0], f, None);
      } else {
        var i :| 0 <= i < |tables[1..]| && k in Candidates(tables[1..][i], f, None);
        assert tables[i + 1] == tables[1..][i];
      }
    }
  }

  /** What a walk returns comes in strictly descending order, below where it started, from the tables it read. */
  lemma {:induction false} WalkDescends(tables: seq<Table>, f: Filter, size: nat, after: Option<Key>,
          pages: seq<seq<Key>>)
    requires FinishedWalk(tables, f, size, after, pages)
    ensures Descending(Flatten(pages)) && WalkedBelow(tables, f, after, Flatten(pages))
    decreases |pages|
  {
    if |pages[0]| == size {
      WalkDescends(tables[1..], f, size, Some(pages[0][size - 1]), pages[1..]);
      PageThenRest(tables, f, size, after, pages[0], Flatten(pages[1..]));
    } else {
      PageIsTheTop(tables[0], f, after, size);
      assert forall k | k in pages[0] :: k in Candidates(tables[0], f, None);
      assert pages[1..] == [] && Flatten(pages) == pages[0];
    }
  }

  /** No row is returned twice, whatever is inserted, closed or merged meanwhile. */
  lemma NoRowTwice(tables: seq<Table>, f: Filter, size: nat, after: Option<Key>, pages: seq<seq<Key>>)
    requires FinishedWalk(tables, f, size, after, pages) && FirstSeenIsFixed(tables)
    ensures forall i, j :: 0 <= i < j < |Flatten(pages)| ==> Flatten(pages)[i].id != Flatten(pages)[j].id
  {
    var all := Flatten(pages);
    WalkDescends(tables, f, size, after, pages);
    forall i, j | 0 <= i < j < |all|
      ensures all[i].id != all[j].id
    {
      assert all[i] in all && all[j] in all;
      var m :| 0 <= m < |tables| && all[i] in Candidates(tables[m], f, None);
      var n :| 0 <= n < |tables| && all[j] in Candidates(tables[n], f, None);
    }
  }

  /** Every row that matched in every table the walk read is returned. */
  lemma {:induction false} NoRowMissed(tables: seq<Table>, f: Filter, size: nat, after: Option<Key>,
          pages: seq<seq<Key>>, k: Key)
    requires FinishedWalk(tables, f, size, after, pages)
    requires after.Some? ==> Below(k, after.value)
    requires forall i :: 0 <= i < |tables| ==> k in Candidates(tables[i], f, None)
    ensures k in Flatten(pages)
    decreases |pages|
  {
    PageIsTheTop(tables[0], f, after, size);
    assert k in Candidates(tables[0], f, after);
    if k !in pages[0] {
      assert forall i :: 0 <= i < |tables[1..]| ==> tables[1..][i] == tables[i + 1];
      NoRowMissed(tables[1..], f, size, Some(pages[0][size - 1]), pages[1..], k);
    }
  }

  ghost predicate Constant(tables: seq<Table>, t: Table) {
    forall i :: 0 <= i < |tables| ==> tables[i] == t
  }

  /** On a table that does not change, the pages put together are the filtered table in feed order. */
  lemma FixedTableWalk(tables: seq<Table>, t: Table, f: Filter, size: nat, pages: seq<seq<Key>>)
    requires FinishedWalk(tables, f, size, None, pages) && Constant(tables, t)
    ensures Flatten(pages) == Sorted(Candidates(t, f, None))
  {
    WalkDescends(tables, f, size, None, pages);
    forall k
      ensures k in Flatten(pages) <==> k in Candidates(t, f, None)
    {
      if k in Candidates(t, f, None) {
        NoRowMissed(tables, f, size, None, pages, k);
      }
    }
    SortedIsUnique(Flatten(pages), Candidates(t, f, None));
  }
}
