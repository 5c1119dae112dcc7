/**
 The call-history export: dashboard/routes.ts openCallHistoryCsvExport and
 streamCallHistoryCsv over the keyset pages of dashboard/responders.ts
 getCallHistoryPage. The database may change between any two queries.
 */
module HistoryExport {
  import opened Wrappers

  /** (created_at, id): unique, because ids are. */
  datatype Key = Key(createdAt: nat, id: nat)

  datatype Row<T> = Row(key: Key, data: T)

  /** The calls that match the export's filters at the time of one query. */
  type Table<T> = map<Key, T>

  predicate Below(a: Key, b: Key) {
    a.createdAt < b.createdAt || (a.createdAt == b.createdAt && a.id < b.id)
  }

  // ---------------------------------------------------------------- order by created_at desc, id desc

  predicate IsGreatest(keys: set<Key>, m: Key) {
    m in keys && forall k | k in keys && k != m :: Below(k, m)
  }

  lemma {:induction false} GreatestExists(keys: set<Key>)
    requires keys != {}
    ensures exists m :: IsGreatest(keys, m)
    decreases |keys|
  {
    var k :| k in keys;
    if keys == {k} {
      assert IsGreatest(keys, k);
    } else {
      GreatestExists(keys - {k});
      var m :| IsGreatest(keys - {k}, m);
      var top := if Below(k, m) then m else k;
      forall x | x in keys && x != top
        ensures Below(x, top)
      {
        assert x != k ==> x in keys - {k};
      }
      assert IsGreatest(keys, top);
    }
  }

  function Greatest(keys: set<Key>): (m: Key)
    requires keys != {}
    ensures IsGreatest(keys, m)
  {
    GreatestExists(keys);
    var m :| IsGreatest(keys, m);
    m
  }

  function Descending(keys: set<Key>): (r: seq<Key>)
    ensures |r| == |keys|
    ensures forall k :: k in r <==> k in keys
    decreases |keys|
  {
    if keys == {} then [] else [Greatest(keys)] + Descending(keys - {Greatest(keys)})
  }

  predicate StrictlyDescends(keys: seq<Key>) {
    forall i, j | 0 <= i < j < |keys| :: Below(keys[j], keys[i])
  }

  lemma {:induction false} DescendingDescends(keys: set<Key>)
    ensures StrictlyDescends(Descending(keys))
    decreases |keys|
  {
    if keys != {} {
      var rest := keys - {Greatest(keys)};
      DescendingDescends(rest);
      forall j | 0 < j < |keys|
        ensures Below(Descending(keys)[j], Descending(keys)[0])
      {
        assert Descending(keys)[j] == Descending(rest)[j - 1];
        assert Descending(rest)[j - 1] in rest;
      }
    }
  }

  lemma OrderIsStrict(a: Key, b: Key)
    ensures !(Below(a, b) && Below(b, a)) && !Below(a, a)
    ensures a != b ==> Below(a, b) || Below(b, a)
  {
  }

  /** The keys below something that is not the greatest leave the greatest out. */
  lemma BelowSkipsGreatest(keys: set<Key>, at: Key)
    requires keys != {} && at in keys - {Greatest(keys)}
    ensures (set x | x in keys && Below(x, at)) == (set x | x in keys - {Greatest(keys)} && Below(x, at))
  {
    OrderIsStrict(at, Greatest(keys));
  }

  lemma BelowGreatest(keys: set<Key>)
    requires keys != {}
    ensures (set x | x in keys && Below(x, Greatest(keys))) == keys - {Greatest(keys)}
  {
    OrderIsStrict(Greatest(keys), Greatest(keys));
  }

  lemma DescendingSplits(keys: set<Key>)
    requires keys != {}
    ensures Descending(keys) == [Greatest(keys)] + Descending(keys - {Greatest(keys)})
  {
  }

  /** What follows the k-th key is the listing of the keys below it: the reason keyset paging works. */
  lemma {:induction false} TailIsBelow(keys: set<Key>, k: nat)
    requires 0 < k <= |keys|
    ensures Descending(keys)[k..] == Descending(set x | x in keys && Below(x, Descending(keys)[k - 1]))
    decreases |keys|
  {
    hide Below, IsGreatest, Descending;
    DescendingSplits(keys);
    var rest := keys - {Greatest(keys)};
    var listing := Descending(keys);
    if k == 1 {
      BelowGreatest(keys);
      assert listing[1..] == Descending(rest);
    } else {
      TailIsBelow(rest, k - 1);
      var at := Descending(rest)[k - 2];
      assert at == listing[k - 1] && at in rest;
      BelowSkipsGreatest(keys, at);
      assert listing[k..] == Descending(rest)[k - 1..];
    }
  }

  // ---------------------------------------------------------------- one page

  /** The snapshot and cursor conditions of the query's where clause. */
  predicate Matches(k: Key, snapshot: Option<Key>, cursor: Option<Key>) {
    && (snapshot.None? || k.createdAt < snapshot.value.createdAt
        || (k.createdAt == snapshot.value.createdAt && k.id <= snapshot.value.id))
    && (cursor.None? || k.createdAt < cursor.value.createdAt
        || (k.createdAt == cursor.value.createdAt && k.id < cursor.value.id))
  }

  function Visible<T>(table: Table<T>, snapshot: Option<Key>, cursor: Option<Key>): set<Key> {
    set k | k in table && Matches(k, snapshot, cursor)
  }

  function RowsOf<T>(table: Table<T>, keys: seq<Key>): (r: seq<Row<T>>)
    requires forall i | 0 <= i < |keys| :: keys[i] in table
    ensures |r| == |keys| && forall i | 0 <= i < |r| :: r[i] == Row(keys[i], table[keys[i]])
  {
    seq(|keys|, i requires 0 <= i < |keys| => Row(keys[i], table[keys[i]]))
  }

  function Take<T>(rows: seq<T>, size: nat): (r: seq<T>)
    ensures |r| <= size && r <= rows
  {
    if |rows| < size then rows else rows[..size]
  }

  function PageKeys<T>(table: Table<T>, snapshot: Option<Key>, cursor: Option<Key>, size: nat): (r: seq<Key>)
    ensures |r| <= size
    ensures forall i | 0 <= i < |r| :: r[i] in table && r[i] in Visible(table, snapshot, cursor)
  {
    var keys := Descending(Visible(table, snapshot, cursor));
    assert forall i | 0 <= i < |Take(keys, size)| :: Take(keys, size)[i] == keys[i] && keys[i] in Visible(table, snapshot, cursor);
    Take(keys, size)
  }

  /** The rows of the query, in order, up to its limit. */
  function Page<T>(table: Table<T>, snapshot: Option<Key>, cursor: Option<Key>, size: nat): (r: seq<Row<T>>)
    ensures |r| == |PageKeys(table, snapshot, cursor, size)| <= size
  {
    RowsOf(table, PageKeys(table, snapshot, cursor, size))
  }

  /** Everything the export is about, as one sorted query would list it. */
  function Listing<T>(table: Table<T>): seq<Row<T>> {
    RowsOf(table, Descending(table.Keys))
  }

  function Keys<T>(rows: seq<Row<T>>): (r: seq<Key>)
    ensures |r| == |rows| && forall i | 0 <= i < |r| :: r[i] == rows[i].key
  {
    seq(|rows|, i requires 0 <= i < |rows| => rows[i].key)
  }

  /** Between the queries, calls up to the snapshot are as they were at the first; newer ones may come and go. */
  ghost predicate StableUpTo<T>(tables: nat -> Table<T>, snapshot: Key) {
    forall n: nat, k | !Below(snapshot, k) ::
      (k in tables(n) <==> k in tables(0)) && (k in tables(n) ==> tables(n)[k] == tables(0)[k])
  }

  lemma PageDescends<T>(table: Table<T>, snapshot: Option<Key>, cursor: Option<Key>, size: nat)
    ensures StrictlyDescends(Keys(Page(table, snapshot, cursor, size)))
  {
    DescendingDescends(Visible(table, snapshot, cursor));
  }

  /** A full-table page shows the first rows of the listing. */
  lemma FirstPage<T>(table: Table<T>, size: nat)
    ensures Page(table, None, None, size) == Take(Listing(table), size)
  {
    assert Visible(table, None, None) == table.Keys;
    hide Visible, Descending;
    var page := Page(table, None, None, size);
    assert forall i | 0 <= i < |page| :: page[i] == Listing(table)[i];
  }

  /** The two conditions of the where clause are the order relation. */
  lemma MatchesIsOrder(k: Key, snapshot: Key, cursor: Key)
    ensures Matches(k, Some(snapshot), Some(cursor)) <==> !Below(snapshot, k) && Below(k, cursor)
  {
  }

  lemma VisibleIsRest<T>(tables: nat -> Table<T>, n: nat, snapshot: Key, cursor: Key)
    requires StableUpTo(tables, snapshot) && IsGreatest(tables(0).Keys, snapshot)
    requires cursor == snapshot || Below(cursor, snapshot)
    ensures Visible(tables(n), Some(snapshot), Some(cursor)) == set x | x in tables(0).Keys && Below(x, cursor)
    ensures forall x | x in Visible(tables(n), Some(snapshot), Some(cursor)) :: x in tables(0) && tables(n)[x] == tables(0)[x]
  {
    forall x
      ensures Matches(x, Some(snapshot), Some(cursor)) <==> !Below(snapshot, x) && Below(x, cursor)
    {
      MatchesIsOrder(x, snapshot, cursor);
    }
    forall x | x in tables(0)
      ensures !Below(snapshot, x)
    {
      OrderIsStrict(snapshot, x);
    }
    hide Matches, Below;
  }

  lemma GreatestIsFirst(keys: set<Key>, k: nat)
    requires k < |keys|
    ensures IsGreatest(keys, Descending(keys)[0])
    ensures Descending(keys)[k] == Descending(keys)[0] || Below(Descending(keys)[k], Descending(keys)[0])
  {
    assert Descending(keys)[k] in keys;
  }

  /** The keys of the next page, and that their rows are still those of the first table. */
  lemma NextKeys<T>(tables: nat -> Table<T>, n: nat, k: nat, size: nat)
    requires 0 < k <= |tables(0)|
    requires StableUpTo(tables, Descending(tables(0).Keys)[0])
    ensures var all := Descending(tables(0).Keys);
            && PageKeys(tables(n), Some(all[0]), Some(all[k - 1]), size) == Take(all[k..], size)
            && forall x | x in all[k..] :: x in tables(n) && x in tables(0) && tables(n)[x] == tables(0)[x]
  {
    var all := Descending(tables(0).Keys);
    GreatestIsFirst(tables(0).Keys, k - 1);
    TailIsBelow(tables(0).Keys, k);
    VisibleIsRest(tables, n, all[0], all[k - 1]);
    hide StableUpTo, Visible, Descending, IsGreatest, Below;
    var visible := Visible(tables(n), Some(all[0]), Some(all[k - 1]));
    assert Descending(visible) == all[k..];
    forall x | x in all[k..]
      ensures x in tables(n) && x in tables(0) && tables(n)[x] == tables(0)[x]
    {
      assert x in visible;
      assert x in all;
    }
  }

  lemma RowsAgree<T>(a: Table<T>, b: Table<T>, keys: seq<Key>, k: nat, size: nat)
    requires k <= |keys| && forall i | 0 <= i < |keys| :: keys[i] in a
    requires forall x | x in keys[k..] :: x in b && b[x] == a[x]
    ensures forall i | 0 <= i < |Take(keys[k..], size)| :: Take(keys[k..], size)[i] in b
    ensures RowsOf(b, Take(keys[k..], size)) == Take(RowsOf(a, keys)[k..], size)
  {
    var shown := Take(keys[k..], size);
    forall i | 0 <= i < |shown|
      ensures shown[i] == keys[k + i] && shown[i] in b && b[shown[i]] == a[keys[k + i]]
    {
      assert shown[i] == keys[k..][i];
      assert keys[k..][i] in keys[k..];
    }
  }

  /** Where the snapshot is the newest call and the first k calls were shown, the next page shows the next ones. */
  lemma NextPage<T>(tables: nat -> Table<T>, n: nat, k: nat, size: nat)
    requires 0 < k <= |tables(0)|
    requires StableUpTo(tables, Descending(tables(0).Keys)[0])
    ensures Page(tables(n), Some(Listing(tables(0))[0].key), Some(Listing(tables(0))[k - 1].key), size)
         == Take(Listing(tables(0))[k..], size)
  {
    hide StableUpTo, Visible, Descending, Take, PageKeys;
    NextKeys(tables, n, k, size);
    RowsAgree(tables(0), tables(n), Descending(tables(0).Keys), k, size);
  }

  // ---------------------------------------------------------------- the export

  /** A stream is only opened when the first query counted no more calls than allowed. */
  datatype Export<T> = Refused(total: nat) | Opened(total: nat, rows: seq<Row<T>>)

  function Bound(a: nat, b: nat): nat {
    if a < b then a else b
  }

  /** The emitted keys strictly descend, and the next page starts below them. */
  ghost predicate InOrder<T>(emitted: seq<Row<T>>, current: seq<Row<T>>) {
    && StrictlyDescends(Keys(emitted))
    && StrictlyDescends(Keys(current))
    && (forall i, j | 0 <= i < |emitted| && 0 <= j < |current| :: Below(current[j].key, emitted[i].key))
  }

  lemma TakeInOrder<T>(emitted: seq<Row<T>>, current: seq<Row<T>>, size: nat)
    requires InOrder(emitted, current)
    ensures StrictlyDescends(Keys(emitted + Take(current, size)))
  {
    var longer := emitted + Take(current, size);
    forall i, j | 0 <= i < j < |longer|
      ensures Below(longer[j].key, longer[i].key)
    {
      if j < |emitted| {
        assert Below(Keys(emitted)[j], Keys(emitted)[i]);
      } else if i >= |emitted| {
        assert Below(Keys(current)[j - |emitted|], Keys(current)[i - |emitted|]);
      }
    }
  }

  /** A page below the last row shown is below every row shown. */
  lemma NextInOrder<T>(emitted: seq<Row<T>>, table: Table<T>, snapshot: Option<Key>, size: nat)
    requires emitted != [] && StrictlyDescends(Keys(emitted))
    ensures InOrder(emitted, Page(table, snapshot, Some(emitted[|emitted| - 1].key), size))
  {
    var cursor := emitted[|emitted| - 1].key;
    var page := Page(table, snapshot, Some(cursor), size);
    PageDescends(table, snapshot, Some(cursor), size);
    forall i, j | 0 <= i < |emitted| && 0 <= j < |page|
      ensures Below(page[j].key, emitted[i].key)
    {
      assert page[j].key in Visible(table, snapshot, Some(cursor));
      assert Below(page[j].key, cursor);
      if i < |emitted| - 1 {
        assert Below(Keys(emitted)[|emitted| - 1], Keys(emitted)[i]);
      }
    }
  }

  /**
   openCallHistoryCsvExport with its stream read to the end; tables(n) is what the
   n-th query sees. Whatever happens to the table in between, no call is repeated and
   the order is kept. If only calls newer than the first page's newest come and go,
   the rows are exactly those of one sorted query at the start; if older ones only
   disappear, every call that was there at every query is still among them.
   */
  method ExportHistory<T>(tables: nat -> Table<T>, pageSize: nat, maximumRows: nat) returns (r: Export<T>)
    requires pageSize >= 1
    ensures r.total == |tables(0)|
    ensures r.Refused? <==> |tables(0)| > maximumRows
    ensures r.Opened? ==> StrictlyDescends(Keys(r.rows)) && |r.rows| <= r.total
    ensures r.Opened? && tables(0) == map[] ==> r.rows == []
    ensures r.Opened? ==> Complete(tables, r.rows)
    ensures r.Opened? && tables(0) != map[] && StableUpTo(tables, Descending(tables(0).Keys)[0]) ==> r.rows == Listing(tables(0))
  {
    var first := Page(tables(0), None, None, pageSize);
    FirstPage(tables(0), pageSize);
    PageDescends(tables(0), None, None, pageSize);
    assert |Listing(tables(0))| == |tables(0).Keys|;
    assert first == [] ==> tables(0).Keys == {};
    var total := if first == [] then 0 else |tables(0)|;
    if total > maximumRows {
      return Refused(total);
    }
    var rowBudget := Bound(total, maximumRows);
    var rows := EmitPages(tables, first, pageSize, rowBudget);
    return Opened(total, rows);
  }

  /** While the table is stable: what was emitted is a prefix of the listing and the page continues it. */
  ghost predicate Continues<T>(all: seq<Row<T>>, emitted: seq<Row<T>>, current: seq<Row<T>>, pageSize: nat) {
    emitted <= all && current == Take(all[|emitted|..], pageSize)
  }

  lemma EmitContinues<T>(all: seq<Row<T>>, emitted: seq<Row<T>>, current: seq<Row<T>>, pageSize: nat)
    requires Continues(all, emitted, current, pageSize)
    ensures Take(current, |all| - |emitted|) == current
    ensures emitted + current <= all
    ensures |current| < pageSize || |emitted + current| >= |all| ==> emitted + current == all
    ensures all[|emitted + current|..] == all[|emitted|..][|current|..]
  {
    assert all == emitted + all[|emitted|..];
  }

  lemma NextContinues<T>(tables: nat -> Table<T>, n: nat, emitted: seq<Row<T>>, pageSize: nat)
    requires emitted != [] && emitted <= Listing(tables(0)) && StableUpTo(tables, Descending(tables(0).Keys)[0])
    ensures Continues(Listing(tables(0)), emitted,
                      Page(tables(n), Some(emitted[0].key), Some(emitted[|emitted| - 1].key), pageSize), pageSize)
  {
    hide Page, StableUpTo, Descending;
    NextPage(tables, n, |emitted|, pageSize);
    assert emitted[0] == Listing(tables(0))[0] && emitted[|emitted| - 1] == Listing(tables(0))[|emitted| - 1];
  }

  ghost predicate Stable<T>(tables: nat -> Table<T>) {
    tables(0) != map[] && StableUpTo(tables, Descending(tables(0).Keys)[0])
  }

  /** What holds before every pass of the loop. */
  ghost predicate Emitting<T>(tables: nat -> Table<T>, emitted: seq<Row<T>>, current: seq<Row<T>>, pageSize: nat) {
    && |emitted| <= |tables(0)|
    && StrictlyDescends(Keys(emitted)) && InOrder(emitted, current)
    && (Stable(tables) ==> Continues(Listing(tables(0)), emitted, current, pageSize))
  }

  /** What the loop leaves however it ends. */
  ghost predicate Emitted<T>(tables: nat -> Table<T>, emitted: seq<Row<T>>) {
    && |emitted| <= |tables(0)|
    && StrictlyDescends(Keys(emitted))
    && (Stable(tables) ==> emitted == Listing(tables(0)))
  }

  lemma EmittingStarts<T>(tables: nat -> Table<T>, pageSize: nat)
    ensures Emitting(tables, [], Page(tables(0), None, None, pageSize), pageSize)
  {
    FirstPage(tables(0), pageSize);
    PageDescends(tables(0), None, None, pageSize);
    assert Listing(tables(0))[0..] == Listing(tables(0));
  }

  /** A pass: the items keep the order, and the last pass is complete. */
  lemma PassEmits<T>(tables: nat -> Table<T>, emitted: seq<Row<T>>, current: seq<Row<T>>, pageSize: nat)
    requires Emitting(tables, emitted, current, pageSize) && |emitted| < |tables(0)|
    ensures var longer := emitted + Take(current, |tables(0)| - |emitted|);
            && StrictlyDescends(Keys(longer)) && |longer| <= |tables(0)|
            && (|longer| >= |tables(0)| || |current| < pageSize ==> Emitted(tables, longer))
            && (Stable(tables) ==> longer <= Listing(tables(0)))
  {
    TakeInOrder(emitted, current, |tables(0)| - |emitted|);
    hide StrictlyDescends, InOrder, Take, StableUpTo;
    if Stable(tables) {
      EmitContinues(Listing(tables(0)), emitted, current, pageSize);
    }
  }

  lemma NextPass<T>(tables: nat -> Table<T>, n: nat, emitted: seq<Row<T>>, snapshot: Key, pageSize: nat)
    requires emitted != [] && StrictlyDescends(Keys(emitted)) && |emitted| <= |tables(0)| && snapshot == emitted[0].key
    requires Stable(tables) ==> emitted <= Listing(tables(0))
    ensures Emitting(tables, emitted, Page(tables(n), Some(snapshot), Some(emitted[|emitted| - 1].key), pageSize), pageSize)
  {
    NextInOrder(emitted, tables(n), Some(snapshot), pageSize);
    hide StrictlyDescends, InOrder, Take, StableUpTo, Page, Continues;
    if Stable(tables) {
      NextContinues(tables, n, emitted, pageSize);
    }
  }

  lemma EmittingEnds<T>(tables: nat -> Table<T>, emitted: seq<Row<T>>, current: seq<Row<T>>, pageSize: nat)
    requires pageSize >= 1 && Emitting(tables, emitted, current, pageSize)
    requires current == [] || |emitted| >= |tables(0)|
    ensures Emitted(tables, emitted)
  {
    hide StrictlyDescends, InOrder, StableUpTo, Continues;
    if Stable(tables) {
      NothingLeft(Listing(tables(0)), emitted, current, pageSize);
    }
  }

  // ---------------------------------------------------------------- rows that are there at every query

  /** Up to the first page's newest call, no matching row appears later; rows may disappear at any time. */
  ghost predicate OnlyVanish<T>(tables: nat -> Table<T>) {
    forall n: nat, k, s | IsGreatest(tables(0).Keys, s) && k in tables(n) && !Below(s, k) :: k in tables(0)
  }

  ghost predicate AlwaysThere<T>(tables: nat -> Table<T>, k: Key) {
    forall n: nat :: k in tables(n)
  }

  /** Shown, on the page at hand, or below a full page. */
  predicate Covered<T>(emitted: seq<Row<T>>, current: seq<Row<T>>, pageSize: nat, k: Key) {
    || k in Keys(emitted) || k in Keys(current)
    || (current != [] && |current| == pageSize && Below(k, current[|current| - 1].key))
  }

  ghost predicate Covering<T>(tables: nat -> Table<T>, emitted: seq<Row<T>>, current: seq<Row<T>>, pageSize: nat) {
    && (forall k | AlwaysThere(tables, k) :: Covered(emitted, current, pageSize, k))
    && (OnlyVanish(tables) ==> Within(tables(0), emitted) && Within(tables(0), current))
  }

  ghost predicate Within<T>(table: Table<T>, rows: seq<Row<T>>) {
    forall i | 0 <= i < |rows| :: rows[i].key in table
  }

  ghost predicate Complete<T>(tables: nat -> Table<T>, emitted: seq<Row<T>>) {
    OnlyVanish(tables) ==> forall k | AlwaysThere(tables, k) :: k in Keys(emitted)
  }

  /** A page leaves no matching row behind but those below its last one, and only when it is full. */
  lemma PageCovers<T>(table: Table<T>, snapshot: Option<Key>, cursor: Option<Key>, size: nat, k: Key)
    requires size >= 1 && k in Visible(table, snapshot, cursor)
    ensures Covered([], Page(table, snapshot, cursor, size), size, k)
  {
    var keys := Descending(Visible(table, snapshot, cursor));
    var page := Page(table, snapshot, cursor, size);
    DescendingDescends(Visible(table, snapshot, cursor));
    hide Visible, Below, Descending;
    var j :| 0 <= j < |keys| && keys[j] == k;
    assert forall i | 0 <= i < |page| :: page[i].key == keys[i];
    if j < |page| {
      assert Keys(page)[j] == k;
    } else {
      assert |page| == size && Below(keys[j], keys[|page| - 1]);
    }
  }

  lemma PageIsWithin<T>(tables: nat -> Table<T>, n: nat, snapshot: Key, cursor: Option<Key>, size: nat)
    requires OnlyVanish(tables) && IsGreatest(tables(0).Keys, snapshot)
    ensures Within(tables(0), Page(tables(n), Some(snapshot), cursor, size))
  {
    var page := Page(tables(n), Some(snapshot), cursor, size);
    forall i | 0 <= i < |page|
      ensures page[i].key in tables(0)
    {
      assert page[i].key in Visible(tables(n), Some(snapshot), cursor);
      assert !Below(snapshot, page[i].key);
    }
  }

  lemma CoveringStarts<T>(tables: nat -> Table<T>, pageSize: nat)
    requires pageSize >= 1
    ensures Covering(tables, [], Page(tables(0), None, None, pageSize), pageSize)
  {
    var page := Page(tables(0), None, None, pageSize);
    forall k | AlwaysThere(tables, k)
      ensures Covered([], page, pageSize, k)
    {
      assert k in tables(0);
      PageCovers(tables(0), None, None, pageSize, k);
    }
    forall i | 0 <= i < |page|
      ensures page[i].key in tables(0)
    {
      assert page[i].key in Visible(tables(0), None, None);
    }
  }

  lemma NextCovers<T>(tables: nat -> Table<T>, n: nat, emitted: seq<Row<T>>, current: seq<Row<T>>, snapshot: Key, pageSize: nat)
    requires pageSize >= 1 && Covering(tables, emitted, current, pageSize) && |current| == pageSize
    requires IsGreatest(tables(0).Keys, snapshot)
    ensures Covering(tables, emitted + current,
                     Page(tables(n), Some(snapshot), Some(current[|current| - 1].key), pageSize), pageSize)
  {
    var cursor := current[|current| - 1].key;
    var page := Page(tables(n), Some(snapshot), Some(cursor), pageSize);
    forall k | AlwaysThere(tables, k)
      ensures Covered(emitted + current, page, pageSize, k)
    {
      KeysOfSum(emitted, current, k);
      if k !in Keys(emitted + current) {
        assert Covered(emitted, current, pageSize, k);
        assert k in tables(0) && k in tables(n);
        OrderIsStrict(k, snapshot);
        MatchesIsOrder(k, snapshot, cursor);
        PageCovers(tables(n), Some(snapshot), Some(cursor), pageSize, k);
      }
    }
    if OnlyVanish(tables) {
      PageIsWithin(tables, n, snapshot, Some(cursor), pageSize);
    }
  }

  lemma KeysOfSum<T>(a: seq<Row<T>>, b: seq<Row<T>>, k: Key)
    ensures k in Keys(a + b) <==> k in Keys(a) || k in Keys(b)
  {
    assert Keys(a + b) == Keys(a) + Keys(b);
  }

  /** The last pass: nothing covered is left out, or as many rows as there ever were have been shown. */
  lemma LastPassIsComplete<T>(tables: nat -> Table<T>, emitted: seq<Row<T>>, current: seq<Row<T>>, items: seq<Row<T>>, pageSize: nat)
    requires Covering(tables, emitted, current, pageSize) && items <= current && StrictlyDescends(Keys(emitted + items))
    requires (|current| < pageSize && items == current) || |emitted + items| >= |tables(0)|
    ensures Complete(tables, emitted + items)
  {
    var all := emitted + items;
    if |current| < pageSize && items == current {
      forall k | AlwaysThere(tables, k)
        ensures k in Keys(all)
      {
        assert Covered(emitted, current, pageSize, k);
        KeysOfSum(emitted, current, k);
      }
    } else if OnlyVanish(tables) {
      forall k | k in Keys(all)
        ensures k in tables(0).Keys
      {
        var i :| 0 <= i < |all| && Keys(all)[i] == k;
        assert i < |emitted| ==> all[i] == emitted[i];
        assert i >= |emitted| ==> all[i] == current[i - |emitted|];
      }
      EnoughDistinctKeys(Keys(all), tables(0).Keys);
      forall k | AlwaysThere(tables, k)
        ensures k in Keys(all)
      {
        assert k in tables(0);
      }
    }
  }

  /** Distinct keys of a set, as many as it has, are all of it. */
  lemma EnoughDistinctKeys(keys: seq<Key>, all: set<Key>)
    requires StrictlyDescends(keys) && (forall k | k in keys :: k in all) && |keys| >= |all|
    ensures forall k | k in all :: k in keys
  {
    var shown := set k | k in keys;
    DescendingKeysAreDistinct(keys);
    if exists k :: k in all && k !in keys {
      var k :| k in all && k !in keys;
      assert shown <= all - {k};
      SubsetIsSmaller(shown, all - {k});
    }
  }

  lemma {:induction false} DescendingKeysAreDistinct(keys: seq<Key>)
    requires StrictlyDescends(keys)
    ensures |set k | k in keys| == |keys|
  {
    if keys == [] {
      assert (set k | k in keys) == {};
    } else {
      var init := keys[..|keys| - 1];
      var last := keys[|keys| - 1];
      assert StrictlyDescends(init);
      DescendingKeysAreDistinct(init);
      forall k | k in init
        ensures k != last
      {
        var i :| 0 <= i < |init| && init[i] == k;
        assert Below(keys[|keys| - 1], keys[i]);
        OrderIsStrict(last, k);
      }
      assert (set k | k in keys) == (set k | k in init) + {last};
    }
  }

  lemma {:induction false} SubsetIsSmaller(small: set<Key>, big: set<Key>)
    requires small <= big
    ensures |small| <= |big|
  {
    if small != {} {
      var x :| x in small;
      SubsetIsSmaller(small - {x}, big - {x});
    }
  }

  lemma NothingMoreIsComplete<T>(tables: nat -> Table<T>, emitted: seq<Row<T>>, current: seq<Row<T>>, pageSize: nat)
    requires pageSize >= 1 && Covering(tables, emitted, current, pageSize) && StrictlyDescends(Keys(emitted))
    requires current == [] || |emitted| >= |tables(0)|
    ensures Complete(tables, emitted)
  {
    assert emitted + [] == emitted;
    LastPassIsComplete(tables, emitted, current, [], pageSize);
  }

  // ---------------------------------------------------------------- the generator's loop

  /** What holds before every pass: `first` is the first page, `current` the page at hand. */
  ghost predicate Pending<T>(tables: nat -> Table<T>, first: seq<Row<T>>, emitted: seq<Row<T>>, current: seq<Row<T>>, pageSize: nat) {
    && first == Page(tables(0), None, None, pageSize)
    && Emitting(tables, emitted, current, pageSize) && Covering(tables, emitted, current, pageSize)
    && |current| <= pageSize
    && (if emitted == [] then current == first else first != [] && emitted[0] == first[0])
  }

  lemma PendingStarts<T>(tables: nat -> Table<T>, pageSize: nat)
    requires pageSize >= 1
    ensures Pending(tables, Page(tables(0), None, None, pageSize), [], Page(tables(0), None, None, pageSize), pageSize)
  {
    EmittingStarts(tables, pageSize);
    CoveringStarts(tables, pageSize);
  }

  /** The pass that fills the budget or shows a page that is not full is the last one. */
  lemma LastPass<T>(tables: nat -> Table<T>, first: seq<Row<T>>, emitted: seq<Row<T>>, current: seq<Row<T>>, pageSize: nat)
    requires Pending(tables, first, emitted, current, pageSize) && current != [] && |emitted| < |tables(0)|
    requires |emitted + Take(current, |tables(0)| - |emitted|)| >= |tables(0)| || |current| < pageSize
    ensures Emitted(tables, emitted + Take(current, |tables(0)| - |emitted|))
    ensures Complete(tables, emitted + Take(current, |tables(0)| - |emitted|))
  {
    PassEmits(tables, emitted, current, pageSize);
    TakeSome(current, |tables(0)| - |emitted|);
    hide Emitting, Emitted, Covering, Complete, Page, Take, StrictlyDescends, Stable;
    LastPassIsComplete(tables, emitted, current, Take(current, |tables(0)| - |emitted|), pageSize);
  }

  /** After any other pass the next query's page is the page at hand. */
  lemma PassGoesOn<T>(tables: nat -> Table<T>, n: nat, first: seq<Row<T>>, emitted: seq<Row<T>>, current: seq<Row<T>>, pageSize: nat)
    requires Pending(tables, first, emitted, current, pageSize) && current != [] && first != [] && |emitted| < |tables(0)|
    requires |emitted + Take(current, |tables(0)| - |emitted|)| < |tables(0)| && |current| >= pageSize && pageSize >= 1
    ensures Take(current, |tables(0)| - |emitted|) == current
    ensures Pending(tables, first, emitted + current,
                    Page(tables(n), Some(first[0].key), Some(current[|current| - 1].key), pageSize), pageSize)
  {
    hide Emitting, Emitted, Covering, Complete, Page, Take, StrictlyDescends, Stable, IsGreatest;
    PassEmits(tables, emitted, current, pageSize);
    TakeSome(current, |tables(0)| - |emitted|);
    FirstIsGreatest(tables(0), pageSize);
    NextPass(tables, n, emitted + current, first[0].key, pageSize);
    NextCovers(tables, n, emitted, current, first[0].key, pageSize);
  }

  lemma PendingEnds<T>(tables: nat -> Table<T>, first: seq<Row<T>>, emitted: seq<Row<T>>, current: seq<Row<T>>, pageSize: nat)
    requires pageSize >= 1 && Pending(tables, first, emitted, current, pageSize)
    requires current == [] || |emitted| >= |tables(0)|
    ensures Emitted(tables, emitted) && Complete(tables, emitted)
  {
    EmittingEnds(tables, emitted, current, pageSize);
    NothingMoreIsComplete(tables, emitted, current, pageSize);
  }

  method EmitPages<T>(tables: nat -> Table<T>, first: seq<Row<T>>, pageSize: nat, rowBudget: nat)
    returns (emitted: seq<Row<T>>)
    requires pageSize >= 1 && rowBudget == |tables(0)| && first == Page(tables(0), None, None, pageSize)
    ensures Emitted(tables, emitted) && Complete(tables, emitted)
  {
    hide Emitting, Emitted, Covering, Complete, Page, Take, StrictlyDescends, Stable, IsGreatest;
    PendingStarts(tables, pageSize);
    emitted := [];
    var current, n := first, 0;
    while current != [] && |emitted| < rowBudget
      invariant Pending(tables, first, emitted, current, pageSize)
      invariant current != [] ==> first != []
      decreases rowBudget - |emitted|
    {
      TakeSome(current, rowBudget - |emitted|);
      var items := Take(current, rowBudget - |emitted|);
      ghost var before := emitted;
      emitted := emitted + items;
      if |emitted| >= rowBudget {
        LastPass(tables, first, before, current, pageSize);
        return;
      }
      if |current| < pageSize {
        LastPass(tables, first, before, current, pageSize);
        return;
      }
      n := n + 1;
      PassGoesOn(tables, n, first, before, current, pageSize);
      current := Page(tables(n), Some(first[0].key), Some(current[|current| - 1].key), pageSize);
    }
    PendingEnds(tables, first, emitted, current, pageSize);
  }

  lemma FirstIsGreatest<T>(table: Table<T>, pageSize: nat)
    requires pageSize >= 1
    ensures Page(table, None, None, pageSize) != [] ==> IsGreatest(table.Keys, Page(table, None, None, pageSize)[0].key)
  {
    FirstPage(table, pageSize);
    if table.Keys != {} {
      DescendingSplits(table.Keys);
      hide Descending, Page;
    }
  }

  lemma TakeSome<T>(rows: seq<T>, size: nat)
    requires rows != [] && size > 0
    ensures Take(rows, size) != [] && Take(rows, size) <= rows
    ensures |Take(rows, size)| < size ==> Take(rows, size) == rows
  {
  }

  lemma NothingLeft<T>(all: seq<Row<T>>, emitted: seq<Row<T>>, current: seq<Row<T>>, pageSize: nat)
    requires pageSize >= 1 && Continues(all, emitted, current, pageSize)
    requires current == [] || |emitted| >= |all|
    ensures emitted == all
  {
    assert all == emitted + all[|emitted|..];
  }
}
