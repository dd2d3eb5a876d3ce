/**
 * The favourites ranking of the admin dashboard: every favourite row counts
 * one for its product, the products are ordered by count (most first, ties in
 * the order the count table lists them, which is ascending id), the first five
 * are kept, and each is named from the product table.
 */
module Popularity {
  import opened Wrappers
  import Text
  import Seqs
  import Store
  import Rows

  const TopCount: nat := 5

  /** One `[productId, count]` pair of the count table. */
  datatype Entry = Entry(id: int, count: nat)

  /** One line of the result: `{ name, count }`. */
  datatype Popular = Popular(name: string, count: nat)

  /** The number of favourite rows for `id`. */
  function Count(favorites: seq<Rows.FavoriteRow>, id: int): nat
  {
    if favorites == [] then 0
    else Count(favorites[..|favorites| - 1], id) + (if favorites[|favorites| - 1].productId == id then 1 else 0)
  }

  /** The count of `id` in a count table, 0 when it has no entry. */
  function CountIn(table: seq<Entry>, id: int): nat {
    if table == [] then 0
    else if table[0].id == id then table[0].count
    else CountIn(table[1..], id)
  }

  /** `popularity[id] = (popularity[id] || 0) + 1` on the count table, kept as the list of its
      entries in the order `Object.entries` gives integer keys: ascending. */
  function Bump(table: seq<Entry>, id: int): seq<Entry> {
    if table == [] then [Entry(id, 1)]
    else if table[0].id == id then [Entry(id, table[0].count + 1)] + table[1..]
    else if id < table[0].id then [Entry(id, 1)] + table
    else [table[0]] + Bump(table[1..], id)
  }

  /** The count table after the `forEach` over the favourite rows. */
  function CountTable(favorites: seq<Rows.FavoriteRow>): seq<Entry> {
    if favorites == [] then []
    else Bump(CountTable(favorites[..|favorites| - 1]), favorites[|favorites| - 1].productId)
  }

  predicate Positive(table: seq<Entry>) {
    forall e :: e in table ==> e.count > 0
  }

  lemma {:induction false} CountInAbsent(table: seq<Entry>, id: int)
    requires Ascending(table)
    requires table == [] || id < table[0].id
    ensures CountIn(table, id) == 0
  {
    if table != [] {
      assert Ascending(table[1..]);
      if table[1..] != [] {
        assert table[1..][0] == table[1];
      }
      CountInAbsent(table[1..], id);
    }
  }

  lemma {:induction false} BumpMembers(table: seq<Entry>, id: int)
    requires Positive(table)
    ensures Positive(Bump(table, id))
    ensures forall e :: e in Bump(table, id) ==> e in table || e.id == id
  {
    if table != [] && table[0].id != id && table[0].id < id {
      var rest := table[1..];
      BumpMembers(rest, id);
      assert Bump(table, id) == [table[0]] + Bump(rest, id);
    }
  }

  lemma {:induction false} BumpAscending(table: seq<Entry>, id: int)
    requires Ascending(table)
    ensures Ascending(Bump(table, id))
    ensures table != [] ==> Bump(table, id)[0].id == if id < table[0].id then id else table[0].id
  {
    if table != [] && table[0].id < id {
      var rest := table[1..];
      assert Ascending(rest);
      BumpAscending(rest, id);
      var tail := Bump(rest, id);
      var out := [table[0]] + tail;
      assert Bump(table, id) == out;
      assert tail != [] && (rest != [] ==> rest[0] == table[1]);
      assert forall j :: 0 <= j < |tail| ==> tail[0].id <= tail[j].id;
      assert table[0].id < tail[0].id;
    }
  }

  lemma {:induction false} BumpCounts(table: seq<Entry>, id: int, k: int)
    requires Ascending(table) && Positive(table)
    ensures CountIn(Bump(table, id), k) == CountIn(table, k) + (if k == id then 1 else 0)
  {
    if table == [] {
    } else if table[0].id == id {
      var out := Bump(table, id);
      assert out[1..] == table[1..];
    } else if id < table[0].id {
      var out := Bump(table, id);
      assert out[1..] == table;
      if k == id {
        CountInAbsent(table, id);
      }
    } else {
      var rest := table[1..];
      assert Ascending(rest);
      var out := Bump(table, id);
      assert out[1..] == Bump(rest, id);
      if k != table[0].id {
        BumpCounts(rest, id, k);
      }
    }
  }

  /** The count table lists every favourited product once, in ascending id order, with the
      number of its favourite rows. */
  lemma {:induction false} CountTableSpec(favorites: seq<Rows.FavoriteRow>)
    ensures Ascending(CountTable(favorites)) && Positive(CountTable(favorites))
    ensures forall k :: CountIn(CountTable(favorites), k) == Count(favorites, k)
    decreases |favorites|
  {
    if favorites != [] {
      var front := favorites[..|favorites| - 1];
      CountTableSpec(front);
      BumpMembers(CountTable(front), favorites[|favorites| - 1].productId);
      BumpAscending(CountTable(front), favorites[|favorites| - 1].productId);
      forall k
        ensures CountIn(CountTable(favorites), k) == Count(favorites, k)
      {
        BumpCounts(CountTable(front), favorites[|favorites| - 1].productId, k);
      }
    }
  }

  /** An entry of an ascending table is the one `CountIn` finds. */
  lemma {:induction false} CountOfEntry(table: seq<Entry>, e: Entry)
    requires Ascending(table) && e in table
    ensures CountIn(table, e.id) == e.count
  {
    if table[0] != e {
      assert e in table[1..];
      assert table[0].id != e.id by {
        var j :| 0 <= j < |table| && table[j] == e;
      }
      assert Ascending(table[1..]);
      CountOfEntry(table[1..], e);
    }
  }

  /** The `forEach` that fills the count table. */
  method CountFavorites(favorites: seq<Rows.FavoriteRow>) returns (popularity: seq<Entry>)
    ensures popularity == CountTable(favorites)
  {
    popularity := [];
    var i := 0;
    while i < |favorites|
      invariant 0 <= i <= |favorites|
      invariant popularity == CountTable(favorites[..i])
    {
      assert favorites[..i + 1][..i] == favorites[..i];
      popularity := Bump(popularity, favorites[i].productId);
      i := i + 1;
    }
    assert favorites[..i] == favorites;
  }

  predicate Ascending(es: seq<Entry>) {
    forall i, j :: 0 <= i < j < |es| ==> es[i].id < es[j].id
  }

  /** `a` comes before `b` in the ranking: a higher count, or the same count and a lower id. */
  predicate Before(a: Entry, b: Entry) {
    a.count > b.count || (a.count == b.count && a.id < b.id)
  }

  predicate Ordered(r: seq<Entry>) {
    forall i, j :: 0 <= i < j < |r| ==> Before(r[i], r[j])
  }

  /** One step of the stable sort: `e`, listed before every entry of `r`, goes ahead of the
      first entry whose count is not larger. */
  function Insert(e: Entry, r: seq<Entry>): (out: seq<Entry>)
    ensures multiset(out) == multiset(r) + multiset{e}
  {
    if r == [] || r[0].count <= e.count then [e] + r
    else
      assert r == [r[0]] + r[1..];
      [r[0]] + Insert(e, r[1..])
  }

  /** `sort((a, b) => b[1] - a[1])`, which is stable. */
  function Rank(es: seq<Entry>): (r: seq<Entry>)
    ensures multiset(r) == multiset(es)
  {
    if es == [] then []
    else
      assert es == [es[0]] + es[1..];
      Insert(es[0], Rank(es[1..]))
  }

  lemma {:induction false} InsertOrdered(e: Entry, r: seq<Entry>)
    requires Ordered(r)
    requires forall x :: x in r ==> e.id < x.id
    ensures Ordered(Insert(e, r))
  {
    if r == [] || r[0].count <= e.count {
      assert forall j :: 0 <= j < |r| ==> r[j].count <= r[0].count;
    } else {
      var tail := Insert(e, r[1..]);
      InsertOrdered(e, r[1..]);
      forall x | x in tail
        ensures Before(r[0], x)
      {
        assert x in multiset(tail);
        if x != e {
          assert x in r[1..];
        }
      }
    }
  }

  /** The ranking lists higher counts first and breaks ties by ascending id. */
  lemma {:induction false} RankOrdered(es: seq<Entry>)
    requires Ascending(es)
    ensures Ordered(Rank(es))
  {
    if es != [] {
      var rest := es[1..];
      RankOrdered(rest);
      forall x | x in Rank(rest)
        ensures es[0].id < x.id
      {
        assert x in multiset(Rank(rest));
        assert x in rest;
      }
      InsertOrdered(es[0], Rank(rest));
    }
  }

  /** `.slice(0, 5)` of the ranking. */
  function Top(es: seq<Entry>): (top: seq<Entry>)
    ensures |top| <= TopCount
  {
    Seqs.Take(Rank(es), TopCount)
  }

  /** The top entries are ranked, and every entry left out has a count no larger than any
      kept one. */
  lemma TopDominates(es: seq<Entry>)
    requires Ascending(es)
    ensures Ordered(Top(es))
    ensures forall t :: t in Top(es) ==> t in es
    ensures forall x, t :: x in es && x !in Top(es) && t in Top(es) ==> x.count <= t.count
  {
    var r := Rank(es);
    RankOrdered(es);
    var top := Top(es);
    assert top <= r;
    forall t | t in top
      ensures t in es
    {
      assert t in multiset(r);
    }
    forall x, t | x in es && x !in top && t in top
      ensures x.count <= t.count
    {
      assert x in multiset(r);
      var k :| 0 <= k < |r| && r[k] == x;
      var i :| 0 <= i < |top| && top[i] == t;
      assert top == r[..|top|];
      assert Before(r[i], r[k]);
    }
  }

  /** `Producto ID <id>`, the name of a product the lookup did not return. */
  function Fallback(id: int): string {
    "Producto ID " + Text.IntToString(id)
  }

  /** The final `map`: the name of each top entry, from the looked-up products. */
  function Labelled(top: seq<Entry>, found: map<int, Rows.ProductRow>): (r: seq<Popular>)
    ensures |r| == |top|
    ensures forall i :: 0 <= i < |r| ==> r[i].count == top[i].count
    ensures forall i :: 0 <= i < |r| ==>
      r[i].name == if top[i].id in found then found[top[i].id].name else Fallback(top[i].id)
  {
    seq(|top|, i requires 0 <= i < |top| =>
      Popular(if top[i].id in found then found[top[i].id].name else Fallback(top[i].id), top[i].count))
  }

  /** `getProductPopularity`.  `favorites` is the answer of the favourites query (`None` on
      error); the products are looked up in `products`. */
  method GetProductPopularity(favorites: Option<seq<Rows.FavoriteRow>>, products: Store.Table<Rows.ProductRow>)
    returns (result: seq<Popular>)
    ensures favorites.None? ==> result == []
    ensures |result| <= TopCount
    ensures forall i, j :: 0 <= i < j < |result| ==> result[i].count >= result[j].count
    ensures result != [] ==> (favorites.Some?
      && result == Labelled(Top(CountTable(favorites.value)), products.rows))
  {
    if favorites.None? {
      return [];
    }
    var entries := CountFavorites(favorites.value);
    CountTableSpec(favorites.value);
    var top := Top(entries);
    TopDominates(entries);
    var ids := set i | 0 <= i < |top| :: top[i].id;
    var found := products.SelectKeys(ids);
    if found.None? {
      return [];
    }
    result := Labelled(top, found.value);
    LookupAgrees(top, ids, found.value, products.rows);
  }

  /** The products looked up by the top ids name the entries as the whole table would. */
  lemma LookupAgrees(top: seq<Entry>, ids: set<int>, found: map<int, Rows.ProductRow>, rows: map<int, Rows.ProductRow>)
    requires ids == set i | 0 <= i < |top| :: top[i].id
    requires found.Keys == rows.Keys * ids
    requires forall k :: k in found ==> found[k] == rows[k]
    ensures Labelled(top, found) == Labelled(top, rows)
  {
    forall i | 0 <= i < |top|
      ensures top[i].id in found <==> top[i].id in rows
    {
      assert top[i].id in ids;
    }
  }

  /** Each ranked count is the number of favourite rows of its product. */
  lemma RankedCountsAreFavourites(favorites: seq<Rows.FavoriteRow>)
    ensures forall t :: t in Top(CountTable(favorites)) ==> t.count == Count(favorites, t.id) && t.count > 0
  {
    var table := CountTable(favorites);
    CountTableSpec(favorites);
    TopDominates(table);
    forall t | t in Top(table)
      ensures t.count == Count(favorites, t.id) && t.count > 0
    {
      CountOfEntry(table, t);
    }
  }

  lemma {:induction false} EntryOfCount(table: seq<Entry>, k: int)
    requires CountIn(table, k) > 0
    ensures Entry(k, CountIn(table, k)) in table
  {
    if table[0].id != k {
      EntryOfCount(table[1..], k);
    }
  }

  /** A favourited product that did not make the top five has no more favourites than any
      product that did. */
  lemma LeftOutCountsNoMore(favorites: seq<Rows.FavoriteRow>, k: int)
    requires Count(favorites, k) > 0
    requires forall t :: t in Top(CountTable(favorites)) ==> t.id != k
    ensures forall t :: t in Top(CountTable(favorites)) ==> Count(favorites, k) <= t.count
  {
    var table := CountTable(favorites);
    CountTableSpec(favorites);
    EntryOfCount(table, k);
    TopDominates(table);
  }
}
