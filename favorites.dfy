/**
 * Favourites.  The product list and the search page keep the signed-in user's
 * favourite product ids and toggle one with a delete or an insert on
 * `favorites`; the wishlist page lists the favourite products and removes one.
 * A page's list agrees with the table when both name the same products
 * (`Mirrors`): loading establishes that, and every toggle keeps it.
 */
module Favorites {
  import opened Wrappers
  import opened Rows
  import opened Lists
  import Seqs
  import Store

  /** The rows `.eq('user_id', u).eq('product_id', p)` selects. */
  function IsFavorite(u: int, p: int): FavoriteRow -> bool {
    (r: FavoriteRow) => r.userId == u && r.productId == p
  }

  /** The rows `.eq('user_id', u)` selects. */
  function OfUser(u: int): FavoriteRow -> bool {
    (r: FavoriteRow) => r.userId == u
  }

  /** The products the table records as favourites of user `u`. */
  ghost function FavoriteProducts(rows: map<int, FavoriteRow>, u: int): set<int> {
    set k | k in rows && rows[k].userId == u :: rows[k].productId
  }

  /** The page's list names exactly the user's favourite products. */
  ghost predicate Mirrors(rows: map<int, FavoriteRow>, u: int, favorites: seq<int>) {
    (set x | x in favorites) == FavoriteProducts(rows, u)
  }

  /** The list after a successful toggle: `prev.filter(id => id !== p)` for a favourite,
      `[...prev, p]` for any other product. */
  function Toggled(favorites: seq<int>, p: int): (r: seq<int>)
    ensures p in favorites ==> p !in r
    ensures p !in favorites ==> p in r && |r| == |favorites| + 1
  {
    if p in favorites then Seqs.Filter(favorites, (x: int) => x != p) else favorites + [p]
  }

  /** A toggle flips the product's membership and no other. */
  lemma ToggleFlipsOne(favorites: seq<int>, p: int)
    ensures forall x :: x in Toggled(favorites, p) <==> (if x == p then p !in favorites else x in favorites)
  {
    if p in favorites {
      forall x | x in favorites && x != p
        ensures x in Toggled(favorites, p)
      {
        var i :| 0 <= i < |favorites| && favorites[i] == x;
        assert (x => x != p)(favorites[i]);
      }
    }
  }

  /** Toggling a product on and then off gives the original list back. */
  lemma {:induction false} ToggleTwice(favorites: seq<int>, p: int)
    requires p !in favorites
    ensures Toggled(Toggled(favorites, p), p) == favorites
  {
    var keep := (x: int) => x != p;
    Seqs.FilterAppend(favorites, [p], keep);
    Seqs.FilterKeepsAll(favorites, keep);
    assert Seqs.Filter([p], keep) == [];
  }

  /** A successful delete takes the product out of the user's favourites and leaves
      the rest. */
  lemma RemovedFavorite(rows: map<int, FavoriteRow>, u: int, p: int)
    ensures FavoriteProducts(Store.RemainingRows(rows, IsFavorite(u, p)), u) == FavoriteProducts(rows, u) - {p}
  {
    var after := Store.RemainingRows(rows, IsFavorite(u, p));
    forall x | x in FavoriteProducts(rows, u) - {p}
      ensures x in FavoriteProducts(after, u)
    {
      var k :| k in rows && rows[k].userId == u && rows[k].productId == x;
      assert !IsFavorite(u, p)(rows[k]);
      assert k in after;
    }
  }

  /** A successful insert under a fresh id adds the product to the user's favourites. */
  lemma AddedFavorite(rows: map<int, FavoriteRow>, u: int, p: int, id: int)
    requires id !in rows
    ensures FavoriteProducts(rows[id := FavoriteRow(u, p)], u) == FavoriteProducts(rows, u) + {p}
  {
    var after := rows[id := FavoriteRow(u, p)];
    forall x | x in FavoriteProducts(rows, u)
      ensures x in FavoriteProducts(after, u)
    {
      var k :| k in rows && rows[k].userId == u && rows[k].productId == x;
      assert after[k] == rows[k];
    }
    assert after[id].productId == p;
  }

  /** Whatever the toggle does to the table, it does the same to a list that agreed with it. */
  lemma ToggleKeepsMirror(rows: map<int, FavoriteRow>, u: int, favorites: seq<int>, p: int, id: int)
    requires id !in rows
    ensures p in favorites && Mirrors(rows, u, favorites) ==>
      Mirrors(Store.RemainingRows(rows, IsFavorite(u, p)), u, Toggled(favorites, p))
    ensures p !in favorites && Mirrors(rows, u, favorites) ==>
      Mirrors(rows[id := FavoriteRow(u, p)], u, Toggled(favorites, p))
  {
    ToggleFlipsOne(favorites, p);
    RemovedFavorite(rows, u, p);
    AddedFavorite(rows, u, p, id);
  }

  /** `toggleFavorite(productId)` on the product list and the search page.  Without a
      user nothing is written; otherwise a favourite is deleted and any other product
      inserted, and the list changes only when that call succeeded. */
  method ToggleFavorite(user: Option<SessionUser>, favorites: seq<int>, productId: int, table: Store.Table<FavoriteRow>)
    returns (ok: bool, updated: seq<int>)
    requires table.Valid()
    modifies table
    ensures table.Valid()
    ensures user.None? ==> !ok
    ensures updated == if ok then Toggled(favorites, productId) else favorites
    ensures table.rows ==
      if !ok then old(table.rows)
      else if productId in favorites then Store.RemainingRows(old(table.rows), IsFavorite(user.value.id, productId))
      else old(table.rows)[old(table.next) := FavoriteRow(user.value.id, productId)]
    ensures user.Some? && Mirrors(old(table.rows), user.value.id, favorites) ==> Mirrors(table.rows, user.value.id, updated)
  {
    ok, updated := false, favorites;
    if user.Some? {
      var u := user.value.id;
      ToggleKeepsMirror(table.rows, u, favorites, productId, table.next);
      if productId in favorites {
        ok := table.DeleteWhere(IsFavorite(u, productId));
      } else {
        var id;
        ok, id := table.Insert(FavoriteRow(u, productId));
      }
      if ok {
        updated := Toggled(favorites, productId);
      }
    }
  }

  /** `data.map(fav => fav.product_id)` over the selected rows. */
  function ProductIds(rows: map<int, FavoriteRow>, keys: seq<int>): (ids: seq<int>)
    requires forall i :: 0 <= i < |keys| ==> keys[i] in rows
    ensures |ids| == |keys|
    ensures forall i :: 0 <= i < |keys| ==> ids[i] == rows[keys[i]].productId
  {
    seq(|keys|, i requires 0 <= i < |keys| => rows[keys[i]].productId)
  }

  /** The product ids of exactly the user's rows name exactly the user's favourites. */
  lemma ProductIdsMirror(rows: map<int, FavoriteRow>, u: int, keys: seq<int>)
    requires forall k :: k in keys <==> k in rows && OfUser(u)(rows[k])
    ensures forall i :: 0 <= i < |keys| ==> keys[i] in rows
    ensures Mirrors(rows, u, ProductIds(rows, keys))
  {
    forall i | 0 <= i < |keys|
      ensures keys[i] in rows && rows[keys[i]].userId == u
    {
      var k := keys[i];
      assert k in keys;
      assert k in rows && OfUser(u)(rows[k]);
    }
    var ids := ProductIds(rows, keys);
    forall x | x in FavoriteProducts(rows, u)
      ensures x in ids
    {
      var k :| k in rows && rows[k].userId == u && rows[k].productId == x;
      assert k in keys;
      var i :| 0 <= i < |keys| && keys[i] == k;
      assert ids[i] == x;
    }
    forall x | x in ids
      ensures x in FavoriteProducts(rows, u)
    {
      var i :| 0 <= i < |ids| && ids[i] == x;
      var k := keys[i];
      assert k in rows && rows[k].userId == u && rows[k].productId == x;
    }
  }

  /** The favourites effect of the product list and the search page: `[]` without a user,
      else the user's favourite product ids (None when the query fails, which keeps the
      page's list). */
  method FetchFavoriteIds(user: Option<SessionUser>, table: Store.Table<FavoriteRow>) returns (fetched: Option<seq<int>>)
    ensures user.None? ==> fetched == Some([])
    ensures user.Some? && fetched.Some? ==> Mirrors(table.rows, user.value.id, fetched.value)
  {
    fetched := Some([]);
    if user.Some? {
      var keys := table.Select(OfUser(user.value.id));
      fetched := None;
      if keys.Some? {
        ProductIdsMirror(table.rows, user.value.id, keys.value);
        fetched := Some(ProductIds(table.rows, keys.value));
      }
    }
  }

  /** The ids of a list's rows. */
  ghost function Ids<E>(items: seq<Listed<E>>): set<int> {
    set i | 0 <= i < |items| :: items[i].id
  }

  /** The wishlist shows each of the given products that exists, once, as stored. */
  ghost predicate Shows(items: seq<Listed<ProductRow>>, ids: set<int>, products: map<int, ProductRow>) {
    DistinctIds(items)
    && Ids(items) == ids * products.Keys
    && forall i :: 0 <= i < |items| ==> items[i].id in products && items[i].entry == products[items[i].id]
  }

  /** The rows of a selected map as a list, in some order. */
  method Listing(found: map<int, ProductRow>) returns (items: seq<Listed<ProductRow>>)
    ensures DistinctIds(items)
    ensures Ids(items) == found.Keys
    ensures forall i :: 0 <= i < |items| ==> items[i].id in found && items[i].entry == found[items[i].id]
  {
    var keys := Store.Enumerate(found.Keys);
    items := seq(|keys|, i requires 0 <= i < |keys| => Listed(keys[i], found[keys[i]]));
    forall k | k in found.Keys
      ensures k in Ids(items)
    {
      var i :| 0 <= i < |keys| && keys[i] == k;
      assert items[i].id == k;
    }
  }

  class Wishlist {
    var items: seq<Listed<ProductRow>>
    var isLoading: bool

    constructor ()
      ensures items == [] && isLoading
    {
      items := [];
      isLoading := true;
    }

    /** `fetchFavoriteDetails`: without a user the list is emptied.  A failed
        favourites query keeps the list.  With no favourites the list is emptied and
        the products are not queried; otherwise it shows the user's favourite
        products, or is kept when that query fails. */
    method FetchFavoriteDetails(user: Option<SessionUser>, favTable: Store.Table<FavoriteRow>,
                                productTable: Store.Table<ProductRow>)
      returns (queried: bool)
      modifies this`items, this`isLoading
      ensures !isLoading
      ensures user.None? ==> items == [] && !queried
      ensures queried ==> user.Some? && FavoriteProducts(favTable.rows, user.value.id) != {}
      ensures queried ==> items == old(items) || Shows(items, FavoriteProducts(favTable.rows, user.value.id), productTable.rows)
      ensures !queried ==> items == old(items) || items == []
    {
      queried := false;
      isLoading := true;
      if user.None? {
        items := [];
      } else {
        var fetched := FetchFavoriteIds(user, favTable);
        if fetched.Some? {
          var ids := fetched.value;
          if |ids| > 0 {
            assert ids[0] in FavoriteProducts(favTable.rows, user.value.id);
            queried := true;
            var found := productTable.SelectKeys(set x | x in ids);
            if found.Some? {
              items := Listing(found.value);
            }
          } else {
            items := [];
          }
        }
      }
      isLoading := false;
    }

    /** `removeFromFavorites(productId)`: nothing without a user; otherwise the
        favourite row is deleted and, only if that succeeded, the product leaves the list. */
    method RemoveFromFavorites(user: Option<SessionUser>, productId: int, favTable: Store.Table<FavoriteRow>)
      returns (ok: bool)
      requires favTable.Valid()
      modifies this`items, this`isLoading, favTable
      ensures favTable.Valid()
      ensures user.None? ==>
        !ok && items == old(items) && isLoading == old(isLoading) && favTable.rows == old(favTable.rows)
      ensures user.Some? ==>
        !isLoading
        && favTable.rows == (if ok then Store.RemainingRows(old(favTable.rows), IsFavorite(user.value.id, productId))
                             else old(favTable.rows))
        && items == (if ok then WithoutId(old(items), productId) else old(items))
    {
      ok := false;
      if user.Some? {
        isLoading := true;
        ok := favTable.DeleteWhere(IsFavorite(user.value.id, productId));
        if ok {
          items := WithoutId(items, productId);
        }
        isLoading := false;
      }
    }
  }

  /** After a successful remove the product is neither listed nor a favourite any more. */
  lemma RemovedFromWishlist(items: seq<Listed<ProductRow>>, rows: map<int, FavoriteRow>, u: int, p: int)
    ensures forall i :: 0 <= i < |WithoutId(items, p)| ==> WithoutId(items, p)[i].id != p
    ensures p !in FavoriteProducts(Store.RemainingRows(rows, IsFavorite(u, p)), u)
  {
    RemovedFavorite(rows, u, p);
  }
}
