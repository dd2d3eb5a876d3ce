/**
 * The product list page.  It queries the visible products, narrowed to one
 * category when the `category_id` parameter is present, keeps the signed-in
 * user's favourite ids and toggles one of them from a card.
 */
module Products {
  import opened Wrappers
  import opened Rows
  import opened Lists
  import Text
  import Store
  import Favorites

  /** The rows the query selects: `.eq('visible', true)`, plus `.eq('category_id', param)`
      when the parameter is a non-empty text, which the database reads as an integer. */
  function Selects(param: Option<string>): ProductRow -> bool {
    (r: ProductRow) =>
      r.visible
      && (!Text.Filled(param) || (r.categoryId.Some? && Text.IntToString(r.categoryId.value) == param.value))
  }

  /** With the decimal text of a category id, exactly the visible products of that
      category are selected; without a parameter, every visible product. */
  lemma SelectsCategory(c: int, r: ProductRow)
    ensures Selects(Some(Text.IntToString(c)))(r) <==> r.visible && r.categoryId == Some(c)
    ensures Selects(None)(r) <==> r.visible
    ensures Selects(Some(""))(r) <==> r.visible
  {
    if Selects(Some(Text.IntToString(c)))(r) {
      Text.IntToStringInjective(r.categoryId.value, c);
    }
  }

  /** The query's rows as the page's list, in the order the query returned them. */
  function ListOf(rows: map<int, ProductRow>, keys: seq<int>): (items: seq<Listed<ProductRow>>)
    requires forall i :: 0 <= i < |keys| ==> keys[i] in rows
    ensures |items| == |keys|
    ensures forall i :: 0 <= i < |keys| ==> items[i].id == keys[i] && items[i].entry == rows[keys[i]]
  {
    seq(|keys|, i requires 0 <= i < |keys| => Listed(keys[i], rows[keys[i]]))
  }

  /** The list holds every row that passes `p`, once, as stored, and nothing else. */
  ghost predicate ListsExactly(items: seq<Listed<ProductRow>>, rows: map<int, ProductRow>, p: ProductRow -> bool) {
    DistinctIds(items)
    && (forall i :: 0 <= i < |items| ==> items[i].id in rows && items[i].entry == rows[items[i].id] && p(items[i].entry))
    && (forall k :: k in rows && p(rows[k]) ==> k in Favorites.Ids(items))
  }

  class ProductsPage {
    var products: seq<Listed<ProductRow>>
    var favorites: seq<int>
    var isLoadingProducts: bool
    var isLoadingFavorites: bool

    constructor ()
      ensures products == [] && favorites == [] && isLoadingProducts && !isLoadingFavorites
    {
      products := [];
      favorites := [];
      isLoadingProducts := true;
      isLoadingFavorites := false;
    }

    /** `fetchProducts`: on success the list is exactly the selected rows (all visible,
        all of the requested category); on an error it is kept. */
    method FetchProducts(param: Option<string>, table: Store.Table<ProductRow>) returns (loaded: bool)
      modifies this`products, this`isLoadingProducts
      ensures !isLoadingProducts
      ensures loaded ==> ListsExactly(products, table.rows, Selects(param))
      ensures loaded ==> forall i :: 0 <= i < |products| ==> products[i].entry.visible
      ensures !loaded ==> products == old(products)
    {
      isLoadingProducts := true;
      var found := table.Select(Selects(param));
      assert found.Some? ==> forall k :: k in found.value ==> k in table.rows;
      loaded := found.Some?;
      if found.Some? {
        var keys := found.value;
        forall i | 0 <= i < |keys|
          ensures keys[i] in table.rows
        {
          assert keys[i] in found.value;
        }
        products := ListOf(table.rows, keys);
        forall k | k in table.rows && Selects(param)(table.rows[k])
          ensures k in Favorites.Ids(products)
        {
          var i :| 0 <= i < |keys| && keys[i] == k;
          assert products[i].id == k;
        }
      }
      isLoadingProducts := false;
    }

    /** The favourites effect: `[]` without a user, the user's favourite ids on success,
        the previous list when the query fails. */
    method FetchFavorites(user: Option<SessionUser>, favTable: Store.Table<FavoriteRow>)
      modifies this`favorites, this`isLoadingFavorites
      ensures user.None? ==> favorites == [] && isLoadingFavorites == old(isLoadingFavorites)
      ensures user.Some? ==> !isLoadingFavorites
      ensures user.Some? ==>
        favorites == old(favorites) || Favorites.Mirrors(favTable.rows, user.value.id, favorites)
    {
      if user.None? {
        favorites := [];
      } else {
        isLoadingFavorites := true;
        var fetched := Favorites.FetchFavoriteIds(user, favTable);
        if fetched.Some? {
          favorites := fetched.value;
        }
        isLoadingFavorites := false;
      }
    }

    /** `toggleFavorite(productId)`: nothing without a user; otherwise the shared
        toggle, whose list change happens only when its write succeeded. */
    method ToggleFavorite(user: Option<SessionUser>, productId: int, favTable: Store.Table<FavoriteRow>)
      returns (ok: bool)
      requires favTable.Valid()
      modifies this`favorites, this`isLoadingFavorites, favTable
      ensures favTable.Valid()
      ensures user.None? ==>
        !ok && favorites == old(favorites) && isLoadingFavorites == old(isLoadingFavorites)
        && favTable.rows == old(favTable.rows)
      ensures user.Some? ==> !isLoadingFavorites
      ensures favorites == if ok then Favorites.Toggled(old(favorites), productId) else old(favorites)
      ensures user.Some? && Favorites.Mirrors(old(favTable.rows), user.value.id, old(favorites)) ==>
        Favorites.Mirrors(favTable.rows, user.value.id, favorites)
    {
      ok := false;
      if user.Some? {
        isLoadingFavorites := true;
        var updated;
        ok, updated := Favorites.ToggleFavorite(user, favorites, productId, favTable);
        favorites := updated;
        isLoadingFavorites := false;
      }
    }
  }
}
