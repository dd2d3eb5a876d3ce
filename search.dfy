/**
 * The search page.  It filters a catalogue fixed in the page itself (twelve
 * products) by the `q` parameter, and keeps and toggles the signed-in user's
 * favourites the same way the product list does.
 */
module Search {
  import opened Wrappers
  import opened Rows
  import Text
  import Seqs
  import Store
  import Favorites

  /** A product of the page's own catalogue (price and image texts are only shown). */
  datatype CatalogueItem = CatalogueItem(id: int, name: string, category: string, description: Option<string>)

  /** The page's catalogue, in its written order; no entry has a description. */
  const Catalogue: seq<CatalogueItem> := [
    CatalogueItem(1, "Kit San Valent\U{ED}n Rom\U{E1}ntico", "temporada", None),
    CatalogueItem(2, "Marco Natalicio Personalizado", "natalicio", None),
    CatalogueItem(3, "Kit Creativo Completo", "kits", None),
    CatalogueItem(4, "\U{C1}lbum de Recuerdos", "album", None),
    CatalogueItem(5, "Letras Personalizadas", "nombres", None),
    CatalogueItem(6, "Caja Decorativa Premium", "cajas", None),
    CatalogueItem(7, "Set Corazones San Valent\U{ED}n", "temporada", None),
    CatalogueItem(8, "Marco Foto Beb\U{E9}", "natalicio", None),
    CatalogueItem(9, "Bola personalizada navide\U{F1}a para animales", "temporada", None),
    CatalogueItem(10, "Cajas 25*15*9", "cajas", None),
    CatalogueItem(11, "Cajas con forma de coraz\U{F3}n", "cajas", None),
    CatalogueItem(12, "Cajas de 20*10*6cm", "cajas", None)
  ]

  /** The product's name, its category or its description (when it has a non-empty
      one) contains the query, ignoring case. */
  function Matches(q: string): CatalogueItem -> bool {
    (p: CatalogueItem) =>
      Text.IncludesIgnoringCase(p.name, q)
      || Text.IncludesIgnoringCase(p.category, q)
      || (Text.Filled(p.description) && Text.IncludesIgnoringCase(p.description.value, q))
  }

  predicate IncreasingIds(s: seq<CatalogueItem>) {
    forall i, j :: 0 <= i < j < |s| ==> s[i].id < s[j].id
  }

  /** Filtering a list in id order leaves it in id order. */
  lemma {:induction false} FilterKeepsIncreasing(s: seq<CatalogueItem>, p: CatalogueItem -> bool)
    requires IncreasingIds(s)
    ensures IncreasingIds(Seqs.Filter(s, p))
  {
    if s != [] {
      TailIncreasing(s);
      FilterKeepsIncreasing(s[1..], p);
      var rest := Seqs.Filter(s[1..], p);
      HeadBelowTail(s, rest);
      if p(s[0]) {
        ConsIncreasing(s[0], rest);
      }
    }
  }

  lemma TailIncreasing(s: seq<CatalogueItem>)
    requires s != [] && IncreasingIds(s)
    ensures IncreasingIds(s[1..])
  {
    forall i, j | 0 <= i < j < |s[1..]|
      ensures s[1..][i].id < s[1..][j].id
    {
      assert s[1..][i] == s[i + 1] && s[1..][j] == s[j + 1];
    }
  }

  lemma HeadBelowTail(s: seq<CatalogueItem>, rest: seq<CatalogueItem>)
    requires s != [] && IncreasingIds(s)
    requires forall i :: 0 <= i < |rest| ==> rest[i] in s[1..]
    ensures forall i :: 0 <= i < |rest| ==> s[0].id < rest[i].id
  {
    forall i | 0 <= i < |rest|
      ensures s[0].id < rest[i].id
    {
      var j :| 0 <= j < |s[1..]| && s[1..][j] == rest[i];
      assert s[1..][j] == s[j + 1];
    }
  }

  lemma ConsIncreasing(x: CatalogueItem, rest: seq<CatalogueItem>)
    requires IncreasingIds(rest)
    requires forall i :: 0 <= i < |rest| ==> x.id < rest[i].id
    ensures IncreasingIds([x] + rest)
  {
    var f := [x] + rest;
    forall i, j | 0 <= i < j < |f|
      ensures f[i].id < f[j].id
    {
      assert f[j] == rest[j - 1];
      if i > 0 {
        assert f[i] == rest[i - 1];
      }
    }
  }

  lemma CatalogueInIdOrder()
    ensures IncreasingIds(Catalogue)
  {
    assert forall i :: 0 <= i < |Catalogue| ==> Catalogue[i].id == i + 1;
  }

  /** The search over a list of products in id order: nothing without a query (missing
      or empty), otherwise the products that match it, still in id order. */
  function SearchIn(items: seq<CatalogueItem>, query: Option<string>): (results: seq<CatalogueItem>)
    requires IncreasingIds(items)
    ensures !Text.Filled(query) ==> results == []
    ensures Text.Filled(query) ==>
      forall p :: p in results <==> p in items && Matches(query.value)(p)
    ensures IncreasingIds(results)
  {
    if Text.Filled(query) then
      FilterKeepsIncreasing(items, Matches(query.value));
      Seqs.FilterMembers(items, Matches(query.value));
      Seqs.Filter(items, Matches(query.value))
    else []
  }

  /** The search effect over the page's catalogue. */
  function Results(query: Option<string>): (results: seq<CatalogueItem>)
    ensures !Text.Filled(query) ==> results == []
    ensures Text.Filled(query) ==>
      forall p :: p in results <==> p in Catalogue && Matches(query.value)(p)
    ensures IncreasingIds(results)
  {
    CatalogueInIdOrder();
    SearchIn(Catalogue, query)
  }

  lemma IncludesItself(s: string)
    ensures Text.Includes(s, s)
  {
    assert s[..|s|] == s;
  }

  /** A query naming a category, in any case, finds every product of that category. */
  lemma CategoryQueryFindsCategory(q: string, i: nat)
    requires q != "" && i < |Catalogue|
    requires Text.ToLower(Catalogue[i].category) == Text.ToLower(q)
    ensures Catalogue[i] in Results(Some(q))
  {
    IncludesItself(Text.ToLower(q));
    assert Matches(q)(Catalogue[i]);
  }

  class SearchPage {
    var results: seq<CatalogueItem>
    var favorites: seq<int>
    var isLoadingFavorites: bool

    constructor ()
      ensures results == [] && favorites == [] && !isLoadingFavorites
    {
      results := [];
      favorites := [];
      isLoadingFavorites := false;
    }

    /** The effect that runs whenever `q` changes. */
    method RunSearch(query: Option<string>)
      modifies this`results
      ensures results == Results(query)
    {
      results := Results(query);
    }

    /** The favourites effect: `[]` without a user, the user's favourite ids on success,
        the previous list when the query fails. */
    method FetchFavorites(user: Option<SessionUser>, favTable: Store.Table<FavoriteRow>)
      modifies this`favorites, this`isLoadingFavorites
      ensures user.None? ==> favorites == [] && isLoadingFavorites == old(isLoadingFavorites)
      ensures user.Some? ==> !isLoadingFavorites
      ensures user.Some? ==>
        favorites == old(favorites) || Favorites.Mirrors(favTable.rows, user.value.id, favorites)
    {
      if user.Some? {
        isLoadingFavorites := true;
        var fetched := Favorites.FetchFavoriteIds(user, favTable);
        if fetched.Some? {
          favorites := fetched.value;
        }
        isLoadingFavorites := false;
      } else {
        favorites := [];
      }
    }

    /** `toggleFavorite(productId)`: nothing without a user; otherwise the shared toggle,
        whose list change happens only when its write succeeded. */
    method ToggleFavorite(user: Option<SessionUser>, productId: int, favTable: Store.Table<FavoriteRow>)
      returns (ok: bool)
      requires favTable.Valid()
      modifies this`favorites, this`isLoadingFavorites, favTable
      ensures favTable.Valid()
      ensures user.None? ==>
        !ok && favorites == old(favorites) && isLoadingFavorites == old(isLoadingFavorites)
        && favTable.rows == old(favTable.rows)
      ensures user.Some? ==> !isLoadingFavorites
      ensures favorites == if ok then Favorites.Toggled(old(favorites), productId) else old(favorites)
      ensures user.Some? && Favorites.Mirrors(old(favTable.rows), user.value.id, old(favorites)) ==>
        Favorites.Mirrors(favTable.rows, user.value.id, favorites)
    {
      ok := false;
      if user.Some? {
        isLoadingFavorites := true;
        var updated;
        ok, updated := Favorites.ToggleFavorite(user, favorites, productId, favTable);
        favorites := updated;
        isLoadingFavorites := false;
      }
    }
  }
}
