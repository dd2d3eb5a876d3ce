/**
 * The admin dashboard: the users table (profiles joined with their favourites),
 * its CSV export, the searches over users, products and purchases, and the
 * handlers that create, edit and delete purchases, delete products, reviews and
 * categories, and toggle a category's visibility or pinning.  The dashboard
 * keeps its own copies of the lists; the handlers change a list only after the
 * backend call that justifies the change succeeded.
 */
module Admin {
  import opened Wrappers
  import opened Rows
  import opened Lists
  import Text
  import Seqs
  import Store

  const NoName: string := "Sin nombre"
  const InitialStatus: string := "En preparaci\U{F3}n"

  /** A `profiles` row as the dashboard selects it (`id, name, email, phone, purchase_count, points`). */
  datatype AdminProfile = AdminProfile(
    id: int,
    name: Option<string>,
    email: Option<string>,
    phone: Option<string>,
    purchaseCount: Option<int>,
    points: Option<int>)

  /** A `favorites` row with its product's name (`user_id, product_id, products(name)`);
      the name is absent when the product is gone or has none. */
  datatype FavJoin = FavJoin(userId: int, productId: int, productName: Option<string>)

  /** An entry of a user's `favorites_list`. */
  datatype FavItem = FavItem(id: int, name: string)

  /** A user of the users table: the profile, `favorites_list` and `favorites_count`. */
  datatype UserDetail = UserDetail(profile: AdminProfile, favoritesList: seq<FavItem>, favoritesCount: nat)

  /** A listed product: its row, the `category` property the search reads, and the
      joined `categorias(categoria)` the table shows. */
  datatype ProductEntry = ProductEntry(row: ProductRow, category: Option<string>, categoria: Option<string>)

  /** A listed purchase; `userName` is set only on purchases created in this session. */
  datatype PurchaseEntry = PurchaseEntry(row: PurchaseRow, userName: Option<string>)

  /** The new-purchase dialog's fields. */
  datatype PurchaseDraft = PurchaseDraft(userEmail: Option<string>, name: string, description: string, status: string)

  /** A purchase column the edit dialog changes. */
  datatype PurchaseField = NameField | DescriptionField | StatusField

  /** An input of the new-purchase dialog: the buyer's e-mail, or one of the purchase's columns. */
  datatype DraftField = EmailInput | ColumnInput(column: PurchaseField)

  // ---------------------------------------------------------------------------
  // Users and their favourites

  /** `fav.products?.name || 'Sin nombre'`. */
  function FavName(productName: Option<string>): (name: string)
    ensures Text.Filled(productName) ==> name == productName.value
    ensures !Text.Filled(productName) ==> name == NoName
  {
    if Text.Filled(productName) then productName.value else NoName
  }

  function ItemOf(f: FavJoin): FavItem {
    FavItem(f.productId, FavName(f.productName))
  }

  function Items(fs: seq<FavJoin>): (items: seq<FavItem>)
    ensures |items| == |fs|
    ensures forall i :: 0 <= i < |fs| ==> items[i] == ItemOf(fs[i])
  {
    seq(|fs|, i requires 0 <= i < |fs| => ItemOf(fs[i]))
  }

  function ByUser(u: int): FavJoin -> bool {
    (f: FavJoin) => f.userId == u
  }

  /** What `favorites_list` should hold for user `u`: an entry for each of the user's
      favourite rows, in fetch order. */
  function FavoritesOf(favs: seq<FavJoin>, u: int): (items: seq<FavItem>)
    ensures |items| <= |favs|
  {
    if favs == [] then []
    else
      var last := favs[|favs| - 1];
      FavoritesOf(favs[..|favs| - 1], u) + if last.userId == u then [ItemOf(last)] else []
  }

  /** The same list described independently: the user's rows, filtered out in order,
      each turned into an entry. */
  lemma {:induction false} FavoritesAreFiltered(favs: seq<FavJoin>, u: int)
    ensures FavoritesOf(favs, u) == Items(Seqs.Filter(favs, ByUser(u)))
  {
    if favs != [] {
      var init, last := favs[..|favs| - 1], favs[|favs| - 1];
      assert favs == init + [last];
      FavoritesAreFiltered(init, u);
      Seqs.FilterAppend(init, [last], ByUser(u));
      assert Seqs.Filter([last], ByUser(u)) == if last.userId == u then [last] else [];
    }
  }

  /** `if (!favMap[u]) favMap[u] = []; favMap[u].push(item)` for one fetched row. */
  function Push(favMap: map<int, seq<FavItem>>, f: FavJoin): (r: map<int, seq<FavItem>>)
    ensures r.Keys == favMap.Keys + {f.userId}
  {
    favMap[f.userId := (if f.userId in favMap then favMap[f.userId] else []) + [ItemOf(f)]]
  }

  /** The map after the first rows holds exactly those rows' lists. */
  ghost predicate Mirrors(favMap: map<int, seq<FavItem>>, favs: seq<FavJoin>) {
    (forall u :: FavoritesOf(favs, u) == if u in favMap then favMap[u] else [])
    && (forall u :: u in favMap ==> favMap[u] != [])
  }

  lemma PushMirrors(favMap: map<int, seq<FavItem>>, prefix: seq<FavJoin>, f: FavJoin)
    requires Mirrors(favMap, prefix)
    ensures Mirrors(Push(favMap, f), prefix + [f])
  {
    var favs := prefix + [f];
    assert favs[..|favs| - 1] == prefix;
  }

  /** The `favMap` loop: for each fetched favourite, create the user's list if
      needed and push the entry. */
  method BuildFavMap(favs: seq<FavJoin>) returns (favMap: map<int, seq<FavItem>>)
    ensures forall u :: FavoritesOf(favs, u) == if u in favMap then favMap[u] else []
    ensures forall u :: u in favMap ==> favMap[u] != []
  {
    favMap := map[];
    var i := 0;
    while i < |favs|
      invariant 0 <= i <= |favs|
      invariant Mirrors(favMap, favs[..i])
    {
      PushMirrors(favMap, favs[..i], favs[i]);
      favMap := Push(favMap, favs[i]);
      assert favs[..i + 1] == favs[..i] + [favs[i]];
      i := i + 1;
    }
    assert favs[..|favs|] == favs;
    assert Mirrors(favMap, favs);
  }

  /** `profilesData.map(profile => ({ ...profile, favorites_list, favorites_count }))`. */
  function WithFavorites(profiles: seq<AdminProfile>, favMap: map<int, seq<FavItem>>): (users: seq<UserDetail>)
    ensures |users| == |profiles|
  {
    seq(|profiles|, i requires 0 <= i < |profiles| =>
      var list := if profiles[i].id in favMap then favMap[profiles[i].id] else [];
      UserDetail(profiles[i], list, |list|))
  }

  /** A user's favourites count is the number of favourite rows that name the user,
      and every listed entry is one of those rows. */
  lemma FavoritesCounted(favs: seq<FavJoin>, u: int)
    ensures |FavoritesOf(favs, u)| == |Seqs.Filter(favs, ByUser(u))|
    ensures forall i :: 0 <= i < |FavoritesOf(favs, u)| ==>
      exists f :: f in favs && f.userId == u && FavoritesOf(favs, u)[i] == ItemOf(f)
  {
    var mine := Seqs.Filter(favs, ByUser(u));
    FavoritesAreFiltered(favs, u);
    forall i | 0 <= i < |FavoritesOf(favs, u)|
      ensures exists f :: f in favs && f.userId == u && FavoritesOf(favs, u)[i] == ItemOf(f)
    {
      assert ByUser(u)(mine[i]);
      assert mine[i] in favs;
    }
  }

  // ---------------------------------------------------------------------------
  // CSV export

  const CsvHeader: seq<string> := ["Nombre", "Email", "Tel\U{E9}fono", "Puntos", "Compras", "Favoritos"]

  /** `${value}` of a nullable text column: the text, or `null`. */
  function Shown(v: Option<string>): string {
    if v.Some? then v.value else "null"
  }

  /** `${f.name} (${f.id})`. */
  function FavoriteLabel(f: FavItem): string {
    f.name + " (" + Text.IntToString(f.id) + ")"
  }

  function FavoriteLabels(fs: seq<FavItem>): (labels: seq<string>)
    ensures |labels| == |fs|
    ensures forall i :: 0 <= i < |fs| ==> labels[i] == FavoriteLabel(fs[i])
  {
    seq(|fs|, i requires 0 <= i < |fs| => FavoriteLabel(fs[i]))
  }

  /** The six values of a user's CSV row; missing points and purchase counts read as 0. */
  function CsvValues(u: UserDetail): (values: seq<string>)
    ensures |values| == |CsvHeader|
    ensures values[3] == Text.IntToString(u.profile.points.GetOr(0))
    ensures values[4] == Text.IntToString(u.profile.purchaseCount.GetOr(0))
  {
    [Shown(u.profile.name), Shown(u.profile.email), Shown(u.profile.phone),
     Text.IntToString(u.profile.points.GetOr(0)), Text.IntToString(u.profile.purchaseCount.GetOr(0)),
     Text.Join(FavoriteLabels(u.favoritesList), " | ")]
  }

  /** `"${value}"`. */
  function Quote(v: string): string {
    "\"" + v + "\""
  }

  function Quoted(values: seq<string>): (cells: seq<string>)
    ensures |cells| == |values|
    ensures forall j :: 0 <= j < |values| ==> cells[j] == Quote(values[j])
  {
    seq(|values|, j requires 0 <= j < |values| => Quote(values[j]))
  }

  function CsvLine(values: seq<string>): string {
    Text.Join(Quoted(values), ",")
  }

  /** The header line followed by one line per user, in the order of `users`. */
  function CsvLines(users: seq<UserDetail>): (lines: seq<string>)
    ensures |lines| == |users| + 1
    ensures lines[0] == CsvLine(CsvHeader)
    ensures forall i :: 0 <= i < |users| ==> lines[i + 1] == CsvLine(CsvValues(users[i]))
  {
    var body := UserLines(users);
    assert forall i :: 0 <= i < |users| ==> ([CsvLine(CsvHeader)] + body)[i + 1] == body[i];
    [CsvLine(CsvHeader)] + body
  }

  function UserLines(users: seq<UserDetail>): (lines: seq<string>)
    ensures |lines| == |users|
    ensures forall i :: 0 <= i < |users| ==> lines[i] == CsvLine(CsvValues(users[i]))
  {
    seq(|users|, i requires 0 <= i < |users| => CsvLine(CsvValues(users[i])))
  }

  /** `exportUsersCSV`'s file content. */
  function ExportUsersCsv(users: seq<UserDetail>): string {
    Text.Join(CsvLines(users), "\n")
  }

  /** A value free of commas and line breaks stays one cell of one line. */
  predicate CsvSafe(v: string) {
    ',' !in v && '\n' !in v
  }

  predicate CsvSafeRow(values: seq<string>) {
    forall j :: 0 <= j < |values| ==> CsvSafe(values[j])
  }

  lemma CsvLineSplits(values: seq<string>)
    requires |values| >= 1 && CsvSafeRow(values)
    ensures '\n' !in CsvLine(values)
    ensures Text.SplitOn(CsvLine(values), ',') == Quoted(values)
  {
    var cells := Quoted(values);
    forall k | 0 <= k < |cells|
      ensures ',' !in cells[k] && '\n' !in cells[k]
    {
      assert cells[k] == "\"" + values[k] + "\"";
    }
    Text.JoinAvoids(cells, ",", '\n');
    Text.SplitJoinRoundTrip(cells, ',');
  }

  /** Every line of the export is free of line breaks. */
  lemma CsvLinesUnbroken(users: seq<UserDetail>)
    requires forall i :: 0 <= i < |users| ==> CsvSafeRow(CsvValues(users[i]))
    ensures forall k :: 0 <= k < |CsvLines(users)| ==> '\n' !in CsvLines(users)[k]
  {
    var lines := CsvLines(users);
    forall k | 0 <= k < |lines|
      ensures '\n' !in lines[k]
    {
      if k == 0 {
        CsvHeaderSafe();
        CsvLineSplits(CsvHeader);
      } else {
        var u := users[k - 1];
        assert lines[k] == CsvLine(CsvValues(u));
        CsvLineSplits(CsvValues(u));
      }
    }
  }

  /** The export's column titles hold no comma, no line break and no double quote. */
  lemma CsvHeaderSafe()
    ensures CsvSafeRow(CsvHeader)
    ensures forall j :: 0 <= j < |CsvHeader| ==> '"' !in CsvHeader[j]
  {
  }

  /** Reading the export back: when no value holds a comma or a line break, the file
      splits into the header line and one line per user, and each line into the six
      quoted values in column order. */
  lemma CsvRoundTrip(users: seq<UserDetail>)
    requires forall i :: 0 <= i < |users| ==> CsvSafeRow(CsvValues(users[i]))
    ensures |Text.SplitOn(ExportUsersCsv(users), '\n')| == |users| + 1
    ensures Text.SplitOn(Text.SplitOn(ExportUsersCsv(users), '\n')[0], ',') == Quoted(CsvHeader)
    ensures forall i :: 0 <= i < |users| ==>
      Text.SplitOn(Text.SplitOn(ExportUsersCsv(users), '\n')[i + 1], ',') == Quoted(CsvValues(users[i]))
  {
    CsvLinesUnbroken(users);
    CsvHeaderSafe();
    CsvLineSplits(CsvHeader);
    forall i | 0 <= i < |users|
      ensures Text.SplitOn(CsvLines(users)[i + 1], ',') == Quoted(CsvValues(users[i]))
    {
      CsvLineSplits(CsvValues(users[i]));
    }
    Text.SplitJoinRoundTrip(CsvLines(users), '\n');
  }

  // ---------------------------------------------------------------------------
  // Searches

  /** `field && field.toLowerCase().includes(term.toLowerCase())`. */
  predicate FieldMatches(field: Option<string>, term: string) {
    Text.Filled(field) && Text.IncludesIgnoringCase(field.value, term)
  }

  predicate UserMatches(u: UserDetail, term: string) {
    FieldMatches(u.profile.name, term) || FieldMatches(u.profile.email, term)
  }

  predicate ProductMatches(p: Listed<ProductEntry>, term: string) {
    FieldMatches(Some(p.entry.row.name), term) || FieldMatches(p.entry.category, term)
  }

  predicate PurchaseMatches(p: Listed<PurchaseEntry>, term: string) {
    FieldMatches(p.entry.userName, term) || FieldMatches(Some(p.entry.row.userEmail), term)
    || FieldMatches(Some(p.entry.row.name), term) || FieldMatches(Some(p.entry.row.status), term)
  }

  /** `filteredUsers`: the users whose name or e-mail contains the term, in list order. */
  function FilteredUsers(users: seq<UserDetail>, term: string): (shown: seq<UserDetail>)
    ensures forall u :: u in shown <==> u in users && UserMatches(u, term)
    ensures multiset(shown) <= multiset(users)
  {
    Seqs.Filter(users, u => UserMatches(u, term))
  }

  /** `filteredProducts`: the products whose name or category contains the term. */
  function FilteredProducts(products: seq<Listed<ProductEntry>>, term: string): (shown: seq<Listed<ProductEntry>>)
    ensures forall p :: p in shown <==> p in products && ProductMatches(p, term)
    ensures multiset(shown) <= multiset(products)
  {
    Seqs.Filter(products, p => ProductMatches(p, term))
  }

  /** `filteredPurchases`: the purchases whose buyer name, e-mail, name or status contains the term. */
  function FilteredPurchases(purchases: seq<Listed<PurchaseEntry>>, term: string): (shown: seq<Listed<PurchaseEntry>>)
    ensures forall p :: p in shown <==> p in purchases && PurchaseMatches(p, term)
    ensures multiset(shown) <= multiset(purchases)
  {
    Seqs.Filter(purchases, p => PurchaseMatches(p, term))
  }

  /** The empty search term is contained in every present field, so it keeps exactly
      the rows with a present field. */
  lemma MatchesEmptyTerm(field: Option<string>)
    ensures FieldMatches(field, "") <==> Text.Filled(field)
  {
    if Text.Filled(field) {
      assert Text.ToLower("") == "";
      assert Text.ToLower(field.value)[..0] == "";
    }
  }

  /** With an empty search box the users table lists every user with a name or an e-mail. */
  lemma EmptyUserSearch(users: seq<UserDetail>)
    ensures forall u :: u in FilteredUsers(users, "") <==>
      u in users && (Text.Filled(u.profile.name) || Text.Filled(u.profile.email))
  {
    forall u | u in users
      ensures UserMatches(u, "") <==> Text.Filled(u.profile.name) || Text.Filled(u.profile.email)
    {
      MatchesEmptyTerm(u.profile.name);
      MatchesEmptyTerm(u.profile.email);
    }
  }

  /** Searching for a purchase's own name finds it. */
  lemma PurchaseFoundByName(purchases: seq<Listed<PurchaseEntry>>, p: Listed<PurchaseEntry>)
    requires p in purchases && p.entry.row.name != ""
    ensures p in FilteredPurchases(purchases, p.entry.row.name)
  {
    var l := Text.ToLower(p.entry.row.name);
    assert l[..|l|] == l;
    assert Text.OccursAt(l, l, 0);
  }

  // ---------------------------------------------------------------------------
  // List updates by id

  /** `delete().eq('id', id)` on the table, then the list filter only when it succeeded. */
  method DeleteListed<R, E>(table: Store.Table<R>, list: seq<Listed<E>>, id: int)
    returns (ok: bool, kept: seq<Listed<E>>)
    requires table.Valid()
    modifies table
    ensures table.Valid() && table.next == old(table.next)
    ensures table.rows == if ok then old(table.rows) - {id} else old(table.rows)
    ensures kept == if ok then WithoutId(list, id) else list
  {
    ok := table.DeleteKey(id);
    kept := if ok then WithoutId(list, id) else list;
  }

  // ---------------------------------------------------------------------------
  // Purchases and categories

  /** The e-mail a new purchase is for: the chosen user's, else the typed one. */
  function TargetEmail(selected: Option<UserDetail>, draft: PurchaseDraft): Option<string> {
    if selected.Some? then selected.value.profile.email else draft.userEmail
  }

  /** `data.profiles?.name || data.user_email.split('@')[0]`. */
  function BuyerName(profileName: Option<string>, email: string): (name: string)
    ensures Text.Filled(profileName) ==> name == profileName.value
    ensures !Text.Filled(profileName) ==> name == Text.BeforeFirst(email, '@') && '@' !in name
  {
    if Text.Filled(profileName) then profileName.value else Text.BeforeFirst(email, '@')
  }

  /** A buyer without a profile name is listed under the local part of their address. */
  lemma BuyerNameFromAddress(local: string, domain: string)
    requires '@' !in local
    ensures BuyerName(None, local + "@" + domain) == local
  {
    Text.BeforeFirstOfJoin(local, '@', domain);
  }

  function ProfileWithEmail(email: string): ProfileRow -> bool {
    (p: ProfileRow) => p.email == email
  }

  /** The name `profiles(name)` joins onto a purchase of user `id`. */
  function JoinedName(profiles: map<int, ProfileRow>, id: int): Option<string> {
    if id in profiles then profiles[id].name else None
  }

  /** The update `handleEditPurchase` sends: name, description and status. */
  function EditedColumns(e: PurchaseRow): PurchaseRow -> PurchaseRow {
    (r: PurchaseRow) => r.(name := e.name, description := e.description, status := e.status)
  }

  function WithVisible(v: bool): CategoryRow -> CategoryRow {
    (r: CategoryRow) => r.(visible := v)
  }

  function WithPinned(v: bool): CategoryRow -> CategoryRow {
    (r: CategoryRow) => r.(pinned := v)
  }

  function InCategory(id: int): ProductRow -> bool {
    (p: ProductRow) => p.categoryId == Some(id)
  }

  function ProductVisible(v: bool): ProductRow -> ProductRow {
    (p: ProductRow) => p.(visible := v)
  }

  /** After both writes of a visibility toggle, the category and every one of its
      products carry the new flag, and no other product changed. */
  lemma VisibilityPropagated(categories: map<int, CategoryRow>, products: map<int, ProductRow>, id: int, v: bool)
    requires id in categories
    ensures categories[id := WithVisible(v)(categories[id])][id].visible == v
    ensures forall k :: k in UpdatedProducts(products, id, v) && UpdatedProducts(products, id, v)[k].categoryId == Some(id) ==>
      UpdatedProducts(products, id, v)[k].visible == v
    ensures forall k :: k in products && products[k].categoryId != Some(id) ==> UpdatedProducts(products, id, v)[k] == products[k]
  {
  }

  function UpdatedProducts(products: map<int, ProductRow>, id: int, v: bool): (r: map<int, ProductRow>)
    ensures r.Keys == products.Keys
  {
    Store.UpdatedRows(products, InCategory(id), ProductVisible(v))
  }

  // ---------------------------------------------------------------------------
  // The dashboard

  class AdminDashboard {
    var users: seq<UserDetail>
    var products: seq<Listed<ProductEntry>>
    var purchases: seq<Listed<PurchaseEntry>>
    var reviews: seq<Listed<ReviewRow>>
    var categories: seq<Listed<CategoryRow>>
    var isLoading: bool
    var selectedUser: Option<UserDetail>
    var newPurchase: PurchaseDraft
    var purchaseDialogOpen: bool
    var editPurchase: Option<Listed<PurchaseEntry>>
    var editDialogOpen: bool

    constructor ()
      ensures users == [] && products == [] && purchases == [] && reviews == [] && categories == []
      ensures isLoading && selectedUser.None? && newPurchase == PurchaseDraft(Some(""), "", "", InitialStatus)
      ensures !purchaseDialogOpen && editPurchase.None? && !editDialogOpen
    {
      users, products, purchases, reviews, categories := [], [], [], [], [];
      isLoading := true;
      selectedUser := None;
      newPurchase := PurchaseDraft(Some(""), "", "", InitialStatus);
      purchaseDialogOpen := false;
      editPurchase := None;
      editDialogOpen := false;
    }

    /** `fetchAdminData`, given what each query returned (None for an error).  A
        profiles or favourites error stops before any list changes; a categories error
        keeps the old categories; missing products, purchases or reviews read as []. */
    method FetchAdminData(profilesData: Option<seq<AdminProfile>>, favData: Option<seq<FavJoin>>,
                          categoriesData: Option<seq<Listed<CategoryRow>>>,
                          productsData: Option<seq<Listed<ProductEntry>>>,
                          purchasesData: Option<seq<Listed<PurchaseEntry>>>,
                          reviewsData: Option<seq<Listed<ReviewRow>>>)
      modifies this`users, this`products, this`purchases, this`reviews, this`categories, this`isLoading
      ensures !isLoading
      ensures profilesData.None? || favData.None? ==>
        users == old(users) && products == old(products) && purchases == old(purchases)
        && reviews == old(reviews) && categories == old(categories)
      ensures profilesData.Some? && favData.Some? ==>
        |users| == |profilesData.value|
        && (forall i :: 0 <= i < |users| ==>
              users[i].profile == profilesData.value[i]
              && users[i].favoritesList == FavoritesOf(favData.value, profilesData.value[i].id)
              && users[i].favoritesCount == |users[i].favoritesList|)
        && categories == (if categoriesData.Some? then categoriesData.value else old(categories))
        && products == productsData.GetOr([]) && purchases == purchasesData.GetOr([])
        && reviews == reviewsData.GetOr([])
    {
      isLoading := true;
      if profilesData.Some? && favData.Some? {
        if categoriesData.Some? {
          categories := categoriesData.value;
        }
        var favMap := BuildFavMap(favData.value);
        users := WithFavorites(profilesData.value, favMap);
        products := productsData.GetOr([]);
        purchases := purchasesData.GetOr([]);
        reviews := reviewsData.GetOr([]);
      }
      isLoading := false;
    }

    /** `openPurchaseDialog(user)`: a blank draft, addressed to the user when one is given. */
    method OpenPurchaseDialog(user: Option<UserDetail>)
      modifies this`selectedUser, this`newPurchase, this`purchaseDialogOpen
      ensures selectedUser == user && purchaseDialogOpen
      ensures newPurchase == PurchaseDraft(if user.Some? then user.value.profile.email else Some(""), "", "", InitialStatus)
    {
      selectedUser := user;
      newPurchase := PurchaseDraft(if user.Some? then user.value.profile.email else Some(""), "", "", InitialStatus);
      purchaseDialogOpen := true;
    }

    /** `handleCreatePurchase`.  Without a target e-mail or a name nothing is inserted.
        The buyer is the chosen user, or else the one profile with the typed e-mail; a
        failed lookup or insert leaves the list and the dialog as they were.  A created
        purchase is put first in the list under the buyer's name, and the dialog closes
        and resets. */
    method HandleCreatePurchase(profiles: Store.Table<ProfileRow>, table: Store.Table<PurchaseRow>)
      returns (created: bool, buyer: int)
      requires profiles.Valid() && table.Valid()
      modifies this`purchases, this`isLoading, this`purchaseDialogOpen, this`newPurchase, this`selectedUser, table
      ensures table.Valid() && !isLoading
      ensures created ==> Text.Filled(TargetEmail(old(selectedUser), old(newPurchase))) && old(newPurchase).name != ""
      ensures created && old(selectedUser).Some? ==> buyer == old(selectedUser).value.profile.id
      ensures created && old(selectedUser).None? ==>
        Store.IsOnlyMatch(profiles.rows, ProfileWithEmail(old(newPurchase).userEmail.value), buyer)
      ensures created ==>
        var row := PurchaseRow(buyer, TargetEmail(old(selectedUser), old(newPurchase)).value, old(newPurchase).name,
                               old(newPurchase).description, old(newPurchase).status);
        table.rows == old(table.rows)[old(table.next) := row]
        && purchases == [Listed(old(table.next), PurchaseEntry(row, Some(BuyerName(JoinedName(profiles.rows, buyer), row.userEmail))))]
                        + old(purchases)
        && !purchaseDialogOpen && selectedUser.None? && newPurchase == PurchaseDraft(Some(""), "", "", InitialStatus)
      ensures !created ==>
        table.rows == old(table.rows) && purchases == old(purchases) && purchaseDialogOpen == old(purchaseDialogOpen)
        && selectedUser == old(selectedUser) && newPurchase == old(newPurchase)
    {
      isLoading := true;
      created, buyer := false, 0;
      var target := TargetEmail(selectedUser, newPurchase);
      if Text.Filled(target) && newPurchase.name != "" {
        var owner: Option<int> := None;
        if selectedUser.Some? {
          owner := Some(selectedUser.value.profile.id);
        } else {
          var found := profiles.Single(ProfileWithEmail(target.value));
          if found.Some? {
            owner := Some(found.value.0);
          }
        }
        if owner.Some? {
          var entry := InsertPurchase(profiles, table, owner.value, target.value, newPurchase);
          if entry.Some? {
            purchases := [entry.value] + purchases;
            purchaseDialogOpen := false;
            newPurchase := PurchaseDraft(Some(""), "", "", InitialStatus);
            selectedUser := None;
            created, buyer := true, owner.value;
          }
        }
      }
      isLoading := false;
    }

    /** `handleDeletePurchase`. */
    method HandleDeletePurchase(id: int, table: Store.Table<PurchaseRow>) returns (ok: bool)
      requires table.Valid()
      modifies this`purchases, this`isLoading, table
      ensures table.Valid() && !isLoading
      ensures table.rows == if ok then old(table.rows) - {id} else old(table.rows)
      ensures purchases == if ok then WithoutId(old(purchases), id) else old(purchases)
    {
      isLoading := true;
      ok, purchases := DeleteListed(table, purchases, id);
      isLoading := false;
    }

    /** `openEdit`: the purchase's row is copied into the edit dialog. */
    method OpenEditPurchase(p: Listed<PurchaseEntry>)
      modifies this`editPurchase, this`editDialogOpen
      ensures editPurchase == Some(p) && editDialogOpen
    {
      editPurchase := Some(p);
      editDialogOpen := true;
    }

    /** The new-purchase dialog's inputs: one field of the draft changes. */
    method EditDraftField(field: DraftField, value: string)
      modifies this`newPurchase
      ensures newPurchase == match field
        case EmailInput => old(newPurchase).(userEmail := Some(value))
        case ColumnInput(NameField) => old(newPurchase).(name := value)
        case ColumnInput(DescriptionField) => old(newPurchase).(description := value)
        case ColumnInput(StatusField) => old(newPurchase).(status := value)
    {
      newPurchase := match field
        case EmailInput => newPurchase.(userEmail := Some(value))
        case ColumnInput(NameField) => newPurchase.(name := value)
        case ColumnInput(DescriptionField) => newPurchase.(description := value)
        case ColumnInput(StatusField) => newPurchase.(status := value);
    }

    /** The edit dialog's inputs: one column of the copy changes. */
    method EditPurchaseField(field: PurchaseField, value: string)
      requires editPurchase.Some?
      modifies this`editPurchase
      ensures editPurchase.Some? && editPurchase.value.id == old(editPurchase).value.id
      ensures editPurchase.value.entry.userName == old(editPurchase).value.entry.userName
      ensures editPurchase.value.entry.row == match field
        case NameField => old(editPurchase).value.entry.row.(name := value)
        case DescriptionField => old(editPurchase).value.entry.row.(description := value)
        case StatusField => old(editPurchase).value.entry.row.(status := value)
    {
      var e := editPurchase.value;
      var row := match field
        case NameField => e.entry.row.(name := value)
        case DescriptionField => e.entry.row.(description := value)
        case StatusField => e.entry.row.(status := value);
      editPurchase := Some(Listed(e.id, e.entry.(row := row)));
    }

    /** `handleEditPurchase`: with nothing being edited nothing happens; otherwise the
        row's name, description and status are written, and only when that succeeded
        the list's row with that id becomes the edited one and the dialog closes. */
    method HandleEditPurchase(table: Store.Table<PurchaseRow>) returns (saved: bool)
      requires table.Valid()
      modifies this`purchases, this`isLoading, this`editPurchase, this`editDialogOpen, table
      ensures table.Valid()
      ensures saved ==> old(editPurchase).Some?
      ensures old(editPurchase).None? ==>
        table.rows == old(table.rows) && purchases == old(purchases) && isLoading == old(isLoading)
        && editPurchase == old(editPurchase) && editDialogOpen == old(editDialogOpen)
      ensures old(editPurchase).Some? ==>
        var e := old(editPurchase).value;
        !isLoading
        && table.rows == (if saved && e.id in old(table.rows)
                          then old(table.rows)[e.id := EditedColumns(e.entry.row)(old(table.rows)[e.id])]
                          else old(table.rows))
        && purchases == (if saved then ReplaceId(old(purchases), e) else old(purchases))
        && editPurchase == (if saved then None else old(editPurchase))
        && editDialogOpen == (if saved then false else old(editDialogOpen))
    {
      saved := false;
      if editPurchase.Some? {
        var e := editPurchase.value;
        isLoading := true;
        saved := table.UpdateKey(e.id, EditedColumns(e.entry.row));
        if saved {
          purchases := ReplaceId(purchases, e);
          editDialogOpen := false;
          editPurchase := None;
        }
        isLoading := false;
      }
    }

    /** `handleDeleteProduct`. */
    method HandleDeleteProduct(id: int, table: Store.Table<ProductRow>) returns (ok: bool)
      requires table.Valid()
      modifies this`products, this`isLoading, table
      ensures table.Valid() && !isLoading
      ensures table.rows == if ok then old(table.rows) - {id} else old(table.rows)
      ensures products == if ok then WithoutId(old(products), id) else old(products)
    {
      isLoading := true;
      ok, products := DeleteListed(table, products, id);
      isLoading := false;
    }

    /** `handleDeleteReview`. */
    method HandleDeleteReview(id: int, table: Store.Table<ReviewRow>) returns (ok: bool)
      requires table.Valid()
      modifies this`reviews, this`isLoading, table
      ensures table.Valid() && !isLoading
      ensures table.rows == if ok then old(table.rows) - {id} else old(table.rows)
      ensures reviews == if ok then WithoutId(old(reviews), id) else old(reviews)
    {
      isLoading := true;
      ok, reviews := DeleteListed(table, reviews, id);
      isLoading := false;
    }

    /** `handleDeleteCategory`. */
    method HandleDeleteCategory(id: int, table: Store.Table<CategoryRow>) returns (ok: bool)
      requires table.Valid()
      modifies this`categories, this`isLoading, table
      ensures table.Valid() && !isLoading
      ensures table.rows == if ok then old(table.rows) - {id} else old(table.rows)
      ensures categories == if ok then WithoutId(old(categories), id) else old(categories)
    {
      isLoading := true;
      ok, categories := DeleteListed(table, categories, id);
      isLoading := false;
    }
  }

  /** The insert of `handleCreatePurchase` with its `profiles(name)` join: the listed
      entry on success. */
  method InsertPurchase(profiles: Store.Table<ProfileRow>, table: Store.Table<PurchaseRow>,
                        buyer: int, email: string, draft: PurchaseDraft)
    returns (entry: Option<Listed<PurchaseEntry>>)
    requires table.Valid()
    modifies table
    ensures table.Valid()
    ensures entry.Some? ==>
      var row := PurchaseRow(buyer, email, draft.name, draft.description, draft.status);
      table.rows == old(table.rows)[old(table.next) := row]
      && entry.value == Listed(old(table.next), PurchaseEntry(row, Some(BuyerName(JoinedName(profiles.rows, buyer), email))))
    ensures entry.None? ==> table.rows == old(table.rows)
  {
    var row := PurchaseRow(buyer, email, draft.name, draft.description, draft.status);
    var ok, id := table.Insert(row);
    entry := None;
    if ok {
      entry := Some(Listed(id, PurchaseEntry(row, Some(BuyerName(JoinedName(profiles.rows, buyer), email)))));
    }
  }

  /** `handleToggleVisible(cat)`: the category's flag becomes the opposite of the listed
      copy's; only if that write succeeded are its products given the same flag (that
      write's own result is not looked at) and the dashboard reloaded. */
  method HandleToggleVisible(cat: Listed<CategoryRow>, categoryTable: Store.Table<CategoryRow>,
                             productTable: Store.Table<ProductRow>)
    returns (reload: bool)
    requires categoryTable.Valid() && productTable.Valid()
    modifies categoryTable, productTable
    ensures categoryTable.Valid() && productTable.Valid()
    ensures categoryTable.rows == if reload && cat.id in old(categoryTable.rows)
      then old(categoryTable.rows)[cat.id := WithVisible(!cat.entry.visible)(old(categoryTable.rows)[cat.id])]
      else old(categoryTable.rows)
    ensures !reload ==> productTable.rows == old(productTable.rows)
    ensures reload ==> (productTable.rows == old(productTable.rows)
      || productTable.rows == UpdatedProducts(old(productTable.rows), cat.id, !cat.entry.visible))
  {
    var newVisible := !cat.entry.visible;
    reload := categoryTable.UpdateKey(cat.id, WithVisible(newVisible));
    if reload {
      var _ := productTable.UpdateWhere(InCategory(cat.id), ProductVisible(newVisible));
    }
  }

  /** `handleTogglePinned(cat)`: the category's pin becomes the opposite of the listed copy's. */
  method HandleTogglePinned(cat: Listed<CategoryRow>, categoryTable: Store.Table<CategoryRow>)
    returns (reload: bool)
    requires categoryTable.Valid()
    modifies categoryTable
    ensures categoryTable.Valid()
    ensures categoryTable.rows == if reload && cat.id in old(categoryTable.rows)
      then old(categoryTable.rows)[cat.id := WithPinned(!cat.entry.pinned)(old(categoryTable.rows)[cat.id])]
      else old(categoryTable.rows)
  {
    reload := categoryTable.UpdateKey(cat.id, WithPinned(!cat.entry.pinned));
  }
}
