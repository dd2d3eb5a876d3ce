/**
 * The application's routes: which page each path shows, the guard in front of
 * the member and admin pages, and the three old paths that redirect.
 */
module Routes {
  import opened Wrappers
  import opened Rows
  import Text

  /** The one account that may open the admin pages. */
  const AdminEmail := "vetacreativalaser@gmail.com"

  /** The authentication context: still loading, and the signed-in user if any. */
  datatype Auth = Auth(loading: bool, user: Option<SessionUser>)

  /** What `ProtectedRoute` renders. */
  datatype Guarded = Spinner | NavigateTo(to: string) | Children

  /** `ProtectedRoute`: a spinner while loading, the sign-in page without a user, the
      profile page for anyone but the admin on an admin route, the page otherwise. */
  function ProtectedRoute(auth: Auth, adminOnly: bool): (o: Guarded)
    ensures auth.loading ==> o == Spinner
    ensures !auth.loading && auth.user.None? ==> o == NavigateTo("/auth")
    ensures !auth.loading && auth.user.Some? && adminOnly && auth.user.value.email != AdminEmail ==>
      o == NavigateTo("/perfil")
    ensures o == Children <==> !auth.loading && auth.user.Some? && (!adminOnly || auth.user.value.email == AdminEmail)
  {
    if auth.loading then Spinner
    else if auth.user.None? then NavigateTo("/auth")
    else if adminOnly && auth.user.value.email != AdminEmail then NavigateTo("/perfil")
    else Children
  }

  datatype Page =
    | Home | ProductList | ProductDetail(id: string) | About | Contact | Faq | AuthPage
    | ForgotPassword | ResetPassword | SearchResults | Terms | Privacy | Cookies | BuyingGuides
    | Wishlist | Profile | AdminDashboard | CreateProduct

  /** A route's element: a page, a page behind `ProtectedRoute`, or a `Navigate ... replace`. */
  datatype Route = Open(page: Page) | Protected(page: Page, adminOnly: bool) | Moved(to: string)

  const DetailPrefix := "/productos/"

  /** The route whose path matches: the fixed paths, and `/productos/:id` for one
      non-empty segment after the prefix.  None when no route matches. */
  function RouteOf(path: string): (route: Option<Route>)
    ensures route.Some? && route.value.Protected? ==>
      route.value.page in {Wishlist, Profile, AdminDashboard, CreateProduct}
        && (route.value.adminOnly <==> route.value.page in {AdminDashboard, CreateProduct})
    ensures route.Some? && route.value.Open? ==>
      route.value.page !in {Wishlist, Profile, AdminDashboard, CreateProduct}
  {
    if path == "/" then Some(Open(Home))
    else if path == "/productos" then Some(Open(ProductList))
    else if path == "/sobre-nosotros" then Some(Open(About))
    else if path == "/contacto" then Some(Open(Contact))
    else if path == "/faq" then Some(Open(Faq))
    else if path == "/auth" then Some(Open(AuthPage))
    else if path == "/forgot-password" then Some(Open(ForgotPassword))
    else if path == "/reset-password" then Some(Open(ResetPassword))
    else if path == "/buscar" then Some(Open(SearchResults))
    else if path == "/terminos-y-condiciones" then Some(Open(Terms))
    else if path == "/politica-de-privacidad" then Some(Open(Privacy))
    else if path == "/politica-de-cookies" then Some(Open(Cookies))
    else if path == "/guias-de-compra" then Some(Open(BuyingGuides))
    else if path == "/favoritos" then Some(Protected(Wishlist, false))
    else if path == "/perfil" then Some(Protected(Profile, false))
    else if path == "/admin/dashboard" then Some(Protected(AdminDashboard, true))
    else if path == "/admin/crear-producto" then Some(Protected(CreateProduct, true))
    else if path == "/login" then Some(Moved("/auth?mode=login"))
    else if path == "/registro" then Some(Moved("/auth?mode=register"))
    else if path == "/lista-de-deseos" then Some(Moved("/favoritos"))
    else if |path| > |DetailPrefix| && path[..|DetailPrefix|] == DetailPrefix && '/' !in path[|DetailPrefix|..] then
      Some(Open(ProductDetail(path[|DetailPrefix|..])))
    else None
  }

  /** What the application shows at a path. */
  datatype Screen = Show(page: Page) | Loading | Navigate(to: string, replace: bool)

  function Render(path: string, auth: Auth): (screen: Option<Screen>)
    ensures screen.None? <==> RouteOf(path).None?
  {
    match RouteOf(path)
    case None => None
    case Some(Open(page)) => Some(Show(page))
    case Some(Moved(to)) => Some(Navigate(to, true))
    case Some(Protected(page, adminOnly)) =>
      match ProtectedRoute(auth, adminOnly)
      case Spinner => Some(Loading)
      case NavigateTo(to) => Some(Navigate(to, false))
      case Children => Some(Show(page))
  }

  /** The favourites and profile pages are shown only to a signed-in user. */
  lemma MemberPagesNeedUser(path: string, auth: Auth)
    requires Render(path, auth) == Some(Show(Wishlist)) || Render(path, auth) == Some(Show(Profile))
    ensures !auth.loading && auth.user.Some?
  {
  }

  /** The admin pages are shown only to the admin account, and always to it once
      authentication has settled. */
  lemma AdminPagesOnlyForAdmin(path: string, auth: Auth)
    ensures Render(path, auth) == Some(Show(AdminDashboard)) || Render(path, auth) == Some(Show(CreateProduct)) ==>
      !auth.loading && auth.user.Some? && auth.user.value.email == AdminEmail
    ensures !auth.loading && auth.user.Some? && auth.user.value.email == AdminEmail ==>
      Render("/admin/dashboard", auth) == Some(Show(AdminDashboard))
      && Render("/admin/crear-producto", auth) == Some(Show(CreateProduct))
  {
  }

  /** The three old paths send the browser to their current routes, replacing the
      history entry. */
  lemma OldPathsRedirect(auth: Auth)
    ensures Render("/login", auth) == Some(Navigate("/auth?mode=login", true))
    ensures Render("/registro", auth) == Some(Navigate("/auth?mode=register", true))
    ensures Render("/lista-de-deseos", auth) == Some(Navigate("/favoritos", true))
  {
  }

  /** The redirect targets of the route table. */
  lemma MovedTargets(path: string)
    requires RouteOf(path).Some? && RouteOf(path).value.Moved?
    ensures RouteOf(path).value.to in {"/auth?mode=login", "/auth?mode=register", "/favoritos"}
  {
  }

  lemma AuthRoute()
    ensures RouteOf("/auth") == Some(Open(AuthPage))
  {
  }

  lemma FavoritesRoute()
    ensures RouteOf("/favoritos") == Some(Protected(Wishlist, false))
  {
  }

  /** A redirect target without its query part. */
  lemma QueryDropped(to: string)
    requires to in {"/auth?mode=login", "/auth?mode=register", "/favoritos"}
    ensures Text.BeforeFirst(to, '?') == if to == "/favoritos" then to else "/auth"
  {
    if to == "/favoritos" {
      assert forall i :: 0 <= i < |to| ==> to[i] != '?';
    } else {
      assert to[..5] == "/auth";
      Text.BeforeFirstStops(to, '?', 5);
    }
  }

  /** Every redirect lands, once its query is set aside, on a path whose route is a
      page and not another redirect. */
  lemma RedirectTargetsArePages(path: string)
    requires RouteOf(path).Some? && RouteOf(path).value.Moved?
    ensures RouteOf(Text.BeforeFirst(RouteOf(path).value.to, '?')).Some?
    ensures !RouteOf(Text.BeforeFirst(RouteOf(path).value.to, '?')).value.Moved?
  {
    MovedTargets(path);
    QueryDropped(RouteOf(path).value.to);
    AuthRoute();
    FavoritesRoute();
  }
}
