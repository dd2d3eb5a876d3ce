# Veta Creativa Láser storefront — a Dafny model

This project models the core of the Veta Creativa Láser web shop: a React
single-page application over a Supabase back end (Postgres tables, storage
buckets, authentication) and four Deno edge functions.

The model covers:

- the **loyalty scheme**: 5 points per published review, minus 5 (never below 0)
  when a review is deleted, level `floor(points / 100)`, the level-up
  synchronisation of the profile page, and the points e-mail of
  `send-points-update`;
- the **password-reset flow**: issuing a 30-minute token, verifying it, redeeming
  it exactly once, and the reset page that drives both calls;
- **reviews**: the image upload of the review form, the thumbnails, the "+N"
  overlay, the lightbox slides and lookup, the reviewer e-mail lookup, and deleting
  a review with its stored images;
- **favourites**: the toggle shared by the product list and the search page, the
  wish list, and the favourites ranking of the admin dashboard;
- **catalogue pages**: the product query and its category filter, card image, alt
  and price label, the search over the page's own catalogue, the product gallery,
  and the related-products strip;
- **admin tools**: the dashboard's loading, CSV export, search filters, purchase
  creation, edit and deletion, deletion of products, reviews and categories, and
  category visibility and pinning; the category dialogs and short form; the banner
  crop dialog; the product editor; the product creation form;
- the **route table** of `App.jsx`, with its guard for member and admin pages.

Layout: one module per source file, plus shared modules.

- `Wrappers`, `Text`, `Seqs` and `Lists` hold the option type, string functions
  (JavaScript lower-casing, `includes`, `trim`, `split`, the category slug, decimal
  rendering) and sequence helpers.
- `Json` models JavaScript values and the truthiness, `||`, `?.`, template
  rendering and `JSON.parse` behaviour the pages depend on.
- `Store` models the Supabase client. A `Table` is rows keyed by id. `Storage`
  holds buckets of object names. An `Outbox` collects messages sent (e-mails,
  callbacks to a parent component). An `AuthDirectory` holds the auth users. Every
  call may fail, and the model lets the caller see either outcome.
- `Rows` holds the table rows.
- `Http` models the edge-function requests and responses.

Pages whose handlers update component state become classes. Their fields are the
state variables, and their methods are the handlers. Pure computations become
functions with lemmas.

The clock, JSON parsing, URL decoding and the network are parameters. The source
reads them from the browser or Deno runtime.

## Model

| member | source | states |
|---|---|---|
| Loyalty.JsRem | src/pages/Profile.jsx:37 | JavaScript `%`: the remainder has the dividend's sign and is Euclidean `%` for non-negative dividends |
| Loyalty.Level | src/pages/Profile.jsx:36 | the level is the unique l with 100·l ≤ points < 100·(l+1) |
| Loyalty.Progress | src/pages/Profile.jsx:37 | for non-negative points the progress is in [0,100) and level·100 + progress = points |
| Loyalty.PointsToNext | src/pages/Profile.jsx:379-382 | the points still missing are in [1,100] and reach exactly 100·(level+1) |
| Loyalty.SingularHintMeansOnePoint | src/pages/Profile.jsx:380-381 | the singular "punto" hint (progress > 98) is shown exactly when one point is missing |
| Loyalty.Gain | src/components/product/ReviewForm.jsx:68 | a published review adds exactly 5 points, a missing balance counting as 0 |
| Loyalty.Lose | src/components/product/ReviewsList.jsx:95 | a deleted review removes 5 points, never going below 0 |
| Loyalty.LoseUndoesGain | src/components/product/ReviewsList.jsx:95 | deleting a review right after publishing it restores the balance |
| Loyalty.GainUndoesLose | src/components/product/ReviewForm.jsx:68 | a loss followed by a gain restores the balance exactly when the balance was at least 5 |
| Loyalty.GainCrossesLevel | src/components/product/ReviewForm.jsx:68 | one review raises the level by at most one, and by one exactly when progress was at least 95 |
| Loyalty.LevelToAnnounce | src/pages/Profile.jsx:43-63 | a level-up is announced exactly when the computed level exceeds the stored one, and it is the computed level |
| Loyalty.SyncedLevel | src/pages/Profile.jsx:47-54 | the synchronised level is the larger of the stored and the computed level |
| Loyalty.AnnouncedIncrease | src/pages/Profile.jsx:43-63 | over any history of balances the announced levels are all above the starting level and strictly increasing |
| Loyalty.AnnouncedAreSeen | src/pages/Profile.jsx:43-63 | every announced level is the level of some balance in the history |
| PointsMail.Greeting | supabase/functions/send-points-update/index.ts:32 | the greeting is the name, the e-mail or "undefined"; it is the name whenever that is filled in, and empty exactly when there is no name and the e-mail is empty |
| PointsMail.ToNextPrize | supabase/functions/send-points-update/index.ts:67 | `100 - points % 100` is present with the points and equals the loyalty scheme's points to the next level |
| PointsMail.Compose | supabase/functions/send-points-update/index.ts:27-85 | level-up, gain and loss mails are chosen by `changeType`, with their subjects; only gain and loss mails carry the points line and banner |
| PointsMail.BannerMeansFreshLevel | supabase/functions/send-points-update/index.ts:71 | the "more than 100 points" banner shows exactly when the level is at least 1 and progress is below 5 |
| PointsMail.GainBannerIffLevelCrossed | supabase/functions/send-points-update/index.ts:71 | after a gain the banner shows exactly when the 5 points crossed a level boundary |
| PointsMail.LossMailCanShowBanner | supabase/functions/send-points-update/index.ts:71 | a loss mail can show the level-up banner too (102 points after a loss) |
| PointsMail.Handle | supabase/functions/send-points-update/index.ts:7-111 | preflight answers without sending; a body is composed and sent, and the reply is success or 500 by the mailer's outcome |
| Http.BodyField | supabase/functions/verify-reset-token/index.ts:25 | destructuring the request body throws exactly on a missing or null body, else yields the field |
| Http.ReplyJson | src/pages/ResetPasswordPage.jsx:37 | `res.json()` yields the reply's object exactly for JSON replies |
| PasswordReset.PlanIssue | supabase/functions/send-password-recovery-link/index.ts:29-62 | a thrown body answers 500, a missing e-mail 400, a failed link or token 500; otherwise it stores the token for that e-mail |
| PasswordReset.Issue | supabase/functions/send-password-recovery-link/index.ts:18-104 | a stored token row is unused, expires 30 minutes after `now` and belongs to the e-mail; a failed insert answers 500 and stores nothing |
| PasswordReset.StateOf | supabase/functions/verify-reset-token/index.ts:37-49 | a token is unknown, spent, expired or live, each exactly under its condition, checked in that order |
| PasswordReset.IssuedTokenLifecycle | supabase/functions/send-password-recovery-link/index.ts:64-69 | a freshly issued token is live, expires after 30 minutes, and is spent once marked used |
| PasswordReset.VerifyKey | supabase/functions/verify-reset-token/index.ts:25-29 | the token is accepted exactly when it is a non-empty string |
| PasswordReset.VerifyReply | supabase/functions/verify-reset-token/index.ts:37-56 | the reply is 200 exactly for a live token, and then carries `valid: true` and its e-mail |
| PasswordReset.Verify | supabase/functions/verify-reset-token/index.ts:13-68 | preflight, invalid input, lookup and state each give their reply; a 200 means a unique live row for the key |
| PasswordReset.ResetArgsOf | supabase/functions/reset-password-from-token/index.ts:25-29 | the arguments are accepted exactly for a truthy token and a new password of at least 6 UTF-16 code units (`.length`) |
| PasswordReset.Owner | supabase/functions/reset-password-from-token/index.ts:53 | `find` on the array of users: the first user with the token's e-mail, or -1 when none has it |
| PasswordReset.FindUser | supabase/functions/reset-password-from-token/index.ts:52-53 | `find` throws on listUsers' page object and finds the owner on its `users` array |
| PasswordReset.PageHasNoFind | supabase/functions/reset-password-from-token/index.ts:52-53 | for a page holding the token's owner, `find` on the page throws while `find` on `users` finds the owner |
| PasswordReset.CheckRequest | supabase/functions/reset-password-from-token/index.ts:13-49 | preflight, a thrown body, bad arguments and an unknown, spent or expired token each give their reply; otherwise the token is live and unique at the found row |
| PasswordReset.Redeem | supabase/functions/reset-password-from-token/index.ts:52-72 | a page object throws (500); no owner gives 404; success means the owner's password was set and the token marked used; any other reply changes nothing |
| PasswordReset.ResetAsWritten | supabase/functions/reset-password-from-token/index.ts:13-89 | as written, no request succeeds: a valid request is answered 400 or 500 "Error inesperado", and nothing changes |
| PasswordReset.MarkUsed | supabase/functions/reset-password-from-token/index.ts:67-70 | marking sets `used` on every row with the token and changes nothing else |
| PasswordReset.MarkedTokenIsSpent | supabase/functions/reset-password-from-token/index.ts:67-70 | after marking, every row with the token is spent, so the token cannot be redeemed twice |
| PasswordReset.Reset | supabase/functions/reset-password-from-token/index.ts:13-89 | with the owner looked up in `data.users`: only a live token, a matching user and a successful password update give success; then the password is changed and the token marked used; any other reply leaves the tokens untouched |
| ResetPage.Validate | src/pages/ResetPasswordPage.jsx:51-58 | mismatch is reported first, then a password shorter than 6 UTF-16 code units; no problem exactly for equal passwords of at least 6 |
| ResetPage.AstralPasswordAccepted | src/pages/ResetPasswordPage.jsx:55 | three emoji outside the Basic Multilingual Plane count as six characters, so both the page and the reset function accept them |
| ResetPage.VerifyBodyAccepted | src/pages/ResetPasswordPage.jsx:32-36 | the body the page sends to the verification function is read back as its token |
| ResetPage.ResetBodyAccepted | src/pages/ResetPasswordPage.jsx:62-66 | a password the page accepts passes the reset function's own input check |
| ResetPage.ResetPasswordPage.constructor | src/pages/ResetPasswordPage.jsx:13-18 | the page starts with an unknown token state and empty fields |
| ResetPage.ResetPasswordPage.CheckToken | src/pages/ResetPasswordPage.jsx:20-46 | no token marks the link invalid; otherwise the token is kept and the link is valid exactly when the reply says `valid` |
| ResetPage.ResetPasswordPage.HandleSubmit | src/pages/ResetPasswordPage.jsx:48-84 | the request is made exactly when validation passes; it navigates to the login only on a successful reply, and otherwise shows the server's error |
| ResetPage.CheckAgreesWithVerification | src/pages/ResetPasswordPage.jsx:38-44 | the page reads a token as valid exactly when the verification function found it live |
| ResetPage.NavigatesOnlyOnRedemption | src/pages/ResetPasswordPage.jsx:70 | a success reply counts as redeemed and an error reply never does |
| Reviews.ThumbnailsFor | src/components/product/ReviewsList.jsx:130-134 | the thumbnail count for a viewport width is between 1 and 4 |
| Reviews.ImagesToShow | src/components/product/ReviewsList.jsx:130-134 | the overriding chain of breakpoints computes the band function |
| Reviews.ThumbnailsNotMonotone | src/components/product/ReviewsList.jsx:133-134 | screens under 400 px show more thumbnails than those from 400 to 499 px |
| Reviews.VisiblePlusExtra | src/components/product/ReviewsList.jsx:136-137 | the visible images are a prefix; visible plus "+N" is the whole count, and a positive N means the row is full |
| Reviews.OverlayOnlyOnLast | src/components/product/ReviewsList.jsx:173 | the "+N" overlay sits exactly on the last visible thumbnail of a review with more images |
| Reviews.AuthorLabel | src/components/product/ReviewsList.jsx:128 | the reviewer's e-mail when known and non-empty, else "Desconocido" |
| Reviews.SlidesOfReview | src/components/product/ReviewsList.jsx:48-50 | one slide per image of the review, in order |
| Reviews.BuildSlides | src/components/product/ReviewsList.jsx:44-53 | the `forEach` loop computes the slide list, or throws when a review's text does not parse |
| Reviews.ThrowPersists | src/components/product/ReviewsList.jsx:46 | once a review's images fail to parse, building the slides throws |
| Reviews.SlidesComplete | src/components/product/ReviewsList.jsx:44-53 | every image of every review is a slide |
| Reviews.SlidesSound | src/components/product/ReviewsList.jsx:44-53 | every slide is an image of the review it names |
| Reviews.LightboxIndex | src/components/product/ReviewsList.jsx:58-65 | the index is -1 or a slide of the clicked review |
| Reviews.LightboxFindsClickedImage | src/components/product/ReviewsList.jsx:58-65 | clicking an image opens a slide of that review showing that image |
| Reviews.ReviewerIds | src/components/product/ReviewsList.jsx:29 | `new Set` of the reviewers: distinct, and exactly the reviewers |
| Reviews.FetchEmails | src/components/product/ReviewsList.jsx:27-42 | no lookup without reviews; on success the map holds exactly the reviewers that have a profile, each with that profile's e-mail |
| Reviews.StoragePathOfPublicUrl | src/components/product/ReviewsList.jsx:80 | the path taken from a public review URL is the decoded object path |
| Reviews.ImagePaths | src/components/product/ReviewsList.jsx:75-80 | one path per stored image, none for an empty list, a throw when the list does not parse |
| Reviews.DeleteReview | src/components/product/ReviewsList.jsx:72-122 | the images are removed, the row deleted and the profile charged 5 points with a loss mail; a failed parse changes nothing |
| ReviewForm.PublicUrls | src/components/product/ReviewForm.jsx:41-44 | one public URL per file, under `review-images/<user>/` |
| ReviewForm.UrlArray | src/components/product/ReviewForm.jsx:55 | the stored `image_urls` is the list of URLs in order |
| ReviewForm.ReviewFormState.constructor | src/components/product/ReviewForm.jsx:10-12 | the form starts empty |
| ReviewForm.ReviewFormState.HandleImageChange | src/components/product/ReviewForm.jsx:15-24 | at most 6 files are kept, each renamed with its stamp, and nothing changes when compression fails |
| ReviewForm.ReviewFormState.HandleSubmit | src/components/product/ReviewForm.jsx:26-101 | a review is stored with its uploaded URLs, the author gains 5 points and is mailed; on failure nothing is inserted |
| ReviewForm.UploadAll | src/components/product/ReviewForm.jsx:31-48 | on success every file is stored and the URLs are their public URLs in order |
| ReviewForm.AwardPoints | src/components/product/ReviewForm.jsx:60-91 | when the author's profile is found it gains 5 points and a gain mail is requested; otherwise neither changes |
| ReviewForm.PublishedImagesAreRemovable | src/components/product/ReviewsList.jsx:80 | the paths recovered from a published review's URLs are the uploaded paths |
| Profile.LevelUpRequest | src/pages/Profile.jsx:77-98 | the request composes a level-up mail to the user with that level's subject |
| Profile.OrText | src/pages/Profile.jsx:114 | `a \|\| b` on texts: one of the two, the first whenever it is filled in, and empty exactly when neither is filled in |
| Profile.ProfilePage.constructor | src/pages/Profile.jsx:25-34 | the page starts at 0 points and level 0 |
| Profile.ProfilePage.LoadProfile | src/pages/Profile.jsx:100-117 | a found profile's points, level and name are shown; otherwise the state is kept |
| Profile.ProfilePage.SyncLevel | src/pages/Profile.jsx:43-63 | the stored level becomes the synchronised level; a level-up mail is sent exactly when there is a level to announce |
| Profile.ProfilePage.ShowReviews | src/pages/Profile.jsx:150-161 | the page crashes exactly when a review's images do not parse (the throw leaves the effect); otherwise the slides are rebuilt from the reviews |
| Profile.ProfilePage.OpenLightbox | src/pages/Profile.jsx:247-254 | the selected slide is the lightbox lookup for the clicked image |
| Favorites.Toggled | src/pages/Products.jsx:80-94 | a favourite is removed, a non-favourite appended |
| Favorites.ToggleFlipsOne | src/pages/Products.jsx:80-94 | toggling flips membership of that product only |
| Favorites.ToggleTwice | src/pages/Products.jsx:80-94 | adding then removing a product restores the list |
| Favorites.RemovedFavorite | src/pages/Products.jsx:83-87 | deleting the rows for (user, product) removes exactly that product from the user's favourites |
| Favorites.AddedFavorite | src/pages/Products.jsx:90-92 | inserting a row adds exactly that product |
| Favorites.ToggleKeepsMirror | src/pages/Products.jsx:80-94 | if the list mirrored the table, it still does after both writes and list updates |
| Favorites.ToggleFavorite | src/pages/Products.jsx:73-102 | without a user nothing happens; the list changes only when the write succeeded, and keeps mirroring the table |
| Favorites.ProductIds | src/pages/Products.jsx:64 | `data.map(fav => fav.product_id)` |
| Favorites.ProductIdsMirror | src/pages/Products.jsx:58-64 | the ids of the user's rows mirror the user's favourites |
| Favorites.FetchFavoriteIds | src/pages/Products.jsx:54-67 | `[]` without a user; on success exactly the user's favourite products |
| Favorites.Listing | src/pages/Wishlist.jsx:32-44 | the product query result as a list, each product once |
| Favorites.Wishlist.constructor | src/pages/Wishlist.jsx:11-13 | empty and loading |
| Favorites.Wishlist.FetchFavoriteDetails | src/pages/Wishlist.jsx:16-54 | empty without a user or favourites; otherwise exactly the user's favourite products |
| Favorites.Wishlist.RemoveFromFavorites | src/pages/Wishlist.jsx:56-76 | on a successful delete the product leaves both the table and the list |
| Favorites.RemovedFromWishlist | src/pages/Wishlist.jsx:62-70 | after removal no listed item and no favourite row is the product |
| Products.SelectsCategory | src/pages/Products.jsx:31-36 | the decimal text of a category id selects exactly the visible products of that category; no parameter selects every visible product |
| Products.ListOf | src/pages/Products.jsx:43 | the query rows as the page's list, in the returned order |
| Products.ProductsPage.constructor | src/pages/Products.jsx:12-15 | empty lists, products loading |
| Products.ProductsPage.FetchProducts | src/pages/Products.jsx:22-47 | on success exactly the selected rows, all visible; on error the list is kept |
| Products.ProductsPage.FetchFavorites | src/pages/Products.jsx:54-67 | `[]` without a user; the user's favourites or the previous list |
| Products.ProductsPage.ToggleFavorite | src/pages/Products.jsx:73-102 | the shared toggle, keeping the list mirrored on the table |
| Cards.CardImage | src/pages/Products.jsx:143-150 | the first stored URL when the parsed value is a non-empty array, else the fallback |
| Cards.CardShowsFirstStoredUrl | src/pages/Wishlist.jsx:146-153 | a stored array or its JSON text shows its first URL; an empty or unparsable one shows the fallback |
| Cards.CardAlt | src/pages/Products.jsx:142 | `image_alts?.[0] \|\| name` |
| Cards.CardAltOfList | src/pages/Wishlist.jsx:145 | a non-empty first alt is shown; an empty one or an empty list shows the name |
| Pricing.PriceJson | src/components/product/EditProductDialog.jsx:132-136 | fixed, by-quantity and by-reason prices are stored with their own fields, and `type` is "fixed" exactly for fixed prices |
| Pricing.CardLabel | src/pages/Products.jsx:176-184 | a fixed price shows its value with "€"; anything else, or a parse failure, shows "variable €" |
| Pricing.ShownPrice | src/pages/Wishlist.jsx:84-92 | a fixed price shows its value, anything else "var" |
| Pricing.FixedPriceRoundTrip | src/components/product/EditProductDialog.jsx:132-133 | a saved fixed price reads back on the cards as its amount |
| Pricing.VariablePriceRoundTrip | src/components/product/EditProductDialog.jsx:134-136 | a saved non-fixed price reads back as variable |
| Pricing.EmptyFixedPriceShowsUndefined | src/pages/Products.jsx:179 | an empty fixed price shows "undefined €" |
| Search.FilterKeepsIncreasing | src/pages/SearchResults.jsx:39-44 | filtering a list in id order keeps it in id order |
| Search.SearchIn | src/pages/SearchResults.jsx:36-48 | no results without a query; otherwise exactly the listed products that match, still in id order |
| Search.Results | src/pages/SearchResults.jsx:36-48 | no results without a query; otherwise exactly the catalogue products whose name, category or description contains it ignoring case, in catalogue order |
| Search.CategoryQueryFindsCategory | src/pages/SearchResults.jsx:39-44 | a query naming a category in any case finds every product of it |
| Search.SearchPage.constructor | src/pages/SearchResults.jsx:31-34 | empty results and favourites |
| Search.SearchPage.RunSearch | src/pages/SearchResults.jsx:36-48 | the results are the search of the query |
| Search.SearchPage.FetchFavorites | src/pages/SearchResults.jsx:50-66 | `[]` without a user; the user's favourites or the previous list |
| Search.SearchPage.ToggleFavorite | src/pages/SearchResults.jsx:68-96 | the shared toggle, keeping the list mirrored on the table |
| Gallery.At | src/components/product/ProductImages.jsx:13 | `list[i]` is missing past the end |
| Gallery.MainPicture | src/components/product/ProductImages.jsx:11-15 | the first image or the fallback picture; the first alt or the product name |
| Gallery.Thumbnails | src/components/product/ProductImages.jsx:18-26 | images 2 to 5, as many as exist up to four, each with its own alt or "<name> - vista <position>" |
| Gallery.Placeholders | src/components/product/ProductImages.jsx:27-35 | with fewer than five images, the cells missing to four, numbered after the thumbnails; none otherwise |
| Gallery.ProductImages | src/components/product/ProductImages.jsx:4-36 | main picture, thumbnails and placeholders, whose cells always number four |
| Gallery.RowOfFour | src/components/product/ProductImages.jsx:18-35 | five images fill the row with no placeholder; one image leaves four placeholders |
| Related.RelatedList | src/components/product/RelatedProducts.jsx:6-7 | nothing exactly when every product is the current one; otherwise 1 to 4 products, none current, all from the input |
| Related.RelatedPosition | src/components/product/RelatedProducts.jsx:6 | a non-current product preceded by fewer than four others is shown, at the place those others give it |
| Related.RelatedSource | src/components/product/RelatedProducts.jsx:6 | every shown product comes from a position of the input with exactly as many others before it |
| Related.RelatedImage | src/components/product/RelatedProducts.jsx:28 | the first URL of a non-empty list, else the fallback |
| Related.RelatedAlt | src/components/product/RelatedProducts.jsx:27 | the first alt of a non-empty list, else the name |
| Routes.ProtectedRoute | src/App.jsx:28-44 | spinner while loading, sign-in page without a user, profile for a non-admin on an admin route; the page exactly for a settled, allowed user |
| Routes.RouteOf | src/App.jsx:65-102 | only the wish list, profile and admin pages are protected, and only the admin pages are admin-only |
| Routes.Render | src/App.jsx:65-102 | a path renders exactly when a route matches it |
| Routes.MemberPagesNeedUser | src/App.jsx:80-89 | the wish list and profile are shown only to a signed-in user |
| Routes.AdminPagesOnlyForAdmin | src/App.jsx:90-99 | the admin pages are shown only to the admin account, and always to it once settled |
| Routes.OldPathsRedirect | src/App.jsx:100-102 | the three old paths redirect, replacing the history entry |
| Routes.RedirectTargetsArePages | src/App.jsx:100-102 | every redirect lands on a page route, never on another redirect |
| Categories.NewCategory | src/components/product/CreateCategoryDialog.jsx:56-66 | the new row's `categoria` and `filter` are the slug of the title, with the given texts and image |
| Categories.Edited | src/components/product/EditCategoryDialog.jsx:67-76 | the edit re-slugs the title and keeps visibility and pinning |
| Categories.SlugStable | src/components/product/EditCategoryDialog.jsx:73-74 | re-saving a title yields the stored slug again |
| Categories.CreateCategoryDialog.constructor | src/components/product/CreateCategoryDialog.jsx:12-19 | empty form at zoom 1 |
| Categories.CreateCategoryDialog.HandleCreate | src/components/product/CreateCategoryDialog.jsx:33-91 | on success the cover is stored, the row inserted, the owner told and the form reset; on failure nothing is inserted |
| Categories.SaveCategory | src/components/product/CreateCategoryDialog.jsx:43-73 | a failed upload inserts nothing; on success the cover is stored under its stamped name and the new row, with a fresh id and the cover's public URL, is added |
| Categories.EditCategoryDialog.constructor | src/components/product/EditCategoryDialog.jsx:13-20 | the form shows the category's title and description |
| Categories.EditCategoryDialog.ShowCategory | src/components/product/EditCategoryDialog.jsx:22-25 | a new category refills the form |
| Categories.EditCategoryDialog.HandleUpdate | src/components/product/EditCategoryDialog.jsx:39-99 | the row is updated, its products renamed, and the owner told; an upload or update failure stops before any change |
| Categories.UploadCover | src/components/product/EditCategoryDialog.jsx:42-65 | without a new image the old URL is kept and storage is untouched; with one, success means the cover is stored and its public URL is used |
| Categories.CoverUrl | src/components/product/EditCategoryDialog.jsx:42-65 | the old image is kept without a new one, else the new upload's public URL |
| Categories.EditedRows | src/components/product/EditCategoryDialog.jsx:67-76 | only the edited category changes |
| Categories.RenamedProducts | src/components/product/EditCategoryDialog.jsx:84-86 | the category's products take the new name; others are untouched |
| Categories.CreateCategoryForm.constructor | src/pages/admin/CreateCategoryForm.jsx:9-10 | empty name, not submitting |
| Categories.CreateCategoryForm.HandleSubmit | src/pages/admin/CreateCategoryForm.jsx:12-31 | a blank name is refused; otherwise the trimmed name is inserted, the field cleared and the row handed over; on error the name stays |
| Categories.CreateCategoryForm.Cancel | src/pages/admin/CreateCategoryForm.jsx:50 | the owner is told nothing was created |
| Categories.NameOnly | src/pages/admin/CreateCategoryForm.jsx:21 | only `categoria` is set |
| Categories.FormNameIsTrimmed | src/pages/admin/CreateCategoryForm.jsx:14-21 | a stored name is non-empty, without surrounding whitespace |
| Text.SlugIsNormal | src/components/product/CreateCategoryDialog.jsx:63-64 | a slug has no whitespace and no upper-case letter |
| Text.SlugIdempotent | src/components/product/CreateCategoryDialog.jsx:63-64 | slugging a slug changes nothing |
| Text.SlugOfSingleWord | src/components/product/CreateCategoryDialog.jsx:63-64 | a title without whitespace slugs to its lower-case form |
| CropDialog.ToDelete | src/components/ui/ImageCropDialog.jsx:63-65 | every listed name but the new one, and only those |
| CropDialog.ImageCropDialog.constructor | src/components/ui/ImageCropDialog.jsx:10-14 | no image, not loading |
| CropDialog.ImageCropDialog.HandleSave | src/components/ui/ImageCropDialog.jsx:28-90 | only the new banner can be added; the owner gets its public URL once it is stored; the dialog closes only after the owner accepted |
| CropDialog.CleanUp | src/components/ui/ImageCropDialog.jsx:55-77 | the new banner stays; a successful listing and removal leave it alone in the bucket |
| EditProduct.SafeDecode | src/components/product/EditProductDialog.jsx:14-20 | the decoded text, or the input when decoding fails |
| EditProduct.SafeParse | src/components/product/EditProductDialog.jsx:22-29 | the decoded items of a parsed array, else `[]` |
| EditProduct.InitialImages | src/components/product/EditProductDialog.jsx:44-57 | one existing entry per stored URL with its alt and text, and a throw for a non-array value |
| EditProduct.EditProductDialog.constructor | src/components/product/EditProductDialog.jsx:32-42 | the form starts from the product's name, description, price fields, specifications and category |
| EditProduct.EditProductDialog.LoadImages | src/components/product/EditProductDialog.jsx:44-57 | the images become the initial entries unless building them throws |
| EditProduct.EditProductDialog.UpdateImage | src/components/product/EditProductDialog.jsx:65-69 | one field of one entry changes |
| EditProduct.EditProductDialog.RemoveImage | src/components/product/EditProductDialog.jsx:75-77 | the entry at that index is dropped |
| EditProduct.EditProductDialog.AddImage | src/components/product/EditProductDialog.jsx:79-95 | a read file is appended as a new entry |
| EditProduct.EditProductDialog.ChooseCategory | src/components/product/EditProductDialog.jsx:174 | choosing a category selects that id |
| EditProduct.EditProductDialog.HandleSave | src/components/product/EditProductDialog.jsx:100-157 | a save needs a category, because `category_id: ''` is refused by the integer column; on success every new image is uploaded under its stamped name and the row is updated with the saved URLs, alts, texts and price; on failure the row is untouched |
| EditProduct.UploadNew | src/components/product/EditProductDialog.jsx:103-130 | the loop uploads exactly the new entries and returns the URL, alt and text arrays |
| EditProduct.SaveEntry | src/components/product/EditProductDialog.jsx:108-129 | an existing entry keeps its URL; a new one is uploaded and gets its public URL |
| EditProduct.SavedUrls | src/components/product/EditProductDialog.jsx:107-130 | existing entries keep their URL, new ones get the stamped public URL |
| EditProduct.LoadedImagesSaveBack | src/components/product/EditProductDialog.jsx:44-57 | saving the loaded images unchanged writes back the stored URLs and uploads nothing |
| EditProduct.LoadedAltsSaveBack | src/components/product/EditProductDialog.jsx:45-49 | loaded non-empty alts are written back unchanged |
| CreateProduct.ProductForm.constructor | src/pages/admin/CreateProduct.jsx:23-39 | one blank row of each list, fixed price, nothing chosen |
| CreateProduct.ProductForm.AddQuantityRow | src/pages/admin/CreateProduct.jsx:52 | a blank tier is appended |
| CreateProduct.ProductForm.RemoveQuantityRow | src/pages/admin/CreateProduct.jsx:53 | the tier at that index is dropped |
| CreateProduct.ProductForm.UpdateQuantityRow | src/pages/admin/CreateProduct.jsx:54-56 | one field of one tier changes |
| CreateProduct.ProductForm.AddReason | src/pages/admin/CreateProduct.jsx:58 | a blank reason is appended |
| CreateProduct.ProductForm.RemoveReason | src/pages/admin/CreateProduct.jsx:59 | the reason at that index is dropped |
| CreateProduct.ProductForm.UpdateReason | src/pages/admin/CreateProduct.jsx:60-62 | one field of one reason changes |
| CreateProduct.ProductForm.AddImageUrl | src/pages/admin/CreateProduct.jsx:65 | as intended (a `type="button"` button): a blank URL, alt and text are appended together, and nothing is submitted |
| CreateProduct.ProductForm.RemoveImageUrl | src/pages/admin/CreateProduct.jsx:66 | as intended (a `type="button"` button): the URL, alt and text at that index are dropped together, and nothing is submitted |
| CreateProduct.ProductForm.ClickAddImageUrl | src/pages/admin/CreateProduct.jsx:196 | as written: the blank row is appended, then a submittable form is submitted, inserting the product as it stood before the click |
| CreateProduct.ProductForm.ClickRemoveImageUrl | src/pages/admin/CreateProduct.jsx:190 | as written: the row is dropped, then a submittable form is submitted without it |
| CreateProduct.ProductForm.ImageChange | src/pages/admin/CreateProduct.jsx:67-71 | only the chosen list changes, at that index |
| CreateProduct.ProductForm.SpecificationChange | src/pages/admin/CreateProduct.jsx:73-75 | one specification changes |
| CreateProduct.ProductForm.AddSpecification | src/pages/admin/CreateProduct.jsx:76 | as intended (a `type="button"` button): a blank specification is appended, and nothing is submitted |
| CreateProduct.ProductForm.RemoveSpecification | src/pages/admin/CreateProduct.jsx:77 | as intended (a `type="button"` button): the specification at that index is dropped, and nothing is submitted |
| CreateProduct.ProductForm.ClickAddSpecification | src/pages/admin/CreateProduct.jsx:213 | as written: the blank specification is appended, then a submittable form is submitted as it stood |
| CreateProduct.ProductForm.ClickRemoveSpecification | src/pages/admin/CreateProduct.jsx:210 | as written: the specification is dropped, then a submittable form is submitted without it |
| CreateProduct.ProductForm.ChooseCategory | src/pages/admin/CreateProduct.jsx:125 | choosing a category selects that id |
| CreateProduct.ProductForm.AddBulletPoint | src/pages/admin/CreateProduct.jsx:79 | a bullet line is appended to the description |
| CreateProduct.ProductForm.HandleSubmit | src/pages/admin/CreateProduct.jsx:82-110 | on success the submission is inserted and the page goes to the dashboard with a "created" toast; success needs a chosen category, because `category_id: ''` is refused by the integer column; on error nothing is inserted |
| CreateProduct.BlankRowsNotSubmitted | src/pages/admin/CreateProduct.jsx:95-99 | a trailing blank image row or blank specification leaves the inserted row unchanged |
| CreateProduct.SubmittedImagesAligned | src/pages/admin/CreateProduct.jsx:95-97 | the kept URLs, alts and texts stay aligned: they are the rows whose URL is non-empty |
| CreateProduct.KeptUrls | src/pages/admin/CreateProduct.jsx:95 | the non-empty URLs are the URLs of the kept rows |
| CreateProduct.KeptAlts | src/pages/admin/CreateProduct.jsx:96 | the alts filtered by URL are the alts of the kept rows |
| CreateProduct.KeptTexts | src/pages/admin/CreateProduct.jsx:97 | the texts filtered by URL are the texts of the kept rows |
| CreateProduct.SubmissionShape | src/pages/admin/CreateProduct.jsx:91-100 | the inserted row holds the name, category, price, filtered images and non-empty specifications |
| CreateProduct.QuantityTiersFiltered | src/pages/admin/CreateProduct.jsx:88 | only tiers with both a quantity and a price are stored |
| CreateProduct.ReasonsFiltered | src/pages/admin/CreateProduct.jsx:89 | only reasons with both a reason and an increment are stored |
| CreateProduct.CreatedFixedPriceShown | src/pages/admin/CreateProduct.jsx:85-86 | a created fixed price shows on the cards as its amount with "€" |
| Popularity.CountFavorites | src/utils/getProductPopularity.js:14-17 | the `forEach` loop builds the count table |
| Popularity.CountTableSpec | src/utils/getProductPopularity.js:14-17 | the count table is in id order, holds positive counts, and gives each product its number of favourite rows |
| Popularity.BumpCounts | src/utils/getProductPopularity.js:16 | one increment raises exactly that product's count by one |
| Popularity.Rank | src/utils/getProductPopularity.js:19-20 | sorting by count is a permutation |
| Popularity.RankOrdered | src/utils/getProductPopularity.js:19-20 | the stable sort orders by count, most first, ties by id |
| Popularity.Top | src/utils/getProductPopularity.js:21 | at most five entries are kept |
| Popularity.TopDominates | src/utils/getProductPopularity.js:19-21 | the kept entries are ordered, come from the table, and none left out has a higher count |
| Popularity.Labelled | src/utils/getProductPopularity.js:35-41 | each entry keeps its count and is named from the products or "Producto ID n" |
| Popularity.LookupAgrees | src/utils/getProductPopularity.js:25-28 | querying only the top ids names them as the whole table would |
| Popularity.RankedCountsAreFavourites | src/utils/getProductPopularity.js:14-21 | every ranked count is the positive number of favourite rows of its product |
| Popularity.LeftOutCountsNoMore | src/utils/getProductPopularity.js:19-21 | a favourited product left out of the ranking has no more favourites than any ranked one |
| Popularity.GetProductPopularity | src/utils/getProductPopularity.js:4-42 | `[]` on a failed query; at most five lines, counts not increasing, each the product's favourite count |
| Admin.FavName | src/pages/AdminDashboard.jsx:128 | the product name when non-empty, else "Sin nombre" |
| Admin.FavoritesOf | src/pages/AdminDashboard.jsx:125-129 | a user's favourites are at most all favourites; the list itself is characterised by Admin.FavoritesAreFiltered as the user's rows in order |
| Admin.FavoritesAreFiltered | src/pages/AdminDashboard.jsx:125-129 | a user's favourite list is the favourite rows of that user, in order |
| Admin.PushMirrors | src/pages/AdminDashboard.jsx:126-128 | one `push` keeps the map equal to the grouping of the rows seen so far |
| Admin.BuildFavMap | src/pages/AdminDashboard.jsx:125-129 | the loop groups the favourites by user, with no empty group |
| Admin.WithFavorites | src/pages/AdminDashboard.jsx:132-136 | one detail per profile |
| Admin.FavoritesCounted | src/pages/AdminDashboard.jsx:134-135 | each user's favourite count is the number of their rows |
| Admin.CsvValues | src/pages/AdminDashboard.jsx:156-163 | six values per user, points and purchases defaulting to 0 |
| Admin.CsvLines | src/pages/AdminDashboard.jsx:154-165 | a header line, then one line per user |
| Admin.CsvLineSplits | src/pages/AdminDashboard.jsx:165 | a line of safe values has no newline and splits on commas into the quoted values |
| Admin.CsvLinesUnbroken | src/pages/AdminDashboard.jsx:165-166 | with safe values no line contains a newline |
| Admin.CsvHeaderSafe | src/pages/AdminDashboard.jsx:155 | no column title contains a comma, a double quote or a newline |
| Admin.CsvRoundTrip | src/pages/AdminDashboard.jsx:153-166 | splitting the file on newlines and commas gives back the quoted header and each user's quoted values |
| Admin.FilteredUsers | src/pages/AdminDashboard.jsx:184-187 | exactly the users whose name or e-mail contains the term, ignoring case |
| Admin.FilteredProducts | src/pages/AdminDashboard.jsx:189-192 | exactly the products whose name or category contains the term |
| Admin.FilteredPurchases | src/pages/AdminDashboard.jsx:194-199 | exactly the purchases whose buyer, e-mail, name or status contains the term |
| Admin.MatchesEmptyTerm | src/pages/AdminDashboard.jsx:185 | the empty term matches a field exactly when it is non-empty |
| Admin.EmptyUserSearch | src/pages/AdminDashboard.jsx:184-187 | an empty search lists the users with a non-empty name or e-mail |
| Admin.PurchaseFoundByName | src/pages/AdminDashboard.jsx:197 | a purchase is found by its own name |
| Admin.BuyerName | src/pages/AdminDashboard.jsx:249 | the profile name, else the part of the e-mail before `@` |
| Admin.BuyerNameFromAddress | src/pages/AdminDashboard.jsx:249 | that part is the address's local part |
| Admin.DeleteListed | src/pages/AdminDashboard.jsx:258-272 | a successful delete removes the row and the listed entry; a failed one changes neither |
| Admin.AdminDashboard.constructor | src/pages/AdminDashboard.jsx:45-65 | empty lists, loading, a blank purchase draft |
| Admin.AdminDashboard.FetchAdminData | src/pages/AdminDashboard.jsx:85-151 | a failed profile or favourite query stops the load; otherwise the users carry their grouped favourites |
| Admin.AdminDashboard.OpenPurchaseDialog | src/pages/AdminDashboard.jsx:203-212 | the draft takes the chosen user's e-mail, or is blank |
| Admin.AdminDashboard.HandleCreatePurchase | src/pages/AdminDashboard.jsx:213-256 | a purchase needs an e-mail and a name; its buyer is the chosen user or the profile with that e-mail; on success it heads the list |
| Admin.InsertPurchase | src/pages/AdminDashboard.jsx:240-249 | a stored purchase is listed with its buyer's name; a failed insert stores nothing |
| Admin.AdminDashboard.HandleDeletePurchase | src/pages/AdminDashboard.jsx:258-272 | the row and listed purchase go together, or neither |
| Admin.AdminDashboard.OpenEditPurchase | src/pages/AdminDashboard.jsx:687-688 | the edit dialog opens on that purchase |
| Admin.AdminDashboard.EditDraftField | src/pages/AdminDashboard.jsx:873-888 | one field of the new-purchase draft takes the typed value, the e-mail as a present text |
| Admin.AdminDashboard.EditPurchaseField | src/pages/AdminDashboard.jsx:924-938 | one field of the draft changes |
| Admin.AdminDashboard.HandleEditPurchase | src/pages/AdminDashboard.jsx:273-295 | on success the row's name, description and status and the listed purchase take the draft's values |
| Admin.AdminDashboard.HandleDeleteProduct | src/pages/AdminDashboard.jsx:299-313 | the row and listed product go together, or neither |
| Admin.AdminDashboard.HandleDeleteReview | src/pages/AdminDashboard.jsx:317-331 | the row and listed review go together, or neither |
| Admin.AdminDashboard.HandleDeleteCategory | src/pages/AdminDashboard.jsx:357-367 | the row and listed category go together, or neither |
| Admin.HandleToggleVisible | src/pages/AdminDashboard.jsx:338-346 | the category's visibility flips and its products follow; a failed update changes nothing |
| Admin.VisibilityPropagated | src/pages/AdminDashboard.jsx:340-342 | after the toggle the category and all its products share the new visibility, other products untouched |
| Admin.UpdatedProducts | src/pages/AdminDashboard.jsx:342 | the product table keeps its keys |
| Admin.HandleTogglePinned | src/pages/AdminDashboard.jsx:348-355 | the category's pinning flips when the update succeeded |
| Lists.WithoutId | src/pages/AdminDashboard.jsx:268 | `filter(p => p.id !== id)`: the entries without that id, all kept ones from the list |
| Lists.WithoutIdRemovesOne | src/pages/AdminDashboard.jsx:268 | with distinct ids, deleting a listed id shortens the list by one |
| Lists.ReplaceId | src/pages/AdminDashboard.jsx:289 | the mapped list keeps its length and ids |
| Lists.ReplaceIdPlaces | src/pages/AdminDashboard.jsx:289 | the entry with the edited id becomes the edit |
| Lists.ReplaceThenDelete | src/pages/AdminDashboard.jsx:289 | editing then deleting a purchase is the same as deleting it |

## Left out

- Browser and Deno runtime: HTML markup, styles, animations, toasts' wording (beyond the few modelled), CORS headers except the preflight reply, console logging and `setTimeout` delays are not modelled.
- `Promise.all` fan-outs are sequential in the model. The review uploads stop at the first failure. The dashboard's three final queries each run, and a failed one reads as `[]`. Concurrency and interleaving are not modelled.
- Image cropping, compression and `FileReader` are one step that may fail (`processed`, `compressed`, `cropOk`); pixels, sizes and formats are not modelled.
- The clock is a parameter (an integer, or a function of the loop index where `Date.now()` is called once per image); real time is not modelled.
- React effect scheduling and re-rendering are not modelled: each effect or handler is one method call, and the reloads after a write (`fetchAdminData`, `refreshReviews`, `onSuccess`) are messages to an outbox or a separate call.
- Query ordering (`order('created_at')`, `order('fijada')`) is not modelled: query results arrive in the order the store returns them.
- Joined columns (`categorias (categoria)`, `products(name)`, `profiles(name)`) are given as inputs instead of being computed by a join.
- Column defaults of the database other than `visible` and `fijada` are not modelled.
- `listUsers` paging in the password reset is not modelled: the directory is listed in one call.
- CreateProduct.ProductForm.ClickAddImageUrl, ClickRemoveImageUrl, ClickAddSpecification and ClickRemoveSpecification: React's update scheduling is not modelled; the list edit is taken to be rendered before the submit handler reads the form.
- The Resend `error` field and the mail HTML are not modelled: a send either succeeds or throws.
- Text.ToLower: `toLowerCase` is modelled for ASCII and Latin-1 letters only; other scripts are left unchanged.
- JSON values: numbers are integers; floating-point prices are not modelled.
- Json.Index: object keys that look like indices are not modelled; indexing an object gives nothing.
- Products.Selects: PostgREST's cast of the `category_id` text to an integer (leading zeros, a non-numeric value raising an error) is not modelled; the parameter selects a category when it is that id's decimal text.
- Related.RelatedList: ids are compared as integers; strict inequality between a string id and a number id is not modelled.
- Gallery.ProductImages: the `images` and `alts` props are assumed to be arrays.
- Search.Results: the catalogue's prices and image descriptions are shown only and are left out; the toast's product name is not modelled.
- Routes.RouteOf: paths are matched exactly; React Router's case-insensitive matching, trailing slashes and `ScrollToTop` are not modelled.
- EditProduct.EditProductDialog.constructor: an empty `category_id` is modelled as no category, and a non-text `price.type` takes the by-reason branch; the crop position and zoom of each image are not modelled.
- EditProduct: the categories list loaded for the select box and the tier and reason editors of the dialog are not modelled (the creation form's editors are).
- CreateProduct.ProductForm.HandleSubmit: the browser's `required` field validation is modelled as the `Submittable` condition; the categories list for the select box is not modelled.
- Admin.AdminDashboard.FetchAdminData: ids are never falsy (the `favMap[id] \|\| []` fallback is by key presence); the products' `category` search field is the product row's own `category` property, kept apart from the joined `categorias(categoria)` name the table shows; nothing ties the two.
- Admin.AdminDashboard.HandleEditPurchase: the list update `{...p, ...editPurchaseData}` is modelled as replacing the entry by the draft.
- Popularity.GetProductPopularity: product ids are integers in the count table; JavaScript's ordering of object keys (integer-like keys ascending) is modelled as ascending id order, and the logging of errors is left out.
- Profile: the favourites, products and purchases lists loaded for display, the password change and the profile edit form are not modelled.

## Findings

| source | as written | input that shows it | evidently intended | confidence | as-written member | corrected member |
|---|---|---|---|---|---|---|
| supabase/functions/reset-password-from-token/index.ts:52-53 | `listUsers()` resolves `data` to a page object `{ users, … }`, and `users.find` on that object throws, so every valid request with a live token gets 500 "Error inesperado" | a live unused token, a new password of 6 characters, and a user with the token's e-mail | look the owner up in `data.users` | not executed; relies on the supabase-js v2 result shape | PasswordReset.ResetAsWritten | PasswordReset.Reset |
| src/pages/admin/CreateProduct.jsx:196 | the "Añadir URL" button has no `type` and sits inside the form, so a click also submits the form | a name and a fixed price filled in, then a click on "Añadir URL" | `type="button"`: only the blank row is added | not executed; assumes the Button renders a plain `<button>` with its props | CreateProduct.ProductForm.ClickAddImageUrl | CreateProduct.ProductForm.AddImageUrl |
| src/pages/admin/CreateProduct.jsx:190 | an image row's remove button has no `type`, so a click also submits the form | two image rows, a name and a fixed price, then a click on the first row's remove button | `type="button"`: only the row is removed | not executed; assumes the Button renders a plain `<button>` with its props | CreateProduct.ProductForm.ClickRemoveImageUrl | CreateProduct.ProductForm.RemoveImageUrl |
| src/pages/admin/CreateProduct.jsx:213 | the specifications' "Añadir" button has no `type`, so a click also submits the form | a name and a fixed price filled in, then a click on "Añadir" under the specifications | `type="button"`: only the blank specification is added | not executed; assumes the Button renders a plain `<button>` with its props | CreateProduct.ProductForm.ClickAddSpecification | CreateProduct.ProductForm.AddSpecification |
| src/pages/admin/CreateProduct.jsx:210 | a specification's remove button has no `type`, so a click also submits the form | two specifications, a name and a fixed price, then a click on the first specification's remove button | `type="button"`: only the specification is removed | not executed; assumes the Button renders a plain `<button>` with its props | CreateProduct.ProductForm.ClickRemoveSpecification | CreateProduct.ProductForm.RemoveSpecification |
