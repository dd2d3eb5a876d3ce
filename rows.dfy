/**
 * The rows of the backend tables the storefront reads and writes, and the
 * bodies of the requests it sends to its edge functions.  Nullable columns are
 * `Option`s; columns the code reads either as JSON text or as an already
 * parsed value are `Json`.  Row ids are the keys of `Store.Table`.
 */
module Rows {
  import opened Wrappers
  import opened Json

  /** The signed-in user as the auth context provides it. */
  datatype SessionUser = SessionUser(id: int, email: string, metaName: Option<string>, metaPhone: Option<string>)

  /** `profiles`, keyed by the user id. */
  datatype ProfileRow = ProfileRow(
    email: string,
    name: Option<string>,
    phone: Option<string>,
    points: Option<int>,
    level: Option<int>)

  /** `reviews`. */
  datatype ReviewRow = ReviewRow(
    userId: int,
    productId: int,
    content: string,
    rating: int,
    imageUrls: Json)

  /** `password_reset_tokens`; `expiresAt` is in milliseconds since the epoch. */
  datatype TokenRow = TokenRow(token: string, email: string, used: bool, expiresAt: int)

  /** `categorias`. */
  datatype CategoryRow = CategoryRow(
    title: Option<string>,
    description: Option<string>,
    imageUrl: Option<string>,
    categoria: string,
    filter: Option<string>,
    visible: bool,
    pinned: bool)

  /** `products`. */
  datatype ProductRow = ProductRow(
    name: string,
    categoryId: Option<int>,
    categoryName: Option<string>,
    price: Json,
    imageUrls: Json,
    imageAlts: Json,
    imageTexts: Json,
    fullDescription: string,
    specifications: seq<string>,
    visible: bool)

  /** `purchases`: an order the admin records for a customer and moves through its statuses. */
  datatype PurchaseRow = PurchaseRow(userId: int, userEmail: string, name: string, description: string, status: string)

  /** `favorites`. */
  datatype FavoriteRow = FavoriteRow(userId: int, productId: int)

  /** The JSON body the pages post to the points-update function (fields may be absent). */
  datatype ChangeRequest = ChangeRequest(
    email: Option<string>,
    name: Option<string>,
    points: Option<int>,
    changeType: Option<string>,
    level: Option<int>)
}
