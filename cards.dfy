/**
 * The picture on a product card.  The product list and the favourites list both
 * take the first URL of `image_urls` (parsing it first when the column holds JSON
 * text) and fall back to a fixed value; the alt text is the first entry of
 * `image_alts`, or the product name.
 */
module Cards {
  import opened Wrappers
  import opened Json

  /** The product list's image when there is none: the empty text. */
  const NoImage := JStr("")

  /** The favourites list's image when there is none. */
  const WishlistImage := JStr("https://images.unsplash.com/photo-1598020856638-cbc3b47bbada")

  /** The stored URL list, parsed when it is text: the array it holds, if it is one. */
  predicate HasFirstUrl(rt: Runtime, urls: Json) {
    Coerce(rt, urls).Returned? && Coerce(rt, urls).value.JArr? && Coerce(rt, urls).value.items != []
  }

  /** The card's `src`: `Array.isArray(urls) && urls.length > 0 ? urls[0] : fallback`,
      and the fallback when parsing throws. */
  function CardImage(rt: Runtime, urls: Json, fallback: Json): (src: Json)
    ensures HasFirstUrl(rt, urls) ==> src == Coerce(rt, urls).value.items[0]
    ensures !HasFirstUrl(rt, urls) ==> src == fallback
  {
    match Coerce(rt, urls)
    case Threw => fallback
    case Returned(parsed) => if parsed.JArr? && |parsed.items| > 0 then parsed.items[0] else fallback
  }

  /** A product saved with its URL list, as an array or as the JSON text of one, shows
      the first URL; an empty list shows the fallback. */
  lemma CardShowsFirstStoredUrl(rt: Runtime, urls: seq<Json>, text: string, fallback: Json)
    ensures urls != [] ==> CardImage(rt, JArr(urls), fallback) == urls[0]
    ensures urls != [] && rt.parseJson(text) == Some(JArr(urls)) ==> CardImage(rt, JStr(text), fallback) == urls[0]
    ensures CardImage(rt, JArr([]), fallback) == fallback
    ensures rt.parseJson(text).None? ==> CardImage(rt, JStr(text), fallback) == fallback
  {
  }

  /** The card's `alt`: `image_alts?.[0] || name`. */
  function CardAlt(alts: Json, name: string): (alt: Json)
    ensures TruthyField(Index(Some(alts), 0)) ==> Some(alt) == Index(Some(alts), 0)
    ensures !TruthyField(Index(Some(alts), 0)) ==> alt == JStr(name)
  {
    Or(Index(Some(alts), 0), Some(JStr(name))).value
  }

  /** A stored alt list whose first entry is a non-empty text shows that text; an
      empty list, or an empty first entry, shows the product name. */
  lemma CardAltOfList(first: string, rest: seq<Json>, name: string)
    ensures first != "" ==> CardAlt(JArr([JStr(first)] + rest), name) == JStr(first)
    ensures CardAlt(JArr([JStr("")] + rest), name) == JStr(name)
    ensures CardAlt(JArr([]), name) == JStr(name)
  {
  }
}
