/**
 * The "you may also like" strip: up to four products other than the one shown,
 * in the order given, or nothing at all when no other product exists.
 */
module Related {
  import opened Wrappers
  import opened Json
  import opened Rows
  import opened Lists
  import Seqs

  const ImageFallback := "https://images.unsplash.com/photo-1635865165118-917ed9e20936"

  /** The products other than the current one: `p.id !== currentProductId`. */
  function NotCurrent(current: int): Listed<ProductRow> -> bool {
    (p: Listed<ProductRow>) => p.id != current
  }

  /** `allProducts.filter(p => p.id !== currentProductId).slice(0, 4)`, and None for
      the `null` the component renders when that list is empty. */
  function RelatedList(current: int, all: seq<Listed<ProductRow>>): (related: Option<seq<Listed<ProductRow>>>)
    ensures related.None? <==> forall i :: 0 <= i < |all| ==> all[i].id == current
    ensures related.Some? ==> 1 <= |related.value| <= 4
    ensures related.Some? ==> forall i :: 0 <= i < |related.value| ==> related.value[i].id != current && related.value[i] in all
  {
    var others := Seqs.Filter(all, NotCurrent(current));
    if others == [] then None
    else
      assert others[0].id != current;
      Some(Seqs.Take(others, 4))
  }

  /** The product at position `j` is shown exactly when it is not the current one and
      fewer than four other products precede it, and then it is shown in the place
      given by those predecessors. */
  lemma {:induction false} RelatedPosition(current: int, all: seq<Listed<ProductRow>>, j: nat)
    requires j < |all| && all[j].id != current
    requires Seqs.CountBefore(all, NotCurrent(current), j) < 4
    ensures RelatedList(current, all).Some?
    ensures Seqs.CountBefore(all, NotCurrent(current), j) < |RelatedList(current, all).value|
    ensures RelatedList(current, all).value[Seqs.CountBefore(all, NotCurrent(current), j)] == all[j]
  {
    Seqs.FilterPosition(all, NotCurrent(current), j);
  }

  /** Each shown product is one at a position of the input that is not the current one
      and is preceded there by exactly as many other products as it is in the strip. */
  lemma {:induction false} RelatedSource(current: int, all: seq<Listed<ProductRow>>, k: nat)
    requires RelatedList(current, all).Some? && k < |RelatedList(current, all).value|
    ensures exists j :: (0 <= j < |all| && all[j].id != current
      && Seqs.CountBefore(all, NotCurrent(current), j) == k && RelatedList(current, all).value[k] == all[j])
  {
    Seqs.FilterSource(all, NotCurrent(current), k);
  }

  /** A card's `src`: the first entry of `image_urls` when it is a non-empty array or
      text, else the fallback. */
  function RelatedImage(p: ProductRow): (src: Json)
    ensures NonEmptyList(p.imageUrls) ==> Some(src) == Index(Some(p.imageUrls), 0)
    ensures !NonEmptyList(p.imageUrls) ==> src == JStr(ImageFallback)
  {
    if NonEmptyList(p.imageUrls) then Index(Some(p.imageUrls), 0).value else JStr(ImageFallback)
  }

  /** A card's `alt`: the first entry of `image_alts` when it is a non-empty array or
      text, else the product name. */
  function RelatedAlt(p: ProductRow): (alt: Json)
    ensures NonEmptyList(p.imageAlts) ==> Some(alt) == Index(Some(p.imageAlts), 0)
    ensures !NonEmptyList(p.imageAlts) ==> alt == JStr(p.name)
  {
    if NonEmptyList(p.imageAlts) then Index(Some(p.imageAlts), 0).value else JStr(p.name)
  }
}
