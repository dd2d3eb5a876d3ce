/**
 * The product page's picture gallery: one main picture and a row of four cells,
 * holding the second to fifth images and placeholders for the missing ones.
 */
module Gallery {
  import opened Wrappers
  import opened Json
  import Text
  import Seqs

  const MainFallback := "https://images.unsplash.com/photo-1635865165118-917ed9e20936"
  const PlaceholderImage := "https://images.unsplash.com/photo-1549675613-fdbe1223679b"

  /** The `name` prop when it is not given. */
  const DefaultName := "Producto"

  /** An `<img>`: its `src` and `alt` values. */
  datatype Picture = Picture(src: Json, alt: Json)

  datatype Gallery = Gallery(main: Picture, thumbnails: seq<Picture>, placeholders: seq<Picture>)

  /** `list[i]` on an array prop: missing past the end. */
  function At(list: seq<Json>, i: nat): (v: Option<Json>)
    ensures v == if i < |list| then Some(list[i]) else None
  {
    Index(Some(JArr(list)), i)
  }

  /** The number of thumbnails: `images.slice(1, 5).length`. */
  function ThumbnailCount(n: nat): nat {
    if n <= 1 then 0 else if n - 1 <= 4 then n - 1 else 4
  }

  /** The main `<img>`: `images[0] || fallback` and `alts[0] || name`. */
  function MainPicture(images: seq<Json>, alts: seq<Json>, shownName: string): (pic: Picture)
    ensures pic.src == if TruthyField(At(images, 0)) then images[0] else JStr(MainFallback)
    ensures pic.alt == if TruthyField(At(alts, 0)) then alts[0] else JStr(shownName)
  {
    Picture(Or(At(images, 0), Some(JStr(MainFallback))).value, Or(At(alts, 0), Some(JStr(shownName))).value)
  }

  /** `images.slice(1, 5).map(...)`: images 1 to 4, each with its own alt or
      "<name> - vista <position>". */
  function Thumbnails(images: seq<Json>, alts: seq<Json>, shownName: string): (row: seq<Picture>)
    ensures |row| == ThumbnailCount(|images|)
    ensures forall i :: 0 <= i < |row| ==> row[i].src == images[i + 1]
    ensures forall i :: 0 <= i < |row| ==>
      row[i].alt ==
        if TruthyField(At(alts, i + 1)) then alts[i + 1]
        else JStr(shownName + " - vista " + Text.IntToString(i + 2))
  {
    var slice := Seqs.Slice(images, 1, 5);
    seq(|slice|, i requires 0 <= i < |slice| =>
      Picture(slice[i], Or(At(alts, i + 1), Some(JStr(shownName + " - vista " + Text.IntToString(i + 2)))).value))
  }

  /** `images.length < 5 && Array(4 - shown).fill(0).map(...)`: the placeholders after
      `shown` thumbnails, numbered from `shown + 1`. */
  function Placeholders(imageCount: nat, shown: nat): (cells: seq<Picture>)
    requires shown <= 4
    ensures imageCount < 5 ==> |cells| == 4 - shown
    ensures imageCount >= 5 ==> cells == []
    ensures forall k :: 0 <= k < |cells| ==>
      cells[k] == Picture(JStr(PlaceholderImage), JStr("Imagen de producto " + Text.IntToString(k + shown + 1)))
  {
    if imageCount < 5 then
      seq(4 - shown, k requires 0 <= k < 4 - shown =>
        Picture(JStr(PlaceholderImage), JStr("Imagen de producto " + Text.IntToString(k + shown + 1))))
    else []
  }

  /** `ProductImages({ images = [], alts = [], name = "Producto" })`; a missing `name`
      is `None`.  The row always has four cells. */
  function ProductImages(images: seq<Json>, alts: seq<Json>, name: Option<string>): (g: Gallery)
    ensures g.main == MainPicture(images, alts, name.GetOr(DefaultName))
    ensures g.thumbnails == Thumbnails(images, alts, name.GetOr(DefaultName))
    ensures g.placeholders == Placeholders(|images|, |g.thumbnails|)
    ensures |g.thumbnails| + |g.placeholders| == 4
  {
    var shownName := name.GetOr(DefaultName);
    var thumbnails := Thumbnails(images, alts, shownName);
    Gallery(MainPicture(images, alts, shownName), thumbnails, Placeholders(|images|, |thumbnails|))
  }

  /** With five images or more the row shows images 1 to 4 and no placeholder; with at
      most one image it shows four placeholders. */
  lemma RowOfFour(images: seq<Json>, alts: seq<Json>, name: Option<string>)
    ensures |images| >= 5 ==>
      ProductImages(images, alts, name).placeholders == []
      && forall i :: 0 <= i < 4 ==> ProductImages(images, alts, name).thumbnails[i].src == images[i + 1]
    ensures |images| <= 1 ==>
      ProductImages(images, alts, name).thumbnails == [] && |ProductImages(images, alts, name).placeholders| == 4
  {
  }
}
