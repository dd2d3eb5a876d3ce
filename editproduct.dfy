/**
 * The product edit dialog.  It loads the product's images as a list of
 * entries (stored URL, alt text, caption), lets the administrator edit, remove
 * and add entries, and on saving uploads every new entry, then writes the
 * three parallel arrays, the other fields and the rebuilt price to the
 * product row.  Cropping and compressing one entry is a step that may fail
 * (`cropOk`); `Date.now()` at entry `i` is `clock(i)`.
 */
module EditProduct {
  import opened Wrappers
  import opened Json
  import Text
  import Seqs
  import Store
  import Rows
  import Pricing

  const ProductBucket: string := "productos"

  /** One entry of the image list; `existing` marks a URL that is already stored. */
  datatype ImageEntry = ImageEntry(src: Json, alt: Json, text: Json, existing: bool)

  datatype ImageField = AltField | TextField

  /** The calls the dialog makes to its owner: `onUpdated()` and `onOpenChange(open)`. */
  datatype Notice = Updated | OpenChange(open: bool)

  /** `safeDecode`: `decodeURIComponent` of the value's text, or the value itself when that throws. */
  function SafeDecode(rt: Runtime, v: Json): (r: Json)
    ensures rt.decodeUri(RenderValue(v)).Some? ==> r == JStr(rt.decodeUri(RenderValue(v)).value)
    ensures rt.decodeUri(RenderValue(v)).None? ==> r == v
  {
    match rt.decodeUri(RenderValue(v))
    case Some(decoded) => JStr(decoded)
    case None => v
  }

  /** `safeParse`: the elements of a stored array (or of the array a stored text parses to),
      each decoded; nothing for a text that does not parse or a value that is no array. */
  function SafeParse(rt: Runtime, input: Json): (r: seq<Json>)
    ensures Coerce(rt, input).Returned? && Coerce(rt, input).value.JArr? ==>
      |r| == |Coerce(rt, input).value.items|
      && forall i :: 0 <= i < |r| ==> r[i] == SafeDecode(rt, Coerce(rt, input).value.items[i])
    ensures !(Coerce(rt, input).Returned? && Coerce(rt, input).value.JArr?) ==> r == []
  {
    match Coerce(rt, input)
    case Threw => []
    case Returned(parsed) =>
      if parsed.JArr? then seq(|parsed.items|, i requires 0 <= i < |parsed.items| => SafeDecode(rt, parsed.items[i]))
      else []
  }

  /** `s[i]`, missing past the end. */
  function At(s: seq<Json>, i: nat): Option<Json> {
    if i < |s| then Some(s[i]) else None
  }

  /** `v || ''`. */
  function OrEmpty(v: Option<Json>): Json {
    if TruthyField(v) then v.value else JStr("")
  }

  /** The loading effect: `(image_urls || []).map(...)`, which throws for a truthy column that
      is not an array; alt text and caption come from the same index of the parsed columns. */
  function InitialImages(rt: Runtime, product: Rows.ProductRow): (r: Attempt<seq<ImageEntry>>)
    ensures r.Returned? <==> product.imageUrls.JArr? || !Truthy(product.imageUrls)
    ensures r.Returned? ==> |r.value| == |ArrayItems(product.imageUrls)|
    ensures r.Returned? ==> forall i :: 0 <= i < |r.value| ==>
      r.value[i].src == ArrayItems(product.imageUrls)[i] && r.value[i].existing
      && r.value[i].alt == OrEmpty(At(SafeParse(rt, product.imageAlts), i))
      && r.value[i].text == OrEmpty(At(SafeParse(rt, product.imageTexts), i))
  {
    if product.imageUrls.JArr? || !Truthy(product.imageUrls) then
      var urls := ArrayItems(product.imageUrls);
      var alts := SafeParse(rt, product.imageAlts);
      var texts := SafeParse(rt, product.imageTexts);
      Returned(seq(|urls|, i requires 0 <= i < |urls| =>
        ImageEntry(urls[i], OrEmpty(At(alts, i)), OrEmpty(At(texts, i)), true)))
    else Threw
  }

  /** `producto-${Date.now()}-${i}.webp`. */
  function ProductImageName(stamp: int, i: nat): string {
    "producto-" + Text.IntToString(stamp) + "-" + Text.IntToString(i) + ".webp"
  }

  /** The URL saved for entry `i`: its own for a stored entry, the public URL of its upload otherwise. */
  function SavedUrl(entry: ImageEntry, i: nat, base: string, clock: nat -> int): Json {
    if entry.existing then entry.src
    else JStr(Store.PublicUrl(base, ProductBucket, ProductImageName(clock(i), i)))
  }

  /** The saved `image_urls`: one URL per entry, in order. */
  function SavedUrls(images: seq<ImageEntry>, base: string, clock: nat -> int): (r: seq<Json>)
    ensures |r| == |images|
    ensures forall i :: 0 <= i < |images| && images[i].existing ==> r[i] == images[i].src
    ensures forall i :: 0 <= i < |images| && !images[i].existing ==>
      r[i] == JStr(Store.PublicUrl(base, ProductBucket, ProductImageName(clock(i), i)))
  {
    seq(|images|, i requires 0 <= i < |images| => SavedUrl(images[i], i, base, clock))
  }

  /** The saved `image_alts`: each entry's alt text, in order. */
  function Alts(images: seq<ImageEntry>): (r: seq<Json>)
    ensures |r| == |images| && forall i :: 0 <= i < |images| ==> r[i] == images[i].alt
  {
    seq(|images|, i requires 0 <= i < |images| => images[i].alt)
  }

  /** The saved `image_texts`: each entry's caption, in order. */
  function Texts(images: seq<ImageEntry>): (r: seq<Json>)
    ensures |r| == |images| && forall i :: 0 <= i < |images| ==> r[i] == images[i].text
  {
    seq(|images|, i requires 0 <= i < |images| => images[i].text)
  }

  /** The object names uploaded for the new entries among the first `n`. */
  function NewNames(images: seq<ImageEntry>, clock: nat -> int, n: nat): set<string>
    requires n <= |images|
  {
    if n == 0 then {}
    else NewNames(images, clock, n - 1) + (if images[n - 1].existing then {} else {ProductImageName(clock(n - 1), n - 1)})
  }

  /** No name is made when every entry is already stored. */
  lemma {:induction false} NoNewNames(images: seq<ImageEntry>, clock: nat -> int, n: nat)
    requires n <= |images|
    requires forall i :: 0 <= i < n ==> images[i].existing
    ensures NewNames(images, clock, n) == {}
  {
    if n > 0 {
      NoNewNames(images, clock, n - 1);
    }
  }

  lemma {:induction false} NewNamesGrow(images: seq<ImageEntry>, clock: nat -> int, n: nat, m: nat)
    requires n <= m <= |images|
    ensures NewNames(images, clock, n) <= NewNames(images, clock, m)
    decreases m - n
  {
    if n < m {
      NewNamesGrow(images, clock, n, m - 1);
    }
  }

  /** The row as the update writes it. */
  function EditedRow(row: Rows.ProductRow, name: string, description: string, urls: seq<Json>,
                     alts: seq<Json>, texts: seq<Json>, specifications: seq<string>, price: Json,
                     category: Option<int>): Rows.ProductRow
  {
    row.(name := name, fullDescription := description, imageUrls := JArr(urls), imageAlts := JArr(alts),
         imageTexts := JArr(texts), specifications := specifications, price := price, categoryId := category)
  }

  /** `product.price?.type || 'fixed'`; a type that is truthy but not text is compared as
      neither `fixed` nor `byQuantity`, so it is kept as `byReason`. */
  function InitialPriceType(price: Json): string {
    var t := Get(Some(price), "type");
    if !TruthyField(t) then Pricing.FixedType
    else if t.value.JStr? then t.value.s
    else Pricing.ReasonType
  }

  const BlankTier: Json := JObj(map["quantity" := JStr(""), "price" := JStr("")])
  const BlankReason: Json := JObj(map["reason" := JStr(""), "increment" := JStr("")])

  class EditProductDialog {
    const productId: int
    var images: seq<ImageEntry>
    var name: string
    var description: string
    var priceType: string
    var fixedPrice: Json
    var quantityPrices: Json
    var reasons: Json
    var specifications: seq<string>
    var selectedCategory: Option<int>
    var isLoading: bool

    /** The initial form state, read from the product once. */
    constructor (id: int, product: Rows.ProductRow)
      ensures productId == id && images == [] && !isLoading
      ensures name == product.name && description == product.fullDescription
      ensures priceType == InitialPriceType(product.price)
      ensures fixedPrice == OrEmpty(Or(Get(Some(product.price), "value"), Get(Some(product.price), "base")))
      ensures quantityPrices == Or(Get(Some(product.price), "tiers"), Some(JArr([BlankTier]))).value
      ensures reasons == Or(Get(Some(product.price), "reasons"), Some(JArr([BlankReason]))).value
      ensures specifications == product.specifications
      ensures selectedCategory == if product.categoryId == Some(0) then None else product.categoryId
    {
      productId := id;
      images := [];
      name := product.name;
      description := product.fullDescription;
      priceType := InitialPriceType(product.price);
      fixedPrice := OrEmpty(Or(Get(Some(product.price), "value"), Get(Some(product.price), "base")));
      quantityPrices := Or(Get(Some(product.price), "tiers"), Some(JArr([BlankTier]))).value;
      reasons := Or(Get(Some(product.price), "reasons"), Some(JArr([BlankReason]))).value;
      specifications := product.specifications;
      selectedCategory := if product.categoryId == Some(0) then None else product.categoryId;
      isLoading := false;
    }

    /** The loading effect; when it throws the list is left as it was. */
    method LoadImages(rt: Runtime, product: Rows.ProductRow) returns (crashed: bool)
      modifies this`images
      ensures crashed <==> InitialImages(rt, product).Threw?
      ensures images == if crashed then old(images) else InitialImages(rt, product).value
    {
      var loaded := InitialImages(rt, product);
      crashed := loaded.Threw?;
      if !crashed {
        images := loaded.value;
      }
    }

    /** `updateImage` for the alt text or the caption of one entry. */
    method UpdateImage(idx: int, field: ImageField, value: string)
      requires 0 <= idx < |images|
      modifies this`images
      ensures |images| == |old(images)|
      ensures images[idx] == if field == AltField then old(images)[idx].(alt := JStr(value))
                             else old(images)[idx].(text := JStr(value))
      ensures forall i :: 0 <= i < |images| && i != idx ==> images[i] == old(images)[i]
    {
      var entry := images[idx];
      var updated := if field == AltField then entry.(alt := JStr(value)) else entry.(text := JStr(value));
      images := images[idx := updated];
    }

    /** `removeImage`: the entry at `idx` goes, the others keep their order. */
    method RemoveImage(idx: int)
      modifies this`images
      ensures images == Seqs.RemoveAt(old(images), idx)
    {
      images := Seqs.RemoveAt(images, idx);
    }

    /** `handleImageAdd`: the chosen file, read as a data URL, becomes a new entry at the end. */
    method AddImage(dataUrl: Option<string>)
      modifies this`images
      ensures images == if dataUrl.None? then old(images)
                        else old(images) + [ImageEntry(JStr(dataUrl.value), JStr(""), JStr(""), false)]
    {
      if dataUrl.Some? {
        images := images + [ImageEntry(JStr(dataUrl.value), JStr(""), JStr(""), false)];
      }
    }

    /** The category select: `setSelectedCategory(String(c.id))`, read back as that id. */
    method ChooseCategory(id: int)
      modifies this`selectedCategory
      ensures selectedCategory == Some(id)
    {
      selectedCategory := Some(id);
    }

    /** `handleSave`.  Returns whether the product row was updated.  Without a category the
        update carries `category_id: ''`, which the integer column refuses: the update fails
        after the uploads, and the row stays as it was. */
    method HandleSave(clock: nat -> int, cropOk: nat -> bool, storage: Store.Storage,
                      products: Store.Table<Rows.ProductRow>, owner: Store.Outbox<Notice>)
      returns (saved: bool)
      requires products.Valid()
      modifies this`isLoading, storage, products, owner
      ensures !isLoading && products.Valid()
      ensures forall b :: b != ProductBucket ==> storage.Objects(b) == old(storage.Objects(b))
      ensures old(storage.Objects(ProductBucket)) <= storage.Objects(ProductBucket)
      ensures storage.Objects(ProductBucket) <= old(storage.Objects(ProductBucket)) + NewNames(images, clock, |images|)
      ensures saved ==> storage.Objects(ProductBucket) == old(storage.Objects(ProductBucket)) + NewNames(images, clock, |images|)
      ensures saved ==> selectedCategory.Some?
      ensures saved ==> forall i :: 0 <= i < |images| && !images[i].existing ==> cropOk(i)
      ensures saved ==> products.rows == if productId !in old(products.rows) then old(products.rows)
        else old(products.rows)[productId := EditedRow(old(products.rows)[productId], name, description,
          SavedUrls(images, storage.base, clock), Alts(images), Texts(images), specifications,
          Pricing.PriceJson(priceType, fixedPrice, quantityPrices, reasons), selectedCategory)]
      ensures saved ==> (owner.sent == old(owner.sent) || owner.sent == old(owner.sent) + [Updated]
        || owner.sent == old(owner.sent) + [Updated, OpenChange(false)])
      ensures !saved ==> products.rows == old(products.rows) && owner.sent == old(owner.sent)
    {
      isLoading := true;
      saved := false;
      var arrays := UploadNew(images, clock, cropOk, storage);
      if arrays.Some? {
        var (urls, alts, texts) := arrays.value;
        var price := Pricing.PriceJson(priceType, fixedPrice, quantityPrices, reasons);
        var n, d, specs, category := name, description, specifications, selectedCategory;
        if category.Some? {
          saved := products.UpdateKey(productId, row => EditedRow(row, n, d, urls, alts, texts, specs, price, category));
        }
        if saved {
          var notified := owner.Send(Updated);
          if notified {
            var _ := owner.Send(OpenChange(false));
          }
        }
      }
      isLoading := false;
    }
  }

  /** The loop of `handleSave`: one URL, alt text and caption per entry, in order, uploading
      each new entry on the way; the first failed crop or upload ends it with nothing. */
  method UploadNew(entries: seq<ImageEntry>, clock: nat -> int, cropOk: nat -> bool, storage: Store.Storage)
    returns (arrays: Option<(seq<Json>, seq<Json>, seq<Json>)>)
    modifies storage
    ensures forall b :: b != ProductBucket ==> storage.Objects(b) == old(storage.Objects(b))
    ensures old(storage.Objects(ProductBucket)) <= storage.Objects(ProductBucket)
    ensures storage.Objects(ProductBucket) <= old(storage.Objects(ProductBucket)) + NewNames(entries, clock, |entries|)
    ensures arrays.Some? ==> storage.Objects(ProductBucket) == old(storage.Objects(ProductBucket)) + NewNames(entries, clock, |entries|)
    ensures arrays.Some? ==> forall i :: 0 <= i < |entries| && !entries[i].existing ==> cropOk(i)
    ensures arrays.Some? ==> arrays.value == (SavedUrls(entries, storage.base, clock), Alts(entries), Texts(entries))
  {
    ghost var initial := storage.Objects(ProductBucket);
    var urls: seq<Json> := [];
    var alts: seq<Json> := [];
    var texts: seq<Json> := [];
    var i := 0;
    while i < |entries|
      invariant i <= |entries|
      invariant Progress(entries, clock, cropOk, storage.base, initial, storage.Objects(ProductBucket), i, urls, alts, texts)
      invariant forall b :: b != ProductBucket ==> storage.Objects(b) == old(storage.Objects(b))
    {
      ghost var before := storage.Objects(ProductBucket);
      var url := SaveEntry(entries, i, clock, cropOk, storage);
      if url.None? {
        NewNamesGrow(entries, clock, i, |entries|);
        return None;
      }
      ProgressStep(entries, clock, cropOk, storage.base, initial, before, storage.Objects(ProductBucket),
        i, urls, alts, texts, url.value);
      urls := urls + [url.value];
      alts := alts + [entries[i].alt];
      texts := texts + [entries[i].text];
      i := i + 1;
    }
    ProgressDone(entries, clock, cropOk, storage.base, initial, storage.Objects(ProductBucket), urls, alts, texts);
    arrays := Some((urls, alts, texts));
  }

  /** The state of the loop after `i` entries: the three arrays hold their first `i`
      values, every new entry among them was cropped, and the bucket holds the names
      made so far. */
  ghost predicate Progress(entries: seq<ImageEntry>, clock: nat -> int, cropOk: nat -> bool, base: string,
                           initial: set<string>, objects: set<string>, i: nat,
                           urls: seq<Json>, alts: seq<Json>, texts: seq<Json>)
    requires i <= |entries|
  {
    && |urls| == i && (forall j :: 0 <= j < i ==> urls[j] == SavedUrl(entries[j], j, base, clock))
    && |alts| == i && (forall j :: 0 <= j < i ==> alts[j] == entries[j].alt)
    && |texts| == i && (forall j :: 0 <= j < i ==> texts[j] == entries[j].text)
    && (forall j :: 0 <= j < i && !entries[j].existing ==> cropOk(j))
    && objects == initial + NewNames(entries, clock, i)
  }

  lemma ProgressStep(entries: seq<ImageEntry>, clock: nat -> int, cropOk: nat -> bool, base: string,
                     initial: set<string>, before: set<string>, after: set<string>, i: nat,
                     urls: seq<Json>, alts: seq<Json>, texts: seq<Json>, url: Json)
    requires i < |entries|
    requires Progress(entries, clock, cropOk, base, initial, before, i, urls, alts, texts)
    requires url == SavedUrl(entries[i], i, base, clock)
    requires !entries[i].existing ==> cropOk(i)
    requires after == before + (if entries[i].existing then {} else {ProductImageName(clock(i), i)})
    ensures Progress(entries, clock, cropOk, base, initial, after, i + 1,
                     urls + [url], alts + [entries[i].alt], texts + [entries[i].text])
  {
    var urls', alts', texts' := urls + [url], alts + [entries[i].alt], texts + [entries[i].text];
    assert forall j :: 0 <= j < i ==> urls'[j] == urls[j] && alts'[j] == alts[j] && texts'[j] == texts[j];
    assert NewNames(entries, clock, i + 1)
      == NewNames(entries, clock, i) + (if entries[i].existing then {} else {ProductImageName(clock(i), i)});
  }

  lemma ProgressDone(entries: seq<ImageEntry>, clock: nat -> int, cropOk: nat -> bool, base: string,
                     initial: set<string>, objects: set<string>,
                     urls: seq<Json>, alts: seq<Json>, texts: seq<Json>)
    requires Progress(entries, clock, cropOk, base, initial, objects, |entries|, urls, alts, texts)
    ensures urls == SavedUrls(entries, base, clock) && alts == Alts(entries) && texts == Texts(entries)
  {
  }

  /** One step of the loop: a stored entry keeps its URL; a new one is uploaded under its
      timestamped name and gets that object's public URL. */
  method SaveEntry(entries: seq<ImageEntry>, i: nat, clock: nat -> int, cropOk: nat -> bool, storage: Store.Storage)
    returns (url: Option<Json>)
    requires i < |entries|
    modifies storage
    ensures url.Some? ==> url.value == SavedUrl(entries[i], i, storage.base, clock)
    ensures url.Some? && !entries[i].existing ==> cropOk(i)
    ensures forall b :: b != ProductBucket ==> storage.Objects(b) == old(storage.Objects(b))
    ensures url.None? ==> storage.Objects(ProductBucket) == old(storage.Objects(ProductBucket))
    ensures url.Some? ==> (storage.Objects(ProductBucket) == old(storage.Objects(ProductBucket))
      + (if entries[i].existing then {} else {ProductImageName(clock(i), i)}))
  {
    if entries[i].existing {
      return Some(entries[i].src);
    }
    if !cropOk(i) {
      return None;
    }
    var fileName := ProductImageName(clock(i), i);
    var uploaded := storage.Upload(ProductBucket, fileName, false);
    if !uploaded {
      return None;
    }
    url := Some(JStr(Store.PublicUrl(storage.base, ProductBucket, fileName)));
  }

  /** Opening a product and saving it without touching its images writes its URLs back
      unchanged and uploads nothing. */
  lemma LoadedImagesSaveBack(rt: Runtime, product: Rows.ProductRow, loaded: seq<ImageEntry>,
                             base: string, clock: nat -> int)
    requires InitialImages(rt, product) == Returned(loaded)
    ensures SavedUrls(loaded, base, clock) == ArrayItems(product.imageUrls)
    ensures NewNames(loaded, clock, |loaded|) == {}
  {
    var urls := SavedUrls(loaded, base, clock);
    assert forall i :: 0 <= i < |urls| ==> urls[i] == ArrayItems(product.imageUrls)[i];
    NoNewNames(loaded, clock, |loaded|);
  }

  /** A stored array of non-empty alt texts that decoding leaves as they are (one per URL)
      survives the load-and-save round trip. */
  lemma LoadedAltsSaveBack(rt: Runtime, product: Rows.ProductRow, loaded: seq<ImageEntry>)
    requires InitialImages(rt, product) == Returned(loaded)
    requires product.imageAlts.JArr? && |product.imageAlts.items| == |ArrayItems(product.imageUrls)|
    requires forall i :: 0 <= i < |product.imageAlts.items| ==>
      product.imageAlts.items[i].JStr? && product.imageAlts.items[i].s != ""
      && rt.decodeUri(product.imageAlts.items[i].s) == Some(product.imageAlts.items[i].s)
    ensures Alts(loaded) == product.imageAlts.items
  {
    var stored := product.imageAlts.items;
    var parsed := SafeParse(rt, product.imageAlts);
    assert forall i :: 0 <= i < |stored| ==> parsed[i] == stored[i];
    var alts := Alts(loaded);
    assert forall i :: 0 <= i < |alts| ==> alts[i] == stored[i];
  }
}
