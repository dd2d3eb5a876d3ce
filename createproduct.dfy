/**
 * The product creation page.  The form keeps its rows in lists: quantity
 * tiers, price reasons, three parallel lists of image URLs, alt texts and
 * captions, and specifications.  Submitting drops incomplete rows, keeps the
 * alt texts and captions whose URL is filled in, builds the price object and
 * inserts the product.
 */
module CreateProduct {
  import opened Wrappers
  import opened Json
  import Seqs
  import Store
  import Rows
  import Pricing

  const DashboardRoute: string := "/admin/dashboard?tab=products"
  const Bullet: string := "\n\U{2022} "
  /** Column defaults the insert relies on (the row it writes has no `category_name` or `visible`). */
  const DefaultVisible: bool := true

  datatype Tier = Tier(quantity: string, price: string)
  datatype Reason = Reason(reason: string, increment: string)
  datatype TierField = QuantityField | PriceField
  datatype ReasonField = ReasonText | IncrementField
  datatype ImageField = UrlField | AltField | TextField

  /** The page's toasts: the created product's name, or an insert error. */
  datatype Toast = Created(name: string) | Failed

  /** One image row of the form. */
  datatype ImageRow = ImageRow(url: string, alt: string, text: string)

  predicate NonEmpty(s: string) {
    s != ""
  }

  /** `r.quantity && r.price`. */
  predicate CompleteTier(t: Tier) {
    t.quantity != "" && t.price != ""
  }

  /** `r.reason && r.increment`. */
  predicate CompleteReason(r: Reason) {
    r.reason != "" && r.increment != ""
  }

  function TierJson(t: Tier): Json {
    JObj(map["quantity" := JStr(t.quantity), "price" := JStr(t.price)])
  }

  function ReasonJson(r: Reason): Json {
    JObj(map["reason" := JStr(r.reason), "increment" := JStr(r.increment)])
  }

  function TierJsons(tiers: seq<Tier>): (r: seq<Json>)
    ensures |r| == |tiers| && forall i :: 0 <= i < |tiers| ==> r[i] == TierJson(tiers[i])
  {
    seq(|tiers|, i requires 0 <= i < |tiers| => TierJson(tiers[i]))
  }

  function ReasonJsons(reasons: seq<Reason>): (r: seq<Json>)
    ensures |r| == |reasons| && forall i :: 0 <= i < |reasons| ==> r[i] == ReasonJson(reasons[i])
  {
    seq(|reasons|, i requires 0 <= i < |reasons| => ReasonJson(reasons[i]))
  }

  /** `priceData`: the price object with the incomplete tier and reason rows dropped. */
  function PriceData(priceType: string, fixedPrice: string, tiers: seq<Tier>, reasons: seq<Reason>): Json {
    Pricing.PriceJson(priceType, JStr(fixedPrice),
      JArr(TierJsons(Seqs.Filter(tiers, CompleteTier))), JArr(ReasonJsons(Seqs.Filter(reasons, CompleteReason))))
  }

  /** `xs.filter((_, i) => urls[i])`: the entries whose URL at the same position is filled in. */
  function ByUrl(xs: seq<string>, urls: seq<string>): seq<string>
    decreases |xs|
  {
    if xs == [] then []
    else
      var keep := if |urls| > 0 && urls[0] != "" then [xs[0]] else [];
      keep + ByUrl(xs[1..], if urls == [] then [] else urls[1..])
  }

  /** A blank image row adds nothing to the alt texts or captions kept by URL. */
  lemma {:induction false} ByUrlBlankRow(xs: seq<string>, urls: seq<string>, x: string)
    requires |xs| == |urls|
    ensures ByUrl(xs + [x], urls + [""]) == ByUrl(xs, urls)
    decreases |xs|
  {
    if xs != [] {
      assert (xs + [x])[1..] == xs[1..] + [x];
      assert (urls + [""])[1..] == urls[1..] + [""];
      ByUrlBlankRow(xs[1..], urls[1..], x);
    }
  }

  /** The image rows of the form, one per position of the three lists. */
  function ImageRows(urls: seq<string>, alts: seq<string>, texts: seq<string>): (r: seq<ImageRow>)
    requires |urls| == |alts| == |texts|
    ensures |r| == |urls|
    ensures forall i :: 0 <= i < |r| ==> r[i] == ImageRow(urls[i], alts[i], texts[i])
  {
    seq(|urls|, i requires 0 <= i < |urls| => ImageRow(urls[i], alts[i], texts[i]))
  }

  predicate HasUrl(row: ImageRow) {
    row.url != ""
  }

  function UrlsOf(rows: seq<ImageRow>): (r: seq<string>)
    ensures |r| == |rows| && forall i :: 0 <= i < |rows| ==> r[i] == rows[i].url
  {
    seq(|rows|, i requires 0 <= i < |rows| => rows[i].url)
  }

  function AltsOf(rows: seq<ImageRow>): (r: seq<string>)
    ensures |r| == |rows| && forall i :: 0 <= i < |rows| ==> r[i] == rows[i].alt
  {
    seq(|rows|, i requires 0 <= i < |rows| => rows[i].alt)
  }

  function TextsOf(rows: seq<ImageRow>): (r: seq<string>)
    ensures |r| == |rows| && forall i :: 0 <= i < |rows| ==> r[i] == rows[i].text
  {
    seq(|rows|, i requires 0 <= i < |rows| => rows[i].text)
  }

  /** The three submitted image lists are the URL, alt and caption columns of the same rows:
      the form's image rows whose URL is filled in, in order.  So they have one length and an
      alt text or caption stays with its URL. */
  lemma SubmittedImagesAligned(urls: seq<string>, alts: seq<string>, texts: seq<string>)
    requires |urls| == |alts| == |texts|
    ensures var kept := Seqs.Filter(ImageRows(urls, alts, texts), HasUrl);
      Seqs.Filter(urls, NonEmpty) == UrlsOf(kept)
      && ByUrl(alts, urls) == AltsOf(kept)
      && ByUrl(texts, urls) == TextsOf(kept)
  {
    KeptUrls(urls, alts, texts);
    KeptAlts(urls, alts, texts);
    KeptTexts(urls, alts, texts);
  }

  lemma {:induction false} KeptUrls(urls: seq<string>, alts: seq<string>, texts: seq<string>)
    requires |urls| == |alts| == |texts|
    ensures Seqs.Filter(urls, NonEmpty) == UrlsOf(Seqs.Filter(ImageRows(urls, alts, texts), HasUrl))
    decreases |urls|
  {
    if urls != [] {
      var rows := ImageRows(urls, alts, texts);
      var rest := ImageRows(urls[1..], alts[1..], texts[1..]);
      assert rows[1..] == rest;
      KeptUrls(urls[1..], alts[1..], texts[1..]);
      var keptRest := Seqs.Filter(rest, HasUrl);
      if urls[0] != "" {
        assert UrlsOf([rows[0]] + keptRest) == [urls[0]] + UrlsOf(keptRest);
      }
    }
  }

  lemma {:induction false} KeptAlts(urls: seq<string>, alts: seq<string>, texts: seq<string>)
    requires |urls| == |alts| == |texts|
    ensures ByUrl(alts, urls) == AltsOf(Seqs.Filter(ImageRows(urls, alts, texts), HasUrl))
    decreases |urls|
  {
    if urls != [] {
      var rows := ImageRows(urls, alts, texts);
      var rest := ImageRows(urls[1..], alts[1..], texts[1..]);
      assert rows[1..] == rest;
      KeptAlts(urls[1..], alts[1..], texts[1..]);
      var keptRest := Seqs.Filter(rest, HasUrl);
      if urls[0] != "" {
        assert AltsOf([rows[0]] + keptRest) == [alts[0]] + AltsOf(keptRest);
      }
    }
  }

  lemma {:induction false} KeptTexts(urls: seq<string>, alts: seq<string>, texts: seq<string>)
    requires |urls| == |alts| == |texts|
    ensures ByUrl(texts, urls) == TextsOf(Seqs.Filter(ImageRows(urls, alts, texts), HasUrl))
    decreases |urls|
  {
    if urls != [] {
      var rows := ImageRows(urls, alts, texts);
      var rest := ImageRows(urls[1..], alts[1..], texts[1..]);
      assert rows[1..] == rest;
      KeptTexts(urls[1..], alts[1..], texts[1..]);
      var keptRest := Seqs.Filter(rest, HasUrl);
      if urls[0] != "" {
        assert TextsOf([rows[0]] + keptRest) == [texts[0]] + TextsOf(keptRest);
      }
    }
  }

  /** The row the insert writes. */
  function ProductData(name: string, category: Option<int>, price: Json, urls: seq<string>, alts: seq<string>,
                       texts: seq<string>, description: string, specifications: seq<string>): Rows.ProductRow
  {
    Rows.ProductRow(name, category, None, price, JArr(Strings(Seqs.Filter(urls, NonEmpty))),
      JArr(Strings(ByUrl(alts, urls))), JArr(Strings(ByUrl(texts, urls))), description,
      Seqs.Filter(specifications, NonEmpty), DefaultVisible)
  }

  /** A blank image row or a blank specification at the end of the form changes nothing in
      the row a submission inserts. */
  lemma BlankRowsNotSubmitted(name: string, category: Option<int>, price: Json, urls: seq<string>,
                              alts: seq<string>, texts: seq<string>, description: string, specifications: seq<string>)
    requires |urls| == |alts| == |texts|
    ensures ProductData(name, category, price, urls + [""], alts + [""], texts + [""], description, specifications)
      == ProductData(name, category, price, urls, alts, texts, description, specifications)
    ensures ProductData(name, category, price, urls, alts, texts, description, specifications + [""])
      == ProductData(name, category, price, urls, alts, texts, description, specifications)
  {
    BlankDropped(urls);
    BlankDropped(specifications);
    ByUrlBlankRow(alts, urls, "");
    ByUrlBlankRow(texts, urls, "");
  }

  lemma BlankDropped(s: seq<string>)
    ensures Seqs.Filter(s + [""], NonEmpty) == Seqs.Filter(s, NonEmpty)
  {
    Seqs.FilterAppend(s, [""], NonEmpty);
    assert Seqs.Filter([""], NonEmpty) == [];
  }

  function Strings(s: seq<string>): (r: seq<Json>)
    ensures |r| == |s| && forall i :: 0 <= i < |s| ==> r[i] == JStr(s[i])
  {
    seq(|s|, i requires 0 <= i < |s| => JStr(s[i]))
  }

  class ProductForm {
    var productName: string
    var selectedCategory: Option<int>
    var priceType: string
    var fixedPrice: string
    var quantityPrices: seq<Tier>
    var reasons: seq<Reason>
    var imageUrls: seq<string>
    var imageAlts: seq<string>
    var imageTexts: seq<string>
    var fullDescription: string
    var specifications: seq<string>
    var isLoading: bool
    var location: Option<string>
    var toast: Option<Toast>

    /** Every list has a row, and the three image lists run in parallel. */
    predicate Valid()
      reads this`imageUrls, this`imageAlts, this`imageTexts, this`quantityPrices, this`reasons, this`specifications
    {
      |imageUrls| == |imageAlts| == |imageTexts| && |imageUrls| >= 1
      && |quantityPrices| >= 1 && |reasons| >= 1 && |specifications| >= 1
    }

    constructor ()
      ensures Valid()
      ensures productName == "" && selectedCategory.None? && priceType == Pricing.FixedType && fixedPrice == ""
      ensures quantityPrices == [Tier("", "")] && reasons == [Reason("", "")]
      ensures imageUrls == [""] && imageAlts == [""] && imageTexts == [""]
      ensures fullDescription == "" && specifications == [""]
      ensures !isLoading && location.None? && toast.None?
    {
      productName := "";
      selectedCategory := None;
      priceType := Pricing.FixedType;
      fixedPrice := "";
      quantityPrices := [Tier("", "")];
      reasons := [Reason("", "")];
      imageUrls := [""];
      imageAlts := [""];
      imageTexts := [""];
      fullDescription := "";
      specifications := [""];
      isLoading := false;
      location := None;
      toast := None;
    }

    method AddQuantityRow()
      requires Valid()
      modifies this`quantityPrices
      ensures Valid() && quantityPrices == old(quantityPrices) + [Tier("", "")]
    {
      quantityPrices := quantityPrices + [Tier("", "")];
    }

    /** The remove button is offered only while there is more than one row. */
    method RemoveQuantityRow(idx: int)
      requires Valid() && |quantityPrices| > 1 && 0 <= idx < |quantityPrices|
      modifies this`quantityPrices
      ensures Valid() && quantityPrices == Seqs.RemoveAt(old(quantityPrices), idx)
    {
      quantityPrices := Seqs.RemoveAt(quantityPrices, idx);
    }

    method UpdateQuantityRow(idx: int, field: TierField, value: string)
      requires Valid() && 0 <= idx < |quantityPrices|
      modifies this`quantityPrices
      ensures Valid() && |quantityPrices| == |old(quantityPrices)|
      ensures quantityPrices[idx] == if field == QuantityField then old(quantityPrices)[idx].(quantity := value)
                                     else old(quantityPrices)[idx].(price := value)
      ensures forall i :: 0 <= i < |quantityPrices| && i != idx ==> quantityPrices[i] == old(quantityPrices)[i]
    {
      var row := quantityPrices[idx];
      quantityPrices := quantityPrices[idx := if field == QuantityField then row.(quantity := value) else row.(price := value)];
    }

    method AddReason()
      requires Valid()
      modifies this`reasons
      ensures Valid() && reasons == old(reasons) + [Reason("", "")]
    {
      reasons := reasons + [Reason("", "")];
    }

    method RemoveReason(idx: int)
      requires Valid() && |reasons| > 1 && 0 <= idx < |reasons|
      modifies this`reasons
      ensures Valid() && reasons == Seqs.RemoveAt(old(reasons), idx)
    {
      reasons := Seqs.RemoveAt(reasons, idx);
    }

    method UpdateReason(idx: int, field: ReasonField, value: string)
      requires Valid() && 0 <= idx < |reasons|
      modifies this`reasons
      ensures Valid() && |reasons| == |old(reasons)|
      ensures reasons[idx] == if field == ReasonText then old(reasons)[idx].(reason := value)
                              else old(reasons)[idx].(increment := value)
      ensures forall i :: 0 <= i < |reasons| && i != idx ==> reasons[i] == old(reasons)[i]
    {
      var row := reasons[idx];
      reasons := reasons[idx := if field == ReasonText then row.(reason := value) else row.(increment := value)];
    }

    /** `handleAddImageUrl`: a blank row in all three lists. */
    method AddImageUrl()
      requires Valid()
      modifies this`imageUrls, this`imageAlts, this`imageTexts
      ensures Valid()
      ensures imageUrls == old(imageUrls) + [""] && imageAlts == old(imageAlts) + [""]
        && imageTexts == old(imageTexts) + [""]
    {
      imageUrls := imageUrls + [""];
      imageAlts := imageAlts + [""];
      imageTexts := imageTexts + [""];
    }

    /** `handleRemoveImageUrl`: the same position leaves all three lists. */
    method RemoveImageUrl(idx: int)
      requires Valid() && |imageUrls| > 1 && 0 <= idx < |imageUrls|
      modifies this`imageUrls, this`imageAlts, this`imageTexts
      ensures Valid()
      ensures imageUrls == Seqs.RemoveAt(old(imageUrls), idx) && imageAlts == Seqs.RemoveAt(old(imageAlts), idx)
        && imageTexts == Seqs.RemoveAt(old(imageTexts), idx)
      ensures ImageRows(imageUrls, imageAlts, imageTexts)
        == Seqs.RemoveAt(ImageRows(old(imageUrls), old(imageAlts), old(imageTexts)), idx)
    {
      ghost var before := ImageRows(imageUrls, imageAlts, imageTexts);
      imageUrls := Seqs.RemoveAt(imageUrls, idx);
      imageAlts := Seqs.RemoveAt(imageAlts, idx);
      imageTexts := Seqs.RemoveAt(imageTexts, idx);
      assert ImageRows(imageUrls, imageAlts, imageTexts) == Seqs.RemoveAt(before, idx);
    }

    /** `handleImageChange`: one entry of the list the field names. */
    method ImageChange(idx: int, field: ImageField, value: string)
      requires Valid() && 0 <= idx < |imageUrls|
      modifies this`imageUrls, this`imageAlts, this`imageTexts
      ensures Valid()
      ensures imageUrls == if field == UrlField then old(imageUrls)[idx := value] else old(imageUrls)
      ensures imageAlts == if field == AltField then old(imageAlts)[idx := value] else old(imageAlts)
      ensures imageTexts == if field == TextField then old(imageTexts)[idx := value] else old(imageTexts)
    {
      if field == UrlField {
        imageUrls := imageUrls[idx := value];
      } else if field == AltField {
        imageAlts := imageAlts[idx := value];
      } else {
        imageTexts := imageTexts[idx := value];
      }
    }

    method SpecificationChange(idx: int, value: string)
      requires Valid() && 0 <= idx < |specifications|
      modifies this`specifications
      ensures Valid() && specifications == old(specifications)[idx := value]
    {
      specifications := specifications[idx := value];
    }

    method AddSpecification()
      requires Valid()
      modifies this`specifications
      ensures Valid() && specifications == old(specifications) + [""]
    {
      specifications := specifications + [""];
    }

    method RemoveSpecification(idx: int)
      requires Valid() && |specifications| > 1 && 0 <= idx < |specifications|
      modifies this`specifications
      ensures Valid() && specifications == Seqs.RemoveAt(old(specifications), idx)
    {
      specifications := Seqs.RemoveAt(specifications, idx);
    }

    /** The "Añadir URL" button as written.  It sets no `type`, so inside the form it is a
        submit button: the click adds the blank row and then submits the form, which creates
        the product as it stood before the click whenever the form is submittable. */
    method ClickAddImageUrl(products: Store.Table<Rows.ProductRow>) returns (created: bool)
      requires Valid() && products.Valid()
      modifies this`imageUrls, this`imageAlts, this`imageTexts, this`isLoading, this`toast, this`location, products
      ensures Valid() && products.Valid()
      ensures imageUrls == old(imageUrls) + [""] && imageAlts == old(imageAlts) + [""]
        && imageTexts == old(imageTexts) + [""]
      ensures created ==> old(Submittable()) && location == Some(DashboardRoute)
      ensures created ==> products.rows == old(products.rows)[old(products.next) := old(Submission(imageUrls + [""], imageAlts + [""], imageTexts + [""], specifications))]
      ensures !created ==> location == old(location) && products.rows == old(products.rows)
      ensures old(Submittable()) ==> !isLoading && toast.Some?
    {
      imageUrls, imageAlts, imageTexts := imageUrls + [""], imageAlts + [""], imageTexts + [""];
      created := false;
      if Submittable() {
        created := HandleSubmit(products);
      }
    }

    /** An image row's untyped remove button as written: the row goes, and the form is then
        submitted without it. */
    method ClickRemoveImageUrl(idx: int, products: Store.Table<Rows.ProductRow>) returns (created: bool)
      requires Valid() && products.Valid() && |imageUrls| > 1 && 0 <= idx < |imageUrls|
      modifies this`imageUrls, this`imageAlts, this`imageTexts, this`isLoading, this`toast, this`location, products
      ensures Valid() && products.Valid()
      ensures imageUrls == Seqs.RemoveAt(old(imageUrls), idx) && imageAlts == Seqs.RemoveAt(old(imageAlts), idx)
        && imageTexts == Seqs.RemoveAt(old(imageTexts), idx)
      ensures created ==> old(Submittable()) && location == Some(DashboardRoute)
      ensures created ==> products.rows == old(products.rows)[old(products.next) := old(Submission(Seqs.RemoveAt(imageUrls, idx), Seqs.RemoveAt(imageAlts, idx),
                                                   Seqs.RemoveAt(imageTexts, idx), specifications))]
      ensures !created ==> location == old(location) && products.rows == old(products.rows)
      ensures old(Submittable()) ==> !isLoading && toast.Some?
    {
      imageUrls := Seqs.RemoveAt(imageUrls, idx);
      imageAlts := Seqs.RemoveAt(imageAlts, idx);
      imageTexts := Seqs.RemoveAt(imageTexts, idx);
      created := false;
      if Submittable() {
        created := HandleSubmit(products);
      }
    }

    /** The specifications' untyped "Añadir" button as written: the blank specification is
        added and the form, unchanged by it, is submitted. */
    method ClickAddSpecification(products: Store.Table<Rows.ProductRow>) returns (created: bool)
      requires Valid() && products.Valid()
      modifies this`specifications, this`isLoading, this`toast, this`location, products
      ensures Valid() && products.Valid()
      ensures specifications == old(specifications) + [""]
      ensures created ==> old(Submittable()) && location == Some(DashboardRoute)
      ensures created ==> products.rows == old(products.rows)[old(products.next) := old(Submission(imageUrls, imageAlts, imageTexts, specifications + [""]))]
      ensures !created ==> location == old(location) && products.rows == old(products.rows)
      ensures old(Submittable()) ==> !isLoading && toast.Some?
    {
      specifications := specifications + [""];
      created := false;
      if Submittable() {
        created := HandleSubmit(products);
      }
    }

    /** A specification's untyped remove button as written: the specification goes, and the
        form is then submitted without it. */
    method ClickRemoveSpecification(idx: int, products: Store.Table<Rows.ProductRow>) returns (created: bool)
      requires Valid() && products.Valid() && |specifications| > 1 && 0 <= idx < |specifications|
      modifies this`specifications, this`isLoading, this`toast, this`location, products
      ensures Valid() && products.Valid()
      ensures specifications == Seqs.RemoveAt(old(specifications), idx)
      ensures created ==> old(Submittable()) && location == Some(DashboardRoute)
      ensures created ==> products.rows == old(products.rows)[old(products.next) := old(Submission(imageUrls, imageAlts, imageTexts, Seqs.RemoveAt(specifications, idx)))]
      ensures !created ==> location == old(location) && products.rows == old(products.rows)
      ensures old(Submittable()) ==> !isLoading && toast.Some?
    {
      specifications := Seqs.RemoveAt(specifications, idx);
      created := false;
      if Submittable() {
        created := HandleSubmit(products);
      }
    }

    /** The category select: `setSelectedCategory(String(c.id))`, which the insert reads back
        as that id. */
    method ChooseCategory(id: int)
      modifies this`selectedCategory
      ensures selectedCategory == Some(id)
    {
      selectedCategory := Some(id);
    }

    /** `addBulletPoint`. */
    method AddBulletPoint()
      modifies this`fullDescription
      ensures fullDescription == old(fullDescription) + Bullet
    {
      fullDescription := fullDescription + Bullet;
    }

    /** The browser runs the submit handler only when the required inputs are filled in: the
        name, and the fixed price while the type is `fixed`. */
    predicate Submittable()
      reads this`productName, this`priceType, this`fixedPrice
    {
      productName != "" && (priceType != Pricing.FixedType || fixedPrice != "")
    }

    /** The row a submission inserts when the form holds these image and specification lists. */
    function Submission(urls: seq<string>, alts: seq<string>, texts: seq<string>, specs: seq<string>): Rows.ProductRow
      reads this`productName, this`selectedCategory, this`priceType, this`fixedPrice, this`quantityPrices,
        this`reasons, this`fullDescription
    {
      ProductData(productName, selectedCategory, PriceData(priceType, fixedPrice, quantityPrices, reasons),
        urls, alts, texts, fullDescription, specs)
    }

    /** `handleSubmit`.  Returns whether the product was created.  Without a chosen category
        the row carries `category_id: ''`, which the integer column refuses: the insert fails. */
    method HandleSubmit(products: Store.Table<Rows.ProductRow>) returns (created: bool)
      requires products.Valid()
      modifies this`isLoading, this`toast, this`location, products
      ensures products.Valid()
      ensures isLoading == if Submittable() then false else old(isLoading)
      ensures created ==> Submittable() && selectedCategory.Some?
      ensures products.rows == if created then old(products.rows)[old(products.next) := old(Submission(imageUrls, imageAlts, imageTexts, specifications))]
                               else old(products.rows)
      ensures location == if created then Some(DashboardRoute) else old(location)
      ensures toast == if created then Some(Created(productName))
                       else if Submittable() then Some(Failed) else old(toast)
    {
      created := false;
      var row := Submission(imageUrls, imageAlts, imageTexts, specifications);
      if Submittable() {
        isLoading := true;
        var inserted := false;
        if selectedCategory.Some? {
          var id;
          inserted, id := products.Insert(row);
        }
        if inserted {
          toast := Some(Created(productName));
          location := Some(DashboardRoute);
        } else {
          toast := Some(Failed);
        }
        created := inserted;
        isLoading := false;
      }
    }
  }

  /** A submitted product stores as many alt texts and captions as URLs, none of them empty
      URLs, and only filled-in specifications. */
  lemma SubmissionShape(name: string, category: Option<int>, price: Json, urls: seq<string>, alts: seq<string>,
                        texts: seq<string>, description: string, specifications: seq<string>)
    requires |urls| == |alts| == |texts|
    ensures var row := ProductData(name, category, price, urls, alts, texts, description, specifications);
      row.imageUrls.JArr? && row.imageAlts.JArr? && row.imageTexts.JArr?
      && |row.imageUrls.items| == |row.imageAlts.items| == |row.imageTexts.items|
      && (forall i :: 0 <= i < |row.imageUrls.items| ==> row.imageUrls.items[i] != JStr(""))
      && (forall i :: 0 <= i < |row.specifications| ==> row.specifications[i] != "")
      && (Seqs.Filter(specifications, NonEmpty) == specifications <==> forall i :: 0 <= i < |specifications| ==> specifications[i] != "")
  {
    SubmittedImagesAligned(urls, alts, texts);
    Seqs.FilterKeepsAll(specifications, NonEmpty);
  }

  /** The stored quantity tiers are exactly the rows with both cells filled, in order; a
      table with no blank cell is stored whole. */
  lemma QuantityTiersFiltered(fixedPrice: string, tiers: seq<Tier>, reasons: seq<Reason>)
    ensures var p := PriceData(Pricing.QuantityType, fixedPrice, tiers, reasons);
      p.fields["tiers"] == JArr(TierJsons(Seqs.Filter(tiers, CompleteTier)))
      && (forall t :: t in Seqs.Filter(tiers, CompleteTier) ==> t.quantity != "" && t.price != "")
      && ((forall i :: 0 <= i < |tiers| ==> CompleteTier(tiers[i])) ==> p.fields["tiers"] == JArr(TierJsons(tiers)))
  {
    Seqs.FilterKeepsAll(tiers, CompleteTier);
  }

  /** The stored reasons are exactly the rows with both cells filled, next to the base price. */
  lemma ReasonsFiltered(priceType: string, fixedPrice: string, tiers: seq<Tier>, reasons: seq<Reason>)
    requires priceType != Pricing.FixedType && priceType != Pricing.QuantityType
    ensures var p := PriceData(priceType, fixedPrice, tiers, reasons);
      p.fields["base"] == JStr(fixedPrice)
      && p.fields["reasons"] == JArr(ReasonJsons(Seqs.Filter(reasons, CompleteReason)))
      && (forall r :: r in Seqs.Filter(reasons, CompleteReason) ==> r.reason != "" && r.increment != "")
  {
  }

  /** A product created with a fixed price shows that price on its card. */
  lemma CreatedFixedPriceShown(rt: Runtime, fixedPrice: string, tiers: seq<Tier>, reasons: seq<Reason>)
    requires fixedPrice != ""
    ensures Pricing.CardLabel(rt, PriceData(Pricing.FixedType, fixedPrice, tiers, reasons)) == fixedPrice + " \U{20AC}"
  {
    Pricing.FixedPriceRoundTrip(rt, fixedPrice,
      JArr(TierJsons(Seqs.Filter(tiers, CompleteTier))), JArr(ReasonJsons(Seqs.Filter(reasons, CompleteReason))),
      PriceData(Pricing.FixedType, fixedPrice, tiers, reasons));
  }
}
