/**
 * The review list shown under a product and on the profile page: how many
 * thumbnails a review shows for the viewport, the "+N" overlay, the flat list
 * of lightbox slides, the lightbox lookup, the reviewer lookup, and deleting
 * a review together with its stored images and the 5 points it earned.
 */
module Reviews {
  import opened Wrappers
  import opened Json
  import opened Rows
  import Text
  import Seqs
  import Store
  import Loyalty

  /** A review as the pages hold it: its id and its row. */
  datatype Review = Review(id: int, row: ReviewRow)

  /** One lightbox slide: an image URL and the review it belongs to. */
  datatype Slide = Slide(url: Json, review: Review)

  // ---------------------------------------------------------------------------
  // Thumbnails
  // ---------------------------------------------------------------------------

  /** The number of thumbnails per review by viewport width, band by band. */
  function ThumbnailsFor(width: int): (n: int)
    ensures 1 <= n <= 4
  {
    if width >= 865 then 4
    else if width >= 650 then 3
    else if width >= 500 then 2
    else if width >= 400 then 1
    else 2
  }

  /** `imagesToShow`: 4, then overridden by each narrower breakpoint in turn. */
  method ImagesToShow(width: int) returns (n: int)
    ensures n == ThumbnailsFor(width)
  {
    n := 4;
    if width < 865 { n := 3; }
    if width < 650 { n := 2; }
    if width < 500 { n := 1; }
    if width < 400 { n := 2; }
  }

  /** The rule is not monotone: the narrowest screens show more thumbnails than slightly wider ones. */
  lemma ThumbnailsNotMonotone()
    ensures ThumbnailsFor(399) > ThumbnailsFor(400)
    ensures forall w :: 400 <= w < 500 ==> ThumbnailsFor(w) < ThumbnailsFor(w - 100)
  {
  }

  /** `imageUrls.slice(0, imagesToShow)`. */
  function Visible(urls: seq<Json>, n: nat): seq<Json> {
    Seqs.Take(urls, n)
  }

  /** `imageUrls.length > imagesToShow ? imageUrls.length - imagesToShow : 0`. */
  function Extra(urls: seq<Json>, n: nat): nat {
    if |urls| > n then |urls| - n else 0
  }

  /** Every URL is either shown or counted in the "+N" overlay, and the shown ones come first. */
  lemma VisiblePlusExtra(urls: seq<Json>, n: nat)
    ensures |Visible(urls, n)| + Extra(urls, n) == |urls|
    ensures Visible(urls, n) <= urls
    ensures Extra(urls, n) > 0 ==> |Visible(urls, n)| == n
  {
  }

  /** The overlay sits on the last visible thumbnail and only when some images are hidden. */
  predicate Overlay(urls: seq<Json>, n: nat, index: int) {
    index == |Visible(urls, n)| - 1 && Extra(urls, n) > 0
  }

  lemma OverlayOnlyOnLast(urls: seq<Json>, n: nat, index: int)
    requires 0 <= index < |Visible(urls, n)|
    ensures Overlay(urls, n, index) <==> index == n - 1 && |urls| > n
  {
  }

  /** The delete button is offered only to the author of the review. */
  predicate CanDelete(user: Option<SessionUser>, review: Review) {
    user.Some? && user.value.id == review.row.userId
  }

  /** The name shown above a review: the author's e-mail, or 'Desconocido'. */
  function AuthorLabel(emails: map<int, Option<string>>, userId: int): (s: string)
    ensures userId in emails && emails[userId].Some? && emails[userId].value != "" ==> s == emails[userId].value
    ensures !(userId in emails && emails[userId].Some? && emails[userId].value != "") ==> s == "Desconocido"
    ensures s != ""
  {
    if userId in emails && emails[userId].Some? && emails[userId].value != "" then emails[userId].value else "Desconocido"
  }

  // ---------------------------------------------------------------------------
  // Slides and the lightbox
  // ---------------------------------------------------------------------------

  /** The slides of one review: its URLs in order, or none when `image_urls` is not an array. */
  function SlidesOfReview(v: Json, r: Review): (s: seq<Slide>)
    ensures |s| == |ArrayItems(v)|
    ensures forall i :: 0 <= i < |s| ==> s[i] == Slide(ArrayItems(v)[i], r)
  {
    var items := ArrayItems(v);
    seq(|items|, i requires 0 <= i < |items| => Slide(items[i], r))
  }

  /** The slides of a list of reviews, review by review; parsing a JSON text may throw. */
  function Slides(rt: Runtime, reviews: seq<Review>): Attempt<seq<Slide>>
    decreases |reviews|
  {
    if reviews == [] then Returned([])
    else
      var last := reviews[|reviews| - 1];
      match Slides(rt, reviews[..|reviews| - 1])
      case Threw => Threw
      case Returned(before) =>
        match Coerce(rt, last.row.imageUrls)
        case Threw => Threw
        case Returned(v) => Returned(before + SlidesOfReview(v, last))
  }

  /** The effect that flattens the reviews into slides (a push loop). */
  method BuildSlides(rt: Runtime, reviews: seq<Review>) returns (result: Attempt<seq<Slide>>)
    ensures result == Slides(rt, reviews)
  {
    var slides: seq<Slide> := [];
    var i := 0;
    while i < |reviews|
      invariant 0 <= i <= |reviews|
      invariant Slides(rt, reviews[..i]) == Returned(slides)
    {
      assert reviews[..i + 1][..i] == reviews[..i];
      var parsed := Coerce(rt, reviews[i].row.imageUrls);
      if parsed.Threw? {
        assert Slides(rt, reviews[..i + 1]).Threw?;
        ThrowPersists(rt, reviews, i + 1);
        return Threw;
      }
      var items := ArrayItems(parsed.value);
      ghost var before := slides;
      ghost var mine := SlidesOfReview(parsed.value, reviews[i]);
      var j := 0;
      while j < |items|
        invariant 0 <= j <= |items|
        invariant slides == before + mine[..j]
      {
        assert mine[..j + 1] == mine[..j] + [Slide(items[j], reviews[i])];
        slides := slides + [Slide(items[j], reviews[i])];
        j := j + 1;
      }
      assert mine[..j] == mine;
      assert reviews[..i + 1][i] == reviews[i];
      i := i + 1;
    }
    assert reviews[..i] == reviews;
    return Returned(slides);
  }

  /** Once a prefix of the reviews throws, so does every longer prefix. */
  lemma {:induction false} ThrowPersists(rt: Runtime, reviews: seq<Review>, k: nat)
    requires k <= |reviews| && Slides(rt, reviews[..k]).Threw?
    ensures Slides(rt, reviews).Threw?
    decreases |reviews| - k
  {
    if k < |reviews| {
      assert reviews[..k + 1][..k] == reviews[..k];
      ThrowPersists(rt, reviews, k + 1);
    } else {
      assert reviews[..k] == reviews;
    }
  }

  /** Every image of every listed review has its slide, paired with that review. */
  lemma {:induction false} SlidesComplete(rt: Runtime, reviews: seq<Review>, r: nat, i: nat)
    requires Slides(rt, reviews).Returned?
    requires r < |reviews| && Coerce(rt, reviews[r].row.imageUrls).Returned?
    requires i < |ArrayItems(Coerce(rt, reviews[r].row.imageUrls).value)|
    ensures Slide(ArrayItems(Coerce(rt, reviews[r].row.imageUrls).value)[i], reviews[r]) in Slides(rt, reviews).value
    decreases |reviews|
  {
    var init := reviews[..|reviews| - 1];
    var v := Coerce(rt, reviews[r].row.imageUrls).value;
    if r == |reviews| - 1 {
      assert SlidesOfReview(v, reviews[r])[i] == Slide(ArrayItems(v)[i], reviews[r]);
    } else {
      assert init[r] == reviews[r];
      SlidesComplete(rt, init, r, i);
    }
  }

  /** Every slide comes from a listed review and is one of its images. */
  lemma {:induction false} SlidesSound(rt: Runtime, reviews: seq<Review>, k: nat)
    requires Slides(rt, reviews).Returned? && k < |Slides(rt, reviews).value|
    ensures var s := Slides(rt, reviews).value[k];
      s.review in reviews && Coerce(rt, s.review.row.imageUrls).Returned?
      && s.url in ArrayItems(Coerce(rt, s.review.row.imageUrls).value)
    decreases |reviews|
  {
    var init := reviews[..|reviews| - 1];
    var before := Slides(rt, init).value;
    if k >= |before| {
      var last := reviews[|reviews| - 1];
      var v := Coerce(rt, last.row.imageUrls).value;
      assert Slides(rt, reviews).value[k] == SlidesOfReview(v, last)[k - |before|];
    } else {
      assert Slides(rt, reviews).value[k] == before[k];
      SlidesSound(rt, init, k);
      assert Slides(rt, reviews).value[k].review in init;
    }
  }

  /** `openLightbox(review, index)`: the first slide of this review showing its `index`-th URL, or -1. */
  function LightboxIndex(rt: Runtime, slides: seq<Slide>, review: Review, index: nat): (r: Attempt<int>)
    ensures r.Returned? ==> -1 <= r.value < |slides|
    ensures r.Returned? && r.value >= 0 ==> slides[r.value].review.id == review.id
  {
    match Coerce(rt, review.row.imageUrls)
    case Threw => Threw
    case Returned(v) =>
      var items := ArrayItems(v);
      Returned(Seqs.FindIndex(slides, (s: Slide) => s.review.id == review.id && index < |items| && items[index] == s.url))
  }

  /** Clicking a thumbnail of a listed review always opens the lightbox on a slide with that very image. */
  lemma LightboxFindsClickedImage(rt: Runtime, reviews: seq<Review>, r: nat, index: nat)
    requires Slides(rt, reviews).Returned?
    requires r < |reviews| && Coerce(rt, reviews[r].row.imageUrls).Returned?
    requires index < |ArrayItems(Coerce(rt, reviews[r].row.imageUrls).value)|
    ensures var k := LightboxIndex(rt, Slides(rt, reviews).value, reviews[r], index);
      k.Returned? && k.value >= 0
      && Slides(rt, reviews).value[k.value].url == ArrayItems(Coerce(rt, reviews[r].row.imageUrls).value)[index]
  {
    var slides := Slides(rt, reviews).value;
    var items := ArrayItems(Coerce(rt, reviews[r].row.imageUrls).value);
    SlidesComplete(rt, reviews, r, index);
    var p := (s: Slide) => s.review.id == reviews[r].id && index < |items| && items[index] == s.url;
    var j :| 0 <= j < |slides| && slides[j] == Slide(items[index], reviews[r]);
    assert p(slides[j]);
  }

  // ---------------------------------------------------------------------------
  // Reviewer lookup
  // ---------------------------------------------------------------------------

  /** `[...new Set(reviews.map(r => r.user_id))]`. */
  function ReviewerIds(reviews: seq<Review>): (ids: seq<int>)
    ensures Seqs.Distinct(ids)
    ensures forall i :: 0 <= i < |reviews| ==> reviews[i].row.userId in ids
    ensures forall i :: 0 <= i < |ids| ==> exists k :: 0 <= k < |reviews| && reviews[k].row.userId == ids[i]
  {
    var all := seq(|reviews|, i requires 0 <= i < |reviews| => reviews[i].row.userId);
    var ids := Seqs.Dedup(all);
    assert forall i :: 0 <= i < |reviews| ==> all[i] == reviews[i].row.userId;
    assert forall i :: 0 <= i < |ids| ==> ids[i] in all;
    ids
  }

  /** `fetchEmails`: runs only when there is a review, and maps each reviewer id found to its e-mail. */
  method FetchEmails(reviews: seq<Review>, profiles: Store.Table<ProfileRow>) returns (emails: Option<map<int, Option<string>>>)
    ensures reviews == [] ==> emails.None?
    ensures emails.Some? ==> forall id :: id in emails.value ==>
      id in ReviewerIds(reviews) && id in profiles.rows && emails.value[id] == Some(profiles.rows[id].email)
    ensures emails.Some? ==> forall id :: id in ReviewerIds(reviews) && id in profiles.rows ==> id in emails.value
  {
    if |reviews| == 0 {
      return None;
    }
    var ids := ReviewerIds(reviews);
    var ok :| true;
    if !ok {
      return None;
    }
    emails := Some(map id | id in ids && id in profiles.rows :: Some(profiles.rows[id].email));
  }

  // ---------------------------------------------------------------------------
  // Deleting a review
  // ---------------------------------------------------------------------------

  const ReviewsBucket: string := "reviews"
  const ReviewsMarker: string := "/storage/v1/object/public/reviews/"

  /** `decodeURIComponent(new URL(url).pathname.split(marker)[1])`; a URL without the
      marker yields the path "undefined". */
  function StoragePath(rt: Runtime, url: Json): Attempt<string> {
    match rt.parseUrl(RenderValue(url))
    case None => Threw
    case Some(u) =>
      var piece := match Text.SecondPiece(u.pathname, ReviewsMarker)
        case None => "undefined"
        case Some(p) => p;
      match rt.decodeUri(piece)
      case None => Threw
      case Some(d) => Returned(d)
  }

  /** The storage path recovered from a review image's public URL is the path it was uploaded to. */
  lemma StoragePathOfPublicUrl(rt: Runtime, url: string, encoded: string, path: string)
    requires rt.parseUrl(url).Some? && rt.parseUrl(url).value.pathname == ReviewsMarker + encoded
    requires !Text.Includes(encoded, ReviewsMarker)
    requires rt.decodeUri(encoded) == Some(path)
    ensures StoragePath(rt, JStr(url)) == Returned(path)
  {
    Text.SecondPieceAfterPrefix(ReviewsMarker, encoded);
  }

  /** The objects to remove for a review: none when it has no images; a throw aborts the delete. */
  function ImagePaths(rt: Runtime, imageUrls: Json): (r: Attempt<seq<string>>)
    ensures Coerce(rt, imageUrls).Threw? ==> r.Threw?
    ensures Coerce(rt, imageUrls).Returned? && ArrayItems(Coerce(rt, imageUrls).value) == [] ==> r == Returned([])
    ensures r.Returned? ==> |r.value| == |ArrayItems(Coerce(rt, imageUrls).value)|
  {
    match Coerce(rt, imageUrls)
    case Threw => Threw
    case Returned(v) => MapAll(ArrayItems(v), (u: Json) => StoragePath(rt, u))
  }

  /** The body of the 'lose' request. */
  function LoseRequest(user: SessionUser, profile: ProfileRow): ChangeRequest {
    ChangeRequest(Some(user.email), profile.name, Some(Loyalty.Lose(profile.points)), Some("lose"), None)
  }

  /** `handleDelete`, shared by the product page's list and the profile page: remove the images
      (when there are any), delete the row, take 5 points off and request the 'lose' mail.
      The results of the removal, the delete and the points update are not checked. */
  method DeleteReview(rt: Runtime, user: SessionUser, review: Review,
                      storage: Store.Storage, reviews: Store.Table<ReviewRow>,
                      profiles: Store.Table<ProfileRow>, outbox: Store.Outbox<ChangeRequest>)
    returns (refreshed: bool)
    requires reviews.Valid() && profiles.Valid()
    modifies storage, reviews, profiles, outbox
    ensures reviews.Valid() && profiles.Valid()
    ensures ImagePaths(rt, review.row.imageUrls).Threw? ==>
      !refreshed && storage.buckets == old(storage.buckets) && reviews.rows == old(reviews.rows)
      && profiles.rows == old(profiles.rows) && outbox.sent == old(outbox.sent)
    ensures ImagePaths(rt, review.row.imageUrls).Returned? ==>
      var paths := ImagePaths(rt, review.row.imageUrls).value;
      (storage.buckets == old(storage.buckets)
        || (paths != [] && storage.buckets == old(storage.buckets)[ReviewsBucket :=
              old(storage.Objects(ReviewsBucket)) - set p | p in paths]))
      && (reviews.rows == old(reviews.rows) || reviews.rows == old(reviews.rows) - {review.id})
      && (profiles.rows == old(profiles.rows)
          || (user.id in old(profiles.rows) && profiles.rows == old(profiles.rows)[user.id :=
                old(profiles.rows)[user.id].(points := Some(Loyalty.Lose(old(profiles.rows)[user.id].points)))]))
      && (outbox.sent == old(outbox.sent)
          || (user.id in old(profiles.rows) && outbox.sent == old(outbox.sent) + [LoseRequest(user, old(profiles.rows)[user.id])]))
    ensures refreshed && outbox.sent == old(outbox.sent) ==> profiles.rows == old(profiles.rows)
  {
    var plan := ImagePaths(rt, review.row.imageUrls);
    if plan.Threw? {
      return false;
    }
    var paths := plan.value;
    if |paths| > 0 {
      var _ := storage.Remove(ReviewsBucket, paths);
    }
    var _ := reviews.DeleteKey(review.id);
    var profile := profiles.Get(user.id);
    if profile.Some? {
      var updated := Loyalty.Lose(profile.value.points);
      var _ := profiles.UpdateKey(user.id, (p: ProfileRow) => p.(points := Some(updated)));
      var delivered := outbox.Send(LoseRequest(user, profile.value));
      if !delivered {
        return false;
      }
    }
    return true;
  }
}
