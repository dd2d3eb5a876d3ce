/**
 * The review form under a product: choosing up to six images (renamed to
 * timestamped webp files), then publishing: upload the images, insert the
 * review with their public URLs, add 5 points to the author's profile and
 * request the 'gain' mail, and clear the form.
 */
module ReviewForm {
  import opened Wrappers
  import opened Json
  import opened Rows
  import Text
  import Seqs
  import Store
  import Loyalty
  import Reviews

  const MaxImages: nat := 6

  /** `${Date.now()}_${file.name}.webp`. */
  function ReviewFileName(stamp: int, name: string): string {
    Text.IntToString(stamp) + "_" + name + ".webp"
  }

  /** `review-images/${user.id}/${file.name}`. */
  function ReviewImagePath(userId: int, fileName: string): string {
    "review-images/" + Text.IntToString(userId) + "/" + fileName
  }

  /** The public URLs of a list of uploaded review images, in order. */
  function PublicUrls(base: string, userId: int, files: seq<string>): (urls: seq<string>)
    ensures |urls| == |files|
    ensures forall i :: 0 <= i < |files| ==>
      urls[i] == Store.PublicUrl(base, Reviews.ReviewsBucket, ReviewImagePath(userId, files[i]))
  {
    seq(|files|, i requires 0 <= i < |files| => Store.PublicUrl(base, Reviews.ReviewsBucket, ReviewImagePath(userId, files[i])))
  }

  /** The JSON array stored in `image_urls`. */
  function UrlArray(urls: seq<string>): (v: Json)
    ensures v.JArr? && |v.items| == |urls|
    ensures forall i :: 0 <= i < |urls| ==> v.items[i] == JStr(urls[i])
  {
    JArr(seq(|urls|, i requires 0 <= i < |urls| => JStr(urls[i])))
  }

  /** The body of the 'gain' request. */
  function GainRequest(user: SessionUser, profile: ProfileRow): ChangeRequest {
    ChangeRequest(Some(user.email), profile.name, Some(Loyalty.Gain(profile.points)), Some("gain"), None)
  }

  /** Without a signed-in user the form is replaced by a sign-in hint. */
  predicate FormOffered(user: Option<SessionUser>) {
    user.Some?
  }

  class ReviewFormState {
    var selectedImages: seq<string>
    var comment: string
    var rating: int
    var loading: bool

    constructor ()
      ensures selectedImages == [] && comment == "" && rating == 0 && !loading
    {
      selectedImages := [];
      comment := "";
      rating := 0;
      loading := false;
    }

    /** `handleImageChange`: keep the first six files, each renamed with the time it was
        compressed; when a compression fails nothing is selected anew. */
    method HandleImageChange(files: seq<string>, clock: nat -> int, compressed: bool)
      modifies this`selectedImages
      ensures !compressed ==> selectedImages == old(selectedImages)
      ensures compressed ==> |selectedImages| == if |files| < MaxImages then |files| else MaxImages
      ensures compressed ==> forall i :: 0 <= i < |selectedImages| ==>
        selectedImages[i] == ReviewFileName(clock(i), files[i])
    {
      if !compressed {
        return;
      }
      var kept := Seqs.Take(files, MaxImages);
      var renamed: seq<string> := [];
      var i := 0;
      while i < |kept|
        invariant 0 <= i <= |kept|
        invariant |renamed| == i
        invariant forall k :: 0 <= k < i ==> renamed[k] == ReviewFileName(clock(k), kept[k])
      {
        renamed := renamed + [ReviewFileName(clock(i), kept[i])];
        i := i + 1;
      }
      selectedImages := renamed;
    }

    /** `handleSubmit`.  Returns whether the review row was inserted. */
    method HandleSubmit(user: SessionUser, productId: int, storage: Store.Storage,
                        reviews: Store.Table<ReviewRow>, profiles: Store.Table<ProfileRow>,
                        outbox: Store.Outbox<ChangeRequest>)
      returns (published: bool)
      requires reviews.Valid() && profiles.Valid()
      modifies this, storage, reviews, profiles, outbox
      ensures reviews.Valid() && profiles.Valid() && !loading
      ensures forall b :: b != Reviews.ReviewsBucket ==> storage.Objects(b) == old(storage.Objects(b))
      ensures old(storage.Objects(Reviews.ReviewsBucket)) <= storage.Objects(Reviews.ReviewsBucket)
      ensures !published ==>
        (reviews.rows == old(reviews.rows) && profiles.rows == old(profiles.rows)
         && outbox.sent == old(outbox.sent) && comment == old(comment) && rating == old(rating)
         && selectedImages == old(selectedImages))
      ensures published ==>
        (forall i :: 0 <= i < |old(selectedImages)| ==>
          ReviewImagePath(user.id, old(selectedImages)[i]) in storage.Objects(Reviews.ReviewsBucket))
        && reviews.rows == old(reviews.rows)[old(reviews.next) := ReviewRow(user.id, productId, old(comment), old(rating),
             UrlArray(PublicUrls(storage.base, user.id, old(selectedImages))))]
        && (profiles.rows == old(profiles.rows)
            || (user.id in old(profiles.rows) && profiles.rows == old(profiles.rows)[user.id :=
                  old(profiles.rows)[user.id].(points := Some(Loyalty.Gain(old(profiles.rows)[user.id].points)))]))
        && (outbox.sent == old(outbox.sent)
            || (user.id in old(profiles.rows) && outbox.sent == old(outbox.sent) + [GainRequest(user, old(profiles.rows)[user.id])]))
      ensures comment == old(comment) || (published && comment == "" && rating == 0 && selectedImages == [])
    {
      loading := true;
      published := false;
      var urls := UploadAll(storage, user.id, selectedImages);
      if urls.Some? {
        var row := ReviewRow(user.id, productId, comment, rating, UrlArray(urls.value));
        var inserted, _ := reviews.Insert(row);
        if inserted {
          published := true;
          var finished := AwardPoints(user, profiles, outbox);
          if finished {
            comment := "";
            rating := 0;
            selectedImages := [];
          }
        }
      }
      loading := false;
    }
  }

  /** The points step of `handleSubmit`: when the author's profile is read, its balance
      gains 5 points and the mail request is sent.  `finished` is false only when that
      request failed, which throws past the form reset. */
  method AwardPoints(user: SessionUser, profiles: Store.Table<ProfileRow>, outbox: Store.Outbox<ChangeRequest>)
    returns (finished: bool)
    requires profiles.Valid()
    modifies profiles, outbox
    ensures profiles.Valid()
    ensures profiles.rows == old(profiles.rows)
      || (user.id in old(profiles.rows) && profiles.rows == old(profiles.rows)[user.id :=
            old(profiles.rows)[user.id].(points := Some(Loyalty.Gain(old(profiles.rows)[user.id].points)))])
    ensures outbox.sent == old(outbox.sent)
      || (user.id in old(profiles.rows) && outbox.sent == old(outbox.sent) + [GainRequest(user, old(profiles.rows)[user.id])])
  {
    finished := true;
    var profile := profiles.Get(user.id);
    if profile.Some? {
      var updated := Loyalty.Gain(profile.value.points);
      var _ := profiles.UpdateKey(user.id, (p: ProfileRow) => p.(points := Some(updated)));
      finished := outbox.Send(GainRequest(user, profile.value));
    }
  }

  /** The uploads of `handleSubmit`, one file after the other, without overwriting; the first
      failure ends them and the submission. */
  method UploadAll(storage: Store.Storage, userId: int, files: seq<string>) returns (urls: Option<seq<string>>)
    modifies storage
    ensures forall b :: b != Reviews.ReviewsBucket ==> storage.Objects(b) == old(storage.Objects(b))
    ensures old(storage.Objects(Reviews.ReviewsBucket)) <= storage.Objects(Reviews.ReviewsBucket)
    ensures urls.Some? ==> urls.value == PublicUrls(storage.base, userId, files)
    ensures urls.Some? ==> forall i :: 0 <= i < |files| ==>
      ReviewImagePath(userId, files[i]) in storage.Objects(Reviews.ReviewsBucket)
  {
    var done: seq<string> := [];
    var i := 0;
    while i < |files|
      invariant 0 <= i <= |files|
      invariant done == PublicUrls(storage.base, userId, files[..i])
      invariant forall b :: b != Reviews.ReviewsBucket ==> storage.Objects(b) == old(storage.Objects(b))
      invariant old(storage.Objects(Reviews.ReviewsBucket)) <= storage.Objects(Reviews.ReviewsBucket)
      invariant forall k :: 0 <= k < i ==> ReviewImagePath(userId, files[k]) in storage.Objects(Reviews.ReviewsBucket)
    {
      var path := ReviewImagePath(userId, files[i]);
      var ok := storage.Upload(Reviews.ReviewsBucket, path, false);
      if !ok {
        return None;
      }
      done := done + [Store.PublicUrl(storage.base, Reviews.ReviewsBucket, path)];
      i := i + 1;
    }
    assert files[..i] == files;
    return Some(done);
  }

  /** The images of a review published by the form are exactly the objects that deleting it
      removes, given that the runtime parses each public URL back to the uploaded path. */
  lemma PublishedImagesAreRemovable(rt: Runtime, base: string, userId: int, files: seq<string>, encoded: seq<string>)
    requires |encoded| == |files|
    requires forall i :: 0 <= i < |files| ==>
      var url := Store.PublicUrl(base, Reviews.ReviewsBucket, ReviewImagePath(userId, files[i]));
      rt.parseUrl(url).Some? && rt.parseUrl(url).value.pathname == Reviews.ReviewsMarker + encoded[i]
      && !Text.Includes(encoded[i], Reviews.ReviewsMarker)
      && rt.decodeUri(encoded[i]) == Some(ReviewImagePath(userId, files[i]))
    ensures Reviews.ImagePaths(rt, UrlArray(PublicUrls(base, userId, files)))
      == Returned(seq(|files|, i requires 0 <= i < |files| => ReviewImagePath(userId, files[i])))
  {
    var urls := PublicUrls(base, userId, files);
    var v := UrlArray(urls);
    var f := (u: Json) => Reviews.StoragePath(rt, u);
    forall i | 0 <= i < |files|
      ensures f(v.items[i]) == Returned(ReviewImagePath(userId, files[i]))
    {
      Reviews.StoragePathOfPublicUrl(rt, urls[i], encoded[i], ReviewImagePath(userId, files[i]));
    }
    assert Coerce(rt, v) == Returned(v);
    assert ArrayItems(v) == v.items;
    var r := MapAll(v.items, f);
    assert r.Returned?;
    assert r.value == seq(|files|, i requires 0 <= i < |files| => ReviewImagePath(userId, files[i]));
  }
}
