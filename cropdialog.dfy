/**
 * The banner crop dialog: saving uploads the cropped image as a new
 * timestamped object of the banner bucket, removes every other object of the
 * bucket, and hands the new public URL to its owner.  Cropping and
 * compressing are one step that may fail.
 */
module CropDialog {
  import opened Wrappers
  import Text
  import Seqs
  import Store

  const BannerBucket: string := "portadacategorias"
  const ListLimit: nat := 1000
  const AltText: string := "Imagen recortada de banner Veta Creativa"

  /** `banner-${Date.now()}.webp`. */
  function BannerName(stamp: int): string {
    "banner-" + Text.IntToString(stamp) + ".webp"
  }

  /** The listed names other than the new one. */
  function ToDelete(names: seq<string>, newName: string): (r: seq<string>)
    ensures newName !in r
    ensures forall i :: 0 <= i < |r| ==> r[i] in names
    ensures forall i :: 0 <= i < |names| && names[i] != newName ==> names[i] in r
  {
    Seqs.Filter(names, (n: string) => n != newName)
  }

  class ImageCropDialog {
    var imageSrc: Option<string>
    var loading: bool
    var open: bool

    constructor (open: bool)
      ensures imageSrc.None? && !loading && this.open == open
    {
      imageSrc := None;
      loading := false;
      this.open := open;
    }

    /** `handleSave`.  `processed` says whether cropping and compressing succeeded; each
        `onConfirm(url, alt)` call is a message to the owner, whose failure is a throw. */
    method HandleSave(stamp: int, processed: bool, storage: Store.Storage,
                      owner: Store.Outbox<(string, string)>)
      modifies this, storage, owner
      ensures !loading
      ensures forall b :: b != BannerBucket ==> storage.Objects(b) == old(storage.Objects(b))
      ensures storage.Objects(BannerBucket) == old(storage.Objects(BannerBucket))
        || BannerName(stamp) in storage.Objects(BannerBucket)
      ensures storage.Objects(BannerBucket) <= old(storage.Objects(BannerBucket)) + {BannerName(stamp)}
      ensures owner.sent == old(owner.sent)
        || (BannerName(stamp) in storage.Objects(BannerBucket) && BannerName(stamp) !in old(storage.Objects(BannerBucket))
            && owner.sent == old(owner.sent) + [(Store.PublicUrl(storage.base, BannerBucket, BannerName(stamp)), AltText)])
      ensures !processed ==> storage.buckets == old(storage.buckets) && owner.sent == old(owner.sent)
      ensures (imageSrc.None? && !open) || (imageSrc == old(imageSrc) && open == old(open))
      ensures imageSrc.None? && !open && old(imageSrc.Some? || open) ==> |owner.sent| == |old(owner.sent)| + 1
    {
      loading := true;
      if !processed {
        loading := false;
        return;
      }
      var newName := BannerName(stamp);
      var uploaded := storage.Upload(BannerBucket, newName, false);
      if !uploaded {
        loading := false;
        return;
      }
      var publicUrl := Store.PublicUrl(storage.base, BannerBucket, newName);
      CleanUp(storage, newName);
      var confirmed := owner.Send((publicUrl, AltText));
      if confirmed {
        imageSrc := None;
        open := false;
      }
      loading := false;
    }
  }

  /** Everything the bucket lists, except the new object, is removed; list and removal errors
      are only logged.  When the bucket fits in one listing and both calls succeed, the new
      object is all that is left. */
  method CleanUp(storage: Store.Storage, newName: string)
    requires newName in storage.Objects(BannerBucket)
    modifies storage
    ensures newName in storage.Objects(BannerBucket)
    ensures storage.Objects(BannerBucket) <= old(storage.Objects(BannerBucket))
    ensures forall b :: b != BannerBucket ==> storage.Objects(b) == old(storage.Objects(b))
    ensures storage.Objects(BannerBucket) == {newName} || storage.Objects(BannerBucket) == old(storage.Objects(BannerBucket))
      || |old(storage.Objects(BannerBucket))| > ListLimit
  {
    var listed, names := storage.List(BannerBucket, ListLimit);
    if !listed {
      return;
    }
    var doomed := ToDelete(names, newName);
    if |doomed| > 0 {
      var _ := storage.Remove(BannerBucket, doomed);
    }
  }
}
