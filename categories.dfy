/**
 * Creating and editing categories: the dialog that creates one with a cropped
 * cover image, the dialog that edits one (and renames it on its products), and
 * the admin's short form that creates a category from a name alone.  The
 * slug written to `categoria` and `filter` is `Text.Slug` of the title.
 */
module Categories {
  import opened Wrappers
  import opened Rows
  import Text
  import Store

  const CategoryBucket: string := "categorias"

  /** `categoria-${Date.now()}.webp`. */
  function CoverName(stamp: int): string {
    "categoria-" + Text.IntToString(stamp) + ".webp"
  }

  /** The columns the backend fills when an insert leaves them out: a new category is
      visible and not pinned. */
  const DefaultVisible: bool := true
  const DefaultPinned: bool := false

  /** The row `handleCreate` inserts. */
  function NewCategory(title: string, description: string, imageUrl: string): (row: CategoryRow)
    ensures row.categoria == Text.Slug(title) && row.filter == Some(row.categoria)
    ensures row.title == Some(title) && row.description == Some(description) && row.imageUrl == Some(imageUrl)
  {
    CategoryRow(Some(title), Some(description), Some(imageUrl), Text.Slug(title), Some(Text.Slug(title)),
                DefaultVisible, DefaultPinned)
  }

  /** The columns `handleUpdate` writes; the visibility flags are kept. */
  function Edited(row: CategoryRow, title: string, description: string, imageUrl: Option<string>): (r: CategoryRow)
    ensures r.categoria == Text.Slug(title) && r.filter == Some(r.categoria)
    ensures r.title == Some(title) && r.description == Some(description) && r.imageUrl == imageUrl
    ensures r.visible == row.visible && r.pinned == row.pinned
  {
    row.(title := Some(title), description := Some(description), imageUrl := imageUrl,
         categoria := Text.Slug(title), filter := Some(Text.Slug(title)))
  }

  /** Creating or editing a category twice with the same title gives the same slug as
      slugging the slug: slugs are stable under re-saving. */
  lemma SlugStable(title: string)
    ensures Text.Slug(NewCategory(title, "", "").categoria) == NewCategory(title, "", "").categoria
    ensures Edited(NewCategory(title, "", ""), title, "", None).categoria == NewCategory(title, "", "").categoria
  {
    Text.SlugIdempotent(title);
  }

  /** `a || ''`. */
  function OrEmpty(a: Option<string>): string {
    if a.Some? then a.value else ""
  }

  class CreateCategoryDialog {
    var title: string
    var description: string
    var imageSrc: Option<string>
    var zoom: real
    var loading: bool
    var success: bool

    constructor ()
      ensures title == "" && description == "" && imageSrc.None? && zoom == 1.0 && !loading && !success
    {
      title := "";
      description := "";
      imageSrc := None;
      zoom := 1.0;
      loading := false;
      success := false;
    }

    /** The create button: everything filled in and nothing running. */
    predicate CanCreate()
      reads this
    {
      !loading && title != "" && description != "" && imageSrc.Some? && imageSrc.value != ""
    }

    /** `handleCreate`.  `processed`: cropping and compressing succeeded.  `onSuccess(row)` is a
        message to the owner; its failure is a throw, which skips the reset. */
    method HandleCreate(stamp: int, processed: bool, storage: Store.Storage,
                        categories: Store.Table<CategoryRow>, owner: Store.Outbox<(int, CategoryRow)>)
      requires categories.Valid()
      modifies this, storage, categories, owner
      ensures categories.Valid() && !loading
      ensures forall b :: b != CategoryBucket ==> storage.Objects(b) == old(storage.Objects(b))
      ensures storage.Objects(CategoryBucket) == old(storage.Objects(CategoryBucket))
        || storage.Objects(CategoryBucket) == old(storage.Objects(CategoryBucket)) + {CoverName(stamp)}
      ensures categories.rows == old(categories.rows)
        || (CoverName(stamp) in storage.Objects(CategoryBucket)
            && categories.rows == old(categories.rows)[old(categories.next) :=
                 NewCategory(old(title), old(description), Store.PublicUrl(storage.base, CategoryBucket, CoverName(stamp)))])
      ensures !processed ==> categories.rows == old(categories.rows) && storage.buckets == old(storage.buckets)
      ensures owner.sent == old(owner.sent)
        || (categories.rows != old(categories.rows)
            && owner.sent == old(owner.sent) + [(old(categories.next), categories.rows[old(categories.next)])])
      ensures success <==> owner.sent != old(owner.sent) || (old(success) && owner.sent == old(owner.sent))
      ensures owner.sent != old(owner.sent) ==>
        title == "" && description == "" && imageSrc.None? && zoom == 1.0
      ensures owner.sent == old(owner.sent) ==>
        title == old(title) && description == old(description) && imageSrc == old(imageSrc) && zoom == old(zoom)
    {
      loading := true;
      if processed {
        var saved := SaveCategory(stamp, title, description, storage, categories);
        if saved.Some? {
          var told := owner.Send(saved.value);
          if told {
            success := true;
            title := "";
            description := "";
            imageSrc := None;
            zoom := 1.0;
          }
        }
      }
      loading := false;
    }
  }

  /** The upload of the cover and the insert of the row, which `handleCreate` awaits in
      turn: the new id and row when both succeed, and no insert after a failed upload. */
  method SaveCategory(stamp: int, title: string, description: string, storage: Store.Storage,
                      categories: Store.Table<CategoryRow>)
    returns (saved: Option<(int, CategoryRow)>)
    requires categories.Valid()
    modifies storage, categories
    ensures categories.Valid()
    ensures forall b :: b != CategoryBucket ==> storage.Objects(b) == old(storage.Objects(b))
    ensures storage.Objects(CategoryBucket) == old(storage.Objects(CategoryBucket))
      || storage.Objects(CategoryBucket) == old(storage.Objects(CategoryBucket)) + {CoverName(stamp)}
    ensures saved.None? ==> categories.rows == old(categories.rows)
    ensures saved.Some? ==>
      saved.value.0 !in old(categories.rows)
      && CoverName(stamp) in storage.Objects(CategoryBucket)
      && saved.value == (old(categories.next), NewCategory(title, description, Store.PublicUrl(storage.base, CategoryBucket, CoverName(stamp))))
      && categories.rows == old(categories.rows)[old(categories.next) := saved.value.1]
  {
    saved := None;
    var fileName := CoverName(stamp);
    var uploaded := storage.Upload(CategoryBucket, fileName, false);
    if uploaded {
      var row := NewCategory(title, description, Store.PublicUrl(storage.base, CategoryBucket, fileName));
      var inserted, id := categories.Insert(row);
      if inserted {
        saved := Some((id, row));
      }
    }
  }

  class EditCategoryDialog {
    var categoryId: int
    var category: CategoryRow
    var title: string
    var description: string
    var imageSrc: Option<string>
    var loading: bool
    var success: bool

    constructor (id: int, category: CategoryRow)
      ensures categoryId == id && this.category == category
      ensures title == OrEmpty(category.title) && description == OrEmpty(category.description)
      ensures imageSrc.None? && !loading && !success
    {
      categoryId := id;
      this.category := category;
      title := OrEmpty(category.title);
      description := OrEmpty(category.description);
      imageSrc := None;
      loading := false;
      success := false;
    }

    /** The effect on a new `category` prop: the text fields are reloaded from it. */
    method ShowCategory(id: int, c: CategoryRow)
      modifies this`categoryId, this`category, this`title, this`description
      ensures categoryId == id && category == c
      ensures title == OrEmpty(c.title) && description == OrEmpty(c.description)
    {
      categoryId := id;
      category := c;
      title := OrEmpty(c.title);
      description := OrEmpty(c.description);
    }

    /** `handleUpdate`: a new cover is uploaded only when an image was chosen; the row is then
        updated, and only after that do its products take the new title.  The products update
        is not checked. */
    method HandleUpdate(stamp: int, processed: bool, storage: Store.Storage,
                        categories: Store.Table<CategoryRow>, products: Store.Table<ProductRow>,
                        owner: Store.Outbox<()>)
      requires categories.Valid() && products.Valid()
      modifies this`loading, this`success, storage, categories, products, owner
      ensures categories.Valid() && products.Valid() && !loading
      ensures forall b :: b != CategoryBucket ==> storage.Objects(b) == old(storage.Objects(b))
      ensures imageSrc.None? ==> storage.buckets == old(storage.buckets)
      ensures imageSrc.Some? && categories.rows != old(categories.rows) ==>
        CoverName(stamp) in storage.Objects(CategoryBucket)
      ensures categories.rows == old(categories.rows)
        || categories.rows == EditedRows(old(categories.rows), categoryId, title, description,
                                         CoverUrl(imageSrc, category.imageUrl, storage.base, stamp))
      ensures (products.rows != old(products.rows) || owner.sent != old(owner.sent)) ==>
        categories.rows == EditedRows(old(categories.rows), categoryId, title, description,
                                      CoverUrl(imageSrc, category.imageUrl, storage.base, stamp))
      ensures products.rows == old(products.rows)
        || products.rows == RenamedProducts(old(products.rows), categoryId, title)
      ensures owner.sent == old(owner.sent) || owner.sent == old(owner.sent) + [()]
      ensures success <==> owner.sent != old(owner.sent) || (old(success) && owner.sent == old(owner.sent))
    {
      loading := true;
      var ready, imageUrl := UploadCover(stamp, processed, imageSrc.Some?, category.imageUrl, storage);
      if ready {
        var id, t, d := categoryId, title, description;
        var updated := categories.UpdateKey(id, (r: CategoryRow) => Edited(r, t, d, imageUrl));
        if updated {
          var _ := products.UpdateWhere((p: ProductRow) => p.categoryId == Some(id), (p: ProductRow) => p.(categoryName := Some(t)));
          var told := owner.Send(());
          if told {
            success := true;
          }
        }
      }
      loading := false;
    }
  }

  /** The cover step of `handleUpdate`: nothing to do without a chosen image; otherwise the
      crop and the upload must both succeed, and the URL is the new object's. */
  method UploadCover(stamp: int, processed: bool, chosen: bool, current: Option<string>, storage: Store.Storage)
    returns (ready: bool, imageUrl: Option<string>)
    modifies storage
    ensures forall b :: b != CategoryBucket ==> storage.Objects(b) == old(storage.Objects(b))
    ensures !chosen ==> ready && imageUrl == current && storage.buckets == old(storage.buckets)
    ensures chosen && ready ==>
      CoverName(stamp) in storage.Objects(CategoryBucket)
      && imageUrl == Some(Store.PublicUrl(storage.base, CategoryBucket, CoverName(stamp)))
  {
    ready, imageUrl := true, current;
    if chosen {
      ready := false;
      if processed {
        var fileName := CoverName(stamp);
        ready := storage.Upload(CategoryBucket, fileName, false);
        imageUrl := Some(Store.PublicUrl(storage.base, CategoryBucket, fileName));
      }
    }
  }

  /** The cover an edit saves: the current one unless an image was chosen. */
  function CoverUrl(imageSrc: Option<string>, current: Option<string>, base: string, stamp: int): (url: Option<string>)
    ensures imageSrc.None? ==> url == current
    ensures imageSrc.Some? ==> url == Some(Store.PublicUrl(base, CategoryBucket, CoverName(stamp)))
  {
    if imageSrc.None? then current else Some(Store.PublicUrl(base, CategoryBucket, CoverName(stamp)))
  }

  /** `update(...).eq('id', id)`: the row with that id, when there is one, takes the edit. */
  function EditedRows(rows: map<int, CategoryRow>, id: int, title: string, description: string,
                      imageUrl: Option<string>): (r: map<int, CategoryRow>)
    ensures r.Keys == rows.Keys
    ensures forall k :: k in rows && k != id ==> r[k] == rows[k]
    ensures id in rows ==> r[id] == Edited(rows[id], title, description, imageUrl)
  {
    if id in rows then rows[id := Edited(rows[id], title, description, imageUrl)] else rows
  }

  /** `update({ category_name: title }).eq('category_id', id)` on products. */
  function RenamedProducts(rows: map<int, ProductRow>, id: int, title: string): (r: map<int, ProductRow>)
    ensures r.Keys == rows.Keys
    ensures forall k :: k in rows ==>
      r[k] == if rows[k].categoryId == Some(id) then rows[k].(categoryName := Some(title)) else rows[k]
  {
    Store.UpdatedRows(rows, (p: ProductRow) => p.categoryId == Some(id), (p: ProductRow) => p.(categoryName := Some(title)))
  }

  class CreateCategoryForm {
    var categoryName: string
    var isSubmitting: bool

    constructor ()
      ensures categoryName == "" && !isSubmitting
    {
      categoryName := "";
      isSubmitting := false;
    }

    /** `handleSubmit`: a blank name is refused; otherwise the trimmed name is inserted, the
        field cleared and the new row handed to the owner.  On an insert error the name stays. */
    method HandleSubmit(categories: Store.Table<CategoryRow>, owner: Store.Outbox<Option<(int, CategoryRow)>>)
      returns (inserted: bool)
      requires categories.Valid()
      modifies this, categories, owner
      ensures categories.Valid()
      ensures Text.Trim(old(categoryName)) == "" ==> !inserted && isSubmitting == old(isSubmitting)
      ensures Text.Trim(old(categoryName)) != "" ==> !isSubmitting
      ensures !inserted ==>
        (categories.rows == old(categories.rows) && categoryName == old(categoryName) && owner.sent == old(owner.sent))
      ensures inserted ==>
        Text.Trim(old(categoryName)) != "" && categoryName == ""
        && categories.rows == old(categories.rows)[old(categories.next) := NameOnly(Text.Trim(old(categoryName)))]
        && (owner.sent == old(owner.sent)
            || owner.sent == old(owner.sent) + [Some((old(categories.next), NameOnly(Text.Trim(old(categoryName)))))])
    {
      var name := Text.Trim(categoryName);
      if name == "" {
        return false;
      }
      isSubmitting := true;
      var id;
      inserted, id := categories.Insert(NameOnly(name));
      isSubmitting := false;
      if !inserted {
        return;
      }
      categoryName := "";
      var _ := owner.Send(Some((id, NameOnly(name))));
    }

    /** The Cancel button: the owner is told that nothing was created. */
    method Cancel(owner: Store.Outbox<Option<(int, CategoryRow)>>)
      modifies owner
      ensures owner.sent == old(owner.sent) || owner.sent == old(owner.sent) + [None]
    {
      var _ := owner.Send(None);
    }
  }

  /** `{ categoria: name }`: every other column takes its default. */
  function NameOnly(name: string): (row: CategoryRow)
    ensures row.categoria == name && row.title.None? && row.filter.None? && row.imageUrl.None?
  {
    CategoryRow(None, None, None, name, None, DefaultVisible, DefaultPinned)
  }

  /** The short form never stores a blank or padded name. */
  lemma FormNameIsTrimmed(name: string)
    requires Text.Trim(name) != ""
    ensures var c := NameOnly(Text.Trim(name)).categoria;
      c != "" && !Text.IsSpace(c[0]) && !Text.IsSpace(c[|c| - 1]) && Text.Trim(c) == c
  {
    Text.TrimIdempotent(name);
  }
}
