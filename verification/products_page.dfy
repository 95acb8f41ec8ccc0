/** The products page: the product form with its image staging area. The
    form holds the existing images kept from the edited row and the files
    staged for upload; together they never exceed four. Files are accepted
    a whole batch at a time, only with an allowed type and size. */
module ProductsPage {
  import opened Basics
  import opened Text
  import opened Listing
  import opened Forms
  import opened Search
  import opened ProductsService

  /** The form of a new product. */
  const Defaults: Record := map[
    "name" := JStr(""), "category_id" := JStr(""), "brand_id" := JStr(""),
    "price" := JStr(""), "quantity" := JStr(""), "description" := JStr(""),
    "usage_instructions" := JStr(""), "is_featured" := JBool(false), "order_number" := JStr("")]

  /** MIME types the file input accepts. */
  const AllowedTypes: set<string> := {"image/jpeg", "image/jpg", "image/png", "image/webp"}

  /** Largest accepted file: 5 MiB. */
  const MaxFileSize: nat := 5 * 1024 * 1024

  /** An image already stored on the edited row, taken from column `index`. */
  datatype ExistingImage = ExistingImage(index: SlotIndex, url: Option<string>, path: string)

  /** `existing-${index}`. */
  function ExistingId(e: ExistingImage): string {
    "existing-" + NatToString(e.index)
  }

  /** A thumbnail in the form: an existing image, or a staged file under the
      id its preview was given. */
  datatype Preview = OfExisting(image: ExistingImage) | OfFile(id: string, file: File)

  function PreviewId(p: Preview): string {
    match p
    case OfExisting(e) => ExistingId(e)
    case OfFile(id, _) => id
  }

  /** `preview.file`: undefined for an existing image. */
  function PreviewFile(p: Preview): Option<File> {
    match p
    case OfExisting(_) => None
    case OfFile(_, f) => Some(f)
  }

  /** The page's form state. */
  datatype State = State(
    form: Record,
    editing: Option<ProductView>,
    open: bool,
    existing: seq<ExistingImage>,
    staged: seq<File>,
    previews: seq<Preview>)

  function ImageCount(s: State): nat {
    |s.existing| + |s.staged|
  }

  /** The invariant every transition keeps: at most four images, and a
      closed form holds no images. */
  predicate Valid(s: State) {
    && ImageCount(s) <= MaxImages
    && (!s.open ==> s.existing == [] && s.staged == [] && s.previews == [])
  }

  /** The page as first rendered. */
  const Initial: State := State(Defaults, None, false, [], [], [])

  lemma InitialIsValid()
    ensures Valid(Initial)
  {
  }

  /** `resetForm`: defaults, no images, no edited row; visibility unchanged. */
  function Reset(s: State): (r: State)
    ensures r.form == Defaults && r.editing.None? && r.open == s.open
    ensures r.existing == [] && r.staged == [] && r.previews == []
  {
    State(Defaults, None, s.open, [], [], [])
  }

  /** "Add new": reset, then show the form. */
  function AddNew(s: State): (r: State)
    ensures Valid(r) && r.open && r.form == Defaults && r.editing.None?
  {
    Reset(s).(open := true)
  }

  /** `closeForm`: reset, then hide the form. */
  function CloseForm(s: State): (r: State)
    ensures Valid(r) && !r.open && r == Initial
  {
    Reset(s).(open := false)
  }

  /** Why a batch of files was refused, or that it was taken. */
  datatype Verdict = Accepted | TooMany | BadType | TooLarge

  datatype Change = Change(state: State, verdict: Verdict)

  predicate AllowedType(f: File) {
    f.mime in AllowedTypes
  }

  predicate AllowedSize(f: File) {
    f.size <= MaxFileSize
  }

  /** The previews the file reader adds for accepted files. */
  function FilePreviews(files: seq<File>, previewId: File -> string): (r: seq<Preview>)
    ensures |r| == |files|
    ensures forall i :: 0 <= i < |files| ==> r[i] == OfFile(previewId(files[i]), files[i])
  {
    seq(|files|, i requires 0 <= i < |files| => OfFile(previewId(files[i]), files[i]))
  }

  /** `handleImageChange`: refuse the whole batch when it would take the
      count past four, when any file has a type outside the allow-list, or
      when any file is larger than 5 MiB, in that order of checks; otherwise
      stage every file, in order. */
  function HandleImageChange(s: State, files: seq<File>, previewId: File -> string): (r: Change)
    ensures ImageCount(s) + |files| > MaxImages ==> r == Change(s, TooMany)
    ensures ImageCount(s) + |files| <= MaxImages && (exists i :: 0 <= i < |files| && !AllowedType(files[i])) ==>
              r == Change(s, BadType)
    ensures ImageCount(s) + |files| <= MaxImages && (forall i :: 0 <= i < |files| ==> AllowedType(files[i]))
              && (exists i :: 0 <= i < |files| && !AllowedSize(files[i])) ==>
              r == Change(s, TooLarge)
    ensures r.verdict.Accepted? <==>
              ImageCount(s) + |files| <= MaxImages
              && (forall i :: 0 <= i < |files| ==> AllowedType(files[i]) && AllowedSize(files[i]))
    ensures !r.verdict.Accepted? ==> r.state == s
    ensures r.verdict.Accepted? ==>
              && r.state.staged == s.staged + files
              && r.state.existing == s.existing
              && r.state.form == s.form && r.state.editing == s.editing && r.state.open == s.open
              && r.state.previews == s.previews + FilePreviews(files, previewId)
              && ImageCount(r.state) <= MaxImages
  {
    if ImageCount(s) + |files| > MaxImages then Change(s, TooMany)
    else if exists i :: 0 <= i < |files| && !AllowedType(files[i]) then Change(s, BadType)
    else if exists i :: 0 <= i < |files| && !AllowedSize(files[i]) then Change(s, TooLarge)
    else Change(s.(staged := s.staged + files, previews := s.previews + FilePreviews(files, previewId)), Accepted)
  }

  /** The file input is only reachable inside the open form, where every
      batch keeps the invariant. */
  lemma ImageChangeKeepsValid(s: State, files: seq<File>, previewId: File -> string)
    requires Valid(s) && s.open
    ensures Valid(HandleImageChange(s, files, previewId).state)
  {
  }

  /** The first preview with the given id: `imagePreviews.find(...)`. */
  function FindPreview(previews: seq<Preview>, id: string): (r: Option<Preview>)
    ensures r.Some? ==> r.value in previews && PreviewId(r.value) == id
    ensures r.None? ==> forall i :: 0 <= i < |previews| ==> PreviewId(previews[i]) != id
  {
    if |previews| == 0 then None
    else if PreviewId(previews[0]) == id then Some(previews[0])
    else FindPreview(previews[1..], id)
  }

  /** `removeImage`: an existing image leaves the existing list only; a
      staged file leaves the staged list only, found as the file of the
      first preview with that id; in both cases every preview with that id
      goes. */
  function RemoveImage(s: State, id: string, isExisting: bool): (r: State)
    ensures r.form == s.form && r.editing == s.editing && r.open == s.open
    ensures isExisting ==> r.staged == s.staged
    ensures isExisting ==> Subseq(r.existing, s.existing)
    ensures isExisting ==> forall e :: e in r.existing <==> e in s.existing && ExistingId(e) != id
    ensures !isExisting ==> r.existing == s.existing
    ensures !isExisting ==> Subseq(r.staged, s.staged)
    ensures !isExisting ==> forall f :: f in r.staged <==> f in s.staged && !RemovedFile(s.previews, id, f)
    ensures Subseq(r.previews, s.previews)
    ensures forall p :: p in r.previews <==> p in s.previews && PreviewId(p) != id
    ensures ImageCount(r) <= ImageCount(s)
  {
    var previews := Filter(s.previews, (p: Preview) => PreviewId(p) != id);
    if isExisting then
      s.(existing := Filter(s.existing, (e: ExistingImage) => ExistingId(e) != id), previews := previews)
    else
      s.(staged := Filter(s.staged, (f: File) => !RemovedFile(s.previews, id, f)), previews := previews)
  }

  /** f is the file of the first preview carrying the id. */
  predicate RemovedFile(previews: seq<Preview>, id: string, f: File) {
    var found := FindPreview(previews, id);
    found.Some? && PreviewFile(found.value) == Some(f)
  }

  /** Removing by an id no preview carries leaves the staged files alone;
      removing a staged file's own id takes that file out. */
  lemma RemoveStagedByPreview(s: State, id: string, f: File)
    ensures (forall p :: p in s.previews ==> PreviewId(p) != id) ==> RemoveImage(s, id, false).staged == s.staged
    ensures FindPreview(s.previews, id) == Some(OfFile(id, f)) ==> f !in RemoveImage(s, id, false).staged
  {
  }

  lemma RemoveImageKeepsValid(s: State, id: string, isExisting: bool)
    requires Valid(s) && s.open
    ensures Valid(RemoveImage(s, id, isExisting))
  {
  }

  /** Whether the file input is rendered. */
  predicate ShowsFileInput(s: State) {
    ImageCount(s) < MaxImages
  }

  /** Whether the four-image notice is rendered. */
  predicate ShowsLimitNotice(s: State) {
    ImageCount(s) >= MaxImages
  }

  /** Exactly one of the file input and the limit notice is shown, and with
      four images no batch of files is ever staged. */
  lemma InputOrNotice(s: State, files: seq<File>, previewId: File -> string)
    ensures ShowsFileInput(s) != ShowsLimitNotice(s)
    ensures ShowsFileInput(s) <==> ImageCount(s) < MaxImages
    ensures ImageCount(s) == MaxImages && |files| > 0 ==>
              !ShowsFileInput(s) && HandleImageChange(s, files, previewId) == Change(s, TooMany)
  {
  }

  /** A non-empty image column of a row: its position and its path. */
  datatype Column = Column(index: SlotIndex, path: string)

  /** The non-empty columns from position `from` on, in column order. */
  function FilledColumns(slots: Slots, from: nat): (r: seq<Column>)
    requires from <= MaxImages
    ensures |r| <= MaxImages - from
    ensures forall i :: 0 <= i < |r| ==> from <= r[i].index && slots[r[i].index] == Some(r[i].path) && r[i].path != ""
    ensures forall i, j :: 0 <= i < j < |r| ==> r[i].index < r[j].index
    decreases MaxImages - from
  {
    if from == MaxImages then []
    else if Filled(slots[from]) then [Column(from, slots[from].value)] + FilledColumns(slots, from + 1)
    else FilledColumns(slots, from + 1)
  }

  /** `columns.map(c => c.path)`. */
  function ColumnPaths(cols: seq<Column>): (r: seq<string>)
    ensures |r| == |cols|
    ensures forall i :: 0 <= i < |cols| ==> r[i] == cols[i].path
  {
    if |cols| == 0 then [] else [cols[0].path] + ColumnPaths(cols[1..])
  }

  /** The non-empty columns carry exactly the paths the service reads back
      from the row, in the same order. */
  lemma {:induction false} ColumnsArePaths(slots: Slots, from: nat)
    requires from <= MaxImages
    ensures ColumnPaths(FilledColumns(slots, from)) == FilledPaths(slots[from..])
    decreases MaxImages - from
  {
    if from < MaxImages {
      ColumnsArePaths(slots, from + 1);
      assert slots[from..][1..] == slots[from + 1..];
      var rest := FilledColumns(slots, from + 1);
      if Filled(slots[from]) {
        var c := Column(from, slots[from].value);
        assert ([c] + rest)[1..] == rest;
        assert ColumnPaths([c] + rest) == [c.path] + ColumnPaths(rest);
        assert FilledPaths(slots[from..]) == [c.path] + FilledPaths(slots[from + 1..]);
      } else {
        assert FilledPaths(slots[from..]) == FilledPaths(slots[from + 1..]);
      }
    }
  }

  /** `existingImages.map(img => img.path)`, the paths `handleSubmit` keeps.
      It is the same projection as ColumnPaths, taken over the form's
      existing images rather than the row's columns: an image can be
      removed from the form, so the two lists differ after a removal and
      coincide after an untouched edit (EditThenSaveKeepsImages). */
  function Paths(images: seq<ExistingImage>): (r: seq<string>)
    ensures |r| == |images|
    ensures forall i :: 0 <= i < |images| ==> r[i] == images[i].path
  {
    if |images| == 0 then [] else [images[0].path] + Paths(images[1..])
  }

  /** The url `handleEdit` gives a column as written: `imageUrls` at the
      column's position, although `imageUrls` skips empty columns. */
  function UrlAsWritten(urls: seq<string>, c: Column): Option<string> {
    if c.index < |urls| then Some(urls[c.index]) else None
  }

  /** The existing images as written in `handleEdit`. */
  function ExistingImagesAsWritten(view: ProductView): (r: seq<ExistingImage>)
    ensures Paths(r) == FilledPaths(view.product.slots)
    ensures forall i :: 0 <= i < |r| ==> view.product.slots[r[i].index] == Some(r[i].path)
    ensures forall i :: 0 <= i < |r| ==>
              r[i].url == if r[i].index < |view.imageUrls| then Some(view.imageUrls[r[i].index]) else None
  {
    var cols := FilledColumns(view.product.slots, 0);
    ColumnsArePaths(view.product.slots, 0);
    var r := seq(|cols|, i requires 0 <= i < |cols| =>
      ExistingImage(cols[i].index, UrlAsWritten(view.imageUrls, cols[i]), cols[i].path));
    assert Paths(r) == ColumnPaths(cols);
    r
  }

  /** The existing images with the url of their own path. */
  function ExistingImages(view: ProductView): (r: seq<ExistingImage>)
    ensures Paths(r) == FilledPaths(view.product.slots)
    ensures |r| <= MaxImages
    ensures forall i :: 0 <= i < |r| ==> r[i].url == Some(BaseUrl + r[i].path)
    ensures forall i :: 0 <= i < |r| ==> view.product.slots[r[i].index] == Some(r[i].path)
  {
    var cols := FilledColumns(view.product.slots, 0);
    ColumnsArePaths(view.product.slots, 0);
    var r := seq(|cols|, i requires 0 <= i < |cols| =>
      ExistingImage(cols[i].index, Some(BaseUrl + cols[i].path), cols[i].path));
    assert Paths(r) == ColumnPaths(cols);
    r
  }

  /** A product whose image1 is empty and whose image2 and image3 hold
      `a` and `b` (say "a.png" and "b.png"): `handleEdit` shows b's picture
      for image2, and no picture at all for image3. */
  lemma EditUrlMisaligned(a: string, b: string)
    requires a != "" && b != ""
    ensures
      var slots: Slots := [None, Some(a), Some(b), None];
      var view := ProductView(Product(7, map[], slots), ImageUrls(slots));
      ExistingImagesAsWritten(view) == [ExistingImage(1, Some(BaseUrl + b), a), ExistingImage(2, None, b)]
  {
    var slots: Slots := [None, Some(a), Some(b), None];
    GappedColumns(a, b);
    var cols := FilledColumns(slots, 0);
    var urls := ImageUrls(slots);
    assert |urls| == 2 && urls[1] == BaseUrl + b;
    var r := ExistingImagesAsWritten(ProductView(Product(7, map[], slots), urls));
    assert r[0] == ExistingImage(1, UrlAsWritten(urls, cols[0]), a);
    assert r[1] == ExistingImage(2, UrlAsWritten(urls, cols[1]), b);
  }

  /** The columns and paths of the counterexample's row. */
  lemma GappedColumns(a: string, b: string)
    requires a != "" && b != ""
    ensures FilledColumns([None, Some(a), Some(b), None], 0) == [Column(1, a), Column(2, b)]
    ensures FilledPaths([None, Some(a), Some(b), None]) == [a, b]
  {
    var slots: Slots := [None, Some(a), Some(b), None];
    var cols := FilledColumns(slots, 0);
    assert cols == [Column(1, a), Column(2, b)] by {
      assert FilledColumns(slots, 3) == [];
      assert FilledColumns(slots, 2) == [Column(2, b)];
    }
    ColumnsArePaths(slots, 0);
    assert slots[0..] == slots;
    assert ColumnPaths(cols) == [a, b];
  }

  /** `handleEdit`: remember the row, seed each field from it with the
      default as fallback, list its non-empty image columns in column order
      as existing images and previews, and show the form. Staged files are
      left as they are. */
  function HandleEdit(s: State, view: ProductView): (r: State)
    ensures r.open && r.editing == Some(view) && r.staged == s.staged
    ensures r.form == SeedOrDefault(view.product.fields, Defaults)
    ensures Paths(r.existing) == FilledPaths(view.product.slots)
    ensures forall i :: 0 <= i < |r.existing| ==> r.existing[i].url == Some(BaseUrl + r.existing[i].path)
    ensures |r.previews| == |r.existing| && forall i :: 0 <= i < |r.existing| ==> r.previews[i] == OfExisting(r.existing[i])
  {
    var existing := ExistingImages(view);
    State(SeedOrDefault(view.product.fields, Defaults), Some(view), true, existing, s.staged,
          seq(|existing|, i requires 0 <= i < |existing| => OfExisting(existing[i])))
  }

  /** The edit button lies behind the modal form, so it is only reached
      with the form closed, where the invariant carries over. */
  lemma EditKeepsValid(s: State, view: ProductView)
    requires Valid(s) && !s.open
    ensures Valid(HandleEdit(s, view))
  {
  }

  /** What a submit did: the service run, the next state and whether the
      list was reloaded. */
  datatype Submitted = Submitted(run: Run<Result<Product>>, state: State, reload: bool)

  /** `handleSubmit`: update the edited row keeping exactly the paths of the
      remaining existing images, or create a new one; then reload and close
      the form. The service reports failures as values, so the form closes
      and resets whatever the reply. */
  function Submit(s: State, b: Backend): (r: Submitted)
    ensures s.editing.Some? ==>
      r.run == UpdateProduct(s.editing.value.product.id, s.form, s.staged, Paths(s.existing), b)
    ensures s.editing.None? ==> r.run == CreateProduct(s.form, s.staged, b)
    ensures r.reload && r.state == Initial
  {
    var run :=
      match s.editing
      case Some(view) => UpdateProduct(view.product.id, s.form, s.staged, Paths(s.existing), b)
      case None => CreateProduct(s.form, s.staged, b);
    Submitted(run, CloseForm(s), true)
  }

  /** Editing a row and saving it without touching its images writes back
      the same non-empty paths, in the same order, to image1 onwards. */
  lemma EditThenSaveKeepsImages(s: State, view: ProductView, b: Backend)
    requires !s.open && Valid(s)
    ensures
      var e := HandleEdit(s, view);
      var run := Submit(e, b).run;
      run.calls == [UpdateRow(view.product.id, e.form, PackSlots(FilledPaths(view.product.slots)))]
      && FilledPaths(PackSlots(FilledPaths(view.product.slots))) == FilledPaths(view.product.slots)
  {
    var paths := FilledPaths(view.product.slots);
    UpdateWithoutFiles(view.product.id, HandleEdit(s, view).form, paths, b);
    PackThenReadBack(paths);
    assert Take(paths + [], MaxImages) == paths by {
      assert paths + [] == paths;
    }
  }

  /** `filteredProducts`: the products whose name contains the term, in
      their original order; the empty term keeps every product. */
  function FilterProducts(products: seq<ProductView>, term: string): (r: seq<ProductView>)
    ensures Subseq(r, products)
    ensures forall p :: p in r <==> p in products && NameMatches(p.product.fields, term)
    ensures |r| == CountWhere(products, (p: ProductView) => NameMatches(p.product.fields, term))
    ensures term == "" && (forall i :: 0 <= i < |products| ==> Get(products[i].product.fields, "name").JStr?) ==>
              r == products
  {
    assert term == "" ==> (forall i :: 0 <= i < |products| && Get(products[i].product.fields, "name").JStr? ==>
        NameMatches(products[i].product.fields, term)) by {
      if term == "" {
        forall i | 0 <= i < |products| && Get(products[i].product.fields, "name").JStr?
          ensures NameMatches(products[i].product.fields, term) {
          EmptyTermMatchesText(Get(products[i].product.fields, "name"));
        }
      }
    }
    Filter(products, (p: ProductView) => NameMatches(p.product.fields, term))
  }
}
