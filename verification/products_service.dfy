/** The products service: a product row keeps up to four image paths in the
    columns image1..image4; the service derives public URLs from them,
    uploads staged files one after another, packs retained and uploaded
    paths into the four columns, and releases a product's images from
    storage when it is deleted. Every backend call is a parameter of the
    operation, and each operation returns the calls it issued. */
module ProductsService {
  import opened Basics
  import opened Listing
  import Forms

  /** Public base path of the products-images bucket. */
  const BaseUrl: string := "https://cfqzjghngplhzybrbvej.supabase.co/storage/v1/object/public/products-images/"

  const MaxImages: nat := 4

  /** The image columns image1..image4, in that order; None is SQL null. */
  type Slots = s: seq<Option<string>> | |s| == MaxImages witness [None, None, None, None]

  /** Position of an image column: 0 is image1, 3 is image4. */
  type SlotIndex = k: nat | k < MaxImages

  const NoImages: Slots := [None, None, None, None]

  /** A file chosen in the browser; `handle` stands for the object's
      identity, which the page compares with `!==`. */
  datatype File = File(handle: nat, name: string, mime: string, size: nat)

  /** A product row: its id, its other columns and its four image columns. */
  datatype Product = Product(id: int, fields: Forms.Record, slots: Slots)

  /** A product as the list receives it: the row plus its `imageUrls`. */
  datatype ProductView = ProductView(product: Product, imageUrls: seq<string>)

  /** The calls the service makes to the table and the bucket. */
  datatype Call =
    | Upload(file: File)
    | Insert(data: Forms.Record, slots: Slots)
    | UpdateRow(id: int, data: Forms.Record, slots: Slots)
    | ReadImages(id: int)
    | Remove(paths: seq<string>)
    | DeleteRow(id: int)
    | ClearImage(id: int, slot: SlotIndex)

  /** The backend's answers. `readImages` yields no record when the pre-read
      finds nothing or fails; `deleteRow` yields its error, if any. */
  datatype Backend = Backend(
    upload: File -> Result<string>,
    insert: (Forms.Record, Slots) -> Result<Product>,
    updateRow: (int, Forms.Record, Slots) -> Result<Product>,
    readImages: int -> Option<Slots>,
    deleteRow: int -> Option<string>,
    clearImage: (int, SlotIndex) -> Result<Product>)

  /** The calls an operation issued and what it returned. */
  datatype Run<+T> = Run(calls: seq<Call>, reply: T)

  /** The non-empty image paths in column order: `[image1, ..., image4].filter(Boolean)`. */
  function FilledPaths(slots: seq<Option<string>>): (r: seq<string>)
    ensures |r| <= |slots|
    ensures forall i :: 0 <= i < |r| ==> r[i] != ""
    ensures forall p :: p in r <==> p != "" && Some(p) in slots
  {
    if |slots| == 0 then []
    else if Filled(slots[0]) then [slots[0].value] + FilledPaths(slots[1..])
    else FilledPaths(slots[1..])
  }

  /** `getImageUrls`: base URL plus path, for each non-empty column in order. */
  function ImageUrls(slots: Slots): (urls: seq<string>)
    ensures |urls| == |FilledPaths(slots)| <= MaxImages
    ensures forall i :: 0 <= i < |urls| ==> urls[i] == BaseUrl + FilledPaths(slots)[i]
  {
    var paths := FilledPaths(slots);
    seq(|paths|, i requires 0 <= i < |paths| => BaseUrl + paths[i])
  }

  /** `paths[i] || null`: the column value written for position i. */
  function SlotOf(paths: seq<string>, i: nat): (o: Option<string>)
    ensures Filled(o) <==> i < |paths| && paths[i] != ""
    ensures Filled(o) ==> o.value == paths[i]
  {
    if i < |paths| && paths[i] != "" then Some(paths[i]) else None
  }

  /** `{image1: paths[0] || null, ..., image4: paths[3] || null}`. */
  function PackSlots(paths: seq<string>): (slots: Slots)
    ensures forall i :: 0 <= i < MaxImages ==> slots[i] == SlotOf(paths, i)
  {
    [SlotOf(paths, 0), SlotOf(paths, 1), SlotOf(paths, 2), SlotOf(paths, 3)]
  }

  lemma FilledPathsAppend(a: seq<Option<string>>, b: seq<Option<string>>)
    ensures FilledPaths(a + b) == FilledPaths(a) + FilledPaths(b)
  {
    if |a| == 0 {
      assert a + b == b;
    } else {
      assert (a + b)[1..] == a[1..] + b;
      FilledPathsAppend(a[1..], b);
    }
  }

  /** Up to n paths starting at position `off`. */
  function Window(paths: seq<string>, off: nat, n: nat): seq<string>
    decreases n
  {
    if n == 0 || off >= |paths| then [] else [paths[off]] + Window(paths, off + 1, n - 1)
  }

  /** A window is a slice of the paths. */
  lemma {:induction false} WindowIsTake(paths: seq<string>, off: nat, n: nat)
    requires off <= |paths|
    ensures Window(paths, off, n) == Take(paths[off..], n)
    decreases n
  {
    if n > 0 && off < |paths| {
      WindowIsTake(paths, off + 1, n - 1);
      assert paths[off..][1..] == paths[off + 1..];
      var t := Take(paths[off..], n);
      assert t == [paths[off]] + Take(paths[off + 1..], n - 1);
    }
  }

  /** Columns filled from consecutive non-empty paths, starting at `off`,
      read back as exactly that stretch of paths. */
  lemma {:induction false} FilledPathsOfPacked(sl: seq<Option<string>>, paths: seq<string>, off: nat)
    requires forall i :: 0 <= i < |paths| ==> paths[i] != ""
    requires forall i :: 0 <= i < |sl| ==> sl[i] == SlotOf(paths, off + i)
    ensures FilledPaths(sl) == Window(paths, off, |sl|)
    decreases |sl|
  {
    if |sl| > 0 {
      var rest := sl[1..];
      assert forall i :: 0 <= i < |rest| ==> rest[i] == sl[i + 1];
      FilledPathsOfPacked(rest, paths, off + 1);
      if off < |paths| {
        assert FilledPaths(sl) == [paths[off]] + FilledPaths(rest);
      } else {
        assert FilledPaths(sl) == FilledPaths(rest);
      }
    }
  }

  /** Reading the columns back from packed non-empty paths gives the first
      four paths, in order. */
  lemma PackThenReadBack(paths: seq<string>)
    requires forall i :: 0 <= i < |paths| ==> paths[i] != ""
    ensures FilledPaths(PackSlots(paths)) == Take(paths, MaxImages)
  {
    FilledPathsOfPacked(PackSlots(paths), paths, 0);
    WindowIsTake(paths, 0, MaxImages);
    assert paths[0..] == paths;
  }

  /** `uploadImages`: upload the files one after another and stop at the
      first failure, which becomes the reply. */
  function UploadImages(files: seq<File>, upload: File -> Result<string>): (r: Run<Result<seq<string>>>)
    ensures |r.calls| <= |files|
    ensures forall i :: 0 <= i < |r.calls| ==> r.calls[i] == Upload(files[i])
    ensures r.reply.Ok? ==> |r.calls| == |files| == |r.reply.value|
    ensures r.reply.Ok? ==> forall i :: 0 <= i < |files| ==> upload(files[i]) == Ok(r.reply.value[i])
    ensures r.reply.Err? ==> |r.calls| >= 1 && upload(files[|r.calls| - 1]) == Err(r.reply.error)
    ensures r.reply.Err? ==> forall i :: 0 <= i < |r.calls| - 1 ==> upload(files[i]).Ok?
  {
    if |files| == 0 then Run([], Ok([]))
    else
      match upload(files[0])
      case Err(e) => Run([Upload(files[0])], Err(e))
      case Ok(path) =>
        var rest := UploadImages(files[1..], upload);
        Run([Upload(files[0])] + rest.calls,
            if rest.reply.Ok? then Ok([path] + rest.reply.value) else Err(rest.reply.error))
  }

  /** True when a run made no write to the products table. */
  predicate NoRowWrite(calls: seq<Call>) {
    forall i :: 0 <= i < |calls| ==> !calls[i].Insert? && !calls[i].UpdateRow?
  }

  /** `createProduct`: upload the staged files, then insert the row with the
      uploaded paths in image1..image4 in upload order and null in every
      unused column. A failed upload ends the operation before the insert. */
  function CreateProduct(data: Forms.Record, files: seq<File>, b: Backend): (r: Run<Result<Product>>)
    ensures
      var up := UploadImages(files, b.upload);
      && (up.reply.Err? ==> r.calls == up.calls && NoRowWrite(r.calls) && r.reply == Err(up.reply.error))
      && (up.reply.Ok? ==> r.calls == up.calls + [Insert(data, PackSlots(up.reply.value))]
                           && r.reply == b.insert(data, PackSlots(up.reply.value)))
  {
    var up := if |files| > 0 then UploadImages(files, b.upload) else Run([], Ok([]));
    match up.reply
    case Err(e) => Run(up.calls, Err(e))
    case Ok(paths) =>
      var slots := PackSlots(paths);
      Run(up.calls + [Insert(data, slots)], b.insert(data, slots))
  }

  /** When a create reaches the insert, column i holds what the upload of
      the i-th file returned, and every column past the last file is null. */
  lemma CreateSlotsFollowUploads(data: Forms.Record, files: seq<File>, b: Backend)
    requires UploadImages(files, b.upload).reply.Ok?
    ensures
      var calls := CreateProduct(data, files, b).calls;
      var slots := calls[|calls| - 1].slots;
      && calls[|calls| - 1].Insert?
      && (forall i :: 0 <= i < |files| && i < MaxImages ==> slots[i] == SlotOf(UploadImages(files, b.upload).reply.value, i))
      && (forall i :: 0 <= i < |files| && i < MaxImages ==> Filled(slots[i]) ==> b.upload(files[i]) == Ok(slots[i].value))
      && (forall i :: |files| <= i < MaxImages ==> slots[i] == None)
  {
    var paths := UploadImages(files, b.upload).reply.value;
    var calls := CreateProduct(data, files, b).calls;
    assert calls[|calls| - 1] == Insert(data, PackSlots(paths));
  }

  /** The column list of an update: retained paths first, then the new
      uploads, cut to the first four. */
  function UpdateSlots(retained: seq<string>, uploaded: seq<string>): (slots: Slots)
    ensures forall i :: 0 <= i < |retained| && i < MaxImages ==> slots[i] == SlotOf(retained, i)
    ensures forall i :: |retained| <= i < MaxImages ==> slots[i] == SlotOf(uploaded, i - |retained|)
    ensures |retained| >= MaxImages ==> slots == PackSlots(retained)
  {
    PackSlots(Take(retained + uploaded, MaxImages))
  }

  /** `updateProduct`: upload the new files (when there are any), then
      update the row with the retained paths followed by the uploads, cut
      to four. A failed upload ends the operation before the update. */
  function UpdateProduct(id: int, data: Forms.Record, files: seq<File>, retained: seq<string>, b: Backend): (r: Run<Result<Product>>)
    ensures
      var up := UploadImages(files, b.upload);
      && (up.reply.Err? ==> r.calls == up.calls && NoRowWrite(r.calls) && r.reply == Err(up.reply.error))
      && (up.reply.Ok? ==>
            var slots := UpdateSlots(retained, up.reply.value);
            r.calls == up.calls + [UpdateRow(id, data, slots)] && r.reply == b.updateRow(id, data, slots))
  {
    var up := if |files| > 0 then UploadImages(files, b.upload) else Run([], Ok([]));
    match up.reply
    case Err(e) => Run(up.calls, Err(e))
    case Ok(uploaded) =>
      var slots := UpdateSlots(retained, uploaded);
      Run(up.calls + [UpdateRow(id, data, slots)], b.updateRow(id, data, slots))
  }

  /** Without new files an update is the single row write, keeping the
      retained paths (cut to four) in column order. */
  lemma UpdateWithoutFiles(id: int, data: Forms.Record, retained: seq<string>, b: Backend)
    ensures UpdateProduct(id, data, [], retained, b).calls == [UpdateRow(id, data, UpdateSlots(retained, []))]
    ensures UpdateProduct(id, data, [], retained, b).reply == b.updateRow(id, data, UpdateSlots(retained, []))
  {
  }

  /** `deleteImages`: one removal call for the non-empty paths, none when
      there are none. A removal error is only logged, so nothing is returned. */
  function DeleteImages(paths: seq<string>): (calls: seq<Call>)
    ensures calls == [] <==> forall i :: 0 <= i < |paths| ==> paths[i] == ""
    ensures calls != [] ==> |calls| == 1 && calls[0].Remove?
    ensures calls != [] ==> forall p :: p in calls[0].paths <==> p in paths && p != ""
    ensures calls != [] ==> Subseq(calls[0].paths, paths)
    ensures calls != [] ==> |calls[0].paths| == CountWhere(paths, (p: string) => p != "")
  {
    var keep := Filter(paths, (p: string) => p != "");
    if |keep| == 0 then
      assert forall i :: 0 <= i < |paths| ==> paths[i] == "" by {
        forall i | 0 <= i < |paths| ensures paths[i] == "" {
          assert paths[i] in paths;
        }
      }
      []
    else
      assert keep[0] in keep;
      [Remove(keep)]
  }

  /** `deleteProduct`: read the row's image columns, release exactly the
      non-empty paths, then delete the row. When the pre-read yields no
      record the release is skipped but the row is still deleted. */
  function DeleteProduct(id: int, b: Backend): (r: Run<Option<string>>)
    ensures r.reply == b.deleteRow(id)
    ensures b.readImages(id).Some? && FilledPaths(b.readImages(id).value) != [] ==>
              r.calls == [ReadImages(id), Remove(FilledPaths(b.readImages(id).value)), DeleteRow(id)]
    ensures !(b.readImages(id).Some? && FilledPaths(b.readImages(id).value) != []) ==>
              r.calls == [ReadImages(id), DeleteRow(id)]
  {
    var pre := b.readImages(id);
    if pre.Some? && FilledPaths(pre.value) != [] then
      var paths := FilledPaths(pre.value);
      var release := DeleteImages(paths);
      assert release == [Remove(paths)] by {
        assert Filter(paths, (p: string) => p != "") == paths;
      }
      Run([ReadImages(id)] + release + [DeleteRow(id)], b.deleteRow(id))
    else
      Run([ReadImages(id), DeleteRow(id)], b.deleteRow(id))
  }

  /** The row as `deleteProductImage` leaves it: the `updateData` write
      (`{[imageField]: null}`) nulls only the named column. This is the
      reference shape of the `clearImage` call that DeleteProductImage
      issues last. */
  function ClearSlot(p: Product, k: SlotIndex): (q: Product)
    ensures q.id == p.id && q.fields == p.fields
    ensures q.slots[k] == None
    ensures forall j :: 0 <= j < MaxImages && j != k ==> q.slots[j] == p.slots[j]
    ensures FilledPaths(q.slots) == FilledPaths(p.slots[..k]) + FilledPaths(p.slots[k + 1..])
  {
    var s := p.slots[k := None];
    assert s == p.slots[..k] + [None] + p.slots[k + 1..];
    FilledPathsAppend(p.slots[..k] + [None], p.slots[k + 1..]);
    FilledPathsAppend(p.slots[..k], [None]);
    Product(p.id, p.fields, s)
  }

  /** `deleteProductImage`: read the named column, release its old path only
      if it was non-empty, then null that one column (the row ClearSlot
      describes). */
  function DeleteProductImage(id: int, k: SlotIndex, b: Backend): (r: Run<Result<Product>>)
    ensures |r.calls| >= 2 && r.calls[0] == ReadImages(id) && r.calls[|r.calls| - 1] == ClearImage(id, k)
    ensures r.reply == b.clearImage(id, k)
    ensures var before := b.readImages(id);
      if before.Some? && Filled(before.value[k])
      then r.calls == [ReadImages(id), Remove([before.value[k].value]), ClearImage(id, k)]
      else r.calls == [ReadImages(id), ClearImage(id, k)]
  {
    var release :=
      match b.readImages(id)
      case Some(slots) => if Filled(slots[k]) then DeleteImages([slots[k].value]) else []
      case None => [];
    Run([ReadImages(id)] + release + [ClearImage(id, k)], b.clearImage(id, k))
  }

  /** What a list load hands back: the rows and the error, if any. */
  datatype Listed<T> = Listed(data: seq<T>, error: Option<string>)

  /** `getProducts`: on failure no rows and the error; otherwise each fetched
      row, in order, with its `imageUrls`. */
  function GetProducts(fetched: Result<seq<Product>>): (r: Listed<ProductView>)
    ensures fetched.Err? ==> r.data == [] && r.error == Some(fetched.error)
    ensures fetched.Ok? ==> r.error.None? && |r.data| == |fetched.value|
    ensures fetched.Ok? ==> forall i :: 0 <= i < |r.data| ==>
      r.data[i].product == fetched.value[i] && r.data[i].imageUrls == ImageUrls(fetched.value[i].slots)
    ensures forall i :: 0 <= i < |r.data| ==> |r.data[i].imageUrls| <= MaxImages
  {
    match fetched
    case Err(e) => Listed([], Some(e))
    case Ok(rows) =>
      Listed(seq(|rows|, i requires 0 <= i < |rows| => ProductView(rows[i], ImageUrls(rows[i].slots))), None)
  }
}
