/** The wardrobe-upload screen: files dropped or picked are filtered by MIME
    type, each image becomes an object URL appended to the list of uploaded
    items, items are removed by position, and a flag tracks whether a drag is
    over the drop zone. */
module WardrobeScreen {
  import opened Sequences

  newtype Byte = x: int | 0 <= x < 256

  /** A file as the screen sees it: its MIME type and its contents. */
  datatype File = File(mimeType: string, payload: seq<Byte>)

  /** The handle `URL.createObjectURL` returns for a file; the browser's URL
      text is not modelled, only which file the handle refers to. */
  datatype ObjectUrl = ObjectUrl(file: File)

  const ImagePrefix := "image/"

  /** `s.startsWith(prefix)`: `s` is at least as long as `prefix` and agrees
      with it at every position of `prefix`. */
  predicate StartsWith(s: string, prefix: string): (r: bool)
    ensures r <==> |prefix| <= |s| && forall i | 0 <= i < |prefix| :: s[i] == prefix[i]
  {
    |prefix| <= |s| && s[..|prefix|] == prefix
  }

  /** `file.type.startsWith('image/')`: the type's first six characters are
      `image/`, compared case-sensitively. */
  predicate IsImage(f: File): (r: bool)
    ensures r <==> |f.mimeType| >= 6 && f.mimeType[..6] == "image/"
  {
    StartsWith(f.mimeType, ImagePrefix)
  }

  /** Which MIME types pass the upload filter. */
  lemma ImageTypes(payload: seq<Byte>)
    ensures IsImage(File("image/png", payload)) && IsImage(File("image/", payload))
    ensures !IsImage(File("application/pdf", payload)) && !IsImage(File("image", payload))
    ensures !IsImage(File("Image/png", payload)) && !IsImage(File("", payload))
  {
    assert "image/png"[..6] == "image/";
    assert "application/pdf"[..6] != "image/" by { assert "application/pdf"[0] == 'a'; }
    assert "Image/png"[..6] != "image/" by { assert "Image/png"[0] == 'I'; }
  }

  /** The handles that uploading `files` appends: one per image file, in the
      order of the files. */
  function ImageUrls(files: seq<File>): (r: seq<ObjectUrl>)
    ensures |r| <= |files|
    ensures forall u | u in r :: u.file in files && IsImage(u.file)
    ensures forall f | f in files && IsImage(f) :: ObjectUrl(f) in r
    decreases |files|
  {
    if files == [] then []
    else
      var last := files[|files| - 1];
      var init := files[..|files| - 1];
      assert files == init + [last];
      ImageUrls(init) + (if IsImage(last) then [ObjectUrl(last)] else [])
  }

  /** Uploading two batches one after the other appends the same handles, in
      the same order, as uploading them together. */
  lemma {:induction false} ImageUrlsAppend(a: seq<File>, b: seq<File>)
    ensures ImageUrls(a + b) == ImageUrls(a) + ImageUrls(b)
    decreases |b|
  {
    if b == [] {
      assert a + b == a;
    } else {
      var init := b[..|b| - 1];
      assert a + b == (a + init) + [b[|b| - 1]];
      assert (a + b)[..|a + b| - 1] == a + init;
      ImageUrlsAppend(a, init);
    }
  }

  /** Files that are all images yield one handle each, in order; files none of
      which is an image yield nothing. */
  lemma {:induction false} ImageUrlsAllOrNone(files: seq<File>)
    ensures (forall f | f in files :: IsImage(f)) ==> |ImageUrls(files)| == |files|
    ensures (forall f | f in files :: !IsImage(f)) ==> ImageUrls(files) == []
    decreases |files|
  {
    if files != [] {
      var init := files[..|files| - 1];
      assert forall f | f in init :: f in files;
      ImageUrlsAllOrNone(init);
    }
  }

  /** One handle per file, in the order of the files. */
  function Handles(files: seq<File>): (r: seq<ObjectUrl>)
    ensures |r| == |files|
    ensures forall i | 0 <= i < |files| :: r[i] == ObjectUrl(files[i])
  {
    seq(|files|, i requires 0 <= i < |files| => ObjectUrl(files[i]))
  }

  /** Filtering a list that ends in `last`: one handle per kept file of the
      front, then one for `last` if it is kept. */
  lemma HandlesFilterSnoc(init: seq<File>, last: File, p: File -> bool)
    ensures Handles(Filter(init + [last], p))
         == Handles(Filter(init, p)) + (if p(last) then [ObjectUrl(last)] else [])
  {
    FilterAppend(init, [last], p);
    FilterCons(last, [], p);
    assert [last] + [] == [last];
    var kept := Filter(init, p);
    var tail := if p(last) then [last] else [];
    assert Handles(kept + tail) == Handles(kept) + Handles(tail);
  }

  /** The handles an upload appends are exactly one per file that
      `files.filter(f => f.type.startsWith('image/'))` keeps, in order. */
  lemma {:induction false} ImageUrlsAreFilteredImages(files: seq<File>)
    ensures ImageUrls(files) == Handles(Filter(files, IsImage))
    decreases |files|
  {
    if files != [] {
      var last := files[|files| - 1];
      var init := files[..|files| - 1];
      assert files == init + [last];
      ImageUrlsAreFilteredImages(init);
      HandlesFilterSnoc(init, last, IsImage);
    }
  }

  /** Two image files around a non-image file give exactly two new entries,
      the first file's before the third's. */
  lemma MixedBatch(image1: File, other: File, image2: File)
    requires IsImage(image1) && IsImage(image2) && !IsImage(other)
    ensures ImageUrls([image1, other, image2]) == [ObjectUrl(image1), ObjectUrl(image2)]
  {
    assert [image1, other, image2][..2] == [image1, other];
    assert [image1, other][..1] == [image1];
    assert [image1][..0] == [];
  }

  /** `uploadedItems.filter((_, i) => i !== index)`: the items at every
      position except `index`, in order. */
  function KeepOtherPositions<T>(s: seq<T>, index: int): (r: seq<T>)
    ensures 0 <= index < |s| ==> r == s[..index] + s[index + 1..]
    ensures !(0 <= index < |s|) ==> r == s
    decreases |s|
  {
    if s == [] then []
    else
      var last := |s| - 1;
      KeepOtherPositions(s[..last], index) + (if last == index then [] else [s[last]])
  }

  /** The component's state: the uploaded items and the drag flag. */
  class WardrobeUpload {
    var uploadedItems: seq<ObjectUrl>
    var isDragging: bool

    constructor ()
      ensures uploadedItems == [] && !isDragging
    {
      uploadedItems := [];
      isDragging := false;
    }

    /** `handleFileUpload`: walks the files in order and appends a handle
        for each image; earlier items stay an unchanged prefix. */
    method HandleFileUpload(files: seq<File>)
      modifies this`uploadedItems
      ensures uploadedItems == old(uploadedItems) + ImageUrls(files)
      ensures uploadedItems[..|old(uploadedItems)|] == old(uploadedItems)
    {
      var i := 0;
      while i < |files|
        invariant 0 <= i <= |files|
        invariant uploadedItems == old(uploadedItems) + ImageUrls(files[..i])
      {
        assert files[..i + 1][..i] == files[..i];
        if IsImage(files[i]) {
          uploadedItems := uploadedItems + [ObjectUrl(files[i])];
        }
        i := i + 1;
      }
      assert files[..i] == files;
    }

    /** `handleDrop`: the drag is over, then the dropped files are uploaded. */
    method HandleDrop(files: seq<File>)
      modifies this
      ensures !isDragging
      ensures uploadedItems == old(uploadedItems) + ImageUrls(files)
    {
      isDragging := false;
      HandleFileUpload(files);
    }

    /** `handleDragOver`. */
    method HandleDragOver()
      modifies this`isDragging
      ensures isDragging
    {
      isDragging := true;
    }

    /** `handleDragLeave`. */
    method HandleDragLeave()
      modifies this`isDragging
      ensures !isDragging
    {
      isDragging := false;
    }

    /** `removeItem`: drops the item at `index`; an index outside the list
        changes nothing. */
    method RemoveItem(index: int)
      modifies this`uploadedItems
      ensures uploadedItems == KeepOtherPositions(old(uploadedItems), index)
      ensures 0 <= index < |old(uploadedItems)| ==> |uploadedItems| == |old(uploadedItems)| - 1
      ensures !(0 <= index < |old(uploadedItems)|) ==> uploadedItems == old(uploadedItems)
    {
      uploadedItems := KeepOtherPositions(uploadedItems, index);
    }

    /** The "n items" badge in the header. */
    function ItemCount(): (n: nat)
      reads this
      ensures n == 0 <==> uploadedItems == []
    {
      |uploadedItems|
    }

    /** The "Your Wardrobe" grid is shown only when some item was uploaded. */
    function ShowsWardrobeGrid(): (shown: bool)
      reads this
      ensures shown <==> uploadedItems != []
    {
      ItemCount() > 0
    }
  }
}
