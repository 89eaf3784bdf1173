/**
 * The session state of the frame composite generator: the selected frame, the pending
 * product images, the generated results, and the handlers that change them.
 */
module Generator {
  import opened Common
  import opened Pixels
  import opened Geometry
  import opened FrameDetection
  import opened Compositor
  import opened Naming
  import opened Filtering

  /** The MIME types an uploaded image may have. */
  const AcceptedTypes: seq<string> := ["image/jpeg", "image/png", "image/gif", "image/webp"]

  /**
   * A file handed to an upload handler: its name, its MIME type, and the image `loadImage`
   * decodes from it (None when decoding fails and the returned promise rejects).
   */
  datatype UploadFile = UploadFile(name: string, mimeType: string, decoded: Option<Bitmap>)

  /** A pending product: the uploaded file, its decoded image and the id its thumbnail carries. */
  datatype ProductItem = ProductItem(file: UploadFile, image: Bitmap, id: int)

  /** A generated composite, its file name and the name of the product file it came from. */
  datatype ProcessedImage = ProcessedImage(canvas: Canvas, name: string, originalName: string)

  /** One progress report: `current` of `total` items done. */
  datatype Progress = Progress(current: nat, total: nat)

  /**
   * `isValidImageFile`: the type starts with "image/" and is one of the accepted types. The
   * prefix test is implied by the allow-list, so exactly the four accepted types pass.
   */
  predicate IsValidImageFile(file: UploadFile)
    ensures IsValidImageFile(file) <==> file.mimeType in AcceptedTypes
  {
    "image/" <= file.mimeType && file.mimeType in AcceptedTypes
  }

  /** The number of leading files that decode; the file after them, if any, does not. */
  function DecodablePrefix(files: seq<UploadFile>): (k: nat)
    ensures k <= |files|
    ensures forall j :: 0 <= j < k ==> files[j].decoded.Some?
    ensures k < |files| ==> files[k].decoded.None?
    decreases |files|
  {
    if |files| == 0 || files[0].decoded.None? then 0 else 1 + DecodablePrefix(files[1..])
  }

  /** The product list with every item carrying `id` removed: none of what remains has it. */
  function WithoutId(items: seq<ProductItem>, id: int): (r: seq<ProductItem>)
    ensures |r| <= |items|
    ensures forall i :: 0 <= i < |r| ==> r[i].id != id
  {
    var keep := (p: ProductItem) => p.id != id;
    FilterSound(items, keep);
    Filter(items, keep)
  }

  /**
   * Removal drops exactly the items with the id, keeps the others in order, and changes
   * nothing when no item has that id.
   */
  lemma RemovalKeepsOthers(items: seq<ProductItem>, id: int)
    ensures forall p :: p in WithoutId(items, id) <==> p in items && p.id != id
    ensures (forall i :: 0 <= i < |items| ==> items[i].id != id) ==> WithoutId(items, id) == items
    ensures forall a, b :: items == a + b ==> WithoutId(items, id) == WithoutId(a, id) + WithoutId(b, id)
  {
    var keep := (p: ProductItem) => p.id != id;
    assert forall xs :: WithoutId(xs, id) == Filter(xs, keep);
    forall p
      ensures p in WithoutId(items, id) <==> p in items && p.id != id
    {
      FilterMembership(items, keep, p);
    }
    if forall i :: 0 <= i < |items| ==> items[i].id != id {
      FilterKeepsAll(items, keep);
    }
    forall a, b | items == a + b
      ensures WithoutId(items, id) == WithoutId(a, id) + WithoutId(b, id)
    {
      FilterConcat(a, b, keep);
    }
  }

  /**
   * Ids `Date.now() + i` can collide across uploads: an upload of two files at clock 1000
   * gives ids 1000 and 1001, and a later upload at clock 1001 gives its first file 1001
   * too. Removing id 1001 then drops the products of both uploads.
   */
  lemma RemovalDropsCollidingIds(a: UploadFile, b: UploadFile, c: UploadFile, image: Bitmap)
    ensures var items := [ProductItem(a, image, 1000 + 0), ProductItem(b, image, 1000 + 1),
                          ProductItem(c, image, 1001 + 0)];
      WithoutId(items, 1001) == [items[0]]
  {
    var items := [ProductItem(a, image, 1000 + 0), ProductItem(b, image, 1000 + 1),
                  ProductItem(c, image, 1001 + 0)];
    var keep := (p: ProductItem) => p.id != 1001;
    assert WithoutId(items, 1001) == Filter(items, keep);
    assert items[1..][1..][1..] == [];
    assert Filter(items[1..][1..], keep) == [];
    assert Filter(items[1..], keep) == [];
  }

  class FrameCompositeGenerator {
    /** The bundled frames, by the identifiers the frame selector offers. */
    const prebuiltFrames: map<string, Bitmap>
    /** The active frame; None when no frame is selected. */
    var frameImage: Option<Bitmap>
    var productImages: seq<ProductItem>
    var processedImages: seq<ProcessedImage>
    /** Whether the custom-frame upload area is shown. */
    var customUploadVisible: bool
    /** The size of the frame preview canvas; None while the preview is hidden. */
    var framePreview: Option<Size>
    var generateDisabled: bool
    var downloadsDisabled: bool
    /** Every upload progress report issued, in order. */
    var uploadReports: seq<Progress>
    /** Every processing progress report issued, in order. */
    var processingReports: seq<Progress>
    /** How many times a frame's opening has been detected. */
    ghost var detections: nat

    ghost predicate Valid()
      reads this
    {
      "r1" in prebuiltFrames && "r2" in prebuiltFrames
    }

    /** A batch can be generated: a frame is selected and some product is pending. */
    predicate CanGenerate()
      reads this
    {
      frameImage.Some? && |productImages| > 0
    }

    /**
     * The state once the bundled frames are loaded and the first one, "r1", is the default
     * frame with its preview shown.
     */
    constructor (r1: Bitmap, r2: Bitmap)
      ensures Valid() && prebuiltFrames == map["r1" := r1, "r2" := r2]
      ensures frameImage == Some(r1) && productImages == [] && processedImages == []
      ensures framePreview == Some(PreviewSize(r1.width as real, r1.height as real))
      ensures !customUploadVisible && generateDisabled && downloadsDisabled
      ensures uploadReports == [] && processingReports == [] && detections == 0
    {
      prebuiltFrames := map["r1" := r1, "r2" := r2];
      frameImage := Some(r1);
      productImages := [];
      processedImages := [];
      customUploadVisible := false;
      framePreview := Some(PreviewSize(r1.width as real, r1.height as real));
      generateDisabled := true;
      downloadsDisabled := true;
      uploadReports := [];
      processingReports := [];
      detections := 0;
    }

    /** `updateGenerateButton`: enabled exactly when a batch can be generated. */
    method UpdateGenerateButton()
      modifies this`generateDisabled
      ensures generateDisabled == !CanGenerate()
    {
      generateDisabled := !(frameImage.Some? && |productImages| > 0);
    }

    /** `showFramePreview`: shows the image at its capped preview size. */
    method ShowFramePreview(image: Bitmap)
      modifies this`framePreview
      ensures framePreview == Some(PreviewSize(image.width as real, image.height as real))
    {
      framePreview := Some(PreviewSize(image.width as real, image.height as real));
    }

    /** `hideFramePreview`. */
    method HideFramePreview()
      modifies this`framePreview
      ensures framePreview == None
    {
      framePreview := None;
    }

    /**
     * `handleFrameSelection`: "custom" clears the frame and shows the custom upload area,
     * "r1" and "r2" select that bundled frame, anything else clears the frame.
     */
    method HandleFrameSelection(value: string)
      requires Valid()
      modifies this`customUploadVisible, this`frameImage, this`framePreview, this`generateDisabled
      ensures value == "custom" ==>
        customUploadVisible && frameImage == None && framePreview == None
      ensures (value == "r1" || value == "r2") ==>
        !customUploadVisible && frameImage == Some(prebuiltFrames[value]) &&
        framePreview == Some(PreviewSize(prebuiltFrames[value].width as real,
                                         prebuiltFrames[value].height as real))
      ensures value != "custom" && value != "r1" && value != "r2" ==>
        !customUploadVisible && frameImage == None && framePreview == None
      ensures generateDisabled == !CanGenerate()
    {
      if value == "custom" {
        customUploadVisible := true;
        frameImage := None;
        HideFramePreview();
      } else if value == "r1" || value == "r2" {
        customUploadVisible := false;
        var image := prebuiltFrames[value];
        frameImage := Some(image);
        ShowFramePreview(image);
      } else {
        customUploadVisible := false;
        frameImage := None;
        HideFramePreview();
      }
      UpdateGenerateButton();
    }

    /**
     * `handleProductUpload`: keeps the files of an accepted type and appends them in order,
     * the i-th with id `clock[i] + i`, reporting progress after each. `clock[i]` stands for the
     * reading of `Date.now()` taken once the i-th valid file has decoded. A file that fails to
     * decode aborts the handler at that file.
     */
    method HandleProductUpload(files: seq<UploadFile>, clock: seq<int>)
      requires |files| <= |clock|
      modifies this`productImages, this`uploadReports, this`generateDisabled
      ensures var valid := Filter(files, IsValidImageFile);
        |valid| == 0 ==>
          productImages == old(productImages) && uploadReports == old(uploadReports) &&
          generateDisabled == old(generateDisabled)
      ensures var valid := Filter(files, IsValidImageFile);
        var k := DecodablePrefix(valid);
        var n := |old(productImages)|;
        var m := |old(uploadReports)|;
        |valid| > 0 ==>
          |productImages| == n + k && productImages[..n] == old(productImages) &&
          (forall j :: 0 <= j < k ==>
            productImages[n + j] == ProductItem(valid[j], valid[j].decoded.value, clock[j] + j)) &&
          |uploadReports| == m + k && uploadReports[..m] == old(uploadReports) &&
          (forall j :: 0 <= j < k ==> uploadReports[m..][j] == Progress(j + 1, |valid|)) &&
          generateDisabled == if k == |valid| then !CanGenerate() else old(generateDisabled)
    {
      var validFiles := Filter(files, IsValidImageFile);
      if |validFiles| == 0 {
        return;
      }
      ghost var k := DecodablePrefix(validFiles);
      ghost var n, m := |productImages|, |uploadReports|;
      assert |validFiles| <= |clock|;
      var i := 0;
      while i < |validFiles|
        invariant 0 <= i <= k
        invariant |productImages| == n + i && productImages[..n] == old(productImages)
        invariant forall j :: 0 <= j < i ==>
          productImages[n + j] == ProductItem(validFiles[j], validFiles[j].decoded.value, clock[j] + j)
        invariant |uploadReports| == m + i && uploadReports[..m] == old(uploadReports)
        invariant forall j :: 0 <= j < i ==> uploadReports[m..][j] == Progress(j + 1, |validFiles|)
        invariant generateDisabled == old(generateDisabled)
      {
        var file := validFiles[i];
        match file.decoded
        case None =>
          assert i == k;
          return;
        case Some(image) =>
          var now := clock[i];
          productImages := productImages + [ProductItem(file, image, now + i)];
          ghost var before := uploadReports;
          uploadReports := uploadReports + [Progress(i + 1, |validFiles|)];
          assert uploadReports[m..] == before[m..] + [Progress(i + 1, |validFiles|)];
          i := i + 1;
      }
      assert i == k;
      UpdateGenerateButton();
    }

    /** `removeProductImage`: drops the products with the id, keeping the rest in order. */
    method RemoveProductImage(id: int)
      modifies this`productImages, this`generateDisabled
      ensures productImages == WithoutId(old(productImages), id)
      ensures forall p :: p in productImages <==> p in old(productImages) && p.id != id
      ensures generateDisabled == !CanGenerate()
    {
      RemovalKeepsOthers(productImages, id);
      productImages := WithoutId(productImages, id);
      UpdateGenerateButton();
    }

    /**
     * `detectFrameArea`: copies the frame's pixels into a fresh buffer, scans them for the
     * bounds of the opening pixels, and falls back to a centred rectangle when those bounds
     * are degenerate. Each call is one detection.
     */
    method DetectFrameArea(frame: Bitmap) returns (area: Rect)
      modifies this`detections
      ensures area == FrameArea(frame.width, frame.height, frame.data)
      ensures detections == old(detections) + 1
    {
      var width, height := frame.width, frame.height;
      var data := new byte[|frame.data|](i requires 0 <= i < |frame.data| => frame.data[i]);
      assert data[..] == frame.data;
      var b := ScanPixels(width, height, data);
      var minX, minY, maxX, maxY := b.minX, b.minY, b.maxX, b.maxY;
      if minX >= maxX || minY >= maxY {
        var padding := Min(width, height) as real * 0.2;
        var left, top, right, bottom := padding, padding, width as real - padding, height as real - padding;
        area := Rect(left, top, right - left, bottom - top);
      } else {
        area := Rect(minX as real, minY as real, (maxX - minX) as real, (maxY - minY) as real);
      }
      detections := detections + 1;
    }

    /**
     * `generateComposites`: without a frame or products nothing happens; otherwise the
     * results are reset, the opening is detected once, and each product in turn is
     * composited, named by its 1-based position and reported as progress.
     */
    method GenerateComposites()
      modifies this`processedImages, this`processingReports, this`downloadsDisabled, this`detections
      ensures !old(CanGenerate()) ==>
        processedImages == old(processedImages) && processingReports == old(processingReports) &&
        downloadsDisabled == old(downloadsDisabled) && detections == old(detections)
      ensures old(CanGenerate()) ==>
        var frame := frameImage.value;
        var area := FrameArea(frame.width, frame.height, frame.data);
        var n := |productImages|;
        var m := |old(processingReports)|;
        |processedImages| == n &&
        (forall i :: 0 <= i < n ==>
          processedImages[i] ==
            ProcessedImage(CreateComposite(frame, productImages[i].image, area),
                           ResultName(i), productImages[i].file.name)) &&
        |processingReports| == m + n && processingReports[..m] == old(processingReports) &&
        (forall i :: 0 <= i < n ==> processingReports[m..][i] == Progress(i + 1, n)) &&
        !downloadsDisabled && detections == old(detections) + 1
    {
      if frameImage.None? || |productImages| == 0 {
        return;
      }
      processedImages := [];
      var frame := frameImage.value;
      var frameArea := DetectFrameArea(frame);
      var n := |productImages|;
      ghost var m := |processingReports|;
      var i := 0;
      while i < n
        invariant 0 <= i <= n
        invariant |processedImages| == i
        invariant forall j :: 0 <= j < i ==>
          processedImages[j] ==
            ProcessedImage(CreateComposite(frame, productImages[j].image, frameArea),
                           ResultName(j), productImages[j].file.name)
        invariant |processingReports| == m + i && processingReports[..m] == old(processingReports)
        invariant forall j :: 0 <= j < i ==> processingReports[m..][j] == Progress(j + 1, n)
        invariant detections == old(detections) + 1
      {
        var productImage := productImages[i];
        var composite := CreateComposite(frame, productImage.image, frameArea);
        processedImages := processedImages + [ProcessedImage(composite, ResultName(i), productImage.file.name)];
        ghost var before := processingReports;
        processingReports := processingReports + [Progress(i + 1, n)];
        assert processingReports[m..] == before[m..] + [Progress(i + 1, n)];
        i := i + 1;
      }
      downloadsDisabled := false;
    }
  }
}
