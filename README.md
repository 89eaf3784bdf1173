# Frame composite generator — a Dafny model

This project models the computational core of a browser tool, `FrameCompositeGenerator`. The
tool puts product photographs inside a decorative frame. Given a frame image, it finds the
frame's "opening": the bounding box of its nearly transparent or very bright pixels. A centred
rectangle is the fallback when that box is empty or degenerate. Each product is then fitted
into the opening with its aspect ratio preserved. The product is drawn first and the whole frame
on top of it. The results are named `1.png`, `2.png`, … in product order, and a progress report
follows each one. Around this sits the session state: the selected frame, the pending products
(uploaded through a MIME allow-list and removed by id), the generate button's enabled state and
the frame preview's size.

Modules:

- `Common`: `Option`, the `byte` type, and `Min`/`Max` (`Math.min`/`Math.max`).
- `Pixels`: decoded images (`Bitmap`: positive width and height, row-major RGBA bytes) and pixel indexing.
- `Geometry`: rectangles, the placement rule `FitInside`, and the preview sizing `PreviewSize`.
- `FrameDetection`: opening detection.
  - `ScanPixels` is the nested loop over an `array<byte>`.
  - `ScanRow`/`ScanRows` are the same scan as a pure fold.
  - `FrameArea` is that fold plus the fallback. It is a ghost function. The class method `DetectFrameArea` computes it and adds one to the ghost counter `detections`. "Detection runs exactly once per batch" rests on the body of `GenerateComposites`, which calls `DetectFrameArea` once and never assigns `detections` itself.
  - `IsBoundingBox` is an independent definition of the box; the lemmas connect the two.
- `Compositor`: `CreateComposite`. It returns the output canvas size and the ordered list of its two draw calls.
- `Naming`: the decimal numeral of a position and the result file name `${i + 1}.png`.
- `Filtering`: order-preserving `filter`, used for upload validation and removal.
- `Generator`: the class `FrameCompositeGenerator`. Its fields are the ones the script updates. Its methods are the upload, removal, frame-selection, button and batch handlers.

Parameters stand in for what the browser supplies:

- the decoded pixels of each image (`UploadFile.decoded`, `None` when decoding fails);
- the clock readings `Date.now()`, one per valid file, picked by its position among the valid files and read after that file decodes (`clock[i]`);
- the two bundled frames (the constructor's arguments).

Arithmetic on coordinates is exact `real` arithmetic, an idealisation of JavaScript doubles.

Where the documented intent and the code part ways, the model follows the code:

- For a fully transparent W×H frame with W, H ≥ 2, the code detects `(0, 0, W-1, H-1)`, not `(0, 0, W, H)`. The width it returns is `maxX - minX`, with no `+1` (`TransparentFrameArea`). When W = 1 or H = 1 the box is degenerate and the fallback is returned instead.
- A file that passes the MIME check but fails to decode aborts `handleProductUpload` at that file. The awaited promise rejects, so the files after it are not added. The generate button is not updated either. One might expect a decode error to affect only its own file.
- With no frame or no products, `generateComposites` returns before it clears `processedImages`, so the previous results stay. One might expect an empty result instead.
- A product's id is `Date.now() + i`, so ids from different uploads can collide. Uploading two files at clock 1000 gives ids 1000 and 1001. A later upload at clock 1001 gives its first file id 1001 as well. `removeProductImage(1001)` then drops both products (`RemovalDropsCollidingIds`). One might expect ids to be unique.

## Model

| member | source | states |
|---|---|---|
| `FrameDetection.IsOpeningPixel` | script.js:280-284 | a pixel is in the opening iff alpha < 50 or its mean brightness exceeds 200, which is exactly a channel sum above 600 |
| `FrameDetection.ScanRow` | script.js:278-290 | the fold of one row's scan over pixels 0..x-1; the bounds only widen |
| `FrameDetection.ScanRows` | script.js:274-291 | the fold of the scan over the first rows from (W, H, 0, 0); the minima stay at most W and H and the maxima at least 0 |
| `FrameDetection.FallbackArea` | script.js:293-300 | the centred fallback has equal margins on both sides of each axis and, for a non-empty image, positive size inside the image |
| `FrameDetection.FrameArea` | script.js:274-307 | the rectangle detection returns has positive width and height and lies within any image of positive size, in both branches |
| `FrameDetection.ScanPixels` | script.js:274-291 | the nested row/column loop with running min/max over the byte array returns exactly the fold `ScanRows` over all rows |
| `Generator.FrameCompositeGenerator.DetectFrameArea` | script.js:263-308 | copies the frame's pixels, scans them, applies the fallback, and returns exactly `FrameArea` of the frame; each call adds one to the detection count |
| `FrameDetection.ScanRowBounds` | script.js:278-290 | scanning part of a row only widens the bounds, takes in every opening pixel seen, and moves an edge only onto an opening pixel of that row |
| `FrameDetection.ScanRowsBounds` | script.js:274-291 | after any number of rows the bounds contain every opening pixel seen; each bound is either its initial value (W, H, 0, 0) or the coordinate of an opening pixel |
| `FrameDetection.ScanFindsBoundingBox` | script.js:274-291 | when some pixel is in the opening, the scan's final min/max are the bounding box of the opening pixels |
| `FrameDetection.BoundingBoxUnique` | script.js:274-291 | the bounding box of the opening pixels is unique, so the scan result does not depend on scan order |
| `FrameDetection.DetectsBoundingBox` | script.js:293-307 | for opening bounding box [minX,maxX]×[minY,maxY], the result is (minX, minY, maxX-minX, maxY-minY) unless minX >= maxX or minY >= maxY, in which case it is the fallback; the box lies in 0..W-1 × 0..H-1 |
| `FrameDetection.FallbackWithoutOpening` | script.js:293-300 | when no pixel is in the opening, the result is the fallback rectangle |
| `FrameDetection.FallbackIsCentred` | script.js:294-300 | the fallback is (p, p, W-2p, H-2p) with p = 0.2·min(W, H), with equal margins on both sides of each axis |
| `FrameDetection.TransparentFrameArea` | script.js:274-307 | a frame whose every alpha byte is below 50 (W, H >= 2) is detected as (0, 0, W-1, H-1) |
| `Geometry.FitInside` | script.js:317-335 | the placement of a product in the opening has positive size and lies inside the opening |
| `Geometry.FitPreservesAspectRatio` | script.js:318-335 | the drawn rectangle has positive size and drawWidth/drawHeight equals productWidth/productHeight |
| `Geometry.FitFillsOneAxisAndCentres` | script.js:323-335 | if the product's ratio is strictly greater than the opening's, drawX and drawWidth are the opening's and the vertical margins are equal; otherwise drawY and drawHeight are the opening's and the horizontal margins are equal |
| `Geometry.FitIsLargest` | script.js:317-335 | no rectangle with the product's aspect ratio that fits inside the opening is wider or taller than the drawn one |
| `Geometry.PreviewSize` | script.js:446-457 | neither side of an image's preview exceeds 300 |
| `Geometry.PreviewSizeCapsLongerSide` | script.js:446-457 | the aspect ratio is kept; an image within 300×300 is unchanged; a landscape image wider than 300 gets width 300 and height scaled by 300/width; any other image taller than 300, squares included, gets height 300 and width scaled by 300/height |
| `Compositor.CreateComposite` | script.js:310-344 | the canvas has the frame's size; exactly two draws are issued: the product into its fitted rectangle `FitInside`, which lies inside the opening, then the whole frame at (0, 0) at its own size |
| `Compositor.FrameIsOnTop` | script.js:337-341 | at every point of the output the last layer painted is the frame, so an opaque frame pixel always shows the frame |
| `Compositor.ProductIsBelowFrame` | script.js:337-338 | beneath the frame, the product is what shows through exactly at the points of its fitted rectangle |
| `Naming.NatToString` | script.js:250 | the numeral of a number is a non-empty string of decimal digits with no leading zero for positive numbers |
| `Naming.ParseNatToString` | script.js:250 | reading back the numeral of n gives n |
| `Naming.ResultName` | script.js:250 | the name of a result is a decimal numeral followed by ".png" |
| `Naming.ResultNamesDistinct` | script.js:250 | results at different positions get different file names |
| `Naming.ResultNameReadsBack` | script.js:250 | the name of the result at position i is a decimal numeral whose value is i+1, followed by ".png" |
| `Filtering.Filter` | script.js:164 | filtering never lengthens a sequence |
| `Filtering.FilterMembership` | script.js:164 | an element is kept iff it occurs in the input and passes the test |
| `Filtering.FilterConcat` | script.js:164 | filtering distributes over concatenation, so kept elements stay in input order |
| `Filtering.FilterKeepsAll` | script.js:164 | when every element passes, the result is the input |
| `Filtering.FilterKeepsNone` | script.js:164-169 | when no element passes, the result is empty |
| `Filtering.FilterSound` | script.js:164 | every element of the result passes the test |
| `Generator.IsValidImageFile` | script.js:416-419 | a file is valid iff its type is image/jpeg, image/png, image/gif or image/webp (the "image/" prefix test is implied), so text/plain is rejected |
| `Generator.DecodablePrefix` | script.js:173-175 | gives the number of leading files that decode; the file right after them, if there is one, does not decode |
| `Generator.WithoutId` | script.js:226 | no remaining product carries the removed id, and the list does not grow |
| `Generator.RemovalKeepsOthers` | script.js:226 | removal drops exactly the products with that id, keeps the others in order, and changes nothing when no product has the id |
| `Generator.RemovalDropsCollidingIds` | script.js:179 | products from two uploads can share an id (1000+1 and 1001+0), and removing that id drops both of them |
| `Generator.FrameCompositeGenerator.constructor` | script.js:116-124 | after start-up the bundled "r1" frame is selected and previewed, products and results are empty, and generation is disabled |
| `Generator.FrameCompositeGenerator.UpdateGenerateButton` | script.js:486-490 | the generate button is disabled exactly when there is no frame or no pending product |
| `Generator.FrameCompositeGenerator.ShowFramePreview` | script.js:442-462 | the preview is shown at `PreviewSize` of the image |
| `Generator.FrameCompositeGenerator.HideFramePreview` | script.js:470-476 | the preview is hidden |
| `Generator.FrameCompositeGenerator.HandleFrameSelection` | script.js:126-145 | "custom" clears the frame, hides the preview and shows the custom upload area; "r1"/"r2" select that bundled frame and preview it; anything else clears the frame and hides the preview; the button is then updated; nothing else changes |
| `Generator.FrameCompositeGenerator.HandleProductUpload` | script.js:162-189 | with no valid file nothing changes; otherwise the valid files are appended in order, the i-th with id clock[i]+i, progress (i+1, n) is reported after each, and the button is updated; a file that fails to decode stops the handler there, before the button update |
| `Generator.FrameCompositeGenerator.RemoveProductImage` | script.js:225-232 | the product list becomes the order-preserving filter of products whose id differs; the button is updated |
| `Generator.FrameCompositeGenerator.GenerateComposites` | script.js:234-261 | with no frame or no products nothing changes, `processedImages` included; otherwise detection runs exactly once, and result i is the composite of product i in the detected area, named "(i+1).png", carrying the product's file name; progress (1,n)…(n,n) is reported in order and the download buttons are enabled |

## Left out

- DOM and UI work is not modelled: element lookup, event wiring, drop zones, thumbnails (`addProductThumbnail` and their removal), result previews, `activateStep`, progress-bar rendering, `alert`. Progress reports are modelled as an ordered log of `(current, total)` pairs.
- Image loading and decoding is browser I/O: `loadImage`, `createImageFromBlob`, `loadFrameFromFile`, `loadPrebuiltFrames`. Each decoded image is given as a `Bitmap`, and a decode failure as `None`. The state before the bundled frames finish loading is not modelled; the constructor is the state after `initializeDefaultFrame`.
- `handleCustomFrameUpload` is not part of this model.
- Pixel resampling and blending inside `drawImage`, and PNG encoding (`toBlob`, `toDataURL`), are foreign canvas calls. Only the draw calls' targets and their order are modelled; `TopLayer` stands in for the painter's order.
- `downloadZip` and `downloadAllIndividually` are link clicks spaced by timers. The `hideUploadProgress` and `hideProcessingProgress` timers are left out for the same reason.
- Asynchronous interleaving is not modelled. Each handler runs to completion as one step; overlapping handlers are not considered.
- Floating-point rounding is not modelled. Placement, padding and preview sizes use exact reals. JavaScript's `NaN`/`Infinity` for zero-sized openings or products is excluded by the placement lemmas' positive-size preconditions. Detection always yields a positive opening (the `ensures` of `FrameArea`), and decoded images have positive size.
- `Generator.FrameCompositeGenerator.constructor`: whether the custom upload area is hidden and the download buttons are disabled at start-up is decided by the page's markup, not by the script; the constructor's values for these two fields are the assumed initial page state.
- `Generator.FrameCompositeGenerator.ShowFramePreview`: assigning the size to the canvas truncates it to an integer. The model keeps the computed real size.
- `FrameDetection.ScanPixels`: for a zero-width or zero-height image, `getImageData` throws in the browser. The scan does not require positive dimensions and returns the initial bounds instead; decoded frames (`Bitmap`) are never empty.
