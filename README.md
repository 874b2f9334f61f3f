# Photo resizer: sizing rules, output names and the batch run

A Dafny model of the logic of a browser-side batch photo resizer
(`script.js`). The user queues photos, picks one of four modes and presses
start; every photo is resized or re-encoded and the results go into one zip.

- `geometry.dfy`, module `Geometry`: for each mode, the canvas size, the
  rectangle the source is drawn into and the JPEG quality. `percentage` scales
  both sides by percent/100; `purpose` scales the longest edge to a size;
  `print` cover-crops to a box from the print-size table turned to the
  photo's orientation; `quality` keeps the size and changes the quality only.
  Browser floating point is modelled as exact `real` arithmetic, and
  `Math.round` as `floor(x + 0.5)`.
- `naming.dfy`, module `Naming`: `getNewFileName`, i.e. `split('.')`, pop the
  extension, `join('.')` the rest, and insert `_resize.` between them.
- `batch.dfy`, module `Batch`: reading the settings form once per batch, the
  per-photo pipeline with failure as a value, and the class `Resizer`. It
  holds the page's `files` queue and `isProcessing` flag. Its
  `StartProcessing` method keeps the source's guards and its `for` loop over
  the queue.
- `wrappers.dfy`, module `Wrappers`: `Option`. `None` stands for NaN, null
  or undefined.

Where decoding, drawing and encoding happen in the browser, the model takes
a `Codec` function parameter `(Image, Plan) -> Option<Blob>`. A photo that
fails to decode has no `Image`.

The print-size table is reproduced as written. "4x6" is the only landscape
box (1200 x 800). "20x24" has the same box as "16x20" (4800 x 6000). Because
of the orientation match, a "4x6" print still comes out in the photo's own
orientation. A "20x24" print comes out in the 4:5 shape of a 16x20 print
(`Geometry.BoxTable` records both facts).

## Model

| member | source | states |
|---|---|---|
| `Geometry.Round` | script.js:213-214 | `Math.round` gives the integer r with r - 1/2 <= x < r + 1/2: the nearest integer, and halves round up |
| `Geometry.RoundUnique` | script.js:213-214 | any integer within that half-open half-unit interval of x equals `Round(x)`, so `Round` is the one nearest-integer rounding meant |
| `Geometry.Box` | script.js:4-14 | every box in the print table is between 800 and 4800 wide and between 800 and 6000 high |
| `Geometry.BoxTable` | script.js:4-14 | "20x24" has the same box as "16x20"; every key but "4x6" is portrait, and "4x6" is landscape |
| `Geometry.PercentagePlan` | script.js:211-217 | canvas width and height lie within half a pixel of w·p/100 and h·p/100, halves rounding up; the whole image is drawn at the origin filling the canvas; quality 0.92 |
| `Geometry.PercentageIsRounded` | script.js:211-214 | the percentage canvas is exactly `Round(w·p/100)` x `Round(h·p/100)` |
| `Geometry.PercentageHundredKeepsSize` | script.js:211-214 | at 100 percent the canvas equals the source size |
| `Geometry.Max` | script.js:221 | `Math.max`: at least both arguments and equal to one of them |
| `Geometry.PurposePlan` | script.js:219-226 | the longer source edge becomes exactly `size`. The other edge is within half a pixel of its exact proportional value (h·size/w or w·size/h), so the aspect ratio is kept up to rounding. No check on `size`. Image drawn at the origin filling the canvas; quality 0.92 |
| `Geometry.Orient` | script.js:238-243 | the box is either kept or swapped. Landscape sources get a box at least as wide as high, portrait sources one at least as high as wide, and a square source keeps the box as given |
| `Geometry.PrintFollowsOrientation` | script.js:238-243 | the print canvas has the table's two box sides, laid out to follow the photo's orientation, and unchanged for a square photo |
| `Geometry.PrintPlan` | script.js:228-260 | canvas is exactly the oriented box. The drawn image covers it on both axes and meets it on at least one. It keeps the source aspect ratio (dw·h = dh·w). Both offsets are <= 0, at least one is 0, and the overflow is split evenly (2·dx + dw = width). Quality 0.92 |
| `Geometry.CoverPlan` | script.js:245-260 | the same cover-and-centre guarantees for any target box |
| `Geometry.CoverRatio` | script.js:246-250 | with ratio = max(tW/w, tH/h): w·ratio >= tW, h·ratio >= tH, and one of them holds with equality |
| `Geometry.CoverIsSmallest` | script.js:246-248 | any scale factor that covers the box draws the image at least as large as the cover-crop does, so the chosen ratio is the smallest that covers |
| `Geometry.PrintExampleFourBySix` | script.js:235-260 | a 4000 x 3000 photo on "4x6" is scaled to 1200 x 900 and drawn at (0, -50) on a 1200 x 800 canvas |
| `Geometry.QualityPlan` | script.js:262-266 | canvas equals the source size, drawn whole at the origin, encoded at the given quality |
| `Geometry.PlanFor` | script.js:204-267 | every mode but quality encodes at 0.92. Quality mode keeps the size and uses the settings' quality. Print mode's canvas is the oriented box |
| `Naming.Split` | script.js:190 | `split('.')` yields at least one piece and no piece contains '.' |
| `Naming.Join` | script.js:192 | `join('.')`: of no pieces is ""; otherwise the result starts with the first piece |
| `Naming.JoinEndsWithLast` | script.js:192 | `join('.')` of one or more pieces ends with the last piece |
| `Naming.LastDot` | script.js:190-191 | finds the last '.' if there is one; nothing after it is a '.' |
| `Naming.JoinSplit` | script.js:190-192 | `join('.')` undoes `split('.')` |
| `Naming.SplitLastPiece` | script.js:190-191 | splitting a + "." + t, with t free of dots, gives the pieces of a followed by t, so `pop` yields t |
| `Naming.SplitAtLastDot` | script.js:190-192 | after `split('.')`, `pop` yields the text after the last '.' and `join('.')` of the rest the text before it; a dot-free name is a single piece |
| `Naming.NewFileName` | script.js:189-194 | `getNewFileName`; its contract is the one `Naming.NewFileNameAtLastDot` proves (next row) |
| `Naming.NewFileNameAtLastDot` | script.js:189-194 | the new name is the text before the last '.', then "_resize.", then the text after it; a name n without a dot becomes "_resize." + n |
| `Naming.NewFileNameOfParts` | script.js:189-194 | for a stem a and a dot-free extension t, `a.t` becomes `a_resize.t` |
| `Naming.NewFileNameExample` | script.js:189-194 | "vacation.photo.png" becomes "vacation.photo_resize.png" |
| `Batch.PercentOf` | script.js:141-143 | the custom field is used exactly when the dropdown says "custom" |
| `Batch.EffectiveQuality` | script.js:154-155 | the quality is never 0. It is 0.7 exactly when the parse gave NaN, 0 or 0.7, and otherwise the parsed value |
| `Batch.ReadSettings` | script.js:138-156 | the batch is refused exactly in percentage mode with a NaN or non-positive percent. Otherwise the settings are those of the selected mode: the positive percent, the chosen print key, the unchecked purpose size, or the defaulted quality |
| `Batch.ProcessOneImage` | script.js:197-275 | a photo that fails to decode fails. Otherwise the codec gets the image and the plan for its size under the batch settings |
| `Batch.EntryOf` | script.js:163-170 | an item adds at most one zip entry, exactly when it succeeds, named by `NewFileName` with its blob |
| `Batch.ZipLog` | script.js:160-177 | a batch never adds more entries than it has items |
| `Batch.Failures` | script.js:168-170 | the failure count is at most the number of items |
| `Batch.Progress` | script.js:158-173 | processedCount goes 1, 2, ..., n: up by one per item and ending at n |
| `Batch.ZipLogAppend` | script.js:160-177 | items are handled strictly in order: the zip of a + b is the zip of a followed by the zip of b |
| `Batch.ZipLogCount` | script.js:160-172 | entries plus failures equals items: every success adds one entry and every failure none |
| `Batch.SkipsFailure` | script.js:163-170 | a failing item is swallowed: the batch around it zips as if it were absent |
| `Batch.ZipLogAllSucceed` | script.js:160-177 | when every item succeeds, entry i is item i's blob under item i's new name |
| `Batch.Archive` | script.js:167 | every name passed to `zip.file` is a file of the archive |
| `Batch.ArchiveLastWins` | script.js:167 | an entry not followed by another of the same name keeps its blob in the archive; an earlier entry of the same name is overwritten |
| `Batch.ArchiveNamesFromLog` | script.js:167 | every file of the archive was added by some `zip.file` call |
| `Batch.Resizer.constructor` | script.js:16-18 | a page starts with the given queue and not processing |
| `Batch.Resizer.StartProcessing` | script.js:125-187 | see below |

`Batch.Resizer.StartProcessing`:
- An empty queue returns `NoFiles` and leaves `isProcessing` as it was.
- A call while a batch runs returns `Busy` and changes nothing.
- Otherwise `isProcessing` stays true through the loop (a loop invariant) and is false at the end.
- An invalid percent returns `InvalidPercent` before any item is processed.
- Otherwise the zip is `ZipLog` of the whole queue under the settings read once, and the progress values are `Progress(|files|)`.

## Left out

- The page's DOM and UI are not modelled. This covers the event listeners, `toggleSettings`, `renderFileItem`, `updateEmptyState`, status texts, the alerts (they appear as `Outcome` values) and the progress-bar width (the model gives the processedCount values behind it).
- `handleFiles`, `removeFile` and `clearAll` are not modelled. They are queue ingestion and removal driven by the DOM and `FileReader` callbacks. The queue is given to the `Resizer` constructor.
- Parsing of form text is not modelled. `parseInt` and `parseFloat` are replaced by their results, with `None` for NaN. The purpose dropdown is taken to parse to an integer, since its options are numbers.
- An unknown print key cannot occur: `PrintSize` lists the nine table keys. In the source an unknown key makes the load handler throw and the batch hangs.
- Pixel resampling (`drawImage`), JPEG encoding (`toBlob`) and decoding (`Image`, `URL.createObjectURL`) are browser code. They are the `Codec` parameter and `Item.image`. The browser clamping invalid canvas sizes or qualities is part of that codec.
- `JSZip.generateAsync` and `saveAs` are not modelled. The zip is the ordered log of `zip.file` calls. `Archive` gives the name-keyed view in which a later file with the same name replaces an earlier one.
- Promises, `await` and the 10 ms `setTimeout` between items are not modelled. A second press of start during a batch is represented by calling `StartProcessing` with `isProcessing` already true.
- Changes to `files` made by the user while a batch runs are not modelled. The JavaScript `for...of` would also visit photos added mid-batch. The model iterates the queue as it was at the start.
- Images with a zero width or height are not modelled. Decoded sides have type `Pos` (at least 1), while the source divides by `Math.max(w, h)`, `w` and `h` without a guard and accepts any `image/*` file. The model does not say what a zero-sized image yields: NaN or Infinity in the arithmetic, then whatever the browser does with that canvas.
- The `console.error(err)` of a failing item is not modelled. The model records only that the item failed, as `Failures` counts and as the missing zip entry; it keeps no error value.
- Floating-point rounding is not modelled. All geometry is exact rational arithmetic, so e.g. `w * ratio` never drifts.
