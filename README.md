# web-color-picker, modelled in Dafny

This project models the logic of a browser-based colour picker. The model covers:

- A loaded image is drawn on a canvas.
- The user samples pixels from it into ten colour slots.
- A 25 × 25 magnifier draws the neighbourhood of the cursor.
- A dragged rectangle is committed as a region and sampled on a 5 × 2 grid.
- The region and its samples are exported as an eight-line text block for an OpenCV-based automation script.
- A small playlist holds the loaded images.

The Canvas 2D API appears only through what these operations observe:

- A raster of RGBA bytes (`Canvas.Raster`).
- `getImageData`, modelled as `Canvas.ImageData`. It returns the row-major RGBA block and reads transparent black outside the raster.
- The sequence of drawing commands issued to the magnifier (`Magnifier.DrawCommand`).

Modules:

| module | models |
|---|---|
| `Wrappers` | `Option`, and `Evaluation` (a value, or the `TypeError` JavaScript throws) |
| `Arith` | `Math.min`/`Math.max`, uniqueness of quotient and remainder, row-major bounds |
| `Canvas` | the raster, pixel reads and `getImageData` |
| `Types` | `ColorInfo` and `Region` from `app/types/index.ts`, and the min/max normalisation of two corners |
| `Text` | the JavaScript string operations the exporter uses (decimal rendering of integers, `join`, `replace` of the first occurrence), and `split`, which only the reader of the exported text uses |
| `ColorPicker` | `rgbToHex`, `getPixelColor`, the two coordinate conversions, the ten slots, re-centring the cursor |
| `RegionSelection` | the drag state machine (start / update / preview / end / clear) and the 5 × 2 auto-pick |
| `Magnifier` | the clamped batch read and the exact command sequence of `drawMagnifier` |
| `ScriptExport` | `generateScriptText`, `canExport`, and a reader for the exported text used to state its round trip |
| `ImageLoader` | the playlist: appending files, previous/next, removing the current image, and the reload the index watcher starts |

State that the source changes in place is modelled as a class:

- `ColorPicker.ColorPicker` keeps the slots in an `array`.
- `RegionSelection.RegionSelector` holds the drag state and the committed region.
- `ImageLoader.Playlist` holds the two parallel lists, the index, `imageLoaded` and the URL last handed to the image loader.

Each of these states its invariant as `Valid()`, and its methods state the whole new state.

Loops are modelled as methods with loop invariants, proved against specification functions:

- `AutoPickColors` and its inner loop `PickRow` are proved against `AutoPicked` and `Collect`.
- `DrawMagnifier`, `DrawCells` and `DrawGrid` are proved against `MagnifierCommands`, `Fills` and `GridLines`.
- `OnFilesSelected` is proved against `Urls`/`Names`, and the playlist methods against `RemoveAt`, `IndexAfterRemove` and the `ShowsCurrent` invariant (the current entry is the one loading).

The properties of those functions are then proved as lemmas.

## Model

| member | source | states |
|---|---|---|
| Types.Span | app/composables/useRegionSelection.ts:36-39 | the rectangle spanned by two points is normalised (`x1 <= x2`, `y1 <= y2`), contains both points, and each corner comes from one of the points |
| Types.SpanSymmetric | app/composables/useRegionSelection.ts:57-60 | the preview rectangle does not depend on which end is the anchor |
| Types.SpanOfCorners | app/types/index.ts:11-16 | a normalised region is the span of its own corners |
| Canvas.ImageData | app/composables/useColorPicker.ts:32 | a `w × h` read yields exactly `4·w·h` bytes |
| Canvas.ImageDataAt | app/composables/useMagnifier.ts:35 | byte `(ly·w + lx)·4 + k` of a block read is in the buffer and is channel `k` of the pixel at `(x + lx, y + ly)` |
| Text.NatToString | app/composables/useScriptExport.ts:27-34 | a template's rendering of a natural number is decimal digits with no leading zero |
| Text.NatToStringValue | app/composables/useScriptExport.ts:31-34 | the decimal digits denote the number |
| Text.IntToString | app/composables/useScriptExport.ts:24-27 | a template's rendering of an integer is non-empty, starts with `-` exactly for negatives, and is otherwise decimal digits |
| Text.IntToStringRoundTrip | app/composables/useScriptExport.ts:24-27 | reading back the rendering of any integer, negative offsets included, gives that integer |
| Text.SplitJoin | app/composables/useScriptExport.ts:41 | the fact that inverts the join at line 41 (and at line 28): splitting a join on a separator that occurs in no part gives back the parts; `ScriptExport.ParseScript`, the reader, relies on it |
| Text.SplitPrefix | app/composables/useScriptExport.ts:41 | the step that proves `SplitJoin`: a separator-free prefix is glued onto the first part of a split |
| Text.Join | app/composables/useScriptExport.ts:28 | `Array.prototype.join` with a one-character separator; no contract of its own: `Text.SplitJoin` (it is inverted by `split`) and `Text.JoinChars` (what characters it can contain) carry its meaning |
| Text.JoinChars | app/composables/useScriptExport.ts:28 | a join contains a character only if a part or the separator does |
| Text.FirstIndex | app/composables/useScriptExport.ts:20 | the position of the first occurrence: it holds the character and no earlier position does |
| Text.RemoveFirst | app/composables/useScriptExport.ts:20 | `replace` with a one-character pattern; no contract of its own, `Text.RemoveFirstSpec` carries its meaning |
| Text.RemoveFirstSpec | app/composables/useScriptExport.ts:20 | only the first occurrence is removed, and a string without the character is returned unchanged |
| Text.BetweenOf | app/composables/useScriptExport.ts:35-36 | removing a known opening and closing text gives back the body |
| ColorPicker.ToBase16 | app/composables/useColorPicker.ts:19 | `toString(16)` yields lower-case hex digits, and a single digit exactly for values below 16 |
| ColorPicker.PadStart | app/composables/useColorPicker.ts:19 | `padStart(n, c)`: a string already `n` long is returned as is; a shorter one ends with the original and is filled with `c` in front up to length `n` |
| ColorPicker.UpperChar | app/composables/useColorPicker.ts:19 | upper-casing maps a lower-case hex digit to an upper-case one of the same value and leaves non-letters alone |
| ColorPicker.ToUpper | app/composables/useColorPicker.ts:19 | `toUpperCase` keeps the length, and on a string of lower-case hex digits yields upper-case hex digits of the same values, position by position |
| ColorPicker.RgbToHex | app/composables/useColorPicker.ts:18-20 | for channels 0..255 the result is the `#RRGGBB` reference form `HexForm`: `#`, then each channel as two upper-case hex digits, in R, G, B order |
| ColorPicker.HexFormSlices | app/composables/useColorPicker.ts:18-20 | the reference form is seven characters; `#`, then the channels' digit pairs at 1-2, 3-4 and 5-6 |
| ColorPicker.RgbToHexFormat | app/composables/useColorPicker.ts:18-20 | for bytes, `rgbToHex` is seven characters: `#` followed by six upper-case hex digits |
| ColorPicker.RgbToHexRoundTrip | app/composables/useColorPicker.ts:18-20 | each digit pair of `rgbToHex(r, g, b)` parses back to its channel |
| ColorPicker.ParseOfHexByte | app/composables/useColorPicker.ts:19 | the two digits rendered for a byte parse back to that byte |
| ColorPicker.HexByteOfParse | app/composables/useColorPicker.ts:19 | conversely, two upper-case hex digits are the padded rendering of the byte they denote |
| ColorPicker.BgrHexIsSwappedHex | app/types/index.ts:7-8 | the BGR form of a colour is its RGB form with the first and last digit pairs exchanged |
| ColorPicker.SwapRedBlueInvolution | app/types/index.ts:7-8 | exchanging the red and blue digit pairs twice gives back the string |
| ColorPicker.Clamp | app/composables/useColorPicker.ts:29-30 | the clamped coordinate lies in `[0, size)` (0 for an empty axis) and is the coordinate itself when already inside |
| ColorPicker.ClampIdempotent | app/composables/useColorPicker.ts:29-30 | clamping twice is clamping once |
| ColorPicker.ClampIsNearest | app/composables/useColorPicker.ts:29-30 | out-of-range coordinates saturate to the nearest edge, and no in-range coordinate is closer |
| ColorPicker.ByteOrZero | app/composables/useColorPicker.ts:33-35 | the `?? 0` fallback on a byte buffer; no contract of its own: `ColorPicker.GetPixelColorInBounds` and `Magnifier.CellColorIsClampedPixel` show the fallback is never taken on the reads the source makes |
| ColorPicker.GetPixelColor | app/composables/useColorPicker.ts:23-37 | no colour exactly when there is no canvas; otherwise the colour at the clamped coordinates, R, G, B taken from that pixel, with `hex` and `bgrHex` both derived by `rgbToHex` |
| ColorPicker.GetPixelColorInBounds | app/composables/useColorPicker.ts:29-35 | on a non-empty raster the read point is in bounds, an in-bounds request is read unmoved, and the channels are the raster's |
| ColorPicker.GetPixelColorAsWritten | app/composables/useColorPicker.ts:36 | the object built as written has no `bgrHex` property |
| ColorPicker.CssToImageCoords | app/composables/useColorPicker.ts:40-49 | each CSS offset scaled by raster size over rendered size is floored, on its own axis; `(0, 0)` without a canvas |
| ColorPicker.ImageToCssCoords | app/composables/useColorPicker.ts:52-61 | the CSS position scaled back by raster over rendered size is the pixel coordinate; `(0, 0)` without a canvas |
| ColorPicker.ImageToCssRoundTrip | app/composables/useColorPicker.ts:40-61 | mapping a pixel to CSS and back gives the same pixel |
| ColorPicker.CssToImageLosesFraction | app/composables/useColorPicker.ts:46-47 | the other order is no round trip: flooring loses a fraction of a pixel |
| ColorPicker.CssToImageToCssWithinOnePixel | app/composables/useColorPicker.ts:40-61 | CSS to image to CSS lands on or at most one CSS pixel-width before the original offset |
| ColorPicker.Center | app/composables/useColorPicker.ts:77-80 | the reset point halves each dimension rounding down, and lies inside any non-empty raster |
| ColorPicker.ColorPicker.constructor | app/composables/useColorPicker.ts:10-14 | ten empty slots, cursor at the origin, crosshair hidden |
| ColorPicker.ColorPicker.SaveColorToSlot | app/composables/useColorPicker.ts:64-70 | the slot receives the colour under the cursor when one can be read; otherwise nothing changes |
| ColorPicker.ColorPicker.SaveSpecificColorToSlot | app/composables/useColorPicker.ts:96-99 | the slot receives the given colour and the other slots are unchanged |
| ColorPicker.ColorPicker.ResetCursorToCenter | app/composables/useColorPicker.ts:73-81 | with a canvas, the cursor moves to the raster's centre and the crosshair shows; without one nothing changes |
| RegionSelection.SelectionOutcome | app/composables/useRegionSelection.ts:36-50 | a region is committed exactly when both sides of the drag exceed 3 pixels, and it is then the normalised span of the drag |
| RegionSelection.ThresholdExamples | app/composables/useRegionSelection.ts:42 | a 3-pixel drag commits nothing, and a 4-pixel drag commits its rectangle in either direction |
| RegionSelection.JsRound | app/composables/useRegionSelection.ts:78-79 | `Math.round` gives the integer within half a unit, halves rounded up |
| RegionSelection.GridX | app/composables/useRegionSelection.ts:78 | column `col`'s x on integers; no contract of its own: `RegionSelection.GridIsRounded` proves it is the source's `Math.round` formula and `RegionSelection.GridXInside` that it lies in the region |
| RegionSelection.GridY | app/composables/useRegionSelection.ts:79 | row `row`'s y on integers; `RegionSelection.GridIsRounded` and `RegionSelection.GridYInside` carry its meaning |
| RegionSelection.GridXInside | app/composables/useRegionSelection.ts:78 | every column's x lies between the region's left and right edges |
| RegionSelection.GridYInside | app/composables/useRegionSelection.ts:79 | every row's y lies between the region's top and bottom edges |
| RegionSelection.GridIsRounded | app/composables/useRegionSelection.ts:78-79 | the integer grid formulas equal `Math.round(x1 + (col + 0.5)·w / 5)` and `Math.round(y1 + (row + 0.5)·h / 2)` |
| RegionSelection.SamplePoints | app/composables/useRegionSelection.ts:76-79 | ten points, one per grid cell; `RegionSelection.SamplePointAt` and `RegionSelection.SamplePointsInside` carry their order and position |
| RegionSelection.SamplePointAt | app/composables/useRegionSelection.ts:76-79 | point `row·5 + col` of the sample sequence is that row's and column's grid point |
| RegionSelection.SamplePointsInside | app/composables/useRegionSelection.ts:76-79 | every grid point lies inside the region |
| RegionSelection.SamplePointsExample | app/composables/useRegionSelection.ts:71-79 | the ten points of region (0,0)-(100,20), in order |
| RegionSelection.Collect | app/composables/useRegionSelection.ts:80-83 | at most one colour per point, and exactly the sampler's colours, in point order, when it never fails |
| RegionSelection.CollectFromSamples | app/composables/useRegionSelection.ts:80-83 | every collected colour is what the sampler returned at one of the points |
| RegionSelection.AutoPicked | app/composables/useRegionSelection.ts:65-88 | the reference definition the auto-pick method is proved against (the samples collected at the ten points); `RegionSelection.AutoPickedCount` carries its meaning |
| RegionSelection.AutoPickedCount | app/composables/useRegionSelection.ts:65-88 | at most ten colours; with a sampler that never fails, exactly the ten grid samples in row-major order |
| RegionSelection.AutoPickedFromCanvas | app/composables/useRegionSelection.ts:80-83 | sampling through `getPixelColor` on a canvas yields all ten colours, each read at its clamped grid point and carrying both hex forms |
| RegionSelection.RegionSelector.constructor | app/composables/useRegionSelection.ts:9-14 | idle, no region, no colours, auto-pick on |
| RegionSelection.RegionSelector.StartSelection | app/composables/useRegionSelection.ts:17-23 | selecting, both end points at the start, region and colours cleared |
| RegionSelection.RegionSelector.UpdateSelection | app/composables/useRegionSelection.ts:26-29 | the live end point moves only while selecting |
| RegionSelection.RegionSelector.PreviewRegion | app/composables/useRegionSelection.ts:54-62 | a preview exists exactly while selecting; it is the normalised span of anchor and live end |
| RegionSelection.RegionSelector.EndSelection | app/composables/useRegionSelection.ts:32-51 | a no-op unless selecting; otherwise selection stops, the region is the selection outcome, and the colours are the auto-pick when committed with auto-pick on and empty when nothing is committed |
| RegionSelection.RegionSelector.AutoPickColors | app/composables/useRegionSelection.ts:65-88 | the nested loops store the colours sampled at the ten grid points in row-major order, skipping failed samples; no-op without a region |
| RegionSelection.RegionSelector.PickRow | app/composables/useRegionSelection.ts:77-84 | the inner loop appends the samples of one row, in column order, skipping failed ones |
| RegionSelection.RegionSelector.ClearRegion | app/composables/useRegionSelection.ts:91-95 | no region, not selecting, no colours |
| Magnifier.SourceRectOf | app/composables/useMagnifier.ts:26-31 | the batch-read rectangle lies within the raster |
| Magnifier.SourceRectIsWindowInRaster | app/composables/useMagnifier.ts:26-31 | a pixel is in the rectangle exactly when it is in both the cursor's 25 × 25 window and the raster |
| Magnifier.BatchRead | app/composables/useMagnifier.ts:34-36 | a block is read exactly when the rectangle has positive width and height |
| Magnifier.BatchReadEmpty | app/composables/useMagnifier.ts:34-36 | nothing is read exactly when the cursor's window misses the raster |
| Magnifier.LocalX | app/composables/useMagnifier.ts:44-51 | a cell's x inside the read block; `Magnifier.LocalIndexInBuffer` proves it lies in the block |
| Magnifier.LocalY | app/composables/useMagnifier.ts:45-52 | a cell's y inside the read block; `Magnifier.LocalIndexInBuffer` proves it lies in the block |
| Magnifier.BufferIndex | app/composables/useMagnifier.ts:53 | the byte offset of a cell in the block; `Magnifier.LocalIndexInBuffer` proves it and the two bytes after it are in the buffer |
| Magnifier.CellColor | app/composables/useMagnifier.ts:49-57 | a cell's colour with the `?? 0` fallbacks; `Magnifier.CellColorIsClampedPixel` proves it is the clamped source pixel |
| Magnifier.LocalIndexInBuffer | app/composables/useMagnifier.ts:44-56 | whenever a block was read, every cell's clamped local coordinates lie in the block, so its offset and the two bytes after it are inside the buffer |
| Magnifier.CellColorIsClampedPixel | app/composables/useMagnifier.ts:44-57 | each cell shows the pixel at its clamped position, the same colour `getPixelColor` reads there, or black when nothing was read |
| Magnifier.Fills | app/composables/useMagnifier.ts:42-62 | 625 fills, one per cell; `Magnifier.FillAt`, `Magnifier.CellCommand` and `Magnifier.FillsTile` carry their order and what they cover |
| Magnifier.GridLines | app/composables/useMagnifier.ts:67-76 | 48 lines; `Magnifier.GridLineAt` carries their order |
| Magnifier.Highlights | app/composables/useMagnifier.ts:79-84 | the white inset and red centre outlines; no contract of its own, `Magnifier.MagnifierLayout` states them |
| Magnifier.MagnifierCommands | app/composables/useMagnifier.ts:39-84 | the reference command sequence; `Magnifier.MagnifierLayout`, `Magnifier.CellCommand` and `Magnifier.GridCommand` carry its meaning |
| Magnifier.DrawMagnifier | app/composables/useMagnifier.ts:11-85 | no commands without both canvases; otherwise exactly the clear, the 625 cell fills, the 48 grid lines and the two highlight outlines, in that order |
| Magnifier.DrawCells | app/composables/useMagnifier.ts:42-62 | the nested loops emit one fill per cell, row by row |
| Magnifier.ReadCell | app/composables/useMagnifier.ts:44-57 | the cell's colour read from the block is `CellColor`, fallbacks included |
| Magnifier.DrawGrid | app/composables/useMagnifier.ts:67-76 | the loop emits, for each `i` in 1..24, the vertical and then the horizontal line at `6i` |
| Magnifier.FillAt | app/composables/useMagnifier.ts:42-43 | fill `25·dy + dx` is cell `(dx, dy)`'s, so the rows are emitted in order |
| Magnifier.GridLineAt | app/composables/useMagnifier.ts:67-75 | grid entries `2(i-1)` and `2(i-1)+1` are the vertical and horizontal lines at `6i` |
| Magnifier.MagnifierLayout | app/composables/useMagnifier.ts:39-84 | 676 commands: the clear of 150 × 150 first, the white inset outline and then the red centre outline last |
| Magnifier.CellCommand | app/composables/useMagnifier.ts:59-60 | command `1 + 25·dy + dx` fills cell `(dx, dy)`'s 6 × 6 square with its clamped source pixel |
| Magnifier.GridCommand | app/composables/useMagnifier.ts:67-76 | commands `624 + 2i` and `625 + 2i` are the full-length lines at `6i` |
| Magnifier.FillsTile | app/composables/useMagnifier.ts:42-62 | the fills tile the 150 × 150 canvas: each pixel is covered by the fill of cell `(px/6, py/6)` and by no other |
| ScriptExport.GenerateScriptText | app/composables/useScriptExport.ts:12-42 | the text is empty exactly when there is no region or no colour |
| ScriptExport.CanExport | app/composables/useScriptExport.ts:70-72 | export is offered exactly when the generated text is non-empty |
| ScriptExport.BgrDigits | app/composables/useScriptExport.ts:20 | `bgrHex.replace('#', '')`; `ScriptExport.BgrDigitsOf` carries its meaning |
| ScriptExport.DeltaItem | app/composables/useScriptExport.ts:23-27 | one `dx|dy|HEX` item; `ScriptExport.ParseDeltaItem` carries its meaning |
| ScriptExport.DeltaItems | app/composables/useScriptExport.ts:23-27 | one item per colour after the first, in order; `ScriptExport.DeltaItemsRead` carries its meaning |
| ScriptExport.ScriptLines | app/composables/useScriptExport.ts:30-39 | the eight lines; `ScriptExport.ScriptLinesSplit` and `ScriptExport.ScriptRoundTrip` carry their meaning |
| ScriptExport.BgrDigitsOf | app/composables/useScriptExport.ts:20 | stripping `#` from a consistent colour's `bgrHex` gives six upper-case digits, blue first |
| ScriptExport.ParseDeltaItem | app/composables/useScriptExport.ts:23-27 | each `dx|dy|HEX` item reads back as the offset from the first colour and the BGR digits |
| ScriptExport.DeltaItemsRead | app/composables/useScriptExport.ts:23-28 | every item reads back as its colour's offset from the first and BGR digits, is non-empty, and holds no comma or newline |
| ScriptExport.DeltaFieldRoundTrip | app/composables/useScriptExport.ts:23-28 | the comma-joined field reads back as all later colours' offsets and digits, in order, and holds no newline |
| ScriptExport.ScriptRoundTrip | app/composables/useScriptExport.ts:12-42 | reading the exported text gives back the region corners, the first colour's BGR digits, and each later colour's offset and BGR digits, in order |
| ScriptExport.ScriptLinesSplit | app/composables/useScriptExport.ts:30-41 | the text has exactly eight lines, each indented by eight spaces and ending with a comma; the last two are `0,` and `0.9,` |
| ScriptExport.SingleColourHasNoDeltas | app/composables/useScriptExport.ts:23-28 | with a single colour the offsets field is `""` |
| ScriptExport.ExampleLines | app/composables/useScriptExport.ts:30-39 | the eight lines of a concrete two-colour region |
| ScriptExport.ExampleExport | app/composables/useScriptExport.ts:30-41 | the export of that region: those eight lines joined by newlines |
| ScriptExport.ExampleLineText | app/composables/useScriptExport.ts:31-35 | the line form character for character: eight spaces, the content, a comma |
| ScriptExport.GenerateScriptTextAsWritten | app/composables/useScriptExport.ts:20 | reading `bgrHex` of a colour object without one throws |
| ScriptExport.ExportOfSampledColourThrowsAsWritten | app/composables/useColorPicker.ts:36 | as written, exporting any colour `getPixelColor` produced throws |
| ScriptExport.ExportOfSampledColour | app/composables/useScriptExport.ts:12-42 | with `bgrHex` filled in, the same export succeeds and carries the sampled pixel's BGR digits |
| ImageLoader.Urls | app/composables/useImageLoader.ts:54-55 | one URL per file, in file order |
| ImageLoader.Names | app/composables/useImageLoader.ts:54-56 | one name per file, in file order |
| ImageLoader.RemoveAt | app/composables/useImageLoader.ts:94-97 | `splice(i, 1)` removes exactly entry `i`: earlier entries stay put, later ones move down one, and the multiset loses just that entry |
| ImageLoader.RemoveAtZip | app/composables/useImageLoader.ts:94-100 | removing at one index from both lists keeps the URL/name pairs aligned |
| ImageLoader.ZipAppend | app/composables/useImageLoader.ts:59-61 | appending to both lists appends the new pairs after the old ones |
| ImageLoader.IndexAfterRemove | app/composables/useImageLoader.ts:102-110 | the index after removal fits the shorter list: unchanged unless the last entry was removed, then the new last; 0 when nothing remains |
| ImageLoader.RemovalKeepsIndexButChangesEntry | app/composables/useImageLoader.ts:110 | removing the first of two entries keeps index 0 while the entry there changes |
| ImageLoader.Playlist.constructor | app/composables/useImageLoader.ts:5-8 | empty lists, index 0, nothing loaded or loading |
| ImageLoader.Playlist.LoadCurrentImage | app/composables/useImageLoader.ts:35-45 | clears `imageLoaded` and, when there are entries, starts loading the current entry's URL |
| ImageLoader.Playlist.IndexWatcher | app/composables/useImageLoader.ts:114-116 | a reload happens exactly when the index changed; otherwise nothing changes |
| ImageLoader.Playlist.OnFilesSelected | app/composables/useImageLoader.ts:47-71 | no files changes nothing; otherwise the files' URLs and names are appended after the existing entries and the index is kept; a previously empty list loads its first file explicitly, because its index stays 0 and the watcher does not fire |
| ImageLoader.Playlist.PrevImage | app/composables/useImageLoader.ts:73-77 | one step back unless at the first entry; a step reloads the new current entry, and the current entry stays the one loading |
| ImageLoader.Playlist.NextImage | app/composables/useImageLoader.ts:79-83 | one step forward unless at the last entry; a step reloads the new current entry, and the current entry stays the one loading |
| ImageLoader.Playlist.Splice | app/composables/useImageLoader.ts:88-110 | exactly the current entry leaves both lists; the index stays put or falls back to the new last entry; removing the only entry resets it to 0 and clears `imageLoaded` |
| ImageLoader.Playlist.RemoveCurrentImageAsWritten | app/composables/useImageLoader.ts:85-116 | as written: the removal, then a reload only when the index moved; a moved index clears `imageLoaded` and loads the new current entry, while a kept index leaves the old load in place |
| ImageLoader.Playlist.RemoveCurrentImage | app/composables/useImageLoader.ts:85-111 | corrected: a no-op on an empty list; otherwise exactly the current entry is removed from both lists, the index becomes `min(removed, newLen - 1)` (0 when nothing remains), and the new current entry is the one loading; removing the only entry leaves `loadingUrl` as it was |
| ImageLoader.StaleAfterRemovalAsWritten | app/composables/useImageLoader.ts:85-116 | two files loaded, removing the first as written leaves `blob:a` loading while `blob:b` is current |
| ImageLoader.ReloadAfterRemoval | app/composables/useImageLoader.ts:85-116 | the same steps with the corrected removal leave `blob:b` current and loading |

## Left out

- Image I/O is not modelled. This covers decoding, creating and revoking object URLs, `Image.onload`, `nextTick` and `onBeforeUnmount`. An object URL enters the model as a field of `ImageLoader.SelectedFile`. Starting a load is modelled as recording the URL in `loadingUrl`. Finishing it, which `drawImageToCanvas` does by setting `imageLoaded` back to true, is left to the browser.
- ImageLoader.Playlist.IndexWatcher: Vue runs the watcher after the change, before the next render. The model runs it synchronously, right after the index is assigned. In `OnFilesSelected` it runs before the explicit load of app/composables/useImageLoader.ts:66 and cannot fire there, because an empty list's index is already 0.
- `copyScriptToClipboard` is not modelled: the clipboard, the `textarea` fallback and the `copySuccess` timer are browser I/O.
- Vue reactivity is not modelled. This covers `ref`, `computed`, and the array re-spreads that only notify watchers.
- The `hoverColor`, `showTooltip` and `mouseCanvasPos` state is not modelled, because no operation of the core writes it. The `imageLoaded` parameter of `useColorPicker` is unused there and is not modelled either.
- `getContext` returning `null` is merged with an absent canvas.
- Stroke colours, alpha and line widths of the magnifier are not modelled. Each fill carries its `rgb(...)` colour as a value, not as a CSS string.
- `clearCanvas` and `drawImageToCanvas` of the loader are not modelled: they are drawing I/O.
- Floating point is not modelled. Coordinates of the two conversions are exact reals and pixels are exact integers.
- ColorPicker.CssToImageCoords: requires a positive rendered size and does not model the `Infinity`/`NaN` JavaScript produces for a zero-size element.
- ColorPicker.ImageToCssCoords: requires a positive raster size, for the same reason.
- ColorPicker.RgbToHex: takes non-negative channels only, and its contract speaks of channels 0..255, the only values `getPixelColor` passes. The text for negative numbers, such as `-1` becoming `"-1"`, is not modelled. Upper-casing is ASCII-only, which covers every hex digit.
- ColorPicker.ColorPicker.SaveColorToSlot: requires a slot index in 0..9. JavaScript would grow the array for larger indices.
- ColorPicker.ColorPicker.SaveSpecificColorToSlot: requires a slot index in 0..9, for the same reason.
- RegionSelection.GridIsRounded: computes grid points exactly. They do not go through IEEE doubles.
- A sampler argument stands for the `getPixelColor` passed to `useRegionSelection` (`RegionSelection.RegionSelector.sample`). `RegionSelection.AutoPickedFromCanvas` connects the two.
- The selector's sampler is fixed when the selector is built, so the model assumes one canvas for the selector's lifetime. The source's `getPixelColor` reads `canvasRef.value` on every call (app/composables/useColorPicker.ts:24), so a canvas swapped later would be seen there.
- The eight-line format is the only export in the code. A `generateColorsText` variant, emitting only the two colour lines, does not exist in `useScriptExport.ts`, so it is not modelled.

## Findings

| source | as written | input that shows it | evidently intended | confidence | as-written member | corrected member |
|---|---|---|---|---|---|---|
| app/composables/useColorPicker.ts:36 | `getPixelColor` returns `{ x, y, r, g, b, hex }`. It never sets `bgrHex`, although `ColorInfo` declares it (app/types/index.ts:8) and `generateScriptText` calls `bgrHex.replace` on every colour (app/composables/useScriptExport.ts:20, 26) | pick any pixel on any canvas, then export a region whose colours came from `getPixelColor`: `first.bgrHex` is `undefined`, so `.replace` throws a `TypeError` | `bgrHex = rgbToHex(b, g, r)`, the `#BBGGRR` form the type's comment describes | high, not executed | ScriptExport.ExportOfSampledColourThrowsAsWritten | ScriptExport.ExportOfSampledColour |
| app/composables/useImageLoader.ts:110 | after removing an entry that is not the last, `currentIndex` is assigned its old value. The only reload is the watcher on `currentIndex` (lines 114-116), and it fires only on a change, so nothing reloads. The canvas keeps the removed image, whose URL was just revoked (line 91), and `imageLoaded` stays true | load two files, stay on the first, remove it: `currentIndex` stays 0 and the entry there is now the second file, but no load starts | reload the current entry after every removal that leaves one, as `onFilesSelected` does explicitly at line 66 for the case where the index does not move | medium, not executed; `loadCurrentImage` is exported (line 129), so a caller outside these files could reload | ImageLoader.StaleAfterRemovalAsWritten | ImageLoader.Playlist.RemoveCurrentImage |
