# Cover-art editor: layer store, drag mapping, export plan and upload checks

A model of the core of a browser editor that composes square cover art from a
background (a colour, optionally an uploaded image with brightness/contrast)
and a list of movable, styled text layers.

- `Layers` (layers.dfy): the `TextLayer`/`Position` records, the partial update
  (`Partial<TextLayer>`), and the pure list operations the handlers apply:
  append a default layer with id `String(length + 1)`, filter out an id, merge
  an update into the layers carrying an id, find the first layer with an id.
- `Pointer` (pointer.dfy): the drag mapping from a pointer over the preview
  surface's bounding rectangle to a clamped percentage, and the way the
  preview places a percentage back on the surface.
- `Editor` (editor.dfy): class `ArtEditor`, the component's state
  (`textLayers`, `selectedLayerId`, `isDragging`, `background`,
  `backgroundColor`, `brightness`, `contrast`) with one method per handler,
  and `DownloadImage`, an imperative loop that produces the export as an
  ordered list of abstract canvas calls.
- `Export` (export.dfy): the draw commands and `ExportPlan`, the function the
  export method is proved against, with its ordering and geometry lemmas.
- `Utils` (utils.dfy): `isImageFile`, the decision of `checkImageDimensions`,
  `validateImage` over abstract file attributes, and `hexToRgb`.
- `Decimal` (decimal.dfy): `String(n)` for whole numbers, with its inverse.
- `Optional` (optional.dfy): the option type.

Points where the code's behaviour is easy to miss:

- Ids are `String(length + 1)`, so after a removal an added layer can reuse an
  id that is still present. `Editor.StaleIdsEmptyTheList` shows the sequence
  add, select "1", remove, add, remove, which leaves the list empty. So "the list
  is never empty" does not hold in general. The guarantees about removal are
  therefore stated under distinct ids. `Layers.AppendedIdIsFresh` states when an
  appended id is new.
- After a removal the selection is the first id of the list *before* the
  removal. When the first layer was the one removed, the selection names no
  layer, even with distinct ids (`Editor.FirstIdSurvives`).
- The trash button sits inside its layer's row, and the row's click handler
  selects the row's layer. One click therefore runs the removal and then the
  re-selection in the same batch, and the selection that lands is the removed
  id, which no layer carries any more (`Editor.ArtEditor.ClickRemoveButton`).
- When the background image never fires its load event, the export only fills
  the colour. It draws no text and downloads nothing.
- `validateImage` awaits the image dimensions without an error handler. A file
  that passes the first three checks but fails to load as an image leaves the
  result unsettled (`NeverSettles`).
- `hexToRgb("#" + s)` equals `hexToRgb(s)` when `s` does not itself start
  with `#` (`Utils.HashIsOptional`). When `s` does start with `#` the two can
  differ; `Utils.DoubleHashRejected` gives one such `s`.

## Model

| member | source | states |
|---|---|---|
| Editor.ArtEditor.constructor | app/components/SpotifyArtGenerator.tsx:56-70 | initial state: no image, black background, the single layer "My Playlist" with id "1" selected, not dragging, brightness and contrast 100 |
| Editor.ArtEditor.SelectedLayer | app/components/SpotifyArtGenerator.tsx:74 | some layer exactly when a layer carries the selected id, and then the first layer of the list carrying it |
| Editor.ArtEditor.SetBackground | app/components/SpotifyArtGenerator.tsx:76-83 | the data URL read from the file becomes the background; nothing else changes |
| Editor.ArtEditor.SetBackgroundColor | app/components/SpotifyArtGenerator.tsx:290 | sets the background colour only |
| Editor.ArtEditor.SetBrightness | app/components/SpotifyArtGenerator.tsx:256 | sets the brightness only |
| Editor.ArtEditor.SetContrast | app/components/SpotifyArtGenerator.tsx:269 | sets the contrast only |
| Editor.ArtEditor.SelectLayer | app/components/SpotifyArtGenerator.tsx:322 | sets the selection only |
| Editor.ArtEditor.HandleMouseDown | app/components/SpotifyArtGenerator.tsx:85-89 | selects the pressed layer and starts dragging; layers and background unchanged |
| Editor.ArtEditor.HandleMouseMove | app/components/SpotifyArtGenerator.tsx:91-103 | while dragging over a mounted surface, every layer with the selected id gets exactly the clamped drag position and keeps its other fields; other layers, the length and all other state are unchanged; no change when not dragging |
| Editor.ArtEditor.HandleMouseUp | app/components/SpotifyArtGenerator.tsx:105-107 | ends dragging from any state (wired to both mouse-up and mouse-leave, lines 460-462); nothing else changes |
| Editor.ArtEditor.AddNewTextLayer | app/components/SpotifyArtGenerator.tsx:109-121 | the list becomes the old list plus one default layer at the end, with id `String(old length + 1)`; that id is selected and present |
| Editor.ArtEditor.RemoveSelectedLayer | app/components/SpotifyArtGenerator.tsx:123-128 | with at most one layer nothing changes; otherwise the list is filtered on the selected id and the selection becomes the old first id; under distinct ids at least one layer remains, ids stay distinct, a present id costs exactly one layer, and the new selection names a layer exactly when the first layer was not the removed one |
| Editor.ArtEditor.ClickRemoveButton | app/components/SpotifyArtGenerator.tsx:322-335 | a click on the trash button runs the removal and then the row's selection: with more than one layer the list is filtered on the selected id, and the selection stays on that id, which no layer carries any more; with one layer nothing changes |
| Editor.ArtEditor.UpdateSelectedLayer | app/components/SpotifyArtGenerator.tsx:130-134 | the update is merged into the layers with the selected id; no change when none carries it |
| Editor.ArtEditor.DownloadImage | app/components/SpotifyArtGenerator.tsx:136-163 | the loop-built command list equals `Export.ExportPlan` of the current state |
| Editor.ArtEditor.DrawBackgroundImage | app/components/SpotifyArtGenerator.tsx:153-155 | the image's load handler emits exactly `Export.ImageCommands` of the background and the adjustments |
| Editor.ArtEditor.DrawTextLayers | app/components/SpotifyArtGenerator.tsx:164-184 | the loop emits the nine calls of each layer in list order, then the download |
| Editor.FirstIdSurvives | app/components/SpotifyArtGenerator.tsx:125-126 | under distinct ids, the old first id still names a layer after the removal exactly when it was not the removed id |
| Editor.StaleIdsEmptyTheList | app/components/SpotifyArtGenerator.tsx:111-126 | add, select "1", remove, add, remove from the initial state leaves an empty list with "2" selected |
| Editor.AddTwice | app/components/SpotifyArtGenerator.tsx:58-67 | from the initial state two adds give exactly the initial layer followed by the default layers with ids "2" and "3", distinct ids, the last ("3") selected |
| Layers.NewLayer | app/components/SpotifyArtGenerator.tsx:110-118 | the added layer is "New Text" at (50,50), size 32, Inter, #ffffff, rotation 0, with id `String(count + 1)` |
| Layers.Merge | app/components/SpotifyArtGenerator.tsx:132 | each field named in the update takes the update's value; every other field keeps the layer's |
| Layers.MergeIdempotent | app/components/SpotifyArtGenerator.tsx:132 | merging the same update twice is merging it once |
| Layers.MergeThen | app/components/SpotifyArtGenerator.tsx:132 | two merges in a row are one merge of the combined update |
| Layers.Patched | app/components/SpotifyArtGenerator.tsx:131-133 | same length; layers with the id are merged; every other layer is identical |
| Layers.PatchedAbsent | app/components/SpotifyArtGenerator.tsx:131-133 | an update for an id no layer carries leaves the list unchanged |
| Layers.PatchedIdempotent | app/components/SpotifyArtGenerator.tsx:97-101 | repeating any update (a drag move to the same pointer included) changes nothing more, also when the update rewrites the id itself |
| Layers.PatchedThen | app/components/SpotifyArtGenerator.tsx:131-133 | two updates of the same id compose into one |
| Layers.Filtered | app/components/SpotifyArtGenerator.tsx:125 | the kept layers are exactly those whose id differs, and as many are lost as carry the id; order and multiplicity are fixed by FilteredAppend with FilteredSingle |
| Layers.FilteredSingle | app/components/SpotifyArtGenerator.tsx:125 | a one-layer list is kept when its id differs and emptied when it matches; with FilteredAppend this fixes the filter on any list |
| Layers.FilteredAppend | app/components/SpotifyArtGenerator.tsx:125 | filtering distributes over concatenation, so kept layers keep their relative order |
| Layers.FilteredAbsent | app/components/SpotifyArtGenerator.tsx:125 | filtering an id no layer carries keeps the list |
| Layers.FilteredDistinct | app/components/SpotifyArtGenerator.tsx:125 | filtering keeps distinct ids distinct |
| Layers.RemovingPresentIdDropsOne | app/components/SpotifyArtGenerator.tsx:124-125 | with distinct ids, filtering a present id drops exactly one layer |
| Layers.RemovingDropsAtMostOne | app/components/SpotifyArtGenerator.tsx:124-125 | with distinct ids, filtering drops at most one layer |
| Layers.CountIdDistinct | app/components/SpotifyArtGenerator.tsx:125 | with distinct ids, at most one layer carries any id |
| Layers.FindLayer | app/components/SpotifyArtGenerator.tsx:74 | none exactly when no layer carries the id; otherwise the first layer carrying it |
| Layers.AppendedIdIsFresh | app/components/SpotifyArtGenerator.tsx:111 | while ids are distinct and each is `String(k)` with k at most the length, the appended id is new and the invariant survives the append |
| Layers.InitialIdsUpToLength | app/components/SpotifyArtGenerator.tsx:58-66 | the initial list meets that invariant |
| Pointer.Clamp | app/components/SpotifyArtGenerator.tsx:99 | result in [0,100]; below 0 gives 0, above 100 gives 100, inside is kept |
| Pointer.Place | app/components/SpotifyArtGenerator.tsx:482-483 | a percentage in [0,100] of a non-negative extent lies between the origin and the far edge |
| Pointer.Percent | app/components/SpotifyArtGenerator.tsx:94-95 | placing the percentage back on the axis gives the pointer coordinate again |
| Pointer.PercentCases | app/components/SpotifyArtGenerator.tsx:94-95 | a pointer before the surface gives a negative percentage, after it one above 100, inside it one in [0,100] |
| Pointer.DragTarget | app/components/SpotifyArtGenerator.tsx:93-99 | both coordinates of a drag position lie in [0,100] |
| Pointer.DragTargetCases | app/components/SpotifyArtGenerator.tsx:94-99 | a pointer left of or above the surface gives 0, right of or below gives 100, inside gives the exact ratio times 100 |
| Pointer.PreviewPoint | app/components/SpotifyArtGenerator.tsx:482-483 | a position in [0,100] is drawn inside the surface on each axis |
| Pointer.PlacePercent | app/components/SpotifyArtGenerator.tsx:94-99 | on one axis, the clamped percentage of a pointer inside the surface is placed back at the pointer |
| Pointer.DragThenPreview | app/components/SpotifyArtGenerator.tsx:482-483 | a layer dragged to a pointer inside the surface is drawn by the preview exactly under that pointer |
| Pointer.DragOnHundredSquare | app/components/SpotifyArtGenerator.tsx:94-99 | on a 100x100 surface pixels (10,10) and (90,90) give (10,10) and (90,90); outside points clamp |
| Export.PixelCentre | app/components/SpotifyArtGenerator.tsx:172-173 | a position in [0,100] lands in [0,1000] on each axis |
| Export.FilterText | app/components/SpotifyArtGenerator.tsx:153 | the filter string is its 25 fixed characters plus the texts of the two numbers |
| Export.FilterTextFrame | app/components/SpotifyArtGenerator.tsx:153 | the filter reads `brightness(`, the brightness as `String` gives it, `%) contrast(`, the contrast the same way, and `%)`, each at its position |
| Export.ImageCommands | app/components/SpotifyArtGenerator.tsx:153-155 | three calls: the filter `FilterText(brightness, contrast)`, the background drawn over the whole 1000x1000 canvas from (0,0), and the filter reset to `none` |
| Export.DrawLayer | app/components/SpotifyArtGenerator.tsx:166-177 | nine calls per layer, opened by save and closed by restore |
| Export.LayerCommands | app/components/SpotifyArtGenerator.tsx:165-178 | nine calls for each layer |
| Export.LayerCommandsAt | app/components/SpotifyArtGenerator.tsx:165-178 | the k-th block of nine layer calls draws the k-th layer |
| Export.LayerCommandsTexts | app/components/SpotifyArtGenerator.tsx:165-178 | the texts filled are exactly the layers' texts in list order |
| Export.LayerBlocks | app/components/SpotifyArtGenerator.tsx:165-178 | behind any prefix, the k-th block of nine layer calls draws the k-th layer |
| Export.ExportPlan | app/components/SpotifyArtGenerator.tsx:136-185 | no calls without a 2D context; otherwise the plan opens with the background colour filling the whole canvas (its full order is ExportOrder) |
| Export.ExportOrder | app/components/SpotifyArtGenerator.tsx:145-183 | colour fill over the whole canvas, then filter, image and filter reset when an image exists, then each layer's block in list order, then the download of spotify-cover.png |
| Export.FilterResetBeforeText | app/components/SpotifyArtGenerator.tsx:153-158 | no filter call after the image; without an image no filter call at all |
| Export.LayersBetween | app/components/SpotifyArtGenerator.tsx:164-184 | behind calls that fill no text, the layer calls and the download fill exactly the layers' texts |
| Export.ExportTexts | app/components/SpotifyArtGenerator.tsx:149-165 | an export draws exactly the layers' texts in order, or none when the context is missing or the image never loads |
| Export.ExportIncomplete | app/components/SpotifyArtGenerator.tsx:142-159 | no context means no calls; an image that never loads leaves only the colour fill |
| Export.LayerGeometry | app/components/SpotifyArtGenerator.tsx:167-174 | font size is twice the layer's; the centre is the position times 10, and lies within the 1000x1000 canvas on each axis whose position is in [0,100] |
| Export.ExportMatchesPreview | app/components/SpotifyArtGenerator.tsx:172-173 | the export centre is the preview placement on a 1000-pixel surface, and any preview offset is it scaled by width/1000 |
| Export.FilterTextExample | app/components/SpotifyArtGenerator.tsx:153 | brightness 50 and contrast 150 give `brightness(50%) contrast(150%)` |
| Export.FilterTextDefault | app/components/SpotifyArtGenerator.tsx:153 | with the initial brightness and contrast of 100 the filter is `brightness(100%) contrast(100%)` |
| Export.RedBackgroundExport | app/components/SpotifyArtGenerator.tsx:145-161 | a red background without an image is filled red over 1000x1000, with no filter call |
| Decimal.NatString | app/components/SpotifyArtGenerator.tsx:111 | `String(n)` is a non-empty digit string without a leading zero |
| Decimal.IntString | app/components/SpotifyArtGenerator.tsx:153 | the text of an integer is non-empty and starts with `-` exactly when the integer is negative |
| Decimal.ParseNatString | app/components/SpotifyArtGenerator.tsx:111 | reading `String(n)` back gives n |
| Decimal.NatStringInjective | app/components/SpotifyArtGenerator.tsx:111 | equal strings come from equal numbers |
| Utils.IsImageFile | app/lib/utils.ts:78-80 | true exactly when the MIME type starts with `image/` |
| Utils.CheckImageDimensions | app/lib/utils.ts:64-71 | true exactly when the image loaded with width and height at least the minimums; false on a load error |
| Utils.ErrorMessage | app/lib/utils.ts:158-180 | each refusal's text opens with its own fixed words, and a size refusal ends with the formatted size and a dimension refusal with `px` |
| Utils.ErrorMessageTellsKind | app/lib/utils.ts:158-180 | equal messages come from refusals of the same kind, and equal size messages from the same size text |
| Utils.MessageMarks | app/lib/utils.ts:158-180 | characters 0, 5 and 13 of a message tell the four kinds apart |
| Utils.Resolve | app/lib/utils.ts:150-155 | each omitted option takes its default: 5242880 bytes, 1000, 1000, jpeg/png/webp |
| Utils.ValidateImage | app/lib/utils.ts:157-183 | reports the first failing check in the order image, accepted type, size, dimensions; valid with no error exactly when all pass; every invalid result carries an error; never settles when the image fails to load |
| Utils.DimensionStepAgrees | app/lib/utils.ts:175-181 | after the file checks pass, the dimension step decides as checkImageDimensions does |
| Utils.DefaultBoundaries | app/lib/utils.ts:168-176 | with defaults, exactly 5 MiB and exactly 1000x1000 pass; one more byte or one pixel less fail; gif and text/plain are refused with their errors |
| Utils.DefaultTypesMessage | app/lib/utils.ts:162-165 | the default type error reads "File must be one of: image/jpeg, image/png, image/webp" |
| Utils.DefaultTypesJoined | app/lib/utils.ts:164 | the default types join to "image/jpeg, image/png, image/webp" |
| Utils.DefaultDimensionMessage | app/lib/utils.ts:177-180 | the default dimension error reads "Image must be at least 1000x1000px" |
| Utils.HexToRgb | app/lib/utils.ts:201-210 | three values in [0,255] from digit pairs 1-2, 3-4, 5-6 when the string is an optional `#` and six hex digits; [0,0,0] otherwise |
| Utils.HashIsOptional | app/lib/utils.ts:202 | a leading `#` does not change the result when the rest does not start with `#` |
| Utils.DoubleHashRejected | app/lib/utils.ts:202 | `##000001` gives [0,0,0] while `#000001` gives [0,0,1] |
| Utils.LowerPattern | app/lib/utils.ts:202 | lower-casing keeps exactly the strings the pattern matches |
| Utils.LowerDigits | app/lib/utils.ts:202 | lower-casing keeps the value of each of the six digits |
| Utils.CaseInsensitive | app/lib/utils.ts:202 | lower-casing the string does not change the result |
| Utils.HexRoundTrip | app/lib/utils.ts:201-210 | `#rrggbb` spelled from three bytes, with or without `#`, parses back to those bytes |

## Left out

- Rendering of the page (class strings, `cn`, the sidebar toggle, `app/components/ui/*`, layout, footer, loading page): presentational.
- File reading (`FileReader`), image loading and the canvas API: the loaded data URL, the load outcome and the 2D context are inputs (`SetBackground`'s argument, `imageLoads`, `hasContext`, `ImageLoad`).
- Pixels, fonts, the visual effect of filters and the degree-to-radian conversion: `Rotate` carries degrees and `SetFont` carries the pixel size and family instead of the CSS font string.
- `toDataURL`, `link.click`, object URLs, `downloadBlob`, `blobToBase64`, `base64ToBlob`: browser I/O; the plan ends with one `Download` command.
- `formatFileSize`, `getLuminance` and the contrast ratio: floating point with `Math.log`, `Math.pow` and `toFixed`; the size text inside the size error is a parameter of `ErrorMessage`.
- `generateId` and `debounce`: randomness, clocks and timers.
- React scheduling and batching: each handler is one atomic transition on the current state.
- Pointer.DragTarget: positions are exact reals, not doubles. The surface is required to have positive width and height; a zero-size box (which would give `NaN` or infinities) is not modelled.
- Export.ExportPlan: an image source `Some("")` is drawn as an image, while the code's `if (background)` (and the preview's `background &&`) treat the empty string as no image; the file reader's data URL is never empty, so the case does not arise.
- Numbers from range inputs (font size, rotation, brightness, contrast) are whole numbers.
- JavaScript numbers for the file size, the image dimensions and the `maxSize`, `minWidth` and `minHeight` options are modelled as integers, so a fractional limit (a `minWidth` of 999.5, say) and its effect on the comparisons and on the message text are not modelled.
- Utils.ValidateImage: returns the error as a `ValidationError` value; `ErrorMessage` gives its text.
