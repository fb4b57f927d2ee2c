# Photo editor core, modelled in Dafny

This project models the logic of a browser photo editor's editing screen
(`ImageEditor`) and of its upload drop zone (`ImageUploader`), and proves
properties of that model:

- **History** (`history.dfy`): the linear undo/redo history. `saveState`
  truncates the snapshot stack after the cursor and pushes a snapshot;
  `handleUndo` and `handleRedo` move the cursor inside their guards and
  restore all 24 parameters. The operations are specified as functions over
  an `Editor` value. The class `EditorSession` holds the live parameters,
  `historyStack` and `historyIndex` as fields, and each of its methods is
  proved against its function.
- **Editor parameters** (`params.dfy`): the 24-field snapshot, the starting
  values and the ranges the controls keep each value in.
- **Rotate and zoom steps** (`transform.dfy`): rotation by ±90 with
  JavaScript's truncating `%`, and zoom clamped to 0.5–3.0 (kept in tenths).
- **Render geometry** (`geometry.dfy`): the social crop preset table, the
  canvas size, the centred source crop rectangle, the destination rectangle
  and the circle-clip radius.
- **Filter branch** (`filters.dfy`): when the CSS-filter redraw runs, and
  when the sharpening pass inside it runs.
- **Sharpening pass** (`sharpen.dfy`): an in-place method over the RGBA
  buffer (`array<int>`) with the source's nested `y`/`x`/`c` loops. The
  update is in place, so each byte reads its left and upper neighbours after
  they have been sharpened, and its right and lower neighbours before.
- **Text overlay** (`text.dfy`): the anchor, baseline, background box and
  CSS font string. The font string is proved to read back uniquely.
- **Upload drop zone** (`uploader.dfy`): the accept/reject decision of
  `onDrop`, and the `isDragging` flag (class `DropZone`).

Integers are unbounded. Values the browser computes in floating point
(draw rectangles, the text layout, the sharpening factor) are `real`.

## Model

| member | source | states |
|---|---|---|
| EditorParams.Initial | src/components/ImageEditor.tsx:71-94 | the starting parameters lie inside every control's range, with rotation 0, zoom 1.0 and the original preset |
| History.Start | src/components/ImageEditor.tsx:95-96 | a new session has an empty stack and cursor -1 and the given parameters; neither undo nor redo is enabled |
| History.Commit | src/components/ImageEditor.tsx:99-131 | after `saveState` the stack is the old stack up to and including the cursor, followed by the snapshot; the cursor is on the new top, so redo is disabled; a first save gives `[s]` with cursor 0; undo is enabled exactly when the cursor was not -1; range invariants are kept |
| History.Undo | src/components/ImageEditor.tsx:444-476 | when the cursor is > 0, it moves down by one and the parameters become that stored snapshot; the stack never changes; otherwise nothing changes; redo becomes enabled |
| History.Redo | src/components/ImageEditor.tsx:479-511 | when the cursor is below the top, it moves up by one and the parameters become that stored snapshot; the stack never changes; otherwise nothing changes; undo becomes enabled |
| History.UndoThenRedo | src/components/ImageEditor.tsx:444-511 | undo then redo restores the cursor, and the parameters too when they were in step with the stack |
| History.RedoThenUndo | src/components/ImageEditor.tsx:444-511 | redo then undo restores the cursor, and the parameters too when they were in step with the stack |
| History.UndoTimes | src/components/ImageEditor.tsx:444-476 | n undos move the cursor down by n, as long as n does not exceed the cursor, and leave the parameters in step with the stack |
| History.RedoTimes | src/components/ImageEditor.tsx:479-511 | n redos never change the stack; the cursor moves up by n, stopping at the top; once it has moved, the parameters are the snapshot under it |
| History.UndoRedoTimes | src/components/ImageEditor.tsx:444-511 | n undos followed by n redos give back exactly the starting editor |
| History.UndoTimesForgetsParams | src/components/ImageEditor.tsx:444-476 | after at least one undo the result does not depend on the live parameters before it |
| History.UndoRedoTimesUnsynced | src/components/ImageEditor.tsx:444-511 | for 0 < n ≤ cursor, n undos then n redos give back the cursor and the snapshot under it, also when the live parameters were out of step with the stack |
| History.RedoAtTopIsNoOp | src/components/ImageEditor.tsx:525 | at the top of the stack any number of redos changes nothing, matching the disabled redo button |
| History.CommitDiscardsRedo | src/components/ImageEditor.tsx:127-131 | a save after undos drops every entry above the cursor, and no redo can reach them afterwards |
| History.CommitUndoCommitScenario | src/components/ImageEditor.tsx:127-131 | saving a, b and c, undoing once and then saving d leaves the stack [a, b, d] |
| History.CommitThenSet | src/components/ImageEditor.tsx:426-430 | a handler that records before changing: the stack becomes the kept prefix plus the parameters from before the change, the cursor is on it, and the live parameters are the changed ones |
| History.RotateAsWritten | src/components/ImageEditor.tsx:424-431 | the rotate button as written: only the rotation changes, to `RotateStep`; the stack becomes the kept prefix plus the old parameters; the ranges are kept |
| History.ZoomInAsWritten | src/components/ImageEditor.tsx:555-559 | the zoom-in button as written: only the zoom changes, to `ZoomIn` (never above 3.0); the stack becomes the kept prefix plus the old parameters; the ranges are kept |
| History.ZoomOutAsWritten | src/components/ImageEditor.tsx:569-573 | the zoom-out button as written: only the zoom changes, to `ZoomOut` (never below 0.5); the stack becomes the kept prefix plus the old parameters; the ranges are kept |
| History.TwoRotationsThenUndoAsWritten | src/components/ImageEditor.tsx:424-431 | as written, loading and then two clockwise presses followed by one undo give rotation 0, not 90 |
| History.SetThenCommit | src/components/ImageEditor.tsx:427-429 | recording after the change: the stack becomes the kept prefix plus the new parameters, in step with them; one undo then gives back the parameters from before the change |
| History.Rotate | src/components/ImageEditor.tsx:424-431 | the rotate button with the change recorded: only the rotation changes, to `RotateStep`; the stack becomes the kept prefix plus the new parameters; one undo restores the old ones |
| History.ZoomInRecorded | src/components/ImageEditor.tsx:555-559 | the zoom-in button with the change recorded: only the zoom changes, to `ZoomIn`; the stack becomes the kept prefix plus the new parameters; one undo restores the old ones |
| History.ZoomOutRecorded | src/components/ImageEditor.tsx:569-573 | the zoom-out button with the change recorded: only the zoom changes, to `ZoomOut`; the stack becomes the kept prefix plus the new parameters; one undo restores the old ones |
| History.TwoRotationsThenUndo | src/components/ImageEditor.tsx:424-431 | with the change recorded, two clockwise presses and one undo give rotation 90 |
| History.EditorSession.constructor | src/components/ImageEditor.tsx:95-96 | a session starts with an empty stack and cursor -1 |
| History.EditorSession.SetParams | src/components/ImageEditor.tsx:71-94 | a setter changes only the live parameters, never the stack or the cursor |
| History.EditorSession.SaveState | src/components/ImageEditor.tsx:99-131 | the in-place stack and cursor update equals `Commit` |
| History.EditorSession.HandleUndo | src/components/ImageEditor.tsx:444-476 | the in-place update equals `Undo` |
| History.EditorSession.HandleRedo | src/components/ImageEditor.tsx:479-511 | the in-place update equals `Redo` |
| History.EditorSession.HandleRotate | src/components/ImageEditor.tsx:424-431 | the handler as written (save, then change) equals `RotateAsWritten` |
| History.EditorSession.HandleZoomIn | src/components/ImageEditor.tsx:555-559 | the handler as written equals `ZoomInAsWritten` |
| History.EditorSession.HandleZoomOut | src/components/ImageEditor.tsx:569-573 | the handler as written equals `ZoomOutAsWritten` |
| History.EditorSession.RotateAndRecord | src/components/ImageEditor.tsx:424-431 | change, then save, equals the corrected `Rotate` |
| History.EditorSession.ZoomInAndRecord | src/components/ImageEditor.tsx:555-559 | change, then save, equals `ZoomInRecorded` |
| History.EditorSession.ZoomOutAndRecord | src/components/ImageEditor.tsx:569-573 | change, then save, equals `ZoomOutRecorded` |
| Transform.JsRem | src/components/ImageEditor.tsx:427 | JavaScript's remainder is strictly smaller than the divisor in size and takes the sign of the dividend |
| Transform.JsRemSameTurn | src/components/ImageEditor.tsx:427 | the remainder by 360 differs from the dividend by whole turns |
| Transform.RotateStep | src/components/ImageEditor.tsx:425-430 | one press maps a multiple of 90 in (-360, 360) to another, equal to the old rotation ±90 up to whole turns, with the sign of `prev ± 90` as JavaScript's `%` gives it |
| Transform.RotateStepsValid | src/components/ImageEditor.tsx:424-431 | any number of presses keeps a valid rotation valid |
| Transform.RotateStepsTurn | src/components/ImageEditor.tsx:424-431 | n presses land on the start plus n·(±90), up to whole turns |
| Transform.RotateStepsCongruent | src/components/ImageEditor.tsx:424-431 | n presses stay valid and land on the start plus n·(±90), up to whole turns |
| Transform.FullTurnsAreIdentity | src/components/ImageEditor.tsx:424-431 | 4·k presses of either button, k full turns, return to the start up to whole turns |
| Transform.NonNegativeStaysNonNegative | src/components/ImageEditor.tsx:427 | clockwise presses from a non-negative rotation never give a negative one |
| Transform.FourClockwiseFromNonNegative | src/components/ImageEditor.tsx:424-431 | from 0, 90, 180 or 270, four clockwise presses return to exactly the same value |
| Transform.ClockwiseThenBack | src/components/ImageEditor.tsx:424-431 | a clockwise press followed by a counter-clockwise one is the identity up to whole turns |
| Transform.ZoomIn | src/components/ImageEditor.tsx:556 | zoom in adds 0.1 whenever that stays within 3.0 and otherwise stops at 3.0, never exceeds 3.0, and keeps a valid zoom valid |
| Transform.ZoomOut | src/components/ImageEditor.tsx:570 | zoom out subtracts 0.1 whenever that stays within 0.5 and otherwise stops at 0.5, never goes below 0.5, and keeps a valid zoom valid |
| Transform.ZoomRoundTrip | src/components/ImageEditor.tsx:555-573 | zoom out undoes a zoom in that was not clamped, and the other way round |
| Transform.ZoomInTimesSaturates | src/components/ImageEditor.tsx:555-559 | n zoom-in presses add n tenths, capped at 3.0 |
| Geometry.PresetSize | src/components/ImageEditor.tsx:53-60 | every social preset is a square of positive size; only `original` has width 0 |
| Geometry.CanvasSize | src/components/ImageEditor.tsx:176-183 | the canvas takes the preset's size exactly when the preset is not `original` and has a positive width, and otherwise the image's size |
| Geometry.SourceRect | src/components/ImageEditor.tsx:214-254 | the source rectangle lies inside the image with equal margins on opposite sides; with a preset it has the canvas's aspect ratio and spans the full height or the full width; without one it is the whole image |
| Geometry.DestRect | src/components/ImageEditor.tsx:244-254 | the destination is the whole canvas, centred on the translated origin |
| Geometry.CircleRadius | src/components/ImageEditor.tsx:237 | the radius is half the shorter canvas side: the largest disc that fits |
| Geometry.OriginalUsesWholeImage | src/components/ImageEditor.tsx:229-231 | the original preset draws the whole image, with zero offsets, onto a canvas of the image's size |
| Geometry.SquareImageOnSquarePreset | src/components/ImageEditor.tsx:214-232 | a square image is not cropped by a square preset; a 200×200 image on Facebook gives a 170×170 canvas |
| Filters.NeedsFilterPass | src/components/ImageEditor.tsx:260-261 | the filter branch runs exactly when a colour setting differs from the editor's starting value |
| Filters.SharpnessAloneDoesNothing | src/components/ImageEditor.tsx:260-301 | with all colour settings neutral, neither the filter branch nor the sharpening pass runs, whatever the sharpness |
| Filters.FilterPassDependsOnColourOnly | src/components/ImageEditor.tsx:260-261 | the branch decision depends only on the colour settings, and the sharpening decision only on those and the sharpness |
| Sharpen.InteriorColour | src/components/ImageEditor.tsx:308-320 | every colour byte of an interior pixel has its four neighbours' bytes inside the buffer |
| Sharpen.Clamp255 | src/components/ImageEditor.tsx:323 | `Math.min(255, Math.max(0, v))`: 0 below 0, 255 above 255, `v` itself in between |
| Sharpen.RoundHalfEven | src/components/ImageEditor.tsx:323 | storing rounds to the nearest integer in [0, 255], ties to the even one |
| Sharpen.StoreByte | src/components/ImageEditor.tsx:323 | the stored byte is 0 for values at most 0, 255 for values at least 255, and otherwise the nearest integer, ties to the even one |
| Sharpen.Sharpened | src/components/ImageEditor.tsx:315-323 | a sharpened byte is a byte; it moves away from the neighbours' average, never toward it; a zero factor keeps it |
| Sharpen.SharpenedFormula | src/components/ImageEditor.tsx:315-323 | in terms of the statement's value `v = current + (current − neighbours/4)·factor`, the stored byte is 0 when v ≤ 0, 255 when v ≥ 255, and otherwise v rounded to the nearest integer, ties to even |
| Sharpen.ChannelStep | src/components/ImageEditor.tsx:313-323 | the five bytes one channel step reads are inside the buffer, and storing `Sharpened` of them completes one more byte of the pass |
| Sharpen.SharpenRow | src/components/ImageEditor.tsx:309-326 | one pass of the `x` loop sharpens every interior colour byte of its row and no other byte |
| Sharpen.SharpenPass | src/components/ImageEditor.tsx:301-333 | the in-place pass keeps every byte a byte and leaves border pixels and alpha bytes unchanged; each interior colour byte gets `Sharpened` of its input, its left and upper neighbours' new values and its right and lower neighbours' input values; a zero sharpness, or a width or height below 3, leaves the buffer unchanged |
| TextOverlay.BaselineOf | src/components/ImageEditor.tsx:354 | the baseline is `middle` exactly for a centred caption |
| TextOverlay.TextBand | src/components/ImageEditor.tsx:354 | the caption covers a band exactly one text size high |
| TextOverlay.CaptionPlacement | src/components/ImageEditor.tsx:341-354 | a top caption starts size+10 below the top edge; a bottom caption ends 10 above the bottom edge; a centred caption is centred; on a canvas at least 2·size+20 high, top and bottom captions stay inside |
| TextOverlay.AnchorsMirror | src/components/ImageEditor.tsx:341-352 | the top and bottom anchors mirror each other about the centre anchor |
| TextOverlay.BoxTop | src/components/ImageEditor.tsx:362-364 | the corrected box top agrees with the source for `center` and `top`; for `bottom` it is the `top` rule |
| TextOverlay.BoxCoversText | src/components/ImageEditor.tsx:357-366 | with the corrected top, the background box covers the caption in every position for every size of at least 10 |
| TextOverlay.CoverageThreshold | src/components/ImageEditor.tsx:361-364 | a centred box covers its caption at any size; a top box does so exactly from size 10 upward |
| TextOverlay.BottomBoxMissesTextAsWritten | src/components/ImageEditor.tsx:362-364 | as written, the bottom box ends 5 below the anchor, so for every size above 5 it does not cover the caption |
| TextOverlay.DefaultBottomCaptionAsWritten | src/components/ImageEditor.tsx:346-364 | at size 24 on a 400-high canvas the bottom box is [335, 371] and the caption is [366, 390] |
| TextOverlay.BoxAt | src/components/ImageEditor.tsx:360-366 | the box is measured width + 20 wide and 1.5·size high, starts at the given top, and is centred on the canvas's vertical midline |
| TextOverlay.Layout | src/components/ImageEditor.tsx:337-386 | an empty caption draws nothing, not even a box; otherwise the caption is centred horizontally at its anchor, has a box exactly when a background colour is set, placed by the source's rule `BoxTopAsWritten`, and uses the composed font string |
| TextOverlay.LayoutCorrected | src/components/ImageEditor.tsx:362-364 | the layout with the corrected box top: identical to `Layout` except for the box's top, and identical altogether for `top` and `center` captions |
| TextOverlay.LayoutBottomBoxMissesText | src/components/ImageEditor.tsx:357-366 | as written, a bottom caption of size above 5 with a background colour is drawn partly outside its box |
| TextOverlay.LayoutCorrectedBoxCoversText | src/components/ImageEditor.tsx:357-366 | with the corrected top, every background box drawn for in-range parameters covers its caption |
| TextOverlay.Decimal | src/components/ImageEditor.tsx:384 | the size numeral is non-empty, all digits, and has no leading zero |
| TextOverlay.DecimalValue | src/components/ImageEditor.tsx:384 | reading the numeral back gives the size |
| TextOverlay.StripStyleRoundTrip | src/components/ImageEditor.tsx:381-383 | the style words read back as the bold and italic flags |
| TextOverlay.ParseSizeRoundTrip | src/components/ImageEditor.tsx:384 | the size part reads back as the size and the family |
| TextOverlay.ParseFontStringRoundTrip | src/components/ImageEditor.tsx:381-384 | the whole font string reads back as its bold, italic, size and family |
| TextOverlay.FontStringInjective | src/components/ImageEditor.tsx:381-384 | different font settings never give the same font string |
| Uploader.OnDropDecision | src/components/ImageUploader.tsx:16-37 | an empty drop is rejected with "Please upload an image file (JPEG, PNG, WebP)"; a first file whose type does not start with "image/" is rejected with "Only image files are allowed"; otherwise exactly the first file is accepted |
| Uploader.OnlyFirstFileMatters | src/components/ImageUploader.tsx:24 | files after the first never change the outcome |
| Uploader.RejectionsAreDistinguishable | src/components/ImageUploader.tsx:19-29 | the not-an-image message appears exactly when the drop is non-empty and its first file is not an image |
| Uploader.DropExamples | src/components/ImageUploader.tsx:26 | a PNG is accepted; a PDF first is rejected even if a PNG follows; "image/" only counts as a prefix |
| Uploader.DropZone.constructor | src/components/ImageUploader.tsx:14 | the zone starts not dragging, with nothing read and no error shown |
| Uploader.DropZone.DragEnter | src/components/ImageUploader.tsx:44 | drag-enter sets the flag and nothing else |
| Uploader.DropZone.DragLeave | src/components/ImageUploader.tsx:45 | drag-leave clears the flag and nothing else |
| Uploader.DropZone.Drop | src/components/ImageUploader.tsx:16-37 | every drop clears the flag; the outcome is `OnDropDecision`; a rejection shows its message and reads nothing, and an acceptance hands exactly the first file to the reader |

## Left out

- Canvas drawing calls are not modelled: translate, rotate, scale, clip, drawImage, fillRect, fillText and the shadow settings are browser rendering. Only the numbers passed to them are modelled.
- The CSS filter string and its effect on pixels are left out. Its formatting interpolates floating-point-to-string conversions.
- `measureText` is a canvas call, so the width it returns is a parameter of `TextOverlay.Layout`. The source measures before it sets the caption's font (ImageEditor.tsx:360 and :384), and setting `canvas.width` (:186) resets the font to the default, so this is the width in the default font. The 10 of padding on each side holds only for captions whose drawn width matches that.
- The model uses exact reals, not IEEE doubles. Repeated `+ 0.1` zoom steps drift in floating point, which the model's integer tenths do not reproduce.
- The store into a `Uint8ClampedArray` is modelled as clamp then round-half-to-even on exact reals.
- React scheduling is left out: effects, `useCallback` dependency lists and batched setters. A save is an atomic call with an explicit snapshot. Image loading (`useEffect`) is reduced to one save of the starting parameters in the scenario lemmas.
- The 24 separate state hooks are one `Snapshot` value. Restoring "all 24 fields" is replacing that value.
- Every handler that calls `saveState` in the same event as its setter records the parameters from before the click, through the same render-time closure. This includes the circle toggle (ImageEditor.tsx:435-441), the mobile setters (:601-643), the crop preset and flip buttons (:682-683, :700-701, :711-712), and the filter, font, style, position, shadow and colour buttons (:836-1123). The model states this discrepancy for the rotate and zoom buttons only; `History.CommitThenSet` is the shape all of these handlers share.
- The sliders and other setters are modelled only as `History.EditorSession.SetParams`. That is a change of the live parameters, followed by `SaveState` where the source saves. Which snapshot a slider's closure captures is not modelled.
- Export and download, the JSX markup, the mobile controls and the page routing are UI and I/O.
- `FileReader`, the toasts and `react-dropzone` (including its `accept` pre-filter and `multiple: false`) are I/O and a library. The drop zone records the file handed to the reader and the error messages shown.
- Sharpen.SharpenPass: the inner guard `factor > 0 && x > 0 && x < width - 1 && y > 0 && y < height - 1` always holds inside the loops, so the method leaves it out. The `try`/`catch` around the pass is also left out. It guards the pixel read-back and write-back (`getImageData` at :303, `putImageData` at :329), which the model does not include. That every read and write of the loops is in bounds is a separate fact, proved by `Sharpen.SharpenPass`.
- Sharpen.SharpenPass: the per-byte statement is written as a call to `Sharpen.Sharpened`, which `Sharpen.SharpenedFormula` proves equal to the source's expression.
- The source comment calls the sharpening pass a convolution, but the code updates the buffer in place. The model follows the code: left and upper neighbours are read after they have been sharpened.
- Geometry.SourceRect does not require positive image dimensions. The aspect-ratio test is written as a cross multiplication, which agrees with the source's division for every positive canvas, including a zero image height.

## Findings

| source | as written | input that shows it | evidently intended | confidence | as-written member | corrected member |
|---|---|---|---|---|---|---|
| src/components/ImageEditor.tsx:424-431 | the handler calls the `saveState` closure of the render it was created in, which reads that render's state, so it records the parameters from before the press, never the rotated ones; the zoom buttons (555-559, 569-573) do the same | load an image (one save at rotation 0), press rotate clockwise twice, press undo: the rotation becomes 0 | each press records the new parameters, so one undo goes back to 90 | not executed | History.TwoRotationsThenUndoAsWritten | History.TwoRotationsThenUndo |
| src/components/ImageEditor.tsx:362-364 | for a `bottom` caption the box top is `textY - 1.5·size + 5`, but the caption is drawn with baseline `top`, so it spans [textY, textY + size] while the box spans [textY − 1.5·size + 5, textY + 5] | size 24 on a 400-high canvas: box [335, 371], caption [366, 390] | the box starts 5 above the anchor, as for `top`, and covers the caption | not executed | TextOverlay.LayoutBottomBoxMissesText | TextOverlay.LayoutCorrectedBoxCoversText |
