# GasMeter reader: letterbox geometry and live-feed controller

A Dafny model of the two parts of the GasMeter Android app with real logic.
Everything is proved with the Dafny verifier.

1. **BitmapUtils image geometry.** First, how a detection box is rounded and
   clamped before the frame is cropped. Next, how any image is scaled to fit
   and centred on the detector's 640×640 gray canvas. Then the inverse map
   from canvas (model-space) boxes back to frame coordinates, and the
   dispatch from an EXIF Orientation value to a rotation angle. The Orientation
   tag is tag 274 (0x0112) in section 8 of TIFF 6.0, which Exif reuses. Values
   6, 3 and 8 rotate by 90, 180 and 270 degrees; every other value leaves the
   image unchanged. The pure arithmetic is in `BitmapGeometry.dfy`. The
   imperative canvas work is in `BitmapPixels.dfy`: the sub-rectangle copy,
   the gray fill followed by the centred paste, and the per-pixel grayscale
   pass, all as methods over `array2`.
2. **LiveFeedActivity frame gate and out-of-range controller.** This state
   is shared with the view-model: a paused flag and an error count. It also
   holds whether the manual-entry dialog and the read selector are open, and
   the text shown in the result view. Frames are dropped while paused. An
   error count above 150 pauses the feed, opens the manual-entry dialog and
   resets the count. The dialog's buttons decide whether a manual value is
   recorded. `FeedSession.dfy` gives one transition function per callback
   and the lemmas about runs of callbacks. `LiveFeedActivity.dfy` is the
   class whose fields those callbacks update, with one method per callback,
   each proved equal to its transition function.

Modelling choices:

- Java `float` is modelled as exact `real` arithmetic. This is an
  idealisation, and nothing is claimed about IEEE rounding.
- `Math.round(x)` is modelled as `floor(x + 1/2)`.
- Java's integer `/` only ever sees non-negative operands here, so it
  agrees with Dafny's `/`.
- Bitmaps are `array2<Argb>` indexed `[row, column]`. A fresh `ARGB_8888`
  bitmap is transparent, and `Color.GRAY` is `0xFF888888`.
- The framework rejects some requests with exceptions. These become
  `Failure` results: a crop with no area (`EmptyRegion`), and a resize to a
  zero-sized bitmap (`EmptyResize`).
- `LiveFeedViewModel` is not part of this model. Its methods are kept as a
  log of calls (`setReadManual`, `incrementListPlace`, `enterRead`,
  `nextRead`, `setListPlace`, `resetError`, `processImage`). Its posts to the
  activity's observers are the inputs of the observer callbacks. The only
  effects assumed are three: `setPaused(p)` sets the paused flag,
  `resetError()` sets the error count to 0, and a new view-model starts
  unpaused with no errors. A recreated activity receives the view-model its
  predecessor left, with whatever flag and count it held. No clamping or wrap-around of
  the list place is assumed.
- An `AlertDialog` dismisses itself after a button click, which runs its
  dismiss listener. So each button event includes that dismissal.

Behaviour of the code worth noting, as the model captures it:

- Cropping a 100×50 box at (90,40) from a 100×100 frame gives a 10×**50**
  region, not 10×60. The crop height is `min(H - top, round(box height))`,
  so it never grows past the box (`ClampCropExample`).
- A box that hangs off the left or top edge is not shortened. The origin is
  floored at 0 but the rounded size is kept, so the crop reaches past the
  box's far edge (`ClampCropLeftOverhang`).
- An empty manual entry is not rejected with an error. It is simply not
  recorded, the list does not advance, and the feed still resumes.
- An activity destroyed while the manual-entry dialog or the read selector
  is open (a configuration change, say) leaves the view-model paused. The
  activity recreated over it shows neither, yet drops every frame until
  the selector is opened and dismissed (`RecreatedWhilePaused`). Whether
  such a recreation happens depends on the manifest, which is not part of
  this model.
- The list-place clamping and "stay at the last entry" behaviour of
  `nextRead` belong to the view-model, which is not part of this model.

## Model

| member | source | states |
|---|---|---|
| `BitmapGeometry.Round` | app/src/main/java/com/example/gasmeterreader/utils/BitmapUtils.java:23-26 | `Math.round`: the result is the unique integer n with n − 1/2 ≤ x < n + 1/2 |
| `BitmapGeometry.ClampCrop` | app/src/main/java/com/example/gasmeterreader/utils/BitmapUtils.java:22-28 | the crop succeeds iff round(left) < W, round(top) < H and both rounded sizes are positive; on success the origin is ≥ 0 and the region ends inside the frame; a rounded box already inside the frame is kept exactly; otherwise the failure is EmptyRegion |
| `BitmapGeometry.ClampCropExample` | app/src/main/java/com/example/gasmeterreader/utils/BitmapUtils.java:25-26 | a 100×50 box at (90,40) in a 100×100 frame crops to (90,40,10,50) |
| `BitmapGeometry.ClampCropLeftOverhang` | app/src/main/java/com/example/gasmeterreader/utils/BitmapUtils.java:23-25 | a box from x = −10 to x = 40 crops to columns 0..49: the width is not reduced by the clamped overhang |
| `BitmapGeometry.ClampCropPastEdge` | app/src/main/java/com/example/gasmeterreader/utils/BitmapUtils.java:25-28 | a box starting right of the frame leaves no width, so the crop fails |
| `BitmapGeometry.Scale` | app/src/main/java/com/example/gasmeterreader/utils/BitmapUtils.java:43-44 | the factor is positive, both scaled sides fit in 640, and the longer side scales to exactly 640, so it is the largest factor that fits |
| `BitmapGeometry.LetterboxLayout` | app/src/main/java/com/example/gasmeterreader/utils/BitmapUtils.java:41-51 | newWidth, newHeight ≤ 640, the longer side is exactly 640, each is within 1/2 of the exact scaled side; the padding is ≥ 0 with 2·left ≤ 640 − newWidth ≤ 2·left + 1 (same for top), so the image lies inside the canvas |
| `BitmapGeometry.Letterbox` | app/src/main/java/com/example/gasmeterreader/utils/BitmapUtils.java:45-48 | the resize fails (EmptyResize) iff the shorter side is under 1/1280 of the longer; otherwise it is LetterboxLayout with both sides positive |
| `BitmapGeometry.ThinSideRoundsToZero` | app/src/main/java/com/example/gasmeterreader/utils/BitmapUtils.java:45-46 | the shorter side rounds to 0 pixels exactly when 1280·shorter < longer |
| `BitmapGeometry.LetterboxFitsCanvas` | app/src/main/java/com/example/gasmeterreader/utils/BitmapUtils.java:33-53 | one resized side is 640 and every cell of the pasted rectangle is a cell of the 640×640 canvas |
| `BitmapGeometry.MapToOriginalImage` | app/src/main/java/com/example/gasmeterreader/utils/BitmapUtils.java:97-110 | the inverse map keeps edge order in both directions: left ≤ right iff the mapped left ≤ the mapped right, and likewise for top/bottom |
| `BitmapGeometry.MapUndoesLetterbox` | app/src/main/java/com/example/gasmeterreader/utils/BitmapUtils.java:101-108 | mapping a frame box forward (x·scale + pad per axis) and then back with mapToOriginalImage gives the box exactly |
| `BitmapGeometry.LetterboxUndoesMap` | app/src/main/java/com/example/gasmeterreader/utils/BitmapUtils.java:101-108 | mapping back and then forward gives the model-space box exactly; the two maps are inverse bijections |
| `BitmapGeometry.ContentMapsToFrame` | app/src/main/java/com/example/gasmeterreader/utils/BitmapUtils.java:101-108 | the exact content rectangle (padL, padT, padL + W·s, padT + H·s) maps to (0, 0, W, H) |
| `BitmapGeometry.PaddingAgreement` | app/src/main/java/com/example/gasmeterreader/utils/BitmapUtils.java:45-51 | the integer padding of placeOnGrayCanvas and the real padding of mapToOriginalImage (lines 101-104) differ by at most 3/4 pixel |
| `BitmapGeometry.OrientationOf` | app/src/main/java/com/example/gasmeterreader/utils/BitmapUtils.java:62-63 | a present tag value is used as is; a missing tag reads as NORMAL, which rotates nothing |
| `BitmapGeometry.RotationAngle` | app/src/main/java/com/example/gasmeterreader/utils/BitmapUtils.java:65-74 | an angle is chosen iff the value is ROTATE_90, ROTATE_180 or ROTATE_270; the angle is 90, 180 or 270 and is the one that value names; all other values (NORMAL, mirrored, undefined) return the image unchanged |
| `BitmapGeometry.OrientationRoundTrip` | app/src/main/java/com/example/gasmeterreader/utils/BitmapUtils.java:65-71 | the Orientation value for each of 90, 180 and 270 selects exactly that angle |
| `BitmapGeometry.RotatedSize` | app/src/main/java/com/example/gasmeterreader/utils/BitmapUtils.java:78-82 | rotating keeps the pixel count; a half turn keeps the size and a quarter turn swaps width and height |
| `BitmapGeometry.OrientedSize` | app/src/main/java/com/example/gasmeterreader/utils/BitmapUtils.java:57-74 | an image with a non-rotating Orientation tag keeps its size; otherwise its sides are at most swapped |
| `BitmapPixels.CopyRegion` | app/src/main/java/com/example/gasmeterreader/utils/BitmapUtils.java:28 | the sub-bitmap is height × width of the region and each pixel (y, x) is the original's pixel (top + y, left + x) |
| `BitmapPixels.CropRegion` | app/src/main/java/com/example/gasmeterreader/utils/BitmapUtils.java:22-28 | the crop step fails exactly when ClampCrop fails, always with EmptyRegion; otherwise it is the pixel copy of the clamped region |
| `BitmapPixels.CropBitmap` | app/src/main/java/com/example/gasmeterreader/utils/BitmapUtils.java:22-28 | cropBitmap fails with EmptyRegion when ClampCrop fails and with EmptyResize when the clamped region is too thin to scale, and succeeds otherwise; a success is always a 640×640 canvas: the resized crop in its centred rectangle and GRAY elsewhere |
| `BitmapPixels.PlaceOnGrayCanvas` | app/src/main/java/com/example/gasmeterreader/utils/BitmapUtils.java:31-55 | fails with EmptyResize exactly when a computed side rounds to 0 (createScaledBitmap rejects it); otherwise a fresh 640×640 canvas in which every cell of the pasted rectangle at (left, top) shows the resized image's pixel and every other cell is GRAY |
| `BitmapPixels.FillGray` | app/src/main/java/com/example/gasmeterreader/utils/BitmapUtils.java:38-39 | after drawColor every cell of the canvas is GRAY |
| `BitmapPixels.DrawAt` | app/src/main/java/com/example/gasmeterreader/utils/BitmapUtils.java:53 | drawBitmap of an opaque image at (left, top) writes the image into its rectangle and leaves every other cell as it was |
| `BitmapPixels.ConvertToGrayscale` | app/src/main/java/com/example/gasmeterreader/utils/BitmapUtils.java:85-95 | a fresh bitmap of the same width and height whose every pixel is the colour filter applied to the original's pixel |
| `FeedSession.PausedDropsFrames` | app/src/main/java/com/example/gasmeterreader/activities/LiveFeedActivity.java:332-336 | while paused, any number of frames is closed without reaching processImage and changes nothing |
| `FeedSession.ActiveProcessesFrames` | app/src/main/java/com/example/gasmeterreader/activities/LiveFeedActivity.java:332-339 | while not paused, n frames make exactly n processImage calls and change nothing else |
| `FeedSession.SelectorBlocksFrames` | app/src/main/java/com/example/gasmeterreader/activities/LiveFeedActivity.java:199-201 | once the read selector is open, no frame is processed |
| `FeedSession.ErrorCountPolicy` | app/src/main/java/com/example/gasmeterreader/activities/LiveFeedActivity.java:160-167 | a posted count ≤ 150 only updates the count; a count > 150 pauses, opens the manual-entry dialog, calls resetError and leaves the count at 0 |
| `FeedSession.ClimbBelowCeiling` | app/src/main/java/com/example/gasmeterreader/activities/LiveFeedActivity.java:160-161 | counting up one error at a time without passing 150 opens no dialog and changes nothing but the count |
| `FeedSession.ClimbCrossesOnce` | app/src/main/java/com/example/gasmeterreader/activities/LiveFeedActivity.java:160-167 | counting up from ≤ 150 to 151 opens the dialog exactly once, at 151, and ends paused with the count at 0 |
| `FeedSession.OutOfRangeScenario` | app/src/main/java/com/example/gasmeterreader/activities/LiveFeedActivity.java:160-183 | 151 errors from a fresh start, then confirming "1234": the calls are resetError, setReadManual("1234"), incrementListPlace, and the feed resumes with the count at 0 |
| `FeedSession.ConfirmOutcomes` | app/src/main/java/com/example/gasmeterreader/activities/LiveFeedActivity.java:176-183 | a non-empty entry calls setReadManual then incrementListPlace; an empty one calls nothing; both unpause and close the dialog |
| `FeedSession.UnpauseIdempotent` | app/src/main/java/com/example/gasmeterreader/activities/LiveFeedActivity.java:184-188 | cancelling and dismissing both unpause; a second dismissal changes nothing |
| `FeedSession.ResultTextOverwrittenOnChange` | app/src/main/java/com/example/gasmeterreader/activities/LiveFeedActivity.java:133-138 | the delivered text ends up displayed; the view is rewritten once iff the text differs; re-delivering it changes nothing |
| `FeedSession.DetectedEntersOnce` | app/src/main/java/com/example/gasmeterreader/activities/LiveFeedActivity.java:140-146 | a true flag adds exactly one enterRead call; false changes nothing |
| `FeedSession.NextResetsErrors` | app/src/main/java/com/example/gasmeterreader/activities/LiveFeedActivity.java:118-122 | "next" calls nextRead then resetError and leaves the count at 0 |
| `FeedSession.ListPlaceResetsErrors` | app/src/main/java/com/example/gasmeterreader/activities/LiveFeedActivity.java:128-131 | every list-place change calls resetError and leaves the count at 0 |
| `FeedSession.SelectorOutcomes` | app/src/main/java/com/example/gasmeterreader/activities/LiveFeedActivity.java:199-221 | opening the selector pauses; picking an entry calls setListPlace(position) and unpauses; dismissing unpauses |
| `FeedSession.RunKeepsPausedOnlyByDialog` | app/src/main/java/com/example/gasmeterreader/activities/LiveFeedActivity.java:160-221 | every run of callbacks keeps "paused only while the manual-entry dialog or the read selector is open" |
| `FeedSession.FreshActivityPausedOnlyByDialog` | app/src/main/java/com/example/gasmeterreader/activities/LiveFeedActivity.java:332-336 | from the first activity over a new view-model, frames are only ever dropped while a dialog or the selector is open |
| `FeedSession.RecreatedWhilePaused` | app/src/main/java/com/example/gasmeterreader/activities/LiveFeedActivity.java:88-91 | an activity recreated over a view-model left paused shows no dialog or selector yet drops every frame, and opening then dismissing the selector resumes it |
| `LiveFeed.LiveFeedActivity.Analyze` | app/src/main/java/com/example/gasmeterreader/activities/LiveFeedActivity.java:332-339 | the new state is the analyzer transition; the frame is processed iff the feed was not paused |
| `LiveFeed.LiveFeedActivity.HandleErrorCount` | app/src/main/java/com/example/gasmeterreader/activities/LiveFeedActivity.java:160-167 | the new state is the handleErrorCount transition |
| `LiveFeed.LiveFeedActivity.ShowNumberInputDialog` | app/src/main/java/com/example/gasmeterreader/activities/LiveFeedActivity.java:169-190 | opening the dialog marks it open and shows it once, changing nothing else |
| `LiveFeed.LiveFeedActivity.ConfirmManual` | app/src/main/java/com/example/gasmeterreader/activities/LiveFeedActivity.java:176-183 | the new state is the positive-button transition |
| `LiveFeed.LiveFeedActivity.CancelManual` | app/src/main/java/com/example/gasmeterreader/activities/LiveFeedActivity.java:184 | the new state is the negative-button transition |
| `LiveFeed.LiveFeedActivity.DismissManual` | app/src/main/java/com/example/gasmeterreader/activities/LiveFeedActivity.java:188 | the new state is the dismiss-listener transition |
| `LiveFeed.LiveFeedActivity.ShowResultText` | app/src/main/java/com/example/gasmeterreader/activities/LiveFeedActivity.java:133-138 | the new state is the result-text observer transition |
| `LiveFeed.LiveFeedActivity.HandleDetected` | app/src/main/java/com/example/gasmeterreader/activities/LiveFeedActivity.java:140-146 | the new state is the detection observer transition |
| `LiveFeed.LiveFeedActivity.HandleListPlace` | app/src/main/java/com/example/gasmeterreader/activities/LiveFeedActivity.java:128-131 | the new state is the list-place observer transition |
| `LiveFeed.LiveFeedActivity.ClickNext` | app/src/main/java/com/example/gasmeterreader/activities/LiveFeedActivity.java:118-122 | the new state is the "next" button transition |
| `LiveFeed.LiveFeedActivity.ShowReadSelector` | app/src/main/java/com/example/gasmeterreader/activities/LiveFeedActivity.java:192-202 | the new state is the read-selector opening transition |
| `LiveFeed.LiveFeedActivity.PickRead` | app/src/main/java/com/example/gasmeterreader/activities/LiveFeedActivity.java:218-221 | the new state is the selector-pick transition |
| `LiveFeed.LiveFeedActivity.DismissReadSelector` | app/src/main/java/com/example/gasmeterreader/activities/LiveFeedActivity.java:208 | the new state is the selector dismiss-listener transition |
| `LiveFeed.LiveFeedActivity.constructor` | app/src/main/java/com/example/gasmeterreader/activities/LiveFeedActivity.java:67-91 | a new activity takes the paused flag and error count of the view-model it is given, has no dialog or selector open, shows the initial text and has made no calls |

## Left out

- Reading the Orientation tag from a content `Uri` (`openInputStream`, `ExifInterface`): this is I/O. The tag value is an input (`Option<int>`).
- The pixels produced by `createScaledBitmap` resampling and `Matrix.postRotate` rotation: these are framework internals. The resized image is an input of the computed size, and only the size of a rotation is modelled.
- The colour arithmetic of the zero-saturation `ColorMatrix`: this is floating-point colour maths inside the framework. It is a per-pixel function passed as a parameter.
- IEEE float rounding in `scale` and the padding, and the saturation of `Math.round` on huge or NaN values: the model uses exact reals.
- BitmapGeometry.MapToOriginalImage: requires a positive original width and height. Callers pass the dimensions of a real bitmap, so a zero divisor never arises.
- BitmapPixels.DrawAt: the SRC_OVER blend `drawBitmap` applies to translucent pixels is not modelled. The pasted image is required opaque (alpha 0xFF everywhere), which camera frames and their scaled copies are; `PlaceOnGrayCanvas` and `CropBitmap` carry the same requirement.
- FeedSession.FreshActivityPausedOnlyByDialog: holds only for an activity created over a new view-model. Over a view-model left paused it fails, as `RecreatedWhilePaused` shows.
- BitmapPixels.CopyRegion: does not promise a fresh bitmap. Android may return the source bitmap itself when the region is the whole frame.
- Camera binding, preview surfaces, torch and flash control, animations, vibration, toasts, the soft keyboard and the selector's search field: these are UI and hardware.
- `updateReadDisplay`'s look-up of the entry at the new list place: it reads the view-model's list, which is not modelled. Only the fact that the entry was shown is recorded.
- The single-thread executor, the keep-only-latest back-pressure policy and observer threading: these are concurrency concerns.
- LiveFeedViewModel internals: detection, inference, how the error count grows, list clamping and `enterRead`. They are not part of this model; they are abstract calls.
- A second manual-entry dialog opened over one already open is not distinguished from one dialog: the open state is a single flag.
- ReadingAdapter: it only binds views and forwards clicks.
