/**
 * The geometry of BitmapUtils: rounding a detection box onto the frame's
 * pixel grid and clamping it, the aspect-preserving fit of an image into
 * the detector's square canvas, the inverse map from canvas (model)
 * coordinates back to frame coordinates, and the EXIF orientation dispatch.
 *
 * Java `float` values are modelled as exact `real` numbers. This is an
 * idealisation: the proofs say nothing about IEEE rounding error, and
 * `Math.round` on huge or NaN values (which saturates in Java) is not
 * modelled.
 */
module BitmapGeometry {
  import opened Wrappers

  /** Side of the square canvas handed to the detector. */
  const IMAGE_SIZE: int := 640

  /** The canvas side as a real, for the float expressions. */
  const SIDE: real := IMAGE_SIZE as real

  /**
   * Java's `Math.round` on a float: the nearest integer, halves rounding
   * up, i.e. floor(x + 1/2).
   */
  function Round(x: real): (n: int)
    ensures n as real - 0.5 <= x < n as real + 0.5
  {
    (x + 0.5).Floor
  }

  function Min(a: int, b: int): int { if a <= b then a else b }

  function Max(a: int, b: int): int { if a >= b then a else b }

  // ---------------------------------------------------------------------
  // Boxes and crops
  // ---------------------------------------------------------------------

  /** android.graphics.RectF: four float edges; nothing forces left <= right. */
  datatype RectF = RectF(left: real, top: real, right: real, bottom: real)
  {
    function Width(): real { right - left }
    function Height(): real { bottom - top }
  }

  /** The integer region handed to Bitmap.createBitmap(original, left, top, width, height). */
  datatype CropRect = CropRect(left: int, top: int, width: int, height: int)

  /**
   * Why the framework rejects a request: a crop with no area
   * (createBitmap demands width > 0 and height > 0), or a resize to a
   * zero-sized bitmap (createScaledBitmap demands the same).
   */
  datatype ImageError = EmptyRegion | EmptyResize

  /** A non-empty region lying entirely inside a width x height frame. */
  predicate InsideFrame(c: CropRect, width: int, height: int)
  {
    && 0 <= c.left && 0 <= c.top
    && 0 < c.width && 0 < c.height
    && c.left + c.width <= width
    && c.top + c.height <= height
  }

  /** The box rounded edge by edge as cropBitmap rounds it (origin and size). */
  function RoundedBox(box: RectF): CropRect
  {
    CropRect(Round(box.left), Round(box.top), Round(box.Width()), Round(box.Height()))
  }

  /**
   * The clamping in cropBitmap: the origin is floored at 0 and the size is
   * cut so the region ends inside the frame. Nothing makes the size
   * positive, so a box starting at or beyond the right or bottom edge, or
   * with a rounded size of 0 or less, makes createBitmap throw; that is
   * the Failure result.
   */
  function ClampCrop(frameWidth: int, frameHeight: int, box: RectF): (r: Result<CropRect, ImageError>)
    requires frameWidth > 0 && frameHeight > 0
    ensures r.Success? <==>
      && Round(box.left) < frameWidth && Round(box.top) < frameHeight
      && Round(box.Width()) > 0 && Round(box.Height()) > 0
    ensures r.Success? ==> InsideFrame(r.value, frameWidth, frameHeight)
    ensures r.Failure? ==> r.error == EmptyRegion
    ensures InsideFrame(RoundedBox(box), frameWidth, frameHeight) ==> r == Success(RoundedBox(box))
  {
    var left := Max(0, Round(box.left));
    var top := Max(0, Round(box.top));
    var width := Min(frameWidth - left, Round(box.Width()));
    var height := Min(frameHeight - top, Round(box.Height()));
    if width <= 0 || height <= 0 then Failure(EmptyRegion)
    else Success(CropRect(left, top, width, height))
  }

  /** A box hanging past the right and bottom edges is cut at the frame. */
  lemma ClampCropExample()
    ensures ClampCrop(100, 100, RectF(90.0, 40.0, 190.0, 90.0)) == Success(CropRect(90, 40, 10, 50))
  {
  }

  /**
   * As written, a box hanging off the LEFT edge is not shortened: the
   * origin moves to 0 but the rounded width is kept, so the crop reaches
   * past the box's right edge (here columns 40..49 are outside the box).
   */
  lemma ClampCropLeftOverhang()
    ensures ClampCrop(100, 100, RectF(-10.0, 0.0, 40.0, 20.0)) == Success(CropRect(0, 0, 50, 20))
  {
  }

  /** A box that starts beyond the right edge has no area left: the crop fails. */
  lemma ClampCropPastEdge()
    ensures ClampCrop(100, 100, RectF(120.0, 10.0, 150.0, 30.0)) == Failure(EmptyRegion)
  {
  }

  // ---------------------------------------------------------------------
  // Letterbox: scale to fit, centre on the square canvas
  // ---------------------------------------------------------------------

  /**
   * The fit factor min(640 / width, 640 / height): the largest factor at
   * which both sides fit, so the longer side fills the canvas exactly.
   */
  function Scale(width: int, height: int): (s: real)
    requires width > 0 && height > 0
    ensures 0.0 < s
    ensures width as real * s <= SIDE && height as real * s <= SIDE
    ensures width >= height ==> width as real * s == SIDE
    ensures height >= width ==> height as real * s == SIDE
  {
    var sx := SIDE / width as real;
    var sy := SIDE / height as real;
    ScaleFacts(width, height);
    if sx <= sy then sx else sy
  }

  lemma ScaleFacts(width: int, height: int)
    requires width > 0 && height > 0
    ensures width as real * (SIDE / width as real) == SIDE
    ensures height as real * (SIDE / height as real) == SIDE
    ensures SIDE / width as real <= SIDE / height as real <==> height <= width
    ensures height as real * (SIDE / width as real) <= SIDE <==> height <= width
    ensures width as real * (SIDE / height as real) <= SIDE <==> width <= height
  {
    var w, h := width as real, height as real;
    assert (SIDE / w) * w == SIDE;
    assert (SIDE / h) * h == SIDE;
    assert h * (SIDE / w) == SIDE * (h / w);
    assert w * (SIDE / h) == SIDE * (w / h);
    assert h / w <= 1.0 <==> h <= w;
    assert w / h <= 1.0 <==> w <= h;
    assert SIDE / w <= SIDE / h <==> SIDE * h <= SIDE * w by {
      assert SIDE / w == SIDE * h / (w * h);
      assert SIDE / h == SIDE * w / (w * h);
    }
  }

  /** Size of the resized image and its offset on the canvas, as placeOnGrayCanvas computes them. */
  datatype Layout = Layout(scale: real, newWidth: int, newHeight: int, left: int, top: int)
  {
    /** Whether canvas cell (row y, column x) lies in the pasted rectangle. */
    predicate Covers(y: int, x: int)
    {
      top <= y < top + newHeight && left <= x < left + newWidth
    }
  }

  /**
   * The size and padding expressions of placeOnGrayCanvas. The resized
   * image never exceeds the canvas, the longer side fills it exactly, each
   * rounded side is within half a pixel of the exact scaled side, and the
   * floor-halved padding centres the image (one spare pixel goes to the
   * right or bottom), so the pasted rectangle lies inside the canvas.
   */
  function LetterboxLayout(width: int, height: int): (l: Layout)
    requires width > 0 && height > 0
    ensures l.scale == Scale(width, height)
    ensures 0 <= l.newWidth <= IMAGE_SIZE && 0 <= l.newHeight <= IMAGE_SIZE
    ensures width >= height ==> l.newWidth == IMAGE_SIZE
    ensures height >= width ==> l.newHeight == IMAGE_SIZE
    ensures l.newWidth as real - 0.5 <= width as real * l.scale < l.newWidth as real + 0.5
    ensures l.newHeight as real - 0.5 <= height as real * l.scale < l.newHeight as real + 0.5
    ensures 0 <= l.left && 2 * l.left <= IMAGE_SIZE - l.newWidth <= 2 * l.left + 1
    ensures 0 <= l.top && 2 * l.top <= IMAGE_SIZE - l.newHeight <= 2 * l.top + 1
    ensures l.left + l.newWidth <= IMAGE_SIZE && l.top + l.newHeight <= IMAGE_SIZE
  {
    var s := Scale(width, height);
    var newWidth := Round(width as real * s);
    var newHeight := Round(height as real * s);
    Layout(s, newWidth, newHeight, (IMAGE_SIZE - newWidth) / 2, (IMAGE_SIZE - newHeight) / 2)
  }

  /**
   * placeOnGrayCanvas with the framework's checks: a very thin image (one
   * side more than 1280 times the other) rounds a side to 0 pixels, and
   * createScaledBitmap rejects that size.
   */
  function Letterbox(width: int, height: int): (r: Result<Layout, ImageError>)
    requires width > 0 && height > 0
    ensures r.Failure? <==> 1280 * Min(width, height) < Max(width, height)
    ensures r.Failure? ==> r.error == EmptyResize
    ensures r.Success? ==> r.value == LetterboxLayout(width, height)
    ensures r.Success? ==> r.value.newWidth > 0 && r.value.newHeight > 0
  {
    var l := LetterboxLayout(width, height);
    ThinSide(width, height);
    if l.newWidth == 0 || l.newHeight == 0 then Failure(EmptyResize) else Success(l)
  }

  lemma ThinSide(width: int, height: int)
    requires width > 0 && height > 0
    ensures var l := LetterboxLayout(width, height);
      l.newWidth == 0 || l.newHeight == 0 <==> 1280 * Min(width, height) < Max(width, height)
  {
    if height <= width {
      ThinSideRoundsToZero(width, height);
    } else {
      ThinSideRoundsToZero(height, width);
    }
  }

  /** The shorter side rounds to 0 exactly when it is under 1/1280 of the longer. */
  lemma ThinSideRoundsToZero(longer: int, shorter: int)
    requires 0 < shorter <= longer
    ensures Round(shorter as real * (SIDE / longer as real)) == 0 <==> 1280 * shorter < longer
  {
    var x := shorter as real * (SIDE / longer as real);
    assert x * longer as real == SIDE * shorter as real;
    assert 0.0 < x;
    assert x < 0.5 <==> SIDE * shorter as real < 0.5 * longer as real;
  }

  /**
   * One resized side is 640, and the pasted rectangle lies inside the
   * 640 x 640 canvas, whatever the input's size or shape was.
   */
  lemma LetterboxFitsCanvas(width: int, height: int)
    requires width > 0 && height > 0
    ensures var l := LetterboxLayout(width, height);
      && (l.newWidth == IMAGE_SIZE || l.newHeight == IMAGE_SIZE)
      && forall y, x :: l.Covers(y, x) ==> 0 <= y < IMAGE_SIZE && 0 <= x < IMAGE_SIZE
  {
  }

  // ---------------------------------------------------------------------
  // Inverse map: model space back to the original frame
  // ---------------------------------------------------------------------

  /** The exact (unrounded) left padding mapToOriginalImage assumes. */
  function PaddingLeft(width: int, height: int): real
    requires width > 0 && height > 0
  {
    (SIDE - width as real * Scale(width, height)) / 2.0
  }

  /** The exact (unrounded) top padding mapToOriginalImage assumes. */
  function PaddingTop(width: int, height: int): real
    requires width > 0 && height > 0
  {
    (SIDE - height as real * Scale(width, height)) / 2.0
  }

  /** One coordinate from model space to frame space: (v - pad) / scale. */
  function ToFrame(v: real, pad: real, scale: real): real
    requires scale > 0.0
  {
    (v - pad) / scale
  }

  /** One coordinate from frame space to model space: v * scale + pad. */
  function ToModel(v: real, pad: real, scale: real): real
  {
    v * scale + pad
  }

  /**
   * mapToOriginalImage: each edge is shifted by the exact padding of its
   * axis and divided by the scale. No clamping is applied. The map keeps
   * the order of the edges in both directions.
   */
  function MapToOriginalImage(box: RectF, width: int, height: int): (r: RectF)
    requires width > 0 && height > 0
    ensures box.left <= box.right <==> r.left <= r.right
    ensures box.top <= box.bottom <==> r.top <= r.bottom
  {
    var s := Scale(width, height);
    var padL, padT := PaddingLeft(width, height), PaddingTop(width, height);
    ToFrameMonotone(box.left, box.right, padL, s);
    ToFrameMonotone(box.top, box.bottom, padT, s);
    RectF(ToFrame(box.left, padL, s), ToFrame(box.top, padT, s),
          ToFrame(box.right, padL, s), ToFrame(box.bottom, padT, s))
  }

  lemma ToFrameMonotone(a: real, b: real, pad: real, scale: real)
    requires scale > 0.0
    ensures a <= b <==> ToFrame(a, pad, scale) <= ToFrame(b, pad, scale)
  {
  }

  /** The forward letterbox map of a frame-space box into model space. */
  function ToModelSpace(box: RectF, width: int, height: int): RectF
    requires width > 0 && height > 0
  {
    var s := Scale(width, height);
    var padL, padT := PaddingLeft(width, height), PaddingTop(width, height);
    RectF(ToModel(box.left, padL, s), ToModel(box.top, padT, s),
          ToModel(box.right, padL, s), ToModel(box.bottom, padT, s))
  }

  /** mapToOriginalImage undoes the forward letterbox map, exactly. */
  lemma MapUndoesLetterbox(box: RectF, width: int, height: int)
    requires width > 0 && height > 0
    ensures MapToOriginalImage(ToModelSpace(box, width, height), width, height) == box
  {
  }

  /** ... and the forward map undoes mapToOriginalImage: the two are inverse bijections. */
  lemma LetterboxUndoesMap(box: RectF, width: int, height: int)
    requires width > 0 && height > 0
    ensures ToModelSpace(MapToOriginalImage(box, width, height), width, height) == box
  {
  }

  /** The exact content rectangle on the canvas maps back onto the whole frame. */
  lemma ContentMapsToFrame(width: int, height: int)
    requires width > 0 && height > 0
    ensures var s := Scale(width, height);
      var padL, padT := PaddingLeft(width, height), PaddingTop(width, height);
      MapToOriginalImage(RectF(padL, padT, padL + width as real * s, padT + height as real * s), width, height)
        == RectF(0.0, 0.0, width as real, height as real)
  {
  }

  /**
   * The integer padding placeOnGrayCanvas uses and the real padding
   * mapToOriginalImage assumes differ by less than one pixel (at most 3/4).
   */
  lemma PaddingAgreement(width: int, height: int)
    requires width > 0 && height > 0
    ensures var l := LetterboxLayout(width, height);
      && -0.75 <= l.left as real - PaddingLeft(width, height) <= 0.25
      && -0.75 <= l.top as real - PaddingTop(width, height) <= 0.25
  {
  }

  // ---------------------------------------------------------------------
  // EXIF orientation
  // ---------------------------------------------------------------------

  /**
   * Values of the Orientation tag (274, 0x0112) of TIFF 6.0, section 8,
   * reused by Exif; ExifInterface names them ORIENTATION_*. The other
   * values (0 undefined, 2, 4, 5, 7 mirrored) select no rotation here.
   */
  const ORIENTATION_NORMAL: int := 1
  const ORIENTATION_ROTATE_180: int := 3
  const ORIENTATION_ROTATE_90: int := 6
  const ORIENTATION_ROTATE_270: int := 8

  /** getAttributeInt(TAG_ORIENTATION, ORIENTATION_NORMAL): a missing tag reads as NORMAL. */
  function OrientationOf(tag: Option<int>): (code: int)
    ensures tag.Some? ==> code == tag.value
    ensures tag.None? ==> RotationAngle(code).None?
  {
    match tag
    case Some(c) => c
    case None => ORIENTATION_NORMAL
  }

  /** The Orientation value that calls for a clockwise turn by `angle` degrees. */
  function OrientationFor(angle: int): (code: int)
    requires angle == 90 || angle == 180 || angle == 270
  {
    if angle == 90 then ORIENTATION_ROTATE_90
    else if angle == 180 then ORIENTATION_ROTATE_180
    else ORIENTATION_ROTATE_270
  }

  /**
   * The switch of rotateImageIfRequired: the angle handed to rotateImage,
   * or None when the image is returned unchanged. Exactly the three
   * rotation codes rotate, each by the angle it names.
   */
  function RotationAngle(code: int): (angle: Option<int>)
    ensures angle.Some? ==>
      (angle.value == 90 || angle.value == 180 || angle.value == 270) && code == OrientationFor(angle.value)
    ensures angle.None? <==>
      code != ORIENTATION_ROTATE_90 && code != ORIENTATION_ROTATE_180 && code != ORIENTATION_ROTATE_270
  {
    if code == ORIENTATION_ROTATE_90 then Some(90)
    else if code == ORIENTATION_ROTATE_180 then Some(180)
    else if code == ORIENTATION_ROTATE_270 then Some(270)
    else None
  }

  /** The code of each angle selects that angle: OrientationFor and RotationAngle are inverse. */
  lemma OrientationRoundTrip(angle: int)
    requires angle == 90 || angle == 180 || angle == 270
    ensures RotationAngle(OrientationFor(angle)) == Some(angle)
  {
  }

  /** Width and height of a bitmap. */
  datatype Size = Size(width: int, height: int)

  /** rotateImage by a quarter turn swaps the sides; a half turn keeps them. */
  function RotatedSize(s: Size, angle: int): (r: Size)
    requires angle == 90 || angle == 180 || angle == 270
    ensures r.width * r.height == s.width * s.height
    ensures angle == 180 ==> r == s
    ensures angle != 180 ==> r.width == s.height && r.height == s.width
  {
    if angle == 180 then s else Size(s.height, s.width)
  }

  /** The size of rotateImageIfRequired's result for an image with the given Orientation tag. */
  function OrientedSize(s: Size, tag: Option<int>): (r: Size)
    ensures RotationAngle(OrientationOf(tag)).None? ==> r == s
    ensures r == s || r == Size(s.height, s.width)
  {
    match RotationAngle(OrientationOf(tag))
    case Some(angle) => RotatedSize(s, angle)
    case None => s
  }
}
