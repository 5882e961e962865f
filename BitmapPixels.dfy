/**
 * The pixel side of BitmapUtils: bitmaps are 2-D arrays indexed
 * [row, column] (that is [y, x]) of 32-bit ARGB colours. The methods copy
 * a sub-rectangle, fill a fresh canvas with gray and paste an image into
 * it, and desaturate an image into a fresh bitmap of the same size.
 *
 * The resampling filter of createScaledBitmap and the colour arithmetic of
 * the zero-saturation ColorMatrix are not modelled: the resized image is an
 * input of the computed size, and the per-pixel colour filter is a
 * parameter.
 */
module BitmapPixels {
  import opened Wrappers
  import opened BitmapGeometry

  /** A packed 0xAARRGGBB colour (Android's ARGB_8888 config). */
  newtype Argb = c: int | 0 <= c < 0x1_0000_0000

  /** Color.GRAY. */
  const GRAY: Argb := 0xFF88_8888

  /** A freshly created ARGB_8888 bitmap starts fully transparent. */
  const TRANSPARENT: Argb := 0

  /**
   * Bitmap.createBitmap(original, left, top, width, height) for a region
   * inside the frame: a new bitmap holding exactly that sub-rectangle.
   */
  method CopyRegion(original: array2<Argb>, c: CropRect) returns (sub: array2<Argb>)
    requires InsideFrame(c, original.Length1, original.Length0)
    ensures sub.Length0 == c.height && sub.Length1 == c.width
    ensures forall y, x :: 0 <= y < c.height && 0 <= x < c.width ==>
      sub[y, x] == original[c.top + y, c.left + x]
  {
    sub := new Argb[c.height, c.width];
    var y := 0;
    while y < c.height
      invariant 0 <= y <= c.height
      invariant forall i, j :: 0 <= i < y && 0 <= j < c.width ==> sub[i, j] == original[c.top + i, c.left + j]
    {
      var x := 0;
      while x < c.width
        invariant 0 <= x <= c.width
        invariant forall i, j :: 0 <= i < y && 0 <= j < c.width ==> sub[i, j] == original[c.top + i, c.left + j]
        invariant forall j :: 0 <= j < x ==> sub[y, j] == original[c.top + y, c.left + j]
      {
        sub[y, x] := original[c.top + y, c.left + x];
        x := x + 1;
      }
      y := y + 1;
    }
  }

  /** Every pixel's alpha is 0xFF, as in camera frames and their scaled copies. */
  predicate Opaque(image: array2<Argb>)
    reads image
  {
    forall y, x :: 0 <= y < image.Length0 && 0 <= x < image.Length1 ==> image[y, x] >= 0xFF00_0000
  }

  /**
   * The crop step of cropBitmap: the box is clamped (ClampCrop) and the
   * clamped region copied out. A region with no area is the failure the
   * framework raises.
   */
  method CropRegion(original: array2<Argb>, box: RectF) returns (r: Result<array2<Argb>, ImageError>)
    requires original.Length0 > 0 && original.Length1 > 0
    ensures r.Failure? <==> ClampCrop(original.Length1, original.Length0, box).Failure?
    ensures r.Failure? ==> r.error == EmptyRegion
    ensures r.Success? ==>
      var c := ClampCrop(original.Length1, original.Length0, box).value;
      && r.value.Length0 == c.height && r.value.Length1 == c.width
      && forall y, x :: 0 <= y < c.height && 0 <= x < c.width ==>
           r.value[y, x] == original[c.top + y, c.left + x]
  {
    var clamped := ClampCrop(original.Length1, original.Length0, box);
    match clamped
    case Failure(e) =>
      r := Failure(e);
    case Success(c) =>
      var sub := CopyRegion(original, c);
      r := Success(sub);
  }

  /**
   * cropBitmap: the clamped region is copied out and placed on the gray
   * canvas. `resized` stands for what createScaledBitmap makes of the
   * region, of the size LetterboxLayout computes for it. The result is a
   * 640 x 640 canvas, or the failure of the crop (EmptyRegion) or of the
   * resize of a region too thin to scale (EmptyResize).
   */
  method CropBitmap(original: array2<Argb>, box: RectF, resized: array2<Argb>) returns (r: Result<array2<Argb>, ImageError>)
    requires original.Length0 > 0 && original.Length1 > 0
    requires var k := ClampCrop(original.Length1, original.Length0, box);
      k.Success? && Letterbox(k.value.width, k.value.height).Success? ==>
        && resized.Length0 == LetterboxLayout(k.value.width, k.value.height).newHeight
        && resized.Length1 == LetterboxLayout(k.value.width, k.value.height).newWidth
        && Opaque(resized)
    ensures var k := ClampCrop(original.Length1, original.Length0, box);
      && (k.Failure? ==> r == Failure(EmptyRegion))
      && (k.Success? && Letterbox(k.value.width, k.value.height).Failure? ==> r == Failure(EmptyResize))
      && (r.Success? <==> k.Success? && Letterbox(k.value.width, k.value.height).Success?)
    ensures r.Success? ==>
      var c := ClampCrop(original.Length1, original.Length0, box).value;
      var l := LetterboxLayout(c.width, c.height);
      && r.value.Length0 == IMAGE_SIZE && r.value.Length1 == IMAGE_SIZE
      && forall y, x :: 0 <= y < IMAGE_SIZE && 0 <= x < IMAGE_SIZE ==>
           r.value[y, x] == if l.Covers(y, x) then resized[y - l.top, x - l.left] else GRAY
  {
    var crop := CropRegion(original, box);
    match crop
    case Failure(e) =>
      r := Failure(e);
    case Success(sub) =>
      r := PlaceOnGrayCanvas(sub.Length1, sub.Length0, resized);
  }

  /**
   * placeOnGrayCanvas, given the image createScaledBitmap produced from a
   * width x height original (its size is the computed newWidth x
   * newHeight): a new 640 x 640 canvas, filled with gray, then the resized
   * image drawn at (left, top). Every cell of the pasted rectangle shows
   * the resized image and every other cell is gray. An original so thin
   * that one computed side rounds to 0 makes createScaledBitmap fail.
   */
  method PlaceOnGrayCanvas(width: int, height: int, resized: array2<Argb>) returns (r: Result<array2<Argb>, ImageError>)
    requires width > 0 && height > 0
    requires Letterbox(width, height).Success? ==>
      && resized.Length0 == LetterboxLayout(width, height).newHeight
      && resized.Length1 == LetterboxLayout(width, height).newWidth
      && Opaque(resized)
    ensures r.Failure? <==> Letterbox(width, height).Failure?
    ensures r.Failure? ==> r.error == EmptyResize
    ensures r.Success? ==> fresh(r.value)
    ensures r.Success? ==> r.value.Length0 == IMAGE_SIZE && r.value.Length1 == IMAGE_SIZE
    ensures r.Success? ==> var l := LetterboxLayout(width, height);
      forall y, x :: 0 <= y < IMAGE_SIZE && 0 <= x < IMAGE_SIZE ==>
        r.value[y, x] == if l.Covers(y, x) then resized[y - l.top, x - l.left] else GRAY
  {
    var canvas := new Argb[IMAGE_SIZE, IMAGE_SIZE]((_, _) => TRANSPARENT);
    FillGray(canvas);
    var scaled := Letterbox(width, height);
    match scaled
    case Failure(e) =>
      r := Failure(e);
    case Success(l) =>
      DrawAt(canvas, resized, l.top, l.left);
      r := Success(canvas);
  }

  /** Canvas.drawColor: every cell becomes gray. */
  method FillGray(canvas: array2<Argb>)
    modifies canvas
    ensures forall y, x :: 0 <= y < canvas.Length0 && 0 <= x < canvas.Length1 ==> canvas[y, x] == GRAY
  {
    var y := 0;
    while y < canvas.Length0
      invariant 0 <= y <= canvas.Length0
      invariant forall i, j :: 0 <= i < y && 0 <= j < canvas.Length1 ==> canvas[i, j] == GRAY
    {
      var x := 0;
      while x < canvas.Length1
        invariant 0 <= x <= canvas.Length1
        invariant forall i, j :: 0 <= i < y && 0 <= j < canvas.Length1 ==> canvas[i, j] == GRAY
        invariant forall j :: 0 <= j < x ==> canvas[y, j] == GRAY
      {
        canvas[y, x] := GRAY;
        x := x + 1;
      }
      y := y + 1;
    }
  }

  /**
   * Canvas.drawBitmap(image, left, top, null) for an opaque image lying
   * inside the canvas: the covered cells take the image's pixels, the
   * others keep their colour.
   */
  method DrawAt(canvas: array2<Argb>, image: array2<Argb>, top: int, left: int)
    requires canvas != image
    requires Opaque(image)
    requires 0 <= top && top + image.Length0 <= canvas.Length0
    requires 0 <= left && left + image.Length1 <= canvas.Length1
    modifies canvas
    ensures forall y, x :: 0 <= y < canvas.Length0 && 0 <= x < canvas.Length1 ==>
      canvas[y, x] ==
        if top <= y < top + image.Length0 && left <= x < left + image.Length1
        then image[y - top, x - left] else old(canvas[y, x])
  {
    var r := 0;
    while r < image.Length0
      invariant 0 <= r <= image.Length0
      invariant forall y, x :: 0 <= y < canvas.Length0 && 0 <= x < canvas.Length1 ==>
        canvas[y, x] ==
          if top <= y < top + r && left <= x < left + image.Length1
          then image[y - top, x - left] else old(canvas[y, x])
    {
      var c := 0;
      while c < image.Length1
        invariant 0 <= c <= image.Length1
        invariant forall y, x :: 0 <= y < canvas.Length0 && 0 <= x < canvas.Length1 ==>
          canvas[y, x] ==
            if (top <= y < top + r && left <= x < left + image.Length1) || (y == top + r && left <= x < left + c)
            then image[y - top, x - left] else old(canvas[y, x])
      {
        canvas[top + r, left + c] := image[r, c];
        c := c + 1;
      }
      r := r + 1;
    }
  }

  /**
   * convertToGrayscale: a new bitmap of the same width and height whose
   * every pixel is the colour filter applied to the original's pixel.
   * `desaturate` stands for the saturation-0 ColorMatrix filter.
   */
  method ConvertToGrayscale(original: array2<Argb>, desaturate: Argb -> Argb) returns (gray: array2<Argb>)
    ensures fresh(gray)
    ensures gray.Length0 == original.Length0 && gray.Length1 == original.Length1
    ensures forall y, x :: 0 <= y < gray.Length0 && 0 <= x < gray.Length1 ==>
      gray[y, x] == desaturate(original[y, x])
  {
    gray := new Argb[original.Length0, original.Length1]((_, _) => TRANSPARENT);
    var y := 0;
    while y < original.Length0
      invariant 0 <= y <= original.Length0
      invariant forall i, j :: 0 <= i < y && 0 <= j < original.Length1 ==> gray[i, j] == desaturate(original[i, j])
    {
      var x := 0;
      while x < original.Length1
        invariant 0 <= x <= original.Length1
        invariant forall i, j :: 0 <= i < y && 0 <= j < original.Length1 ==> gray[i, j] == desaturate(original[i, j])
        invariant forall j :: 0 <= j < x ==> gray[y, j] == desaturate(original[y, j])
      {
        gray[y, x] := desaturate(original[y, x]);
        x := x + 1;
      }
      y := y + 1;
    }
  }
}
