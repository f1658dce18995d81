/** blitRgb565 and blitRgb565CenterCrop: nearest-neighbour scaling into a strided destination, in 32-bit
    integer arithmetic. */
module FrameScaler {
  import opened MachineInt

  type Rgb565 = x: nat | x < 0x1_0000
  type Stored = x: nat | x < 0x1_0000_0000

  // ---- pixels --------------------------------------------------------------------------------

  predicate Known(format: int32) {
    format == 4 || format == 1 || format == 2
  }

  /** What a destination of this format stores for a source colour. */
  function Converted(format: int32, color: Rgb565): Stored {
    if format == 4 then color else
    var red, green, blue := color / 2048 % 32 * 255 / 31, color / 32 % 64 * 255 / 63, color % 32 * 255 / 31;
    0xff00_0000 + blue * 0x1_0000 + green * 0x100 + red
  }

  // ---- geometry ------------------------------------------------------------------------------

  datatype Crop = Crop(left: int, top: int, width: int, height: int)

  /** The part of the source that is shown: all of it one way, cut to the destination's shape the other way. */
  function CropFor(sw: int, sh: int, dw: int, dh: int): Crop
    requires sw > 0 && sh > 0 && dw > 0 && dh > 0
  {
    if dw * sh > dh * sw then
      var h := if sw * dh / dw < 1 then 1 else sw * dh / dw;
      Crop(0, (sh - h) / 2, sw, h)
    else if dw * sh < dh * sw then
      var w := if sh * dw / dh < 1 then 1 else sh * dw / dh;
      Crop((sw - w) / 2, 0, w, sh)
    else
      Crop(0, 0, sw, sh)
  }

  function Whole(sw: int, sh: int): Crop {
    Crop(0, 0, sw, sh)
  }

  function Scaled(position: int, size: int, outOf: int): int
    requires outOf > 0
  {
    position * size / outOf
  }

  // ---- arithmetic ------------------------------------------------------------------------------

  /** A scaled position stays below the size it is scaled to. */
  lemma ScaledInside(position: int, size: int, outOf: int)
    requires 0 <= position < outOf && 0 < size
    ensures 0 <= Scaled(position, size, outOf) < size
  {
    MulMono(position + 1, outOf, size);
    MulMono(0, position, size);
    assert position * size < size * outOf;
    DivBounds(position * size, outOf);
    DivBelow(position * size, outOf, size);
  }

  /** When the destination has at least as many positions as the source, every source position is shown. */
  lemma ScaledCovers(target: int, size: int, outOf: int) returns (position: int)
    requires 0 <= target < size <= outOf
    ensures 0 <= position < outOf && Scaled(position, size, outOf) == target
  {
    // the least position with position * size >= target * outOf
    position := (target * outOf + size - 1) / size;
    MulMono(0, target, outOf);
    DivBounds(target * outOf + size - 1, size);
    MulMono(target + 1, size, outOf);
    assert position * size <= target * outOf + size - 1;
    assert target * outOf + size - 1 < (position + 1) * size;
    assert (position + 1) * size == position * size + size;
    assert (target + 1) * outOf == target * outOf + outOf;
    QuotientIs(position * size, outOf, target);
    if position >= outOf {
      MulMono(outOf, position, size);
    }
  }

  // ---- the crop --------------------------------------------------------------------------------

  ghost predicate CropInside(c: Crop, sw: int, sh: int) {
    0 <= c.left && 0 <= c.top && 1 <= c.width && 1 <= c.height && c.left + c.width <= sw && c.top + c.height <= sh
  }

  /** The crop lies inside the source, is centred to a pixel, and spans the source one way. */
  lemma CropLiesInside(sw: int, sh: int, dw: int, dh: int)
    requires sw > 0 && sh > 0 && dw > 0 && dh > 0
    ensures var c := CropFor(sw, sh, dw, dh);
            && CropInside(c, sw, sh)
            && 0 <= (sw - c.left - c.width) - c.left <= 1 && 0 <= (sh - c.top - c.height) - c.top <= 1
            && (c.width == sw || c.height == sh)
  {
    MulMono(0, sw, dh);
    MulMono(0, sh, dw);
    if dw * sh > dh * sw {
      DivBounds(sw * dh, dw);
      DivBelow(sw * dh, dw, sh);
    } else if dw * sh < dh * sw {
      DivBounds(sh * dw, dh);
      DivBelow(sh * dw, dh, sw);
    }
  }

  /** The crop has the destination's shape: one pixel more along the cut side would be too much, and it is
      not too much already unless it is a single pixel. */
  lemma CropHasShape(sw: int, sh: int, dw: int, dh: int)
    requires sw > 0 && sh > 0 && dw > 0 && dh > 0
    ensures var c := CropFor(sw, sh, dw, dh);
            && (c.height < sh ==> c.height * dw <= sw * dh || c.height == 1)
            && (c.height < sh ==> sw * dh < (c.height + 1) * dw)
            && (c.width < sw ==> c.width * dh <= sh * dw || c.width == 1)
            && (c.width < sw ==> sh * dw < (c.width + 1) * dh)
            && (dw * sh == dh * sw ==> c == Whole(sw, sh))
  {
    MulMono(0, sw, dh);
    MulMono(0, sh, dw);
    if dw * sh > dh * sw {
      DivBounds(sw * dh, dw);
    } else if dw * sh < dh * sw {
      DivBounds(sh * dw, dh);
    }
  }

  // ---- scaling into the destination ---------------------------------------------------------------

  /** The source offset that destination pixel (x, y) is read from. */
  function SourceIndex(sw: int, c: Crop, dw: int, dh: int, y: int, x: int): int
    requires dw > 0 && dh > 0
  {
    (c.top + Scaled(y, c.height, dh)) * sw + c.left + Scaled(x, c.width, dw)
  }

  lemma SourceIndexInside(sw: int, sh: int, c: Crop, dw: int, dh: int, y: int, x: int)
    requires CropInside(c, sw, sh) && 0 <= y < dh && 0 <= x < dw
    ensures 0 <= SourceIndex(sw, c, dw, dh, y, x) < sw * sh
  {
    ScaledInside(y, c.height, dh);
    ScaledInside(x, c.width, dw);
    var sy := c.top + Scaled(y, c.height, dh);
    MulMono(0, sy, sw);
    MulMono(sy + 1, sh, sw);
  }

  /** The destination after scaling: mapped source pixels inside, the old contents in the padding. */
  ghost function Wanted(source: seq<Rgb565>, sw: int, c: Crop, before: seq<Stored>, dw: int, dh: int, stride: int,
          format: int32, k: nat): Stored
    requires dw > 0 && dh > 0 && stride > 0 && k < |before|
  {
    var y, x := Row(k, stride), Column(k, stride);
    var i := if 0 <= y && 0 <= x then SourceIndex(sw, c, dw, dh, y, x) else 0;
    if y < dh && x < dw && 0 <= i < |source| then Converted(format, source[i]) else before[k]
  }

  /** Every int the pixel loops compute for this crop fits: source offsets, scaled coordinates, row offsets. */
  predicate ProductsFit(sw: int, sh: int, c: Crop, dw: int, dh: int, stride: int) {
    && sw * sh <= 0x8000_0000 && (dh - 1) * c.height < 0x8000_0000 && (dw - 1) * c.width < 0x8000_0000
    && (dh - 1) * stride < 0x8000_0000
  }

  /** The one product the taken branch of the crop computes in 32 bits fits. */
  predicate CropFits(sw: int, sh: int, dw: int, dh: int) {
    && (dw * sh > dh * sw ==> sw * dh < 0x8000_0000)
    && (dw * sh < dh * sw ==> sh * dw < 0x8000_0000)
  }

  lemma ScaledFits(position: int, size: int, outOf: int)
    requires 0 <= position < outOf && 0 < size && (outOf - 1) * size < 0x8000_0000
    ensures 0 <= position * size < 0x8000_0000
  {
    MulMono(position, outOf - 1, size);
    MulMono(0, position, size);
  }

  /** The pixel offsets of the destination rows lie inside it. */
  lemma TargetInside(dw: int, dh: int, stride: int, y: int, x: int)
    requires 0 <= x < dw <= stride && 0 <= y < dh
    ensures 0 <= y * stride <= (dh - 1) * stride && y * stride + x < (dh - 1) * stride + dw
  {
    MulMono(0, y, stride);
    MulMono(y, dh - 1, stride);
  }

  /** The source offset of one destination pixel, in 32-bit arithmetic: no product or sum overflows. */
  method Locate(sw: int32, ghost sh: int, dw: int32, dh: int32, ghost stride: int32, left: int32, top: int32,
          width: int32, height: int32, y: int32, x: int32)
    returns (index: int32)
    requires sw > 0 && dw > 0 && dh > 0
    requires ProductsFit(sw as int, sh, Crop(left as int, top as int, width as int, height as int), dw as int,
                         dh as int, stride as int)
    requires CropInside(Crop(left as int, top as int, width as int, height as int), sw as int, sh)
    requires 0 <= y < dh && 0 <= x < dw
    ensures index as int == SourceIndex(sw as int, Crop(left as int, top as int, width as int, height as int),
                                        dw as int, dh as int, y as int, x as int)
  {
    ghost var c := Crop(left as int, top as int, width as int, height as int);
    ScaledFits(y as int, height as int, dh as int);
    ScaledFits(x as int, width as int, dw as int);
    ScaledInside(y as int, height as int, dh as int);
    ScaledInside(x as int, width as int, dw as int);
    MulMono(1, sh, sw as int);
    SourceIndexInside(sw as int, sh, c, dw as int, dh as int, y as int, x as int);
    var sy := y * height / dh;
    assert sy as int == Scaled(y as int, height as int, dh as int);
    var sx := x * width / dw;
    assert sx as int == Scaled(x as int, width as int, dw as int);
    MulMono(sw as int, sw as int * sh, 1);
    MulMono(0, top as int + sy as int, sw as int);
    index := (top + sy) * sw + (left + sx);
  }

  method FillPixels(source: array<Rgb565>, sw: int32, ghost sh: int, destination: array<Stored>, dw: int32, dh: int32,
          stride: int32, format: int32, left: int32, top: int32, width: int32, height: int32)
    requires sw > 0 && dw > 0 && dh > 0 && stride >= dw
    requires ProductsFit(sw as int, sh, Crop(left as int, top as int, width as int, height as int), dw as int,
                         dh as int, stride as int)
    requires CropInside(Crop(left as int, top as int, width as int, height as int), sw as int, sh)
    requires source.Length >= sw as int * sh
    requires destination.Length >= (dh as int - 1) * stride as int + dw as int
    requires (source as object) != (destination as object)
    modifies destination
    ensures forall k: nat | k < destination.Length ::
              destination[k] == Wanted(source[..], sw as int,
                                       Crop(left as int, top as int, width as int, height as int),
                                       old(destination[..]), dw as int, dh as int, stride as int, format, k)
  {
    hide Row, Column, Converted, SourceIndex;
    ghost var before, s := destination[..], stride as int;
    ghost var c := Crop(left as int, top as int, width as int, height as int);
    var y: int32 := 0;
    while y < dh
      invariant 0 <= y <= dh
      invariant forall k: nat | k < destination.Length ::
        destination[k] == (if Row(k, s) < y as int
                           then Wanted(source[..], sw as int, c, before, dw as int, dh as int, s, format, k)
                           else before[k])
    {
      var x: int32 := 0;
      while x < dw
        invariant 0 <= x <= dw
        invariant forall k: nat | k < destination.Length ::
          destination[k] == (if Row(k, s) < y as int || (Row(k, s) == y as int && Column(k, s) < x as int)
                             then Wanted(source[..], sw as int, c, before, dw as int, dh as int, s, format, k)
                             else before[k])
      {
        TargetInside(dw as int, dh as int, s, y as int, x as int);
        PositionOf(y as int, x as int, s);
        SourceIndexInside(sw as int, sh, c, dw as int, dh as int, y as int, x as int);
        var index := Locate(sw, sh, dw, dh, stride, left, top, width, height, y, x);
        var row := y * stride;
        destination[row as int + x as int] := Converted(format, source[index]);
        x := x + 1;
      }
      y := y + 1;
    }
  }

  // ---- what a picture shows where --------------------------------------------------------------------

  /** Position p of outOf falls on position q of size. */
  predicate FallsOn(p: int, outOf: int, q: int, size: int) {
    q * outOf <= p * size < (q + 1) * outOf
  }

  /** Every destination pixel shows the crop's pixel it falls on, row by row from the top, left to right. */
  ghost predicate Shows(picture: seq<Stored>, dw: int, dh: int, stride: int, format: int32, source: seq<Rgb565>,
          sw: int, c: Crop)
  {
    forall y, x, v, u |
      0 <= y < dh && 0 <= x < dw && FallsOn(y, dh, v, c.height) && FallsOn(x, dw, u, c.width) ::
      && 0 <= y * stride + x < |picture| && 0 <= (c.top + v) * sw + (c.left + u) < |source|
      && picture[y * stride + x] == Converted(format, source[(c.top + v) * sw + (c.left + u)])
  }

  /** There is exactly one such position. */
  lemma FallsOnOne(p: int, outOf: int, size: int, q: int)
    requires 0 <= p < outOf && 0 < size
    ensures 0 <= Scaled(p, size, outOf) < size
    ensures FallsOn(p, outOf, q, size) <==> q == Scaled(p, size, outOf)
  {
    ScaledInside(p, size, outOf);
    MulMono(0, p, size);
    DivBounds(p * size, outOf);
    if FallsOn(p, outOf, q, size) {
      QuotientIs(p * size, outOf, q);
    }
  }

  lemma WantedShows(picture: seq<Stored>, dw: int, dh: int, stride: int, format: int32, source: seq<Rgb565>, sw: int,
          sh: int, c: Crop, before: seq<Stored>)
    requires 0 < dw <= stride && 0 < dh && CropInside(c, sw, sh)
    requires |source| >= sw * sh && |before| == |picture| >= (dh - 1) * stride + dw
    requires forall k: nat | k < |picture| ::
               picture[k] == Wanted(source, sw, c, before, dw, dh, stride, format, k)
    ensures Shows(picture, dw, dh, stride, format, source, sw, c)
  {
    hide Converted, Row, Column, FallsOn;
    forall y, x, v, u |
      0 <= y < dh && 0 <= x < dw && FallsOn(y, dh, v, c.height) && FallsOn(x, dw, u, c.width)
      ensures 0 <= y * stride + x < |picture| && 0 <= (c.top + v) * sw + (c.left + u) < |source|
              && picture[y * stride + x] == Converted(format, source[(c.top + v) * sw + (c.left + u)]) {
      FallsOnOne(y, dh, c.height, v);
      FallsOnOne(x, dw, c.width, u);
      TargetInside(dw, dh, stride, y, x);
      PositionOf(y, x, stride);
      SourceIndexInside(sw, sh, c, dw, dh, y, x);
    }
  }

  /** A blit between equal sizes copies pixel by pixel. */
  lemma EqualSizesCopy(picture: seq<Stored>, dw: int, dh: int, stride: int, format: int32, source: seq<Rgb565>,
          y: int, x: int)
    requires Shows(picture, dw, dh, stride, format, source, dw, Whole(dw, dh)) && 0 <= y < dh && 0 <= x < dw
    ensures 0 <= y * stride + x < |picture| && 0 <= y * dw + x < |source|
    ensures picture[y * stride + x] == Converted(format, source[y * dw + x])
  {
    hide Converted;
    assert FallsOn(y, dh, y, dh) && FallsOn(x, dw, x, dw);
    assert (0 + y) * dw + (0 + x) == y * dw + x;
  }

  // ---- the two blits ---------------------------------------------------------------------------------

  /** The calls the blits accept; every other call is refused without a write. */
  predicate Accepted(source: array?<Rgb565>, sw: int32, sh: int32, destination: array?<Stored>, dw: int32, dh: int32,
          stride: int32)
  {
    source != null && destination != null && sw > 0 && sh > 0 && dw > 0 && dh > 0 && stride >= dw
  }

  /** What the caller owes for a call that draws a crop: buffers of the stated sizes, and ints that fit. */
  predicate Provided(source: array?<Rgb565>, sw: int32, sh: int32, c: Crop, destination: array?<Stored>, dw: int32,
          dh: int32, stride: int32)
    requires Accepted(source, sw, sh, destination, dw, dh, stride)
  {
    && ProductsFit(sw as int, sh as int, c, dw as int, dh as int, stride as int)
    && source.Length >= sw as int * sh as int
    && destination.Length >= (dh as int - 1) * stride as int + dw as int
    && (source as object) != (destination as object)
  }

  method BlitRgb565(source: array?<Rgb565>, sw: int32, sh: int32, destination: array?<Stored>, dw: int32, dh: int32,
          stride: int32, format: int32)
    returns (ok: bool)
    requires Accepted(source, sw, sh, destination, dw, dh, stride) && Known(format) ==>
               Provided(source, sw, sh, Whole(sw as int, sh as int), destination, dw, dh, stride)
    modifies destination
    ensures ok <==> Accepted(source, sw, sh, destination, dw, dh, stride) && Known(format)
    ensures !ok && destination != null ==> destination[..] == old(destination[..])
    ensures ok ==> forall k: nat | k < destination.Length ::
                     destination[k] == Wanted(source[..], sw as int, Whole(sw as int, sh as int), old(destination[..]),
                                              dw as int, dh as int, stride as int, format, k)
    ensures ok ==> Shows(destination[..], dw as int, dh as int, stride as int, format, source[..], sw as int,
                         Whole(sw as int, sh as int))
  {
    hide Wanted, Shows;
    ghost var before := if destination == null then [] else destination[..];
    if source == null || destination == null || sw <= 0 || sh <= 0 || dw <= 0 || dh <= 0 || stride < dw {
      return false;
    }
    if format == 4 || format == 1 || format == 2 {
      FillPixels(source, sw, sh as int, destination, dw, dh, stride, format, 0, 0, sw, sh);
      WantedShows(destination[..], dw as int, dh as int, stride as int, format, source[..], sw as int, sh as int,
                  Whole(sw as int, sh as int), before);
      return true;
    }
    return false;
  }

  method BlitCenterCrop(source: array?<Rgb565>, sw: int32, sh: int32, destination: array?<Stored>, dw: int32, dh: int32,
          stride: int32, format: int32)
    returns (ok: bool)
    requires Accepted(source, sw, sh, destination, dw, dh, stride) ==>
               CropFits(sw as int, sh as int, dw as int, dh as int)
    requires Accepted(source, sw, sh, destination, dw, dh, stride) && Known(format) ==>
               Provided(source, sw, sh, CropFor(sw as int, sh as int, dw as int, dh as int), destination, dw, dh,
                        stride)
    modifies destination
    ensures ok <==> Accepted(source, sw, sh, destination, dw, dh, stride) && Known(format)
    ensures !ok && destination != null ==> destination[..] == old(destination[..])
    ensures ok ==> forall k: nat | k < destination.Length ::
                     destination[k] == Wanted(source[..], sw as int,
                                              CropFor(sw as int, sh as int, dw as int, dh as int),
                                              old(destination[..]), dw as int, dh as int, stride as int, format, k)
    ensures ok ==> Shows(destination[..], dw as int, dh as int, stride as int, format, source[..], sw as int,
                         CropFor(sw as int, sh as int, dw as int, dh as int))
  {
    hide Wanted, Shows;
    ghost var before := if destination == null then [] else destination[..];
    if source == null || destination == null || sw <= 0 || sh <= 0 || dw <= 0 || dh <= 0 || stride < dw {
      return false;
    }
    var left, top, width, height := CropSizes(sw, sh, dw, dh);
    CropLiesInside(sw as int, sh as int, dw as int, dh as int);
    if format == 4 || format == 1 || format == 2 {
      FillPixels(source, sw, sh as int, destination, dw, dh, stride, format, left, top, width, height);
      WantedShows(destination[..], dw as int, dh as int, stride as int, format, source[..], sw as int, sh as int,
                  CropFor(sw as int, sh as int, dw as int, dh as int), before);
      return true;
    }
    return false;
  }

  /** The crop in 32-bit arithmetic, the comparison of shapes in 64-bit arithmetic as in the source. */
  method CropSizes(sw: int32, sh: int32, dw: int32, dh: int32)
    returns (left: int32, top: int32, width: int32, height: int32)
    requires sw > 0 && sh > 0 && dw > 0 && dh > 0
    requires CropFits(sw as int, sh as int, dw as int, dh as int)
    ensures Crop(left as int, top as int, width as int, height as int)
            == CropFor(sw as int, sh as int, dw as int, dh as int)
  {
    CropLiesInside(sw as int, sh as int, dw as int, dh as int);
    MulMono(0, sw as int, dh as int);
    MulMono(0, sh as int, dw as int);
    left, top, width, height := 0, 0, sw, sh;
    if dw as int64 * sh as int64 > dh as int64 * sw as int64 {
      DivBounds(sw as int * dh as int, dw as int);
      DivBelow(sw as int * dh as int, dw as int, sh as int);
      height := sw * dh / dw;
      if height < 1 {
        height := 1;
      }
      top := (sh - height) / 2;
    } else if (dw as int64 * sh as int64) < dh as int64 * sw as int64 {
      DivBounds(sh as int * dw as int, dh as int);
      DivBelow(sh as int * dw as int, dh as int, sw as int);
      width := sh * dw / dh;
      if width < 1 {
        width := 1;
      }
      left := (sw - width) / 2;
    }
  }

  // ---- what the scaled picture shows --------------------------------------------------------------------

  /** When the shapes agree, cropping leaves every destination word as the plain blit does. */
  lemma SameShapeSamePicture(source: seq<Rgb565>, sw: int, sh: int, before: seq<Stored>, dw: int, dh: int, stride: int,
          format: int32, k: nat)
    requires sw > 0 && sh > 0 && 0 < dw <= stride && dh > 0 && k < |before| && dw * sh == dh * sw
    ensures Wanted(source, sw, CropFor(sw, sh, dw, dh), before, dw, dh, stride, format, k)
            == Wanted(source, sw, Whole(sw, sh), before, dw, dh, stride, format, k)
  {
    CropHasShape(sw, sh, dw, dh);
  }

  /** A destination at least as large as the crop shows every cropped source pixel somewhere. */
  lemma EveryCroppedPixelShows(source: seq<Rgb565>, sw: int, sh: int, before: seq<Stored>, dw: int, dh: int,
          stride: int, format: int32, sy: int, sx: int)
    returns (k: nat)
    requires sw > 0 && sh > 0 && 0 < dw <= stride && dh > 0
    requires |source| >= sw * sh && |before| >= (dh - 1) * stride + dw
    requires var c := CropFor(sw, sh, dw, dh);
             c.width <= dw && c.height <= dh && c.left <= sx < c.left + c.width && c.top <= sy < c.top + c.height
    ensures k < |before| && 0 <= sy * sw + sx < |source|
    ensures Wanted(source, sw, CropFor(sw, sh, dw, dh), before, dw, dh, stride, format, k)
            == Converted(format, source[sy * sw + sx])
  {
    hide CropFor, Converted, Row, Column;
    var c := CropFor(sw, sh, dw, dh);
    CropLiesInside(sw, sh, dw, dh);
    var y := ScaledCovers(sy - c.top, c.height, dh);
    var x := ScaledCovers(sx - c.left, c.width, dw);
    TargetInside(dw, dh, stride, y, x);
    PositionOf(y, x, stride);
    SourceIndexInside(sw, sh, c, dw, dh, y, x);
    k := y * stride + x;
  }

  /** Padding at the end of a row keeps its old contents. */
  lemma PaddingIsKept(source: seq<Rgb565>, sw: int, c: Crop, before: seq<Stored>, dw: int, dh: int, stride: int,
          format: int32, y: int, x: int)
    requires 0 < dw <= x < stride && dh > 0 && 0 <= y && 0 <= y * stride + x < |before|
    ensures Wanted(source, sw, c, before, dw, dh, stride, format, y * stride + x) == before[y * stride + x]
  {
    PositionOf(y, x, stride);
  }

  /** The source colour a stored word came from. */
  function Recovered(format: int32, word: Stored): int {
    if format == 4 then word else
    var red, green, blue := word % 0x100, word / 0x100 % 0x100, word / 0x1_0000 % 0x100;
    (red * 31 + 254) / 255 * 2048 + (green * 63 + 254) / 255 * 32 + (blue * 31 + 254) / 255
  }

  lemma ChannelComesBack(v: int, max: int)
    requires 0 <= v <= max && 0 < max <= 63
    ensures 0 <= v * 255 / max < 256 && (v * 255 / max * max + 254) / 255 == v
  {
    MulMono(v, max, 255);
    DivBounds(v * 255, max);
    if v * 255 / max >= 256 {
      MulMono(256, v * 255 / max, max);
    }
  }

  lemma Unpacked(red: int, green: int, blue: int)
    requires 0 <= red < 256 && 0 <= green < 256 && 0 <= blue < 256
    ensures var word := 0xff00_0000 + blue * 0x1_0000 + green * 0x100 + red;
            word % 0x100 == red && word / 0x100 % 0x100 == green && word / 0x1_0000 % 0x100 == blue
  {
    DigitOut(0xff_0000 + blue * 0x100 + green, red, 0x100);
    DigitOut(0xff00 + blue, green, 0x100);
    DigitOut(0xff00 + blue, green * 0x100 + red, 0x1_0000);
    DigitOut(0xff, blue, 0x100);
  }

  lemma ColorOf(color: Rgb565)
    ensures color == color / 2048 % 32 * 2048 + color / 32 % 64 * 32 + color % 32
  {
    var high := color / 32;
    assert color == high * 32 + color % 32;
    assert high / 64 == color / 2048 && high == high / 64 * 64 + high % 64;
    assert color / 2048 < 32;
  }

  /** Widening to eight bits a channel loses nothing: the channels do not overlap and each one comes back. */
  lemma ConvertedLosesNothing(format: int32, color: Rgb565)
    ensures Recovered(format, Converted(format, color)) == color
    ensures format != 4 ==> Converted(format, color) >= 0xff00_0000
  {
    var r, g, b := color / 2048 % 32, color / 32 % 64, color % 32;
    ChannelComesBack(r, 31);
    ChannelComesBack(g, 63);
    ChannelComesBack(b, 31);
    Unpacked(r * 255 / 31, g * 255 / 63, b * 255 / 31);
    ColorOf(color);
  }
}
