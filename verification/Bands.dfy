/** The pixels of an upload reach the image through a fixed staging buffer, a
    band of rows at a time (lib/window/vulkan/vulkan_images.c). */
module Bands {
  import opened Wire
  import opened ImageSteps

  const STAGING_BYTES: nat := 4 * 1024 * 1024

  /** Byte k of the uploaded image: the pixels as they are, or RGB with each
      pixel made opaque. */
  function Channel(pixels: seq<byte>, bytesPerPixel: nat, k: nat): byte
    requires bytesPerPixel == RGB_BYTES || bytesPerPixel == RGBA_BYTES
    requires k / 4 * bytesPerPixel + bytesPerPixel <= |pixels|
  {
    if bytesPerPixel == RGBA_BYTES then pixels[k] else if k % 4 == 3 then 255 else pixels[3 * (k / 4) + k % 4]
  }

  datatype Layout = Undefined | CopyTarget | Sampled
  datatype Band = Band(top: nat, rows: nat, first: bool, last: bool)

  /** The bands cover rows 0 .. height once each, top to bottom; only the first
      prepares the image and only the last hands it to the shaders. */
  predicate Cover(bands: seq<Band>, height: nat, end: nat) {
    && (forall i :: 0 <= i < |bands| ==> bands[i].rows > 0 && bands[i].top + bands[i].rows <= end
                                         && (bands[i].first <==> i == 0)
                                         && (bands[i].last <==> bands[i].top + bands[i].rows == height))
    && (forall i :: 0 <= i < |bands| ==> bands[i].top == if i == 0 then 0 else bands[i - 1].top + bands[i - 1].rows)
    && end == if bands == [] then 0 else bands[|bands| - 1].top + bands[|bands| - 1].rows
  }

  /** A device image: its bytes, four a pixel, and the layout they are in. */
  class Texture {
    const bytes: array<byte>
    var layout: Layout

    constructor (size: nat)
      ensures layout == Undefined && bytes.Length == size && fresh(bytes)
    {
      bytes := new byte[size];
      layout := Undefined;
    }

    /** Submits one band: copies it out of the staging buffer into the image. */
    method SubmitBand(staging: array<byte>, start: nat, size: nat, first: bool, last: bool, ok: bool)
      requires staging != bytes && size <= staging.Length && start + size <= bytes.Length
      requires first || layout == CopyTarget
      modifies this`layout, bytes
      ensures layout == if !ok then old(layout) else if last then Sampled else CopyTarget
      ensures forall k :: 0 <= k < bytes.Length ==>
                bytes[k] == if ok && start <= k < start + size then staging[k - start] else old(bytes[k])
    {
      if ok {
        forall k | 0 <= k < size {
          bytes[start + k] := staging[k];
        }
        layout := if last then Sampled else CopyTarget;
      }
    }
  }

  /** One band into the staging buffer, RGB expanded on the way. */
  method Stage(staging: array<byte>, pixels: seq<byte>, bytesPerPixel: nat, from: nat, count: nat)
    requires bytesPerPixel == RGB_BYTES || bytesPerPixel == RGBA_BYTES
    requires (from + count) * bytesPerPixel <= |pixels| && 4 * count <= staging.Length
    modifies staging
    ensures forall k :: 0 <= k < 4 * count ==> staging[k] == Channel(pixels, bytesPerPixel, 4 * from + k)
  {
    if bytesPerPixel == RGBA_BYTES {
      for k := 0 to 4 * count
        invariant forall j :: 0 <= j < k ==> staging[j] == pixels[4 * from + j]
      {
        staging[k] := pixels[4 * from + k];
      }
    } else {
      var source := 3 * from;
      for i := 0 to count
        invariant source == 3 * (from + i)
        invariant forall j :: 0 <= j < 4 * i ==> staging[j] == Channel(pixels, RGB_BYTES, 4 * from + j)
      {
        staging[4 * i + 0] := pixels[source];
        staging[4 * i + 1] := pixels[source + 1];
        staging[4 * i + 2] := pixels[source + 2];
        staging[4 * i + 3] := 255;
        source := source + 3;
      }
    }
  }

  lemma Rows(width: nat, height: nat, top: nat, rows: nat, bytesPerPixel: nat)
    requires top + rows <= height
    ensures width * (top + rows) == width * top + width * rows && width * (top + rows) <= width * height
    ensures (width * top + width * rows) * bytesPerPixel <= width * height * bytesPerPixel
    ensures width * top * bytesPerPixel <= width * height * bytesPerPixel
  {
    assert width * height == width * (top + rows) + width * (height - top - rows);
    Multiply(width * top + width * rows, width * height, bytesPerPixel);
    Multiply(width * top, width * height, bytesPerPixel);
  }

  lemma DivAtLeast(a: nat, b: nat, q: nat)
    requires b > 0 && q * b <= a
    ensures q <= a / b
  {
    var d := a / b;
    assert a < (d + 1) * b;
    if d < q {
      Multiply(d + 1, q, b);
    }
  }

  /** A band fits the staging buffer, and no band but the last is less than 64
      rows high. */
  lemma BandFits(width: nat, rows: nat)
    requires 1 <= width <= MAX_SIDE && rows <= STAGING_BYTES / (width * 4)
    ensures STAGING_BYTES / (width * 4) >= 64
    ensures 4 * (width * rows) <= STAGING_BYTES
  {
    DivAtLeast(STAGING_BYTES, width * 4, 64);
    var most := STAGING_BYTES / (width * 4);
    assert STAGING_BYTES == width * 4 * most + STAGING_BYTES % (width * 4);
    assert width * most == width * rows + width * (most - rows);
  }

  predicate Painted(bytes: seq<byte>, pixels: seq<byte>, bytesPerPixel: nat, count: nat)
    requires bytesPerPixel == RGB_BYTES || bytesPerPixel == RGBA_BYTES
    requires count * bytesPerPixel <= |pixels|
  {
    4 * count <= |bytes| && forall k :: 0 <= k < 4 * count ==> bytes[k] == Channel(pixels, bytesPerPixel, k)
  }

  lemma CoverNext(bands: seq<Band>, height: nat, part: Band)
    requires part.rows > 0 && part.top + part.rows <= height && Cover(bands, height, part.top) && part.top < height
    requires part.first == (part.top == 0) && part.last == (part.top + part.rows == height)
    ensures Cover(bands + [part], height, part.top + part.rows)
    ensures (bands + [part])[|bands|] == part
  {}

  /** Stages one band and submits it. */
  method CopyBand(texture: Texture, staging: array<byte>, pixels: seq<byte>, bytesPerPixel: nat,
                  from: nat, count: nat, first: bool, last: bool, good: bool)
    requires bytesPerPixel == RGB_BYTES || bytesPerPixel == RGBA_BYTES
    requires (from + count) * bytesPerPixel <= |pixels| && 4 * count <= staging.Length
    requires staging != texture.bytes && 4 * (from + count) <= texture.bytes.Length
    requires first || texture.layout == CopyTarget
    requires Painted(texture.bytes[..], pixels, bytesPerPixel, from)
    modifies texture`layout, texture.bytes, staging
    ensures texture.layout == if !good then old(texture.layout) else if last then Sampled else CopyTarget
    ensures Painted(texture.bytes[..], pixels, bytesPerPixel, if good then from + count else from)
  {
    Stage(staging, pixels, bytesPerPixel, from, count);
    texture.SubmitBand(staging, 4 * from, 4 * count, first, last, good);
  }

  /** The whole upload. `submits` says which submissions Vulkan accepts. */
  method Upload(texture: Texture, staging: array<byte>, pixels: seq<byte>, width: nat, height: nat,
                bytesPerPixel: nat, submits: nat -> bool) returns (ok: bool, bands: seq<Band>)
    requires 1 <= width <= MAX_SIDE && 1 <= height <= MAX_SIDE
    requires bytesPerPixel == RGB_BYTES || bytesPerPixel == RGBA_BYTES
    requires |pixels| == width * height * bytesPerPixel
    requires texture.bytes.Length == 4 * (width * height) && staging.Length == STAGING_BYTES && staging != texture.bytes
    modifies texture`layout, texture.bytes, staging
    ensures forall i :: 0 <= i < |bands| ==> 4 * (width * bands[i].rows) <= STAGING_BYTES
    ensures ok <==> forall i :: 0 <= i < |bands| ==> submits(bands[i].top)
    ensures bands != [] && Cover(bands, height, bands[|bands| - 1].top + bands[|bands| - 1].rows)
    ensures !ok ==> !submits(bands[|bands| - 1].top) && forall i :: 0 <= i < |bands| - 1 ==> submits(bands[i].top)
    ensures ok ==> Cover(bands, height, height) && texture.layout == Sampled
    ensures ok ==> Painted(texture.bytes[..], pixels, bytesPerPixel, width * height)
  {
    hide Painted, Cover;
    var rowsPerBand: nat := STAGING_BYTES / (width * 4);
    var top: nat := 0;
    ghost var end: nat := 0;
    bands := [];
    NothingYet(texture.bytes[..], pixels, bytesPerPixel, height);
    Rows(width, height, 0, 0, bytesPerPixel);
    while top < height
      invariant end <= height && (if top < height then top == end else end == height)
      invariant bands == [] <==> end == 0
      invariant Cover(bands, height, end) && (bands != [] ==> bands[|bands| - 1].top + bands[|bands| - 1].rows == end)
      invariant forall i :: 0 <= i < |bands| ==> 4 * (width * bands[i].rows) <= STAGING_BYTES && submits(bands[i].top)
      invariant bands != [] ==> texture.layout == if end == height then Sampled else CopyTarget
      invariant width * end <= width * height && width * end * bytesPerPixel <= |pixels|
      invariant Painted(texture.bytes[..], pixels, bytesPerPixel, width * end)
      decreases height - top
    {
      var rows := if height - top < rowsPerBand then height - top else rowsPerBand;
      BandFits(width, rows);
      Rows(width, height, top, rows, bytesPerPixel);
      var part := Band(top, rows, top == 0, top + rows == height);
      var good := submits(top);
      CopyBand(texture, staging, pixels, bytesPerPixel, width * top, width * rows, part.first, part.last, good);
      CoverNext(bands, height, part);
      bands := bands + [part];
      if !good {
        return false, bands;
      }
      end := end + rows;
      top := top + rowsPerBand;
    }
    ok := true;
  }

  lemma NothingYet(bytes: seq<byte>, pixels: seq<byte>, bytesPerPixel: nat, height: nat)
    requires bytesPerPixel == RGB_BYTES || bytesPerPixel == RGBA_BYTES
    ensures Painted(bytes, pixels, bytesPerPixel, 0) && Cover([], height, 0)
  {}

  /** The painted pixels, one by one: the color as it was given, opaque when no
      opacity was. */
  lemma PaintedPixels(bytes: seq<byte>, pixels: seq<byte>, bytesPerPixel: nat, count: nat, i: nat)
    requires bytesPerPixel == RGB_BYTES || bytesPerPixel == RGBA_BYTES
    requires count * bytesPerPixel <= |pixels| && Painted(bytes, pixels, bytesPerPixel, count) && i < count
    ensures i * bytesPerPixel + bytesPerPixel <= |pixels| && 4 * i + 3 < |bytes|
    ensures bytes[4 * i] == pixels[i * bytesPerPixel] && bytes[4 * i + 1] == pixels[i * bytesPerPixel + 1]
    ensures bytes[4 * i + 2] == pixels[i * bytesPerPixel + 2]
    ensures bytes[4 * i + 3] == if bytesPerPixel == 4 then pixels[i * bytesPerPixel + 3] else 255
  {
    Multiply(i + 1, count, bytesPerPixel);
    assert (4 * i) / 4 == i && (4 * i + 1) / 4 == i && (4 * i + 2) / 4 == i && (4 * i + 3) / 4 == i;
  }

  // What a cover means row by row.

  predicate InBand(b: Band, row: nat) {
    b.top <= row < b.top + b.rows
  }

  function BandsOver(bands: seq<Band>, row: nat): nat {
    if bands == [] then 0 else BandsOver(bands[..|bands| - 1], row) + if InBand(bands[|bands| - 1], row) then 1 else 0
  }

  /** Each row above the end lies in exactly one band, no other row in any. */
  lemma {:induction false} EachRowOnce(bands: seq<Band>, height: nat, end: nat, row: nat)
    requires Cover(bands, height, end)
    ensures BandsOver(bands, row) == if row < end then 1 else 0
    decreases |bands|
  {
    if bands != [] {
      var front, last := bands[..|bands| - 1], bands[|bands| - 1];
      assert Cover(front, height, last.top) by {
        assert forall i :: 0 <= i < |front| ==> front[i] == bands[i];
        TopsRise(bands, height, end, |bands| - 1);
      }
      EachRowOnce(front, height, last.top, row);
    }
  }

  lemma {:induction false} TopsRise(bands: seq<Band>, height: nat, end: nat, j: nat)
    requires Cover(bands, height, end) && j < |bands|
    ensures forall i :: 0 <= i < j ==> bands[i].top + bands[i].rows <= bands[j].top
    decreases j
  {
    if j > 0 {
      TopsRise(bands, height, end, j - 1);
    }
  }
}
