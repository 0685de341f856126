/**
 An image is a grid of pixels with a recorded height, width and colour
 (channel count: 3 for RGB, 1 for grey-scale, 0 for an empty image). It is
 loaded from, and saved to, an interleaved RGB byte buffer whose layout the
 `Layout` module describes.

 The image codec is not modelled: loading receives what the codec decoded (or
 nothing, when decoding failed) and saving returns the buffer handed to the
 encoder. The buffer that saving allocates is not initialised by the program;
 its prior contents are the parameter `junk`. The sRGB linearisation,
 luminance weights and gamma compression of grey-scale conversion are one
 opaque parameter `luma`.
 */
module Images {
  import opened Pixels
  import opened Layout
  import opened Wrappers

  datatype Image = Image(data: seq<seq<Pixel>>, height: int, width: int, color: int)

  /** What the codec hands back on success: the image dimensions, the channel
      count found in the file, and the pixels forced to three bytes each. */
  datatype Decoded = Decoded(width: int, height: int, channels: int, bytes: seq<Byte>)

  /** Result of `load_from_file`: the updated image and the status code. */
  datatype LoadOutcome = LoadOutcome(image: Image, status: int)

  /** The codec's guarantee: positive dimensions and three bytes per pixel. */
  predicate WellDecoded(d: Decoded) {
    0 < d.width && 0 < d.height && |d.bytes| == BufferSize(d.height, d.width)
  }

  /** The grid has exactly the recorded number of rows and columns. */
  predicate Shaped(img: Image) {
    && 0 <= img.height && 0 <= img.width
    && |img.data| == img.height
    && forall i :: 0 <= i < |img.data| ==> |img.data[i]| == img.width
  }

  /** The grid holds every pixel that a loop over the recorded height and
      width reads; this is what the program needs before it indexes `data`. */
  predicate Covers(img: Image) {
    && 0 <= img.height <= |img.data| && 0 <= img.width
    && forall i :: 0 <= i < img.height ==> img.width <= |img.data[i]|
  }

  /** `Image()`: no rows, no columns, no colour, no pixels. */
  function Empty(): (img: Image)
    ensures img.height == 0 && img.width == 0 && img.color == 0
    ensures img.data == []
    ensures Shaped(img)
  {
    Image([], 0, 0, 0)
  }

  /** `Image(h, w, c)`: `h` rows of `w` pixels, each pixel `c` zero channels.
      Negative sizes make the vector constructors throw and are excluded. */
  function Blank(h: int, w: int, c: int): (img: Image)
    requires 0 <= h && 0 <= w && 0 <= c
    ensures img.height == h && img.width == w && img.color == c
    ensures Shaped(img)
    ensures forall i, j :: 0 <= i < h && 0 <= j < w ==>
              |img.data[i][j].values| == c
              && forall k :: 0 <= k ==> img.data[i][j].AccessValue(k) == 0.0
  {
    Image(seq(h, _ => seq(w, _ => Pixels.Blank(c))), h, w, c)
  }

  /** `Image(data, h, w, c)`: grid and dimensions are stored as given. No check
      relates them, so the result is well-shaped exactly when they agree. */
  function FromGrid(d: seq<seq<Pixel>>, h: int, w: int, c: int): (img: Image)
    ensures img.data == d && img.height == h && img.width == w && img.color == c
    ensures Shaped(img) <==>
              0 <= h && 0 <= w && |d| == h && forall i :: 0 <= i < |d| ==> |d[i]| == w
  {
    Image(d, h, w, c)
  }

  /** `clamp`: the nearest value to `x` in 0..255. */
  function Clamp(x: int): (r: Byte)
    ensures 0 <= x <= 255 ==> r == x
    ensures x < 0 ==> r == 0
    ensures 255 < x ==> r == 255
  {
    if x < 0 then 0 else if x > 255 then 255 else x
  }

  /** The C conversion of a double to `int`: truncation toward zero. The
      undefined behaviour of a value outside the `int` range is not modelled. */
  function TruncateToInt(x: real): (n: int)
    ensures 0.0 <= x ==> n as real <= x < n as real + 1.0
    ensures x < 0.0 ==> n as real - 1.0 < x <= n as real
  {
    if 0.0 <= x then x.Floor else -((-x).Floor)
  }

  /** A channel value in [0, 1] scaled to a byte, as saving does it. */
  function Quantize(x: real): (b: Byte)
    ensures 0.0 <= x <= 1.0 ==> b as real <= 255.0 * x < b as real + 1.0
    ensures x <= 0.0 ==> b == 0
    ensures 1.0 <= x ==> b == 255
  {
    Clamp(TruncateToInt(255.0 * x))
  }

  /** A byte read back as a channel value in [0, 1]. */
  function ByteToChannel(b: Byte): (v: real)
    ensures 0.0 <= v <= 1.0
    ensures Quantize(v) == b
  {
    b as real / 255.0
  }

  /** The pixel stored at (`i`, `j`) of a decoded buffer of width `w`. */
  function DecodePixel(bytes: seq<Byte>, h: nat, w: nat, i: nat, j: nat): (p: Pixel)
    requires |bytes| == BufferSize(h, w) && i < h && j < w
    ensures |p.values| == Channels
    ensures forall k :: 0 <= k < Channels ==>
              Offset(w, i, j, k) < |bytes|
              && p.values[k] == ByteToChannel(bytes[Offset(w, i, j, k)])
              && Quantize(p.AccessValue(k)) == bytes[Offset(w, i, j, k)]
  {
    OffsetInBounds(h, w, i, j, 0);
    OffsetInBounds(h, w, i, j, 1);
    OffsetInBounds(h, w, i, j, 2);
    var id := Offset(w, i, j, 0);
    FromValues([ByteToChannel(bytes[id]), ByteToChannel(bytes[id + 1]), ByteToChannel(bytes[id + 2])])
  }

  /** The grid a decoded buffer describes: `h` rows of `w` three-channel
      pixels, every channel in [0, 1]. */
  function DecodeGrid(bytes: seq<Byte>, h: nat, w: nat): (d: seq<seq<Pixel>>)
    requires |bytes| == BufferSize(h, w)
    ensures |d| == h && forall i :: 0 <= i < h ==> |d[i]| == w
    ensures forall i, j :: 0 <= i < h && 0 <= j < w ==> d[i][j] == DecodePixel(bytes, h, w, i, j)
    ensures forall i, j, k :: 0 <= i < h && 0 <= j < w && 0 <= k < Channels ==>
              && 0.0 <= d[i][j].AccessValue(k) <= 1.0
              && Offset(w, i, j, k) < |bytes|
              && Quantize(d[i][j].AccessValue(k)) == bytes[Offset(w, i, j, k)]
  {
    var d := seq(h, i requires 0 <= i < h =>
               seq(w, j requires 0 <= j < w => DecodePixel(bytes, h, w, i, j)));
    assert forall i, j, k :: 0 <= i < h && 0 <= j < w && 0 <= k < Channels ==>
             && 0.0 <= d[i][j].AccessValue(k) <= 1.0
             && Offset(w, i, j, k) < |bytes|
             && Quantize(d[i][j].AccessValue(k)) == bytes[Offset(w, i, j, k)] by {
      forall i, j, k | 0 <= i < h && 0 <= j < w && 0 <= k < Channels
        ensures 0.0 <= d[i][j].AccessValue(k) <= 1.0
        ensures Offset(w, i, j, k) < |bytes|
        ensures Quantize(d[i][j].AccessValue(k)) == bytes[Offset(w, i, j, k)]
      {
        var p := DecodePixel(bytes, h, w, i, j);
        assert d[i][j] == p;
        assert p.values[k] == ByteToChannel(bytes[Offset(w, i, j, k)]);
      }
    }
    d
  }

  /** `load_from_file`, with the codec's answer as `decoded`. On failure the
      dimensions and colour are zeroed, the pixels are left alone and the
      status is 1. On success the image becomes the decoded RGB grid and the
      status is 0. The channel count found in the file plays no part: the
      result is always three-channel. */
  function Load(img: Image, decoded: Option<Decoded>): (r: LoadOutcome)
    requires decoded.Some? ==> WellDecoded(decoded.value)
    ensures decoded.None? ==>
              r.status == 1 && r.image.data == img.data
              && r.image.height == 0 && r.image.width == 0 && r.image.color == 0
    ensures decoded.Some? ==>
              && r.status == 0
              && r.image.height == decoded.value.height
              && r.image.width == decoded.value.width
              && r.image.color == 3
              && Shaped(r.image)
              && r.image.data == DecodeGrid(decoded.value.bytes, decoded.value.height, decoded.value.width)
              && forall i, j, k :: 0 <= i < r.image.height && 0 <= j < r.image.width && 0 <= k < Channels ==>
                   Offset(r.image.width, i, j, k) < |decoded.value.bytes|
                   && Quantize(r.image.data[i][j].AccessValue(k)) == decoded.value.bytes[Offset(r.image.width, i, j, k)]
  {
    match decoded
    case None => LoadOutcome(img.(width := 0, height := 0, color := 0), 1)
    case Some(d) =>
      LoadOutcome(Image(DecodeGrid(d.bytes, d.height, d.width), d.height, d.width, 3), 0)
  }

  /** `convert_to_grayscale`. Only an RGB image is converted; any other image
      is returned unchanged. The converted image keeps its dimensions, holds a
      single channel per pixel, the luminance of the original pixel's red,
      green and blue, and has colour 1. */
  function ConvertToGrayscale(img: Image, luma: (real, real, real) -> real): (r: Image)
    requires img.color == 3 ==> Covers(img)
    ensures img.color != 3 ==> r == img
    ensures img.color == 3 ==>
              && r.color == 1 && r.height == img.height && r.width == img.width
              && Shaped(r)
              && forall i, j :: 0 <= i < r.height && 0 <= j < r.width ==>
                   |r.data[i][j].values| == 1
                   && r.data[i][j].Gs() == luma(img.data[i][j].R(), img.data[i][j].G(), img.data[i][j].B())
  {
    if img.color != 3 then img
    else
      var grid := seq(img.height, i requires 0 <= i < img.height =>
                    seq(img.width, j requires 0 <= j < img.width =>
                      var p := img.data[i][j];
                      FromValue(luma(p.R(), p.G(), p.B()))));
      assert forall i, j :: 0 <= i < img.height && 0 <= j < img.width ==>
               |grid[i][j].values| == 1
               && grid[i][j].Gs() == luma(img.data[i][j].R(), img.data[i][j].G(), img.data[i][j].B()) by {
        forall i, j | 0 <= i < img.height && 0 <= j < img.width
          ensures |grid[i][j].values| == 1
          ensures grid[i][j].Gs() == luma(img.data[i][j].R(), img.data[i][j].G(), img.data[i][j].B())
        {
          var p := img.data[i][j];
          assert grid[i][j] == FromValue(luma(p.R(), p.G(), p.B()));
        }
      }
      Image(grid, img.height, img.width, 1)
  }

  /** Converting an already converted image changes nothing: the second call
      sees colour 1 and returns its input. */
  lemma ConvertToGrayscaleIdempotent(img: Image, luma: (real, real, real) -> real)
    requires img.color == 3 ==> Covers(img)
    ensures ConvertToGrayscale(ConvertToGrayscale(img, luma), luma) == ConvertToGrayscale(img, luma)
  {
  }

  /** Saving reads pixels only for colours 1 and 3, and only when both
      dimensions are positive; otherwise its loops write nothing. */
  predicate WritesPixels(img: Image) {
    (img.color == 1 || img.color == 3) && 0 < img.height && 0 < img.width
  }

  /** What saving needs: a buffer of `3*height*width` bytes can be allocated
      (the product is not negative), and the grid covers the image whenever
      pixels are read. */
  predicate SaveReady(img: Image, junk: seq<Byte>) {
    && 0 <= img.height * img.width
    && |junk| == Channels * img.height * img.width
    && (WritesPixels(img) ==> Covers(img))
  }

  /** The byte saving writes for channel `k` of pixel (`i`, `j`): the
      quantised red, green or blue channel of an RGB image, and the quantised
      grey level, whatever `k`, of a grey-scale image. */
  function ChannelByte(img: Image, i: nat, j: nat, k: nat): Byte
    requires (img.color == 1 || img.color == 3) && Covers(img)
    requires i < img.height && j < img.width && k < Channels
  {
    var p := img.data[i][j];
    if img.color == 3 then
      if k == 0 then Quantize(p.R()) else if k == 1 then Quantize(p.G()) else Quantize(p.B())
    else
      Quantize(p.Gs())
  }

  /** The buffer `save_to_file` hands to the encoder, described byte by byte:
      each position holds the byte of the pixel channel it is the offset of,
      or, when no pixel is read (colours other than 1 and 3, or no rows or
      columns), whatever the allocation held. */
  function Encoding(img: Image, junk: seq<Byte>): (buf: seq<Byte>)
    requires SaveReady(img, junk)
    ensures |buf| == |junk|
    ensures !WritesPixels(img) ==> buf == junk
    ensures WritesPixels(img) ==>
              forall i, j, k :: 0 <= i < img.height && 0 <= j < img.width && 0 <= k < Channels ==>
                Offset(img.width, i, j, k) < |buf|
                && buf[Offset(img.width, i, j, k)] == ChannelByte(img, i, j, k)
  {
    if !WritesPixels(img) then junk
    else
      assert |junk| == BufferSize(img.height, img.width);
      var buf := seq(|junk|, n requires 0 <= n < |junk| =>
                   OffsetSurjective(img.height, img.width, n);
                   ChannelByte(img, RowOf(img.width, n), ColumnOf(img.width, n), ChannelOf(n)));
      assert forall i, j, k :: 0 <= i < img.height && 0 <= j < img.width && 0 <= k < Channels ==>
               Offset(img.width, i, j, k) < |buf|
               && buf[Offset(img.width, i, j, k)] == ChannelByte(img, i, j, k) by {
        forall i, j, k | 0 <= i < img.height && 0 <= j < img.width && 0 <= k < Channels
          ensures Offset(img.width, i, j, k) < |buf|
          ensures buf[Offset(img.width, i, j, k)] == ChannelByte(img, i, j, k)
        {
          OffsetInBounds(img.height, img.width, i, j, k);
          OffsetDecomposes(img.width, i, j, k);
        }
      }
      buf
  }

  /** A grey-scale image is saved with the same byte in all three channels of
      every pixel. */
  lemma GrayscaleSavedAsEqualChannels(img: Image, junk: seq<Byte>, i: nat, j: nat)
    requires SaveReady(img, junk) && img.color == 1
    requires i < img.height && j < img.width
    ensures Offset(img.width, i, j, 2) < |Encoding(img, junk)|
    ensures Encoding(img, junk)[Offset(img.width, i, j, 0)]
         == Encoding(img, junk)[Offset(img.width, i, j, 1)]
         == Encoding(img, junk)[Offset(img.width, i, j, 2)]
         == Quantize(img.data[i][j].Gs())
  {
  }

  /** `save_to_file` up to the encoder call: walks the pixels in row-major
      order and writes three bytes per pixel into a fresh buffer whose prior
      contents are `junk`. The status is always 0. */
  method Save(img: Image, junk: seq<Byte>) returns (buf: seq<Byte>, status: int)
    requires SaveReady(img, junk)
    ensures buf == Encoding(img, junk)
    ensures status == 0
  {
    buf := WriteRows(img, junk);
    status := 0;
    if WritesPixels(img) {
      SavedAllRows(img, junk, buf);
    }
  }

  /** The outer loop of `save_to_file`: rows top to bottom. When no pixel
      is read the loops write nothing and the buffer keeps its contents. */
  method WriteRows(img: Image, junk: seq<Byte>) returns (buf: seq<Byte>)
    requires SaveReady(img, junk)
    ensures |buf| == |junk|
    ensures !WritesPixels(img) ==> buf == junk
    ensures WritesPixels(img) ==> 0 <= img.height && SavedRows(img, junk, buf, img.height)
  {
    buf := junk;
    if !WritesPixels(img) {
      return;
    }
    SavedNothing(img, junk);
    var i := 0;
    while i < img.height
      invariant 0 <= i <= img.height
      invariant |buf| == |junk|
      invariant SavedRows(img, junk, buf, i)
    {
      buf := WriteRow(img, junk, buf, i);
      i := i + 1;
    }
  }

  /** One pass of the outer loop of `save_to_file`: the pixels of row `i`,
      left to right. */
  method WriteRow(img: Image, junk: seq<Byte>, prev: seq<Byte>, i: nat) returns (buf: seq<Byte>)
    requires SaveReady(img, junk) && |prev| == |junk|
    requires i < img.height
    requires WritesPixels(img) ==> SavedRows(img, junk, prev, i)
    ensures |buf| == |junk|
    ensures !WritesPixels(img) ==> buf == prev
    ensures WritesPixels(img) ==> SavedRows(img, junk, buf, i + 1)
  {
    if WritesPixels(img) {
      SavedRowsIff(img, junk, prev, i);
    }
    buf := prev;
    var w := img.width;
    var j := 0;
    while j < w
      invariant 0 <= j && (0 <= w ==> j <= w)
      invariant |buf| == |junk|
      invariant !WritesPixels(img) ==> buf == prev
      invariant WritesPixels(img) ==> SavedUpTo(img, junk, buf, Channels * (i * w + j))
    {
      buf := WritePixel(img, junk, buf, i, j);
      j := j + 1;
    }
    if WritesPixels(img) {
      NextRowStart(i, w);
      SavedRowsIff(img, junk, buf, i + 1);
    }
  }

  /** The body of the inner loop of `save_to_file`: the three bytes of pixel
      (`i`, `j`) at offset `3*(i*width + j)`, red, green and blue for an RGB
      image, the grey level three times for a grey-scale one, nothing for any
      other colour. */
  method WritePixel(img: Image, junk: seq<Byte>, prev: seq<Byte>, i: nat, j: nat) returns (buf: seq<Byte>)
    requires SaveReady(img, junk) && |prev| == |junk|
    requires i < img.height && j < img.width
    requires WritesPixels(img) ==> SavedUpTo(img, junk, prev, Channels * (i * img.width + j))
    ensures |buf| == |junk|
    ensures !WritesPixels(img) ==> buf == prev
    ensures WritesPixels(img) ==> SavedUpTo(img, junk, buf, Channels * (i * img.width + j) + Channels)
  {
    var id := Channels * (i * img.width + j);
    OffsetInBounds(img.height, img.width, i, j, 2);
    buf := prev;
    if img.color == 3 {
      var p := img.data[i][j];
      buf := buf[id := Quantize(p.R())][id + 1 := Quantize(p.G())][id + 2 := Quantize(p.B())];
    } else if img.color == 1 {
      var gs := Quantize(img.data[i][j].Gs());
      buf := buf[id := gs][id + 1 := gs][id + 2 := gs];
    }
    if WritesPixels(img) {
      EncodedPixel(img, junk, i, j);
      SavedStep(img, junk, prev, buf, id);
    }
  }

  /** Once the encoded prefix spans the whole buffer, the buffer is the
      encoding. */
  lemma SavedAll(img: Image, junk: seq<Byte>, buf: seq<Byte>)
    requires SaveReady(img, junk) && WritesPixels(img)
    requires SavedUpTo(img, junk, buf, |junk|)
    ensures buf == Encoding(img, junk)
  {
  }

  /** Before any row is written the buffer is the allocation. */
  lemma SavedNothing(img: Image, junk: seq<Byte>)
    requires SaveReady(img, junk) && WritesPixels(img)
    ensures SavedRows(img, junk, junk, 0)
  {
  }

  /** Once every row is written the buffer is the encoding. */
  lemma SavedAllRows(img: Image, junk: seq<Byte>, buf: seq<Byte>)
    requires SaveReady(img, junk) && WritesPixels(img)
    requires 0 <= img.height && SavedRows(img, junk, buf, img.height)
    ensures buf == Encoding(img, junk)
  {
    assert Channels * (img.height * img.width) == |junk|;
    SavedAll(img, junk, buf);
  }

  /** Loop state of the outer loop of `Save`: the first `i` rows are written. */
  ghost predicate SavedRows(img: Image, junk: seq<Byte>, buf: seq<Byte>, i: nat)
    requires SaveReady(img, junk) && WritesPixels(img)
  {
    buf == RowsWritten(img, junk, i)
  }

  /** The buffer once the first `i` rows are written. */
  ghost function RowsWritten(img: Image, junk: seq<Byte>, i: nat): seq<Byte>
    requires SaveReady(img, junk) && WritesPixels(img)
  {
    var e := Encoding(img, junk);
    seq(|junk|, n requires 0 <= n < |junk| => if n < Channels * (i * img.width) then e[n] else junk[n])
  }

  /** The row-level loop state is the byte-level one at the row boundary. */
  lemma SavedRowsIff(img: Image, junk: seq<Byte>, buf: seq<Byte>, i: nat)
    requires SaveReady(img, junk) && WritesPixels(img)
    ensures SavedRows(img, junk, buf, i) <==> SavedUpTo(img, junk, buf, Channels * (i * img.width))
  {
    if SavedUpTo(img, junk, buf, Channels * (i * img.width)) {
      assert buf == RowsWritten(img, junk, i);
    }
  }

  /** Loop state of `Save`: the first `bound` bytes hold the encoding, the
      rest still hold the allocation's prior contents. */
  ghost predicate SavedUpTo(img: Image, junk: seq<Byte>, buf: seq<Byte>, bound: nat)
    requires SaveReady(img, junk) && WritesPixels(img)
  {
    && |buf| == |junk|
    && forall n :: 0 <= n < |buf| ==> buf[n] == (if n < bound then Encoding(img, junk)[n] else junk[n])
  }

  /** The three encoded bytes of pixel (`i`, `j`), spelled out. */
  lemma EncodedPixel(img: Image, junk: seq<Byte>, i: nat, j: nat)
    requires SaveReady(img, junk) && WritesPixels(img)
    requires i < img.height && j < img.width
    ensures Channels * (i * img.width + j) + 2 < |junk|
    ensures var id := Channels * (i * img.width + j);
            var e := Encoding(img, junk);
            var p := img.data[i][j];
            if img.color == 3 then
              e[id] == Quantize(p.R()) && e[id + 1] == Quantize(p.G()) && e[id + 2] == Quantize(p.B())
            else
              e[id] == Quantize(p.Gs()) && e[id + 1] == Quantize(p.Gs()) && e[id + 2] == Quantize(p.Gs())
  {
    OffsetInBounds(img.height, img.width, i, j, 2);
    var id := Channels * (i * img.width + j);
    assert Offset(img.width, i, j, 0) == id;
    assert Offset(img.width, i, j, 1) == id + 1;
    assert Offset(img.width, i, j, 2) == id + 2;
    var e := Encoding(img, junk);
    assert e[id] == ChannelByte(img, i, j, 0);
    assert e[id + 1] == ChannelByte(img, i, j, 1);
    assert e[id + 2] == ChannelByte(img, i, j, 2);
  }

  /** Writing the three encoded bytes that start at `id` extends the encoded
      prefix by one pixel. */
  lemma SavedStep(img: Image, junk: seq<Byte>, prev: seq<Byte>, buf: seq<Byte>, id: nat)
    requires SaveReady(img, junk) && WritesPixels(img)
    requires id + 3 <= |junk|
    requires SavedUpTo(img, junk, prev, id)
    requires buf == prev[id := Encoding(img, junk)[id]][id + 1 := Encoding(img, junk)[id + 1]]
                        [id + 2 := Encoding(img, junk)[id + 2]]
    ensures SavedUpTo(img, junk, buf, id + 3)
  {
  }

  /** Saving an image straight after a successful load reproduces the bytes
      the codec decoded: with exact arithmetic every byte survives the trip
      through a channel value in [0, 1] and back. */
  lemma SaveAfterLoad(img: Image, d: Decoded, junk: seq<Byte>)
    requires WellDecoded(d) && |junk| == |d.bytes|
    ensures SaveReady(Load(img, Some(d)).image, junk)
    ensures Encoding(Load(img, Some(d)).image, junk) == d.bytes
  {
    var loaded := Load(img, Some(d)).image;
    var e := Encoding(loaded, junk);
    forall n | 0 <= n < |e|
      ensures e[n] == d.bytes[n]
    {
      OffsetSurjective(d.height, d.width, n);
      var i, j, k := RowOf(d.width, n), ColumnOf(d.width, n), ChannelOf(n);
      assert e[Offset(d.width, i, j, k)] == ChannelByte(loaded, i, j, k);
      assert Quantize(loaded.data[i][j].AccessValue(k)) == d.bytes[Offset(d.width, i, j, k)];
    }
  }
}
