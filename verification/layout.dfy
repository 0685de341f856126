/**
 The interleaved RGB byte layout shared by image loading and saving: an image
 of `h` rows and `w` columns occupies `3*h*w` bytes, row after row, each
 pixel's red, green and blue bytes side by side. Channel `k` of the pixel in
 row `i`, column `j` lives at `3*(i*w + j) + k`. The program computes this
 offset in `int`; overflow of that product is not modelled.
 */
module Layout {

  /** Bytes per pixel in the buffer (the RGB request made to the codec). */
  const Channels: nat := 3

  type Byte = b: int | 0 <= b < 256

  /** Position of channel `k` of pixel (`i`, `j`) in a buffer of width `w`. */
  function Offset(w: nat, i: nat, j: nat, k: nat): nat {
    Channels * (i * w + j) + k
  }

  /** Size of the buffer for an `h` by `w` image. */
  function BufferSize(h: nat, w: nat): nat {
    Channels * h * w
  }

  /** Row, column and channel recovered from a buffer position. */
  function RowOf(w: nat, n: nat): nat
    requires 0 < w
  {
    (n / Channels) / w
  }

  function ColumnOf(w: nat, n: nat): nat
    requires 0 < w
  {
    (n / Channels) % w
  }

  function ChannelOf(n: nat): nat {
    n % Channels
  }

  lemma MulLeftMono(a: nat, b: nat, c: nat)
    requires a <= b
    ensures a * c <= b * c
  {
  }

  /** The end of row `i` is the start of row `i + 1`. */
  lemma NextRowStart(i: nat, w: nat)
    ensures Channels * (i * w + w) == Channels * ((i + 1) * w)
  {
    assert (i + 1) * w == i * w + w;
  }

  /** Every offset of a pixel inside the image falls inside the buffer. */
  lemma OffsetInBounds(h: nat, w: nat, i: nat, j: nat, k: nat)
    requires i < h && j < w && k < Channels
    ensures Offset(w, i, j, k) < BufferSize(h, w)
  {
    MulLeftMono(i + 1, h, w);
    assert (i + 1) * w == i * w + w;
    assert i * w + j < h * w;
    assert Channels * (i * w + j) + k < Channels * (h * w);
  }

  /** Pixels that come earlier in row-major order sit strictly below the first
      byte of a later pixel. */
  lemma OffsetBeforePixel(w: nat, i: nat, j: nat, i': nat, j': nat, k': nat)
    requires j < w && j' < w && k' < Channels
    requires i' < i || (i' == i && j' < j)
    ensures Offset(w, i', j', k') < Channels * (i * w + j)
  {
    if i' < i {
      MulLeftMono(i' + 1, i, w);
      assert (i' + 1) * w == i' * w + w;
    }
    assert i' * w + j' < i * w + j;
  }

  /** Decomposing the offset of (`i`, `j`, `k`) gives back `i`, `j` and `k`. */
  lemma OffsetDecomposes(w: nat, i: nat, j: nat, k: nat)
    requires j < w && k < Channels
    ensures RowOf(w, Offset(w, i, j, k)) == i
    ensures ColumnOf(w, Offset(w, i, j, k)) == j
    ensures ChannelOf(Offset(w, i, j, k)) == k
  {
    var n := Offset(w, i, j, k);
    assert n / Channels == i * w + j;
    assert n % Channels == k;
    DivModUnique(i * w + j, w, i, j);
  }

  /** Euclidean division is unique: `q*d + r` with `0 <= r < d` has quotient
      `q` and remainder `r`. */
  lemma DivModUnique(x: nat, d: nat, q: nat, r: nat)
    requires 0 < d && r < d && x == q * d + r
    ensures x / d == q && x % d == r
  {
    var q', r' := x / d, x % d;
    assert x == q' * d + r';
    if q' < q {
      MulLeftMono(q' + 1, q, d);
      assert false;
    } else if q < q' {
      MulLeftMono(q + 1, q', d);
      assert false;
    }
  }

  /** The layout is injective: distinct (row, column, channel) triples inside
      the image are stored at distinct bytes, so no byte is written twice. */
  lemma OffsetInjective(w: nat, i: nat, j: nat, k: nat, i': nat, j': nat, k': nat)
    requires j < w && k < Channels && j' < w && k' < Channels
    requires Offset(w, i, j, k) == Offset(w, i', j', k')
    ensures i == i' && j == j' && k == k'
  {
    OffsetDecomposes(w, i, j, k);
    OffsetDecomposes(w, i', j', k');
  }

  /** The layout is onto: every byte of the buffer is the offset of exactly
      the (row, column, channel) triple its position decomposes into. */
  lemma OffsetSurjective(h: nat, w: nat, n: nat)
    requires n < BufferSize(h, w)
    ensures 0 < w
    ensures RowOf(w, n) < h && ColumnOf(w, n) < w && ChannelOf(n) < Channels
    ensures Offset(w, RowOf(w, n), ColumnOf(w, n), ChannelOf(n)) == n
  {
    if w == 0 {
      assert false;
    }
    var q := n / Channels;
    assert q < h * w;
    var row, col := q / w, q % w;
    assert q == row * w + col;
    if h <= row {
      MulLeftMono(h, row, w);
      assert false;
    }
  }
}
