/**
 A pixel is a vector of channel values: three (red, green, blue) for a colour
 image, one for a grey-scale image. Channel values are doubles in the program
 and exact reals here. Reading a channel past the end of the vector yields 0,
 which is what lets a grey-scale pixel answer `G()` and `B()`.
 */
module Pixels {

  datatype Pixel = Pixel(values: seq<real>) {

    /** The channel at position `id`, or 0 when the pixel has fewer channels.
        A negative position is not guarded against and is excluded here. */
    function AccessValue(id: int): (v: real)
      requires 0 <= id
      ensures id < |values| ==> v == values[id]
      ensures |values| <= id ==> v == 0.0
    {
      if id < |values| then values[id] else 0.0
    }

    /** Red channel: the first value, 0 for a pixel without channels. */
    function R(): (v: real)
      ensures |values| == 0 ==> v == 0.0
      ensures 0 < |values| ==> v == values[0]
    {
      AccessValue(0)
    }

    /** Green channel: 0 unless the pixel has at least two channels. */
    function G(): (v: real)
      ensures |values| <= 1 ==> v == 0.0
      ensures 1 < |values| ==> v == values[1]
    {
      AccessValue(1)
    }

    /** Blue channel: 0 unless the pixel has at least three channels. */
    function B(): (v: real)
      ensures |values| <= 2 ==> v == 0.0
      ensures 2 < |values| ==> v == values[2]
    {
      AccessValue(2)
    }

    /** Grey level: the same first channel that `R()` reads. */
    function Gs(): (v: real)
      ensures v == R()
      ensures 0 < |values| ==> v == values[0]
    {
      AccessValue(0)
    }
  }

  /** Zero-padded view of a channel vector: position `id` of the pixel as
      `AccessValue` sees it, defined without reference to the accessor. */
  function Padded(vs: seq<real>, id: nat): real {
    if |vs| == 0 then 0.0
    else if id == 0 then vs[0]
    else Padded(vs[1..], id - 1)
  }

  /** The accessor agrees with the zero-padded reading of the vector at every
      non-negative position. */
  lemma {:induction false} AccessValueIsPadded(p: Pixel, id: nat)
    ensures p.AccessValue(id) == Padded(p.values, id)
    decreases |p.values|
  {
    if |p.values| != 0 && id != 0 {
      AccessValueIsPadded(Pixel(p.values[1..]), id - 1);
    }
  }

  /** A pixel is determined by its channel count and the values its accessor
      returns: two pixels with the same number of channels are equal exactly
      when `AccessValue` agrees on every position. */
  lemma AccessValueDeterminesPixel(p: Pixel, q: Pixel)
    requires |p.values| == |q.values|
    ensures p == q <==> forall id :: 0 <= id < |p.values| ==> p.AccessValue(id) == q.AccessValue(id)
  {
    if forall id :: 0 <= id < |p.values| ==> p.AccessValue(id) == q.AccessValue(id) {
      assert forall id :: 0 <= id < |p.values| ==> p.values[id] == q.values[id] by {
        forall id | 0 <= id < |p.values|
          ensures p.values[id] == q.values[id]
        {
          assert p.AccessValue(id) == q.AccessValue(id);
        }
      }
      assert p.values == q.values;
    }
  }

  /** `Pixel(double value)`: a one-channel pixel holding `v`. Read as colour,
      it is red `v` with no green or blue. */
  function FromValue(v: real): (p: Pixel)
    ensures |p.values| == 1
    ensures p.Gs() == v && p.R() == v
    ensures p.G() == 0.0 && p.B() == 0.0
  {
    Pixel([v])
  }

  /** `Pixel(int color)`: `c` channels, all zero. A negative count makes the
      vector constructor throw, so it is excluded. */
  function Blank(c: int): (p: Pixel)
    requires 0 <= c
    ensures |p.values| == c
    ensures forall id :: 0 <= id ==> p.AccessValue(id) == 0.0
  {
    Pixel(seq(c, _ => 0.0))
  }

  /** `Pixel(std::vector<double> v)`: the vector is kept unchanged, so every
      accessor reads back the entry that was given. */
  function FromValues(vs: seq<real>): (p: Pixel)
    ensures |p.values| == |vs|
    ensures forall id :: 0 <= id < |vs| ==> p.AccessValue(id) == vs[id]
    ensures p.R() == (if 0 < |vs| then vs[0] else 0.0)
  {
    Pixel(vs)
  }

  /** On a one-channel pixel the colour accessors degrade gracefully: red and
      grey agree on the single value, green and blue read 0. */
  lemma OneChannelPixel(p: Pixel)
    requires |p.values| == 1
    ensures p.R() == p.Gs() == p.values[0]
    ensures p.G() == 0.0 && p.B() == 0.0
  {
  }
}
