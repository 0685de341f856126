# Power-diagram lifting and image buffers, modelled in Dafny

This project models three small pieces of a texture-interpolation program that
works with semi-discrete optimal transport between images:

- **Pixels** (`pixels.dfy`): a pixel is a vector of channel values. It has
  three constructors: one value, `c` zero channels, or a given vector. The
  accessor `access_value` returns 0 past the end of the vector, so `g()` and
  `b()` read 0 on a grey-scale pixel.
- **Images** (`images.dfy`, with the byte layout in `layout.dfy`): an image is
  a grid of pixels with a recorded height, width and colour (channel count).
  Loading decodes an interleaved RGB byte buffer into the grid. Grey-scale
  conversion turns colour 3 into colour 1. Saving writes the grid back into an
  interleaved buffer, clamping each byte to 0..255. Channel `k` of pixel
  (`i`, `j`) lives at byte `3*(i*w + j) + k`.
- **Power diagrams** (`power_diagram.dfy`): weighted planar sites are lifted
  to 3D particles `(x, y, sqrt(C - w))` with `C = 4 * max(w)`. The z = 0
  cross-section of the 3D Voronoi diagram of the particles is the power
  (Laguerre) diagram of the sites. Heights are kept squared, so no square root
  appears.

`wrappers.dfy` holds the `Option` type used for the codec's answer.

Doubles are modelled as exact reals. A C cast from `double` to `int` is
modelled exactly, as truncation toward zero. Outside code is modelled by
parameters:
- the image codec: `Load` receives the decoded buffer, or `None` when decoding
  failed; `Save` returns the buffer handed to the encoder;
- the uninitialised buffer that saving allocates: the parameter `junk`;
- the sRGB linearisation, luminance weights and gamma compression: the
  function parameter `luma`;
- the 3D Voronoi library's per-particle cross-sections: the parameter
  `section` of `GetProjection`.

The constructor does not check that every weight is at most the lifting
constant, and takes square roots that may be of negative numbers. `Construct`
requires `max(w) >= 0`. `RadicandsNonNegativeIff` proves that this is exactly
the condition under which every square root has a non-negative argument. With
every weight negative, `C` is negative and so is the heaviest site's radicand
(`HeaviestRadicand`). The source comment says `4 * max(w)` avoids square roots
of non-positive numbers. `RadicandsPositiveIff` proves that this needs
`max(w) > 0`: when `max(w) = 0`, `C` is 0, and both the container height and
the heaviest site's height are square roots of 0.

## Model

| member | source | states |
|---|---|---|
| Pixels.Pixel.AccessValue | src/pixel.cpp:40-44 | channel `id` of the vector, or 0 when `id` is past the end; a negative `id` is unguarded in the source and is a precondition |
| Pixels.Pixel.R | src/pixel.cpp:20-23 | red is the first channel, or 0 for a pixel without channels |
| Pixels.Pixel.G | src/pixel.cpp:25-28 | green is 0 on a pixel with at most one channel, otherwise the second channel |
| Pixels.Pixel.B | src/pixel.cpp:30-33 | blue is 0 on a pixel with at most two channels, otherwise the third channel |
| Pixels.Pixel.Gs | src/pixel.cpp:35-38 | the grey level always equals the red channel |
| Pixels.AccessValueIsPadded | src/pixel.cpp:40-44 | the accessor agrees, at every non-negative position, with an independent zero-padded reading of the vector |
| Pixels.AccessValueDeterminesPixel | src/pixel.cpp:15-18 | two pixels with the same channel count are equal exactly when the accessor agrees on every position, so storing the vector unchanged is observable through the accessor |
| Pixels.FromValue | src/pixel.cpp:5-8 | `Pixel(double)` has one channel; it reads as grey and red `v`, with green and blue 0 |
| Pixels.Blank | src/pixel.cpp:10-13 | `Pixel(int c)` has `c` channels and every accessor position reads 0 |
| Pixels.FromValues | src/pixel.cpp:15-18 | `Pixel(vector)` keeps the channel count, and every position reads back the given entry |
| Pixels.OneChannelPixel | src/pixel.cpp:20-44 | on a one-channel pixel, red and grey agree on the value while green and blue read 0 |
| Layout.OffsetInBounds | src/image.cpp:56-61 | for `i < h`, `j < w`, `k < 3` the offset `3*(i*w+j)+k` is below `3*h*w` |
| Layout.OffsetInjective | src/image.cpp:103-126 | distinct (row, column, channel) triples map to distinct bytes, so no byte is written twice |
| Layout.OffsetSurjective | src/image.cpp:102-105 | every byte of the `3*h*w` buffer is the offset of an in-range (row, column, channel) triple |
| Layout.OffsetDecomposes | src/image.cpp:58 | division and remainder recover the row, column and channel from an offset |
| Layout.OffsetBeforePixel | src/image.cpp:103-105 | pixels visited earlier in row-major order occupy bytes strictly before a later pixel's first byte |
| Images.Empty | src/image.cpp:16-21 | `Image()` has height, width and colour 0 and no pixels |
| Images.Blank | src/image.cpp:23-30 | `Image(h, w, c)` records `h`, `w`, `c` and has `h` rows of `w` pixels with `c` zero channels each |
| Images.FromGrid | src/image.cpp:32-38 | `Image(d, h, w, c)` stores its arguments unchecked; the result is well-shaped exactly when `d` has `h` rows of `w` pixels |
| Images.Clamp | src/image.cpp:14 | the result lies in 0..255, equals `x` when `x` is in range, and is 0 below and 255 above |
| Images.TruncateToInt | src/image.cpp:112-114 | the `(int)` cast truncates toward zero: the result is within 1 of `x`, on the zero side |
| Images.Quantize | src/image.cpp:112 | a channel in [0, 1] saves as the byte `floor(255 * x)`; one at or below 0 as byte 0, at or above 1 as byte 255 |
| Images.ByteToChannel | src/image.cpp:59-61 | a byte divided by 255 lies in [0, 1] and quantises back to the same byte |
| Images.DecodePixel | src/image.cpp:58-62 | the pixel at (`i`, `j`) has three channels, each read from byte `3*(i*w+j)+k` and quantising back to it |
| Images.DecodeGrid | src/image.cpp:54-65 | the decoded grid has `h` rows of `w` pixels, every channel in [0, 1] and quantising back to its byte |
| Images.Load | src/image.cpp:40-74 | on codec failure: status 1, dimensions and colour zeroed, pixels untouched; on success: status 0, the decoded dimensions, colour 3, and exactly the grid `DecodeGrid` reads from the decoded bytes: well-shaped, three channels per pixel, each channel quantising back to its byte |
| Images.ConvertToGrayscale | src/image.cpp:76-98 | an image of colour other than 3 is unchanged; otherwise dimensions are kept, the grid is well-shaped, every pixel has one channel holding the luminance of the original, and colour becomes 1 |
| Images.ConvertToGrayscaleIdempotent | src/image.cpp:76-98 | converting twice gives the same image as converting once |
| Images.Encoding | src/image.cpp:100-129 | for colours 1 and 3 the byte at the offset of (`i`, `j`, `k`) is that pixel channel's quantised value; for any other colour, or with no rows or columns, the buffer keeps its prior contents |
| Images.GrayscaleSavedAsEqualChannels | src/image.cpp:119-126 | a grey-scale image is saved with the same quantised grey byte in all three channels of each pixel |
| Images.Save | src/image.cpp:100-135 | the row-major loop produces exactly the buffer `Encoding` describes, and the status is 0 |
| Images.WriteRows | src/image.cpp:103-128 | when pixels are read, walking the rows top to bottom leaves every row encoded; otherwise the buffer keeps its prior contents |
| Images.WriteRow | src/image.cpp:103-128 | writing row `i` extends the correctly encoded prefix from the start of row `i` to the start of row `i + 1`; nothing is written when no pixel is read |
| Images.WritePixel | src/image.cpp:105-127 | writing one pixel extends the correctly encoded prefix by three bytes and leaves the rest of the buffer untouched |
| Images.EncodedPixel | src/image.cpp:107-126 | the three encoded bytes of a pixel are red, green, blue for colour 3 and the grey level three times for colour 1 |
| Images.SaveAfterLoad | src/image.cpp:54-73 | saving straight after a successful load reproduces the decoded bytes exactly |
| PowerDiagrams.MaxWeight | src/power_diagram.cpp:25 | the result is one of the weights and no weight exceeds it |
| PowerDiagrams.LiftingConstant | src/power_diagram.cpp:25 | `C` is four times the largest weight: it bounds `4*w[i]` for every weight and equals it for one |
| PowerDiagrams.RadicandsNonNegativeIff | src/power_diagram.cpp:24-33 | every square root the constructor takes has a non-negative argument exactly when the largest weight is non-negative |
| PowerDiagrams.RadicandsPositiveIff | src/power_diagram.cpp:24-33 | every square root the constructor takes has a strictly positive argument, as the comment on the lifting constant intends, exactly when the largest weight is positive |
| PowerDiagrams.HeaviestRadicand | src/power_diagram.cpp:24-25 | the heaviest site's radicand is `3 * max(w)`, which is negative when every weight is |
| PowerDiagrams.Default | src/power_diagram.cpp:11-16 | the default diagram has no sites, lifting constant 0 and a unit container |
| PowerDiagrams.Construct | src/power_diagram.cpp:18-34 | `nb_sites = |s|`; `C` is four times the maximum weight; the container spans the ranges and height `sqrt(C)`; site `i` becomes particle `i`, in order, at squared height `C - w[i]`, which is at least `3*max(w)` and so non-negative |
| PowerDiagrams.LiftedInContainerIff | src/power_diagram.cpp:28-33 | a lifted site inside the rectangle lies inside the container box exactly when its weight is non-negative |
| PowerDiagrams.LiftingIdentity | src/power_diagram.cpp:31-33 | the squared distance from `(p, 0)` to lifted site `i` is `|p - s_i|^2 - w_i + C` |
| PowerDiagrams.CrossSectionIsPowerDiagram | src/power_diagram.cpp:30-33 | a particle is nearest to `(p, 0)` exactly when its site minimises power distance to `p` |
| PowerDiagrams.HeightsAntitone | src/power_diagram.cpp:33 | `w_i <= w_j` exactly when lifted site `j` sits no higher than lifted site `i` |
| PowerDiagrams.EqualWeightsGiveVoronoi | src/power_diagram.cpp:25-33 | with all weights equal, every squared height is `3w` and nearest-particle ownership is ordinary nearest-site Voronoi ownership |
| PowerDiagrams.GetProjection | src/power_diagram.cpp:38-66 | the vertex lists are reset to exactly `nb_sites` lists, list `i` receives particle `i`'s cross-section, and nothing else changes |
| PowerDiagrams.GetProjectionIdempotent | src/power_diagram.cpp:40 | because of the reset, projecting twice equals projecting once |

## Left out

- The image codec (`stbi_load`, `stbi_write_png`, `stbi_image_free`): the decoded buffer is a parameter and the encoded buffer a result. File names, the error message on load failure and the grey-scale refusal message are console or file I/O.
- sRGB linearisation, luminance weights and gamma compression: they are floating-point formulas using `pow`, so they are the parameter `luma`.
- Floating-point rounding: doubles are modelled as exact reals, and `SaveAfterLoad` is proved for exact arithmetic.
- Images.TruncateToInt: the undefined behaviour of casting a double outside the `int` range is not modelled. The truncated value is unbounded and then clamped.
- Integer width: `3*(i*w + j)`, `height*width*3` and `nb_sites` are `int` in the source. Their overflow is not modelled.
- Images.Blank, Pixels.Blank: negative sizes throw in the vector constructors. They are preconditions rather than modelled exceptions.
- Images.ConvertToGrayscale: the grid must hold every pixel that the loops read (`Covers`). Reading past it is undefined behaviour in the source, so it is a precondition. `Covers` also requires a non-negative height and width, because the vector constructors at src/image.cpp:83 throw on a negative size; that exception is not modelled either.
- Images.Save: the same grid requirement applies whenever pixels are read. A negative `height*width` makes the buffer allocation throw, so it is a precondition too.
- PowerDiagrams.Construct: an empty weight list (dereferencing `max_element` of nothing), fewer weights than sites, and a negative maximum weight (square roots of negative numbers) are undefined or NaN-producing in the source. They are preconditions rather than modelled errors.
- The voro++ library: container construction, particle storage (including its silent dropping of a point outside the box), cell computation and the destructor. `GetProjection` takes the per-particle cross-section as a parameter. That parameter also stands for the near-zero tolerance filter on vertex heights.
- `draw_cells_gnuplot("cells.gnu")`: file output.
- The `float` type of `lifting_constant` and the `sqrt` calls: squared heights are used in exact reals.
- PowerDiagrams.GetProjection: particles the library never visits get an empty list in the source. Here the `section` parameter must return an empty list for them.
- Pixel accessors do not modify the pixel. This holds by construction in a model of immutable values, so no member states it.
- The command-line front end, the load/convert/save demonstration pipeline, Lloyd relaxation, mass assignment and the transport solver: they are glue or are not part of this model.
