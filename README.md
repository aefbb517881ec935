# Bayer sensor-plane stage of rawproc, in Dafny

This project models the sensor-plane stage of the raw pipeline in
`rawproc/src/image/bayerrgb.rs`. That stage covers four things:

- the crop of the decoder's raw plane to its image rectangle;
- the in-place white balance of every photosite sample by the coefficient of its filter colour;
- the demosaic engine. It turns the one-sample-per-photosite plane into an interleaved three-channel
  linear-RGB image. It copies each interior pixel's own sample into its own colour's channel, and it
  fills each other channel with the sample of a randomly drawn 8-neighbour of that colour;
- the small colour mapping (`CfaColor`, `From<usize>`, `rgb_index`) and the flat-index-to-colour
  lookup `color_at_i`.

Layout:

- `geometry.dfy` (`Geometry`): the row-major flat index `y * width + x` and the
  arithmetic facts about it (bounds, injectivity, division and remainder).
- `colors.dfy` (`Colors`): `CfaColor`, `FromOrdinal` (`From<usize>`) and `RgbIndex`.
- `cfa.dfy` (`Cfa`): the colour filter array as a tile looked up at
  `((x + dx) mod tw, (y + dy) mod th)`, with `Shift` adding to `(dx, dy)`; and `ColorAtIndex`
  (`color_at_i`).
- `random.dfy` (`Random`): the `RollingRandom` byte source as a class over a given byte stream.
- `crop.dfy` (`CropStage`): the cropped plane as a function on sequences (`Cropped`) and what it
  keeps.
- `whitebalance.dfy` (`WhiteBalanceStage`): the balanced plane as a function on sequences
  (`WhiteBalanced`) and its properties.
- `demosaic.dfy` (`DemosaicStage`): the neighbour list, the colour filter of `pick_color`, and the
  relational description of a demosaiced image (`Debayered`). It also holds the loop invariant
  `Progress` and lemmas about a flat scene.
- `image.dfy` (`BayerRgb`): the `Image` class (sensor plane) with the in-place methods `Crop`,
  `WhiteBalanceByColor` and `WhiteBalanceByOrdinal`, and `Debayer`, which leaves the plane untouched
  and builds a fresh output image; `PickColor`; the output class `LinRgbImage`.
- `rggb.dfy` (`Rggb`): the usual RGGB layout, shown to meet the demosaic engine's precondition for
  every plane size, and a worked flat 4 x 4 scene.

Each imperative method is proved against a specification function or predicate:
- `Crop` against `Cropped` and `Shift`;
- both white-balance methods against `WhiteBalanced`;
- `Debayer` against `Debayered`.

The properties are then proved about those functions.

The sample arithmetic of white balance is a parameter `scale: (T, real) -> T`. It stands for the
`f32` multiply, followed, for integer samples, by the cast back. The random bytes are a parameter
`bytes: nat -> Byte` of `Debayer`: the n-th draw yields `bytes(n)`.

The intended behaviour of crop is to check `left + right < width` and `top + bottom < height`
first, and to fail with an `InvalidCropRect` error, leaving the image untouched, when the margins do
not fit. The code implements no such check: it subtracts unchecked (`bayerrgb.rs:21-22`). The model
follows the code. `Crop` requires the margins to fit (`<=`, so an empty result is allowed) and has
no error path.

Likewise, an Emerald photosite is meant to be an `UnsupportedFilterColor` error. The `f32` and `u8`
white-balance impls, `debayer` and `rgb_index` have `unreachable!()` there instead, and the model makes
Emerald a precondition of those (`ThreeColor`). The `u16` white-balance impl has no Emerald case at
all: it indexes the coefficients by the raw colour ordinal, and the model follows it (see
`WhiteBalanceByOrdinal`).

## Model

| member | source | states |
|---|---|---|
| Colors.FromOrdinal | rawproc/src/image/bayerrgb.rs:185-195 | ordinals 0, 1, 2, 3 map to Red, Green, Blue, Emerald: the result is Emerald exactly for 3, and otherwise its RGB index is the ordinal itself |
| Colors.RgbIndex | rawproc/src/image/bayerrgb.rs:174-183 | every colour other than Emerald has an RGB channel index below 3 |
| Colors.OrdinalRoundTrip | rawproc/src/image/bayerrgb.rs:174-195 | for ordinals below 3, `rgb_index(from(i)) == i`; and for every non-Emerald colour, `from(rgb_index(c)) == c` |
| Cfa.Cfa.ColorAt | rawproc/src/image/bayerrgb.rs:44 | the colour ordinal at (x, y) is an entry of the tile, below 4, and below 3 when the tile has no Emerald |
| Cfa.Cfa.Shift | rawproc/src/image/bayerrgb.rs:40 | the shifted pattern is well formed, keeps the three-colour property, and reads at (x, y) what the old pattern read at (x + left, y + top), for every (x, y) |
| Cfa.ShiftTwice | rawproc/src/image/bayerrgb.rs:40 | a property of the model's tile abstraction, not something the source relies on (it shifts once per crop): shifting by (l1, t1) and then by (l2, t2) is one shift by (l1 + l2, t1 + t2) |
| Cfa.ColorAtPeriodic | rawproc/src/image/bayerrgb.rs:44 | a property of the model's tile abstraction, not something the source relies on: the pattern repeats with the tile's width horizontally and its height vertically |
| Cfa.ColorAtIndex | rawproc/src/image/bayerrgb.rs:43-45 | `color_at_i` never yields Emerald on a three-colour pattern |
| Cfa.ColorAtIndexOfPixel | rawproc/src/image/bayerrgb.rs:43-45 | at flat index y * width + x, `color_at_i` reports the colour of pixel (x, y): the index splits back into column i % width and row i / width |
| CropStage.CropRows | rawproc/src/image/bayerrgb.rs:28-34 | after `rows` iterations the appended image holds exactly rows * new_width samples |
| CropStage.CropRowsAt | rawproc/src/image/bayerrgb.rs:28-34 | sample (x, y) of the appended rows is source sample (x + left, y + top), and both indices are in bounds |
| CropStage.Cropped | rawproc/src/image/bayerrgb.rs:21-34 | the cropped plane holds new_width * new_height samples, with new_width = width - (left + right) and new_height = height - (top + bottom) |
| CropStage.CroppedAt | rawproc/src/image/bayerrgb.rs:28-34 | `new_data[y * new_width + x] == old_data[(y + top) * width + (x + left)]` for every pixel of the new plane |
| CropStage.CroppedKeepsColors | rawproc/src/image/bayerrgb.rs:39-44 | after the crop, `color_at_i` on the shifted pattern gives every kept sample the colour its source position had before the crop |
| BayerRgb.CropPlane | rawproc/src/image/bayerrgb.rs:27-34 | the row loop builds exactly the cropped plane |
| BayerRgb.Image.Crop | rawproc/src/image/bayerrgb.rs:14-41 | with no rectangle, returns with width, height, data and metadata unchanged; otherwise the new dimensions, a fresh plane equal to the cropped one, the rectangle cleared and the pattern shifted by (left, top), other metadata kept; in both cases the crop field is absent afterwards, so a second crop is a no-op |
| WhiteBalanceStage.WhiteBalanced | rawproc/src/image/bayerrgb.rs:109-151 | balancing keeps the length of the plane |
| WhiteBalanceStage.ThreeColorIndexes | rawproc/src/image/bayerrgb.rs:113-117 | on a pattern without Emerald, three coefficients index every colour ordinal the pattern yields |
| WhiteBalanceStage.WhiteBalancedAt | rawproc/src/image/bayerrgb.rs:112-118 | the new sample at (x, y) depends only on the old sample there and on `wb[ordinal]`: wb[3] for an Emerald photosite, and on a three-colour pattern wb[0], wb[1] or wb[2] for a Red, Green or Blue photosite, which is what the match selects |
| WhiteBalanceStage.WhiteBalanceTwice | rawproc/src/image/bayerrgb.rs:110-120 | balancing is cumulative: a second pass applies the pixel's coefficient again, giving `scale(scale(v, k), k)` |
| WhiteBalanceStage.WhiteBalanceIdentity | rawproc/src/image/bayerrgb.rs:110-120 | when every coefficient leaves every sample unchanged, balancing leaves the whole plane unchanged |
| BayerRgb.Image.WhiteBalanceByColor | rawproc/src/image/bayerrgb.rs:109-121 | the `f32` impl (and the `u8` impl at lines 139-151, the same code with a cast): the plane in place becomes the balanced plane of the old one, each sample scaled by the coefficient its colour selects through the match |
| BayerRgb.Image.WhiteBalanceByOrdinal | rawproc/src/image/bayerrgb.rs:123-137 | the `u16` impl, which has no match and indexes the coefficients by the raw colour ordinal (an Emerald photosite is scaled by wb[3]): the plane in place becomes the balanced plane of the old one. It needs only that every ordinal of the pattern indexes the coefficients, not `ThreeColor`; on a three-colour pattern it computes the same plane as the match-based impls |
| DemosaicStage.Neighbours | rawproc/src/image/bayerrgb.rs:54-73 | eight candidates, one per offset, each a true 8-neighbour paired with its own filter colour |
| DemosaicStage.NeighboursComplete | rawproc/src/image/bayerrgb.rs:54-58 | every 8-neighbour of (x, y) is among the candidates |
| DemosaicStage.Filter | rawproc/src/image/bayerrgb.rs:158-159 | the filtered list holds exactly the candidates of the requested colour, and no more than the input |
| DemosaicStage.CandidateOfColor | rawproc/src/image/bayerrgb.rs:158-160 | at an interior pixel lacking colour k, the candidate list has an entry of colour k, so the filtered list `pick_color` draws from is not empty |
| BayerRgb.PickColor | rawproc/src/image/bayerrgb.rs:153-164 | returns the coordinates of a candidate of the requested colour, namely entry `byte % len` of the filtered list, and draws exactly one byte |
| Random.RollingRandom.constructor | rawproc/src/image/bayerrgb.rs:51 | a sampler over the given stream with nothing drawn yet |
| Random.RollingRandom.RandomU8 | rawproc/src/image/bayerrgb.rs:160 | yields the next byte of the stream and advances it by one |
| BayerRgb.Image.Get | rawproc/src/image/bayerrgb.rs:60 | the raw sample of pixel p, read row-major at p.1 * width + p.0 |
| BayerRgb.Image.Set | rawproc/src/image/bayerrgb.rs:61-63 | writes v to slot (y * width + x) * 3 + rgb_index(clr) and to nothing else |
| BayerRgb.Image.DrawnNeighbour | rawproc/src/image/bayerrgb.rs:79-80 | the raw sample at a candidate of colour k is a valid neighbour sample for channel k |
| BayerRgb.Image.Interpolate | rawproc/src/image/bayerrgb.rs:79-80 | `set(x, y, clr, get(pick_color(...)))` for a colour the pixel lacks: the channel afterwards holds the raw sample of some 8-neighbour of that colour, and nothing else changes |
| BayerRgb.Image.ReconstructPixel | rawproc/src/image/bayerrgb.rs:75-95 | an interior pixel's native channel holds its own sample exactly, and each other channel holds the sample of a neighbour of that colour; only the pixel's three slots change |
| BayerRgb.Image.ReconstructRedSite | rawproc/src/image/bayerrgb.rs:77-81 | the Red arm, in its own order of writes, reconstructs the pixel |
| BayerRgb.Image.ReconstructBlueSite | rawproc/src/image/bayerrgb.rs:83-87 | the Blue arm, in its own order of writes, reconstructs the pixel |
| BayerRgb.Image.ReconstructGreenSite | rawproc/src/image/bayerrgb.rs:89-93 | the Green arm, in its own order of writes, reconstructs the pixel |
| BayerRgb.Image.DebayerColumn | rawproc/src/image/bayerrgb.rs:68-96 | the inner loop reconstructs every interior pixel of column x and keeps the earlier columns and the ring |
| BayerRgb.LinRgbImage.constructor | rawproc/src/image/bayerrgb.rs:99-105 | the output image holds three interleaved samples per pixel (`Valid`) and the given width, height, metadata and buffer |
| BayerRgb.Image.Debayer | rawproc/src/image/bayerrgb.rs:47-106 | a fresh, valid image of the same width, height and metadata, with width * height * 3 samples: every interior pixel reconstructed, every pixel of the outer ring holding data[0] in all three channels |
| DemosaicStage.ProgressStart | rawproc/src/image/bayerrgb.rs:48 | the buffer filled with data[0] has every pixel filled and none yet reconstructed |
| DemosaicStage.ProgressStep | rawproc/src/image/bayerrgb.rs:68-96 | reconstructing pixel (x, y) advances the scan by one position without disturbing any other pixel |
| DemosaicStage.ProgressColumn | rawproc/src/image/bayerrgb.rs:67-68 | finishing a column's interior rows moves the scan to the top of the next column |
| DemosaicStage.ProgressDone | rawproc/src/image/bayerrgb.rs:67-97 | once the column loop ends, the buffer is a demosaiced image of the plane |
| DemosaicStage.ChannelOfFlatScene | rawproc/src/image/bayerrgb.rs:75-93 | over a plane of equal samples, every reconstructed channel holds that sample |
| DemosaicStage.FlatSceneDebayered | rawproc/src/image/bayerrgb.rs:47-106 | a flat scene demosaics to a flat image: every channel of every pixel holds the scene's value, whichever neighbours are drawn |
| Rggb.RggbColorAt | rawproc/src/image/bayerrgb.rs:75 | on the RGGB tile, the colour depends only on the parities of x and y |
| Rggb.RggbCoveredAt | rawproc/src/image/bayerrgb.rs:69-80 | on the RGGB tile, every pixel has a neighbour of each colour it lacks |
| Rggb.RggbCovers | rawproc/src/image/bayerrgb.rs:67-80 | the RGGB tile meets the demosaic precondition for every plane size, so `pick_color` never sees an empty list |
| Rggb.FlatRggbScene | rawproc/src/image/bayerrgb.rs:47-106 | every demosaiced image of a 4 x 4 RGGB plane of 100s has 48 samples that are all 100 |
| Rggb.DebayerFlatRggb | rawproc/src/image/bayerrgb.rs:47-106 | the engine itself, run on a 4 x 4 RGGB image of 100s, returns a 4 x 4 image in which every pixel holds 100 in all three channels, so all 48 samples are 100, whatever bytes the sampler yields |
| Rggb.FilledEverySample | rawproc/src/image/bayerrgb.rs:48 | in a 4 x 4 output image, the 16 pixels' three slots are all 48 samples of the buffer |

## Left out

- `rawproc-dev/src/main.rs` is not part of this model. It consists of:
  - argument parsing and file I/O;
  - the decoder, the resizer and the PNG encoder;
  - the 8-bit normalisation;
  - the wall-clock profiler;
  - the unfinished `float2rgbe`.
- WhiteBalanceByColor: the IEEE `f32` multiply and the saturating `as u8`/`as u16` casts are the opaque parameter `scale`. Nothing about rounding, NaN or saturation is modelled.
- WhiteBalanceByColor: it models the `f32` and the `u8` impls together. They differ only in the cast, which `scale` covers.
- RollingRandom: its generator is not shown. The model yields an arbitrary given stream of bytes and promises nothing about the distribution or reproducibility of the draws.
- Cfa.Cfa.ColorAt: the CFA type is not shown. The model is a minimal tile lookup with an accumulated shift and claims nothing further about its algorithm.
- Debayer: its requires `ThreeColor` stands for the `unreachable!()` on Emerald. The requires `NeighboursCover` stands for the divide-by-zero panic in `pick_color` when no neighbour has the needed colour. The code does not check either condition, and the model has no path for these panics.
- Debayer: its requires `data.Length > 0` stands for the index panic of `self.data[0]` on an empty plane (`bayerrgb.rs:48`). That panic comes before the `self.width - 1` underflow at line 67, which the same requires also rules out.
- WhiteBalanceByOrdinal: the `u16` impl has no Emerald arm. It reads `wb[ordinal]` for every photosite, so an Emerald photosite is scaled by `wb[3]`, or the index panics when there are only three coefficients. The coefficient array's type is not part of this model. The model's requires `Indexes` (every ordinal of the pattern indexes the coefficients) stands for that index panic. It does not ask for `ThreeColor`, which only the match-based impls need.
- ColorAtIndex: its requires `width > 0` stands for the `i % self.width` remainder-by-zero panic on a zero-width plane (`bayerrgb.rs:44`).
- FromOrdinal: values above 3, which panic in `From<usize>`, are excluded by its precondition.
- PickColor: the `colors.len() as u8` cast would wrap with 256 or more candidates. Its precondition therefore asks for fewer than 256, and the demosaic engine always passes 8.
- Debayer: it consumes `self` in the code. The model leaves the sensor-plane object in place and allocates a fresh output, and it does not model Rust ownership.
- Crop: the code builds one `Vec` with `extend_from_slice`. The model builds the same sequence row by row in `CropPlane` and then allocates the new array. Capacity reservation is not modelled.
- Crop: it does not model the intended `InvalidCropRect` failure for margins that do not fit. The code has no such check; its precondition is the one the unchecked subtractions need.
- The `Image` type's colour-space tag is modelled as two classes (`Image`, `LinRgbImage`). The hand-off to later colour-space stages is not part of this model.
