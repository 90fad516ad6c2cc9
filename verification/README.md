# Skia GPU Gaussian blur: planning and geometry

This project models the integer geometry and the planning logic of Skia's GPU separable
Gaussian blur (`src/core/SkGpuBlurUtils.cpp`). The GPU work is not modelled. What is modelled
is the logic that decides it:

- how `adjust_sigma` trades a large sigma for a power-of-two downscale factor;
- how `decimate` rounds the source out to the factors and halves it round by round;
- how `convolve_gaussian` splits a pass target into cleared bands, clamped margins and an
  unclamped middle;
- how `reexpand` clears a border and scales the shrunk image back up;
- how `GaussianBlur` chooses between the fused 2-D kernel and the separable pipeline, which
  render target gets the caller's backing fit, and how it threads the source rectangle, the
  offset and the content bounds from stage to stage.

The renderer (the render target context factory and the draws issued through it) is the class
`RenderTrace.Renderer`. It records every operation it is asked for in a trace `ops`: allocation,
failed allocation, clear, absolute clear, and the two kinds of rectangle fill with a paint.
Whether an allocation succeeds is decided by a fixed set of failing attempt numbers. The
renderer counts its attempts. Its invariant `Valid` says that the trace accounts for every
attempt: the attempt numbered n (from 0) is recorded as a failed allocation iff n is a failing
number. Every stage keeps this invariant. A stage that allocates succeeds exactly when none of
the attempts it made is a failing one. A stage that only draws makes no attempt. So on a renderer
with no failing attempts, `GaussianBlur` produces its result whenever the blur runs.

Each stage is an imperative method. It is proved to extend the trace by an operation-list
function: `ConvolveOps`, `Convolve2DOps`, `DecimateOps`, `ReexpandOps` or `BlurOps`. If an
allocation fails, the trace instead stops with that failed allocation and the stage returns
`None`. The properties of the blur are lemmas about these functions:

- the pass partitions;
- the halo strips;
- the allocated targets and their fits;
- every destination pixel is written exactly once into the result target.

The modules follow the source file:

- `Powers`: powers of two.
- `Geometry`: `SkIRect` and the three rectangle helpers.
- `SigmaPlanner`: `adjust_sigma`.
- `PixelConfigs`: `get_blur_config`.
- `RenderTrace`: the renderer.
- `Convolver`: `convolve_gaussian_1d`, `convolve_gaussian` and `convolve_gaussian_2d`.
- `Decimator`: `decimate`.
- `Reexpander`: `reexpand`.
- `Blur`: `GaussianBlur`.

Two behaviours of the code worth noting:

- When doubling the scale factor would exceed `maxTextureSize`, `adjust_sigma` sets the factor
  to `maxTextureSize` itself and sigma to 4. It does not keep the factor times any image
  dimension within the limit.
- `decimate`'s `willBeYFiltering` argument is never read. The halo strip is chosen from
  `willBeXFiltering` alone: right of the content when X filtering follows, otherwise below it.
  Each case applies only when that axis's factor exceeds 1.

## Model

| member | source | states |
|---|---|---|
| Geometry.ScaleIRectRoundOut | src/core/SkGpuBlurUtils.cpp:27-32 | The result is the floor/ceil division of the edges by the factors. Each edge of the input lies within one factor of the scaled-back result edge, on the outer side. |
| Geometry.ScaleIRect | src/core/SkGpuBlurUtils.cpp:34-39 | Multiplies left/right by xScale and top/bottom by yScale. For positive factors, rounding the result out by the same factors gives back the input. |
| Geometry.ShrinkIRectBy2 | src/core/SkGpuBlurUtils.cpp:45-56 | Requires even edges on the selected axes. Halves exactly those edges and leaves the other axis unchanged. |
| Geometry.RoundOutCovers | src/core/SkGpuBlurUtils.cpp:268-269 | Rounding out and then scaling back gives a rectangle that contains the original. Its X edges are multiples of scaleFactorX and its Y edges multiples of scaleFactorY. It exceeds the original by less than one factor per edge. |
| Geometry.RoundOutOfScaled | src/core/SkGpuBlurUtils.cpp:268-269 | Dividing a scaled rectangle by the same positive factors gives back the rectangle. |
| Geometry.HalvedOfDoubled | src/core/SkGpuBlurUtils.cpp:275-276 | A rectangle scaled by a doubled factor has even edges on that axis, and halving them gives the rectangle scaled by the undoubled factor. This is why every shrink in the decimation loop sees even edges. |
| SigmaPlanner.AdjustSigma | src/core/SkGpuBlurUtils.cpp:58-71 | The loop computes the planner's result. The returned sigma is at most 4. A sigma of at most 4 comes back unchanged with factor 1. For maxTextureSize >= 1 the factor is in [1, maxTextureSize] and the radius is at most 12. |
| SigmaPlanner.CeilBounds | src/core/SkGpuBlurUtils.cpp:68 | The radius computation is a true ceiling: x <= ceil(x) < x + 1. |
| SigmaPlanner.PlanBounds | src/core/SkGpuBlurUtils.cpp:58-68 | Sigma is at most 4. The factor is in [1, maxTextureSize]. The radius is ceil(3 sigma) and at most 12. A sigma of at most 4 is unchanged with factor 1, and a larger one comes back above 2. The returned sigma is positive iff the requested one is. |
| SigmaPlanner.PlanScaling | src/core/SkGpuBlurUtils.cpp:59-67 | For 2^k <= maxTextureSize < 2^(k+1): above 4 * 2^k the clamp fires, so the factor is maxTextureSize and sigma is exactly 4. Otherwise the factor is a power of two at most 2^k and sigma times the factor equals the input sigma. |
| SigmaPlanner.PlanFactorIsPow2 | src/core/SkGpuBlurUtils.cpp:59-67 | With a power-of-two maxTextureSize every factor the planner returns is a power of two, as decimate requires. |
| SigmaPlanner.PlanMonotone | src/core/SkGpuBlurUtils.cpp:59-67 | A larger sigma never gets a smaller scale factor. |
| PixelConfigs.GetBlurConfig | src/core/SkGpuBlurUtils.cpp:96-114 | Without a colour space the result is never sRGB. The result differs from the input only for an sRGB input without a colour space, and is then RGBA 8888. A blurrable configuration stays blurrable. |
| PixelConfigs.BlurConfigIdempotent | src/core/SkGpuBlurUtils.cpp:96-114 | Choosing again from a surface of the chosen configuration keeps it, as decimate and reexpand do. |
| RenderTrace.ModeForScaling | src/core/SkGpuBlurUtils.cpp:393-395 | The scaling mode is never Repeat: Decal in place of Repeat, the mode itself otherwise. |
| RenderTrace.Renderer.MakeRenderTarget | src/core/SkGpuBlurUtils.cpp:173-180 | Succeeds iff this attempt is not a failing one. Records the allocation or the failed allocation, counts the attempt, and keeps the trace accounting for every attempt. |
| RenderTrace.AccountedMeans | src/core/SkGpuBlurUtils.cpp:173-180 | The renderer's invariant means exactly this: the trace records as many allocation attempts as were counted, and the one numbered n succeeded iff n is not a failing number. |
| RenderTrace.AbortExplained | src/core/SkGpuBlurUtils.cpp:173-180 | A stage that was cut short made at least one attempt, and its last attempt is a failing one. So a stage during which no attempt fails is never cut short. |
| RenderTrace.Renderer.ClearRect | src/core/SkGpuBlurUtils.cpp:219-226 | Records one clear of the rectangle and nothing else. |
| RenderTrace.Renderer.AbsClearRect | src/core/SkGpuBlurUtils.cpp:367-370 | Records one absolute clear of the rectangle and nothing else. |
| RenderTrace.Renderer.FillRectWithLocalMatrix | src/core/SkGpuBlurUtils.cpp:91-92 | Records one fill of the rectangle within the clip, sampling through the offset. |
| RenderTrace.Renderer.FillRectToRect | src/core/SkGpuBlurUtils.cpp:416-417 | Records one fill mapping the source rectangle onto the destination rectangle within the clip. |
| Convolver.ConvolveGaussian1D | src/core/SkGpuBlurUtils.cpp:73-94 | Appends exactly one 1-D convolution fill of dstRect with the given mode and bounds, and makes no allocation attempt. |
| Convolver.SplitTarget | src/core/SkGpuBlurUtils.cpp:193-217 | Computes the band rectangles and the axis bounds for either direction. |
| Convolver.ClearOutside | src/core/SkGpuBlurUtils.cpp:219-226 | Appends a clear of each of the two cross-axis bands that is not empty. |
| Convolver.FillBand | src/core/SkGpuBlurUtils.cpp:228-241 | Appends one domain-mode fill of the band when the middle is empty. Otherwise appends the two margins with the domain mode and the middle in Ignore mode. |
| Convolver.ConvolveWithDomain | src/core/SkGpuBlurUtils.cpp:193-241 | Appends exactly the clears and fills of a pass with a content domain, and makes no allocation attempt. |
| Convolver.ClearsPartition | src/core/SkGpuBlurUtils.cpp:196-226 | A target pixel is cleared exactly once iff it lies outside the content band across the pass axis, and never otherwise. |
| Convolver.BandPartition | src/core/SkGpuBlurUtils.cpp:201-231 | With an empty middle the band is exactly the pixels within the content across the axis, and no such pixel has its whole kernel inside the content. |
| Convolver.MarginsPartition | src/core/SkGpuBlurUtils.cpp:201-241 | The margins and the middle are pairwise disjoint and together tile the band. The middle is exactly the band pixels whose whole kernel lies inside the content. |
| Convolver.BandCovers | src/core/SkGpuBlurUtils.cpp:228-231 | The single band fill writes each band pixel once, with the domain mode, and nothing outside the band. |
| Convolver.MarginsCover | src/core/SkGpuBlurUtils.cpp:232-241 | The three fills write each band pixel once: the middle in Ignore mode, the margins in the domain mode. |
| Convolver.PassPartition | src/core/SkGpuBlurUtils.cpp:184-241 | Every pixel of the pass target is written exactly once. In Ignore mode it is convolved unclamped. Otherwise a pixel outside the content band is only cleared, and a band pixel is convolved unclamped iff its whole kernel lies in the content, else with the domain mode. |
| Convolver.ConvolveAllocates | src/core/SkGpuBlurUtils.cpp:174-178 | A 1-D pass allocates exactly one target: srcRect's size, the caller's fit, the blur configuration. |
| Convolver.ConvolveCovers | src/core/SkGpuBlurUtils.cpp:157-244 | Whatever came before, after a 1-D pass every pixel of its target has been written exactly once since the allocation. |
| Convolver.ConvolveGaussian | src/core/SkGpuBlurUtils.cpp:157-244 | Allocates a srcRect-sized target with the caller's fit in the blur configuration, then runs the pass. Returns None, with no later operation, when the allocation fails, which happens iff its attempt is a failing one. |
| Convolver.Convolve2DAllocates | src/core/SkGpuBlurUtils.cpp:130-136 | The fused pass allocates exactly one destination-sized target with the caller's fit. |
| Convolver.Convolve2DCovers | src/core/SkGpuBlurUtils.cpp:138-152 | After the fused pass every destination pixel has been written exactly once since the allocation, by the 2-D kernel. |
| Convolver.ConvolveGaussian2D | src/core/SkGpuBlurUtils.cpp:116-155 | Allocates the destination-sized target and fills it with one 2-D convolution. Returns None iff its allocation attempt is a failing one. |
| Decimator.HalvingStep | src/core/SkGpuBlurUtils.cpp:275-276 | In round k the current rectangle has even edges on the axes still being halved, and halving it leaves it scaled by the remaining factors. |
| Decimator.StepsShape | src/core/SkGpuBlurUtils.cpp:275-312 | There are max(log2 sfx, log2 sfy) rounds of an approximate-fit allocation in the blur configuration followed by one resampling fill. Only the very first fill reads through the content domain, only when the mode is not Ignore, and then in the scaling mode: Decal in place of Repeat. |
| Decimator.StepsEnd | src/core/SkGpuBlurUtils.cpp:275-328 | The last round allocates a target reaching exactly to the rounded-out rectangle's right and bottom edges, and fills exactly that rectangle. |
| Decimator.HaloBesideContent | src/core/SkGpuBlurUtils.cpp:332-348 | At most one strip is cleared: right of the content when X filtering follows and sfx > 1, below it when it does not and sfy > 1, else none. The strip shares no pixel with the content, and together they form the content widened (or lengthened) by the radius. |
| Decimator.DecimateAllocations | src/core/SkGpuBlurUtils.cpp:275-287 | Decimation allocates one target per round, max(log2 sfx, log2 sfy) in all, each approximate-fit in the blur configuration. |
| Decimator.HalvingRound | src/core/SkGpuBlurUtils.cpp:276-325 | One round halves the due axes, allocates a target up to the halved rectangle's right and bottom edges, and fills it. In the first round, when the mode is not Ignore, it reads through the content domain and consumes the offset. |
| Decimator.HalvingRounds | src/core/SkGpuBlurUtils.cpp:275-326 | The loop performs the planned rounds. On success the final rectangle is the rounded-out one, the last target reaches its edges, and the offset is consumed unless the mode is Ignore. |
| Decimator.Decimate | src/core/SkGpuBlurUtils.cpp:246-351 | On success the new content rectangle is the source rectangle rounded out to the factors. The offset becomes (0, 0), or is unchanged in Ignore mode. The result is the last approximate-fit target. A failed allocation returns None and stops the trace; that happens iff one of its attempts is a failing one. |
| Reexpander.EdgeClearsBorder | src/core/SkGpuBlurUtils.cpp:364-370 | The two clears write each pixel of the one-pixel border right of and below the source exactly once, and no pixel of the source. |
| Reexpander.ReexpandAllocates | src/core/SkGpuBlurUtils.cpp:381-386 | Re-expansion allocates exactly one destination-sized target with the caller's fit. |
| Reexpander.ReexpandCovers | src/core/SkGpuBlurUtils.cpp:412-417 | For a source of ceil(W/sx) x ceil(H/sy), the scaled-up source covers the W x H destination and overshoots by less than one factor per axis. Every destination pixel is written once. |
| Reexpander.Reexpand | src/core/SkGpuBlurUtils.cpp:354-420 | Clears the border, allocates the destination-sized target in the blur configuration, and fills it with the source scaled by the factors. Returns None iff its allocation attempt is a failing one. |
| Blur.SeparablePlan | src/core/SkGpuBlurUtils.cpp:445-450 | With a power-of-two maximum texture size each planned factor is a power of two and exceeds 1 only for a positive sigma. The planned sigma is positive iff the requested one is. |
| Blur.FusedIsUnscaled | src/core/SkGpuBlurUtils.cpp:456-459 | When the fused path is taken, both scale factors are 1. |
| Blur.XPass | src/core/SkGpuBlurUtils.cpp:487-517 | The X pass, then a clear of radiusY rows below its output when a Y pass follows. The Y pass then reads from the origin with the content bounds inset by radiusY in Clamp mode. |
| Blur.YPass | src/core/SkGpuBlurUtils.cpp:519-534 | The Y pass over the X output, or over srcRect at the original offset when there was no X pass. |
| Blur.SeparablePasses | src/core/SkGpuBlurUtils.cpp:485-534 | Runs the passes whose sigma is positive. The result is the last pass's target with its fit. There is no result when neither sigma is positive. |
| Blur.DecimatedPasses | src/core/SkGpuBlurUtils.cpp:474-534 | Decimation, then the passes over the destination bounds rounded out to the factors, reading the rounded-out content. |
| Blur.DownscaledBlur | src/core/SkGpuBlurUtils.cpp:474-543 | Decimation, the passes with approximate fit, and re-expansion with the caller's fit. On success the result is destination-sized. |
| Blur.SeparableBlur | src/core/SkGpuBlurUtils.cpp:466-545 | The downscaled pipeline when a factor exceeds 1. Otherwise the passes, with the caller's fit on the Y pass when sigmaY > 0, else on the X pass. |
| Blur.PlannedBlur | src/core/SkGpuBlurUtils.cpp:454-545 | The fused 2-D pass when fused holds, the separable pipeline otherwise. |
| Blur.GaussianBlur | src/core/SkGpuBlurUtils.cpp:424-546 | Gives up with no operation when the blur configuration has no colour type. Otherwise performs BlurOps, cut short at a failed allocation. It completes iff none of its allocation attempts is a failing one. On success the result is a destination-sized target in the blur configuration with the caller's fit. |
| Blur.BlurWithoutFailures | src/core/SkGpuBlurUtils.cpp:424-546 | On a renderer none of whose allocations fail, GaussianBlur performs exactly BlurOps. It produces the destination-sized target with the caller's fit iff the configuration has a colour type and a sigma is positive. |
| Blur.PassesAllocate | src/core/SkGpuBlurUtils.cpp:485-534 | The passes allocate one srcRect-sized target per positive sigma: the X pass's with xFit, the Y pass's with yFit. No pass runs iff neither sigma is positive. |
| Blur.UnscaledAllocations | src/core/SkGpuBlurUtils.cpp:466-472 | Without downscaling, all targets but the last are approximate-fit and the last one is destination-sized with the caller's fit. |
| Blur.DownscaledAllocations | src/core/SkGpuBlurUtils.cpp:466-543 | With downscaling, every decimation and pass target is approximate-fit in the blur configuration, and the re-expansion target comes last with the caller's fit. |
| Blur.PlannedAllocations | src/core/SkGpuBlurUtils.cpp:454-545 | Once planned, nothing is done iff neither sigma is positive. Otherwise only the last target allocated gets the caller's fit and the destination's size, and all earlier ones are approximate. |
| Blur.BlurAllocations | src/core/SkGpuBlurUtils.cpp:424-546 | GaussianBlur does nothing iff it gives up. Otherwise only the result target, the last one allocated, receives the caller's fit. Every intermediate is approximate-fit in the blur configuration. |
| Blur.YPassCovers | src/core/SkGpuBlurUtils.cpp:519-534 | After the Y pass over the destination every pixel of its target has been written exactly once. |
| Blur.PassesCover | src/core/SkGpuBlurUtils.cpp:485-534 | Without downscaling, after the passes every destination pixel of the last target has been written exactly once. |
| Blur.DownscaledCovers | src/core/SkGpuBlurUtils.cpp:474-543 | With downscaling, after re-expansion every destination pixel of the result has been written exactly once. |
| Blur.PlannedCovers | src/core/SkGpuBlurUtils.cpp:454-545 | Whichever path is taken, every destination pixel of the result has been written exactly once since it was allocated. |
| Blur.BlurCoversResult | src/core/SkGpuBlurUtils.cpp:424-546 | When GaussianBlur produces a result, every pixel of the destination bounds is written exactly once into the result target. |

## Left out

- GPU plumbing is reduced to the recorded operation trace: texture proxies, reference counting, clips as objects, paints, and the Porter-Duff mode.
- Pixel values are not modelled. The Gaussian kernel weights live in `GrGaussianConvolutionFragmentProcessor`, `GrMatrixConvolutionEffect` and `GrTextureDomainEffect`, which are not part of this model. A fill records only its rectangles, mode, bounds and radius.
- Gamma correction and colour spaces are left out, except for the colour-space flag that `get_blur_config` reads.
- Floating point is not modelled. Sigma is a real, so halving is exact. The round-out by `1/scaleFactor` is exact integer floor and ceiling division; for power-of-two factors this agrees with the float computation on ordinary sizes.
- `MAX_KERNEL_SIZE`, the device's `maxTextureSize` and whether `GrPixelConfigToColorType` succeeds are parameters (`Blur.Caps`), since they are defined outside this file.
- `Blur.GaussianBlur`: requires `maxTextureSize` to be a power of two. `decimate` asserts power-of-two factors, and the clamp in `adjust_sigma` can set the factor to `maxTextureSize` itself.
- `SigmaPlanner.AdjustSigma`: the assertion against `kMaxKernelRadius` is left out. Its value is defined elsewhere; the model proves the radius is at most 12 instead.
- `asTextureProxyRef` is taken to succeed. Its failure paths (returning null after a successful draw) are not modelled.
- The source asserts that at least one adjusted sigma is non-zero. For two non-positive sigmas the model returns no target without any operation, which is what the code does when the assertion is compiled out.
- Allocation failure is modelled by a fixed set of failing attempt numbers. This is an oracle, not a model of memory.
- `Blur.FusedIsUnscaled`: proved only for a `MAX_KERNEL_SIZE` below 45 taps. The source merely asserts this, and the claim depends on that constant's value.
- `Blur.BlurCoversResult`: requires `srcBounds` to have left <= right and top <= bottom, as for any sorted `SkIRect`. Pixel coverage is not claimed for inverted content bounds.
- Integer overflow of `int` rectangle edges and of the scale-factor doubling is not modelled. Integers are unbounded.
- tests/AnimatedImageTest.cpp and tools/fonts/SkRandomScalerContext.cpp are not part of this model. They are a codec test harness and a font scaler proxy, unrelated to the blur.
