# noise — a Dafny model of the noise-generation core

This project models the core of `noise`, a Rust library of coherent-noise generators. It covers:

- **The integer hash noise `DefaultI32Noise`.** This is libnoise's integer noise function on 32-bit arithmetic, modelled on `bv32` with the wrap-around of release builds.
- **The trivial generators.** `ConstantNoise`, `NoOpNoise` and `UnboxNoise`.
- **The interpolators.** `LinearInterpolator`, `PerlinInterpolator` (the smoothstep `3p² − 2p³`) and their laws, plus `sawtooth`.
- **Lattice interpolation.**
  - `InterpolatedNoise` works on one axis.
  - `InterpolatedNoise2D` is gradient noise over an abstract gradient field.
  - The older `SmoothNoise1D` / `SmoothNoise2D` generators use pseudo-random base values at the lattice points.
- **The octave sums.** `PerlinNoise` and `PerlinNoise1D`.
- **The combinators.** `OutputOp`, `InputOp`, `CombinedNoise` and `CombinedNoise2`, and how they nest over the lattice generators.

A generator is modelled as a Dafny function value `In --> Out`. It may be partial: its `requires` names the positions it can be asked at, such as those of a lattice generator whose cell index fits an `i32`. The interface promises that the value at a position never changes, and a function value gives that by construction. A generator with parameters is a datatype with a `Value` member. That member is a function, except for `CombinedNoise`, `PerlinNoise` and `PerlinNoise1D`, whose `Value` is a method with the source's loop. The combinators take any function-valued generator as a source, partial ones included, and are defined exactly where their sources are.

The loops of the source are methods proved against specification functions, and the properties are proved about those functions:

- The left fold of `CombinedNoise::value` is proved against `Reduce`.
- The accumulation loops of `PerlinNoise::value` and `PerlinNoise1D::value` are proved against `Sum`.

All floating-point values are Dafny `real`s. The `as i32` casts of a floor (src/noise_1d.rs:25, src/noise_2d.rs:36, src/interpolated_noise.rs:100-102) and `float_to_i32` (src/interpolated_noise.rs:9) become the precondition that the floor is in the `i32` range. Outside that range `float_to_i32` panics. An `as i32` cast never panics: it was undefined behaviour before Rust 1.45 and saturates since.

All `i32` arithmetic wraps around in two's complement, as in release builds. The successor of a lattice index, `a + 1`, is `Int32.WrappingIncrement`. The products and sums of the hash noise are written on `bv32`.

The pseudo-random generator seeded with `[seed, index]` is not part of this model; neither is the `Closed01` sample it draws. It is a parameter `rng` of the generator, returning a value in [0, 1]. Because `index as u32` is one-to-one on `i32`, it is keyed by the lattice index itself.

Module layout (one file each):

- `Int32` (`int32.dfy`)
- `DefaultNoise` (`default_noise.dfy`)
- `Interpolate` (`interpolate.dfy`)
- `Lattice` (`lattice.dfy`): one-axis lattice interpolation over abstract base values, and its Lipschitz bound.
- `Interpolated` (`interpolated_noise.dfy`)
- `Combined` (`combined_noise.dfy`)
- `Output` (`output_op.dfy`)
- `Input` (`input_op.dfy`)
- `Sums` (`sums.dfy`)
- `Perlin` (`perlin.dfy`)
- `Noise1D` (`noise_1d.dfy`)
- `Noise2D` (`noise_2d.dfy`)
- `Pipeline` (`pipeline.dfy`): combinators over the partial lattice generators.

## Model

| member | source | states |
|---|---|---|
| Int32.WrappingIncrement | src/interpolated_noise.rs:38-39 | the upper lattice index is `a + 1`, wrapping from `i32::MAX` to `i32::MIN`: the `i32` congruent to `a + 1` modulo 2³² |
| DefaultNoise.DefaultI32Noise.Value | src/default_noise.rs:26-31 | for every seed and every `i32` position, the masked hash gives a value in `[1 − (2³¹−1)/2³⁰, 1]`, hence in [-1, 1]; no error path |
| DefaultNoise.DefaultI32Noise.Hash | src/default_noise.rs:27-29 | the masked intermediate `c` has its sign bit cleared, so it is at most 2³¹ − 1 |
| DefaultNoise.New | src/default_noise.rs:16-20 | the stored seed is the scrambled bit pattern of the `i32` seed, and keeps that pattern's lowest bit |
| DefaultNoise.Scrambled | src/default_noise.rs:18 | wrapping `seed * 748361 ^ seed << 13` keeps the lowest bit of the seed, as the prime is odd |
| DefaultNoise.ScrambledLowBits | src/default_noise.rs:18 | the low 13 bits of the scrambled seed are those of the product alone |
| DefaultNoise.ZeroSeedSamples | src/default_noise.rs:16-31 | for seed 0 the scrambled seed is 0; the hashes at 0, `i32::MIN` and `i32::MAX` are the listed constants; the value at `i32::MAX` is derived from its hash |
| DefaultNoise.ConstantNoise.Value | src/default_noise.rs:50-52 | the stored value at every position |
| DefaultNoise.NoOpNoise.Value | src/default_noise.rs:61-63 | the position, unchanged |
| DefaultNoise.UnboxNoise.Value | src/default_noise.rs:83-85 | defined where the wrapped source is; its value at the same position |
| Interpolate.Smoothstep | src/interpolate.rs:53-54 | the Perlin remap maps [0, 1] into [0, 1] and fixes 0 and 1 |
| Interpolate.SmoothstepMonotone | src/interpolate.rs:53-54 | the Perlin remap never decreases on [0, 1] |
| Interpolate.SmoothstepMirror | src/interpolate.rs:53-54 | the Perlin remap is point-symmetric: `s(1 − p) = 1 − s(p)` |
| Interpolate.Lerp | src/interpolate.rs:36-39 | linear interpolation reproduces `a` at 0 and `b` at 1 and stays between `min(a, b)` and `max(a, b)` |
| Interpolate.LerpMonotone | src/interpolate.rs:36-39 | linear interpolation rises in the percent when `a <= b` and falls when `b <= a` |
| Interpolate.Interpolator.Interpolate | src/interpolate.rs:36-56 | both interpolators demand a percent in [0, 1], reproduce the endpoints and stay between `min(a, b)` and `max(a, b)` |
| Interpolate.Monotone | src/interpolate.rs:17 | monotonicity in the percent for both interpolators: rising for `a <= b`, falling for `b <= a` |
| Interpolate.Mirror | src/interpolate.rs:21-23 | the mirror law `interpolate(a, b, p) == a + b − interpolate(a, b, 1 − p)` for both interpolators |
| Interpolate.Midpoint | src/interpolate.rs:23-24 | half way is the average `(a + b) / 2` |
| Interpolate.CellsJoin | src/interpolate.rs:16 | `interpolate(a, b, 1) == interpolate(b, c, 0)` |
| Interpolate.InterpolateExamples | src/interpolate.rs:86-99 | linear gives 17.5 and Perlin gives 18.4375 between 10 and 20 at 0.75 |
| Interpolate.DocumentedMonotonicityFails | src/interpolate.rs:17 | the law as documented, unconditional in `a` and `b`, holds for neither interpolator |
| Interpolate.Sawtooth | src/interpolate.rs:75-78 | `x − floor(x)` lies in [0, 1) |
| Interpolate.SawtoothOfInteger | src/interpolate.rs:75-78 | the sawtooth of an integer is 0 |
| Interpolate.SawtoothPeriodic | src/interpolate.rs:75-78 | shifting by an integer leaves the sawtooth unchanged |
| Interpolate.SawtoothExamples | src/interpolate.rs:110-118 | the sawtooth is 0 at 0, 1 and −1, is 0.25 at 1.25 and is 0.75 at −1.25 |
| Lattice.Interpolated | src/interpolated_noise.rs:38-44 | asks the lattice values at `floor(p)` and `floor(p) + 1` only; the result lies between those two, and is the lattice value itself at a lattice point |
| Lattice.LinearIsLerp | src/interpolated_noise.rs:38-44 | linear lattice interpolation is `lerp(values(a), values(a + 1), sawtooth(p))` |
| Lattice.LinearSameCell | src/noise_1d.rs:24-35 | inside one cell, base values at most `bound` apart move the interpolation by at most `bound` per unit |
| Lattice.LinearToNextCell | src/noise_1d.rs:24-35 | the same bound from a position up to the next lattice point |
| Lattice.CellwiseSlope | src/noise_1d.rs:24-35 | a per-unit bound that holds within each cell and up to each next lattice point holds across any number of cells |
| Lattice.LinearSlope | src/noise_1d.rs:24-35 | linear lattice interpolation over base values at most `bound` apart is Lipschitz with constant `bound`, across cells |
| Interpolated.InterpolatedNoise.Value | src/interpolated_noise.rs:37-45 | needs `floor(position)` in range and the source defined at `a` and `a + 1`; the result lies between `source(a)` and `source(a + 1)`, and is `source(k)` at an integer `k` |
| Interpolated.IdentitySource | src/interpolated_noise.rs:137-144 | with the linear interpolator and source `i ↦ i`, `value(f) == f` |
| Interpolated.HashSourceBounded | src/interpolated_noise.rs:37-45 | interpolating the hash noise stays within [-1, 1] |
| Interpolated.Dot | src/interpolated_noise.rs:94-98 | the dot of the corner offset with the gradient is 0 at the corner itself and for a zero gradient |
| Interpolated.CornerOffsets | src/interpolated_noise.rs:94-106 | the offset from `x0` lies in [0, 1), the offset from `x1` in [-1, 0) |
| Interpolated.InterpolatedNoise2D.Corner | src/interpolated_noise.rs:109-117 | the dot at a corner uses that corner's gradient; it is 0 at the corner and where the gradient there is zero |
| Interpolated.InterpolatedNoise2D.Value | src/interpolated_noise.rs:92-125 | the cascade over corners `x0, x0 + 1` and `y0, y0 + 1` lies between the least and the greatest of the four corner dot products |
| Interpolated.ZeroAtLatticePoints | src/interpolated_noise.rs:92-125 | gradient noise is 0 at every lattice point |
| Interpolated.OnRow | src/interpolated_noise.rs:119-124 | on a horizontal lattice line the value is the x-interpolation of the row's two corner dots with `sawtooth(pos_x)` |
| Interpolated.OnColumn | src/interpolated_noise.rs:119-124 | on a vertical lattice line the value is the y-interpolation of the column's two corner dots with `sawtooth(pos_y)` |
| Interpolated.CornerBounded | src/interpolated_noise.rs:94-98 | at most one cell away, with gradient components in [-1, 1], a corner dot lies in [-2, 2] |
| Interpolated.BoundedGradients | src/interpolated_noise.rs:114-124 | with gradient components in [-1, 1], gradient noise lies in [-2, 2] |
| Combined.CombinedNoise.Samples | src/combined_noise.rs:28-34 | needs every source defined at the position; every source is asked at it, in list order |
| Combined.CombinedNoise.Value | src/combined_noise.rs:28-34 | the loop yields the left fold of the sources' values in list order |
| Combined.New | src/combined_noise.rs:14-21 | construction succeeds exactly when the list is non-empty |
| Combined.SingleSource | src/combined_noise.rs:28-34 | with one source the combination is defined where the source is, and is that source |
| Combined.AppendSource | src/combined_noise.rs:30-32 | one more source folds its value into the previous result |
| Combined.SumOfConstantsAndIdentity | src/combined_noise.rs:77-85 | `[constant 5, identity, constant −1]` under `+` gives `i + 4` |
| Combined.CombinedNoise2.Value | src/combined_noise.rs:63-67 | defined where both sources are; each source is asked once at the caller's position, and the first answer is combined with the second |
| Combined.Combined2AgreesWithCombined | src/combined_noise.rs:63-67 | the two-source combinator is `combine(source1(p), source2(p))`, the list fold of two sources |
| Combined.SquareOfIdentity | src/combined_noise.rs:88-93 | identity times identity gives `i * i` |
| Output.OutputOp.Value | src/output_op.rs:27-30 | defined where the source is; `op` applied to the source's value at the unchanged position |
| Output.ValueMapsSource | src/output_op.rs:27-30 | the source is asked once, at the unchanged position, and `op` maps its answer |
| Output.IdentityOp | src/output_op.rs:27-30 | the identity op leaves the source unchanged, and is defined exactly where the source is |
| Output.NestedCompose | src/output_op.rs:27-30 | nested ops compose with the inner one first: `g(f(s(p)))` |
| Output.DoubledIdentity | src/output_op.rs:40-45 | doubling the identity gives `2 * i` |
| Input.InputOp.Value | src/input_op.rs:25-27 | defined where the source is defined at `op(position)`; the source's value there |
| Input.ValueAtTransformedPosition | src/input_op.rs:25-27 | the source is asked at `op(p)` |
| Input.IdentityOp | src/input_op.rs:25-27 | the identity op leaves the source unchanged, and is defined exactly where the source is |
| Input.NestedCompose | src/input_op.rs:25-27 | nested ops compose inside out: `s(f(g(p)))` |
| Input.ConstantSource | src/input_op.rs:25-27 | over a constant source the op is irrelevant |
| Input.DoubledPosition | src/input_op.rs:37-42 | doubling the position of the identity gives `2 * i` |
| Sums.SumBounded | src/perlin.rs:17 | a sum bounded term by term is bounded by the sum of the bounds |
| Sums.SumAppend | src/perlin.rs:58-60 | adding one more term to the running sum |
| Perlin.PerlinNoise.Samples | src/perlin.rs:55-63 | every octave is asked at the same position, in list order |
| Perlin.PerlinNoise.Value | src/perlin.rs:55-63 | the loop yields the sum of the octaves' values from zero, in list order |
| Perlin.NoOctaves | src/perlin.rs:50-57 | an empty octave list is accepted and sums to 0 |
| Perlin.OctaveSumBounded | src/perlin.rs:17 | the highest value is the sum of the octaves' highest values |
| Perlin.OneDimensionalAgrees | src/perlin.rs:55-63 | the one-dimensional octave sum is this octave sum over the octaves' value functions |
| Perlin.TwoSmoothOctaves | src/perlin.rs:72-84 | octaves (amplitude 1, frequency 1) and (0.5, 2) stay in [-1.5, 1.5] at every position |
| Perlin.Halved | src/perlin.rs:12-14 | halving amplitudes stay positive and at most the base |
| Perlin.HalvingAmplitudes | src/perlin.rs:12-14 | the list of amplitudes, each half the one before |
| Perlin.HalvingSum | src/perlin.rs:17-19 | `n` halving amplitudes add up to `2·base − 2·base/2ⁿ` |
| Perlin.HalvingOctavesBounded | src/perlin.rs:17-19 | octaves with halving amplitudes stay strictly within twice the base amplitude |
| Perlin.DocumentedHalvingBoundFails | src/perlin.rs:17-19 | three halving octaves reach 1.75, above the documented `1 + 2/3` |
| Noise1D.Trunc | src/noise_1d.rs:30-33 | `trunc` rounds toward zero: the integer between 0 and `x` that is less than 1 away from `x` |
| Noise1D.Fract | src/noise_1d.rs:30-33 | `fract` lies in [0, 1) for `x >= 0` and in (−1, 0] for `x < 0`, and `x − fract(x)` is an integer |
| Noise1D.CellFraction | src/noise_1d.rs:28-34 | the hand-rolled fraction with its negative correction equals `sawtooth(scaled)` |
| Noise1D.SmoothNoise1D.BaseValue | src/noise_1d.rs:42-46 | given a sample in [0, 1], the base value lies in [-amplitude, amplitude] |
| Noise1D.SmoothNoise1D.Sample | src/noise_1d.rs:24-35 | interpolates at `index` and `index + 1`; bounded by the amplitude; the base value at a lattice point |
| Noise1D.SmoothNoise1D.Value | src/noise_1d.rs:23-40 | needs `floor(position * frequency)` in range; bounded by the amplitude |
| Noise1D.SampleIsInterpolated | src/noise_1d.rs:24-35 | the generator is lattice interpolation over its base values |
| Noise1D.BaseValuesSpread | src/noise_1d.rs:42-46 | no two base values are more than twice the amplitude apart |
| Noise1D.LinearSampleSlope | src/noise_1d.rs:126-130 | on the scaled axis, two linear samples differ by at most `2·|amplitude|` times their distance |
| Noise1D.LinearValueSlope | src/noise_1d.rs:114-151 | linear values at positions `d` apart differ by at most `2·|amplitude|·|frequency|·d` |
| Noise1D.LatticePoint | src/noise_1d.rs:24-35 | at a lattice point the value is the base value there |
| Noise1D.FrequencyScalesPosition | src/noise_1d.rs:24 | frequency only scales the position |
| Noise1D.PerlinNoise1D.Samples | src/noise_1d.rs:58-64 | each octave's value at the same position, in list order |
| Noise1D.PerlinNoise1D.Value | src/noise_1d.rs:58-64 | the loop yields the sum of the octaves' values from zero |
| Noise1D.PerlinNoise1D.Amplitudes | src/noise_1d.rs:58-64 | the octaves' absolute amplitudes, in list order |
| Noise1D.OctaveSumBounded | src/noise_1d.rs:58-64 | the octave sum never exceeds the sum of the amplitudes |
| Noise1D.TwoOctavesBounded | src/noise_1d.rs:155-166 | octaves (1, 1) and (0.5, 2) stay in [-1.5, 1.5] |
| Noise2D.SmoothNoise2D.BaseValue | src/noise_2d.rs:23-28 | given a sample in [0, 1], the base value at `(x, y)` lies in [-amplitude, amplitude] |
| Noise2D.SmoothNoise2D.Sample | src/noise_2d.rs:36-48 | the row-first cascade over the four corners; bounded by the amplitude; the base value at a lattice point |
| Noise2D.SmoothNoise2D.Value | src/noise_2d.rs:32-49 | needs both scaled floors in range; bounded by the amplitude |
| Noise2D.LatticeCorner | src/noise_2d.rs:36-44 | at a lattice point of the scaled plane the value is the base value there |
| Noise2D.AxesScaleIndependently | src/noise_2d.rs:33-35 | each axis is scaled by its own frequency component |
| Noise2D.OnLatticeRow | src/noise_2d.rs:39-42 | on a lattice row the plane generator is the one-dimensional generator over that row's base values |
| Noise2D.CascadeOrder | src/noise_2d.rs:39-48 | for both interpolators, rows first and columns first give the same value |
| Noise2D.BilinearSymmetric | src/noise_2d.rs:39-48 | bilinear interpolation does not depend on the axis order |
| Noise2D.ColumnsFirst | src/noise_2d.rs:39-48 | the generator's value is also the column-first cascade |
| Noise2D.GridBounded | src/noise_2d.rs:59-68 | on the grid `(x/3, y/3)` with `x`, `y` in [-20, 20], amplitude 1 at frequency (1, 1), the value is defined and lies in [-1, 1] |
| Pipeline.DoubledSmoothNoise | src/output_op.rs:27-30 | an output op over the partial one-dimensional generator is defined exactly where the generator is, and doubling stays within twice the amplitude |
| Pipeline.InputScaleIsFrequency | src/input_op.rs:25-27 | an input op scaling the position by `f` in front of the generator at frequency 1 is the generator at frequency `f`, defined at the same positions |
| Pipeline.CombinedOctaves | src/combined_noise.rs:28-34 | two one-dimensional generators combined by `+` are defined where both are, and agree with their octave sum |

## Left out

- `CosInterpolator`: cosine and π have no exact counterpart in real arithmetic, so neither the interpolator nor its 18.5355 example is modelled.
- `InterpolatedNoise2D::gradient`: it normalises with `powi` and `sqrt` inside a rejection loop that has no termination bound. The gradient field is a parameter instead.
- Interpolated.BoundedGradients: for the unit-length gradients the source produces, its test expects [-1, 1]. The model proves only [-2, 2], for gradient components in [-1, 1]. It also excludes the last cell of the `i32` range, where the upper corner wraps around to `i32::MIN`.
- The pseudo-random generator (`IsaacRng` seeded with the seed and the lattice coordinates, drawing `Closed01<f64>`) is not part of this model. It is the `rng` parameter, a function into [0, 1].
- `position_to_percent`: `noise_2d.rs` imports it, but `interpolate.rs` does not define it. It is modelled as `sawtooth`.
- Floating point: `f64` is modelled as `real`, so rounding, NaN and infinities are not modelled. The `as i32` casts and `float_to_i32` become range preconditions, so neither the panic of `float_to_i32` nor the saturation of `as i32` is modelled. The concrete examples match the source up to its test tolerance, as exact real equalities.
- DefaultNoise.DefaultI32Noise.Hash: its contract states only the range that the mask leaves. Beyond the concrete hashes of DefaultNoise.ZeroSeedSamples, nothing is proved about the hash polynomial, because `bv32` products of unknown operands exceed the solver's resource limit. For the same reason DefaultNoise.New states only the lowest bit and, through DefaultNoise.ScrambledLowBits, the low 13 bits of the scrambled seed.
- Noise1D.LinearValueSlope: proved for the linear interpolator only, as in the tests. The smoothstep remap is up to 1.5 times steeper, and no bound is proved for it.
- The `monotone_steps` criterion of the one-dimensional test helper, which counts direction changes, is not modelled.
- Overflow panics: every `i32` operation that can overflow is modelled with release-build wrap-around. Rust's debug builds panic on overflow instead, and that panic is not modelled. The operations are the hash and seed products and sums (src/default_noise.rs:18, 27 and 29), `a + 1` (src/interpolated_noise.rs:39), `x0 + 1` and `y0 + 1` (src/interpolated_noise.rs:101 and 103), `base_value_index + 1` (src/noise_1d.rs:27), and `basex + 1` and `basey + 1` (src/noise_2d.rs:41, 43 and 44).
- `PerlinNoise::new` (src/perlin.rs:50-52) accepts an empty octave list, unlike `CombinedNoise::new`, which asserts a non-empty one (src/combined_noise.rs:16). The model follows both: Perlin.NoOctaves sums an empty list to 0, and Combined.New refuses an empty list.
- `CombinedNoise::new`: the `assert!` panic on an empty list is modelled as `None` (Combined.New). Construction never panics.
- The `Noise` interface (src/noise.rs) is a partial function type, not a trait. Trait objects, `Box`, lifetimes, `Clone` and the generic bounds are Rust mechanics with no counterpart here. `UnboxNoise` is the identity on function values.
- A generator whose `Value` is a method (`CombinedNoise`, `PerlinNoise`, `PerlinNoise1D`) cannot itself be passed as a source, because a method is not a function value. Nesting one inside a combinator uses its specification function instead: `Reduce(combine, Samples(p))` or `Sum(Samples(p))`, which the method is proved equal to.
- Perlin.TwoSmoothOctaves: the test in `perlin.rs` builds `SmoothNoise1D::new` with an extra `DefaultI32Noise` argument that `noise_1d.rs` does not have. The model uses the generator of `noise_1d.rs` with an arbitrary `rng`.
- Constructors: `DefaultI32Noise::new` is DefaultNoise.New, which scrambles the seed, and `CombinedNoise::new` is Combined.New, which returns an `Option`. The other `new` constructors only store their arguments and are the datatype constructors. `lib.rs`, the examples directory (images, PNG output, random seeds) and all I/O are not part of this model.

## Findings

| source | as written | input that shows it | evidently intended | confidence | as-written member | corrected member |
|---|---|---|---|---|---|---|
| src/interpolate.rs:17 | the interface requires `interpolate(a, b, p) <= interpolate(a, b, q)` for all `p < q`, for every `a` and `b` | `a = 1`, `b = 0`, `p = 0`, `q = 1`: the result falls from 1 to 0 | rising in the percent when `a <= b`, falling when `b <= a` | not executed | Interpolate.DocumentedMonotonicityFails | Interpolate.Monotone |
| src/perlin.rs:17-19 | with amplitudes halving each octave, the highest value is `1 + (2/3)` times the base | amplitudes 1, 0.5, 0.25 with every random sample 1, at position 0: the sum is 1.75 > 1.667 | the highest value stays below twice the base amplitude | not executed | Perlin.DocumentedHalvingBoundFails | Perlin.HalvingOctavesBounded |
