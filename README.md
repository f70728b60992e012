# Pink Christmas tree: a Dafny model of the scene core

The project is a 3D scene. It has two particle systems, a field of 8000
needle points and 150 ornaments. Both morph between two shapes: a cone-shaped
Christmas tree (`TREE_SHAPE`) and a cloud scattered inside a ball
(`SCATTERED`). A small global store holds which of the two is shown.

This Dafny model covers:

- **Mode store** (`store.ts`), in `store.dfy`. `Store.Mode` is the
  two-valued mode. `Store.Apply` is the effect of the argument each action
  hands to the store's `set`: `toggleMode` passes an updater function
  (`store.ts:11-13`), `setMode` the plain object `{ mode }` (`store.ts:14`). `Store.TreeStore` is the store object
  itself, a class with one mutable `mode` field.
- **Point samplers** (`utils/math.ts`), in `math_utils.dfy`.
  - `getConePoint` is `MathUtils.ConePoint`; `getRandomSpherePoint` is
    `MathUtils.SpherePoint`.
  - Every `Math.random()` call becomes a draw in [0, 1) that the caller
    passes in: `ConeDraws` and `SphereDraws`.
  - `Math.sin`, `cos`, `acos`, `cbrt` and `sqrt` are the fields of a
    `MathFunctions` value. Its `Valid()` states only the identities the
    proofs use:
    - sin² + cos² = 1;
    - cbrt cubes back to its argument;
    - acos is defined on [-1, 1];
    - sqrt of a non-negative number is non-negative and squares back (of a
      negative number it is some value, NaN in JavaScript, about which
      nothing is assumed).

    All ranges are derived from these identities as lemmas.
- **Ornaments** (`components/Ornaments.tsx`), in `ornaments.dfy`.
  - The construction loop builds 150 `Ornament` values (type, tree
    position pushed 0.2 outwards, scatter position, rotation, scale, colour).
  - The `filter` pair splits them into baubles and gifts.
  - `Ornaments.OrnamentField` holds the two Float32Array position buffers as
    `array<real>` in stride-3 layout: point i sits at 3i, 3i+1, 3i+2.
  - The layout effect writes every tree position into the buffers.
  - The second per-frame callback damps every slot toward a mode-dependent
    target: `p += (t - p) * rate * delta`, with rate 2.5 for baubles and 2.0
    for gifts.
- **Foliage** (`components/Foliage.tsx`), in `foliage.dfy`.
  - The loop fills the tree buffer, the scatter buffer and the random-weight
    buffer.
  - The morph target is 1 for the tree and 0 for the scatter.
  - From the vertex shader, the model keeps the interpolation
    `mix(aScatterPos, aTreePos, uMorph)` and the base point size
    `12·aRandom + 4`.

`vectors.dfy` holds the shared `Vec3` type, the stride-3 `Slot` view of a
flat buffer, and `SetSlot`, which is the three indexed stores the sources
write out by hand.

Floats are modelled as mathematical reals.

Two facts about the code that the model keeps as written:

- **No clamp on the damping factor.** The damping factor is `rate · delta`
  with no clamp (`components/Ornaments.tsx:184` for baubles, `:223` for
  gifts). So a frame longer than 0.4 s (baubles) or 0.5 s (gifts) makes an
  item that is not already at its target jump past it. `Ornaments.DampOvershoots` and
  `Ornaments.FrameLengthDecidesOvershoot` prove this.
- **Foliage offset is 1.** The foliage cone uses yOffset 1
  (`components/Foliage.tsx:96`), so its tree positions have y in [-5, 7).

## Model

| member | source | states |
|---|---|---|
| `Store.Apply` | store.ts:11-14 | toggling always changes the mode; setting yields exactly the requested mode |
| `Store.ToggleSwaps` | store.ts:11-13 | toggle maps SCATTERED to TREE_SHAPE and TREE_SHAPE to SCATTERED |
| `Store.ToggleInvolution` | store.ts:11-13 | toggling twice restores the original mode |
| `Store.SetIdempotent` | store.ts:14 | setMode(t) yields t from any mode, and repeating it changes nothing |
| `Store.TogglesParity` | store.ts:11-13 | n toggles from m end in m exactly when n is even, otherwise in the other mode |
| `Store.TreeStore.constructor` | store.ts:10 | the store starts in TREE_SHAPE |
| `Store.TreeStore.ToggleMode` | store.ts:11-13 | the new mode is the toggle of the old one |
| `Store.TreeStore.SetMode` | store.ts:14 | the new mode is the argument, whatever the old one was |
| `MathUtils.ConePoint` | utils/math.ts:20-34 | definition of `getConePoint`; its properties are stated by `RawHeightRange`, `ConeHeightRange`, `TaperedRadiusProperties`, `RadialOffsetRange`, `ConeWithinTaper` and `ConeOffsetOnlyShifts` |
| `MathUtils.RawHeightRange` | utils/math.ts:22 | the raw cone height `random · height` lies in [0, height) |
| `MathUtils.ConeHeightRange` | utils/math.ts:20-34 | a cone sample's y lies in [yOffset − h/2, yOffset + h/2) |
| `MathUtils.TaperedRadiusProperties` | utils/math.ts:25 | the radius at height y is baseRadius at y = 0, in (0, baseRadius] on [0, h), and non-increasing in y |
| `MathUtils.RadialOffsetRange` | utils/math.ts:25-28 | the radial offset lies in [0, radius at the sampled height) |
| `MathUtils.ConeWithinTaper` | utils/math.ts:20-34 | a cone sample's squared distance from the axis is the radial offset squared and strictly below the squared tapered radius at its own height, which is positive |
| `MathUtils.ConeOffsetOnlyShifts` | utils/math.ts:33 | changing yOffset moves the sample only vertically, by the difference of the offsets |
| `MathUtils.SpherePoint` | utils/math.ts:4-17 | definition of `getRandomSpherePoint`; its properties are stated by `SphereAngles`, `SphereRadiusRange`, `SphereNorm` and `SphereWithinRadius` |
| `MathUtils.SphereAngles` | utils/math.ts:5-8 | theta lies in [0, 2π) and the acos argument `2v − 1` in [-1, 1) |
| `MathUtils.SphereRadiusRange` | utils/math.ts:9 | `cbrt(random) · radius` lies in [0, radius) |
| `MathUtils.SphereNorm` | utils/math.ts:11-14 | the sample's squared distance from the origin is exactly r² |
| `MathUtils.SphereWithinRadius` | utils/math.ts:4-17 | every sphere sample lies strictly inside the ball of the given radius |
| `Vectors.SetSlot` | components/Ornaments.tsx:151-153 | after the three stores, slot i holds the point and every other slot is unchanged |
| `Ornaments.SelectType` | components/Ornaments.tsx:46 | a gift box exactly when the first draw exceeds 0.8; otherwise a large bauble exactly when the second exceeds 0.5, else a small one |
| `Ornaments.ScaleIncreasesWithSize` | components/Ornaments.tsx:60 | the scales are positive and ordered small bauble < large bauble < gift box |
| `Ornaments.PaletteIndex` | components/Ornaments.tsx:61 | `floor(random · 4)` is a valid palette index and is the floor of its argument |
| `Ornaments.PushOutward` | components/Ornaments.tsx:50-51 | definition of the 0.2 outward push; its properties are stated by `PushOutwardMovesAway` and `PushStaysNear` |
| `Ornaments.PushOutwardMovesAway` | components/Ornaments.tsx:50-51 | the push keeps y; a point on the axis stays put (normalize divides by 1 there); any other point is scaled horizontally by 1 + 0.2/l and ends exactly 0.2 further from the axis |
| `Ornaments.PushStaysNear` | components/Ornaments.tsx:50-51 | a point strictly inside the horizontal circle of radius r lands strictly inside the circle of radius r + 0.2 |
| `Ornaments.TreePosition` | components/Ornaments.tsx:48-51 | definition of an ornament's tree position (cone sample, then push); its properties are stated by `TreePositionHeight` and `TreePositionNearCone` |
| `Ornaments.ScatterPosition` | components/Ornaments.tsx:53 | definition of an ornament's scatter position; its property is stated by `ScatterPositionInBall` |
| `Ornaments.MakeOrnament` | components/Ornaments.tsx:45-62 | definition of one loop iteration's item; its properties are stated by `OrnamentShape` |
| `Ornaments.RotationRange` | components/Ornaments.tsx:59 | the rotation angles about x and y lie in [0, π) and the one about z is 0 |
| `Ornaments.TreePositionHeight` | components/Ornaments.tsx:48-51 | an ornament's tree position has y in [-5, 7) |
| `Ornaments.ConeSampleInsideTree` | components/Ornaments.tsx:48 | the ornament cone sample (12, 4.2, offset 1) is strictly inside the tree's positive radius at its height |
| `Ornaments.TreePositionNearCone` | components/Ornaments.tsx:48-51 | an ornament's tree position is strictly less than 0.2 outside the tree's tapered radius at its height |
| `Ornaments.ScatterPositionInBall` | components/Ornaments.tsx:53 | an ornament's scatter position lies strictly inside the radius-18 ball |
| `Ornaments.OrnamentShape` | components/Ornaments.tsx:45-62 | an item's type follows the first two draws, its scale follows its type, its colour is one of the four palette entries, and its positions and rotation are the samples above |
| `Ornaments.BuildOrnaments` | components/Ornaments.tsx:36-65 | the loop yields exactly 150 items, item i built from the i-th draw record |
| `Ornaments.GroupOf` | components/Ornaments.tsx:67-68 | an item goes to the gift mesh exactly when it is a gift box, otherwise to the bauble mesh |
| `Ornaments.Select` | components/Ornaments.tsx:67-68 | a filter result is no longer than its input and holds only input items of the requested group |
| `Ornaments.SelectAppend` | components/Ornaments.tsx:67-68 | filtering distributes over concatenation, so each group keeps the items' original order |
| `Ornaments.PartitionComplete` | components/Ornaments.tsx:67-68 | the two groups' sizes add up to the item count and their multisets add up to the items' multiset |
| `Ornaments.PartitionMembership` | components/Ornaments.tsx:67-68 | an item is among the gifts exactly when it is a gift box and among the baubles exactly when it is not |
| `Ornaments.GroupSizesFollowDraws` | components/Ornaments.tsx:46-68 | the gift mesh gets one instance per draw record whose first draw exceeds 0.8, and the bauble mesh gets all the others |
| `Ornaments.Target` | components/Ornaments.tsx:172-221 | definition of the per-frame target of both groups; its properties are stated by `TreeTargetIsTreePosition`, `BaubleScatterTargetNear` and `GiftScatterTargetNear` |
| `Ornaments.TreeTargetIsTreePosition` | components/Ornaments.tsx:172-176 | in TREE_SHAPE every item's target is exactly its tree position |
| `Ornaments.BaubleScatterTargetNear` | components/Ornaments.tsx:177-179 | in SCATTERED a bauble's target is within 0.5 of its scatter position on every axis |
| `Ornaments.GiftScatterTargetNear` | components/Ornaments.tsx:218-220 | in SCATTERED a gift's target keeps its scatter y and z and is within 0.2 of it along x |
| `Ornaments.Rate` | components/Ornaments.tsx:184-223 | definition of the damping rates 2.5 and 2.0; `FrameLengthDecidesOvershoot` states what they imply |
| `Ornaments.Damp` | components/Ornaments.tsx:185 | definition of one coordinate's step `p += (t − p)·k`; its properties are stated by `DampRemaining`, `DampBetween`, `DampOvershoots` and `FrameLengthDecidesOvershoot` |
| `Ornaments.DampVec` | components/Ornaments.tsx:185-187 | definition of the three-coordinate step (the gifts' lines 224-226 are the same); its properties are stated by `DampZero` and `AdvanceGroup` |
| `Ornaments.DampRemaining` | components/Ornaments.tsx:185-187 | a damping step leaves (1 − k) of the remaining distance to the target |
| `Ornaments.DampBetween` | components/Ornaments.tsx:184-187 | with k in [0, 1] a step lands between the old value and the target |
| `Ornaments.DampOvershoots` | components/Ornaments.tsx:184-187 | with k > 1 (an unclamped long frame) a step jumps past the target |
| `Ornaments.FrameLengthDecidesOvershoot` | components/Ornaments.tsx:184-226 | `rate · delta` is in [0, 1] up to delta 0.4 for baubles and 0.5 for gifts, where a step lands between the old value and the target; beyond, it exceeds 1 and a step jumps past the target of any item not already there |
| `Ornaments.DampZero` | components/Ornaments.tsx:184-187 | a zero-length frame leaves a position where it is |
| `Ornaments.DampSteps` | components/Ornaments.tsx:162-243 | definition of n equal frames on one coordinate; its properties are stated by `DampStepsRemaining` and `DampStepsMonotone` |
| `Ornaments.DampStepsVec` | components/Ornaments.tsx:162-243 | definition of n equal frames on a point; its properties are stated by `DampStepsVecRemaining` and `OrnamentField.AdvanceTreeFrames` |
| `Ornaments.DampStepsRemaining` | components/Ornaments.tsx:162-243 | after n equal frames toward a fixed target the remaining distance is (1 − k)ⁿ of the initial one |
| `Ornaments.DampStepsMonotone` | components/Ornaments.tsx:162-243 | with k in [0, 1] successive frames approach a fixed target monotonically and never pass it |
| `Ornaments.DampStepsVecRemaining` | components/Ornaments.tsx:162-243 | after n equal frames toward a fixed target each coordinate's remaining distance is (1 − k)ⁿ of its initial one |
| `Ornaments.AdvanceGroup` | components/Ornaments.tsx:168-188 | after one group's loop, every slot i is the damped step from its old value toward item i's target at the group's rate |
| `Ornaments.WriteTreePositions` | components/Ornaments.tsx:150-154 | after the loop, slot i holds item i's tree position |
| `Ornaments.OrnamentField.constructor` | components/Ornaments.tsx:145-146 | the fields are the bauble and gift filters of the items; the two buffers are new, zero-filled and three times the group sizes long |
| `Ornaments.OrnamentField.InitPositions` | components/Ornaments.tsx:149-160 | every bauble slot and every gift slot starts at its item's tree position |
| `Ornaments.OrnamentField.Advance` | components/Ornaments.tsx:162-243 | each mounted group's slots take one damped step toward their targets; an unmounted group's buffer, or any buffer on a zero-length frame, is unchanged |
| `Ornaments.OrnamentField.AdvanceTreeFrames` | components/Ornaments.tsx:162-243 | n consecutive TREE_SHAPE frames of equal length with both meshes mounted leave every slot exactly n damping steps (`DampStepsVec`) from its start toward its item's tree position, whatever the clock reads |
| `Foliage.BuildBuffers` | components/Foliage.tsx:89-110 | three new buffers of 3·8000, 3·8000 and 8000 elements; slot i holds the i-th cone sample (12, 4.5, offset 1), the i-th sphere sample (radius 15) and the i-th random weight |
| `Foliage.BuffersInShape` | components/Foliage.tsx:94-108 | every tree slot has y in [-5, 7) and lies strictly inside the tapered radius at its height; every scatter slot lies strictly inside the radius-15 ball; every weight is in [0, 1) |
| `Foliage.MorphTarget` | components/Foliage.tsx:119 | the morph target is 1 exactly in TREE_SHAPE and 0 exactly in SCATTERED |
| `Foliage.MixScalar` | components/Foliage.tsx:38 | definition of GLSL `mix` on one coordinate; its properties are stated by `MixRemaining` and `MixScalarBetween` |
| `Foliage.Mix` | components/Foliage.tsx:38 | definition of `mix(aScatterPos, aTreePos, uMorph)`; its properties are stated by `MixEndpoints`, `SettledMorphShowsMode` and `MixBetween` |
| `Foliage.MixEndpoints` | components/Foliage.tsx:38 | uMorph 0 shows the scatter position and uMorph 1 the tree position |
| `Foliage.SettledMorphShowsMode` | components/Foliage.tsx:38 | once uMorph equals the mode's target, every particle sits exactly at that mode's position |
| `Foliage.MixRemaining` | components/Foliage.tsx:38 | the mixed coordinate has covered a of the way from scatter to tree, with (1 − a) left |
| `Foliage.MixScalarBetween` | components/Foliage.tsx:38 | for a in [0, 1] a mixed coordinate lies between its two ends |
| `Foliage.MixBetween` | components/Foliage.tsx:38 | for uMorph in [0, 1] every coordinate of the shown position lies between the scatter and the tree coordinate |
| `Foliage.PointSizeBase` | components/Foliage.tsx:52 | definition of the base size `12·aRandom + 4`; its properties are stated by `PointSizeRange` |
| `Foliage.PointSizeRange` | components/Foliage.tsx:52 | the base point size `12·aRandom + 4` lies in [4, 16) for a weight in [0, 1) and strictly grows with the weight |

## Left out

- Randomness: each `Math.random()` result is a parameter in [0, 1). The model
  makes no statistical claims, such as uniformity over the ball.
- Draw order: the type expression in `components/Ornaments.tsx:46` skips the
  second draw for gift boxes. Which later draw each value comes from shifts
  with that choice, and the model's per-item draw record does not capture
  the shift.
- Transcendentals: `Math.sin`, `cos`, `acos`, `cbrt` and `sqrt` are abstract.
  Only the identities in `MathFunctions.Valid()` are assumed of them.
- Floating point: there is no Float32 rounding in the buffers and no IEEE
  rounding anywhere; reals stand in.
- Foliage.BuffersInShape, Foliage.PointSizeRange: the weight bound `[0, 1)`
  and the base size bound `< 16` hold for reals only. A Float32Array stores
  `Math.random()` rounded to float32 (`components/Foliage.tsx:107`), so any
  draw of at least 1 − 2⁻²⁵ is stored as exactly 1.0 and gives base size 16.
- Height zero: `getConePoint` with height 0 divides by zero (NaN in
  JavaScript). The model requires a non-zero height there; every caller
  passes 12.
- `easing.damp` (the maath library is not part of this model): the per-frame
  easing of `uMorph` toward `MorphTarget` in `components/Foliage.tsx:120` is
  not modelled. `Foliage.MixBetween` assumes uMorph stays in [0, 1] rather
  than proving it.
- The first per-frame callback in `components/Ornaments.tsx:74-142` computes
  nothing that is kept, so it is left out.
- Rendering: `Object3D` matrices, per-frame spin of the rotations, `setMatrixAt`
  and `needsUpdate`.
- The shader's wind, twinkle, perspective size attenuation and fragment
  colouring.
- `components/Experience.tsx`, `App.tsx` and the React/zustand glue: hooks,
  refs and subscriptions. The mesh-ref null checks become the
  `baublesMounted` and `giftsMounted` flags of `OrnamentField.Advance`.
- Colours: THREE.Color objects become their hex strings.
