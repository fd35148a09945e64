# Particle text: a verified model

The page draws a text as a swarm of particles. `createTextParticles` works in four steps:

1. It rasterizes the text on an off-screen canvas.
2. It walks the pixel buffer on a stride grid.
3. It keeps one sample per opaque grid point.
4. It gives every sample a particle.

On a resize it reuses the nearest old particle still available within 100 pixels and moves that particle's target (its base) to the sample. Otherwise it creates a new particle on the sample. Old particles that no sample claims are dropped. Each frame, a particle is pushed away from a nearby pointer, springs towards its base, loses speed to friction and moves.

The model has seven modules:

- `Arith`: small facts about multiplication, Euclidean remainder and real division that the other proofs use.
- `Sizing`: the font-size clamp and the `pixelSkip` clamp, with `Math.round(Math.sqrt(area / 2000))` in exact integer arithmetic. The text's length is counted as JavaScript's `text.length` counts it, in UTF-16 code units (`Utf16Length`).
- `Raster`: the RGBA buffer and the grid walk. The walk is specified by the functions `RowFrom`, `GridFrom` and `Samples`, and what it accepts is proved about them.
- `Particles`: the particle's state as a value and the frame physics on it. The `Particle` class has the source's fields, its constructor, `SetNewBasePosition` and `Update`.
- `Nearest`: the nearest-available rule and the scan that computes it.
- `Plan`: the rebuild's decisions on values. `Assign` folds over the samples to give the old particle, if any, that each sample reuses, and the old particles still available.
- `Swarm`: the globals `particles` and `lastText` as the class `Simulation`, with the following methods.
  - `CreateTextParticles` walks the grid (`WalkGrid`, `WalkRow`). It handles each sample (`PlaceSample`) by scanning the available particles (`FindNearest`) and retargeting the one it finds (`Retarget`) or constructing a new one.
  - The handlers `Resize`, `Submit` and `Boot` (the page load) call it.

  The result of a rebuild is tied to `Assign` by the predicate `Rebuilt`. `Rebuilt` says four things:
  - there is one distinct particle per sample, in visiting order;
  - a reused particle is exactly the old particle `Assign` picked, with only its base changed;
  - every other particle was not live before;
  - a new particle has the state `Spawned` gives its sample under the rebuild's `Entry`: on its base, or entering from the bottom.

  `CreateTextParticles` states the rebuild with `Entry(false, …)`, so its new particles start on their bases. It also states `Keeps`: every old particle, claimed or dropped, changes at most its base.

The host's services are parameters:
- the rasterizer is `render(text, fontSize)`, which returns `4 * width * height` bytes;
- `Math.random` is `rand(i)`, a record of six uniforms in [0, 1) for the particle of the rebuild's `i`-th sample, whether or not that sample reuses an old particle;
- `Math.sqrt` and `Math.atan2`/`cos`/`sin` in `update` are given as `dist` and `(cosAngle, sinAngle)`, constrained by what they must satisfy.

The bottom-entry branch of the constructor is modelled as the code has it. `lastText = text` runs first (main.ts:147), so the test `!lastText && !isResizing` (main.ts:235) is false for every non-empty text. Every new particle therefore starts on its base, on the page load and after a submit too. `CreateTextParticles`, `Submit` and `Boot` state this in their postconditions. The `lastText = ""` reset on submit (main.ts:261) is overwritten at once.

## Model

| member | source | states |
|---|---|---|
| Sizing.FontSize | main.ts:155-157 | for any text of length at least 1, the font size lies in [20, 180] |
| Sizing.FontSizeShrinksWithLength | main.ts:155-157 | a longer text never gets a larger font on the same canvas |
| Sizing.FontSizeGrowsWithCanvas | main.ts:155-157 | a canvas whose smaller side is larger never gets a smaller font for the same text |
| Sizing.FontSizeForTwoLetters | main.ts:155-157 | two letters on 800 by 600: 600 / 0.8 = 750 is clamped to 180 |
| Sizing.Utf16Length | main.ts:156 | `text.length` in UTF-16 code units lies between the number of code points and twice it |
| Sizing.Utf16LengthInBasicPlane | main.ts:156 | for a text inside the Basic Multilingual Plane `text.length` is the number of characters |
| Sizing.FontSizeForAstralText | main.ts:155-157 | five characters above U+FFFF are ten code units: on 800 by 600 the font is 150, where a count of five would give 180 |
| Sizing.RoundedRoot | main.ts:184-186 | the result n is the rounded square root of area / 2000, halves up: (2n-1)² · 2000 ≤ 4 · area < (2n+1)² · 2000 |
| Sizing.RoundedRootMonotone | main.ts:184-186 | the rounded root never decreases as the area grows |
| Sizing.CalculatedPixelSkip | main.ts:186 | the result is at least 2 and at least the rounded root, and equals one of them |
| Sizing.PixelSkip | main.ts:187 | the stride lies in [4, 10] and is the computed value whenever that is in [4, 10] |
| Sizing.PixelSkipMonotone | main.ts:187 | the stride is nondecreasing in the computed value |
| Sizing.PixelSkipForArea | main.ts:183-187 | for every canvas area the stride lies in [4, 10] |
| Sizing.PixelSkipForAreaMonotone | main.ts:183-187 | a larger canvas is never sampled more densely |
| Sizing.FloorIsSubsumed | main.ts:186-187 | the floor of 2 never affects the stride: clamping without it gives the same result |
| Raster.IndexInBounds | main.ts:196-202 | for x < width and y < height, the bytes read at (y·width + x)·4 + 0..3 lie inside a buffer of 4·width·height |
| Raster.ReadPixel | main.ts:196-203 | the bytes read are the alpha and the colour of pixel (x, y) |
| Raster.RowFrom | main.ts:195-203 | every sample of a row's walk from column x lies on that row, at a column from x to the width |
| Raster.GridFrom | main.ts:194-203 | every sample of the walk from row y lies inside the canvas at row y or below |
| Raster.Samples | main.ts:194-203 | every sample lies inside the canvas |
| Raster.GridStep | main.ts:194-195 | walking a row and then the rows below it walks the grid from that row |
| Raster.RowFromMembers | main.ts:195-199 | a sample is in a row's walk from column x iff it lies on the row at a stride multiple from x inside the canvas, with alpha above 128 and that pixel's colour |
| Raster.GridFromMembers | main.ts:194-199 | a sample is in the walk from row y iff its row is a stride multiple from y and its column a stride multiple, inside the canvas, opaque enough, with that pixel's colour |
| Raster.SamplesAreAccepted | main.ts:194-203 | the samples are exactly the grid points with x, y multiples of pixelSkip inside the canvas whose alpha exceeds 128, each with its pixel's colour |
| Raster.RowFromOrdered | main.ts:195 | a row's samples come left to right, all on that row |
| Raster.GridFromOrdered | main.ts:194-195 | the samples from row y come in row-major order, none above row y |
| Raster.SamplesInVisitingOrder | main.ts:194-195 | the samples come in row-major order (y outer, x inner), each at most once |
| Particles.Draw.Size | main.ts:68 | the size lies in [0.3, 1.5) |
| Particles.Draw.Depth | main.ts:70 | the depth lies in [0, 30) |
| Particles.Draw.Hue | main.ts:71 | the hue lies in [0, 360) |
| Particles.AtBase | main.ts:54-55 | a particle created without the bottom entry sits on its base with zero velocity and the given colour, and its looks lie in range |
| Particles.Entering | main.ts:57-61 | a bottom-entry particle aims at its base and starts within 100 of it sideways and within 50 below the canvas, with an upward velocity in (-7, -2] |
| Particles.Particle.constructor | main.ts:53-72 | the new particle's state is the bottom-entry state or the on-base state, as `startFromBottom` says |
| Particles.Particle.SetNewBasePosition | main.ts:75-81 | only the base changes, to the new point |
| Particles.Particle.Update | main.ts:115-139 | one frame is the push (when closer than 120) followed by the drift; with the pointer at 120 or more it is exactly the drift |
| Particles.Drift | main.ts:129-138 | a frame changes only position and velocity, never the base, colour, size, depth or hue, and the position moves by the new velocity |
| Particles.Repel | main.ts:123-127 | the push changes only the velocity, and nothing at the radius itself |
| Particles.Step | main.ts:115-138 | a full frame changes only position and velocity; with the distance at 120 or more it is exactly the drift |
| Particles.DriftFixedPoint | main.ts:129-138 | a frame leaves a state unchanged iff it sits on its base with zero velocity |
| Particles.RestIsPermanent | main.ts:129-138 | a particle at rest on its base stays exactly put for any number of frames |
| Particles.DriftFramesTranslate | main.ts:129-138 | moving position and base together moves every later frame by the same offset |
| Particles.Push | main.ts:120-126 | the speed change lies in [0, 14.4] and is zero iff the distance is at least 120 |
| Particles.PushFadesWithDistance | main.ts:123-126 | the push never grows with distance |
| Particles.RepelMagnitude | main.ts:123-127 | within the radius the velocity changes by exactly (120 - dist) · 0.12 in magnitude |
| Particles.FarPointerIsIgnored | main.ts:118-127 | with dx² + dy² ≥ 120² the frame is exactly the drift |
| Nearest.NearestIsUnique | main.ts:210-222 | the nearest-available rule has at most one answer |
| Nearest.Scan | main.ts:213-222 | the scan of the first n candidates picks one of them or none |
| Nearest.ScanIsNearest | main.ts:210-222 | the scan of the first n candidates gives the rule's answer: the strictly nearest under 100², ties to the earliest |
| Nearest.NearestIn | main.ts:210-222 | the scan over all available particles picks one of them or none |
| Nearest.NearestInIsNearest | main.ts:210-222 | the scan of all candidates gives the rule's answer |
| Plan.RemoveAt | main.ts:227 | deleting a claimed particle keeps the order of the rest |
| Plan.Advance | main.ts:206-236 | one more decision extends the choices by one and keeps every index in range |
| Plan.Assign | main.ts:194-236 | the walk makes exactly one decision per sample, and every reused or still-available index names an old particle |
| Plan.AssignPartitions | main.ts:192-227 | at every stage each old particle is either still available or claimed by exactly one sample, never both, and the available ones keep their old order |
| Plan.AssignWithoutResizing | main.ts:208-235 | without resizing nothing is claimed: every choice is a new particle and all old particles stay unclaimed |
| Plan.AssignPrefix | main.ts:194-239 | the decisions for a prefix of the samples are the prefix of the decisions |
| Plan.AdvanceDecides | main.ts:208-236 | one decision follows the rule over the particles still available |
| Plan.ChoiceIsNearest | main.ts:208-236 | the decision for sample i: a reused particle was available, strictly inside 100², strictly nearer than every earlier available one and no farther than every later one; otherwise not resizing or none in range |
| Swarm.Layout | main.ts:155-203 | every sample of a text's layout lies inside the canvas |
| Swarm.Spawned | main.ts:53-66 | a new particle aims at its sample with its colour and zero horizontal speed; on its base and motionless without the bottom entry, the bottom-entry state with it |
| Swarm.DroppedUnlessClaimed | main.ts:224-241 | an old particle survives a rebuild iff some sample claimed it |
| Swarm.RebuiltAimsAtSamples | main.ts:224-235 | entry i of the new particles has its base on sample i |
| Swarm.FreshWithoutResizing | main.ts:208-235 | without resizing every particle of the result is new and spawned on its sample |
| Swarm.ReusedWasNear | main.ts:208-225 | a reused particle comes from a resize and stood strictly within 100 of its new sample |
| Swarm.BookkeepingAtStart | main.ts:189-192 | the rebuild starts with every old particle available, in the old order |
| Swarm.Simulation.constructor | main.ts:142-143 | the page starts with no particles and no text |
| Swarm.Simulation.FindNearest | main.ts:210-222 | the loop's answer obeys the nearest-available rule for the available particles' current positions |
| Swarm.Simulation.PlaceSample | main.ts:199-236 | one sample is handled as the next decision of `Assign`, the available list and the result kept in step with it |
| Swarm.Simulation.WalkRow | main.ts:195-238 | walking one row handles exactly that row's samples, in order, as `Assign` decides |
| Swarm.Simulation.WalkGrid | main.ts:194-239 | walking the grid rebuilds exactly the samples of the buffer, in order, as `Assign` decides |
| Swarm.Simulation.CreateTextParticles | main.ts:146-242 | afterwards `lastText` is the text and the particles are the rebuild of the text's samples from the old particles, new ones on their bases; every old particle, kept or dropped, changed at most its base |
| Swarm.Simulation.Resize | main.ts:21-35 | with a text shown, the text is rebuilt with reuse on the new canvas and old particles change at most their bases; with none, the particles, their states and the text are unchanged |
| Swarm.Simulation.Submit | main.ts:258-265 | a blank input leaves the particles, their states and the text unchanged; otherwise the upper-cased text is shown with all new particles on their bases |
| Swarm.Simulation.Boot | main.ts:268 | the page load shows the initial text with all new particles on their bases |
| Swarm.Retarget | main.ts:224-226 | reusing an old particle changes only its base and extends the rebuild by it |
| Swarm.AvailablePoints | main.ts:213-216 | the available particles are measured at their old positions, because a rebuild never moves a particle |
| Swarm.ClaimBookkeeping | main.ts:227 | after a claim the available list is the old list without the claimed particle |
| Swarm.RebuiltExtend | main.ts:224-236 | appending one more correctly placed particle extends the rebuild |
| Swarm.ClaimedIsNotPlaced | main.ts:208-227 | a still-available particle is not yet in the result |

## Left out

- Rasterization (main.ts:149-178): the canvas, gradient, font and `getImageData` are host calls. They are the parameter `render`, required only to return 4 · width · height bytes, so the samples are proved about every buffer rather than about the one the browser draws.
- `Math.random` (main.ts:59-61, 68-71): it is the parameter `rand`, one record of six uniforms per sample, indexed by the sample's position in the rebuild.
- Floating point: positions, velocities and the font size are exact reals, not IEEE doubles. `Math.round(Math.sqrt(...))` is exact integer arithmetic, which agrees with the library wherever the double result is exact.
- Particles.Particle.Update: `Math.sqrt` and `Math.atan2`/`cos`/`sin` are not modelled. The distance and the unit direction are inputs, required to satisfy dist² = dx² + dy² and cos² + sin² = 1, to point at the pointer when dist > 0, and to be (1, 0) when dist = 0, as `Math.atan2(0, 0) = 0` gives.
- `draw` (main.ts:83-113) is rendering: trigonometry, HSL strings and shadow blur.
- `animate` and `requestAnimationFrame` (main.ts:244-253), the mousemove listener (main.ts:14-17), and the `setTimeout`/`clearTimeout` debounce of the resize listener (main.ts:19-35) are host scheduling and I/O. `Resize` is what the debounced callback does.
- Swarm.Simulation.Submit: the input's `trim` and `toUpperCase` (main.ts:259, 263) are not modelled. The method takes the trimmed value and its upper-case form, and requires only that the upper-case form of a non-empty value is non-empty.
- The colour is the (r, g, b) triple, not the `rgb(...)` string (main.ts:203).
- Convergence of the spring dynamics is not claimed. What is proved about the drift is exact: its fixed points, rest and translation.
