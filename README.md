# Fireworks particle core, modelled in Dafny

This project models the particle simulation of the `Fireworks` React component
(`src/components/Fireworks.tsx`): how rising sparks and explosion fragments
are appended to the shared `particles` array, how one animation frame steps,
fades and compacts that array in place, and how the same pass writes the
position and colour vertex buffers the renderer draws. It also models the
visible-range rectangle the launchers use, and the two launchers: each adds
one rising spark and hands back the explosion that a timer fires 800 ms later.

Modules (one file each):

- `Vectors` (`vectors.dfy`): `Vec3`, `Color` and the vector arithmetic used.
- `Particles` (`particles.dfy`): the `Particle` record and `Step`, which is one
  frame for one particle: gravity, then integration, then the 0.01 alpha
  decay, then the trail update. `Advance` is the whole back-to-front pass
  seen as a value. `Kept` gives the indices of the survivors. `StepN`
  applies `n` frames.
- `Buffers` (`buffers.dfy`): the vertex stream (`ParticleVertices`,
  `Emitted`), the flat three-floats-per-vertex layout (`Flatten`), and
  `Holds`, a zero-filled typed array after a run of writes. Writes past the
  end of the array are dropped, as a `Float32Array` drops them.
- `Shapes` (`shapes.dfy`): what each of the five explosion shapes appends
  (`Round`, `ShapeFragments`, `Decorations`, `Explosion`).
- `View` (`view.dfy`): `GetVisibleRange`.
- `Fireworks` (`fireworks.dfy`): class `ParticleSystem`. It holds the
  `particles` sequence and the device parameters. Its methods do what the
  component's closures do, with loops and in-place updates: the method
  `ensures` clauses tie the new `particles` to the functions above, and the
  lemmas state what those functions guarantee.

Randomness and trigonometry are inputs. An `Entropy` value supplies, for each
loop index, the shape's direction, the extra draw (the heart's inner scale,
the burst's speed), and the draws `createParticle` makes. Positions,
velocities, colours and alpha are exact reals.

Modelling notes:

- Decorations number `Math.floor(n * 0.5)` for a heart and
  `Math.floor(n * 0.3)` otherwise; the model takes the floor of the exact
  product. At the two presets (100 and 200) the products are whole numbers,
  so this equals rounding.
- `createParticle` scales the direction vector it is given in place and keeps
  it as the velocity. The heart's fill seeds and the ring's inner seeds clone
  that vector after the call, so they start from the outer fragment's
  velocity. The model keeps this (`Shapes.Round`); see Findings.
- The buffers are not sized exactly; see Findings.

## Model

| member | source | states |
|---|---|---|
| `Particles.GravityBeforeIntegration` | src/components/Fireworks.tsx:390-392 | velocity.y drops by 0.05 and the position then moves by the new velocity in the same frame; alpha drops by 0.01; colour and trail bound are unchanged |
| `Particles.TrailUpdate` | src/components/Fireworks.tsx:395-398 | the new trail starts with the new position, continues with the old trail minus at most its oldest entry, and has length min(old + 1, trailLength) |
| `Particles.StepKeepsHealthy` | src/components/Fireworks.tsx:389-403 | a frame strictly lowers alpha; a particle that survives it keeps alpha in (0, 1] and its trail within its bound |
| `Particles.AdvanceHealthy` | src/components/Fireworks.tsx:386-403 | the pass never grows the array, and every particle left after it is alive and keeps its trail bound |
| `Particles.AdvanceKeepsOrder` | src/components/Fireworks.tsx:386-403 | the k-th survivor is the stepped particle at the k-th kept index; kept indices strictly ascend; an index is kept exactly when its stepped alpha is above 0 |
| `Particles.AlphaAfter` | src/components/Fireworks.tsx:392 | after n frames alpha is exactly the initial alpha minus n * 0.01 |
| `Particles.Lifetime` | src/components/Fireworks.tsx:392-403 | a particle created with alpha 1 is alive after n frames if and only if n < 100 |
| `Particles.TrailAfter` | src/components/Fireworks.tsx:395-398 | after n frames the trail holds min(initial length + n, trailLength) entries and the bound is unchanged |
| `Buffers.Put` | src/components/Fireworks.tsx:421-427 | a write at an index inside the typed array replaces exactly that slot; a write past its end leaves the array unchanged |
| `Buffers.WriteVertex` | src/components/Fireworks.tsx:406-412 | the three writes at 3 * index + 0, 1, 2 extend the stream the array holds by one vertex, slots past the end being dropped and the rest still zero |
| `Buffers.WriteParticle` | src/components/Fireworks.tsx:405-430 | one survivor's writes append its head vertex and then each trail vertex, in trail order, to the stream both arrays hold |
| `Buffers.EmittedLength` | src/components/Fireworks.tsx:377-380 | the vertices written for a particle list number the sum of 1 + trail length over it |
| `Buffers.TrailFadeBounds` | src/components/Fireworks.tsx:419 | the trail fade 1 - j/len lies in (0, 1], equals 1 only for the newest entry, and strictly decreases along the trail |
| `Buffers.VerticesFaded` | src/components/Fireworks.tsx:410-427 | the head colour is colour * alpha; every written colour channel lies in [0, channel * alpha] and is positive where the channel is |
| `Buffers.VerticesWithinColour` | src/components/Fireworks.tsx:410-427 | for a healthy particle whose colour channels lie in [0, 1], every written colour channel lies in [0, the particle's channel], hence in [0, 1] |
| `Shapes.LoopBoundExact` | src/components/Fireworks.tsx:311 | the burst loop condition i < 1.5n holds exactly for i < (3n + 1) / 2, i.e. ceil(1.5n) iterations; the other loops run n |
| `Shapes.ShapeFragmentsCount` | src/components/Fireworks.tsx:230-323 | after k iterations: k particles for sphere and burst, 2k for double, k + ceil(k/2) for heart and ring |
| `Shapes.RoundCount` | src/components/Fireworks.tsx:231-321 | one iteration appends 1 particle for sphere and burst, 2 for double, and for heart and ring 2 on an even index and 1 on an odd one |
| `Shapes.ExplosionCount` | src/components/Fireworks.tsx:228-327 | an explosion with base count n appends ShapeCount (n, n + ceil(n/2), n + ceil(n/2), 2n, ceil(1.5n)) shape particles plus floor(0.5n) (heart) or floor(0.3n) decorations, at least n in all |
| `Shapes.ShapeFragmentsFresh` | src/components/Fireworks.tsx:350-357 | every shape particle starts at the explosion origin with alpha 1, an empty trail and trail bound 5 |
| `Shapes.RoundFresh` | src/components/Fireworks.tsx:350-357 | every particle of one loop iteration starts at the origin with alpha 1, an empty trail and bound 5 |
| `Shapes.ExplosionFresh` | src/components/Fireworks.tsx:325-327 | every particle of an explosion, decorations included, starts at the origin with alpha 1, empty trail and bound 5, and is healthy |
| `Shapes.RingInnerOutrunsOuter` | src/components/Fireworks.tsx:279-285 | with neutral draws the outer ring fragment moves at 1.3·vf and the inner one at 0.78·vf², so the inner one is faster exactly when vf > 5/3 |
| `Shapes.HeartFillOutrunsOutline` | src/components/Fireworks.tsx:257-264 | with neutral draws and any inner-scale draw s in [0, 1), at velocity factor 1.5 or more the heart's fill seed moves at (1.26 + 0.54 s) vf², faster than the outline's 1.5 vf |
| `Shapes.IntendedInnerSlower` | src/components/Fireworks.tsx:257-285 | with the inner seed cloned from the direction and neutral speed and offset draws, at every even loop index, for every direction, every vf > 0 and inner-scale draw s in [0, 1), the heart's and ring's inner velocity is the outer one scaled by k in (0, 1) (k = 0.8 (0.7 + 0.3 s) for the heart, 0.6/1.3 for the ring), so it heads the same way more slowly; the outer particle is the one the code appends |
| `Shapes.SparkLaunch` | src/components/Fireworks.tsx:212-225 | a spark starts at its launch point with alpha 1, an empty trail and bound 8; for draws in [0, 1) it rises at 4 to 7 per frame with sideways drift under 0.25 |
| `View.GetVisibleRange` | src/components/Fireworks.tsx:102-119 | the rectangle is horizontally centred, has the camera's aspect ratio, width = right - left and height = top - bottom, is 0.4 of the frustum height, and sits 0.75 of its height above the origin |
| `Fireworks.DecorationFloor` | src/components/Fireworks.tsx:326 | floor(n * 0.5) = n / 2 for a heart and floor(n * 0.3) = 3n / 10 otherwise, on exact reals |
| `Fireworks.TakeFlattened` | src/components/Fireworks.tsx:435-439 | a clamped slice of a written buffer is the same prefix of the flattened vertex stream |
| `Fireworks.AheadCoversEmitted` | src/components/Fireworks.tsx:377-380 | counting 1 + min(trail + 1, bound) per particle covers every vertex the pass writes, and equals the written count if and only if no particle expires in the pass |
| `Fireworks.PreCountUndershoots` | src/components/Fireworks.tsx:377-383 | for one fresh spark the pre-count is 1 vertex while the pass writes 2 |
| `Fireworks.SpliceStep` | src/components/Fireworks.tsx:386-403 | one back-to-front turn (step index i in place, splice it out when alpha <= 0) extends the advanced suffix by index i, and the written stream grows by that particle's vertices exactly when it survives |
| `Fireworks.DecorationTotal` | src/components/Fireworks.tsx:326 | the floored real product is the decoration count: 2k <= n < 2k + 2 for a heart, 10k <= 3n < 10k + 10 otherwise |
| `Fireworks.ParticleSystem.constructor` | src/components/Fireworks.tsx:52-57 | empty store; 100 particles, factor 1.5, interval [600, 1200] ms on mobile, otherwise 200, 2, [400, 800] |
| `Fireworks.ParticleSystem.CreateParticle` | src/components/Fireworks.tsx:332-358 | appends exactly one fragment built from the draws, and returns the caller's direction vector as the call leaves it: the new velocity |
| `Fireworks.ParticleSystem.AddDecorationParticles` | src/components/Fireworks.tsx:361-372 | appends `count` decorations at half the velocity factor and changes nothing else |
| `Fireworks.ParticleSystem.CreateFirework` | src/components/Fireworks.tsx:207-329 | a rising launch appends exactly one spark; an explosion appends exactly `Explosion(...)`; earlier particles are unchanged |
| `Fireworks.ParticleSystem.AppendExplosion` | src/components/Fireworks.tsx:226-328 | the exploding branch appends the shape loop's particles followed by the decorations, exactly `Explosion(...)` |
| `Fireworks.ParticleSystem.AppendShape` | src/components/Fireworks.tsx:230-323 | the shape loop appends the fragments of its LoopBound iterations, in order |
| `Fireworks.ParticleSystem.AppendRound` | src/components/Fireworks.tsx:231-322 | one loop iteration appends `Round(...)`, with the inner heart and ring seeds scaled from the outer particle's velocity |
| `Fireworks.ParticleSystem.CountVertices` | src/components/Fireworks.tsx:377-380 | the pre-count equals the sum of 1 + trail length over the array before the update |
| `Fireworks.ParticleSystem.StepAndWrite` | src/components/Fireworks.tsx:386-431 | after the back-to-front loop the array is `Advance` of the old one; both arrays hold the survivors' vertices, last particle first; expired particles write nothing |
| `Fireworks.ParticleSystem.Render` | src/components/Fireworks.tsx:382-440 | given a pre-count c, the array becomes `Advance` of the old one and each output is the first min(written, c) vertices of the survivors' stream, flattened |
| `Fireworks.ParticleSystem.UpdateParticles` | src/components/Fireworks.tsx:375-440 | the array is stepped and compacted; the output buffers are the first min(written, pre-counted) vertices of the survivors' stream, three floats each |
| `Fireworks.ParticleSystem.CountVerticesAhead` | src/components/Fireworks.tsx:377-380 | the corrected pre-count equals the sum of 1 + min(trail + 1, bound) |
| `Fireworks.ParticleSystem.UpdateParticlesSized` | src/components/Fireworks.tsx:375-440 | with the corrected pre-count, the output buffers hold exactly the survivors' vertices, 3 * sum(1 + trail) floats |
| `Fireworks.ParticleSystem.AutoLaunch` | src/components/Fireworks.tsx:446-464 | appends exactly one spark at (x + (jitter - 0.5) * 50, bottom - 20, (z - 0.5) * 100) with x = (draw - 0.5) * 1.5 * width; returns the explosion at (x, bottom + height * (0.4 + 0.3 * draw), start z + (draw - 0.5) * 50) and the next delay min + draw * (max - min) |
| `Fireworks.ParticleSystem.HandleInteraction` | src/components/Fireworks.tsx:467-479 | appends exactly one spark under the pointer's horizontal fraction of 1.2 visible widths; returns the explosion at bottom + height * (0.4 + 0.3 * draw) straight above it |
| `Fireworks.ParticleSystem.Explode` | src/components/Fireworks.tsx:455-460 | the timer's explosion appends exactly `Explosion(...)` at the pending point |

## Findings

| source | as written | input that shows it | evidently intended | confidence | as-written member | corrected member |
|---|---|---|---|---|---|---|
| src/components/Fireworks.tsx:377-383 | the typed arrays are sized from 1 + trail length before the trails are updated, but the writes use the updated, longer trails; writes past the end are dropped and `slice` clamps | one freshly launched spark: 1 vertex counted, 2 written, so its first trail vertex never reaches the renderer (in general the oldest particles, written last, lose their final vertices whenever trails grow faster than particles expire) | size the arrays for every vertex the pass writes | medium, not executed | `Fireworks.PreCountUndershoots` (and `Fireworks.ParticleSystem.UpdateParticles`) | `Fireworks.ParticleSystem.UpdateParticlesSized` with `Fireworks.AheadCoversEmitted` |
| src/components/Fireworks.tsx:257-285 | `createParticle` (line 352) scales and offsets the direction vector in place, and the heart and ring loops clone that same vector afterwards (lines 263, 283) for the fill and inner seeds, so those seeds start from the outer velocity, not the unit direction | neutral draws at either preset: heart outline 1.5 vf against fill (1.26 + 0.54 s) vf², e.g. 3.0 against 5.04 at vf 2; ring outer 2.6 against inner 3.12 at vf 2 | the inner ring and the fill are smaller and slower than the outline, as the 0.6 and 0.7-1.0 scales and the "inner ring" and "fill" comments say | medium, not executed | `Shapes.HeartFillOutrunsOutline`, `Shapes.RingInnerOutrunsOuter` (on `Shapes.Round`) | `Shapes.IntendedRound` with `Shapes.IntendedInnerSlower` |

## Left out

- `Shapes.IntendedInnerSlower`: proved for neutral speed and offset draws only. The speed jitter (0.9 to 1.1) and the ±0.05 offsets are independent per call, so with them even the corrected fill can move slightly faster than its outline; for example, at vf 2 a unit-direction outline can move as slowly as about 2.61 and its fill as fast as about 2.73.
- `Shapes.IntendedRound`: the corrected shape round is stated and proved on its own; the launch and explosion methods keep the behaviour as written, so no corrected explosion method is modelled.

- Colour choice (the seven gradient palettes and the 30% sub-list path) is not modelled: the colour is a parameter of each launch.
- The HSL jitter is a foreign library call. Its result is an input (`FragmentRoll.shifted`), used when the 30% draw selects it.
- Shape directions (golden-angle spiral, heart curve, ring and burst angles, random decoration directions) are trigonometry. They are inputs (`Entropy.direction`, `Entropy.decoration`), so no claim is made about unit length or spread.
- `Math.random` draws are inputs. The model does not fix the order in which they are consumed.
- Floating point: the model uses exact reals. Float64 rounding of `alpha -= 0.01` may shift the removal frame by one from the exact 100. Float32 storage in the buffers is not modelled. The products n * 0.3 and n * 0.5 are taken exactly.
- Timers are not modelled. The launchers return the pending explosion and the next delay instead of scheduling them. Overlapping cycles are just successive calls on the same store.
- Three.js scene, camera, renderer, material, textures and the `setAttribute` calls are out of scope. The update returns the two sliced buffers instead.
- `Fireworks.ParticleSystem.HandleInteraction` requires a positive window width, which the browser always supplies.
- Out of scope: the star field twinkle, the camera orbit and look-at smoothing, pointer and resize listeners, and the React mount and cleanup. These are cosmetic or UI plumbing.
