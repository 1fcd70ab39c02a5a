/** The particle store of the fireworks effect: the `particles` array the
    component's closures share, the functions that append to it, the
    per-frame update that steps, compacts and writes the vertex buffers, and
    the two launchers that start a rise-then-explode cycle. */
module Fireworks {
  import opened Vectors
  import opened Particles
  import opened Buffers
  import opened Shapes
  import opened View

  /** The explosion a launch schedules 800 ms later. */
  datatype PendingExplosion = PendingExplosion(x: real, y: real, z: real)

  /** The `Math.random` draws of one launch cycle, in [0, 1). */
  datatype LaunchDraws = LaunchDraws(
    x: real,           // horizontal position across 1.5 visible widths
    startJitter: real, // sideways jitter of the spark's start
    startZ: real,      // depth of the start
    height: real,      // explosion height within the band
    explosionZ: real,  // depth jitter of the explosion
    interval: real)    // delay until the next automatic launch

  /** `1 + min(trail.length + 1, trailLength)`: a particle's vertex count
      after this frame's trail update, if it survives. */
  function FootprintAhead(p: Particle): nat {
    1 + Min(|p.trail| + 1, p.trailLength)
  }

  function VertexCountAhead(ps: seq<Particle>): nat {
    if ps == [] then 0 else FootprintAhead(ps[0]) + VertexCountAhead(ps[1..])
  }

  lemma {:induction false} VertexCountAheadAppend(ps: seq<Particle>, p: Particle)
    ensures VertexCountAhead(ps + [p]) == VertexCountAhead(ps) + FootprintAhead(p)
  {
    if ps != [] {
      assert (ps + [p])[1..] == ps[1..] + [p];
      VertexCountAheadAppend(ps[1..], p);
    }
  }

  /** Counting with the post-update trail lengths never undershoots: the
      vertices the pass emits fit, and fit exactly, with no slot to spare,
      if and only if no particle expires in this pass. */
  lemma {:induction false} AheadCoversEmitted(ps: seq<Particle>)
    requires AllHealthy(ps)
    ensures VertexCount(Advance(ps)) <= VertexCountAhead(ps)
    ensures VertexCount(Advance(ps)) == VertexCountAhead(ps) <==>
      forall i :: 0 <= i < |ps| ==> Alive(Step(ps[i]))
  {
    if ps != [] {
      var rest := ps[1..];
      AheadCoversEmitted(rest);
      AheadStep(ps);
      assert forall i :: 1 <= i < |ps| ==> ps[i] == rest[i - 1];
      if Alive(Step(ps[0])) && !(forall i :: 0 <= i < |rest| ==> Alive(Step(rest[i]))) {
        var j :| 0 <= j < |rest| && !Alive(Step(rest[j]));
        assert !Alive(Step(ps[j + 1]));
      }
    }
  }

  /** The first particle contributes its post-update footprint to the written
      count if it survives and nothing if it expires. */
  lemma AheadStep(ps: seq<Particle>)
    requires ps != [] && Healthy(ps[0])
    ensures VertexCount(Advance(ps)) ==
      (if Alive(Step(ps[0])) then FootprintAhead(ps[0]) else 0) + VertexCount(Advance(ps[1..]))
    ensures VertexCountAhead(ps) == FootprintAhead(ps[0]) + VertexCountAhead(ps[1..])
    ensures FootprintAhead(ps[0]) > 0
  {
    var q := Step(ps[0]);
    TrailUpdate(ps[0]);
    if Alive(q) {
      assert Advance(ps) == [q] + Advance(ps[1..]);
      assert ([q] + Advance(ps[1..]))[1..] == Advance(ps[1..]);
    } else {
      assert Advance(ps) == Advance(ps[1..]);
    }
  }

  /** The pre-count of the source undershoots as soon as a freshly launched
      spark survives its first frame: it counts one vertex, the pass emits
      two (head and the first trail entry), so the second is dropped. */
  lemma PreCountUndershoots(origin: Vec3, r: Vec3, color: Color)
    ensures var ps := [Spark(origin, r, color)];
      && VertexCount(ps) == 1
      && VertexCount(Advance(ps)) == 2
      && VertexCountAhead(ps) == 2
  {
    var ps := [Spark(origin, r, color)];
    var q := Step(ps[0]);
    assert Alive(q);
    assert Advance(ps) == [q] + Advance(ps[1..]);
    assert ps[1..] == [];
    assert |q.trail| == 1;
    assert ([q] + Advance(ps[1..]))[1..] == [];
  }

  /** One turn of the back-to-front loop: with the suffix from `i + 1`
      already advanced, stepping index `i` in place and splicing it out when
      it expired leaves the suffix from `i` advanced, and the vertices
      written grow by the stepped particle's exactly when it survives. */
  lemma SpliceStep(orig: seq<Particle>, i: nat, cur: seq<Particle>)
    requires i < |orig| && cur == orig[..i + 1] + Advance(orig[i + 1..])
    ensures cur[i] == orig[i]
    ensures var p := Step(orig[i]);
      && (Alive(p) ==> cur[i := p] == orig[..i] + Advance(orig[i..]))
      && (!Alive(p) ==> cur[i := p][..i] + cur[i := p][i + 1..] == orig[..i] + Advance(orig[i..]))
      && (Alive(p) ==> Emitted(Advance(orig[i..])) == Emitted(Advance(orig[i + 1..])) + ParticleVertices(p))
      && (!Alive(p) ==> Emitted(Advance(orig[i..])) == Emitted(Advance(orig[i + 1..])))
  {
    var p := Step(orig[i]);
    var rest := Advance(orig[i + 1..]);
    assert orig[i..][1..] == orig[i + 1..];
    assert cur[i] == orig[i];
    if Alive(p) {
      assert Advance(orig[i..]) == [p] + rest;
      assert ([p] + rest)[1..] == rest;
      assert cur[i := p] == orig[..i] + ([p] + rest);
    } else {
      assert Advance(orig[i..]) == rest;
      assert cur[i := p][..i] == orig[..i];
      assert cur[i := p][i + 1..] == rest;
    }
  }

  /** One more loop iteration appends one more round. */
  lemma ShapeFragmentsNext(prefix: seq<Particle>, before: seq<Particle>, after: seq<Particle>,
                           shape: Shape, i: nat, origin: Vec3, color: Color, vf: real, e: Entropy)
    requires before == prefix + ShapeFragments(shape, i, origin, color, vf, e)
    requires after == before + Round(shape, i, origin, color, vf, e)
    ensures after == prefix + ShapeFragments(shape, i + 1, origin, color, vf, e)
  {
  }

  class ParticleSystem {
    /** `params.particleCount` */
    const particleCount: nat
    /** `params.velocityFactor` */
    const velocityFactor: real
    /** `params.launchInterval`, in milliseconds */
    const minInterval: real
    const maxInterval: real
    var particles: seq<Particle>

    ghost predicate Valid()
      reads this
    {
      AllHealthy(particles)
    }

    /** The device presets: fewer, slower particles on a mobile device. */
    constructor (isMobile: bool)
      ensures Valid() && particles == []
      ensures particleCount == if isMobile then 100 else 200
      ensures velocityFactor == if isMobile then 1.5 else 2.0
      ensures minInterval == (if isMobile then 600.0 else 400.0)
      ensures maxInterval == (if isMobile then 1200.0 else 800.0)
    {
      particleCount := if isMobile then 100 else 200;
      velocityFactor := if isMobile then 1.5 else 2.0;
      minInterval := if isMobile then 600.0 else 400.0;
      maxInterval := if isMobile then 1200.0 else 800.0;
      particles := [];
    }

    /** `createParticle(pos, direction, color, speed)`. Returns `direction`
        as the call leaves it: the source scales and offsets the caller's
        vector in place and stores that same vector as the velocity. */
    method CreateParticle(origin: Vec3, direction: Vec3, color: Color, speed: real, roll: FragmentRoll)
      returns (moved: Vec3)
      requires Valid()
      modifies this
      ensures Valid()
      ensures particles == old(particles) + [Fragment(origin, direction, color, speed, roll)]
      ensures moved == particles[|particles| - 1].velocity
    {
      var randomSpeed := speed * (0.9 + roll.speed * 0.2);
      var o := roll.offset;
      var randomOffset := Vec3((o.x - 0.5) * 0.1, (o.y - 0.5) * 0.1, (o.z - 0.5) * 0.1);
      var adjustedColor := color;
      if roll.recolour < 0.3 {
        adjustedColor := roll.shifted;
      }
      moved := Add(Scale(direction, randomSpeed), randomOffset);
      particles := particles + [Particle(origin, moved, adjustedColor, 1.0, [], FragmentTrail)];
    }

    /** `addDecorationParticles(pos, color, count)` */
    method AddDecorationParticles(origin: Vec3, color: Color, count: nat, e: Entropy)
      requires Valid()
      modifies this
      ensures Valid()
      ensures particles == old(particles) + Decorations(count, origin, color, velocityFactor, e)
    {
      var i := 0;
      while i < count
        invariant i <= count && Valid()
        invariant particles == old(particles) + Decorations(i, origin, color, velocityFactor, e)
      {
        var direction := e.decoration(i);
        var _ := CreateParticle(origin, direction, color, velocityFactor * 0.5, e.decorationRoll(i));
        assert Decorations(i + 1, origin, color, velocityFactor, e)
          == Decorations(i, origin, color, velocityFactor, e)
             + [Fragment(origin, e.decoration(i), color, velocityFactor * 0.5, e.decorationRoll(i))];
        i := i + 1;
      }
    }

    /** `createFirework(x, y, z, isRising)`. The shape and colour the source
        draws at random are parameters; a rising launch ignores the shape. */
    method CreateFirework(x: real, y: real, z: real, isRising: bool, shape: Shape, color: Color,
                          sparkDraws: Vec3, e: Entropy)
      requires Valid()
      modifies this
      ensures Valid()
      ensures isRising ==> particles == old(particles) + [Spark(Vec3(x, y, z), sparkDraws, color)]
      ensures !isRising ==>
        particles == old(particles) + Explosion(shape, Vec3(x, y, z), color, particleCount, velocityFactor, e)
    {
      var pos := Vec3(x, y, z);
      if isRising {
        var r := sparkDraws;
        particles := particles + [Particle(pos, Vec3((r.x - 0.5) * 0.5, r.y * 3.0 + 4.0, (r.z - 0.5) * 0.5),
                                           color, 1.0, [], SparkTrail)];
      } else {
        AppendExplosion(shape, pos, color, e);
      }
    }

    /** The exploding branch of `createFirework`: the shape loop, then
        `floor(particleCount * 0.5)` decorations for a heart and
        `floor(particleCount * 0.3)` otherwise. */
    method AppendExplosion(shape: Shape, pos: Vec3, color: Color, e: Entropy)
      requires Valid()
      modifies this
      ensures Valid()
      ensures particles == old(particles) + Explosion(shape, pos, color, particleCount, velocityFactor, e)
    {
      var n := particleCount;
      ghost var start := particles;
      AppendShape(shape, pos, color, e);
      ghost var shaped := particles;
      var decorationCount := DecorationTotal(shape, n);
      AddDecorationParticles(pos, color, decorationCount, e);
      assert particles == shaped + Decorations(DecorationCount(shape, n), pos, color, velocityFactor, e);
    }

    /** The `switch (shape)` of `createFirework`: one counted loop per shape,
        the burst's running while `i < particleCount * 1.5`. */
    method AppendShape(shape: Shape, pos: Vec3, color: Color, e: Entropy)
      requires Valid()
      modifies this
      ensures Valid()
      ensures particles == old(particles) +
        ShapeFragments(shape, LoopBound(shape, particleCount), pos, color, velocityFactor, e)
    {
      var n := particleCount;
      ghost var start := particles;
      var i: nat := 0;
      while LoopContinues(shape, i, n)
        invariant i <= LoopBound(shape, n) && Valid()
        invariant particles == start + ShapeFragments(shape, i, pos, color, velocityFactor, e)
        decreases LoopBound(shape, n) - i
      {
        LoopBoundExact(shape, n, i);
        ghost var before := particles;
        AppendRound(shape, i, pos, color, e);
        ShapeFragmentsNext(start, before, particles, shape, i, pos, color, velocityFactor, e);
        i := i + 1;
      }
      LoopBoundExact(shape, n, i);
    }

    /** Iteration `i` of the shape loops in `createFirework`. The heart and
        ring inner seeds scale the vector the outer `createParticle` call
        left behind, which is the outer particle's velocity. */
    method AppendRound(shape: Shape, i: nat, pos: Vec3, color: Color, e: Entropy)
      requires Valid()
      modifies this
      ensures Valid()
      ensures particles == old(particles) + Round(shape, i, pos, color, velocityFactor, e)
    {
      var vf := velocityFactor;
      match shape {
        case Sphere =>
          var _ := CreateParticle(pos, e.direction(i), color, vf * 1.2, e.roll(i, 0));
        case Heart =>
          var direction := CreateParticle(pos, e.direction(i), color, vf * 1.5, e.roll(i, 0));
          if i % 2 == 0 {
            var innerScale := 0.7 + e.scalar(i) * 0.3;
            var _ := CreateParticle(pos, Scale(direction, innerScale), color, vf * 1.2, e.roll(i, 1));
          }
        case Ring =>
          var direction := CreateParticle(pos, e.direction(i), color, vf * 1.3, e.roll(i, 0));
          if i % 2 == 0 {
            var _ := CreateParticle(pos, Scale(direction, 0.6), color, vf, e.roll(i, 1));
          }
        case Double =>
          var _ := CreateParticle(pos, Scale(e.direction(i), 1.4), color, vf * 1.2, e.roll(i, 0));
          var _ := CreateParticle(pos, Scale(e.direction(i), 0.7), color, vf, e.roll(i, 1));
        case Burst =>
          var speed := BurstSpeed(vf, e.scalar(i));
          var _ := CreateParticle(pos, e.direction(i), color, speed, e.roll(i, 0));
      }
    }

    /** `totalVertices`, summed front to back as `particles.forEach` does. */
    method CountVertices() returns (total: nat)
      ensures total == VertexCount(particles)
    {
      total := 0;
      var k := 0;
      while k < |particles|
        invariant k <= |particles|
        invariant total == VertexCount(particles[..k])
      {
        VertexCountAppend(particles[..k], particles[k]);
        assert particles[..k + 1] == particles[..k] + [particles[k]];
        total := total + 1 + |particles[k].trail|;
        k := k + 1;
      }
      assert particles[..k] == particles;
    }

    /** The same walk, counting each trail as it will be after the update. */
    method CountVerticesAhead() returns (total: nat)
      ensures total == VertexCountAhead(particles)
    {
      total := 0;
      var k := 0;
      while k < |particles|
        invariant k <= |particles|
        invariant total == VertexCountAhead(particles[..k])
      {
        VertexCountAheadAppend(particles[..k], particles[k]);
        assert particles[..k + 1] == particles[..k] + [particles[k]];
        total := total + 1 + Min(|particles[k].trail| + 1, particles[k].trailLength);
        k := k + 1;
      }
      assert particles[..k] == particles;
    }

    /** The back-to-front loop of `updateParticles`: each particle is
        stepped in place, spliced out if its alpha reached zero, and
        otherwise its head and trail vertices are written at the running
        `index` into the two zero-filled arrays. */
    method StepAndWrite(positions: array<real>, colors: array<real>)
      returns (index: nat, ghost emitted: seq<Vertex>)
      requires Valid() && positions != colors
      requires Holds(positions[..], [], Positions) && Holds(colors[..], [], Colors)
      modifies this, positions, colors
      ensures Valid()
      ensures particles == Advance(old(particles))
      ensures emitted == Emitted(particles) && index == |emitted|
      ensures Holds(positions[..], emitted, Positions) && Holds(colors[..], emitted, Colors)
    {
      ghost var orig := particles;
      index := 0;
      emitted := [];
      var i := |particles|;
      while i > 0
        invariant 0 <= i <= |orig|
        invariant particles == orig[..i] + Advance(orig[i..])
        invariant emitted == Emitted(Advance(orig[i..])) && index == |emitted|
        invariant Holds(positions[..], emitted, Positions) && Holds(colors[..], emitted, Colors)
      {
        i := i - 1;
        SpliceStep(orig, i, particles);
        var p := Step(particles[i]);
        particles := particles[i := p];
        if p.alpha <= 0.0 {
          particles := particles[..i] + particles[i + 1..];
          continue;
        }
        index, emitted := WriteParticle(positions, colors, index, emitted, p);
      }
      assert orig[0..] == orig;
      AdvanceHealthy(orig);
    }

    /** The body of `updateParticles()` after the pre-count: two zero-filled
        arrays of `3 * totalVertices` floats, the back-to-front pass, and the
        `slice(0, index * 3)`, which clamps at the arrays' end. */
    method Render(totalVertices: nat) returns (positions: seq<real>, colors: seq<real>)
      requires Valid()
      modifies this
      ensures Valid()
      ensures particles == Advance(old(particles))
      ensures var shown := Min(|Emitted(particles)|, totalVertices);
        && positions == Flatten(Emitted(particles), Positions)[..3 * shown]
        && colors == Flatten(Emitted(particles), Colors)[..3 * shown]
    {
      var posBuf := new real[totalVertices * 3](_ => 0.0);
      var colBuf := new real[totalVertices * 3](_ => 0.0);
      var index, emitted := StepAndWrite(posBuf, colBuf);
      var end := Min(index * 3, posBuf.Length);
      positions := posBuf[..end];
      colors := colBuf[..end];
      TakeFlattened(posBuf[..], emitted, Positions, end);
      TakeFlattened(colBuf[..], emitted, Colors, end);
    }

    /** `updateParticles()` as written. The arrays are sized from the trail
        lengths before the update, so when trails grew the last vertices are
        dropped by the typed arrays and `slice` clamps: the renderer gets the
        first `min(written, counted)` vertices of the stream. */
    method UpdateParticles() returns (positions: seq<real>, colors: seq<real>)
      requires Valid()
      modifies this
      ensures Valid()
      ensures particles == Advance(old(particles))
      ensures var shown := Min(|Emitted(particles)|, VertexCount(old(particles)));
        && positions == Flatten(Emitted(particles), Positions)[..3 * shown]
        && colors == Flatten(Emitted(particles), Colors)[..3 * shown]
    {
      var totalVertices := CountVertices();
      positions, colors := Render(totalVertices);
    }

    /** `updateParticles()` with the pre-count taken over the trail lengths
        the update will produce: nothing is dropped and the renderer gets
        exactly the vertices of every survivor. */
    method UpdateParticlesSized() returns (positions: seq<real>, colors: seq<real>)
      requires Valid()
      modifies this
      ensures Valid()
      ensures particles == Advance(old(particles))
      ensures positions == Flatten(Emitted(particles), Positions)
      ensures colors == Flatten(Emitted(particles), Colors)
      ensures |positions| == |colors| == 3 * VertexCount(particles)
    {
      AheadCoversEmitted(particles);
      var totalVertices := CountVerticesAhead();
      positions, colors := Render(totalVertices);
      EmittedLength(particles);
      assert Flatten(Emitted(particles), Positions)[..3 * |Emitted(particles)|] == Flatten(Emitted(particles), Positions);
      assert Flatten(Emitted(particles), Colors)[..3 * |Emitted(particles)|] == Flatten(Emitted(particles), Colors);
    }

    /** `autoLaunch()`: one rising spark now, and the explosion the 800 ms
        timer will set off, returned instead of scheduled, together with the
        delay before the next automatic launch. */
    method AutoLaunch(range: VisibleRange, d: LaunchDraws, sparkDraws: Vec3, color: Color)
      returns (pending: PendingExplosion, nextDelay: real)
      requires Valid()
      modifies this
      ensures Valid()
      ensures var x := (d.x - 0.5) * range.width * 1.5;
        var startZ := (d.startZ - 0.5) * 100.0;
        && particles == old(particles) +
             [Spark(Vec3(x + (d.startJitter - 0.5) * 50.0, range.bottom - 20.0, startZ), sparkDraws, color)]
        && pending == PendingExplosion(x, range.bottom + range.height * (0.4 + d.height * 0.3),
                                       startZ + (d.explosionZ - 0.5) * 50.0)
      ensures nextDelay == minInterval + d.interval * (maxInterval - minInterval)
    {
      var x := (d.x - 0.5) * range.width * 1.5;
      var startY := range.bottom - 20.0;
      var startX := x + (d.startJitter - 0.5) * 50.0;
      var startZ := (d.startZ - 0.5) * 100.0;
      CreateFirework(startX, startY, startZ, true, Sphere, color, sparkDraws, NoEntropy());
      pending := PendingExplosion(x, range.bottom + range.height * (0.4 + d.height * 0.3),
                                  startZ + (d.explosionZ - 0.5) * 50.0);
      nextDelay := minInterval + d.interval * (maxInterval - minInterval);
    }

    /** `handleInteraction(clientX, _)`: the spark starts under the pointer's
        horizontal fraction of the window, mapped onto 1.2 visible widths from
        the left edge. */
    method HandleInteraction(clientX: real, innerWidth: real, range: VisibleRange, d: LaunchDraws,
                             sparkDraws: Vec3, color: Color)
      returns (pending: PendingExplosion)
      requires Valid() && innerWidth > 0.0
      modifies this
      ensures Valid()
      ensures var x := (clientX / innerWidth) * range.width * 1.2 + range.left;
        var z := (d.startZ - 0.5) * 100.0;
        && particles == old(particles) + [Spark(Vec3(x, range.bottom - 20.0, z), sparkDraws, color)]
        && pending == PendingExplosion(x, range.bottom + range.height * (0.4 + d.height * 0.3),
                                       z + (d.explosionZ - 0.5) * 50.0)
    {
      var x := (clientX / innerWidth) * range.width * 1.2 + range.left;
      var z := (d.startZ - 0.5) * 100.0;
      var startY := range.bottom - 20.0;
      CreateFirework(x, startY, z, true, Sphere, color, sparkDraws, NoEntropy());
      pending := PendingExplosion(x, range.bottom + range.height * (0.4 + d.height * 0.3),
                                  z + (d.explosionZ - 0.5) * 50.0);
    }

    /** The deferred half of a launch: the timer's `createFirework` call. */
    method Explode(pending: PendingExplosion, shape: Shape, color: Color, e: Entropy)
      requires Valid()
      modifies this
      ensures Valid()
      ensures particles == old(particles) +
        Explosion(shape, Vec3(pending.x, pending.y, pending.z), color, particleCount, velocityFactor, e)
    {
      CreateFirework(pending.x, pending.y, pending.z, false, shape, color, Vec3(0.0, 0.0, 0.0), e);
    }
  }

  /** Draws a rising launch does not use. */
  function NoEntropy(): Entropy {
    var still := FragmentRoll(0.0, Vec3(0.0, 0.0, 0.0), 1.0, Rgb(0.0, 0.0, 0.0));
    Entropy(_ => Vec3(0.0, 0.0, 0.0), _ => 0.0, (_, _) => still, _ => Vec3(0.0, 0.0, 0.0), _ => still)
  }

  /** The `decorationCount` of `createFirework`, computed as the source does,
      with the floor taken of a real product. */
  method DecorationTotal(shape: Shape, n: nat) returns (count: nat)
    ensures count == DecorationCount(shape, n)
    ensures shape == Heart ==> 2 * count <= n < 2 * count + 2
    ensures shape != Heart ==> 10 * count <= 3 * n < 10 * count + 10
  {
    DecorationFloor(shape, n);
    count := if shape == Heart then ((n as real) * 0.5).Floor else ((n as real) * 0.3).Floor;
  }

  /** `Math.floor(n * 0.5)` and `Math.floor(n * 0.3)` on exact reals. */
  lemma DecorationFloor(shape: Shape, n: nat)
    ensures shape == Heart ==> ((n as real) * 0.5).Floor == DecorationCount(shape, n)
    ensures shape != Heart ==> ((n as real) * 0.3).Floor == DecorationCount(shape, n)
  {
    var k := DecorationCount(shape, n);
    if shape == Heart {
      assert 2 * k <= n < 2 * k + 2;
      assert (k as real) <= (n as real) * 0.5 < (k as real) + 1.0;
    } else {
      assert 10 * k <= 3 * n < 10 * k + 10;
      assert (10 * k) as real <= (3 * n) as real < (10 * k + 10) as real;
      assert (k as real) <= (n as real) * 0.3 < (k as real) + 1.0;
    }
  }

  /** The prefix a clamped `slice(0, end)` returns from a buffer holding the
      stream `vs` is the matching prefix of the flattened stream. */
  lemma TakeFlattened(buf: seq<real>, vs: seq<Vertex>, ch: Channel, end: nat)
    requires Holds(buf, vs, ch)
    requires end <= |buf| && end <= 3 * |vs|
    ensures buf[..end] == Flatten(vs, ch)[..end]
  {
    var flat := Flatten(vs, ch);
    forall k | 0 <= k < end
      ensures buf[..end][k] == flat[..end][k]
    {
      assert buf[k] == Component(vs[k / 3], ch, k % 3);
    }
  }
}
