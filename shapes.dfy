/** What `createFirework`, `createParticle` and `addDecorationParticles`
    append to the particle array.

    Directions come from trigonometry and speeds from `Math.random`; both are
    inputs here, gathered in an `Entropy` value indexed by loop iteration. What
    is modelled exactly is how many particles each shape appends, in which
    order, with which speed factor, and their initial fields.

    `createParticle` turns the direction vector it is given into the new
    particle's velocity in place (scaled, then offset, as one vector).
    The heart and ring loops then clone that same vector for their inner
    seed, so the inner seed's direction is the outer particle's velocity,
    not the unit direction. `Round` keeps that behaviour. */
module Shapes {
  import opened Vectors
  import opened Particles

  datatype Shape = Sphere | Ring | Double | Heart | Burst

  /** The random draws one `createParticle` call makes: the speed jitter,
      the three offset draws, the 30% recolour draw, and the colour the
      HSL jitter would produce. */
  datatype FragmentRoll = FragmentRoll(speed: real, offset: Vec3, recolour: real, shifted: Color)

  /** Everything an explosion draws from trigonometry and `Math.random`. */
  datatype Entropy = Entropy(
    direction: nat -> Vec3,               // the shape's direction at loop index i
    scalar: nat -> real,                  // heart inner scale draw, burst speed draw, at loop index i
    roll: (nat, nat) -> FragmentRoll,     // createParticle draws at loop index i, 0 = outer, 1 = inner
    decoration: nat -> Vec3,              // random unit direction of decoration i
    decorationRoll: nat -> FragmentRoll)  // createParticle draws of decoration i

  /** `direction * (speed * (0.9 + r * 0.2)) + offset`, the offset being
      `(r - 0.5) * 0.1` per axis. */
  function LaunchVelocity(direction: Vec3, speed: real, roll: FragmentRoll): Vec3 {
    var randomSpeed := speed * (0.9 + roll.speed * 0.2);
    var o := roll.offset;
    Add(Scale(direction, randomSpeed), Vec3((o.x - 0.5) * 0.1, (o.y - 0.5) * 0.1, (o.z - 0.5) * 0.1))
  }

  /** The particle `createParticle` appends. */
  function Fragment(origin: Vec3, direction: Vec3, color: Color, speed: real, roll: FragmentRoll): Particle {
    Particle(origin, LaunchVelocity(direction, speed, roll),
             if roll.recolour < 0.3 then roll.shifted else color,
             1.0, [], FragmentTrail)
  }

  /** The rising spark of `createFirework(x, y, z, true)`; `r` holds its
      three velocity draws. */
  function Spark(origin: Vec3, r: Vec3, color: Color): Particle {
    Particle(origin, Vec3((r.x - 0.5) * 0.5, r.y * 3.0 + 4.0, (r.z - 0.5) * 0.5),
             color, 1.0, [], SparkTrail)
  }

  /** The particles loop iteration `i` of a shape appends, in order. */
  function Round(shape: Shape, i: nat, origin: Vec3, color: Color, vf: real, e: Entropy): seq<Particle> {
    match shape
    case Sphere =>
      [Fragment(origin, e.direction(i), color, vf * 1.2, e.roll(i, 0))]
    case Heart =>
      var outer := Fragment(origin, e.direction(i), color, vf * 1.5, e.roll(i, 0));
      [outer] + if i % 2 == 0
        then [Fragment(origin, Scale(outer.velocity, 0.7 + e.scalar(i) * 0.3), color, vf * 1.2, e.roll(i, 1))]
        else []
    case Ring =>
      var outer := Fragment(origin, e.direction(i), color, vf * 1.3, e.roll(i, 0));
      [outer] + if i % 2 == 0
        then [Fragment(origin, Scale(outer.velocity, 0.6), color, vf, e.roll(i, 1))]
        else []
    case Double =>
      [Fragment(origin, Scale(e.direction(i), 1.4), color, vf * 1.2, e.roll(i, 0)),
       Fragment(origin, Scale(e.direction(i), 0.7), color, vf, e.roll(i, 1))]
    case Burst =>
      [Fragment(origin, e.direction(i), color, BurstSpeed(vf, e.scalar(i)), e.roll(i, 0))]
  }

  /** A burst fragment's speed: the velocity factor raised by up to half. */
  function BurstSpeed(vf: real, draw: real): real {
    vf * (1.0 + draw * 0.5)
  }

  /** The loop condition of each shape: `i < particleCount`, or
      `i < particleCount * 1.5` for the burst. */
  predicate LoopContinues(shape: Shape, i: nat, n: nat) {
    if shape == Burst then (i as real) < (n as real) * 1.5 else i < n
  }

  /** The number of iterations each shape loop runs. */
  function LoopBound(shape: Shape, n: nat): nat {
    if shape == Burst then (3 * n + 1) / 2 else n
  }

  /** Everything the first `k` iterations of a shape loop append. */
  function ShapeFragments(shape: Shape, k: nat, origin: Vec3, color: Color, vf: real, e: Entropy): seq<Particle>
    decreases k
  {
    if k == 0 then []
    else ShapeFragments(shape, k - 1, origin, color, vf, e) + Round(shape, k - 1, origin, color, vf, e)
  }

  /** The decoration count: the floor of the base count times 0.5 for a
      heart and times 0.3 for every other shape. */
  function DecorationCount(shape: Shape, n: nat): nat {
    if shape == Heart then n / 2 else (3 * n) / 10
  }

  /** What `addDecorationParticles(pos, color, count)` appends. */
  function Decorations(count: nat, origin: Vec3, color: Color, vf: real, e: Entropy): seq<Particle> {
    seq(count, i requires 0 <= i < count =>
      Fragment(origin, e.decoration(i), color, vf * 0.5, e.decorationRoll(i)))
  }

  /** Everything one exploding `createFirework` appends. */
  function Explosion(shape: Shape, origin: Vec3, color: Color, n: nat, vf: real, e: Entropy): seq<Particle> {
    ShapeFragments(shape, LoopBound(shape, n), origin, color, vf, e)
      + Decorations(DecorationCount(shape, n), origin, color, vf, e)
  }

  /** The shape particles of an explosion with base count `n`. */
  function ShapeCount(shape: Shape, n: nat): nat {
    match shape
    case Sphere => n
    case Heart => n + (n + 1) / 2
    case Ring => n + (n + 1) / 2
    case Double => 2 * n
    case Burst => (3 * n + 1) / 2
  }

  /** A fragment just created at `origin`. */
  predicate FreshFragment(p: Particle, origin: Vec3) {
    p.position == origin && p.alpha == 1.0 && p.trail == [] && p.trailLength == FragmentTrail
  }

  /** The burst loop runs `ceil(1.5 * n)` times: `(3n + 1) / 2` is the first
      index its condition rejects. */
  lemma LoopBoundExact(shape: Shape, n: nat, i: nat)
    ensures LoopContinues(shape, i, n) <==> i < LoopBound(shape, n)
  {
    if shape == Burst {
      var b := (3 * n + 1) / 2;
      assert 2 * b == 3 * n + 1 || 2 * b == 3 * n;
      assert (n as real) * 1.5 == (3 * n) as real / 2.0;
      if i < b {
        assert 2 * i < 3 * n;
        assert (2 * i) as real < (3 * n) as real;
      } else {
        assert 2 * i >= 3 * n;
        assert (2 * i) as real >= (3 * n) as real;
      }
    }
  }

  /** After `k` iterations, a sphere or burst loop has appended `k`
      particles, a double loop `2k`, and a heart or ring loop `k` plus one
      for each even index below `k`. */
  lemma {:induction false} ShapeFragmentsCount(shape: Shape, k: nat, origin: Vec3, color: Color, vf: real, e: Entropy)
    ensures |ShapeFragments(shape, k, origin, color, vf, e)| == PrefixCount(shape, k)
    decreases k
  {
    if k > 0 {
      ShapeFragmentsCount(shape, k - 1, origin, color, vf, e);
      RoundCount(shape, k - 1, origin, color, vf, e);
    }
  }

  /** The particles of iterations `0 .. k-1` of a shape loop. */
  function PrefixCount(shape: Shape, k: nat): nat {
    match shape
    case Sphere => k
    case Burst => k
    case Double => 2 * k
    case Heart => k + (k + 1) / 2
    case Ring => k + (k + 1) / 2
  }

  /** One iteration appends one particle for a sphere or burst, two for a
      double, and two for a heart or ring on an even index, one otherwise. */
  lemma RoundCount(shape: Shape, i: nat, origin: Vec3, color: Color, vf: real, e: Entropy)
    ensures |Round(shape, i, origin, color, vf, e)| == PrefixCount(shape, i + 1) - PrefixCount(shape, i)
  {
    if shape == Heart || shape == Ring {
      EvenStep(i);
    }
  }

  /** One more index adds one to the count of even indices below it exactly
      when the index itself is even. */
  lemma EvenStep(i: nat)
    ensures (i + 2) / 2 - (i + 1) / 2 == if i % 2 == 0 then 1 else 0
  {
  }

  /** The exact number of particles an explosion with base count `n`
      appends: the shape's particles plus `floor(n * 0.5)` decorations for a
      heart and `floor(n * 0.3)` otherwise. */
  lemma ExplosionCount(shape: Shape, origin: Vec3, color: Color, n: nat, vf: real, e: Entropy)
    ensures |ShapeFragments(shape, LoopBound(shape, n), origin, color, vf, e)| == ShapeCount(shape, n)
    ensures |Explosion(shape, origin, color, n, vf, e)| == ShapeCount(shape, n) + DecorationCount(shape, n)
    ensures ShapeCount(shape, n) >= n
  {
    ShapeFragmentsCount(shape, LoopBound(shape, n), origin, color, vf, e);
  }

  /** Every shape particle starts at the explosion origin with alpha 1, an
      empty trail and trail bound 5. */
  lemma {:induction false} ShapeFragmentsFresh(shape: Shape, k: nat, origin: Vec3, color: Color, vf: real, e: Entropy)
    ensures forall q :: q in ShapeFragments(shape, k, origin, color, vf, e) ==> FreshFragment(q, origin)
    decreases k
  {
    if k > 0 {
      var earlier := ShapeFragments(shape, k - 1, origin, color, vf, e);
      var last := Round(shape, k - 1, origin, color, vf, e);
      ShapeFragmentsFresh(shape, k - 1, origin, color, vf, e);
      RoundFresh(shape, k - 1, origin, color, vf, e);
      forall q | q in earlier + last
        ensures FreshFragment(q, origin)
      {
        if q !in earlier {
          assert q in last;
        }
      }
    }
  }

  /** Every particle one iteration appends is a fresh fragment. */
  lemma RoundFresh(shape: Shape, i: nat, origin: Vec3, color: Color, vf: real, e: Entropy)
    ensures forall q :: q in Round(shape, i, origin, color, vf, e) ==> FreshFragment(q, origin)
  {
    var r := Round(shape, i, origin, color, vf, e);
    forall j | 0 <= j < |r|
      ensures FreshFragment(r[j], origin)
    {
    }
  }

  /** The same holds of decorations, hence of the whole explosion. */
  lemma ExplosionFresh(shape: Shape, origin: Vec3, color: Color, n: nat, vf: real, e: Entropy)
    ensures forall q :: q in Explosion(shape, origin, color, n, vf, e) ==> FreshFragment(q, origin)
    ensures forall q :: q in Explosion(shape, origin, color, n, vf, e) ==> Healthy(q)
  {
    var sf := ShapeFragments(shape, LoopBound(shape, n), origin, color, vf, e);
    var ds := Decorations(DecorationCount(shape, n), origin, color, vf, e);
    ShapeFragmentsFresh(shape, LoopBound(shape, n), origin, color, vf, e);
    forall q | q in sf + ds
      ensures FreshFragment(q, origin) && Healthy(q)
    {
      if q in sf {
        assert FreshFragment(q, origin);
      } else {
        assert q in ds;
        var i :| 0 <= i < |ds| && ds[i] == q;
        assert q == Fragment(origin, e.decoration(i), color, vf * 0.5, e.decorationRoll(i));
      }
    }
  }

  /** Draws that leave a direction unchanged: speed jitter 1, no offset, no
      recolour, direction (1, 0, 0) everywhere, and `draw` for the heart's
      inner scale and the burst's speed. */
  function NeutralEntropy(color: Color, draw: real): Entropy {
    var roll := FragmentRoll(0.5, Vec3(0.5, 0.5, 0.5), 1.0, color);
    Entropy(_ => Vec3(1.0, 0.0, 0.0), _ => draw, (_, _) => roll, _ => Vec3(1.0, 0.0, 0.0), _ => roll)
  }

  /** Because the inner ring seed starts from the outer particle's velocity,
      its speed grows with the square of the velocity factor. With neutral
      draws the outer fragment moves at `1.3 vf` and the inner one at
      `0.78 vf^2`: the "inner" ring is the faster one exactly when
      `vf > 5/3`, which includes the desktop factor 2. */
  lemma RingInnerOutrunsOuter(origin: Vec3, color: Color, vf: real)
    requires vf > 0.0
    ensures var r := Round(Ring, 0, origin, color, vf, NeutralEntropy(color, 0.0));
      && |r| == 2
      && r[0].velocity == Vec3(1.3 * vf, 0.0, 0.0)
      && r[1].velocity == Vec3(0.78 * vf * vf, 0.0, 0.0)
      && (r[1].velocity.x > r[0].velocity.x <==> vf > 5.0 / 3.0)
  {
    var roll := FragmentRoll(0.5, Vec3(0.5, 0.5, 0.5), 1.0, color);
    var outer := LaunchVelocity(Vec3(1.0, 0.0, 0.0), vf * 1.3, roll);
    assert outer == Vec3(1.3 * vf, 0.0, 0.0);
    var inner := LaunchVelocity(Scale(outer, 0.6), vf, roll);
    assert inner == Vec3(0.78 * vf * vf, 0.0, 0.0);
    assert 0.78 * vf * vf > 1.3 * vf <==> 0.78 * vf > 1.3;
  }

  /** The heart's fill seed has the same flaw: with neutral draws and inner
      scale draw `s`, the outline moves at `1.5 vf` and the fill seed at
      `(1.26 + 0.54 s) vf^2`, so at either device preset (vf 1.5 or 2) the
      fill outruns the outline whatever the draw. */
  lemma HeartFillOutrunsOutline(origin: Vec3, color: Color, vf: real, s: real)
    requires vf >= 1.5 && 0.0 <= s < 1.0
    ensures var r := Round(Heart, 0, origin, color, vf, NeutralEntropy(color, s));
      && |r| == 2
      && r[0].velocity == Vec3(1.5 * vf, 0.0, 0.0)
      && r[1].velocity == Vec3((1.26 + 0.54 * s) * vf * vf, 0.0, 0.0)
      && r[1].velocity.x > r[0].velocity.x
  {
    var roll := FragmentRoll(0.5, Vec3(0.5, 0.5, 0.5), 1.0, color);
    var outer := LaunchVelocity(Vec3(1.0, 0.0, 0.0), vf * 1.5, roll);
    assert outer == Vec3(1.5 * vf, 0.0, 0.0);
    var inner := LaunchVelocity(Scale(outer, 0.7 + s * 0.3), vf * 1.2, roll);
    assert inner.x == (1.5 * vf) * (0.7 + s * 0.3) * (vf * 1.2);
    assert inner == Vec3((1.26 + 0.54 * s) * vf * vf, 0.0, 0.0);
    assert (1.26 + 0.54 * s) * vf >= 1.26 * vf >= 1.89;
    assert (1.26 + 0.54 * s) * vf * vf > 1.5 * vf;
  }

  /** One shape-loop iteration as evidently intended: the heart's fill seed
      and the ring's inner seed start from the unit direction, scaled down,
      not from the velocity the outer `createParticle` call left in it. The
      other shapes have no inner seed and are unchanged. */
  function IntendedRound(shape: Shape, i: nat, origin: Vec3, color: Color, vf: real, e: Entropy): seq<Particle> {
    match shape
    case Heart =>
      [Fragment(origin, e.direction(i), color, vf * 1.5, e.roll(i, 0))] + if i % 2 == 0
        then [Fragment(origin, Scale(e.direction(i), 0.7 + e.scalar(i) * 0.3), color, vf * 1.2, e.roll(i, 1))]
        else []
    case Ring =>
      [Fragment(origin, e.direction(i), color, vf * 1.3, e.roll(i, 0))] + if i % 2 == 0
        then [Fragment(origin, Scale(e.direction(i), 0.6), color, vf, e.roll(i, 1))]
        else []
    case _ => Round(shape, i, origin, color, vf, e)
  }

  /** The draws of one `createParticle` call that leave its direction's
      heading unchanged: speed jitter 1 and no offset. */
  predicate NeutralRoll(roll: FragmentRoll) {
    roll.speed == 0.5 && roll.offset == Vec3(0.5, 0.5, 0.5)
  }

  /** The factor by which, as intended, an inner seed's velocity scales the
      outer particle's: `0.8 (0.7 + 0.3 s)` for the heart's fill
      (`(0.7 + 0.3 s) * 1.2 vf` against `1.5 vf`) and `0.6 / 1.3` for the
      ring's inner seed. */
  function InnerRatio(shape: Shape, s: real): real {
    if shape == Heart then 0.8 * (0.7 + 0.3 * s) else 0.6 / 1.3
  }

  /** With the seed taken from the direction and neutral speed and offset
      draws, at every even loop index and for every direction, the inner
      particle's velocity is the outer one's scaled by a factor in (0, 1):
      it heads the same way, more slowly. The outer particle is the one
      `Round` appends. */
  lemma IntendedInnerSlower(shape: Shape, i: nat, origin: Vec3, color: Color, vf: real, e: Entropy)
    requires shape == Heart || shape == Ring
    requires i % 2 == 0 && vf > 0.0
    requires NeutralRoll(e.roll(i, 0)) && NeutralRoll(e.roll(i, 1))
    requires 0.0 <= e.scalar(i) < 1.0
    ensures var r := IntendedRound(shape, i, origin, color, vf, e);
      var k := InnerRatio(shape, e.scalar(i));
      && |r| == 2
      && r[0] == Round(shape, i, origin, color, vf, e)[0]
      && 0.0 < k < 1.0
      && r[1].velocity == Scale(r[0].velocity, k)
  {
    var d := e.direction(i);
    var s := e.scalar(i);
    var k := InnerRatio(shape, s);
    var r := IntendedRound(shape, i, origin, color, vf, e);
    var outerSpeed := if shape == Heart then vf * 1.5 else vf * 1.3;
    var innerScale := if shape == Heart then 0.7 + s * 0.3 else 0.6;
    var innerSpeed := if shape == Heart then vf * 1.2 else vf;
    NeutralLaunch(d, outerSpeed, e.roll(i, 0));
    NeutralLaunch(Scale(d, innerScale), innerSpeed, e.roll(i, 1));
    assert r[0].velocity == Scale(d, outerSpeed);
    assert r[1].velocity == Scale(Scale(d, innerScale), innerSpeed);
    InnerProduct(shape, s, vf);
    ScaleTwice(d, innerScale, innerSpeed, outerSpeed, k);
  }

  /** Neutral draws launch along the direction at exactly the given speed. */
  lemma NeutralLaunch(d: Vec3, speed: real, roll: FragmentRoll)
    requires NeutralRoll(roll)
    ensures LaunchVelocity(d, speed, roll) == Scale(d, speed)
  {
  }

  /** The inner seed's scale times its speed is the outer speed times
      `InnerRatio`, which lies in (0, 1). */
  lemma InnerProduct(shape: Shape, s: real, vf: real)
    requires shape == Heart || shape == Ring
    requires vf > 0.0 && 0.0 <= s < 1.0
    ensures 0.0 < InnerRatio(shape, s) < 1.0
    ensures shape == Heart ==> (0.7 + s * 0.3) * (vf * 1.2) == (vf * 1.5) * InnerRatio(shape, s)
    ensures shape == Ring ==> 0.6 * vf == (vf * 1.3) * InnerRatio(shape, s)
  {
  }

  /** Scaling twice is scaling once by the product, regrouped. */
  lemma ScaleTwice(d: Vec3, a: real, b: real, c: real, k: real)
    requires a * b == c * k
    ensures Scale(Scale(d, a), b) == Scale(Scale(d, c), k)
  {
    assert d.x * a * b == d.x * (a * b) == d.x * (c * k) == d.x * c * k;
    assert d.y * a * b == d.y * (a * b) == d.y * (c * k) == d.y * c * k;
    assert d.z * a * b == d.z * (a * b) == d.z * (c * k) == d.z * c * k;
  }

  /** A rising spark starts with alpha 1, an empty trail, trail bound 8, and
      for draws in [0, 1) rises at 4 to 7 units per frame while drifting at
      most 0.25 sideways. */
  lemma SparkLaunch(origin: Vec3, r: Vec3, color: Color)
    requires 0.0 <= r.x < 1.0 && 0.0 <= r.y < 1.0 && 0.0 <= r.z < 1.0
    ensures Spark(origin, r, color).position == origin
    ensures Spark(origin, r, color).alpha == 1.0 && Spark(origin, r, color).trail == []
    ensures Spark(origin, r, color).trailLength == 8
    ensures 4.0 <= Spark(origin, r, color).velocity.y < 7.0
    ensures -0.25 <= Spark(origin, r, color).velocity.x < 0.25
    ensures -0.25 <= Spark(origin, r, color).velocity.z < 0.25
  {
  }
}
