/** A single firework particle and what one animation frame does to it.

    `Step` is the per-particle part of `updateParticles`: gravity, then
    integration, then the alpha decay, then the trail update. `Advance` is the
    whole back-to-front pass over the particle array seen as a value: every
    particle is stepped once and those whose alpha dropped to zero or below are
    spliced out, the others keeping their order. */
module Particles {
  import opened Vectors

  /** Subtracted from `velocity.y` once per frame. */
  const Gravity: real := 0.05
  /** Subtracted from `alpha` once per frame. */
  const Decay: real := 0.01
  /** Trail bound of a rising spark. */
  const SparkTrail: nat := 8
  /** Trail bound of an explosion fragment. */
  const FragmentTrail: nat := 5

  datatype Particle = Particle(
    position: Vec3,
    velocity: Vec3,
    color: Color,
    alpha: real,
    trail: seq<Vec3>,    // past positions, most recent first
    trailLength: nat)

  /** Not yet faded out: the particle stays in the array and is drawn. */
  predicate Alive(p: Particle) {
    p.alpha > 0.0
  }

  /** What holds of every particle the store keeps between frames. */
  predicate Healthy(p: Particle) {
    0.0 < p.alpha <= 1.0 && |p.trail| <= p.trailLength
  }

  predicate AllHealthy(ps: seq<Particle>) {
    forall i :: 0 <= i < |ps| ==> Healthy(ps[i])
  }

  /** `trail.unshift(pos)` followed by at most one `trail.pop()`. */
  function PushTrail(trail: seq<Vec3>, pos: Vec3, limit: nat): seq<Vec3> {
    var t := [pos] + trail;
    if |t| > limit then t[..|t| - 1] else t
  }

  /** One frame of one particle, in the order the source applies it. */
  function Step(p: Particle): Particle {
    var v := p.velocity.(y := p.velocity.y - Gravity);
    var pos := Add(p.position, v);
    p.(velocity := v, position := pos, alpha := p.alpha - Decay,
       trail := PushTrail(p.trail, pos, p.trailLength))
  }

  /** The particle array after one pass: stepped, expired ones removed. */
  function Advance(ps: seq<Particle>): seq<Particle> {
    if ps == [] then []
    else
      var q := Step(ps[0]);
      (if Alive(q) then [q] else []) + Advance(ps[1..])
  }

  /** `n` frames in a row. */
  function StepN(p: Particle, n: nat): Particle
    decreases n
  {
    if n == 0 then p else StepN(Step(p), n - 1)
  }

  function Min(a: int, b: int): int {
    if a <= b then a else b
  }

  /** Gravity is applied before integration within the same frame: the new
      velocity already carries the gravity term and the position moves by it. */
  lemma GravityBeforeIntegration(p: Particle)
    ensures Step(p).velocity == Vec3(p.velocity.x, p.velocity.y - 0.05, p.velocity.z)
    ensures Step(p).position == Add(p.position, Step(p).velocity)
    ensures Step(p).position.y == p.position.y + p.velocity.y - 0.05
    ensures Step(p).alpha == p.alpha - 0.01
    ensures Step(p).color == p.color && Step(p).trailLength == p.trailLength
  {
  }

  /** The trail gains the new position at its front and keeps at most
      `trailLength` entries, losing only the oldest one. */
  lemma TrailUpdate(p: Particle)
    requires |p.trail| <= p.trailLength
    ensures |Step(p).trail| == Min(|p.trail| + 1, p.trailLength)
    ensures |Step(p).trail| <= p.trailLength
    ensures p.trailLength > 0 ==> Step(p).trail[0] == Step(p).position
    ensures p.trailLength > 0 ==> Step(p).trail[1..] == p.trail[..|Step(p).trail| - 1]
  {
  }

  /** A kept particle that survives a frame is still healthy. */
  lemma StepKeepsHealthy(p: Particle)
    requires Healthy(p)
    ensures Alive(Step(p)) ==> Healthy(Step(p))
    ensures Step(p).alpha < p.alpha
  {
    TrailUpdate(p);
  }

  /** Everything `Advance` returns is healthy, and nothing expired survives. */
  lemma {:induction false} AdvanceHealthy(ps: seq<Particle>)
    requires AllHealthy(ps)
    ensures AllHealthy(Advance(ps))
    ensures |Advance(ps)| <= |ps|
  {
    if ps != [] {
      StepKeepsHealthy(ps[0]);
      AdvanceHealthy(ps[1..]);
    }
  }

  function Shift(s: seq<nat>): seq<nat> {
    seq(|s|, k requires 0 <= k < |s| => s[k] + 1)
  }

  /** The indices of the particles that survive the pass, ascending. */
  function Kept(ps: seq<Particle>): seq<nat> {
    if ps == [] then []
    else (if Alive(Step(ps[0])) then [0] else []) + Shift(Kept(ps[1..]))
  }

  /** Survivors keep their relative order: the k-th survivor is the stepped
      version of the particle at the k-th kept index, the kept indices
      ascend, and an index is kept exactly when its stepped particle is alive.
      So every original particle is visited once and none is duplicated. */
  lemma AdvanceKeepsOrder(ps: seq<Particle>)
    ensures |Kept(ps)| == |Advance(ps)|
    ensures forall k :: 0 <= k < |Kept(ps)| ==>
      Kept(ps)[k] < |ps| && Advance(ps)[k] == Step(ps[Kept(ps)[k]])
    ensures forall k, l :: 0 <= k < l < |Kept(ps)| ==> Kept(ps)[k] < Kept(ps)[l]
    ensures forall j :: 0 <= j < |ps| ==> (Alive(Step(ps[j])) <==> j in Kept(ps))
  {
    KeptPicksSurvivors(ps);
    KeptAscends(ps);
    KeptExactlyAlive(ps);
  }

  lemma {:induction false} KeptPicksSurvivors(ps: seq<Particle>)
    ensures |Kept(ps)| == |Advance(ps)|
    ensures forall k :: 0 <= k < |Kept(ps)| ==>
      Kept(ps)[k] < |ps| && Advance(ps)[k] == Step(ps[Kept(ps)[k]])
  {
    if ps != [] {
      var rest := ps[1..];
      KeptPicksSurvivors(rest);
      var kr := Kept(rest);
      var d := if Alive(Step(ps[0])) then 1 else 0;
      assert Kept(ps) == (if d == 1 then [0] else []) + Shift(kr);
      assert Advance(ps) == (if d == 1 then [Step(ps[0])] else []) + Advance(rest);
      forall k | d <= k < |Kept(ps)|
        ensures Kept(ps)[k] < |ps| && Advance(ps)[k] == Step(ps[Kept(ps)[k]])
      {
        assert Kept(ps)[k] == kr[k - d] + 1;
        assert Advance(ps)[k] == Advance(rest)[k - d];
        assert ps[kr[k - d] + 1] == rest[kr[k - d]];
      }
    }
  }

  lemma {:induction false} KeptAscends(ps: seq<Particle>)
    ensures forall k :: 0 <= k < |Kept(ps)| ==> Kept(ps)[k] < |ps|
    ensures forall k, l :: 0 <= k < l < |Kept(ps)| ==> Kept(ps)[k] < Kept(ps)[l]
  {
    if ps != [] {
      var rest := ps[1..];
      KeptAscends(rest);
      var kr := Kept(rest);
      var d := if Alive(Step(ps[0])) then 1 else 0;
      assert Kept(ps) == (if d == 1 then [0] else []) + Shift(kr);
      forall k | d <= k < |Kept(ps)|
        ensures Kept(ps)[k] == kr[k - d] + 1
      {
      }
    }
  }

  lemma {:induction false} KeptExactlyAlive(ps: seq<Particle>)
    ensures forall j :: 0 <= j < |ps| ==> (Alive(Step(ps[j])) <==> j in Kept(ps))
  {
    if ps != [] {
      var rest := ps[1..];
      KeptExactlyAlive(rest);
      var kr := Kept(rest);
      var sh := Shift(kr);
      var head: seq<nat> := if Alive(Step(ps[0])) then [0] else [];
      assert Kept(ps) == head + sh;
      assert 0 !in sh;
      forall j | 0 < j < |ps|
        ensures Alive(Step(ps[j])) <==> j in Kept(ps)
      {
        assert ps[j] == rest[j - 1];
        if j - 1 in kr {
          var k :| 0 <= k < |kr| && kr[k] == j - 1;
          assert sh[k] == j;
        }
        if j in sh {
          var k :| 0 <= k < |sh| && sh[k] == j;
          assert kr[k] == j - 1;
        }
      }
    }
  }

  /** Alpha falls by exactly `Decay` per frame (exact reals). */
  lemma {:induction false} AlphaAfter(p: Particle, n: nat)
    ensures StepN(p, n).alpha == p.alpha - (n as real) * Decay
    decreases n
  {
    if n > 0 {
      AlphaAfter(Step(p), n - 1);
    }
  }

  /** A particle born with alpha 1 is alive after `n` frames exactly when
      `n < 100`; it is removed in the hundredth pass. */
  lemma Lifetime(p: Particle, n: nat)
    requires p.alpha == 1.0
    ensures Alive(StepN(p, n)) <==> n < 100
  {
    AlphaAfter(p, n);
  }

  /** After `n` frames the trail holds `min(|trail| + n, trailLength)`
      positions: a fresh particle's trail is as long as the frames it has
      lived, capped by its bound. */
  lemma {:induction false} TrailAfter(p: Particle, n: nat)
    requires |p.trail| <= p.trailLength
    ensures StepN(p, n).trailLength == p.trailLength
    ensures |StepN(p, n).trail| == Min(|p.trail| + n, p.trailLength)
    decreases n
  {
    if n > 0 {
      TrailUpdate(p);
      TrailAfter(Step(p), n - 1);
    }
  }
}
