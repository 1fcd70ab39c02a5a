/** The vertex stream `updateParticles` writes into its two `Float32Array`s.

    Each surviving particle contributes its head vertex at full alpha and then
    one vertex per trail entry, the j-th faded by `1 - j/len`. The array is
    walked back to front, so the particle at the highest index is written
    first. A typed array silently ignores a write past its end, which
    `WriteVertex` models explicitly. */
module Buffers {
  import opened Vectors
  import opened Particles

  datatype Vertex = Vertex(pos: Vec3, col: Color)

  /** Which of the two flat arrays a vertex is written into. */
  datatype Channel = Positions | Colors

  /** The fade of trail entry `j` of `len`: `1 - j/len`. */
  function TrailFade(j: nat, len: nat): real
    requires j < len
  {
    1.0 - (j as real) / (len as real)
  }

  function HeadVertex(p: Particle): Vertex {
    Vertex(p.position, Fade(p.color, p.alpha))
  }

  function TrailVertex(p: Particle, j: nat): Vertex
    requires j < |p.trail|
  {
    Vertex(p.trail[j], Fade(p.color, p.alpha * TrailFade(j, |p.trail|)))
  }

  /** Head first, then the trail, most recent entry first. */
  function ParticleVertices(p: Particle): seq<Vertex> {
    [HeadVertex(p)] + seq(|p.trail|, j requires 0 <= j < |p.trail| => TrailVertex(p, j))
  }

  /** The vertices of a particle array written back to front. */
  function Emitted(ps: seq<Particle>): seq<Vertex> {
    if ps == [] then [] else Emitted(ps[1..]) + ParticleVertices(ps[0])
  }

  /** `1 + trail.length`, the per-particle term of the pre-count. */
  function Footprint(p: Particle): nat {
    1 + |p.trail|
  }

  function VertexCount(ps: seq<Particle>): nat {
    if ps == [] then 0 else Footprint(ps[0]) + VertexCount(ps[1..])
  }

  /** Coordinate or colour channel `c` of a vertex, as stored at `3 * index + c`. */
  function Component(v: Vertex, ch: Channel, c: nat): real
    requires c < 3
  {
    match ch
    case Positions => (if c == 0 then v.pos.x else if c == 1 then v.pos.y else v.pos.z)
    case Colors => (if c == 0 then v.col.r else if c == 1 then v.col.g else v.col.b)
  }

  /** The flat layout the renderer reads: three reals per vertex. */
  function Flatten(vs: seq<Vertex>, ch: Channel): seq<real> {
    seq(3 * |vs|, k requires 0 <= k < 3 * |vs| => Component(vs[k / 3], ch, k % 3))
  }

  /** A zero-initialised typed array after the vertices `vs` were written at
      indices 0, 1, ...: slots before the end hold the flattened stream, the
      rest are still zero, and whatever lay past the array's end is gone. */
  ghost predicate Holds(buf: seq<real>, vs: seq<Vertex>, ch: Channel) {
    forall k :: 0 <= k < |buf| ==>
      buf[k] == if k < 3 * |vs| then Component(vs[k / 3], ch, k % 3) else 0.0
  }

  /** `buf[k] = x`, ignored when `k` is out of range. */
  method Put(buf: array<real>, k: nat, x: real)
    modifies buf
    ensures k < buf.Length ==> buf[..] == old(buf[..])[k := x]
    ensures k >= buf.Length ==> buf[..] == old(buf[..])
  {
    if k < buf.Length {
      buf[k] := x;
    }
  }

  /** The three writes `buf[index*3 + c] = ...` for one vertex. */
  method WriteVertex(buf: array<real>, ghost written: seq<Vertex>, index: nat, v: Vertex, ch: Channel)
    requires index == |written| && Holds(buf[..], written, ch)
    modifies buf
    ensures Holds(buf[..], written + [v], ch)
  {
    Put(buf, index * 3, Component(v, ch, 0));
    Put(buf, index * 3 + 1, Component(v, ch, 1));
    Put(buf, index * 3 + 2, Component(v, ch, 2));
    var all := written + [v];
    forall k | 0 <= k < buf.Length
      ensures buf[k] == if k < 3 * |all| then Component(all[k / 3], ch, k % 3) else 0.0
    {
      if k < 3 * index {
        assert k / 3 < index;
        assert all[k / 3] == written[k / 3];
      } else if k < 3 * index + 3 {
        assert k / 3 == index && k % 3 == k - 3 * index;
      }
    }
  }

  /** The writes of one surviving particle in `updateParticles`: its head
      at `colour * alpha`, then trail entry `j` at
      `colour * alpha * (1 - j / trail.length)`, each at the running index. */
  method WriteParticle(positions: array<real>, colors: array<real>, index: nat,
                       ghost written: seq<Vertex>, p: Particle)
    returns (next: nat, ghost now: seq<Vertex>)
    requires positions != colors && index == |written|
    requires Holds(positions[..], written, Positions) && Holds(colors[..], written, Colors)
    modifies positions, colors
    ensures now == written + ParticleVertices(p) && next == |now|
    ensures Holds(positions[..], now, Positions) && Holds(colors[..], now, Colors)
  {
    var head := Vertex(p.position, Fade(p.color, p.alpha));
    WriteVertex(positions, written, index, head, Positions);
    WriteVertex(colors, written, index, head, Colors);
    now := written + [head];
    next := index + 1;
    var j := 0;
    while j < |p.trail|
      invariant j <= |p.trail|
      invariant now == written + ParticleVertices(p)[..1 + j] && next == |now|
      invariant Holds(positions[..], now, Positions) && Holds(colors[..], now, Colors)
    {
      var trailAlpha := p.alpha * (1.0 - (j as real) / (|p.trail| as real));
      var v := Vertex(p.trail[j], Fade(p.color, trailAlpha));
      assert v == ParticleVertices(p)[1 + j];
      WriteVertex(positions, now, next, v, Positions);
      WriteVertex(colors, now, next, v, Colors);
      assert ParticleVertices(p)[..2 + j] == ParticleVertices(p)[..1 + j] + [v];
      now := now + [v];
      next := next + 1;
      j := j + 1;
    }
    assert ParticleVertices(p)[..1 + j] == ParticleVertices(p);
  }

  /** The number of vertices written for a particle array is the sum of
      `1 + trail.length` over it. */
  lemma {:induction false} EmittedLength(ps: seq<Particle>)
    ensures |Emitted(ps)| == VertexCount(ps)
  {
    if ps != [] {
      EmittedLength(ps[1..]);
    }
  }

  /** Summing front to back, as `particles.forEach` does, gives the same count. */
  lemma {:induction false} VertexCountAppend(ps: seq<Particle>, p: Particle)
    ensures VertexCount(ps + [p]) == VertexCount(ps) + Footprint(p)
  {
    if ps != [] {
      assert (ps + [p])[1..] == ps[1..] + [p];
      VertexCountAppend(ps[1..], p);
    }
  }

  /** Trail fade factors lie in (0, 1]; only the newest entry is at full
      alpha, and they strictly decrease along the trail. */
  lemma TrailFadeBounds(j: nat, len: nat)
    requires j < len
    ensures 0.0 < TrailFade(j, len) <= 1.0
    ensures TrailFade(j, len) == 1.0 <==> j == 0
    ensures j + 1 < len ==> TrailFade(j + 1, len) < TrailFade(j, len)
  {
    var l := len as real;
    assert (j as real) / l < 1.0 by {
      assert (j as real) < l;
    }
    if j + 1 < len {
      assert (j as real) / l < ((j + 1) as real) / l;
    }
  }

  /** Every vertex written for a visible particle with non-negative colour
      carries channels between zero and the head's `colour * alpha`; trail
      vertices of a positive channel stay strictly above zero. */
  lemma VerticesFaded(p: Particle, i: nat)
    requires 0.0 < p.alpha
    requires 0.0 <= p.color.r && 0.0 <= p.color.g && 0.0 <= p.color.b
    requires i < |ParticleVertices(p)|
    ensures WithinHead(ParticleVertices(p)[i].col, p.color, p.alpha)
    ensures i == 0 ==> ParticleVertices(p)[i].col == Fade(p.color, p.alpha)
  {
    if i == 0 {
      FadeWithin(p.color, p.alpha, 1.0);
    } else {
      TrailFadeBounds(i - 1, |p.trail|);
      assert ParticleVertices(p)[i] == TrailVertex(p, i - 1);
      FadeWithin(p.color, p.alpha, TrailFade(i - 1, |p.trail|));
    }
  }

  /** For a healthy particle with a palette colour, every vertex colour lies
      between black and the particle's own colour, so inside the unit cube. */
  lemma VerticesWithinColour(p: Particle, i: nat)
    requires Healthy(p) && InUnitCube(p.color)
    requires i < |ParticleVertices(p)|
    ensures var c := ParticleVertices(p)[i].col;
      && 0.0 <= c.r <= p.color.r && 0.0 <= c.g <= p.color.g && 0.0 <= c.b <= p.color.b
      && InUnitCube(c)
  {
    var c := ParticleVertices(p)[i].col;
    VerticesFaded(p, i);
    BelowColour(c, p.color, p.alpha);
  }

  /** A colour within `head * alpha`, for alpha at most 1, is within `head`. */
  lemma BelowColour(c: Color, head: Color, alpha: real)
    requires WithinHead(c, head, alpha) && InUnitCube(head) && 0.0 < alpha <= 1.0
    ensures 0.0 <= c.r <= head.r && 0.0 <= c.g <= head.g && 0.0 <= c.b <= head.b
    ensures InUnitCube(c)
  {
    ChannelBelow(c.r, head.r, alpha);
    ChannelBelow(c.g, head.g, alpha);
    ChannelBelow(c.b, head.b, alpha);
  }

  lemma ChannelBelow(x: real, h: real, a: real)
    requires 0.0 <= x <= h * a && 0.0 <= h && 0.0 < a <= 1.0
    ensures x <= h
  {
    var rest := h * (1.0 - a);
    assert rest >= 0.0;
    assert h * a == h - rest;
  }

  /** Each channel of `c` lies in [0, head channel * alpha], strictly above
      zero where the head channel is positive. */
  ghost predicate WithinHead(c: Color, head: Color, alpha: real) {
    && 0.0 <= c.r <= head.r * alpha && (head.r > 0.0 ==> c.r > 0.0)
    && 0.0 <= c.g <= head.g * alpha && (head.g > 0.0 ==> c.g > 0.0)
    && 0.0 <= c.b <= head.b * alpha && (head.b > 0.0 ==> c.b > 0.0)
  }

  lemma FadeWithin(c: Color, a: real, f: real)
    requires 0.0 <= c.r && 0.0 <= c.g && 0.0 <= c.b
    requires 0.0 < a && 0.0 < f <= 1.0
    ensures WithinHead(Fade(c, a * f), c, a)
    ensures f == 1.0 ==> Fade(c, a * f) == Fade(c, a)
  {
    var d := Fade(c, a * f);
    ScaledChannel(c.r, a, f);
    assert d.r == c.r * (a * f);
    ScaledChannel(c.g, a, f);
    assert d.g == c.g * (a * f);
    ScaledChannel(c.b, a, f);
    assert d.b == c.b * (a * f);
  }

  lemma ScaledChannel(c: real, a: real, f: real)
    requires 0.0 <= c && 0.0 < a && 0.0 < f <= 1.0
    ensures 0.0 <= c * (a * f) <= c * a
    ensures c > 0.0 ==> c * (a * f) > 0.0
  {
    assert c * (a * f) == (c * a) * f;
    assert 0.0 <= c * a;
    assert (c * a) * f <= c * a;
  }
}
