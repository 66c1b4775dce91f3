/**
 * The texture coordinates `Tree.doFaces` (src/proctree/index.ts:357-456)
 * writes into `UV`, alongside the faces of `Faces`: every existing vertex
 * is reset to `(0, 0)`, then the base ring, the fork rings and the leaf
 * tips are overwritten in place, each `v` growing by an edge length taken
 * from the vertex positions.
 */
module Uvs {
  import opened Wrappers
  import opened Vectors
  import opened Config
  import opened Skeleton
  import opened Rings
  import opened Forks
  import opened Mesh
  import opened Faces

  /** `m` texture coordinates `(0, 0)`. */
  function Zeros(m: nat): (z: seq<Vec2>)
    ensures |z| == m && forall i | 0 <= i < m :: z[i] == Zero2
  {
    seq(m, _ => Zero2)
  }

  /** `|i / segments - 0.5| * 2`, the `u` of the `i`-th ring position (the quotient in floating point). */
  function Around(g: Numerics, i: nat, n: nat): real {
    Abs(g.divide(i as real, n as real) - 0.5) * 2.0
  }

  /** `|i / segments - 1 - 0.5| * 2`, the `u` the leaf cap gives the tip of `child0`. */
  function Beyond(g: Numerics, i: nat, n: nat): real {
    Abs(g.divide(i as real, n as real) - 1.0 - 0.5) * 2.0
  }

  /** The `v` a ring position gets: the length of the edge from `from` to `to`, times `vMultiplier`. */
  function EdgeV(p: Params, g: Numerics, to: Vec3, from: Vec3): real {
    g.length(Sub(to, from)) * p.vMultiplier
  }

  /**
   * Step `i` of the base-cap loop: base position `(i + so) % n` gets
   * `(u, 0)`, and `ring0[i]` and `ring2[i]` get `(u, len)` for the length
   * of the edge from the base ring.
   */
  function RootStep(p: Params, g: Numerics, verts: seq<Vec3>, uv: seq<Vec2>,
                    r0: seq<nat>, r2: seq<nat>, base: seq<nat>, so: nat, i: nat): (r: seq<Vec2>)
    requires 0 < p.segments && |r0| == p.segments && |r2| == p.segments && |base| == p.segments
    requires i < p.segments && p.segments <= |uv| && |verts| <= |uv|
    requires Within(r0, 0, |verts|) && Within(r2, 0, |verts|) && Within(base, 0, |verts|)
    ensures |r| == |uv|
  {
    var n := p.segments;
    var u := Around(g, i, n);
    var len := EdgeV(p, g, verts[r0[i]], verts[base[RingIndex(i + so, n)]]);
    uv[RingIndex(i + so, n) := Vec2(u, 0.0)][r0[i] := Vec2(u, len)][r2[i] := Vec2(u, len)]
  }

  /** The first `k` steps of the base-cap loop. */
  function RootUV(p: Params, g: Numerics, verts: seq<Vec3>, uv: seq<Vec2>,
                  r0: seq<nat>, r2: seq<nat>, base: seq<nat>, so: nat, k: nat): (r: seq<Vec2>)
    requires 0 < p.segments && |r0| == p.segments && |r2| == p.segments && |base| == p.segments
    requires k <= p.segments && p.segments <= |uv| && |verts| <= |uv|
    requires Within(r0, 0, |verts|) && Within(r2, 0, |verts|) && Within(base, 0, |verts|)
    ensures |r| == |uv|
  {
    if k == 0 then uv
    else RootStep(p, g, verts, RootUV(p, g, verts, uv, r0, r2, base, so, k - 1), r0, r2, base, so, k - 1)
  }

  /**
   * `prior` moved up by the length of the edge from `from` to `to`, scaled
   * by `scale` and then by `vMultiplier`.
   */
  function Climb(p: Params, g: Numerics, prior: Vec2, to: Vec3, from: Vec3, scale: real): Vec2 {
    Vec2(prior.x, prior.y + g.length(Sub(to, from)) * scale * p.vMultiplier)
  }

  /**
   * One side of a stitch step: the `v` of the parent ring vertex before
   * the aligned one, grown by the scaled edge length to the child ring.
   */
  function Carried(p: Params, g: Numerics, verts: seq<Vec3>, uv: seq<Vec2>, ring: seq<nat>, child: seq<nat>,
                   so: nat, scale: real, i: nat): Vec2
    requires 0 < p.segments == |ring| == |child| && i < p.segments && 1 <= so
    requires Within(ring, 0, |verts|) && Within(child, 0, |verts|) && |verts| <= |uv|
  {
    var n := p.segments;
    Climb(p, g, uv[ring[RingIndex(i + so - 1, n)]], verts[child[i]], verts[ring[RingIndex(i + so, n)]], scale)
  }

  /**
   * Step `i` of the stitch loop: child0's `ring0[i]` and `ring2[i]` (`a0`,
   * `a2`) carried from the parent's `ring1`, then child1's (`b0`, `b2`)
   * from its `ring2`.
   */
  function StitchStepUV(p: Params, g: Numerics, verts: seq<Vec3>, uv: seq<Vec2>, r1: seq<nat>, r2: seq<nat>,
                        a0: seq<nat>, a2: seq<nat>, b0: seq<nat>, b2: seq<nat>, so0: nat, so1: nat, scale: real, i: nat): (r: seq<Vec2>)
    requires 0 < p.segments && |r1| == p.segments && |r2| == p.segments
    requires |a0| == p.segments && |a2| == p.segments && |b0| == p.segments && |b2| == p.segments
    requires Within(r1, 0, |verts|) && Within(r2, 0, |verts|) && Within(a0, 0, |verts|) && Within(a2, 0, |verts|)
    requires Within(b0, 0, |verts|) && Within(b2, 0, |verts|)
    requires i < p.segments && 1 <= so0 && 1 <= so1 && |verts| <= |uv|
    ensures |r| == |uv|
  {
    var t0 := Carried(p, g, verts, uv, r1, a0, so0, scale, i);
    var mid := uv[a0[i] := t0][a2[i] := t0];
    var t1 := Carried(p, g, verts, mid, r2, b0, so1, scale, i);
    mid[b0[i] := t1][b2[i] := t1]
  }

  /** The first `k` steps of the stitch loop's writes. */
  function StitchUV(p: Params, g: Numerics, verts: seq<Vec3>, uv: seq<Vec2>, r1: seq<nat>, r2: seq<nat>,
                    a0: seq<nat>, a2: seq<nat>, b0: seq<nat>, b2: seq<nat>, so0: nat, so1: nat, scale: real, k: nat): (r: seq<Vec2>)
    requires 0 < p.segments && |r1| == p.segments && |r2| == p.segments
    requires |a0| == p.segments && |a2| == p.segments && |b0| == p.segments && |b2| == p.segments
    requires Within(r1, 0, |verts|) && Within(r2, 0, |verts|) && Within(a0, 0, |verts|) && Within(a2, 0, |verts|)
    requires Within(b0, 0, |verts|) && Within(b2, 0, |verts|)
    requires k <= p.segments && 1 <= so0 && 1 <= so1 && |verts| <= |uv|
    ensures |r| == |uv|
  {
    if k == 0 then uv
    else
      var prev := StitchUV(p, g, verts, uv, r1, r2, a0, a2, b0, b2, so0, so1, scale, k - 1);
      StitchStepUV(p, g, verts, prev, r1, r2, a0, a2, b0, b2, so0, so1, scale, k - 1)
  }

  /** Step `i` of the leaf-cap loop: the two tips `e0` and `e1`. */
  function TipStep(p: Params, g: Numerics, verts: seq<Vec3>, uv: seq<Vec2>, r1: seq<nat>, r2: seq<nat>,
                   e0: nat, e1: nat, i: nat): (r: seq<Vec2>)
    requires 0 < p.segments && |r1| == p.segments && |r2| == p.segments && i < p.segments
    requires Within(r1, 0, |verts|) && Within(r2, 0, |verts|) && e0 < |verts| && e1 < |verts| && |verts| <= |uv|
    ensures |r| == |uv|
  {
    var n := p.segments;
    uv[e0 := Vec2(Beyond(g, i, n), EdgeV(p, g, verts[e0], verts[r1[i]]))][e1 := Vec2(Around(g, i, n), EdgeV(p, g, verts[e1], verts[r2[i]]))]
  }

  /** The first `k` steps of the leaf-cap loop's writes. */
  function TipUV(p: Params, g: Numerics, verts: seq<Vec3>, uv: seq<Vec2>, r1: seq<nat>, r2: seq<nat>,
                 e0: nat, e1: nat, k: nat): (r: seq<Vec2>)
    requires 0 < p.segments && |r1| == p.segments && |r2| == p.segments && k <= p.segments
    requires Within(r1, 0, |verts|) && Within(r2, 0, |verts|) && e0 < |verts| && e1 < |verts| && |verts| <= |uv|
    ensures |r| == |uv|
  {
    if k == 0 then uv
    else TipStep(p, g, verts, TipUV(p, g, verts, uv, r1, r2, e0, e1, k - 1), r1, r2, e0, e1, k - 1)
  }

  /** The texture coordinates at the start of `doFaces(b)`: reset and capped at the root, unchanged elsewhere. */
  function StartUV(p: Params, g: Numerics, verts: seq<Vec3>, uv: seq<Vec2>, b: Branch, parent: Option<Branch>): (r: seq<Vec2>)
    requires EvenSegments(p.segments) && IsFork(b) && Addressed(p.segments, b, |verts|)
    requires parent.None? ==> |b.root| == p.segments && Within(b.root, 0, |verts|) && p.segments <= |verts|
    requires parent.Some? ==> |verts| <= |uv|
    ensures |r| == if parent.None? && |uv| < |verts| then |verts| else |uv|
  {
    AddressedFork(p.segments, b, |verts|);
    if parent.None? then
      RootUV(p, g, verts, Overlay(Zeros(|verts|), uv), b.ring0.value, b.ring2.value, b.root,
             RootOffset(g, b, p.segments), p.segments)
    else uv
  }

  /**
   * `UV` after `doFaces(b)`. At the root every vertex is first reset, so
   * the result has one entry per vertex (or keeps a longer buffer's tail).
   */
  function TreeUV(p: Params, g: Numerics, verts: seq<Vec3>, uv: seq<Vec2>, b: Branch, parent: Option<Branch>): (r: seq<Vec2>)
    requires EvenSegments(p.segments) && IsFork(b) && Addressed(p.segments, b, |verts|)
    requires parent.None? ==> |b.root| == p.segments && Within(b.root, 0, |verts|) && p.segments <= |verts|
    requires parent.Some? ==> |verts| <= |uv|
    decreases b
    ensures |r| == if parent.None? && |uv| < |verts| then |verts| else |uv|
  {
    var n := p.segments;
    var c0, c1 := b.child0.value, b.child1.value;
    AddressedFork(n, b, |verts|);
    var start := StartUV(p, g, verts, uv, b, parent);
    if IsFork(c0) then
      AddressedFork(n, c0, |verts|);
      AddressedFork(n, c1, |verts|);
      var so := ChildOffsets(g, verts, b, n);
      var stitched := StitchUV(p, g, verts, start, b.ring1.value, b.ring2.value,
        c0.ring0.value, c0.ring2.value, c1.ring0.value, c1.ring2.value, so.0, so.1, g.divide(p.maxRadius, b.radius), n);
      TreeUV(p, g, verts, TreeUV(p, g, verts, stitched, c0, Some(b)), c1, Some(b))
    else
      assert c0.end in Indices(c0) && c1.end in Indices(c1);
      TipUV(p, g, verts, start, b.ring1.value, b.ring2.value, c0.end, c1.end, n)
  }

  /** Step `i` of the base-cap loop handles position `i`. */
  lemma RootUVStep(p: Params, g: Numerics, verts: seq<Vec3>, uv: seq<Vec2>,
                   r0: seq<nat>, r2: seq<nat>, base: seq<nat>, so: nat, i: nat, k: nat)
    requires 0 < p.segments && |r0| == p.segments && |r2| == p.segments && |base| == p.segments
    requires k == i + 1 <= p.segments && p.segments <= |uv| && |verts| <= |uv|
    requires Within(r0, 0, |verts|) && Within(r2, 0, |verts|) && Within(base, 0, |verts|)
    ensures RootUV(p, g, verts, uv, r0, r2, base, so, k) ==
      RootStep(p, g, verts, RootUV(p, g, verts, uv, r0, r2, base, so, i), r0, r2, base, so, i)
  {
  }

  /** Step `i` of the stitch loop handles position `i`. */
  lemma StitchUVStep(p: Params, g: Numerics, verts: seq<Vec3>, uv: seq<Vec2>, r1: seq<nat>, r2: seq<nat>,
                     a0: seq<nat>, a2: seq<nat>, b0: seq<nat>, b2: seq<nat>, so0: nat, so1: nat, scale: real, i: nat, k: nat)
    requires 0 < p.segments && |r1| == p.segments && |r2| == p.segments
    requires |a0| == p.segments && |a2| == p.segments && |b0| == p.segments && |b2| == p.segments
    requires Within(r1, 0, |verts|) && Within(r2, 0, |verts|) && Within(a0, 0, |verts|) && Within(a2, 0, |verts|)
    requires Within(b0, 0, |verts|) && Within(b2, 0, |verts|)
    requires k == i + 1 <= p.segments && 1 <= so0 && 1 <= so1 && |verts| <= |uv|
    ensures StitchUV(p, g, verts, uv, r1, r2, a0, a2, b0, b2, so0, so1, scale, k) ==
      StitchStepUV(p, g, verts, StitchUV(p, g, verts, uv, r1, r2, a0, a2, b0, b2, so0, so1, scale, i),
                   r1, r2, a0, a2, b0, b2, so0, so1, scale, i)
  {
  }

  /** Step `i` of the leaf-cap loop handles position `i`. */
  lemma TipUVStep(p: Params, g: Numerics, verts: seq<Vec3>, uv: seq<Vec2>, r1: seq<nat>, r2: seq<nat>,
                  e0: nat, e1: nat, i: nat, k: nat)
    requires 0 < p.segments && |r1| == p.segments && |r2| == p.segments && k == i + 1 <= p.segments
    requires Within(r1, 0, |verts|) && Within(r2, 0, |verts|) && e0 < |verts| && e1 < |verts| && |verts| <= |uv|
    ensures TipUV(p, g, verts, uv, r1, r2, e0, e1, k) ==
      TipStep(p, g, verts, TipUV(p, g, verts, uv, r1, r2, e0, e1, i), r1, r2, e0, e1, i)
  {
  }

  /** `TreeUV` at a fork whose children are forks, given its parts. */
  lemma TreeUVFork(p: Params, g: Numerics, verts: seq<Vec3>, uv: seq<Vec2>, b: Branch, parent: Option<Branch>,
                   so0: nat, so1: nat, stitched: seq<Vec2>, mid: seq<Vec2>, fin: seq<Vec2>)
    requires EvenSegments(p.segments) && IsFork(b) && Addressed(p.segments, b, |verts|) && IsFork(b.child0.value)
    requires Addressed(p.segments, b.child0.value, |verts|) && Addressed(p.segments, b.child1.value, |verts|)
    requires parent.None? ==> |b.root| == p.segments && Within(b.root, 0, |verts|) && p.segments <= |verts|
    requires parent.Some? ==> |verts| <= |uv|
    requires Ringed(p.segments, b, |verts|) && Ringed(p.segments, b.child0.value, |verts|) && Ringed(p.segments, b.child1.value, |verts|)
    requires (so0, so1) == ChildOffsets(g, verts, b, p.segments)
    requires stitched == StitchUV(p, g, verts, StartUV(p, g, verts, uv, b, parent), b.ring1.value, b.ring2.value,
      b.child0.value.ring0.value, b.child0.value.ring2.value, b.child1.value.ring0.value, b.child1.value.ring2.value,
      so0, so1, g.divide(p.maxRadius, b.radius), p.segments)
    requires mid == TreeUV(p, g, verts, stitched, b.child0.value, Some(b))
    requires fin == TreeUV(p, g, verts, mid, b.child1.value, Some(b))
    ensures TreeUV(p, g, verts, uv, b, parent) == fin
  {
  }

  /** `TreeUV` at a fork whose children are leaves. */
  lemma TreeUVLeaves(p: Params, g: Numerics, verts: seq<Vec3>, uv: seq<Vec2>, b: Branch, parent: Option<Branch>)
    requires EvenSegments(p.segments) && IsFork(b) && Addressed(p.segments, b, |verts|) && !IsFork(b.child0.value)
    requires parent.None? ==> |b.root| == p.segments && Within(b.root, 0, |verts|) && p.segments <= |verts|
    requires parent.Some? ==> |verts| <= |uv|
    requires b.child0.value.end < |verts| && b.child1.value.end < |verts| && Ringed(p.segments, b, |verts|)
    ensures TreeUV(p, g, verts, uv, b, parent) ==
      TipUV(p, g, verts, StartUV(p, g, verts, uv, b, parent), b.ring1.value, b.ring2.value,
            b.child0.value.end, b.child1.value.end, p.segments)
  {
  }
}
