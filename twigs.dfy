/**
 * What `Tree.createTwigs` (src/proctree/index.ts:234-348) appends to the
 * twig buffers: for every leaf of the skeleton, a two-sided quad of eight
 * vertices, four triangles, eight normals and eight texture coordinates;
 * nothing for a fork.
 */
module Twigs {
  import opened Wrappers
  import opened Vectors
  import opened Config
  import opened Skeleton
  import opened Mesh

  /**
   * The four corners of a leaf's quad: the leaf head moved by `twigScale`
   * along the parent fork's tangent, and along the leaf direction up to
   * `twigScale * 2 - length` or down to `-length`.
   */
  function TwigCorners(p: Params, g: Numerics, b: Branch, parent: Branch): (cs: seq<Vec3>)
    requires IsFork(parent)
    ensures |cs| == 4
  {
    var tangent := g.normalize(Cross(Sub(parent.child0.value.head, parent.head),
                                     Sub(parent.child1.value.head, parent.head)));
    var binormal := g.normalize(Sub(b.head, parent.head));
    var ts := p.twigScale;
    var top := ts * 2.0 - b.length;
    [Add(Add(b.head, Scale(tangent, ts)), Scale(binormal, top)),
     Add(Add(b.head, Scale(tangent, -ts)), Scale(binormal, top)),
     Add(Add(b.head, Scale(tangent, -ts)), Scale(binormal, -b.length)),
     Add(Add(b.head, Scale(tangent, ts)), Scale(binormal, -b.length))]
  }

  /** The eight vertices pushed for one leaf: the four corners, twice. */
  function TwigQuad(p: Params, g: Numerics, b: Branch, parent: Branch): (vs: seq<Vec3>)
    requires IsFork(parent)
    ensures |vs| == 8
  {
    TwigCorners(p, g, b, parent) + TwigCorners(p, g, b, parent)
  }

  /**
   * The four triangles of a quad whose first vertex is `base`: two facing
   * one way over the first copy of the corners, two over the second copy.
   */
  function TwigFacesAt(base: nat): (fs: seq<Face>)
    ensures |fs| == 4
  {
    [Face(base, base + 1, base + 2), Face(base + 3, base, base + 2),
     Face(base + 6, base + 5, base + 4), Face(base + 6, base + 4, base + 7)]
  }

  /** `normalize(cross(p - r, q - r))`, the normal of triangle `p, q, r` as the twig code writes it. */
  function TriangleNormal(g: Numerics, p: Vec3, q: Vec3, r: Vec3): Vec3 {
    g.normalize(Cross(Sub(p, r), Sub(q, r)))
  }

  /**
   * The eight normals pushed for one quad: four copies of the front normal,
   * then four of the back normal, computed from the pushed vertices
   * `vert1..vert3` and `vert6..vert8`.
   */
  function TwigNormalsAt(g: Numerics, q: seq<Vec3>): (ns: seq<Vec3>)
    requires |q| == 8
  {
    var front := TriangleNormal(g, q[0], q[1], q[2]);
    var back := TriangleNormal(g, q[5], q[4], q[6]);
    [front, front, front, front, back, back, back, back]
  }

  /** The back normal normalizes the negated front cross product. */
  lemma TwigNormalsFlip(p: Params, g: Numerics, b: Branch, parent: Branch)
    requires IsFork(parent)
    ensures var q := TwigQuad(p, g, b, parent);
      var ns := TwigNormalsAt(g, q);
      |ns| == 8 &&
      (forall k | 0 <= k < 4 :: ns[k] == g.normalize(Cross(Sub(q[0], q[2]), Sub(q[1], q[2])))) &&
      (forall k | 4 <= k < 8 :: ns[k] == g.normalize(Neg(Cross(Sub(q[0], q[2]), Sub(q[1], q[2])))))
  {
    var q := TwigQuad(p, g, b, parent);
    assert q[4] == q[0] && q[5] == q[1] && q[6] == q[2];
    CrossAntiCommutes(Sub(q[0], q[2]), Sub(q[1], q[2]));
  }

  /**
   * With a `normalize` that commutes with negation (as IEEE normalisation
   * does: negation is exact and leaves the length unchanged), every back
   * normal is exactly the reversed front normal.
   */
  lemma TwigNormalsReversed(p: Params, g: Numerics, b: Branch, parent: Branch)
    requires IsFork(parent)
    requires forall v :: g.normalize(Neg(v)) == Neg(g.normalize(v))
    ensures var ns := TwigNormalsAt(g, TwigQuad(p, g, b, parent));
      |ns| == 8 && forall k | 0 <= k < 4 :: ns[k + 4] == Neg(ns[k])
  {
    var q := TwigQuad(p, g, b, parent);
    TwigNormalsFlip(p, g, b, parent);
    var c := Cross(Sub(q[0], q[2]), Sub(q[1], q[2]));
    assert g.normalize(Neg(c)) == Neg(g.normalize(c));
  }

  /** The texture coordinates of a quad: `(0,1), (1,1), (1,0), (0,0)`, twice. */
  function TwigUVsAt(): (uvs: seq<Vec2>)
    ensures |uvs| == 8 && uvs[4..] == uvs[..4]
    ensures forall k | 0 <= k < 8 :: uvs[k].x in {0.0, 1.0} && uvs[k].y in {0.0, 1.0}
  {
    var quad := [Vec2(0.0, 1.0), Vec2(1.0, 1.0), Vec2(1.0, 0.0), Vec2(0.0, 0.0)];
    quad + quad
  }

  /**
   * Where `createTwigs` may be called: the parent is a fork, and a branch
   * without children has a parent (the source dereferences `branch.parent!`).
   */
  predicate TwigSite(b: Branch, parent: Option<Branch>) {
    (parent.Some? ==> IsFork(parent.value)) && (parent.None? ==> IsFork(b))
  }

  /** The vertices `createTwigs(b)` appends: one quad per leaf, leaves in depth-first order. */
  function TwigVerts(p: Params, g: Numerics, b: Branch, parent: Option<Branch>): (vs: seq<Vec3>)
    requires TwigSite(b, parent)
    decreases b
    ensures |vs| == 8 * Leaves(b)
  {
    if !IsFork(b) then TwigQuad(p, g, b, parent.value)
    else TwigVerts(p, g, b.child0.value, Some(b)) + TwigVerts(p, g, b.child1.value, Some(b))
  }

  /** The normals `createTwigs(b)` appends. */
  function TwigNormals(p: Params, g: Numerics, b: Branch, parent: Option<Branch>): (ns: seq<Vec3>)
    requires TwigSite(b, parent)
    decreases b
    ensures |ns| == 8 * Leaves(b)
  {
    if !IsFork(b) then TwigNormalsAt(g, TwigQuad(p, g, b, parent.value))
    else TwigNormals(p, g, b.child0.value, Some(b)) + TwigNormals(p, g, b.child1.value, Some(b))
  }

  /** The texture coordinates `createTwigs(b)` appends. */
  function TwigUVs(b: Branch): (uvs: seq<Vec2>)
    decreases b
    ensures |uvs| == 8 * Leaves(b)
  {
    if !IsFork(b) then TwigUVsAt() else TwigUVs(b.child0.value) + TwigUVs(b.child1.value)
  }

  /**
   * The triangles `createTwigs(b)` appends when the twig buffer already
   * holds `base` vertices: four per leaf, each indexing only the eight
   * vertices pushed for that leaf.
   */
  function TwigFaces(b: Branch, base: nat): (fs: seq<Face>)
    decreases b
    ensures |fs| == 4 * Leaves(b)
  {
    if !IsFork(b) then TwigFacesAt(base)
    else TwigFaces(b.child0.value, base) + TwigFaces(b.child1.value, base + 8 * Leaves(b.child0.value))
  }

  /** Every triangle of a leaf indexes only the eight vertices pushed for that leaf. */
  lemma {:induction false} TwigFacesWithin(b: Branch, base: nat)
    ensures FacesWithin(TwigFaces(b, base), base, base + 8 * Leaves(b))
    decreases b
  {
    if IsFork(b) {
      var c0, c1 := b.child0.value, b.child1.value;
      var mid, hi := base + 8 * Leaves(c0), base + 8 * Leaves(b);
      TwigFacesWithin(c0, base);
      TwigFacesWithin(c1, mid);
      FacesWithinWiden(TwigFaces(c0, base), base, mid, base, hi);
      FacesWithinWiden(TwigFaces(c1, mid), mid, hi, base, hi);
      FacesWithinAppend(TwigFaces(c0, base), TwigFaces(c1, mid), base, hi);
    }
  }

  /**
   * The positions of the corners of triangle `t`, read from a buffer whose
   * first element has index `base`; empty when a corner lies outside it.
   */
  function Positions(vs: seq<Vec3>, base: nat, t: Face): (ps: seq<Vec3>)
    ensures |ps| == 3 || ps == []
  {
    if base <= t.a < base + |vs| && base <= t.b < base + |vs| && base <= t.c < base + |vs|
    then [vs[t.a - base], vs[t.b - base], vs[t.c - base]]
    else []
  }

  /** The same triangle traversed the other way round. */
  function Flip(ps: seq<Vec3>): (qs: seq<Vec3>)
    ensures |qs| == |ps|
  {
    if |ps| == 3 then [ps[2], ps[1], ps[0]] else ps
  }

  /**
   * Face `f` is a back triangle: it covers the positions of face `f - 2`,
   * the front triangle it backs, with the winding reversed.
   */
  predicate Backs(vs: seq<Vec3>, fs: seq<Face>, base: nat, f: nat) {
    2 <= f < |fs| && |Positions(vs, base, fs[f])| == 3 &&
    Positions(vs, base, fs[f]) == Flip(Positions(vs, base, fs[f - 2]))
  }

  /**
   * Every twig `createTwigs` emits is two-sided: of the four triangles of
   * leaf `k`, the back ones (`j = 0, 1` gives the third and fourth) cover the
   * positions of the front ones, with the winding reversed.
   */
  lemma {:induction false} TwigsTwoSided(p: Params, g: Numerics, b: Branch, parent: Option<Branch>,
                                         base: nat, k: nat, j: nat)
    requires TwigSite(b, parent) && k < Leaves(b) && j < 2
    ensures Backs(TwigVerts(p, g, b, parent), TwigFaces(b, base), base, 4 * k + 2 + j)
    decreases b
  {
    if !IsFork(b) {
      TwoSidedLeaf(p, g, b, parent, base, k, j);
    } else {
      var l0 := Leaves(b.child0.value);
      if k < l0 {
        TwigsTwoSided(p, g, b.child0.value, Some(b), base, k, j);
      } else {
        TwigsTwoSided(p, g, b.child1.value, Some(b), base + 8 * l0, k - l0, j);
      }
      TwoSidedFork(p, g, b, parent, base, k, j);
    }
  }

  lemma TwoSidedLeaf(p: Params, g: Numerics, b: Branch, parent: Option<Branch>, base: nat, k: nat, j: nat)
    requires TwigSite(b, parent) && !IsFork(b) && k < Leaves(b) && j < 2
    ensures Backs(TwigVerts(p, g, b, parent), TwigFaces(b, base), base, 4 * k + 2 + j)
  {
    var cs := TwigCorners(p, g, b, parent.value);
    assert TwigVerts(p, g, b, parent) == cs + cs;
    assert TwigFaces(b, base) == TwigFacesAt(base);
    QuadTwoSided(cs, base, 4 * k + 2 + j);
  }

  /** The fork step: the property of the child holding leaf `k` carries over to the fork. */
  lemma TwoSidedFork(p: Params, g: Numerics, b: Branch, parent: Option<Branch>, base: nat, k: nat, j: nat)
    requires TwigSite(b, parent) && IsFork(b) && k < Leaves(b) && j < 2
    requires var c0, c1, l0 := b.child0.value, b.child1.value, Leaves(b.child0.value);
      if k < l0 then Backs(TwigVerts(p, g, c0, Some(b)), TwigFaces(c0, base), base, 4 * k + 2 + j)
      else Backs(TwigVerts(p, g, c1, Some(b)), TwigFaces(c1, base + 8 * l0), base + 8 * l0, 4 * (k - l0) + 2 + j)
    ensures Backs(TwigVerts(p, g, b, parent), TwigFaces(b, base), base, 4 * k + 2 + j)
  {
    var c0, c1 := b.child0.value, b.child1.value;
    var l0 := Leaves(c0);
    var base1 := base + 8 * l0;
    var vs0, vs1 := TwigVerts(p, g, c0, Some(b)), TwigVerts(p, g, c1, Some(b));
    var fs0, fs1 := TwigFaces(c0, base), TwigFaces(c1, base1);
    assert TwigVerts(p, g, b, parent) == vs0 + vs1;
    assert TwigFaces(b, base) == fs0 + fs1;
    if k < l0 {
      BacksLeft(vs0, vs1, fs0, fs1, base, 4 * k + 2 + j);
    } else {
      BacksRight(vs0, vs1, fs0, fs1, base, base1, 4 * (k - l0) + 2 + j, 4 * k + 2 + j);
    }
  }

  /** The two-sided property of a single quad. */
  lemma QuadTwoSided(cs: seq<Vec3>, base: nat, f: nat)
    requires |cs| == 4 && 2 <= f < 4
    ensures Backs(cs + cs, TwigFacesAt(base), base, f)
  {
  }

  lemma BacksLeft(vs0: seq<Vec3>, vs1: seq<Vec3>, fs0: seq<Face>, fs1: seq<Face>, base: nat, f: nat)
    requires Backs(vs0, fs0, base, f)
    ensures Backs(vs0 + vs1, fs0 + fs1, base, f)
  {
    var vs, fs := vs0 + vs1, fs0 + fs1;
    assert fs[f] == fs0[f] && fs[f - 2] == fs0[f - 2];
  }

  lemma BacksRight(vs0: seq<Vec3>, vs1: seq<Vec3>, fs0: seq<Face>, fs1: seq<Face>,
                   base: nat, base1: nat, h: nat, f: nat)
    requires base1 == base + |vs0| && f == |fs0| + h && Backs(vs1, fs1, base1, h)
    ensures Backs(vs0 + vs1, fs0 + fs1, base, f)
  {
    var vs, fs := vs0 + vs1, fs0 + fs1;
    assert fs[f] == fs1[h] && fs[f - 2] == fs1[h - 2];
  }
}
