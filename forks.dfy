/**
 * What `Tree.createForks` (src/proctree/index.ts:117-232) computes: the
 * radius, rings, tangent, `root` and `end` it writes into every branch, and
 * the wood-mesh vertices it appends, as functions of the skeleton and of the
 * index of the first new vertex.
 */
module Forks {
  import opened Wrappers
  import opened Vectors
  import opened Config
  import opened Skeleton
  import opened Rings

  /** The ring radius: the incoming radius, capped by the branch length. */
  function Clamp(radius: real, length: real): (r: real)
    ensures r <= radius && r <= length
    ensures r == radius || r == length
  {
    if radius > length then length else radius
  }

  /** Radius passed to `child0`: a trunk continuation tapers. */
  function Radius0(p: Params, b: Branch, r: real): real
    requires IsFork(b)
  {
    if b.child0.value.kind == Trunk then r * p.taperRate else Radius1(p, r)
  }

  /** Radius passed to `child1`. */
  function Radius1(p: Params, r: real): real {
    r * p.radiusFalloffRate
  }

  /** `normalize(cross(axis1, axis2))` of the fork. */
  function ForkTangent(g: Numerics, b: Branch): Vec3
    requires IsFork(b)
  {
    var axis1 := g.normalize(Sub(b.head, b.child0.value.head));
    var axis2 := g.normalize(Sub(b.head, b.child1.value.head));
    g.normalize(Cross(axis1, axis2))
  }

  function Frame(p: Params, b: Branch, parent: Option<Branch>, r: real): ForkFrame
    requires IsFork(b)
  {
    ForkFrame(if parent.Some? then Some(parent.value.head) else None,
      b.head, b.child0.value.head, b.child1.value.head, r,
      b.child0.value.kind == Trunk || b.kind == Trunk)
  }

  /** Vertices appended for `b`'s subtree; the root also adds its base ring. */
  function SkinCount(n: nat, b: Branch, isRoot: bool): nat
    requires EvenSegments(n)
    decreases b
  {
    (if isRoot then n else 0) +
    (if IsFork(b) then ForkSize(n) + SkinCount(n, b.child0.value, false) + SkinCount(n, b.child1.value, false)
     else 1)
  }

  /** The base ring's vertices. */
  function RootVerts(g: Numerics, n: nat, r: real): (vs: seq<Vec3>)
    ensures |vs| == n
  {
    seq(n, i requires 0 <= i < n => g.rootVertex(i, r))
  }

  /** The first `m` vertices a fork pushes, in push order. */
  function Pushed(g: Numerics, f: ForkFrame, m: nat): (vs: seq<Vec3>)
    ensures |vs| == m
  {
    seq(m, k requires 0 <= k < m => g.forkVertex(f, k))
  }

  lemma PushedSnoc(g: Numerics, f: ForkFrame, m: nat)
    ensures Pushed(g, f, m + 1) == Pushed(g, f, m) + [g.forkVertex(f, m)]
  {
  }

  /** The vertices one fork pushes. */
  function ForkVerts(g: Numerics, f: ForkFrame, n: nat): (vs: seq<Vec3>)
    requires EvenSegments(n)
    ensures |vs| == ForkSize(n)
  {
    Pushed(g, f, ForkSize(n))
  }

  /**
   * The branch as `createForks(b, radius)` leaves it when its first new
   * vertex is `start`. It records the incoming radius; the rings use the
   * clamped one; a fork gets the three ring layouts of `Rings` and a
   * tangent, a leaf gets the index of its head vertex as `end`, and the
   * root gets the base ring `[start, start + n)` as `root`.
   */
  function Skin(p: Params, g: Numerics, b: Branch, parent: Option<Branch>, radius: real, start: nat): (fb: Branch)
    requires EvenSegments(p.segments)
    decreases b
    ensures fb.head == b.head && fb.kind == b.kind && fb.length == b.length
    ensures fb.child0.Some? == b.child0.Some? && fb.child1.Some? == b.child1.Some?
    ensures fb.radius == radius
    ensures fb.root == if parent.None? then Range(start, p.segments) else b.root
    ensures IsFork(b) ==>
      var r := Clamp(radius, b.length);
      fb.child0.value.radius == Radius0(p, b, r) &&
      fb.child1.value.radius == Radius1(p, r)
    ensures !IsFork(b) ==> fb.end == start + (if parent.None? then p.segments else 0)
    ensures Leaves(fb) == Leaves(b)
    ensures WellFormed(b) && Unskinned(b) ==> Shaped(p.segments, fb)
    ensures forall i | i in Indices(fb) ::
      start + (if parent.None? then p.segments else 0) <= i < start + SkinCount(p.segments, b, parent.None?)
  {
    var n := p.segments;
    var r := Clamp(radius, b.length);
    var root := if parent.None? then Range(start, n) else b.root;
    var s := start + (if parent.None? then n else 0);
    if IsFork(b) then
      var c0, c1 := b.child0.value, b.child1.value;
      var s0 := s + ForkSize(n);
      var s1 := s0 + SkinCount(n, c0, false);
      var fb := b.(radius := radius, root := root, tangent := ForkTangent(g, b),
         ring0 := Some(Ring0At(s, n)), ring1 := Some(Ring1At(s, n)), ring2 := Some(Ring2At(s, n)),
         child0 := Some(Skin(p, g, c0, Some(b), Radius0(p, b, r), s0)),
         child1 := Some(Skin(p, g, c1, Some(b), Radius1(p, r), s1)));
      ForkIndicesWithin(n, fb, s, s1 + SkinCount(n, c1, false));
      fb
    else
      b.(radius := radius, root := root, end := s)
  }

  /**
   * A fork whose rings are the layouts of `Rings` at `s` and whose children
   * store indices in consecutive blocks after the fork's own block stores
   * indices in `[s, hi)` only.
   */
  lemma ForkIndicesWithin(n: nat, fb: Branch, s: nat, hi: nat)
    requires EvenSegments(n) && IsFork(fb) && s + ForkSize(n) <= hi
    requires fb.ring0 == Some(Ring0At(s, n)) && fb.ring1 == Some(Ring1At(s, n)) && fb.ring2 == Some(Ring2At(s, n))
    requires forall i | i in Indices(fb.child0.value) :: s + ForkSize(n) <= i < hi
    requires forall i | i in Indices(fb.child1.value) :: s + ForkSize(n) <= i < hi
    ensures forall i | i in Indices(fb) :: s <= i < hi
  {
    RingsWellSized(s, n);
    forall r | r in [Ring0At(s, n), Ring1At(s, n), Ring2At(s, n)]
      ensures forall i | i in Elems(r) :: s <= i < s + ForkSize(n)
    {
      forall i | i in Elems(r) ensures s <= i < s + ForkSize(n) {
        var k :| 0 <= k < |r| && r[k] == i;
      }
    }
    assert Indices(fb) == Elems(Ring0At(s, n)) + Elems(Ring1At(s, n)) + Elems(Ring2At(s, n)) +
      Indices(fb.child0.value) + Indices(fb.child1.value);
  }

  /** The vertices `createForks(b, radius)` appends, in order. */
  function SkinVerts(p: Params, g: Numerics, b: Branch, parent: Option<Branch>, radius: real): (vs: seq<Vec3>)
    requires EvenSegments(p.segments)
    decreases b
    ensures |vs| == SkinCount(p.segments, b, parent.None?)
  {
    var n := p.segments;
    var r := Clamp(radius, b.length);
    var rootPart := if parent.None? then RootVerts(g, n, r) else [];
    if IsFork(b) then
      rootPart + ForkVerts(g, Frame(p, b, parent, r), n)
        + SkinVerts(p, g, b.child0.value, Some(b), Radius0(p, b, r))
        + SkinVerts(p, g, b.child1.value, Some(b), Radius1(p, r))
    else
      rootPart + [b.head]
  }

  /**
   * The shape `createForks` gives a well-formed skeleton: every fork has
   * three rings of `n` indices and two children that are both forks or both
   * leaves; a leaf has no child and no ring, which is how the face builder
   * tells leaves apart.
   */
  predicate Shaped(n: nat, b: Branch)
    decreases b
  {
    if IsFork(b) then
      b.ring0.Some? && b.ring1.Some? && b.ring2.Some? &&
      |b.ring0.value| == n && |b.ring1.value| == n && |b.ring2.value| == n &&
      IsFork(b.child0.value) == IsFork(b.child1.value) &&
      Shaped(n, b.child0.value) && Shaped(n, b.child1.value)
    else
      b.child0.None? && b.child1.None? && b.ring0.None?
  }

  /** Every vertex index stored in the subtree: the ring entries of its forks and the `end` of its leaves. */
  function Indices(b: Branch): set<nat>
    decreases b
  {
    if IsFork(b) then
      Elems(b.ring0.GetOr([])) + Elems(b.ring1.GetOr([])) + Elems(b.ring2.GetOr([])) +
      Indices(b.child0.value) + Indices(b.child1.value)
    else
      {b.end}
  }

  /** Every leaf's `end` is the index of a vertex placed at that leaf's head. */
  predicate TipsAt(vs: seq<Vec3>, b: Branch)
    decreases b
  {
    if IsFork(b) then TipsAt(vs, b.child0.value) && TipsAt(vs, b.child1.value)
    else b.end < |vs| && vs[b.end] == b.head
  }

  /** The children of a skinned fork are skinned from the consecutive blocks after the fork's own. */
  lemma SkinFork(p: Params, g: Numerics, b: Branch, parent: Option<Branch>, radius: real, start: nat)
    requires EvenSegments(p.segments) && IsFork(b)
    ensures var n, r := p.segments, Clamp(radius, b.length);
      var s0 := start + (if parent.None? then n else 0) + ForkSize(n);
      var s1 := s0 + SkinCount(n, b.child0.value, false);
      var fb := Skin(p, g, b, parent, radius, start);
      fb.child0 == Some(Skin(p, g, b.child0.value, Some(b), Radius0(p, b, r), s0)) &&
      fb.child1 == Some(Skin(p, g, b.child1.value, Some(b), Radius1(p, r), s1))
  {
    SkinChild0(p, g, b, parent, radius, start);
    SkinChild1(p, g, b, parent, radius, start);
  }

  lemma SkinChild0(p: Params, g: Numerics, b: Branch, parent: Option<Branch>, radius: real, start: nat)
    requires EvenSegments(p.segments) && IsFork(b)
    ensures var n, r := p.segments, Clamp(radius, b.length);
      var s0 := start + (if parent.None? then n else 0) + ForkSize(n);
      Skin(p, g, b, parent, radius, start).child0 == Some(Skin(p, g, b.child0.value, Some(b), Radius0(p, b, r), s0))
  {
  }

  lemma SkinChild1(p: Params, g: Numerics, b: Branch, parent: Option<Branch>, radius: real, start: nat)
    requires EvenSegments(p.segments) && IsFork(b)
    ensures var n, r := p.segments, Clamp(radius, b.length);
      var s1 := start + (if parent.None? then n else 0) + ForkSize(n) + SkinCount(n, b.child0.value, false);
      Skin(p, g, b, parent, radius, start).child1 == Some(Skin(p, g, b.child1.value, Some(b), Radius1(p, r), s1))
  {
  }

  /** Apart from its children, a skinned fork is `b` with the radius, base ring, tangent and ring layouts set. */
  lemma SkinForkFields(p: Params, g: Numerics, b: Branch, parent: Option<Branch>, radius: real, start: nat)
    requires EvenSegments(p.segments) && IsFork(b)
    ensures var n := p.segments;
      var s := start + (if parent.None? then n else 0);
      Skin(p, g, b, parent, radius, start).(child0 := b.child0, child1 := b.child1) ==
        b.(radius := radius, root := if parent.None? then Range(start, n) else b.root, tangent := ForkTangent(g, b),
           ring0 := Some(Ring0At(s, n)), ring1 := Some(Ring1At(s, n)), ring2 := Some(Ring2At(s, n)))
  {
  }

  /** A fork's skin, field by field, from the blocks its parts occupy. */
  lemma SkinForkIs(p: Params, g: Numerics, b: Branch, parent: Option<Branch>, radius: real, start: nat,
                   root: seq<nat>, tangent: Vec3, ring0: seq<nat>, ring1: seq<nat>, ring2: seq<nat>,
                   fc0: Branch, fc1: Branch, s1: nat)
    requires EvenSegments(p.segments) && IsFork(b)
    requires root == if parent.None? then Range(start, p.segments) else b.root
    requires tangent == ForkTangent(g, b)
    requires var s := start + (if parent.None? then p.segments else 0);
      ring0 == Ring0At(s, p.segments) && ring1 == Ring1At(s, p.segments) && ring2 == Ring2At(s, p.segments)
    requires var n, r := p.segments, Clamp(radius, b.length);
      fc0 == Skin(p, g, b.child0.value, Some(b), Radius0(p, b, r), start + (if parent.None? then n else 0) + ForkSize(n))
    requires var n := p.segments;
      s1 == start + (if parent.None? then n else 0) + ForkSize(n) + SkinCount(n, b.child0.value, false)
    requires fc1 == Skin(p, g, b.child1.value, Some(b), Radius1(p, Clamp(radius, b.length)), s1)
    ensures b.(radius := radius, root := root, tangent := tangent,
        ring0 := Some(ring0), ring1 := Some(ring1), ring2 := Some(ring2),
        child0 := Some(fc0), child1 := Some(fc1)) == Skin(p, g, b, parent, radius, start)
  {
    SkinChild0(p, g, b, parent, radius, start);
    SkinChild1(p, g, b, parent, radius, start);
    SkinForkFields(p, g, b, parent, radius, start);
  }

  /** A fork's vertices: the base ring at the root, its own block, then both subtrees'. */
  lemma SkinVertsFork(p: Params, g: Numerics, b: Branch, parent: Option<Branch>, radius: real,
                      rootPart: seq<Vec3>, forkPart: seq<Vec3>, v0: seq<Vec3>, v1: seq<Vec3>)
    requires EvenSegments(p.segments) && IsFork(b)
    requires rootPart == if parent.None? then RootVerts(g, p.segments, Clamp(radius, b.length)) else []
    requires forkPart == ForkVerts(g, Frame(p, b, parent, Clamp(radius, b.length)), p.segments)
    requires v0 == SkinVerts(p, g, b.child0.value, Some(b), Radius0(p, b, Clamp(radius, b.length)))
    requires v1 == SkinVerts(p, g, b.child1.value, Some(b), Radius1(p, Clamp(radius, b.length)))
    ensures SkinVerts(p, g, b, parent, radius) == rootPart + forkPart + v0 + v1
  {
  }

  /**
   * In any vertex buffer that starts with `vs` followed by the skin of
   * `b`, each leaf's head sits at its recorded `end`.
   */
  lemma {:induction false} SkinTips(p: Params, g: Numerics, vs: seq<Vec3>, all: seq<Vec3>,
                                    b: Branch, parent: Option<Branch>, radius: real)
    requires EvenSegments(p.segments)
    requires vs + SkinVerts(p, g, b, parent, radius) <= all
    ensures TipsAt(all, Skin(p, g, b, parent, radius, |vs|))
    decreases b
  {
    var n := p.segments;
    var r := Clamp(radius, b.length);
    var rootPart := if parent.None? then RootVerts(g, n, r) else [];
    if IsFork(b) {
      var c0, c1 := b.child0.value, b.child1.value;
      var pre := vs + rootPart + ForkVerts(g, Frame(p, b, parent, r), n);
      var v0 := SkinVerts(p, g, c0, Some(b), Radius0(p, b, r));
      var v1 := SkinVerts(p, g, c1, Some(b), Radius1(p, r));
      assert SkinVerts(p, g, b, parent, radius) == rootPart + ForkVerts(g, Frame(p, b, parent, r), n) + v0 + v1;
      assert pre + v0 + v1 == vs + SkinVerts(p, g, b, parent, radius);
      assert pre + v0 <= all;
      SkinTips(p, g, pre, all, c0, Some(b), Radius0(p, b, r));
      SkinTips(p, g, pre + v0, all, c1, Some(b), Radius1(p, r));
      assert |pre| == |vs| + (if parent.None? then n else 0) + ForkSize(n);
      SkinForkTips(p, g, all, b, parent, radius, |vs|, |pre|, |pre + v0|);
    } else {
      SkinLeafTip(p, g, vs, all, b, parent, radius);
    }
  }

  lemma SkinForkTips(p: Params, g: Numerics, all: seq<Vec3>, b: Branch, parent: Option<Branch>, radius: real,
                      start: nat, s0: nat, s1: nat)
    requires EvenSegments(p.segments) && IsFork(b)
    requires s0 == start + (if parent.None? then p.segments else 0) + ForkSize(p.segments)
    requires s1 == s0 + SkinCount(p.segments, b.child0.value, false)
    requires TipsAt(all, Skin(p, g, b.child0.value, Some(b), Radius0(p, b, Clamp(radius, b.length)), s0))
    requires TipsAt(all, Skin(p, g, b.child1.value, Some(b), Radius1(p, Clamp(radius, b.length)), s1))
    ensures TipsAt(all, Skin(p, g, b, parent, radius, start))
  {
    SkinFork(p, g, b, parent, radius, start);
  }

  lemma SkinLeafTip(p: Params, g: Numerics, vs: seq<Vec3>, all: seq<Vec3>,
                    b: Branch, parent: Option<Branch>, radius: real)
    requires EvenSegments(p.segments) && !IsFork(b)
    requires vs + SkinVerts(p, g, b, parent, radius) <= all
    ensures TipsAt(all, Skin(p, g, b, parent, radius, |vs|))
  {
    var n := p.segments;
    var r := Clamp(radius, b.length);
    var rootPart := if parent.None? then RootVerts(g, n, r) else [];
    var e := |vs| + |rootPart|;
    assert SkinVerts(p, g, b, parent, radius) == rootPart + [b.head];
    assert Skin(p, g, b, parent, radius, |vs|).end == e;
    assert all[e] == (vs + rootPart + [b.head])[e];
  }

  /**
   * The skin of a subtree has `3 n / 2 - 1` vertices per fork and one per
   * leaf, plus the base ring at the root.
   */
  lemma {:induction false} SkinCountFormula(n: nat, b: Branch, isRoot: bool)
    requires EvenSegments(n)
    ensures SkinCount(n, b, isRoot) == (if isRoot then n else 0) + ForkSize(n) * Forks(b) + Leaves(b)
    decreases b
  {
    if IsFork(b) {
      SkinCountFormula(n, b.child0.value, false);
      SkinCountFormula(n, b.child1.value, false);
      MulSum(ForkSize(n), Forks(b.child0.value), Forks(b.child1.value), Forks(b));
    }
  }

  /** Proof helper for `SkinCountFormula`: multiplication distributes over a sum. */
  lemma MulSum(a: int, x: int, y: int, z: int)
    requires z == 1 + x + y
    ensures a * z == a + a * x + a * y
  {
  }
}
