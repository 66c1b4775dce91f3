/**
 * The triangles `Tree.doFaces` (src/proctree/index.ts:357-456) appends to
 * `faces` for the wood mesh, as a function of the skinned skeleton and the
 * vertex positions: the cap joining the base ring to the root fork, the
 * stitches joining every fork to its child forks, and the fans closing
 * every fork whose children are leaves.
 */
module Faces {
  import opened Wrappers
  import opened Vectors
  import opened Config
  import opened Skeleton
  import opened Rings
  import opened Forks
  import opened Mesh

  /** A skinned subtree with rings of `n` entries, all of whose stored indices are below `m`. */
  predicate Addressed(n: nat, b: Branch, m: nat) {
    Shaped(n, b) && forall i | i in Indices(b) :: i < m
  }

  /** A branch with three rings of `n` entries, all below `m`. */
  predicate Ringed(n: nat, b: Branch, m: nat) {
    b.ring0.Some? && b.ring1.Some? && b.ring2.Some? &&
    |b.ring0.value| == n && |b.ring1.value| == n && |b.ring2.value| == n &&
    Within(b.ring0.value, 0, m) && Within(b.ring1.value, 0, m) && Within(b.ring2.value, 0, m)
  }

  /** The rings of an addressed fork are in range, and its children are addressed. */
  lemma AddressedFork(n: nat, b: Branch, m: nat)
    requires Addressed(n, b, m) && IsFork(b)
    ensures Ringed(n, b, m)
    ensures Addressed(n, b.child0.value, m) && Addressed(n, b.child1.value, m)
  {
    assert Indices(b) == Elems(b.ring0.value) + Elems(b.ring1.value) + Elems(b.ring2.value) +
      Indices(b.child0.value) + Indices(b.child1.value);
    forall r | r in [b.ring0.value, b.ring1.value, b.ring2.value] ensures Within(r, 0, m) {
      forall i | 0 <= i < |r| ensures r[i] < m {
        assert r[i] in Elems(r);
      }
    }
  }

  /**
   * The position the source's scan settles on: the first position holding
   * the greatest score (a later score replaces the match only when it is
   * strictly greater).
   */
  function FirstMax(s: seq<real>): (k: nat)
    requires |s| > 0
    ensures k < |s|
    ensures forall j | 0 <= j < |s| :: s[j] <= s[k]
    ensures forall j | 0 <= j < k :: s[j] < s[k]
  {
    if |s| == 1 then 0
    else
      var k := FirstMax(s[..|s| - 1]);
      if s[|s| - 1] > s[k] then |s| - 1 else k
  }

  /** The two properties of `FirstMax` single out one position. */
  lemma FirstMaxUnique(s: seq<real>, k: nat)
    requires k < |s|
    requires forall j | 0 <= j < |s| :: s[j] <= s[k]
    requires forall j | 0 <= j < k :: s[j] < s[k]
    ensures k == FirstMax(s)
  {
    var m := FirstMax(s);
  }

  /** Scanning one more score moves the match only to a strictly greater score. */
  lemma FirstMaxSnoc(s: seq<real>, i: nat)
    requires 0 < i < |s|
    ensures FirstMax(s[..i + 1]) == if s[i] > s[FirstMax(s[..i])] then i else FirstMax(s[..i])
  {
    assert s[..i + 1][..i] == s[..i];
  }

  /** `segments - i` for the best-matching position `i`. */
  function SegOffset(scores: seq<real>): (so: nat)
    requires |scores| > 0
    ensures 1 <= so <= |scores|
    ensures forall j | 0 <= j < |scores| :: scores[j] <= scores[|scores| - so]
  {
    |scores| - FirstMax(scores)
  }

  /**
   * How well each vertex of a child fork's `ring0` lines up with the
   * direction from the parent's head to `verts[first]`, flattened against
   * the direction of the child.
   */
  function Scores(g: Numerics, verts: seq<Vec3>, parentHead: Vec3, first: nat, child: Branch, n: nat): (s: seq<real>)
    requires first < |verts| && child.ring0.Some? && |child.ring0.value| == n
    requires Within(child.ring0.value, 0, |verts|)
    ensures |s| == n
  {
    var reference := ScaleInDirection(
      g.normalize(Sub(verts[first], parentHead)), g.normalize(Sub(child.head, parentHead)), 0.0);
    seq(n, i requires 0 <= i < n =>
      Dot(g.normalize(Sub(verts[child.ring0.value[i]], child.head)), reference))
  }

  /** The offset of the base ring under the root fork. */
  function RootOffset(g: Numerics, b: Branch, n: nat): nat
    requires IsFork(b)
  {
    g.rootSegOffset(b.head, b.child0.value.head, b.child1.value.head, n)
  }

  /** The first `k` quads between the base ring and the root's `ring0`. */
  function RootCap(r0: seq<nat>, base: seq<nat>, so: nat, n: nat, k: nat): (fs: seq<Face>)
    requires 0 < n && |r0| == n && |base| == n && k <= n
    ensures |fs| == 2 * k
  {
    if k == 0 then []
    else
      var i := k - 1;
      var v1, v2, v3, v4 := r0[i], base[RingIndex(i + so + 1, n)], base[RingIndex(i + so, n)], r0[RingIndex(i + 1, n)];
      RootCap(r0, base, so, n, i) + [Face(v1, v4, v3), Face(v4, v2, v3)]
  }

  /**
   * The first `k` steps of the stitch between a fork and its two child
   * forks: each step is a quad towards child0 (against `ring1`) followed by
   * a quad towards child1 (against `ring2`).
   */
  function Stitch(r1: seq<nat>, r2: seq<nat>, c0: seq<nat>, c1: seq<nat>, so0: nat, so1: nat, n: nat, k: nat): (fs: seq<Face>)
    requires 0 < n && |r1| == n && |r2| == n && |c0| == n && |c1| == n && k <= n
    ensures |fs| == 4 * k
  {
    if k == 0 then []
    else
      var i := k - 1;
      var a1, a2, a3, a4 := c0[i], r1[RingIndex(i + so0 + 1, n)], r1[RingIndex(i + so0, n)], c0[RingIndex(i + 1, n)];
      var b1, b2, b3, b4 := c1[i], r2[RingIndex(i + so1 + 1, n)], r2[RingIndex(i + so1, n)], c1[RingIndex(i + 1, n)];
      Stitch(r1, r2, c0, c1, so0, so1, n, i) +
        [Face(a1, a4, a3), Face(a4, a2, a3), Face(b1, b2, b3), Face(b1, b4, b2)]
  }

  /** The first `k` steps of the two fans closing `ring1` at `e0` and `ring2` at `e1`. */
  function LeafCap(r1: seq<nat>, r2: seq<nat>, e0: nat, e1: nat, n: nat, k: nat): (fs: seq<Face>)
    requires 0 < n && |r1| == n && |r2| == n && k <= n
    ensures |fs| == 2 * k
  {
    if k == 0 then []
    else
      var i := k - 1;
      LeafCap(r1, r2, e0, e1, n, i) +
        [Face(e0, r1[RingIndex(i + 1, n)], r1[i]), Face(e1, r2[RingIndex(i + 1, n)], r2[i])]
  }

  /** The offsets the stitch of fork `b` uses towards its two child forks. */
  function ChildOffsets(g: Numerics, verts: seq<Vec3>, b: Branch, n: nat): (so: (nat, nat))
    requires EvenSegments(n) && IsFork(b) && Addressed(n, b, |verts|) && IsFork(b.child0.value)
    ensures 1 <= so.0 <= n && 1 <= so.1 <= n
  {
    AddressedFork(n, b, |verts|);
    AddressedFork(n, b.child0.value, |verts|);
    AddressedFork(n, b.child1.value, |verts|);
    (SegOffset(Scores(g, verts, b.head, b.ring1.value[0], b.child0.value, n)),
     SegOffset(Scores(g, verts, b.head, b.ring2.value[0], b.child1.value, n)))
  }

  /** The faces `doFaces(b)` appends, in order. */
  function TreeFaces(p: Params, g: Numerics, verts: seq<Vec3>, b: Branch, parent: Option<Branch>): (fs: seq<Face>)
    requires EvenSegments(p.segments) && IsFork(b) && Addressed(p.segments, b, |verts|)
    requires parent.None? ==> |b.root| == p.segments
    decreases b
  {
    var n := p.segments;
    var c0, c1 := b.child0.value, b.child1.value;
    AddressedFork(n, b, |verts|);
    var rootPart := if parent.None? then RootCap(b.ring0.value, b.root, RootOffset(g, b, n), n, n) else [];
    if IsFork(c0) then
      var so := ChildOffsets(g, verts, b, n);
      rootPart + Stitch(b.ring1.value, b.ring2.value, c0.ring0.value, c1.ring0.value, so.0, so.1, n, n)
        + TreeFaces(p, g, verts, c0, Some(b)) + TreeFaces(p, g, verts, c1, Some(b))
    else
      rootPart + LeafCap(b.ring1.value, b.ring2.value, c0.end, c1.end, n, n)
  }

  /** Faces below the root cap: `4 n` per fork over forks, `2 n` per fork over leaves. */
  function StitchCount(n: nat, b: Branch): nat
    decreases b
  {
    if IsFork(b) && IsFork(b.child0.value) then
      4 * n + StitchCount(n, b.child0.value) + StitchCount(n, b.child1.value)
    else 2 * n
  }

  lemma {:induction false} TreeFacesCount(p: Params, g: Numerics, verts: seq<Vec3>, b: Branch, parent: Option<Branch>)
    requires EvenSegments(p.segments) && IsFork(b) && Addressed(p.segments, b, |verts|)
    requires parent.None? ==> |b.root| == p.segments
    ensures |TreeFaces(p, g, verts, b, parent)| ==
      StitchCount(p.segments, b) + (if parent.None? then 2 * p.segments else 0)
    decreases b
  {
    var n := p.segments;
    var c0, c1 := b.child0.value, b.child1.value;
    AddressedFork(n, b, |verts|);
    if IsFork(c0) {
      TreeFacesCount(p, g, verts, c0, Some(b));
      TreeFacesCount(p, g, verts, c1, Some(b));
    }
  }

  /**
   * A shaped subtree with `L` leaves gets `n (3 L - 4)` faces besides the
   * root cap, so the whole tree gets `n (3 L - 2)`.
   */
  lemma {:induction false} StitchCountLeaves(n: nat, b: Branch)
    requires IsFork(b) && Shaped(n, b)
    ensures Leaves(b) >= 2
    ensures StitchCount(n, b) == n * (3 * Leaves(b) - 4)
    decreases b
  {
    var c0, c1 := b.child0.value, b.child1.value;
    if IsFork(c0) {
      StitchCountLeaves(n, c0);
      StitchCountLeaves(n, c1);
      Distribute(n, 4, 3 * Leaves(c0) - 4, 3 * Leaves(c1) - 4, 3 * Leaves(b) - 4);
    } else {
      assert Leaves(c0) == 1 && Leaves(c1) == 1;
      Distribute(n, 2, 0, 0, 3 * Leaves(b) - 4);
    }
  }

  /** The whole tree, base cap included, gets `n (3 L - 2)` faces. */
  lemma RootFacesCount(p: Params, g: Numerics, verts: seq<Vec3>, b: Branch)
    requires EvenSegments(p.segments) && IsFork(b) && Addressed(p.segments, b, |verts|) && |b.root| == p.segments
    ensures |TreeFaces(p, g, verts, b, None)| == p.segments * (3 * Leaves(b) - 2)
  {
    var n := p.segments;
    TreeFacesCount(p, g, verts, b, None);
    StitchCountLeaves(n, b);
    Distribute(n, 3 * Leaves(b) - 4, 2, 0, 3 * Leaves(b) - 2);
  }

  /** Proof helper for the face counts: `n` distributes over a sum. */
  lemma Distribute(n: int, x: int, y: int, z: int, w: int)
    requires x + y + z == w
    ensures n * x + n * y + n * z == n * w
  {
  }

  lemma {:induction false} RootCapWithin(r0: seq<nat>, base: seq<nat>, so: nat, n: nat, k: nat, m: nat)
    requires 0 < n && |r0| == n && |base| == n && k <= n
    requires Within(r0, 0, m) && Within(base, 0, m)
    ensures FacesWithin(RootCap(r0, base, so, n, k), 0, m)
  {
    if k > 0 {
      RootCapWithin(r0, base, so, n, k - 1, m);
    }
  }

  lemma {:induction false} StitchWithin(r1: seq<nat>, r2: seq<nat>, c0: seq<nat>, c1: seq<nat>, so0: nat, so1: nat, n: nat, k: nat, m: nat)
    requires 0 < n && |r1| == n && |r2| == n && |c0| == n && |c1| == n && k <= n
    requires Within(r1, 0, m) && Within(r2, 0, m) && Within(c0, 0, m) && Within(c1, 0, m)
    ensures FacesWithin(Stitch(r1, r2, c0, c1, so0, so1, n, k), 0, m)
  {
    if k > 0 {
      StitchWithin(r1, r2, c0, c1, so0, so1, n, k - 1, m);
    }
  }

  lemma {:induction false} LeafCapWithin(r1: seq<nat>, r2: seq<nat>, e0: nat, e1: nat, n: nat, k: nat, m: nat)
    requires 0 < n && |r1| == n && |r2| == n && k <= n
    requires Within(r1, 0, m) && Within(r2, 0, m) && e0 < m && e1 < m
    ensures FacesWithin(LeafCap(r1, r2, e0, e1, n, k), 0, m)
  {
    if k > 0 {
      LeafCapWithin(r1, r2, e0, e1, n, k - 1, m);
    }
  }

  /**
   * Every face refers to an existing vertex, so the per-vertex lists of
   * `calcNormals` are never indexed out of range.
   */
  lemma {:induction false} TreeFacesWithin(p: Params, g: Numerics, verts: seq<Vec3>, b: Branch, parent: Option<Branch>)
    requires EvenSegments(p.segments) && IsFork(b) && Addressed(p.segments, b, |verts|)
    requires parent.None? ==> |b.root| == p.segments && Within(b.root, 0, |verts|)
    ensures FacesWithin(TreeFaces(p, g, verts, b, parent), 0, |verts|)
    decreases b
  {
    var n, m := p.segments, |verts|;
    var c0, c1 := b.child0.value, b.child1.value;
    AddressedFork(n, b, m);
    var rootPart := if parent.None? then RootCap(b.ring0.value, b.root, RootOffset(g, b, n), n, n) else [];
    if parent.None? {
      RootCapWithin(b.ring0.value, b.root, RootOffset(g, b, n), n, n, m);
    }
    if IsFork(c0) {
      var so := ChildOffsets(g, verts, b, n);
      AddressedFork(n, c0, m);
      AddressedFork(n, c1, m);
      var st := Stitch(b.ring1.value, b.ring2.value, c0.ring0.value, c1.ring0.value, so.0, so.1, n, n);
      StitchWithin(b.ring1.value, b.ring2.value, c0.ring0.value, c1.ring0.value, so.0, so.1, n, n, m);
      TreeFacesWithin(p, g, verts, c0, Some(b));
      TreeFacesWithin(p, g, verts, c1, Some(b));
      FacesWithinAppend(rootPart, st, 0, m);
      FacesWithinAppend(rootPart + st, TreeFaces(p, g, verts, c0, Some(b)), 0, m);
      FacesWithinAppend(rootPart + st + TreeFaces(p, g, verts, c0, Some(b)), TreeFaces(p, g, verts, c1, Some(b)), 0, m);
    } else {
      assert c0.end in Indices(c0) && c1.end in Indices(c1);
      LeafCapWithin(b.ring1.value, b.ring2.value, c0.end, c1.end, n, n, m);
      FacesWithinAppend(rootPart, LeafCap(b.ring1.value, b.ring2.value, c0.end, c1.end, n, n), 0, m);
    }
  }

  /** `TreeFaces` at a fork whose children are forks, given its parts (after any earlier faces `pre`). */
  lemma TreeFacesFork(pre: seq<Face>, p: Params, g: Numerics, verts: seq<Vec3>, b: Branch, parent: Option<Branch>,
                      rootPart: seq<Face>, so0: nat, so1: nat, st: seq<Face>, t0: seq<Face>, t1: seq<Face>)
    requires EvenSegments(p.segments) && IsFork(b) && Addressed(p.segments, b, |verts|) && IsFork(b.child0.value)
    requires Addressed(p.segments, b.child0.value, |verts|) && Addressed(p.segments, b.child1.value, |verts|)
    requires parent.None? ==> |b.root| == p.segments
    requires rootPart == if parent.None? then RootCap(b.ring0.value, b.root, RootOffset(g, b, p.segments), p.segments, p.segments) else []
    requires (so0, so1) == ChildOffsets(g, verts, b, p.segments)
    requires st == Stitch(b.ring1.value, b.ring2.value, b.child0.value.ring0.value, b.child1.value.ring0.value, so0, so1, p.segments, p.segments)
    requires t0 == TreeFaces(p, g, verts, b.child0.value, Some(b))
    requires t1 == TreeFaces(p, g, verts, b.child1.value, Some(b))
    ensures pre + TreeFaces(p, g, verts, b, parent) == pre + rootPart + st + t0 + t1
  {
    assert TreeFaces(p, g, verts, b, parent) == rootPart + st + t0 + t1;
    AppendAssoc(pre, rootPart, st, t0, t1);
  }

  /** Proof helper: appending four blocks one after another is appending their concatenation. */
  lemma AppendAssoc<T>(s: seq<T>, a: seq<T>, b: seq<T>, c: seq<T>, d: seq<T>)
    ensures s + (a + b + c + d) == s + a + b + c + d
  {
  }

  /** `TreeFaces` at a fork whose children are leaves (after any earlier faces `pre`). */
  lemma TreeFacesLeaves(pre: seq<Face>, p: Params, g: Numerics, verts: seq<Vec3>, b: Branch, parent: Option<Branch>, rootPart: seq<Face>)
    requires EvenSegments(p.segments) && IsFork(b) && Addressed(p.segments, b, |verts|) && !IsFork(b.child0.value)
    requires parent.None? ==> |b.root| == p.segments
    requires rootPart == if parent.None? then RootCap(b.ring0.value, b.root, RootOffset(g, b, p.segments), p.segments, p.segments) else []
    ensures pre + TreeFaces(p, g, verts, b, parent) ==
      pre + rootPart + LeafCap(b.ring1.value, b.ring2.value, b.child0.value.end, b.child1.value.end, p.segments, p.segments)
  {
    var cap := LeafCap(b.ring1.value, b.ring2.value, b.child0.value.end, b.child1.value.end, p.segments, p.segments);
    assert TreeFaces(p, g, verts, b, parent) == rootPart + cap;
    assert pre + (rootPart + cap) == pre + rootPart + cap;
  }

  /** Step `i` of the base-cap loop adds the quad at position `i` (after any earlier faces `pre`). */
  lemma RootCapStep(pre: seq<Face>, r0: seq<nat>, base: seq<nat>, so: nat, n: nat, i: nat, k: nat)
    requires 0 < n && |r0| == n && |base| == n && k == i + 1 <= n
    ensures pre + RootCap(r0, base, so, n, k) == pre + RootCap(r0, base, so, n, i) +
        [Face(r0[i], r0[RingIndex(i + 1, n)], base[RingIndex(i + so, n)]), Face(r0[RingIndex(i + 1, n)], base[RingIndex(i + so + 1, n)], base[RingIndex(i + so, n)])]
  {
    var quad := [Face(r0[i], r0[RingIndex(i + 1, n)], base[RingIndex(i + so, n)]), Face(r0[RingIndex(i + 1, n)], base[RingIndex(i + so + 1, n)], base[RingIndex(i + so, n)])];
    assert RootCap(r0, base, so, n, k) == RootCap(r0, base, so, n, i) + quad;
    assert pre + (RootCap(r0, base, so, n, i) + quad) == pre + RootCap(r0, base, so, n, i) + quad;
  }

  /** Step `i` of the stitch loop adds the two quads at position `i` (after any earlier faces `pre`). */
  lemma StitchStep(pre: seq<Face>, r1: seq<nat>, r2: seq<nat>, c0: seq<nat>, c1: seq<nat>, so0: nat, so1: nat, n: nat, i: nat, k: nat)
    requires 0 < n && |r1| == n && |r2| == n && |c0| == n && |c1| == n && k == i + 1 <= n
    ensures pre + Stitch(r1, r2, c0, c1, so0, so1, n, k) == pre + Stitch(r1, r2, c0, c1, so0, so1, n, i) +
        [Face(c0[i], c0[RingIndex(i + 1, n)], r1[RingIndex(i + so0, n)]), Face(c0[RingIndex(i + 1, n)], r1[RingIndex(i + so0 + 1, n)], r1[RingIndex(i + so0, n)])] +
        [Face(c1[i], r2[RingIndex(i + so1 + 1, n)], r2[RingIndex(i + so1, n)]), Face(c1[i], c1[RingIndex(i + 1, n)], r2[RingIndex(i + so1 + 1, n)])]
  {
    var quad0 := [Face(c0[i], c0[RingIndex(i + 1, n)], r1[RingIndex(i + so0, n)]), Face(c0[RingIndex(i + 1, n)], r1[RingIndex(i + so0 + 1, n)], r1[RingIndex(i + so0, n)])];
    var quad1 := [Face(c1[i], r2[RingIndex(i + so1 + 1, n)], r2[RingIndex(i + so1, n)]), Face(c1[i], c1[RingIndex(i + 1, n)], r2[RingIndex(i + so1 + 1, n)])];
    var before := Stitch(r1, r2, c0, c1, so0, so1, n, i);
    assert Stitch(r1, r2, c0, c1, so0, so1, n, k) == before + quad0 + quad1;
    assert pre + (before + quad0 + quad1) == pre + before + quad0 + quad1;
  }

  /** Step `i` of the leaf-cap loop adds the two fan triangles at position `i` (after any earlier faces `pre`). */
  lemma LeafCapStep(pre: seq<Face>, r1: seq<nat>, r2: seq<nat>, e0: nat, e1: nat, n: nat, i: nat, k: nat)
    requires 0 < n && |r1| == n && |r2| == n && k == i + 1 <= n
    ensures pre + LeafCap(r1, r2, e0, e1, n, k) == pre + LeafCap(r1, r2, e0, e1, n, i) +
        [Face(e0, r1[RingIndex(i + 1, n)], r1[i]), Face(e1, r2[RingIndex(i + 1, n)], r2[i])]
  {
    var fan := [Face(e0, r1[RingIndex(i + 1, n)], r1[i]), Face(e1, r2[RingIndex(i + 1, n)], r2[i])];
    assert LeafCap(r1, r2, e0, e1, n, k) == LeafCap(r1, r2, e0, e1, n, i) + fan;
    assert pre + (LeafCap(r1, r2, e0, e1, n, i) + fan) == pre + LeafCap(r1, r2, e0, e1, n, i) + fan;
  }
}
