/**
 * The `Tree` class of src/proctree/index.ts: one generation's buffers,
 * filled in place by `createForks`, `createTwigs`, `doFaces` and
 * `calcNormals`. Every method is proved to leave the buffers (and the
 * branch values it returns) exactly as the functions of `Forks`, `Twigs`,
 * `Faces`, `Uvs` and `Normals` describe.
 */
module ProcTree {
  import opened Wrappers
  import opened Vectors
  import opened Config
  import opened Skeleton
  import opened Rings
  import opened Forks
  import opened Mesh
  import opened Twigs
  import opened Faces
  import opened Uvs
  import opened Normals
  import opened Generation

  class Tree {
    const numerics: Numerics
    const properties: Params
    var root: Branch
    var verts: seq<Vec3>
    var normals: seq<Vec3>
    var uv: seq<Vec2>
    var faces: seq<Face>
    var vertsTwig: seq<Vec3>
    var normalsTwig: seq<Vec3>
    var uvsTwig: seq<Vec2>
    var facesTwig: seq<Face>

    /**
     * One generation: merge the options over the defaults, grow the
     * skeleton from the root, then `createForks`, `createTwigs`, `doFaces`
     * and `calcNormals` on empty buffers.
     */
    constructor (o: Options, g: Numerics)
      requires EvenSegments(Merge(o).segments)
      ensures properties == Merge(o) && numerics == g
      ensures root == Skinned(properties, numerics)
      ensures verts == WoodVerts(properties, numerics) && faces == WoodFaces(properties, numerics)
      ensures uv == WoodUVs(properties, numerics) && normals == WoodNormals(properties, numerics)
      ensures vertsTwig == TwigVerts(properties, numerics, Skinned(properties, numerics), None)
      ensures normalsTwig == TwigNormals(properties, numerics, Skinned(properties, numerics), None)
      ensures uvsTwig == TwigUVs(Skinned(properties, numerics)) && facesTwig == TwigFaces(Skinned(properties, numerics), 0)
    {
      properties := Merge(o);
      numerics := g;
      root := Grow(Merge(o), g);
      verts, normals, uv, faces := [], [], [], [];
      vertsTwig, normalsTwig, uvsTwig, facesTwig := [], [], [], [];
      new;
      Generate();
    }

    /** The four passes of a generation, on the grown root and empty buffers. */
    method Generate()
      requires EvenSegments(properties.segments) && root == Grow(properties, numerics)
      requires verts == [] && normals == [] && uv == [] && faces == []
      requires vertsTwig == [] && normalsTwig == [] && uvsTwig == [] && facesTwig == []
      modifies this`root, this`verts, this`normals, this`uv, this`faces
      modifies this`vertsTwig, this`normalsTwig, this`uvsTwig, this`facesTwig
      ensures root == Skinned(properties, numerics)
      ensures verts == WoodVerts(properties, numerics) && faces == WoodFaces(properties, numerics)
      ensures uv == WoodUVs(properties, numerics) && normals == WoodNormals(properties, numerics)
      ensures vertsTwig == TwigVerts(properties, numerics, Skinned(properties, numerics), None)
      ensures normalsTwig == TwigNormals(properties, numerics, Skinned(properties, numerics), None)
      ensures uvsTwig == TwigUVs(Skinned(properties, numerics)) && facesTwig == TwigFaces(Skinned(properties, numerics), 0)
    {
      SkinRoot();
      AddTwigs();
      FacesAndNormals();
    }

    /** The first step of a generation: `createForks` from the grown root into an empty vertex buffer. */
    method SkinRoot()
      requires EvenSegments(properties.segments) && root == Grow(properties, numerics) && verts == []
      modifies this`root, this`verts
      ensures root == Skinned(properties, numerics) && verts == WoodVerts(properties, numerics)
    {
      root := CreateForks(root, None, properties.maxRadius);
    }

    /** The second step of a generation: `createTwigs` from the skinned root into empty twig buffers. */
    method AddTwigs()
      requires EvenSegments(properties.segments) && root == Skinned(properties, numerics)
      requires vertsTwig == [] && normalsTwig == [] && uvsTwig == [] && facesTwig == []
      modifies this`vertsTwig, this`normalsTwig, this`uvsTwig, this`facesTwig
      ensures vertsTwig == TwigVerts(properties, numerics, Skinned(properties, numerics), None)
      ensures normalsTwig == TwigNormals(properties, numerics, Skinned(properties, numerics), None)
      ensures uvsTwig == TwigUVs(Skinned(properties, numerics)) && facesTwig == TwigFaces(Skinned(properties, numerics), 0)
    {
      SkinnedSite(properties, numerics);
      CreateTwigs(root, None);
    }

    /** The last two steps of a generation: `doFaces` from the skinned root, then `calcNormals`. */
    method FacesAndNormals()
      requires EvenSegments(properties.segments)
      requires root == Skinned(properties, numerics) && verts == WoodVerts(properties, numerics)
      requires faces == [] && uv == [] && normals == []
      modifies this`faces, this`uv, this`normals
      ensures faces == WoodFaces(properties, numerics) && uv == WoodUVs(properties, numerics)
      ensures normals == WoodNormals(properties, numerics)
    {
      FacesFromRoot();
      NormalsFromFaces();
    }

    /** The third step of a generation: `doFaces` from the skinned root, on empty face and texture buffers. */
    method FacesFromRoot()
      requires EvenSegments(properties.segments)
      requires root == Skinned(properties, numerics) && verts == WoodVerts(properties, numerics)
      requires faces == [] && uv == []
      modifies this`faces, this`uv
      ensures faces == WoodFaces(properties, numerics) && uv == WoodUVs(properties, numerics)
    {
      WoodReady(properties, numerics, verts, root);
      DoFaces(root, None);
    }

    /** The last step of a generation: `calcNormals` over the wood faces, on an empty normal buffer. */
    method NormalsFromFaces()
      requires EvenSegments(properties.segments)
      requires verts == WoodVerts(properties, numerics) && faces == WoodFaces(properties, numerics) && normals == []
      modifies this`normals
      ensures normals == WoodNormals(properties, numerics)
    {
      assert FacesWithin(faces, 0, |verts|) by {
        WoodFacesWithin(properties, numerics);
      }
      CalcNormals();
    }

    /**
     * The base ring of the root: `n` vertices pushed in order, their
     * indices collected in `ring`.
     */
    method PushBaseRing(r: real) returns (ring: seq<nat>)
      requires EvenSegments(properties.segments)
      modifies this`verts
      ensures ring == Range(old(|verts|), properties.segments)
      ensures verts == old(verts) + RootVerts(numerics, properties.segments, r)
    {
      var n := properties.segments;
      ghost var vs := RootVerts(numerics, n, r);
      ring := [];
      var i := 0;
      while i < n
        invariant 0 <= i <= n
        invariant ring == Range(old(|verts|), i)
        invariant verts == old(verts) + vs[..i]
      {
        RangeSnoc(old(|verts|), i);
        ring := ring + [|verts|];
        verts := verts + [numerics.rootVertex(i, r)];
        assert vs[..i + 1] == vs[..i] + [vs[i]];
        i := i + 1;
      }
      assert vs[..n] == vs;
    }

    /**
     * The three rings of a fork, pushed as `createForks` pushes them:
     * `linch0` and the first half of the profile, `linch1` and the second
     * half, then the inner arc, each ring taking its entries as they come.
     */
    method PushForkRings(f: ForkFrame) returns (ring0: seq<nat>, ring1: seq<nat>, ring2: seq<nat>)
      requires EvenSegments(properties.segments)
      modifies this`verts
      ensures var s, n := old(|verts|), properties.segments;
        ring0 == Ring0At(s, n) && ring1 == Ring1At(s, n) && ring2 == Ring2At(s, n)
      ensures verts == old(verts) + ForkVerts(numerics, f, properties.segments)
    {
      ghost var pre := verts;
      var linch0 := |verts|;
      ring0, ring2 := PushFirstHalf(f);
      var linch1 := |verts|;
      ring0, ring1 := PushSecondHalf(f, pre, ring0, []);
      ring1 := ring1 + [linch0];
      ring2 := ring2 + [linch1];
      ring1, ring2 := PushInnerArc(f, pre, ring1, ring2);
    }

    /** `linch0` and the first loop: profile vertices `0 .. n/2 - 1`, shared by `ring0` and `ring2`. */
    method PushFirstHalf(f: ForkFrame) returns (ring0: seq<nat>, ring2: seq<nat>)
      requires EvenSegments(properties.segments)
      modifies this`verts
      ensures ring0 == Range(old(|verts|), Half(properties.segments)) && ring2 == ring0
      ensures verts == old(verts) + Pushed(numerics, f, Half(properties.segments))
    {
      var h := properties.segments / 2;
      ghost var s := |verts|;
      var linch0 := |verts|;
      ring0 := [linch0];
      ring2 := [linch0];
      PushedSnoc(numerics, f, 0);
      verts := verts + [numerics.forkVertex(f, 0)];
      var start := |verts| - 1;
      var i := 1;
      while i < h
        invariant 1 <= i <= h && start == s
        invariant ring0 == Range(s, i) && ring2 == ring0
        invariant verts == old(verts) + Pushed(numerics, f, i)
      {
        RangeSnoc(s, i);
        PushedSnoc(numerics, f, i);
        ring0 := ring0 + [start + i];
        ring2 := ring2 + [start + i];
        verts := verts + [numerics.forkVertex(f, i)];
        i := i + 1;
      }
    }

    /** `linch1` and the second loop: profile vertices `n/2 .. n - 1`, shared by `ring0` and `ring1`. */
    method PushSecondHalf(f: ForkFrame, ghost pre: seq<Vec3>, ring0In: seq<nat>, ring1In: seq<nat>)
      returns (ring0: seq<nat>, ring1: seq<nat>)
      requires EvenSegments(properties.segments)
      requires verts == pre + Pushed(numerics, f, Half(properties.segments))
      modifies this`verts
      ensures var s, h := |pre|, Half(properties.segments);
        ring0 == ring0In + Range(s + h, h) && ring1 == ring1In + Range(s + h, h)
      ensures verts == pre + Pushed(numerics, f, properties.segments)
    {
      var n := properties.segments;
      var h := n / 2;
      ghost var s := |pre|;
      var linch1 := |verts|;
      ring0 := ring0In + [linch1];
      ring1 := ring1In + [linch1];
      PushedSnoc(numerics, f, h);
      verts := verts + [numerics.forkVertex(f, h)];
      var i := h + 1;
      while i < n
        invariant h + 1 <= i <= n
        invariant ring0 == ring0In + Range(s + h, i - h) && ring1 == ring1In + Range(s + h, i - h)
        invariant verts == pre + Pushed(numerics, f, i)
      {
        RangeSnoc(s + h, i - h);
        PushedSnoc(numerics, f, i);
        ring0 := ring0 + [|verts|];
        ring1 := ring1 + [|verts|];
        verts := verts + [numerics.forkVertex(f, i)];
        i := i + 1;
      }
    }

    /**
     * The third loop: the `n/2 - 1` inner-arc vertices, appended to `ring1`
     * in push order and to `ring2` in reverse.
     */
    method PushInnerArc(f: ForkFrame, ghost pre: seq<Vec3>, ring1In: seq<nat>, ring2In: seq<nat>)
      returns (ring1: seq<nat>, ring2: seq<nat>)
      requires EvenSegments(properties.segments)
      requires verts == pre + Pushed(numerics, f, properties.segments)
      modifies this`verts
      ensures var s, n := |pre|, properties.segments;
        ring1 == ring1In + Range(s + n, Half(n) - 1) &&
        ring2 == ring2In + Countdown(s + ForkSize(n) - 1, Half(n) - 1)
      ensures verts == pre + ForkVerts(numerics, f, properties.segments)
    {
      var n := properties.segments;
      var h := n / 2;
      ghost var s := |pre|;
      ring1, ring2 := ring1In, ring2In;
      var start := |verts| - 1;
      var i := 1;
      while i < h
        invariant 1 <= i <= h && start == s + n - 1
        invariant ring1 == ring1In + Range(s + n, i - 1)
        invariant ring2 == ring2In + Countdown(s + ForkSize(n) - 1, i - 1)
        invariant verts == pre + Pushed(numerics, f, n - 1 + i)
      {
        RangeSnoc(s + n, i - 1);
        CountdownSnoc(s + ForkSize(n) - 1, i - 1);
        PushedSnoc(numerics, f, n - 1 + i);
        ring1 := ring1 + [start + i];
        ring2 := ring2 + [start + (h - i)];
        verts := verts + [numerics.forkVertex(f, n - 1 + i)];
        i := i + 1;
      }
    }

    /**
     * `createForks(b, radius)`: records the incoming radius, clamps it by
     * the branch length, pushes the base ring at the root, then either the
     * three rings of a fork followed by both subtrees, or the head of a
     * leaf as its `end`.
     */
    method CreateForks(b: Branch, parent: Option<Branch>, radius: real) returns (fb: Branch)
      requires EvenSegments(properties.segments)
      modifies this`verts
      decreases b, 2
      ensures fb == Skin(properties, numerics, b, parent, radius, old(|verts|))
      ensures verts == old(verts) + SkinVerts(properties, numerics, b, parent, radius)
    {
      var n := properties.segments;
      ghost var start := |verts|;
      var r := radius;
      if r > b.length {
        r := b.length;
      }
      var rootRing := b.root;
      if parent.None? {
        rootRing := PushBaseRing(r);
      }
      ghost var rootPart := if parent.None? then RootVerts(numerics, n, r) else [];
      ghost var mid := verts;
      assert mid == old(verts) + rootPart;

      if b.child0.Some? && b.child1.Some? {
        fb := CreateFork(b, parent, radius, r, rootRing, start);
        ghost var forkPart := ForkVerts(numerics, Frame(properties, b, parent, r), n);
        ghost var v0 := SkinVerts(properties, numerics, b.child0.value, Some(b), Radius0(properties, b, r));
        ghost var v1 := SkinVerts(properties, numerics, b.child1.value, Some(b), Radius1(properties, r));
        SkinVertsFork(properties, numerics, b, parent, radius, rootPart, forkPart, v0, v1);
        AppendAssoc(old(verts), rootPart, forkPart, v0, v1);
      } else {
        fb := b.(radius := radius, root := rootRing, end := |verts|);
        verts := verts + [b.head];
      }
    }

    /** The fork case of `createForks`, after the base ring: the three rings, then both subtrees. */
    method CreateFork(b: Branch, parent: Option<Branch>, radius: real, r: real, rootRing: seq<nat>, ghost start: nat)
      returns (fb: Branch)
      requires EvenSegments(properties.segments) && IsFork(b) && r == Clamp(radius, b.length)
      requires |verts| == start + (if parent.None? then properties.segments else 0)
      requires rootRing == if parent.None? then Range(start, properties.segments) else b.root
      modifies this`verts
      decreases b, 1
      ensures fb == Skin(properties, numerics, b, parent, radius, start)
      ensures verts == old(verts) + ForkVerts(numerics, Frame(properties, b, parent, r), properties.segments) +
        SkinVerts(properties, numerics, b.child0.value, Some(b), Radius0(properties, b, r)) +
        SkinVerts(properties, numerics, b.child1.value, Some(b), Radius1(properties, r))
    {
      var c0, c1 := b.child0.value, b.child1.value;
      var tangent := ForkTangent(numerics, b);
      var frame := ForkFrame(if parent.Some? then Some(parent.value.head) else None,
        b.head, c0.head, c1.head, r, c0.kind == Trunk || b.kind == Trunk);
      assert frame == Frame(properties, b, parent, r);
      var ring0, ring1, ring2 := PushForkRings(frame);
      assert |verts| == start + (if parent.None? then properties.segments else 0) + ForkSize(properties.segments);
      var fc0, fc1, mid := CreateChildren(b, r);
      fb := b.(radius := radius, root := rootRing, tangent := tangent,
        ring0 := Some(ring0), ring1 := Some(ring1), ring2 := Some(ring2),
        child0 := Some(fc0), child1 := Some(fc1));
      SkinForkIs(properties, numerics, b, parent, radius, start, rootRing, tangent, ring0, ring1, ring2, fc0, fc1, mid);
    }

    /**
     * The two recursive calls of `createForks` at a fork: `child0` gets the
     * clamped radius times `taperRate` if it continues the trunk, else
     * times `radiusFalloffRate`, which `child1` always gets.
     */
    method CreateChildren(b: Branch, r: real) returns (fc0: Branch, fc1: Branch, ghost mid: nat)
      requires EvenSegments(properties.segments) && IsFork(b)
      modifies this`verts
      decreases b, 0
      ensures fc0 == Skin(properties, numerics, b.child0.value, Some(b), Radius0(properties, b, r), old(|verts|))
      ensures mid == old(|verts|) + SkinCount(properties.segments, b.child0.value, false)
      ensures fc1 == Skin(properties, numerics, b.child1.value, Some(b), Radius1(properties, r), mid)
      ensures verts == old(verts) +
        SkinVerts(properties, numerics, b.child0.value, Some(b), Radius0(properties, b, r)) +
        SkinVerts(properties, numerics, b.child1.value, Some(b), Radius1(properties, r))
    {
      var radius0 := r * properties.radiusFalloffRate;
      var radius1 := r * properties.radiusFalloffRate;
      if b.child0.value.kind == Trunk {
        radius0 := r * properties.taperRate;
      }
      assert radius0 == Radius0(properties, b, r) && radius1 == Radius1(properties, r);
      fc0 := CreateForks(b.child0.value, Some(b), radius0);
      mid := |verts|;
      fc1 := CreateForks(b.child1.value, Some(b), radius1);
    }

    /**
     * `createTwigs`: a quad for every leaf, depth first. A branch without
     * `child0` is a leaf; any other branch recurses into both children.
     */
    method CreateTwigs(b: Branch, parent: Option<Branch>)
      requires EvenSegments(properties.segments) && TwigSite(b, parent) && Shaped(properties.segments, b)
      modifies this`vertsTwig, this`normalsTwig, this`uvsTwig, this`facesTwig
      decreases b
      ensures vertsTwig == old(vertsTwig) + TwigVerts(properties, numerics, b, parent)
      ensures normalsTwig == old(normalsTwig) + TwigNormals(properties, numerics, b, parent)
      ensures uvsTwig == old(uvsTwig) + TwigUVs(b)
      ensures facesTwig == old(facesTwig) + TwigFaces(b, old(|vertsTwig|))
    {
      if b.child0.None? {
        PushTwig(b, parent.value);
      } else {
        ghost var mid := |vertsTwig| + 8 * Leaves(b.child0.value);
        CreateTwigs(b.child0.value, Some(b));
        assert |vertsTwig| == mid;
        CreateTwigs(b.child1.value, Some(b));
      }
    }

    /**
     * The leaf case of `createTwigs`: the four corners pushed twice (as
     * `vert1..vert4`, then `vert8, vert7, vert6, vert5`), the front and back
     * triangles, a front and a back normal read back from the pushed
     * vertices, and the texture coordinates.
     */
    method PushTwig(b: Branch, parent: Branch)
      requires IsFork(parent) && !IsFork(b)
      modifies this`vertsTwig, this`normalsTwig, this`uvsTwig, this`facesTwig
      ensures vertsTwig == old(vertsTwig) + TwigQuad(properties, numerics, b, parent)
      ensures normalsTwig == old(normalsTwig) + TwigNormalsAt(numerics, TwigQuad(properties, numerics, b, parent))
      ensures uvsTwig == old(uvsTwig) + TwigUVsAt()
      ensures facesTwig == old(facesTwig) + TwigFacesAt(old(|vertsTwig|))
    {
      var tangent := numerics.normalize(Cross(Sub(parent.child0.value.head, parent.head),
                                              Sub(parent.child1.value.head, parent.head)));
      var binormal := numerics.normalize(Sub(b.head, parent.head));
      var ts := properties.twigScale;
      var top := ts * 2.0 - b.length;
      var p1 := Add(Add(b.head, Scale(tangent, ts)), Scale(binormal, top));
      var p2 := Add(Add(b.head, Scale(tangent, -ts)), Scale(binormal, top));
      var p3 := Add(Add(b.head, Scale(tangent, -ts)), Scale(binormal, -b.length));
      var p4 := Add(Add(b.head, Scale(tangent, ts)), Scale(binormal, -b.length));
      assert [p1, p2, p3, p4] == TwigCorners(properties, numerics, b, parent);
      var vert1 := |vertsTwig|;
      var vert2, vert3, vert4 := vert1 + 1, vert1 + 2, vert1 + 3;
      var vert8, vert7, vert6, vert5 := vert1 + 4, vert1 + 5, vert1 + 6, vert1 + 7;
      vertsTwig := vertsTwig + [p1, p2, p3, p4] + [p1, p2, p3, p4];
      facesTwig := facesTwig + [Face(vert1, vert2, vert3), Face(vert4, vert1, vert3)];
      facesTwig := facesTwig + [Face(vert6, vert7, vert8), Face(vert6, vert8, vert5)];
      var normal := TriangleNormal(numerics, vertsTwig[vert1], vertsTwig[vert2], vertsTwig[vert3]);
      var normal2 := TriangleNormal(numerics, vertsTwig[vert7], vertsTwig[vert8], vertsTwig[vert6]);
      normalsTwig := normalsTwig + [normal, normal, normal, normal] + [normal2, normal2, normal2, normal2];
      var quad := [Vec2(0.0, 1.0), Vec2(1.0, 1.0), Vec2(1.0, 0.0), Vec2(0.0, 0.0)];
      uvsTwig := uvsTwig + quad + quad;
    }

    /**
     * `doFaces`: at the root, reset every vertex's texture coordinate and
     * cap the base ring; then stitch a fork whose children are forks to
     * them and recurse, or close a fork whose children are leaves.
     */
    method DoFaces(b: Branch, parent: Option<Branch>)
      requires EvenSegments(properties.segments) && IsFork(b) && Addressed(properties.segments, b, |verts|)
      requires parent.None? ==> |b.root| == properties.segments && Within(b.root, 0, |verts|) && properties.segments <= |verts|
      requires parent.Some? ==> |verts| <= |uv|
      modifies this`faces, this`uv
      decreases b
      ensures faces == old(faces) + TreeFaces(properties, numerics, verts, b, parent)
      ensures uv == TreeUV(properties, numerics, verts, old(uv), b, parent)
    {
      var n := properties.segments;
      var c0, c1 := b.child0.value, b.child1.value;
      AddressedFork(n, b, |verts|);
      ghost var rootPart: seq<Face> := [];
      if parent.None? {
        ResetUV();
        CapRoot(b);
        rootPart := RootCap(b.ring0.value, b.root, RootOffset(numerics, b, n), n, n);
      }
      assert faces == old(faces) + rootPart;
      assert uv == StartUV(properties, numerics, verts, old(uv), b, parent);
      if c0.ring0.Some? {
        AddressedFork(n, c0, |verts|);
        AddressedFork(n, c1, |verts|);
        var so0, so1 := AlignChildren(b);
        StitchChildren(b, so0, so1);
        ghost var st := Stitch(b.ring1.value, b.ring2.value, c0.ring0.value, c1.ring0.value, so0, so1, n, n);
        ghost var stitched := uv;
        DoFaces(c0, Some(b));
        ghost var t0 := TreeFaces(properties, numerics, verts, c0, Some(b));
        ghost var mid := uv;
        DoFaces(c1, Some(b));
        ghost var t1 := TreeFaces(properties, numerics, verts, c1, Some(b));
        TreeFacesFork(old(faces), properties, numerics, verts, b, parent, rootPart, so0, so1, st, t0, t1);
        TreeUVFork(properties, numerics, verts, old(uv), b, parent, so0, so1, stitched, mid, uv);
      } else {
        assert c0.end in Indices(c0) && c1.end in Indices(c1);
        CapLeaves(b);
        TreeFacesLeaves(old(faces), properties, numerics, verts, b, parent, rootPart);
        TreeUVLeaves(properties, numerics, verts, old(uv), b, parent);
      }
    }

    /**
     * `calcNormals`: the normal of every face is appended to the list of
     * each of its corners; then every vertex's normal is the mean of its
     * list, summed as `total += n * (1 / l)`.
     */
    method CalcNormals()
      requires FacesWithin(faces, 0, |verts|)
      modifies this`normals
      ensures normals == Overlay(NormalsOf(numerics, verts, faces), old(normals))
    {
      var vs, fs, ns := verts, faces, normals;
      ghost var ns0 := ns;
      var allNormals: seq<seq<Vec3>> := [];
      var i := 0;
      while i < |vs|
        invariant 0 <= i <= |vs| && |allNormals| == i
        invariant forall v | 0 <= v < i :: allNormals[v] == []
      {
        allNormals := allNormals + [[]];
        i := i + 1;
      }
      i := 0;
      while i < |fs|
        invariant 0 <= i <= |fs| && |allNormals| == |vs|
        invariant FacesWithin(fs[..i], 0, |vs|)
        invariant forall v | 0 <= v < |vs| :: allNormals[v] == Incident(numerics, vs, fs[..i], v)
      {
        allNormals := PushFaceNormal(numerics, vs, fs, allNormals, i);
        i := i + 1;
      }
      assert fs[..|fs|] == fs;
      assert forall v | 0 <= v < |vs| :: allNormals[v] == Incident(numerics, vs, fs, v);
      ghost var want := NormalsOf(numerics, vs, fs);
      i := 0;
      while i < |allNormals|
        invariant 0 <= i <= |vs|
        invariant |ns| == if |ns0| > i then |ns0| else i
        invariant forall v | 0 <= v < i :: ns[v] == want[v]
        invariant forall v | i <= v < |ns0| :: ns[v] == ns0[v]
      {
        var total := MeanOf(allNormals[i]);
        assert total == want[i];
        if i < |ns| {
          ns := ns[i := total];
        } else {
          ns := ns + [total];
        }
        i := i + 1;
      }
      assert ns == Overlay(want, ns0);
      normals := ns;
    }

    /** The first loop of `doFaces` at the root: every vertex's texture coordinate becomes `(0, 0)`. */
    method ResetUV()
      modifies this`uv
      ensures uv == Overlay(Zeros(|verts|), old(uv))
    {
      var i := 0;
      while i < |verts|
        invariant 0 <= i <= |verts|
        invariant uv == Overlay(Zeros(i), old(uv))
      {
        if i < |uv| {
          uv := uv[i := Zero2];
        } else {
          uv := uv + [Zero2];
        }
        i := i + 1;
      }
    }

    /**
     * The base cap: quads between the root's `ring0` and the base ring
     * turned by the root offset, and the texture coordinates of both rings.
     */
    method CapRoot(b: Branch)
      requires EvenSegments(properties.segments) && IsFork(b) && Ringed(properties.segments, b, |verts|)
      requires |b.root| == properties.segments && Within(b.root, 0, |verts|) && properties.segments <= |uv| && |verts| <= |uv|
      modifies this`faces, this`uv
      ensures var n := properties.segments;
        faces == old(faces) + RootCap(b.ring0.value, b.root, RootOffset(numerics, b, n), n, n)
      ensures var n := properties.segments;
        uv == RootUV(properties, numerics, verts, old(uv), b.ring0.value, b.ring2.value, b.root, RootOffset(numerics, b, n), n)
    {
      var n := properties.segments;
      var segOffset := numerics.rootSegOffset(b.head, b.child0.value.head, b.child1.value.head, n);
      var vs, fs, us := verts, faces, uv;
      ghost var fs0, uv0 := fs, us;
      var i := 0;
      while i < n
        invariant 0 <= i <= n
        invariant fs == fs0 + RootCap(b.ring0.value, b.root, segOffset, n, i)
        invariant us == RootUV(properties, numerics, vs, uv0, b.ring0.value, b.ring2.value, b.root, segOffset, i)
      {
        fs, us := RootRound(b, vs, fs0, uv0, fs, us, segOffset, i);
        i := i + 1;
      }
      faces, uv := fs, us;
    }

    /**
     * Round `i` of the base-cap loop, on the buffers `fs` and `us` after
     * the first `i` rounds from `fs0` and `uv0`: the quad between
     * `ring0[i]` and base position `i + segOffset`, then `u` for the base
     * vertex and `(u, len)` for `ring0[i]` and `ring2[i]`.
     */
    method RootRound(b: Branch, vs: seq<Vec3>, ghost fs0: seq<Face>, ghost uv0: seq<Vec2>,
                     fs: seq<Face>, us: seq<Vec2>, segOffset: nat, i: nat) returns (fs': seq<Face>, us': seq<Vec2>)
      requires EvenSegments(properties.segments) && IsFork(b) && Ringed(properties.segments, b, |vs|)
      requires |b.root| == properties.segments && Within(b.root, 0, |vs|) && properties.segments <= |uv0| && |vs| <= |uv0|
      requires i < properties.segments
      requires fs == fs0 + RootCap(b.ring0.value, b.root, segOffset, properties.segments, i)
      requires us == RootUV(properties, numerics, vs, uv0, b.ring0.value, b.ring2.value, b.root, segOffset, i)
      ensures fs' == fs0 + RootCap(b.ring0.value, b.root, segOffset, properties.segments, i + 1)
      ensures us' == RootUV(properties, numerics, vs, uv0, b.ring0.value, b.ring2.value, b.root, segOffset, i + 1)
    {
      var n := properties.segments;
      var r0, r2 := b.ring0.value, b.ring2.value;
      var v1, v2, v3, v4 := r0[i], b.root[RingIndex(i + segOffset + 1, n)], b.root[RingIndex(i + segOffset, n)], r0[RingIndex(i + 1, n)];
      fs' := fs + [Face(v1, v4, v3), Face(v4, v2, v3)];
      var u := Around(numerics, i, n);
      us' := us[RingIndex(i + segOffset, n) := Vec2(u, 0.0)];
      var len := EdgeV(properties, numerics, vs[r0[i]], vs[b.root[RingIndex(i + segOffset, n)]]);
      us' := us'[r0[i] := Vec2(u, len)];
      us' := us'[r2[i] := Vec2(u, len)];
      RootCapStep(fs0, r0, b.root, segOffset, n, i, i + 1);
      RootUVStep(properties, numerics, vs, uv0, r0, r2, b.root, segOffset, i, i + 1);
    }

    /**
     * The alignment search: for each child fork, `segments - i` for the
     * first position `i` of its `ring0` that best lines up with the
     * parent's `ring1[0]` (child0) or `ring2[0]` (child1).
     */
    method AlignChildren(b: Branch) returns (segOffset0: nat, segOffset1: nat)
      requires EvenSegments(properties.segments) && IsFork(b) && Ringed(properties.segments, b, |verts|)
      requires Ringed(properties.segments, b.child0.value, |verts|) && Ringed(properties.segments, b.child1.value, |verts|)
      ensures var n := properties.segments;
        segOffset0 == SegOffset(Scores(numerics, verts, b.head, b.ring1.value[0], b.child0.value, n)) &&
        segOffset1 == SegOffset(Scores(numerics, verts, b.head, b.ring2.value[0], b.child1.value, n))
    {
      var n := properties.segments;
      var c0, c1 := b.child0.value, b.child1.value;
      var v1 := ScaleInDirection(numerics.normalize(Sub(verts[b.ring1.value[0]], b.head)),
                                 numerics.normalize(Sub(c0.head, b.head)), 0.0);
      var v2 := ScaleInDirection(numerics.normalize(Sub(verts[b.ring2.value[0]], b.head)),
                                 numerics.normalize(Sub(c1.head, b.head)), 0.0);
      ghost var sc0 := Scores(numerics, verts, b.head, b.ring1.value[0], c0, n);
      ghost var sc1 := Scores(numerics, verts, b.head, b.ring2.value[0], c1, n);
      var match0, match1 := 0.0, 0.0;
      segOffset0, segOffset1 := 0, 0;
      var i := 0;
      while i < n
        invariant 0 <= i <= n
        invariant 0 < i ==> segOffset0 == n - FirstMax(sc0[..i]) && match0 == sc0[FirstMax(sc0[..i])]
        invariant 0 < i ==> segOffset1 == n - FirstMax(sc1[..i]) && match1 == sc1[FirstMax(sc1[..i])]
      {
        var d := numerics.normalize(Sub(verts[c0.ring0.value[i]], c0.head));
        var l := Dot(d, v1);
        match0, segOffset0 := KeepBest(sc0, n, i, l, match0, segOffset0);
        d := numerics.normalize(Sub(verts[c1.ring0.value[i]], c1.head));
        l := Dot(d, v2);
        match1, segOffset1 := KeepBest(sc1, n, i, l, match1, segOffset1);
        i := i + 1;
      }
      assert sc0[..n] == sc0 && sc1[..n] == sc1;
    }

    /**
     * The stitch between a fork and its two child forks, and the texture
     * coordinates it carries from the parent's rings to the children's.
     */
    method StitchChildren(b: Branch, so0: nat, so1: nat)
      requires EvenSegments(properties.segments) && IsFork(b) && Ringed(properties.segments, b, |verts|)
      requires Ringed(properties.segments, b.child0.value, |verts|) && Ringed(properties.segments, b.child1.value, |verts|)
      requires 1 <= so0 && 1 <= so1 && |verts| <= |uv|
      modifies this`faces, this`uv
      ensures var n, c0, c1 := properties.segments, b.child0.value, b.child1.value;
        faces == old(faces) + Stitch(b.ring1.value, b.ring2.value, c0.ring0.value, c1.ring0.value, so0, so1, n, n)
      ensures var n, c0, c1 := properties.segments, b.child0.value, b.child1.value;
        uv == StitchUV(properties, numerics, verts, old(uv), b.ring1.value, b.ring2.value,
          c0.ring0.value, c0.ring2.value, c1.ring0.value, c1.ring2.value, so0, so1,
          numerics.divide(properties.maxRadius, b.radius), n)
    {
      var n := properties.segments;
      var c0, c1 := b.child0.value, b.child1.value;
      var uvScale := numerics.divide(properties.maxRadius, b.radius);
      var vs, fs, us := verts, faces, uv;
      ghost var fs0, uv0 := fs, us;
      var i := 0;
      while i < n
        invariant 0 <= i <= n
        invariant fs == fs0 + Stitch(b.ring1.value, b.ring2.value, c0.ring0.value, c1.ring0.value, so0, so1, n, i)
        invariant us == StitchUV(properties, numerics, vs, uv0, b.ring1.value, b.ring2.value,
          c0.ring0.value, c0.ring2.value, c1.ring0.value, c1.ring2.value, so0, so1, uvScale, i)
      {
        fs, us := StitchRound(b, vs, fs0, uv0, fs, us, so0, so1, uvScale, i);
        i := i + 1;
      }
      faces, uv := fs, us;
    }

    /**
     * Round `i` of the stitch loop, on the buffers after the first `i`
     * rounds from `fs0` and `uv0`: the quad towards child0 and the quad
     * towards child1, then the texture coordinates of child0's
     * `ring0[i]` and `ring2[i]`, carried from the parent's `ring1`, and
     * child1's, carried from its `ring2`.
     */
    method StitchRound(b: Branch, vs: seq<Vec3>, ghost fs0: seq<Face>, ghost uv0: seq<Vec2>, fs: seq<Face>, us: seq<Vec2>,
                       so0: nat, so1: nat, uvScale: real, i: nat) returns (fs': seq<Face>, us': seq<Vec2>)
      requires EvenSegments(properties.segments) && IsFork(b) && Ringed(properties.segments, b, |vs|)
      requires Ringed(properties.segments, b.child0.value, |vs|) && Ringed(properties.segments, b.child1.value, |vs|)
      requires 1 <= so0 && 1 <= so1 && |vs| <= |uv0| && i < properties.segments
      requires var n, c0, c1 := properties.segments, b.child0.value, b.child1.value;
        fs == fs0 + Stitch(b.ring1.value, b.ring2.value, c0.ring0.value, c1.ring0.value, so0, so1, n, i)
      requires var c0, c1 := b.child0.value, b.child1.value;
        us == StitchUV(properties, numerics, vs, uv0, b.ring1.value, b.ring2.value,
          c0.ring0.value, c0.ring2.value, c1.ring0.value, c1.ring2.value, so0, so1, uvScale, i)
      ensures var n, c0, c1 := properties.segments, b.child0.value, b.child1.value;
        fs' == fs0 + Stitch(b.ring1.value, b.ring2.value, c0.ring0.value, c1.ring0.value, so0, so1, n, i + 1)
      ensures var c0, c1 := b.child0.value, b.child1.value;
        us' == StitchUV(properties, numerics, vs, uv0, b.ring1.value, b.ring2.value,
          c0.ring0.value, c0.ring2.value, c1.ring0.value, c1.ring2.value, so0, so1, uvScale, i + 1)
    {
      var n := properties.segments;
      var r1, r2 := b.ring1.value, b.ring2.value;
      var a0, a2, b0, b2 := b.child0.value.ring0.value, b.child0.value.ring2.value, b.child1.value.ring0.value, b.child1.value.ring2.value;
      var v1, v2, v3, v4 := a0[i], r1[RingIndex(i + so0 + 1, n)], r1[RingIndex(i + so0, n)], a0[RingIndex(i + 1, n)];
      fs' := fs + [Face(v1, v4, v3), Face(v4, v2, v3)];
      v1, v2, v3, v4 := b0[i], r2[RingIndex(i + so1 + 1, n)], r2[RingIndex(i + so1, n)], b0[RingIndex(i + 1, n)];
      fs' := fs' + [Face(v1, v2, v3), Face(v1, v4, v2)];
      var uv1 := Climb(properties, numerics, us[r1[RingIndex(i + so0 - 1, n)]], vs[a0[i]], vs[r1[RingIndex(i + so0, n)]], uvScale);
      us' := us[a0[i] := uv1];
      us' := us'[a2[i] := uv1];
      var uv2 := Climb(properties, numerics, us'[r2[RingIndex(i + so1 - 1, n)]], vs[b0[i]], vs[r2[RingIndex(i + so1, n)]], uvScale);
      us' := us'[b0[i] := uv2];
      us' := us'[b2[i] := uv2];
      StitchStep(fs0, r1, r2, a0, b0, so0, so1, n, i, i + 1);
      StitchUVStep(properties, numerics, vs, uv0, r1, r2, a0, a2, b0, b2, so0, so1, uvScale, i, i + 1);
    }

    /**
     * A fork whose children are leaves: fans from each leaf tip to the
     * ring facing it, and the tips' texture coordinates.
     */
    method CapLeaves(b: Branch)
      requires EvenSegments(properties.segments) && IsFork(b) && Ringed(properties.segments, b, |verts|)
      requires b.child0.value.end < |verts| && b.child1.value.end < |verts| && |verts| <= |uv|
      modifies this`faces, this`uv
      ensures var n, e0, e1 := properties.segments, b.child0.value.end, b.child1.value.end;
        faces == old(faces) + LeafCap(b.ring1.value, b.ring2.value, e0, e1, n, n)
      ensures var n, e0, e1 := properties.segments, b.child0.value.end, b.child1.value.end;
        uv == TipUV(properties, numerics, verts, old(uv), b.ring1.value, b.ring2.value, e0, e1, n)
    {
      var n := properties.segments;
      var e0, e1 := b.child0.value.end, b.child1.value.end;
      var vs, fs, us := verts, faces, uv;
      ghost var fs0, uv0 := fs, us;
      var i := 0;
      while i < n
        invariant 0 <= i <= n
        invariant fs == fs0 + LeafCap(b.ring1.value, b.ring2.value, e0, e1, n, i)
        invariant us == TipUV(properties, numerics, vs, uv0, b.ring1.value, b.ring2.value, e0, e1, i)
      {
        fs, us := LeafRound(b, vs, fs0, uv0, fs, us, i);
        i := i + 1;
      }
      faces, uv := fs, us;
    }

    /**
     * Round `i` of the leaf-cap loop, on the buffers after the first `i`
     * rounds from `fs0` and `uv0`: the fan triangle from each tip, then
     * the tips' texture coordinates.
     */
    method LeafRound(b: Branch, vs: seq<Vec3>, ghost fs0: seq<Face>, ghost uv0: seq<Vec2>,
                     fs: seq<Face>, us: seq<Vec2>, i: nat) returns (fs': seq<Face>, us': seq<Vec2>)
      requires EvenSegments(properties.segments) && IsFork(b) && Ringed(properties.segments, b, |vs|)
      requires b.child0.value.end < |vs| && b.child1.value.end < |vs| && |vs| <= |uv0| && i < properties.segments
      requires var n, e0, e1 := properties.segments, b.child0.value.end, b.child1.value.end;
        fs == fs0 + LeafCap(b.ring1.value, b.ring2.value, e0, e1, n, i)
      requires var e0, e1 := b.child0.value.end, b.child1.value.end;
        us == TipUV(properties, numerics, vs, uv0, b.ring1.value, b.ring2.value, e0, e1, i)
      ensures var n, e0, e1 := properties.segments, b.child0.value.end, b.child1.value.end;
        fs' == fs0 + LeafCap(b.ring1.value, b.ring2.value, e0, e1, n, i + 1)
      ensures var e0, e1 := b.child0.value.end, b.child1.value.end;
        us' == TipUV(properties, numerics, vs, uv0, b.ring1.value, b.ring2.value, e0, e1, i + 1)
    {
      var n := properties.segments;
      var e0, e1 := b.child0.value.end, b.child1.value.end;
      var r1, r2 := b.ring1.value, b.ring2.value;
      fs' := fs + [Face(e0, r1[RingIndex(i + 1, n)], r1[i]), Face(e1, r2[RingIndex(i + 1, n)], r2[i])];
      us' := us[e0 := Vec2(Beyond(numerics, i, n), EdgeV(properties, numerics, vs[e0], vs[r1[i]]))];
      us' := us'[e1 := Vec2(Around(numerics, i, n), EdgeV(properties, numerics, vs[e1], vs[r2[i]]))];
      LeafCapStep(fs0, r1, r2, e0, e1, n, i, i + 1);
      TipUVStep(properties, numerics, vs, uv0, r1, r2, e0, e1, i, i + 1);
    }
  }

  /**
   * One round of the alignment scan over `scores`: the score `l` at
   * position `i` becomes the match when it is the first or strictly beats
   * the current one, so the match stays on the first greatest score.
   */
  method KeepBest(ghost scores: seq<real>, n: nat, i: nat, l: real, best: real, segOffset: nat)
    returns (best': real, segOffset': nat)
    requires i < |scores| == n && l == scores[i]
    requires 0 < i ==> segOffset == |scores| - FirstMax(scores[..i]) && best == scores[FirstMax(scores[..i])]
    ensures segOffset' == |scores| - FirstMax(scores[..i + 1]) && best' == scores[FirstMax(scores[..i + 1])]
  {
    if i > 0 {
      FirstMaxSnoc(scores, i);
    }
    best', segOffset' := best, segOffset;
    if i == 0 || l > best {
      best', segOffset' := l, n - i;
    }
  }

  /** Appending `nf` to the lists of `f`'s three corners in turn appends `CornerEntries` to every list. */
  lemma AppendToCorners(all: seq<seq<Vec3>>, f: Face, nf: Vec3, v: nat)
    requires f.a < |all| && f.b < |all| && f.c < |all| && v < |all|
    ensures var a1 := all[f.a := all[f.a] + [nf]];
      var a2 := a1[f.b := a1[f.b] + [nf]];
      a2[f.c := a2[f.c] + [nf]][v] == all[v] + CornerEntries(f, v, nf)
  {
  }

  /**
   * One face of `calcNormals`'s second loop: the normal of face `i`
   * appended to the lists of its three corners in turn.
   */
  method PushFaceNormal(g: Numerics, verts: seq<Vec3>, faces: seq<Face>, all: seq<seq<Vec3>>, i: nat)
    returns (all': seq<seq<Vec3>>)
    requires FacesWithin(faces, 0, |verts|) && i < |faces| && |all| == |verts|
    requires forall v | 0 <= v < |verts| :: FacesWithin(faces[..i], 0, |verts|) && all[v] == Incident(g, verts, faces[..i], v)
    ensures |all'| == |verts| && FacesWithin(faces[..i + 1], 0, |verts|)
    ensures forall v | 0 <= v < |verts| :: all'[v] == Incident(g, verts, faces[..i + 1], v)
  {
    var face := faces[i];
    var norm := FaceNormal(g, verts, face);
    all' := all[face.a := all[face.a] + [norm]];
    all' := all'[face.b := all'[face.b] + [norm]];
    all' := all'[face.c := all'[face.c] + [norm]];
    forall v | 0 <= v < |verts|
      ensures all'[v] == Incident(g, verts, faces[..i + 1], v)
    {
      IncidentStep(g, verts, faces, i, i + 1, v);
      AppendToCorners(all, face, norm, v);
    }
    IncidentStep(g, verts, faces, i, i + 1, 0);
  }

  /**
   * The third loop of `calcNormals` for one vertex: `total` starts at the
   * origin and adds every normal of the list scaled by `1 / l`, giving the
   * mean (the origin for an empty list).
   */
  method MeanOf(ns: seq<Vec3>) returns (total: Vec3)
    ensures total == Mean(ns)
  {
    total := Zero3;
    var l := |ns|;
    ghost var w := if l > 0 then 1.0 / l as real else 0.0;
    var j := 0;
    while j < l
      invariant 0 <= j <= l
      invariant total == Accumulated(ns, w, j)
    {
      total := Add(total, Scale(ns[j], 1.0 / l as real));
      j := j + 1;
    }
    AccumulatedIsMean(ns);
  }

}
