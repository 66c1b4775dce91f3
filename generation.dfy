/**
 * One whole generation, as the `Tree` constructor runs it
 * (src/proctree/index.ts:69-115): the skeleton grown from the root, skinned
 * from an empty vertex buffer, then the twigs, faces, texture coordinates
 * and normals. These functions are what the constructor's buffers hold
 * afterwards; the lemmas give their sizes and index ranges.
 */
module Generation {
  import opened Wrappers
  import opened Vectors
  import opened Config
  import opened Skeleton
  import opened Rings
  import opened Forks
  import opened Mesh
  import opened Twigs
  import opened Faces
  import opened Uvs
  import opened Normals

  /** What `doFaces` needs of the root it starts from. */
  predicate RootReady(p: Params, vs: seq<Vec3>, b: Branch) {
    EvenSegments(p.segments) && IsFork(b) && Addressed(p.segments, b, |vs|) &&
    |b.root| == p.segments && Within(b.root, 0, |vs|) && p.segments <= |vs|
  }

  /** The root after `split` and `createForks`. */
  function Skinned(p: Params, g: Numerics): Branch
    requires EvenSegments(p.segments)
  {
    Skin(p, g, Grow(p, g), None, p.maxRadius, 0)
  }

  /** `verts` after `createForks`. */
  function WoodVerts(p: Params, g: Numerics): seq<Vec3>
    requires EvenSegments(p.segments)
  {
    SkinVerts(p, g, Grow(p, g), None, p.maxRadius)
  }

  /**
   * The skinned root is a fork whose base ring is `[0, n)`, whose rings
   * and tips all index existing vertices, with the head of every leaf at
   * its `end`, and with as many leaves as the grown skeleton.
   */
  lemma SkinnedShape(p: Params, g: Numerics)
    requires EvenSegments(p.segments)
    ensures var b, vs := Skinned(p, g), WoodVerts(p, g);
      RootReady(p, vs, b) && b.root == Range(0, p.segments) &&
      Leaves(b) == LeafTotal(p.levels, p.treeSteps) && TipsAt(vs, b)
  {
    var n, r := p.segments, Grow(p, g);
    var vs := WoodVerts(p, g);
    GrowLeaves(p, g);
    assert [] + vs <= vs;
    SkinTips(p, g, [], vs, r, None, p.maxRadius);
    assert |vs| == SkinCount(n, r, true) >= n;
  }

  /** `createTwigs` can start from the skinned root. */
  lemma SkinnedSite(p: Params, g: Numerics)
    requires EvenSegments(p.segments)
    ensures TwigSite(Skinned(p, g), None) && Shaped(p.segments, Skinned(p, g))
  {
    SkinnedShape(p, g);
  }

  /** `faces` after `doFaces`. */
  function WoodFaces(p: Params, g: Numerics): seq<Face>
    requires EvenSegments(p.segments)
  {
    var vs, b := WoodVerts(p, g), Skinned(p, g);
    if RootReady(p, vs, b) then TreeFaces(p, g, vs, b, None) else []
  }

  /** `UV` after `doFaces`, which starts from an empty buffer. */
  function WoodUVs(p: Params, g: Numerics): seq<Vec2>
    requires EvenSegments(p.segments)
  {
    var vs, b := WoodVerts(p, g), Skinned(p, g);
    if RootReady(p, vs, b) then TreeUV(p, g, vs, [], b, None) else []
  }

  /** Every wood face indexes an existing vertex. */
  lemma WoodFacesWithin(p: Params, g: Numerics)
    requires EvenSegments(p.segments)
    ensures FacesWithin(WoodFaces(p, g), 0, |WoodVerts(p, g)|)
  {
    SkinnedShape(p, g);
    TreeFacesWithin(p, g, WoodVerts(p, g), Skinned(p, g), None);
  }

  /** `normals` after `calcNormals`, which starts from an empty buffer. */
  function WoodNormals(p: Params, g: Numerics): seq<Vec3>
    requires EvenSegments(p.segments)
  {
    var vs, fs := WoodVerts(p, g), WoodFaces(p, g);
    if FacesWithin(fs, 0, |vs|) then NormalsOf(g, vs, fs) else []
  }

  /**
   * For `L = LeafTotal(levels, treeSteps)` leaves the wood mesh has
   * `n + (3 n / 2 - 1)(L - 1) + L` vertices.
   */
  lemma WoodVertexCount(p: Params, g: Numerics)
    requires EvenSegments(p.segments)
    ensures var n, L := p.segments, LeafTotal(p.levels, p.treeSteps);
      |WoodVerts(p, g)| == n + ForkSize(n) * (L - 1) + L
  {
    var n, r := p.segments, Grow(p, g);
    GrowLeaves(p, g);
    LeavesAreForksPlusOne(r);
    SkinCountFormula(n, r, true);
    var L := Leaves(r);
    assert ForkSize(n) * Skeleton.Forks(r) == ForkSize(n) * (L - 1);
  }

  /** Every wood vertex has one normal and one texture coordinate. */
  lemma WoodBufferSizes(p: Params, g: Numerics)
    requires EvenSegments(p.segments)
    ensures |WoodUVs(p, g)| == |WoodVerts(p, g)| && |WoodNormals(p, g)| == |WoodVerts(p, g)|
  {
    SkinnedShape(p, g);
    WoodFacesWithin(p, g);
  }

  /**
   * The twig mesh has eight vertices, normals and texture coordinates and
   * four faces per leaf, every face indexing a twig vertex.
   */
  lemma TwigCounts(p: Params, g: Numerics)
    requires EvenSegments(p.segments)
    ensures var L, b := LeafTotal(p.levels, p.treeSteps), Skinned(p, g);
      TwigSite(b, None) &&
      |TwigVerts(p, g, b, None)| == 8 * L && |TwigNormals(p, g, b, None)| == 8 * L &&
      |TwigUVs(b)| == 8 * L && |TwigFaces(b, 0)| == 4 * L &&
      FacesWithin(TwigFaces(b, 0), 0, 8 * L)
  {
    SkinnedShape(p, g);
    TwigFacesWithin(Skinned(p, g), 0);
  }
  /**
   * What the four passes of the constructor need of each other's results:
   * the skinned root is ready for `doFaces` and `createTwigs`, and the wood
   * faces, texture coordinates and normals are those of the skinned tree.
   */
  lemma WoodReady(p: Params, g: Numerics, vs: seq<Vec3>, b: Branch)
    requires EvenSegments(p.segments) && vs == WoodVerts(p, g) && b == Skinned(p, g)
    ensures RootReady(p, vs, b) && TwigSite(b, None) && Shaped(p.segments, b)
    ensures WoodFaces(p, g) == TreeFaces(p, g, vs, b, None) && WoodUVs(p, g) == TreeUV(p, g, vs, [], b, None)
    ensures FacesWithin(WoodFaces(p, g), 0, |vs|) && WoodNormals(p, g) == NormalsOf(g, vs, WoodFaces(p, g))
  {
    SkinnedShape(p, g);
    WoodFacesWithin(p, g);
  }

}
