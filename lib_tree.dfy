/**
 * src/lib/tree.ts: the generated tree handed to the renderer. `createBranch`
 * copies the skeleton into plain records whose leaves are typed `'twig'`,
 * and `createTree` packs the buffers of one generation into typed arrays.
 * A copy cannot hold a reference to its parent as a value, so the `parent`
 * field of a copy holds the address of the parent's copy: the path of
 * `child0`/`child1` steps from the top copy.
 */
module LibTree {
  import opened Wrappers
  import opened Vectors
  import opened Config
  import opened Skeleton
  import opened Mesh
  import opened Forks
  import opened Twigs
  import opened Generation
  import opened Flattening
  import opened LibArray
  import ProcTree

  /** The `type` of a copied branch. */
  datatype NodeType = TrunkNode | BranchNode | TwigNode

  /** One `child0`/`child1` step. */
  datatype Side = Child0 | Child1

  /** Where a copy sits below the top copy. */
  type Path = seq<Side>

  /** A copied branch, as the renderer receives it. */
  datatype Node = Node(
    head: Vec3,
    root: seq<nat>,
    ring0: Option<seq<nat>>,
    ring1: Option<seq<nat>>,
    ring2: Option<seq<nat>>,
    parent: Option<Path>,
    child0: Option<Node>,
    child1: Option<Node>,
    kind: NodeType,
    tangent: Option<Vec3>,
    length: real,
    radius: real,
    end: nat)

  /** The address of the copy that `at` hangs from: none for the top copy. */
  function ParentOf(at: Path): Option<Path> {
    if at == [] then None else Some(at[..|at| - 1])
  }

  /**
   * `createBranch(b, parent)` for the copy placed at `at`. The fields of
   * `b` are carried over; a branch without children becomes a twig,
   * otherwise a trunk stays a trunk and anything else is a branch.
   */
  function CreateBranch(b: Branch, at: Path): (n: Node)
    decreases b
    ensures n.head == b.head && n.root == b.root && n.ring0 == b.ring0 && n.ring1 == b.ring1 && n.ring2 == b.ring2
    ensures n.length == b.length && n.radius == b.radius && n.end == b.end && n.tangent == Some(b.tangent)
    ensures n.parent.None? <==> at == []
    ensures n.child0.Some? <==> b.child0.Some?
    ensures n.child1.Some? <==> b.child1.Some?
    ensures n.kind == TwigNode <==> b.child0.None? && b.child1.None?
    ensures n.kind == TrunkNode <==> b.kind == Trunk && (b.child0.Some? || b.child1.Some?)
  {
    var kind := if b.child0.None? && b.child1.None? then TwigNode else if b.kind == Trunk then TrunkNode else BranchNode;
    Node(b.head, b.root, b.ring0, b.ring1, b.ring2, ParentOf(at),
      if b.child0.Some? then Some(CreateBranch(b.child0.value, at + [Child0])) else None,
      if b.child1.Some? then Some(CreateBranch(b.child1.value, at + [Child1])) else None,
      kind, Some(b.tangent), b.length, b.radius, b.end)
  }

  /** The branch at `path` below `b`, if there is one. */
  function BranchAt(b: Branch, path: Path): Option<Branch>
    decreases |path|
  {
    if path == [] then Some(b)
    else
      var c := if path[0] == Child0 then b.child0 else b.child1;
      if c.None? then None else BranchAt(c.value, path[1..])
  }

  /** The copy at `path` below `n`, if there is one. */
  function NodeAt(n: Node, path: Path): Option<Node>
    decreases |path|
  {
    if path == [] then Some(n)
    else
      var c := if path[0] == Child0 then n.child0 else n.child1;
      if c.None? then None else NodeAt(c.value, path[1..])
  }

  /**
   * The copy has the shape of the original, and at every address it holds
   * the copy of the branch found there, placed at that address.
   */
  lemma {:induction false} CreateBranchAt(b: Branch, at: Path, path: Path)
    decreases |path|
    ensures NodeAt(CreateBranch(b, at), path).Some? <==> BranchAt(b, path).Some?
    ensures BranchAt(b, path).Some? ==>
      NodeAt(CreateBranch(b, at), path) == Some(CreateBranch(BranchAt(b, path).value, at + path))
  {
    if path != [] {
      var rest := path[1..];
      assert at + path == (at + [path[0]]) + rest;
      if path[0] == Child0 && b.child0.Some? {
        CreateBranchAt(b.child0.value, at + [Child0], rest);
      } else if path[0] == Child1 && b.child1.Some? {
        CreateBranchAt(b.child1.value, at + [Child1], rest);
      }
    } else {
      assert at + path == at;
    }
  }

  /**
   * Every copied child's `parent` is the address of the copy it hangs
   * from, and that copy has it as its child on the same side.
   */
  lemma ParentLinks(b: Branch, path: Path, s: Side)
    requires BranchAt(b, path + [s]).Some?
    ensures var top := CreateBranch(b, []);
      var up, child := NodeAt(top, path), NodeAt(top, path + [s]);
      up.Some? && child.Some? && child.value.parent == Some(path) &&
      (if s == Child0 then up.value.child0 else up.value.child1) == child
  {
    var top := CreateBranch(b, []);
    ChildAt(b, path, s);
    CreateBranchAt(b, [], path);
    CreateBranchAt(b, [], path + [s]);
    assert [] + path == path && [] + (path + [s]) == path + [s];
    assert (path + [s])[..|path + [s]| - 1] == path;
    ChildNodeAt(top, path, s);
  }

  /** The branch at `path + [s]` is child `s` of the branch at `path`. */
  lemma {:induction false} ChildAt(b: Branch, path: Path, s: Side)
    decreases |path|
    ensures BranchAt(b, path + [s]) ==
      (if BranchAt(b, path).None? then None
       else if s == Child0 then BranchAt(b, path).value.child0 else BranchAt(b, path).value.child1)
  {
    if path != [] {
      assert (path + [s])[1..] == path[1..] + [s];
      var c := if path[0] == Child0 then b.child0 else b.child1;
      if c.Some? {
        ChildAt(c.value, path[1..], s);
      }
    }
  }

  /** The copy at `path + [s]` is child `s` of the copy at `path`. */
  lemma {:induction false} ChildNodeAt(n: Node, path: Path, s: Side)
    decreases |path|
    ensures NodeAt(n, path + [s]) ==
      (if NodeAt(n, path).None? then None
       else if s == Child0 then NodeAt(n, path).value.child0 else NodeAt(n, path).value.child1)
  {
    if path != [] {
      assert (path + [s])[1..] == path[1..] + [s];
      var c := if path[0] == Child0 then n.child0 else n.child1;
      if c.Some? {
        ChildNodeAt(c.value, path[1..], s);
      }
    }
  }

  /** How many copies are typed `'twig'`. */
  function TwigCount(n: Node): nat
    decreases n
  {
    (if n.kind == TwigNode then 1 else 0) +
    (if n.child0.Some? then TwigCount(n.child0.value) else 0) +
    (if n.child1.Some? then TwigCount(n.child1.value) else 0)
  }

  /** On a skinned skeleton, the twigs of the copy are exactly its leaves. */
  lemma {:induction false} TwigsAreLeaves(s: nat, b: Branch, at: Path)
    requires Shaped(s, b)
    decreases b
    ensures TwigCount(CreateBranch(b, at)) == Leaves(b)
  {
    if IsFork(b) {
      TwigsAreLeaves(s, b.child0.value, at + [Child0]);
      TwigsAreLeaves(s, b.child1.value, at + [Child1]);
    }
  }

  /** What `createTree` returns. */
  datatype TreeData = TreeData(
    properties: Params,
    root: Node,
    position: array<real>,
    normal: array<real>,
    uv: array<real>,
    id: array<uint32>,
    twigPosition: array<real>,
    twigNormal: array<real>,
    twigUv: array<real>,
    twigId: array<uint32>)

  /**
   * `createTree(opts)`: one generation, its skeleton copied from the top
   * and its buffers packed three components per vertex, normal and face
   * and two per texture coordinate.
   */
  method CreateTree(o: Options, g: Numerics, f32: real -> real) returns (t: TreeData)
    requires EvenSegments(Merge(o).segments)
    ensures var p := Merge(o);
      t.properties == p && t.root == CreateBranch(Skinned(p, g), []) &&
      t.position[..] == Flat(Components(Coords3(WoodVerts(p, g)), 3, f32), 3) &&
      t.normal[..] == Flat(Components(Coords3(WoodNormals(p, g)), 3, f32), 3) &&
      t.uv[..] == Flat(Components(Coords2(WoodUVs(p, g)), 2, f32), 2) &&
      t.id[..] == Flat(IndexRows(Triples(WoodFaces(p, g))), 3)
    ensures var p, b := Merge(o), Skinned(Merge(o), g);
      t.twigPosition[..] == Flat(Components(Coords3(TwigVerts(p, g, b, None)), 3, f32), 3) &&
      t.twigNormal[..] == Flat(Components(Coords3(TwigNormals(p, g, b, None)), 3, f32), 3) &&
      t.twigUv[..] == Flat(Components(Coords2(TwigUVs(b)), 2, f32), 2) &&
      t.twigId[..] == Flat(IndexRows(Triples(TwigFaces(b, 0))), 3)
  {
    var pt := new ProcTree.Tree(o, g);
    var position, normal, uv, id := Pack(pt.verts, pt.normals, pt.uv, pt.faces, f32);
    var twigPosition, twigNormal, twigUv, twigId := Pack(pt.vertsTwig, pt.normalsTwig, pt.uvsTwig, pt.facesTwig, f32);
    t := TreeData(pt.properties, CreateBranch(pt.root, []), position, normal, uv, id,
      twigPosition, twigNormal, twigUv, twigId);
  }

  /** One mesh's buffers as `createTree` packs them. */
  method Pack(verts: seq<Vec3>, normals: seq<Vec3>, uvs: seq<Vec2>, faces: seq<Face>, f32: real -> real)
    returns (position: array<real>, normal: array<real>, uv: array<real>, id: array<uint32>)
    ensures position[..] == Flat(Components(Coords3(verts), 3, f32), 3)
    ensures normal[..] == Flat(Components(Coords3(normals), 3, f32), 3)
    ensures uv[..] == Flat(Components(Coords2(uvs), 2, f32), 2)
    ensures id[..] == Flat(IndexRows(Triples(faces)), 3)
    ensures fresh(position) && fresh(normal) && fresh(uv) && fresh(id)
  {
    position := FlattenA3ToFloat32(Coords3(verts), f32);
    normal := FlattenA3ToFloat32(Coords3(normals), f32);
    uv := FlattenA2ToFloat32(Coords2(uvs), f32);
    id := FlattenA3ToUint32(Triples(faces));
  }

  /**
   * The wood arrays `createTree` returns: three floats per vertex and per
   * normal, two per texture coordinate and three indices per face.
   */
  lemma WoodArraySizes(p: Params, g: Numerics, f32: real -> real)
    requires EvenSegments(p.segments)
    ensures var n := |WoodVerts(p, g)|;
      |Flat(Components(Coords3(WoodVerts(p, g)), 3, f32), 3)| == 3 * n &&
      |Flat(Components(Coords3(WoodNormals(p, g)), 3, f32), 3)| == 3 * n &&
      |Flat(Components(Coords2(WoodUVs(p, g)), 2, f32), 2)| == 2 * n &&
      |Flat(IndexRows(Triples(WoodFaces(p, g))), 3)| == 3 * |WoodFaces(p, g)|
  {
    WoodBufferSizes(p, g);
  }

  /**
   * The twig arrays `createTree` returns: per leaf 24 floats of positions
   * and of normals, 16 of texture coordinates and 12 indices; the copied
   * skeleton has one twig per leaf.
   */
  lemma TwigArraySizes(p: Params, g: Numerics, f32: real -> real)
    requires EvenSegments(p.segments)
    ensures var b, L := Skinned(p, g), LeafTotal(p.levels, p.treeSteps);
      TwigSite(b, None) &&
      |Flat(Components(Coords3(TwigVerts(p, g, b, None)), 3, f32), 3)| == 24 * L &&
      |Flat(Components(Coords3(TwigNormals(p, g, b, None)), 3, f32), 3)| == 24 * L &&
      |Flat(Components(Coords2(TwigUVs(b)), 2, f32), 2)| == 16 * L &&
      |Flat(IndexRows(Triples(TwigFaces(b, 0))), 3)| == 12 * L &&
      TwigCount(CreateBranch(b, [])) == L
  {
    TwigCounts(p, g);
    SkinnedSite(p, g);
    TwigsAreLeaves(p.segments, Skinned(p, g), []);
  }
}
