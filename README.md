# proctree-three in Dafny

A model of the procedural tree generator of spacejack/proctree-three and of
the glue that hands its result to a renderer.

The generator builds a binary skeleton of branch segments from a small
parameter record. `Branch.split` grows it. The `Tree` class then fills its
buffers in four passes:

- `createForks` puts rings of vertices around every fork and one vertex at
  every branch tip;
- `createTwigs` adds a two-sided leaf quad at every tip;
- `doFaces` stitches the rings into triangles and assigns texture
  coordinates;
- `calcNormals` averages the face normals around every vertex.

`createBranch` copies the skeleton into plain records and types the leaves
as twigs. The flatteners pack the nested buffers into typed arrays.

What is kept exact: the skeleton's shape and typing, all index bookkeeping
(rings, vertex counts, faces, offsets, buffer lengths), the order of every
buffer, the copy and the flattened layouts. Every non-linear or rounded
floating-point quantity is a given function in `Config.Numerics`: vertex
positions, normalisation, lengths, rounding, the pseudo-random draw. Vector
sums, differences, scalings, cross products and dot products are exact on
reals, and so are the `1 / l` weights of `calcNormals` and their running
total.

Modules and files:

| file | module | models |
|---|---|---|
| `wrappers.dfy` | `Wrappers` | `Option` |
| `vectors.dfy` | `Vectors` | `V3`/`V2` arithmetic |
| `config.dfy` | `Config` | properties, options, defaults and the numeric oracles |
| `skeleton.dfy` | `Skeleton` | `Branch` and `Branch.split` |
| `rings.dfy` | `Rings` | the index layout of the base ring and the three fork rings |
| `forks.dfy` | `Forks` | what `createForks` computes |
| `twigs.dfy` | `Twigs` | what `createTwigs` computes |
| `mesh.dfy` | `Mesh` | faces and buffer overwrites |
| `faces.dfy` | `Faces` | the triangles of `doFaces` |
| `uvs.dfy` | `Uvs` | the texture coordinates of `doFaces` |
| `normals.dfy` | `Normals` | what `calcNormals` computes |
| `generation.dfy` | `Generation` | the buffers after one whole generation |
| `tree.dfy` | `ProcTree` | the `Tree` class |
| `flatten.dfy` | `Flattening` | the flat layout of the typed arrays |
| `lib_array.dfy` | `LibArray` | src/lib/array.ts |
| `util_array.dfy` | `UtilArray` | src/util/array.ts |
| `lib_tree.dfy` | `LibTree` | src/lib/tree.ts |

The skeleton is a datatype. `split` only writes into records it has just
created, so it is a pure function. The `Tree` class is a Dafny class whose
buffers are `seq` fields. Its methods append to those fields in loops, as
the source does. Each method is proved to leave exactly the state that a
specification function describes, and the properties are proved about
those functions. `createForks` writes rings and radii into the branches; the
model returns the annotated branch instead. A branch's `parent` reference is
not stored in the datatype: every operation that reads it is given the
parent as an argument. The flatteners are methods that allocate an `array`
and fill it in a loop.

The specification definitions below carry the source's index arithmetic and
formulas. They have no contract of their own; the members of the table after
them state their properties.

| definition | source | what it is |
|---|---|---|
| `Rings.Ring0At`, `Rings.Ring1At`, `Rings.Ring2At` | src/proctree/index.ts:169-214 | the indices a fork pushes into `ring0`, `ring1` and `ring2` |
| `Skeleton.Draw` | src/proctree/index.ts:543-544 | the random draw of `split` at a recursion position |
| `Skeleton.TrunkHead` | src/proctree/index.ts:597-603 | the head of a trunk continuation |
| `Vectors.ScaleInDirection` | src/proctree/index.ts:632-636 | `scaleInDirection` |
| `Twigs.TwigCorners` | src/proctree/index.ts:240-305 | the four corners of a leaf's quad |
| `Twigs.TwigFacesAt` | src/proctree/index.ts:307-311 | the four twig triangles |
| `Twigs.TwigNormalsAt` | src/proctree/index.ts:313-334 | the eight twig normals |
| `Faces.Scores` | src/proctree/index.ts:396-408 | the alignment scores of a child's `ring0` |
| `Faces.TreeFaces` | src/proctree/index.ts:351-460 | the faces `doFaces` appends |
| `Uvs.Around` | src/proctree/index.ts:380-385 | the `u` of a ring position |
| `Uvs.EdgeV` | src/proctree/index.ts:381-383 | the `v` of a ring position |
| `Uvs.Climb` | src/proctree/index.ts:430-444 | a stitched vertex's coordinate |
| `Uvs.Beyond` | src/proctree/index.ts:454 | the `u` of `child0`'s tip |
| `Normals.FaceNormal` | src/proctree/index.ts:471-476 | the normal of one face |

## Model

| member | source | states |
|---|---|---|
| Config.Merge | src/proctree/index.ts:70-98 | each of the 21 option fields, when given, replaces its default and, when missing, keeps it; `seed` likewise, and `rseed` is set to `seed` |
| Config.MergeAllGiven | src/proctree/index.ts:70-98 | a given option always wins over the default: passing every field of a record whose `rseed` equals its `seed` gives that record back |
| Config.MergeNoOptions | src/proctree/index.ts:69-95 | with no options the properties are exactly the defaults |
| Skeleton.NewBranch | src/proctree/index.ts:507-521 | a new branch has no children, no rings, an empty `root`, and is typed trunk exactly when it has no parent |
| Skeleton.Spawn | src/proctree/index.ts:589-606 | both children are fresh leaves without rings; `child0` is a trunk exactly when `level > 0 && steps > 0` and then has length `length * taperRate`, every other child is a branch of length `pow(length, power) * factor` |
| Skeleton.Split | src/proctree/index.ts:529-613 | `split` keeps head, length and root, types the root trunk, always sets both children, recurses exactly when `level > 0`, and leaves a skeleton whose sibling pairs are both forks or both leaves |
| Skeleton.SplitChildren | src/proctree/index.ts:593-606 | the typing and lengths of the two children after `split` |
| Skeleton.Grow | src/proctree/index.ts:99-100 | the grown root is a trunk fork at `(0, trunkLength, 0)` with length `initialBranchLength`, well formed and without rings |
| Skeleton.LeafTotalStep | src/proctree/index.ts:595-611 | the leaf-count recurrence: the trunk child carries `(level, steps - 1)`, the others `(level - 1, 0)` |
| Skeleton.SplitLeaves | src/proctree/index.ts:591-611 | `split(level, steps)` produces `LeafTotal(level, steps)` leaves |
| Skeleton.GrowLeaves | src/proctree/index.ts:110 | a generation has `LeafTotal(levels, treeSteps)` leaves |
| Skeleton.LeavesAreForksPlusOne | src/proctree/index.ts:591-592 | a skeleton of pairs has one leaf more than forks |
| Skeleton.SplitNoTrunk | src/proctree/index.ts:605 | a non-trunk branch grows no trunk below it |
| Skeleton.SplitTrunk | src/proctree/index.ts:595-607 | the trunk is the `child0` chain from the root, with `treeSteps + 1` members when `levels > 0` |
| Rings.RingIndexIsMod | src/proctree/index.ts:374-376 | the ring position `RingIndex(x, n)` is `x % n` |
| Rings.RingsWellSized | src/proctree/index.ts:169-214 | each of a fork's three rings holds `n` distinct indices, all in the fresh range `[s, s + 3n/2 - 1)` |
| Rings.Ring1Members | src/proctree/index.ts:195-214 | `ring1` is `linch0`, `linch1` and the far half and inner arc, and nothing else |
| Rings.Ring2Members | src/proctree/index.ts:179-214 | `ring2` is the near half, `linch1` and the inner arc, and nothing else |
| Rings.RingsCoverFork | src/proctree/index.ts:169-214 | `ring0` covers the first `n` new vertices, `ring1` and `ring2` together cover all of them, and they share exactly the two seam vertices and the inner arc |
| Rings.InnerArcReversed | src/proctree/index.ts:205-214 | the inner arc runs in opposite directions in `ring1` and `ring2` |
| Forks.Clamp | src/proctree/index.ts:118-121 | the ring radius is the smaller of the radius and the branch length |
| Forks.Skin | src/proctree/index.ts:117-232 | `createForks` keeps head, type, length and shape, records the incoming radius, sets the root ring `[start, start + n)` on the root, gives the children their falloff or taper radius, puts each leaf's `end` at the next vertex, keeps the leaf count, and every index it writes lies in the range of vertices it appended |
| Forks.SkinVerts | src/proctree/index.ts:117-232 | the number of vertices `createForks` appends is `SkinCount` |
| Forks.SkinFork | src/proctree/index.ts:220-226 | proof step for the loop and induction proofs: a fork's children are skinned after its rings, `child0` first, with their radii |
| Forks.SkinChild0 | src/proctree/index.ts:220-225 | proof step for the loop and induction proofs: `child0` starts right after its parent's rings, with the trunk taper or the falloff radius |
| Forks.SkinChild1 | src/proctree/index.ts:221-226 | proof step for the loop and induction proofs: `child1` starts after all of `child0`'s vertices, with the falloff radius |
| Forks.SkinForkFields | src/proctree/index.ts:118-214 | proof step for the loop and induction proofs: the fields a fork receives: radius, root ring, tangent and its three rings |
| Forks.SkinForkIs | src/proctree/index.ts:117-226 | proof step for the loop and induction proofs: a fork's skinned record is assembled from its rings and its skinned children |
| Forks.SkinVertsFork | src/proctree/index.ts:128-226 | proof step for the loop and induction proofs: a fork appends its base ring, its fork ring vertices, then `child0`'s and `child1`'s vertices |
| Forks.SkinTips | src/proctree/index.ts:227-231 | every leaf's `end` indexes the vertex that holds its head |
| Forks.SkinForkTips | src/proctree/index.ts:141-226 | proof step for the loop and induction proofs: the same, below a fork |
| Forks.SkinLeafTip | src/proctree/index.ts:227-231 | proof step for the loop and induction proofs: the same, at a leaf |
| Forks.SkinCountFormula | src/proctree/index.ts:117-232 | `createForks` appends `n` root vertices, `3n/2 - 1` per fork and one per leaf |
| Twigs.TwigNormalsFlip | src/proctree/index.ts:313-334 | the four front normals normalize the front cross product and the four back normals normalize its negation |
| Twigs.TwigNormalsReversed | src/proctree/index.ts:313-334 | when `normalize` commutes with negation, as IEEE normalisation does, each back normal is exactly the reversed front normal |
| Twigs.TwigUVsAt | src/proctree/index.ts:336-344 | a leaf's eight texture coordinates are the unit-square corners, twice |
| Twigs.TwigVerts | src/proctree/index.ts:239-348 | eight twig vertices per leaf |
| Twigs.TwigNormals | src/proctree/index.ts:239-348 | eight twig normals per leaf |
| Twigs.TwigUVs | src/proctree/index.ts:239-348 | eight twig texture coordinates per leaf |
| Twigs.TwigFaces | src/proctree/index.ts:239-348 | four twig faces per leaf |
| Twigs.TwigFacesWithin | src/proctree/index.ts:249-311 | every twig face indexes one of its own leaf's eight vertices |
| Twigs.TwigsTwoSided | src/proctree/index.ts:278-311 | each back face lies on the same positions as its front face, wound the other way |
| Twigs.TwoSidedLeaf | src/proctree/index.ts:249-311 | the same, at a leaf |
| Twigs.TwoSidedFork | src/proctree/index.ts:345-347 | the same, below a fork |
| Twigs.QuadTwoSided | src/proctree/index.ts:307-311 | the same, for one quad |
| Twigs.BacksLeft | src/proctree/index.ts:346 | two-sidedness carries over from `child0`'s buffers to the joint buffers |
| Twigs.BacksRight | src/proctree/index.ts:347 | two-sidedness carries over from `child1`'s buffers to the joint buffers |
| Faces.AddressedFork | src/proctree/index.ts:389-448 | the rings `doFaces` reads at a fork and at its children index existing vertices |
| Faces.FirstMax | src/proctree/index.ts:399-412 | the first index of a strictly greatest score |
| Faces.FirstMaxUnique | src/proctree/index.ts:399-412 | a first strictly greatest index is unique |
| Faces.FirstMaxSnoc | src/proctree/index.ts:402-405 | one step of the search keeps the first maximum and replaces it only on a strictly greater score |
| Faces.SegOffset | src/proctree/index.ts:399-412 | the child alignment offset lies in `[1, n]` and points at a greatest score |
| Faces.ChildOffsets | src/proctree/index.ts:399-412 | both child offsets lie in `[1, n]` |
| Faces.RootCap | src/proctree/index.ts:372-379 | the root cap has `2n` faces |
| Faces.Stitch | src/proctree/index.ts:416-428 | stitching a fork to two fork children gives `4n` faces |
| Faces.LeafCap | src/proctree/index.ts:450-452 | capping a fork with two leaves gives `2n` faces |
| Faces.TreeFacesCount | src/proctree/index.ts:351-458 | the face count of `doFaces` on a subtree |
| Faces.StitchCountLeaves | src/proctree/index.ts:389-458 | below the root, `n (3L - 4)` faces for `L` leaves |
| Faces.RootFacesCount | src/proctree/index.ts:351-458 | `doFaces` on the root emits `n (3L - 2)` faces |
| Faces.RootCapWithin | src/proctree/index.ts:372-379 | every root-cap face indexes an existing vertex |
| Faces.StitchWithin | src/proctree/index.ts:416-428 | every stitched face indexes an existing vertex |
| Faces.LeafCapWithin | src/proctree/index.ts:450-452 | every leaf-cap face indexes an existing vertex |
| Faces.TreeFacesWithin | src/proctree/index.ts:351-458 | every face `doFaces` emits indexes an existing vertex |
| Faces.TreeFacesFork | src/proctree/index.ts:372-448 | proof step for the loop and induction proofs: at a fork with fork children: root cap, stitch, then `child0`'s and `child1`'s faces |
| Faces.TreeFacesLeaves | src/proctree/index.ts:449-458 | proof step for the loop and induction proofs: at a fork with leaf children: root cap, then the leaf cap |
| Faces.RootCapStep | src/proctree/index.ts:372-379 | proof step for the loop and induction proofs: round `i` of the root cap appends its two faces |
| Faces.StitchStep | src/proctree/index.ts:416-428 | proof step for the loop and induction proofs: round `i` of the stitch appends its four faces |
| Faces.LeafCapStep | src/proctree/index.ts:450-452 | proof step for the loop and induction proofs: round `i` of the leaf cap appends its two faces |
| Uvs.Zeros | src/proctree/index.ts:357-359 | the reset gives `(0, 0)` to every existing vertex |
| Uvs.RootUV | src/proctree/index.ts:372-386 | the root rounds overwrite texture coordinates and never change the buffer's length |
| Uvs.StitchUV | src/proctree/index.ts:416-445 | the stitch rounds never change the buffer's length |
| Uvs.TipUV | src/proctree/index.ts:450-457 | the leaf rounds never change the buffer's length |
| Uvs.StartUV | src/proctree/index.ts:356-386 | only the root pass grows the buffer, to one coordinate per vertex |
| Uvs.TreeUV | src/proctree/index.ts:351-458 | after `doFaces` the buffer has one coordinate per vertex |
| Uvs.RootUVStep | src/proctree/index.ts:380-385 | proof step for the loop and induction proofs: round `i` of the root pass |
| Uvs.StitchUVStep | src/proctree/index.ts:430-444 | proof step for the loop and induction proofs: round `i` of the stitch pass |
| Uvs.TipUVStep | src/proctree/index.ts:453-456 | proof step for the loop and induction proofs: round `i` of the leaf pass |
| Uvs.TreeUVFork | src/proctree/index.ts:389-448 | proof step for the loop and induction proofs: at a fork with fork children: stitch coordinates, then `child0`'s and `child1`'s |
| Uvs.TreeUVLeaves | src/proctree/index.ts:449-458 | proof step for the loop and induction proofs: at a fork with leaf children: the leaf coordinates |
| Normals.Incident | src/proctree/index.ts:466-480 | a vertex's list has one entry per occurrence of the vertex in the faces |
| Normals.IncidentFace | src/proctree/index.ts:469-480 | each entry of a vertex's list is the normal of a face the vertex is a corner of |
| Normals.CornerEntriesAre | src/proctree/index.ts:477-479 | proof step for the loop and induction proofs: a face only adds its own normal, and only to its corners |
| Normals.IncidentStep | src/proctree/index.ts:469-480 | visiting a face appends its normal to the lists of its corners |
| Normals.NormalsOf | src/proctree/index.ts:461-489 | one normal per vertex |
| Normals.AccumulatedScalesSum | src/proctree/index.ts:484-486 | adding the scaled normals one by one scales their sum |
| Normals.AccumulatedIsMean | src/proctree/index.ts:481-487 | the loop's total is the unweighted mean, `(0, 0, 0)` for an empty list |
| Normals.MeanOfEqual | src/proctree/index.ts:481-487 | where all incident normals agree, the vertex gets that normal |
| Normals.UnusedVertex | src/proctree/index.ts:481-488 | a vertex no face uses gets `(0, 0, 0)`, any other the mean of its list |
| Normals.OccurrencesCount | src/proctree/index.ts:466-480 | a vertex has entries exactly when some face has it as a corner |
| Generation.SkinnedShape | src/proctree/index.ts:101-111 | after `createForks` the root's ring is `[0, n)`, all rings and tips index existing vertices, and the leaf count is `LeafTotal` |
| Generation.SkinnedSite | src/proctree/index.ts:111-112 | `createTwigs` can start from the skinned root |
| Generation.WoodFacesWithin | src/proctree/index.ts:113 | every wood face indexes an existing vertex |
| Generation.WoodVertexCount | src/proctree/index.ts:110-111 | the wood mesh has `n + (3n/2 - 1)(L - 1) + L` vertices |
| Generation.WoodBufferSizes | src/proctree/index.ts:111-114 | one texture coordinate and one normal per wood vertex |
| Generation.TwigCounts | src/proctree/index.ts:112 | eight twig vertices, normals and texture coordinates and four faces per leaf, all faces within the twig vertices |
| Generation.WoodReady | src/proctree/index.ts:110-114 | each pass of the constructor finds what it needs in the results of the passes before it |
| ProcTree.Tree.constructor | src/proctree/index.ts:69-115 | the buffers after one generation are those of `Generation` |
| ProcTree.Tree.Generate | src/proctree/index.ts:110-114 | the four passes, from the grown root and empty buffers |
| ProcTree.Tree.SkinRoot | src/proctree/index.ts:111 | `createForks` from the root into empty `verts` |
| ProcTree.Tree.AddTwigs | src/proctree/index.ts:112 | `createTwigs` from the skinned root into empty twig buffers |
| ProcTree.Tree.FacesAndNormals | src/proctree/index.ts:113-114 | `doFaces` then `calcNormals` |
| ProcTree.Tree.FacesFromRoot | src/proctree/index.ts:113 | `doFaces` from the root |
| ProcTree.Tree.NormalsFromFaces | src/proctree/index.ts:114 | `calcNormals` over the wood faces |
| ProcTree.Tree.PushBaseRing | src/proctree/index.ts:128-136 | the root ring is the `n` indices of the vertices it appends |
| ProcTree.Tree.PushForkRings | src/proctree/index.ts:169-214 | the three fork rings and the `3n/2 - 1` appended vertices |
| ProcTree.Tree.PushFirstHalf | src/proctree/index.ts:179-194 | `linch0` and the near half go into `ring0` and `ring2` |
| ProcTree.Tree.PushSecondHalf | src/proctree/index.ts:195-204 | `linch1` and the far half go into `ring0` and `ring1` |
| ProcTree.Tree.PushInnerArc | src/proctree/index.ts:205-214 | the inner arc goes into `ring1` forwards and `ring2` backwards |
| ProcTree.Tree.CreateForks | src/proctree/index.ts:117-232 | `createForks` returns the skinned branch and appends its vertices |
| ProcTree.Tree.CreateFork | src/proctree/index.ts:141-226 | `createForks` at a fork |
| ProcTree.Tree.CreateChildren | src/proctree/index.ts:217-226 | the two recursive calls, `child0` first |
| ProcTree.Tree.CreateTwigs | src/proctree/index.ts:234-348 | `createTwigs` appends the twig buffers of the subtree |
| ProcTree.Tree.PushTwig | src/proctree/index.ts:239-344 | one leaf's quad, normals, texture coordinates and faces |
| ProcTree.Tree.DoFaces | src/proctree/index.ts:351-458 | `doFaces` appends the subtree's faces and sets its texture coordinates |
| ProcTree.Tree.CalcNormals | src/proctree/index.ts:461-489 | `calcNormals` writes the normal of every vertex |
| ProcTree.Tree.ResetUV | src/proctree/index.ts:357-359 | the reset of the texture coordinates |
| ProcTree.Tree.CapRoot | src/proctree/index.ts:360-386 | the root cap and its texture coordinates |
| ProcTree.Tree.RootRound | src/proctree/index.ts:372-386 | one round of the root cap |
| ProcTree.Tree.AlignChildren | src/proctree/index.ts:390-412 | the two child offsets are those of the first greatest score |
| ProcTree.Tree.StitchChildren | src/proctree/index.ts:414-445 | the stitch and its texture coordinates |
| ProcTree.Tree.StitchRound | src/proctree/index.ts:416-445 | one round of the stitch |
| ProcTree.Tree.CapLeaves | src/proctree/index.ts:449-458 | the leaf cap and its texture coordinates |
| ProcTree.Tree.LeafRound | src/proctree/index.ts:450-457 | one round of the leaf cap |
| ProcTree.KeepBest | src/proctree/index.ts:402-411 | one step of the alignment search keeps the first greatest score |
| ProcTree.AppendToCorners | src/proctree/index.ts:477-479 | pushing a face's normal onto its three corners' lists |
| ProcTree.PushFaceNormal | src/proctree/index.ts:470-479 | after face `i` every list holds the normals of faces `0..i` that use its vertex |
| ProcTree.MeanOf | src/proctree/index.ts:482-486 | the averaging loop computes the mean |
| Flattening.Flat | src/lib/array.ts:12-22 | rows of `k` entries laid end to end give a buffer of `k * |rows|` entries |
| Flattening.FlatAt | src/lib/array.ts:15-20 | entry `j` of row `i` lands at `k * i + j` |
| Flattening.FlatIndex | src/lib/array.ts:27-32 | index `m` holds entry `m % k` of row `m / k` |
| Flattening.FlatIs | src/lib/array.ts:24-34 | a buffer holding entry `j` of row `i` at `k * i + j` is the flattening |
| Flattening.Unflat | src/lib/array.ts:24-34 | cutting a flat buffer into `n` rows of `k` |
| Flattening.UnflatFlat | src/lib/array.ts:24-34 | cutting the flattening back into rows gives the rows |
| Flattening.FlatUnflat | src/lib/array.ts:24-34 | flattening the rows cut from a buffer gives the buffer |
| Flattening.Components | src/lib/array.ts:15-20 | component `j` of element `i` after the `Float32Array` store |
| Flattening.ComponentsIgnoreRest | src/lib/array.ts:16-19 | components past the first `k` are never read |
| Flattening.Wrap | src/lib/array.ts:29-31 | `ToUint32` keeps an index below 2^32 and otherwise stores its residue modulo 2^32 |
| Flattening.IndexEntry | src/lib/array.ts:28-31 | an index below 2^32 is stored as it is, a missing one as 0 |
| Flattening.IndexRows | src/lib/array.ts:27-32 | the first three stored indices of each triple |
| Flattening.FlatCoords2 | src/util/array.ts:7-11 | `x` of point `i` at `2i`, `y` at `2i + 1` |
| Flattening.FlatCoords3 | src/util/array.ts:18-23 | `x`, `y`, `z` of point `i` at `3i`, `3i + 1`, `3i + 2` |
| Flattening.FlatTriples | src/util/array.ts:30-35 | the corners of face `i` at `3i`, `3i + 1`, `3i + 2` |
| LibArray.FlattenA2ToFloat32 | src/lib/array.ts:1-10 | a fresh array of `2 × n` slots holding the flattening of the first two components |
| LibArray.FlattenA3ToFloat32 | src/lib/array.ts:12-22 | a fresh array of `3 × n` slots holding the flattening of the first three components |
| LibArray.FlattenA3ToUint32 | src/lib/array.ts:24-34 | a fresh array of `3 × n` slots holding the stored indices |
| UtilArray.FlattenV2ToFloat32 | src/util/array.ts:4-13 | a fresh array holding `x` and `y` of every point |
| UtilArray.FlattenV3ToFloat32 | src/util/array.ts:15-25 | a fresh array holding `x`, `y` and `z` of every point |
| UtilArray.FlattenI3ToUint32 | src/util/array.ts:27-37 | a fresh array holding the first three stored indices of every triple |
| LibTree.CreateBranch | src/lib/tree.ts:57-83 | the copy keeps the fields, has a child exactly where the original has one, is a twig exactly when childless, and is otherwise a trunk exactly when the original is one |
| LibTree.CreateBranchAt | src/lib/tree.ts:76-81 | the copy has the original's shape, and at every address it holds the copy of the branch found there |
| LibTree.ParentLinks | src/lib/tree.ts:64-80 | every copied child's `parent` is the copy it hangs from, on the same side |
| LibTree.TwigsAreLeaves | src/lib/tree.ts:73-75 | on a skinned skeleton the copy's twigs are exactly its leaves |
| LibTree.CreateTree | src/lib/tree.ts:40-55 | the returned arrays are the flattened buffers of one generation, and the root is the copy of the skinned root |
| LibTree.Pack | src/lib/tree.ts:45-52 | one mesh's buffers, flattened |
| LibTree.WoodArraySizes | src/lib/tree.ts:45-48 | `3×verts`, `3×normals`, `2×UV` and `3×faces` |
| LibTree.TwigArraySizes | src/lib/tree.ts:49-52 | 24, 24, 16 and 12 entries per leaf, with one twig per leaf |

## Left out

- Floating point: every non-linear or rounded quantity is an uninterpreted function of `Config.Numerics`. This covers `Math.cos`, `Math.sin`, `Math.acos`, `Math.pow`, `Math.round`, `V3.normalize`, `V3.length`, and division by a radius that may be zero. Vector sums, differences, scalings, cross products and dot products are exact on reals. So the alignment scores of `doFaces` (`Faces.Scores`, `Vectors.ScaleInDirection`) are compared on reals, where the source may break a near-tie differently after rounding. No statement is made about the positions themselves.
- The averaging of `calcNormals`: the `1 / l` weights and the running total are exact on reals, so `Normals.AccumulatedIsMean` proves the total is exactly the mean. In floating point each step of the source's left-to-right accumulation rounds, and the total is only close to the mean.
- Float32 rounding: the store into a `Float32Array` is the uninterpreted function `f32`.
- Config.Merge: an option is either given or missing. `Object.assign` also copies a key that is present with the value `undefined`, so `{ levels: undefined }` sets `levels` to `undefined`; the model falls back to the default instead.
- Config.Merge: `levels`, `treeSteps` and `segments` are integers in the model. The source accepts any number there, fractional ones included.
- Odd `segments`: the model requires an even `segments >= 2`. With an odd count the source's loop bounds `segments / 2` are fractional and `ring2` would receive non-integer indices.
- Mutation of shared branch records: `createForks` writes `radius`, `root`, `tangent`, `end` and the rings into the branch objects in place. The model returns the annotated branch instead; no other object can observe these records during a generation.
- `branch.parent`: parent references are not stored in the skeleton; every operation that reads one receives the parent as an argument.
- LibTree.CreateBranch: the `parent` of a copy is the address of the parent's copy (a path of `child0`/`child1` steps), not an object reference.
- LibTree.CreateBranch: the `tangent` of a copy is always present, because every branch of src/proctree/index.ts carries one from its constructor. The absent case of the optional field cannot arise from that skeleton.
- LibTree.CreateTree: it is modelled over the `Tree` class of src/proctree/index.ts, which holds points as `V3`/`V2`. `createTree` itself reads a `ProcTree` declared only as an ambient type, whose buffers are `number[][]`; the model converts points to `[x, y, z]` arrays before flattening.
- LibArray.FlattenA2ToFloat32: requires every element to have at least two components. A missing component reads as `undefined` and is stored as NaN, which reals cannot represent. The index flatteners do handle missing entries: they are stored as 0.
- LibArray.FlattenA3ToFloat32: requires at least three components per element, for the same reason.
- Flattening.Wrap: the indices are integers. `ToUint32` of a non-integer number, which first truncates it, is not modelled.
- The flatteners: the order in which the slots of a typed array are written is not modelled, only the final contents. `Flattening.FlatAt` and `Flattening.FlatIndex` together show that slots and (element, component) pairs correspond one to one.
- `Branch.mirror`, `axisAngle`, `scaleInDirection` and the direction maths of `split` are inside the oracles `splitHeads`, `rootVertex` and `forkVertex`.
- The seeded `random` of `split` is the oracle `random`, applied to the same integer arguments as the source.
