/**
 * What `Tree.calcNormals` (src/proctree/index.ts:460-489) computes: for
 * every vertex, the unweighted mean of the normals of the faces it is a
 * corner of, counted once per occurrence.
 */
module Normals {
  import opened Vectors
  import opened Config
  import opened Mesh

  /** `normalize(cross(v1 - v2, v1 - v0))` for the face `[f0, f1, f2]`. */
  function FaceNormal(g: Numerics, verts: seq<Vec3>, f: Face): Vec3
    requires f.a < |verts| && f.b < |verts| && f.c < |verts|
  {
    g.normalize(Cross(Sub(verts[f.b], verts[f.c]), Sub(verts[f.b], verts[f.a])))
  }

  /** How often `v` is a corner of one of the faces. */
  function Occurrences(fs: seq<Face>, v: nat): nat {
    if |fs| == 0 then 0
    else
      var f := fs[|fs| - 1];
      Occurrences(fs[..|fs| - 1], v) +
        (if f.a == v then 1 else 0) + (if f.b == v then 1 else 0) + (if f.c == v then 1 else 0)
  }

  /**
   * The list `allNormals[v]` after the faces have been visited in order:
   * the face's normal once for each of its corners that is `v`.
   */
  function Incident(g: Numerics, verts: seq<Vec3>, fs: seq<Face>, v: nat): (ns: seq<Vec3>)
    requires FacesWithin(fs, 0, |verts|)
    ensures |ns| == Occurrences(fs, v)
  {
    if |fs| == 0 then []
    else
      var f := fs[|fs| - 1];
      Incident(g, verts, fs[..|fs| - 1], v) + CornerEntries(f, v, FaceNormal(g, verts, f))
  }

  /**
   * Every normal in the list of `v` is that of a face `v` is a corner of:
   * entry `k` comes from face `i`.
   */
  lemma {:induction false} IncidentFace(g: Numerics, verts: seq<Vec3>, fs: seq<Face>, v: nat, k: nat) returns (i: nat)
    requires FacesWithin(fs, 0, |verts|) && k < |Incident(g, verts, fs, v)|
    ensures i < |fs| && v in Corners(fs[i]) && Incident(g, verts, fs, v)[k] == FaceNormal(g, verts, fs[i])
  {
    var init, f := fs[..|fs| - 1], fs[|fs| - 1];
    var nf := FaceNormal(g, verts, f);
    var before := Incident(g, verts, init, v);
    var extra := CornerEntries(f, v, nf);
    assert Incident(g, verts, fs, v) == before + extra;
    if k < |before| {
      i := IncidentFace(g, verts, init, v, k);
      assert init[i] == fs[i];
    } else {
      i := |fs| - 1;
      CornerEntriesAre(f, v, nf, k - |before|);
    }
  }

  /** What visiting face `f` appends to the list of `v`: its normal `nf` once per corner that is `v`. */
  function CornerEntries(f: Face, v: nat, nf: Vec3): seq<Vec3> {
    (if f.a == v then [nf] else []) + (if f.b == v then [nf] else []) + (if f.c == v then [nf] else [])
  }

  lemma CornerEntriesAre(f: Face, v: nat, nf: Vec3, j: nat)
    requires j < |CornerEntries(f, v, nf)|
    ensures CornerEntries(f, v, nf)[j] == nf && v in Corners(f)
  {
  }

  /**
   * Visiting face `i` appends its normal to the list of each of its
   * corners, once per corner.
   */
  lemma IncidentStep(g: Numerics, verts: seq<Vec3>, fs: seq<Face>, i: nat, k: nat, v: nat)
    requires FacesWithin(fs, 0, |verts|) && k == i + 1 <= |fs|
    ensures FacesWithin(fs[..i], 0, |verts|) && FacesWithin(fs[..k], 0, |verts|)
    ensures Incident(g, verts, fs[..k], v) == Incident(g, verts, fs[..i], v) + CornerEntries(fs[i], v, FaceNormal(g, verts, fs[i]))
  {
    assert fs[..k][..i] == fs[..i];
    assert fs[..k][i] == fs[i];
  }

  /** `n[0] + n[1] + ... `, added left to right. */
  function Sum(ns: seq<Vec3>): Vec3 {
    if |ns| == 0 then Zero3 else Add(Sum(ns[..|ns| - 1]), ns[|ns| - 1])
  }

  /** The unweighted mean, `(0, 0, 0)` for an empty list. */
  function Mean(ns: seq<Vec3>): Vec3 {
    if |ns| == 0 then Zero3 else Scale(Sum(ns), 1.0 / |ns| as real)
  }

  /** The normal `calcNormals` gives vertex `v`. */
  function VertexNormal(g: Numerics, verts: seq<Vec3>, fs: seq<Face>, v: nat): Vec3
    requires FacesWithin(fs, 0, |verts|)
  {
    Mean(Incident(g, verts, fs, v))
  }

  /** The normals of all vertices, in vertex order. */
  function NormalsOf(g: Numerics, verts: seq<Vec3>, fs: seq<Face>): (ns: seq<Vec3>)
    requires FacesWithin(fs, 0, |verts|)
    ensures |ns| == |verts|
  {
    seq(|verts|, v requires 0 <= v < |verts| => VertexNormal(g, verts, fs, v))
  }

  /** `total` after the first `k` rounds of `total += ns[j] * w`. */
  function Accumulated(ns: seq<Vec3>, w: real, k: nat): Vec3
    requires k <= |ns|
  {
    if k == 0 then Zero3 else Add(Accumulated(ns, w, k - 1), Scale(ns[k - 1], w))
  }

  /** Proof helper for `AccumulatedScalesSum`: scaling distributes over a sum. */
  lemma ScaleAdd(a: Vec3, b: Vec3, w: real)
    ensures Scale(Add(a, b), w) == Add(Scale(a, w), Scale(b, w))
  {
  }

  /** Adding the scaled normals one by one scales their sum. */
  lemma {:induction false} AccumulatedScalesSum(ns: seq<Vec3>, w: real, k: nat)
    requires k <= |ns|
    ensures Accumulated(ns, w, k) == Scale(Sum(ns[..k]), w)
  {
    if k > 0 {
      AccumulatedScalesSum(ns, w, k - 1);
      assert ns[..k][..k - 1] == ns[..k - 1];
      ScaleAdd(Sum(ns[..k - 1]), ns[k - 1], w);
    } else {
      assert Scale(Zero3, w) == Zero3;
    }
  }

  /** With the weight `1 / l` of `calcNormals`, the loop computes the mean. */
  lemma AccumulatedIsMean(ns: seq<Vec3>)
    ensures |ns| > 0 ==> Accumulated(ns, 1.0 / |ns| as real, |ns|) == Mean(ns)
    ensures |ns| == 0 ==> Accumulated(ns, 0.0, 0) == Mean(ns)
  {
    if |ns| > 0 {
      AccumulatedScalesSum(ns, 1.0 / |ns| as real, |ns|);
      assert ns[..|ns|] == ns;
    }
  }

  /** Where every incident face has the same normal, the vertex gets that normal. */
  lemma {:induction false} MeanOfEqual(ns: seq<Vec3>, v: Vec3)
    requires |ns| > 0
    requires forall k | 0 <= k < |ns| :: ns[k] == v
    ensures Mean(ns) == v
  {
    SumOfEqual(ns, v);
    var m := |ns| as real;
    assert m * (1.0 / m) == 1.0;
    assert Mean(ns) == Vec3(v.x * m * (1.0 / m), v.y * m * (1.0 / m), v.z * m * (1.0 / m));
  }

  lemma {:induction false} SumOfEqual(ns: seq<Vec3>, v: Vec3)
    requires forall k | 0 <= k < |ns| :: ns[k] == v
    ensures Sum(ns) == Scale(v, |ns| as real)
  {
    if |ns| > 0 {
      SumOfEqual(ns[..|ns| - 1], v);
    }
  }

  /** A vertex that no face uses gets `(0, 0, 0)`; one that some face uses gets a mean of face normals. */
  lemma UnusedVertex(g: Numerics, verts: seq<Vec3>, fs: seq<Face>, v: nat)
    requires FacesWithin(fs, 0, |verts|)
    ensures Occurrences(fs, v) == 0 ==> VertexNormal(g, verts, fs, v) == Zero3
    ensures Occurrences(fs, v) > 0 ==>
      VertexNormal(g, verts, fs, v) == Scale(Sum(Incident(g, verts, fs, v)), 1.0 / Occurrences(fs, v) as real)
  {
  }

  /** A vertex is counted once for every face it is a corner of (and once per repeated corner). */
  lemma {:induction false} OccurrencesCount(fs: seq<Face>, v: nat)
    ensures Occurrences(fs, v) > 0 <==> exists i | 0 <= i < |fs| :: v in Corners(fs[i])
  {
    if |fs| > 0 {
      var init := fs[..|fs| - 1];
      OccurrencesCount(init, v);
      if exists i | 0 <= i < |init| :: v in Corners(init[i]) {
        var i :| 0 <= i < |init| && v in Corners(init[i]);
        assert init[i] == fs[i];
      }
      if exists i | 0 <= i < |fs| :: v in Corners(fs[i]) {
        var i :| 0 <= i < |fs| && v in Corners(fs[i]);
        if i < |init| {
          assert init[i] == fs[i];
        }
      }
    }
  }
}
