/**
 * What the typed-array flatteners of src/lib/array.ts and
 * src/util/array.ts compute: rows of `k` entries laid end to end, entry
 * `j` of row `i` at index `k * i + j`, and the conversions applied to the
 * entries on the way (`Float32Array` rounding, `ToUint32`).
 */
module Flattening {
  import opened Vectors
  import opened Mesh
  /** The element type of a `Uint32Array`. */
  newtype uint32 = x: int | 0 <= x < 0x1_0000_0000

  /** Every row has exactly `k` entries. */
  predicate Rectangular<T>(rows: seq<seq<T>>, k: nat) {
    forall i | 0 <= i < |rows| :: |rows[i]| == k
  }

  /** The rows laid end to end. */
  function Flat<T>(rows: seq<seq<T>>, k: nat): (r: seq<T>)
    requires Rectangular(rows, k)
    ensures |r| == k * |rows|
  {
    if |rows| == 0 then [] else Flat(rows[..|rows| - 1], k) + rows[|rows| - 1]
  }

  /** Entry `j` of row `i` lands at `k * i + j`. */
  lemma {:induction false} FlatAt<T>(rows: seq<seq<T>>, k: nat, i: nat, j: nat)
    requires Rectangular(rows, k) && i < |rows| && j < k
    ensures k * i + j < |Flat(rows, k)| && Flat(rows, k)[k * i + j] == rows[i][j]
  {
    var n := |rows|;
    var init := rows[..n - 1];
    assert k * i + j < k * (i + 1) <= k * n;
    if i < n - 1 {
      FlatAt(init, k, i, j);
      assert init[i] == rows[i];
    } else {
      assert |Flat(init, k)| == k * i;
    }
  }

  /** Index `m` of the flat buffer is row `m / k`, entry `m % k`. */
  lemma DivMod(m: nat, k: nat, n: nat)
    requires m < k * n
    ensures 0 < k && m / k < n && m % k < k && k * (m / k) + m % k == m
  {
  }

  /**
   * Unflattening by `m / k` and `m % k` recovers the rows: every index of
   * the flat buffer is entry `m % k` of row `m / k`.
   */
  lemma FlatIndex<T>(rows: seq<seq<T>>, k: nat)
    requires Rectangular(rows, k)
    ensures forall m | 0 <= m < |Flat(rows, k)| ::
      m / k < |rows| && m % k < k && Flat(rows, k)[m] == rows[m / k][m % k]
  {
    forall m | 0 <= m < |Flat(rows, k)|
      ensures m / k < |rows| && m % k < k && Flat(rows, k)[m] == rows[m / k][m % k]
    {
      DivMod(m, k, |rows|);
      FlatAt(rows, k, m / k, m % k);
    }
  }

  /** A buffer of the right length holding entry `j` of row `i` at `k * i + j` is the flattening. */
  lemma FlatIs<T>(s: seq<T>, rows: seq<seq<T>>, k: nat)
    requires Rectangular(rows, k) && |s| == k * |rows|
    requires forall i, j | 0 <= i < |rows| && 0 <= j < k :: k * i + j < |s| && s[k * i + j] == rows[i][j]
    ensures s == Flat(rows, k)
  {
    FlatIndex(rows, k);
    forall m | 0 <= m < |s|
      ensures s[m] == Flat(rows, k)[m]
    {
      DivMod(m, k, |rows|);
      assert s[k * (m / k) + m % k] == rows[m / k][m % k];
    }
  }

  /** The flat buffer cut back into `n` rows of `k` entries. */
  function Unflat<T>(s: seq<T>, k: nat, n: nat): (rows: seq<seq<T>>)
    requires |s| == k * n
    ensures |rows| == n && Rectangular(rows, k)
  {
    if n == 0 then [] else Unflat(s[..k * (n - 1)], k, n - 1) + [s[k * (n - 1)..]]
  }

  /** Cutting the flattening back into rows gives the rows. */
  lemma {:induction false} UnflatFlat<T>(rows: seq<seq<T>>, k: nat)
    requires Rectangular(rows, k)
    ensures Unflat(Flat(rows, k), k, |rows|) == rows
  {
    var n := |rows|;
    if n > 0 {
      var init := rows[..n - 1];
      var s := Flat(rows, k);
      assert s[..k * (n - 1)] == Flat(init, k);
      assert s[k * (n - 1)..] == rows[n - 1];
      UnflatFlat(init, k);
    }
  }

  /** Flattening the rows cut from a buffer gives the buffer. */
  lemma {:induction false} FlatUnflat<T>(s: seq<T>, k: nat, n: nat)
    requires |s| == k * n
    ensures Flat(Unflat(s, k, n), k) == s
  {
    if n > 0 {
      var rows := Unflat(s, k, n);
      var head := s[..k * (n - 1)];
      FlatUnflat(head, k, n - 1);
      assert rows[..n - 1] == Unflat(head, k, n - 1);
    }
  }

  /** The first `k` components of each element, each passed through `conv`. */
  function Components(va: seq<seq<real>>, k: nat, conv: real -> real): (rows: seq<seq<real>>)
    requires forall i | 0 <= i < |va| :: |va[i]| >= k
    ensures |rows| == |va| && Rectangular(rows, k)
    ensures forall i, j | 0 <= i < |va| && 0 <= j < k :: rows[i][j] == conv(va[i][j])
  {
    seq(|va|, i requires 0 <= i < |va| => seq(k, j requires 0 <= j < k => conv(va[i][j])))
  }

  /** Components past the first `k` of an element are never read. */
  lemma ComponentsIgnoreRest(va: seq<seq<real>>, vb: seq<seq<real>>, k: nat, conv: real -> real)
    requires |va| == |vb|
    requires forall i | 0 <= i < |va| :: |va[i]| >= k && |vb[i]| >= k && va[i][..k] == vb[i][..k]
    ensures Flat(Components(va, k, conv), k) == Flat(Components(vb, k, conv), k)
  {
    var ca, cb := Components(va, k, conv), Components(vb, k, conv);
    forall i | 0 <= i < |va|
      ensures ca[i] == cb[i]
    {
      forall j | 0 <= j < k
        ensures ca[i][j] == cb[i][j]
      {
        assert va[i][..k][j] == vb[i][..k][j];
      }
    }
    assert ca == cb;
  }

  /** `ToUint32` of an integer: its residue modulo 2^32, so an index below 2^32 is stored as it is. */
  function Wrap(x: int): (u: uint32)
    ensures (u as int - x) % 0x1_0000_0000 == 0
    ensures 0 <= x < 0x1_0000_0000 ==> u as int == x
  {
    (x % 0x1_0000_0000) as uint32
  }

  /**
   * Entry `j` of an index triple as a `Uint32Array` stores it: an entry
   * the triple does not have reads as `undefined`, stored as 0.
   */
  function IndexEntry(ii: seq<int>, j: nat): (u: uint32)
    ensures j < |ii| && 0 <= ii[j] < 0x1_0000_0000 ==> u as int == ii[j]
    ensures j >= |ii| ==> u == 0
  {
    if j < |ii| then Wrap(ii[j]) else 0
  }

  /** The first three entries of each index triple as a `Uint32Array` stores them. */
  function IndexRows(ia: seq<seq<int>>): (rows: seq<seq<uint32>>)
    ensures |rows| == |ia| && Rectangular(rows, 3)
    ensures forall i, j | 0 <= i < |ia| && 0 <= j < 3 :: rows[i][j] == IndexEntry(ia[i], j)
  {
    seq(|ia|, i requires 0 <= i < |ia| => seq(3, j requires 0 <= j < 3 => IndexEntry(ia[i], j)))
  }

  /** Points as `[x, y]` arrays. */
  function Coords2(vs: seq<Vec2>): (va: seq<seq<real>>)
    ensures |va| == |vs| && Rectangular(va, 2)
  {
    seq(|vs|, i requires 0 <= i < |vs| => [vs[i].x, vs[i].y])
  }

  /** Points as `[x, y, z]` arrays. */
  function Coords3(vs: seq<Vec3>): (va: seq<seq<real>>)
    ensures |va| == |vs| && Rectangular(va, 3)
  {
    seq(|vs|, i requires 0 <= i < |vs| => [vs[i].x, vs[i].y, vs[i].z])
  }

  /** Faces as `[a, b, c]` index arrays. */
  function Triples(fs: seq<Face>): (ia: seq<seq<int>>)
    ensures |ia| == |fs| && Rectangular(ia, 3)
  {
    seq(|fs|, i requires 0 <= i < |fs| => [fs[i].a as int, fs[i].b as int, fs[i].c as int])
  }

  /** Flattened 2D points: `x` of point `i` at `2 i`, `y` at `2 i + 1`. */
  lemma FlatCoords2(vs: seq<Vec2>, f32: real -> real, i: nat)
    requires i < |vs|
    ensures var s := Flat(Components(Coords2(vs), 2, f32), 2);
      2 * i + 1 < |s| && s[2 * i] == f32(vs[i].x) && s[2 * i + 1] == f32(vs[i].y)
  {
    var rows := Components(Coords2(vs), 2, f32);
    FlatAt(rows, 2, i, 0);
    FlatAt(rows, 2, i, 1);
  }

  /** Flattened 3D points: `x`, `y`, `z` of point `i` at `3 i`, `3 i + 1`, `3 i + 2`. */
  lemma FlatCoords3(vs: seq<Vec3>, f32: real -> real, i: nat)
    requires i < |vs|
    ensures var s := Flat(Components(Coords3(vs), 3, f32), 3);
      3 * i + 2 < |s| && s[3 * i] == f32(vs[i].x) && s[3 * i + 1] == f32(vs[i].y) && s[3 * i + 2] == f32(vs[i].z)
  {
    var rows := Components(Coords3(vs), 3, f32);
    FlatAt(rows, 3, i, 0);
    FlatAt(rows, 3, i, 1);
    FlatAt(rows, 3, i, 2);
  }

  /**
   * Flattened faces: corners `a`, `b`, `c` of face `i` at `3 i`,
   * `3 i + 1`, `3 i + 2`, each as it is while below 2^32.
   */
  lemma FlatTriples(fs: seq<Face>, i: nat)
    requires i < |fs| && fs[i].a < 0x1_0000_0000 && fs[i].b < 0x1_0000_0000 && fs[i].c < 0x1_0000_0000
    ensures var s := Flat(IndexRows(Triples(fs)), 3);
      3 * i + 2 < |s| && s[3 * i] as int == fs[i].a && s[3 * i + 1] as int == fs[i].b && s[3 * i + 2] as int == fs[i].c
  {
    var rows := IndexRows(Triples(fs));
    FlatAt(rows, 3, i, 0);
    FlatAt(rows, 3, i, 1);
    FlatAt(rows, 3, i, 2);
  }
}
