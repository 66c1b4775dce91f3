/**
 * src/lib/array.ts: nested `number[][]` buffers packed into typed arrays.
 * Each function allocates the typed array and fills slot `i * k + j` with
 * component `j` of element `i` in one pass over the elements. What a
 * `Float32Array` slot keeps of a number is the rounding `f32`.
 */
module LibArray {
  import opened Flattening

  /** `flattenA2toFloat32Array`: two components per element. */
  method FlattenA2ToFloat32(va: seq<seq<real>>, f32: real -> real) returns (a: array<real>)
    requires forall i | 0 <= i < |va| :: |va[i]| >= 2
    ensures fresh(a) && a[..] == Flat(Components(va, 2, f32), 2)
  {
    a := new real[|va| * 2];
    for i := 0 to |va|
      invariant forall i', j | 0 <= i' < i && 0 <= j < 2 :: a[i' * 2 + j] == f32(va[i'][j])
    {
      a[i * 2 + 0] := f32(va[i][0]);
      a[i * 2 + 1] := f32(va[i][1]);
    }
    FlatIs(a[..], Components(va, 2, f32), 2);
  }

  /** `flattenA3toFloat32Array`: three components per element. */
  method FlattenA3ToFloat32(va: seq<seq<real>>, f32: real -> real) returns (a: array<real>)
    requires forall i | 0 <= i < |va| :: |va[i]| >= 3
    ensures fresh(a) && a[..] == Flat(Components(va, 3, f32), 3)
  {
    a := new real[|va| * 3];
    for i := 0 to |va|
      invariant forall i', j | 0 <= i' < i && 0 <= j < 3 :: a[i' * 3 + j] == f32(va[i'][j])
    {
      a[i * 3 + 0] := f32(va[i][0]);
      a[i * 3 + 1] := f32(va[i][1]);
      a[i * 3 + 2] := f32(va[i][2]);
    }
    FlatIs(a[..], Components(va, 3, f32), 3);
  }

  /** `flattenA3toUint32Array`: three indices per element, stored by `ToUint32`. */
  method FlattenA3ToUint32(ia: seq<seq<int>>) returns (a: array<uint32>)
    ensures fresh(a) && a[..] == Flat(IndexRows(ia), 3)
  {
    a := new uint32[|ia| * 3];
    for i := 0 to |ia|
      invariant forall i', j | 0 <= i' < i && 0 <= j < 3 :: a[i' * 3 + j] == IndexEntry(ia[i'], j)
    {
      a[i * 3 + 0] := IndexEntry(ia[i], 0);
      a[i * 3 + 1] := IndexEntry(ia[i], 1);
      a[i * 3 + 2] := IndexEntry(ia[i], 2);
    }
    FlatIs(a[..], IndexRows(ia), 3);
  }
}
