/**
 * src/util/array.ts: buffers of 2D and 3D points and of index triples
 * packed into typed arrays, slot `i * k + j` holding component `j` of
 * element `i`. They fill the same layout as the flatteners of `LibArray`.
 */
module UtilArray {
  import opened Vectors
  import opened Flattening

  /** `flattenV2toFloat32Array`: `x` and `y` of each point. */
  method FlattenV2ToFloat32(va: seq<Vec2>, f32: real -> real) returns (a: array<real>)
    ensures fresh(a) && a[..] == Flat(Components(Coords2(va), 2, f32), 2)
  {
    a := new real[|va| * 2];
    for i := 0 to |va|
      invariant forall i', j | 0 <= i' < i && 0 <= j < 2 :: a[i' * 2 + j] == f32(Coords2(va)[i'][j])
    {
      var v := va[i];
      a[i * 2 + 0] := f32(v.x);
      a[i * 2 + 1] := f32(v.y);
    }
    FlatIs(a[..], Components(Coords2(va), 2, f32), 2);
  }

  /** `flattenV3toFloat32Array`: `x`, `y` and `z` of each point. */
  method FlattenV3ToFloat32(va: seq<Vec3>, f32: real -> real) returns (a: array<real>)
    ensures fresh(a) && a[..] == Flat(Components(Coords3(va), 3, f32), 3)
  {
    a := new real[|va| * 3];
    for i := 0 to |va|
      invariant forall i', j | 0 <= i' < i && 0 <= j < 3 :: a[i' * 3 + j] == f32(Coords3(va)[i'][j])
    {
      var v := va[i];
      a[i * 3 + 0] := f32(v.x);
      a[i * 3 + 1] := f32(v.y);
      a[i * 3 + 2] := f32(v.z);
    }
    FlatIs(a[..], Components(Coords3(va), 3, f32), 3);
  }

  /** `flattenI3toUint32Array`: the first three indices of each triple, stored by `ToUint32`. */
  method FlattenI3ToUint32(ia: seq<seq<int>>) returns (a: array<uint32>)
    ensures fresh(a) && a[..] == Flat(IndexRows(ia), 3)
  {
    a := new uint32[|ia| * 3];
    for i := 0 to |ia|
      invariant forall i', j | 0 <= i' < i && 0 <= j < 3 :: a[i' * 3 + j] == IndexEntry(ia[i'], j)
    {
      var ii := ia[i];
      a[i * 3 + 0] := IndexEntry(ii, 0);
      a[i * 3 + 1] := IndexEntry(ii, 1);
      a[i * 3 + 2] := IndexEntry(ii, 2);
    }
    FlatIs(a[..], IndexRows(ia), 3);
  }
}
