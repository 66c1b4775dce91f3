/**
 * Triangles of the generated meshes: `[number, number, number]` triples of
 * vertex indices in `faces` and `facesTwig`.
 */
module Mesh {
  datatype Face = Face(a: nat, b: nat, c: nat)

  /** The corners of a face in the order the source lists them. */
  function Corners(f: Face): (cs: seq<nat>)
    ensures |cs| == 3 && cs[0] == f.a && cs[1] == f.b && cs[2] == f.c
  {
    [f.a, f.b, f.c]
  }

  /** Every corner of every face is an index in `[lo, hi)`. */
  predicate FacesWithin(fs: seq<Face>, lo: nat, hi: nat) {
    forall i | 0 <= i < |fs| :: lo <= fs[i].a < hi && lo <= fs[i].b < hi && lo <= fs[i].c < hi
  }

  lemma FacesWithinAppend(fs: seq<Face>, gs: seq<Face>, lo: nat, hi: nat)
    requires FacesWithin(fs, lo, hi) && FacesWithin(gs, lo, hi)
    ensures FacesWithin(fs + gs, lo, hi)
  {
  }

  lemma FacesWithinWiden(fs: seq<Face>, lo: nat, hi: nat, lo': nat, hi': nat)
    requires FacesWithin(fs, lo, hi) && lo' <= lo && hi <= hi'
    ensures FacesWithin(fs, lo', hi')
  {
  }

  /**
   * A buffer after `buf[i] = front[i]` for every `i < |front|`, in order:
   * the first `|front|` entries replaced or appended, the rest kept.
   */
  function Overlay<T>(front: seq<T>, back: seq<T>): (r: seq<T>)
    ensures |r| == if |back| > |front| then |back| else |front|
    ensures forall i | 0 <= i < |front| :: r[i] == front[i]
    ensures forall i | |front| <= i < |back| :: r[i] == back[i]
  {
    front + (if |back| > |front| then back[|front|..] else [])
  }
}
