/**
 * Vertex-index layout of the rings `createForks` builds at a fork
 * (src/proctree/index.ts:169-214). A fork whose first new vertex is `s`
 * pushes `3 * (n / 2) - 1` vertices for `n` segments:
 * - vertices `s .. s + n - 1` form `ring0`, the full profile;
 * - vertex `s` (`linch0`) and vertex `s + n / 2` (`linch1`) are the two seams;
 * - the last `n / 2 - 1` vertices form the inner arc between the children.
 * `ring1` (towards child0) and `ring2` (towards child1) each take half of the
 * profile, both seams and the inner arc, the arc in opposite directions.
 */
module Rings {
  import opened Config

  function Half(n: nat): nat { n / 2 }

  /** Vertices a fork pushes. */
  function ForkSize(n: nat): nat
    requires EvenSegments(n)
  {
    3 * Half(n) - 1
  }

  /**
   * The position `x` lands on going round a ring of `n` entries, the
   * source's `x % n` (see `RingIndexIsMod`), written by repeated subtraction.
   */
  function RingIndex(x: nat, n: nat): (w: nat)
    requires 0 < n
    ensures w < n
    decreases x
  {
    if x < n then x else RingIndex(x - n, n)
  }

  /** `RingIndex` is the remainder of division by `n`. */
  lemma {:induction false} RingIndexIsMod(x: nat, n: nat)
    requires 0 < n
    ensures RingIndex(x, n) == x % n
    decreases x
  {
    if x >= n {
      RingIndexIsMod(x - n, n);
      var q, r := (x - n) / n, (x - n) % n;
      assert x == (q + 1) * n + r;
      ModUnique(x, n, q + 1, r);
    }
  }

  /** Quotient and remainder are the only ones with `x == q * n + r` and `0 <= r < n`. */
  lemma ModUnique(x: int, n: int, q: int, r: int)
    requires 0 < n && 0 <= r < n && x == q * n + r
    ensures x % n == r
  {
    var q', r' := x / n, x % n;
    assert x == q' * n + r';
    MulSub(q, q', n);
    if q' < q {
      MulAtLeast(q - q', n);
    } else if q' > q {
      MulSub(q', q, n);
      MulAtLeast(q' - q, n);
    }
  }

  /** Proof helper for `ModUnique`: multiplication distributes over a difference. */
  lemma MulSub(a: int, b: int, n: int)
    ensures (a - b) * n == a * n - b * n
  {
  }

  /** Proof helper for `ModUnique`: a positive multiple of `n` is at least `n`. */
  lemma MulAtLeast(d: int, n: int)
    requires 1 <= d && 0 < n
    ensures d * n >= n
  {
  }

  /** `[s, s + 1, ..., s + m - 1]`. */
  function Range(s: nat, m: nat): (r: seq<nat>)
    ensures |r| == m
  {
    seq(m, k requires 0 <= k < m => s + k)
  }

  /** `[top, top - 1, ..., top - m + 1]`. */
  function Countdown(top: nat, m: nat): (r: seq<nat>)
    requires m <= top + 1
    ensures |r| == m
  {
    seq(m, k requires 0 <= k < m => top - k)
  }

  /** A range grows by its next index. */
  lemma RangeSnoc(s: nat, m: nat)
    ensures Range(s, m + 1) == Range(s, m) + [s + m]
  {
  }

  /** A countdown grows by its next lower index. */
  lemma CountdownSnoc(top: nat, m: nat)
    requires m + 1 <= top + 1
    ensures Countdown(top, m + 1) == Countdown(top, m) + [top - m]
  {
  }

  /** `ring0` of a fork whose new vertices start at `s`: `linch0`, the near half, `linch1` and the far half, in push order. */
  function Ring0At(s: nat, n: nat): seq<nat>
    requires EvenSegments(n)
  {
    Range(s, n)
  }

  /** `ring1`: `linch1` and the far half, then `linch0` and the inner arc. */
  function Ring1At(s: nat, n: nat): seq<nat>
    requires EvenSegments(n)
  {
    Range(s + Half(n), Half(n)) + [s] + Range(s + n, Half(n) - 1)
  }

  /** `ring2`: `linch0` and the near half, then `linch1` and the inner arc in reverse. */
  function Ring2At(s: nat, n: nat): seq<nat>
    requires EvenSegments(n)
  {
    Range(s, Half(n)) + [s + Half(n)] + Countdown(s + ForkSize(n) - 1, Half(n) - 1)
  }

  function Elems(r: seq<nat>): set<nat> {
    set x | x in r
  }

  /** The indices `[lo, lo + m)`. */
  function Span(lo: nat, m: nat): set<nat> {
    Elems(Range(lo, m))
  }

  predicate Distinct(r: seq<nat>) {
    forall i, j :: 0 <= i < j < |r| ==> r[i] != r[j]
  }

  predicate Within(r: seq<nat>, lo: nat, hi: nat) {
    forall i :: 0 <= i < |r| ==> lo <= r[i] < hi
  }

  function Reverse(r: seq<nat>): (q: seq<nat>)
    ensures |q| == |r|
  {
    seq(|r|, k requires 0 <= k < |r| => r[|r| - 1 - k])
  }

  /**
   * Each ring holds exactly `n` distinct indices, all among the vertices
   * the fork pushes.
   */
  lemma RingsWellSized(s: nat, n: nat)
    requires EvenSegments(n)
    ensures |Ring0At(s, n)| == n && |Ring1At(s, n)| == n && |Ring2At(s, n)| == n
    ensures Within(Ring0At(s, n), s, s + ForkSize(n))
    ensures Within(Ring1At(s, n), s, s + ForkSize(n))
    ensures Within(Ring2At(s, n), s, s + ForkSize(n))
    ensures Distinct(Ring0At(s, n)) && Distinct(Ring1At(s, n)) && Distinct(Ring2At(s, n))
  {
    var h := Half(n);
    var r1, r2 := Ring1At(s, n), Ring2At(s, n);
    forall i | 0 <= i < n
      ensures h < i ==> r1[i] == s + n + (i - h - 1)
      ensures i < h ==> r1[i] == s + h + i
      ensures i == h ==> r1[i] == s
    {
    }
    forall i | 0 <= i < n
      ensures h < i ==> r2[i] == s + ForkSize(n) - 1 - (i - h - 1)
      ensures i < h ==> r2[i] == s + i
      ensures i == h ==> r2[i] == s + h
    {
    }
  }

  /** Membership in a range is a bounds test. */
  lemma InRange(x: nat, lo: nat, m: nat)
    ensures x in Range(lo, m) <==> lo <= x < lo + m
  {
    if lo <= x < lo + m {
      assert Range(lo, m)[x - lo] == x;
    }
  }

  lemma Ring1Members(s: nat, n: nat, x: nat)
    requires EvenSegments(n)
    ensures x in Ring1At(s, n) <==> x == s || s + Half(n) <= x < s + ForkSize(n)
  {
    var h := Half(n);
    InRange(x, s + h, h);
    InRange(x, s + n, h - 1);
    assert x in Ring1At(s, n) <==> x in Range(s + h, h) || x == s || x in Range(s + n, h - 1);
  }

  lemma Ring2Members(s: nat, n: nat, x: nat)
    requires EvenSegments(n)
    ensures x in Ring2At(s, n) <==> s <= x <= s + Half(n) || s + n <= x < s + ForkSize(n)
  {
    var h := Half(n);
    InRange(x, s, h);
    var cd := Countdown(s + ForkSize(n) - 1, h - 1);
    if s + n <= x < s + ForkSize(n) {
      assert cd[s + ForkSize(n) - 1 - x] == x;
    }
    assert x in Ring2At(s, n) <==> x in Range(s, h) || x == s + h || x in cd;
  }

  lemma SpanMembers(lo: nat, m: nat, x: nat)
    ensures x in Span(lo, m) <==> lo <= x < lo + m
  {
    InRange(x, lo, m);
  }

  /**
   * How the three rings cover the fork's vertices: `ring0` is the first `n`
   * of them; `ring1` and `ring2` together take all of them and share
   * exactly the two seams `linch0 = s`, `linch1 = s + n / 2` and the inner
   * arc of the last `n / 2 - 1` vertices.
   */
  lemma {:induction false} RingsCoverFork(s: nat, n: nat)
    requires EvenSegments(n)
    ensures Elems(Ring0At(s, n)) == Span(s, n)
    ensures Elems(Ring1At(s, n)) + Elems(Ring2At(s, n)) == Span(s, ForkSize(n))
    ensures Elems(Ring1At(s, n)) * Elems(Ring2At(s, n)) == {s, s + Half(n)} + Span(s + n, Half(n) - 1)
  {
    var h := Half(n);
    forall x: nat | x in Elems(Ring1At(s, n)) + Elems(Ring2At(s, n))
      ensures x in Span(s, ForkSize(n))
    {
      Ring1Members(s, n, x); Ring2Members(s, n, x); SpanMembers(s, ForkSize(n), x);
    }
    forall x: nat | x in Span(s, ForkSize(n))
      ensures x in Elems(Ring1At(s, n)) + Elems(Ring2At(s, n))
    {
      Ring1Members(s, n, x); Ring2Members(s, n, x); SpanMembers(s, ForkSize(n), x);
    }
    forall x: nat | x in Elems(Ring1At(s, n)) * Elems(Ring2At(s, n))
      ensures x in {s, s + h} + Span(s + n, h - 1)
    {
      Ring1Members(s, n, x); Ring2Members(s, n, x); SpanMembers(s + n, h - 1, x);
    }
    forall x: nat | x in {s, s + h} + Span(s + n, h - 1)
      ensures x in Elems(Ring1At(s, n)) * Elems(Ring2At(s, n))
    {
      Ring1Members(s, n, x); Ring2Members(s, n, x); SpanMembers(s + n, h - 1, x);
    }
    forall x: nat
      ensures x in Elems(Ring0At(s, n)) <==> x in Span(s, n)
    {
      InRange(x, s, n);
    }
  }

  /** `ring2` walks the inner arc in the opposite direction of `ring1`. */
  lemma InnerArcReversed(s: nat, n: nat)
    requires EvenSegments(n)
    ensures Ring1At(s, n)[Half(n) + 1..] == Reverse(Ring2At(s, n)[Half(n) + 1..])
  {
    var h := Half(n);
    var a, b := Ring1At(s, n)[h + 1..], Ring2At(s, n)[h + 1..];
    assert a == Range(s + n, h - 1);
    assert b == Countdown(s + ForkSize(n) - 1, h - 1);
  }
}
