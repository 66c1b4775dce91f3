/**
 * The branch skeleton of src/proctree/index.ts: the `Branch` record and
 * `Branch.split`, which grows the binary tree of branch segments.
 */
module Skeleton {
  import opened Wrappers
  import opened Vectors
  import opened Config

  /** The `type` field: `'trunk'` or `'branch'`. */
  datatype Kind = Trunk | Limb

  /**
   * A `Branch` record. The `parent` back-reference is not stored: every
   * operation that reads it receives the parent as an argument. Rings,
   * `root` and `end` are vertex indices, written by `createForks`.
   */
  datatype Branch = Branch(
    head: Vec3,
    root: seq<nat>,
    ring0: Option<seq<nat>>,
    ring1: Option<seq<nat>>,
    ring2: Option<seq<nat>>,
    child0: Option<Branch>,
    child1: Option<Branch>,
    kind: Kind,
    tangent: Vec3,
    length: real,
    radius: real,
    end: nat)

  /** `new Branch(head, parent)`: the root alone starts as a trunk. */
  function NewBranch(head: Vec3, parent: Option<Branch>): (b: Branch)
    ensures b.head == head && b.child0.None? && b.child1.None?
    ensures b.ring0.None? && b.ring1.None? && b.ring2.None? && b.root == []
    ensures b.kind == Trunk <==> parent.None?
  {
    Branch(head, [], None, None, None, None, None,
      if parent.None? then Trunk else Limb, Zero3, 1.0, 0.0, 0)
  }

  /** A fork in the sense of `createForks`: both children present. */
  predicate IsFork(b: Branch) {
    b.child0.Some? && b.child1.Some?
  }

  /**
   * The shape `split` guarantees: children come in pairs, and two siblings
   * are both forks or both leaves.
   */
  predicate WellFormed(b: Branch)
    decreases b
  {
    b.child0.Some? == b.child1.Some? &&
    (IsFork(b) ==>
      IsFork(b.child0.value) == IsFork(b.child1.value) &&
      WellFormed(b.child0.value) && WellFormed(b.child1.value))
  }

  /** No ring has been written anywhere in the subtree. */
  predicate Unskinned(b: Branch)
    decreases b
  {
    b.ring0.None? && b.ring1.None? && b.ring2.None? &&
    (b.child0.Some? ==> Unskinned(b.child0.value)) &&
    (b.child1.Some? ==> Unskinned(b.child1.value))
  }

  function Leaves(b: Branch): nat
    decreases b
  {
    if IsFork(b) then Leaves(b.child0.value) + Leaves(b.child1.value) else 1
  }

  function Forks(b: Branch): nat
    decreases b
  {
    if IsFork(b) then 1 + Forks(b.child0.value) + Forks(b.child1.value) else 0
  }

  /** Number of trunk-typed branches in the subtree. */
  function Trunks(b: Branch): nat
    decreases b
  {
    (if b.kind == Trunk then 1 else 0) +
    (if IsFork(b) then Trunks(b.child0.value) + Trunks(b.child1.value) else 0)
  }

  /** Length of the run of trunk branches down the `child0` chain. */
  function TrunkRun(b: Branch): nat
    decreases b
  {
    if b.kind != Trunk then 0
    else if b.child0.Some? then 1 + TrunkRun(b.child0.value)
    else 1
  }

  function Pow2(k: nat): nat {
    if k == 0 then 1 else 2 * Pow2(k - 1)
  }

  /** Leaf count of a split at `(level, steps)`. */
  function LeafTotal(level: int, steps: int): nat {
    if level > 0 then ((if steps > 0 then steps else 0) + 2) * Pow2(level) else 2
  }

  /** The random draw of `split` at a recursion position. */
  function Draw(p: Params, g: Numerics, level: int, l1: int, l2: int): real {
    g.random(((p.levels - level) * 10 + l1 * 5 + l2) as real + p.seed)
  }

  /** Head of a trunk continuation: a climb with a random lateral kink. */
  function TrunkHead(p: Params, head: Vec3, r: real): Vec3 {
    Add(head, Vec3((r - 0.5) * 2.0 * p.trunkKink, p.climbRate, (r - 0.5) * 2.0 * p.trunkKink))
  }

  /** `split` on the root also types it as the trunk. */
  function Self(b: Branch, parent: Option<Branch>): Branch {
    if parent.None? then b.(kind := Trunk) else b
  }

  /**
   * The two children `split` creates (lines 532-606): heads from the
   * direction computation, both of length `length^power * factor`; when the
   * recursion continues along the trunk (`level > 0 && steps > 0`) `child0`
   * instead climbs, is typed trunk and tapers by `taperRate`.
   */
  function Spawn(p: Params, g: Numerics, b: Branch, parent: Option<Branch>,
                 level: int, steps: int, l1: int, l2: int): (kids: (Branch, Branch))
    ensures kids.0.child0.None? && kids.0.child1.None? && kids.1.child0.None? && kids.1.child1.None?
    ensures kids.0.ring0.None? && kids.0.ring1.None? && kids.0.ring2.None?
    ensures kids.1.ring0.None? && kids.1.ring1.None? && kids.1.ring2.None?
    ensures kids.0.kind == Trunk <==> level > 0 && steps > 0
    ensures kids.1.kind == Limb
    ensures kids.0.length == if level > 0 && steps > 0 then b.length * p.taperRate
                             else g.pow(b.length, p.lengthFalloffPower) * p.lengthFalloffFactor
    ensures kids.1.length == g.pow(b.length, p.lengthFalloffPower) * p.lengthFalloffFactor
  {
    var me := Self(b, parent);
    var po := if parent.Some? then parent.value.head else Zero3;
    var r := Draw(p, g, level, l1, l2);
    var heads := g.splitHeads(SplitFrame(po, b.head, b.length, r, level, steps));
    var len := g.pow(b.length, p.lengthFalloffPower) * p.lengthFalloffFactor;
    var c0 := NewBranch(heads.0, Some(me)).(length := len);
    var c1 := NewBranch(heads.1, Some(me)).(length := len);
    if level > 0 && steps > 0 then
      (c0.(head := TrunkHead(p, b.head, r), kind := Trunk, length := b.length * p.taperRate), c1)
    else
      (c0, c1)
  }

  /**
   * `Branch.split(properties, level, steps, l1, l2)` applied to `b`, whose
   * parent is `parent`. Both children are always created; the recursion
   * continues into them only while `level > 0`: a trunk continuation keeps
   * `level` and spends one step, every other child goes one level down.
   * The second random draw `r2` of the source is never used and is omitted.
   */
  function Split(p: Params, g: Numerics, b: Branch, parent: Option<Branch>,
                 level: int, steps: int, l1: int, l2: int): (r: Branch)
    decreases level, steps
    ensures r.head == b.head && r.length == b.length && r.root == b.root
    ensures r.kind == if parent.None? then Trunk else b.kind
    ensures IsFork(r) && WellFormed(r)
    ensures IsFork(r.child0.value) <==> level > 0
    ensures IsFork(r.child1.value) <==> level > 0
    ensures b.ring0.None? && b.ring1.None? && b.ring2.None? ==> Unskinned(r)
  {
    var me := Self(b, parent);
    var kids := Spawn(p, g, b, parent, level, steps, l1, l2);
    if level > 0 then
      var k0 :=
        if steps > 0 then Split(p, g, kids.0, Some(me), level, steps - 1, l1 + 1, l2)
        else Split(p, g, kids.0, Some(me), level - 1, 0, l1 + 1, l2);
      var k1 := Split(p, g, kids.1, Some(me), level - 1, 0, l1, l2 + 1);
      me.(child0 := Some(k0), child1 := Some(k1))
    else
      me.(child0 := Some(kids.0), child1 := Some(kids.1))
  }

  /**
   * The root of a generation: head `(0, trunkLength, 0)`, length
   * `initialBranchLength`, split with `(levels, treeSteps, 1, 1)`.
   */
  function Grow(p: Params, g: Numerics): (r: Branch)
    ensures r.kind == Trunk && IsFork(r) && WellFormed(r) && Unskinned(r)
    ensures r.head == Vec3(0.0, p.trunkLength, 0.0) && r.length == p.initialBranchLength
  {
    var root := NewBranch(Vec3(0.0, p.trunkLength, 0.0), None).(length := p.initialBranchLength);
    Split(p, g, root, None, p.levels, p.treeSteps, 1, 1)
  }

  /** A generation's skeleton has `LeafTotal(levels, treeSteps)` leaves. */
  lemma GrowLeaves(p: Params, g: Numerics)
    ensures Leaves(Grow(p, g)) == LeafTotal(p.levels, p.treeSteps)
  {
    var root := NewBranch(Vec3(0.0, p.trunkLength, 0.0), None).(length := p.initialBranchLength);
    SplitLeaves(p, g, root, None, p.levels, p.treeSteps, 1, 1);
  }

  /** One step of the leaf-count recurrence. */
  lemma LeafTotalStep(level: int, steps: int)
    requires level > 0
    ensures steps > 0 ==> LeafTotal(level, steps) == LeafTotal(level, steps - 1) + LeafTotal(level - 1, 0)
    ensures steps <= 0 ==> LeafTotal(level, steps) == LeafTotal(level - 1, 0) + LeafTotal(level - 1, 0)
  {
    assert Pow2(level) == 2 * Pow2(level - 1);
  }

  /**
   * Leaf count of a split: two leaves when `level <= 0`, otherwise
   * `(steps + 2) * 2^level` (negative `steps` count as zero).
   */
  lemma {:induction false} SplitLeaves(p: Params, g: Numerics, b: Branch, parent: Option<Branch>,
                                       level: int, steps: int, l1: int, l2: int)
    ensures Leaves(Split(p, g, b, parent, level, steps, l1, l2)) == LeafTotal(level, steps)
    decreases level, steps
  {
    var me := Self(b, parent);
    var kids := Spawn(p, g, b, parent, level, steps, l1, l2);
    if level > 0 {
      LeafTotalStep(level, steps);
      if steps > 0 {
        SplitLeaves(p, g, kids.0, Some(me), level, steps - 1, l1 + 1, l2);
      } else {
        SplitLeaves(p, g, kids.0, Some(me), level - 1, 0, l1 + 1, l2);
      }
      SplitLeaves(p, g, kids.1, Some(me), level - 1, 0, l1, l2 + 1);
      var r := Split(p, g, b, parent, level, steps, l1, l2);
      assert r.child1 == Some(Split(p, g, kids.1, Some(me), level - 1, 0, l1, l2 + 1));
      assert Leaves(r) == Leaves(r.child0.value) + Leaves(r.child1.value);
    } else {
      var r := Split(p, g, b, parent, level, steps, l1, l2);
      assert r.child0 == Some(kids.0);
      assert Leaves(r) == Leaves(r.child0.value) + Leaves(r.child1.value);
    }
  }

  /** A split tree has one more leaf than forks. */
  lemma {:induction false} LeavesAreForksPlusOne(b: Branch)
    ensures Leaves(b) == Forks(b) + 1
    decreases b
  {
    if IsFork(b) {
      LeavesAreForksPlusOne(b.child0.value);
      LeavesAreForksPlusOne(b.child1.value);
    }
  }

  /**
   * The children of a split: `child0` is a trunk exactly when the recursion
   * continues along the trunk, then with length `length * taperRate`;
   * `child1` is always a branch, as is every other `child0`, with length
   * `length^power * factor`.
   */
  lemma SplitChildren(p: Params, g: Numerics, b: Branch, parent: Option<Branch>,
                      level: int, steps: int, l1: int, l2: int)
    ensures var r := Split(p, g, b, parent, level, steps, l1, l2);
      (r.child0.value.kind == Trunk <==> level > 0 && steps > 0) &&
      r.child1.value.kind == Limb &&
      r.child0.value.length ==
        (if level > 0 && steps > 0 then b.length * p.taperRate
         else g.pow(b.length, p.lengthFalloffPower) * p.lengthFalloffFactor) &&
      r.child1.value.length == g.pow(b.length, p.lengthFalloffPower) * p.lengthFalloffFactor
  {
    var me := Self(b, parent);
    var kids := Spawn(p, g, b, parent, level, steps, l1, l2);
    var r := Split(p, g, b, parent, level, steps, l1, l2);
    if level > 0 {
      if steps > 0 {
        assert r.child0 == Some(Split(p, g, kids.0, Some(me), level, steps - 1, l1 + 1, l2));
      } else {
        assert r.child0 == Some(Split(p, g, kids.0, Some(me), level - 1, 0, l1 + 1, l2));
      }
      assert r.child1 == Some(Split(p, g, kids.1, Some(me), level - 1, 0, l1, l2 + 1));
    } else {
      assert r.child0 == Some(kids.0) && r.child1 == Some(kids.1);
    }
  }

  /** A branch-typed, non-root split with no trunk steps left holds no trunk. */
  lemma {:induction false} SplitNoTrunk(p: Params, g: Numerics, b: Branch, parent: Option<Branch>,
                                        level: int, steps: int, l1: int, l2: int)
    requires parent.Some? && b.kind == Limb && steps <= 0
    ensures Trunks(Split(p, g, b, parent, level, steps, l1, l2)) == 0
    decreases level, steps
  {
    var me := Self(b, parent);
    var kids := Spawn(p, g, b, parent, level, steps, l1, l2);
    var r := Split(p, g, b, parent, level, steps, l1, l2);
    if level > 0 {
      SplitNoTrunk(p, g, kids.0, Some(me), level - 1, 0, l1 + 1, l2);
      SplitNoTrunk(p, g, kids.1, Some(me), level - 1, 0, l1, l2 + 1);
      assert r.child0 == Some(Split(p, g, kids.0, Some(me), level - 1, 0, l1 + 1, l2));
      assert r.child1 == Some(Split(p, g, kids.1, Some(me), level - 1, 0, l1, l2 + 1));
    } else {
      assert r.child0 == Some(kids.0) && r.child1 == Some(kids.1);
    }
  }

  /**
   * The trunk of a split that starts at a trunk branch: `1 + steps`
   * branches when `level > 0` (just the branch itself otherwise), all of
   * them on the `child0` chain, since the run of trunks down that chain
   * has the same length as the count of trunks anywhere.
   */
  lemma {:induction false} SplitTrunk(p: Params, g: Numerics, b: Branch, parent: Option<Branch>,
                                      level: int, steps: int, l1: int, l2: int)
    requires parent.None? || b.kind == Trunk
    ensures var r := Split(p, g, b, parent, level, steps, l1, l2);
      var n := 1 + (if level > 0 && steps > 0 then steps else 0);
      Trunks(r) == n && TrunkRun(r) == n
    decreases level, steps
  {
    var me := Self(b, parent);
    var kids := Spawn(p, g, b, parent, level, steps, l1, l2);
    var r := Split(p, g, b, parent, level, steps, l1, l2);
    if level > 0 {
      if steps > 0 {
        SplitTrunk(p, g, kids.0, Some(me), level, steps - 1, l1 + 1, l2);
        assert r.child0 == Some(Split(p, g, kids.0, Some(me), level, steps - 1, l1 + 1, l2));
      } else {
        SplitNoTrunk(p, g, kids.0, Some(me), level - 1, 0, l1 + 1, l2);
        assert r.child0 == Some(Split(p, g, kids.0, Some(me), level - 1, 0, l1 + 1, l2));
      }
      SplitNoTrunk(p, g, kids.1, Some(me), level - 1, 0, l1, l2 + 1);
      assert r.child1 == Some(Split(p, g, kids.1, Some(me), level - 1, 0, l1, l2 + 1));
    } else {
      assert r.child0 == Some(kids.0) && r.child1 == Some(kids.1);
    }
  }
}
