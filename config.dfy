/**
 * The generator's parameter record (`TreeProperties`), the partial options a
 * caller passes (`TreeOptions`), the fixed defaults they are merged into, and
 * the floating-point routines the model takes as given.
 */
module Config {
  import opened Wrappers
  import opened Vectors

  /** `TreeProperties`. JavaScript numbers used as counts are `int` here. */
  datatype Params = Params(
    clumpMax: real,
    clumpMin: real,
    lengthFalloffFactor: real,
    lengthFalloffPower: real,
    branchFactor: real,
    radiusFalloffRate: real,
    climbRate: real,
    trunkKink: real,
    maxRadius: real,
    treeSteps: int,
    taperRate: real,
    twistRate: real,
    segments: int,
    levels: int,
    sweepAmount: real,
    initialBranchLength: real,
    trunkLength: real,
    dropAmount: real,
    growAmount: real,
    vMultiplier: real,
    twigScale: real,
    seed: real,
    rseed: real)

  /** `TreeOptions`: every field may be left out. */
  datatype Options = Options(
    clumpMax: Option<real>,
    clumpMin: Option<real>,
    lengthFalloffFactor: Option<real>,
    lengthFalloffPower: Option<real>,
    branchFactor: Option<real>,
    radiusFalloffRate: Option<real>,
    climbRate: Option<real>,
    trunkKink: Option<real>,
    maxRadius: Option<real>,
    treeSteps: Option<int>,
    taperRate: Option<real>,
    twistRate: Option<real>,
    segments: Option<int>,
    levels: Option<int>,
    sweepAmount: Option<real>,
    initialBranchLength: Option<real>,
    trunkLength: Option<real>,
    dropAmount: Option<real>,
    growAmount: Option<real>,
    vMultiplier: Option<real>,
    twigScale: Option<real>,
    seed: Option<real>)

  const NoOptions: Options := Options(None, None, None, None, None, None, None,
    None, None, None, None, None, None, None, None, None, None, None, None, None, None, None)

  /** The default record the constructor merges the options into. */
  const Defaults: Params := Params(
    clumpMax := 0.8,
    clumpMin := 0.5,
    lengthFalloffFactor := 0.85,
    lengthFalloffPower := 1.0,
    branchFactor := 2.0,
    radiusFalloffRate := 0.6,
    climbRate := 1.5,
    trunkKink := 0.0,
    maxRadius := 0.25,
    treeSteps := 2,
    taperRate := 0.95,
    twistRate := 13.0,
    segments := 6,
    levels := 3,
    sweepAmount := 0.0,
    initialBranchLength := 0.85,
    trunkLength := 2.5,
    dropAmount := 0.0,
    growAmount := 0.0,
    vMultiplier := 0.2,
    twigScale := 2.0,
    seed := 10.0,
    rseed := 10.0)

  /**
   * `Object.assign(defaults, options)` followed by `rseed = seed`: every
   * given option replaces its default, every missing one keeps it, and the
   * random state starts at the seed.
   */
  function Merge(o: Options): (p: Params)
    ensures p.clumpMax == o.clumpMax.GetOr(Defaults.clumpMax)
    ensures p.clumpMin == o.clumpMin.GetOr(Defaults.clumpMin)
    ensures p.lengthFalloffFactor == o.lengthFalloffFactor.GetOr(Defaults.lengthFalloffFactor)
    ensures p.lengthFalloffPower == o.lengthFalloffPower.GetOr(Defaults.lengthFalloffPower)
    ensures p.branchFactor == o.branchFactor.GetOr(Defaults.branchFactor)
    ensures p.radiusFalloffRate == o.radiusFalloffRate.GetOr(Defaults.radiusFalloffRate)
    ensures p.climbRate == o.climbRate.GetOr(Defaults.climbRate)
    ensures p.trunkKink == o.trunkKink.GetOr(Defaults.trunkKink)
    ensures p.maxRadius == o.maxRadius.GetOr(Defaults.maxRadius)
    ensures p.treeSteps == o.treeSteps.GetOr(Defaults.treeSteps)
    ensures p.taperRate == o.taperRate.GetOr(Defaults.taperRate)
    ensures p.twistRate == o.twistRate.GetOr(Defaults.twistRate)
    ensures p.segments == o.segments.GetOr(Defaults.segments)
    ensures p.levels == o.levels.GetOr(Defaults.levels)
    ensures p.sweepAmount == o.sweepAmount.GetOr(Defaults.sweepAmount)
    ensures p.initialBranchLength == o.initialBranchLength.GetOr(Defaults.initialBranchLength)
    ensures p.trunkLength == o.trunkLength.GetOr(Defaults.trunkLength)
    ensures p.dropAmount == o.dropAmount.GetOr(Defaults.dropAmount)
    ensures p.growAmount == o.growAmount.GetOr(Defaults.growAmount)
    ensures p.vMultiplier == o.vMultiplier.GetOr(Defaults.vMultiplier)
    ensures p.twigScale == o.twigScale.GetOr(Defaults.twigScale)
    ensures p.rseed == p.seed == o.seed.GetOr(Defaults.seed)
  {
    Params(
      clumpMax := o.clumpMax.GetOr(Defaults.clumpMax),
      clumpMin := o.clumpMin.GetOr(Defaults.clumpMin),
      lengthFalloffFactor := o.lengthFalloffFactor.GetOr(Defaults.lengthFalloffFactor),
      lengthFalloffPower := o.lengthFalloffPower.GetOr(Defaults.lengthFalloffPower),
      branchFactor := o.branchFactor.GetOr(Defaults.branchFactor),
      radiusFalloffRate := o.radiusFalloffRate.GetOr(Defaults.radiusFalloffRate),
      climbRate := o.climbRate.GetOr(Defaults.climbRate),
      trunkKink := o.trunkKink.GetOr(Defaults.trunkKink),
      maxRadius := o.maxRadius.GetOr(Defaults.maxRadius),
      treeSteps := o.treeSteps.GetOr(Defaults.treeSteps),
      taperRate := o.taperRate.GetOr(Defaults.taperRate),
      twistRate := o.twistRate.GetOr(Defaults.twistRate),
      segments := o.segments.GetOr(Defaults.segments),
      levels := o.levels.GetOr(Defaults.levels),
      sweepAmount := o.sweepAmount.GetOr(Defaults.sweepAmount),
      initialBranchLength := o.initialBranchLength.GetOr(Defaults.initialBranchLength),
      trunkLength := o.trunkLength.GetOr(Defaults.trunkLength),
      dropAmount := o.dropAmount.GetOr(Defaults.dropAmount),
      growAmount := o.growAmount.GetOr(Defaults.growAmount),
      vMultiplier := o.vMultiplier.GetOr(Defaults.vMultiplier),
      twigScale := o.twigScale.GetOr(Defaults.twigScale),
      seed := o.seed.GetOr(Defaults.seed),
      rseed := o.seed.GetOr(Defaults.seed))
  }

  /** Every field of `p` given as an option. */
  function OptionsOf(p: Params): Options {
    Options(
      Some(p.clumpMax), Some(p.clumpMin), Some(p.lengthFalloffFactor), Some(p.lengthFalloffPower),
      Some(p.branchFactor), Some(p.radiusFalloffRate), Some(p.climbRate), Some(p.trunkKink),
      Some(p.maxRadius), Some(p.treeSteps), Some(p.taperRate), Some(p.twistRate),
      Some(p.segments), Some(p.levels), Some(p.sweepAmount), Some(p.initialBranchLength),
      Some(p.trunkLength), Some(p.dropAmount), Some(p.growAmount), Some(p.vMultiplier),
      Some(p.twigScale), Some(p.seed))
  }

  /**
   * The defaults never show through a field that is given: passing every
   * field of a record whose random state equals its seed gives the record back.
   */
  lemma MergeAllGiven(p: Params)
    requires p.rseed == p.seed
    ensures Merge(OptionsOf(p)) == p
  {
  }

  /** With no options at all the merged record is the default one. */
  lemma MergeNoOptions()
    ensures Merge(NoOptions) == Defaults
  {
  }

  /**
   * The ring layout needs an even number of segments of at least two: with
   * an odd count the loop bounds `segments / 2` are fractional.
   */
  predicate EvenSegments(n: int) {
    n >= 2 && n % 2 == 0
  }

  /**
   * Input of the `split` direction computation: the parent's head (the origin
   * for the root), this head, this length, the random draw `r`, `level` and
   * `steps`.
   */
  datatype SplitFrame = SplitFrame(po: Vec3, head: Vec3, length: real, r: real, level: int, steps: int)

  /**
   * Everything the position of a fork-ring vertex depends on: the parent's
   * head (if any), this head, the two child heads, the clamped radius, and
   * whether the ring is scaled by `1 / taperRate` (a trunk fork) rather than
   * by `radiusFalloffRate`.
   */
  datatype ForkFrame = ForkFrame(
    parentHead: Option<Vec3>, head: Vec3, head0: Vec3, head1: Vec3,
    radius: real, trunkScale: bool)

  /**
   * The floating-point computations of one generation, taken as given:
   * - random: `|cos(n + n*n)|`;
   * - pow: `Math.pow`;
   * - normalize, length: `V3.normalize`, `V3.length`;
   * - divide: IEEE division where the divisor may be zero;
   * - splitHeads: the two child heads `split` computes from the clump,
   *   mirror, twist and bias terms;
   * - rootVertex(i, radius): vertex i of the base ring (an axis-angle
   *   rotation scaled by `radius / radiusFalloffRate`);
   * - forkVertex(frame, k): the k-th vertex a fork pushes;
   * - rootSegOffset(head, head0, head1, segments): `Math.round` of the
   *   base-ring twist, a natural number because the angle lies in [0, 2 pi].
   */
  datatype Numerics = Numerics(
    random: real -> real,
    pow: (real, real) -> real,
    normalize: Vec3 -> Vec3,
    length: Vec3 -> real,
    divide: (real, real) -> real,
    splitHeads: SplitFrame -> (Vec3, Vec3),
    rootVertex: (nat, real) -> Vec3,
    forkVertex: (ForkFrame, nat) -> Vec3,
    rootSegOffset: (Vec3, Vec3, Vec3, nat) -> nat)
}
