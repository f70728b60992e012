/** The needle particles of components/Foliage.tsx: 8000 points whose tree
    and scatter positions are sampled once into flat buffers, and the parts
    of the vertex shader that place and size them: the morph between the two
    shapes and the base point size. */
module Foliage {
  import opened Vectors
  import opened MathUtils
  import opened Store

  const Count: nat := 8000
  const TreeHeight: real := 12.0
  const TreeRadius: real := 4.5
  const TreeOffset: real := 1.0
  const ScatterRadius: real := 15.0

  /** The draws made for one particle, in call order: the cone sample, the
      sphere sample, then the particle's own random weight. */
  datatype ParticleDraws = ParticleDraws(cone: ConeDraws, sphere: SphereDraws, weight: real)
  {
    predicate Valid() {
      cone.Valid() && sphere.Valid() && Unit(weight)
    }
  }

  /** A particle's tree position: a cone sample of height 12, radius 4.5,
      offset 1. */
  function TreeSample(d: ParticleDraws, f: MathFunctions): Vec3 {
    ConePoint(TreeHeight, TreeRadius, TreeOffset, d.cone, f)
  }

  /** A particle's scatter position: a sample of the radius-15 ball. */
  function ScatterSample(d: ParticleDraws, f: MathFunctions): Vec3
    requires d.Valid() && f.Valid()
  {
    SpherePoint(ScatterRadius, d.sphere, f)
  }

  /** The useMemo loop: particle i gets slot i of the tree buffer (a cone
      sample of height 12, radius 4.5, offset 1), slot i of the scatter
      buffer (a sample of the radius-15 ball) and element i of the random
      buffer. */
  method BuildBuffers(draws: seq<ParticleDraws>, f: MathFunctions) returns (pos: array<real>, scat: array<real>, rnd: array<real>)
    requires |draws| == Count && f.Valid()
    requires forall i :: 0 <= i < |draws| ==> draws[i].Valid()
    ensures fresh(pos) && fresh(scat) && fresh(rnd)
    ensures pos.Length == 3 * Count && scat.Length == 3 * Count && rnd.Length == Count
    ensures forall i :: 0 <= i < Count ==>
              && Slot(pos[..], i) == TreeSample(draws[i], f)
              && Slot(scat[..], i) == ScatterSample(draws[i], f)
              && rnd[i] == draws[i].weight
  {
    pos := new real[3 * Count](_ => 0.0);
    scat := new real[3 * Count](_ => 0.0);
    rnd := new real[Count](_ => 0.0);
    for i := 0 to Count
      invariant forall m :: 0 <= m < i ==>
                  && Slot(pos[..], m) == TreeSample(draws[m], f)
                  && Slot(scat[..], m) == ScatterSample(draws[m], f)
                  && rnd[m] == draws[m].weight
    {
      SetSlot(pos, i, TreeSample(draws[i], f));
      SetSlot(scat, i, ScatterSample(draws[i], f));
      rnd[i] := draws[i].weight;
    }
  }

  /** Every tree slot lies in the cone's height range strictly inside its
      tapered radius, every scatter slot strictly inside the radius-15 ball,
      and every random weight in [0, 1). */
  lemma BuffersInShape(draws: seq<ParticleDraws>, f: MathFunctions, pos: seq<real>, scat: seq<real>, rnd: seq<real>, i: nat)
    requires |draws| == Count && f.Valid()
    requires forall m :: 0 <= m < |draws| ==> draws[m].Valid()
    requires |pos| == 3 * Count && |scat| == 3 * Count && |rnd| == Count
    requires i < Count
    requires Slot(pos, i) == TreeSample(draws[i], f)
    requires Slot(scat, i) == ScatterSample(draws[i], f)
    requires rnd[i] == draws[i].weight
    ensures var p := Slot(pos, i);
            && TreeOffset - TreeHeight / 2.0 <= p.y < TreeOffset + TreeHeight / 2.0
            && HorizontalNormSq(p) < TaperedRadius(TreeHeight, TreeRadius, p.y - TreeOffset + TreeHeight / 2.0)
                                     * TaperedRadius(TreeHeight, TreeRadius, p.y - TreeOffset + TreeHeight / 2.0)
    ensures NormSq(Slot(scat, i)) < ScatterRadius * ScatterRadius
    ensures Unit(rnd[i])
  {
    assert Slot(pos, i) == ConePoint(TreeHeight, TreeRadius, TreeOffset, draws[i].cone, f);
    assert Slot(scat, i) == SpherePoint(ScatterRadius, draws[i].sphere, f);
    ConeHeightRange(TreeHeight, TreeRadius, TreeOffset, draws[i].cone, f);
    ConeWithinTaper(TreeHeight, TreeRadius, TreeOffset, draws[i].cone, f);
    SphereWithinRadius(ScatterRadius, draws[i].sphere, f);
  }

  // ---------------------------------------------------------------------------
  // The morph

  /** The value uMorph is eased toward: 1 for the tree, 0 for the scatter. */
  function MorphTarget(mode: Mode): (r: real)
    ensures r == 1.0 <==> mode.TreeShape?
    ensures r == 0.0 <==> mode.Scattered?
  {
    if mode.TreeShape? then 1.0 else 0.0
  }

  /** GLSL mix(x, y, a) = x * (1 - a) + y * a on one coordinate. */
  function MixScalar(x: real, y: real, a: real): real {
    x * (1.0 - a) + y * a
  }

  /** The vertex shader's position before wind and twinkle:
      mix(aScatterPos, aTreePos, uMorph). */
  function Mix(scatter: Vec3, tree: Vec3, morph: real): Vec3 {
    Vec3(MixScalar(scatter.x, tree.x, morph), MixScalar(scatter.y, tree.y, morph), MixScalar(scatter.z, tree.z, morph))
  }

  /** A morph of 0 shows the scatter shape, a morph of 1 the tree. */
  lemma MixEndpoints(scatter: Vec3, tree: Vec3)
    ensures Mix(scatter, tree, 0.0) == scatter
    ensures Mix(scatter, tree, 1.0) == tree
  {
  }

  /** Once uMorph has reached the mode's target, every particle shows
      exactly the position of that mode's shape. */
  lemma SettledMorphShowsMode(scatter: Vec3, tree: Vec3, mode: Mode)
    ensures mode == TreeShape ==> Mix(scatter, tree, MorphTarget(mode)) == tree
    ensures mode == Scattered ==> Mix(scatter, tree, MorphTarget(mode)) == scatter
  {
    MixEndpoints(scatter, tree);
  }

  /** The distance still to go to the tree is (1 - a) of the whole way. */
  lemma MixRemaining(x: real, y: real, a: real)
    ensures y - MixScalar(x, y, a) == (1.0 - a) * (y - x)
    ensures MixScalar(x, y, a) - x == a * (y - x)
  {
  }

  /** For a in [0, 1] the mixed coordinate lies between the two ends. */
  lemma MixScalarBetween(x: real, y: real, a: real)
    requires 0.0 <= a <= 1.0
    ensures x <= y ==> x <= MixScalar(x, y, a) <= y
    ensures y <= x ==> y <= MixScalar(x, y, a) <= x
  {
    MixRemaining(x, y, a);
    if x <= y {
      FractionOf(a, y - x, (y - x) * a);
    } else {
      FractionOf(a, x - y, (x - y) * a);
    }
  }

  /** While uMorph is in [0, 1] every coordinate of the shown position lies
      between the particle's scatter and tree coordinates. */
  lemma MixBetween(scatter: Vec3, tree: Vec3, morph: real)
    requires 0.0 <= morph <= 1.0
    ensures var p := Mix(scatter, tree, morph);
            && Between(scatter.x, p.x, tree.x)
            && Between(scatter.y, p.y, tree.y)
            && Between(scatter.z, p.z, tree.z)
  {
    MixScalarBetween(scatter.x, tree.x, morph);
    MixScalarBetween(scatter.y, tree.y, morph);
    MixScalarBetween(scatter.z, tree.z, morph);
  }

  /** v lies in the closed interval spanned by a and b. */
  predicate Between(a: real, v: real, b: real) {
    (a <= v <= b) || (b <= v <= a)
  }

  // ---------------------------------------------------------------------------
  // Point size

  /** The size factor before perspective attenuation: 12 * aRandom + 4. */
  function PointSizeBase(weight: real): real {
    12.0 * weight + 4.0
  }

  /** A weight in [0, 1) gives a base size in [4, 16), and a heavier weight
      a strictly larger point. */
  lemma PointSizeRange(weight: real, heavier: real)
    requires Unit(weight)
    ensures 4.0 <= PointSizeBase(weight) < 16.0
    ensures weight < heavier ==> PointSizeBase(weight) < PointSizeBase(heavier)
  {
  }
}
