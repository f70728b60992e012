/** The ornament field of components/Ornaments.tsx: 150 items built from
    random draws, split once into baubles and gifts, whose current positions
    live in two stride-3 buffers that every frame damps toward a
    mode-dependent target. */
module Ornaments {
  import opened Vectors
  import opened MathUtils
  import opened Store

  datatype OrnamentType = BaubleLarge | BaubleSmall | GiftBox

  /** THREE.Euler: rotation angles about x, y and z. */
  datatype Euler = Euler(x: real, y: real, z: real)

  datatype Ornament = Ornament(
    kind: OrnamentType,
    treePos: Vec3,
    scatterPos: Vec3,
    rotation: Euler,
    scale: real,
    color: string)

  const Count: nat := 150
  const TreeHeight: real := 12.0
  const TreeRadius: real := 4.2
  const TreeOffset: real := 1.0
  const ScatterRadius: real := 18.0
  /** How far each tree position is pushed away from the axis. */
  const OutwardPush: real := 0.2
  const Palette: seq<string> := ["#FF007F", "#E0E0E0", "#FFB7C5", "#C0C0C0"]

  // ---------------------------------------------------------------------------
  // Construction of one item

  /** The draws made for one item, in call order.  sizeDraw is only consumed
      when giftDraw <= 0.8 (the second Math.random() sits behind a
      conditional). */
  datatype OrnamentDraws = OrnamentDraws(
    giftDraw: real,
    sizeDraw: real,
    cone: ConeDraws,
    sphere: SphereDraws,
    pitchDraw: real,
    yawDraw: real,
    colorDraw: real)
  {
    predicate Valid() {
      && Unit(giftDraw) && Unit(sizeDraw) && cone.Valid() && sphere.Valid()
      && Unit(pitchDraw) && Unit(yawDraw) && Unit(colorDraw)
    }
  }

  /** A gift box when the first draw exceeds 0.8, otherwise a large bauble
      when the second exceeds 0.5, otherwise a small one. */
  function SelectType(giftDraw: real, sizeDraw: real): (kind: OrnamentType)
    ensures kind == GiftBox <==> giftDraw > 0.8
    ensures kind == BaubleLarge <==> giftDraw <= 0.8 && sizeDraw > 0.5
    ensures kind == BaubleSmall <==> giftDraw <= 0.8 && sizeDraw <= 0.5
  {
    if giftDraw > 0.8 then GiftBox else if sizeDraw > 0.5 then BaubleLarge else BaubleSmall
  }

  function ScaleOf(kind: OrnamentType): real {
    match kind
    case BaubleSmall => 0.25
    case BaubleLarge => 0.4
    case GiftBox => 0.5
  }

  /** Small baubles are smaller than large ones, which are smaller than
      gift boxes. */
  lemma ScaleIncreasesWithSize()
    ensures 0.0 < ScaleOf(BaubleSmall) < ScaleOf(BaubleLarge) < ScaleOf(GiftBox)
  {
  }

  /** Math.floor(r * palette.length). */
  function PaletteIndex(r: real): (i: int)
    requires Unit(r)
    ensures 0 <= i < |Palette|
    ensures i as real <= r * |Palette| as real < i as real + 1.0
  {
    (r * |Palette| as real).Floor
  }

  /** treeP.add(new Vector3(x, 0, z).normalize().multiplyScalar(0.2)), where
      normalize() divides by (length || 1); written coordinate by coordinate,
      the added vector's y is 0. */
  function PushOutward(p: Vec3, f: MathFunctions): Vec3 {
    var length := f.sqrt(HorizontalNormSq(p));
    var divisor := if length == 0.0 then 1.0 else length;
    Vec3(p.x + p.x / divisor * OutwardPush, p.y, p.z + p.z / divisor * OutwardPush)
  }

  lemma SquaresNonNegative(x: real, z: real)
    ensures NormSq(Vec3(x, 0.0, z)) >= 0.0 && HorizontalNormSq(Vec3(x, 0.0, z)) == NormSq(Vec3(x, 0.0, z))
  {
    assert x * x >= 0.0 && z * z >= 0.0;
  }

  lemma SquareZero(x: real)
    requires x * x == 0.0
    ensures x == 0.0
  {
    var a := Abs(x);
    assert a * a == x * x;
    SquareMonotone(0.0, a);
  }

  /** Scaling both horizontal coordinates by k scales their norm by k. */
  lemma ScaledHorizontalNorm(x: real, z: real, l: real, k: real)
    requires x * x + z * z == l * l
    ensures (x * k) * (x * k) + (z * k) * (z * k) == (l * k) * (l * k)
  {
    assert (x * k) * (x * k) + (z * k) * (z * k) == (x * x + z * z) * (k * k);
    assert (l * k) * (l * k) == (l * l) * (k * k);
  }

  /** The push keeps y, leaves a point on the axis where it is, and moves
      any other point 0.2 further from the axis along its own horizontal
      direction. */
  lemma PushOutwardMovesAway(p: Vec3, f: MathFunctions)
    requires f.Valid()
    ensures PushOutward(p, f).y == p.y
    ensures HorizontalNormSq(p) == 0.0 ==> PushOutward(p, f) == p
    ensures HorizontalNormSq(p) != 0.0 ==>
              var l := f.sqrt(HorizontalNormSq(p));
              var q := PushOutward(p, f);
              && l > 0.0
              && q.x == p.x * (1.0 + OutwardPush / l)
              && q.z == p.z * (1.0 + OutwardPush / l)
              && HorizontalNormSq(q) == (l + OutwardPush) * (l + OutwardPush)
              && f.sqrt(HorizontalNormSq(q)) == l + OutwardPush
  {
    var s := HorizontalNormSq(p);
    SquaresNonNegative(p.x, p.z);
    if s == 0.0 {
      SquaresZero(p.x, p.z);
      SqrtUnique(f, 0.0, 0.0);
      PushOnAxis(p, f);
    } else {
      var l := f.sqrt(s);
      assert l >= 0.0 && l * l == s;
      PushOffAxis(p, f, l);
      SqrtUnique(f, HorizontalNormSq(PushOutward(p, f)), l + OutwardPush);
    }
  }

  /** On the axis the direction is the zero vector and length || 1 is 1. */
  lemma PushOnAxis(p: Vec3, f: MathFunctions)
    requires p.x == 0.0 && p.z == 0.0 && f.sqrt(0.0) == 0.0
    ensures PushOutward(p, f) == p
  {
    assert HorizontalNormSq(p) == 0.0;
  }

  lemma SquaresZero(x: real, z: real)
    requires x * x + z * z == 0.0
    ensures x == 0.0 && z == 0.0
  {
    assert x * x >= 0.0 && z * z >= 0.0;
    SquareZero(x);
    SquareZero(z);
  }

  /** Off the axis, with l the horizontal length, the push multiplies both
      horizontal coordinates by 1 + 0.2 / l, which makes the length l + 0.2. */
  lemma PushOffAxis(p: Vec3, f: MathFunctions, l: real)
    requires l == f.sqrt(HorizontalNormSq(p)) && l * l == HorizontalNormSq(p) && l >= 0.0
    requires HorizontalNormSq(p) != 0.0
    ensures var q := PushOutward(p, f);
            && l > 0.0
            && q.y == p.y
            && q.x == p.x * (1.0 + OutwardPush / l)
            && q.z == p.z * (1.0 + OutwardPush / l)
            && HorizontalNormSq(q) == (l + OutwardPush) * (l + OutwardPush)
  {
    assert l != 0.0;
    var q := PushOutward(p, f);
    var k := 1.0 + OutwardPush / l;
    assert q == Vec3(p.x + p.x / l * OutwardPush, p.y, p.z + p.z / l * OutwardPush);
    PushFactor(p.x, l, q.x);
    PushFactor(p.z, l, q.z);
    PushedLength(l, k);
    ScaledHorizontalNorm(p.x, p.z, l, k);
    assert HorizontalNormSq(q) == (p.x * k) * (p.x * k) + (p.z * k) * (p.z * k);
  }

  /** One pushed coordinate: c + c / l * 0.2 is c scaled by 1 + 0.2 / l. */
  lemma PushFactor(c: real, l: real, pushed: real)
    requires l > 0.0 && pushed == c + c / l * OutwardPush
    ensures pushed == c * (1.0 + OutwardPush / l)
  {
  }

  /** Scaling the length l by 1 + 0.2 / l adds 0.2 to it. */
  lemma PushedLength(l: real, k: real)
    requires l > 0.0 && k == 1.0 + OutwardPush / l
    ensures l * k == l + OutwardPush
  {
  }

  /** The tree position: a cone sample (height 12, radius 4.2, offset 1)
      pushed 0.2 away from the axis. */
  function TreePosition(c: ConeDraws, f: MathFunctions): Vec3
    requires c.Valid() && f.Valid()
  {
    PushOutward(ConePoint(TreeHeight, TreeRadius, TreeOffset, c, f), f)
  }

  /** The scatter position: a sample of the radius-18 ball. */
  function ScatterPosition(s: SphereDraws, f: MathFunctions): Vec3
    requires s.Valid() && f.Valid()
  {
    SpherePoint(ScatterRadius, s, f)
  }

  function Rotation(pitchDraw: real, yawDraw: real): Euler {
    Euler(pitchDraw * Pi, yawDraw * Pi, 0.0)
  }

  function MakeOrnament(d: OrnamentDraws, f: MathFunctions): Ornament
    requires d.Valid() && f.Valid()
  {
    var kind := SelectType(d.giftDraw, d.sizeDraw);
    Ornament(
      kind,
      TreePosition(d.cone, f),
      ScatterPosition(d.sphere, f),
      Rotation(d.pitchDraw, d.yawDraw),
      ScaleOf(kind),
      Palette[PaletteIndex(d.colorDraw)])
  }

  /** The rotation angles about x and y are in [0, pi) and there is none
      about z. */
  lemma RotationRange(pitchDraw: real, yawDraw: real)
    requires Unit(pitchDraw) && Unit(yawDraw)
    ensures var e := Rotation(pitchDraw, yawDraw);
            0.0 <= e.x < Pi && 0.0 <= e.y < Pi && e.z == 0.0
  {
    UnitScale(pitchDraw, Pi, pitchDraw * Pi);
    UnitScale(yawDraw, Pi, yawDraw * Pi);
  }

  /** The tree position keeps the cone sample's height, which lies in
      [1 - 6, 1 + 6). */
  lemma TreePositionHeight(c: ConeDraws, f: MathFunctions)
    requires c.Valid() && f.Valid()
    ensures TreeOffset - TreeHeight / 2.0 <= TreePosition(c, f).y < TreeOffset + TreeHeight / 2.0
  {
    var q := ConePoint(TreeHeight, TreeRadius, TreeOffset, c, f);
    ConeHeightRange(TreeHeight, TreeRadius, TreeOffset, c, f);
    PushOutwardMovesAway(q, f);
    assert TreePosition(c, f) == PushOutward(q, f);
  }

  /** The cone's radius at world height y. */
  function TreeRadiusAt(y: real): real {
    TaperedRadius(TreeHeight, TreeRadius, y - TreeOffset + TreeHeight / 2.0)
  }

  /** The tree position lies within 0.2 of the cone's surface: its distance
      from the axis is below the tapered radius at its height plus the
      push. */
  lemma TreePositionNearCone(c: ConeDraws, f: MathFunctions)
    requires c.Valid() && f.Valid()
    ensures HorizontalNormSq(TreePosition(c, f))
            < (TreeRadiusAt(TreePosition(c, f).y) + OutwardPush) * (TreeRadiusAt(TreePosition(c, f).y) + OutwardPush)
  {
    var q := ConePoint(TreeHeight, TreeRadius, TreeOffset, c, f);
    assert TreePosition(c, f) == PushOutward(q, f);
    ConeSampleInsideTree(c, f);
    PushStaysNear(q, TreeRadiusAt(q.y), f);
  }

  lemma ConeSampleInsideTree(c: ConeDraws, f: MathFunctions)
    requires c.Valid() && f.Valid()
    ensures var q := ConePoint(TreeHeight, TreeRadius, TreeOffset, c, f);
            0.0 < TreeRadiusAt(q.y) && HorizontalNormSq(q) < TreeRadiusAt(q.y) * TreeRadiusAt(q.y)
  {
    ConeWithinTaper(TreeHeight, TreeRadius, TreeOffset, c, f);
  }

  /** A point strictly inside the horizontal circle of radius r ends up
      strictly inside the circle of radius r + 0.2 once pushed. */
  lemma PushStaysNear(q: Vec3, r: real, f: MathFunctions)
    requires f.Valid() && r > 0.0 && HorizontalNormSq(q) < r * r
    ensures PushOutward(q, f).y == q.y
    ensures HorizontalNormSq(PushOutward(q, f)) < (r + OutwardPush) * (r + OutwardPush)
  {
    PushOutwardMovesAway(q, f);
    var s := HorizontalNormSq(q);
    if s == 0.0 {
      MulPositive(r + OutwardPush, r + OutwardPush);
    } else {
      SquaresNonNegative(q.x, q.z);
      var l := f.sqrt(s);
      BelowRadius(l, r, s);
      SquareMonotone(l + OutwardPush, r + OutwardPush);
    }
  }

  lemma BelowRadius(l: real, r: real, s: real)
    requires l >= 0.0 && r > 0.0 && l * l == s && s < r * r
    ensures l < r
  {
    SquareMonotone(r, l);
  }

  /** The scatter position is inside the radius-18 ball. */
  lemma ScatterPositionInBall(s: SphereDraws, f: MathFunctions)
    requires s.Valid() && f.Valid()
    ensures NormSq(ScatterPosition(s, f)) < ScatterRadius * ScatterRadius
  {
    SphereWithinRadius(ScatterRadius, s, f);
  }

  /** What one constructed item looks like: its type and scale follow the
      first two draws, its colour is from the palette, and its rotation,
      tree position and scatter position are the samples described above. */
  lemma OrnamentShape(d: OrnamentDraws, f: MathFunctions)
    requires d.Valid() && f.Valid()
    ensures var o := MakeOrnament(d, f);
            && (o.kind == GiftBox <==> d.giftDraw > 0.8)
            && (o.kind == BaubleLarge <==> d.giftDraw <= 0.8 && d.sizeDraw > 0.5)
            && o.scale == ScaleOf(o.kind)
            && o.color in Palette
            && o.rotation == Rotation(d.pitchDraw, d.yawDraw)
            && o.treePos == TreePosition(d.cone, f)
            && o.scatterPos == ScatterPosition(d.sphere, f)
  {
  }

  /** The useMemo construction loop: one item per draw record, pushed in
      order. */
  method BuildOrnaments(draws: seq<OrnamentDraws>, f: MathFunctions) returns (items: seq<Ornament>)
    requires |draws| == Count && f.Valid()
    requires forall i :: 0 <= i < |draws| ==> draws[i].Valid()
    ensures |items| == Count
    ensures forall i :: 0 <= i < Count ==> items[i] == MakeOrnament(draws[i], f)
  {
    items := [];
    for i := 0 to Count
      invariant |items| == i
      invariant forall m :: 0 <= m < i ==> items[m] == MakeOrnament(draws[m], f)
    {
      items := items + [MakeOrnament(draws[i], f)];
    }
  }

  // ---------------------------------------------------------------------------
  // The baubles / gifts partition

  /** The two instanced meshes: everything that is not a gift box is drawn as
      a bauble. */
  datatype Group = BaubleGroup | GiftGroup

  function GroupOf(kind: OrnamentType): (g: Group)
    ensures g == GiftGroup <==> kind == GiftBox
  {
    if kind == GiftBox then GiftGroup else BaubleGroup
  }

  /** data.filter(...) for one group: the items of that group, in their
      original order. */
  function Select(items: seq<Ornament>, g: Group): (r: seq<Ornament>)
    ensures |r| <= |items|
    ensures forall o :: o in r ==> o in items && GroupOf(o.kind) == g
  {
    if items == [] then []
    else (if GroupOf(items[0].kind) == g then [items[0]] else []) + Select(items[1..], g)
  }

  function Baubles(items: seq<Ornament>): seq<Ornament> {
    Select(items, BaubleGroup)
  }

  function Gifts(items: seq<Ornament>): seq<Ornament> {
    Select(items, GiftGroup)
  }

  /** Filtering distributes over concatenation, so each group keeps the
      items' original relative order. */
  lemma {:induction false} SelectAppend(a: seq<Ornament>, b: seq<Ornament>, g: Group)
    ensures Select(a + b, g) == Select(a, g) + Select(b, g)
  {
    if a != [] {
      assert (a + b)[0] == a[0];
      assert (a + b)[1..] == a[1..] + b;
      SelectAppend(a[1..], b, g);
    } else {
      assert a + b == b;
    }
  }

  /** Together the groups hold every item exactly once: the sizes add up
      and the multisets add up. */
  lemma {:induction false} PartitionComplete(items: seq<Ornament>)
    ensures |Baubles(items)| + |Gifts(items)| == |items|
    ensures multiset(Baubles(items)) + multiset(Gifts(items)) == multiset(items)
  {
    if items != [] {
      PartitionComplete(items[1..]);
      assert items == [items[0]] + items[1..];
    }
  }

  /** An item is in the gifts exactly when it is a gift box and in the
      baubles exactly when it is not, so it is in exactly one group. */
  lemma PartitionMembership(items: seq<Ornament>, o: Ornament)
    requires o in items
    ensures o in Gifts(items) <==> o.kind == GiftBox
    ensures o in Baubles(items) <==> o.kind != GiftBox
  {
    PartitionComplete(items);
    assert o in multiset(items);
  }

  /** The number of draw records whose first draw exceeds 0.8. */
  function CountGiftDraws(draws: seq<OrnamentDraws>): nat {
    if draws == [] then 0
    else (if draws[0].giftDraw > 0.8 then 1 else 0) + CountGiftDraws(draws[1..])
  }

  /** The gift mesh gets exactly one instance per draw record whose first
      draw exceeded 0.8, and the bauble mesh all the others. */
  lemma {:induction false} GroupSizesFollowDraws(draws: seq<OrnamentDraws>, items: seq<Ornament>, f: MathFunctions)
    requires f.Valid() && |items| == |draws|
    requires forall i :: 0 <= i < |draws| ==> draws[i].Valid() && items[i] == MakeOrnament(draws[i], f)
    ensures |Gifts(items)| == CountGiftDraws(draws)
    ensures |Baubles(items)| == |draws| - CountGiftDraws(draws)
  {
    if draws != [] {
      GroupSizesFollowDraws(draws[1..], items[1..], f);
      assert items[0].kind == SelectType(draws[0].giftDraw, draws[0].sizeDraw);
    }
    PartitionComplete(items);
  }

  // ---------------------------------------------------------------------------
  // Per-frame targets (the second useFrame)

  /** The position item i of group g heads for: its tree position in
      TREE_SHAPE, otherwise its scatter position plus a slow sway (baubles
      sway on all three axes by up to 0.5, gifts only along x by up to
      0.2). */
  function Target(g: Group, item: Ornament, i: nat, mode: Mode, time: real, f: MathFunctions): Vec3 {
    if mode == TreeShape then item.treePos
    else
      var s := item.scatterPos;
      match g
      case BaubleGroup =>
        Vec3(s.x + f.sin(time * 0.5 + i as real) * 0.5,
             s.y + f.cos(time * 0.3 + i as real) * 0.5,
             s.z + f.sin(time * 0.2 + i as real) * 0.5)
      case GiftGroup =>
        Vec3(s.x + f.sin(time * 0.2 + i as real) * 0.2, s.y, s.z)
  }

  /** In TREE_SHAPE every item heads exactly for its tree position. */
  lemma TreeTargetIsTreePosition(g: Group, item: Ornament, i: nat, time: real, f: MathFunctions)
    ensures Target(g, item, i, TreeShape, time, f) == item.treePos
  {
  }

  /** In SCATTERED a bauble's target is within 0.5 of its scatter position
      on every axis. */
  lemma BaubleScatterTargetNear(item: Ornament, i: nat, time: real, f: MathFunctions)
    requires f.Valid()
    ensures var t := Target(BaubleGroup, item, i, Scattered, time, f);
            && Abs(t.x - item.scatterPos.x) <= 0.5
            && Abs(t.y - item.scatterPos.y) <= 0.5
            && Abs(t.z - item.scatterPos.z) <= 0.5
  {
    SinCosBounded(f, time * 0.5 + i as real);
    SinCosBounded(f, time * 0.3 + i as real);
    SinCosBounded(f, time * 0.2 + i as real);
  }

  /** In SCATTERED a gift's target shares its scatter position's y and z and
      is within 0.2 of it along x. */
  lemma GiftScatterTargetNear(item: Ornament, i: nat, time: real, f: MathFunctions)
    requires f.Valid()
    ensures var t := Target(GiftGroup, item, i, Scattered, time, f);
            && t.y == item.scatterPos.y
            && t.z == item.scatterPos.z
            && Abs(t.x - item.scatterPos.x) <= 0.2
  {
    SinCosBounded(f, time * 0.2 + i as real);
  }

  // ---------------------------------------------------------------------------
  // Damping

  /** Baubles move 2.5 * delta of the way per frame, gifts 2.0 * delta. */
  function Rate(g: Group): real {
    match g
    case BaubleGroup => 2.5
    case GiftGroup => 2.0
  }

  /** The longest frame for which Rate(g) * delta is still at most 1. */
  function MaxSmoothDelta(g: Group): real {
    match g
    case BaubleGroup => 0.4
    case GiftGroup => 0.5
  }

  /** p += (t - p) * k. */
  function Damp(p: real, t: real, k: real): real {
    p + (t - p) * k
  }

  function DampVec(p: Vec3, t: Vec3, k: real): Vec3 {
    Vec3(Damp(p.x, t.x, k), Damp(p.y, t.y, k), Damp(p.z, t.z, k))
  }

  /** A step leaves (1 - k) of the remaining distance, whatever k is. */
  lemma DampRemaining(p: real, t: real, k: real)
    ensures t - Damp(p, t, k) == (1.0 - k) * (t - p)
  {
  }

  /** With 0 <= k <= 1 a step lands between the old value and the target. */
  lemma DampBetween(p: real, t: real, k: real)
    requires 0.0 <= k <= 1.0
    ensures p <= t ==> p <= Damp(p, t, k) <= t
    ensures t <= p ==> t <= Damp(p, t, k) <= p
  {
    if p <= t {
      FractionOf(k, t - p, (t - p) * k);
    } else {
      FractionOf(k, p - t, (p - t) * k);
      assert (t - p) * k == -((p - t) * k);
    }
  }

  /** With k > 1 a step jumps past the target (the code does not clamp k). */
  lemma DampOvershoots(p: real, t: real, k: real)
    requires k > 1.0
    ensures p < t ==> Damp(p, t, k) > t
    ensures t < p ==> Damp(p, t, k) < t
  {
    if p < t {
      MulLess(1.0, k, t - p);
      assert (t - p) * k > t - p;
    } else if t < p {
      MulLess(1.0, k, p - t);
      assert (p - t) * k > p - t;
    }
  }

  /** A frame of at most MaxSmoothDelta(g) never overshoots: the step lands
      between the old value and the target. A longer one overshoots any item
      not already at its target. */
  lemma FrameLengthDecidesOvershoot(g: Group, p: real, t: real, delta: real)
    ensures 0.0 <= delta <= MaxSmoothDelta(g) ==> 0.0 <= Rate(g) * delta <= 1.0
    ensures delta > MaxSmoothDelta(g) ==> Rate(g) * delta > 1.0
    ensures 0.0 <= delta <= MaxSmoothDelta(g) ==>
              && (p <= t ==> p <= Damp(p, t, Rate(g) * delta) <= t)
              && (t <= p ==> t <= Damp(p, t, Rate(g) * delta) <= p)
    ensures delta > MaxSmoothDelta(g) ==>
              && (p < t ==> Damp(p, t, Rate(g) * delta) > t)
              && (t < p ==> Damp(p, t, Rate(g) * delta) < t)
  {
    var k := Rate(g) * delta;
    if 0.0 <= delta <= MaxSmoothDelta(g) {
      assert 0.0 <= k <= 1.0;
      DampBetween(p, t, k);
    } else if delta > MaxSmoothDelta(g) {
      assert k > 1.0;
      DampOvershoots(p, t, k);
    }
  }

  /** A zero-length frame leaves a position where it is. */
  lemma DampZero(p: Vec3, t: Vec3)
    ensures DampVec(p, t, 0.0) == p
  {
  }

  /** n frames of the same rate toward a fixed target. */
  function DampSteps(p: real, t: real, k: real, n: nat): real {
    if n == 0 then p else Damp(DampSteps(p, t, k, n - 1), t, k)
  }

  function Pow(b: real, n: nat): real {
    if n == 0 then 1.0 else b * Pow(b, n - 1)
  }

  /** After n frames the remaining distance is (1 - k)^n of the initial one. */
  lemma {:induction false} DampStepsRemaining(p: real, t: real, k: real, n: nat)
    ensures t - DampSteps(p, t, k, n) == Pow(1.0 - k, n) * (t - p)
  {
    if n > 0 {
      var prev := DampSteps(p, t, k, n - 1);
      DampStepsRemaining(p, t, k, n - 1);
      DampRemaining(prev, t, k);
      var b, e := 1.0 - k, t - p;
      var q := Pow(b, n - 1);
      assert t - prev == q * e;
      assert t - DampSteps(p, t, k, n) == b * (q * e);
      assert b * (q * e) == (b * q) * e;
    }
  }

  /** n frames toward a fixed target, on each coordinate. */
  function DampStepsVec(p: Vec3, t: Vec3, k: real, n: nat): Vec3 {
    Vec3(DampSteps(p.x, t.x, k, n), DampSteps(p.y, t.y, k, n), DampSteps(p.z, t.z, k, n))
  }

  /** After n frames each coordinate's remaining distance is (1 - k)^n of
      its initial one. */
  lemma DampStepsVecRemaining(p: Vec3, t: Vec3, k: real, n: nat)
    ensures var q := DampStepsVec(p, t, k, n);
            && t.x - q.x == Pow(1.0 - k, n) * (t.x - p.x)
            && t.y - q.y == Pow(1.0 - k, n) * (t.y - p.y)
            && t.z - q.z == Pow(1.0 - k, n) * (t.z - p.z)
  {
    DampStepsRemaining(p.x, t.x, k, n);
    DampStepsRemaining(p.y, t.y, k, n);
    DampStepsRemaining(p.z, t.z, k, n);
  }

  /** With 0 <= k <= 1 repeated frames approach the target monotonically and
      never pass it. */
  lemma {:induction false} DampStepsMonotone(p: real, t: real, k: real, n: nat)
    requires 0.0 <= k <= 1.0
    ensures p <= t ==> DampSteps(p, t, k, n) <= DampSteps(p, t, k, n + 1) <= t
    ensures t <= p ==> t <= DampSteps(p, t, k, n + 1) <= DampSteps(p, t, k, n)
  {
    if n > 0 {
      DampStepsMonotone(p, t, k, n - 1);
    }
    DampBetween(DampSteps(p, t, k, n), t, k);
  }

  /** One group's forEach: item i's three slots move toward its target at
      the group's rate; iteration i touches only slots 3i..3i+2. */
  method AdvanceGroup(buf: array<real>, items: seq<Ornament>, g: Group, mode: Mode, time: real, delta: real, f: MathFunctions)
    requires buf.Length == 3 * |items|
    modifies buf
    ensures forall i :: 0 <= i < |items| ==>
              Slot(buf[..], i) == DampVec(Slot(old(buf[..]), i), Target(g, items[i], i, mode, time, f), Rate(g) * delta)
  {
    ghost var before := buf[..];
    var i := 0;
    while i < |items|
      invariant 0 <= i <= |items|
      invariant forall m :: 0 <= m < i ==>
                  Slot(buf[..], m) == DampVec(Slot(before, m), Target(g, items[m], m, mode, time, f), Rate(g) * delta)
      invariant forall m :: i <= m < |items| ==> Slot(buf[..], m) == Slot(before, m)
    {
      var t := Target(g, items[i], i, mode, time, f);
      var smooth := Rate(g) * delta;
      SetSlot(buf, i, DampVec(Slot(buf[..], i), t, smooth));
      i := i + 1;
    }
  }

  // ---------------------------------------------------------------------------
  // The component's state

  class OrnamentField {
    const baubles: seq<Ornament>
    const gifts: seq<Ornament>
    /** Current positions, stride 3, one slot per bauble / gift. */
    const baublePositions: array<real>
    const giftPositions: array<real>

    ghost predicate Valid() {
      && baublePositions.Length == 3 * |baubles|
      && giftPositions.Length == 3 * |gifts|
      && baublePositions != giftPositions
    }

    /** The two filters and the two zero-filled Float32Arrays. */
    constructor (items: seq<Ornament>)
      ensures Valid() && fresh(baublePositions) && fresh(giftPositions)
      ensures baubles == Baubles(items) && gifts == Gifts(items)
      ensures forall j :: 0 <= j < baublePositions.Length ==> baublePositions[j] == 0.0
      ensures forall j :: 0 <= j < giftPositions.Length ==> giftPositions[j] == 0.0
    {
      baubles := Baubles(items);
      gifts := Gifts(items);
      baublePositions := new real[3 * |Baubles(items)|](_ => 0.0);
      giftPositions := new real[3 * |Gifts(items)|](_ => 0.0);
    }

    /** The layout effect: every slot starts at its item's tree position. */
    method InitPositions()
      requires Valid()
      modifies baublePositions, giftPositions
      ensures forall i :: 0 <= i < |baubles| ==> Slot(baublePositions[..], i) == baubles[i].treePos
      ensures forall i :: 0 <= i < |gifts| ==> Slot(giftPositions[..], i) == gifts[i].treePos
    {
      WriteTreePositions(baublePositions, baubles);
      WriteTreePositions(giftPositions, gifts);
    }

    /** One frame: each mounted group's positions move toward their targets;
        a zero-length frame changes nothing. */
    method Advance(mode: Mode, time: real, delta: real, baublesMounted: bool, giftsMounted: bool, f: MathFunctions)
      requires Valid()
      modifies baublePositions, giftPositions
      ensures baublesMounted ==> forall i :: 0 <= i < |baubles| ==>
                Slot(baublePositions[..], i)
                == DampVec(Slot(old(baublePositions[..]), i), Target(BaubleGroup, baubles[i], i, mode, time, f), Rate(BaubleGroup) * delta)
      ensures giftsMounted ==> forall i :: 0 <= i < |gifts| ==>
                Slot(giftPositions[..], i)
                == DampVec(Slot(old(giftPositions[..]), i), Target(GiftGroup, gifts[i], i, mode, time, f), Rate(GiftGroup) * delta)
      ensures !baublesMounted || delta == 0.0 ==> baublePositions[..] == old(baublePositions[..])
      ensures !giftsMounted || delta == 0.0 ==> giftPositions[..] == old(giftPositions[..])
    {
      if baublesMounted {
        AdvanceGroup(baublePositions, baubles, BaubleGroup, mode, time, delta, f);
        if delta == 0.0 {
          SlotsDetermine(baublePositions[..], old(baublePositions[..]), |baubles|);
        }
      }
      if giftsMounted {
        AdvanceGroup(giftPositions, gifts, GiftGroup, mode, time, delta, f);
        if delta == 0.0 {
          SlotsDetermine(giftPositions[..], old(giftPositions[..]), |gifts|);
        }
      }
    }

    /** Consecutive frames in TREE_SHAPE with both groups mounted and the
        same frame length: the tree target does not depend on the clock, so
        after n frames every slot is n damping steps from where it started
        toward its item's tree position. */
    method AdvanceTreeFrames(times: seq<real>, delta: real, f: MathFunctions)
      requires Valid()
      modifies baublePositions, giftPositions
      ensures forall i :: 0 <= i < |baubles| ==>
                Slot(baublePositions[..], i)
                == DampStepsVec(Slot(old(baublePositions[..]), i), baubles[i].treePos, Rate(BaubleGroup) * delta, |times|)
      ensures forall i :: 0 <= i < |gifts| ==>
                Slot(giftPositions[..], i)
                == DampStepsVec(Slot(old(giftPositions[..]), i), gifts[i].treePos, Rate(GiftGroup) * delta, |times|)
    {
      ghost var baubles0, gifts0 := baublePositions[..], giftPositions[..];
      for n := 0 to |times|
        invariant forall i :: 0 <= i < |baubles| ==>
                    Slot(baublePositions[..], i) == DampStepsVec(Slot(baubles0, i), baubles[i].treePos, Rate(BaubleGroup) * delta, n)
        invariant forall i :: 0 <= i < |gifts| ==>
                    Slot(giftPositions[..], i) == DampStepsVec(Slot(gifts0, i), gifts[i].treePos, Rate(GiftGroup) * delta, n)
      {
        Advance(TreeShape, times[n], delta, true, true, f);
      }
    }
  }

  /** Writes each item's tree position into its slot. */
  method WriteTreePositions(buf: array<real>, items: seq<Ornament>)
    requires buf.Length == 3 * |items|
    modifies buf
    ensures forall i :: 0 <= i < |items| ==> Slot(buf[..], i) == items[i].treePos
  {
    for i := 0 to |items|
      invariant forall m :: 0 <= m < i ==> Slot(buf[..], m) == items[m].treePos
    {
      SetSlot(buf, i, items[i].treePos);
    }
  }
}
