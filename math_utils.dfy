/** The two point samplers of utils/math.ts.  Each Math.random() call becomes a
    draw passed in as a parameter in [0, 1); Math.sin, Math.cos, Math.acos,
    Math.cbrt and Math.sqrt are left abstract as the fields of a
    MathFunctions value whose Valid() predicate states the identities the
    proofs rely on. */
module MathUtils {
  import opened Vectors

  /** Math.PI as printed by JavaScript. */
  const Pi: real := 3.141592653589793

  /** Math.random() returns a value in [0, 1). */
  predicate Unit(r: real) {
    0.0 <= r < 1.0
  }

  /** The transcendental functions of JavaScript's Math object.  acos is
      only defined on [-1, 1]; sqrt is total (JavaScript gives NaN below 0)
      but promised something only on non-negative arguments. */
  datatype MathFunctions = MathFunctions(
    sin: real -> real,
    cos: real -> real,
    acos: real --> real,
    cbrt: real -> real,
    sqrt: real -> real)
  {
    ghost predicate Valid() {
      && (forall t :: sin(t) * sin(t) + cos(t) * cos(t) == 1.0)
      && (forall x :: -1.0 <= x <= 1.0 ==> acos.requires(x))
      && (forall x :: cbrt(x) * cbrt(x) * cbrt(x) == x)
      && (forall x :: 0.0 <= x ==> 0.0 <= sqrt(x) && sqrt(x) * sqrt(x) == x)
    }
  }

  // ---------------------------------------------------------------------------
  // Facts about the abstract functions, derived from Valid()

  lemma SquareAtMostOne(s: real, c: real)
    requires s * s + c * c == 1.0
    ensures -1.0 <= s <= 1.0
  {
    assert c * c >= 0.0;
  }

  /** sin and cos stay in [-1, 1]. */
  lemma SinCosBounded(f: MathFunctions, t: real)
    requires f.Valid()
    ensures -1.0 <= f.sin(t) <= 1.0 && -1.0 <= f.cos(t) <= 1.0
  {
    SquareAtMostOne(f.sin(t), f.cos(t));
    SquareAtMostOne(f.cos(t), f.sin(t));
  }

  lemma CubeSign(c: real)
    ensures c < 0.0 ==> c * c * c < 0.0
    ensures c >= 1.0 ==> c * c * c >= 1.0
  {
    if c < 0.0 {
      assert c * c > 0.0;
      assert (c * c) * c < 0.0;
    } else if c >= 1.0 {
      assert c * c >= c * 1.0;
      assert (c * c) * c >= 1.0 * c;
    }
  }

  /** The cube root maps a draw in [0, 1) into [0, 1). */
  lemma CbrtOfUnit(f: MathFunctions, w: real)
    requires f.Valid() && Unit(w)
    ensures Unit(f.cbrt(w))
  {
    CubeSign(f.cbrt(w));
  }

  /** sqrt returns the unique non-negative square root. */
  lemma SqrtUnique(f: MathFunctions, s: real, a: real)
    requires f.Valid() && a >= 0.0 && a * a == s
    ensures f.sqrt(s) == a
  {
    var b := f.sqrt(s);
    SquareMonotone(a, b);
    SquareMonotone(b, a);
  }

  // ---------------------------------------------------------------------------
  // Sign facts about products of reals

  lemma MulPositive(a: real, b: real)
    requires a > 0.0 && b > 0.0
    ensures a * b > 0.0
  {
  }

  lemma MulLess(a: real, b: real, c: real)
    requires a < b && c > 0.0
    ensures a * c < b * c
  {
    MulPositive(b - a, c);
    assert b * c - a * c == (b - a) * c;
  }

  lemma SquareMonotone(a: real, b: real)
    ensures 0.0 <= a < b ==> a * a < b * b
  {
    if 0.0 <= a < b {
      var d, t := b - a, b + a;
      assert d * t > 0.0;
      assert b * b - a * a == d * t;
    }
  }

  lemma MulAtMost(a: real, b: real, c: real)
    requires a <= b && c >= 0.0
    ensures a * c <= b * c
  {
    assert b * c - a * c == (b - a) * c;
  }

  /** A fraction k in [0, 1] of a non-negative e lies between 0 and e. */
  lemma FractionOf(k: real, e: real, q: real)
    requires 0.0 <= k <= 1.0 && e >= 0.0 && q == e * k
    ensures 0.0 <= q <= e
  {
    MulAtMost(0.0, k, e);
    MulAtMost(k, 1.0, e);
  }

  /** Scaling a positive number by a draw in [0, 1) lands in [0, h). */
  lemma UnitScale(u: real, h: real, p: real)
    requires Unit(u) && h > 0.0 && p == u * h
    ensures 0.0 <= p < h
  {
    MulLess(u, 1.0, h);
    MulAtMost(0.0, u, h);
  }

  /** A factor whose product with a positive number is positive is positive. */
  lemma PositiveFactor(a: real, h: real)
    requires h > 0.0 && a * h > 0.0
    ensures a > 0.0
  {
  }

  lemma NonNegativeFactor(a: real, h: real)
    requires h > 0.0 && a * h >= 0.0
    ensures a >= 0.0
  {
  }

  // ---------------------------------------------------------------------------
  // getConePoint (utils/math.ts:20-34)

  /** The three draws getConePoint makes, in call order. */
  datatype ConeDraws = ConeDraws(heightDraw: real, angleDraw: real, offsetDraw: real) {
    predicate Valid() {
      Unit(heightDraw) && Unit(angleDraw) && Unit(offsetDraw)
    }
  }

  /** Height above the cone's base, before recentring. */
  function RawHeight(height: real, d: ConeDraws): real {
    d.heightDraw * height
  }

  /** Radius of the cone at height y above its base. */
  function TaperedRadius(height: real, baseRadius: real, y: real): real
    requires height != 0.0
  {
    baseRadius * (1.0 - y / height)
  }

  /** Distance of the sample from the cone's axis. */
  function RadialOffset(height: real, baseRadius: real, d: ConeDraws): real
    requires height != 0.0
  {
    d.offsetDraw * TaperedRadius(height, baseRadius, RawHeight(height, d))
  }

  function ConeAngle(d: ConeDraws): real {
    d.angleDraw * Pi * 2.0
  }

  function ConePoint(height: real, baseRadius: real, yOffset: real, d: ConeDraws, f: MathFunctions): Vec3
    requires height != 0.0
  {
    var angle := ConeAngle(d);
    var radiusOffset := RadialOffset(height, baseRadius, d);
    Vec3(f.cos(angle) * radiusOffset,
         RawHeight(height, d) + yOffset - height / 2.0,
         f.sin(angle) * radiusOffset)
  }

  /** The raw height lies in [0, height). */
  lemma RawHeightRange(height: real, d: ConeDraws)
    requires height > 0.0 && d.Valid()
    ensures 0.0 <= RawHeight(height, d) < height
  {
    UnitScale(d.heightDraw, height, RawHeight(height, d));
  }

  /** The recentred y lies in [yOffset - height/2, yOffset + height/2). */
  lemma ConeHeightRange(height: real, baseRadius: real, yOffset: real, d: ConeDraws, f: MathFunctions)
    requires height > 0.0 && d.Valid()
    ensures yOffset - height / 2.0 <= ConePoint(height, baseRadius, yOffset, d, f).y < yOffset + height / 2.0
  {
    RawHeightRange(height, d);
    assert ConePoint(height, baseRadius, yOffset, d, f).y == RawHeight(height, d) + yOffset - height / 2.0;
  }

  /** The radius is baseRadius at the base, lies in (0, baseRadius] below the
      apex, and never grows with height. */
  lemma TaperedRadiusProperties(height: real, baseRadius: real, y: real, y': real)
    requires height > 0.0 && baseRadius > 0.0
    ensures TaperedRadius(height, baseRadius, 0.0) == baseRadius
    ensures 0.0 <= y < height ==> 0.0 < TaperedRadius(height, baseRadius, y) <= baseRadius
    ensures y <= y' ==> TaperedRadius(height, baseRadius, y') <= TaperedRadius(height, baseRadius, y)
  {
    var q, q' := 1.0 - y / height, 1.0 - y' / height;
    assert TaperedRadius(height, baseRadius, y) == baseRadius * q;
    assert TaperedRadius(height, baseRadius, y') == baseRadius * q';
    assert q * height == height - y;
    assert q' * height == height - y';
    if 0.0 <= y < height {
      PositiveFactor(q, height);
      NonNegativeFactor(y / height, height);
      MulAtMost(q, 1.0, baseRadius);
      MulPositive(baseRadius, q);
    }
    if y <= y' {
      assert (q - q') * height == y' - y;
      NonNegativeFactor(q - q', height);
      MulAtMost(q', q, baseRadius);
    }
  }

  /** A point at angle t and distance ro from the axis is at squared
      distance ro^2 from it. */
  lemma CircleNorm(ro: real, c: real, s: real)
    requires c * c + s * s == 1.0
    ensures (c * ro) * (c * ro) + (s * ro) * (s * ro) == ro * ro
  {
    assert (c * ro) * (c * ro) + (s * ro) * (s * ro) == (c * c + s * s) * (ro * ro);
  }

  /** The radial offset lies in [0, r) for r the tapered radius at the
      sample's height. */
  lemma RadialOffsetRange(height: real, baseRadius: real, d: ConeDraws)
    requires height > 0.0 && baseRadius > 0.0 && d.Valid()
    ensures 0.0 <= RadialOffset(height, baseRadius, d) < TaperedRadius(height, baseRadius, RawHeight(height, d))
  {
    var y := RawHeight(height, d);
    var r := TaperedRadius(height, baseRadius, y);
    RawHeightRange(height, d);
    TaperedRadiusProperties(height, baseRadius, y, y);
    UnitScale(d.offsetDraw, r, RadialOffset(height, baseRadius, d));
  }

  /** The sample's horizontal distance from the axis is exactly the radial
      offset, which is below the tapered radius at the sample's own
      (recentred) height. */
  lemma ConeWithinTaper(height: real, baseRadius: real, yOffset: real, d: ConeDraws, f: MathFunctions)
    requires height > 0.0 && baseRadius > 0.0 && d.Valid() && f.Valid()
    ensures HorizontalNormSq(ConePoint(height, baseRadius, yOffset, d, f))
            == RadialOffset(height, baseRadius, d) * RadialOffset(height, baseRadius, d)
    ensures var p := ConePoint(height, baseRadius, yOffset, d, f);
            var r := TaperedRadius(height, baseRadius, p.y - yOffset + height / 2.0);
            0.0 < r && HorizontalNormSq(p) < r * r
  {
    var p := ConePoint(height, baseRadius, yOffset, d, f);
    var y := RawHeight(height, d);
    var r := TaperedRadius(height, baseRadius, y);
    var ro := RadialOffset(height, baseRadius, d);
    var angle := ConeAngle(d);
    RadialOffsetRange(height, baseRadius, d);
    assert p == Vec3(f.cos(angle) * ro, y + yOffset - height / 2.0, f.sin(angle) * ro);
    assert TaperedRadius(height, baseRadius, p.y - yOffset + height / 2.0) == r;
    CircleNorm(ro, f.cos(angle), f.sin(angle));
    SquareMonotone(ro, r);
  }

  /** yOffset only shifts the sample vertically. */
  lemma ConeOffsetOnlyShifts(height: real, baseRadius: real, o1: real, o2: real, d: ConeDraws, f: MathFunctions)
    requires height != 0.0
    ensures ConePoint(height, baseRadius, o2, d, f).x == ConePoint(height, baseRadius, o1, d, f).x
    ensures ConePoint(height, baseRadius, o2, d, f).z == ConePoint(height, baseRadius, o1, d, f).z
    ensures ConePoint(height, baseRadius, o2, d, f).y == ConePoint(height, baseRadius, o1, d, f).y + (o2 - o1)
  {
  }

  // ---------------------------------------------------------------------------
  // getRandomSpherePoint (utils/math.ts:4-17)

  /** The three draws getRandomSpherePoint makes, in call order. */
  datatype SphereDraws = SphereDraws(azimuthDraw: real, polarDraw: real, radiusDraw: real) {
    predicate Valid() {
      Unit(azimuthDraw) && Unit(polarDraw) && Unit(radiusDraw)
    }
  }

  function SphereTheta(d: SphereDraws): real {
    2.0 * Pi * d.azimuthDraw
  }

  /** The argument handed to Math.acos. */
  function AcosArgument(d: SphereDraws): real {
    2.0 * d.polarDraw - 1.0
  }

  /** Distance of the sample from the origin. */
  function SphereRadius(radius: real, d: SphereDraws, f: MathFunctions): real {
    f.cbrt(d.radiusDraw) * radius
  }

  function SpherePoint(radius: real, d: SphereDraws, f: MathFunctions): Vec3
    requires d.Valid() && f.Valid()
  {
    var theta := SphereTheta(d);
    var phi := f.acos(AcosArgument(d));
    var r := SphereRadius(radius, d, f);
    var sinPhi := f.sin(phi);
    Vec3(r * sinPhi * f.cos(theta), r * sinPhi * f.sin(theta), r * f.cos(phi))
  }

  /** The azimuth lies in [0, 2*pi) and the acos argument in [-1, 1), inside
      the domain of acos. */
  lemma SphereAngles(d: SphereDraws)
    requires d.Valid()
    ensures 0.0 <= SphereTheta(d) < 2.0 * Pi
    ensures -1.0 <= AcosArgument(d) < 1.0
  {
    UnitScale(d.azimuthDraw, 2.0 * Pi, SphereTheta(d));
  }

  /** Spherical coordinates (r, theta, phi) give a point at squared distance
      r^2 from the origin. */
  lemma PolarNorm(r: real, sp: real, cp: real, st: real, ct: real)
    requires st * st + ct * ct == 1.0 && sp * sp + cp * cp == 1.0
    ensures (r * sp * ct) * (r * sp * ct) + (r * sp * st) * (r * sp * st) + (r * cp) * (r * cp) == r * r
  {
    var a := r * sp;
    assert (a * ct) * (a * ct) + (a * st) * (a * st) == (a * a) * (ct * ct + st * st);
    assert (a * a) * (ct * ct + st * st) == a * a;
    assert a * a + (r * cp) * (r * cp) == (r * r) * (sp * sp + cp * cp);
  }

  /** The cube-root radius lies in [0, radius). */
  lemma SphereRadiusRange(radius: real, d: SphereDraws, f: MathFunctions)
    requires radius > 0.0 && d.Valid() && f.Valid()
    ensures 0.0 <= SphereRadius(radius, d, f) < radius
  {
    var c := f.cbrt(d.radiusDraw);
    CbrtOfUnit(f, d.radiusDraw);
    UnitScale(c, radius, SphereRadius(radius, d, f));
  }

  /** The sample's squared distance from the origin is r^2 for r the cube-root
      radius. */
  lemma SphereNorm(radius: real, d: SphereDraws, f: MathFunctions)
    requires d.Valid() && f.Valid()
    ensures NormSq(SpherePoint(radius, d, f)) == SphereRadius(radius, d, f) * SphereRadius(radius, d, f)
  {
    var theta := SphereTheta(d);
    var phi := f.acos(AcosArgument(d));
    var r := SphereRadius(radius, d, f);
    var sp, cp, st, ct := f.sin(phi), f.cos(phi), f.sin(theta), f.cos(theta);
    assert SpherePoint(radius, d, f) == Vec3(r * sp * ct, r * sp * st, r * cp);
    PolarNorm(r, sp, cp, st, ct);
  }

  /** The sample lies strictly inside the ball of the given radius. */
  lemma SphereWithinRadius(radius: real, d: SphereDraws, f: MathFunctions)
    requires radius > 0.0 && d.Valid() && f.Valid()
    ensures NormSq(SpherePoint(radius, d, f)) < radius * radius
  {
    var r := SphereRadius(radius, d, f);
    SphereRadiusRange(radius, d, f);
    SphereNorm(radius, d, f);
    SquareMonotone(r, radius);
  }
}
