/**
 * The camera parameter resolver and the pixel-space composer of Fg3dCamera.cpp,
 * over exact real arithmetic.
 *
 * Coordinate systems, as the source names them:
 *   OECS  object/eye space (after the modelview transform),
 *   ITCS  image tangent space (x/-z, y/-z),
 *   IUCS  image unit space ([0,1] across the viewport),
 *   IPCS  image pixel space.
 *
 * exp, tan and pi are transcendental: they are passed in as a `MathLib`
 * whose `Sound` predicate states the only facts the model relies on.
 */
module Camera3d {
  import opened Wrappers

  // ---------------------------------------------------------------------------
  // Small value-semantic linear algebra

  datatype Vec2 = Vec2(x: real, y: real)
  datatype Vec3 = Vec3(x: real, y: real, z: real)
  datatype Vec4 = Vec4(x: real, y: real, z: real, w: real)

  /** A 2x2 matrix in row-major order: rows (a, b) and (c, d). */
  datatype Mat22 = Mat22(a: real, b: real, c: real, d: real)
  /** A 3x3 matrix given by its rows. */
  datatype Mat33 = Mat33(r0: Vec3, r1: Vec3, r2: Vec3)
  /** A 4x4 matrix given by its rows; it acts on column vectors. */
  datatype Mat44 = Mat44(r0: Vec4, r1: Vec4, r2: Vec4, r3: Vec4)

  /** x |-> linear * x + trans */
  datatype Affine3 = Affine3(linear: Mat33, trans: Vec3)
  /** Per-axis affine map x_i |-> scales_i * x_i + trans_i (FgAffineCw2D). */
  datatype AffineEw2 = AffineEw2(scales: Vec2, trans: Vec2)

  function Add3(a: Vec3, b: Vec3): Vec3 { Vec3(a.x + b.x, a.y + b.y, a.z + b.z) }
  function Sub3(a: Vec3, b: Vec3): Vec3 { Vec3(a.x - b.x, a.y - b.y, a.z - b.z) }
  function Scale3(a: Vec3, k: real): Vec3 { Vec3(a.x * k, a.y * k, a.z * k) }
  function Neg3(a: Vec3): Vec3 { Vec3(-a.x, -a.y, -a.z) }
  function Homogeneous(p: Vec3): Vec4 { Vec4(p.x, p.y, p.z, 1.0) }
  function Dot3(a: Vec3, b: Vec3): real { a.x * b.x + a.y * b.y + a.z * b.z }
  function Dot4(a: Vec4, b: Vec4): real { a.x * b.x + a.y * b.y + a.z * b.z + a.w * b.w }

  function MaxElem3(v: Vec3): (r: real)
    ensures r >= v.x && r >= v.y && r >= v.z
    ensures r == v.x || r == v.y || r == v.z
  {
    if v.x >= v.y && v.x >= v.z then v.x else if v.y >= v.z then v.y else v.z
  }

  function Volume(v: Vec3): real { v.x * v.y * v.z }

  const Identity33: Mat33 := Mat33(Vec3(1.0, 0.0, 0.0), Vec3(0.0, 1.0, 0.0), Vec3(0.0, 0.0, 1.0))

  function MulMV3(m: Mat33, v: Vec3): Vec3 { Vec3(Dot3(m.r0, v), Dot3(m.r1, v), Dot3(m.r2, v)) }

  function Col3X(m: Mat33): Vec3 { Vec3(m.r0.x, m.r1.x, m.r2.x) }
  function Col3Y(m: Mat33): Vec3 { Vec3(m.r0.y, m.r1.y, m.r2.y) }
  function Col3Z(m: Mat33): Vec3 { Vec3(m.r0.z, m.r1.z, m.r2.z) }

  function MulRow3(r: Vec3, b: Mat33): Vec3 { Vec3(Dot3(r, Col3X(b)), Dot3(r, Col3Y(b)), Dot3(r, Col3Z(b))) }
  function MulMM3(a: Mat33, b: Mat33): Mat33 { Mat33(MulRow3(a.r0, b), MulRow3(a.r1, b), MulRow3(a.r2, b)) }

  /** The matrix m applied to the column vector v (sums written out, which keeps products of products cheap). */
  function Apply44(m: Mat44, v: Vec4): Vec4
  {
    Vec4(m.r0.x * v.x + m.r0.y * v.y + m.r0.z * v.z + m.r0.w * v.w,
         m.r1.x * v.x + m.r1.y * v.y + m.r1.z * v.z + m.r1.w * v.w,
         m.r2.x * v.x + m.r2.y * v.y + m.r2.z * v.z + m.r2.w * v.w,
         m.r3.x * v.x + m.r3.y * v.y + m.r3.z * v.z + m.r3.w * v.w)
  }

  /** Row r of a product a * b: the row vector r times b. */
  function MulRow4(r: Vec4, b: Mat44): Vec4
  {
    Vec4(r.x * b.r0.x + r.y * b.r1.x + r.z * b.r2.x + r.w * b.r3.x,
         r.x * b.r0.y + r.y * b.r1.y + r.z * b.r2.y + r.w * b.r3.y,
         r.x * b.r0.z + r.y * b.r1.z + r.z * b.r2.z + r.w * b.r3.z,
         r.x * b.r0.w + r.y * b.r1.w + r.z * b.r2.w + r.w * b.r3.w)
  }

  /** The matrix product a * b. */
  function MulMM44(a: Mat44, b: Mat44): Mat44
  {
    Mat44(MulRow4(a.r0, b), MulRow4(a.r1, b), MulRow4(a.r2, b), MulRow4(a.r3, b))
  }

  /** Row r of a product, applied to v, is r applied to b's image of v. */
  lemma RowProductApplies(r: Vec4, b: Mat44, v: Vec4)
    ensures Dot4(MulRow4(r, b), v) == Dot4(r, Apply44(b, v))
  {
    RowProductExpanded(r, b, v);
    SumSwap(r, b, v);
    RowOfImageExpanded(r, b, v);
  }

  lemma RowProductExpanded(r: Vec4, b: Mat44, v: Vec4)
    ensures Dot4(MulRow4(r, b), v)
         == (r.x * b.r0.x + r.y * b.r1.x + r.z * b.r2.x + r.w * b.r3.x) * v.x
          + (r.x * b.r0.y + r.y * b.r1.y + r.z * b.r2.y + r.w * b.r3.y) * v.y
          + (r.x * b.r0.z + r.y * b.r1.z + r.z * b.r2.z + r.w * b.r3.z) * v.z
          + (r.x * b.r0.w + r.y * b.r1.w + r.z * b.r2.w + r.w * b.r3.w) * v.w
  {
  }

  lemma RowOfImageExpanded(r: Vec4, b: Mat44, v: Vec4)
    ensures Dot4(r, Apply44(b, v))
         == r.x * (b.r0.x * v.x + b.r0.y * v.y + b.r0.z * v.z + b.r0.w * v.w)
          + r.y * (b.r1.x * v.x + b.r1.y * v.y + b.r1.z * v.z + b.r1.w * v.w)
          + r.z * (b.r2.x * v.x + b.r2.y * v.y + b.r2.z * v.z + b.r2.w * v.w)
          + r.w * (b.r3.x * v.x + b.r3.y * v.y + b.r3.z * v.z + b.r3.w * v.w)
  {
  }

  /** Regrouping a double sum: summing by columns first equals summing by rows first. */
  lemma SumSwap(r: Vec4, b: Mat44, v: Vec4)
    ensures (r.x * b.r0.x + r.y * b.r1.x + r.z * b.r2.x + r.w * b.r3.x) * v.x
          + (r.x * b.r0.y + r.y * b.r1.y + r.z * b.r2.y + r.w * b.r3.y) * v.y
          + (r.x * b.r0.z + r.y * b.r1.z + r.z * b.r2.z + r.w * b.r3.z) * v.z
          + (r.x * b.r0.w + r.y * b.r1.w + r.z * b.r2.w + r.w * b.r3.w) * v.w
         == r.x * (b.r0.x * v.x + b.r0.y * v.y + b.r0.z * v.z + b.r0.w * v.w)
          + r.y * (b.r1.x * v.x + b.r1.y * v.y + b.r1.z * v.z + b.r1.w * v.w)
          + r.z * (b.r2.x * v.x + b.r2.y * v.y + b.r2.z * v.z + b.r2.w * v.w)
          + r.w * (b.r3.x * v.x + b.r3.y * v.y + b.r3.z * v.z + b.r3.w * v.w)
  {
  }

  /** The matrix product acts as the composition of the two maps. */
  lemma MulMM44Applies(a: Mat44, b: Mat44, v: Vec4)
    ensures Apply44(MulMM44(a, b), v) == Apply44(a, Apply44(b, v))
  {
    RowProductApplies(a.r0, b, v);
    RowProductApplies(a.r1, b, v);
    RowProductApplies(a.r2, b, v);
    RowProductApplies(a.r3, b, v);
  }

  // ---------------------------------------------------------------------------
  // Affine transforms (FgAffine3D, FgAffineCw2D)

  lemma MulMV3Zero(m: Mat33)
    ensures MulMV3(m, Zero3) == Zero3
  {
  }

  function ApplyAffine(a: Affine3, x: Vec3): Vec3 { Add3(MulMV3(a.linear, x), a.trans) }

  /** FgAffine3D(t): the pure translation x |-> x + t. */
  function Translation(t: Vec3): Affine3
  {
    Affine3(Identity33, t)
  }

  /** FgAffine3D(v, M): translate first, then apply M, i.e. x |-> M(x + v). */
  function PreTranslated(v: Vec3, m: Mat33): Affine3
  {
    Affine3(m, MulMV3(m, v))
  }

  lemma PreTranslatedApplies(v: Vec3, m: Mat33, x: Vec3)
    ensures ApplyAffine(PreTranslated(v, m), x) == MulMV3(m, Add3(x, v))
  {
    DotDistributes(m.r0, x, v);
    DotDistributes(m.r1, x, v);
    DotDistributes(m.r2, x, v);
  }

  lemma DotDistributes(r: Vec3, x: Vec3, v: Vec3)
    ensures Dot3(r, x) + Dot3(r, v) == Dot3(r, Add3(x, v))
  {
  }

  /** The product a * b of two affine transforms: apply b, then a. */
  function Compose(a: Affine3, b: Affine3): Affine3
  {
    Affine3(MulMM3(a.linear, b.linear), Add3(MulMV3(a.linear, b.trans), a.trans))
  }

  lemma ComposeApplies(a: Affine3, b: Affine3, x: Vec3)
    ensures ApplyAffine(Compose(a, b), x) == ApplyAffine(a, ApplyAffine(b, x))
  {
  }

  /** The homogeneous 4x4 form of an affine transform (translation in the last column). */
  function AsHomogeneous(a: Affine3): Mat44
  {
    var l := a.linear;
    Mat44(Vec4(l.r0.x, l.r0.y, l.r0.z, a.trans.x),
          Vec4(l.r1.x, l.r1.y, l.r1.z, a.trans.y),
          Vec4(l.r2.x, l.r2.y, l.r2.z, a.trans.z),
          Vec4(0.0, 0.0, 0.0, 1.0))
  }

  lemma AsHomogeneousApplies(a: Affine3, x: Vec3)
    ensures Apply44(AsHomogeneous(a), Homogeneous(x)) == Homogeneous(ApplyAffine(a, x))
  {
  }

  function ApplyEw(e: AffineEw2, p: Vec2): Vec2
  {
    Vec2(e.scales.x * p.x + e.trans.x, e.scales.y * p.y + e.trans.y)
  }

  /**
   * FgAffineCw2D(domainBounds, rangeBounds): the per-axis affine map taking the
   * low/high domain bound of each axis to the low/high range bound of that axis.
   * Row 0 of each matrix holds the x bounds, row 1 the y bounds.
   */
  function EwFromBounds(dom: Mat22, rng: Mat22): (e: AffineEw2)
    requires dom.a != dom.b && dom.c != dom.d
    ensures ApplyEw(e, Vec2(dom.a, dom.c)) == Vec2(rng.a, rng.c)
    ensures ApplyEw(e, Vec2(dom.b, dom.d)) == Vec2(rng.b, rng.d)
  {
    var sx := (rng.b - rng.a) / (dom.b - dom.a);
    var sy := (rng.d - rng.c) / (dom.d - dom.c);
    assert sx * (dom.b - dom.a) == rng.b - rng.a;
    assert sy * (dom.d - dom.c) == rng.d - rng.c;
    AffineEw2(Vec2(sx, sy), Vec2(rng.a - sx * dom.a, rng.c - sy * dom.c))
  }

  /** The product a * b of two per-axis affine maps: apply b, then a. */
  function ComposeEw(a: AffineEw2, b: AffineEw2): AffineEw2
  {
    AffineEw2(Vec2(a.scales.x * b.scales.x, a.scales.y * b.scales.y),
              Vec2(a.scales.x * b.trans.x + a.trans.x, a.scales.y * b.trans.y + a.trans.y))
  }

  lemma ComposeEwApplies(a: AffineEw2, b: AffineEw2, p: Vec2)
    ensures ApplyEw(ComposeEw(a, b), p) == ApplyEw(a, ApplyEw(b, p))
  {
    var c, q := ComposeEw(a, b), ApplyEw(b, p);
    ComposeAxis(a.scales.x, a.trans.x, b.scales.x, b.trans.x, c.scales.x, c.trans.x, p.x, q.x);
    ComposeAxis(a.scales.y, a.trans.y, b.scales.y, b.trans.y, c.scales.y, c.trans.y, p.y, q.y);
  }

  /**
   * One axis of a composed per-axis map: with cs = s*s', ct = s*t' + t and
   * y = s'x + t', the composed map takes x to cs*x + ct == s*y + t.
   */
  lemma ComposeAxis(s: real, t: real, s2: real, t2: real, cs: real, ct: real, x: real, y: real)
    requires cs == s * s2 && ct == s * t2 + t && y == s2 * x + t2
    ensures cs * x + ct == s * y + t
  {
  }

  // ---------------------------------------------------------------------------
  // Arithmetic facts, kept apart so that the solver sees them without context

  lemma DivPositive(a: real, b: real)
    requires a > 0.0 && b > 0.0
    ensures a / b > 0.0 && a / b * b == a
  {
  }


  lemma MulStrictlyMonotone(a: real, b: real, k: real)
    requires a < b && k > 0.0
    ensures a * k < b * k
  {
  }

  lemma MulPositive(a: real, b: real)
    requires a > 0.0 && b > 0.0
    ensures a * b > 0.0
  {
  }

  lemma Reassociate(a: real, b: real, c: real)
    ensures (a * b) * c == a * c * b
  {
  }

  lemma SimilarTriangles(h: real, f: real, t: real, n: real)
    requires f > 0.0 && f * t == h
    ensures h * n / f == n * t
  {
    assert h * n == (n * t) * f;
  }

  // ---------------------------------------------------------------------------
  // Transcendental functions

  /** exp, tan and pi, left uninterpreted. */
  datatype MathLib = MathLib(exp: real -> real, tan: real -> real, pi: real)

  /** The facts about exp, tan and pi that the resolver depends on. */
  ghost predicate Sound(m: MathLib)
  {
    && m.pi > 0.0
    && (forall x :: m.exp(x) > 0.0)
    && (forall a :: 0.0 < a < m.pi / 2.0 ==> m.tan(a) > 0.0)
  }

  /** fgDegToRad */
  function DegToRad(m: MathLib, deg: real): real { deg * m.pi / 180.0 }

  lemma HalfAngleInRange(m: MathLib, deg: real)
    requires 0.0 < deg < 180.0 && m.pi > 0.0
    ensures 0.0 < DegToRad(m, deg) * 0.5 < m.pi / 2.0
  {
    var r := deg * m.pi;
    MulStrictlyMonotone(0.0, deg, m.pi);
    MulStrictlyMonotone(deg, 180.0, m.pi);
    assert 0.0 < r < 180.0 * m.pi;
    assert 0.0 < r / 180.0 < m.pi;
    assert DegToRad(m, deg) == r / 180.0;
  }

  // ---------------------------------------------------------------------------
  // Inputs and outputs of the resolver

  /** An axis-aligned bounding box; `modelBounds.colVec(0)` is min, `colVec(1)` is max. */
  datatype Bounds = Bounds(min: Vec3, max: Vec3)

  /** Viewport size in pixels (FgVect2UI). */
  datatype ImgDims = ImgDims(x: nat, y: nat)

  /** Fg3dCameraParams; `pose` is the rotation matrix `pose.asMatrix()`. */
  datatype CameraParams = CameraParams(
    modelBounds: Bounds,
    pose: Mat33,
    relTrans: Vec2,
    logRelScale: real,
    fovMaxDeg: real)

  /** The 6-value frustum (left, right, bottom, top, near, far). */
  datatype Frustum = Frustum(left: real, right: real, bottom: real, top: real, near: real, far: real)

  /** Fg3dCamera */
  datatype Camera = Camera(modelview: Affine3, frustum: Frustum, itcsToIucs: AffineEw2)

  predicate Ordered(b: Bounds)
  {
    b.min.x <= b.max.x && b.min.y <= b.max.y && b.min.z <= b.max.z
  }

  /** The preconditions of the resolver: ordered bounds, a FOV below 180 degrees, sound maths. */
  ghost predicate WellFormed(p: CameraParams, m: MathLib)
  {
    Ordered(p.modelBounds) && p.fovMaxDeg < 180.0 && Sound(m)
  }

  function Dims(b: Bounds): Vec3 { Sub3(b.max, b.min) }

  function Centre(b: Bounds): Vec3 { Scale3(Add3(b.min, b.max), 0.5) }

  const Zero3: Vec3 := Vec3(0.0, 0.0, 0.0)

  function Cube(side: real): Vec3 { Vec3(side, side, side) }

  // ---------------------------------------------------------------------------
  // The resolver, step by step

  /** No extent is zero: for non-negative extents, exactly the non-zero volumes. */
  predicate HasVolume(d: Vec3) { d.x != 0.0 && d.y != 0.0 && d.z != 0.0 }

  /** For non-negative extents, `volume() == 0` holds exactly when some extent is zero. */
  lemma ZeroVolumeIffFlat(d: Vec3)
    requires d.x >= 0.0 && d.y >= 0.0 && d.z >= 0.0
    ensures Volume(d) == 0.0 <==> !HasVolume(d)
  {
    if HasVolume(d) {
      assert d.x * d.y > 0.0;
      assert d.x * d.y * d.z > 0.0;
    }
  }

  /**
   * Degenerate bounds: an all-zero extent becomes the unit cube, a zero-volume
   * extent becomes the cube of its largest side; the result never collapses.
   * The volume test is written as "some extent is zero" (see ZeroVolumeIffFlat).
   */
  function NormaliseDims(d: Vec3): (r: Vec3)
    requires d.x >= 0.0 && d.y >= 0.0 && d.z >= 0.0
    ensures r.x > 0.0 && r.y > 0.0 && r.z > 0.0
  {
    if d == Zero3 then Cube(1.0)
    else if !HasVolume(d) then Cube(MaxElem3(d))
    else d
  }

  /** The three cases of the degenerate-bounds substitution, in terms of the volume. */
  lemma NormaliseDimsCases(d: Vec3)
    requires d.x >= 0.0 && d.y >= 0.0 && d.z >= 0.0
    ensures d == Zero3 ==> NormaliseDims(d) == Cube(1.0)
    ensures d != Zero3 && Volume(d) == 0.0 ==> NormaliseDims(d) == Cube(MaxElem3(d)) && MaxElem3(d) > 0.0
    ensures Volume(d) != 0.0 ==> NormaliseDims(d) == d
  {
    ZeroVolumeIffFlat(d);
  }

  const MinFovDeg: real := 0.0001

  /** The FOV clamp that approximates an orthographic view through the perspective formulas. */
  function ClampFov(fovMaxDeg: real): (r: real)
    ensures r >= MinFovDeg
    ensures fovMaxDeg >= MinFovDeg ==> r == fovMaxDeg
    ensures fovMaxDeg < MinFovDeg ==> r == MinFovDeg
  {
    if fovMaxDeg < MinFovDeg then MinFovDeg else fovMaxDeg
  }

  /** modelHalfDimMax: half the largest normalised extent. */
  function ModelHalfDimMax(b: Bounds): (h: real)
    requires Ordered(b)
    ensures h > 0.0
    ensures var n := NormaliseDims(Dims(b)); 2.0 * h >= n.x && 2.0 * h >= n.y && 2.0 * h >= n.z
    ensures var n := NormaliseDims(Dims(b)); 2.0 * h == n.x || 2.0 * h == n.y || 2.0 * h == n.z
  {
    MaxElem3(NormaliseDims(Dims(b))) * 0.5
  }

  /** The argument of tan: half the clamped FOV, in radians. */
  function HalfFovRad(m: MathLib, fovMaxDeg: real): (a: real)
    requires m.pi > 0.0 && fovMaxDeg < 180.0
    ensures 0.0 < a < m.pi / 2.0
  {
    var c := ClampFov(fovMaxDeg);
    HalfAngleInRange(m, c);
    DegToRad(m, c) * 0.5
  }

  /** halfFovMaxItcs: the tangent of half the clamped FOV. */
  function HalfFovMaxItcs(m: MathLib, fovMaxDeg: real): (t: real)
    requires Sound(m) && fovMaxDeg < 180.0
    ensures t > 0.0
  {
    m.tan(HalfFovRad(m, fovMaxDeg))
  }

  /** The scalars the resolver derives, named as in the source. */
  datatype Distances = Distances(
    zCentreFillImage: real,
    zCentreUnfloored: real,
    zCentre: real,
    znear: real,
    zfar: real,
    frustumNearHalfWidth: real)

  /**
   * From modelHalfDimMax h, halfFovMaxItcs t and relScale = exp(logRelScale):
   * the fill distance, the zoomed distance, its floor at 1.3*h, the near and
   * far planes at -+1.2*h around it, and the near-plane half width taken
   * through the unfloored fill distance.
   */
  function ViewDistances(h: real, t: real, relScale: real): (d: Distances)
    requires h > 0.0 && t > 0.0 && relScale > 0.0
    ensures d.zCentreFillImage > 0.0 && d.zCentreFillImage * t == h
    ensures d.zCentreUnfloored > 0.0 && d.zCentreUnfloored * relScale == d.zCentreFillImage
    ensures d.zCentre >= 1.3 * h && d.zCentre >= d.zCentreUnfloored
    ensures d.zCentre == d.zCentreUnfloored || d.zCentre == 1.3 * h
    ensures d.znear == d.zCentre - 1.2 * h && d.zfar == d.zCentre + 1.2 * h
    ensures 0.0 < 0.1 * h <= d.znear < d.zfar && d.zfar - d.znear == 2.4 * h
    ensures d.frustumNearHalfWidth == d.znear * t
  {
    DivPositive(h, t);
    var fill := h / t;
    DivPositive(fill, relScale);
    var unfloored := fill / relScale;
    var zCentre := if unfloored < h * 1.3 then h * 1.3 else unfloored;
    var znear := zCentre - h * 1.2;
    SimilarTriangles(h, fill, t, znear);
    Distances(fill, unfloored, zCentre, znear, zCentre + h * 1.2, h * znear / fill)
  }

  function ImgDimMax(d: ImgDims): nat { if d.x >= d.y then d.x else d.y }

  /**
   * The aspect computation exactly as written: `imgDimMax` is taken before a
   * zero dimension is replaced by (1,1), so a (0,0) viewport divides by zero;
   * the model reports that as None (IEEE arithmetic would give infinities).
   */
  function AspectAsWritten(d: ImgDims): (r: Option<Vec2>)
    ensures r.None? <==> d.x == 0 && d.y == 0
  {
    var dimMax := ImgDimMax(d);
    var dims := if d.x == 0 || d.y == 0 then ImgDims(1, 1) else d;
    if dimMax == 0 then None
    else Some(Vec2(dims.x as real / dimMax as real, dims.y as real / dimMax as real))
  }

  /**
   * The aspect with the (0,0) viewport given the divisor 1, as the "avoid NaNs"
   * substitution intends. For every other viewport it is the as-written value:
   * the maximum is still taken before the substitution.
   */
  function Aspect(d: ImgDims): (a: Vec2)
    ensures 0.0 < a.x <= 1.0 && 0.0 < a.y <= 1.0
    ensures d.x == 0 && d.y == 0 ==> a == Vec2(1.0, 1.0)
    ensures (d.x == 0) != (d.y == 0) ==> a == Vec2(1.0 / ImgDimMax(d) as real, 1.0 / ImgDimMax(d) as real)
  {
    var dimMax := ImgDimMax(d);
    var dims := if d.x == 0 || d.y == 0 then ImgDims(1, 1) else d;
    var divisor := if dimMax == 0 then 1 else dimMax;
    FractionInUnit(dims.x, divisor);
    FractionInUnit(dims.y, divisor);
    Vec2(dims.x as real / divisor as real, dims.y as real / divisor as real)
  }

  /** A positive side over a side at least as long is a fraction in (0, 1]. */
  lemma FractionInUnit(n: nat, m: nat)
    requires 0 < n <= m
    ensures 0.0 < n as real / m as real <= 1.0
  {
    assert n as real <= m as real;
  }

  /** For a viewport with both sides nonzero, the larger side gets 1 and the ratio is kept. */
  lemma AspectKeepsProportions(d: ImgDims)
    requires d.x > 0 && d.y > 0
    ensures d.x >= d.y ==> Aspect(d).x == 1.0
    ensures d.y >= d.x ==> Aspect(d).y == 1.0
    ensures Aspect(d).x * d.y as real == Aspect(d).y * d.x as real
  {
    var k := ImgDimMax(d) as real;
    assert Aspect(d) == Vec2(d.x as real / k, d.y as real / k);
  }

  /** The substitute divisor changes nothing unless the viewport is (0,0). */
  lemma AspectAgreesWhereDefined(d: ImgDims)
    requires d.x > 0 || d.y > 0
    ensures AspectAsWritten(d) == Some(Aspect(d))
  {
  }

  /**
   * FgAffine3D(trans) * FgAffine3D(-centre, pose): move the bounds centre to
   * the origin, rotate by the pose, then translate by `trans`.
   */
  function Modelview(centre: Vec3, pose: Mat33, trans: Vec3): (r: Affine3)
    ensures forall x :: ApplyAffine(r, x) == Add3(MulMV3(pose, Sub3(x, centre)), trans)
    ensures ApplyAffine(r, centre) == trans
  {
    RecentredRotationAll(centre, pose, trans);
    CentreToTrans(centre, pose, trans);
    Compose(Translation(trans), PreTranslated(Neg3(centre), pose))
  }

  lemma RecentredRotation(centre: Vec3, pose: Mat33, trans: Vec3, x: Vec3)
    ensures ApplyAffine(Compose(Translation(trans), PreTranslated(Neg3(centre), pose)), x)
         == Add3(MulMV3(pose, Sub3(x, centre)), trans)
  {
    var toOrigin := PreTranslated(Neg3(centre), pose);
    ComposeApplies(Translation(trans), toOrigin, x);
    PreTranslatedApplies(Neg3(centre), pose, x);
    assert Add3(x, Neg3(centre)) == Sub3(x, centre);
  }

  lemma RecentredRotationAll(centre: Vec3, pose: Mat33, trans: Vec3)
    ensures forall x :: ApplyAffine(Compose(Translation(trans), PreTranslated(Neg3(centre), pose)), x)
                     == Add3(MulMV3(pose, Sub3(x, centre)), trans)
  {
    forall x {
      RecentredRotation(centre, pose, trans, x);
    }
  }

  lemma CentreToTrans(centre: Vec3, pose: Mat33, trans: Vec3)
    ensures Add3(MulMV3(pose, Sub3(centre, centre)), trans) == trans
  {
    assert Sub3(centre, centre) == Zero3;
    MulMV3Zero(pose);
  }

  /** The tangent-to-unit-image map: -+halfFovItcs to 0/1 on each axis. */
  function TangentToUnit(halfFovItcs: Vec2): (e: AffineEw2)
    requires halfFovItcs.x > 0.0 && halfFovItcs.y > 0.0
    ensures ApplyEw(e, Vec2(-halfFovItcs.x, -halfFovItcs.y)) == Vec2(0.0, 0.0)
    ensures ApplyEw(e, halfFovItcs) == Vec2(1.0, 1.0)
    ensures ApplyEw(e, Vec2(0.0, 0.0)) == Vec2(0.5, 0.5)
  {
    EwFromBounds(Mat22(-halfFovItcs.x, halfFovItcs.x, -halfFovItcs.y, halfFovItcs.y),
                 Mat22(0.0, 1.0, 0.0, 1.0))
  }

  /**
   * The scalars the resolver derives before assembling the camera: the model
   * half-size modelHalfDimMax, the half-FOV tangent halfFovMaxItcs, the
   * viewport aspect and the view distances.
   */
  datatype Resolution = Resolution(halfDimMax: real, halfFovMaxItcs: real, aspect: Vec2, dist: Distances)

  /** What the assembly relies on: positive tangents and a near plane in front of the eye. */
  predicate Consistent(r: Resolution)
  {
    && r.halfFovMaxItcs > 0.0 && r.aspect.x > 0.0 && r.aspect.y > 0.0
    && r.dist.frustumNearHalfWidth == r.dist.znear * r.halfFovMaxItcs
    && 0.0 < 0.1 * r.halfDimMax <= r.dist.znear < r.dist.zCentre < r.dist.zfar
    && r.dist.zfar - r.dist.znear == 2.4 * r.halfDimMax
  }

  /** The scalar half of Fg3dCameraParams::camera. */
  function Resolve(p: CameraParams, imgDims: ImgDims, m: MathLib): (r: Resolution)
    requires WellFormed(p, m)
    ensures Consistent(r)
  {
    var h := ModelHalfDimMax(p.modelBounds);
    var t := HalfFovMaxItcs(m, p.fovMaxDeg);
    var relScale := m.exp(p.logRelScale);
    DistancesConsistent(h, t, Aspect(imgDims), relScale);
    Resolution(h, t, Aspect(imgDims), ViewDistances(h, t, relScale))
  }

  lemma DistancesConsistent(h: real, t: real, aspect: Vec2, relScale: real)
    requires h > 0.0 && t > 0.0 && relScale > 0.0 && aspect.x > 0.0 && aspect.y > 0.0
    ensures Consistent(Resolution(h, t, aspect, ViewDistances(h, t, relScale)))
  {
  }

  /**
   * A symmetric frustum whose side planes pass through the tangents
   * +-aspect*t at the near plane, with near and far planes that straddle the
   * model while staying in front of the camera.
   */
  predicate FrustumFits(f: Frustum, r: Resolution)
  {
    var h, t, a, d := r.halfDimMax, r.halfFovMaxItcs, r.aspect, r.dist;
    && f.left == -f.right && f.bottom == -f.top
    && f.right == d.znear * a.x * t && f.top == d.znear * a.y * t
    && f.near == d.znear && f.far == d.zfar
    && 0.0 < 0.1 * h <= f.near < f.far
    && f.far - f.near == 2.4 * h
  }

  /**
   * Every point is rotated by the pose about the bounds centre, and the centre
   * is placed at the panned position at depth zCentre.
   */
  ghost predicate PlacesModel(mv: Affine3, centre: Vec3, pose: Mat33, relTrans: Vec2, r: Resolution)
  {
    && (forall x :: ApplyAffine(mv, x) == Add3(MulMV3(pose, Sub3(x, centre)), PanTarget(relTrans, r)))
    && ApplyAffine(mv, centre) == PanTarget(relTrans, r)
  }

  /** trans: the pan scaled by modelHalfDimMax, at depth -zCentre. */
  function PanTarget(relTrans: Vec2, r: Resolution): Vec3
  {
    Vec3(relTrans.x * r.halfDimMax, relTrans.y * r.halfDimMax, -r.dist.zCentre)
  }

  /** The tangent range +-aspect*t maps onto the unit square, its centre onto (0.5, 0.5). */
  predicate MapsTangents(e: AffineEw2, r: Resolution)
  {
    var t, a := r.halfFovMaxItcs, r.aspect;
    && ApplyEw(e, Vec2(-a.x * t, -a.y * t)) == Vec2(0.0, 0.0)
    && ApplyEw(e, Vec2(a.x * t, a.y * t)) == Vec2(1.0, 1.0)
    && ApplyEw(e, Vec2(0.0, 0.0)) == Vec2(0.5, 0.5)
  }

  /** What a camera promises about the scalars it was resolved from. */
  ghost predicate Frames(c: Camera, centre: Vec3, pose: Mat33, relTrans: Vec2, r: Resolution)
  {
    FrustumFits(c.frustum, r) && PlacesModel(c.modelview, centre, pose, relTrans, r) && MapsTangents(c.itcsToIucs, r)
  }

  /** ret.frustum: the near half width scaled by the aspect on each side. */
  function NearFrustum(r: Resolution): (f: Frustum)
    requires Consistent(r)
    ensures FrustumFits(f, r)
  {
    var t, aspect, d := r.halfFovMaxItcs, r.aspect, r.dist;
    var hw := d.frustumNearHalfWidth;
    Reassociate(d.znear, t, aspect.x);
    Reassociate(d.znear, t, aspect.y);
    Frustum(-hw * aspect.x, hw * aspect.x, -hw * aspect.y, hw * aspect.y, d.znear, d.zfar)
  }

  /** ret.itcsToIucs: halfFovItcs = aspect * halfFovMaxItcs mapped onto the unit square. */
  function TangentRange(r: Resolution): (e: AffineEw2)
    requires Consistent(r)
    ensures MapsTangents(e, r)
  {
    var t, aspect := r.halfFovMaxItcs, r.aspect;
    MulPositive(aspect.x, t);
    MulPositive(aspect.y, t);
    var halfFovItcs := Vec2(aspect.x * t, aspect.y * t);
    assert Vec2(-aspect.x * t, -aspect.y * t) == Vec2(-halfFovItcs.x, -halfFovItcs.y);
    TangentToUnit(halfFovItcs)
  }

  /** The final assembly of Fg3dCameraParams::camera from the resolved scalars. */
  function AssembleCamera(centre: Vec3, pose: Mat33, relTrans: Vec2, r: Resolution): (c: Camera)
    requires Consistent(r)
    ensures Frames(c, centre, pose, relTrans, r)
  {
    Camera(Modelview(centre, pose, PanTarget(relTrans, r)), NearFrustum(r), TangentRange(r))
  }

  /** Fg3dCameraParams::camera */
  function ResolveCamera(p: CameraParams, imgDims: ImgDims, m: MathLib): (c: Camera)
    requires WellFormed(p, m)
    ensures Frames(c, Centre(p.modelBounds), p.pose, p.relTrans, Resolve(p, imgDims, m))
  {
    AssembleCamera(Centre(p.modelBounds), p.pose, p.relTrans, Resolve(p, imgDims, m))
  }

  // ---------------------------------------------------------------------------
  // The pixel-space composer (Fg3dCamera::toIpcsH)

  /** iucsToIpcs * itcsToIucs: image tangent coordinates to pixel coordinates. */
  function ItcsToIpcs(cam: Camera, dims: ImgDims): AffineEw2
  {
    var iucsToIpcs := EwFromBounds(Mat22(0.0, 1.0, 0.0, 1.0), Mat22(0.0, dims.x as real, 0.0, dims.y as real));
    ComposeEw(iucsToIpcs, cam.itcsToIucs)
  }

  /**
   * The tangent-to-pixel map embedded in 4x4 homogeneous form: scales on the
   * diagonal, offsets in the last column, so that (x, y, z, w) goes to
   * (sx*x + tx*w, sy*y + ty*w, z, w).
   */
  function ItcsToIpcs3H(e: AffineEw2): Mat44
  {
    Mat44(Vec4(e.scales.x, 0.0, 0.0, e.trans.x),
          Vec4(0.0, e.scales.y, 0.0, e.trans.y),
          Vec4(0.0, 0.0, 1.0, 0.0),
          Vec4(0.0, 0.0, 0.0, 1.0))
  }

  /**
   * The same matrix with the offsets written through `cr(col,row)`, which puts
   * them in row 3 (columns 0 and 1) instead of column 3.
   */
  function ItcsToIpcs3HAsWritten(e: AffineEw2): Mat44
  {
    Mat44(Vec4(e.scales.x, 0.0, 0.0, 0.0),
          Vec4(0.0, e.scales.y, 0.0, 0.0),
          Vec4(0.0, 0.0, 1.0, 0.0),
          Vec4(e.trans.x, e.trans.y, 0.0, 1.0))
  }

  /**
   * Eye space to homogeneous tangent space: y is flipped and w receives -z, so
   * that dividing by w yields (x/-z, -y/-z). Entries not set by the source are
   * taken to be zero.
   */
  function OecsToItcsH(): Mat44
  {
    Mat44(Vec4(1.0, 0.0, 0.0, 0.0),
          Vec4(0.0, -1.0, 0.0, 0.0),
          Vec4(0.0, 0.0, 0.0, 1.0),
          Vec4(0.0, 0.0, -1.0, 0.0))
  }

  /**
   * Fg3dCamera::toIpcsH as intended: itcsToIpcs3H * oecsToItcsH *
   * modelview.asHomogenous(), with the pixel offsets in column 3. The source
   * as written is `ToIpcsHAsWritten`.
   */
  function ToIpcsHIntended(cam: Camera, dims: ImgDims): Mat44
  {
    MulMM44(MulMM44(ItcsToIpcs3H(ItcsToIpcs(cam, dims)), OecsToItcsH()), AsHomogeneous(cam.modelview))
  }

  /** Fg3dCamera::toIpcsH with itcsToIpcs3H as written. */
  function ToIpcsHAsWritten(cam: Camera, dims: ImgDims): Mat44
  {
    MulMM44(MulMM44(ItcsToIpcs3HAsWritten(ItcsToIpcs(cam, dims)), OecsToItcsH()), AsHomogeneous(cam.modelview))
  }

  /** iucsToIpcs stretches the unit square over the pixel rectangle. */
  lemma ItcsToIpcsApplies(cam: Camera, dims: ImgDims, p: Vec2)
    ensures var u := ApplyEw(cam.itcsToIucs, p);
      ApplyEw(ItcsToIpcs(cam, dims), p) == Vec2(dims.x as real * u.x, dims.y as real * u.y)
  {
    var iucsToIpcs := EwFromBounds(Mat22(0.0, 1.0, 0.0, 1.0), Mat22(0.0, dims.x as real, 0.0, dims.y as real));
    assert iucsToIpcs == AffineEw2(Vec2(dims.x as real, dims.y as real), Vec2(0.0, 0.0));
    ComposeEwApplies(iucsToIpcs, cam.itcsToIucs, p);
  }

  /**
   * Eye space to homogeneous pixel space: an eye point v = (x, y, z, w) goes to
   * (sx*x + tx*(-z), sy*(-y) + ty*(-z), w, -z), so w' = -z is the depth in front
   * of the camera.
   */
  lemma EyeToPixelApplies(e: AffineEw2, v: Vec4)
    ensures Apply44(ItcsToIpcs3H(e), Apply44(OecsToItcsH(), v))
         == Vec4(e.scales.x * v.x + e.trans.x * -v.z, e.scales.y * -v.y + e.trans.y * -v.z, v.w, -v.z)
  {
  }

  /** The same with the matrix as written: the offsets move into w'. */
  lemma EyeToPixelAsWrittenApplies(e: AffineEw2, v: Vec4)
    ensures Apply44(ItcsToIpcs3HAsWritten(e), Apply44(OecsToItcsH(), v))
         == Vec4(e.scales.x * v.x, e.scales.y * -v.y, v.w, e.trans.x * v.x + e.trans.y * -v.y - v.z)
  {
  }

  /**
   * toIpcsH on an object point x whose eye-space image is y: the homogeneous
   * result carries w = -y.z, and x, y are the tangent-to-pixel map applied to
   * (y.x, -y.y) with the offsets scaled by w.
   */
  lemma ToIpcsHIntendedProjects(cam: Camera, dims: ImgDims, x: Vec3)
    ensures var y, e := ApplyAffine(cam.modelview, x), ItcsToIpcs(cam, dims);
      Apply44(ToIpcsHIntended(cam, dims), Homogeneous(x))
        == Vec4(e.scales.x * y.x + e.trans.x * -y.z, e.scales.y * -y.y + e.trans.y * -y.z, 1.0, -y.z)
  {
    var y, e := ApplyAffine(cam.modelview, x), ItcsToIpcs(cam, dims);
    var a, b, c := ItcsToIpcs3H(e), OecsToItcsH(), AsHomogeneous(cam.modelview);
    MulMM44Applies(MulMM44(a, b), c, Homogeneous(x));
    AsHomogeneousApplies(cam.modelview, x);
    MulMM44Applies(a, b, Homogeneous(y));
    EyeToPixelApplies(e, Homogeneous(y));
  }

  lemma DivideThrough(s: real, p: real, t: real, w: real)
    requires w != 0.0
    ensures (s * p + t * w) / w == s * (p / w) + t
  {
    assert s * p == s * (p / w) * w;
  }

  /**
   * After the division by w, a point in front of the camera lands on the pixel
   * that the tangent-to-pixel map assigns to its image tangents (x/-z, -y/-z).
   */
  lemma ToIpcsHIntendedPerspective(cam: Camera, dims: ImgDims, x: Vec3)
    requires ApplyAffine(cam.modelview, x).z < 0.0
    ensures var y, h := ApplyAffine(cam.modelview, x), Apply44(ToIpcsHIntended(cam, dims), Homogeneous(x));
      && h.w > 0.0
      && Vec2(h.x / h.w, h.y / h.w) == ApplyEw(ItcsToIpcs(cam, dims), Vec2(y.x / -y.z, -y.y / -y.z))
  {
    ToIpcsHIntendedProjects(cam, dims, x);
    var y, e := ApplyAffine(cam.modelview, x), ItcsToIpcs(cam, dims);
    PerspectiveDivide(e, y, Apply44(ToIpcsHIntended(cam, dims), Homogeneous(x)));
  }

  /** The division by w on its own: offsets scaled by w = -z come out unscaled. */
  lemma PerspectiveDivide(e: AffineEw2, y: Vec3, h: Vec4)
    requires y.z < 0.0
    requires h == Vec4(e.scales.x * y.x + e.trans.x * -y.z, e.scales.y * -y.y + e.trans.y * -y.z, 1.0, -y.z)
    ensures h.w > 0.0 && Vec2(h.x / h.w, h.y / h.w) == ApplyEw(e, Vec2(y.x / -y.z, -y.y / -y.z))
  {
    DivideThrough(e.scales.x, y.x, e.trans.x, -y.z);
    DivideThrough(e.scales.y, -y.y, e.trans.y, -y.z);
  }

  /**
   * A point on the viewing axis in front of the camera projects onto the
   * centre of the image, given that tangent 0 maps to unit coordinate 0.5.
   */
  lemma ViewAxisLandsAtImageCentre(cam: Camera, dims: ImgDims, x: Vec3)
    requires ApplyEw(cam.itcsToIucs, Vec2(0.0, 0.0)) == Vec2(0.5, 0.5)
    requires var y := ApplyAffine(cam.modelview, x); y.x == 0.0 && y.y == 0.0 && y.z < 0.0
    ensures var h := Apply44(ToIpcsHIntended(cam, dims), Homogeneous(x));
      h.w > 0.0 && h.x / h.w == dims.x as real * 0.5 && h.y / h.w == dims.y as real * 0.5
  {
    var y := ApplyAffine(cam.modelview, x);
    ToIpcsHIntendedPerspective(cam, dims, x);
    assert Vec2(y.x / -y.z, -y.y / -y.z) == Vec2(0.0, 0.0);
    ItcsToIpcsApplies(cam, dims, Vec2(0.0, 0.0));
  }

  /** Without panning, the centre of the model bounds is drawn at the centre of the image. */
  lemma BoundsCentreLandsAtImageCentre(p: CameraParams, imgDims: ImgDims, m: MathLib)
    requires WellFormed(p, m) && p.relTrans == Vec2(0.0, 0.0)
    ensures var h := Apply44(ToIpcsHIntended(ResolveCamera(p, imgDims, m), imgDims), Homogeneous(Centre(p.modelBounds)));
      h.w > 0.0 && h.x / h.w == imgDims.x as real * 0.5 && h.y / h.w == imgDims.y as real * 0.5
  {
    var c, r := ResolveCamera(p, imgDims, m), Resolve(p, imgDims, m);
    assert Frames(c, Centre(p.modelBounds), p.pose, p.relTrans, r);
    ViewAxisLandsAtImageCentre(c, imgDims, Centre(p.modelBounds));
  }

  /**
   * toIpcsH as written on an object point: the offsets land in w, so w depends
   * on the image-plane position, and x, y lose their offsets.
   */
  lemma ToIpcsHAsWrittenProjects(cam: Camera, dims: ImgDims, x: Vec3)
    ensures var y, e := ApplyAffine(cam.modelview, x), ItcsToIpcs(cam, dims);
      Apply44(ToIpcsHAsWritten(cam, dims), Homogeneous(x))
        == Vec4(e.scales.x * y.x, e.scales.y * -y.y, 1.0, e.trans.x * y.x + e.trans.y * -y.y - y.z)
  {
    var y, e := ApplyAffine(cam.modelview, x), ItcsToIpcs(cam, dims);
    var a, b, c := ItcsToIpcs3HAsWritten(e), OecsToItcsH(), AsHomogeneous(cam.modelview);
    MulMM44Applies(MulMM44(a, b), c, Homogeneous(x));
    AsHomogeneousApplies(cam.modelview, x);
    MulMM44Applies(a, b, Homogeneous(y));
    EyeToPixelAsWrittenApplies(e, Homogeneous(y));
  }

  /**
   * The discrepancy: as written, a point on the viewing axis projects onto the
   * pixel origin (0,0), not the image centre, for every viewport of nonzero width.
   */
  lemma AsWrittenViewAxisLandsAtOrigin(cam: Camera, dims: ImgDims, x: Vec3)
    requires var y := ApplyAffine(cam.modelview, x); y.x == 0.0 && y.y == 0.0 && y.z < 0.0
    ensures var h := Apply44(ToIpcsHAsWritten(cam, dims), Homogeneous(x));
      && h.w > 0.0 && h.x / h.w == 0.0 && h.y / h.w == 0.0
      && (dims.x > 0 ==> h.x / h.w != dims.x as real * 0.5)
  {
    var y, e := ApplyAffine(cam.modelview, x), ItcsToIpcs(cam, dims);
    ToIpcsHAsWrittenProjects(cam, dims, x);
    var h := Apply44(ToIpcsHAsWritten(cam, dims), Homogeneous(x));
    assert e.scales.x * y.x == 0.0 && e.trans.x * y.x == 0.0;
    assert e.scales.y * -y.y == 0.0 && e.trans.y * -y.y == 0.0;
    assert h.x == 0.0 && h.y == 0.0 && h.w == -y.z;
  }
}
