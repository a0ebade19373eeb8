/** The geometry of the spatial mix: the tether is a projection, the rotation is an
    isometry, and panning is symmetric. */
module Spatial {
  import opened RealMath
  import opened Mixer

  // ---------------------------------------------------------------------------
  // The tether
  // ---------------------------------------------------------------------------

  const REACH2 := MAX_AUDIO_DIST * MAX_AUDIO_DIST

  predicate InBall(p: Vec3, avatar: Vec3) {
    Dist2(p, avatar) <= REACH2
  }

  lemma DotSquares(u: Vec3)
    ensures Dot(u, u) >= 0.0
  {
    SquareNonNegative(u.x);
    SquareNonNegative(u.y);
    SquareNonNegative(u.z);
  }

  lemma SquareNonNegative(x: real)
    ensures x * x >= 0.0
  {
  }

  /** Cauchy-Schwarz, through Lagrange's identity. */
  lemma CauchySchwarz(u: Vec3, v: Vec3)
    ensures Dot(u, v) * Dot(u, v) <= Dot(u, u) * Dot(v, v)
  {
    DotSquares(Cross(u, v));
    Lagrange(u, v);
  }

  lemma Lagrange(u: Vec3, v: Vec3)
    ensures Dot(u, u) * Dot(v, v) == Dot(u, v) * Dot(u, v) + Dot(Cross(u, v), Cross(u, v))
  {
  }

  /** A point outside the ball is scaled back along its offset. */
  lemma TetherScales(m: Libm, listener: Vec3, avatar: Vec3) returns (k: real, d: real)
    requires m.Laws() && !InBall(listener, avatar)
    ensures d > MAX_AUDIO_DIST && d * d == Dist2(listener, avatar) && k * d == MAX_AUDIO_DIST && 0.0 < k < 1.0
    ensures Tether(m, listener, avatar) == Add(avatar, Scale(k, Sub(listener, avatar)))
  {
    hide Libm.Laws;
    var off := Sub(listener, avatar);
    DotSquares(off);
    Root(m, Dot(off, off));
    RootOrder(m, Dot(off, off), MAX_AUDIO_DIST);
    d := m.sqrt(Dot(off, off));
    k := MAX_AUDIO_DIST / d;
  }

  lemma TetherInside(m: Libm, listener: Vec3, avatar: Vec3)
    requires m.Laws() && InBall(listener, avatar)
    ensures Tether(m, listener, avatar) == listener
  {
    var off := Sub(listener, avatar);
    DotSquares(off);
    RootOrder(m, Dot(off, off), MAX_AUDIO_DIST);
  }

  lemma OffsetScales(a: Vec3, k: real, u: Vec3)
    ensures Sub(Add(a, Scale(k, u)), a) == Scale(k, u)
    ensures Dot(Scale(k, u), Scale(k, u)) == k * k * Dot(u, u)
  {
  }

  /** The tethered ear is within 50 m of the avatar. */
  lemma TetherInBall(m: Libm, listener: Vec3, avatar: Vec3)
    requires m.Laws()
    ensures InBall(Tether(m, listener, avatar), avatar)
  {
    hide Tether, InBall;
    if InBall(listener, avatar) {
      TetherInside(m, listener, avatar);
    } else {
      var k, d := TetherScales(m, listener, avatar);
      OffsetScales(avatar, k, Sub(listener, avatar));
      assert k * k * (d * d) == (k * d) * (k * d);
      BallByDistance(Tether(m, listener, avatar), avatar);
    }
  }

  lemma BallByDistance(p: Vec3, avatar: Vec3)
    ensures InBall(p, avatar) <==> Dist2(p, avatar) <= 2500.0
  {
  }

  /** From the tethered ear, the claimed ear and any point of the ball are never on the
      same side: the inequality that characterises a projection onto a convex set. */
  lemma TetherObtuse(m: Libm, listener: Vec3, avatar: Vec3, p: Vec3)
    requires m.Laws() && InBall(p, avatar)
    ensures var t := Tether(m, listener, avatar);
            Dot(Sub(listener, t), Sub(p, t)) <= 0.0
  {
    var t := Tether(m, listener, avatar);
    if InBall(listener, avatar) {
      TetherInside(m, listener, avatar);
    } else {
      var u, v := Sub(listener, avatar), Sub(p, avatar);
      var k, d := TetherScales(m, listener, avatar);
      hide Tether;
      ObtuseDot(listener, avatar, p, k);
      Reach(u, v, d);
      assert k * Dot(u, u) == (k * d) * d;
      NonPositiveProduct(1.0 - k, Dot(u, v) - k * Dot(u, u));
    }
  }

  lemma NonPositiveProduct(a: real, b: real)
    requires a >= 0.0 && b <= 0.0
    ensures a * b <= 0.0
  {
  }

  lemma ObtuseDot(l: Vec3, a: Vec3, p: Vec3, k: real)
    ensures var t := Add(a, Scale(k, Sub(l, a)));
            var u, v := Sub(l, a), Sub(p, a);
            Dot(Sub(l, t), Sub(p, t)) == (1.0 - k) * (Dot(u, v) - k * Dot(u, u))
  {
    hide Dot;
    var t := Add(a, Scale(k, Sub(l, a)));
    var u, v := Sub(l, a), Sub(p, a);
    assert Sub(l, t) == Scale(1.0 - k, u);
    assert Sub(p, t) == Sub(v, Scale(k, u));
    DotExpands(k, u, v);
  }

  lemma DotExpands(k: real, u: Vec3, v: Vec3)
    ensures Dot(Scale(1.0 - k, u), Sub(v, Scale(k, u))) == (1.0 - k) * (Dot(u, v) - k * Dot(u, u))
  {
    hide Dot;
    DotOfScaled(1.0 - k, Sub(v, Scale(k, u)), u);
    DotOfDifference(u, v, Scale(k, u));
    DotOfScaled(k, u, u);
  }

  lemma DotOfDifference(a: Vec3, b: Vec3, c: Vec3)
    ensures Dot(Sub(b, c), a) == Dot(a, b) - Dot(a, c)
  {
    DotOfDifferencePart(a.x, b.x, c.x, Sub(b, c).x);
    DotOfDifferencePart(a.y, b.y, c.y, Sub(b, c).y);
    DotOfDifferencePart(a.z, b.z, c.z, Sub(b, c).z);
  }

  lemma DotOfDifferencePart(a: real, b: real, c: real, d: real)
    requires d == b - c
    ensures d * a == a * b - a * c
  {
  }

  /** A vector at most 50 long reaches at most 50 * d along a vector of length d. */
  lemma Reach(u: Vec3, v: Vec3, d: real)
    requires d > 0.0 && d * d == Dot(u, u) && Dot(v, v) <= REACH2
    ensures Dot(u, v) <= MAX_AUDIO_DIST * d
  {
    CauchySchwarz(u, v);
    DotSquares(v);
    var x, y := Dot(u, v), MAX_AUDIO_DIST * d;
    assert y * y == 2500.0 * (d * d);
    ProductIsMonotone(d * d, Dot(v, v), REACH2);
    assert x * x <= y * y;
    if x >= 0.0 {
      SquaresAreOrdered(x, y);
    }
  }

  lemma ProductIsMonotone(a: real, b: real, c: real)
    requires a >= 0.0 && b <= c
    ensures a * b <= a * c
  {
  }

  /** `tether` is the projection onto the ball: the tethered ear beats every other point of
      the ball by at least the square of its distance to that point. */
  lemma TetherIsNearest(m: Libm, listener: Vec3, avatar: Vec3, p: Vec3)
    requires m.Laws() && InBall(p, avatar)
    ensures var t := Tether(m, listener, avatar);
            Dist2(p, listener) >= Dist2(t, listener) + Dist2(p, t)
  {
    var t := Tether(m, listener, avatar);
    TetherObtuse(m, listener, avatar, p);
    hide Tether;
    CosineRule(listener, t, p);
  }

  lemma CosineRule(l: Vec3, t: Vec3, p: Vec3)
    ensures Dist2(p, l) == Dist2(t, l) + Dist2(p, t) - 2.0 * Dot(Sub(l, t), Sub(p, t))
  {
  }

  /** Tethering twice is tethering once. */
  lemma TetherIsIdempotent(m: Libm, listener: Vec3, avatar: Vec3)
    requires m.Laws()
    ensures Tether(m, Tether(m, listener, avatar), avatar) == Tether(m, listener, avatar)
  {
    hide Tether;
    TetherInBall(m, listener, avatar);
    TetherInside(m, Tether(m, listener, avatar), avatar);
  }

  /** Two claimed ears are never moved apart. */
  lemma TetherIsNonexpansive(m: Libm, l1: Vec3, l2: Vec3, avatar: Vec3)
    requires m.Laws()
    ensures Dist2(Tether(m, l1, avatar), Tether(m, l2, avatar)) <= Dist2(l1, l2)
  {
    hide Tether;
    var t1, t2 := Tether(m, l1, avatar), Tether(m, l2, avatar);
    TetherInBall(m, l1, avatar);
    TetherInBall(m, l2, avatar);
    TetherObtuse(m, l1, avatar, t2);
    TetherObtuse(m, l2, avatar, t1);
    FourPoints(l1, l2, t1, t2);
    DotSquares(Sub(Sub(l1, l2), Sub(t1, t2)));
  }

  lemma FourPoints(l1: Vec3, l2: Vec3, t1: Vec3, t2: Vec3)
    ensures Dist2(l1, l2) - Dist2(t1, t2)
            == Dot(Sub(Sub(l1, l2), Sub(t1, t2)), Sub(Sub(l1, l2), Sub(t1, t2)))
               - 2.0 * Dot(Sub(l1, t1), Sub(t2, t1)) - 2.0 * Dot(Sub(l2, t2), Sub(t1, t2))
  {
  }

  // ---------------------------------------------------------------------------
  // The rotation
  // ---------------------------------------------------------------------------

  // Vector algebra, one product at a time.

  lemma TimesScaled(a: real, k: real, b: real, kb: real)
    requires kb == k * b
    ensures a * kb == k * (a * b) && kb * a == k * (a * b)
  {
  }

  lemma TimesSum(k: real, p: real, q: real, m: real)
    requires m == p + q
    ensures k * m == k * p + k * q && m * k == k * p + k * q
  {
  }

  lemma ScaleTwice(a: real, b: real, v: Vec3)
    ensures Scale(a, Scale(b, v)) == Scale(a * b, v)
  {
    var s := Scale(b, v);
    TimesScaled(a, b, v.x, s.x);
    TimesScaled(a, b, v.y, s.y);
    TimesScaled(a, b, v.z, s.z);
  }

  lemma ScaleOfSum(k: real, u: Vec3, v: Vec3)
    ensures Scale(k, Add(u, v)) == Add(Scale(k, u), Scale(k, v))
  {
    var s := Add(u, v);
    TimesSum(k, u.x, v.x, s.x);
    TimesSum(k, u.y, v.y, s.y);
    TimesSum(k, u.z, v.z, s.z);
  }

  lemma SumOfScales(a: real, b: real, c: real, v: Vec3)
    ensures Add(Scale(a, v), Add(Scale(b, v), Scale(c, v))) == Scale(a + b + c, v)
  {
    Spread(v.x, a, b, c);
    Spread(v.y, a, b, c);
    Spread(v.z, a, b, c);
  }

  lemma Spread(k: real, a: real, b: real, c: real)
    ensures k * (a + b + c) == k * a + k * b + k * c
  {
  }

  lemma SameScale(a: real, b: real, v: Vec3)
    requires a == b
    ensures Scale(a, v) == Scale(b, v)
  {
  }

  lemma ScaleByOne(v: Vec3)
    ensures Scale(1.0, v) == v && Scale(0.0, v) == Vec3(0.0, 0.0, 0.0)
  {
  }

  /** The rotation in vector form: `v + w t + c x t` with `t = 2 c x v`. */
  function Rotated(v: Vec3, c: Vec3, w: real): Vec3 {
    var t := Scale(2.0, Cross(c, v));
    Add(v, Add(Scale(w, t), Cross(c, t)))
  }

  lemma RotationFormula(v: Vec3, q: Quat)
    ensures WorldToLocal(v, q) == Rotated(v, VectorPart(Conjugate(q)), q.w)
  {
    hide Turned, Rotated, VectorPart, Conjugate, Swung;
    var c := VectorPart(Conjugate(q));
    RotationOfTurned(v, c, q.w, Turned(c, v));
  }

  lemma RotationOfTurned(v: Vec3, c: Vec3, w: real, t: Vec3)
    requires t == Turned(c, v)
    ensures Rotated(v, c, w) == Swung(v, w, c, t)
  {
    TurnedIsCross(c, v);
    hide Turned;
    RotatedIsSwung(v, c, w, t);
  }

  lemma TurnedIsCross(c: Vec3, v: Vec3)
    ensures Turned(c, v) == Scale(2.0, Cross(c, v))
  {
  }

  lemma RotatedIsSwung(v: Vec3, c: Vec3, w: real, t: Vec3)
    ensures Add(v, Add(Scale(w, t), Cross(c, t))) == Swung(v, w, c, t)
  {
  }

  lemma CrossIsOrthogonal(c: Vec3, v: Vec3)
    ensures Dot(c, Cross(c, v)) == 0.0 && Dot(v, Cross(c, v)) == 0.0
  {
  }

  lemma TripleProduct(v: Vec3, c: Vec3, t: Vec3)
    ensures Dot(v, Cross(c, t)) == -Dot(Cross(c, v), t)
  {
  }

  lemma DotOfSum(v: Vec3, w: real, t: Vec3, s: Vec3)
    ensures var r := Add(v, Add(Scale(w, t), s));
            Dot(r, r) == Dot(v, v) + w * w * Dot(t, t) + Dot(s, s)
                         + 2.0 * (w * Dot(v, t)) + 2.0 * Dot(v, s) + 2.0 * (w * Dot(t, s))
  {
  }

  lemma DotOfScaled(k: real, a: Vec3, b: Vec3)
    ensures Dot(a, Scale(k, b)) == k * Dot(a, b) && Dot(Scale(k, b), a) == k * Dot(a, b)
  {
    var s := Scale(k, b);
    DotOfScaledSum(k, a.x, b.x, s.x, a.y, b.y, s.y, a.z, b.z, s.z, Dot(a, b));
  }

  lemma DotOfScaledSum(k: real, ax: real, bx: real, sx: real, ay: real, by_: real, sy: real,
                       az: real, bz: real, sz: real, d: real)
    requires sx == k * bx && sy == k * by_ && sz == k * bz && d == ax * bx + ay * by_ + az * bz
    ensures ax * sx + ay * sy + az * sz == k * d
  {
  }

  lemma RotatedVectorLength(v: Vec3, c: Vec3, w: real)
    ensures var r := Rotated(v, c, w);
            var u := Cross(c, v);
            Dot(r, r) == Dot(v, v) + 4.0 * Dot(u, u) * (w * w + Dot(c, c) - 1.0)
  {
    hide Dot, Cross, Scale, Add;
    var u := Cross(c, v);
    var t := Scale(2.0, u);
    var s := Cross(c, t);
    DotOfSum(v, w, t, s);
    CrossIsOrthogonal(c, v);
    CrossIsOrthogonal(c, t);
    TripleProduct(v, c, t);
    Lagrange(c, t);
    DotOfScaled(2.0, c, u);
    DotOfScaled(2.0, v, u);
    DotOfScaled(2.0, u, u);
    DotOfScaled(2.0, t, u);
    var x := Dot(u, u);
    assert Dot(t, t) == 4.0 * x;
    assert Dot(s, s) == Dot(c, c) * (4.0 * x);
    assert Dot(v, s) == -2.0 * x;
  }

  /** The length of a rotated vector, for a quaternion of any length. */
  lemma RotatedLength(v: Vec3, q: Quat)
    ensures var r := WorldToLocal(v, q);
            var u := Cross(VectorPart(q), v);
            Dot(r, r) == Dot(v, v) + 4.0 * Dot(u, u) * (Norm2(q) - 1.0)
  {
    hide WorldToLocal, Rotated, Cross, Dot, Norm2;
    RotationFormula(v, q);
    var p, c := VectorPart(q), VectorPart(Conjugate(q));
    var u := Cross(p, v);
    RotatedVectorLength(v, c, q.w);
    assert c == Scale(-1.0, p);
    CrossScales(p, -1.0, v);
    DotOfScaled(-1.0, u, u);
    DotOfScaled(-1.0, Scale(-1.0, u), u);
    NormOfParts(q);
  }

  lemma NormOfParts(q: Quat)
    ensures var c := VectorPart(Conjugate(q));
            q.w * q.w + Dot(c, c) == Norm2(q)
  {
  }

  lemma RotationAdds(v: Vec3, w: Vec3, q: Quat)
    ensures WorldToLocal(Add(v, w), q) == Add(WorldToLocal(v, q), WorldToLocal(w, q))
  {
    RotationFormula(v, q);
    RotationFormula(w, q);
    RotationFormula(Add(v, w), q);
    var c := VectorPart(Conjugate(q));
    hide WorldToLocal, Cross;
    CrossAdds(c, v, w);
    CrossAdds(c, Scale(2.0, Cross(c, v)), Scale(2.0, Cross(c, w)));
    assert Scale(2.0, Add(Cross(c, v), Cross(c, w))) == Add(Scale(2.0, Cross(c, v)), Scale(2.0, Cross(c, w)));
  }

  lemma CrossAdds(c: Vec3, v: Vec3, w: Vec3)
    ensures Cross(c, Add(v, w)) == Add(Cross(c, v), Cross(c, w))
  {
  }

  lemma CrossScales(c: Vec3, k: real, v: Vec3)
    ensures Cross(c, Scale(k, v)) == Scale(k, Cross(c, v))
    ensures Cross(Scale(k, c), v) == Scale(k, Cross(c, v))
  {
    CrossScalesRight(c, k, v);
    CrossScalesRight(v, k, c);
    CrossSwaps(v, Scale(k, c));
    CrossSwaps(v, c);
    hide Cross;
    ScaleTwice(-1.0, k, Cross(v, c));
    ScaleTwice(k, -1.0, Cross(v, c));
  }

  lemma CrossSwaps(a: Vec3, b: Vec3)
    ensures Cross(b, a) == Scale(-1.0, Cross(a, b))
  {
  }

  lemma CrossScalesRight(c: Vec3, k: real, v: Vec3)
    ensures Cross(c, Scale(k, v)) == Scale(k, Cross(c, v))
  {
    var s, u := Scale(k, v), Cross(c, v);
    CrossScalesPart(k, c.y, v.z, c.z, v.y, s.z, s.y, u.x);
    CrossScalesPart(k, c.z, v.x, c.x, v.z, s.x, s.z, u.y);
    CrossScalesPart(k, c.x, v.y, c.y, v.x, s.y, s.x, u.z);
  }

  lemma CrossScalesPart(k: real, a: real, b: real, c: real, d: real, kb: real, kd: real, m: real)
    requires kb == k * b && kd == k * d && m == a * b - c * d
    ensures a * kb - c * kd == k * m
  {
    TimesScaled(a, k, b, kb);
    TimesScaled(c, k, d, kd);
    TimesSum(k, a * b, -(c * d), m);
  }

  lemma RotationScales(k: real, v: Vec3, q: Quat)
    ensures WorldToLocal(Scale(k, v), q) == Scale(k, WorldToLocal(v, q))
  {
    RotationFormula(v, q);
    RotationFormula(Scale(k, v), q);
    var c := VectorPart(Conjugate(q));
    hide WorldToLocal, Cross;
    CrossScales(c, k, v);
    var u := Cross(c, v);
    assert Scale(2.0, Scale(k, u)) == Scale(k, Scale(2.0, u));
    CrossScales(c, k, Scale(2.0, u));
    var t, s := Scale(2.0, u), Cross(c, Scale(2.0, u));
    ScaleDistributes(k, v, q.w, t, s);
  }

  lemma ScaleDistributes(k: real, v: Vec3, w: real, t: Vec3, s: Vec3)
    ensures Add(Scale(k, v), Add(Scale(w, Scale(k, t)), Scale(k, s))) == Scale(k, Add(v, Add(Scale(w, t), s)))
  {
    hide Add, Scale;
    ScaleOfSum(k, v, Add(Scale(w, t), s));
    ScaleOfSum(k, Scale(w, t), s);
    ScaleTwice(w, k, t);
    ScaleTwice(k, w, t);
    SameScale(w * k, k * w, t);
  }

  /** The rotation is linear. */
  lemma RotationIsLinear(v: Vec3, w: Vec3, a: real, b: real, q: Quat)
    ensures WorldToLocal(Add(Scale(a, v), Scale(b, w)), q)
            == Add(Scale(a, WorldToLocal(v, q)), Scale(b, WorldToLocal(w, q)))
  {
    hide WorldToLocal;
    RotationAdds(Scale(a, v), Scale(b, w), q);
    RotationScales(a, v, q);
    RotationScales(b, w, q);
  }

  /** Crossing three times with one vector. */
  lemma TripleCross(c: Vec3, v: Vec3)
    ensures Cross(c, Cross(c, Cross(c, v))) == Scale(-Dot(c, c), Cross(c, v))
  {
    CrossIsOrthogonal(c, v);
    hide Dot, Cross;
    DoubleCross(c, Cross(c, v));
  }

  lemma DoubleCross(c: Vec3, u: Vec3)
    ensures Cross(c, Cross(c, u)) == Add(Scale(Dot(c, u), c), Scale(-Dot(c, c), u))
  {
    var d, n := Dot(c, u), Dot(c, c);
    DoubleCrossPart(c.x, c.y, c.z, u.x, u.y, u.z, d, n);
    DoubleCrossPart(c.y, c.z, c.x, u.y, u.z, u.x, d, n);
    DoubleCrossPart(c.z, c.x, c.y, u.z, u.x, u.y, d, n);
  }

  lemma DoubleCrossPart(a: real, b: real, c: real, x: real, y: real, z: real, d: real, n: real)
    requires d == a * x + b * y + c * z && n == a * a + b * b + c * c
    ensures b * (a * y - b * x) - c * (c * x - a * z) == d * a + (-n) * x
  {
  }

  lemma RotatedWritten(v: Vec3, c: Vec3, w: real)
    ensures var u := Cross(c, v);
            Rotated(v, c, w) == Add(v, Add(Scale(2.0 * w, u), Scale(2.0, Cross(c, u))))
  {
    hide Cross, Scale, Add;
    var u, two, k := Cross(c, v), 2.0, 2.0 * w;
    CrossScales(c, two, u);
    ScaleTwice(w, two, u);
    SameScale(w * two, k, u);
  }

  /** Rotating with the opposite vector part. */
  lemma RotatedByOpposite(r: Vec3, c: Vec3, w: real)
    ensures var ur := Cross(c, r);
            Rotated(r, Scale(-1.0, c), w) == Add(r, Add(Scale(w, Scale(-2.0, ur)), Scale(2.0, Cross(c, ur))))
  {
    hide Cross, Scale, Add;
    var ur, one, two, less := Cross(c, r), -1.0, 2.0, -2.0;
    CrossScales(c, one, r);
    ScaleTwice(two, one, ur);
    SameScale(two * one, less, ur);
    CrossScales(c, one, Scale(less, ur));
    CrossScales(c, less, ur);
    ScaleTwice(one, less, Cross(c, ur));
    SameScale(one * less, two, Cross(c, ur));
  }

  lemma CrossOfSum(c: Vec3, a: real, u: Vec3, b: real, v: Vec3)
    ensures Cross(c, Add(Scale(a, u), Scale(b, v))) == Add(Scale(a, Cross(c, u)), Scale(b, Cross(c, v)))
  {
    hide Cross, Scale, Add;
    CrossAdds(c, Scale(a, u), Scale(b, v));
    CrossScales(c, a, u);
    CrossScales(c, b, v);
  }

  lemma RotatedBack(v: Vec3, c: Vec3, w: real)
    ensures Rotated(Rotated(v, c, w), Scale(-1.0, c), w)
            == Add(v, Scale(4.0 * (1.0 - w * w - Dot(c, c)), Cross(c, Cross(c, v))))
  {
    hide Rotated, Dot, Cross, Scale, Add;
    var n, u := Dot(c, c), Cross(c, v);
    var u2, r := Cross(c, Cross(c, v)), Rotated(v, c, w);
    var a, k, two := 1.0 - 2.0 * n, 2.0 * w, 2.0;
    var ur := Cross(c, r);
    TripleCross(c, v);
    RotatedWritten(v, c, w);
    CrossAdds(c, v, Add(Scale(k, u), Scale(two, u2)));
    CrossOfSum(c, k, u, two, u2);
    RotatedCross(u, u2, w, n);
    assert ur == Add(Scale(a, u), Scale(k, u2));
    CrossOfSum(c, a, u, k, u2);
    RotatedCrossTwice(u, u2, w, n);
    RotatedBackSum(v, u, u2, w, n, r, ur, Cross(c, ur));
    RotatedByOpposite(r, c, w);
  }

  lemma RotatedCross(u: Vec3, u2: Vec3, w: real, n: real)
    ensures Add(u, Add(Scale(2.0 * w, u2), Scale(2.0, Scale(-n, u))))
            == Add(Scale(1.0 - 2.0 * n, u), Scale(2.0 * w, u2))
  {
    hide Scale;
    var zero, one, two := 0.0, 1.0, 2.0;
    var m, m2, k := -n, -2.0 * n, 1.0 - 2.0 * n;
    ScaleTwice(two, m, u);
    SameScale(two * m, m2, u);
    ScaleByOne(u);
    SumOfScales(one, m2, zero, u);
    SameScale(one + m2 + zero, k, u);
  }

  lemma RotatedCrossTwice(u: Vec3, u2: Vec3, w: real, n: real)
    ensures Add(Scale(1.0 - 2.0 * n, u2), Scale(2.0 * w, Scale(-n, u)))
            == Add(Scale(1.0 - 2.0 * n, u2), Scale(-2.0 * w * n, u))
  {
    hide Scale, Add;
    var a, b, c := 2.0 * w, -n, -2.0 * w * n;
    ScaleTwice(a, b, u);
    SameScale(a * b, c, u);
  }

  lemma RotatedBackSum(v: Vec3, u: Vec3, u2: Vec3, w: real, n: real, r: Vec3, ur: Vec3, ur2: Vec3)
    requires r == Add(v, Add(Scale(2.0 * w, u), Scale(2.0, u2)))
    requires ur == Add(Scale(1.0 - 2.0 * n, u), Scale(2.0 * w, u2))
    requires ur2 == Add(Scale(1.0 - 2.0 * n, u2), Scale(-2.0 * w * n, u))
    ensures Add(r, Add(Scale(w, Scale(-2.0, ur)), Scale(2.0, ur2)))
            == Add(v, Scale(4.0 * (1.0 - w * w - n), u2))
  {
    var p, q, j := 2.0 * w, 1.0 - 2.0 * n, -2.0 * w * n;
    var k, m := -2.0 * w, 2.0;
    hide Scale;
    CombinationTwice(w, -2.0, k, q, u, p, u2, ur);
    CombinationTwice(1.0, 2.0, m, q, u2, j, u, ur2);
    ScaleByOne(Scale(2.0, ur2));
    Coefficients(w, n, k, p, q, j);
    SumOfScales(p, k * q, m * j, u);
    SumOfScales(m, k * p, m * q, u2);
    SameScale(p + k * q + m * j, 0.0, u);
    SameScale(m + k * p + m * q, 4.0 * (1.0 - w * w - n), u2);
    ScaleByOne(u);
  }

  lemma CombinationTwice(j: real, l: real, k: real, a: real, u: Vec3, b: real, v: Vec3, s: Vec3)
    requires k == j * l && s == Add(Scale(a, u), Scale(b, v))
    ensures Scale(j, Scale(l, s)) == Add(Scale(k * a, u), Scale(k * b, v))
  {
    hide Scale, Add;
    ScaleTwice(j, l, s);
    SameScale(j * l, k, s);
    ScaledCombination(k, a, u, b, v);
  }

  lemma ScaledCombination(k: real, a: real, u: Vec3, b: real, v: Vec3)
    ensures Scale(k, Add(Scale(a, u), Scale(b, v))) == Add(Scale(k * a, u), Scale(k * b, v))
  {
    hide Scale, Add;
    ScaleOfSum(k, Scale(a, u), Scale(b, v));
    ScaleTwice(k, a, u);
    ScaleTwice(k, b, v);
  }

  lemma Coefficients(w: real, n: real, k: real, p: real, q: real, j: real)
    requires k == -2.0 * w && p == 2.0 * w && q == 1.0 - 2.0 * n && j == -2.0 * w * n
    ensures p + k * q + 2.0 * j == 0.0
    ensures 2.0 + k * p + 2.0 * q == 4.0 * (1.0 - w * w - n)
  {
  }

  /** Rotating by the conjugate afterwards, for a quaternion of any length. */
  lemma RotateBack(v: Vec3, q: Quat)
    ensures var u := VectorPart(q);
            WorldToLocal(WorldToLocal(v, q), Conjugate(q))
            == Add(v, Scale(4.0 * (1.0 - Norm2(q)), Cross(u, Cross(u, v))))
  {
    var u := VectorPart(q);
    var c := VectorPart(Conjugate(q));
    hide WorldToLocal;
    RotationFormula(v, q);
    RotationFormula(WorldToLocal(v, q), Conjugate(q));
    RotatedBack(v, c, q.w);
    hide Rotated;
    assert VectorPart(Conjugate(Conjugate(q))) == u == Scale(-1.0, c);
    NormOfParts(q);
    CrossScales(u, -1.0, v);
    CrossScales(u, -1.0, Cross(u, v));
    assert c == Scale(-1.0, u);
    hide Cross;
    CrossScales(u, -1.0, Scale(-1.0, Cross(u, v)));
    assert Scale(-1.0, Scale(-1.0, Cross(u, Cross(u, v)))) == Cross(u, Cross(u, v));
  }

  /** The product of quaternions. */
  function Times(p: Quat, q: Quat): Quat {
    var u, v := VectorPart(p), VectorPart(q);
    var r := Add(Add(Scale(p.w, v), Scale(q.w, u)), Cross(u, v));
    Quat(r.x, r.y, r.z, p.w * q.w - Dot(u, v))
  }

  /** `v` as a quaternion without a real part. */
  function Pure(v: Vec3): Quat {
    Quat(v.x, v.y, v.z, 0.0)
  }

  lemma TimesPure(c: Vec3, w: real, v: Vec3)
    ensures var a := Add(Scale(w, v), Cross(c, v));
            Times(Quat(c.x, c.y, c.z, w), Pure(v)) == Quat(a.x, a.y, a.z, -Dot(c, v))
  {
    assert VectorPart(Quat(c.x, c.y, c.z, w)) == c && VectorPart(Pure(v)) == v;
    ScaleByOne(c);
    hide Cross, Dot, Scale;
  }

  lemma TimesOpposite(a: Vec3, d: real, c: Vec3, w: real)
    ensures var m := Scale(-1.0, c);
            var s := Times(Quat(a.x, a.y, a.z, -d), Quat(m.x, m.y, m.z, w));
            VectorPart(s) == Add(Add(Scale(d, c), Scale(w, a)), Cross(c, a)) && s.w == Dot(a, c) - w * d
  {
    var m, minus, e := Scale(-1.0, c), -1.0, -d;
    assert VectorPart(Quat(a.x, a.y, a.z, -d)) == a && VectorPart(Quat(m.x, m.y, m.z, w)) == m;
    DotOfScaled(minus, a, c);
    CrossScales(a, minus, c);
    CrossSwaps(a, c);
    hide Cross, Dot, Scale;
    ScaleTwice(e, minus, c);
    SameScale(e * minus, d, c);
  }

  /** Conjugate times vector times quaternion, multiplied out. */
  lemma SandwichParts(v: Vec3, c: Vec3, w: real)
    ensures var m := Scale(-1.0, c);
            var s := Times(Times(Quat(c.x, c.y, c.z, w), Pure(v)), Quat(m.x, m.y, m.z, w));
            s.w == 0.0 && VectorPart(s) == Add(Rotated(v, c, w), Scale(w * w + Dot(c, c) - 1.0, v))
  {
    var u, d, n := Cross(c, v), Dot(c, v), Dot(c, c);
    var a := Add(Scale(w, v), u);
    TimesPure(c, w, v);
    TimesOpposite(a, d, c, w);
    hide Times;
    DotWithOffset(c, v, w);
    DoubleCross(c, v);
    hide Dot;
    CrossAdds(c, Scale(w, v), u);
    CrossScales(c, w, v);
    var two, zero, one := 2.0, 0.0, 1.0;
    CrossScales(c, two, u);
    hide Cross;
    ScaleOfSum(w, Scale(w, v), u);
    ScaleTwice(w, w, v);
    ScaleTwice(w, two, u);
    SumOfScales(w, w, zero, u);
    SameScale(w + w + zero, w * two, u);
    var k, j := w * w, w * w + n - 1.0;
    SumOfScales(k, n, zero, v);
    SumOfScales(j, one, zero, v);
    SumOfScales(n, -n, zero, v);
    SameScale(k + n + zero, j + one + zero, v);
    SameScale(n + -n + zero, zero, v);
    ScaleByOne(v);
    ScaleByOne(u);
    hide Scale;
  }

  lemma DotWithOffset(c: Vec3, v: Vec3, w: real)
    ensures var a := Add(Scale(w, v), Cross(c, v));
            Dot(a, c) == w * Dot(c, v)
  {
    var u := Cross(c, v);
    CrossIsOrthogonal(c, v);
    DotOfScaled(w, c, v);
    DotOfTwo(Scale(w, v), u, c);
  }

  lemma DotOfTwo(a: Vec3, b: Vec3, c: Vec3)
    ensures Dot(Add(a, b), c) == Dot(c, a) + Dot(c, b)
  {
    var s := Add(a, b);
    TimesSum(c.x, a.x, b.x, s.x);
    TimesSum(c.y, a.y, b.y, s.y);
    TimesSum(c.z, a.z, b.z, s.z);
  }

  /** The expanded formula is the sandwich `q* v q` of quaternion algebra: exactly so for a
      unit quaternion, and off by a multiple of `v` for any other. */
  lemma RotationIsSandwich(v: Vec3, q: Quat)
    ensures var s := Times(Times(Conjugate(q), Pure(v)), q);
            s.w == 0.0 && VectorPart(s) == Add(WorldToLocal(v, q), Scale(Norm2(q) - 1.0, v))
  {
    var c := VectorPart(Conjugate(q));
    RotationFormula(v, q);
    NormOfParts(q);
    SandwichParts(v, c, q.w);
    hide WorldToLocal, Rotated, Times, Dot;
    assert q == Quat(Scale(-1.0, c).x, Scale(-1.0, c).y, Scale(-1.0, c).z, q.w);
    assert Conjugate(q) == Quat(c.x, c.y, c.z, q.w);
  }

  /** For a unit quaternion the rotation keeps lengths and the conjugate undoes it. */
  lemma UnitRotation(v: Vec3, q: Quat)
    requires Norm2(q) == 1.0
    ensures Dot(WorldToLocal(v, q), WorldToLocal(v, q)) == Dot(v, v)
    ensures WorldToLocal(WorldToLocal(v, q), Conjugate(q)) == v
  {
    hide WorldToLocal, Cross;
    RotatedLength(v, q);
    RotateBack(v, q);
  }

  // ---------------------------------------------------------------------------
  // Panning
  // ---------------------------------------------------------------------------

  /** The clamp on the lateral component never acts. */
  lemma LateralInRange(m: Libm, speaker: Vec3, ear: Vec3, rot: Quat)
    requires m.Laws()
    ensures -1.0 <= Lateral(m, speaker, ear, rot) <= 1.0
    ensures PanAngle(m, speaker, ear, rot) == (Lateral(m, speaker, ear, rot) + 1.0) * m.quarterPi
    ensures 0.0 <= PanAngle(m, speaker, ear, rot) <= 2.0 * m.quarterPi
  {
    hide Libm.Laws, WorldToLocal, LateralOf;
    Turn(m, 0.0);
    var local := WorldToLocal(Sub(speaker, ear), rot);
    LateralOfInRange(m, local.x, local.y);
    AngleInRange(Lateral(m, speaker, ear, rot), m.quarterPi);
  }

  lemma HorizontalBounds(m: Libm, x: real, y: real)
    requires m.Laws()
    ensures Horizontal(m, x, y) >= 0.0
    ensures -Horizontal(m, x, y) <= x <= Horizontal(m, x, y)
  {
    hide Libm.Laws;
    var h, xx, yy := Horizontal(m, x, y), x * x, y * y;
    SquareNonNegative(x);
    SquareNonNegative(y);
    Root(m, xx + yy);
    AbsOfRoot(x, h);
  }

  lemma LateralOfInRange(m: Libm, x: real, y: real)
    requires m.Laws()
    ensures -1.0 <= LateralOf(m, x, y) <= 1.0
  {
    hide Libm.Laws, Horizontal;
    var h := Horizontal(m, x, y);
    HorizontalBounds(m, x, y);
    if h >= 0.000001 {
      QuotientInRange(x, h);
    }
  }

  lemma AbsOfRoot(x: real, h: real)
    requires h >= 0.0 && x * x <= h * h
    ensures -h <= x <= h
  {
    if x >= 0.0 {
      SquaresAreOrdered(x, h);
    } else {
      assert (-x) * (-x) == x * x;
      SquaresAreOrdered(-x, h);
    }
  }

  lemma QuotientInRange(x: real, h: real)
    requires h > 0.0 && -h <= x <= h
    ensures -1.0 <= x / h <= 1.0
  {
  }

  lemma AngleInRange(lateral: real, q: real)
    requires -1.0 <= lateral <= 1.0 && q > 0.0
    ensures 0.0 <= (lateral + 1.0) * q <= 2.0 * q
    ensures (lateral + 1.0) * q > q <==> lateral > 0.0
    ensures (lateral + 1.0) * q == q <==> lateral == 0.0
    ensures 2.0 * q - (lateral + 1.0) * q == (-lateral + 1.0) * q
  {
  }

  lemma WeightsAreSines(m: Libm, speaker: Vec3, ear: Vec3, rot: Quat)
    requires m.Laws()
    ensures var lateral := Lateral(m, speaker, ear, rot);
            PanWeights(m, speaker, ear, rot)
            == (m.sin((-lateral + 1.0) * m.quarterPi), m.sin((lateral + 1.0) * m.quarterPi))
  {
    LateralInRange(m, speaker, ear, rot);
    Turn(m, PanAngle(m, speaker, ear, rot));
    hide Libm.Laws, Lateral, PanAngle;
    AngleInRange(Lateral(m, speaker, ear, rot), m.quarterPi);
  }

  /** Constant power: the squared weights sum to one, and neither weight is negative. */
  lemma PanIsConstantPower(m: Libm, speaker: Vec3, ear: Vec3, rot: Quat)
    requires m.Laws()
    ensures var (l, r) := PanWeights(m, speaker, ear, rot);
            l * l + r * r == 1.0 && 0.0 <= l <= 1.0 && 0.0 <= r <= 1.0
  {
    hide Libm.Laws, Lateral, PanAngle;
    LateralInRange(m, speaker, ear, rot);
    var angle := PanAngle(m, speaker, ear, rot);
    Turn(m, angle);
    SinesAreNonNegative(m, angle);
    SinesAreNonNegative(m, 2.0 * m.quarterPi - angle);
    UnitPair(m.cos(angle), m.sin(angle));
  }

  lemma SinesAreNonNegative(m: Libm, a: real)
    requires m.Laws() && 0.0 <= a <= 2.0 * m.quarterPi
    ensures m.sin(a) >= 0.0
  {
    if a > 0.0 {
      assert m.sin(0.0) < m.sin(a);
    }
  }

  lemma UnitPair(l: real, r: real)
    requires l >= 0.0 && r >= 0.0 && r * r + l * l == 1.0
    ensures l <= 1.0 && r <= 1.0
  {
    SquareNonNegative(l);
    SquareNonNegative(r);
    SquaresAreOrdered(l, 1.0);
    SquaresAreOrdered(r, 1.0);
  }

  /** Within a micrometre of the listener's vertical axis, in the listener's own frame. */
  predicate OnAxis(local: Vec3) {
    local.x * local.x + local.y * local.y < 0.000000000001
  }

  lemma AxisIsCentre(m: Libm, x: real, y: real, z: real)
    requires m.Laws()
    ensures Horizontal(m, x, y) < 0.000001 <==> OnAxis(Vec3(x, y, z))
  {
    hide Libm.Laws;
    SquareNonNegative(x);
    SquareNonNegative(y);
    RootOrder(m, x * x + y * y, 0.000001);
  }

  /** The sign of the lateral component is that of the side, except on the axis. */
  lemma LateralSide(m: Libm, x: real, y: real, z: real)
    requires m.Laws()
    ensures LateralOf(m, x, y) > 0.0 <==> x > 0.0 && !OnAxis(Vec3(x, y, z))
    ensures LateralOf(m, x, y) == 0.0 <==> x == 0.0 || OnAxis(Vec3(x, y, z))
  {
    hide Libm.Laws, Horizontal, OnAxis;
    AxisIsCentre(m, x, y, z);
    if Horizontal(m, x, y) >= 0.000001 {
      QuotientSign(x, Horizontal(m, x, y));
    }
  }

  lemma QuotientSign(x: real, h: real)
    requires h > 0.0
    ensures x / h > 0.0 <==> x > 0.0
    ensures x / h == 0.0 <==> x == 0.0
  {
    var q := x / h;
    assert q * h == x;
    if q > 0.0 {
      PositiveProduct(q, h);
    } else if q < 0.0 {
      NegativeProduct(q, h);
    }
  }

  lemma HorizontalSquared(m: Libm, x: real, y: real, xx: real, hh: real)
    requires m.Laws() && xx == x * x && hh == xx + y * y
    ensures Horizontal(m, x, y) * Horizontal(m, x, y) == hh
  {
    hide Libm.Laws;
    SquareNonNegative(x);
    SquareNonNegative(y);
    Root(m, hh);
  }

  /** Off the axis the lateral component is the sine of the direction: its square times the
      squared horizontal distance is the square of the sideways offset, and its sign is the
      side. */
  lemma LateralIsSine(m: Libm, local: Vec3, xx: real, hh: real)
    requires m.Laws() && !OnAxis(local)
    requires xx == local.x * local.x && hh == xx + local.y * local.y
    ensures var l := LateralOf(m, local.x, local.y);
            && (l * l) * hh == xx
            && (l > 0.0 <==> local.x > 0.0) && (l < 0.0 <==> local.x < 0.0)
  {
    hide Libm.Laws, OnAxis, Horizontal;
    LateralSide(m, local.x, local.y, local.z);
    AxisIsCentre(m, local.x, local.y, local.z);
    assert Vec3(local.x, local.y, local.z) == local;
    HorizontalSquared(m, local.x, local.y, xx, hh);
    var h, l := Horizontal(m, local.x, local.y), LateralOf(m, local.x, local.y);
    assert l == local.x / h;
    hide LateralOf;
    QuotientSquared(local.x, h, l, xx, hh);
  }

  lemma QuotientSquared(x: real, h: real, l: real, xx: real, hh: real)
    requires h > 0.0 && l == x / h && hh == h * h && xx == x * x
    ensures (l * l) * hh == xx
  {
    assert l * h == x;
    assert (l * l) * (h * h) == (l * h) * (l * h);
  }

  /** A speaker due right of the listener is heard on the right alone, one due left on the left
      alone. */
  lemma PanHardOver(m: Libm, speaker: Vec3, ear: Vec3, rot: Quat)
    requires m.Laws()
    requires var local := WorldToLocal(Sub(speaker, ear), rot);
             local.y == 0.0 && !OnAxis(local)
    ensures PanWeights(m, speaker, ear, rot) ==
              if WorldToLocal(Sub(speaker, ear), rot).x > 0.0 then (0.0, 1.0) else (1.0, 0.0)
  {
    hide Libm.Laws, WorldToLocal, LateralOf, PanWeights, PanAngle;
    var local := WorldToLocal(Sub(speaker, ear), rot);
    var l, xx := LateralOf(m, local.x, local.y), local.x * local.x;
    LateralIsSine(m, local, xx, xx);
    OffAxis(local);
    hide OnAxis;
    UnitSquare(l, local.x, xx);
    WeightsAreSines(m, speaker, ear, rot);
    RightAngle(m);
    if l == 1.0 {
      assert (-l + 1.0) * m.quarterPi == 0.0 && (l + 1.0) * m.quarterPi == 2.0 * m.quarterPi;
    } else {
      assert (-l + 1.0) * m.quarterPi == 2.0 * m.quarterPi && (l + 1.0) * m.quarterPi == 0.0;
    }
  }

  lemma OffAxis(local: Vec3)
    requires local.y == 0.0 && !OnAxis(local)
    ensures local.x != 0.0
  {
  }

  lemma RightAngle(m: Libm)
    requires m.Laws()
    ensures m.sin(0.0) == 0.0 && m.sin(2.0 * m.quarterPi) == 1.0
  {
    var s := m.sin(2.0 * m.quarterPi);
    Turn(m, 2.0 * m.quarterPi);
    assert m.cos(2.0 * m.quarterPi) == m.sin(0.0) == 0.0;
    SinesAreNonNegative(m, 2.0 * m.quarterPi);
    hide Libm.Laws;
    assert s * s == 1.0;
    SquaresAreOrdered(s, 1.0);
  }

  lemma SquareIsPositive(x: real, xx: real)
    requires xx == x * x && x != 0.0
    ensures xx > 0.0
  {
    SquareNonNegative(x);
    if xx == 0.0 {
      SquaresAreOrdered(if x >= 0.0 then x else -x, 0.0);
    }
  }

  lemma UnitSquare(l: real, x: real, xx: real)
    requires xx == x * x && (l * l) * xx == xx && x != 0.0
    requires (l > 0.0 <==> x > 0.0) && (l < 0.0 <==> x < 0.0)
    ensures l == if x > 0.0 then 1.0 else -1.0
  {
    SquareIsPositive(x, xx);
    OneFactor(l * l, xx);
    if l > 0.0 {
      SquaresAreOrdered(l, 1.0);
    } else {
      var k := -l;
      OppositeSquare(l, k);
      SquaresAreOrdered(k, 1.0);
    }
  }

  lemma OppositeSquare(x: real, y: real)
    requires y == -x
    ensures y * y == x * x
  {
  }

  lemma OneFactor(a: real, b: real)
    requires b > 0.0 && a * b == b
    ensures a == 1.0
  {
    if a > 1.0 {
      PositiveProduct(a - 1.0, b);
    } else if a < 1.0 {
      PositiveProduct(1.0 - a, b);
    }
  }

  /** The right channel is the louder one exactly when the speaker is to the right of the
      listener and off its axis, and both are equally loud exactly when the speaker is straight
      ahead, straight behind or on the axis. */
  lemma PanFollowsTheSide(m: Libm, speaker: Vec3, ear: Vec3, rot: Quat)
    requires m.Laws()
    ensures var (l, r) := PanWeights(m, speaker, ear, rot);
            var local := WorldToLocal(Sub(speaker, ear), rot);
            && (r > l <==> local.x > 0.0 && !OnAxis(local))
            && (r == l <==> local.x == 0.0 || OnAxis(local))
  {
    hide Libm.Laws, LateralOf, WorldToLocal, OnAxis, PanWeights;
    var local := WorldToLocal(Sub(speaker, ear), rot);
    LateralSide(m, local.x, local.y, local.z);
    assert Vec3(local.x, local.y, local.z) == local;
    PanFollowsLateral(m, speaker, ear, rot);
  }

  lemma PanFollowsLateral(m: Libm, speaker: Vec3, ear: Vec3, rot: Quat)
    requires m.Laws()
    ensures var (l, r) := PanWeights(m, speaker, ear, rot);
            && (r > l <==> Lateral(m, speaker, ear, rot) > 0.0)
            && (r == l <==> Lateral(m, speaker, ear, rot) == 0.0)
  {
    hide Libm.Laws, Lateral, PanWeights, PanAngle;
    WeightsAreSines(m, speaker, ear, rot);
    LateralInRange(m, speaker, ear, rot);
    var lateral := Lateral(m, speaker, ear, rot);
    Turn(m, 0.0);
    var a, b := (-lateral + 1.0) * m.quarterPi, (lateral + 1.0) * m.quarterPi;
    AngleInRange(lateral, m.quarterPi);
    AngleInRange(-lateral, m.quarterPi);
    SinesAreOrdered(m, a, b);
  }

  lemma SinesAreOrdered(m: Libm, a: real, b: real)
    requires m.Laws() && 0.0 <= a <= 2.0 * m.quarterPi && 0.0 <= b <= 2.0 * m.quarterPi
    ensures m.sin(a) < m.sin(b) <==> a < b
    ensures m.sin(a) == m.sin(b) <==> a == b
  {
  }

  lemma LateralMirror(m: Libm, a: Vec3, b: Vec3, rot: Quat)
    requires m.Laws()
    ensures Lateral(m, a, b, rot) == -Lateral(m, b, a, rot)
  {
    hide Libm.Laws, WorldToLocal, LateralOf;
    var minus := -1.0;
    assert Sub(a, b) == Scale(minus, Sub(b, a));
    RotationScales(minus, Sub(b, a), rot);
    var p, q := WorldToLocal(Sub(b, a), rot), WorldToLocal(Sub(a, b), rot);
    assert q.x == -p.x && q.y == -p.y;
    LateralOfMirror(m, p.x, p.y, q.x, q.y);
  }

  lemma LateralOfMirror(m: Libm, x: real, y: real, x': real, y': real)
    requires m.Laws() && x' == -x && y' == -y
    ensures LateralOf(m, x', y') == -LateralOf(m, x, y)
  {
    hide Libm.Laws, Horizontal;
    HorizontalMirror(m, x, y, x', y');
    var h := Horizontal(m, x, y);
    if h >= 0.000001 {
      QuotientMirror(x, x', h);
    }
  }

  lemma HorizontalMirror(m: Libm, x: real, y: real, x': real, y': real)
    requires x' == -x && y' == -y
    ensures Horizontal(m, x', y') == Horizontal(m, x, y)
  {
    assert x' * x' == x * x && y' * y' == y * y;
  }

  lemma QuotientMirror(x: real, x': real, h: real)
    requires h > 0.0 && x' == -x
    ensures x' / h == -(x / h)
  {
    var l, r := x' / h, x / h;
    assert l * h == x' && r * h == x;
    assert (l + r) * h == 0.0;
  }

  /** Two people facing the same way hear each other on opposite sides. */
  lemma PanMirror(m: Libm, a: Vec3, b: Vec3, rot: Quat)
    requires m.Laws()
    ensures PanWeights(m, a, b, rot) == (PanWeights(m, b, a, rot).1, PanWeights(m, b, a, rot).0)
  {
    hide Libm.Laws, Lateral, PanWeights;
    LateralMirror(m, a, b, rot);
    WeightsAreSines(m, a, b, rot);
    WeightsAreSines(m, b, a, rot);
    var x, y := Lateral(m, a, b, rot), Lateral(m, b, a, rot);
    assert (-x + 1.0) * m.quarterPi == (y + 1.0) * m.quarterPi;
    assert (x + 1.0) * m.quarterPi == (-y + 1.0) * m.quarterPi;
  }

  // ---------------------------------------------------------------------------
  // Distance
  // ---------------------------------------------------------------------------

  /** Full volume within 10 m, silence from 60 m, and never louder further away. */
  lemma DistanceGainFalls(d: real, e: real)
    requires 0.0 <= d <= e
    ensures 0.0 <= DistanceGain(e) <= DistanceGain(d) <= 1.0
    ensures DistanceGain(d) == 1.0 <==> d <= 10.0
    ensures DistanceGain(d) == 0.0 <==> d >= 60.0
  {
  }

  /** Between 10 m and 60 m equal steps away cost equal gain, one fiftieth a metre. */
  lemma DistanceGainIsLinear(d: real, e: real)
    requires 10.0 <= d <= e <= 60.0
    ensures DistanceGain(d) - DistanceGain(e) == (e - d) / 50.0
    ensures DistanceGain(10.0) == 1.0 && DistanceGain(60.0) == 0.0
  {
  }

  /** Two legs of a path of at most x and less than y stay below x + y. */
  lemma Triangle(a: Vec3, b: Vec3, c: Vec3, x: real, y: real)
    requires x >= 0.0 && y > 0.0
    requires Dist2(a, b) <= x * x && Dist2(b, c) < y * y
    ensures Dist2(a, c) < (x + y) * (x + y)
  {
    var u, v := Sub(a, b), Sub(b, c);
    assert Sub(a, c) == Add(u, v);
    hide Dot;
    CauchySchwarz(u, v);
    DotSquares(u);
    DotSquares(v);
    SumOfSquaresExpands(u, v);
    TriangleOfSquares(Dot(u, u), Dot(v, v), Dot(u, v), x, y);
  }

  lemma TriangleOfSquares(uu: real, vv: real, p: real, x: real, y: real)
    requires 0.0 <= uu <= x * x && 0.0 <= vv < y * y && p * p <= uu * vv
    requires x >= 0.0 && y > 0.0
    ensures uu + vv + 2.0 * p < (x + y) * (x + y)
  {
    BoundedProduct(uu, vv, p, x, y, x * x, y * y, x * y);
    SquareOfSum(x, y);
  }

  lemma BoundedProduct(uu: real, vv: real, p: real, x: real, y: real, xx: real, yy: real, xy: real)
    requires xx == x * x && yy == y * y && xy == x * y
    requires 0.0 <= uu <= xx && 0.0 <= vv < yy && p * p <= uu * vv
    requires x >= 0.0 && y > 0.0
    ensures p <= xy
  {
    assert p * p <= yy * xx by {
      ProductIsMonotone(uu, vv, yy);
      ProductIsMonotone(yy, uu, xx);
    }
    SquareOfProduct(x, y, xx, yy, xy);
    if p >= 0.0 {
      SquaresAreOrdered(p, xy);
    }
  }

  lemma SquareOfProduct(x: real, y: real, xx: real, yy: real, xy: real)
    requires xx == x * x && yy == y * y && xy == x * y
    ensures xy * xy == yy * xx
    ensures x >= 0.0 && y >= 0.0 ==> xy >= 0.0
  {
    TimesScaled(xy, y, x, xy);
    assert y * (xy * x) == y * (y * (x * x)) by {
      TimesScaled(x, y, x, xy);
    }
    TimesScaled(xx, y, y, yy);
  }

  lemma SquareOfSum(x: real, y: real)
    ensures (x + y) * (x + y) == x * x + y * y + 2.0 * (x * y)
  {
  }

  lemma SumOfSquaresExpands(u: Vec3, v: Vec3)
    ensures Dot(Add(u, v), Add(u, v)) == Dot(u, u) + Dot(v, v) + 2.0 * Dot(u, v)
  {
  }

  // ---------------------------------------------------------------------------
  // The speech level
  // ---------------------------------------------------------------------------

  lemma {:induction false} SumOfSquaresNonNegative(f: Frame)
    ensures SumOfSquares(f) >= 0.0
  {
    if f != [] {
      SumOfSquaresNonNegative(f[..|f| - 1]);
      SquareNonNegative(f[|f| - 1]);
    }
  }

  /** The wire level fits the viewer's scale and means "speaking" from 39 upwards. */
  lemma LevelInRange(m: Libm, f: Frame)
    requires m.Laws()
    ensures 0 <= LevelToWire(m, f) <= 127
    ensures f == [] ==> LevelToWire(m, f) == 0
    ensures Speaking(LevelToWire(m, f)) <==> LevelToWire(m, f) >= 39
  {
    if f != [] {
      SumOfSquaresNonNegative(f);
      var mean := SumOfSquares(f) / |f| as real;
      assert mean >= 0.0;
      Root(m, mean);
    }
  }

  /** Which level a frame reaches, without a root: its mean square in steps of 1/512. */
  lemma LevelThreshold(m: Libm, f: Frame, level: int)
    requires m.Laws() && f != [] && 1 <= level <= 127
    ensures LevelToWire(m, f) >= level
            <==> SumOfSquares(f) * 262144.0 >= (level * level) as real * |f| as real
  {
    hide Libm.Laws, SumOfSquares;
    var n, sum, l := |f| as real, SumOfSquares(f), level as real;
    SumOfSquaresNonNegative(f);
    var mean := sum / n;
    QuotientTimes(sum, n, l * l / 262144.0);
    Root(m, mean);
    var rms := m.sqrt(mean);
    RootOrder(m, mean, l / 512.0);
    assert (l / 512.0) * (l / 512.0) == l * l / 262144.0;
    assert LevelToWire(m, f) >= level <==> rms >= l / 512.0;
    assert (level * level) as real == l * l;
    assert (l * l / 262144.0) * n * 262144.0 == (l * l) * n;
  }

  lemma QuotientTimes(sum: real, n: real, x: real)
    requires n > 0.0 && sum >= 0.0
    ensures sum / n >= 0.0
    ensures sum / n >= x <==> sum >= x * n
  {
    var q := sum / n;
    assert q * n == sum;
    if q < 0.0 {
      NegativeProduct(q, n);
    }
    if q >= x {
      ProductIsMonotone(n, x, q);
    } else {
      PositiveProduct(x - q, n);
      TimesSum(n, q, x - q, x);
    }
  }

  lemma NegativeProduct(q: real, n: real)
    requires q < 0.0 && n > 0.0
    ensures q * n < 0.0
  {
    PositiveProduct(-q, n);
  }
}
