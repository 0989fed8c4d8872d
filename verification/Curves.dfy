/**
 * The cubic Bézier curves of a crossover.
 */
module Curves {

  function Lerp(a: real, b: real, t: real): real { a + (b - a) * t }

  /** De Casteljau's construction. */
  function Bezier(a: real, b: real, c: real, d: real, t: real): real {
    var ab, bc, cd := Lerp(a, b, t), Lerp(b, c, t), Lerp(c, d, t);
    Lerp(Lerp(ab, bc, t), Lerp(bc, cd, t), t)
  }

  /** `M x0 y0 C x1 y0, x2 y3, x3 y3`: level at both ends. */
  datatype Cubic = Cubic(x0: real, x1: real, x2: real, x3: real, y0: real, y3: real)

  function X(c: Cubic, t: real): real { Bezier(c.x0, c.x1, c.x2, c.x3, t) }
  function Y(c: Cubic, t: real): real { Bezier(c.y0, c.y0, c.y3, c.y3, t) }

  /** The control points never fold back. */
  predicate Forward(c: Cubic) { c.x0 < c.x1 <= c.x2 < c.x3 }

  /** The same run, taken between the lanes the other way round. */
  function Mirror(c: Cubic): Cubic { c.(y0 := c.y3, y3 := c.y0) }

  lemma Product(x: real, y: real)
    requires x >= 0.0 && y >= 0.0
    ensures x * y >= 0.0
    ensures x > 0.0 && y > 0.0 ==> x * y > 0.0
  {
  }

  lemma Distribute(k: real, u: real, t: real)
    ensures k * (u - t) == k * u - k * t
  {
  }

  lemma LerpGrows(a: real, b: real, c: real, d: real, t: real)
    requires a <= c && b <= d && 0.0 <= t <= 1.0
    ensures Lerp(a, b, t) <= Lerp(c, d, t)
  {
    Product(c - a, 1.0 - t); Product(d - b, t);
    assert (c - a) * (1.0 - t) + (d - b) * t == Lerp(c, d, t) - Lerp(a, b, t);
  }

  lemma LerpAdvances(a: real, b: real, t: real, u: real)
    requires a <= b && t <= u
    ensures Lerp(a, b, t) <= Lerp(a, b, u)
    ensures a < b && t < u ==> Lerp(a, b, t) < Lerp(a, b, u)
  {
    Product(b - a, u - t);
    Distribute(b - a, u, t);
  }

  lemma LerpBetween(a: real, b: real, t: real)
    requires a <= b && 0.0 <= t <= 1.0
    ensures a <= Lerp(a, b, t) <= b
    ensures a < b && t > 0.0 ==> a < Lerp(a, b, t)
    ensures a < b && t < 1.0 ==> Lerp(a, b, t) < b
  {
    LerpAdvances(a, b, 0.0, t); LerpAdvances(a, b, t, 1.0);
    assert Lerp(a, b, 0.0) == a && Lerp(a, b, 1.0) == b;
  }

  /** The curve runs strictly left to right. */
  lemma XAdvances(c: Cubic, t: real, u: real)
    requires Forward(c) && 0.0 <= t < u <= 1.0
    ensures X(c, t) < X(c, u)
  {
    var a, b, d := Lerp(c.x0, c.x1, t), Lerp(c.x1, c.x2, t), Lerp(c.x2, c.x3, t);
    var a', b', d' := Lerp(c.x0, c.x1, u), Lerp(c.x1, c.x2, u), Lerp(c.x2, c.x3, u);
    LerpAdvances(c.x0, c.x1, t, u); LerpAdvances(c.x1, c.x2, t, u); LerpAdvances(c.x2, c.x3, t, u);
    LerpBetween(c.x0, c.x1, u); LerpBetween(c.x1, c.x2, u); LerpBetween(c.x2, c.x3, u);
    LerpBetween(c.x0, c.x1, t); LerpBetween(c.x1, c.x2, t); LerpBetween(c.x2, c.x3, t);
    StageAdvances(a, b, a', b', t, u); StageAdvances(b, d, b', d', t, u);
    SecondStageApart(a', b', d', u);
    StageAdvances(Lerp(a, b, t), Lerp(b, d, t), Lerp(a', b', u), Lerp(b', d', u), t, u);
  }

  lemma StageAdvances(a: real, b: real, a': real, b': real, t: real, u: real)
    requires a <= a' && b <= b' && a' <= b' && 0.0 <= t < u <= 1.0
    ensures Lerp(a, b, t) <= Lerp(a', b', u)
    ensures a' < b' ==> Lerp(a, b, t) < Lerp(a', b', u)
  {
    LerpGrows(a, b, a', b', t);
    LerpAdvances(a', b', t, u);
  }

  lemma SecondStageApart(a: real, b: real, d: real, u: real)
    requires a <= b <= d && 0.0 < u <= 1.0 && (b < d || (a < b && u < 1.0))
    ensures Lerp(a, b, u) < Lerp(b, d, u)
  {
    LerpBetween(a, b, u); LerpBetween(b, d, u);
  }

  lemma XEnds(c: Cubic, t: real)
    requires Forward(c) && 0.0 <= t <= 1.0
    ensures X(c, 0.0) == c.x0 && X(c, 1.0) == c.x3
    ensures c.x0 <= X(c, t) <= c.x3
  {
    if t > 0.0 { XAdvances(c, 0.0, t); }
    if t < 1.0 { XAdvances(c, t, 1.0); }
  }

  /** How far a point moves at most along that length. */
  function Reach(long: real, t: real, u: real): real { long * (u - t) }

  lemma ReachIsPositive(long: real, t: real, u: real)
    requires long >= 0.0 && t <= u
    ensures Reach(long, t, u) >= 0.0
  {
    Product(long, u - t);
  }

  /** One stage of the construction moves no faster than its ends and its own length let it. */
  lemma StageIsSlow(a: real, b: real, a': real, b': real, t: real, u: real, near: real, long: real)
    requires a <= a' <= a + near && b <= b' <= b + near && a' <= b' <= a' + long
    requires 0.0 <= t <= u <= 1.0 && 0.0 <= near
    ensures Lerp(a', b', u) - Lerp(a, b, t) <= near + Reach(long, t, u)
  {
    var l, m := Lerp(a', b', u), Lerp(a', b', t);
    assert l - m <= Reach(long, t, u) by {
      Distribute(b' - a', u, t);
      Product(long - (b' - a'), u - t);
    }
    assert m - Lerp(a, b, t) <= near by {
      Product(near - (a' - a), 1.0 - t); Product(near - (b' - b), t);
      assert (near - (a' - a)) * (1.0 - t) + (near - (b' - b)) * t == near - (m - Lerp(a, b, t));
    }
  }

  lemma XStages(c: Cubic, t: real)
    ensures var a, b, d := Lerp(c.x0, c.x1, t), Lerp(c.x1, c.x2, t), Lerp(c.x2, c.x3, t);
      X(c, t) == Lerp(Lerp(a, b, t), Lerp(b, d, t), t)
  {
    hide Lerp;
  }

  lemma XIsSlow(c: Cubic, t: real, u: real)
    requires Forward(c) && 0.0 <= t <= u <= 1.0
    ensures X(c, u) - X(c, t) <= 3.0 * Reach(c.x3 - c.x0, t, u)
  {
    hide Lerp, Reach, X, Bezier;
    XStages(c, t); XStages(c, u);
    var long := c.x3 - c.x0;
    var step := Reach(long, t, u);
    ReachIsPositive(long, t, u);
    FirstStageIsSlow(c.x0, c.x1, long, t, u); FirstStageIsSlow(c.x1, c.x2, long, t, u); FirstStageIsSlow(c.x2, c.x3, long, t, u);
    var a, b, d := Lerp(c.x0, c.x1, t), Lerp(c.x1, c.x2, t), Lerp(c.x2, c.x3, t);
    var a', b', d' := Lerp(c.x0, c.x1, u), Lerp(c.x1, c.x2, u), Lerp(c.x2, c.x3, u);
    NextStageIsSlow(a, b, a', b', t, u, step, long);
    NextStageIsSlow(b, d, b', d', t, u, step, long);
    LerpBetween(a', b', u); LerpBetween(b', d', u);
    StageIsSlow(Lerp(a, b, t), Lerp(b, d, t), Lerp(a', b', u), Lerp(b', d', u), t, u, step + step, long);
  }

  lemma FirstStageIsSlow(a: real, b: real, long: real, t: real, u: real)
    requires a <= b <= a + long && 0.0 <= t <= u <= 1.0
    ensures a <= Lerp(a, b, t) <= Lerp(a, b, u) <= b && Lerp(a, b, u) - Lerp(a, b, t) <= Reach(long, t, u)
  {
    LerpAdvances(a, b, t, u); LerpBetween(a, b, t); LerpBetween(a, b, u);
    StageIsSlow(a, b, a, b, t, u, 0.0, long);
  }

  lemma NextStageIsSlow(a: real, b: real, a': real, b': real, t: real, u: real, near: real, long: real)
    requires a <= a' <= a + near && b <= b' <= b + near && a' <= b' <= a' + long
    requires 0.0 <= t <= u <= 1.0 && 0.0 <= near
    ensures Lerp(a, b, t) <= Lerp(a', b', u) <= Lerp(a, b, t) + near + Reach(long, t, u)
  {
    StageIsSlow(a, b, a', b', t, u, near, long);
    LerpGrows(a, b, a', b', t); LerpAdvances(a', b', t, u);
  }

  function Half(n: nat): real { if n == 0 then 1.0 else Half(n - 1) / 2.0 }

  lemma {:induction false} HalfIsSmall(n: nat)
    ensures 0.0 < Half(n) && Half(n) * (n + 1) as real <= 1.0
  {
    if n > 0 {
      HalfIsSmall(n - 1);
      var h, k := Half(n - 1), n as real;
      assert Half(n) == h / 2.0 && h * k <= 1.0;
      assert (h / 2.0) * (k + 1.0) == (h * k) / 2.0 + h / 2.0;
      assert h <= 1.0 by { Product(h, k - 1.0); assert h * k - h == h * (k - 1.0); }
    }
  }

  /** Halving again and again closes in on the parameter of an abscissa. */
  lemma {:induction false} Bisect(c: Cubic, x: real, n: nat) returns (t: real, u: real)
    requires Forward(c) && c.x0 <= x <= c.x3
    ensures 0.0 <= t <= u <= 1.0 && u - t == Half(n) && X(c, t) <= x <= X(c, u)
  {
    if n == 0 {
      XEnds(c, 0.0);
      t, u := 0.0, 1.0;
    } else {
      t, u := Bisect(c, x, n - 1);
      var m := (t + u) / 2.0;
      if X(c, m) <= x { t := m; } else { u := m; }
    }
  }

  /** Between its ends the curve comes as near as one likes to every abscissa. */
  lemma CurveComesNear(c: Cubic, x: real, eps: real) returns (t: real)
    requires Forward(c) && c.x0 <= x <= c.x3 && eps > 0.0
    ensures 0.0 <= t <= 1.0 && x - eps < X(c, t) <= x
  {
    var long := 3.0 * (c.x3 - c.x0);
    hide X, Half;
    var n := Archimedes(long, eps);
    var u;
    t, u := Bisect(c, x, n);
    HalfIsSmall(n);
    XIsSlow(c, t, u);
    assert 3.0 * Reach(c.x3 - c.x0, t, u) == long * Half(n);
    NearEnough(long, eps, Half(n), (n + 1) as real);
  }

  lemma Archimedes(long: real, eps: real) returns (n: nat)
    requires long > 0.0 && eps > 0.0
    ensures long < eps * (n + 1) as real
  {
    var q := long / eps;
    n := q.Floor;
    Enlarge(eps, q, (n + 1) as real, long);
  }

  lemma Enlarge(eps: real, q: real, k: real, long: real)
    requires eps > 0.0 && q < k && long == eps * q
    ensures long < eps * k
  {
    Product(eps, k - q);
    Distribute(eps, k, q);
  }

  lemma NearEnough(long: real, eps: real, h: real, k: real)
    requires 0.0 < long < eps * k && eps > 0.0 && h > 0.0 && h * k <= 1.0
    ensures long * h < eps
  {
    Product(eps * k - long, h);
    assert (eps * k - long) * h == eps * (h * k) - long * h;
    Product(eps, 1.0 - h * k);
    Distribute(eps, 1.0, h * k);
  }

  /** How far across the lanes the curve is at t. */
  function Blend(t: real): real { t * t * (3.0 - 2.0 * t) }

  lemma YIsBlend(c: Cubic, t: real)
    ensures Y(c, t) == c.y0 + (c.y3 - c.y0) * Blend(t)
  {
    var h := c.y3 - c.y0;
    var m := Lerp(c.y0, c.y3, t);
    assert Lerp(c.y0, m, t) == c.y0 + h * t * t;
    assert Lerp(m, c.y3, t) == c.y0 + h * t + (h - h * t) * t;
  }

  /** What is left of the difference of two blends after the difference of their parameters. */
  function Slope(t: real, u: real): real {
    2.0 * (u * (1.0 - u)) + 2.0 * (t * (1.0 - t)) + u * (1.0 - t) + t * (1.0 - u)
  }

  lemma SlopeIsPositive(t: real, u: real)
    requires 0.0 <= t < u <= 1.0
    ensures Slope(t, u) > 0.0
  {
    Product(u, 1.0 - u); Product(t, 1.0 - t); Product(u, 1.0 - t); Product(t, 1.0 - u);
  }

  lemma BlendAdvances(t: real, u: real)
    requires 0.0 <= t < u <= 1.0
    ensures Blend(t) < Blend(u)
  {
    BlendDifference(t, u); SlopeIsPositive(t, u);
    hide Blend, Slope;
    Product(u - t, Slope(t, u));
  }

  lemma BlendDifference(t: real, u: real)
    ensures Blend(u) - Blend(t) == (u - t) * Slope(t, u)
  {
    var slope := Slope(t, u);
    assert slope == 3.0 * u + 3.0 * t - 2.0 * (u * u) - 2.0 * (t * t) - 2.0 * (u * t);
    assert (u - t) * slope == 3.0 * (u * u) - 3.0 * (t * t) - 2.0 * (u * u * u) + 2.0 * (t * t * t);
    assert Blend(u) == 3.0 * (u * u) - 2.0 * (u * u * u);
    assert Blend(t) == 3.0 * (t * t) - 2.0 * (t * t * t);
  }

  lemma Scaled(h: real, x: real, y: real)
    requires h != 0.0
    ensures h * x == h * y <==> x == y
  {
  }

  /** Two points of one curve at one height are one point. */
  lemma YIsOneToOne(c: Cubic, t: real, u: real)
    requires c.y0 != c.y3 && 0.0 <= t <= 1.0 && 0.0 <= u <= 1.0
    ensures Y(c, t) == Y(c, u) <==> t == u
  {
    hide *;
    YIsBlend(c, t); YIsBlend(c, u);
    if t < u { BlendAdvances(t, u); }
    if u < t { BlendAdvances(u, t); }
    Scaled(c.y3 - c.y0, Blend(t), Blend(u));
  }

  /** Between its ends the curve is strictly between the lanes. */
  lemma YMeetsLaneOnlyAtEnds(c: Cubic, t: real)
    requires c.y0 != c.y3 && 0.0 <= t <= 1.0
    ensures Y(c, t) == c.y0 <==> t == 0.0
    ensures Y(c, t) == c.y3 <==> t == 1.0
  {
    YIsBlend(c, 0.0); YIsBlend(c, 1.0);
    assert Blend(0.0) == 0.0 && Blend(1.0) == 1.0;
    YIsOneToOne(c, t, 0.0); YIsOneToOne(c, t, 1.0);
  }

  /** The two heights at one parameter add up to the two lanes. */
  lemma HeightsAddUp(c: Cubic, t: real)
    ensures Y(c, t) + Y(Mirror(c), t) == c.y0 + c.y3
  {
    YIsBlend(c, t); YIsBlend(Mirror(c), t);
  }

  /** The two curves of a crossover meet exactly once, half way. */
  lemma MirrorMeetsOnce(c: Cubic, t: real, u: real)
    requires Forward(c) && c.y0 != c.y3 && 0.0 <= t <= 1.0 && 0.0 <= u <= 1.0
    ensures X(c, t) == X(Mirror(c), u) && Y(c, t) == Y(Mirror(c), u) <==> t == u == 0.5
  {
    if t < u { XAdvances(c, t, u); }
    if u < t { XAdvances(c, u, t); }
    if t == u {
      HeightsAddUp(c, t);
      MidPoint(c);
      YIsOneToOne(c, t, 0.5);
    }
  }

  lemma MidPoint(c: Cubic)
    ensures X(c, 0.5) == (c.x0 + 3.0 * c.x1 + 3.0 * c.x2 + c.x3) / 8.0
    ensures Y(c, 0.5) == (c.y0 + c.y3) / 2.0
  {
    YIsBlend(c, 0.5);
    assert Blend(0.5) == 0.5;
  }
}
