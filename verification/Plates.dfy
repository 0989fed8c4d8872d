/**
 * The icons on a node's plate: squares on a rectangle with rounded ends.
 */
module Plates {
  import opened Document
  import opened Measure

  function Abs(x: real): real { if x < 0.0 then -x else x }

  /** The horizontal radius of the ends: 38, or half of a narrower plate. */
  function EndRadius(width: real): real { Min(PLATE_HALF, width / 2.0) }

  /** Half of the straight stretch between the ends. */
  function Straight(width: real): real { width / 2.0 - EndRadius(width) }

  /** A point of the plate, as seen from its centre; the ends are quarters of an ellipse. */
  predicate InPlate(width: real, x: real, y: real) {
    var over, r := Abs(x) - Straight(width), EndRadius(width);
    && Abs(x) <= width / 2.0 && Abs(y) <= PLATE_HALF
    && (over <= 0.0 || (over * over) * (PLATE_HALF * PLATE_HALF) + (y * y) * (r * r) <= (r * r) * (PLATE_HALF * PLATE_HALF))
  }

  /** Where RoadmapNode puts the left edge of the k-th icon. */
  function IconLeft(entry: ServiceEntry, doc: RoadmapDocument, k: nat): real {
    -IconGroupWidth(entry, doc) / 2.0 + k as real * (DrawnIconSize(entry, doc) + 7.0)
  }

  predicate InIcon(entry: ServiceEntry, doc: RoadmapDocument, k: nat, x: real, y: real) {
    var a := DrawnIconSize(entry, doc);
    IconLeft(entry, doc, k) <= x <= IconLeft(entry, doc, k) + a && Abs(y) <= a / 2.0
  }

  /** No point of any icon stands out of the plate. */
  ghost predicate IconsInside(entry: ServiceEntry, doc: RoadmapDocument) {
    forall k: nat, x, y :: k < |entry.icons| && InIcon(entry, doc, k, x, y) ==> InPlate(PlateWidth(entry, doc), x, y)
  }

  lemma Squares(x: real, y: real)
    requires 0.0 <= x <= y
    ensures 0.0 <= x * x <= y * y
  {
    assert y * y - x * x == (y - x) * (y + x);
  }

  lemma Scaled(x: real, y: real, k: real)
    requires 0.0 <= x <= y && 0.0 <= k
    ensures x * k <= y * k
  {
  }

  lemma AbsSquare(y: real)
    ensures y * y == Abs(y) * Abs(y)
  {
  }

  /** What is nearer to both axes than a point of the plate is in the plate. */
  lemma NearerIsInPlate(width: real, x: real, y: real, x': real, y': real)
    requires InPlate(width, x, y) && Abs(x') <= Abs(x) && Abs(y') <= Abs(y)
    ensures InPlate(width, x', y')
  {
    var over, over', r := Abs(x) - Straight(width), Abs(x') - Straight(width), EndRadius(width);
    assert width >= 0.0 && r >= 0.0;
    hide EndRadius, Straight;
    if over' > 0.0 { NearerIsLess(over', over, y', y, r); }
  }

  lemma NearerIsLess(over': real, over: real, y': real, y: real, r: real)
    requires 0.0 <= over' <= over && Abs(y') <= Abs(y)
    ensures (over' * over') * (PLATE_HALF * PLATE_HALF) + (y' * y') * (r * r)
         <= (over * over) * (PLATE_HALF * PLATE_HALF) + (y * y) * (r * r)
  {
    AbsSquare(y); AbsSquare(y'); AbsSquare(r);
    Squares(over', over); Squares(Abs(y'), Abs(y)); Squares(0.0, Abs(r)); Squares(0.0, PLATE_HALF);
    var o', o, v', v, q, h := over' * over', over * over, y' * y', y * y, r * r, PLATE_HALF * PLATE_HALF;
    Scaled(o', o, h);
    Scaled(v', v, q);
  }

  lemma Steps(k: real, last: real, step: real)
    requires 0.0 <= k <= last && 0.0 <= step
    ensures 0.0 <= k * step <= last * step
  {
    assert last * step - k * step == (last - k) * step;
  }

  lemma GroupSpan(entry: ServiceEntry, doc: RoadmapDocument, k: nat)
    requires doc.layout.iconSize >= 0.0 && k < |entry.icons|
    ensures var a, g := DrawnIconSize(entry, doc), IconGroupWidth(entry, doc);
      && 0.0 <= a <= g && -g / 2.0 <= IconLeft(entry, doc, k) && IconLeft(entry, doc, k) + a <= g / 2.0
      && (k == |entry.icons| - 1 ==> IconLeft(entry, doc, k) + a == g / 2.0)
  {
    var a, n := DrawnIconSize(entry, doc), |entry.icons| as real;
    Steps(k as real, n - 1.0, a + 7.0);
    Steps(0.0, n - 1.0, a);
    assert (n - 1.0) * (a + 7.0) + a == n * a + (n - 1.0) * 7.0;
    assert n * a == (n - 1.0) * a + a;
    assert IconGroupWidth(entry, doc) == n * a + (n - 1.0) * 7.0;
  }

  /** Everything is inside exactly when the corner of the group is. */
  lemma CornerDecides(entry: ServiceEntry, doc: RoadmapDocument)
    requires doc.layout.iconSize >= 0.0 && entry.icons != []
    ensures IconsInside(entry, doc)
       <==> InPlate(PlateWidth(entry, doc), IconGroupWidth(entry, doc) / 2.0, DrawnIconSize(entry, doc) / 2.0)
  {
    hide PlateWidth, InPlate, IconLeft, IconGroupWidth, DrawnIconSize;
    var a, g, w := DrawnIconSize(entry, doc), IconGroupWidth(entry, doc), PlateWidth(entry, doc);
    var last := |entry.icons| - 1;
    GroupSpan(entry, doc, last);
    if IconsInside(entry, doc) { assert InIcon(entry, doc, last, g / 2.0, a / 2.0); }
    if InPlate(w, g / 2.0, a / 2.0) {
      forall k: nat, x, y | k < |entry.icons| && InIcon(entry, doc, k, x, y) ensures InPlate(w, x, y) {
        GroupSpan(entry, doc, k);
        NearerIsInPlate(w, g / 2.0, a / 2.0, x, y);
      }
    }
  }

  /** On a plate narrower than it is high, the corner of a group with 26 to spare is well inside. */
  lemma NarrowPlateHolds(a: real, g: real, w: real)
    requires 0.0 <= a <= g && g + 26.0 <= w < 76.0
    ensures InPlate(w, g / 2.0, a / 2.0)
  {
    var r, x, y := w / 2.0, g / 2.0, a / 2.0;
    assert EndRadius(w) == r && Straight(w) == 0.0;
    var share := 25.0 / 38.0 * r;
    assert x <= share;
    Squares(x, share); Squares(y, 25.0); Squares(0.0, r);
    assert share * share == 625.0 / 1444.0 * (r * r);
    Scaled(x * x, share * share, 1444.0);
    Scaled(y * y, 625.0, r * r);
    assert (x * x) * 1444.0 + (y * y) * (r * r) <= 1250.0 * (r * r) <= (r * r) * 1444.0;
  }

  lemma WidePlateHoldsExactly(a: real, g: real, w: real)
    requires 0.0 <= a <= g && g + 26.0 <= w && 76.0 <= w
    ensures InPlate(w, g / 2.0, a / 2.0)
       <==> a <= 76.0 && (g + 76.0 <= w || (g + 76.0 - w) * (g + 76.0 - w) + a * a <= 5776.0)
  {
    var over, y, d := g / 2.0 - (w / 2.0 - 38.0), a / 2.0, g + 76.0 - w;
    assert EndRadius(w) == 38.0 && Straight(w) == w / 2.0 - 38.0;
    assert d == 2.0 * over && d * d == 4.0 * (over * over) && a * a == 4.0 * (y * y);
    assert (over * over) * 1444.0 + (y * y) * 1444.0 == 361.0 * (d * d + a * a);
  }

  /**
   * In terms of the drawn size, the group and the plate: the icons are inside exactly when the
   * plate is narrow, or they are no higher than it and either leave room for both ends or keep
   * their corner within the round of one.
   */
  lemma IconsInsideExactly(entry: ServiceEntry, doc: RoadmapDocument)
    requires doc.layout.iconSize >= 0.0 && entry.icons != []
    ensures var a, g, w := DrawnIconSize(entry, doc), IconGroupWidth(entry, doc), PlateWidth(entry, doc);
      IconsInside(entry, doc)
      <==> w < 76.0 || (a <= 76.0 && (g + 76.0 <= w || (g + 76.0 - w) * (g + 76.0 - w) + a * a <= 5776.0))
  {
    hide IconsInside, InPlate, PlateWidth, IconGroupWidth, DrawnIconSize, IconLeft, Abs;
    CornerDecides(entry, doc);
    IconsFitAcross(entry, doc);
    GroupSpan(entry, doc, 0);
    var a, g, w := DrawnIconSize(entry, doc), IconGroupWidth(entry, doc), PlateWidth(entry, doc);
    if w < 76.0 { NarrowPlateHolds(a, g, w); } else { WidePlateHoldsExactly(a, g, w); }
  }

  /** Icons drawn at 57 or less are inside whatever the plate. */
  lemma SmallIconsAreInside(entry: ServiceEntry, doc: RoadmapDocument)
    requires doc.layout.iconSize >= 0.0 && entry.icons != [] && DrawnIconSize(entry, doc) <= 57.0
    ensures IconsInside(entry, doc)
  {
    IconsInsideExactly(entry, doc);
    IconsFitAcross(entry, doc);
    GroupSpan(entry, doc, 0);
    var a, g, w := DrawnIconSize(entry, doc), IconGroupWidth(entry, doc), PlateWidth(entry, doc);
    hide IconsInside, PlateWidth, IconGroupWidth, DrawnIconSize, IconLeft;
    if w >= 76.0 && g + 76.0 > w {
      Squares(g + 76.0 - w, 50.0); Squares(a, 57.0);
    }
  }

  /** One icon of 60 on a plate of the width its measure asks for: no higher, yet it stands out. */
  lemma SixtyStandsOut(entry: ServiceEntry, doc: RoadmapDocument)
    requires |entry.icons| == 1 && doc.layout.iconSize == 60.0 && doc.layout.minNodeWidth <= 86.0
    ensures !IconsInside(entry, doc)
  {
    IconsInsideExactly(entry, doc);
    assert PlateWidth(entry, doc) == 86.0 && IconGroupWidth(entry, doc) == 60.0 && DrawnIconSize(entry, doc) == 60.0;
  }

  /** The largest size the settings allow stands out, with one icon or several. */
  lemma LargestIconStandsOut(entry: ServiceEntry, doc: RoadmapDocument)
    requires doc.layout.iconSize == ICON_RANGE.max && entry.icons != []
    ensures !IconsInside(entry, doc)
  {
    IconsInsideExactly(entry, doc);
    IconsFitAcross(entry, doc);
    GroupSpan(entry, doc, 0);
    assert DrawnIconSize(entry, doc) >= 77.0;
    hide PlateWidth, IconGroupWidth, IconsInside;
  }
}
