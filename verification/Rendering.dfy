/**
 * From untrusted JSON to the drawing: what the validator accepts, the layout engine can draw.
 */
module Rendering {
  import opened Calendar
  import opened Document
  import opened Json
  import opened Normalise
  import opened NormalForm
  import opened Ordering
  import opened LanePaths
  import opened Roadmap

  /** A quarter or a year so early that its year prints with fewer than four digits. */
  predicate EarlyPeriod(m: Migration) {
    m.datePrecision != ByDay && RealDay(m.date) && Parse(m.date).year < 1000
  }

  lemma LooseIsPlaceableExactly(m: Migration)
    requires LooseMigration(m)
    ensures Placeable(m) <==> !EarlyPeriod(m)
  {
    assert !RealDay("");
    hide LooseService, RealDay, Parse;
  }

  /** What the validator returns can be drawn unless a quarter or year lies before the year 1000. */
  lemma LooseIsDrawableExactly(d: RoadmapDocument)
    requires Loose(d)
    ensures Drawable(d) <==> forall m <- d.migrations :: !EarlyPeriod(m)
  {
    hide Placeable, EarlyPeriod, LooseService;
    forall k | 0 <= k < |d.migrations|
      ensures Placeable(d.migrations[k]) <==> !EarlyPeriod(d.migrations[k])
      ensures d.migrations[k].source.category == Proprietary && d.migrations[k].replacement.category == Independent
    {
      var m := d.migrations[k];
      assert m in d.migrations;
      LooseIsPlaceableExactly(m);
      LooseCategory(m.source, Proprietary); LooseCategory(m.replacement, Independent);
    }
  }

  /**
   * Whatever JSON is imported, shared or stored: once accepted it draws as two paths that
   * have one point in common at most, and one exactly while the journey is under way.
   */
  lemma AcceptedPlansCrossAtMostOnce(input: Json, today: string, spare: seq<string>, x: real, y: real)
    requires RealDay(today) && FreshFor(spare, Items(Get(input, KMigrations))) && Validate(input, today, spare).Accepted?
    requires forall m <- Validate(input, today, spare).doc.migrations :: !EarlyPeriod(m)
    ensures var d := Validate(input, today, spare).doc;
      && Drawable(d)
      && (OnPath(Path(SceneOf(d, true), Independent), x, y) && OnPath(Path(SceneOf(d, true), Proprietary), x, y)
          <==> 0 < Done(d) < |d.migrations| && (x, y) == Meeting(SceneOf(d, true), Done(d) - 1))
  {
    AcceptedIsLoose(input, today, spare);
    var d := Validate(input, today, spare).doc;
    hide *;
    LooseIsDrawableExactly(d);
    PathsMeetAtMostOnce(d, true, x, y);
  }
}
