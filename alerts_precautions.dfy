/** The merge step that turns the latest weather and health assessments into
    the "Alerts & Precautions" panel: concatenate, flatten, deduplicate in
    first-occurrence order, and fall back to "no active alerts" when no hazard
    is left. */
module AlertsPrecautions {
  import opened JsValues
  import opened Types
  import opened InsertionSet

  /** Which list of an assessment is being merged. */
  datatype Part = HazardsPart | PrecautionsPart

  /** `a.hazards || []` or `a.precautions || []`. */
  function Items(a: Alert, part: Part): seq<string> {
    match part
    case HazardsPart => a.hazards.GetOr([])
    case PrecautionsPart => a.precautions.GetOr([])
  }

  /** `alerts.flatMap(a => a.<part> || [])`. */
  function FlatItems(alerts: seq<Alert>, part: Part): (r: seq<string>)
    ensures forall x :: x in r <==> exists i :: 0 <= i < |alerts| && x in Items(alerts[i], part)
  {
    if alerts == [] then []
    else
      var rest := FlatItems(alerts[1..], part);
      assert forall i :: 1 <= i < |alerts| ==> alerts[i] == alerts[1..][i - 1];
      Items(alerts[0], part) + rest
  }

  /** `uniqueHazards` / `uniquePrecautions`: every weather assessment, then every
      health assessment, flattened and passed through a `Set`. */
  function Unique(weatherAlerts: seq<Alert>, healthAlerts: seq<Alert>, part: Part): (r: seq<string>)
    ensures NoDup(r)
    ensures forall x :: x in r <==>
      (exists i :: 0 <= i < |weatherAlerts| && x in Items(weatherAlerts[i], part)) ||
      (exists i :: 0 <= i < |healthAlerts| && x in Items(healthAlerts[i], part))
  {
    var combined := weatherAlerts + healthAlerts;
    assert forall i :: 0 <= i < |weatherAlerts| ==> combined[i] == weatherAlerts[i];
    assert forall i :: 0 <= i < |healthAlerts| ==> combined[|weatherAlerts| + i] == healthAlerts[i];
    FromArray(FlatItems(combined, part))
  }

  /** What the panel shows. */
  datatype View = NoActiveAlerts | CurrentAlerts(hazards: seq<string>, precautions: seq<string>)

  /** The panel's conditional: the "no active alerts" message exactly when no
      assessment carries a hazard; otherwise both merged lists. */
  function Render(weatherAlerts: seq<Alert>, healthAlerts: seq<Alert>): (v: View)
    ensures v.NoActiveAlerts? <==> forall a :: a in weatherAlerts + healthAlerts ==> Items(a, HazardsPart) == []
    ensures v.CurrentAlerts? ==> v.hazards != [] && v.hazards == Unique(weatherAlerts, healthAlerts, HazardsPart)
    ensures v.CurrentAlerts? ==> v.precautions == Unique(weatherAlerts, healthAlerts, PrecautionsPart)
  {
    var hazards := Unique(weatherAlerts, healthAlerts, HazardsPart);
    FlatItemsEmpty(weatherAlerts + healthAlerts, HazardsPart);
    if |hazards| == 0 then
      NoActiveAlerts
    else
      var x := hazards[0];
      assert x in hazards;
      CurrentAlerts(hazards, Unique(weatherAlerts, healthAlerts, PrecautionsPart))
  }

  /** Nothing is flattened exactly when every assessment's list is empty or missing. */
  lemma {:induction false} FlatItemsEmpty(alerts: seq<Alert>, part: Part)
    ensures FlatItems(alerts, part) == [] <==> forall a :: a in alerts ==> Items(a, part) == []
  {
    if alerts != [] {
      FlatItemsEmpty(alerts[1..], part);
      assert forall a :: a in alerts <==> a == alerts[0] || a in alerts[1..];
    }
  }

  /** Merging one assessment alone deduplicates its own list. */
  lemma UniqueSingle(a: Alert, part: Part)
    ensures Unique([a], [], part) == FromArray(Items(a, part))
  {
    assert [a] + [] == [a];
    assert FlatItems([a], part) == Items(a, part) + FlatItems([], part);
    assert Items(a, part) + [] == Items(a, part);
  }

  /** Flattening distributes over concatenation, so the items of the weather
      assessments come before those of the health assessments. */
  lemma {:induction false} FlatItemsAppend(xs: seq<Alert>, ys: seq<Alert>, part: Part)
    ensures FlatItems(xs + ys, part) == FlatItems(xs, part) + FlatItems(ys, part)
  {
    if xs == [] {
      assert xs + ys == ys;
    } else {
      assert (xs + ys)[1..] == xs[1..] + ys;
      FlatItemsAppend(xs[1..], ys, part);
    }
  }

  /** The merged list begins with what the weather assessments alone would give. */
  lemma WeatherItemsLead(weatherAlerts: seq<Alert>, healthAlerts: seq<Alert>, part: Part)
    ensures Unique(weatherAlerts, [], part) <= Unique(weatherAlerts, healthAlerts, part)
  {
    FlatItemsAppend(weatherAlerts, healthAlerts, part);
    assert weatherAlerts + [] == weatherAlerts;
    FromArrayPrefix(FlatItems(weatherAlerts, part), FlatItems(healthAlerts, part));
  }

  /** An assessment whose list is missing (or empty) contributes nothing to it. */
  lemma MissingListContributesNothing(xs: seq<Alert>, a: Alert, ys: seq<Alert>, part: Part)
    requires Items(a, part) == []
    ensures FlatItems(xs + [a] + ys, part) == FlatItems(xs + ys, part)
  {
    FlatItemsAppend(xs + [a], ys, part);
    FlatItemsAppend(xs, [a], part);
    FlatItemsAppend(xs, ys, part);
    assert [a][1..] == [];
    assert FlatItems([a], part) == [];
    assert FlatItems(xs, part) + [] == FlatItems(xs, part);
  }

  /** Precautions are merged independently of hazards: assessments that agree on
      their precautions give the same merged precautions whatever their hazards. */
  lemma {:induction false} PrecautionsIgnoreHazards(xs: seq<Alert>, ys: seq<Alert>)
    requires |xs| == |ys|
    requires forall i :: 0 <= i < |xs| ==> xs[i].precautions == ys[i].precautions
    ensures FlatItems(xs, PrecautionsPart) == FlatItems(ys, PrecautionsPart)
  {
    if xs != [] {
      PrecautionsIgnoreHazards(xs[1..], ys[1..]);
    }
  }

  /** Merging an assessment with itself gives the same lists as merging it alone. */
  lemma SelfMerge(a: Alert, part: Part)
    ensures Unique([a], [a], part) == Unique([a], [], part)
  {
    FlatItemsAppend([a], [a], part);
    assert [a] + [] == [a];
    FromArrayDoubled(FlatItems([a], part));
  }

  /** Merging the already merged list again changes nothing. */
  lemma Remerge(weatherAlerts: seq<Alert>, healthAlerts: seq<Alert>, part: Part, merged: Alert)
    requires Items(merged, part) == Unique(weatherAlerts, healthAlerts, part)
    ensures Unique([merged], [], part) == Unique(weatherAlerts, healthAlerts, part)
  {
    UniqueSingle(merged, part);
    FromArrayOfNoDup(Unique(weatherAlerts, healthAlerts, part));
  }

  /** ['A'] merged with ['A', 'B'] gives ['A', 'B']. */
  lemma MergeExample()
    ensures Unique([Alert(Some(["A"]), None, Weather)], [Alert(Some(["A", "B"]), None, Health)], HazardsPart) == ["A", "B"]
  {
    var w := [Alert(Some(["A"]), None, Weather)];
    var h := [Alert(Some(["A", "B"]), None, Health)];
    FlatItemsAppend(w, h, HazardsPart);
    assert FlatItems(w, HazardsPart) == ["A"];
    assert FlatItems(h, HazardsPart) == ["A", "B"];
    assert ["A"] + ["A", "B"] == ["A", "A", "B"];
    assert ["A", "A", "B"][..2] == ["A", "A"];
    assert ["A", "A"][..1] == ["A"];
    assert ["A"][..0] == [];
  }

  /** With no hazard at all the panel says "no active alerts", even when
      precautions are present: they are then not shown. */
  lemma PrecautionsHiddenWithoutHazards()
    ensures Unique([Alert(Some([]), Some(["Stay home if unwell"]), Weather)], [], PrecautionsPart) != []
    ensures Render([Alert(Some([]), Some(["Stay home if unwell"]), Weather)], []) == NoActiveAlerts
  {
    var a := Alert(Some([]), Some(["Stay home if unwell"]), Weather);
    assert "Stay home if unwell" in Items([a][0], PrecautionsPart);
  }
}
