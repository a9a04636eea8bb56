/** The top-level view: it owns the position, the resolved place and the latest
    assessment of each source, composes the page title and hands the
    assessments, wrapped in lists, to the alerts panel. */
module App {
  import opened JsValues
  import opened Types
  import AlertsPrecautions

  const DefaultTitle: string := "Weather & Health Safety"
  const UnnamedArea: string := "Your area"
  /** The separator between locality and country in the title (a middle dot). */
  const CountrySeparator: string := " \U{00B7} "

  /** `headerTitle`: the default title until a place is resolved, then
      `(name || 'Your area')`, `, admin1` when admin1 is truthy, the separator
      and the country (printed as "undefined" when absent). */
  function HeaderTitle(place: Option<Place>): (r: string)
    ensures place.None? ==> r == DefaultTitle
    ensures place.Some? ==> OrElse(place.value.name, UnnamedArea) <= r
    ensures place.Some? ==>
      var tail := CountrySeparator + TemplateText(place.value.country);
      |tail| <= |r| && r[|r| - |tail|..] == tail
    ensures place.Some? && Truthy(place.value.admin1) ==>
      r == OrElse(place.value.name, UnnamedArea) + ", " + place.value.admin1.value +
           CountrySeparator + TemplateText(place.value.country)
    ensures place.Some? && !Truthy(place.value.admin1) ==>
      r == OrElse(place.value.name, UnnamedArea) + CountrySeparator + TemplateText(place.value.country)
  {
    match place
    case None => DefaultTitle
    case Some(p) =>
      var lead := OrElse(p.name, UnnamedArea) + (if Truthy(p.admin1) then ", " + p.admin1.value else "");
      var tail := CountrySeparator + TemplateText(p.country);
      assert (lead + tail)[|lead + tail| - |tail|..] == tail;
      assert (lead + tail)[..|OrElse(p.name, UnnamedArea)|] == OrElse(p.name, UnnamedArea);
      lead + tail
  }

  /** Once a place is resolved the title always differs from the default one:
      it carries the separator, which the default title does not. */
  lemma ResolvedTitleIsNotDefault(p: Place)
    ensures HeaderTitle(Some(p)) != DefaultTitle
  {
    var r := HeaderTitle(Some(p));
    var tail := CountrySeparator + TemplateText(p.country);
    var k := |r| - |tail| + 1;
    assert r[k] == '\U{00B7}';
    assert forall i :: 0 <= i < |DefaultTitle| ==> DefaultTitle[i] != '\U{00B7}';
  }

  /** `alert ? [alert] : []`: the list handed to the alerts panel for one source. */
  function AsList(alert: Option<Alert>): (r: seq<Alert>)
    ensures |r| <= 1
    ensures forall a :: a in r <==> alert == Some(a)
  {
    match alert
    case None => []
    case Some(a) => [a]
  }

  /** The state `App` keeps, each field replaced wholesale by its callback. */
  class Dashboard {
    var coords: Option<Coords>
    var place: Option<Place>
    var weatherAlert: Option<Alert>
    var healthAlert: Option<Alert>

    constructor ()
      ensures coords == None && place == None
      ensures weatherAlert == None && healthAlert == None
    {
      coords, place := None, None;
      weatherAlert, healthAlert := None, None;
    }

    /** `onLocation`: a new position replaces the old one. */
    method OnLocation(c: Coords)
      modifies this
      ensures coords == Some(c)
      ensures place == old(place) && weatherAlert == old(weatherAlert) && healthAlert == old(healthAlert)
    {
      coords := Some(c);
    }

    /** `onPlaceResolved`: the weather panel's reverse-geocoding result, possibly none. */
    method OnPlaceResolved(p: Option<Place>)
      modifies this
      ensures place == p
      ensures coords == old(coords) && weatherAlert == old(weatherAlert) && healthAlert == old(healthAlert)
    {
      place := p;
    }

    /** `onWeatherHazards`: the latest weather assessment replaces the previous one. */
    method OnWeatherHazards(a: Alert)
      modifies this
      ensures weatherAlert == Some(a)
      ensures coords == old(coords) && place == old(place) && healthAlert == old(healthAlert)
    {
      weatherAlert := Some(a);
    }

    /** `onHealthHazards`: the latest health assessment replaces the previous one. */
    method OnHealthHazards(a: Alert)
      modifies this
      ensures healthAlert == Some(a)
      ensures coords == old(coords) && place == old(place) && weatherAlert == old(weatherAlert)
    {
      healthAlert := Some(a);
    }

    /** The page title for the current place. */
    function Title(): (r: string)
      reads this
      ensures place.None? <==> r == DefaultTitle
    {
      if place.Some? then
        ResolvedTitleIsNotDefault(place.value);
        HeaderTitle(place)
      else
        HeaderTitle(place)
    }

    /** What the alerts panel shows for the current state: at most one
        assessment per source, weather first. */
    function AlertsView(): (v: AlertsPrecautions.View)
      reads this
      ensures v.NoActiveAlerts? <==>
        (weatherAlert.Some? ==> AlertsPrecautions.Items(weatherAlert.value, AlertsPrecautions.HazardsPart) == []) &&
        (healthAlert.Some? ==> AlertsPrecautions.Items(healthAlert.value, AlertsPrecautions.HazardsPart) == [])
    {
      ViewOfLatest(weatherAlert, healthAlert);
      AlertsPrecautions.Render(AsList(weatherAlert), AsList(healthAlert))
    }
  }

  /** With at most one assessment per source, "no active alerts" is shown
      exactly when each present assessment has no hazard. */
  lemma ViewOfLatest(weatherAlert: Option<Alert>, healthAlert: Option<Alert>)
    ensures AlertsPrecautions.Render(AsList(weatherAlert), AsList(healthAlert)).NoActiveAlerts? <==>
      (weatherAlert.Some? ==> AlertsPrecautions.Items(weatherAlert.value, AlertsPrecautions.HazardsPart) == []) &&
      (healthAlert.Some? ==> AlertsPrecautions.Items(healthAlert.value, AlertsPrecautions.HazardsPart) == [])
  {
    var both := AsList(weatherAlert) + AsList(healthAlert);
    assert forall a :: a in both <==> weatherAlert == Some(a) || healthAlert == Some(a);
  }
}
