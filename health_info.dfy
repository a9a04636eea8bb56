/** The health panel: the constant COVID-19 guidance, the per-million incidence
    rate of a country snapshot with its defaults, the threshold that turns it
    into a health alert, and the fetch that stores the snapshot and forwards
    the alert to `App`. */
module HealthInfo {
  import opened JsValues
  import opened Types
  import App

  /** What `covidGuidance()` returns. */
  datatype Guidance = Guidance(symptoms: seq<string>, prevention: seq<string>, medicines: seq<string>)

  /** `covidGuidance()`: a fixed list of five symptoms, five preventive measures
      and three medicines; staying home when unwell is advised both here and in
      the health alert. */
  function CovidGuidance(): (g: Guidance)
    ensures |g.symptoms| == 5 && |g.prevention| == 5 && |g.medicines| == 3
    ensures g.prevention[1] == CovidAlert.precautions.value[1]
  {
    Guidance(
      ["Fever or chills", "Cough, sore throat", "Shortness of breath", "Loss of taste or smell",
       "Fatigue and body aches"],
      ["Wash hands frequently", "Stay home if unwell", "Consider mask in crowded indoor spaces",
       "Keep distance from sick individuals", "Ensure good ventilation indoors"],
      ["Paracetamol/Acetaminophen for fever (follow label dosing)", "Oral rehydration and rest",
       "Seek medical advice for high-risk individuals"])
  }

  /** The fields of a disease.sh country snapshot the dashboard reads; any of
      them may be absent. Counts are JSON numbers, taken as exact reals. */
  datatype Snapshot = Snapshot(
    country: Option<string>,
    todayCases: Option<real>,
    active: Option<real>,
    tests: Option<real>,
    population: Option<real>)

  /** `x || fallback` for a number: absent and zero both give `fallback`. */
  function NumberOr(x: Option<real>, fallback: real): (r: real)
    ensures x.Some? && x.value != 0.0 ==> r == x.value
    ensures x.None? || x.value == 0.0 ==> r == fallback
  {
    if x.Some? && x.value != 0.0 then x.value else fallback
  }

  /** `data.todayCases || 0`. */
  function TodayCases(s: Snapshot): (today: real)
    ensures s.todayCases.Some? && s.todayCases.value != 0.0 ==> today == s.todayCases.value
    ensures s.todayCases.None? || s.todayCases.value == 0.0 ==> today == 0.0
  {
    NumberOr(s.todayCases, 0.0)
  }

  /** `data.population || 1`: never zero, so the division is always defined. */
  function Population(s: Snapshot): (pop: real)
    ensures pop != 0.0
    ensures s.population.Some? && s.population.value != 0.0 ==> pop == s.population.value
    ensures s.population.None? || s.population.value == 0.0 ==> pop == 1.0
  {
    NumberOr(s.population, 1.0)
  }

  /** `Math.round(x)`: the nearest integer, halves rounded up (towards +infinity). */
  function Round(x: real): (n: int)
    ensures n as real - 0.5 <= x < n as real + 0.5
  {
    (x + 0.5).Floor
  }

  /** `Math.round((today / pop) * 1_000_000)`. */
  function PerMillion(s: Snapshot): (n: int)
    ensures n as real - 0.5 <= TodayCases(s) / Population(s) * 1000000.0 < n as real + 0.5
    ensures TodayCases(s) == 0.0 ==> n == 0
  {
    assert 0.0 / Population(s) == 0.0;
    Round(TodayCases(s) / Population(s) * 1000000.0)
  }

  /** The alert threshold, inclusive. */
  const Threshold: int := 50

  const CovidHazard: string := "Elevated COVID-19 activity"

  /** The assessment handed to `onHealthHazards` when the rate reaches the threshold. */
  const CovidAlert: Alert := Alert(
    Some([CovidHazard]),
    Some(["Wear a mask in crowded indoor spaces", "Stay home if unwell", "Consider testing if symptomatic"]),
    Health)

  /** What a snapshot makes `fetchCovid` forward: the fixed alert when the rate
      is at least the threshold, and nothing at all otherwise. */
  function HealthAlert(s: Snapshot): (a: Option<Alert>)
    ensures a.Some? <==> PerMillion(s) >= Threshold
    ensures a.Some? ==> a.value == CovidAlert
  {
    if PerMillion(s) >= Threshold then Some(CovidAlert) else None
  }

  /** The threshold in exact arithmetic: with a positive population, an alert is
      raised exactly when `2 000 000 * today >= 99 * population`, that is when
      the unrounded rate reaches 49.5 per million. */
  lemma AlertIffCrossMultiplied(s: Snapshot)
    requires Population(s) > 0.0
    ensures HealthAlert(s).Some? <==> 2000000.0 * TodayCases(s) >= 99.0 * Population(s)
  {
    var today, pop := TodayCases(s), Population(s);
    var x := today / pop * 1000000.0;
    RoundReachesThreshold(x);
    ScaledQuotient(today, pop);
    CrossMultiply(today, pop, x);
  }

  /** A rate `x` with `x * pop == today * 1 000 000` reaches 49.5 exactly when
      `2 000 000 * today >= 99 * pop`. */
  lemma CrossMultiply(today: real, pop: real, x: real)
    requires pop > 0.0 && x * pop == today * 1000000.0
    ensures x >= 49.5 <==> 2000000.0 * today >= 99.0 * pop
  {
    ScaleByPositive(x, 49.5, pop);
  }

  /** The rounded rate reaches 50 exactly when the unrounded one reaches 49.5. */
  lemma RoundReachesThreshold(x: real)
    ensures Round(x) >= Threshold <==> x >= 49.5
  {
  }

  /** The unrounded rate times the population is a million times the cases. */
  lemma ScaledQuotient(today: real, pop: real)
    requires pop > 0.0
    ensures (today / pop * 1000000.0) * pop == today * 1000000.0
  {
    var q := today / pop;
    assert q * pop == today;
    assert (q * 1000000.0) * pop == (q * pop) * 1000000.0;
  }

  /** Multiplying both sides by a positive number keeps the order, both ways. */
  lemma ScaleByPositive(a: real, b: real, k: real)
    requires k > 0.0
    ensures a >= b <==> a * k >= b * k
  {
    if a >= b {
      assert a * k - b * k == (a - b) * k;
    } else {
      assert b * k - a * k == (b - a) * k;
    }
  }

  /** No new cases, or a missing count, never raises an alert, whatever the population. */
  lemma NoCasesNoAlert(s: Snapshot)
    requires s.todayCases.None? || s.todayCases.value == 0.0
    ensures HealthAlert(s).None?
  {
    assert TodayCases(s) == 0.0;
    assert 0.0 / Population(s) == 0.0;
  }

  /** 500 cases in a population of ten million: exactly 50 per million, which alerts. */
  lemma AtThresholdExample()
    ensures PerMillion(Snapshot(None, Some(500.0), None, None, Some(10000000.0))) == 50
    ensures HealthAlert(Snapshot(None, Some(500.0), None, None, Some(10000000.0))) == Some(CovidAlert)
  {
  }

  /** 490 cases in ten million: 49 per million, which does not. */
  lemma BelowThresholdExample()
    ensures PerMillion(Snapshot(None, Some(490.0), None, None, Some(10000000.0))) == 49
    ensures HealthAlert(Snapshot(None, Some(490.0), None, None, Some(10000000.0))) == None
  {
  }

  /** 495 cases in ten million: 49.5 per million, rounded half up to 50, which alerts. */
  lemma RoundsHalfUpExample()
    ensures PerMillion(Snapshot(None, Some(495.0), None, None, Some(10000000.0))) == 50
    ensures HealthAlert(Snapshot(None, Some(495.0), None, None, Some(10000000.0))).Some?
  {
  }

  /** A missing or zero population counts as one person. */
  lemma MissingPopulationExample()
    ensures PerMillion(Snapshot(None, Some(1.0), None, None, None)) == 1000000
    ensures PerMillion(Snapshot(None, Some(1.0), None, None, Some(0.0))) == 1000000
  {
  }

  const HealthFetchFailed: string := "Failed to fetch health data"

  /** The health panel's state. */
  class HealthPanel {
    var covid: Option<Snapshot>
    var loading: bool
    var error: string

    constructor ()
      ensures covid == None && !loading && error == ""
    {
      covid, loading, error := None, false, "";
    }

    /** `fetchCovid` for `place`, with the snapshot request's outcome `response`;
        `cancelled` says whether the effect was cleaned up before the response
        was processed. Returns the country code requested, if any. */
    method FetchCovid(place: Option<Place>, response: Response<Snapshot>, cancelled: bool, app: App.Dashboard)
      returns (requested: Option<string>)
      modifies this, app
      ensures requested.Some? <==> place.Some? && Truthy(place.value.countryCode)
      ensures requested.Some? ==> requested == place.value.countryCode
      ensures requested.None? ==> covid == old(covid) && loading == old(loading) && error == old(error)
      ensures app.coords == old(app.coords) && app.place == old(app.place) && app.weatherAlert == old(app.weatherAlert)
      ensures requested.Some? ==> loading == cancelled
      ensures requested.Some? ==>
        error == (if cancelled then ""
                  else match response
                    case Ok(_) => ""
                    case NotOk => HealthFetchFailed
                    case Thrown(message) => ErrorText(message))
      ensures requested.Some? && !cancelled && response.Ok? ==>
        covid == Some(response.body) &&
        app.healthAlert == (if HealthAlert(response.body).Some? then HealthAlert(response.body) else old(app.healthAlert))
      ensures requested.None? || cancelled || !response.Ok? ==>
        covid == old(covid) && app.healthAlert == old(app.healthAlert)
    {
      if place.None? || !Truthy(place.value.countryCode) {
        return None;
      }
      requested := place.value.countryCode;
      loading := true;
      error := "";
      match response {
        case NotOk =>
          if !cancelled {
            error := HealthFetchFailed;
          }
        case Thrown(message) =>
          if !cancelled {
            error := ErrorText(message);
          }
        case Ok(data) =>
          if !cancelled {
            covid := Some(data);
            var today := NumberOr(data.todayCases, 0.0);
            var pop := NumberOr(data.population, 1.0);
            var perMillion := Round(today / pop * 1000000.0);
            if perMillion >= Threshold {
              app.OnHealthHazards(CovidAlert);
            }
          }
      }
      if !cancelled {
        loading := false;
      }
    }
  }
}
