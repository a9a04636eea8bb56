/** The weather panel: `assessWeatherHazards`, which maps one current-conditions
    reading to a hazard list and a precaution set, and the fetch that stores
    the reading, forwards the resolved place and the assessment to `App`, and
    decides whether to notify. */
module WeatherDetails {
  import opened JsValues
  import opened Types
  import opened InsertionSet
  import App
  import AlertsPrecautions

  /** `current` from the forecast response. Any field may be absent. */
  datatype Reading = Reading(
    temperature: Option<real>,    // temperature_2m, degrees Celsius
    humidity: Option<real>,       // relative_humidity_2m, percent
    precipitation: Option<real>,  // precipitation, mm
    windSpeed: Option<real>,      // wind_speed_10m, compared as delivered
    weatherCode: Option<int>)     // weather_code, WMO code table 4677

  /** What `assessWeatherHazards` returns. */
  datatype Report = Report(hazards: seq<string>, precautions: seq<string>)

  /** WMO weather interpretation codes for heavy showers and freezing rain
      (65, 66, 67, 80, 81, 82) and for thunderstorms (95, 96, 99). */
  const HeavyRainCodes: seq<int> := [65, 66, 67, 80, 81, 82]
  const StormCodes: seq<int> := [95, 96, 99]

  /** `x >= bound` in JavaScript: false when `x` is undefined. */
  predicate AtLeast(x: Option<real>, bound: real) {
    x.Some? && x.value >= bound
  }

  /** `x <= bound` in JavaScript: false when `x` is undefined. */
  predicate AtMost(x: Option<real>, bound: real) {
    x.Some? && x.value <= bound
  }

  /** `codes.includes(code)`: false when `code` is undefined. */
  predicate CodeIn(code: Option<int>, codes: seq<int>) {
    code.Some? && code.value in codes
  }

  /** The five threshold rules, the heat rule split into its two exclusive branches,
      listed in the order the evaluator checks them. */
  datatype Rule = ExtremeHeat | HighHeat | HeavyRain | Storm | Freezing | HumidHeat

  /** Position of a rule in evaluation order. */
  function Rank(rule: Rule): nat {
    match rule
    case ExtremeHeat => 0
    case HighHeat => 1
    case HeavyRain => 2
    case Storm => 3
    case Freezing => 4
    case HumidHeat => 5
  }

  /** The hazard label a rule reports. */
  function Label(rule: Rule): string {
    match rule
    case ExtremeHeat => "Extreme heat risk"
    case HighHeat => "High heat"
    case HeavyRain => "Heavy rain"
    case Storm => "Storm / high wind"
    case Freezing => "Freezing conditions"
    case HumidHeat => "Heat + high humidity"
  }

  /** The precautions a rule adds, in the order it adds them. */
  function Precautions(rule: Rule): seq<string> {
    match rule
    case ExtremeHeat => ["Stay indoors and keep hydrated", "Avoid strenuous outdoor activities",
                         "Check on elderly and vulnerable people"]
    case HighHeat => ["Drink water frequently", "Wear light, breathable clothing"]
    case HeavyRain => ["Avoid driving through flooded areas", "Keep emergency kit ready", "Stay indoors if possible"]
    case Storm => ["Secure outdoor objects", "Stay away from trees and power lines", "Delay travel if possible"]
    case Freezing => ["Wear layered, warm clothing", "Beware of ice on roads and pavements"]
    case HumidHeat => ["Use fans/AC and take cool showers"]
  }

  /** The rule table: when each rule fires for a reading. */
  predicate Fires(rule: Rule, c: Reading)
    ensures Fires(rule, c) && rule !in {HeavyRain, Storm} ==> c.temperature.Some?
    ensures Fires(rule, c) && rule == HumidHeat ==> c.humidity.Some?
    ensures Fires(rule, c) && rule == HeavyRain ==> c.precipitation.Some? || c.weatherCode.Some?
    ensures Fires(rule, c) && rule == Storm ==> c.windSpeed.Some? || c.weatherCode.Some?
  {
    match rule
    case ExtremeHeat => AtLeast(c.temperature, 38.0)
    case HighHeat => AtLeast(c.temperature, 32.0) && !AtLeast(c.temperature, 38.0)
    case HeavyRain => AtLeast(c.precipitation, 10.0) || CodeIn(c.weatherCode, HeavyRainCodes)
    case Storm => AtLeast(c.windSpeed, 20.0) || CodeIn(c.weatherCode, StormCodes)
    case Freezing => AtMost(c.temperature, 0.0)
    case HumidHeat => AtLeast(c.temperature, 30.0) && AtLeast(c.humidity, 70.0)
  }

  function When(rule: Rule, c: Reading): seq<Rule> {
    if Fires(rule, c) then [rule] else []
  }

  /** The rules that fire for `current`, in evaluation order; none without a reading. */
  function FiredRules(current: Option<Reading>): (rs: seq<Rule>)
    ensures forall rule :: rule in rs <==> current.Some? && Fires(rule, current.value)
  {
    match current
    case None => []
    case Some(c) =>
      When(ExtremeHeat, c) + When(HighHeat, c) + When(HeavyRain, c) +
      When(Storm, c) + When(Freezing, c) + When(HumidHeat, c)
  }

  function Labels(rules: seq<Rule>): (r: seq<string>)
    ensures |r| == |rules|
    ensures forall i :: 0 <= i < |rules| ==> r[i] == Label(rules[i])
  {
    seq(|rules|, i requires 0 <= i < |rules| => Label(rules[i]))
  }

  /** The precautions of `rules`, concatenated in order. */
  function AllPrecautions(rules: seq<Rule>): (r: seq<string>)
    ensures forall p :: p in r <==> exists rule :: rule in rules && p in Precautions(rule)
  {
    if rules == [] then []
    else
      var init := rules[..|rules| - 1];
      assert forall rule :: rule in rules <==> rule in init || rule == rules[|rules| - 1];
      AllPrecautions(init) + Precautions(rules[|rules| - 1])
  }

  /** The assessment the rule table calls for: one label per fired rule, and
      the fired rules' precautions passed through a `Set`. */
  function Expected(current: Option<Reading>): (r: Report)
    ensures current.None? ==> r == Report([], [])
    ensures |r.hazards| == |FiredRules(current)|
    ensures NoDup(r.precautions)
  {
    Track(FiredRules(current))
  }

  /** One rule firing extends the hazards and the precautions as the rule table says. */
  lemma FireStep(fired: seq<Rule>, rule: Rule, hazards: seq<string>, precautions: seq<string>)
    requires hazards == Labels(fired) && precautions == FromArray(AllPrecautions(fired))
    ensures hazards + [Label(rule)] == Labels(fired + [rule])
    ensures AddAll(precautions, Precautions(rule)) == FromArray(AllPrecautions(fired + [rule]))
  {
    LabelsSnoc(fired, rule);
    AllPrecautionsSnoc(fired, rule);
    FromArrayAppendAll(AllPrecautions(fired), Precautions(rule));
  }

  lemma LabelsSnoc(rules: seq<Rule>, rule: Rule)
    ensures Labels(rules) + [Label(rule)] == Labels(rules + [rule])
  {
    var a, b := Labels(rules) + [Label(rule)], Labels(rules + [rule]);
    assert |a| == |b|;
    forall i | 0 <= i < |a| ensures a[i] == b[i] {
      if i < |rules| {
        assert (rules + [rule])[i] == rules[i];
      }
    }
  }

  lemma AllPrecautionsSnoc(rules: seq<Rule>, rule: Rule)
    ensures AllPrecautions(rules + [rule]) == AllPrecautions(rules) + Precautions(rule)
  {
    assert (rules + [rule])[..|rules|] == rules;
  }

  /** The hazards and precautions the rule table calls for once `fired` have
      fired; the partial result of `assessWeatherHazards` has the same shape. */
  function Track(fired: seq<Rule>): Report {
    Report(Labels(fired), FromArray(AllPrecautions(fired)))
  }

  /** One guarded block of `assessWeatherHazards` on the lists gathered so far:
      it only appends, and only what a firing rule calls for. */
  function Step(p: Report, rule: Rule, c: Reading): (r: Report)
    ensures p.hazards <= r.hazards && p.precautions <= r.precautions
    ensures forall h :: h in r.hazards <==> h in p.hazards || (Fires(rule, c) && h == Label(rule))
    ensures forall x :: x in r.precautions <==> x in p.precautions || (Fires(rule, c) && x in Precautions(rule))
  {
    if Fires(rule, c) then
      PrefixOfSnoc(p.hazards, Label(rule));
      Report(p.hazards + [Label(rule)], AddAll(p.precautions, Precautions(rule)))
    else p
  }

  /** A list is a prefix of itself with one more element. */
  lemma PrefixOfSnoc(s: seq<string>, x: string)
    ensures s <= s + [x]
  {
    assert (s + [x])[..|s|] == s;
  }

  /** The six blocks, in the order the source runs them, from empty lists:
      they yield the fired rules' labels and deduplicated precautions. */
  function Steps(c: Reading): (r: Report)
    ensures r == Track(FiredRules(Some(c)))
  {
    assert Report([], []) == Track([]);
    StepTracks([], ExtremeHeat, c);
    assert [] + When(ExtremeHeat, c) == When(ExtremeHeat, c);
    var beforeHigh := When(ExtremeHeat, c);
    StepTracks(beforeHigh, HighHeat, c);
    var beforeRain := beforeHigh + When(HighHeat, c);
    StepTracks(beforeRain, HeavyRain, c);
    var beforeStorm := beforeRain + When(HeavyRain, c);
    StepTracks(beforeStorm, Storm, c);
    var beforeFreezing := beforeStorm + When(Storm, c);
    StepTracks(beforeFreezing, Freezing, c);
    var beforeHumid := beforeFreezing + When(Freezing, c);
    StepTracks(beforeHumid, HumidHeat, c);
    Step(Step(Step(Step(Step(Step(Report([], []), ExtremeHeat, c), HighHeat, c), HeavyRain, c), Storm, c), Freezing, c), HumidHeat, c)
  }

  /** Each block keeps the progress equal to what the rule table calls for. */
  lemma StepTracks(fired: seq<Rule>, rule: Rule, c: Reading)
    ensures Step(Track(fired), rule, c) == Track(fired + When(rule, c))
  {
    if Fires(rule, c) {
      FireStep(fired, rule, Labels(fired), FromArray(AllPrecautions(fired)));
    } else {
      assert fired + When(rule, c) == fired;
    }
  }

  /** One block of `assessWeatherHazards`: the source's test for `rule` on the
      reading's fields; when it holds, the rule's label is pushed and its
      precautions added to the `Set` in order. */
  method Check(rule: Rule, c: Reading, hazards: seq<string>, precautions: seq<string>)
    returns (hazards': seq<string>, precautions': seq<string>)
    ensures Report(hazards', precautions') == Step(Report(hazards, precautions), rule, c)
  {
    var t, rh, rain, wind, code := c.temperature, c.humidity, c.precipitation, c.windSpeed, c.weatherCode;
    var cond := match rule
      case ExtremeHeat => AtLeast(t, 38.0)
      case HighHeat => !AtLeast(t, 38.0) && AtLeast(t, 32.0)  // the `else if` of the heat block
      case HeavyRain => AtLeast(rain, 10.0) || CodeIn(code, HeavyRainCodes)
      case Storm => AtLeast(wind, 20.0) || CodeIn(code, StormCodes)
      case Freezing => AtMost(t, 0.0)
      case HumidHeat => AtLeast(t, 30.0) && AtLeast(rh, 70.0);
    hazards', precautions' := hazards, precautions;
    if cond {
      hazards' := hazards' + [Label(rule)];
      precautions' := AddAll(precautions', Precautions(rule));
    }
  }

  /** `assessWeatherHazards(current)`: no reading, no assessment; otherwise the
      heat, heavy-rain, storm, cold and humid-heat blocks in that order, then
      the labels passed through a `Set` and the precautions' `Set`. */
  method AssessWeatherHazards(current: Option<Reading>) returns (r: Report)
    ensures r == Expected(current)
    ensures current.None? ==> r == Report([], [])
  {
    if current.None? {
      return Report([], []);
    }
    var c := current.value;
    var hazards: seq<string> := [];
    var precautions: seq<string> := [];
    hazards, precautions := Check(ExtremeHeat, c, hazards, precautions);
    hazards, precautions := Check(HighHeat, c, hazards, precautions);
    hazards, precautions := Check(HeavyRain, c, hazards, precautions);
    hazards, precautions := Check(Storm, c, hazards, precautions);
    hazards, precautions := Check(Freezing, c, hazards, precautions);
    hazards, precautions := Check(HumidHeat, c, hazards, precautions);
    assert Report(hazards, precautions) == Steps(c);
    LabelsOfFiredRules(current, hazards);
    r := Report(FromArray(hazards), precautions);
  }

  /** The labels of the fired rules are already distinct, so the final
      `Array.from(new Set(hazards))` returns them unchanged. */
  lemma LabelsOfFiredRules(current: Option<Reading>, hazards: seq<string>)
    requires hazards == Labels(FiredRules(current))
    ensures FromArray(hazards) == hazards
  {
    FiredRulesInOrder(current);
    LabelsNoDup(FiredRules(current));
    FromArrayOfNoDup(hazards);
  }

  /** Rules in strictly increasing evaluation order. */
  predicate InRuleOrder(rules: seq<Rule>) {
    forall i, j :: 0 <= i < j < |rules| ==> Rank(rules[i]) < Rank(rules[j])
  }

  lemma AppendWhen(rules: seq<Rule>, rule: Rule, c: Reading)
    requires InRuleOrder(rules)
    requires forall x :: x in rules ==> Rank(x) < Rank(rule)
    ensures InRuleOrder(rules + When(rule, c))
    ensures forall x :: x in rules + When(rule, c) ==> Rank(x) <= Rank(rule)
  {
  }

  /** The fired rules come out in evaluation order: heat, rain, storm, freezing, humidity. */
  lemma FiredRulesInOrder(current: Option<Reading>)
    ensures InRuleOrder(FiredRules(current))
  {
    if current.Some? {
      var c := current.value;
      var heat := When(ExtremeHeat, c) + When(HighHeat, c);
      assert |heat| <= 1;
      AppendWhen(heat, HeavyRain, c);
      AppendWhen(heat + When(HeavyRain, c), Storm, c);
      AppendWhen(heat + When(HeavyRain, c) + When(Storm, c), Freezing, c);
      AppendWhen(heat + When(HeavyRain, c) + When(Storm, c) + When(Freezing, c), HumidHeat, c);
    }
  }

  /** Distinct rules report distinct labels. */
  lemma LabelInjective(a: Rule, b: Rule)
    requires Label(a) == Label(b)
    ensures a == b
  {
  }

  /** Rules in evaluation order report no label twice. */
  lemma LabelsNoDup(rules: seq<Rule>)
    requires InRuleOrder(rules)
    ensures NoDup(Labels(rules))
  {
    forall i, j | 0 <= i < j < |rules| ensures Labels(rules)[i] != Labels(rules)[j] {
      if Labels(rules)[i] == Labels(rules)[j] {
        LabelInjective(rules[i], rules[j]);
      }
    }
  }

  /** A hazard is reported exactly when its rule fires. */
  lemma HazardIff(current: Option<Reading>, rule: Rule)
    ensures Label(rule) in Expected(current).hazards <==> current.Some? && Fires(rule, current.value)
  {
    var fired := FiredRules(current);
    if current.Some? && Fires(rule, current.value) {
      var i :| 0 <= i < |fired| && fired[i] == rule;
      assert Labels(fired)[i] == Label(rule);
    }
    if Label(rule) in Labels(fired) {
      var i :| 0 <= i < |fired| && Labels(fired)[i] == Label(rule);
      LabelInjective(fired[i], rule);
    }
  }

  /** Only the six rule labels are ever reported. */
  lemma OnlyRuleLabels(current: Option<Reading>, h: string)
    requires h in Expected(current).hazards
    ensures exists rule :: Fires(rule, current.value) && Label(rule) == h
  {
    var fired := FiredRules(current);
    var i :| 0 <= i < |fired| && Labels(fired)[i] == h;
    assert Fires(fired[i], current.value);
  }

  /** A precaution is listed exactly when some firing rule calls for it. */
  lemma PrecautionIff(current: Option<Reading>, p: string)
    ensures p in Expected(current).precautions <==>
      current.Some? && exists rule :: Fires(rule, current.value) && p in Precautions(rule)
  {
  }

  /** Neither list repeats an entry, and at most five hazards are reported. */
  lemma ReportIsDistinct(current: Option<Reading>)
    ensures NoDup(Expected(current).hazards) && NoDup(Expected(current).precautions)
    ensures |Expected(current).hazards| <= 5
  {
    var fired := FiredRules(current);
    FiredRulesInOrder(current);
    LabelsNoDup(fired);
    HeatIsExclusive(current);
  }

  /** The two heat hazards are never reported together. */
  lemma HeatIsExclusive(current: Option<Reading>)
    ensures !(Label(ExtremeHeat) in Expected(current).hazards && Label(HighHeat) in Expected(current).hazards)
  {
    HazardIff(current, ExtremeHeat);
    HazardIff(current, HighHeat);
  }

  /** A reading without a temperature raises none of the temperature hazards. */
  lemma NoTemperatureNoHeatOrCold(c: Reading)
    requires c.temperature.None?
    ensures Label(ExtremeHeat) !in Expected(Some(c)).hazards && Label(HighHeat) !in Expected(Some(c)).hazards
    ensures Label(Freezing) !in Expected(Some(c)).hazards && Label(HumidHeat) !in Expected(Some(c)).hazards
  {
    HazardIff(Some(c), ExtremeHeat);
    HazardIff(Some(c), HighHeat);
    HazardIff(Some(c), Freezing);
    HazardIff(Some(c), HumidHeat);
  }

  /** A reading with every field absent raises nothing at all. */
  lemma EmptyReadingIsQuiet()
    ensures Expected(Some(Reading(None, None, None, None, None))) == Report([], [])
  {
    var c := Reading(None, None, None, None, None);
    assert FiredRules(Some(c)) == [];
  }

  /** Some hazard is reported exactly when some rule fires. */
  lemma HazardsNonEmptyIff(current: Option<Reading>)
    ensures Expected(current).hazards != [] <==> current.Some? && exists rule :: Fires(rule, current.value)
  {
    var fired := FiredRules(current);
    if fired != [] {
      assert fired[0] in fired;
    }
  }

  /** No rule repeats one of its own precautions. */
  lemma PrecautionsDistinct(rule: Rule)
    ensures NoDup(Precautions(rule))
  {
    var ps := Precautions(rule);
    forall i, j | 0 <= i < j < |ps| ensures ps[i] != ps[j] {
      assert ps[i][1] != ps[j][1] || ps[i][0] != ps[j][0];
    }
  }

  /** 39 degrees, dry and calm: extreme heat only. */
  lemma ExtremeHeatExample()
    ensures Expected(Some(Reading(Some(39.0), Some(40.0), Some(0.0), Some(5.0), Some(0)))) ==
      Report(["Extreme heat risk"], ["Stay indoors and keep hydrated", "Avoid strenuous outdoor activities",
                                     "Check on elderly and vulnerable people"])
  {
    var c := Reading(Some(39.0), Some(40.0), Some(0.0), Some(5.0), Some(0));
    var fired := FiredRules(Some(c));
    assert fired == [ExtremeHeat];
    assert Labels(fired) == ["Extreme heat risk"];
    ExtremeHeatPrecautions();
  }

  /** Extreme heat alone adds its three precautions, in order. */
  lemma ExtremeHeatPrecautions()
    ensures FromArray(AllPrecautions([ExtremeHeat])) == Precautions(ExtremeHeat)
  {
    AllPrecautionsSnoc([], ExtremeHeat);
    assert [] + [ExtremeHeat] == [ExtremeHeat];
    PrecautionsDistinct(ExtremeHeat);
    FromArrayOfNoDup(Precautions(ExtremeHeat));
  }

  /** 35 degrees at 80 % humidity: high heat and the humid-heat advisory, but not extreme heat. */
  lemma HumidHeatExample()
    ensures Expected(Some(Reading(Some(35.0), Some(80.0), Some(0.0), Some(5.0), Some(1)))).hazards ==
      ["High heat", "Heat + high humidity"]
  {
    var c := Reading(Some(35.0), Some(80.0), Some(0.0), Some(5.0), Some(1));
    assert FiredRules(Some(c)) == [HighHeat, HumidHeat];
    assert Labels([HighHeat, HumidHeat]) == ["High heat", "Heat + high humidity"];
  }

  /** 31 degrees, 75 % humidity and 12 mm of rain under code 65: heavy rain, then humid heat. */
  lemma RainAndHumidHeatExample()
    ensures Expected(Some(Reading(Some(31.0), Some(75.0), Some(12.0), Some(3.0), Some(65)))) ==
      Report(["Heavy rain", "Heat + high humidity"],
             ["Avoid driving through flooded areas", "Keep emergency kit ready", "Stay indoors if possible",
              "Use fans/AC and take cool showers"])
  {
    var c := Reading(Some(31.0), Some(75.0), Some(12.0), Some(3.0), Some(65));
    var fired := FiredRules(Some(c));
    assert fired == [HeavyRain, HumidHeat];
    assert Labels(fired) == ["Heavy rain", "Heat + high humidity"];
    RainThenHumidHeatPrecautions();
  }

  /** Heavy rain followed by humid heat adds the four precautions in that order. */
  lemma RainThenHumidHeatPrecautions()
    ensures FromArray(AllPrecautions([HeavyRain, HumidHeat])) ==
      ["Avoid driving through flooded areas", "Keep emergency kit ready", "Stay indoors if possible",
       "Use fans/AC and take cool showers"]
  {
    AllPrecautionsSnoc([HeavyRain], HumidHeat);
    AllPrecautionsSnoc([], HeavyRain);
    assert [] + [HeavyRain] == [HeavyRain];
    assert [HeavyRain] + [HumidHeat] == [HeavyRain, HumidHeat];
    var ps := Precautions(HeavyRain) + Precautions(HumidHeat);
    assert AllPrecautions([HeavyRain, HumidHeat]) == ps;
    forall i, j | 0 <= i < j < |ps| ensures ps[i] != ps[j] {
      assert ps[i][0] != ps[j][0];
    }
    FromArrayOfNoDup(ps);
  }

  /** Passed alone through the alerts panel, the forwarded weather assessment
      shows exactly the hazards and precautions it carries. */
  lemma ForwardedReportSurvivesMerge(current: Option<Reading>)
    ensures var r := Expected(current);
      var a := Alert(Some(r.hazards), Some(r.precautions), Weather);
      AlertsPrecautions.Unique([a], [], AlertsPrecautions.HazardsPart) == r.hazards &&
      AlertsPrecautions.Unique([a], [], AlertsPrecautions.PrecautionsPart) == r.precautions
  {
    var r := Expected(current);
    var a := Alert(Some(r.hazards), Some(r.precautions), Weather);
    ReportIsDistinct(current);
    AlertsPrecautions.UniqueSingle(a, AlertsPrecautions.HazardsPart);
    AlertsPrecautions.UniqueSingle(a, AlertsPrecautions.PrecautionsPart);
    FromArrayOfNoDup(r.hazards);
    FromArrayOfNoDup(r.precautions);
  }

  /** What the two requests of `fetchAll` came back with: the forecast's and the
      reverse geocoder's `ok` flags and parsed bodies, or the message of an
      exception raised while fetching or parsing. */
  datatype Fetched =
    | Responded(weatherOk: bool, geoOk: bool, current: Option<Reading>, results: Option<seq<Place>>)
    | Rejected(message: string)

  /** `gData.results[0]`, when there is one. */
  function BestMatch(results: Option<seq<Place>>): (r: Option<Place>)
    ensures r.Some? <==> results.Some? && |results.value| > 0
    ensures r.Some? ==> r.value == results.value[0]
  {
    if results.Some? && |results.value| > 0 then Some(results.value[0]) else None
  }

  const WeatherFailed: string := "Failed to fetch weather"
  const GeocodingFailed: string := "Failed to resolve place"

  /** The message `fetchAll` shows when it fails, or `None` when it succeeds:
      the forecast status is checked before the geocoder's. */
  function FailureMessage(f: Fetched): (m: Option<string>)
    ensures m.Some? ==> m.value != ""
    ensures f.Responded? && f.weatherOk && f.geoOk <==> m.None?
    ensures f.Responded? && !f.weatherOk ==> m == Some(WeatherFailed)
    ensures f.Responded? && f.weatherOk && !f.geoOk ==> m == Some(GeocodingFailed)
    ensures f.Rejected? ==> m == Some(ErrorText(f.message))
  {
    match f
    case Rejected(message) => Some(ErrorText(message))
    case Responded(weatherOk, geoOk, _, _) =>
      if !weatherOk then Some(WeatherFailed)
      else if !geoOk then Some(GeocodingFailed)
      else None
  }

  /** The weather panel's state. */
  class WeatherPanel {
    var place: Option<Place>
    var current: Option<Reading>
    var loading: bool
    var error: string

    constructor ()
      ensures place == None && current == None && !loading && error == ""
    {
      place, current, loading, error := None, None, false, "";
    }

    /** `fetchAll` for the position `coords`, with the requests' outcome `f`;
        `cancelled` says whether the effect was cleaned up before the
        responses arrived. On success the reading and the place are stored,
        the place is forwarded to `app`, the assessment is forwarded as a
        weather alert, and `notify` says whether a notification is due. */
    method FetchAll(coords: Option<Coords>, f: Fetched, cancelled: bool, app: App.Dashboard) returns (notify: bool)
      modifies this, app
      ensures coords.None? ==>
        place == old(place) && current == old(current) && loading == old(loading) && error == old(error)
      ensures coords.None? || cancelled || FailureMessage(f).Some? ==>
        app.place == old(app.place) && app.weatherAlert == old(app.weatherAlert) && !notify
      ensures app.coords == old(app.coords) && app.healthAlert == old(app.healthAlert)
      ensures coords.Some? ==> loading == cancelled
      ensures coords.Some? && (cancelled || FailureMessage(f).Some?) ==>
        place == old(place) && current == old(current)
      ensures coords.Some? ==>
        error == (if !cancelled && FailureMessage(f).Some? then FailureMessage(f).value else "")
      ensures coords.Some? && !cancelled && FailureMessage(f).None? ==>
        var r := Expected(f.current);
        current == f.current && place == BestMatch(f.results) && app.place == place &&
        app.weatherAlert == Some(Alert(Some(r.hazards), Some(r.precautions), Weather)) &&
        notify == (r.hazards != [])
    {
      notify := false;
      if coords.None? {
        return;
      }
      loading := true;
      error := "";
      match f {
        case Rejected(message) =>
          if !cancelled {
            error := ErrorText(message);
          }
        case Responded(weatherOk, geoOk, c, results) =>
          if !weatherOk {
            if !cancelled {
              error := WeatherFailed;
            }
          } else if !geoOk {
            if !cancelled {
              error := GeocodingFailed;
            }
          } else if !cancelled {
            current := c;
            var resolved := BestMatch(results);
            place := resolved;
            app.OnPlaceResolved(resolved);
            var r := AssessWeatherHazards(c);
            app.OnWeatherHazards(Alert(Some(r.hazards), Some(r.precautions), Weather));
            notify := |r.hazards| > 0;
          }
      }
      if !cancelled {
        loading := false;
      }
    }
  }
}
