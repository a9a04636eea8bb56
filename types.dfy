/** Values shared by the dashboard's components. */
module Types {
  import opened JsValues

  /** Which evaluator produced an assessment. */
  datatype Source = Weather | Health

  /** A hazard assessment as the components pass it around:
      `{ hazards, precautions, source }`. The merge step reads `hazards` and
      `precautions` with `|| []`, so either may be absent. */
  datatype Alert = Alert(hazards: Option<seq<string>>, precautions: Option<seq<string>>, source: Source)

  /** A geocoded place, with the properties the dashboard reads from a
      geocoding result (`name`, `admin1`, `country`, `country_code`). */
  datatype Place = Place(name: Option<string>, admin1: Option<string>, country: Option<string>, countryCode: Option<string>)

  /** A device position. */
  datatype Coords = Coords(lat: real, lon: real)
}
