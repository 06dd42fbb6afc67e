/**
 * The `WaysOfReading` record: one property, `features`, the ordered list of
 * feature texts. (ways_of_reading.ts is not part of this model; the record is
 * taken to hold exactly the `features` its arguments carry.) An element is
 * `None` where a `feature` occurrence had no leaf text, which JavaScript
 * reads as `undefined`.
 */
module WaysOfReadings {
  import opened Wrappers

  /** The name of the record's one property. */
  const FeaturesKey: string := "features"

  /** A constructed record. */
  datatype WaysOfReading = WaysOfReading(features: seq<Option<string>>)

  /** `Object.keys(w)`: the record always carries its `features` array. */
  function Keys(w: WaysOfReading): (keys: set<string>)
  {
    {FeaturesKey}
  }
}
