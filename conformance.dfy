/**
 * The `Conformance` record: one property, `conformsTo`, holding a string or
 * `undefined`. Its constructor copies the own keys of its argument object
 * (`Object.assign(this, args)`), so the record has exactly the keys its
 * arguments have.
 */
module Conformances {
  import opened JsValues

  /** The name of the record's one property. */
  const ConformsToKey: string := "conformsTo"

  /** The argument object handed to the constructor. */
  datatype ConformanceArgs = ConformanceArgs(conformsTo: Property<string>)

  /** A constructed record. */
  datatype Conformance = Conformance(conformsTo: Property<string>)

  /** `Object.keys(args)`. */
  function ArgsKeys(args: ConformanceArgs): (keys: set<string>)
  {
    KeyOf(ConformsToKey, args.conformsTo)
  }

  /** `Object.keys(c)`. */
  function Keys(c: Conformance): (keys: set<string>)
  {
    KeyOf(ConformsToKey, c.conformsTo)
  }

  /** `new Conformance(args)`: every own key of `args` is copied with its value, and nothing else. */
  function Create(args: ConformanceArgs): (c: Conformance)
    ensures Keys(c) == ArgsKeys(args)
    ensures Keys(c) <= {ConformsToKey}
    ensures Read(c.conformsTo) == Read(args.conformsTo)
    ensures args.conformsTo.Own? ==> ConformsToKey in Keys(c)
  {
    Conformance(args.conformsTo)
  }
}
