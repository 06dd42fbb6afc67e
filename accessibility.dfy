/**
 * The `Accessibility` record: two optional properties, `conformance` and
 * `waysOfReading`. Its constructor takes an optional argument object; when
 * one is given it assigns both properties from it (so both become own keys,
 * whatever the arguments held), and when none is given it leaves both unset.
 * Nothing assigns to a record after construction.
 */
module Accessibilities {
  import opened Wrappers
  import opened JsValues
  import Conformances
  import WaysOfReadings

  const ConformanceKey: string := "conformance"
  const WaysOfReadingKey: string := "waysOfReading"

  /** The argument object: either property may be missing. */
  datatype AccessibilityArgs = AccessibilityArgs(conformance: Property<Conformances.Conformance>, waysOfReading: Property<WaysOfReadings.WaysOfReading>)

  /** A constructed record. */
  datatype Accessibility = Accessibility(conformance: Property<Conformances.Conformance>, waysOfReading: Property<WaysOfReadings.WaysOfReading>)

  /** `Object.keys(a)`. */
  function Keys(a: Accessibility): (keys: set<string>)
  {
    KeyOf(ConformanceKey, a.conformance) + KeyOf(WaysOfReadingKey, a.waysOfReading)
  }

  /**
   * `new Accessibility(args)`: with arguments, both properties are assigned
   * what reading them from `args` yields and are the record's only keys;
   * without, the record has no keys.
   */
  function Create(args: Option<AccessibilityArgs>): (a: Accessibility)
    ensures args.None? ==> Keys(a) == {}
    ensures args.None? ==> Read(a.conformance) == Undefined && Read(a.waysOfReading) == Undefined
    ensures args.Some? ==> Keys(a) == {ConformanceKey, WaysOfReadingKey}
    ensures args.Some? ==> Read(a.conformance) == Read(args.value.conformance)
    ensures args.Some? ==> Read(a.waysOfReading) == Read(args.value.waysOfReading)
  {
    match args
    case None => Accessibility(Absent, Absent)
    case Some(args) => Accessibility(Own(Read(args.conformance)), Own(Read(args.waysOfReading)))
  }
}
