/**
 * The two facts about JavaScript objects that the records of this system
 * depend on: reading a property yields `undefined`, `null` or a value, and a
 * property may be an own key of the object (listed by `Object.keys`) or not.
 */
module JsValues {
  import opened Wrappers

  /** What reading a property yields. */
  datatype Value<+T> = Undefined | Null | Defined(value: T)

  /** A property slot: not an own key, or an own key holding a value (possibly `undefined`). */
  datatype Property<+T> = Absent | Own(value: Value<T>)

  /** Reading a property: a key that is not an own key reads as `undefined`. */
  function Read<T>(p: Property<T>): (v: Value<T>)
    ensures p.Absent? ==> v.Undefined?
    ensures p.Own? ==> v == p.value
  {
    match p
    case Absent => Undefined
    case Own(v) => v
  }

  /** The own keys a single property slot named `name` contributes to `Object.keys`. */
  function KeyOf<T>(name: string, p: Property<T>): (ks: set<string>)
    ensures ks <= {name}
    ensures name in ks <==> p.Own?
  {
    if p.Own? then {name} else {}
  }

  /** A TypeScript `T | undefined` as a property value: a missing value reads as `undefined`. */
  function OfOption<T>(o: Option<T>): (v: Value<T>)
    ensures v.Undefined? <==> o.None?
    ensures !v.Null?
    ensures o.Some? ==> v == Defined(o.value)
  {
    match o
    case None => Undefined
    case Some(x) => Defined(x)
  }
}
