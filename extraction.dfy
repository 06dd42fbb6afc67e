/**
 * The subtag-lookup primitives every concrete parser inherits from
 * `Xml2jsOutputParser`: resolving a tag name against the prefix map, reading
 * the first occurrence of a nested element (`parseSubtag`) and reading the
 * leaf text of the first occurrence of a text element (`parseSubtagContent`).
 * Absence is never an error: it reads as `null` for a nested element and as
 * `undefined` for leaf text.
 */
module Extraction {
  import opened Wrappers
  import opened JsValues
  import opened TagObjects

  /** Namespace prefix -> the form that prefix takes in the converter's keys. */
  type PrefixMap = map<string, string>

  /** The separator between a namespace prefix and a local name. */
  const Colon: char := ':'

  /** The position of the first separator in `name`, if any. */
  function FindColon(name: string): (r: Option<nat>)
    ensures r.None? <==> Colon !in name
    ensures r.Some? ==> r.value < |name| && name[r.value] == Colon && Colon !in name[..r.value]
  {
    if name == [] then None
    else if name[0] == Colon then Some(0)
    else
      match FindColon(name[1..])
      case None => None
      case Some(i) =>
        assert name[..i + 1] == [name[0]] + name[1..][..i];
        Some(i + 1)
  }

  /**
   * The key under which a subtag named `name` is stored. A bare name is used
   * as it is, whatever the prefix map holds. For a name `prefix:local` the
   * prefix is replaced by its entry in the prefix map, or dropped when the map
   * has none; no parser of this model looks up such a name.
   */
  function Resolve(prefixes: PrefixMap, name: string): (key: string)
    ensures Colon !in name ==> key == name
  {
    match FindColon(name)
    case None => name
    case Some(i) =>
      var p, local := name[..i], name[i + 1..];
      (if p in prefixes then prefixes[p] else "") + local
  }

  /** The occurrences stored under `name`; a missing or non-array entry holds none. */
  function OccurrencesOf(prefixes: PrefixMap, tag: Tag, name: string): (occs: seq<Tag>)
    ensures Resolve(prefixes, name) !in tag.fields ==> occs == []
    ensures Resolve(prefixes, name) in tag.fields && tag.fields[Resolve(prefixes, name)].Occurrences? ==>
      occs == tag.fields[Resolve(prefixes, name)].items
  {
    var key := Resolve(prefixes, name);
    if key in tag.fields && tag.fields[key].Occurrences? then tag.fields[key].items else []
  }

  /** Whether `tag` has at least one occurrence of the subtag `name`. */
  predicate Present(prefixes: PrefixMap, tag: Tag, name: string)
  {
    |OccurrencesOf(prefixes, tag, name)| > 0
  }

  /** `parseSubtag`: the sub-parser's result on the first occurrence, or `null` when there is none. */
  function ParseSubtag<R>(prefixes: PrefixMap, tag: Tag, name: string, parse: Tag -> R): (r: Value<R>)
    ensures !r.Undefined?
    ensures r.Null? <==> !Present(prefixes, tag, name)
    ensures r.Defined? ==> r.value == parse(OccurrencesOf(prefixes, tag, name)[0])
  {
    var occs := OccurrencesOf(prefixes, tag, name);
    if |occs| > 0 then Defined(parse(occs[0])) else Null
  }

  /** `parseSubtagContent`: the leaf text of the first occurrence, or `undefined` when there is none. */
  function ParseSubtagContent(prefixes: PrefixMap, tag: Tag, name: string): (r: Option<string>)
    ensures !Present(prefixes, tag, name) ==> r.None?
    ensures Present(prefixes, tag, name) ==> r == LeafText(OccurrencesOf(prefixes, tag, name)[0])
  {
    var occs := OccurrencesOf(prefixes, tag, name);
    if |occs| > 0 then LeafText(occs[0]) else None
  }

  /** A bare name reads the same entry whatever the prefix map. */
  lemma BareNameIgnoresPrefixes(prefixes: PrefixMap, prefixes': PrefixMap, tag: Tag, name: string)
    requires Colon !in name
    ensures OccurrencesOf(prefixes, tag, name) == OccurrencesOf(prefixes', tag, name)
    ensures Resolve(prefixes, name) == name
  {
  }

  /** Both primitives look only at the entry under the resolved name. */
  lemma {:induction false} LookupIsLocal<R>(prefixes: PrefixMap, tag: Tag, tag': Tag, name: string, parse: Tag -> R)
    requires var key := Resolve(prefixes, name);
      (key in tag.fields <==> key in tag'.fields) && (key in tag.fields ==> tag.fields[key] == tag'.fields[key])
    ensures ParseSubtag(prefixes, tag, name, parse) == ParseSubtag(prefixes, tag', name, parse)
    ensures ParseSubtagContent(prefixes, tag, name) == ParseSubtagContent(prefixes, tag', name)
  {
  }
}
