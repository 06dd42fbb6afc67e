/**
 * `ConformanceParser`: reads a `<conformance>` occurrence into a
 * `Conformance` record whose `conformsTo` is the leaf text of the first
 * `conformsTo` subtag, or `undefined` when there is none.
 */
module ConformanceParser {
  import opened Wrappers
  import opened JsValues
  import opened TagObjects
  import opened Extraction
  import opened Conformances

  /** The subtag this parser reads. */
  const ConformsToName: string := "conformsTo"

  /** The subtag name carries no prefix, so it is looked up as it is. */
  lemma NameIsBare(prefixes: PrefixMap)
    ensures Resolve(prefixes, ConformsToName) == ConformsToName
  {
    assert Colon !in ConformsToName;
  }

  /** `extractConformsTo`: the leaf text of the first `conformsTo` occurrence. */
  function ExtractConformsTo(prefixes: PrefixMap, tag: Tag): (conformsTo: Option<string>)
    ensures !Present(prefixes, tag, ConformsToName) ==> conformsTo.None?
    ensures Present(prefixes, tag, ConformsToName) ==>
      conformsTo == LeafText(OccurrencesOf(prefixes, tag, ConformsToName)[0])
  {
    ParseSubtagContent(prefixes, tag, ConformsToName)
  }

  /** `createConformance`: builds `{ conformsTo }` and hands it to the constructor. */
  function CreateConformance(conformsTo: Option<string>): (c: Conformance)
    ensures Keys(c) == {ConformsToKey}
    ensures Read(c.conformsTo) == OfOption(conformsTo)
  {
    Create(ConformanceArgs(Own(OfOption(conformsTo))))
  }

  /** `parse`: the `Conformance` record of one `<conformance>` occurrence. */
  function Parse(prefixes: PrefixMap, tag: Tag): (c: Conformance)
    ensures Keys(c) == {ConformsToKey}
    ensures !Present(prefixes, tag, ConformsToName) ==> Read(c.conformsTo) == Undefined
    ensures Present(prefixes, tag, ConformsToName) ==>
      Read(c.conformsTo) == OfOption(LeafText(OccurrencesOf(prefixes, tag, ConformsToName)[0]))
  {
    CreateConformance(ExtractConformsTo(prefixes, tag))
  }

  /** The tree the converter builds for `<conformance>`, with a `<conformsTo>` child when `conformsTo` is given. */
  function Element(conformsTo: Option<string>): (tag: Tag)
    ensures conformsTo.None? ==> tag == Empty
    ensures conformsTo.Some? ==> tag.fields.Keys == {ConformsToName}
  {
    match conformsTo
    case None => Empty
    case Some(text) => Tag(map[ConformsToName := Occurrences([Leaf(text)])])
  }

  /** Parsing what the converter builds gives back the text, including `""`, and `undefined` for no child. */
  lemma {:induction false} ParseElement(prefixes: PrefixMap, conformsTo: Option<string>)
    ensures Read(Parse(prefixes, Element(conformsTo)).conformsTo) == OfOption(conformsTo)
  {
    NameIsBare(prefixes);
  }

  /** Subtags other than `conformsTo`, such as `certifier`, neither appear in nor change the result. */
  lemma {:induction false} IgnoresSiblings(prefixes: PrefixMap, tag: Tag, key: string, entry: Entry)
    requires key != ConformsToName
    ensures Parse(prefixes, With(tag, key, entry)) == Parse(prefixes, tag)
    ensures Parse(prefixes, Without(tag, key)) == Parse(prefixes, tag)
    ensures key !in Keys(Parse(prefixes, With(tag, key, entry)))
  {
    NameIsBare(prefixes);
    LookupIsLocal(prefixes, With(tag, key, entry), tag, ConformsToName, (t: Tag) => t);
    LookupIsLocal(prefixes, Without(tag, key), tag, ConformsToName, (t: Tag) => t);
  }

  /** The name `conformsTo` has no prefix, so the prefix map never changes the result. */
  lemma {:induction false} IgnoresPrefixes(prefixes: PrefixMap, prefixes': PrefixMap, tag: Tag)
    ensures Parse(prefixes, tag) == Parse(prefixes', tag)
  {
    NameIsBare(prefixes);
    NameIsBare(prefixes');
  }
}
