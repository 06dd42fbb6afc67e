/**
 * `AccessibilityParser`: reads an `<accessibility>` occurrence by handing its
 * first `conformance` occurrence to `ConformanceParser` and its first
 * `waysOfReading` occurrence to `WaysOfReadingParser`, both built with the
 * outer parser's prefix map, and assembling an `Accessibility` record that
 * always carries both keys; a missing subtag gives `null`.
 */
module AccessibilityParser {
  import opened Wrappers
  import opened JsValues
  import opened TagObjects
  import opened Extraction
  import Conformances
  import WaysOfReadings
  import opened Accessibilities
  import ConformanceParser
  import WaysOfReadingParser

  /** The subtags this parser reads. */
  const ConformanceName: string := "conformance"
  const WaysOfReadingName: string := "waysOfReading"

  /** Neither subtag name carries a prefix, so each is looked up as it is. */
  lemma NamesAreBare(prefixes: PrefixMap)
    ensures Resolve(prefixes, ConformanceName) == ConformanceName
    ensures Resolve(prefixes, WaysOfReadingName) == WaysOfReadingName
  {
    assert Colon !in ConformanceName;
    assert Colon !in WaysOfReadingName;
  }

  /** `parseConformance`: the `Conformance` of the first `conformance` occurrence, or `null`. */
  function ParseConformance(prefixes: PrefixMap, tag: Tag): (c: Value<Conformances.Conformance>)
    ensures !c.Undefined?
    ensures c.Null? <==> !Present(prefixes, tag, ConformanceName)
    ensures c.Defined? ==> c.value == ConformanceParser.Parse(prefixes, OccurrencesOf(prefixes, tag, ConformanceName)[0])
  {
    ParseSubtag(prefixes, tag, ConformanceName, (t: Tag) => ConformanceParser.Parse(prefixes, t))
  }

  /** `parseWaysOfReading`: the `WaysOfReading` of the first `waysOfReading` occurrence, or `null`. */
  function ParseWaysOfReading(prefixes: PrefixMap, tag: Tag): (w: Value<WaysOfReadings.WaysOfReading>)
    ensures !w.Undefined?
    ensures w.Null? <==> !Present(prefixes, tag, WaysOfReadingName)
    ensures w.Defined? ==> w.value == WaysOfReadingParser.Parse(prefixes, OccurrencesOf(prefixes, tag, WaysOfReadingName)[0])
  {
    ParseSubtag(prefixes, tag, WaysOfReadingName, (t: Tag) => WaysOfReadingParser.Parse(prefixes, t))
  }

  /** `createAccessibility`: both results go into the record under their own keys, and nothing else does. */
  function CreateAccessibility(conformance: Value<Conformances.Conformance>, waysOfReading: Value<WaysOfReadings.WaysOfReading>): (a: Accessibility)
    ensures Keys(a) == {ConformanceKey, WaysOfReadingKey}
    ensures Read(a.conformance) == conformance
    ensures Read(a.waysOfReading) == waysOfReading
  {
    Create(Some(AccessibilityArgs(Own(conformance), Own(waysOfReading))))
  }

  /** `parse`: the `Accessibility` record of one `<accessibility>` occurrence. */
  function Parse(prefixes: PrefixMap, tag: Tag): (a: Accessibility)
    ensures Keys(a) == {ConformanceKey, WaysOfReadingKey}
    ensures Read(a.conformance) == Null <==> !Present(prefixes, tag, ConformanceName)
    ensures Present(prefixes, tag, ConformanceName) ==>
      Read(a.conformance) == Defined(ConformanceParser.Parse(prefixes, OccurrencesOf(prefixes, tag, ConformanceName)[0]))
    ensures Read(a.waysOfReading) == Null <==> !Present(prefixes, tag, WaysOfReadingName)
    ensures Present(prefixes, tag, WaysOfReadingName) ==>
      Read(a.waysOfReading) == Defined(WaysOfReadingParser.Parse(prefixes, OccurrencesOf(prefixes, tag, WaysOfReadingName)[0]))
  {
    var conformance := ParseConformance(prefixes, tag);
    var waysOfReading := ParseWaysOfReading(prefixes, tag);
    CreateAccessibility(conformance, waysOfReading)
  }

  /** Whether two tag-objects hold the same entry (or none) under `key`. */
  predicate SameEntry(tag: Tag, tag': Tag, key: string)
  {
    (key in tag.fields <==> key in tag'.fields) && (key in tag.fields ==> tag.fields[key] == tag'.fields[key])
  }

  /** `conformance` depends only on the `conformance` subtag: changing `waysOfReading` or anything else leaves it alone. */
  lemma {:induction false} ConformanceIsLocal(prefixes: PrefixMap, tag: Tag, tag': Tag)
    requires SameEntry(tag, tag', ConformanceName)
    ensures Parse(prefixes, tag).conformance == Parse(prefixes, tag').conformance
  {
    NamesAreBare(prefixes);
    LookupIsLocal(prefixes, tag, tag', ConformanceName, (t: Tag) => ConformanceParser.Parse(prefixes, t));
  }

  /** `waysOfReading` depends only on the `waysOfReading` subtag: changing `conformance` or anything else leaves it alone. */
  lemma {:induction false} WaysOfReadingIsLocal(prefixes: PrefixMap, tag: Tag, tag': Tag)
    requires SameEntry(tag, tag', WaysOfReadingName)
    ensures Parse(prefixes, tag).waysOfReading == Parse(prefixes, tag').waysOfReading
  {
    NamesAreBare(prefixes);
    LookupIsLocal(prefixes, tag, tag', WaysOfReadingName, (t: Tag) => WaysOfReadingParser.Parse(prefixes, t));
  }

  /** Subtags other than the two it reads, such as `hazards`, neither appear in nor change the result. */
  lemma {:induction false} IgnoresSiblings(prefixes: PrefixMap, tag: Tag, key: string, entry: Entry)
    requires key != ConformanceName && key != WaysOfReadingName
    ensures Parse(prefixes, With(tag, key, entry)) == Parse(prefixes, tag)
    ensures Parse(prefixes, Without(tag, key)) == Parse(prefixes, tag)
    ensures key !in Keys(Parse(prefixes, With(tag, key, entry)))
  {
    ConformanceIsLocal(prefixes, With(tag, key, entry), tag);
    WaysOfReadingIsLocal(prefixes, With(tag, key, entry), tag);
    ConformanceIsLocal(prefixes, Without(tag, key), tag);
    WaysOfReadingIsLocal(prefixes, Without(tag, key), tag);
  }

  /**
   * Both sub-parsers get the outer parser's prefix map, and every name the
   * three parsers look up is bare, so the prefix map never changes the result.
   */
  lemma {:induction false} IgnoresPrefixes(prefixes: PrefixMap, prefixes': PrefixMap, tag: Tag)
    ensures Parse(prefixes, tag) == Parse(prefixes', tag)
  {
    ConformanceIgnoresPrefixes(prefixes, prefixes', tag);
    WaysOfReadingIgnoresPrefixes(prefixes, prefixes', tag);
  }

  lemma {:induction false} ConformanceIgnoresPrefixes(prefixes: PrefixMap, prefixes': PrefixMap, tag: Tag)
    ensures ParseConformance(prefixes, tag) == ParseConformance(prefixes', tag)
  {
    NamesAreBare(prefixes);
    NamesAreBare(prefixes');
    var occs := OccurrencesOf(prefixes, tag, ConformanceName);
    if |occs| > 0 {
      ConformanceParser.IgnoresPrefixes(prefixes, prefixes', occs[0]);
    }
  }

  lemma {:induction false} WaysOfReadingIgnoresPrefixes(prefixes: PrefixMap, prefixes': PrefixMap, tag: Tag)
    ensures ParseWaysOfReading(prefixes, tag) == ParseWaysOfReading(prefixes', tag)
  {
    NamesAreBare(prefixes);
    NamesAreBare(prefixes');
  }

  /** The tree the converter builds for `<accessibility>`, with each child present when given. */
  function Element(conformance: Option<Tag>, waysOfReading: Option<Tag>): (tag: Tag)
    ensures tag.fields.Keys <= {ConformanceName, WaysOfReadingName}
    ensures ConformanceName in tag.fields <==> conformance.Some?
    ensures WaysOfReadingName in tag.fields <==> waysOfReading.Some?
  {
    var c := if conformance.Some? then map[ConformanceName := Occurrences([conformance.value])] else map[];
    var w := if waysOfReading.Some? then map[WaysOfReadingName := Occurrences([waysOfReading.value])] else map[];
    Tag(c + w)
  }

  /** The `conformance` child of the built tree is found, as the one occurrence of its subtag. */
  lemma {:induction false} ElementConformance(prefixes: PrefixMap, conformance: Option<Tag>, waysOfReading: Option<Tag>)
    ensures OccurrencesOf(prefixes, Element(conformance, waysOfReading), ConformanceName) ==
      if conformance.Some? then [conformance.value] else []
  {
    NamesAreBare(prefixes);
    assert |ConformanceName| != |WaysOfReadingName|;
  }

  /** The `waysOfReading` child of the built tree is found, as the one occurrence of its subtag. */
  lemma {:induction false} ElementWaysOfReading(prefixes: PrefixMap, conformance: Option<Tag>, waysOfReading: Option<Tag>)
    ensures OccurrencesOf(prefixes, Element(conformance, waysOfReading), WaysOfReadingName) ==
      if waysOfReading.Some? then [waysOfReading.value] else []
  {
    NamesAreBare(prefixes);
  }

  /** The `<accessibility>` tree whose children hold the given `conformsTo` text and feature texts. */
  function ElementOf(conformsTo: Option<Option<string>>, features: Option<seq<string>>): (tag: Tag)
  {
    Element(
      if conformsTo.Some? then Some(ConformanceParser.Element(conformsTo.value)) else None,
      if features.Some? then Some(WaysOfReadingParser.Element(features.value)) else None)
  }

  /**
   * Parsing what the converter builds for an `<accessibility>` element whose
   * children hold the given `conformsTo` text and feature texts gives back
   * exactly those, and `null` for each missing child.
   */
  lemma {:induction false} ParseElement(prefixes: PrefixMap, conformsTo: Option<Option<string>>, features: Option<seq<string>>)
    ensures var a := Parse(prefixes, ElementOf(conformsTo, features));
      && (conformsTo.None? ==> Read(a.conformance) == Null)
      && (conformsTo.Some? ==>
            && Read(a.conformance).Defined?
            && Read(Read(a.conformance).value.conformsTo) == OfOption(conformsTo.value))
      && (features.None? ==> Read(a.waysOfReading) == Null)
      && (features.Some? ==> Read(a.waysOfReading) == Defined(WaysOfReadings.WaysOfReading(WaysOfReadingParser.Texts(features.value))))
  {
    var c := if conformsTo.Some? then Some(ConformanceParser.Element(conformsTo.value)) else None;
    var w := if features.Some? then Some(WaysOfReadingParser.Element(features.value)) else None;
    ElementConformance(prefixes, c, w);
    ElementWaysOfReading(prefixes, c, w);
    if conformsTo.Some? {
      ConformanceParser.ParseElement(prefixes, conformsTo.value);
    }
    if features.Some? {
      WaysOfReadingParser.ParseElement(prefixes, features.value);
    }
  }
}
