/**
 * The concrete inputs of the repository's parser tests, with the results the
 * model gives them. Every scenario uses the empty prefix map, as the tests do.
 */
module Scenarios {
  import opened Wrappers
  import opened JsValues
  import opened TagObjects
  import Conformances
  import WaysOfReadings
  import Accessibilities
  import ConformanceParser
  import WaysOfReadingParser
  import AccessibilityParser

  const StandardsText: string := "This publication meets accepted accessibility standards"
  const CertifierText: string := "The publication was certified by Certifier"
  const AppearanceText: string := "Appearance can be modified"
  const AltText: string := "Has alternative text"
  const ReadAloudText: string := "Not fully readable in read aloud or dynamic braille"
  const ContrastText: string := "High contrast between foreground text and background"

  /** `{ conformsTo: [{ "_": "This publication meets accepted accessibility standards" }] }` */
  const ConformsToTag: Tag := Tag(map["conformsTo" := Occurrences([Leaf(StandardsText)])])

  /** The three `feature` occurrences the tests use. */
  const FeaturesTag: Tag :=
    Tag(map["feature" := Occurrences([Leaf(AppearanceText), Leaf(AltText), Leaf(ReadAloudText)])])

  /** The `hazards` subtag the tests add beside the recognised ones. */
  const HazardsEntry: Entry :=
    Occurrences([Tag(map["feature" := Occurrences([Leaf("Sounds"), Leaf("Motion simulation"), Leaf("Flashing content")])])])

  /** The record `{ conformsTo: "This publication meets accepted accessibility standards" }`. */
  const ConformanceRecord: Conformances.Conformance := Conformances.Conformance(Own(Defined(StandardsText)))

  /** The record listing the three feature texts in document order. */
  const WaysOfReadingRecord: WaysOfReadings.WaysOfReading :=
    WaysOfReadings.WaysOfReading([Some(AppearanceText), Some(AltText), Some(ReadAloudText)])

  /** A `<conformsTo>` holding the standards sentence parses to a record holding that sentence. */
  lemma ConformsToParses()
    ensures ConformanceParser.Parse(map[], ConformsToTag) == ConformanceRecord
  {
    ConformanceParser.ParseElement(map[], Some(StandardsText));
    assert ConformanceParser.Element(Some(StandardsText)) == ConformsToTag;
  }

  /** With an unrecognised `certifier` sibling the record is the same, with `conformsTo` its one key. */
  lemma CertifierIsIgnored()
    ensures var c := ConformanceParser.Parse(map[], With(ConformsToTag, "certifier", Occurrences([Leaf(CertifierText)])));
      c == ConformanceRecord && Conformances.Keys(c) == {"conformsTo"}
  {
    ConformsToParses();
    ConformanceParser.IgnoresSiblings(map[], ConformsToTag, "certifier", Occurrences([Leaf(CertifierText)]));
  }

  /** An empty leaf text is kept as `""`. */
  lemma EmptyConformsToIsKept()
    ensures ConformanceParser.Parse(map[], Tag(map["conformsTo" := Occurrences([Leaf("")])])).conformsTo == Own(Defined(""))
  {
    ConformanceParser.ParseElement(map[], Some(""));
    assert ConformanceParser.Element(Some("")) == Tag(map["conformsTo" := Occurrences([Leaf("")])]);
  }

  /** `{}` and a `certifier`-only tag parse to a record whose `conformsTo` key is present and holds `undefined`. */
  lemma EmptyConformance()
    ensures var c := ConformanceParser.Parse(map[], Empty);
      c.conformsTo == Own(Undefined) && Conformances.Keys(c) == {"conformsTo"}
    ensures var c := ConformanceParser.Parse(map[], With(Empty, "certifier", Occurrences([Leaf(CertifierText)])));
      c.conformsTo == Own(Undefined) && Conformances.Keys(c) == {"conformsTo"}
  {
    ConformanceParser.NameIsBare(map[]);
    var c := ConformanceParser.Parse(map[], Empty);
    assert Read(c.conformsTo) == Undefined;
    ConformanceParser.IgnoresSiblings(map[], Empty, "certifier", Occurrences([Leaf(CertifierText)]));
  }

  /** Three features, the middle one empty, come back as three entries in document order. */
  lemma EmptyFeatureIsKept()
    ensures WaysOfReadingParser.Parse(map[], Tag(map["feature" := Occurrences([Leaf(AppearanceText), Leaf(""), Leaf(ReadAloudText)])])).features ==
      [Some(AppearanceText), Some(""), Some(ReadAloudText)]
  {
  }

  /** `{}` and a tag holding only `additionalAccessibilityInformation` parse to an empty feature list. */
  lemma NoFeatures()
    ensures WaysOfReadingParser.Parse(map[], Empty).features == []
    ensures WaysOfReadingParser.Parse(map[], Tag(map["additionalAccessibilityInformation" := Occurrences([Leaf(ContrastText)])])).features == []
  {
  }

  /** The three `feature` occurrences come back as their three texts in document order. */
  lemma ThreeFeatures()
    ensures WaysOfReadingParser.Parse(map[], FeaturesTag) == WaysOfReadingRecord
  {
    var f := WaysOfReadingParser.Parse(map[], FeaturesTag).features;
    assert |f| == 3 && f[0] == Some(AppearanceText) && f[1] == Some(AltText) && f[2] == Some(ReadAloudText);
  }

  /** A tag-object without either recognised subtag parses to `{ conformance: null, waysOfReading: null }`. */
  lemma NeitherSubtag(tag: Tag)
    requires AccessibilityParser.ConformanceName !in tag.fields && AccessibilityParser.WaysOfReadingName !in tag.fields
    ensures AccessibilityParser.Parse(map[], tag) == Accessibilities.Accessibility(Own(Null), Own(Null))
  {
    var a := AccessibilityParser.Parse(map[], tag);
    AccessibilityParser.NamesAreBare(map[]);
    assert Read(a.conformance) == Null && Read(a.waysOfReading) == Null;
    assert Accessibilities.ConformanceKey in Accessibilities.Keys(a);
    assert Accessibilities.WaysOfReadingKey in Accessibilities.Keys(a);
  }

  /** `{}` and a tag holding only `hazards` both parse to `{ conformance: null, waysOfReading: null }`. */
  lemma EmptyAccessibility()
    ensures AccessibilityParser.Parse(map[], Empty) == Accessibilities.Accessibility(Own(Null), Own(Null))
    ensures AccessibilityParser.Parse(map[], Tag(map["hazards" := HazardsEntry])) ==
      Accessibilities.Accessibility(Own(Null), Own(Null))
  {
    NeitherSubtag(Empty);
    NeitherSubtag(Tag(map["hazards" := HazardsEntry]));
  }

  /** Both subtags present give both nested records with their contents. */
  lemma FullAccessibility()
    ensures AccessibilityParser.Parse(map[], AccessibilityParser.Element(Some(ConformsToTag), Some(FeaturesTag))) ==
      Accessibilities.Accessibility(Own(Defined(ConformanceRecord)), Own(Defined(WaysOfReadingRecord)))
  {
    var a := AccessibilityParser.Parse(map[], AccessibilityParser.Element(Some(ConformsToTag), Some(FeaturesTag)));
    AccessibilityParser.ElementConformance(map[], Some(ConformsToTag), Some(FeaturesTag));
    AccessibilityParser.ElementWaysOfReading(map[], Some(ConformsToTag), Some(FeaturesTag));
    ConformsToParses();
    ThreeFeatures();
    assert Accessibilities.ConformanceKey in Accessibilities.Keys(a);
    assert Accessibilities.WaysOfReadingKey in Accessibilities.Keys(a);
  }

  /** A `hazards` sibling beside both subtags changes nothing, and never becomes a key of the result. */
  lemma HazardsAreIgnored()
    ensures var a := AccessibilityParser.Parse(map[],
        With(AccessibilityParser.Element(Some(ConformsToTag), Some(FeaturesTag)), "hazards", HazardsEntry));
      a == Accessibilities.Accessibility(Own(Defined(ConformanceRecord)), Own(Defined(WaysOfReadingRecord))) &&
      "hazards" !in Accessibilities.Keys(a)
  {
    FullAccessibility();
    AccessibilityParser.IgnoresSiblings(map[], AccessibilityParser.Element(Some(ConformsToTag), Some(FeaturesTag)), "hazards", HazardsEntry);
  }

  /** Only `conformance` present: `waysOfReading` is `null`. */
  lemma ConformanceOnly()
    ensures AccessibilityParser.Parse(map[], AccessibilityParser.Element(Some(ConformsToTag), None)) ==
      Accessibilities.Accessibility(Own(Defined(ConformanceRecord)), Own(Null))
  {
    var a := AccessibilityParser.Parse(map[], AccessibilityParser.Element(Some(ConformsToTag), None));
    AccessibilityParser.ElementConformance(map[], Some(ConformsToTag), None);
    AccessibilityParser.ElementWaysOfReading(map[], Some(ConformsToTag), None);
    ConformsToParses();
    assert Accessibilities.ConformanceKey in Accessibilities.Keys(a);
    assert Accessibilities.WaysOfReadingKey in Accessibilities.Keys(a);
  }

  /** Only `waysOfReading` present: `conformance` is `null`. */
  lemma WaysOfReadingOnly()
    ensures AccessibilityParser.Parse(map[], AccessibilityParser.Element(None, Some(FeaturesTag))) ==
      Accessibilities.Accessibility(Own(Null), Own(Defined(WaysOfReadingRecord)))
  {
    var a := AccessibilityParser.Parse(map[], AccessibilityParser.Element(None, Some(FeaturesTag)));
    AccessibilityParser.ElementConformance(map[], None, Some(FeaturesTag));
    AccessibilityParser.ElementWaysOfReading(map[], None, Some(FeaturesTag));
    ThreeFeatures();
    assert Accessibilities.ConformanceKey in Accessibilities.Keys(a);
    assert Accessibilities.WaysOfReadingKey in Accessibilities.Keys(a);
  }
}
