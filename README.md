# Accessibility metadata extraction of the OPDS feed parser

This project models, in Dafny, how the OPDS feed parser turns the
`<accessibility>` element of a catalog entry into typed records. The
XML-to-object converter has already produced a tree. In that tree a
tag-object maps each child element's name to the array of its occurrences,
and the key `"_"` holds an element's leaf text. Three parsers read that tree:

- `ConformanceParser` reads the text of the first `conformsTo` child into a
  `Conformance` record. The record's `conformsTo` key is always present and
  holds `undefined` when there is no such child.
- `WaysOfReadingParser` lists the text of every `feature` child, in document
  order, in a `WaysOfReading` record. Empty texts are kept. A missing or
  non-array `feature` value gives an empty list.
- `AccessibilityParser` hands the first `conformance` occurrence and the first
  `waysOfReading` occurrence to those two parsers. It builds an
  `Accessibility` record that always has exactly these two keys. Each key
  holds `null` when its child is missing.

Files, one module each:

- `wrappers.dfy`: `Option`.
- `js_values.dfy`: the JavaScript facts the records depend on. A property
  reads as `undefined`, `null` or a value, and it is either an own key of the
  object or not.
- `tag_objects.dfy`: the converter's tree.
- `extraction.dfy`: the base-class primitives `parseSubtag` and
  `parseSubtagContent`, and name resolution against the prefix map.
- `conformance.dfy`, `ways_of_reading.dfy`, `accessibility.dfy`: the three
  records and their constructors.
- `conformance_parser.dfy`, `ways_of_reading_parser.dfy`,
  `accessibility_parser.dfy`: the three parsers.
- `scenarios.dfy`: the inputs of the parser tests, with the tests' own texts,
  and the results the model gives them.

Each parser is a function of the prefix map and the tag-object. This mirrors
a parser object built with a prefix map and never changed afterwards. The
records are datatypes, so nothing can assign to them after construction, and
equal inputs always give equal results. Where an operation reads an object
property, the model keeps "not an own key" (`Absent`), `undefined`, `null`
and a value apart. This lets the contracts state key sets exactly, as
`Object.keys` would report them.

The base class `Xml2jsOutputParser` (src/xml2js_output_parser.ts) and the
prefix map (src/prefix_map.ts) are not part of this model. Their primitives
are specified by what the parser tests assert:

- a missing nested subtag gives `null`;
- a missing leaf gives `undefined`;
- otherwise the first occurrence is used.

The tests assert `null` for a missing subtag
(test/accessibility_parser_test.ts:79,105,188-189), and `ParseSubtag`
returns `Null`. A subtag name without a `:` is looked up as written. Every
name the three parsers look up is bare, so in this model their results never
depend on the prefix map (see `Resolve` under "## Left out"). `WaysOfReadingParser` reads the
literal key `feature` without any resolution.

## Model

| member | source | states |
|---|---|---|
| `TagObjects.LeafText` | src/ways_of_reading_parser.ts:32 | `occ["_"]`: the leaf text exactly when the occurrence holds text under `"_"`, otherwise `undefined` (`None`) |
| `Extraction.Resolve` | src/accessibility_parser.ts:30 | a name without a prefix separator resolves to itself, whatever the prefix map |
| `Extraction.ParseSubtag` | src/accessibility_parser.ts:34-38 | never `undefined`; `null` exactly when the subtag has no occurrence; otherwise the sub-parser's result on the first occurrence |
| `Extraction.ParseSubtagContent` | src/conformance_parser.ts:25 | `undefined` when the subtag has no occurrence; otherwise the leaf text of the first occurrence |
| `Extraction.BareNameIgnoresPrefixes` | src/accessibility_parser.ts:31 | a bare name finds the same occurrences under any two prefix maps |
| `Extraction.LookupIsLocal` | src/conformance_parser.ts:25 | both primitives depend only on the entry under the resolved name |
| `Conformances.Create` | src/conformance.ts:4-6 | `Object.assign`: the record's key set equals the arguments' key set (at most `conformsTo`), and `conformsTo` reads the same value |
| `ConformanceParser.ExtractConformsTo` | src/conformance_parser.ts:23-26 | `undefined` without a `conformsTo` occurrence; otherwise the first occurrence's leaf text |
| `ConformanceParser.CreateConformance` | src/conformance_parser.ts:30-39 | the record has exactly the key `conformsTo`, holding the text or `undefined` |
| `ConformanceParser.Parse` | src/conformance_parser.ts:12-20 | keys are exactly `{conformsTo}`; it reads `undefined` when the subtag is absent, else the first occurrence's leaf text (`""` kept as `""`) |
| `ConformanceParser.ParseElement` | test/accessibility_parser_test.ts:232-295 | round trip: the converter's tree for a `conformsTo` text (or none) parses back to that text (or `undefined`) |
| `ConformanceParser.IgnoresSiblings` | test/accessibility_parser_test.ts:264-314 | adding or removing any other subtag (e.g. `certifier`) leaves the result unchanged, and that key is never on the result |
| `ConformanceParser.IgnoresPrefixes` | src/conformance_parser.ts:25 | the result is the same under any two prefix maps |
| `WaysOfReadingParser.FeatureSubtags` | src/ways_of_reading_parser.ts:16 | `tag["feature"]`: the entry under the literal key, or `undefined` |
| `WaysOfReadingParser.ExtractFeatures` | src/ways_of_reading_parser.ts:23-33 | missing or non-array gives `[]`; an array gives one entry per occurrence, entry `i` being occurrence `i`'s leaf text |
| `WaysOfReadingParser.CreateWaysOfReading` | src/ways_of_reading_parser.ts:37-47 | the record holds the given features and has exactly the key `features` |
| `WaysOfReadingParser.Parse` | src/ways_of_reading_parser.ts:12-20 | keys are exactly `{features}`; `features` is `[]` when `feature` is missing or not an array, otherwise as long as the array and equal to its leaf texts index by index |
| `WaysOfReadingParser.ParseElement` | test/accessibility_parser_test.ts:332-384 | round trip: the converter's tree for a list of feature texts parses back to exactly those texts in order, empty strings included |
| `WaysOfReadingParser.ExtractFeaturesIsMap` | src/ways_of_reading_parser.ts:32 | extraction from an array equals the front-to-back `Array.prototype.map` of `subtag["_"]`, an independent recursive definition |
| `WaysOfReadingParser.ExtractFeaturesAppend` | src/ways_of_reading_parser.ts:32 | document order: features of `a + b` are the features of `a` followed by those of `b` |
| `WaysOfReadingParser.IgnoresSiblings` | test/accessibility_parser_test.ts:386-446 | adding or removing any key other than `feature` (e.g. `additionalAccessibilityInformation`) leaves the result unchanged |
| `Accessibilities.Create` | src/accessibility.ts:15-23 | with arguments, both keys become own keys and read what the arguments held; without, the record has no keys and both read `undefined` |
| `AccessibilityParser.ParseConformance` | src/accessibility_parser.ts:26-39 | `null` exactly when there is no `conformance` occurrence; otherwise `ConformanceParser.Parse` of the first one, with the same prefix map |
| `AccessibilityParser.ParseWaysOfReading` | src/accessibility_parser.ts:42-55 | `null` exactly when there is no `waysOfReading` occurrence; otherwise `WaysOfReadingParser.Parse` of the first one, with the same prefix map |
| `AccessibilityParser.CreateAccessibility` | src/accessibility_parser.ts:59-75 | the record has exactly the keys `conformance` and `waysOfReading`, each reading the value given |
| `AccessibilityParser.Parse` | src/accessibility_parser.ts:17-23 | keys are exactly `{conformance, waysOfReading}` for every input including `{}`; each is `null` exactly when its subtag is absent, else the sub-parser's result on its first occurrence |
| `AccessibilityParser.ConformanceIsLocal` | src/accessibility_parser.ts:19-20 | `conformance` depends only on the `conformance` entry: changing `waysOfReading` or any other key leaves it unchanged |
| `AccessibilityParser.WaysOfReadingIsLocal` | src/accessibility_parser.ts:19-20 | `waysOfReading` depends only on the `waysOfReading` entry |
| `AccessibilityParser.IgnoresSiblings` | test/accessibility_parser_test.ts:140-213 | adding or removing any other subtag (e.g. `hazards`) leaves the result unchanged, and that key is never on the result |
| `AccessibilityParser.IgnoresPrefixes` | src/accessibility_parser.ts:26-55 | the sub-parsers share the outer prefix map, and the whole result is the same under any two prefix maps |
| `AccessibilityParser.ParseElement` | test/accessibility_parser_test.ts:63-138 | round trip: the tree for given `conformsTo` and feature texts (each child optional) parses back to them, with `null` for a missing child |
| `Scenarios.ConformsToParses` | test/accessibility_parser_test.ts:232-246 | the test's `conformsTo` sentence gives a record holding that sentence |
| `Scenarios.CertifierIsIgnored` | test/accessibility_parser_test.ts:264-285 | `conformsTo` plus `certifier` gives the same record, with `conformsTo` its one key |
| `Scenarios.EmptyConformsToIsKept` | test/accessibility_parser_test.ts:248-262 | an empty leaf text gives `conformsTo == ""` |
| `Scenarios.EmptyConformance` | test/accessibility_parser_test.ts:287-314 | `{}` and a `certifier`-only tag give a record whose one key `conformsTo` is present and `undefined` |
| `Scenarios.EmptyFeatureIsKept` | test/accessibility_parser_test.ts:359-384 | three features, the middle one empty, give three entries in order |
| `Scenarios.NoFeatures` | test/accessibility_parser_test.ts:420-446 | `{}` and an `additionalAccessibilityInformation`-only tag both give `features == []` |
| `Scenarios.ThreeFeatures` | test/accessibility_parser_test.ts:332-357 | the test's three `feature` occurrences give their three texts in document order |
| `Scenarios.NeitherSubtag` | test/accessibility_parser_test.ts:179-213 | any tag without `conformance` and `waysOfReading` gives `{conformance: null, waysOfReading: null}` |
| `Scenarios.EmptyAccessibility` | test/accessibility_parser_test.ts:179-213 | `{}` and a `hazards`-only tag give `{conformance: null, waysOfReading: null}` |
| `Scenarios.FullAccessibility` | test/accessibility_parser_test.ts:108-138 | both subtags present give both nested records: the sentence and the three features |
| `Scenarios.HazardsAreIgnored` | test/accessibility_parser_test.ts:140-177 | a `hazards` sibling beside both subtags changes nothing and is not a key of the result |
| `Scenarios.ConformanceOnly` | test/accessibility_parser_test.ts:63-80 | only `conformance` present gives its record and `waysOfReading == null` |
| `Scenarios.WaysOfReadingOnly` | test/accessibility_parser_test.ts:82-106 | only `waysOfReading` present gives its three features and `conformance == null` |

## Left out

- The XML-to-object conversion and the top-level `OPDSParser` are not modelled. The end-to-end test reads a file and runs asynchronously; both are I/O.
- src/xml2js_output_parser.ts and src/prefix_map.ts are not part of this model. `ParseSubtag` and `ParseSubtagContent` are specified by what the tests assert of them.
- Resolve: that a bare name is looked up unchanged under a non-empty prefix map is an assumption about the base class, which is not shown; the tests only build parsers with the empty map (test/accessibility_parser_test.ts:57,226,326). `Extraction.BareNameIgnoresPrefixes`, `ConformanceParser.IgnoresPrefixes` and `AccessibilityParser.IgnoresPrefixes` rest on it. The rule for a prefixed name `p:local` (the map's entry for `p`, or nothing, followed by `local`) is an assumption too; no parser looks up such a name, and the model proves nothing about it.
- src/ways_of_reading.ts is not part of this model. The `WaysOfReading` record is taken to hold exactly its `features` argument, which is what the tests observe (test/accessibility_parser_test.ts:410).
- A subtag entry that is not an array (for example a bare string) is treated as absent by `ParseSubtag` and `ParseSubtagContent`. The model does not say what the unseen base class would do with such an entry.
- A `"_"` value that is not text is read as `undefined`, and so is a missing one. Each becomes a `None` element of `features`. The model does not carry a non-string value into the list.
- Namespace-URI semantics, XML attributes, well-formedness and schema validation are not modelled; the code performs none of them.
- TypeScript's types exclude `null` from `conformsTo`. The model does not exclude it: the constructor copies whatever value the arguments hold.
