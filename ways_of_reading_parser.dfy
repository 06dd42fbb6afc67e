/**
 * `WaysOfReadingParser`: reads a `<waysOfReading>` occurrence into a
 * `WaysOfReading` record listing the leaf text of every `feature` occurrence,
 * in document order. It reads the literal key `feature` directly, without
 * consulting the prefix map.
 */
module WaysOfReadingParser {
  import opened Wrappers
  import opened TagObjects
  import opened Extraction
  import opened WaysOfReadings

  /** The key this parser reads. */
  const FeatureKey: string := "feature"

  /** `tag["feature"]`, or `None` (`undefined`) when the key is missing. */
  function FeatureSubtags(tag: Tag): (e: Option<Entry>)
    ensures e.Some? <==> FeatureKey in tag.fields
    ensures e.Some? ==> e.value == tag.fields[FeatureKey]
  {
    if FeatureKey in tag.fields then Some(tag.fields[FeatureKey]) else None
  }

  /**
   * `extractFeatures`: a missing or non-array value gives the empty list;
   * an array gives the leaf text of each occurrence, one for one and in order.
   */
  function ExtractFeatures(featureSubtags: Option<Entry>): (features: seq<Option<string>>)
    ensures featureSubtags.None? || featureSubtags.value.Text? ==> features == []
    ensures featureSubtags.Some? && featureSubtags.value.Occurrences? ==>
      |features| == |featureSubtags.value.items| &&
      forall i :: 0 <= i < |features| ==> features[i] == LeafText(featureSubtags.value.items[i])
  {
    match featureSubtags
    case Some(Occurrences(items)) => seq(|items|, i requires 0 <= i < |items| => LeafText(items[i]))
    case _ => []
  }

  /** `createWaysOfReading`: the record holding `features`. */
  function CreateWaysOfReading(features: seq<Option<string>>): (w: WaysOfReading)
    ensures w.features == features
    ensures Keys(w) == {FeaturesKey}
  {
    WaysOfReading(features)
  }

  /**
   * `parse`: the `WaysOfReading` record of one `<waysOfReading>` occurrence.
   * The parser is built with a prefix map but never consults it.
   */
  function Parse(prefixes: PrefixMap, tag: Tag): (w: WaysOfReading)
    ensures Keys(w) == {FeaturesKey}
    ensures (FeatureKey !in tag.fields || tag.fields[FeatureKey].Text?) ==> w.features == []
    ensures FeatureKey in tag.fields && tag.fields[FeatureKey].Occurrences? ==>
      |w.features| == |tag.fields[FeatureKey].items| &&
      forall i :: 0 <= i < |w.features| ==> w.features[i] == LeafText(tag.fields[FeatureKey].items[i])
  {
    CreateWaysOfReading(ExtractFeatures(FeatureSubtags(tag)))
  }

  /** The texts the converter's occurrences carry, one `Some` per text. */
  function Texts(texts: seq<string>): (r: seq<Option<string>>)
    ensures |r| == |texts|
    ensures forall i :: 0 <= i < |texts| ==> r[i] == Some(texts[i])
  {
    seq(|texts|, i requires 0 <= i < |texts| => Some(texts[i]))
  }

  /** The tree the converter builds for `<waysOfReading>` with one `<feature>` child per text. */
  function Element(texts: seq<string>): (tag: Tag)
    ensures texts == [] ==> tag == Empty
    ensures texts != [] ==> tag.fields.Keys == {FeatureKey}
  {
    if texts == [] then Empty
    else Tag(map[FeatureKey := Occurrences(seq(|texts|, i requires 0 <= i < |texts| => Leaf(texts[i])))])
  }

  /** Parsing what the converter builds gives back every text, in order, empty strings included. */
  lemma {:induction false} ParseElement(prefixes: PrefixMap, texts: seq<string>)
    ensures Parse(prefixes, Element(texts)).features == Texts(texts)
  {
    var w := Parse(prefixes, Element(texts));
    if texts != [] {
      forall i | 0 <= i < |texts| ensures w.features[i] == Some(texts[i]) {
        assert Element(texts).fields[FeatureKey].items[i] == Leaf(texts[i]);
      }
    }
  }

  /** Extraction follows document order: the features of two runs of occurrences are those of each, concatenated. */
  lemma {:induction false} ExtractFeaturesAppend(a: seq<Tag>, b: seq<Tag>)
    ensures ExtractFeatures(Some(Occurrences(a + b))) ==
      ExtractFeatures(Some(Occurrences(a))) + ExtractFeatures(Some(Occurrences(b)))
  {
    var fa, fb := ExtractFeatures(Some(Occurrences(a))), ExtractFeatures(Some(Occurrences(b)));
    var f := ExtractFeatures(Some(Occurrences(a + b)));
    forall i | 0 <= i < |f| ensures f[i] == (fa + fb)[i] {
      if i < |a| {
        assert (a + b)[i] == a[i];
      } else {
        assert (a + b)[i] == b[i - |a|];
      }
    }
  }

  /**
   * `featureSubtags.map(subtag => subtag["_"])` as `Array.prototype.map`
   * performs it: the callback's result for each element, front to back.
   */
  function LeafTexts(occs: seq<Tag>): (texts: seq<Option<string>>)
  {
    if occs == [] then [] else [LeafText(occs[0])] + LeafTexts(occs[1..])
  }

  /** Extraction from an array is exactly the element-by-element map of `subtag["_"]`. */
  lemma {:induction false} ExtractFeaturesIsMap(occs: seq<Tag>)
    ensures ExtractFeatures(Some(Occurrences(occs))) == LeafTexts(occs)
  {
    if occs != [] {
      ExtractFeaturesIsMap(occs[1..]);
      var f, f' := ExtractFeatures(Some(Occurrences(occs))), ExtractFeatures(Some(Occurrences(occs[1..])));
      assert f == [LeafText(occs[0])] + f';
    }
  }

  /** Keys other than `feature`, such as `additionalAccessibilityInformation`, neither appear in nor change the result. */
  lemma {:induction false} IgnoresSiblings(prefixes: PrefixMap, tag: Tag, key: string, entry: Entry)
    requires key != FeatureKey
    ensures Parse(prefixes, With(tag, key, entry)) == Parse(prefixes, tag)
    ensures Parse(prefixes, Without(tag, key)) == Parse(prefixes, tag)
  {
    assert FeatureSubtags(With(tag, key, entry)) == FeatureSubtags(tag);
    assert FeatureSubtags(Without(tag, key)) == FeatureSubtags(tag);
  }
}
