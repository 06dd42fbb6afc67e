/**
 * The tree the XML-to-object converter hands to the parsers. A tag-object maps
 * keys to entries; an element child's key holds the ordered array of its
 * occurrences (always an array, even for one occurrence), and the designated
 * key "_" holds the element's leaf text.
 */
module TagObjects {
  import opened Wrappers

  /** The key under which the converter stores an element's text content. */
  const TextKey: string := "_"

  /** One tag-object (an element occurrence, or the empty object `{}`). */
  datatype Tag = Tag(fields: map<string, Entry>)

  /** What a key of a tag-object holds: leaf text, or an array of occurrences. */
  datatype Entry = Text(text: string) | Occurrences(items: seq<Tag>)

  /** The empty tag-object `{}`. */
  const Empty: Tag := Tag(map[])

  /** `occ["_"]`: the leaf text of an occurrence, or `None` (`undefined`) when it has none. */
  function LeafText(occ: Tag): (r: Option<string>)
    ensures r.Some? <==> TextKey in occ.fields && occ.fields[TextKey].Text?
    ensures r.Some? ==> r.value == occ.fields[TextKey].text
  {
    if TextKey in occ.fields && occ.fields[TextKey].Text? then Some(occ.fields[TextKey].text) else None
  }

  /** The occurrence `{"_": text}` the converter builds for a text-only element. */
  function Leaf(text: string): (occ: Tag)
    ensures LeafText(occ) == Some(text)
    ensures occ.fields.Keys == {TextKey}
  {
    Tag(map[TextKey := Text(text)])
  }

  /** `tag[key] = entry`: the same tag-object with one key set. */
  function With(tag: Tag, key: string, entry: Entry): (t: Tag)
    ensures t.fields.Keys == tag.fields.Keys + {key}
  {
    Tag(tag.fields[key := entry])
  }

  /** `delete tag[key]`: the same tag-object with one key removed. */
  function Without(tag: Tag, key: string): (t: Tag)
    ensures t.fields.Keys == tag.fields.Keys - {key}
  {
    Tag(tag.fields - {key})
  }
}
