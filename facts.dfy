/** The values this layer hands to the store and gets back from it: attribute keywords,
    transaction items and scanned datoms. Placeholder entity ids are plain negative integers
    (the source wraps each in `mu.Tempid(mu.DbPartUser, n)`; the partition is always the
    user partition). */
module Facts {

  /** `mu.Keyword(namespace, name)`, written `:namespace/name`. */
  datatype Keyword = Keyword(namespace: string, name: string)

  const NoteIdAttr := Keyword("note", "id")
  const NoteTitleAttr := Keyword("note", "title")
  const NoteContentAttr := Keyword("note", "content")
  const NoteDateAttr := Keyword("note", "date")
  const NoteUrlAttr := Keyword("note", "url")
  const NoteTagsAttr := Keyword("note", "tags")
  const TagNameAttr := Keyword("tag", "name")

  /** A point in time, in nanoseconds since the Unix epoch. */
  type Time = int

  /** `tx.NewValue(x)` for the kinds of `x` the source uses. */
  datatype Value = Str(s: string) | Instant(t: Time) | Ref(e: int)

  datatype Op = Assert | Retract

  /** One item of a transaction: a single fact, or an entity with several attributes. */
  datatype TxDatum =
    | Datum(op: Op, e: int, a: Keyword, v: Value)
    | TxMap(id: int, attrs: map<Keyword, seq<Value>>)

  /** A datom as an index scan yields it (entity, attribute id, value, transaction, added). */
  datatype Datom = Datom(e: int, a: int, v: Value, tx: int, added: bool)

  /** The four mandatory note attributes of an import, on the placeholder `id`. */
  function NoteMap(id: int, noteId: string, title: string, content: string, date: Time): (m: TxDatum)
    ensures m.TxMap? && m.id == id
    ensures m.attrs.Keys == {NoteIdAttr, NoteTitleAttr, NoteContentAttr, NoteDateAttr}
    ensures m.attrs[NoteIdAttr] == [Str(noteId)] && m.attrs[NoteTitleAttr] == [Str(title)]
    ensures m.attrs[NoteContentAttr] == [Str(content)] && m.attrs[NoteDateAttr] == [Instant(date)]
  {
    TxMap(id, map[NoteIdAttr := [Str(noteId)], NoteTitleAttr := [Str(title)],
                  NoteContentAttr := [Str(content)], NoteDateAttr := [Instant(date)]])
  }
}
