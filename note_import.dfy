/** What the directory, JSON and legacy XML imports have in common: one note entity per
    imported record, on the placeholders -1, -2, ... in record order, each carrying exactly
    the four mandatory note attributes and a freshly generated note id. */
module NoteImport {
  import opened Wrappers
  import opened Facts
  import Hex

  /** The title, content and date one imported note is asserted with. */
  datatype NoteRecord = NoteRecord(title: string, content: string, date: Time)

  /** `batch` is the transaction for `notes`: its k-th item is the note map of the k-th record
      on placeholder -1 - k, with the id generated from the k-th draw of random bytes. */
  ghost predicate NoteBatch(notes: seq<NoteRecord>, draw: nat -> Hex.IdBytes, batch: seq<TxDatum>)
  {
    && |batch| == |notes|
    && forall k :: 0 <= k < |notes| ==>
         batch[k] == NoteMap(-1 - k, Hex.GenerateId(draw(k)), notes[k].title, notes[k].content, notes[k].date)
  }

  /** Building the batch one record at a time: the next note map goes on the next placeholder. */
  lemma {:induction false} NoteBatchSnoc(notes: seq<NoteRecord>, draw: nat -> Hex.IdBytes, batch: seq<TxDatum>,
                                         x: NoteRecord, id: int)
    requires NoteBatch(notes, draw, batch) && id == -1 - |batch|
    ensures NoteBatch(notes + [x], draw, batch + [NoteMap(id, Hex.GenerateId(draw(|notes|)), x.title, x.content, x.date)])
  {
    var notes', batch' := notes + [x], batch + [NoteMap(id, Hex.GenerateId(draw(|notes|)), x.title, x.content, x.date)];
    forall k | 0 <= k < |notes'|
      ensures batch'[k] == NoteMap(-1 - k, Hex.GenerateId(draw(k)), notes'[k].title, notes'[k].content, notes'[k].date)
    {
      if k < |notes| {
        assert batch'[k] == batch[k] && notes'[k] == notes[k];
      }
    }
  }

  /** The batch is determined by the records and the random draws. */
  lemma {:induction false} NoteBatchUnique(notes: seq<NoteRecord>, draw: nat -> Hex.IdBytes, a: seq<TxDatum>, b: seq<TxDatum>)
    requires NoteBatch(notes, draw, a) && NoteBatch(notes, draw, b)
    ensures a == b
  {
    forall k | 0 <= k < |a| ensures a[k] == b[k] {
      assert a[k] == NoteMap(-1 - k, Hex.GenerateId(draw(k)), notes[k].title, notes[k].content, notes[k].date);
    }
  }

  /** Every item is a note map on a distinct negative placeholder, with exactly the attributes
      `note/id`, `note/title`, `note/content` and `note/date` (so neither a url nor tags), the
      record's title, content and date, and a ten-character hexadecimal note id. */
  lemma {:induction false} NoteBatchShape(notes: seq<NoteRecord>, draw: nat -> Hex.IdBytes, batch: seq<TxDatum>, k: nat)
    requires NoteBatch(notes, draw, batch) && k < |batch|
    ensures batch[k].TxMap? && batch[k].id == -1 - k < 0
    ensures batch[k].attrs.Keys == {NoteIdAttr, NoteTitleAttr, NoteContentAttr, NoteDateAttr}
    ensures NoteUrlAttr !in batch[k].attrs && NoteTagsAttr !in batch[k].attrs
    ensures batch[k].attrs[NoteTitleAttr] == [Str(notes[k].title)]
    ensures batch[k].attrs[NoteContentAttr] == [Str(notes[k].content)]
    ensures batch[k].attrs[NoteDateAttr] == [Instant(notes[k].date)]
    ensures exists id :: batch[k].attrs[NoteIdAttr] == [Str(id)] && |id| == 10 && Hex.Decode(id) == Some(draw(k))
  {
    var id := Hex.GenerateId(draw(k));
    assert batch[k] == NoteMap(-1 - k, id, notes[k].title, notes[k].content, notes[k].date);
    assert batch[k].attrs[NoteIdAttr] == [Str(id)];
  }

  /** No two items of a batch share a placeholder. */
  lemma {:induction false} NoteBatchIdsDistinct(notes: seq<NoteRecord>, draw: nat -> Hex.IdBytes, batch: seq<TxDatum>)
    requires NoteBatch(notes, draw, batch)
    ensures forall k, l :: 0 <= k < l < |batch| ==> batch[k].TxMap? && batch[l].TxMap? && batch[k].id != batch[l].id
  {
    forall k, l | 0 <= k < l < |batch| ensures batch[k].TxMap? && batch[l].TxMap? && batch[k].id != batch[l].id {
      NoteBatchShape(notes, draw, batch, k);
      NoteBatchShape(notes, draw, batch, l);
    }
  }
}
