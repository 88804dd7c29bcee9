/** The JSON import: a decoded array of posts becomes one note per post. */
module JsonImport {
  import opened Wrappers
  import opened Facts
  import Hex
  import opened NoteImport

  /** One element of the imported array; `created` is the post's date. */
  datatype JsonPost = JsonPost(id: string, title: string, content: string, created: Time)

  /** The note a post is imported as: its title, content and creation date. */
  function JsonNote(p: JsonPost): NoteRecord
  {
    NoteRecord(p.title, p.content, p.created)
  }

  function JsonNotes(posts: seq<JsonPost>): (notes: seq<NoteRecord>)
    ensures |notes| == |posts|
  {
    if posts == [] then [] else JsonNotes(posts[..|posts| - 1]) + [JsonNote(posts[|posts| - 1])]
  }

  /** `ImportFromJSON` up to the commit: a decoding error is returned before anything is built;
      otherwise the batch holds one note per post, in input order, on the placeholders
      -1, -2, .... The random id bytes of the k-th note are `draw(k)`. */
  method ImportFromJson(decoded: Result<seq<JsonPost>, string>, draw: nat -> Hex.IdBytes)
    returns (r: Result<seq<TxDatum>, string>)
    ensures decoded.Failure? ==> r == Failure(decoded.error)
    ensures decoded.Success? ==> r.Success? && NoteBatch(JsonNotes(decoded.value), draw, r.value)
  {
    if decoded.Failure? {
      return Failure(decoded.error);
    }
    var posts := decoded.value;
    var n := -1;
    var txData: seq<TxDatum> := [];
    for i := 0 to |posts|
      invariant NoteBatch(JsonNotes(posts[..i]), draw, txData)
      invariant n == -1 - |txData|
    {
      var post := posts[i];
      var txDatum := NoteMap(n, Hex.GenerateId(draw(|txData|)), post.title, post.content, post.created);
      assert posts[..i + 1][..i] == posts[..i];
      NoteBatchSnoc(JsonNotes(posts[..i]), draw, txData, JsonNote(post), n);
      n := n - 1;
      txData := txData + [txDatum];
    }
    assert posts[..|posts|] == posts;
    return Success(txData);
  }

  /** The k-th note is the k-th post's title, content and creation date. */
  lemma {:induction false} JsonNotesAt(posts: seq<JsonPost>, k: nat)
    requires k < |posts|
    ensures JsonNotes(posts)[k] == NoteRecord(posts[k].title, posts[k].content, posts[k].created)
  {
    var init := posts[..|posts| - 1];
    if k < |init| {
      JsonNotesAt(init, k);
    }
  }

  /** The k-th note map carries the k-th post's title, content and creation date, and a
      freshly generated note id: the post's own `id` does not enter the note. */
  lemma {:induction false} JsonBatchFields(posts: seq<JsonPost>, draw: nat -> Hex.IdBytes, batch: seq<TxDatum>, k: nat)
    requires NoteBatch(JsonNotes(posts), draw, batch) && k < |posts|
    ensures batch[k].TxMap? && batch[k].id == -1 - k
    ensures batch[k].attrs.Keys == {NoteIdAttr, NoteTitleAttr, NoteContentAttr, NoteDateAttr}
    ensures batch[k].attrs[NoteIdAttr] == [Str(Hex.GenerateId(draw(k)))]
    ensures batch[k].attrs[NoteTitleAttr] == [Str(posts[k].title)]
    ensures batch[k].attrs[NoteContentAttr] == [Str(posts[k].content)]
    ensures batch[k].attrs[NoteDateAttr] == [Instant(posts[k].created)]
  {
    JsonNotesAt(posts, k);
    var note := JsonNotes(posts)[k];
    assert batch[k] == NoteMap(-1 - k, Hex.GenerateId(draw(k)), note.title, note.content, note.date);
  }

  /** Posts that differ only in their `id` fields are imported as the same batch. */
  lemma {:induction false} JsonIdIgnored(a: seq<JsonPost>, b: seq<JsonPost>, draw: nat -> Hex.IdBytes, batch: seq<TxDatum>)
    requires |a| == |b|
    requires forall k :: 0 <= k < |a| ==>
               a[k].title == b[k].title && a[k].content == b[k].content && a[k].created == b[k].created
    requires NoteBatch(JsonNotes(a), draw, batch)
    ensures NoteBatch(JsonNotes(b), draw, batch)
  {
    forall k | 0 <= k < |a| ensures JsonNotes(a)[k] == JsonNotes(b)[k] {
      JsonNotesAt(a, k);
      JsonNotesAt(b, k);
    }
    assert JsonNotes(a) == JsonNotes(b);
  }
}
