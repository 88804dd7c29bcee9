/** The legacy import of a bookmark export: every post becomes a note whose placeholder comes
    from the `nextId` closure. */
module LegacyImport {
  import opened Wrappers
  import opened Facts
  import Hex
  import Placeholders
  import opened NoteImport

  /** One post of the export; the url is decoded but never transacted. */
  datatype XmlPost = XmlPost(title: string, content: string, date: Time, url: Option<string>)

  function LegacyNote(p: XmlPost): NoteRecord
  {
    NoteRecord(p.title, p.content, p.date)
  }

  function LegacyNotes(posts: seq<XmlPost>): (notes: seq<NoteRecord>)
    ensures |notes| == |posts|
  {
    if posts == [] then [] else LegacyNotes(posts[..|posts| - 1]) + [LegacyNote(posts[|posts| - 1])]
  }

  /** The batch `main` builds before its single commit. A decoding error (a panic in the
      source) is returned and nothing is built; otherwise one note per post, in input order,
      each on the next `nextId()` placeholder. The random id bytes of the k-th note are
      `draw(k)`. */
  method ImportPosts(decoded: Result<seq<XmlPost>, string>, draw: nat -> Hex.IdBytes)
    returns (r: Result<seq<TxDatum>, string>)
    ensures decoded.Failure? ==> r == Failure(decoded.error)
    ensures decoded.Success? ==> r.Success? && NoteBatch(LegacyNotes(decoded.value), draw, r.value)
  {
    if decoded.Failure? {
      return Failure(decoded.error);
    }
    var posts := decoded.value;
    var nextId := new Placeholders.Counter();
    var txData: seq<TxDatum> := [];
    for i := 0 to |posts|
      invariant nextId.Valid() && nextId.calls == i
      invariant NoteBatch(LegacyNotes(posts[..i]), draw, txData)
    {
      var post := posts[i];
      var id := nextId.Next();
      var txDatum := NoteMap(id, Hex.GenerateId(draw(|txData|)), post.title, post.content, post.date);
      assert posts[..i + 1][..i] == posts[..i];
      NoteBatchSnoc(LegacyNotes(posts[..i]), draw, txData, LegacyNote(post), id);
      txData := txData + [txDatum];
    }
    assert posts[..|posts|] == posts;
    return Success(txData);
  }

  lemma {:induction false} LegacyNotesAt(posts: seq<XmlPost>, k: nat)
    requires k < |posts|
    ensures LegacyNotes(posts)[k] == NoteRecord(posts[k].title, posts[k].content, posts[k].date)
  {
    var init := posts[..|posts| - 1];
    if k < |init| {
      LegacyNotesAt(init, k);
    }
  }

  /** No note map of the batch has a `note/url` attribute, and two exports that differ only
      in their urls are imported as the same batch. */
  lemma {:induction false} UrlNotTransacted(a: seq<XmlPost>, b: seq<XmlPost>, draw: nat -> Hex.IdBytes, batch: seq<TxDatum>)
    requires |a| == |b|
    requires forall k :: 0 <= k < |a| ==>
               a[k].title == b[k].title && a[k].content == b[k].content && a[k].date == b[k].date
    requires NoteBatch(LegacyNotes(a), draw, batch)
    ensures forall k :: 0 <= k < |batch| ==> batch[k].TxMap? && NoteUrlAttr !in batch[k].attrs
    ensures NoteBatch(LegacyNotes(b), draw, batch)
  {
    forall k | 0 <= k < |batch| ensures batch[k].TxMap? && NoteUrlAttr !in batch[k].attrs {
      NoteBatchShape(LegacyNotes(a), draw, batch, k);
    }
    forall k | 0 <= k < |a| ensures LegacyNotes(a)[k] == LegacyNotes(b)[k] {
      LegacyNotesAt(a, k);
      LegacyNotesAt(b, k);
    }
    assert LegacyNotes(a) == LegacyNotes(b);
  }
}
