/** The directory import: every file of a directory becomes a note, titled by a "# " first
    line when it has one and by its file name otherwise. */
module DirectoryImport {
  import opened Wrappers
  import opened Facts
  import opened Text
  import Hex
  import opened NoteImport

  /** A directory entry as the listing gives it, with what reading the file gives
      (for a sub-directory, `data` is never looked at). */
  datatype Entry = Entry(name: string, isDir: bool, modTime: Time, data: Result<string, string>)

  /** The title and content of a note read from file `name`: a first line "# t" with a
      non-empty `t` is split off as the title; otherwise the title is the file name and the
      content the whole text. In the first case the text is "# ", the title, a newline and the
      content, and the title holds no newline. */
  function TitleAndContent(name: string, text: string): (r: (string, string))
    ensures r == (name, text) || (text == "# " + r.0 + "\n" + r.1 && r.0 != "" && '\n' !in r.0)
  {
    var newLine := IndexOfChar(text, '\n');
    if newLine != -1 then
      var firstLine := text[..newLine];
      if StartsWith(firstLine, "# ") && |firstLine| > 2 then
        assert text == "# " + firstLine[2..] + "\n" + text[newLine + 1..];
        (firstLine[2..], text[newLine + 1..])
      else (name, text)
    else (name, text)
  }

  /** A text that starts with a title line has that line split off, whatever follows. */
  lemma {:induction false} TitleLineSplit(name: string, title: string, rest: string)
    requires title != "" && '\n' !in title
    ensures TitleAndContent(name, "# " + title + "\n" + rest) == (title, rest)
  {
    var text := "# " + title + "\n" + rest;
    assert text[2 + |title|] == '\n';
    assert '\n' !in text[..2 + |title|] by {
      assert text[..2 + |title|] == "# " + title;
    }
    assert text[..2 + |title|][2..] == title;
    assert text[3 + |title|..] == rest;
  }

  /** Without a title line the note keeps the file name as title and the whole text:
      a single-line text, a first line not starting with "# ", or a first line of exactly "# ". */
  lemma {:induction false} UntitledKept(name: string, text: string)
    requires '\n' !in text || !StartsWith(text, "# ") || (|text| > 2 && text[2] == '\n')
    ensures TitleAndContent(name, text) == (name, text)
  {
    var i := IndexOfChar(text, '\n');
    if i > 2 {
      assert text[..i][..2] == text[..2] && text[..i][2] == text[2];
    }
  }

  /** The error of the first entry that is a file and could not be read, if any. */
  function FirstReadError(entries: seq<Entry>): Option<string>
  {
    if entries == [] then None
    else
      match FirstReadError(entries[..|entries| - 1])
      case Some(e) => Some(e)
      case None =>
        var last := entries[|entries| - 1];
        if !last.isDir && last.data.Failure? then Some(last.data.error) else None
  }

  /** The first read error is that of a file entry before which every file was read. */
  lemma {:induction false} FirstReadErrorAt(entries: seq<Entry>) returns (k: nat)
    requires FirstReadError(entries).Some?
    ensures k < |entries| && !entries[k].isDir && entries[k].data == Failure(FirstReadError(entries).value)
    ensures forall j :: 0 <= j < k ==> entries[j].isDir || entries[j].data.Success?
  {
    var init := entries[..|entries| - 1];
    if FirstReadError(init).Some? {
      k := FirstReadErrorAt(init);
    } else {
      NoReadError(init);
      k := |entries| - 1;
    }
  }

  /** There is no read error exactly when every file entry was read. */
  lemma {:induction false} NoReadError(entries: seq<Entry>)
    ensures FirstReadError(entries) == None <==>
            forall j :: 0 <= j < |entries| ==> entries[j].isDir || entries[j].data.Success?
  {
    if entries != [] {
      var init := entries[..|entries| - 1];
      NoReadError(init);
      if FirstReadError(init).Some? {
        var k := FirstReadErrorAt(init);
        assert entries[k] == init[k];
      }
    }
  }

  /** A read error in a prefix is the read error of the whole listing. */
  lemma {:induction false} FirstReadErrorPrefix(entries: seq<Entry>, i: nat)
    requires i <= |entries| && FirstReadError(entries[..i]).Some?
    ensures FirstReadError(entries) == FirstReadError(entries[..i])
    decreases |entries| - i
  {
    if i < |entries| {
      assert entries[..i + 1][..i] == entries[..i];
      FirstReadErrorPrefix(entries, i + 1);
    } else {
      assert entries[..i] == entries;
    }
  }

  /** The note of a file that was read. */
  function Note(e: Entry): NoteRecord
    requires e.data.Success?
  {
    var (title, content) := TitleAndContent(e.name, e.data.value);
    NoteRecord(title, content, e.modTime)
  }

  /** The notes of a listing in which every file was read: one per file, in listing order,
      sub-directories skipped. */
  function DirectoryNotes(entries: seq<Entry>): seq<NoteRecord>
    requires FirstReadError(entries) == None
  {
    if entries == [] then []
    else
      var last := entries[|entries| - 1];
      DirectoryNotes(entries[..|entries| - 1]) + (if last.isDir then [] else [Note(last)])
  }

  /** The notes are those of the file entries at a strictly increasing family of positions
      that takes in every file entry. */
  lemma {:induction false} DirectoryNotesOfFiles(entries: seq<Entry>) returns (idx: seq<nat>)
    requires FirstReadError(entries) == None
    ensures NotePositions(entries, DirectoryNotes(entries), idx)
  {
    if entries == [] {
      idx := [];
    } else {
      var last := |entries| - 1;
      var init := entries[..last];
      var prev := DirectoryNotesOfFiles(init);
      assert entries == init + [entries[last]];
      if entries[last].isDir {
        idx := prev;
        DirectorySnoc(init, entries[last], DirectoryNotes(init), prev);
      } else {
        idx := prev + [last];
        FileSnoc(init, entries[last], DirectoryNotes(init), prev);
      }
    }
  }

  /** `idx` holds the positions of the file entries whose notes are `notes`, in order, and of
      every file entry. */
  ghost predicate NotePositions(entries: seq<Entry>, notes: seq<NoteRecord>, idx: seq<nat>)
  {
    && |idx| == |notes|
    && (forall i :: 0 <= i < |idx| ==>
          idx[i] < |entries| && !entries[idx[i]].isDir && entries[idx[i]].data.Success?
          && notes[i] == Note(entries[idx[i]]))
    && (forall i, j :: 0 <= i < j < |idx| ==> idx[i] < idx[j])
    && (forall j :: 0 <= j < |entries| && !entries[j].isDir ==> j in idx)
  }

  /** A sub-directory after the entries adds no position. */
  lemma {:induction false} DirectorySnoc(init: seq<Entry>, e: Entry, notes: seq<NoteRecord>, prev: seq<nat>)
    requires e.isDir && NotePositions(init, notes, prev)
    ensures NotePositions(init + [e], notes, prev)
  {
    var xs := init + [e];
    forall i | 0 <= i < |prev|
      ensures xs[prev[i]] == init[prev[i]]
    {
    }
    forall j | 0 <= j < |xs| && !xs[j].isDir
      ensures j in prev
    {
      assert j < |init| && xs[j] == init[j];
    }
  }

  /** A file that was read after the entries adds its own position. */
  lemma {:induction false} FileSnoc(init: seq<Entry>, e: Entry, notes: seq<NoteRecord>, prev: seq<nat>)
    requires !e.isDir && e.data.Success? && NotePositions(init, notes, prev)
    ensures NotePositions(init + [e], notes + [Note(e)], prev + [|init|])
  {
    var xs, more, idx := init + [e], notes + [Note(e)], prev + [|init|];
    forall i | 0 <= i < |prev|
      ensures idx[i] == prev[i] && xs[prev[i]] == init[prev[i]] && more[i] == notes[i]
    {
    }
    forall j | 0 <= j < |xs| && !xs[j].isDir
      ensures j in idx
    {
      if j < |init| {
        assert xs[j] == init[j];
        var i :| 0 <= i < |prev| && prev[i] == j;
        assert idx[i] == j;
      } else {
        assert idx[|prev|] == j;
      }
    }
  }

  /** One more entry of the listing: a sub-directory changes nothing, a file that was read
      adds its note, a file that was not read is the first read error. */
  lemma {:induction false} ListingStep(entries: seq<Entry>, i: nat)
    requires i < |entries| && FirstReadError(entries[..i]) == None
    ensures var e, pre, next := entries[i], entries[..i], entries[..i + 1];
            && (e.isDir || e.data.Success? <==> FirstReadError(next) == None)
            && (!e.isDir && e.data.Failure? ==> FirstReadError(next) == Some(e.data.error))
            && (e.isDir ==> DirectoryNotes(next) == DirectoryNotes(pre))
            && (!e.isDir && e.data.Success? ==> DirectoryNotes(next) == DirectoryNotes(pre) + [Note(e)])
  {
    assert entries[..i + 1][..i] == entries[..i];
  }

  /** `ImportFromDirectory` up to the commit. A listing error, or the error of the first file
      that cannot be read, is returned and nothing is built; otherwise the batch holds one note
      per file, in listing order, on the placeholders -1, -2, ... (the counter moves only when
      a note was built). The random id bytes of the k-th note are `draw(k)`. */
  method ImportFromDirectory(listing: Result<seq<Entry>, string>, draw: nat -> Hex.IdBytes)
    returns (r: Result<seq<TxDatum>, string>)
    ensures listing.Failure? ==> r == Failure(listing.error)
    ensures listing.Success? && FirstReadError(listing.value).Some? ==>
              r == Failure(FirstReadError(listing.value).value)
    ensures listing.Success? && FirstReadError(listing.value) == None ==>
              r.Success? && NoteBatch(DirectoryNotes(listing.value), draw, r.value)
  {
    if listing.Failure? {
      return Failure(listing.error);
    }
    var fis := listing.value;
    var n := -1;
    var txData: seq<TxDatum> := [];
    for i := 0 to |fis|
      invariant FirstReadError(fis[..i]) == None
      invariant NoteBatch(DirectoryNotes(fis[..i]), draw, txData)
      invariant n == -1 - |txData|
    {
      var fi := fis[i];
      ListingStep(fis, i);
      if !fi.isDir {
        if fi.data.Failure? {
          FirstReadErrorPrefix(fis, i + 1);
          return Failure(fi.data.error);
        }
        var (title, content) := TitleAndContent(fi.name, fi.data.value);
        var txDatum := NoteMap(n, Hex.GenerateId(draw(|txData|)), title, content, fi.modTime);
        NoteBatchSnoc(DirectoryNotes(fis[..i]), draw, txData, Note(fi), n);
        n := n - 1;
        txData := txData + [txDatum];
      }
    }
    assert fis[..|fis|] == fis;
    return Success(txData);
  }
}
