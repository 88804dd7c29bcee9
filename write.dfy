/** The writing page: the editor's text is shown with a title taken from a "# " first line,
    the remaining lines as content, word, character and reading-time counts, and is saved to
    the browser's local storage when it has changed. The text is CodeMirror's `getValue()`,
    its lines the pieces between newlines. */
module WritePage {
  import opened Wrappers
  import opened Text
  import opened Seqs
  import Strconv

  /** The characters of JavaScript's `\s` class. */
  const Whitespace: set<char> :=
    {' ', '\t', '\n', 11 as char, 12 as char, '\r', '\U{00A0}', '\U{1680}',
     '\U{2000}', '\U{2001}', '\U{2002}', '\U{2003}', '\U{2004}', '\U{2005}', '\U{2006}',
     '\U{2007}', '\U{2008}', '\U{2009}', '\U{200A}', '\U{2028}', '\U{2029}', '\U{202F}',
     '\U{205F}', '\U{3000}', '\U{FEFF}'}

  /** The characters of JavaScript's `\w` class. */
  predicate IsWordChar(c: char)
  {
    'a' <= c <= 'z' || 'A' <= c <= 'Z' || '0' <= c <= '9' || c == '_'
  }

  /** `word.match(/\w/)` succeeds. */
  predicate HasWordChar(w: string)
  {
    exists i :: 0 <= i < |w| && IsWordChar(w[i])
  }

  /** `ch.match(/[^\s]/)` succeeds. */
  predicate NotWhitespace(c: char)
  {
    c !in Whitespace
  }

  function Lines(text: string): seq<string>
  {
    Split(text, '\n')
  }

  /** `codeMirror.getLine(0)`. */
  function FirstLine(text: string): string
  {
    Lines(text)[0]
  }

  /** The first line is the longest newline-free prefix of the text. */
  lemma {:induction false} FirstLineOf(text: string)
    ensures StartsWith(text, FirstLine(text)) && '\n' !in FirstLine(text)
    ensures |FirstLine(text)| == |text| || text[|FirstLine(text)|] == '\n'
  {
    if text != [] {
      FirstLineOf(text[1..]);
      SplitCons(text[0], text[1..], {'\n'});
      assert text == [text[0]] + text[1..];
    }
  }

  /** A newline-free line followed by a newline, or alone, is the first line. */
  lemma {:induction false} FirstLineIs(line: string, rest: string)
    requires '\n' !in line
    ensures FirstLine(line + "\n" + rest) == line && FirstLine(line) == line
  {
    SplitNoSeparator(line, {'\n'});
    SplitAround(line, '\n', rest, {'\n'});
  }

  /** The first line starts with "# " exactly when the text does. */
  lemma {:induction false} TitledIff(text: string)
    ensures StartsWith(FirstLine(text), "# ") <==> StartsWith(text, "# ")
  {
    FirstLineOf(text);
    var first := FirstLine(text);
    if StartsWith(text, "# ") {
      assert text[0] == '#' && text[1] == ' ';
    }
    if |first| >= 2 {
      assert first[..2] == text[..2];
    }
  }

  /** The title `updateTitle` shows: the first line without its leading "# " when it has one
      (possibly empty), and the empty string otherwise. */
  function Title(text: string): (title: string)
    ensures StartsWith(text, "# ") ==> FirstLine(text) == "# " + title
    ensures !StartsWith(text, "# ") ==> title == ""
  {
    TitledIff(text);
    var first := FirstLine(text);
    if StartsWith(first, "# ") then
      assert first == "# " + first[2..];
      first[2..]
    else ""
  }

  /** The title depends on the first line only. */
  lemma {:induction false} SameTitle(a: string, b: string)
    requires FirstLine(a) == FirstLine(b)
    ensures Title(a) == Title(b) && DocumentTitle(a) == DocumentTitle(b)
  {
  }

  /** A text whose first line is "# t" has title `t`. */
  lemma {:induction false} TitleOfHeading(t: string, rest: string)
    requires '\n' !in t
    ensures Title("# " + t + "\n" + rest) == t && Title("# " + t) == t
  {
    assert '\n' !in "# " + t;
    FirstLineIs("# " + t, rest);
    assert ("# " + t)[..2] == "# ";
    assert ("# " + t + "\n" + rest)[..2] == "# ";
  }

  /** `document.title`. */
  function DocumentTitle(text: string): (s: string)
    ensures s == Title(text) + " - notes"
  {
    Title(text) + " - notes"
  }

  /** The line the content starts on: 1 when the text starts with a "# " heading, 0 otherwise. */
  function StartLine(text: string): (line: nat)
    ensures line == 1 <==> StartsWith(text, "# ")
    ensures line <= 1
  {
    TitledIff(text);
    if StartsWith(FirstLine(text), "# ") then 1 else 0
  }

  /** What `updateDocument` shows: the lines from the start line to the last one, rejoined. */
  function Content(text: string): string
  {
    var lines := Lines(text);
    Join(lines[StartLine(text)..], "\n")
  }

  /** What `updateDocument` shows as written: `getRange({line: start}, ...)` gives no `ch`, and
      CodeMirror moves such a position to the end of its line, so the text runs from the end of
      the start line (or is empty when the text has no line there). */
  function ContentAsWritten(text: string): string
  {
    var lines, start := Lines(text), StartLine(text);
    if start < |lines| then Join(lines[start..], "\n")[|lines[start]|..] else ""
  }

  /** Of an untitled text the handler shows everything after the first line, so a first line
      "abc" of "abc\ndef" is lost, although the content is the whole text. */
  lemma {:induction false} ContentAsWrittenLosesLine()
    ensures ContentAsWritten("abc\ndef") == "\ndef"
    ensures Content("abc\ndef") == "abc\ndef"
  {
    var text := "abc\ndef";
    assert text == "abc" + "\n" + "def";
    assert text[1] == 'b';
    FirstLineIs("abc", "def");
    ContentReassembles(text);
    ContentAsWrittenUntitled(text);
  }

  /** Of an untitled text the handler shows exactly the text after its first line. */
  lemma {:induction false} ContentAsWrittenUntitled(text: string)
    requires !StartsWith(text, "# ")
    ensures |FirstLine(text)| <= |text| && ContentAsWritten(text) == text[|FirstLine(text)|..]
  {
    FirstLineOf(text);
    ContentReassembles(text);
    assert Lines(text)[0..] == Lines(text);
  }

  /** The page splits the text into heading and content without losing anything: an untitled
      text is all content; a titled one is "# ", the title, and, if there is a second line, a
      newline and the content. */
  lemma {:induction false} ContentReassembles(text: string)
    ensures !StartsWith(text, "# ") ==> Content(text) == text
    ensures StartsWith(text, "# ") && '\n' in text ==> text == "# " + Title(text) + "\n" + Content(text)
    ensures StartsWith(text, "# ") && '\n' !in text ==> text == "# " + Title(text) && Content(text) == ""
  {
    var lines := Lines(text);
    JoinSplit(text, '\n');
    SplitCount(text, {'\n'});
    OccurrencesNone(text, {'\n'});
    if StartsWith(text, "# ") {
      if '\n' in text {
        assert |lines| >= 2;
        assert Join(lines, "\n") == lines[0] + "\n" + Join(lines[1..], "\n");
      } else {
        assert |lines| == 1;
      }
    } else {
      assert lines[0..] == lines;
    }
  }

  /** The counts `getStats` reports. */
  datatype Stats = Stats(numWords: nat, numCharacters: nat, numMinutes: nat)

  const WordsPerMinute: nat := 250

  /** The number of whitespace-separated pieces that contain a word character. */
  function NumWords(text: string): nat
  {
    |Filter(SplitWhere(text, Whitespace), HasWordChar)|
  }

  /** The number of characters that are not whitespace. */
  function NumCharacters(text: string): nat
  {
    |Filter(text, NotWhitespace)|
  }

  /** `Math.ceil(words / 250)`: the least number of minutes in which the words can be read at
      250 words a minute, so no words take no minutes. */
  function NumMinutes(words: nat): (m: nat)
    ensures m * WordsPerMinute >= words
    ensures m > 0 ==> (m - 1) * WordsPerMinute < words
    ensures m == 0 <==> words == 0
  {
    (words + WordsPerMinute - 1) / WordsPerMinute
  }

  function GetStats(text: string): Stats
  {
    var words := NumWords(text);
    Stats(words, NumCharacters(text), NumMinutes(words))
  }

  /** Words on either side of a whitespace character are counted separately. */
  lemma {:induction false} NumWordsAround(a: string, c: char, b: string)
    requires c in Whitespace
    ensures NumWords(a + [c] + b) == NumWords(a) + NumWords(b)
  {
    SplitAround(a, c, b, Whitespace);
    FilterAppend(SplitWhere(a, Whitespace), SplitWhere(b, Whitespace), HasWordChar);
  }

  /** A piece without whitespace is one word when it has a word character and none otherwise. */
  lemma {:induction false} NumWordsOfPiece(w: string)
    requires forall i :: 0 <= i < |w| ==> w[i] !in Whitespace
    ensures NumWords(w) == if HasWordChar(w) then 1 else 0
  {
    SplitNoSeparator(w, Whitespace);
    assert [w][..0] == [] && [w][0] == w;
    assert Filter([w], HasWordChar) == Filter([], HasWordChar) + (if HasWordChar(w) then [w] else []);
  }

  /** Blank text has no words. */
  lemma {:induction false} NumWordsBlank(s: string)
    requires forall i :: 0 <= i < |s| ==> s[i] in Whitespace
    ensures NumWords(s) == 0
  {
    SplitOnlySeparators(s, Whitespace);
    FilterAllOrNone(SplitWhere(s, Whitespace), HasWordChar);
  }

  /** Every character is either counted or whitespace. */
  lemma {:induction false} NumCharactersCount(text: string)
    ensures NumCharacters(text) + Occurrences(text, Whitespace) == |text|
  {
    if text != [] {
      NumCharactersCount(text[1..]);
      assert text == [text[0]] + text[1..];
      FilterAppend([text[0]], text[1..], NotWhitespace);
      assert [text[0]][..0] == [];
    }
  }

  /** `${count} ${count == 1 ? singular : plural}`. */
  function Label(count: nat, singular: string, plural: string): string
  {
    Strconv.NatToString(count) + " " + (if count == 1 then singular else plural)
  }

  /** A label reads back as the count in decimal, a space, and the unit, which is the singular
      exactly when the count is 1. */
  lemma {:induction false} LabelReadsBack(count: nat, singular: string, plural: string)
    requires singular != plural
    ensures var s, d := Label(count, singular, plural), Strconv.NatToString(count);
            |d| < |s| && s[..|d|] == d && Strconv.DigitsValue(d) == count && s[|d|] == ' '
            && (s[|d| + 1..] == singular <==> count == 1)
            && (s[|d| + 1..] == plural <==> count != 1)
  {
    Strconv.NatToStringValue(count);
    var s, d := Label(count, singular, plural), Strconv.NatToString(count);
    assert s[..|d|] == d;
    assert s[|d| + 1..] == if count == 1 then singular else plural;
  }

  /** The three texts of `displayStats`. */
  datatype StatsText = StatsText(words: string, characters: string, minutes: string)

  function StatsLabels(st: Stats): StatsText
  {
    StatsText(Label(st.numWords, "word", "words"),
              Label(st.numCharacters, "character", "characters"),
              Label(st.numMinutes, "minute", "minutes"))
  }

  /** The page's state: the editor text, the title and content fields, the document title, the
      statistics, the storage key once computed, the unsaved-changes flag and local storage. */
  class Editor {
    var text: string
    var titleField: string
    var documentTitle: string
    var contentField: string
    var statsText: StatsText
    var savedName: Option<string>
    var needsSave: bool
    var storage: map<string, string>

    /** What is shown always belongs to the current text, and a storage key once computed
        starts with "notes|". */
    ghost predicate Valid()
      reads this
    {
      && titleField == Title(text) && documentTitle == DocumentTitle(text)
      && contentField == Content(text) && statsText == StatsLabels(GetStats(text))
      && (savedName.Some? ==> StartsWith(savedName.value, "notes|"))
    }

    /** Page load: an empty editor is filled from local storage (or left empty when nothing is
        stored), then statistics, title and content are shown. `location` is the page address
        with its `key` parameter, as the storage key is derived from it. */
    constructor (initialText: string, location: string, stored: map<string, string>)
      ensures Valid() && !needsSave && storage == stored
      ensures initialText != "" ==> text == initialText && savedName == None
      ensures initialText == "" ==> savedName == Some("notes|" + location)
      ensures initialText == "" ==> text == if savedName.value in stored then stored[savedName.value] else ""
    {
      text := initialText;
      titleField, documentTitle, contentField := "", "", "";
      statsText := StatsText("", "", "");
      savedName := None;
      needsSave := false;
      storage := stored;
      new;
      if text == "" {
        var name := GetSavedName(location);
        text := if name in storage then storage[name] else "";
      }
      DisplayStats();
      UpdateTitle();
      UpdateDocument();
    }

    /** `getSavedName`: the first call derives "notes|" + location and caches it; every later
        call returns the cached name, whatever the location, and changes nothing. */
    method GetSavedName(location: string) returns (name: string)
      modifies this
      ensures old(savedName).Some? ==> name == old(savedName).value && savedName == old(savedName)
      ensures old(savedName).None? ==> name == "notes|" + location && savedName == Some(name)
      ensures StartsWith(name, "notes|") || old(savedName).Some?
      ensures text == old(text) && titleField == old(titleField) && documentTitle == old(documentTitle)
      ensures contentField == old(contentField) && statsText == old(statsText)
      ensures needsSave == old(needsSave) && storage == old(storage)
    {
      if savedName.Some? {
        return savedName.value;
      }
      name := "notes|" + location;
      assert name[..6] == "notes|";
      savedName := Some(name);
    }

    /** `saveDocument`: the text is stored under the storage key. */
    method SaveDocument(location: string)
      requires Valid()
      modifies this
      ensures Valid()
      ensures savedName.Some? && (old(savedName).Some? ==> savedName == old(savedName))
      ensures old(savedName).None? ==> savedName == Some("notes|" + location)
      ensures storage == old(storage)[savedName.value := text]
      ensures text == old(text) && needsSave == old(needsSave)
    {
      var name := GetSavedName(location);
      storage := storage[name := text];
    }

    /** One run of `scheduleSave`: the text is saved only when it changed since the last save,
        and afterwards nothing is pending. */
    method ScheduleSave(location: string)
      requires Valid()
      modifies this
      ensures Valid() && !needsSave && text == old(text)
      ensures old(needsSave) ==> savedName.Some? && storage == old(storage)[savedName.value := text]
      ensures old(needsSave) && old(savedName).Some? ==> savedName == old(savedName)
      ensures !old(needsSave) ==> storage == old(storage) && savedName == old(savedName)
    {
      if needsSave {
        SaveDocument(location);
        needsSave := false;
      }
    }

    /** `updateTitle`. */
    method UpdateTitle()
      modifies this
      ensures titleField == Title(text) && documentTitle == DocumentTitle(text)
      ensures text == old(text) && contentField == old(contentField) && statsText == old(statsText)
      ensures savedName == old(savedName) && needsSave == old(needsSave) && storage == old(storage)
    {
      var title := Title(text);
      documentTitle := title + " - notes";
      titleField := title;
    }

    /** `updateDocument`. */
    method UpdateDocument()
      modifies this
      ensures contentField == Content(text)
      ensures text == old(text) && titleField == old(titleField) && documentTitle == old(documentTitle)
      ensures statsText == old(statsText)
      ensures savedName == old(savedName) && needsSave == old(needsSave) && storage == old(storage)
    {
      var start := if StartsWith(FirstLine(text), "# ") then 1 else 0;
      contentField := Join(Lines(text)[start..], "\n");
    }

    /** `displayStats`. */
    method DisplayStats()
      modifies this
      ensures statsText == StatsLabels(GetStats(text))
      ensures text == old(text) && titleField == old(titleField) && documentTitle == old(documentTitle)
      ensures contentField == old(contentField)
      ensures savedName == old(savedName) && needsSave == old(needsSave) && storage == old(storage)
    {
      var stats := GetStats(text);
      statsText := StatsLabels(stats);
    }

    /** The editor's change handler, for a change that starts on line `fromLine` and leaves
        `newText`; a change starting below the first line leaves the first line as it was, so
        the title is recomputed only for changes on line 0. Afterwards a save is pending. */
    method OnChange(newText: string, fromLine: nat)
      requires Valid()
      requires fromLine > 0 ==> FirstLine(newText) == FirstLine(text)
      modifies this
      ensures Valid() && needsSave && text == newText
      ensures savedName == old(savedName) && storage == old(storage)
    {
      if fromLine > 0 {
        SameTitle(text, newText);
      }
      text := newText;
      DisplayStats();
      if fromLine == 0 {
        UpdateTitle();
      }
      UpdateDocument();
      needsSave := true;
    }
  }
}
