# notes — a Dafny model of the fact-building and text logic

heyLu/notes is a small notes and bookmark store. It is built on a Datomic-like fact store
(`github.com/heyLu/mu`). This project models the layer around that store and proves
properties of the model.

- **Transaction builders.** Each one turns input into the ordered batch of facts handed to the store:
  - the web form of `NewPost`;
  - the Pinboard import, whose tag names are memoised;
  - the directory, JSON and legacy XML imports, which share one batch shape (module `NoteImport`).
- **Read side.** Store scans are shaped into post and tag lists (`listPosts`, `listTags`). Small helpers cover `joinTags`, `fromQueryInt` and the `/notes/<id>` path check.
- **Domain view.** `Post` and `Tag` are views over store entities. `MarshalJSON` is a hand-written JSON emitter. An inverse reader proves the emitter's output unambiguous.
- **Browser code.** Two scripts are modelled:
  - the writing page (`static/write.js`): title, content, statistics, the saved-name cache and the save flag;
  - the tag completer (`tags-test.js`): token bounds, key filter, prefix completions, selection and splice.

How state is modelled:
- Code that changes state step by step is imperative Dafny:
  - the placeholder counters: `Placeholders.Counter`, `Pinboard.TagIdMemo`;
  - the batch loops;
  - the editor page: `WritePage.Editor`;
  - the completion closure: `TagCompletion.Completer`.
- Code that only computes is functions with lemmas.

Outside inputs are parameters:
- A store scan is a `seq<Datom>`.
- `Entid` gives an `Option<int>` instead of the `-1` sentinel.
- Decoders and file reads give `Result` values.
- The random bytes of the k-th `generateId` call are `draw(k)`.
- The clock is a parameter `now`.
- The page address is a parameter `location`.

Go `%q` and `strconv` are modelled in modules `Quoting` and `Strconv`. Go `strings` helpers are in module `Text`.

## Model

| member | source | states |
|---|---|---|
| Hex.GenerateId | pinboard.go:109-115 | an id is 10 lowercase hex characters that decode back to the 5 random bytes; the legacy import's copy at notes.go:97-104 is the same function |
| Hex.Encode | pinboard.go:115 | `hex.EncodeToString` gives two lowercase hex characters per byte |
| Hex.Decode | pinboard.go:115 | the inverse of the id encoding: it succeeds exactly on even-length strings of lowercase hex digits, and the bytes it gives encode back to its input |
| Hex.DecodeEncode | pinboard.go:115 | decoding inverts the hex encoding, so distinct random draws give distinct ids |
| Facts.NoteMap | import_json.go:38-46 | a note map is a TxMap on its placeholder with exactly the four note attributes and their single values |
| Placeholders.Counter.Next | pinboard.go:49-53 | each call decrements the captured counter and returns it, so the k-th call gives -k; the legacy import's `nextId` at notes.go:69-73 is the same closure |
| Placeholders.Counter.constructor | notes.go:69 | the counter starts with no calls made |
| NoteImport.NoteBatchSnoc | import_json.go:48-49 | appending the next note map on placeholder -1-k extends a batch of k notes by one note |
| NoteImport.NoteBatchUnique | import_json.go:37-50 | the batch is determined by the notes and the random draws |
| NoteImport.NoteBatchShape | import_directory.go:50-57 | the k-th item is a TxMap on -1-k, the keys are exactly id, title, content and date, no url or tags, and the id is 10 characters decoding to the k-th draw |
| NoteImport.NoteBatchIdsDistinct | import_directory.go:27-60 | no two notes of a batch share a placeholder |
| DirectoryImport.TitleAndContent | import_directory.go:39-48 | the result is either the file name and the whole text, or a non-empty newline-free title t and rest r with text == "# " + t + "\n" + r |
| DirectoryImport.TitleLineSplit | import_directory.go:42-47 | a text whose first line is "# t", with t non-empty, has t as title and everything after the first newline as content |
| DirectoryImport.UntitledKept | import_directory.go:39-44 | a text without a newline, without a "# " start, or with first line exactly "# " keeps the file name as title and the whole text |
| DirectoryImport.FirstReadErrorAt | import_directory.go:34-37 | the reported error is that of a file entry before which every file was read |
| DirectoryImport.NoReadError | import_directory.go:29-37 | there is no read error exactly when every non-directory entry was read |
| DirectoryImport.FirstReadErrorPrefix | import_directory.go:34-37 | an error met in a prefix of the listing is the error of the whole listing |
| DirectoryImport.ListingStep | import_directory.go:29-37 | one more entry: a sub-directory adds nothing, a file that was read adds its note, a file that was not read is the first read error, and only the last case is an error |
| DirectoryImport.DirectorySnoc | import_directory.go:29-32 | a sub-directory after the entries leaves the note positions as they were |
| DirectoryImport.FileSnoc | import_directory.go:29-61 | a file that was read adds its own position after all earlier ones, with its note |
| DirectoryImport.DirectoryNotesOfFiles | import_directory.go:29-32 | the notes come from the file entries in listing order: strictly increasing positions covering every non-directory entry and no directory |
| DirectoryImport.ImportFromDirectory | import_directory.go:15-64 | a listing error or the first read error is returned with no batch; otherwise the batch has one note map per file on -1, -2, …, titled as `TitleAndContent` says, dated with the modification time |
| JsonImport.JsonNotes | import_json.go:37 | one note per decoded post |
| JsonImport.ImportFromJson | import_json.go:30-50 | a decode error is returned with no batch; otherwise one note map per post, in order, on -1, -2, … |
| JsonImport.JsonNotesAt | import_json.go:42-44 | the k-th note has the k-th post's title, content and `created` date |
| JsonImport.JsonBatchFields | import_json.go:38-46 | the k-th map is on -1-k with exactly the four attributes: a fresh generated id, the post's title, content and creation date |
| JsonImport.JsonIdIgnored | import_json.go:38-46 | posts that differ only in their own `id` field give the same batch |
| LegacyImport.LegacyNotes | notes.go:76 | one note per decoded post |
| LegacyImport.ImportPosts | notes.go:37-89 | a decode error stops the import; otherwise one note map per post, in order, on the `nextId` placeholders -1, -2, …, built before the single commit |
| LegacyImport.LegacyNotesAt | notes.go:80-83 | the k-th note has the k-th post's title, content and date |
| LegacyImport.UrlNotTransacted | notes.go:77-85 | no map carries `note/url`, and exports that differ only in the url give the same batch |
| Pinboard.SeenNames | pinboard.go:57-64 | the memo's names are distinct and are exactly the tokens met |
| Pinboard.Position | pinboard.go:62-63 | the first position of a name in the order of first appearance |
| Pinboard.TagRefs | pinboard.go:80-84 | a bookmark's tag values are one reference per token, in token order, to that name's placeholder |
| Pinboard.TagIdMemo.constructor | pinboard.go:55-56 | the memo starts with an empty map and the counter at -1,000,000 |
| Pinboard.TagIdMemo.NextTagId | pinboard.go:57-65 | a name already seen returns its stored id and nothing changes; a new name gets the counter minus one, which is stored; earlier entries are kept |
| Pinboard.SeenSnoc | pinboard.go:58-63 | one more token adds its name at the end unless it was already met |
| Pinboard.SeenStep | pinboard.go:57-64 | a token already in the memo leaves the name order alone, a new one is appended, and either way the order is that of the tokens met |
| Pinboard.PrefixTransitive | pinboard.go:57-64 | being a prefix of the name order is transitive |
| Pinboard.SeenPrefix | pinboard.go:57-64 | the names met so far are a prefix of the names met overall |
| Pinboard.PositionDistinct | pinboard.go:62-63 | in a list without repetitions a name's first position is its position |
| Pinboard.MemoAgrees | pinboard.go:58-63 | while the memo's names start the import's names, its ids are the placeholders -1,000,001 - k |
| Pinboard.TokensInAll | pinboard.go:79 | a bookmark's tokens are among the tokens of the whole import |
| Pinboard.AllTokensAppend | pinboard.go:68-79 | the tokens of two runs of bookmarks are those of each |
| Pinboard.TakeSnoc | pinboard.go:81 | a token prefix grows by one token |
| Pinboard.LookedUpStep | pinboard.go:81-83 | a memo that only adds names keeps the ids already looked up |
| Pinboard.LookedUpPlaceholders | pinboard.go:80-85 | the looked-up values of a bookmark are its `TagRefs` |
| Pinboard.TagValues | pinboard.go:80-84 | the slice has one memo id per token, and the memo's names grow by the new ones in order |
| Pinboard.MapsBuiltStep | pinboard.go:69-87 | the next bookmark map goes on the next `nextId` placeholder |
| Pinboard.TokensSoFar | pinboard.go:68-79 | the tokens up to a bookmark are those before it plus its own |
| Pinboard.NamesOfFront | pinboard.go:68-88 | the names of a first run of bookmarks start the names of the whole import |
| Pinboard.NamesSoFar | pinboard.go:68-88 | the names met up to a bookmark start the names of the whole import |
| Pinboard.NoteMaps | pinboard.go:67-88 | the first loop builds one map per bookmark on -1, -2, … with the four note attributes and its tag references; the memo ends with every distinct name |
| Pinboard.MemoKeys | pinboard.go:55-64 | the memo's keys are exactly the names it has met |
| Pinboard.NamesEmittedStep | pinboard.go:90-97 | one more naming fact names one more memo entry on its id |
| Pinboard.AppendTagNames | pinboard.go:90-98 | the second loop keeps the maps and appends one `tag/name` fact per memo key, each on its id, in some order of the keys |
| Pinboard.NamesInTail | pinboard.go:90-98 | the naming facts name every memo entry once, each on its placeholder |
| Pinboard.ImportFromPinboard | pinboard.go:42-98 | a decode error is returned with no batch; otherwise the batch is the bookmark maps in order, then the naming facts |
| Pinboard.FactIdsDistinct | pinboard.go:62-64 | distinct names get distinct placeholders, all at or below -1,000,001 |
| Pinboard.FactsCoverNames | pinboard.go:90-98 | every distinct name is named by some fact |
| Pinboard.NamingFactsAt | pinboard.go:87-97 | the naming facts sit after the bookmark maps |
| Pinboard.BatchLength | pinboard.go:67-98 | the batch has one item per bookmark plus one per distinct tag token |
| Pinboard.BatchTagIds | pinboard.go:90-98 | the naming facts are on pairwise distinct placeholders at or below -1,000,001, and every token is named |
| Pinboard.PostMapShape | pinboard.go:69-85 | a bookmark map has the four note attributes plus `note/tags` with one reference per token, equal tokens sharing a reference |
| Pinboard.BookmarkMap | pinboard.go:69-87 | the i-th map is on -1-i with the bookmark's title, content and date and its tag references |
| Pinboard.EmptyTagsKept | pinboard.go:79-84 | a bookmark with empty tags still refers to one tag, named "" |
| Pinboard.FirstNameAt | pinboard.go:79 | every bookmark has at least one token, so some name is met as soon as there is a bookmark |
| Pinboard.NoteAndTagIdsApart | pinboard.go:50-64 | bookmark and tag placeholders never meet exactly when there are at most 1,000,000 bookmarks |
| Pinboard.Tokens | pinboard.go:79 | (definition) a bookmark's tag tokens are its tags split on single spaces, empty tokens kept; EmptyTagsKept and FirstNameAt state what that keeps |
| Pinboard.TagPlaceholder | pinboard.go:57-64 | (definition) the k-th distinct tag name gets placeholder -1,000,001 - k; MemoAgrees proves the memo hands out exactly these |
| Pinboard.PostMap | pinboard.go:69-85 | (definition) a bookmark's map holds the four note attributes and one tag reference per token; PostMapShape and BookmarkMap state its contents |
| PostView.Tag.Name | post.go:85-87 | the name is the string `:tag/name` holds; a tag whose name is missing or not a string is outside the precondition |
| PostView.Tag.String | post.go:89-91 | `String()` is `Name()` |
| PostView.Names | post.go:85-87 | the names of the tags, one per tag, in order |
| PostView.Post.Id | post.go:16-18 | the id is the string `:note/id` holds |
| PostView.Post.Title | post.go:20-22 | the title is the string `:note/title` holds |
| PostView.Post.Content | post.go:24-26 | the content is the string `:note/content` holds |
| PostView.Post.Date | post.go:28-30 | the date is the instant `:note/date` holds |
| PostView.Post.URL | post.go:32-38 | nil exactly when `note/url` is absent, otherwise the stored URL |
| PostView.Post.TagList | post.go:40-51 | nil for an empty reference list, otherwise one tag per reference, same length and order |
| PostView.Post.Tags | post.go:40-51 | the slice filled by index in the loop is `TagList` |
| PostView.Post.JsonText | post.go:53-79 | (definition) the JSON text of a note: the id, title, content and date members, the url member when there is a url, the tags member when there are tags, and the closing brace; ReadMarshalled reads it back to those fields |
| PostView.Post.MarshalJSON | post.go:53-79 | the buffer holds exactly: the four mandatory members in order, the url member when there is a URL, the tags member when there are tags, then "}" |
| PostView.WriteTagList | post.go:66-75 | the loop writes the quoted names with ", " between neighbours and none before the first |
| PostView.TagListStep | post.go:68-73 | one more tag is a separator unless it is the first, then its quoted name |
| PostView.QuotedSnoc | post.go:68-74 | after a joined list of quoted names, a separator unless the list is empty and one more quoted name give the joined longer list |
| PostView.NamesSnoc | post.go:68 | the names of one more tag are the earlier names followed by its name |
| PostView.HeadPieces | post.go:55-59 | (proof step) the five writes of the head give the head text |
| PostView.LiteralJoins | post.go:55-59 | (proof step) the literal pieces written around the four members join into the head's literals |
| PostView.Regroup | post.go:66-75 | (proof step) appending the tags member piece by piece equals appending it at once |
| PostView.Expect | post.go:55-59 | reading a literal succeeds exactly when the text starts with it, leaving the rest |
| PostView.ExpectLiteral | post.go:55-59 | a literal followed by a rest is read off, leaving the rest |
| PostView.ReadRaw | post.go:59 | reading the date stops at the first double quote and the text read has none |
| PostView.ReadRawText | post.go:59 | a quote-free date followed by a quote is read back |
| PostView.ReadListLast | post.go:73-75 | a single quoted name before "]" is read as a one-element list |
| PostView.ReadListMore | post.go:69-73 | a quoted name, ", " and a list read as the longer list |
| PostView.ReadListJoin | post.go:66-75 | the tag array text reads back as exactly the names |
| PostView.ReadHeadText | post.go:55-59 | the head reads back as the id, title, content and formatted date |
| PostView.HeadNesting | post.go:55-59 | (proof step) the head text regrouped for reading |
| PostView.ReadMarshalled | post.go:53-79 | the JSON text is unambiguous: it reads back as every member in the order written, the url exactly when the note has one, and the tag names in order exactly when it has tags |
| PostView.ReadAll | post.go:53-79 | reading a note succeeds once its head, url and tags parts do |
| PostView.ReadUrlBeforeTags | post.go:60-66 | the url part reads back before the tags part |
| PostView.ReadUrlText | post.go:60-63 | the url member is read exactly when `URL()` is not nil |
| PostView.ReadUrlMember | post.go:62 | a url member reads back as the url it holds, leaving what follows |
| PostView.ReadTagsText | post.go:64-76 | the tags member is read exactly when `Tags()` is not nil, with its names |
| PostView.ReadTagsMember | post.go:66-75 | a non-empty tags member reads back as its names in order, leaving what follows |
| PostView.TagsAreNotUrl | post.go:62-66 | the tags key cannot be mistaken for the url key |
| Quoting.Quote | post.go:56-58 | a quoted string starts and ends with a double quote; UnquoteQuote reads it back to the original string |
| Quoting.QuoteAll | post.go:73 | each name quoted, in order |
| Quoting.QuoteAllSnoc | post.go:73 | quoting one more name appends its quoted form |
| Quoting.ReadBody | post.go:56-58 | reading a quoted body consumes input |
| Quoting.Unquote | post.go:56-58 | reading a quoted string consumes at least its two quotes |
| Quoting.ReadEscapeChar | post.go:56-58 | an escaped character reads back as that character |
| Quoting.ReadEscape | post.go:56-58 | an escaped string and its closing quote read back as the string |
| Quoting.UnquoteQuote | post.go:56-58 | `%q` output followed by anything reads back as the string and the rest |
| Server.RoundToSecond | server.go:110 | the date is a whole second within half a second of the clock, halfway rounded up |
| Server.FormTags | server.go:130-134 | (definition) the form's tags split on single spaces with the empty tokens dropped, in order; FormTagsTokens states what they are |
| Server.NewPostBatch | server.go:112-141 | (definition) the four note facts, the url fact when the url is not empty, then two facts per tag with placeholders from -100 down; NewPost builds exactly this batch |
| Server.NewPost | server.go:101-141 | a form parse error is a bad request carrying it; otherwise the batch is the note facts, the url fact when given, and the facts of the non-empty tag tokens |
| Server.AppendTagFacts | server.go:129-141 | the tag loop appends, for each non-empty token in order, a reference to the next placeholder counted down from -100 and the fact naming it; empty tokens add nothing |
| Server.TokensStep | server.go:131-134 | an empty token leaves the non-empty tokens unchanged; any other token is appended to them |
| Server.TagFactsSnoc | server.go:136-140 | one more tag appends its reference on the next placeholder and the fact naming that placeholder |
| Server.TagFactsLayout | server.go:131-141 | two facts per tag token: the reference to placeholder first - k, then the fact naming it |
| Server.NewPostLayout | server.go:112-141 | four assert facts on -1 in the order id, title, content, date; the url fact exactly when the url is non-empty; then two facts per non-empty token on -100, -101, …; length 4 + [url given] + 2·#tokens |
| Server.NewPostAllAsserts | server.go:114-139 | every item of the batch is an assert fact |
| Server.NewPostUrlIff | server.go:119-127 | the batch mentions `note/url` exactly when the submitted url is non-empty |
| Server.NewPostItem | server.go:112-141 | each position holds a note fact on -1 before the tags, then alternately the k-th reference and the k-th naming fact |
| Server.NewPostPlaceholders | server.go:129-140 | tag placeholders are at or below -100, never the note's -1, pairwise distinct, and each reference is followed by the fact naming its target |
| Server.NewPostRefNamed | server.go:137-139 | each `note/tags` reference is directly followed by the `tag/name` fact on the placeholder it refers to |
| Server.FormTagsTokens | server.go:130-134 | the tokens are exactly the non-empty pieces between single spaces, in order, none holding a space; a field of spaces gives none |
| Server.NewPostRepeatsNames | server.go:129-141 | a repeated name is not merged: "a a" names two placeholders -100 and -101 "a" |
| Server.RepeatedTokens | server.go:131 | "a a" gives the tokens "a" and "a" |
| Server.ListPosts | server.go:167-192 | no `note/date` attribute is a failure; otherwise max(0, min(n, l)) ids, the i-th being the scan's (l-1-i)-th |
| Server.ListTags | server.go:212-227 | no `tag/name` attribute is a failure; a non-string value fails at its index; otherwise one name per datom, in scan order |
| Server.JoinTags | server.go:249-264 | "" for no tags, otherwise the names in order with ", " between neighbours |
| Server.FromQueryInt | server.go:400-409 | the result is the default or an integer in the 64-bit range |
| Server.FromQueryIntReads | server.go:400-409 | a parameter written as a 64-bit decimal integer is read as that integer |
| Server.FromQueryIntDefault | server.go:400-409 | the default is replaced only by a value made of an optional sign and digits that `Atoi` accepts |
| Server.PostIdFromPath | server.go:63-69 | an accepted note id is never empty |
| Server.PostIdFromPathSound | server.go:63-69 | an accepted path is two slash-free segments, then a non-empty id after the second slash |
| Server.PostIdFromPathComplete | server.go:63-69 | every such path is accepted with its id, even an id holding slashes |
| Server.GetPost | server.go:62-95 | a bad request exactly when the path check fails; an uninitialised store exactly when the path passes and `:note/id` is unknown; otherwise not found exactly when the id's scan is empty, and else the entity of the scan's first datom is shown |
| Strconv.NatToString | static/write.js:93-95 | a count is rendered as decimal digits |
| Strconv.NatToStringValue | static/write.js:93-95 | the rendered digits read back as the count |
| Strconv.Atoi | server.go:403 | accepted values lie in the 64-bit range |
| Strconv.Itoa | server.go:403 | the decimal rendering `Atoi` reads back: a minus sign exactly for negative numbers, then at least one digit |
| Text.Split | pinboard.go:79 | `strings.Split` gives at least one piece; JoinSplit proves the pieces rejoin to the input |
| Text.SplitN | server.go:63 | `strings.SplitN` gives between one and n parts; SplitNJoin proves they rejoin to the input and only the last can hold the separator |
| Text.Join | server.go:254-263 | (definition) the pieces with the separator between each two |
| Text.JoinSplit | pinboard.go:79 | the pieces of a split on a character, rejoined with that character, give back the string |
| Text.SplitNJoin | server.go:63 | the parts of `SplitN` rejoin to the string, and only the last part can hold the separator |
| Strconv.AtoiItoa | server.go:403-405 | `Atoi` inverts `Itoa` on every 64-bit integer |
| Strconv.AtoiAccepts | server.go:403-405 | an accepted string is an optional sign followed by decimal digits |
| WritePage.FirstLineOf | static/write.js:51 | the first line is the longest newline-free prefix of the text |
| WritePage.FirstLineIs | static/write.js:51 | a newline-free line before a newline, or alone, is the first line |
| WritePage.TitledIff | static/write.js:53 | the first line starts with "# " exactly when the text does |
| WritePage.Title | static/write.js:50-59 | with a "# " start the first line is "# " + title; otherwise the title is "" |
| WritePage.TitleOfHeading | static/write.js:53-54 | the first line "# t" gives title t, which may be empty |
| WritePage.DocumentTitle | static/write.js:57 | the document title is the title followed by " - notes" |
| WritePage.SameTitle | static/write.js:104-106 | texts with the same first line have the same title and document title, so skipping `updateTitle` for later lines is sound |
| WritePage.StartLine | static/write.js:62-66 | the content starts on line 1 exactly when the text starts with "# ", otherwise on line 0 |
| WritePage.Content | static/write.js:61-68 | (definition, corrected) the lines from the start line on, rejoined with newlines; ContentReassembles proves that the heading and the content give back the whole text |
| WritePage.ContentAsWritten | static/write.js:67 | (definition, as written) the text from the end of the start line on, as CodeMirror reads a position without `ch` |
| WritePage.ContentAsWrittenUntitled | static/write.js:62-67 | of a text without a heading the handler shows exactly what follows its first line |
| WritePage.ContentAsWrittenLosesLine | static/write.js:61-68 | for "abc", a newline and "def" the handler shows a newline and "def" where the content is the whole text |
| WritePage.ContentReassembles | static/write.js:61-68 | an untitled text is its own content; a titled one is "# " + title + "\n" + content, or just the heading with empty content |
| WritePage.NumWords | static/write.js:72-75 | (definition) the number of pieces between `\s` characters that hold a `\w` character; NumWordsAround, NumWordsOfPiece and NumWordsBlank state how it counts |
| WritePage.NumCharacters | static/write.js:79-82 | (definition) the number of characters outside `\s`; NumCharactersCount proves that it and the whitespace add up to the length |
| WritePage.NumMinutes | static/write.js:70-83 | the least number of minutes at 250 words a minute: 0 exactly for 0 words |
| WritePage.GetStats | static/write.js:71-85 | (definition) the words, the characters and the minutes of the text, the minutes computed from the words |
| WritePage.NumWordsAround | static/write.js:72-75 | words on either side of a whitespace character count separately |
| WritePage.NumWordsOfPiece | static/write.js:72-75 | a whitespace-free piece is one word when it has a word character, none otherwise |
| WritePage.NumWordsBlank | static/write.js:72-75 | blank text has no words |
| WritePage.NumCharactersCount | static/write.js:79-82 | every character is either counted or whitespace |
| WritePage.Label | static/write.js:93-95 | (definition) the count in decimal, a space and the unit; LabelReadsBack proves it reads back |
| WritePage.LabelReadsBack | static/write.js:93-95 | a label is the count in decimal, a space and the unit, the singular exactly when the count is 1 |
| WritePage.Editor.constructor | static/write.js:43-100 | an empty editor is filled from storage under the saved name (the text "notes", a vertical bar, then location); then stats, title and content match the text |
| WritePage.Editor.GetSavedName | static/write.js:9-22 | the first call computes the saved name (the text "notes", a vertical bar, then location) and caches it; later calls return the cache; nothing else changes |
| WritePage.Editor.SaveDocument | static/write.js:24-26 | the text is stored under the saved name; nothing else changes |
| WritePage.Editor.ScheduleSave | static/write.js:32-40 | a save happens only when `needsSave` is set; the flag is then clear; otherwise storage is unchanged |
| WritePage.Editor.UpdateTitle | static/write.js:50-59 | title field and document title are set from the text; nothing else changes |
| WritePage.Editor.UpdateDocument | static/write.js:61-68 | the content field is set to the corrected content of the text; nothing else changes |
| WritePage.Editor.DisplayStats | static/write.js:91-96 | the three labels are set from the statistics of the text; nothing else changes |
| WritePage.Editor.OnChange | static/write.js:101-110 | after a change the display matches the new text and `needsSave` is set |
| TagCompletion.LastAtOrBefore | tags-test.js:72 | the last position at or before k holding the character, or -1 |
| TagCompletion.FirstAtOrAfter | tags-test.js:74 | the first position at or after k holding the character, or -1 |
| TagCompletion.LastIndexFrom | tags-test.js:72 | `lastIndexOf` from a position clamped into the string |
| TagCompletion.IndexFrom | tags-test.js:74 | `indexOf` from a position clamped at 0 |
| TagCompletion.Clamp | tags-test.js:77 | a position moved into the string |
| TagCompletion.KeyAccepted | tags-test.js:58-62 | (definition) the keys the handler goes on for: those found in `completeChars`, Backspace, Tab and the two arrows; CharKeyAccepted states which characters those are |
| TagCompletion.CharKeyAccepted | tags-test.js:35-62 | a one-character key is accepted exactly when it is a letter, a digit, '-' or '_' |
| TagCompletion.TagBoundsAsWritten | tags-test.js:72-75 | (definition, as written) both searches start one before the cursor |
| TagCompletion.CurrentTagAsWritten | tags-test.js:77 | (definition, as written) `substring` of the handler's bounds |
| TagCompletion.TokenAfterSpaceAsWritten | tags-test.js:72-77 | right after a space the handler's token is " " instead of the empty token |
| TagCompletion.TagBounds | tags-test.js:72-75 | the space-free stretch around the cursor, bounded by spaces or the ends of the text |
| TagCompletion.TagBoundsUnique | tags-test.js:72-75 | those properties determine the bounds |
| TagCompletion.TagBoundsAgree | tags-test.js:72-75 | the bounds are the handler's whenever the character before the cursor is not a space |
| TagCompletion.Token | tags-test.js:72-77 | the token under the cursor holds no space and is no longer than the text |
| TagCompletion.Completions | tags-test.js:99-100 | (definition) the known tags that start with the token, in order; CompletionsExact states it exactly |
| TagCompletion.CompletionsExact | tags-test.js:99-100 | the completions are exactly the known tags starting with the token, in their original order |
| TagCompletion.IndexAsWritten | tags-test.js:92-97 | (definition, as written) up stops at 0, down adds one without a bound |
| TagCompletion.SelectedAsWritten | tags-test.js:127 | (definition, as written) the child at the index, undefined past the last suggestion |
| TagCompletion.ArrowDownPastEndAsWritten | tags-test.js:95-128 | with the single completion "abc", ArrowDown selects index 1, which holds no suggestion |
| TagCompletion.NextIndex | tags-test.js:92-97 | the handler's index whenever it lies on a suggestion, otherwise the last suggestion |
| TagCompletion.ArrowKeys | tags-test.js:92-97 | ArrowUp moves one towards the first suggestion and stops there; ArrowDown moves one towards the last |
| TagCompletion.Splice | tags-test.js:84-87 | (definition) the text before the token, the completion, a space when the cursor was at the end, and the text after the token; SpliceLayout and SpliceCompletes state what it gives |
| TagCompletion.SpliceLayout | tags-test.js:84-87 | text before the token, the completion, a space when the cursor was at the end, then the text after the token |
| TagCompletion.SpliceCompletes | tags-test.js:84-115 | after the splice the token ending after the completion is exactly the completion |
| TagCompletion.Completer.constructor | tags-test.js:36-38 | a fresh completer is reset with no selection |
| TagCompletion.Completer.ResetCompletions | tags-test.js:44-49 | index 0, no selection, an empty hidden list; the value and the captured click target are kept |
| TagCompletion.Completer.KeyUp | tags-test.js:57-130 | a rejected key resets; a range selection changes nothing; an empty token resets; Tab splices the selection and resets; any other key lists the completions, moves the index and captures the click target |
| TagCompletion.Completer.ShowCompletions | tags-test.js:99-129 | the completions are listed and shown, the index moves, the element at the index is selected exactly when there are completions, and the click target captures the text and token bounds; the value is kept |
| TagCompletion.Completer.Click | tags-test.js:110-119 | a click splices the clicked suggestion into the text captured when the list was made, then resets |

## Left out

- The store itself is not part of this model. That covers `Transact`, index scans, `Entity`, `Entid`, database creation and schema loading. Scans are inputs and the batch is the result.
- Decoding is not modelled. Inputs are records or a decode error, for:
  - the XML of the Pinboard import (its malformed struct tag at pinboard.go:30 included);
  - the legacy XML export;
  - the JSON import;
  - the HTML form.
- File access is not modelled: opening, listing and reading files, and the directory path join.
- Console output is not modelled.
- `crypto/rand` is a parameter. The k-th draw is `draw(k)`; the form's single draw is `idBytes`. The panic on a failed read of randomness is not modelled.
- `time.Now()` is the parameter `now`. RFC 3339 date formatting is a function parameter of `MarshalJSON`, assumed to write no double quote.
- Server.GetPost: the source panics with "db not initialized" when the store lacks `:note/id` (server.go:73-74); the model returns the page `DbNotInitialized` instead.
- Go type assertions that panic on a value of the wrong type are preconditions in the model: `Tag.HasName` for `Tag.Name` (post.go:86), `Post.UrlShape`, `Post.TagsShape` and `Post.IsNote` for the accessors (post.go:17-48), and the named tags that `Server.JoinTags` and `Post.MarshalJSON` require.
- PostView.Post.RawTags: an absent `:note/tags` reads as the empty list. In the source `p.Get(...).([]interface{})` (post.go:41) panics if the store's `Entity.Get` gives nil, and imported notes have no tags; what `Entity.Get` gives for an absent many-valued attribute is not part of this model.
- TagCompletion.Completer.KeyUp: the known tags are an input. Before the request for them at tags-test.js:4-6 has answered, `window.tags` is undefined and the handler throws at line 99; that case is not modelled.
- HTTP routing, redirects and status pages are not modelled, except the outcome `GetPost` decides. Also left out: the HTML templates, `renderable/renderable.go` and the JSON encoding of the tag list.
- A failing `Transact` after `NewPost` builds its batch is not modelled.
- `listPosts` exiting when `note/date` is missing is modelled as a `Failure` result. `listTags` panicking on a missing attribute or a non-string value is modelled the same way.
- LegacyImport.ImportPosts: the source panics on a decode error; the model returns a `Failure`.
- Go's `%q` is modelled for ASCII escapes only. Characters from U+0080 on are treated as printable. Go escapes some of them, for example U+2028, as `\u2028`.
- Go strings are byte strings; the model's `string` is a sequence of characters. Text that is not valid UTF-8, such as a title or content read from a Latin-1 file, cannot be represented, and `%q`'s escaping of each invalid byte as `\xHH` (post.go:56-58, 73) is not modelled.
- JavaScript strings are modelled as sequences of code points, not UTF-16 units. JavaScript's `\s` and `\w` are spelled out as character sets.
- The writing page's DOM, CodeMirror, `localStorage` and timers are not modelled. `setTimeout` re-arming `scheduleSave` every ten seconds is not modelled; one run of it is `ScheduleSave`.
- WritePage.Editor.GetSavedName: the page address with its `key` parameter is the input `location`; deriving `key` from the clock and `history.replaceState` are not modelled.
- WritePage.Editor.UpdateDocument: the editor shows the corrected `Content` listed under Findings, not the text from the end of the start line that the code as written shows (`ContentAsWritten`).
- WritePage.Editor.OnChange: a change that starts after line 0 is required to keep the first line, as any CodeMirror edit outside line 0 does. Other changes from later lines are not modelled.
- TagCompletion.Completer.KeyUp: with no selected element, Tab throws in the source before anything changes; the model leaves the state unchanged.
- TagCompletion.Completer.KeyUp: the completer follows the corrected token bounds and index clamp listed under Findings, not the code as written.
- The `keydown` handler that stops Tab from moving the focus is not modelled. Neither are the list's placement and styling, nor `focus()`.
- Pinboard.AppendTagNames: the naming facts follow Go's map-iteration order, which is unspecified. The model proves only that each key is named once, in some order.
- The form path of `NewPost` does not merge repeated tag names (server.go:129-141): unlike the Pinboard import, which names each distinct tag once (pinboard.go:57-64), it gives every occurrence its own placeholder.
- The memo's counter starts at -1,000,000 and is decremented before use. So the first tag placeholder is -1,000,001, not -1,000,000.
- Pinboard.NoteAndTagIdsApart: with more than 1,000,000 bookmarks the note and tag placeholders collide. The model proves the exact bound; it does not rule out such inputs.

## Findings

| source | as written | input that shows it | evidently intended | confidence | as-written member | corrected member |
|---|---|---|---|---|---|---|
| tags-test.js:72-77 | both searches start at `selectionStart - 1`, so when the character before the cursor is a space, `tagEnd` is that space and `tagStart` one past it; `substring` swaps the ends and the token is " " | value "foo ", cursor 4, key Backspace: the token is " " instead of the empty token, so no reset happens and completions for " " are listed | the start search looks at or before `cursor - 1`, the end search at or after the cursor; the token is then empty and the completions reset | not executed | TagCompletion.TokenAfterSpaceAsWritten | TagCompletion.TagBounds |
| tags-test.js:95-97,127-128 | ArrowDown increments `selectedIndex` without a bound, and `completionsEl.children[selectedIndex]` is then undefined, so `selectedElement.classList` throws | known tags ["abc"], value "a", cursor 1, key ArrowDown: one completion, index 1 | the index stays on the last suggestion | not executed | TagCompletion.ArrowDownPastEndAsWritten | TagCompletion.NextIndex |
| static/write.js:61-68 | `getRange(start, ...)` passes `{line: 0}` or `{line: 1}` without `ch`; CodeMirror moves such a position to the end of its line, so the first content line is dropped | text "abc", a newline, "def": the content field shows a newline and "def" | the content starts at the beginning of the start line, so heading and content give back the whole text | not executed | WritePage.ContentAsWrittenLosesLine | WritePage.ContentReassembles |
