/** The web layer (server.go): the fact batch of a submitted note, the shaping of index scans
    into the lists a reader sees, and the small request helpers. */
module Server {
  import opened Wrappers
  import opened Seqs
  import opened Text
  import opened Facts
  import Hex
  import Strconv
  import PostView

  /** Form or query values as Go's `url.Values`: each key with its values in order. */
  type Values = map<string, seq<string>>

  /** `Values.Get` and `Request.FormValue`: the first value given for `key`, or "". */
  function Get(vs: Values, key: string): string
  {
    if key in vs && vs[key] != [] then vs[key][0] else ""
  }

  /** `time.Time.Round(time.Second)`: the nearest whole second, halfway values rounded up. */
  function RoundToSecond(t: Time): (r: Time)
    ensures r % 1_000_000_000 == 0
    ensures -500_000_000 < r - t <= 500_000_000
  {
    ((t + 500_000_000) / 1_000_000_000) * 1_000_000_000
  }

  /** The note's placeholder, and the first placeholder handed to a tag of the form. */
  const NotePlaceholder := -1
  const FirstTagPlaceholder := -100

  predicate IsNonEmpty(s: string)
  {
    s != ""
  }

  /** The tag tokens of the form: the field split on single spaces, empty tokens skipped. */
  function FormTags(rawTags: string): seq<string>
  {
    Filter(Split(rawTags, ' '), IsNonEmpty)
  }

  /** The four mandatory facts, in the order id, title, content, date. */
  function NoteFacts(noteId: string, title: string, content: string, date: Time): seq<TxDatum>
  {
    [ Datum(Assert, NotePlaceholder, NoteIdAttr, Str(noteId)),
      Datum(Assert, NotePlaceholder, NoteTitleAttr, Str(title)),
      Datum(Assert, NotePlaceholder, NoteContentAttr, Str(content)),
      Datum(Assert, NotePlaceholder, NoteDateAttr, Instant(date)) ]
  }

  function UrlFacts(url: string): seq<TxDatum>
  {
    if url == "" then [] else [Datum(Assert, NotePlaceholder, NoteUrlAttr, Str(url))]
  }

  /** Two facts per tag occurrence: the note refers to a fresh placeholder, and the
      placeholder is named. The k-th occurrence gets `first - k`. */
  function TagFacts(tags: seq<string>, first: int): seq<TxDatum>
  {
    if tags == [] then []
    else
      var k := |tags| - 1;
      TagFacts(tags[..k], first)
        + [Datum(Assert, NotePlaceholder, NoteTagsAttr, Ref(first - k)),
           Datum(Assert, first - k, TagNameAttr, Str(tags[k]))]
  }

  /** The batch `NewPost` hands to the store. */
  function NewPostBatch(noteId: string, title: string, content: string, date: Time,
                        url: string, rawTags: string): seq<TxDatum>
  {
    NoteFacts(noteId, title, content, date) + UrlFacts(url)
      + TagFacts(FormTags(rawTags), FirstTagPlaceholder)
  }

  /** `NewPost`: a form that does not parse is a bad request (carrying the parse error);
      otherwise the batch is built fact by fact, the tags in a loop that skips empty tokens
      and decrements the placeholder counter. The random id bytes and the clock are inputs. */
  method NewPost(form: Result<Values, string>, idBytes: Hex.IdBytes, now: Time)
    returns (r: Result<seq<TxDatum>, string>)
    ensures form.Failure? ==> r == Failure(form.error)
    ensures form.Success? ==>
      r == Success(NewPostBatch(Hex.GenerateId(idBytes), Get(form.value, "title"),
                                Get(form.value, "content"), RoundToSecond(now),
                                Get(form.value, "url"), Get(form.value, "tags")))
  {
    if form.Failure? {
      return Failure(form.error);
    }
    var values := form.value;
    var title := Get(values, "title");
    var content := Get(values, "content");
    var date := RoundToSecond(now);
    var noteId := NotePlaceholder;
    var txData := [ Datum(Assert, noteId, NoteIdAttr, Str(Hex.GenerateId(idBytes))),
                    Datum(Assert, noteId, NoteTitleAttr, Str(title)),
                    Datum(Assert, noteId, NoteContentAttr, Str(content)),
                    Datum(Assert, noteId, NoteDateAttr, Instant(date)) ];
    var url := Get(values, "url");
    if url != "" {
      txData := txData + [Datum(Assert, noteId, NoteUrlAttr, Str(url))];
    }
    assert txData == NoteFacts(Hex.GenerateId(idBytes), title, content, date) + UrlFacts(url);
    var rawTags := Get(values, "tags");
    var tokens := Split(rawTags, ' ');
    txData := AppendTagFacts(txData, tokens);
    return Success(txData);
  }

  /** The tag loop of `NewPost`: each non-empty token gets a reference from the note and a
      naming fact, on a placeholder counted down from -100; empty tokens are skipped. */
  method AppendTagFacts(head: seq<TxDatum>, tokens: seq<string>) returns (txData: seq<TxDatum>)
    ensures txData == head + TagFacts(Filter(tokens, IsNonEmpty), FirstTagPlaceholder)
  {
    txData := head;
    var n := FirstTagPlaceholder;
    for i := 0 to |tokens|
      invariant n == FirstTagPlaceholder - |Filter(tokens[..i], IsNonEmpty)|
      invariant txData == head + TagFacts(Filter(tokens[..i], IsNonEmpty), FirstTagPlaceholder)
    {
      var tag := tokens[i];
      ghost var ts := Filter(tokens[..i], IsNonEmpty);
      TokensStep(tokens, i);
      if tag == "" {
        continue;
      }
      TagFactsSnoc(ts, tag, FirstTagPlaceholder);
      var tagId := n;
      txData := txData + [Datum(Assert, NotePlaceholder, NoteTagsAttr, Ref(tagId)),
                          Datum(Assert, tagId, TagNameAttr, Str(tag))];
      n := n - 1;
    }
    assert tokens[..|tokens|] == tokens;
  }

  /** The non-empty tokens among one more token. */
  lemma {:induction false} TokensStep(tokens: seq<string>, i: nat)
    requires i < |tokens|
    ensures tokens[i] == "" ==> Filter(tokens[..i + 1], IsNonEmpty) == Filter(tokens[..i], IsNonEmpty)
    ensures tokens[i] != "" ==> Filter(tokens[..i + 1], IsNonEmpty) == Filter(tokens[..i], IsNonEmpty) + [tokens[i]]
  {
    assert tokens[..i + 1][..i] == tokens[..i];
  }

  /** One more tag occurrence adds its reference and its naming fact, on the next placeholder. */
  lemma {:induction false} TagFactsSnoc(tags: seq<string>, tag: string, first: int)
    ensures TagFacts(tags + [tag], first)
            == TagFacts(tags, first) + [Datum(Assert, NotePlaceholder, NoteTagsAttr, Ref(first - |tags|)),
                                        Datum(Assert, first - |tags|, TagNameAttr, Str(tag))]
  {
    assert (tags + [tag])[..|tags|] == tags;
  }

  /** Where the k-th tag occurrence's two facts sit. */
  lemma {:induction false} TagFactsLayout(tags: seq<string>, first: int)
    ensures |TagFacts(tags, first)| == 2 * |tags|
    ensures forall k :: 0 <= k < |tags| ==>
      && TagFacts(tags, first)[2 * k] == Datum(Assert, NotePlaceholder, NoteTagsAttr, Ref(first - k))
      && TagFacts(tags, first)[2 * k + 1] == Datum(Assert, first - k, TagNameAttr, Str(tags[k]))
  {
    if tags != [] {
      TagFactsLayout(tags[..|tags| - 1], first);
    }
  }

  /** The shape of the whole batch: the four note facts in order, the url fact exactly
      when a url was given, then two facts per non-empty tag token with placeholders
      -100, -101, ...; and nothing else, so its length is 4 + [url given] + 2 * #tokens. */
  lemma {:induction false} NewPostLayout(noteId: string, title: string, content: string, date: Time,
                      url: string, rawTags: string)
    ensures var b := NewPostBatch(noteId, title, content, date, url, rawTags);
            var h := if url == "" then 4 else 5;
            var ts := FormTags(rawTags);
            && |b| == h + 2 * |ts|
            && b[..4] == [ Datum(Assert, -1, NoteIdAttr, Str(noteId)),
                           Datum(Assert, -1, NoteTitleAttr, Str(title)),
                           Datum(Assert, -1, NoteContentAttr, Str(content)),
                           Datum(Assert, -1, NoteDateAttr, Instant(date)) ]
            && (url != "" ==> b[4] == Datum(Assert, -1, NoteUrlAttr, Str(url)))
            && forall k :: 0 <= k < |ts| ==>
                 && b[h + 2 * k] == Datum(Assert, -1, NoteTagsAttr, Ref(-100 - k))
                 && b[h + 2 * k + 1] == Datum(Assert, -100 - k, TagNameAttr, Str(ts[k]))
  {
    var ts := FormTags(rawTags);
    TagFactsLayout(ts, FirstTagPlaceholder);
    var b := NewPostBatch(noteId, title, content, date, url, rawTags);
    var h := if url == "" then 4 else 5;
    var tail := TagFacts(ts, FirstTagPlaceholder);
    var front := NoteFacts(noteId, title, content, date) + UrlFacts(url);
    assert |front| == h;
    assert b == front + tail;
    assert b[..4] == front[..4];
    assert url != "" ==> b[4] == front[4];
    forall k | 0 <= k < |ts|
      ensures b[h + 2 * k] == Datum(Assert, -1, NoteTagsAttr, Ref(-100 - k))
      ensures b[h + 2 * k + 1] == Datum(Assert, -100 - k, TagNameAttr, Str(ts[k]))
    {
      assert b[h + 2 * k] == tail[2 * k];
      assert b[h + 2 * k + 1] == tail[2 * k + 1];
    }
  }

  /** Every item of the batch is a single assert fact. */
  lemma {:induction false} NewPostAllAsserts(noteId: string, title: string, content: string, date: Time,
                          url: string, rawTags: string)
    ensures var b := NewPostBatch(noteId, title, content, date, url, rawTags);
            forall i :: 0 <= i < |b| ==> b[i].Datum? && b[i].op == Assert
  {
    var b := NewPostBatch(noteId, title, content, date, url, rawTags);
    var ts := FormTags(rawTags);
    var h := if url == "" then 4 else 5;
    NewPostLayout(noteId, title, content, date, url, rawTags);
    forall i | h <= i < |b|
      ensures b[i].Datum? && b[i].op == Assert
    {
      var k := (i - h) / 2;
      assert i == h + 2 * k || i == h + 2 * k + 1;
    }
  }

  /** A url fact is in the batch exactly when the submitted url is not empty. */
  lemma {:induction false} NewPostUrlIff(noteId: string, title: string, content: string, date: Time,
                      url: string, rawTags: string)
    ensures var b := NewPostBatch(noteId, title, content, date, url, rawTags);
            (exists i :: 0 <= i < |b| && b[i].Datum? && b[i].a == NoteUrlAttr) <==> url != ""
  {
    var b := NewPostBatch(noteId, title, content, date, url, rawTags);
    var h := if url == "" then 4 else 5;
    NewPostLayout(noteId, title, content, date, url, rawTags);
    if url != "" {
      assert b[4].a == NoteUrlAttr;
    } else {
      forall i | 0 <= i < |b| && b[i].Datum?
        ensures b[i].a != NoteUrlAttr
      {
        if i >= h {
          var k := (i - h) / 2;
          assert i == h + 2 * k || i == h + 2 * k + 1;
        } else {
          assert b[i] == b[..4][i];
        }
      }
    }
  }

  /** What sits at one position of the batch: a note fact on -1 before the tags, then
      alternately the k-th reference and the k-th naming fact. */
  lemma {:induction false} NewPostItem(noteId: string, title: string, content: string, date: Time,
                                       url: string, rawTags: string, i: nat)
    requires i < |NewPostBatch(noteId, title, content, date, url, rawTags)|
    ensures var b, h, ts := NewPostBatch(noteId, title, content, date, url, rawTags),
                            (if url == "" then 4 else 5), FormTags(rawTags);
            && |b| == h + 2 * |ts|
            && (i < h ==> b[i].Datum? && b[i].e == -1 && b[i].a != TagNameAttr && b[i].a != NoteTagsAttr)
            && (h <= i && (i - h) % 2 == 0 ==>
                  (i - h) / 2 < |ts| && b[i] == Datum(Assert, -1, NoteTagsAttr, Ref(-100 - (i - h) / 2)))
            && (h <= i && (i - h) % 2 == 1 ==>
                  (i - h) / 2 < |ts| && b[i] == Datum(Assert, -100 - (i - h) / 2, TagNameAttr, Str(ts[(i - h) / 2])))
  {
    var b := NewPostBatch(noteId, title, content, date, url, rawTags);
    var h := if url == "" then 4 else 5;
    NewPostLayout(noteId, title, content, date, url, rawTags);
    if i < 4 {
      assert b[i] == b[..4][i];
    } else if i >= h {
      var k := (i - h) / 2;
      assert i == h + 2 * k || i == h + 2 * k + 1;
    }
  }

  /** The tag placeholders: every `:tag/name` fact is on a placeholder at or below -100 (so
      never the note's -1), no two of them share one, and every `:note/tags` reference is
      followed by the fact naming its placeholder. */
  lemma {:induction false} NewPostPlaceholders(noteId: string, title: string, content: string, date: Time,
                            url: string, rawTags: string)
    ensures var b := NewPostBatch(noteId, title, content, date, url, rawTags);
            && (forall i :: 0 <= i < |b| && b[i].Datum? && b[i].a == TagNameAttr ==>
                 b[i].e <= FirstTagPlaceholder < NotePlaceholder)
            && (forall i, j :: (0 <= i < j < |b| && b[i].Datum? && b[j].Datum?
                                 && b[i].a == TagNameAttr && b[j].a == TagNameAttr)
                 ==> b[i].e != b[j].e)
            && (forall i :: 0 <= i < |b| && b[i].Datum? && b[i].a == NoteTagsAttr ==>
                 i + 1 < |b| && b[i + 1].Datum? && b[i + 1].a == TagNameAttr
                 && b[i].v == Ref(b[i + 1].e))
  {
    var b := NewPostBatch(noteId, title, content, date, url, rawTags);
    var h := if url == "" then 4 else 5;
    forall i | 0 <= i < |b| && b[i].Datum? && b[i].a == TagNameAttr
      ensures i >= h && (i - h) % 2 == 1 && b[i].e == FirstTagPlaceholder - (i - h) / 2
    {
      NewPostItem(noteId, title, content, date, url, rawTags, i);
    }
    forall i | 0 <= i < |b| && b[i].Datum? && b[i].a == NoteTagsAttr
      ensures i + 1 < |b| && b[i + 1].Datum? && b[i + 1].a == TagNameAttr
              && b[i].v == Ref(b[i + 1].e)
    {
      NewPostRefNamed(noteId, title, content, date, url, rawTags, i);
    }
  }

  /** A `:note/tags` reference is followed by the fact naming its placeholder. */
  lemma {:induction false} NewPostRefNamed(noteId: string, title: string, content: string, date: Time,
                                           url: string, rawTags: string, i: nat)
    requires var b := NewPostBatch(noteId, title, content, date, url, rawTags);
             i < |b| && b[i].Datum? && b[i].a == NoteTagsAttr
    ensures var b := NewPostBatch(noteId, title, content, date, url, rawTags);
            i + 1 < |b| && b[i + 1].Datum? && b[i + 1].a == TagNameAttr && b[i].v == Ref(b[i + 1].e)
  {
    var b := NewPostBatch(noteId, title, content, date, url, rawTags);
    var h := if url == "" then 4 else 5;
    NewPostItem(noteId, title, content, date, url, rawTags, i);
    var k := (i - h) / 2;
    assert i - h == 2 * k;
    assert (i + 1 - h) % 2 == 1 && (i + 1 - h) / 2 == k;
    NewPostItem(noteId, title, content, date, url, rawTags, i + 1);
  }

  /** What the tag tokens are: exactly the non-empty pieces of the field around single
      spaces, in order; none holds a space, and a field of spaces gives none. */
  lemma {:induction false} FormTagsTokens(rawTags: string)
    ensures var ts := FormTags(rawTags);
            && (forall t :: t in ts <==> t in Split(rawTags, ' ') && t != "")
            && (forall k :: 0 <= k < |ts| ==> ts[k] != "" && ' ' !in ts[k])
            && ((forall i :: 0 <= i < |rawTags| ==> rawTags[i] == ' ') ==> ts == [])
  {
    var pieces := Split(rawTags, ' ');
    var ts := FormTags(rawTags);
    FilterMembers(pieces, IsNonEmpty);
    SplitPiecesClean(rawTags, {' '});
    forall k | 0 <= k < |ts|
      ensures ts[k] != "" && ' ' !in ts[k]
    {
      assert ts[k] in pieces;
    }
    if forall i :: 0 <= i < |rawTags| ==> rawTags[i] == ' ' {
      SplitOnlySeparators(rawTags, {' '});
      FilterAllOrNone(pieces, IsNonEmpty);
    }
  }

  /** The form path does not merge repeated names: "a a" names two placeholders "a". */
  lemma {:induction false} NewPostRepeatsNames(noteId: string, title: string, content: string, date: Time)
    ensures var b := NewPostBatch(noteId, title, content, date, "", "a a");
            && |b| == 8
            && b[5] == Datum(Assert, -100, TagNameAttr, Str("a"))
            && b[7] == Datum(Assert, -101, TagNameAttr, Str("a"))
  {
    RepeatedTokens();
    NewPostLayout(noteId, title, content, date, "", "a a");
    NewPostItem(noteId, title, content, date, "", "a a", 5);
    NewPostItem(noteId, title, content, date, "", "a a", 7);
  }

  lemma {:induction false} RepeatedTokens()
    ensures FormTags("a a") == ["a", "a"]
  {
    assert "a a" == "a" + [' '] + "a";
    SplitAround("a", ' ', "a", {' '});
    SplitNoSeparator("a", {' '});
    assert Split("a a", ' ') == ["a", "a"];
    assert ["a", "a"][..1] == ["a"];
  }

  /** Why a list could not be produced: the store lacks the attribute the scan needs
      (`Entid` gives -1), or a scanned value is not a string. */
  datatype Fault = AttributeMissing(attr: Keyword) | NotAString(index: nat)

  /** `listPosts`: collects the entity ids of an ascending `:note/date` scan, then takes
      them from the newest end, at most `n`. Without the attribute the program exits. */
  method ListPosts(dateAttr: Option<int>, scan: seq<Datom>, n: int)
    returns (r: Result<seq<int>, Fault>)
    ensures dateAttr.None? ==> r == Failure(AttributeMissing(NoteDateAttr))
    ensures dateAttr.Some? ==> r.Success?
    ensures r.Success? ==>
      && |r.value| == (if n < 0 then 0 else if n < |scan| then n else |scan|)
      && forall i :: 0 <= i < |r.value| ==> r.value[i] == scan[|scan| - 1 - i].e
  {
    if dateAttr.None? {
      return Failure(AttributeMissing(NoteDateAttr));
    }
    var postIds: seq<int> := [];
    for k := 0 to |scan|
      invariant |postIds| == k
      invariant forall j :: 0 <= j < k ==> postIds[j] == scan[j].e
    {
      postIds := postIds + [scan[k].e];
    }
    var posts: seq<int> := [];
    var l := |postIds|;
    var i := 0;
    while i < l && i < n
      invariant 0 <= i <= l && (i == 0 || i <= n)
      invariant |posts| == i
      invariant forall j :: 0 <= j < i ==> posts[j] == postIds[l - j - 1]
    {
      posts := posts + [postIds[l - i - 1]];
      i := i + 1;
    }
    return Success(posts);
  }

  /** `listTags`: one name per scanned `:tag/name` datom, in scan order. The missing
      attribute and a value that is not a string both panic in the source. */
  method ListTags(nameAttr: Option<int>, scan: seq<Datom>) returns (r: Result<seq<string>, Fault>)
    ensures nameAttr.None? ==> r == Failure(AttributeMissing(TagNameAttr))
    ensures r.Failure? && nameAttr.Some? ==>
      exists i :: 0 <= i < |scan| && r.error == NotAString(i) && !scan[i].v.Str?
    ensures nameAttr.Some? && (forall i :: 0 <= i < |scan| ==> scan[i].v.Str?) ==> r.Success?
    ensures r.Success? ==>
      |r.value| == |scan| && forall i :: 0 <= i < |scan| ==> Str(r.value[i]) == scan[i].v
  {
    if nameAttr.None? {
      return Failure(AttributeMissing(TagNameAttr));
    }
    var tags: seq<string> := [];
    for i := 0 to |scan|
      invariant |tags| == i
      invariant forall j :: 0 <= j < i ==> Str(tags[j]) == scan[j].v
    {
      if !scan[i].v.Str? {
        return Failure(NotAString(i));
      }
      tags := tags + [scan[i].v.s];
    }
    return Success(tags);
  }

  /** The `joinTags` template function: the names with ", " between neighbours, built with
      a `first` flag. */
  method JoinTags(tags: seq<PostView.Tag>) returns (joined: string)
    requires forall i :: 0 <= i < |tags| ==> tags[i].HasName()
    ensures joined == Join(PostView.Names(tags), ", ")
  {
    if |tags| == 0 {
      return "";
    }
    joined := "";
    var first := true;
    for i := 0 to |tags|
      invariant first <==> i == 0
      invariant joined == Join(PostView.Names(tags[..i]), ", ")
    {
      ghost var done := PostView.Names(tags[..i]);
      if !first {
        joined := joined + ", ";
      }
      joined := joined + tags[i].Name();
      first := false;
      assert tags[..i + 1] == tags[..i] + [tags[i]];
      assert PostView.Names(tags[..i + 1]) == done + [tags[i].Name()];
      JoinSnoc(done, tags[i].Name(), ", ");
    }
    assert tags[..|tags|] == tags;
  }

  /** `fromQueryInt`: the parameter's first value when it parses as a 64-bit integer,
      otherwise the default. */
  function FromQueryInt(query: Values, param: string, n: int): (r: int)
    ensures r == n || Strconv.MinInt64 <= r <= Strconv.MaxInt64
  {
    var val := Get(query, param);
    if val != "" then
      match Strconv.Atoi(val)
      case Some(v) => v
      case None => n
    else n
  }

  /** A parameter written as a decimal integer is read as that integer. */
  lemma {:induction false} FromQueryIntReads(query: Values, param: string, n: int, x: int)
    requires Strconv.MinInt64 <= x <= Strconv.MaxInt64
    requires Get(query, param) == Strconv.Itoa(x)
    ensures FromQueryInt(query, param, n) == x
  {
    Strconv.AtoiItoa(x);
  }

  /** The default is replaced only by a value that is a sign and digits. */
  lemma {:induction false} FromQueryIntDefault(query: Values, param: string, n: int)
    ensures var val := Get(query, param);
            FromQueryInt(query, param, n) != n ==>
              && |val| >= 1
              && Strconv.Atoi(val) == Some(FromQueryInt(query, param, n))
              && (var digits := if val[0] == '-' || val[0] == '+' then val[1..] else val;
                  digits != [] && Strconv.AllDigits(digits))
  {
    var val := Get(query, param);
    if FromQueryInt(query, param, n) != n {
      Strconv.AtoiAccepts(val);
    }
  }

  /** The note id of a `/notes/<id>` path: `SplitN(path, "/", 3)` must give three parts,
      the last of them not empty. */
  function PostIdFromPath(path: string): (id: Option<string>)
    ensures id.Some? ==> id.value != ""
  {
    var parts := SplitN(path, '/', 3);
    if |parts| != 3 || parts[2] == "" then None else Some(parts[2])
  }

  /** An accepted path is two slash-free segments, then the id after the second slash. */
  lemma {:induction false} PostIdFromPathSound(path: string) returns (a: string, b: string)
    requires PostIdFromPath(path).Some?
    ensures var id := PostIdFromPath(path).value;
            id != "" && '/' !in a && '/' !in b && path == a + "/" + b + "/" + id
  {
    var parts := SplitN(path, '/', 3);
    SplitNJoin(path, '/', 3);
    a, b := parts[0], parts[1];
    assert Join(parts, "/") == a + "/" + (b + "/" + parts[2]);
  }

  /** Every such path is accepted, with its id; the id itself may hold slashes. */
  lemma {:induction false} PostIdFromPathComplete(a: string, b: string, id: string)
    requires '/' !in a && '/' !in b && id != ""
    ensures PostIdFromPath(a + "/" + b + "/" + id) == Some(id)
  {
    var path := a + "/" + b + "/" + id;
    var rest := b + "/" + id;
    assert path == a + ['/'] + rest;
    assert rest == b + ['/'] + id;
    SplitNSegments(a, rest, '/', 3);
    SplitNSegments(b, id, '/', 2);
    assert SplitN(path, '/', 3) == [a, b, id];
  }

  /** What a `/notes/<id>` request shows. */
  datatype Page = BadRequest | DbNotInitialized | NotFound | Show(entity: int)

  /** `GetPost`: the path check comes first, then the store must know `:note/id`, then the
      first datom of the scan for the id names the note shown. */
  function GetPost(path: string, idAttr: Option<int>, lookup: string -> seq<Datom>): (p: Page)
    ensures p == BadRequest <==> PostIdFromPath(path).None?
    ensures p == DbNotInitialized <==> PostIdFromPath(path).Some? && idAttr.None?
    ensures PostIdFromPath(path).Some? && idAttr.Some? ==>
              (p == NotFound <==> lookup(PostIdFromPath(path).value) == [])
    ensures p.Show? ==> lookup(PostIdFromPath(path).value) != []
                        && p.entity == lookup(PostIdFromPath(path).value)[0].e
  {
    match PostIdFromPath(path)
    case None => BadRequest
    case Some(noteId) =>
      if idAttr.None? then DbNotInitialized
      else
        var scan := lookup(noteId);
        if scan == [] then NotFound else Show(scan[0].e)
  }
}
