/** The domain view over store entities (post.go): typed accessors for notes and tags, and
    the hand-written JSON rendering of a note. */
module PostView {
  import opened Wrappers
  import opened Facts
  import opened Text
  import Quoting

  /** An attribute value as the store's entity lookup returns it: a scalar, a URI, or the
      referenced entities of a many-valued reference attribute. */
  datatype Field = Scalar(v: Value) | Uri(u: string) | Refs(es: seq<Entity>)

  /** `database.Entity`: the attribute values of one entity. */
  datatype Entity = Entity(attrs: map<Keyword, Field>)

  predicate HasString(e: Entity, k: Keyword)
  {
    k in e.attrs && e.attrs[k].Scalar? && e.attrs[k].v.Str?
  }

  predicate HasInstant(e: Entity, k: Keyword)
  {
    k in e.attrs && e.attrs[k].Scalar? && e.attrs[k].v.Instant?
  }

  /** `Tag`: a view of a tag entity. */
  datatype Tag = Tag(entity: Entity)
  {
    /** `Name()` asserts that `:tag/name` holds a string (the Go type assertion panics otherwise). */
    predicate HasName()
    {
      HasString(entity, TagNameAttr)
    }

    /** The string held by `:tag/name`. */
    function Name(): string
      requires HasName()
    {
      entity.attrs[TagNameAttr].v.s
    }

    /** `String()`, used by `%q` when a tag is printed. */
    function String(): (s: string)
      requires HasName()
      ensures s == Name()
    {
      Name()
    }
  }

  /** The names of a list of tags, in order. */
  function Names(tags: seq<Tag>): (names: seq<string>)
    requires forall i :: 0 <= i < |tags| ==> tags[i].HasName()
    ensures |names| == |tags| && forall i :: 0 <= i < |tags| ==> names[i] == tags[i].Name()
  {
    if tags == [] then [] else Names(tags[..|tags| - 1]) + [tags[|tags| - 1].Name()]
  }

  /** What the note's JSON form is read back as. */
  datatype PostJson = PostJson(id: string, title: string, content: string, date: string,
                               url: Option<string>, tags: Option<seq<string>>)

  /** `Post`: a view of a note entity. Each accessor demands the shape its Go type assertion
      demands; a missing or differently typed mandatory attribute panics in the source. */
  datatype Post = Post(entity: Entity)
  {
    predicate UrlShape()
    {
      NoteUrlAttr in entity.attrs ==> entity.attrs[NoteUrlAttr].Uri?
    }

    /** `:note/tags`, when present, is a list of references. An absent many-valued attribute
        is taken to read as the empty list. */
    predicate TagsShape()
    {
      NoteTagsAttr in entity.attrs ==> entity.attrs[NoteTagsAttr].Refs?
    }

    /** Every attribute the JSON rendering reads has the shape its accessor demands. */
    predicate IsNote()
    {
      && HasString(entity, NoteIdAttr) && HasString(entity, NoteTitleAttr)
      && HasString(entity, NoteContentAttr) && HasInstant(entity, NoteDateAttr)
      && UrlShape() && TagsShape()
      && forall i :: 0 <= i < |RawTags()| ==> Tag(RawTags()[i]).HasName()
    }

    /** `Id()`, `Title()`, `Content()` and `Date()`: the value the attribute holds. */
    function Id(): (s: string)
      requires HasString(entity, NoteIdAttr)
      ensures entity.attrs[NoteIdAttr] == Scalar(Str(s))
    {
      entity.attrs[NoteIdAttr].v.s
    }

    function Title(): (s: string)
      requires HasString(entity, NoteTitleAttr)
      ensures entity.attrs[NoteTitleAttr] == Scalar(Str(s))
    {
      entity.attrs[NoteTitleAttr].v.s
    }

    function Content(): (s: string)
      requires HasString(entity, NoteContentAttr)
      ensures entity.attrs[NoteContentAttr] == Scalar(Str(s))
    {
      entity.attrs[NoteContentAttr].v.s
    }

    function Date(): (t: Time)
      requires HasInstant(entity, NoteDateAttr)
      ensures entity.attrs[NoteDateAttr] == Scalar(Instant(t))
    {
      entity.attrs[NoteDateAttr].v.t
    }

    /** `URL()`: nil exactly when the note has no `:note/url`. */
    function URL(): (u: Option<string>)
      requires UrlShape()
      ensures u.None? <==> NoteUrlAttr !in entity.attrs
      ensures u.Some? ==> entity.attrs[NoteUrlAttr] == Uri(u.value)
    {
      if NoteUrlAttr in entity.attrs then Some(entity.attrs[NoteUrlAttr].u) else None
    }

    /** The raw `:note/tags` references. */
    function RawTags(): seq<Entity>
      requires TagsShape()
    {
      if NoteTagsAttr in entity.attrs then entity.attrs[NoteTagsAttr].es else []
    }

    /** What `Tags()` returns: nil for an empty reference list, otherwise one tag view per
        reference, in the same order. */
    function TagList(): (tags: Option<seq<Tag>>)
      requires TagsShape()
      ensures tags.None? <==> RawTags() == []
      ensures tags.Some? ==> |tags.value| == |RawTags()|
      ensures tags.Some? ==> forall i :: 0 <= i < |RawTags()| ==> tags.value[i] == Tag(RawTags()[i])
    {
      var raw := RawTags();
      if |raw| == 0 then None else Some(seq(|raw|, i requires 0 <= i < |raw| => Tag(raw[i])))
    }

    /** `Tags()`: allocates a slice as long as the reference list and fills it by index. */
    method Tags() returns (tags: Option<seq<Tag>>)
      requires TagsShape()
      ensures tags == TagList()
    {
      var raw := RawTags();
      if |raw| == 0 {
        return None;
      }
      var a := new Tag[|raw|];
      for i := 0 to |raw|
        invariant forall j :: 0 <= j < i ==> a[j] == Tag(raw[j])
      {
        a[i] := Tag(raw[i]);
      }
      assert a[..] == TagList().value;
      tags := Some(a[..]);
    }

    /** The text `MarshalJSON` produces, given how dates are formatted as RFC 3339. */
    function JsonText(formatDate: Time -> string): string
      requires IsNote()
    {
      JsonLayout(JsonHead(formatDate), JsonUrl(), JsonTags())
    }

    /** The four mandatory members, in the order id, title, content, date. */
    function JsonHead(formatDate: Time -> string): string
      requires IsNote()
    {
      "{\"id\": " + Quoting.Quote(Id())
        + ", \"title\": " + Quoting.Quote(Title())
        + ", \"content\": " + Quoting.Quote(Content())
        + ", \"date\": \"" + formatDate(Date()) + "\""
    }

    /** The optional url member, present exactly when the note has a url. */
    function JsonUrl(): string
      requires IsNote()
    {
      if URL().Some? then " ,\"url\": " + Quoting.Quote(URL().value) else ""
    }

    /** The optional tags member, present exactly when the note has tags. */
    function JsonTags(): string
      requires IsNote()
    {
      if TagList().Some?
      then " ,\"tags\": [" + Join(Quoting.QuoteAll(Names(TagList().value)), ", ") + "]"
      else ""
    }

    /** `MarshalJSON`: writes the note into a buffer piece by piece, the tags with a `first`
        flag that puts ", " between neighbours. */
    method MarshalJSON(formatDate: Time -> string) returns (out: string)
      requires IsNote()
      ensures out == JsonText(formatDate)
    {
      var buf := "{";
      buf := buf + ("\"id\": " + Quoting.Quote(Id()) + ", ");
      buf := buf + ("\"title\": " + Quoting.Quote(Title()) + ", ");
      buf := buf + ("\"content\": " + Quoting.Quote(Content()) + ", ");
      buf := buf + ("\"date\": \"" + formatDate(Date()) + "\"");
      HeadPieces(Quoting.Quote(Id()), Quoting.Quote(Title()), Quoting.Quote(Content()),
                 formatDate(Date()));
      var u := URL();
      if u.Some? {
        buf := buf + (" ,\"url\": " + Quoting.Quote(u.value));
      }
      assert buf == JsonHead(formatDate) + JsonUrl();
      ghost var before := buf;
      var tags := Tags();
      if tags.Some? {
        var ts := tags.value;
        assert forall j :: 0 <= j < |ts| ==> ts[j].HasName();
        buf := buf + " ,\"tags\": [";
        buf := WriteTagList(buf, ts);
        buf := buf + "]";
        Regroup(before, " ,\"tags\": [", Join(Quoting.QuoteAll(Names(ts)), ", "), "]");
      }
      assert buf == before + JsonTags();
      buf := buf + "}";
      out := buf;
    }
  }

  /** The members in the order written, and the closing brace. */
  function JsonLayout(head: string, url: string, tags: string): string
  {
    head + url + tags + "}"
  }

  lemma {:induction false} JsonLayoutParts(head: string, url: string, tags: string)
    ensures JsonLayout(head, url, tags) == head + (url + (tags + "}"))
  {
    Regroup(head, url, tags, "}");
  }

  /** The loop of `MarshalJSON` over the tags: each tag quoted, ", " between neighbours. */
  method WriteTagList(buf: string, ts: seq<Tag>) returns (out: string)
    requires forall j :: 0 <= j < |ts| ==> ts[j].HasName()
    ensures out == buf + Join(Quoting.QuoteAll(Names(ts)), ", ")
  {
    out := buf;
    var first := true;
    for i := 0 to |ts|
      invariant first <==> i == 0
      invariant out == buf + Join(Quoting.QuoteAll(Names(ts[..i])), ", ")
    {
      TagListStep(buf, ts, i, out);
      if !first {
        out := out + ", ";
      }
      first := false;
      out := out + Quoting.Quote(ts[i].String());
    }
    assert ts[..|ts|] == ts;
  }

  /** One more tag written after the first `i`: a separator unless it is the first, then the
      quoted name. */
  lemma {:induction false} TagListStep(buf: string, ts: seq<Tag>, i: nat, out: string)
    requires i < |ts| && forall j :: 0 <= j < |ts| ==> ts[j].HasName()
    requires out == buf + Join(Quoting.QuoteAll(Names(ts[..i])), ", ")
    ensures (if i == 0 then out else out + ", ") + Quoting.Quote(ts[i].Name())
            == buf + Join(Quoting.QuoteAll(Names(ts[..i + 1])), ", ")
  {
    var names := Names(ts[..i]);
    assert names == [] <==> i == 0 by {
      assert |names| == i;
    }
    NamesSnoc(ts, i);
    QuotedSnoc(buf, names, ts[i].Name(), out);
  }

  /** One more name quoted after a joined list of quoted names. */
  lemma {:induction false} QuotedSnoc(buf: string, names: seq<string>, x: string, out: string)
    requires out == buf + Join(Quoting.QuoteAll(names), ", ")
    ensures (if names == [] then out else out + ", ") + Quoting.Quote(x)
            == buf + Join(Quoting.QuoteAll(names + [x]), ", ")
  {
    var done := Quoting.QuoteAll(names);
    var q := Quoting.Quote(x);
    Quoting.QuoteAllSnoc(names, x);
    JoinSnoc(done, q, ", ");
    if names != [] {
      Regroup(buf, Join(done, ", "), ", ", q);
    }
  }

  /** The names of one more tag. */
  lemma {:induction false} NamesSnoc(ts: seq<Tag>, i: nat)
    requires i < |ts| && forall j :: 0 <= j < |ts| ==> ts[j].HasName()
    ensures Names(ts[..i + 1]) == Names(ts[..i]) + [ts[i].Name()]
  {
    assert ts[..i + 1][..i] == ts[..i];
  }

  /** The four writes of the mandatory members give the head text. */
  lemma {:induction false} HeadPieces(id: string, title: string, content: string, date: string)
    ensures "{" + ("\"id\": " + id + ", ") + ("\"title\": " + title + ", ")
              + ("\"content\": " + content + ", ") + ("\"date\": \"" + date + "\"")
         == "{\"id\": " + id + ", \"title\": " + title + ", \"content\": " + content
              + ", \"date\": \"" + date + "\""
  {
    LiteralJoins();
  }

  /** The literals of neighbouring writes, joined. */
  lemma {:induction false} LiteralJoins()
    ensures "{" + "\"id\": " == "{\"id\": "
    ensures ", " + "\"title\": " == ", \"title\": "
    ensures ", " + "\"content\": " == ", \"content\": "
    ensures ", " + "\"date\": \"" == ", \"date\": \""
  {
    assert "{" + "\"id\": " == "{\"id\": ";
    assert ", " + "\"title\": " == ", \"title\": ";
    assert ", " + "\"content\": " == ", \"content\": ";
    assert ", " + "\"date\": \"" == ", \"date\": \"";
  }

  lemma {:induction false} Regroup(a: string, b: string, c: string, d: string)
    ensures a + b + c + d == a + (b + c + d)
  {
  }

  /** Reading the JSON form back. */

  /** Reads `lit` off the front of `s`. */
  function Expect(lit: string, s: string): (r: Option<string>)
    ensures r.Some? <==> StartsWith(s, lit)
    ensures r.Some? ==> s == lit + r.value
  {
    if StartsWith(s, lit) then Some(s[|lit|..]) else None
  }

  lemma {:induction false} ExpectLiteral(lit: string, rest: string)
    ensures Expect(lit, lit + rest) == Some(rest)
  {
    assert (lit + rest)[..|lit|] == lit;
    assert (lit + rest)[|lit|..] == rest;
  }

  /** Reads raw text up to the next double quote, and drops the quote. */
  function ReadRaw(s: string): (r: Option<(string, string)>)
    ensures r.Some? ==> s == r.value.0 + "\"" + r.value.1 && '"' !in r.value.0
  {
    var i := IndexOfChar(s, '"');
    if i < 0 then None
    else
      assert s == s[..i] + "\"" + s[i + 1..];
      Some((s[..i], s[i + 1..]))
  }

  lemma {:induction false} ReadRawText(d: string, rest: string)
    requires '"' !in d
    ensures ReadRaw(d + "\"" + rest) == Some((d, rest))
  {
    var s := d + "\"" + rest;
    var i := IndexOfChar(s, '"');
    assert s[|d|] == '"';
    assert s[..|d|] == d;
    assert s[|d| + 1..] == rest;
  }

  /** Reads a ", "-separated list of quoted strings, closed by "]". */
  function ReadList(s: string): Option<(seq<string>, string)>
    decreases |s|
  {
    match Quoting.Unquote(s)
    case None => None
    case Some(r) =>
      if StartsWith(r.1, "]") then Some(([r.0], r.1[1..]))
      else if StartsWith(r.1, ", ") then
        match ReadList(r.1[2..])
        case None => None
        case Some(more) => Some(([r.0] + more.0, more.1))
      else None
  }

  /** A single quoted string closed by the bracket is read as a one-element list. */
  lemma {:induction false} ReadListLast(x: string, rest: string)
    ensures ReadList(Quoting.Quote(x) + "]" + rest) == Some(([x], rest))
  {
    Quoting.UnquoteQuote(x, "]" + rest);
    assert Quoting.Quote(x) + "]" + rest == Quoting.Quote(x) + ("]" + rest);
    assert ("]" + rest)[..1] == "]" && ("]" + rest)[1..] == rest;
  }

  /** A quoted string and a separator in front of a list add the string to the list. */
  lemma {:induction false} ReadListMore(x: string, tail: string, xs: seq<string>, rest: string)
    requires ReadList(tail) == Some((xs, rest))
    ensures ReadList(Quoting.Quote(x) + ", " + tail) == Some(([x] + xs, rest))
  {
    Quoting.UnquoteQuote(x, ", " + tail);
    assert Quoting.Quote(x) + ", " + tail == Quoting.Quote(x) + (", " + tail);
    assert (", " + tail)[..2] == ", " && (", " + tail)[0] == ',' && (", " + tail)[2..] == tail;
  }

  lemma {:induction false} ReadListJoin(names: seq<string>, rest: string)
    requires names != []
    ensures ReadList(Join(Quoting.QuoteAll(names), ", ") + "]" + rest) == Some((names, rest))
    decreases |names|
  {
    var qs := Quoting.QuoteAll(names);
    if |names| == 1 {
      ReadListLast(names[0], rest);
      assert [names[0]] == names;
    } else {
      var tail := Join(Quoting.QuoteAll(names[1..]), ", ") + "]" + rest;
      assert qs[1..] == Quoting.QuoteAll(names[1..]);
      assert Join(qs, ", ") + "]" + rest == Quoting.Quote(names[0]) + ", " + tail;
      ReadListJoin(names[1..], rest);
      ReadListMore(names[0], tail, names[1..], rest);
      assert [names[0]] + names[1..] == names;
    }
  }

  const UrlKey := " ,\"url\": "
  const TagsKey := " ,\"tags\": ["

  /** Reads the optional url member. */
  function ReadUrl(s: string): Option<(Option<string>, string)>
  {
    if StartsWith(s, UrlKey) then
      match Quoting.Unquote(s[|UrlKey|..])
      case None => None
      case Some(r) => Some((Some(r.0), r.1))
    else Some((None, s))
  }

  /** Reads the optional tags member. */
  function ReadTags(s: string): Option<(Option<seq<string>>, string)>
  {
    if StartsWith(s, TagsKey) then
      match ReadList(s[|TagsKey|..])
      case None => None
      case Some(r) => Some((Some(r.0), r.1))
    else Some((None, s))
  }

  /** Reads the four mandatory members: id, title and content quoted, the date as raw text. */
  function ReadHead(s: string): Option<(string, string, string, string, string)>
  {
    match Expect("{\"id\": ", s)
    case None => None
    case Some(s1) =>
      match Quoting.Unquote(s1)
      case None => None
      case Some(id) =>
        match Expect(", \"title\": ", id.1)
        case None => None
        case Some(s2) =>
          match Quoting.Unquote(s2)
          case None => None
          case Some(title) =>
            match Expect(", \"content\": ", title.1)
            case None => None
            case Some(s3) =>
              match Quoting.Unquote(s3)
              case None => None
              case Some(content) =>
                match Expect(", \"date\": \"", content.1)
                case None => None
                case Some(s4) =>
                  match ReadRaw(s4)
                  case None => None
                  case Some(date) => Some((id.0, title.0, content.0, date.0, date.1))
  }

  /** Reads a whole note in the JSON form `MarshalJSON` writes. */
  function ReadPostJson(s: string): Option<PostJson>
  {
    match ReadHead(s)
    case None => None
    case Some(head) =>
      match ReadUrl(head.4)
      case None => None
      case Some(url) =>
        match ReadTags(url.1)
        case None => None
        case Some(tags) =>
          if tags.1 == "}" then Some(PostJson(head.0, head.1, head.2, head.3, url.0, tags.0))
          else None
  }

  lemma {:induction false} ReadHeadText(p: Post, formatDate: Time -> string, rest: string, text: string)
    requires p.IsNote()
    requires '"' !in formatDate(p.Date())
    requires text == p.JsonHead(formatDate) + rest
    ensures ReadHead(text) == Some((p.Id(), p.Title(), p.Content(), formatDate(p.Date()), rest))
  {
    var d := formatDate(p.Date());
    var r4 := d + "\"" + rest;
    var r3 := Quoting.Quote(p.Content()) + (", \"date\": \"" + r4);
    var r2 := Quoting.Quote(p.Title()) + (", \"content\": " + r3);
    var r1 := Quoting.Quote(p.Id()) + (", \"title\": " + r2);
    HeadNesting(Quoting.Quote(p.Id()), Quoting.Quote(p.Title()), Quoting.Quote(p.Content()), d, rest);
    assert text == "{\"id\": " + r1;
    ExpectLiteral("{\"id\": ", r1);
    Quoting.UnquoteQuote(p.Id(), ", \"title\": " + r2);
    ExpectLiteral(", \"title\": ", r2);
    Quoting.UnquoteQuote(p.Title(), ", \"content\": " + r3);
    ExpectLiteral(", \"content\": ", r3);
    Quoting.UnquoteQuote(p.Content(), ", \"date\": \"" + r4);
    ExpectLiteral(", \"date\": \"", r4);
    ReadRawText(d, rest);
  }

  lemma {:induction false} HeadNesting(id: string, title: string, content: string, date: string, rest: string)
    ensures "{\"id\": " + id + ", \"title\": " + title + ", \"content\": " + content
              + ", \"date\": \"" + date + "\"" + rest
         == "{\"id\": " + (id + (", \"title\": " + (title + (", \"content\": " + (content
              + (", \"date\": \"" + (date + "\"" + rest)))))))
  {
  }

  /** What a note's JSON form reads back as: the four mandatory members, the url exactly
      when the note has one, the tag names in order exactly when the note has tags. */
  function Expected(p: Post, formatDate: Time -> string): PostJson
    requires p.IsNote()
  {
    PostJson(p.Id(), p.Title(), p.Content(), formatDate(p.Date()), p.URL(),
             if p.TagList().Some? then Some(Names(p.TagList().value)) else None)
  }

  /** The JSON form is unambiguous: reading it back gives every member, in the order written,
      provided the formatted date holds no double quote (RFC 3339 text never does). */
  lemma {:induction false} ReadMarshalled(p: Post, formatDate: Time -> string)
    requires p.IsNote()
    requires '"' !in formatDate(p.Date())
    ensures ReadPostJson(p.JsonText(formatDate)) == Some(Expected(p, formatDate))
  {
    ReadHeadOfText(p, formatDate);
    ReadUrlBeforeTags(p);
    ReadTagsText(p);
    ReadAll(p.JsonText(formatDate), p.JsonUrl() + (p.JsonTags() + "}"), Expected(p, formatDate));
  }

  /** The whole text starts with the head, which reads back as the four mandatory members. */
  lemma {:induction false} ReadHeadOfText(p: Post, formatDate: Time -> string)
    requires p.IsNote()
    requires '"' !in formatDate(p.Date())
    ensures ReadHead(p.JsonText(formatDate))
         == Some((p.Id(), p.Title(), p.Content(), formatDate(p.Date()), p.JsonUrl() + (p.JsonTags() + "}")))
  {
    JsonLayoutParts(p.JsonHead(formatDate), p.JsonUrl(), p.JsonTags());
    ReadHeadText(p, formatDate, p.JsonUrl() + (p.JsonTags() + "}"), p.JsonText(formatDate));
  }

  /** Reading succeeds once each of its three parts does. */
  lemma {:induction false} ReadAll(text: string, rest: string, e: PostJson)
    requires ReadHead(text) == Some((e.id, e.title, e.content, e.date, rest))
    requires ReadUrl(rest).Some? && ReadUrl(rest).value.0 == e.url
    requires ReadTags(ReadUrl(rest).value.1) == Some((e.tags, "}"))
    ensures ReadPostJson(text) == Some(e)
  {
  }

  lemma {:induction false} ReadUrlBeforeTags(p: Post)
    requires p.IsNote()
    ensures ReadUrl(p.JsonUrl() + (p.JsonTags() + "}")) == Some((p.URL(), p.JsonTags() + "}"))
  {
    TagsTextNotUrl(p);
    ReadUrlText(p, p.JsonTags() + "}");
  }

  /** The text after the url member never starts with the url key. */
  lemma {:induction false} TagsTextNotUrl(p: Post)
    requires p.IsNote()
    ensures !StartsWith(p.JsonTags() + "}", UrlKey)
  {
    if p.TagList().Some? {
      var listing := Join(Quoting.QuoteAll(Names(p.TagList().value)), ", ");
      TagsTextLayout(p.JsonTags(), listing, "}");
      TagsAreNotUrl(listing + "]" + "}");
    } else {
      assert p.JsonTags() + "}" == "}";
    }
  }

  lemma {:induction false} ReadUrlText(p: Post, rest: string)
    requires p.IsNote()
    requires !StartsWith(rest, UrlKey)
    ensures ReadUrl(p.JsonUrl() + rest) == Some((p.URL(), rest))
  {
    if p.URL().Some? {
      ReadUrlMember(p.URL().value, rest);
      UrlTextLayout(p.JsonUrl(), p.URL().value, rest);
    } else {
      assert p.JsonUrl() + rest == rest;
    }
  }

  lemma {:induction false} UrlTextLayout(text: string, u: string, rest: string)
    requires text == UrlKey + Quoting.Quote(u)
    ensures text + rest == UrlKey + (Quoting.Quote(u) + rest)
  {
  }

  /** A url member is read back with the url it holds. */
  lemma {:induction false} ReadUrlMember(u: string, rest: string)
    ensures ReadUrl(UrlKey + (Quoting.Quote(u) + rest)) == Some((Some(u), rest))
  {
    var tail := Quoting.Quote(u) + rest;
    ExpectLiteral(UrlKey, tail);
    assert (UrlKey + tail)[|UrlKey|..] == tail;
    Quoting.UnquoteQuote(u, rest);
  }

  lemma {:induction false} ReadTagsText(p: Post)
    requires p.IsNote()
    ensures ReadTags(p.JsonTags() + "}")
         == Some((if p.TagList().Some? then Some(Names(p.TagList().value)) else None, "}"))
  {
    if p.TagList().Some? {
      var names := Names(p.TagList().value);
      ReadTagsMember(names, "}");
      TagsTextLayout(p.JsonTags(), Join(Quoting.QuoteAll(names), ", "), "}");
    } else {
      assert p.JsonTags() + "}" == "}";
    }
  }

  lemma {:induction false} TagsTextLayout(text: string, listing: string, rest: string)
    requires text == TagsKey + listing + "]"
    ensures text + rest == TagsKey + (listing + "]" + rest)
  {
  }

  /** A tags member is read back with its names, in order. */
  lemma {:induction false} ReadTagsMember(names: seq<string>, rest: string)
    requires names != []
    ensures ReadTags(TagsKey + (Join(Quoting.QuoteAll(names), ", ") + "]" + rest)) == Some((Some(names), rest))
  {
    var listing := Join(Quoting.QuoteAll(names), ", ") + "]" + rest;
    ExpectLiteral(TagsKey, listing);
    assert (TagsKey + listing)[|TagsKey|..] == listing;
    ReadListJoin(names, rest);
  }

  lemma {:induction false} TagsAreNotUrl(listing: string)
    ensures !StartsWith(TagsKey + listing, UrlKey)
  {
    var s := TagsKey + listing;
    assert s[3] == 't';
    assert UrlKey[3] == 'u';
  }
}
