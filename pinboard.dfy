/** The Pinboard import (pinboard.go): one entity map per bookmark, tag names shared through
    a memo of placeholders, and one naming fact per distinct tag name at the end. */
module Pinboard {
  import opened Wrappers
  import opened Seqs
  import opened Text
  import opened Facts
  import Hex
  import Placeholders

  /** A decoded `<post>` element. The tags attribute is taken as the decoded string. */
  datatype PinboardPost = PinboardPost(title: string, content: string, date: Time,
                                       url: Option<string>, tags: string)

  /** The memo's counter starts here; it is decremented before each new name is stored. */
  const TagIdStart := -1_000_000

  /** The tag tokens of a bookmark: its tags split on single spaces, empty tokens kept. */
  function Tokens(p: PinboardPost): seq<string>
  {
    Split(p.tags, ' ')
  }

  /** All tag tokens of the bookmarks, in the order the import meets them. */
  function AllTokens(posts: seq<PinboardPost>): seq<string>
  {
    if posts == [] then [] else AllTokens(posts[..|posts| - 1]) + Tokens(posts[|posts| - 1])
  }

  /** The distinct names among `tags`, in order of first appearance. */
  function Seen(tags: seq<string>): seq<string>
  {
    if tags == [] then []
    else
      var s := Seen(tags[..|tags| - 1]);
      var t := tags[|tags| - 1];
      if t in s then s else s + [t]
  }

  /** Each name of the tokens is listed exactly once. */
  lemma {:induction false} SeenNames(tags: seq<string>)
    ensures Distinct(Seen(tags))
    ensures forall t :: t in Seen(tags) <==> t in tags
  {
    if tags != [] {
      var init := tags[..|tags| - 1];
      SeenNames(init);
      assert tags == init + [tags[|tags| - 1]];
    }
  }

  /** The first position of `t` in `xs`. */
  function Position(xs: seq<string>, t: string): (i: nat)
    requires t in xs
    ensures i < |xs| && xs[i] == t
    ensures forall j :: 0 <= j < i ==> xs[j] != t
  {
    if xs[0] == t then 0 else 1 + Position(xs[1..], t)
  }

  /** The placeholder of a name: the k-th distinct name gets -1,000,001 - k. */
  function TagPlaceholder(names: seq<string>, t: string): int
    requires t in names
  {
    TagIdStart - 1 - Position(names, t)
  }

  /** Every token of the bookmark is one of the names. */
  predicate TokensNamed(names: seq<string>, p: PinboardPost)
  {
    forall j :: 0 <= j < |Tokens(p)| ==> Tokens(p)[j] in names
  }

  /** The `:note/tags` values of a bookmark: one reference per token, in token order. */
  function TagRefs(names: seq<string>, tokens: seq<string>): (refs: seq<Value>)
    requires forall j :: 0 <= j < |tokens| ==> tokens[j] in names
    ensures |refs| == |tokens|
    ensures forall j :: 0 <= j < |tokens| ==> refs[j] == Ref(TagPlaceholder(names, tokens[j]))
  {
    if tokens == [] then []
    else TagRefs(names, tokens[..|tokens| - 1]) + [Ref(TagPlaceholder(names, tokens[|tokens| - 1]))]
  }

  /** A bookmark's entity map: the four note attributes and its tag references. The url is
      decoded but not transacted. */
  function PostMap(id: int, noteId: string, p: PinboardPost, refs: seq<Value>): TxDatum
  {
    TxMap(id, NoteMap(id, noteId, p.title, p.content, p.date).attrs[NoteTagsAttr := refs])
  }

  /** The maps built for the first `|maps|` bookmarks, as the batch has them. */
  ghost predicate MapsBuilt(posts: seq<PinboardPost>, draw: nat -> Hex.IdBytes, names: seq<string>,
                            maps: seq<TxDatum>)
  {
    && |maps| <= |posts|
    && forall i :: 0 <= i < |maps| ==>
         && TokensNamed(names, posts[i])
         && maps[i] == PostMap(-1 - i, Hex.GenerateId(draw(i)), posts[i],
                               TagRefs(names, Tokens(posts[i])))
  }

  /** The naming facts of a batch: each a `:tag/name` fact on its name's placeholder, no
      name twice. */
  ghost predicate NamingFacts(names: seq<string>, facts: seq<TxDatum>)
  {
    && (forall k :: 0 <= k < |facts| ==>
          && facts[k].Datum? && facts[k].op == Assert && facts[k].a == TagNameAttr && facts[k].v.Str?
          && facts[k].v.s in names && facts[k].e == TagPlaceholder(names, facts[k].v.s))
    && (forall k, l :: 0 <= k < l < |facts| ==> facts[k].v != facts[l].v)
  }

  /** What the import hands to the store: the bookmarks' maps on -1, -2, ... in input order,
      then one `:tag/name` fact per distinct name on that name's placeholder, each name
      once, in an order left open (Go's map iteration order). */
  ghost predicate PinboardBatch(posts: seq<PinboardPost>, draw: nat -> Hex.IdBytes, r: seq<TxDatum>)
  {
    var names := Seen(AllTokens(posts));
    && |r| == |posts| + |names|
    && MapsBuilt(posts, draw, names, r[..|posts|])
    && NamingFacts(names, r[|posts|..])
  }

  /** The memo's map holds exactly the names of `order`, the k-th of them on -1,000,001 - k. */
  ghost predicate MemoState(order: seq<string>, tagIds: map<string, int>)
  {
    && Distinct(order)
    && (forall t :: t in tagIds <==> t in order)
    && (forall k :: 0 <= k < |order| ==> tagIds[order[k]] == TagIdStart - 1 - k)
  }

  /** The `tagIds` map and `tagId` counter captured by `nextTagId`. The ghost `order`
      lists the names in the order they were first asked for. */
  class TagIdMemo {
    var tagIds: map<string, int>
    var tagId: int
    ghost var order: seq<string>

    ghost predicate Valid()
      reads this
    {
      MemoState(order, tagIds) && tagId == TagIdStart - |order|
    }

    constructor ()
      ensures Valid() && order == [] && tagIds == map[] && tagId == TagIdStart
    {
      tagIds := map[];
      tagId := TagIdStart;
      order := [];
    }

    /** `nextTagId`: a name already seen gets its stored id and nothing changes; a new name
        gets the counter minus one, which is stored. */
    method NextTagId(tag: string) returns (id: int)
      requires Valid()
      modifies this
      ensures Valid() && tag in tagIds && id == tagIds[tag]
      ensures forall t :: t in old(tagIds) ==> t in tagIds && tagIds[t] == old(tagIds)[t]
      ensures old(tag in tagIds) ==>
        id == old(tagIds[tag]) && tagIds == old(tagIds) && tagId == old(tagId) && order == old(order)
      ensures old(tag !in tagIds) ==>
        && id == old(tagId) - 1 && tagId == id
        && tagIds == old(tagIds)[tag := id] && order == old(order) + [tag]
    {
      if tag in tagIds {
        return tagIds[tag];
      }
      tagId := tagId - 1;
      tagIds := tagIds[tag := tagId];
      order := order + [tag];
      id := tagId;
    }
  }

  /** One more token adds its name at the end, unless the name was already met. */
  lemma {:induction false} SeenSnoc(xs: seq<string>, t: string)
    ensures Seen(xs + [t]) == if t in Seen(xs) then Seen(xs) else Seen(xs) + [t]
  {
    assert (xs + [t])[..|xs|] == xs;
  }

  /** The memo's names after one more lookup: unchanged for a name already held, one longer
      for a new one; either way the names first met, in order. */
  lemma {:induction false} SeenStep(met: seq<string>, t: string, ids: map<string, int>,
                                    order: seq<string>, order': seq<string>)
    requires MemoState(order, ids) && order == Seen(met)
    requires t in ids ==> order' == order
    requires t !in ids ==> order' == order + [t]
    ensures order' == Seen(met + [t])
  {
    SeenSnoc(met, t);
  }

  /** `a` is a prefix of `b`. */
  predicate IsPrefix(a: seq<string>, b: seq<string>)
  {
    |a| <= |b| && b[..|a|] == a
  }

  lemma {:induction false} PrefixTransitive(a: seq<string>, b: seq<string>, c: seq<string>)
    requires IsPrefix(a, b) && IsPrefix(b, c)
    ensures IsPrefix(a, c)
  {
    assert c[..|a|] == c[..|b|][..|a|];
  }

  /** The names first met up to some point are a prefix of those first met overall. */
  lemma {:induction false} SeenPrefix(xs: seq<string>, ys: seq<string>)
    ensures IsPrefix(Seen(xs), Seen(xs + ys))
    decreases |ys|
  {
    if ys == [] {
      assert xs + ys == xs;
    } else {
      var init := ys[..|ys| - 1];
      SeenPrefix(xs, init);
      assert (xs + ys)[..|xs + ys| - 1] == xs + init;
    }
  }

  /** In a list without repetitions the first position of an element is its position. */
  lemma {:induction false} PositionDistinct(xs: seq<string>, k: nat)
    requires Distinct(xs) && k < |xs|
    ensures Position(xs, xs[k]) == k
  {
  }

  /** While the memo's names are a prefix of all names, its ids are the placeholders. */
  lemma {:induction false} MemoAgrees(order: seq<string>, tagIds: map<string, int>, names: seq<string>, t: string)
    requires MemoState(order, tagIds) && Distinct(names)
    requires IsPrefix(order, names)
    requires t in order
    ensures t in names && tagIds[t] == TagPlaceholder(names, t)
  {
    var k := Position(order, t);
    assert names[k] == order[k];
    PositionDistinct(names, k);
  }

  /** Every token of a bookmark is among the tokens of the whole import. */
  lemma {:induction false} TokensInAll(posts: seq<PinboardPost>, i: nat)
    requires i < |posts|
    ensures forall t :: t in Tokens(posts[i]) ==> t in AllTokens(posts)
  {
    var init := posts[..|posts| - 1];
    if i < |posts| - 1 {
      TokensInAll(init, i);
      assert init[i] == posts[i];
    }
  }

  /** The tokens of two runs of bookmarks are the tokens of each. */
  lemma {:induction false} AllTokensAppend(xs: seq<PinboardPost>, ys: seq<PinboardPost>)
    ensures AllTokens(xs + ys) == AllTokens(xs) + AllTokens(ys)
    decreases |ys|
  {
    if ys == [] {
      assert xs + ys == xs;
    } else {
      var init := ys[..|ys| - 1];
      var last := ys[|ys| - 1];
      AllTokensAppend(xs, init);
      var both := xs + ys;
      assert both[..|both| - 1] == xs + init;
      assert both[|both| - 1] == last;
      calc {
        AllTokens(both);
        AllTokens(xs + init) + Tokens(last);
        AllTokens(xs) + AllTokens(init) + Tokens(last);
        AllTokens(xs) + (AllTokens(init) + Tokens(last));
      }
    }
  }

  lemma {:induction false} TakeSnoc(before: seq<string>, tags: seq<string>, j: nat)
    requires j < |tags|
    ensures before + tags[..j + 1] == (before + tags[..j]) + [tags[j]]
  {
    assert tags[..j + 1] == tags[..j] + [tags[j]];
  }

  /** The values filled in so far: each the memo's id of its token. */
  ghost predicate LookedUp(tags: seq<string>, vals: seq<Value>, ids: map<string, int>)
  {
    |vals| <= |tags| && forall j :: 0 <= j < |vals| ==> tags[j] in ids && vals[j] == Ref(ids[tags[j]])
  }

  /** A memo that only adds names keeps the ids of the earlier tokens. */
  lemma {:induction false} LookedUpStep(tags: seq<string>, vals: seq<Value>, ids: map<string, int>,
                     ids': map<string, int>)
    requires LookedUp(tags, vals, ids) && |vals| < |tags|
    requires forall t :: t in ids ==> t in ids' && ids'[t] == ids[t]
    requires tags[|vals|] in ids'
    ensures LookedUp(tags, vals + [Ref(ids'[tags[|vals|]])], ids')
  {
  }

  /** Once the memo has met a bookmark's tokens and its names start the import's names, the
      ids it handed out are the placeholders of those names. */
  lemma {:induction false} LookedUpPlaceholders(order: seq<string>, ids: map<string, int>, names: seq<string>,
                             tags: seq<string>, vals: seq<Value>, before: seq<string>)
    requires MemoState(order, ids) && order == Seen(before + tags)
    requires LookedUp(tags, vals, ids) && |vals| == |tags|
    requires Distinct(names) && IsPrefix(order, names)
    ensures forall j :: 0 <= j < |tags| ==> tags[j] in names
    ensures vals == TagRefs(names, tags)
  {
    SeenNames(before + tags);
    forall j | 0 <= j < |tags|
      ensures tags[j] in names && vals[j] == Ref(TagPlaceholder(names, tags[j]))
    {
      assert tags[j] in before + tags;
      MemoAgrees(order, ids, names, tags[j]);
    }
  }

  /** `make([]interface{}, n)`: a slice of `n` entries not yet filled in (each one is
      overwritten before it is read). */
  function Unfilled(n: nat): (r: seq<Value>)
    ensures |r| == n
  {
    if n == 0 then [] else Unfilled(n - 1) + [Ref(0)]
  }

  /** The loop of the import over one bookmark's tokens: a slice as long as the tokens,
      filled by index with the id `nextTagId` gives each token. `before` are the tokens
      met earlier. */
  method TagValues(memo: TagIdMemo, tags: seq<string>, ghost before: seq<string>)
    returns (values: seq<Value>)
    requires memo.Valid() && memo.order == Seen(before)
    modifies memo
    ensures memo.Valid() && memo.order == Seen(before + tags)
    ensures |values| == |tags| && LookedUp(tags, values, memo.tagIds)
  {
    var tagValues := Unfilled(|tags|);
    assert before + tags[..0] == before;
    var j := 0;
    while j < |tags|
      invariant 0 <= j <= |tags| && |tagValues| == |tags|
      invariant memo.Valid() && memo.order == Seen(before + tags[..j])
      invariant LookedUp(tags, tagValues[..j], memo.tagIds)
    {
      ghost var vals := tagValues[..j];
      var v := LookUpToken(memo, tags, j, before, vals);
      tagValues := tagValues[j := v];
      assert tagValues[..j + 1] == vals + [v];
      j := j + 1;
    }
    assert tags[..|tags|] == tags;
    values := tagValues;
    assert values == tagValues[..j];
  }

  /** The body of the loop above: `nextTagId` of the j-th token, as a reference. */
  method LookUpToken(memo: TagIdMemo, tags: seq<string>, j: nat, ghost before: seq<string>,
                     ghost vals: seq<Value>) returns (v: Value)
    requires j < |tags| && |vals| == j
    requires memo.Valid() && memo.order == Seen(before + tags[..j])
    requires LookedUp(tags, vals, memo.tagIds)
    modifies memo
    ensures memo.Valid() && memo.order == Seen(before + tags[..j + 1])
    ensures LookedUp(tags, vals + [v], memo.tagIds)
  {
    ghost var ids, order := memo.tagIds, memo.order;
    var tagId := memo.NextTagId(tags[j]);
    v := Ref(tagId);
    TagValuesStep(tags, before, j, vals, ids, order, memo.tagIds, memo.order);
  }

  /** One lookup of the loop above: the memo's names grow as the tokens met do, and the
      value filled in is the memo's id of the token. */
  lemma {:induction false} TagValuesStep(tags: seq<string>, before: seq<string>, j: nat, vals: seq<Value>,
                                         ids: map<string, int>, order: seq<string>,
                                         ids': map<string, int>, order': seq<string>)
    requires j < |tags| && |vals| == j
    requires MemoState(order, ids) && order == Seen(before + tags[..j])
    requires LookedUp(tags, vals, ids)
    requires forall t :: t in ids ==> t in ids' && ids'[t] == ids[t]
    requires tags[j] in ids'
    requires tags[j] in ids ==> order' == order
    requires tags[j] !in ids ==> order' == order + [tags[j]]
    ensures order' == Seen(before + tags[..j + 1])
    ensures LookedUp(tags, vals + [Ref(ids'[tags[j]])], ids')
  {
    LookedUpStep(tags, vals, ids, ids');
    SeenStep(before + tags[..j], tags[j], ids, order, order');
    TakeSnoc(before, tags, j);
  }

  lemma {:induction false} MapsBuiltStep(posts: seq<PinboardPost>, draw: nat -> Hex.IdBytes, names: seq<string>,
                      maps: seq<TxDatum>, id: int, noteId: string, vals: seq<Value>)
    requires MapsBuilt(posts, draw, names, maps) && |maps| < |posts|
    requires id == -1 - |maps| && noteId == Hex.GenerateId(draw(|maps|))
    requires TokensNamed(names, posts[|maps|])
    requires vals == TagRefs(names, Tokens(posts[|maps|]))
    ensures MapsBuilt(posts, draw, names, maps + [PostMap(id, noteId, posts[|maps|], vals)])
  {
    var maps' := maps + [PostMap(id, noteId, posts[|maps|], vals)];
    forall i | 0 <= i < |maps|
      ensures maps'[i] == maps[i]
    {
    }
  }

  /** The tokens met up to a bookmark are those met before it and its own. */
  lemma {:induction false} TokensSoFar(posts: seq<PinboardPost>, i: nat)
    requires i < |posts|
    ensures AllTokens(posts[..i + 1]) == AllTokens(posts[..i]) + Tokens(posts[i])
  {
    assert posts[..i + 1][..i] == posts[..i];
  }

  /** The names met in a first run of bookmarks start the names of the whole import. */
  lemma {:induction false} NamesOfFront(front: seq<PinboardPost>, back: seq<PinboardPost>)
    ensures IsPrefix(Seen(AllTokens(front)), Seen(AllTokens(front + back)))
  {
    AllTokensAppend(front, back);
    SeenPrefix(AllTokens(front), AllTokens(back));
  }

  /** The names met up to a bookmark start the names of the whole import. */
  lemma {:induction false} NamesSoFar(posts: seq<PinboardPost>, i: nat)
    requires i < |posts|
    ensures IsPrefix(Seen(AllTokens(posts[..i + 1])), Seen(AllTokens(posts)))
  {
    NamesOfFront(posts[..i + 1], posts[i + 1..]);
    assert posts[..i + 1] + posts[i + 1..] == posts;
  }

  /** One bookmark of the loop below: once the memo has looked up its tokens, the memo's
      names are those met so far, and its map extends the maps built. */
  lemma {:induction false} NoteMapsStep(posts: seq<PinboardPost>, draw: nat -> Hex.IdBytes, names: seq<string>,
                                        maps: seq<TxDatum>, id: int, noteId: string, before: seq<string>,
                                        vals: seq<Value>, order: seq<string>, ids: map<string, int>)
    requires |maps| < |posts| && MapsBuilt(posts, draw, names, maps) && names == Seen(AllTokens(posts))
    requires id == -1 - |maps| && noteId == Hex.GenerateId(draw(|maps|))
    requires before == AllTokens(posts[..|maps|])
    requires MemoState(order, ids) && order == Seen(before + Tokens(posts[|maps|]))
    requires LookedUp(Tokens(posts[|maps|]), vals, ids) && |vals| == |Tokens(posts[|maps|])|
    ensures order == Seen(AllTokens(posts[..|maps| + 1]))
    ensures MapsBuilt(posts, draw, names, maps + [PostMap(id, noteId, posts[|maps|], vals)])
  {
    var i := |maps|;
    TokensSoFar(posts, i);
    NamesSoFar(posts, i);
    SeenNames(AllTokens(posts));
    LookedUpPlaceholders(order, ids, names, Tokens(posts[i]), vals, before);
    MapsBuiltStep(posts, draw, names, maps, id, noteId, vals);
  }

  /** The first loop of the import: one entity map per bookmark, on the ids -1, -2, ... that
      `nextId` hands out, with the tag references `nextTagId` gives its tokens. */
  method NoteMaps(posts: seq<PinboardPost>, draw: nat -> Hex.IdBytes, memo: TagIdMemo)
    returns (txData: seq<TxDatum>)
    requires memo.Valid() && memo.order == []
    modifies memo
    ensures memo.Valid() && memo.order == Seen(AllTokens(posts))
    ensures |txData| == |posts| && MapsBuilt(posts, draw, Seen(AllTokens(posts)), txData)
  {
    ghost var names := Seen(AllTokens(posts));
    var nextId := new Placeholders.Counter();
    txData := [];
    assert posts[..0] == [];
    var i := 0;
    while i < |posts|
      invariant 0 <= i <= |posts|
      invariant nextId.Valid() && nextId.calls == i
      invariant memo.Valid() && memo.order == Seen(AllTokens(posts[..i]))
      invariant |txData| == i && MapsBuilt(posts, draw, names, txData)
    {
      var post := posts[i];
      var id := nextId.Next();
      var noteId := Hex.GenerateId(draw(i));
      var tags := Split(post.tags, ' ');
      ghost var before := AllTokens(posts[..i]);
      var tagValues := TagValues(memo, tags, before);
      NoteMapsStep(posts, draw, names, txData, id, noteId, before, tagValues, memo.order, memo.tagIds);
      txData := txData + [PostMap(id, noteId, post, tagValues)];
      i := i + 1;
    }
    assert posts[..|posts|] == posts;
  }

  /** The memo's map has exactly the names of its order as keys. */
  lemma {:induction false} MemoKeys(order: seq<string>, ids: map<string, int>)
    requires MemoState(order, ids)
    ensures ids.Keys == Elements(order)
  {
  }

  /** The naming facts appended so far: one per emitted name, on the memo's id for it. */
  ghost predicate NamesEmitted(ids: map<string, int>, emitted: seq<string>, tail: seq<TxDatum>)
  {
    && |tail| == |emitted|
    && forall k :: 0 <= k < |emitted| ==>
         emitted[k] in ids && tail[k] == Datum(Assert, ids[emitted[k]], TagNameAttr, Str(emitted[k]))
  }

  lemma {:induction false} NamesEmittedStep(ids: map<string, int>, emitted: seq<string>, tail: seq<TxDatum>, t: string)
    requires NamesEmitted(ids, emitted, tail) && t in ids
    ensures NamesEmitted(ids, emitted + [t], tail + [Datum(Assert, ids[t], TagNameAttr, Str(t))])
  {
  }

  /** The second loop of the import: a `:tag/name` fact for every key of the memo, each on
      the id stored for it, visited in an order the model leaves open. */
  method AppendTagNames(memo: TagIdMemo, txData: seq<TxDatum>) returns (out: seq<TxDatum>)
    requires memo.Valid()
    ensures |out| >= |txData| && out[..|txData|] == txData
    ensures exists emitted :: Distinct(emitted) && Elements(emitted) == Elements(memo.order) &&
                              NamesEmitted(memo.tagIds, emitted, out[|txData|..])
  {
    MemoKeys(memo.order, memo.tagIds);
    var keys := memo.tagIds.Keys;
    ghost var emitted: seq<string> := [];
    out := txData;
    while keys != {}
      invariant keys <= memo.tagIds.Keys
      invariant keys !! Elements(emitted) && keys + Elements(emitted) == memo.tagIds.Keys
      invariant Distinct(emitted)
      invariant |out| >= |txData| && out[..|txData|] == txData
      invariant NamesEmitted(memo.tagIds, emitted, out[|txData|..])
      decreases keys
    {
      var tag :| tag in keys;
      var tagId := memo.tagIds[tag];
      NamesEmittedStep(memo.tagIds, emitted, out[|txData|..], tag);
      assert (out + [Datum(Assert, tagId, TagNameAttr, Str(tag))])[|txData|..] ==
             out[|txData|..] + [Datum(Assert, tagId, TagNameAttr, Str(tag))];
      assert Elements(emitted + [tag]) == Elements(emitted) + {tag};
      out := out + [Datum(Assert, tagId, TagNameAttr, Str(tag))];
      keys := keys - {tag};
      emitted := emitted + [tag];
    }
  }

  /** The naming facts name every memo entry once, each on its placeholder. */
  lemma {:induction false} NamesInTail(order: seq<string>, ids: map<string, int>, emitted: seq<string>,
                    tail: seq<TxDatum>)
    requires MemoState(order, ids)
    requires Distinct(emitted) && Elements(emitted) == Elements(order)
    requires NamesEmitted(ids, emitted, tail)
    ensures |tail| == |order| && NamingFacts(order, tail)
  {
    DistinctCard(emitted);
    DistinctCard(order);
    forall k | 0 <= k < |tail|
      ensures tail[k].v.Str? && tail[k].v.s in order && tail[k].e == TagPlaceholder(order, tail[k].v.s)
    {
      assert emitted[k] in Elements(order);
      MemoAgrees(order, ids, order, emitted[k]);
    }
  }

  /** `ImportFromPinboard` after decoding: a decode error is returned before any batch is
      built; otherwise the maps are built by the first loop and the naming facts by the
      second. The random id bytes of the i-th note are `draw(i)`. */
  method ImportFromPinboard(decoded: Result<seq<PinboardPost>, string>, draw: nat -> Hex.IdBytes)
    returns (r: Result<seq<TxDatum>, string>)
    ensures decoded.Failure? ==> r == Failure(decoded.error)
    ensures decoded.Success? ==> r.Success? && PinboardBatch(decoded.value, draw, r.value)
  {
    if decoded.Failure? {
      return Failure(decoded.error);
    }
    var posts := decoded.value;
    var memo := new TagIdMemo();
    var maps := NoteMaps(posts, draw, memo);
    var txData := AppendTagNames(memo, maps);
    ghost var emitted :| Distinct(emitted) && Elements(emitted) == Elements(memo.order) &&
                         NamesEmitted(memo.tagIds, emitted, txData[|maps|..]);
    NamesInTail(memo.order, memo.tagIds, emitted, txData[|maps|..]);
    return Success(txData);
  }

  /** Distinct names get distinct placeholders, all at or below -1,000,001. */
  lemma {:induction false} FactIdsDistinct(names: seq<string>, facts: seq<TxDatum>)
    requires NamingFacts(names, facts)
    ensures forall k :: 0 <= k < |facts| ==> facts[k].e <= TagIdStart - 1
    ensures forall k, l :: 0 <= k < l < |facts| ==> facts[k].e != facts[l].e
  {
    forall k, l | 0 <= k < l < |facts|
      ensures facts[k].e != facts[l].e
    {
      var t, u := facts[k].v.s, facts[l].v.s;
      assert t != u;
      assert names[Position(names, t)] == t;
    }
  }

  /** There are as many naming facts as names and no name twice, so every name is named. */
  lemma {:induction false} FactsCoverNames(names: seq<string>, facts: seq<TxDatum>)
    requires Distinct(names) && |facts| == |names| && NamingFacts(names, facts)
    ensures forall t :: t in names ==> exists k :: 0 <= k < |facts| && facts[k].v == Str(t)
  {
    var named := seq(|facts|, k requires 0 <= k < |facts| => facts[k].v.s);
    assert Distinct(named);
    DistinctCard(named);
    DistinctCard(names);
    assert Elements(named) <= Elements(names);
    SubsetSameSize(Elements(named), Elements(names));
    forall t | t in names
      ensures exists k :: 0 <= k < |facts| && facts[k].v == Str(t)
    {
      assert t in Elements(named);
      var k :| 0 <= k < |named| && named[k] == t;
      assert facts[k].v == Str(t);
    }
  }

  /** The naming facts of a batch, read at the positions of the batch. */
  lemma {:induction false} NamingFactsAt(posts: seq<PinboardPost>, draw: nat -> Hex.IdBytes, r: seq<TxDatum>)
    requires PinboardBatch(posts, draw, r)
    ensures var names := Seen(AllTokens(posts));
      forall k :: |posts| <= k < |r| ==>
        && r[k].Datum? && r[k].op == Assert && r[k].a == TagNameAttr && r[k].v.Str?
        && r[k].v.s in names && r[k].e == TagPlaceholder(names, r[k].v.s)
  {
    var facts := r[|posts|..];
    forall k | |posts| <= k < |r|
      ensures r[k] == facts[k - |posts|]
    {
    }
  }

  /** The batch's length: one map per bookmark and one naming fact per distinct token. */
  lemma {:induction false} BatchLength(posts: seq<PinboardPost>, draw: nat -> Hex.IdBytes, r: seq<TxDatum>)
    requires PinboardBatch(posts, draw, r)
    ensures |r| == |posts| + |Elements(AllTokens(posts))|
  {
    var names := Seen(AllTokens(posts));
    SeenNames(AllTokens(posts));
    DistinctCard(names);
    assert Elements(names) == Elements(AllTokens(posts));
  }

  /** The naming facts sit on pairwise distinct placeholders, all at or below -1,000,001,
      and every token of the import is named by one of them. */
  lemma {:induction false} BatchTagIds(posts: seq<PinboardPost>, draw: nat -> Hex.IdBytes, r: seq<TxDatum>)
    requires PinboardBatch(posts, draw, r)
    ensures forall k :: |posts| <= k < |r| ==> r[k].Datum? && r[k].e <= TagIdStart - 1
    ensures forall k, l :: |posts| <= k < l < |r| ==> r[k].e != r[l].e
    ensures forall t :: t in AllTokens(posts) ==>
              exists k :: |posts| <= k < |r| && r[k].v == Str(t)
  {
    var names := Seen(AllTokens(posts));
    var facts := r[|posts|..];
    SeenNames(AllTokens(posts));
    FactIdsDistinct(names, facts);
    FactsCoverNames(names, facts);
    forall k | |posts| <= k < |r|
      ensures r[k] == facts[k - |posts|]
    {
    }
    forall t | t in AllTokens(posts)
      ensures exists k :: |posts| <= k < |r| && r[k].v == Str(t)
    {
      var k :| 0 <= k < |facts| && facts[k].v == Str(t);
      assert r[|posts| + k] == facts[k];
    }
  }

  /** The map built for a bookmark with the references of its tokens under `names`. */
  lemma {:induction false} PostMapShape(id: int, noteId: string, p: PinboardPost, names: seq<string>)
    requires TokensNamed(names, p)
    ensures var m, refs := PostMap(id, noteId, p, TagRefs(names, Tokens(p))), TagRefs(names, Tokens(p));
      && m.TxMap? && m.id == id
      && m.attrs.Keys == {NoteIdAttr, NoteTitleAttr, NoteContentAttr, NoteDateAttr, NoteTagsAttr}
      && m.attrs[NoteIdAttr] == [Str(noteId)] && m.attrs[NoteTitleAttr] == [Str(p.title)]
      && m.attrs[NoteContentAttr] == [Str(p.content)] && m.attrs[NoteDateAttr] == [Instant(p.date)]
      && m.attrs[NoteTagsAttr] == refs && |refs| == |Tokens(p)|
      && (forall j :: 0 <= j < |Tokens(p)| ==> refs[j] == Ref(TagPlaceholder(names, Tokens(p)[j])))
      && (forall j, j' :: 0 <= j < |Tokens(p)| && 0 <= j' < |Tokens(p)| ==>
            (refs[j] == refs[j'] <==> Tokens(p)[j] == Tokens(p)[j']))
  {
    var refs := TagRefs(names, Tokens(p));
    forall j, j' | 0 <= j < |Tokens(p)| && 0 <= j' < |Tokens(p)| && refs[j] == refs[j']
      ensures Tokens(p)[j] == Tokens(p)[j']
    {
      assert names[Position(names, Tokens(p)[j])] == Tokens(p)[j];
    }
  }

  /** A bookmark's map: its placeholder, the four note attributes, and one tag reference
      per token in token order, equal tokens sharing a reference. */
  lemma {:induction false} BookmarkMap(posts: seq<PinboardPost>, draw: nat -> Hex.IdBytes, r: seq<TxDatum>, i: nat)
    requires PinboardBatch(posts, draw, r) && i < |posts|
    ensures var p, names := posts[i], Seen(AllTokens(posts));
      && TokensNamed(names, p)
      && r[i] == PostMap(-1 - i, Hex.GenerateId(draw(i)), p, TagRefs(names, Tokens(p)))
  {
    assert r[..|posts|][i] == r[i];
  }

  /** A bookmark without tags is still given one token, the empty name, which is referenced
      from its map and named at the end of the batch. */
  lemma {:induction false} EmptyTagsKept(posts: seq<PinboardPost>, draw: nat -> Hex.IdBytes,
                                         r: seq<TxDatum>, i: nat)
    requires PinboardBatch(posts, draw, r) && i < |posts| && posts[i].tags == ""
    ensures var names := Seen(AllTokens(posts));
      && "" in names
      && r[i].attrs[NoteTagsAttr] == [Ref(TagPlaceholder(names, ""))]
      && exists k :: |posts| <= k < |r| && r[k] == Datum(Assert, TagPlaceholder(names, ""), TagNameAttr, Str(""))
  {
    var names := Seen(AllTokens(posts));
    assert Tokens(posts[i]) == [""];
    TokensInAll(posts, i);
    SeenNames(AllTokens(posts));
    BookmarkMap(posts, draw, r, i);
    PostMapShape(-1 - i, Hex.GenerateId(draw(i)), posts[i], names);
    BatchTagIds(posts, draw, r);
    var k :| |posts| <= k < |r| && r[k].v == Str("");
    NamingFactsAt(posts, draw, r);
  }

  /** Some name is met as soon as there is a bookmark, since every bookmark has a token. */
  lemma {:induction false} FirstNameAt(posts: seq<PinboardPost>)
    requires posts != []
    ensures Seen(AllTokens(posts)) != [] && Seen(AllTokens(posts))[0] in AllTokens(posts)
  {
    var p := posts[0];
    assert Tokens(p)[0] in Tokens(p);
    TokensInAll(posts, 0);
    SeenNames(AllTokens(posts));
  }

  /** The bookmarks' placeholders -1, -2, ... and the names' placeholders -1,000,001, ...
      stay apart exactly while there are at most a million bookmarks. */
  lemma {:induction false} NoteAndTagIdsApart(posts: seq<PinboardPost>, draw: nat -> Hex.IdBytes, r: seq<TxDatum>)
    requires PinboardBatch(posts, draw, r)
    ensures (forall i, k :: 0 <= i < |posts| <= k < |r| ==> r[i].id != r[k].e) <==> |posts| <= 1_000_000
  {
    var names := Seen(AllTokens(posts));
    BatchTagIds(posts, draw, r);
    forall i | 0 <= i < |posts|
      ensures r[i].TxMap? && r[i].id == -1 - i
    {
      assert r[..|posts|][i] == r[i];
    }
    if |posts| > 1_000_000 {
      FirstNameAt(posts);
      SeenNames(AllTokens(posts));
      var k :| |posts| <= k < |r| && r[k].v == Str(names[0]);
      NamingFactsAt(posts, draw, r);
      assert r[k].e == TagIdStart - 1;
      assert r[1_000_000].id == r[k].e;
    }
  }
}
