/** Tag completion on the tags input field: on every key release the space-separated token
    under the cursor is looked up among the known tags, the matching tags are listed, the arrow
    keys move the selection and Tab (or a click) puts the chosen tag in place of the token. */
module TagCompletion {
  import opened Wrappers
  import opened Text
  import opened Seqs

  // ---- JavaScript string searches ----

  /** The last position at or before `k` holding `c`, or -1. */
  function LastAtOrBefore(s: string, c: char, k: int): (r: int)
    requires -1 <= k < |s|
    ensures -1 <= r <= k
    ensures r >= 0 ==> s[r] == c
    ensures forall j :: r < j <= k ==> s[j] != c
    decreases k + 1
  {
    if k < 0 then -1 else if s[k] == c then k else LastAtOrBefore(s, c, k - 1)
  }

  /** The first position at or after `k` holding `c`, or -1. */
  function FirstAtOrAfter(s: string, c: char, k: nat): (r: int)
    requires k <= |s|
    ensures r == -1 || k <= r < |s|
    ensures r >= 0 ==> s[r] == c
    ensures forall j :: k <= j < |s| && (r < 0 || j < r) ==> s[j] != c
    decreases |s| - k
  {
    if k == |s| then -1 else if s[k] == c then k else FirstAtOrAfter(s, c, k + 1)
  }

  /** `s.lastIndexOf(c, from)`: the search starts at `from`, moved into the string. */
  function LastIndexFrom(s: string, c: char, from: int): (r: int)
    ensures -1 <= r < |s|
    ensures r >= 0 ==> s[r] == c && r <= if from < 0 then 0 else from
    ensures forall k :: r < k < |s| && k <= (if from < 0 then 0 else from) ==> s[k] != c
  {
    if s == [] then -1
    else LastAtOrBefore(s, c, if from < 0 then 0 else if from >= |s| then |s| - 1 else from)
  }

  /** `s.indexOf(c, from)`: the search starts at `from`, moved into the string. */
  function IndexFrom(s: string, c: char, from: int): (r: int)
    ensures -1 <= r < |s|
    ensures r >= 0 ==> s[r] == c && r >= from
    ensures forall k :: (if from < 0 then 0 else from) <= k < |s| && (r < 0 || k < r) ==> s[k] != c
  {
    FirstAtOrAfter(s, c, if from < 0 then 0 else if from > |s| then |s| else from)
  }

  /** `s.substring(a, b)`: both ends moved into the string, and swapped when out of order. */
  function Substring(s: string, a: int, b: int): string
  {
    var a', b' := Clamp(a, |s|), Clamp(b, |s|);
    if a' <= b' then s[a'..b'] else s[b'..a']
  }

  function Clamp(i: int, n: nat): (r: nat)
    ensures r <= n
  {
    if i < 0 then 0 else if i > n then n else i
  }

  /** `s.indexOf(sub) != -1`. */
  predicate Contains(s: string, sub: string)
  {
    exists i :: 0 <= i <= |s| - |sub| && OccursAt(s, sub, i)
  }

  predicate OccursAt(s: string, sub: string, i: nat)
  {
    i + |sub| <= |s| && s[i..i + |sub|] == sub
  }

  // ---- Keys ----

  const CompleteChars := "abcdefghijklmnopqrstuvwxyzABCDEFGHIJKLMNOPQRSTUVWXYZ0123456789-_"

  /** The keys the handler goes on for: those whose name occurs in `completeChars`, Backspace,
      Tab and the up and down arrows. */
  predicate KeyAccepted(key: string)
  {
    Contains(CompleteChars, key) || key == "Backspace" || key == "Tab" || key == "ArrowUp" || key == "ArrowDown"
  }

  /** A one-character key is accepted exactly when it is a letter, a digit, '-' or '_'. */
  lemma {:induction false} CharKeyAccepted(c: char)
    ensures KeyAccepted([c]) <==> c in CompleteChars
  {
    if c in CompleteChars {
      var i :| 0 <= i < |CompleteChars| && CompleteChars[i] == c;
      assert OccursAt(CompleteChars, [c], i);
    }
    if Contains(CompleteChars, [c]) {
      var i :| 0 <= i <= |CompleteChars| - 1 && OccursAt(CompleteChars, [c], i);
      assert CompleteChars[i] == CompleteChars[i..i + 1][0];
    }
  }

  // ---- The token under the cursor ----

  /** The token bounds as the handler computes them: both searches start one before the
      cursor. */
  function TagBoundsAsWritten(raw: string, cursor: nat): (nat, nat)
  {
    var l := LastIndexFrom(raw, ' ', cursor - 1);
    var e := IndexFrom(raw, ' ', cursor - 1);
    (if l == -1 then 0 else l + 1, if e == -1 then |raw| else e)
  }

  function CurrentTagAsWritten(raw: string, cursor: nat): string
  {
    var (start, end) := TagBoundsAsWritten(raw, cursor);
    Substring(raw, start, end)
  }

  /** Right after a space the handler's token is that space instead of the empty token, so the
      completions are not reset. */
  lemma {:induction false} TokenAfterSpaceAsWritten()
    ensures CurrentTagAsWritten("foo ", 4) == " "
    ensures Token("foo ", 4) == ""
  {
    var raw := "foo ";
    assert raw[3] == ' ';
    assert LastIndexFrom(raw, ' ', 3) == 3;
    assert IndexFrom(raw, ' ', 3) == 3;
    assert TagBoundsAsWritten(raw, 4) == (4, 3);
    assert Substring(raw, 4, 3) == raw[3..4];
    TagBoundsUnique(raw, 4, 4, 4);
  }

  /** The space-free stretch of `raw` around the cursor: from just after the last space before
      the cursor (or the start) to the first space at or after it (or the end). */
  function TagBounds(raw: string, cursor: nat): (b: (nat, nat))
    requires cursor <= |raw|
    ensures b.0 <= cursor <= b.1 <= |raw|
    ensures forall k :: b.0 <= k < b.1 ==> raw[k] != ' '
    ensures b.0 == 0 || raw[b.0 - 1] == ' '
    ensures b.1 == |raw| || raw[b.1] == ' '
  {
    var l := if cursor == 0 then -1 else LastIndexFrom(raw, ' ', cursor - 1);
    var e := IndexFrom(raw, ' ', cursor);
    (if l == -1 then 0 else l + 1, if e == -1 then |raw| else e)
  }

  /** The bounds are the only ones with those properties. */
  lemma {:induction false} TagBoundsUnique(raw: string, cursor: nat, start: nat, end: nat)
    requires start <= cursor <= end <= |raw|
    requires forall k :: start <= k < end ==> raw[k] != ' '
    requires start == 0 || raw[start - 1] == ' '
    requires end == |raw| || raw[end] == ' '
    ensures TagBounds(raw, cursor) == (start, end)
  {
  }

  /** The bounds agree with the handler's whenever the character before the cursor is not a
      space (at the very start: whenever the text does not start with one). */
  lemma {:induction false} TagBoundsAgree(raw: string, cursor: nat)
    requires cursor <= |raw|
    requires cursor == 0 ==> raw == [] || raw[0] != ' '
    requires cursor > 0 ==> raw[cursor - 1] != ' '
    ensures TagBoundsAsWritten(raw, cursor) == TagBounds(raw, cursor)
  {
    if cursor > 0 {
      var e := IndexFrom(raw, ' ', cursor - 1);
      assert e != cursor - 1;
    }
  }

  /** The token under the cursor. */
  function Token(raw: string, cursor: nat): (t: string)
    requires cursor <= |raw|
    ensures |t| <= |raw| && ' ' !in t
  {
    var (start, end) := TagBounds(raw, cursor);
    raw[start..end]
  }

  // ---- Completions ----

  function HasPrefix(prefix: string): string -> bool
  {
    t => StartsWith(t, prefix)
  }

  /** `window.tags.filter((tag) => tag.startsWith(currentTag))`. */
  function Completions(tags: seq<string>, current: string): seq<string>
  {
    Filter(tags, HasPrefix(current))
  }

  /** The completions are exactly the known tags starting with the token, in their order. */
  lemma {:induction false} CompletionsExact(tags: seq<string>, current: string) returns (idx: seq<nat>)
    ensures forall t :: t in Completions(tags, current) <==> t in tags && StartsWith(t, current)
    ensures |idx| == |Completions(tags, current)|
    ensures forall i :: 0 <= i < |idx| ==> idx[i] < |tags| && Completions(tags, current)[i] == tags[idx[i]]
    ensures forall i, j :: 0 <= i < j < |idx| ==> idx[i] < idx[j]
    ensures forall j :: 0 <= j < |tags| && StartsWith(tags[j], current) ==> j in idx
  {
    FilterMembers(tags, HasPrefix(current));
    idx := FilterIndices(tags, HasPrefix(current));
  }

  // ---- The selected suggestion ----

  /** The selected index after the key as the handler moves it: up stops at 0, down always
      adds one. */
  function IndexAsWritten(key: string, index: nat): nat
  {
    if key == "ArrowUp" then (if index == 0 then 0 else index - 1)
    else if key == "ArrowDown" then index + 1
    else index
  }

  /** `completionsEl.children[selectedIndex]`, undefined past the last suggestion. */
  function SelectedAsWritten(index: nat, completions: seq<string>): Option<string>
  {
    if index < |completions| then Some(completions[index]) else None
  }

  /** With the single tag "abc", the token "a" and the down arrow, the handler selects past the
      only suggestion: nothing is selected although a suggestion is listed (and the handler
      then fails on the missing element). */
  lemma {:induction false} ArrowDownPastEndAsWritten()
    ensures Completions(["abc"], Token("a", 1)) == ["abc"]
    ensures IndexAsWritten("ArrowDown", 0) == 1
    ensures SelectedAsWritten(IndexAsWritten("ArrowDown", 0), ["abc"]) == None
  {
    TagBoundsUnique("a", 1, 0, 1);
    assert "a"[0..1] == "a";
    assert ["abc"][..0] == [];
    assert StartsWith("abc", "a");
  }

  /** The selected index after the key, kept on a listed suggestion: it agrees with the
      handler's wherever that one is in range, and otherwise stays on the last suggestion. */
  function NextIndex(key: string, index: nat, count: nat): (r: nat)
    ensures count > 0 ==> r < count
    ensures count == 0 || IndexAsWritten(key, index) < count ==> r == IndexAsWritten(key, index)
    ensures count > 0 && IndexAsWritten(key, index) >= count ==> r == count - 1
  {
    var i := IndexAsWritten(key, index);
    if count > 0 && i >= count then count - 1 else i
  }

  /** Up moves one towards the first suggestion and stops there; down moves one towards the
      last and stops there. */
  lemma {:induction false} ArrowKeys(index: nat, count: nat)
    requires index < count
    ensures NextIndex("ArrowUp", index, count) == if index == 0 then 0 else index - 1
    ensures NextIndex("ArrowDown", index, count) == if index + 1 < count then index + 1 else index
  {
  }

  // ---- Accepting a completion ----

  /** The text with the token replaced by the completion, and a space added when the cursor was
      at the end of the text. */
  function Splice(raw: string, start: nat, end: nat, completion: string, atEnd: bool): string
    requires start <= end <= |raw|
  {
    raw[..start] + completion + (if atEnd then " " else "") + raw[end..]
  }

  /** Where the pieces of a spliced text sit. */
  lemma {:induction false} SpliceLayout(raw: string, start: nat, end: nat, completion: string, atEnd: bool)
    requires start <= end <= |raw|
    ensures var spliced, e := Splice(raw, start, end, completion, atEnd), start + |completion|;
            && |spliced| == e + (if atEnd then 1 else 0) + |raw| - end
            && (forall k :: 0 <= k < start ==> spliced[k] == raw[k])
            && (forall k :: start <= k < e ==> spliced[k] == completion[k - start])
            && (atEnd ==> spliced[e] == ' ')
            && (!atEnd && end < |raw| ==> spliced[e] == raw[end])
  {
  }

  /** After accepting a space-free completion for the token under the cursor, the token that
      ends right after the inserted completion is exactly the completion. */
  lemma {:induction false} SpliceCompletes(raw: string, cursor: nat, completion: string, atEnd: bool)
    requires cursor <= |raw| && completion != [] && ' ' !in completion
    requires atEnd ==> cursor == |raw|
    ensures var (start, end) := TagBounds(raw, cursor);
            var spliced := Splice(raw, start, end, completion, atEnd);
            start + |completion| <= |spliced|
            && TagBounds(spliced, start + |completion|) == (start, start + |completion|)
  {
    var (start, end) := TagBounds(raw, cursor);
    SpliceToken(raw, start, end, completion, atEnd);
  }

  /** The same for any bounds of a space-delimited stretch. */
  lemma {:induction false} SpliceToken(raw: string, start: nat, end: nat, completion: string, atEnd: bool)
    requires start <= end <= |raw| && completion != [] && ' ' !in completion
    requires start == 0 || raw[start - 1] == ' '
    requires end == |raw| || raw[end] == ' '
    ensures var spliced := Splice(raw, start, end, completion, atEnd);
            start + |completion| <= |spliced|
            && TagBounds(spliced, start + |completion|) == (start, start + |completion|)
  {
    SpliceLayout(raw, start, end, completion, atEnd);
    var spliced := Splice(raw, start, end, completion, atEnd);
    var e := start + |completion|;
    assert forall k :: start <= k < e ==> spliced[k] != ' ' by {
      forall k | start <= k < e
        ensures spliced[k] != ' '
      {
        assert spliced[k] == completion[k - start] && completion[k - start] in completion;
      }
    }
    assert start == 0 || spliced[start - 1] == ' ' by {
      if start > 0 {
        assert spliced[start - 1] == raw[start - 1];
      }
    }
    assert e == |spliced| || spliced[e] == ' ' by {
      if !atEnd && end < |raw| {
        assert spliced[e] == raw[end];
      }
    }
    TagBoundsUnique(spliced, e, start, e);
  }

  /** The completion state of one tags input: its value, the listed suggestions, the selected
      index and element, whether the list is shown, and the text and token bounds that the
      suggestions' click handlers captured. Typing changes the input's text between key
      releases, and the handler reads it afresh each time; here the caller assigns the new
      text to `value` before calling `KeyUp`. */
  class Completer {
    var value: string
    var selectedIndex: nat
    var selectedElement: Option<string>
    var suggestions: seq<string>
    var listShown: bool
    var clickText: string
    var clickStart: nat
    var clickEnd: nat

    /** The selected element is the listed suggestion at the selected index, and one is
        selected whenever the list is not empty. */
    ghost predicate Valid()
      reads this
    {
      && (selectedElement.Some? ==> selectedIndex < |suggestions| && selectedElement.value == suggestions[selectedIndex])
      && (suggestions != [] ==> selectedElement.Some?)
      && clickStart <= clickEnd <= |clickText|
    }

    /** `resetCompletions`'s state: no selection, index 0, an empty hidden list. */
    ghost predicate IsReset()
      reads this
    {
      selectedIndex == 0 && selectedElement == None && suggestions == [] && !listShown
    }

    /** Everything the handler can change. */
    ghost function Snapshot(): (string, nat, Option<string>, seq<string>, bool, string, nat, nat)
      reads this
    {
      (value, selectedIndex, selectedElement, suggestions, listShown, clickText, clickStart, clickEnd)
    }

    /** What the suggestions' click handlers captured. */
    ghost function ClickTarget(): (string, nat, nat)
      reads this
    {
      (clickText, clickStart, clickEnd)
    }

    /** `initCompletions` on an input holding `initial`. */
    constructor (initial: string)
      ensures Valid() && IsReset() && value == initial
    {
      value := initial;
      selectedIndex := 0;
      selectedElement := None;
      suggestions := [];
      listShown := false;
      clickText, clickStart, clickEnd := "", 0, 0;
    }

    method ResetCompletions()
      modifies this
      ensures IsReset() && value == old(value) && ClickTarget() == old(ClickTarget())
    {
      selectedIndex := 0;
      selectedElement := None;
      suggestions := [];
      listShown := false;
    }

    /** The key-release handler, for `key` with the selection from `selStart` to `selEnd` and
        the known tags `tags`. The token bounds and the selected index are the corrected ones
        (`TagBounds`, `NextIndex`). */
    method KeyUp(key: string, selStart: nat, selEnd: nat, tags: seq<string>)
      requires Valid() && selStart <= |value| && selEnd <= |value|
      modifies this
      ensures Valid()
      // a key outside the completion keys resets the completions and does nothing else
      ensures !KeyAccepted(key) ==>
        IsReset() && value == old(value) && ClickTarget() == old(ClickTarget())
      // with a selection nothing happens
      ensures KeyAccepted(key) && selStart != selEnd ==> Snapshot() == old(Snapshot())
      // an empty token resets the completions
      ensures KeyAccepted(key) && selStart == selEnd && Token(old(value), selStart) == "" ==>
        IsReset() && value == old(value) && ClickTarget() == old(ClickTarget())
      // Tab puts the selected suggestion in place of the token, and resets
      ensures KeyAccepted(key) && selStart == selEnd && Token(old(value), selStart) != "" && key == "Tab"
              && old(selectedElement).Some? ==>
        var (start, end) := TagBounds(old(value), selStart);
        && value == Splice(old(value), start, end, old(selectedElement).value, selStart == |old(value)|)
        && IsReset() && ClickTarget() == old(ClickTarget())
      // Tab with nothing selected fails in the handler before anything changes
      ensures KeyAccepted(key) && selStart == selEnd && Token(old(value), selStart) != "" && key == "Tab"
              && old(selectedElement).None? ==>
        Snapshot() == old(Snapshot())
      // any other key lists the completions of the token and moves the selection
      ensures KeyAccepted(key) && selStart == selEnd && Token(old(value), selStart) != "" && key != "Tab" ==>
        var (start, end) := TagBounds(old(value), selStart);
        && value == old(value) && listShown
        && suggestions == Completions(tags, Token(old(value), selStart))
        && selectedIndex == NextIndex(key, old(selectedIndex), |suggestions|)
        && selectedElement == (if suggestions == [] then None else Some(suggestions[selectedIndex]))
        && ClickTarget() == (old(value), start, end)
    {
      if !KeyAccepted(key) {
        ResetCompletions();
        return;
      }
      var rawTags := value;
      if selStart != selEnd {
        return;
      }
      var (tagStart, tagEnd) := TagBounds(rawTags, selStart);
      var currentTag := rawTags[tagStart..tagEnd];
      if currentTag == "" {
        ResetCompletions();
        return;
      }
      if key == "Tab" {
        if selectedElement.None? {
          return;
        }
        value := Splice(rawTags, tagStart, tagEnd, selectedElement.value, selStart == |value|);
        ResetCompletions();
        return;
      }
      ShowCompletions(key, rawTags, tagStart, tagEnd, Completions(tags, currentTag));
    }

    /** The last part of the handler: the completions are listed, the selection moves, and
        the suggestions' click handlers capture the text and the token bounds. */
    method ShowCompletions(key: string, rawTags: string, tagStart: nat, tagEnd: nat,
                           completions: seq<string>)
      requires tagStart <= tagEnd <= |rawTags|
      modifies this
      ensures Valid() && value == old(value) && listShown && suggestions == completions
      ensures selectedIndex == NextIndex(key, old(selectedIndex), |completions|)
      ensures selectedElement == (if completions == [] then None else Some(completions[selectedIndex]))
      ensures ClickTarget() == (rawTags, tagStart, tagEnd)
    {
      selectedIndex := NextIndex(key, selectedIndex, |completions|);
      listShown := true;
      selectedElement := None;
      suggestions := completions;
      clickText, clickStart, clickEnd := rawTags, tagStart, tagEnd;
      if |completions| > 0 {
        selectedElement := Some(completions[selectedIndex]);
      }
    }

    /** A click on the `k`-th suggestion puts it in place of the token the list was made for;
        `atEnd` says whether the cursor is at the end of the input at that moment. */
    method Click(k: nat, atEnd: bool)
      requires Valid() && k < |suggestions|
      modifies this
      ensures Valid() && IsReset()
      ensures value == Splice(old(clickText), old(clickStart), old(clickEnd), old(suggestions)[k], atEnd)
    {
      value := Splice(clickText, clickStart, clickEnd, suggestions[k], atEnd);
      ResetCompletions();
    }
  }
}
