/** Go's `%q` verb (`strconv.Quote`) on strings, and a reader that takes a quoted string
    back apart. Characters from U+0080 on are treated as printable and copied unchanged. */
module Quoting {
  import opened Wrappers
  import Hex

  /** Each string quoted, in order. */
  function QuoteAll(xs: seq<string>): (qs: seq<string>)
    ensures |qs| == |xs| && forall i :: 0 <= i < |xs| ==> qs[i] == Quote(xs[i])
  {
    if xs == [] then [] else QuoteAll(xs[..|xs| - 1]) + [Quote(xs[|xs| - 1])]
  }

  /** Quoting one more string. */
  lemma {:induction false} QuoteAllSnoc(xs: seq<string>, x: string)
    ensures QuoteAll(xs + [x]) == QuoteAll(xs) + [Quote(x)]
  {
    assert (xs + [x])[..|xs|] == xs;
  }

  /** The escape Go writes for one character inside double quotes. */
  function EscapeChar(c: char): string
  {
    if c == '"' then ['\\', '"']
    else if c == '\\' then ['\\', '\\']
    else if c == 7 as char then ['\\', 'a']
    else if c == 8 as char then ['\\', 'b']
    else if c == 12 as char then ['\\', 'f']
    else if c == '\n' then ['\\', 'n']
    else if c == '\r' then ['\\', 'r']
    else if c == '\t' then ['\\', 't']
    else if c == 11 as char then ['\\', 'v']
    else if c < ' ' || c == 127 as char then
      ['\\', 'x', Hex.Digit(c as int / 16), Hex.Digit(c as int % 16)]
    else [c]
  }

  function Escape(s: string): string
  {
    if s == [] then "" else EscapeChar(s[0]) + Escape(s[1..])
  }

  /** `strconv.Quote(s)`. */
  function Quote(s: string): (q: string)
    ensures |q| >= 2 && q[0] == '"' && q[|q| - 1] == '"'
  {
    "\"" + Escape(s) + "\""
  }

  /** The character an escape letter stands for, if it is one of Go's one-letter escapes. */
  function EscapeLetter(e: char): Option<char>
  {
    if e == 'a' then Some(7 as char)
    else if e == 'b' then Some(8 as char)
    else if e == 'f' then Some(12 as char)
    else if e == 'n' then Some('\n')
    else if e == 'r' then Some('\r')
    else if e == 't' then Some('\t')
    else if e == 'v' then Some(11 as char)
    else if e == '"' || e == '\\' then Some(e)
    else None
  }

  /** Reads the body of a quoted string up to and including its closing quote; gives the
      decoded text and what follows the closing quote. */
  function ReadBody(s: string): (r: Option<(string, string)>)
    ensures r.Some? ==> |r.value.1| < |s|
    decreases |s|
  {
    if s == [] then None
    else if s[0] == '"' then Some(("", s[1..]))
    else if s[0] != '\\' then
      match ReadBody(s[1..])
      case None => None
      case Some(r) => Some(([s[0]] + r.0, r.1))
    else if |s| < 2 then None
    else if s[1] == 'x' then
      if |s| < 4 || !Hex.IsLowerHex(s[2]) || !Hex.IsLowerHex(s[3]) then None
      else
        var code := Hex.DigitValue(s[2]) * 16 + Hex.DigitValue(s[3]);
        match ReadBody(s[4..])
        case None => None
        case Some(r) => Some(([code as char] + r.0, r.1))
    else match EscapeLetter(s[1])
      case None => None
      case Some(c) =>
        match ReadBody(s[2..])
        case None => None
        case Some(r) => Some(([c] + r.0, r.1))
  }

  /** Reads one quoted string at the start of `s`. */
  function Unquote(s: string): (r: Option<(string, string)>)
    ensures r.Some? ==> |r.value.1| + 1 < |s|
  {
    if s == [] || s[0] != '"' then None else ReadBody(s[1..])
  }

  /** Reading an escaped character decodes it and carries on with what follows. */
  lemma {:induction false} ReadEscapeChar(c: char, t: string)
    ensures ReadBody(EscapeChar(c) + t) ==
            match ReadBody(t)
            case None => None
            case Some(r) => Some(([c] + r.0, r.1))
  {
    var s := EscapeChar(c) + t;
    if c < ' ' || c == 127 as char {
      if c != 7 as char && c != 8 as char && c != 12 as char && c != '\n' && c != '\r'
         && c != '\t' && c != 11 as char {
        assert s[4..] == t;
        assert Hex.DigitValue(s[2]) * 16 + Hex.DigitValue(s[3]) == c as int;
      } else {
        assert s[2..] == t;
      }
    } else if c == '"' || c == '\\' {
      assert s[2..] == t;
    } else {
      assert s[1..] == t;
    }
  }

  lemma {:induction false} ReadEscape(x: string, rest: string)
    ensures ReadBody(Escape(x) + "\"" + rest) == Some((x, rest))
  {
    if x == [] {
      assert Escape(x) + "\"" + rest == "\"" + rest;
      assert ("\"" + rest)[1..] == rest;
    } else {
      ReadEscape(x[1..], rest);
      var t := Escape(x[1..]) + "\"" + rest;
      assert Escape(x) + "\"" + rest == EscapeChar(x[0]) + t;
      ReadEscapeChar(x[0], t);
      assert [x[0]] + x[1..] == x;
    }
  }

  /** `Unquote` inverts `Quote`: a quoted string followed by anything is read back exactly. */
  lemma {:induction false} UnquoteQuote(x: string, rest: string)
    ensures Unquote(Quote(x) + rest) == Some((x, rest))
  {
    var s := Quote(x) + rest;
    assert s[1..] == Escape(x) + "\"" + rest;
    ReadEscape(x, rest);
  }
}
