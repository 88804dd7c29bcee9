/** String operations with the semantics of Go's `strings` package and the matching
    JavaScript string methods. Strings are sequences of characters. */
module Text {
  import opened Seqs

  /** Go's `strings.HasPrefix`, JavaScript's `startsWith`. */
  predicate StartsWith(s: string, prefix: string)
  {
    |prefix| <= |s| && s[..|prefix|] == prefix
  }

  /** Go's `strings.IndexByte`: the first position of `c` in `s`, or -1. */
  function IndexOfChar(s: string, c: char): (i: int)
    ensures -1 <= i < |s|
    ensures i == -1 <==> c !in s
    ensures i >= 0 ==> s[i] == c && c !in s[..i]
  {
    if s == [] then -1
    else if s[0] == c then 0
    else
      var j := IndexOfChar(s[1..], c);
      assert s[1..][..if j < 0 then 0 else j] == s[1..if j < 0 then 1 else j + 1];
      if j < 0 then -1 else j + 1
  }

  /** The pieces of `s` between the characters of `seps`, separators dropped:
      Go's `strings.Split` with a one-character separator, JavaScript's `split` with a
      one-character class. A string without separators, the empty one included, is one piece. */
  function SplitWhere(s: string, seps: set<char>): (pieces: seq<string>)
    ensures |pieces| >= 1
  {
    if s == [] then [""]
    else
      var rest := SplitWhere(s[1..], seps);
      if s[0] in seps then [""] + rest else [[s[0]] + rest[0]] + rest[1..]
  }

  /** Go's `strings.Split(s, string(c))`. */
  function Split(s: string, c: char): (pieces: seq<string>)
    ensures |pieces| >= 1
  {
    SplitWhere(s, {c})
  }

  /** The pieces joined together with `sep` between neighbours (Go's `strings.Join`). */
  function Join(pieces: seq<string>, sep: string): string
  {
    if pieces == [] then ""
    else if |pieces| == 1 then pieces[0]
    else pieces[0] + sep + Join(pieces[1..], sep)
  }

  /** Go's `strings.SplitN(s, string(c), n)` for `n >= 1`: at most `n` pieces, the last one
      being the unsplit remainder. */
  function SplitN(s: string, c: char, n: nat): (parts: seq<string>)
    requires n >= 1
    ensures 1 <= |parts| <= n
    decreases n
  {
    var i := IndexOfChar(s, c);
    if n == 1 || i < 0 then [s] else [s[..i]] + SplitN(s[i + 1..], c, n - 1)
  }

  /** No piece of a split contains a separator. */
  lemma {:induction false} SplitPiecesClean(s: string, seps: set<char>)
    ensures forall k, i :: 0 <= k < |SplitWhere(s, seps)| && 0 <= i < |SplitWhere(s, seps)[k]|
              ==> SplitWhere(s, seps)[k][i] !in seps
  {
    if s != [] {
      SplitPiecesClean(s[1..], seps);
    }
  }

  /** The number of characters of `s` that are in `seps`. */
  function Occurrences(s: string, seps: set<char>): nat
  {
    if s == [] then 0 else (if s[0] in seps then 1 else 0) + Occurrences(s[1..], seps)
  }

  /** A split has one piece more than the input has separators. */
  lemma {:induction false} SplitCount(s: string, seps: set<char>)
    ensures |SplitWhere(s, seps)| == Occurrences(s, seps) + 1
  {
    if s != [] {
      SplitCount(s[1..], seps);
    }
  }

  /** A string has no separators exactly when it counts none. */
  lemma {:induction false} OccurrencesNone(s: string, seps: set<char>)
    ensures Occurrences(s, seps) == 0 <==> forall i :: 0 <= i < |s| ==> s[i] !in seps
  {
    if s != [] {
      OccurrencesNone(s[1..], seps);
      assert forall i :: 1 <= i < |s| ==> s[i] == s[1..][i - 1];
    }
  }

  /** Splitting around a separator splits each side separately. */
  lemma {:induction false} SplitAround(a: string, c: char, b: string, seps: set<char>)
    requires c in seps
    ensures SplitWhere(a + [c] + b, seps) == SplitWhere(a, seps) + SplitWhere(b, seps)
  {
    var s := a + [c] + b;
    if a == [] {
      assert s == [c] + b;
      SplitCons(c, b, seps);
    } else {
      assert s == [a[0]] + (a[1..] + [c] + b);
      assert a == [a[0]] + a[1..];
      SplitAround(a[1..], c, b, seps);
      SplitCons(a[0], a[1..] + [c] + b, seps);
      SplitCons(a[0], a[1..], seps);
      JoinFirstPiece([a[0]], SplitWhere(a[1..], seps), SplitWhere(b, seps));
    }
  }

  /** The split of a string with a known first character. */
  lemma {:induction false} SplitCons(x: char, rest: string, seps: set<char>)
    ensures var r := SplitWhere(rest, seps);
            SplitWhere([x] + rest, seps) == if x in seps then [""] + r else [[x] + r[0]] + r[1..]
  {
    assert ([x] + rest)[0] == x && ([x] + rest)[1..] == rest;
  }

  /** Glueing a prefix to the first piece commutes with appending more pieces. */
  lemma {:induction false} JoinFirstPiece(h: string, left: seq<string>, right: seq<string>)
    requires left != []
    ensures [h + (left + right)[0]] + (left + right)[1..] == ([h + left[0]] + left[1..]) + right
    ensures [""] + (left + right) == ([""] + left) + right
  {
    assert (left + right)[0] == left[0];
    assert (left + right)[1..] == left[1..] + right;
  }

  /** A string without separators is a single piece. */
  lemma {:induction false} SplitNoSeparator(w: string, seps: set<char>)
    requires forall i :: 0 <= i < |w| ==> w[i] !in seps
    ensures SplitWhere(w, seps) == [w]
  {
    if w != [] {
      SplitNoSeparator(w[1..], seps);
      assert [w[0]] + w[1..] == w;
    }
  }

  /** Joining the pieces of a split with the separator gives back the input. */
  lemma {:induction false} JoinSplit(s: string, c: char)
    ensures Join(Split(s, c), [c]) == s
  {
    if s != [] {
      var rest := Split(s[1..], c);
      JoinSplit(s[1..], c);
      if s[0] == c {
        calc {
          Join([""] + rest, [c]);
          "" + [c] + Join(rest, [c]);
          s;
        }
      } else {
        var p := [[s[0]] + rest[0]] + rest[1..];
        if |rest| == 1 {
          assert p == [[s[0]] + rest[0]];
        } else {
          assert p[1..] == rest[1..];
          assert Join(rest, [c]) == rest[0] + [c] + Join(rest[1..], [c]);
        }
      }
    }
  }

  /** Joining after appending one more piece. */
  lemma {:induction false} JoinSnoc(pieces: seq<string>, x: string, sep: string)
    ensures Join(pieces + [x], sep) == if pieces == [] then x else Join(pieces, sep) + sep + x
  {
    if |pieces| > 1 {
      JoinSnoc(pieces[1..], x, sep);
      assert (pieces + [x])[1..] == pieces[1..] + [x];
    } else if |pieces| == 1 {
      assert (pieces + [x])[1..] == [x];
    }
  }

  /** A join of at least one piece starts with the first piece and ends with the last. */
  lemma {:induction false} JoinEnds(pieces: seq<string>, sep: string)
    requires pieces != []
    ensures StartsWith(Join(pieces, sep), pieces[0])
    ensures var j := Join(pieces, sep); var l := pieces[|pieces| - 1];
            |l| <= |j| && j[|j| - |l|..] == l
  {
    if |pieces| > 1 {
      JoinEnds(pieces[1..], sep);
      var j := Join(pieces, sep);
      assert j[..|pieces[0]|] == pieces[0];
    }
  }

  /** The length of a join: all the pieces plus one separator between each neighbouring pair. */
  lemma {:induction false} JoinLength(pieces: seq<string>, sep: string, total: nat)
    requires pieces != []
    requires total == SumLengths(pieces)
    ensures |Join(pieces, sep)| == total + (|pieces| - 1) * |sep|
  {
    if |pieces| > 1 {
      JoinLength(pieces[1..], sep, SumLengths(pieces[1..]));
    }
  }

  function SumLengths(pieces: seq<string>): nat
  {
    if pieces == [] then 0 else |pieces[0]| + SumLengths(pieces[1..])
  }

  /** The pieces of `SplitN` join back to the input; all but the last are free of the separator. */
  lemma {:induction false} SplitNJoin(s: string, c: char, n: nat)
    requires n >= 1
    ensures Join(SplitN(s, c, n), [c]) == s
    ensures forall k :: 0 <= k < |SplitN(s, c, n)| - 1 ==> c !in SplitN(s, c, n)[k]
    decreases n
  {
    var i := IndexOfChar(s, c);
    if n > 1 && i >= 0 {
      var head, tail := s[..i], s[i + 1..];
      assert s == head + [c] + tail;
      SplitNJoin(tail, c, n - 1);
      PiecesCons(head, SplitN(tail, c, n - 1), c);
    }
  }

  /** A separator-free piece in front of pieces that join to `tail` and are separator-free
      but for the last. */
  lemma {:induction false} PiecesCons(head: string, rest: seq<string>, c: char)
    requires rest != [] && c !in head
    requires forall k :: 0 <= k < |rest| - 1 ==> c !in rest[k]
    ensures Join([head] + rest, [c]) == head + [c] + Join(rest, [c])
    ensures forall k :: 0 <= k < |rest| ==> c !in ([head] + rest)[k]
  {
    var parts := [head] + rest;
    assert parts[1..] == rest;
    assert forall k :: 1 <= k < |parts| ==> parts[k] == rest[k - 1];
  }

  /** A first segment free of the separator is split off first. */
  lemma {:induction false} SplitNSegments(a: string, rest: string, c: char, n: nat)
    requires n >= 2 && c !in a
    ensures SplitN(a + [c] + rest, c, n) == [a] + SplitN(rest, c, n - 1)
  {
    var s := a + [c] + rest;
    assert s[|a|] == c;
    assert s[..|a|] == a;
    assert s[|a| + 1..] == rest;
  }

  /** A string of separators only splits into empty pieces. */
  lemma {:induction false} SplitOnlySeparators(s: string, seps: set<char>)
    requires forall i :: 0 <= i < |s| ==> s[i] in seps
    ensures forall k :: 0 <= k < |SplitWhere(s, seps)| ==> SplitWhere(s, seps)[k] == ""
  {
    if s != [] {
      SplitOnlySeparators(s[1..], seps);
    }
  }
}
