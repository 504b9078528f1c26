/** The string operations the preprocessing code gets from Python and pandas:
    substring tests (`in`, `str.contains` with a literal pattern), `str.lower()`,
    `str.split()` on whitespace, `str.split(sep)` and `sep.join(...)`. */
module Strings {
  import opened Chars

  predicate StartsWith(s: string, p: string)
  {
    |p| <= |s| && s[..|p|] == p
  }

  /** `a` is `b` with some elements left out, the rest in their order. */
  predicate IsSubsequence<T(==)>(a: seq<T>, b: seq<T>)
    decreases |b|
  {
    a == [] || (b != [] && if a[0] == b[0] then IsSubsequence(a[1..], b[1..]) else IsSubsequence(a, b[1..]))
  }

  /** `p in s`: some position of `s` starts an occurrence of `p`. */
  predicate Contains(s: string, p: string)
    decreases |s|
  {
    StartsWith(s, p) || (s != [] && Contains(s[1..], p))
  }

  /** An occurrence of `p` in `s` starts at position `i`. */
  predicate OccursAt(s: string, p: string, i: int)
  {
    0 <= i <= |s| - |p| && s[i..i + |p|] == p
  }

  /** The recursive definition of `Contains` agrees with the positional one. */
  lemma {:induction false} ContainsAt(s: string, p: string)
    ensures Contains(s, p) <==> exists i :: OccursAt(s, p, i)
  {
    if s == [] {
      if p == [] {
        assert OccursAt(s, p, 0);
      }
    } else {
      ContainsAt(s[1..], p);
      if Contains(s[1..], p) {
        var i :| OccursAt(s[1..], p, i);
        assert s[i + 1..i + 1 + |p|] == s[1..][i..i + |p|];
        assert OccursAt(s, p, i + 1);
      }
      if StartsWith(s, p) {
        assert OccursAt(s, p, 0);
      }
      if i :| OccursAt(s, p, i) {
        if i > 0 {
          assert s[1..][i - 1..i - 1 + |p|] == s[i..i + |p|];
          assert OccursAt(s[1..], p, i - 1);
        }
      }
    }
  }

  /** Every character of a pattern found in `s` occurs in `s`. */
  lemma ContainsHasChars(s: string, p: string, k: nat)
    requires Contains(s, p) && k < |p|
    ensures p[k] in s
  {
    ContainsAt(s, p);
    var i :| OccursAt(s, p, i);
    assert s[i + k] == s[i..i + |p|][k];
  }

  /** `str.lower()`, character by character. */
  function LowerString(s: string): (r: string)
    ensures |r| == |s|
    ensures forall i :: 0 <= i < |s| ==> r[i] == Lower(s[i])
    ensures forall c :: c in r ==> !IsAsciiUpper(c)
  {
    seq(|s|, i requires 0 <= i < |s| => Lower(s[i]))
  }

  /** Length of the longest prefix of `s` free of whitespace. */
  function NonSpaceSpan(cc: CharClass, s: string): (n: nat)
    ensures n <= |s|
    ensures forall i :: 0 <= i < n ==> !IsSpace(cc, s[i])
    ensures n == |s| || IsSpace(cc, s[n])
  {
    if s == [] || IsSpace(cc, s[0]) then 0 else 1 + NonSpaceSpan(cc, s[1..])
  }

  /** What `str.split()` returns: non-empty and without whitespace. */
  predicate IsToken(cc: CharClass, w: string)
  {
    w != [] && forall i :: 0 <= i < |w| ==> !IsSpace(cc, w[i])
  }

  /** `str.split()` with no argument: the maximal whitespace-free runs, in order. */
  function Words(cc: CharClass, s: string): (ws: seq<string>)
    ensures forall w :: w in ws ==> IsToken(cc, w)
    ensures |ws| <= |s|
    ensures ws == [] <==> forall i :: 0 <= i < |s| ==> IsSpace(cc, s[i])
    decreases |s|
  {
    if s == [] then []
    else if IsSpace(cc, s[0]) then
      var ws := Words(cc, s[1..]);
      assert forall i :: 1 <= i < |s| ==> s[i] == s[1..][i - 1];
      ws
    else
      var n := NonSpaceSpan(cc, s);
      [s[..n]] + Words(cc, s[n..])
  }

  /** `sep.join(ws)`. */
  function JoinWith(sep: string, ws: seq<string>): string
  {
    if ws == [] then []
    else if |ws| == 1 then ws[0]
    else ws[0] + sep + JoinWith(sep, ws[1..])
  }

  /** `" ".join(ws)`. */
  function JoinSpaces(ws: seq<string>): string
  {
    JoinWith(" ", ws)
  }

  /** Splitting a string whose first token is `w` and whose rest follows a
      whitespace character yields `w` and then the rest's tokens. */
  lemma WordsAfterToken(cc: CharClass, w: string, rest: string)
    requires IsToken(cc, w)
    requires rest == [] || IsSpace(cc, rest[0])
    ensures Words(cc, w + rest) == [w] + Words(cc, rest)
  {
    var s := w + rest;
    var n := NonSpaceSpan(cc, s);
    assert forall i :: 0 <= i < |w| ==> s[i] == w[i];
    assert |w| < |s| ==> s[|w|] == rest[0];
    assert n == |w|;
    assert s[..n] == w && s[n..] == rest;
  }

  /** Round trip: splitting `" ".join(ws)` on whitespace gives back `ws` when
      every element is a token. */
  lemma {:induction false} WordsOfJoin(cc: CharClass, ws: seq<string>)
    requires forall w :: w in ws ==> IsToken(cc, w)
    ensures Words(cc, JoinSpaces(ws)) == ws
  {
    if ws == [] {
    } else if |ws| == 1 {
      WordsAfterToken(cc, ws[0], []);
      assert ws[0] + [] == ws[0];
    } else {
      var tail := JoinSpaces(ws[1..]);
      assert JoinSpaces(ws) == ws[0] + (" " + tail);
      WordsOfJoin(cc, ws[1..]);
      WordsAfterToken(cc, ws[0], " " + tail);
      WordsAfterSpace(cc, tail);
    }
  }

  /** A leading space adds no token. */
  lemma WordsAfterSpace(cc: CharClass, s: string)
    ensures Words(cc, " " + s) == Words(cc, s)
  {
    assert (" " + s)[1..] == s;
  }

  /** A non-space character in front of `x` starts a token of its own when `x`
      is empty or starts with whitespace, and otherwise joins `x`'s first token. */
  lemma WordsCons(cc: CharClass, c: char, x: string)
    requires !IsSpace(cc, c)
    ensures Words(cc, [c] + x) ==
      if x == [] || IsSpace(cc, x[0]) then [[c]] + Words(cc, x)
      else [[c] + Words(cc, x)[0]] + Words(cc, x)[1..]
  {
    if x == [] || IsSpace(cc, x[0]) {
      WordsAfterToken(cc, [c], x);
    } else {
      WordsJoinFirst(cc, c, x);
    }
  }

  lemma WordsJoinFirst(cc: CharClass, c: char, x: string)
    requires !IsSpace(cc, c) && x != [] && !IsSpace(cc, x[0])
    ensures Words(cc, [c] + x) == [[c] + Words(cc, x)[0]] + Words(cc, x)[1..]
  {
    var s := [c] + x;
    var m := NonSpaceSpan(cc, x);
    assert s[1..] == x;
    assert Words(cc, x) == [x[..m]] + Words(cc, x[m..]);
    assert NonSpaceSpan(cc, s) == 1 + m;
    assert s[..1 + m] == [c] + x[..m];
    assert s[1 + m..] == x[m..];
  }

  /** Leading whitespace adds no token. */
  lemma {:induction false} WordsSkipSpaces(cc: CharClass, s: string, n: nat)
    requires n <= |s|
    requires forall i :: 0 <= i < n ==> IsSpace(cc, s[i])
    ensures Words(cc, s) == Words(cc, s[n..])
  {
    if n > 0 {
      assert s[1..][n - 1..] == s[n..];
      assert forall i :: 0 <= i < n - 1 ==> s[1..][i] == s[i + 1];
      WordsSkipSpaces(cc, s[1..], n - 1);
    }
  }

  /** Total length of a list of strings. */
  function TotalLength(ws: seq<string>): nat
  {
    if ws == [] then 0 else |ws[0]| + TotalLength(ws[1..])
  }

  /** Length of `sep.join(ws)`: the pieces plus one separator between each pair. */
  lemma {:induction false} JoinLength(sep: string, ws: seq<string>)
    requires ws != []
    ensures |JoinWith(sep, ws)| == TotalLength(ws) + (|ws| - 1) * |sep|
  {
    if |ws| > 1 {
      JoinLength(sep, ws[1..]);
    }
  }

  /** `s.split(sep)` for a non-empty literal separator: the pieces between
      non-overlapping occurrences of `sep`, scanned left to right. */
  function SplitOn(s: string, sep: string): (r: seq<string>)
    requires sep != []
    ensures |r| >= 1
    decreases |s|
  {
    if s == [] then [[]]
    else if StartsWith(s, sep) then [[]] + SplitOn(s[|sep|..], sep)
    else
      var rest := SplitOn(s[1..], sep);
      [[s[0]] + rest[0]] + rest[1..]
  }

  /** Round trip: joining the pieces with the separator restores the string. */
  lemma {:induction false} JoinSplit(s: string, sep: string)
    requires sep != []
    ensures JoinWith(sep, SplitOn(s, sep)) == s
    decreases |s|
  {
    if s == [] {
    } else if StartsWith(s, sep) {
      JoinSplit(s[|sep|..], sep);
      var rest := SplitOn(s[|sep|..], sep);
      assert JoinWith(sep, [[]] + rest) == [] + sep + JoinWith(sep, rest) by {
        assert ([[]] + rest)[1..] == rest;
      }
      assert s == sep + s[|sep|..];
    } else {
      JoinSplit(s[1..], sep);
      JoinCons(sep, s[0], SplitOn(s[1..], sep));
      assert s == [s[0]] + s[1..];
    }
  }

  /** Prepending a character to the first piece prepends it to the join. */
  lemma JoinCons(sep: string, c: char, ws: seq<string>)
    requires ws != []
    ensures JoinWith(sep, [[c] + ws[0]] + ws[1..]) == [c] + JoinWith(sep, ws)
  {
    var pieces := [[c] + ws[0]] + ws[1..];
    if |ws| > 1 {
      assert pieces[1..] == ws[1..];
    }
  }

  /** The first piece holds no occurrence of the separator, and there is more
      than one piece exactly when the separator occurs. */
  lemma {:induction false} SplitFirstPiece(s: string, sep: string)
    requires sep != []
    ensures !Contains(SplitOn(s, sep)[0], sep)
    ensures |SplitOn(s, sep)| == 1 <==> !Contains(s, sep)
    decreases |s|
  {
    if s == [] {
    } else if StartsWith(s, sep) {
    } else {
      SplitFirstPiece(s[1..], sep);
      var rest := SplitOn(s[1..], sep);
      var first := [s[0]] + rest[0];
      assert first[1..] == rest[0];
      if StartsWith(first, sep) {
        JoinSplit(s[1..], sep);
        JoinPrefix(sep, rest);
        assert false;
      }
    }
  }

  /** The first piece of a join is a prefix of it. */
  lemma {:induction false} JoinPrefix(sep: string, ws: seq<string>)
    requires ws != []
    ensures StartsWith(JoinWith(sep, ws), ws[0])
  {
    if |ws| > 1 {
      assert JoinWith(sep, ws) == ws[0] + (sep + JoinWith(sep, ws[1..]));
    }
  }
}
