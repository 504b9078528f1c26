/** The per-comment features `preprocess_data` computes from whitespace tokens:
    stopword removal, word, unique-word, letter, punctuation, upper-case,
    title-case and stopword counts, and the mean word length. The stopword
    lexicon is a parameter. */
module Features {
  import opened Chars
  import opened Strings
  import opened Tables

  // Stopword removal

  /** The tokens of `ws` that are not stopwords, in their order (how often each
      is kept is `WithoutStopwordsCounts`). */
  function WithoutStopwords(ws: seq<string>, stop: set<string>): (r: seq<string>)
    ensures forall w :: w in r <==> w in ws && w !in stop
    ensures IsSubsequence(r, ws)
    ensures |r| <= |ws|
  {
    if ws == [] then []
    else
      assert ws == [ws[0]] + ws[1..];
      if ws[0] in stop then WithoutStopwords(ws[1..], stop)
      else [ws[0]] + WithoutStopwords(ws[1..], stop)
  }

  /** Each token that is not a stopword is kept as often as it occurs in `ws`,
      and no stopword is kept. */
  lemma {:induction false} WithoutStopwordsCounts(ws: seq<string>, stop: set<string>)
    ensures forall w :: multiset(WithoutStopwords(ws, stop))[w] == if w in stop then 0 else multiset(ws)[w]
  {
    if ws != [] {
      WithoutStopwordsCounts(ws[1..], stop);
      assert ws == [ws[0]] + ws[1..];
    }
  }

  /** `" ".join(word for word in x.split() if word not in stop_words)` */
  function RemoveStopwords(cc: CharClass, stop: set<string>, x: string): string
  {
    JoinSpaces(WithoutStopwords(Words(cc, x), stop))
  }

  /** Splitting the result again gives exactly the surviving tokens: none of
      them is a stopword, and they keep their order. */
  lemma RemoveStopwordsTokens(cc: CharClass, stop: set<string>, x: string)
    ensures Words(cc, RemoveStopwords(cc, stop, x)) == WithoutStopwords(Words(cc, x), stop)
    ensures forall w :: w in Words(cc, RemoveStopwords(cc, stop, x)) ==> w !in stop
  {
    WordsOfJoin(cc, WithoutStopwords(Words(cc, x), stop));
  }

  /** Filtering tokens that are already free of stopwords changes nothing. */
  lemma {:induction false} WithoutStopwordsIdempotent(ws: seq<string>, stop: set<string>)
    ensures WithoutStopwords(WithoutStopwords(ws, stop), stop) == WithoutStopwords(ws, stop)
  {
    if ws != [] {
      WithoutStopwordsIdempotent(ws[1..], stop);
      if ws[0] !in stop {
        assert ([ws[0]] + WithoutStopwords(ws[1..], stop))[1..] == WithoutStopwords(ws[1..], stop);
      }
    }
  }

  /** Removing stopwords a second time changes nothing. */
  lemma RemoveStopwordsIdempotent(cc: CharClass, stop: set<string>, x: string)
    ensures RemoveStopwords(cc, stop, RemoveStopwords(cc, stop, x)) == RemoveStopwords(cc, stop, x)
  {
    RemoveStopwordsTokens(cc, stop, x);
    WithoutStopwordsIdempotent(Words(cc, x), stop);
  }

  // Counts over the cleaned review

  /** The number of distinct tokens. */
  function Distinct(ws: seq<string>): nat
  {
    |set w | w in ws|
  }

  /** There are never more distinct tokens than tokens, and none only when
      there are no tokens. */
  lemma {:induction false} DistinctAtMost(ws: seq<string>)
    ensures Distinct(ws) <= |ws|
    ensures Distinct(ws) == 0 <==> ws == []
  {
    if ws != [] {
      DistinctAtMost(ws[1..]);
      assert (set w | w in ws) == {ws[0]} + (set w | w in ws[1..]);
      assert ws[0] in (set w | w in ws);
    }
  }

  /** `count_word`, `count_unique_word` and `count_letters` of a string made by
      joining tokens with single spaces (as `review_clean` is): the letters are
      the tokens' lengths plus one space between each pair, and all three
      counts are zero together. */
  lemma JoinedCounts(cc: CharClass, ws: seq<string>)
    requires forall w :: w in ws ==> IsToken(cc, w)
    ensures var x := JoinSpaces(ws);
      && Words(cc, x) == ws
      && Distinct(Words(cc, x)) <= |Words(cc, x)|
      && (ws != [] ==> |x| == TotalLength(ws) + |ws| - 1)
      && (|x| == 0 <==> |Words(cc, x)| == 0)
      && (Distinct(Words(cc, x)) == 0 <==> |Words(cc, x)| == 0)
  {
    WordsOfJoin(cc, ws);
    DistinctAtMost(ws);
    if ws != [] {
      JoinLength(" ", ws);
      assert IsToken(cc, ws[0]);
    }
  }

  /** The counts `preprocess_data` takes from `review_clean`, when that is the
      text `review` with its stopwords removed: no token is a stopword, the
      unique-word count is at most the word count, the letters are the tokens
      plus the single spaces between them, and the three are zero together. */
  lemma CleanCounts(cc: CharClass, stop: set<string>, review: string)
    ensures var x := RemoveStopwords(cc, stop, review);
      var ws := Words(cc, x);
      && (forall w :: w in ws ==> w !in stop)
      && Distinct(ws) <= |ws|
      && (ws != [] ==> |x| == TotalLength(ws) + |ws| - 1)
      && (|x| == 0 <==> |ws| == 0)
      && (Distinct(ws) == 0 <==> |ws| == 0)
  {
    RemoveStopwordsTokens(cc, stop, review);
    JoinedCounts(cc, WithoutStopwords(Words(cc, review), stop));
  }

  // Counts over the raw comment

  /** `len([c for c in x if c in string.punctuation])` */
  function CountPunctuation(s: string): (n: nat)
    ensures n <= |s|
    ensures n == 0 <==> forall i :: 0 <= i < |s| ==> !IsPunctuation(s[i])
    ensures n == |s| <==> forall i :: 0 <= i < |s| ==> IsPunctuation(s[i])
  {
    if s == [] then 0
    else
      var rest := CountPunctuation(s[1..]);
      assert forall i :: 1 <= i < |s| ==> s[i] == s[1..][i - 1];
      (if IsPunctuation(s[0]) then 1 else 0) + rest
  }

  /** The number of tokens passing a test. */
  function CountWhere(ws: seq<string>, p: string -> bool): (n: nat)
    ensures n <= |ws|
    ensures n == 0 <==> forall w :: w in ws ==> !p(w)
    ensures n == |ws| <==> forall w :: w in ws ==> p(w)
  {
    if ws == [] then 0
    else
      assert ws == [ws[0]] + ws[1..];
      (if p(ws[0]) then 1 else 0) + CountWhere(ws[1..], p)
  }

  /** An ASCII letter is the only cased character the model knows. */
  predicate IsCased(c: char)
  {
    IsAsciiUpper(c) || IsAsciiLower(c)
  }

  /** `str.isupper()`: some cased character and no lower-case one. */
  predicate IsUpperWord(w: string)
  {
    (exists i :: 0 <= i < |w| && IsAsciiUpper(w[i])) && forall i :: 0 <= i < |w| ==> !IsAsciiLower(w[i])
  }

  /** The scan `str.istitle()` performs: an upper-case letter may not follow a
      cased character, a lower-case letter must follow one, and some cased
      character must occur. `prevCased` and `seenCased` carry the scan's state. */
  function TitleScan(w: string, prevCased: bool, seenCased: bool): bool
  {
    if w == [] then seenCased
    else if IsAsciiUpper(w[0]) then !prevCased && TitleScan(w[1..], true, true)
    else if IsAsciiLower(w[0]) then prevCased && TitleScan(w[1..], true, true)
    else TitleScan(w[1..], false, seenCased)
  }

  /** `str.istitle()` */
  predicate IsTitleWord(w: string)
  {
    TitleScan(w, false, false)
  }

  /** Title case by position: every upper-case letter starts the word or follows
      an uncased character, every lower-case letter follows a cased one, and
      there is a cased character. */
  predicate TitleCased(w: string)
  {
    (exists i :: 0 <= i < |w| && IsCased(w[i])) && forall i :: 0 <= i < |w| ==> TitleAt(w, i)
  }

  /** The character at `i` is placed as title case allows. */
  predicate TitleAt(w: string, i: nat)
    requires i < |w|
  {
    && (IsAsciiUpper(w[i]) ==> i == 0 || !IsCased(w[i - 1]))
    && (IsAsciiLower(w[i]) ==> i > 0 && IsCased(w[i - 1]))
  }

  /** The scan, started after `prev` and having `seen` a cased character or
      not, accepts exactly the title-cased continuations. */
  lemma {:induction false} TitleScanSpec(prev: string, w: string, seen: bool)
    requires seen <==> exists i :: 0 <= i < |prev| && IsCased(prev[i])
    requires forall i :: 0 <= i < |prev| ==> TitleAt(prev, i)
    ensures TitleScan(w, prev != [] && IsCased(prev[|prev| - 1]), seen) == TitleCased(prev + w)
    decreases |w|
  {
    var s := prev + w;
    if w == [] {
      assert s == prev;
      assert TitleCased(prev) <==> seen;
    } else {
      var next := prev + [w[0]];
      var last := |prev|;
      assert s == next + w[1..];
      assert forall i :: 0 <= i < |next| ==> next[i] == s[i];
      assert forall i :: 0 <= i < |prev| ==> next[i] == prev[i];
      assert next[last] == w[0] == s[last];
      assert last > 0 ==> next[last - 1] == prev[last - 1] == s[last - 1];
      var ok0 := && (IsAsciiUpper(w[0]) ==> prev == [] || !IsCased(prev[last - 1]))
                 && (IsAsciiLower(w[0]) ==> prev != [] && IsCased(prev[last - 1]));
      if ok0 {
        var seen' := seen || IsCased(w[0]);
        if seen' {
          if seen {
            var i :| 0 <= i < |prev| && IsCased(prev[i]);
            assert IsCased(next[i]);
          } else {
            assert IsCased(next[last]);
          }
        } else {
          assert forall i :: 0 <= i < |next| ==> !IsCased(next[i]);
        }
        assert forall i :: 0 <= i < |prev| ==> TitleAt(next, i) == TitleAt(prev, i);
        assert TitleAt(next, last);
        TitleScanSpec(next, w[1..], seen');
      } else {
        assert !TitleAt(s, last);
      }
    }
  }

  /** `str.istitle()` is title case by position. */
  lemma TitleWordIsTitleCased(w: string)
    ensures IsTitleWord(w) == TitleCased(w)
  {
    TitleScanSpec([], w, false);
    assert [] + w == w;
  }

  /** `str.lower()` on every token. */
  function LowerAll(ws: seq<string>): (r: seq<string>)
    ensures |r| == |ws|
  {
    seq(|ws|, i requires 0 <= i < |ws| => LowerString(ws[i]))
  }

  /** Lowering keeps whitespace where it is, so the tokens of the lowered text
      are the lowered tokens; in particular there are as many. */
  lemma {:induction false} WordsOfLower(cc: CharClass, s: string)
    ensures Words(cc, LowerString(s)) == LowerAll(Words(cc, s))
    decreases |s|
  {
    if s != [] {
      var t := LowerString(s);
      LowerKeepsSpaces(cc, s);
      if IsSpace(cc, s[0]) {
        assert t[1..] == LowerString(s[1..]);
        WordsOfLower(cc, s[1..]);
      } else {
        var n := NonSpaceSpan(cc, s);
        SameSpan(cc, s, t);
        LowerSplit(s, n);
        WordsOfLower(cc, s[n..]);
        LowerAllCons(s[..n], Words(cc, s[n..]));
      }
    }
  }

  /** Lowering keeps every character's whitespace class. */
  lemma LowerKeepsSpaces(cc: CharClass, s: string)
    ensures forall i :: 0 <= i < |s| ==> IsSpace(cc, LowerString(s)[i]) == IsSpace(cc, s[i])
  {
    forall i | 0 <= i < |s| ensures IsSpace(cc, LowerString(s)[i]) == IsSpace(cc, s[i]) {
      LowerKeepsClass(cc, s[i]);
    }
  }

  /** Lowering commutes with cutting the text at `n`. */
  lemma LowerSplit(s: string, n: nat)
    requires n <= |s|
    ensures LowerString(s)[..n] == LowerString(s[..n]) && LowerString(s)[n..] == LowerString(s[n..])
  {
  }

  lemma LowerAllCons(w: string, ws: seq<string>)
    ensures LowerAll([w] + ws) == [LowerString(w)] + LowerAll(ws)
  {
  }

  /** Two strings with whitespace at the same positions have the same leading
      whitespace-free run. */
  lemma {:induction false} SameSpan(cc: CharClass, s: string, t: string)
    requires |s| == |t|
    requires forall i :: 0 <= i < |s| ==> IsSpace(cc, t[i]) == IsSpace(cc, s[i])
    ensures NonSpaceSpan(cc, t) == NonSpaceSpan(cc, s)
    decreases |s|
  {
    if s != [] && !IsSpace(cc, s[0]) {
      SameSpan(cc, s[1..], t[1..]);
    }
  }

  /** `len([w for w in x.lower().split() if w in stop_words])` */
  function CountStopwords(cc: CharClass, stop: set<string>, x: string): nat
  {
    CountWhere(Words(cc, LowerString(x)), w => w in stop)
  }

  /** The upper-case, title-case and stopword counts of a comment are each at
      most its number of whitespace tokens. */
  lemma CommentCountBounds(cc: CharClass, stop: set<string>, x: string)
    ensures CountWhere(Words(cc, x), IsUpperWord) <= |Words(cc, x)|
    ensures CountWhere(Words(cc, x), IsTitleWord) <= |Words(cc, x)|
    ensures CountStopwords(cc, stop, x) <= |Words(cc, x)|
  {
    WordsOfLower(cc, x);
  }

  // Mean word length

  /** `np.mean([len(w) for w in ws])` on a non-empty list, as an exact real. */
  function MeanLength(ws: seq<string>): (m: real)
    requires ws != []
    ensures m >= 0.0
  {
    TotalLength(ws) as real / |ws| as real
  }
}
