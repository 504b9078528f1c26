/** `preprocess_review`: the fixed chain of rewrites applied to one review,
    followed by spaCy lemmatisation. Each regular-expression substitution is a
    function that scans left to right as `re.sub` does (leftmost match, greedy,
    no overlap); the lemmatiser is a parameter. */
module Cleaning {
  import opened Chars
  import opened Strings

  // ---------------------------------------------------------------------------
  // Step 2: `re.sub(r"&\w+;", "", review)`

  /** Length of the longest prefix of word characters. */
  function WordSpan(cc: CharClass, s: string): (n: nat)
    ensures n <= |s|
    ensures forall i :: 0 <= i < n ==> IsWord(cc, s[i])
    ensures n == |s| || !IsWord(cc, s[n])
  {
    if s == [] || !IsWord(cc, s[0]) then 0 else 1 + WordSpan(cc, s[1..])
  }

  /** A match of `&\w+;`. */
  predicate IsEntity(cc: CharClass, t: string)
  {
    |t| >= 3 && t[0] == '&' && t[|t| - 1] == ';' && forall i :: 1 <= i < |t| - 1 ==> IsWord(cc, t[i])
  }

  /** Length of the match of `&\w+;` at the start of `s`, or 0 when none. */
  function EntityLength(cc: CharClass, s: string): (n: nat)
    ensures n <= |s|
    ensures n > 0 ==> IsEntity(cc, s[..n])
  {
    if s != [] && s[0] == '&' then
      var k := WordSpan(cc, s[1..]);
      if 0 < k && k + 1 < |s| && s[k + 1] == ';' then k + 2 else 0
    else 0
  }

  /** The match found is the only one: no other prefix of `s` is an entity. */
  lemma EntityLengthExact(cc: CharClass, s: string, m: nat)
    requires m <= |s| && IsEntity(cc, s[..m])
    ensures EntityLength(cc, s) == m
  {
    var u := s[1..];
    forall i | 0 <= i < m - 2 ensures IsWord(cc, u[i]) {
      assert u[i] == s[..m][i + 1];
    }
    assert u[m - 2] == s[..m][m - 1] == ';';
    WordSpanExact(cc, u, m - 2);
    assert s[0] == s[..m][0] == '&';
  }

  /** A run of `n` word characters followed by a non-word character is the
      longest prefix of word characters. */
  lemma {:induction false} WordSpanExact(cc: CharClass, u: string, n: nat)
    requires n < |u| && !IsWord(cc, u[n])
    requires forall i :: 0 <= i < n ==> IsWord(cc, u[i])
    ensures WordSpan(cc, u) == n
  {
    if n > 0 {
      assert forall i :: 0 <= i < n - 1 ==> u[1..][i] == u[i + 1];
      WordSpanExact(cc, u[1..], n - 1);
    }
  }

  /** The review with every `&\w+;` match removed. */
  function RemoveEntities(cc: CharClass, s: string): (r: string)
    ensures |r| <= |s|
    ensures forall c :: c in r ==> c in s
    ensures '&' !in s ==> r == s
    decreases |s|
  {
    if s == [] then []
    else
      var n := EntityLength(cc, s);
      if n > 0 then
        assert s[..n][0] == s[0];
        RemoveEntities(cc, s[n..])
      else [s[0]] + RemoveEntities(cc, s[1..])
  }

  // ---------------------------------------------------------------------------
  // Step 3: `re.sub(r"http\S+|www.\S+", "", review)`

  /** A match of `http\S+|www.\S+` (the `.` takes any character but a newline). */
  predicate IsUrl(cc: CharClass, t: string)
  {
    && |t| > 4
    && (t[..4] == "http" || (t[..3] == "www" && t[3] != '\n'))
    && forall i :: 4 <= i < |t| ==> !IsSpace(cc, t[i])
  }

  /** Length of the greedy match of `http\S+|www.\S+` at the start of `s`, or 0. */
  function UrlLength(cc: CharClass, s: string): (n: nat)
    ensures n <= |s|
    ensures n > 0 ==> IsUrl(cc, s[..n]) && (n == |s| || IsSpace(cc, s[n]))
    ensures n == 0 ==> forall m :: 0 <= m <= |s| ==> !IsUrl(cc, s[..m])
  {
    if |s| > 4 && (s[..4] == "http" || (s[..3] == "www" && s[3] != '\n')) && !IsSpace(cc, s[4]) then
      var n := 4 + NonSpaceSpan(cc, s[4..]);
      assert forall i :: 4 <= i < n ==> s[..n][i] == s[4..][i - 4];
      n
    else
      assert forall m :: 4 < m <= |s| ==> s[..m][4] == s[4];
      0
  }

  /** The review with every URL match removed. */
  function RemoveUrls(cc: CharClass, s: string): (r: string)
    ensures |r| <= |s|
    ensures forall c :: c in r ==> c in s
    decreases |s|
  {
    if s == [] then []
    else
      var n := UrlLength(cc, s);
      if n > 0 then RemoveUrls(cc, s[n..]) else [s[0]] + RemoveUrls(cc, s[1..])
  }

  // ---------------------------------------------------------------------------
  // Steps 4 and 5: `re.sub(r"[^\w\s]", "", review)` and `re.sub(r"[^\x00-\x7F]+", "", review)`

  /** The review keeping only word characters and whitespace. Every such
      character survives, as often as it occurred and in its original order. */
  function RemovePunctuation(cc: CharClass, s: string): (r: string)
    ensures forall c :: c in r ==> IsWord(cc, c) || IsSpace(cc, c)
    ensures forall c :: IsWord(cc, c) || IsSpace(cc, c) ==> multiset(r)[c] == multiset(s)[c]
    ensures forall c :: c in r ==> c in s
    ensures IsSubsequence(r, s)
  {
    if s == [] then []
    else
      assert s == [s[0]] + s[1..];
      if IsWord(cc, s[0]) || IsSpace(cc, s[0]) then [s[0]] + RemovePunctuation(cc, s[1..])
      else RemovePunctuation(cc, s[1..])
  }

  /** The review keeping only ASCII characters. Every ASCII character survives,
      as often as it occurred and in its original order. */
  function RemoveNonAscii(s: string): (r: string)
    ensures forall c :: c in r ==> IsAscii(c)
    ensures forall c :: IsAscii(c) ==> multiset(r)[c] == multiset(s)[c]
    ensures forall c :: c in r ==> c in s
    ensures IsSubsequence(r, s)
  {
    if s == [] then []
    else
      assert s == [s[0]] + s[1..];
      if IsAscii(s[0]) then [s[0]] + RemoveNonAscii(s[1..]) else RemoveNonAscii(s[1..])
  }

  // ---------------------------------------------------------------------------
  // Step 6: `review.strip()`

  predicate AllSpace(cc: CharClass, s: string)
  {
    forall i :: 0 <= i < |s| ==> IsSpace(cc, s[i])
  }

  /** Length of the longest whitespace prefix. */
  function LeadingSpaces(cc: CharClass, s: string): (n: nat)
    ensures n <= |s| && AllSpace(cc, s[..n])
    ensures n == |s| || !IsSpace(cc, s[n])
  {
    if s == [] || !IsSpace(cc, s[0]) then 0
    else
      var n := 1 + LeadingSpaces(cc, s[1..]);
      assert forall i :: 1 <= i < n ==> s[..n][i] == s[1..][..n - 1][i - 1];
      n
  }

  /** Length of the longest whitespace suffix. */
  function TrailingSpaces(cc: CharClass, s: string): (n: nat)
    ensures n <= |s| && AllSpace(cc, s[|s| - n..])
    ensures n == |s| || !IsSpace(cc, s[|s| - n - 1])
  {
    if s == [] || !IsSpace(cc, s[|s| - 1]) then 0
    else
      var t := s[..|s| - 1];
      var n := 1 + TrailingSpaces(cc, t);
      assert forall i :: |s| - n <= i < |s| - 1 ==> s[i] == t[i];
      n
  }

  /** `r` is `s` with only whitespace cut from its two ends, `k` characters from the front. */
  predicate StrippedAt(cc: CharClass, s: string, r: string, k: int)
  {
    0 <= k <= |s| - |r| && s[k..k + |r|] == r && AllSpace(cc, s[..k]) && AllSpace(cc, s[k + |r|..])
  }

  /** `str.strip()`: the review without leading and trailing whitespace. */
  function Strip(cc: CharClass, s: string): (r: string)
    ensures r == [] || (!IsSpace(cc, r[0]) && !IsSpace(cc, r[|r| - 1]))
    ensures exists k :: StrippedAt(cc, s, r, k)
    ensures forall c :: c in r ==> c in s
  {
    var a := LeadingSpaces(cc, s);
    var t := s[a..];
    var b := TrailingSpaces(cc, t);
    var r := t[..|t| - b];
    assert s[a..a + |r|] == r;
    assert s[a + |r|..] == t[|t| - b..];
    assert StrippedAt(cc, s, r, a);
    assert forall i :: 0 <= i < |r| ==> r[i] == s[a + i];
    assert r != [] ==> r[0] == s[a] && r[|r| - 1] == t[|t| - b - 1];
    r
  }

  // ---------------------------------------------------------------------------
  // Step 7: `re.sub(r"\s+", " ", review)`

  /** Every maximal whitespace run replaced by one space. */
  function CollapseSpaces(cc: CharClass, s: string): (r: string)
    ensures r == [] <==> s == []
    ensures forall i :: 0 <= i < |r| ==> r[i] == ' ' || (r[i] in s && !IsSpace(cc, r[i]))
    ensures r != [] ==> (r[0] == ' ' <==> IsSpace(cc, s[0]))
    ensures r != [] ==> (r[|r| - 1] == ' ' <==> IsSpace(cc, s[|s| - 1]))
    ensures forall i :: 0 <= i < |r| - 1 ==> !(r[i] == ' ' && r[i + 1] == ' ')
    decreases |s|
  {
    if s == [] then []
    else if IsSpace(cc, s[0]) then
      var n := LeadingSpaces(cc, s);
      assert s[..n][0] == s[0];
      var rest := s[n..];
      assert rest != [] ==> rest[|rest| - 1] == s[|s| - 1];
      " " + CollapseSpaces(cc, rest)
    else
      assert s[1..] != [] ==> s[1..][|s[1..]| - 1] == s[|s| - 1];
      [s[0]] + CollapseSpaces(cc, s[1..])
  }

  /** Collapsing whitespace runs keeps the text's tokens: together with the
      clauses of `CollapseSpaces` on its ends and on adjacent spaces, this pins
      the result down. */
  lemma {:induction false} CollapseSpacesWords(cc: CharClass, s: string)
    ensures Words(cc, CollapseSpaces(cc, s)) == Words(cc, s)
    decreases |s|
  {
    if s == [] {
    } else if IsSpace(cc, s[0]) {
      CollapseSpacesWords(cc, s[LeadingSpaces(cc, s)..]);
      CollapseSpaceRun(cc, s);
    } else {
      CollapseSpacesWords(cc, s[1..]);
      CollapseNonSpace(cc, s);
    }
  }

  /** A leading whitespace run neither adds nor removes a token, before or
      after the collapse. */
  lemma CollapseSpaceRun(cc: CharClass, s: string)
    requires s != [] && IsSpace(cc, s[0])
    ensures var n := LeadingSpaces(cc, s);
      && Words(cc, CollapseSpaces(cc, s)) == Words(cc, CollapseSpaces(cc, s[n..]))
      && Words(cc, s) == Words(cc, s[n..])
  {
    var n := LeadingSpaces(cc, s);
    assert CollapseSpaces(cc, s) == " " + CollapseSpaces(cc, s[n..]);
    WordsAfterSpace(cc, CollapseSpaces(cc, s[n..]));
    LeadingRunIsSpace(cc, s);
    WordsSkipSpaces(cc, s, n);
  }

  /** Every character of the leading whitespace run is whitespace. */
  lemma LeadingRunIsSpace(cc: CharClass, s: string)
    ensures forall i :: 0 <= i < LeadingSpaces(cc, s) ==> IsSpace(cc, s[i])
  {
    var n := LeadingSpaces(cc, s);
    forall i | 0 <= i < n ensures IsSpace(cc, s[i]) {
      assert s[..n][i] == s[i];
    }
  }

  /** A leading non-space character joins the first token the same way before
      and after the collapse. */
  lemma CollapseNonSpace(cc: CharClass, s: string)
    requires s != [] && !IsSpace(cc, s[0])
    requires Words(cc, CollapseSpaces(cc, s[1..])) == Words(cc, s[1..])
    ensures Words(cc, CollapseSpaces(cc, s)) == Words(cc, s)
  {
    CollapseUnfolds(cc, s);
    CollapseCons(cc, s[0], s[1..]);
  }

  /** `CollapseSpaces` keeps a leading non-space character, and the text is that
      character followed by the rest. */
  lemma CollapseUnfolds(cc: CharClass, s: string)
    requires s != [] && !IsSpace(cc, s[0])
    ensures CollapseSpaces(cc, s) == [s[0]] + CollapseSpaces(cc, s[1..])
    ensures s == [s[0]] + s[1..]
  {
  }

  /** The same for a text behind a non-space character `c`. */
  lemma CollapseCons(cc: CharClass, c: char, t: string)
    requires !IsSpace(cc, c) && Words(cc, CollapseSpaces(cc, t)) == Words(cc, t)
    ensures Words(cc, [c] + CollapseSpaces(cc, t)) == Words(cc, [c] + t)
  {
    CollapseStartsAlike(cc, t);
    ConsSameWords(cc, c, t, CollapseSpaces(cc, t));
  }

  /** The collapsed text starts with whitespace exactly when the text does. */
  lemma CollapseStartsAlike(cc: CharClass, t: string)
    ensures var r := CollapseSpaces(cc, t);
      r != [] ==> (IsSpace(cc, r[0]) <==> IsSpace(cc, t[0]))
  {
    var r := CollapseSpaces(cc, t);
    if r != [] {
      assert IsSpace(cc, ' ');
      assert r[0] == ' ' || !IsSpace(cc, r[0]);
    }
  }

  /** Two texts with the same tokens, both empty or both starting with
      whitespace or not, keep the same tokens behind one more character. */
  lemma ConsSameWords(cc: CharClass, c: char, t: string, r: string)
    requires !IsSpace(cc, c) && Words(cc, r) == Words(cc, t)
    requires r == [] <==> t == []
    requires r != [] ==> (IsSpace(cc, r[0]) <==> IsSpace(cc, t[0]))
    ensures Words(cc, [c] + r) == Words(cc, [c] + t)
  {
    WordsCons(cc, c, t);
    WordsCons(cc, c, r);
  }

  // ---------------------------------------------------------------------------
  // Step 8: `re.sub(r"\.{2,}", " ", review)`

  /** Length of the longest prefix of dots. */
  function DotSpan(s: string): (n: nat)
    ensures n <= |s|
    ensures forall i :: 0 <= i < n ==> s[i] == '.'
    ensures n == |s| || s[n] != '.'
  {
    if s == [] || s[0] != '.' then 0 else 1 + DotSpan(s[1..])
  }

  /** Every run of two or more dots replaced by one space. A review without
      dots is left as it is, and no two adjacent dots remain. */
  function CollapseDots(s: string): (r: string)
    ensures '.' !in s ==> r == s
    ensures r != [] ==> s != [] && (r[0] == '.' <==> s[0] == '.' && (|s| == 1 || s[1] != '.'))
    ensures forall i :: 0 <= i < |r| - 1 ==> !(r[i] == '.' && r[i + 1] == '.')
    decreases |s|
  {
    if |s| >= 2 && s[0] == '.' && s[1] == '.' then
      " " + CollapseDots(s[DotSpan(s)..])
    else if s == [] then []
    else
      assert s == [s[0]] + s[1..];
      [s[0]] + CollapseDots(s[1..])
  }

  /** A prefix of `a` that ends in something other than a dot is rewritten on
      its own: the scan never carries a run of dots across its end. */
  lemma {:induction false} CollapseDotsAppend(a: string, t: string)
    requires a == [] || a[|a| - 1] != '.'
    ensures CollapseDots(a + t) == CollapseDots(a) + CollapseDots(t)
    decreases |a|
  {
    if a == [] {
      assert a + t == t;
      assert CollapseDots(a) == [];
    } else if |a| >= 2 && a[0] == '.' && a[1] == '.' {
      var k := DotSpan(a);
      CollapseDotsAppend(a[k..], t);
      AppendAfterRun(a, t, k);
    } else {
      CollapseDotsAppend(a[1..], t);
      AppendAfterOther(a, t);
    }
  }

  /** The step of `CollapseDotsAppend` when `a` opens with a run of dots. */
  lemma AppendAfterRun(a: string, t: string, k: nat)
    requires |a| >= 2 && a[0] == '.' && a[1] == '.' && a[|a| - 1] != '.'
    requires k == DotSpan(a)
    requires CollapseDots(a[k..] + t) == CollapseDots(a[k..]) + CollapseDots(t)
    ensures CollapseDots(a + t) == CollapseDots(a) + CollapseDots(t)
  {
    RunStepOfAppend(a, t, k);
    CollapseDotsRunStep(a, a[k..]);
    PrefixAssoc(" ", CollapseDots(a[k..]), CollapseDots(t));
  }

  /** The scan replaces the run of dots opening `a + t` as it replaces that of `a`. */
  lemma RunStepOfAppend(a: string, t: string, k: nat)
    requires |a| >= 2 && a[0] == '.' && a[1] == '.' && a[|a| - 1] != '.'
    requires k == DotSpan(a)
    ensures CollapseDots(a + t) == " " + CollapseDots(a[k..] + t)
  {
    AppendHead(a, t);
    DotSpanOfPrefix(a, t, k);
    AppendTail(a, t, k);
    CollapseDotsRunStep(a + t, a[k..] + t);
  }

  /** The step of `CollapseDotsAppend` when `a` does not open with two dots. */
  lemma AppendAfterOther(a: string, t: string)
    requires a != [] && a[|a| - 1] != '.' && !(|a| >= 2 && a[0] == '.' && a[1] == '.')
    requires CollapseDots(a[1..] + t) == CollapseDots(a[1..]) + CollapseDots(t)
    ensures CollapseDots(a + t) == CollapseDots(a) + CollapseDots(t)
  {
    KeepStepOfAppend(a, t);
    CollapseDotsKeepStep(a, a[1..]);
    PrefixAssoc([a[0]], CollapseDots(a[1..]), CollapseDots(t));
  }

  /** The scan keeps the first character of `a + t` as it keeps that of `a`. */
  lemma KeepStepOfAppend(a: string, t: string)
    requires a != [] && a[|a| - 1] != '.' && !(|a| >= 2 && a[0] == '.' && a[1] == '.')
    ensures CollapseDots(a + t) == [a[0]] + CollapseDots(a[1..] + t)
  {
    AppendHead(a, t);
    AppendTail(a, t, 1);
    CollapseDotsKeepStep(a + t, a[1..] + t);
  }

  /** The first two characters of `a + t` are those of `a`. */
  lemma AppendHead(a: string, t: string)
    requires a != []
    ensures (a + t)[0] == a[0]
    ensures |a| >= 2 ==> (a + t)[1] == a[1]
  {
  }

  /** Cutting `k` characters of `a` off the front of `a + t`. */
  lemma AppendTail(a: string, t: string, k: nat)
    requires k <= |a|
    ensures (a + t)[k..] == a[k..] + t
  {
  }

  /** Concatenation regrouped. */
  lemma PrefixAssoc(p: string, x: string, y: string)
    ensures p + (x + y) == (p + x) + y
  {
  }

  /** One step of the scan over a run of two or more dots. */
  lemma CollapseDotsRunStep(s: string, u: string)
    requires |s| >= 2 && s[0] == '.' && s[1] == '.' && u == s[DotSpan(s)..]
    ensures CollapseDots(s) == " " + CollapseDots(u)
  {
  }

  /** One step of the scan over any other character. */
  lemma CollapseDotsKeepStep(s: string, u: string)
    requires s != [] && !(|s| >= 2 && s[0] == '.' && s[1] == '.') && u == s[1..]
    ensures CollapseDots(s) == [s[0]] + CollapseDots(u)
  {
  }

  /** The run of dots opening `a + t` is the one opening `a` when `a` has a non-dot. */
  lemma DotSpanOfPrefix(a: string, t: string, k: nat)
    requires k < |a| && a[k] != '.' && forall i :: 0 <= i < k ==> a[i] == '.'
    ensures DotSpan(a + t) == k
  {
    assert (a + t)[k] == a[k];
    assert forall i :: 0 <= i < k ==> (a + t)[i] == a[i];
  }

  /** A run of two or more dots at the front becomes one space. */
  lemma DotRunFront(d: string, b: string)
    requires |d| >= 2 && forall i :: 0 <= i < |d| ==> d[i] == '.'
    requires b == [] || b[0] != '.'
    ensures CollapseDots(d + b) == " " + CollapseDots(b)
  {
    var s := d + b;
    assert forall i :: 0 <= i < |d| ==> s[i] == d[i];
    assert |s| == |d| || s[|d|] == b[0];
    assert DotSpan(s) == |d|;
    assert s[|d|..] == b;
    CollapseDotsRunStep(s, b);
  }

  /** `re.sub(r"\.{2,}", " ", ...)` on a maximal run of two or more dots: the run
      becomes one space and the text on either side is rewritten on its own. */
  lemma CollapseDotsOfRun(a: string, d: string, b: string)
    requires a == [] || a[|a| - 1] != '.'
    requires |d| >= 2 && forall i :: 0 <= i < |d| ==> d[i] == '.'
    requires b == [] || b[0] != '.'
    ensures CollapseDots(a + d + b) == CollapseDots(a) + " " + CollapseDots(b)
  {
    assert a + d + b == a + (d + b);
    CollapseDotsAppend(a, d + b);
    DotRunFront(d, b);
    PrefixAssoc(CollapseDots(a), " ", CollapseDots(b));
  }

  /** A single dot between non-dots is not a match and stays where it is. */
  lemma CollapseDotsOfSingle(a: string, b: string)
    requires a == [] || a[|a| - 1] != '.'
    requires b == [] || b[0] != '.'
    ensures CollapseDots(a + "." + b) == CollapseDots(a) + "." + CollapseDots(b)
  {
    var s := "." + b;
    assert a + "." + b == a + s;
    CollapseDotsAppend(a, s);
    DotSingleFront(b);
    PrefixAssoc(CollapseDots(a), ".", CollapseDots(b));
  }

  /** A lone dot at the front is kept. */
  lemma DotSingleFront(b: string)
    requires b == [] || b[0] != '.'
    ensures CollapseDots("." + b) == "." + CollapseDots(b)
  {
    var s := "." + b;
    assert |s| == 1 || s[1] == b[0];
    assert s[1..] == b;
    CollapseDotsKeepStep(s, b);
  }

  // ---------------------------------------------------------------------------
  // The whole chain

  /** Steps 1 to 7: lowercase, entities, URLs, punctuation, non-ASCII, strip,
      whitespace runs. */
  function CleanThroughSpaces(cc: CharClass, review: string): string
  {
    var lowered := LowerString(review);
    var noEntities := RemoveEntities(cc, lowered);
    var noUrls := RemoveUrls(cc, noEntities);
    var noPunctuation := RemovePunctuation(cc, noUrls);
    var ascii := RemoveNonAscii(noPunctuation);
    var stripped := Strip(cc, ascii);
    CollapseSpaces(cc, stripped)
  }

  /** The review as `preprocess_review` hands it to the lemmatiser (steps 1 to 8). */
  function Clean(cc: CharClass, review: string): string
  {
    CollapseDots(CleanThroughSpaces(cc, review))
  }

  /** The shape of a cleaned review: lower-case ASCII letters, digits, `_` and
      single spaces, with no space at either end. */
  predicate Normalized(t: string)
  {
    && (forall i :: 0 <= i < |t| ==> IsAsciiLower(t[i]) || IsDigit(t[i]) || t[i] == '_' || t[i] == ' ')
    && (t != [] ==> t[0] != ' ' && t[|t| - 1] != ' ')
    && (forall i :: 0 <= i < |t| - 1 ==> !(t[i] == ' ' && t[i + 1] == ' '))
  }

  /** After step 5 every character is ASCII, not upper case, and a word
      character or whitespace. */
  lemma AsciiStageShape(cc: CharClass, review: string)
    ensures forall c :: c in RemoveNonAscii(RemovePunctuation(cc, RemoveUrls(cc, RemoveEntities(cc, LowerString(review))))) ==>
      IsAscii(c) && !IsAsciiUpper(c) && (IsWord(cc, c) || IsSpace(cc, c))
  {
  }

  /** Before lemmatisation the review is normalized, whatever the input. */
  lemma CleanIsNormalized(cc: CharClass, review: string)
    ensures Normalized(CleanThroughSpaces(cc, review))
    ensures Normalized(Clean(cc, review))
  {
    var ascii := RemoveNonAscii(RemovePunctuation(cc, RemoveUrls(cc, RemoveEntities(cc, LowerString(review)))));
    AsciiStageShape(cc, review);
    SpacingNormalizes(cc, ascii);
  }

  /** Steps 6 and 7 turn ASCII word characters and whitespace without upper
      case into a normalized text, which holds no dot. */
  lemma SpacingNormalizes(cc: CharClass, ascii: string)
    requires forall c :: c in ascii ==> IsAscii(c) && !IsAsciiUpper(c) && (IsWord(cc, c) || IsSpace(cc, c))
    ensures Normalized(CollapseSpaces(cc, Strip(cc, ascii)))
    ensures '.' !in CollapseSpaces(cc, Strip(cc, ascii))
  {
    var stripped := Strip(cc, ascii);
    var t := CollapseSpaces(cc, stripped);
    KeptClasses(cc, ascii, stripped, t);
  }

  /** Characters that are spaces or come unchanged, and not as whitespace, from
      lower-case ASCII word characters and whitespace are lower-case letters,
      digits, `_` or spaces. */
  lemma KeptClasses(cc: CharClass, ascii: string, stripped: string, t: string)
    requires forall c :: c in ascii ==> IsAscii(c) && !IsAsciiUpper(c) && (IsWord(cc, c) || IsSpace(cc, c))
    requires forall c :: c in stripped ==> c in ascii
    requires forall i :: 0 <= i < |t| ==> t[i] == ' ' || (t[i] in stripped && !IsSpace(cc, t[i]))
    ensures forall i :: 0 <= i < |t| ==> IsAsciiLower(t[i]) || IsDigit(t[i]) || t[i] == '_' || t[i] == ' '
    ensures '.' !in t
  {
  }

  /** The `\.{2,}` rewrite never changes anything: no dot survives step 4. */
  lemma DotStepIsNoOp(cc: CharClass, review: string)
    ensures Clean(cc, review) == CleanThroughSpaces(cc, review)
  {
    CleanIsNormalized(cc, review);
  }

  // ---------------------------------------------------------------------------
  // Step 9: lemmatisation

  /** One spaCy token: its text and its lemma (`lemma_`). */
  datatype Token = Token(text: string, base: string)

  /** `token.lemma_ if token.lemma_ != "-PRON-" else token.text` */
  function Surface(t: Token): string
  {
    if t.base != "-PRON-" then t.base else t.text
  }

  function Surfaces(ts: seq<Token>): (r: seq<string>)
    ensures |r| == |ts|
  {
    seq(|ts|, i requires 0 <= i < |ts| => Surface(ts[i]))
  }

  /** `preprocess_review`: the cleaned review, run through the lemmatiser `nlp`,
      with the surface forms joined by single spaces. */
  function PreprocessReview(cc: CharClass, nlp: string -> seq<Token>, review: string): string
  {
    JoinSpaces(Surfaces(nlp(Clean(cc, review))))
  }

  /** When every surface form is a whitespace-free non-empty token, splitting
      the preprocessed review on whitespace gives back exactly those forms, one
      per spaCy token, in order. */
  lemma ReviewTokens(cc: CharClass, nlp: string -> seq<Token>, review: string)
    requires forall t :: t in nlp(Clean(cc, review)) ==> IsToken(cc, Surface(t))
    ensures Words(cc, PreprocessReview(cc, nlp, review)) == Surfaces(nlp(Clean(cc, review)))
  {
    var ts := nlp(Clean(cc, review));
    forall w | w in Surfaces(ts) ensures IsToken(cc, w) {
      var i :| 0 <= i < |ts| && Surfaces(ts)[i] == w;
      assert ts[i] in ts;
    }
    WordsOfJoin(cc, Surfaces(ts));
  }

  // ---------------------------------------------------------------------------
  // Cleaning twice

  /** Cleaning is not idempotent, not even on text that is already normalized:
      removing the '!' after the URL step joins "htt" and "px" into "httpx",
      which the URL step of a second pass removes as a whole. */
  lemma CleanNotIdempotent(cc: CharClass)
    ensures Clean(cc, "htt!px") == "httpx"
    ensures Normalized("httpx")
    ensures Clean(cc, Clean(cc, "htt!px")) == []
  {
    LowerWordExample();
    FirstCleaning(cc);
    SecondCleaning(cc);
  }

  lemma FirstCleaning(cc: CharClass)
    ensures Clean(cc, "htt!px") == "httpx"
  {
    var s := "htt!px";
    var t := "httpx";
    assert LowerString(s) == s by { LowerStringFixed(s); }
    assert RemoveEntities(cc, s) == s;
    assert RemoveUrls(cc, s) == s by { UrlFreeExample(cc); }
    assert RemovePunctuation(cc, s) == t by { PunctuationExample(cc); }
    LowerWordExample();
    CleanOfLowerWord(cc, s, t);
  }

  /** When the removals leave a lowercase word, the remaining stages keep it. */
  lemma CleanOfLowerWord(cc: CharClass, review: string, t: string)
    requires RemovePunctuation(cc, RemoveUrls(cc, RemoveEntities(cc, LowerString(review)))) == t
    requires LowerWord(t)
    ensures Clean(cc, review) == t
  {
    NonAsciiLowerWord(t);
    StripLowerWord(cc, t);
    CollapseLowerWord(cc, t);
    assert '.' !in t;
  }

  lemma LowerWordExample()
    ensures LowerWord("httpx") && Normalized("httpx")
  {
  }

  lemma PunctuationExample(cc: CharClass)
    ensures RemovePunctuation(cc, "htt!px") == "httpx"
  {
    ExampleParts(cc);
    PunctuationBetween(cc, "htt", '!', "px");
  }

  /** The example split around its '!', which is punctuation between two
      lowercase words. */
  lemma ExampleParts(cc: CharClass)
    ensures "htt!px" == "htt" + ['!'] + "px" && "htt" + "px" == "httpx"
    ensures LowerWord("htt") && LowerWord("px")
    ensures IsAscii('!') && !IsWord(cc, '!') && !IsSpace(cc, '!')
  {
  }

  /** A punctuation mark between two lowercase words is the only thing removed. */
  lemma {:induction false} PunctuationBetween(cc: CharClass, a: string, c: char, b: string)
    requires LowerWord(a) && LowerWord(b) && IsAscii(c) && !IsWord(cc, c) && !IsSpace(cc, c)
    ensures RemovePunctuation(cc, a + [c] + b) == a + b
  {
    if a == [] {
      assert a + [c] + b == [c] + b;
      PunctuationDrops(cc, c, b);
      PunctuationKeepsWord(cc, b);
    } else {
      assert LowerWord(a[1..]) by { assert forall i :: 0 <= i < |a| - 1 ==> a[1..][i] == a[i + 1]; }
      PunctuationBetween(cc, a[1..], c, b);
      ConsSplit(a, [c], b);
      PunctuationKeeps(cc, a[0], a[1..] + [c] + b);
    }
  }

  lemma ConsSplit(a: string, m: string, b: string)
    requires a != []
    ensures a + m + b == [a[0]] + (a[1..] + m + b)
    ensures a + b == [a[0]] + (a[1..] + b)
  {
  }

  lemma PunctuationDrops(cc: CharClass, c: char, rest: string)
    requires !IsWord(cc, c) && !IsSpace(cc, c)
    ensures RemovePunctuation(cc, [c] + rest) == RemovePunctuation(cc, rest)
  {
    assert ([c] + rest)[1..] == rest;
  }

  lemma PunctuationKeeps(cc: CharClass, x: char, rest: string)
    requires IsWord(cc, x)
    ensures RemovePunctuation(cc, [x] + rest) == [x] + RemovePunctuation(cc, rest)
  {
    assert ([x] + rest)[1..] == rest;
  }

  lemma {:induction false} PunctuationKeepsWord(cc: CharClass, t: string)
    requires LowerWord(t)
    ensures RemovePunctuation(cc, t) == t
  {
    if t != [] {
      assert LowerWord(t[1..]) by { assert forall i :: 0 <= i < |t| - 1 ==> t[1..][i] == t[i + 1]; }
      PunctuationKeepsWord(cc, t[1..]);
      assert t == [t[0]] + t[1..];
    }
  }

  lemma NoUrlStart(cc: CharClass, s: string)
    requires |s| <= 4 || (s[0] != 'w' && (s[0] != 'h' || s[3] != 'p'))
    ensures UrlLength(cc, s) == 0
  {
    if |s| > 4 {
      assert s[..4][0] == s[0] && s[..4][3] == s[3] && s[..3][0] == s[0];
    }
  }

  lemma UrlFreeExample(cc: CharClass)
    ensures RemoveUrls(cc, "htt!px") == "htt!px"
  {
    var s := "htt!px";
    NoUrlStart(cc, s);
    assert s[1..] == "tt!px";
    NoUrlStart(cc, "tt!px");
    assert "tt!px"[1..] == "t!px";
    NoUrlStart(cc, "t!px");
    assert "t!px"[1..] == "!px";
    NoUrlStart(cc, "!px");
    assert "!px"[1..] == "px";
    NoUrlStart(cc, "px");
    assert "px"[1..] == "x";
    NoUrlStart(cc, "x");
    assert "x"[1..] == [];
  }

  /** Lowercase ASCII letters only. */
  predicate LowerWord(t: string)
  {
    forall i :: 0 <= i < |t| ==> IsAsciiLower(t[i])
  }

  lemma StripLowerWord(cc: CharClass, t: string)
    requires LowerWord(t)
    ensures Strip(cc, t) == t
  {
    if t != [] {
      assert LeadingSpaces(cc, t) == 0;
      assert t[0..] == t;
      assert TrailingSpaces(cc, t) == 0;
    }
  }

  lemma {:induction false} NonAsciiLowerWord(t: string)
    requires LowerWord(t)
    ensures RemoveNonAscii(t) == t
  {
    if t != [] {
      assert LowerWord(t[1..]) by { assert forall i :: 0 <= i < |t| - 1 ==> t[1..][i] == t[i + 1]; }
      NonAsciiLowerWord(t[1..]);
      assert t == [t[0]] + t[1..];
    }
  }

  lemma {:induction false} CollapseLowerWord(cc: CharClass, t: string)
    requires LowerWord(t)
    ensures CollapseSpaces(cc, t) == t
  {
    if t != [] {
      assert LowerWord(t[1..]) by { assert forall i :: 0 <= i < |t| - 1 ==> t[1..][i] == t[i + 1]; }
      CollapseLowerWord(cc, t[1..]);
      assert t == [t[0]] + t[1..];
    }
  }

  lemma LowerStringFixed(s: string)
    requires forall i :: 0 <= i < |s| ==> !IsAsciiUpper(s[i])
    ensures LowerString(s) == s
  {
  }

  lemma SecondCleaning(cc: CharClass)
    ensures Clean(cc, "httpx") == []
  {
    var s := "httpx";
    LowerStringFixed(s);
    assert RemoveEntities(cc, s) == s;
    assert UrlLength(cc, s) == 5 by { assert s[..4] == "http"; assert s[4..] == "x"; }
    assert RemoveUrls(cc, s) == [];
    CleanOfLowerWord(cc, s, []);
  }
}
