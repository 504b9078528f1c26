/** `postprocess_topic`: fifteen boolean columns decoded from the raw `topics`
    text by substring tests. Codes 1 to 4 are also substrings of 10 to 14, so
    their tests try to exclude the two-digit codes; codes 5 to 14 are plain
    substring tests. */
module TopicFlags {
  import opened Chars
  import opened Strings
  import opened Tables

  /** The column set for code `k`, in the order of the source's statements. */
  const FlagNames: seq<string> := [
    "no_side_effects",
    "fatigue",
    "diarrhea",
    "arthralgia",
    "headaches",
    "nausea",
    "rash",
    "hair loss",
    "constipation",
    "mental_health_issues",
    "leg_cramps",
    "heart_blood_pressure_issues",
    "liver_kidney_pain",
    "weight_loss",
    "weight_gain"]

  /** The decimal digit for `n`. */
  function Digit(n: nat): (c: char)
    requires n < 10
    ensures IsDigit(c) && c as int - '0' as int == n
  {
    ('0' as int + n) as char
  }

  /** The decimal text of a topic code. */
  function Code(k: nat): (r: string)
    requires k < 15
    ensures 1 <= |r| <= 2 && AllDigits(r)
    ensures |r| == 2 <==> k >= 10
  {
    if k < 10 then [Digit(k)] else ['1', Digit(k - 10)]
  }

  predicate AllDigits(s: string)
  {
    forall i :: 0 <= i < |s| ==> IsDigit(s[i])
  }

  predicate DigitFree(s: string)
  {
    forall i :: 0 <= i < |s| ==> !IsDigit(s[i])
  }

  /** The test the source applies for code `k` to the text `t`. */
  predicate Flag(k: nat, t: string)
    requires k < 15
  {
    if k == 0 then
      (Contains(t, " 0") || Contains(t, "Ex")) && !(Contains(t, ", 0") || Contains(t, "0,"))
    else if k == 1 then
      (Contains(t, "1") && !(Contains(t, "10") || Contains(t, "11") || Contains(t, "12") || Contains(t, "13") || Contains(t, "14")))
      || Contains(t, "1,")
    else if k <= 4 then
      (Contains(t, Code(k)) && !Contains(t, Code(k + 10)))
      || (Contains(t, Code(k) + ",") && !Contains(t, Code(k + 10) + ","))
    else
      Contains(t, Code(k))
  }

  /** The names of the fifteen flag columns, as a set. */
  const FlagSet: set<string> := DisambiguatedNames + DigitNames + TeenNames
  const DisambiguatedNames: set<string> := {"no_side_effects", "fatigue", "diarrhea", "arthralgia", "headaches"}
  const DigitNames: set<string> := {"nausea", "rash", "hair loss", "constipation", "mental_health_issues"}
  const TeenNames: set<string> := {"leg_cramps", "heart_blood_pressure_issues", "liver_kidney_pain", "weight_loss", "weight_gain"}

  /** Lines 198-212: the flags for codes 0 to 4, whose tests exclude the two-digit codes. */
  function DisambiguatedCells(t: string): (m: map<string, Cell>)
    ensures m.Keys == DisambiguatedNames
  {
    map[
      "no_side_effects" := Bool(Flag(0, t)),
      "fatigue" := Bool(Flag(1, t)),
      "diarrhea" := Bool(Flag(2, t)),
      "arthralgia" := Bool(Flag(3, t)),
      "headaches" := Bool(Flag(4, t))
    ]
  }

  /** Lines 213-217: the flags for the one-digit codes 5 to 9. */
  function DigitCells(t: string): (m: map<string, Cell>)
    ensures m.Keys == DigitNames
  {
    map[
      "nausea" := Bool(Flag(5, t)),
      "rash" := Bool(Flag(6, t)),
      "hair loss" := Bool(Flag(7, t)),
      "constipation" := Bool(Flag(8, t)),
      "mental_health_issues" := Bool(Flag(9, t))
    ]
  }

  /** Lines 218-222: the flags for the two-digit codes 10 to 14. */
  function TeenCells(t: string): (m: map<string, Cell>)
    ensures m.Keys == TeenNames
  {
    map[
      "leg_cramps" := Bool(Flag(10, t)),
      "heart_blood_pressure_issues" := Bool(Flag(11, t)),
      "liver_kidney_pain" := Bool(Flag(12, t)),
      "weight_loss" := Bool(Flag(13, t)),
      "weight_gain" := Bool(Flag(14, t))
    ]
  }

  /** Every cell `postprocess_topic` adds to a row whose topics text is `t`. */
  function FlagCells(t: string): (m: map<string, Cell>)
    ensures m.Keys == FlagSet
  {
    DisambiguatedCells(t) + DigitCells(t) + TeenCells(t)
  }

  /** The rows after `postprocess_topic`. */
  function WithFlags(rows: seq<Row>): (r: seq<Row>)
    ensures |r| == |rows|
  {
    Extended(rows, seq(|rows|, i requires 0 <= i < |rows| => FlagCells(TextAt(rows[i], "topics"))))
  }

  /** Lines 185-223: the function fails, changing nothing, when `topics` is
      missing or holds something other than text; otherwise it adds the
      fifteen flag columns and leaves every other cell as it was. */
  method PostprocessTopic(df: Frame) returns (ok: bool)
    requires df.Valid()
    modifies df
    ensures df.Valid()
    ensures ok == ("topics" in old(df.columns) && HasText(old(df.rows), "topics"))
    ensures !ok ==> df.columns == old(df.columns) && df.rows == old(df.rows)
    ensures ok ==> df.columns == old(df.columns) + FlagSet
    ensures ok ==> df.rows == WithFlags(old(df.rows))
  {
    if "topics" !in df.columns || !HasText(df.rows, "topics") {
      return false;
    }
    ok := true;
    var rows := df.rows;
    var n := |rows|;
    var topics := seq(n, i requires 0 <= i < n => TextAt(rows[i], "topics"));
    ghost var a1 := seq(n, i requires 0 <= i < n => DisambiguatedCells(topics[i]));
    ghost var a2 := seq(n, i requires 0 <= i < n => DigitCells(topics[i]));
    ghost var a3 := seq(n, i requires 0 <= i < n => TeenCells(topics[i]));
    AddDisambiguatedFlags(df, topics);
    AddDigitFlags(df, topics);
    ExtendedTwice(rows, a1, a2);
    AddTeenFlags(df, topics);
    ghost var a12 := seq(n, i requires 0 <= i < n => a1[i] + a2[i]);
    ExtendedTwice(rows, a12, a3);
  }


  /** Lines 198-212: the flags for codes 0 to 4, whose tests exclude the two-digit codes. */
  method AddDisambiguatedFlags(df: Frame, topics: seq<string>)
    requires df.Valid() && |topics| == |df.rows|
    modifies df
    ensures df.Valid()
    ensures df.columns == old(df.columns) + DisambiguatedNames
    ensures df.rows == Extended(old(df.rows), seq(|topics|, i requires 0 <= i < |topics| => DisambiguatedCells(topics[i])))
  {
    var n := |topics|;
    ghost var rows := df.rows;
    ExtendedNothing(rows);
    ghost var added: seq<map<string, Cell>> := seq(n, i => map[]);
    var c0 := seq(n, i requires 0 <= i < n => Bool(Flag(0, topics[i])));
    AssignExtended(rows, added, "no_side_effects", c0);
    df.Assign("no_side_effects", c0);
    added := seq(n, i requires 0 <= i < n => added[i]["no_side_effects" := c0[i]]);
    var c1 := seq(n, i requires 0 <= i < n => Bool(Flag(1, topics[i])));
    AssignExtended(rows, added, "fatigue", c1);
    df.Assign("fatigue", c1);
    added := seq(n, i requires 0 <= i < n => added[i]["fatigue" := c1[i]]);
    var c2 := seq(n, i requires 0 <= i < n => Bool(Flag(2, topics[i])));
    AssignExtended(rows, added, "diarrhea", c2);
    df.Assign("diarrhea", c2);
    added := seq(n, i requires 0 <= i < n => added[i]["diarrhea" := c2[i]]);
    var c3 := seq(n, i requires 0 <= i < n => Bool(Flag(3, topics[i])));
    AssignExtended(rows, added, "arthralgia", c3);
    df.Assign("arthralgia", c3);
    added := seq(n, i requires 0 <= i < n => added[i]["arthralgia" := c3[i]]);
    var c4 := seq(n, i requires 0 <= i < n => Bool(Flag(4, topics[i])));
    AssignExtended(rows, added, "headaches", c4);
    df.Assign("headaches", c4);
    added := seq(n, i requires 0 <= i < n => added[i]["headaches" := c4[i]]);
    forall i | 0 <= i < n ensures added[i] == DisambiguatedCells(topics[i]) {
      assert added[i] == map["no_side_effects" := c0[i], "fatigue" := c1[i], "diarrhea" := c2[i], "arthralgia" := c3[i], "headaches" := c4[i]];
    }
  }


  /** Lines 213-217: the flags for the one-digit codes 5 to 9. */
  method AddDigitFlags(df: Frame, topics: seq<string>)
    requires df.Valid() && |topics| == |df.rows|
    modifies df
    ensures df.Valid()
    ensures df.columns == old(df.columns) + DigitNames
    ensures df.rows == Extended(old(df.rows), seq(|topics|, i requires 0 <= i < |topics| => DigitCells(topics[i])))
  {
    var n := |topics|;
    ghost var rows := df.rows;
    ExtendedNothing(rows);
    ghost var added: seq<map<string, Cell>> := seq(n, i => map[]);
    var c0 := seq(n, i requires 0 <= i < n => Bool(Flag(5, topics[i])));
    AssignExtended(rows, added, "nausea", c0);
    df.Assign("nausea", c0);
    added := seq(n, i requires 0 <= i < n => added[i]["nausea" := c0[i]]);
    var c1 := seq(n, i requires 0 <= i < n => Bool(Flag(6, topics[i])));
    AssignExtended(rows, added, "rash", c1);
    df.Assign("rash", c1);
    added := seq(n, i requires 0 <= i < n => added[i]["rash" := c1[i]]);
    var c2 := seq(n, i requires 0 <= i < n => Bool(Flag(7, topics[i])));
    AssignExtended(rows, added, "hair loss", c2);
    df.Assign("hair loss", c2);
    added := seq(n, i requires 0 <= i < n => added[i]["hair loss" := c2[i]]);
    var c3 := seq(n, i requires 0 <= i < n => Bool(Flag(8, topics[i])));
    AssignExtended(rows, added, "constipation", c3);
    df.Assign("constipation", c3);
    added := seq(n, i requires 0 <= i < n => added[i]["constipation" := c3[i]]);
    var c4 := seq(n, i requires 0 <= i < n => Bool(Flag(9, topics[i])));
    AssignExtended(rows, added, "mental_health_issues", c4);
    df.Assign("mental_health_issues", c4);
    added := seq(n, i requires 0 <= i < n => added[i]["mental_health_issues" := c4[i]]);
    forall i | 0 <= i < n ensures added[i] == DigitCells(topics[i]) {
      assert added[i] == map["nausea" := c0[i], "rash" := c1[i], "hair loss" := c2[i], "constipation" := c3[i], "mental_health_issues" := c4[i]];
    }
  }


  /** Lines 218-222: the flags for the two-digit codes 10 to 14. */
  method AddTeenFlags(df: Frame, topics: seq<string>)
    requires df.Valid() && |topics| == |df.rows|
    modifies df
    ensures df.Valid()
    ensures df.columns == old(df.columns) + TeenNames
    ensures df.rows == Extended(old(df.rows), seq(|topics|, i requires 0 <= i < |topics| => TeenCells(topics[i])))
  {
    var n := |topics|;
    ghost var rows := df.rows;
    ExtendedNothing(rows);
    ghost var added: seq<map<string, Cell>> := seq(n, i => map[]);
    var c0 := seq(n, i requires 0 <= i < n => Bool(Flag(10, topics[i])));
    AssignExtended(rows, added, "leg_cramps", c0);
    df.Assign("leg_cramps", c0);
    added := seq(n, i requires 0 <= i < n => added[i]["leg_cramps" := c0[i]]);
    var c1 := seq(n, i requires 0 <= i < n => Bool(Flag(11, topics[i])));
    AssignExtended(rows, added, "heart_blood_pressure_issues", c1);
    df.Assign("heart_blood_pressure_issues", c1);
    added := seq(n, i requires 0 <= i < n => added[i]["heart_blood_pressure_issues" := c1[i]]);
    var c2 := seq(n, i requires 0 <= i < n => Bool(Flag(12, topics[i])));
    AssignExtended(rows, added, "liver_kidney_pain", c2);
    df.Assign("liver_kidney_pain", c2);
    added := seq(n, i requires 0 <= i < n => added[i]["liver_kidney_pain" := c2[i]]);
    var c3 := seq(n, i requires 0 <= i < n => Bool(Flag(13, topics[i])));
    AssignExtended(rows, added, "weight_loss", c3);
    df.Assign("weight_loss", c3);
    added := seq(n, i requires 0 <= i < n => added[i]["weight_loss" := c3[i]]);
    var c4 := seq(n, i requires 0 <= i < n => Bool(Flag(14, topics[i])));
    AssignExtended(rows, added, "weight_gain", c4);
    df.Assign("weight_gain", c4);
    added := seq(n, i requires 0 <= i < n => added[i]["weight_gain" := c4[i]]);
    forall i | 0 <= i < n ensures added[i] == TeenCells(topics[i]) {
      assert added[i] == map["leg_cramps" := c0[i], "heart_blood_pressure_issues" := c1[i], "liver_kidney_pain" := c2[i], "weight_loss" := c3[i], "weight_gain" := c4[i]];
    }
  }

  /** Row by row, `postprocess_topic` sets flag column `k` to the test for code
      `k` on that row's topics text, and keeps the index and every column
      that is not a flag column. */
  lemma WithFlagsAt(rows: seq<Row>, i: int, k: nat, c: string)
    requires 0 <= i < |rows| && k < 15
    ensures WithFlags(rows)[i].index == rows[i].index
    ensures FlagNames[k] in WithFlags(rows)[i].cells
    ensures WithFlags(rows)[i].cells[FlagNames[k]] == Bool(Flag(k, TextAt(rows[i], "topics")))
    ensures c !in FlagSet && c in rows[i].cells ==> c in WithFlags(rows)[i].cells && WithFlags(rows)[i].cells[c] == rows[i].cells[c]
  {
    WithFlagsRow(rows, i);
    FlagCellAt(TextAt(rows[i], "topics"), k);
  }

  /** The topics text itself is left as it was. */
  lemma TopicsKept(rows: seq<Row>, i: int)
    requires 0 <= i < |rows|
    ensures TextAt(WithFlags(rows)[i], "topics") == TextAt(rows[i], "topics")
  {
    var m := FlagCells(TextAt(rows[i], "topics"));
    WithFlagsRow(rows, i);
    NotFlagColumn(TextAt(rows[i], "topics"), "topics");
    TextKept(rows[i], m, "topics");
  }

  lemma NotFlagColumn(t: string, c: string)
    requires c == "topics"
    ensures c !in FlagCells(t)
  {
    assert c !in FlagSet;
  }

  lemma TextKept(r: Row, m: map<string, Cell>, c: string)
    requires c !in m
    ensures TextAt(Row(r.index, r.cells + m), c) == TextAt(r, c)
  {
  }

  lemma WithFlagsRow(rows: seq<Row>, i: int)
    requires 0 <= i < |rows|
    ensures WithFlags(rows)[i] == Row(rows[i].index, rows[i].cells + FlagCells(TextAt(rows[i], "topics")))
  {
    var added := seq(|rows|, j requires 0 <= j < |rows| => FlagCells(TextAt(rows[j], "topics")));
    assert added[i] == FlagCells(TextAt(rows[i], "topics"));
    assert WithFlags(rows) == Extended(rows, added);
  }

  /** The column for code `k` holds the test for code `k`. */
  lemma FlagCellAt(t: string, k: nat)
    requires k < 15
    ensures FlagNames[k] in FlagSet
    ensures FlagNames[k] in FlagCells(t) && FlagCells(t)[FlagNames[k]] == Bool(Flag(k, t))
  {
    var d, g, n := DisambiguatedCells(t), DigitCells(t), TeenCells(t);
    assert FlagCells(t) == d + g + n;
    NamesDisjoint();
    if k < 5 {
      DisambiguatedCellAt(t, k);
    } else if k < 10 {
      DigitCellAt(t, k);
    } else {
      TeenCellAt(t, k);
    }
  }

  /** No column name belongs to two groups. */
  lemma NamesDisjoint()
    ensures DisambiguatedNames !! DigitNames && DisambiguatedNames !! TeenNames && DigitNames !! TeenNames
  {
  }

  lemma DisambiguatedCellAt(t: string, k: nat)
    requires k < 5
    ensures FlagNames[k] in DisambiguatedNames
    ensures FlagNames[k] in DisambiguatedCells(t) && DisambiguatedCells(t)[FlagNames[k]] == Bool(Flag(k, t))
  {
    if k == 0 {
      assert FlagNames[k] == "no_side_effects";
    } else if k == 1 {
      assert FlagNames[k] == "fatigue";
    } else if k == 2 {
      assert FlagNames[k] == "diarrhea";
    } else if k == 3 {
      assert FlagNames[k] == "arthralgia";
    } else {
      assert FlagNames[k] == "headaches";
    }
  }

  lemma DigitCellAt(t: string, k: nat)
    requires 5 <= k < 10
    ensures FlagNames[k] in DigitNames
    ensures FlagNames[k] in DigitCells(t) && DigitCells(t)[FlagNames[k]] == Bool(Flag(k, t))
  {
    if k == 5 {
      assert FlagNames[k] == "nausea";
    } else if k == 6 {
      assert FlagNames[k] == "rash";
    } else if k == 7 {
      assert FlagNames[k] == "hair loss";
    } else if k == 8 {
      assert FlagNames[k] == "constipation";
    } else {
      assert FlagNames[k] == "mental_health_issues";
    }
  }

  lemma TeenCellAt(t: string, k: nat)
    requires 10 <= k < 15
    ensures FlagNames[k] in TeenNames
    ensures FlagNames[k] in TeenCells(t) && TeenCells(t)[FlagNames[k]] == Bool(Flag(k, t))
  {
    if k == 10 {
      assert FlagNames[k] == "leg_cramps";
    } else if k == 11 {
      assert FlagNames[k] == "heart_blood_pressure_issues";
    } else if k == 12 {
      assert FlagNames[k] == "liver_kidney_pain";
    } else if k == 13 {
      assert FlagNames[k] == "weight_loss";
    } else {
      assert FlagNames[k] == "weight_gain";
    }
  }

  // ---------------------------------------------------------------------
  // The decoder against lists of codes. A model reply of the form "1,2,3"
  // is a list of codes written in decimal and joined by a separator.

  predicate ValidCodes(codes: seq<nat>)
  {
    forall j :: 0 <= j < |codes| ==> codes[j] < 15
  }

  /** The decimal texts of the listed codes. */
  function Pieces(codes: seq<nat>): (ws: seq<string>)
    requires ValidCodes(codes)
    ensures |ws| == |codes| && forall j :: 0 <= j < |ws| ==> AllDigits(ws[j])
  {
    seq(|codes|, j requires 0 <= j < |codes| => Code(codes[j]))
  }

  /** The codes joined by `sep`, as in `sep.join(...)`. */
  function Render(sep: string, codes: seq<nat>): string
    requires ValidCodes(codes)
  {
    JoinWith(sep, Pieces(codes))
  }

  /** The codes whose flag the decoder sets for the text `t`. */
  function Decoded(t: string): set<nat>
  {
    set k: nat | k < 15 && Flag(k, t)
  }

  /** What the decoder reads from a list whose separator has no digit, comma,
      space or 'E': code 0 never, code 1 only when no two-digit code is
      listed, codes 2 to 4 only when their two-digit partner is not listed,
      and codes 5 to 14 whenever they are listed. */
  function CommaFreeReading(codes: seq<nat>): set<nat>
  {
    set k: nat | k < 15 && ReadWithoutCommas(codes, k)
  }

  predicate ReadWithoutCommas(codes: seq<nat>, k: nat)
  {
    0 < k && k in codes
    && (k == 1 ==> forall j :: 0 <= j < |codes| ==> codes[j] < 10)
    && (2 <= k <= 4 ==> k + 10 !in codes)
  }

  /** The decoder on a list joined by such a separator, as one set equation. */
  lemma DecodedWithoutCommas(sep: string, codes: seq<nat>)
    requires ValidCodes(codes) && sep != [] && DigitFree(sep)
    requires ',' !in sep && ' ' !in sep && 'E' !in sep
    ensures Decoded(Render(sep, codes)) == CommaFreeReading(codes)
  {
    var t := Render(sep, codes);
    forall k: nat
      ensures k in Decoded(t) <==> k in CommaFreeReading(codes)
    {
      if k < 15 {
        ReadingAt(sep, codes, k);
      }
    }
  }

  lemma ReadingAt(sep: string, codes: seq<nat>, k: nat)
    requires ValidCodes(codes) && sep != [] && DigitFree(sep)
    requires ',' !in sep && ' ' !in sep && 'E' !in sep && k < 15
    ensures Flag(k, Render(sep, codes)) <==> k in CommaFreeReading(codes)
  {
    if k == 0 {
      NoSideEffectsWithoutSpace(sep, codes);
    } else if k == 1 {
      FatigueWithoutCommas(sep, codes);
    } else if k <= 4 {
      DisambiguatedWithoutCommas(sep, codes, k);
    } else {
      PlainFlagsExact(sep, codes, k);
    }
  }

  /** A one-character pattern occurs exactly when the character does. */
  lemma ContainsChar(s: string, c: char)
    ensures Contains(s, [c]) <==> c in s
  {
    ContainsAt(s, [c]);
    if c in s {
      var i :| 0 <= i < |s| && s[i] == c;
      assert s[i..i + 1] == [c];
      assert OccursAt(s, [c], i);
    }
    if Contains(s, [c]) {
      ContainsHasChars(s, [c], 0);
    }
  }

  /** Every character of `sep.join(ws)` comes from `sep` or from a piece. */
  lemma {:induction false} JoinChars(sep: string, ws: seq<string>, c: char)
    requires c in JoinWith(sep, ws)
    ensures c in sep || exists j :: 0 <= j < |ws| && c in ws[j]
  {
    if |ws| > 1 {
      var rest := JoinWith(sep, ws[1..]);
      assert JoinWith(sep, ws) == ws[0] + sep + rest;
      if c in rest {
        JoinChars(sep, ws[1..], c);
        if c !in sep {
          var j :| 0 <= j < |ws[1..]| && c in ws[1..][j];
          assert c in ws[j + 1];
        }
      }
    }
  }

  /** The characters of a rendered code list are digits or come from `sep`. */
  lemma RenderChars(sep: string, codes: seq<nat>, c: char)
    requires ValidCodes(codes) && c in Render(sep, codes)
    ensures IsDigit(c) || c in sep
  {
    JoinChars(sep, Pieces(codes), c);
    if c !in sep {
      var j :| 0 <= j < |codes| && c in Pieces(codes)[j];
    }
  }

  /** A run of digits never straddles a part with no digits in it. */
  lemma DigitsAcross(a: string, m: string, b: string, p: string)
    requires p != [] && AllDigits(p) && m != [] && DigitFree(m)
    ensures Contains(a + m + b, p) <==> Contains(a, p) || Contains(b, p)
  {
    if Contains(a + m + b, p) {
      ContainsAt(a + m + b, p);
      var i :| OccursAt(a + m + b, p, i);
      NoStraddle(a, m, b, p, i);
      OccurrenceInPart(a, m, b, p, i);
    }
    if Contains(a, p) {
      ContainsInConcat(a, m + b, p, [], 0);
      assert [] + a + (m + b) == a + m + b;
    }
    if Contains(b, p) {
      var am := a + m;
      ContainsInConcat(b, [], p, am, |am|);
      assert am + b + [] == a + m + b;
    }
  }

  /** An occurrence found in `x` is found in `pre + x + post`. */
  lemma ContainsInConcat(x: string, post: string, p: string, pre: string, n: nat)
    requires Contains(x, p) && n == |pre|
    ensures Contains(pre + x + post, p)
  {
    var s := pre + x + post;
    ContainsAt(x, p);
    ContainsAt(s, p);
    var i :| OccursAt(x, p, i);
    assert s[n + i..n + i + |p|] == x[i..i + |p|];
    assert OccursAt(s, p, n + i);
  }

  /** An occurrence wholly inside `a` or wholly inside `b` is one of theirs. */
  lemma OccurrenceInPart(a: string, m: string, b: string, p: string, i: int)
    requires OccursAt(a + m + b, p, i) && (i + |p| <= |a| || i >= |a| + |m|)
    ensures Contains(a, p) || Contains(b, p)
  {
    var s := a + m + b;
    if i + |p| <= |a| {
      assert a[i..i + |p|] == s[i..i + |p|];
      assert OccursAt(a, p, i);
      ContainsAt(a, p);
    } else {
      var k := i - |a| - |m|;
      assert b[k..k + |p|] == s[i..i + |p|];
      assert OccursAt(b, p, k);
      ContainsAt(b, p);
    }
  }

  /** An occurrence of a run of digits lies wholly before or wholly after a
      digit-free middle part. */
  lemma NoStraddle(a: string, m: string, b: string, p: string, i: int)
    requires AllDigits(p) && p != [] && m != [] && DigitFree(m) && OccursAt(a + m + b, p, i)
    ensures i + |p| <= |a| || i >= |a| + |m|
  {
    var s := a + m + b;
    var j := if i < |a| then |a| else i;
    if i <= j < i + |p| {
      assert s[j] == s[i..i + |p|][j - i] == p[j - i];
      assert IsDigit(p[j - i]);
    }
    if |a| <= j < |a| + |m| {
      assert s[j] == m[j - |a|];
      assert !IsDigit(m[j - |a|]);
    }
  }

  /** With a digit-free separator, a run of digits occurs in `sep.join(ws)`
      exactly when it occurs in one of the pieces. */
  lemma {:induction false} DigitsInJoin(sep: string, ws: seq<string>, p: string)
    requires p != [] && AllDigits(p) && sep != [] && DigitFree(sep)
    ensures Contains(JoinWith(sep, ws), p) <==> exists j :: 0 <= j < |ws| && Contains(ws[j], p)
  {
    if |ws| > 1 {
      var rest := JoinWith(sep, ws[1..]);
      assert JoinWith(sep, ws) == ws[0] + sep + rest;
      DigitsInJoin(sep, ws[1..], p);
      DigitsAcross(ws[0], sep, rest, p);
      if j :| 0 <= j < |ws| && Contains(ws[j], p) {
        if j > 0 {
          assert ws[1..][j - 1] == ws[j];
        }
      }
      if j :| 0 <= j < |ws[1..]| && Contains(ws[1..][j], p) {
        assert ws[j + 1] == ws[1..][j];
      }
    }
  }

  /** Which code texts contain which: a code contains itself, and the text of
      a two-digit code 1d contains "1" and "d". */
  lemma CodeContains(c: nat, k: nat)
    requires c < 15 && k < 15
    ensures Contains(Code(c), Code(k)) <==> c == k || (k < 10 && c >= 10 && (c - 10 == k || k == 1))
  {
    if k < 10 {
      ContainsChar(Code(c), Digit(k));
      if c >= 10 {
        assert Code(c) == ['1', Digit(c - 10)];
      }
    } else {
      ContainsAt(Code(c), Code(k));
      if i :| OccursAt(Code(c), Code(k), i) {
        assert i == 0 && Code(c)[0..2] == Code(c);
      }
      if c == k {
        assert OccursAt(Code(c), Code(k), 0);
      }
    }
  }

  /** In a code list with a digit-free separator, the text of code `k` occurs
      exactly when a listed code's text contains it. */
  lemma CodeInList(sep: string, codes: seq<nat>, k: nat)
    requires ValidCodes(codes) && sep != [] && DigitFree(sep) && k < 15
    ensures Contains(Render(sep, codes), Code(k))
        <==> exists j :: 0 <= j < |codes| && (codes[j] == k || (k < 10 && codes[j] >= 10 && (codes[j] - 10 == k || k == 1)))
  {
    var ws := Pieces(codes);
    DigitsInJoin(sep, ws, Code(k));
    forall j | 0 <= j < |codes|
      ensures Contains(ws[j], Code(k)) <==> (codes[j] == k || (k < 10 && codes[j] >= 10 && (codes[j] - 10 == k || k == 1)))
    {
      CodeContains(codes[j], k);
    }
  }

  /** Codes 5 to 14 are decoded exactly: with any digit-free separator the
      flag is set if and only if the code is listed. */
  lemma PlainFlagsExact(sep: string, codes: seq<nat>, k: nat)
    requires ValidCodes(codes) && sep != [] && DigitFree(sep) && 5 <= k < 15
    ensures Flag(k, Render(sep, codes)) <==> k in codes
  {
    CodeInList(sep, codes, k);
  }

  /** A pattern ending in ',' cannot occur in a text without commas. */
  lemma NoCommaPattern(sep: string, codes: seq<nat>, p: string)
    requires ValidCodes(codes) && ',' !in sep
    ensures !Contains(Render(sep, codes), p + ",")
  {
    if Contains(Render(sep, codes), p + ",") {
      ContainsHasChars(Render(sep, codes), p + ",", |p|);
      RenderChars(sep, codes, ',');
    }
  }

  /** Codes 2 to 4 with a separator that has no comma: the flag is set if and
      only if the code is listed and its two-digit partner 1d is not, so a
      listed code is missed whenever 1d is listed too. */
  lemma DisambiguatedWithoutCommas(sep: string, codes: seq<nat>, k: nat)
    requires ValidCodes(codes) && sep != [] && DigitFree(sep) && ',' !in sep && 2 <= k <= 4
    ensures Flag(k, Render(sep, codes)) <==> k in codes && k + 10 !in codes
  {
    CodeInList(sep, codes, k);
    CodeInList(sep, codes, k + 10);
    NoCommaPattern(sep, codes, Code(k));
  }

  /** Codes 2 to 4, whatever the separator: a code listed without its
      two-digit partner is flagged... */
  lemma DisambiguatedListed(sep: string, codes: seq<nat>, k: nat)
    requires ValidCodes(codes) && sep != [] && DigitFree(sep) && 2 <= k <= 4
    requires k in codes && k + 10 !in codes
    ensures Flag(k, Render(sep, codes))
  {
    CodeInList(sep, codes, k);
    CodeInList(sep, codes, k + 10);
    var j :| 0 <= j < |codes| && codes[j] == k;
  }

  /** ...and a code listed neither alone nor inside its partner is not. */
  lemma DisambiguatedAbsent(sep: string, codes: seq<nat>, k: nat)
    requires ValidCodes(codes) && sep != [] && DigitFree(sep) && 2 <= k <= 4
    requires k !in codes && k + 10 !in codes
    ensures !Flag(k, Render(sep, codes))
  {
    CodeInList(sep, codes, k);
    AbsentDigitUnflagged(Render(sep, codes), k);
  }

  /** Code 1 with a separator that has no comma: fatigue is set if and only if
      code 1 is listed and no two-digit code is. */
  lemma FatigueWithoutCommas(sep: string, codes: seq<nat>)
    requires ValidCodes(codes) && sep != [] && DigitFree(sep) && ',' !in sep
    ensures Flag(1, Render(sep, codes)) <==> 1 in codes && forall j :: 0 <= j < |codes| ==> codes[j] < 10
  {
    var t := Render(sep, codes);
    var anyTeen := exists j :: 0 <= j < |codes| && codes[j] >= 10;
    TeenInList(sep, codes);
    CodeInList(sep, codes, 1);
    assert Code(1) == "1";
    if j :| 0 <= j < |codes| && codes[j] == 1 {
      assert 1 in codes;
    }
    if 1 in codes {
      var j :| 0 <= j < |codes| && codes[j] == 1;
    }
    assert Contains(t, "1") <==> 1 in codes || anyTeen;
    NoCommaPattern(sep, codes, "1");
    assert "1" + "," == "1,";
    assert Flag(1, t) <==> Contains(t, "1") && !anyTeen;
  }

  /** Some two-digit code is listed exactly when one of their texts occurs. */
  lemma TeenInList(sep: string, codes: seq<nat>)
    requires ValidCodes(codes) && sep != [] && DigitFree(sep)
    ensures (exists j :: 0 <= j < |codes| && codes[j] >= 10)
        <==> Contains(Render(sep, codes), "10") || Contains(Render(sep, codes), "11") || Contains(Render(sep, codes), "12")
             || Contains(Render(sep, codes), "13") || Contains(Render(sep, codes), "14")
  {
    CodeInList(sep, codes, 10);
    CodeInList(sep, codes, 11);
    CodeInList(sep, codes, 12);
    CodeInList(sep, codes, 13);
    CodeInList(sep, codes, 14);
    assert Code(10) == "10" && Code(11) == "11" && Code(12) == "12" && Code(13) == "13" && Code(14) == "14";
    if j :| 0 <= j < |codes| && codes[j] >= 10 {
      assert codes[j] == 10 || codes[j] == 11 || codes[j] == 12 || codes[j] == 13 || codes[j] == 14;
    }
  }
  /** A pattern found in `s` has each of its prefixes found in `s`. */
  lemma ContainsPrefixOf(s: string, p: string, q: string)
    requires Contains(s, p + q)
    ensures Contains(s, p)
  {
    ContainsAt(s, p + q);
    ContainsAt(s, p);
    var i :| OccursAt(s, p + q, i);
    assert s[i..i + |p|] == (p + q)[..|p|] == p;
    assert OccursAt(s, p, i);
  }

  /** Codes 1 to 4 are never flagged when their digit does not occur. */
  lemma AbsentDigitUnflagged(t: string, k: nat)
    requires 1 <= k <= 4 && !Contains(t, Code(k))
    ensures !Flag(k, t)
  {
    assert Code(1) == "1";
    if Contains(t, Code(k) + ",") {
      ContainsPrefixOf(t, Code(k), ",");
    }
  }

  /** No character pair `c` then `d` occurs when every `c` in `s` is followed
      by something other than `d` (or ends the text). */
  lemma NotFollowedBy(s: string, c: char, d: char)
    requires forall i :: 0 <= i < |s| - 1 && s[i] == c ==> s[i + 1] != d
    ensures !Contains(s, [c, d])
  {
    ContainsAt(s, [c, d]);
    forall i | 0 <= i <= |s| - 2
      ensures !OccursAt(s, [c, d], i)
    {
      assert s[i..i + 2][0] == s[i] && s[i..i + 2][1] == s[i + 1];
    }
  }

  /** A pattern occurs once a witness position is given. */
  lemma FoundAt(s: string, p: string, i: int)
    requires OccursAt(s, p, i)
    ensures Contains(s, p)
  {
    ContainsAt(s, p);
  }

  /** With a separator that has neither a space nor an 'E', `no_side_effects`
      is never set, whichever codes are listed, code 0 included. */
  lemma NoSideEffectsWithoutSpace(sep: string, codes: seq<nat>)
    requires ValidCodes(codes) && ' ' !in sep && 'E' !in sep
    ensures !Flag(0, Render(sep, codes))
  {
    var t := Render(sep, codes);
    if Contains(t, " 0") {
      ContainsHasChars(t, " 0", 0);
      RenderChars(sep, codes, ' ');
    }
    if Contains(t, "Ex") {
      ContainsHasChars(t, "Ex", 0);
      RenderChars(sep, codes, 'E');
    }
  }

  /** In `", ".join(...)` of pieces without spaces, every space follows a comma. */
  lemma {:induction false} SpacesAfterCommas(ws: seq<string>)
    requires forall j :: 0 <= j < |ws| ==> ' ' !in ws[j]
    ensures |JoinWith(", ", ws)| > 0 ==> JoinWith(", ", ws)[0] != ' '
    ensures forall i :: 0 < i < |JoinWith(", ", ws)| && JoinWith(", ", ws)[i] == ' ' ==> JoinWith(", ", ws)[i - 1] == ','
  {
    if |ws| == 1 {
      if |ws[0]| > 0 {
        assert ws[0][0] in ws[0];
      }
      forall i | 0 < i < |ws[0]| ensures ws[0][i] != ' ' {
        assert ws[0][i] in ws[0];
      }
    } else if |ws| > 1 {
      var w, rest := ws[0], JoinWith(", ", ws[1..]);
      var t := JoinWith(", ", ws);
      assert t == w + ", " + rest;
      SpacesAfterCommas(ws[1..]);
      assert ws[1] == ws[1..][0];
      if |w| > 0 {
        assert w[0] in ws[0];
      }
      forall i | 0 < i < |t| ensures t[i] == ' ' ==> t[i - 1] == ',' {
        if i < |w| {
          assert t[i] == w[i] && w[i] in ws[0];
        } else if i >= |w| + 2 {
          assert rest[i - |w| - 2] == t[i];
          if i - |w| - 2 > 0 {
            assert rest[i - |w| - 3] == t[i - 1];
          }
        }
      }
    }
  }

  /** With ", " as the separator `no_side_effects` is never set either: every
      " 0" in such a list is part of a ", 0". */
  lemma NoSideEffectsCommaSpace(codes: seq<nat>)
    requires ValidCodes(codes)
    ensures !Flag(0, Render(", ", codes))
  {
    var t := Render(", ", codes);
    if Contains(t, "Ex") {
      ContainsHasChars(t, "Ex", 0);
      RenderChars(", ", codes, 'E');
    }
    if Contains(t, " 0") {
      ContainsAt(t, " 0");
      var i :| OccursAt(t, " 0", i);
      assert t[i] == t[i..i + 2][0] == ' ';
      assert t[i + 1] == t[i..i + 2][1] == '0';
      forall j | 0 <= j < |codes| ensures ' ' !in Pieces(codes)[j] {
        var w := Pieces(codes)[j];
        assert forall x :: 0 <= x < |w| ==> w[x] != ' ';
      }
      SpacesAfterCommas(Pieces(codes));
      assert t[i - 1..i + 2] == ", 0";
      FoundAt(t, ", 0", i - 1);
    }
  }

  /** "1,2,3" sets exactly fatigue, diarrhea and arthralgia. */
  lemma DecodeOneTwoThree()
    ensures Decoded("1,2,3") == {1, 2, 3}
  {
    var codes: seq<nat> := [1, 2, 3];
    assert Render(",", codes) == "1,2,3";
    forall k: nat | k < 15 ensures Flag(k, Render(",", codes)) <==> k in {1, 2, 3} {
      if k < 5 {
        OneTwoThreeLow(k);
      } else {
        PlainFlagsExact(",", codes, k);
      }
    }
  }

  lemma OneTwoThreeLow(k: nat)
    requires k < 5
    ensures Flag(k, Render(",", [1, 2, 3])) <==> 1 <= k <= 3
  {
    var codes: seq<nat> := [1, 2, 3];
    if k == 0 {
      NoSideEffectsWithoutSpace(",", codes);
    } else if k == 1 {
      FatigueInOneTwoThree();
    } else if k <= 3 {
      DisambiguatedListed(",", codes, k);
    } else {
      DisambiguatedAbsent(",", codes, 4);
    }
  }

  lemma FatigueInOneTwoThree()
    ensures Flag(1, Render(",", [1, 2, 3]))
  {
    var t := Render(",", [1, 2, 3]);
    assert t == "1,2,3";
    FoundAt(t, "1,", 0);
  }

  /** "11,12" sets fatigue (through its "1,"), heart_blood_pressure_issues and
      liver_kidney_pain, and nothing else. */
  lemma DecodeElevenTwelve()
    ensures Decoded("11,12") == {1, 11, 12}
  {
    var codes: seq<nat> := [11, 12];
    assert Render(",", codes) == "11,12";
    forall k: nat | k < 15 ensures Flag(k, Render(",", codes)) <==> k in {1, 11, 12} {
      if k < 5 {
        ElevenTwelveLow(k);
      } else {
        PlainFlagsExact(",", codes, k);
      }
    }
  }

  lemma ElevenTwelveLow(k: nat)
    requires k < 5
    ensures Flag(k, Render(",", [11, 12])) <==> k == 1
  {
    var codes: seq<nat> := [11, 12];
    var t := Render(",", codes);
    assert t == "11,12";
    if k == 0 {
      NoSideEffectsWithoutSpace(",", codes);
    } else if k == 1 {
      FoundAt(t, "1,", 1);
    } else if k == 2 {
      TwelveHidesTwo();
    } else {
      DisambiguatedAbsent(",", codes, k);
    }
  }

  /** In "11,12" the "2" sits inside "12" and is followed by no comma. */
  lemma TwelveHidesTwo()
    ensures !Flag(2, "11,12")
  {
    var t := "11,12";
    assert t[3..5] == "12";
    FoundAt(t, "12", 3);
    NotFollowedBy(t, '2', ',');
    assert Code(2) == "2" && Code(12) == "12";
    assert Code(2) + "," == ['2', ','];
  }

  /** "0" sets no flag at all: `no_side_effects` needs " 0" or "Ex". */
  lemma DecodeZero()
    ensures Decoded("0") == {}
  {
    var codes: seq<nat> := [0];
    var t := Render(",", codes);
    assert t == "0";
    forall k: nat | k < 15 ensures !Flag(k, t) {
      if k == 0 {
        NoSideEffectsWithoutSpace(",", codes);
      } else if k == 1 {
        CodeInList(",", codes, 1);
        AbsentDigitUnflagged(t, 1);
      } else if k <= 4 {
        DisambiguatedAbsent(",", codes, k);
      } else {
        PlainFlagsExact(",", codes, k);
      }
    }
  }

  /** The "1," alternative sets fatigue for a list without code 1. */
  lemma FatigueWithoutCodeOne()
    ensures Flag(1, Render(",", [11, 2])) && 1 !in [11, 2]
  {
    assert Render(",", [11, 2]) == "11,2";
    FoundAt("11,2", "1,", 1);
  }

  /** Code 2 is missed when 12 is listed before it and nothing follows it. */
  lemma DiarrheaMissed()
    ensures !Flag(2, Render(", ", [12, 2])) && 2 in [12, 2]
  {
    var t := Render(", ", [12, 2]);
    assert t == "12, 2";
    FoundAt(t, "12", 0);
    FoundAt(t, "12,", 0);
  }
}
