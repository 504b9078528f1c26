/** `preprocess_data`: add the cleaned review and ten features computed from
    the `comment` column to the table, in place (eleven new columns). */
module DataPrep {
  import opened Chars
  import opened Strings
  import opened Tables
  import opened Cleaning
  import opened Features

  /** What `preprocess_data` takes from its environment: the Unicode character
      classes, the spaCy pipeline, NLTK's English stopword list and TextBlob's
      polarity score. */
  datatype Resources = Resources(
    cc: CharClass,
    nlp: string -> seq<Token>,
    stopWords: set<string>,
    polarity: string -> real)

  /** `review_clean`: the preprocessed review with stopwords removed. */
  function ReviewClean(res: Resources, comment: string): string
  {
    RemoveStopwords(res.cc, res.stopWords, PreprocessReview(res.cc, res.nlp, comment))
  }

  /** `mean_word_len`: the mean token length, missing (NaN) when there are no tokens. */
  function MeanWordLen(ws: seq<string>): Cell
  {
    if ws == [] then Missing else Real(MeanLength(ws))
  }

  /** The columns `preprocess_data` adds, in the order of its statements. */
  const FeatureNames: set<string> := {"review_clean"} + {"sentiment", "sentiment_clean"}
    + {"count_word", "count_unique_word", "count_letters"}
    + {"count_punctuations", "count_words_upper", "count_words_title", "count_stopwords"}
    + {"mean_word_len"}

  /** Lines 89-95: the cleaned review. */
  function ReviewCells(res: Resources, comment: string): (m: map<string, Cell>)
    ensures m.Keys == {"review_clean"}
  {
    map["review_clean" := Text(ReviewClean(res, comment))]
  }

  /** Lines 98-101: polarity of the comment and of the cleaned review. */
  function SentimentCells(res: Resources, comment: string): (m: map<string, Cell>)
    ensures m.Keys == {"sentiment", "sentiment_clean"}
  {
    map["sentiment" := Real(res.polarity(comment)),
        "sentiment_clean" := Real(res.polarity(ReviewClean(res, comment)))]
  }

  /** Lines 104-108: counts over the cleaned review. */
  function CleanCountCells(res: Resources, comment: string): (m: map<string, Cell>)
    ensures m.Keys == {"count_word", "count_unique_word", "count_letters"}
  {
    var clean := ReviewClean(res, comment);
    var ws := Words(res.cc, clean);
    map["count_word" := Int(|ws|),
        "count_unique_word" := Int(Distinct(ws)),
        "count_letters" := Int(|clean|)]
  }

  /** Lines 109-120: counts over the raw comment. */
  function CommentCountCells(res: Resources, comment: string): (m: map<string, Cell>)
    ensures m.Keys == {"count_punctuations", "count_words_upper", "count_words_title", "count_stopwords"}
  {
    var raw := Words(res.cc, comment);
    map["count_punctuations" := Int(CountPunctuation(comment)),
        "count_words_upper" := Int(CountWhere(raw, IsUpperWord)),
        "count_words_title" := Int(CountWhere(raw, IsTitleWord)),
        "count_stopwords" := Int(CountStopwords(res.cc, res.stopWords, comment))]
  }

  /** Lines 121-123: the mean token length of the cleaned review. */
  function MeanCells(res: Resources, comment: string): (m: map<string, Cell>)
    ensures m.Keys == {"mean_word_len"}
  {
    map["mean_word_len" := MeanWordLen(Words(res.cc, ReviewClean(res, comment)))]
  }

  /** The cells `preprocess_data` adds to a row whose comment is `comment`. */
  function FeatureCells(res: Resources, comment: string): (m: map<string, Cell>)
    ensures m.Keys == FeatureNames
  {
    ReviewCells(res, comment) + SentimentCells(res, comment) + CleanCountCells(res, comment)
      + CommentCountCells(res, comment) + MeanCells(res, comment)
  }

  /** The rows once every feature has been added. */
  function WithFeatures(res: Resources, rows: seq<Row>): (r: seq<Row>)
    ensures |r| == |rows|
  {
    seq(|rows|, i requires 0 <= i < |rows| => Row(rows[i].index, rows[i].cells + FeatureCells(res, TextAt(rows[i], "comment"))))
  }

  /** What the features of one comment satisfy: `review_clean` holds no
      stopword token, the unique-word count is at most the word count, the
      text and its word and unique-word counts are empty or zero together, and
      the counts over the raw comment are bounded by its length or its number
      of tokens. */
  lemma FeatureFacts(res: Resources, comment: string)
    ensures var clean := ReviewClean(res, comment);
      var ws := Words(res.cc, clean);
      var raw := |Words(res.cc, comment)|;
      && (forall w :: w in ws ==> w !in res.stopWords)
      && Distinct(ws) <= |ws|
      && (|clean| == 0 <==> |ws| == 0)
      && (Distinct(ws) == 0 <==> |ws| == 0)
      && CountPunctuation(comment) <= |comment|
      && CountWhere(Words(res.cc, comment), IsUpperWord) <= raw
      && CountWhere(Words(res.cc, comment), IsTitleWord) <= raw
      && CountStopwords(res.cc, res.stopWords, comment) <= raw
  {
    var clean := ReviewClean(res, comment);
    var ws := Words(res.cc, clean);
    CleanCounts(res.cc, res.stopWords, PreprocessReview(res.cc, res.nlp, comment));
    CommentCountBounds(res.cc, res.stopWords, comment);
  }

  /** `mean_word_len` is missing exactly when `review_clean` has no token, and
      is otherwise the letters of `review_clean` less the single spaces between
      its tokens, spread over the tokens. */
  lemma MeanFacts(res: Resources, comment: string)
    ensures var clean := ReviewClean(res, comment);
      var ws := Words(res.cc, clean);
      && (ws == [] <==> MeanWordLen(ws) == Missing)
      && (ws != [] ==> MeanWordLen(ws) == Real(MeanOver(|clean| - |ws| + 1, |ws|)))
  {
    MeanOfJoined(res.cc, res.stopWords, PreprocessReview(res.cc, res.nlp, comment), ReviewClean(res, comment));
  }

  /** The mean over the tokens of `clean`, the result of stopword removal from
      any text `x`. */
  lemma MeanOfJoined(cc: CharClass, stop: set<string>, x: string, clean: string)
    requires clean == RemoveStopwords(cc, stop, x)
    ensures var ws := Words(cc, clean);
      && (ws == [] <==> MeanWordLen(ws) == Missing)
      && (ws != [] ==> MeanWordLen(ws) == Real(MeanOver(|clean| - |ws| + 1, |ws|)))
  {
    var ws := Words(cc, clean);
    CleanCounts(cc, stop, x);
    if ws != [] {
      MeanSpread(ws, |clean|);
    }
  }

  /** `letters` spread over `n` tokens. */
  function MeanOver(letters: int, n: nat): real
    requires n > 0
  {
    letters as real / n as real
  }

  /** The mean length of the tokens of a text made of them and the single
      spaces between them. */
  lemma MeanSpread(ws: seq<string>, letters: int)
    requires ws != [] && letters == TotalLength(ws) + |ws| - 1
    ensures MeanWordLen(ws) == Real(MeanOver(letters - |ws| + 1, |ws|))
  {
    assert letters - |ws| + 1 == TotalLength(ws);
  }

  /** `preprocess_data(data)`: fails (pandas or Python raises) and changes
      nothing unless every row has a text comment; otherwise adds the feature
      columns to every row, keeping everything else. */
  method PreprocessData(data: Frame, res: Resources) returns (ok: bool)
    requires data.Valid()
    modifies data
    ensures data.Valid()
    ensures ok == ("comment" in old(data.columns) && HasText(old(data.rows), "comment"))
    ensures !ok ==> data.columns == old(data.columns) && data.rows == old(data.rows)
    ensures ok ==> data.columns == old(data.columns) + FeatureNames
    ensures ok ==> data.rows == WithFeatures(res, old(data.rows))
  {
    if "comment" !in data.columns || !HasText(data.rows, "comment") {
      return false;
    }
    ok := true;
    var rows := data.rows;
    var n := |rows|;
    var comments := seq(n, i requires 0 <= i < n => TextAt(rows[i], "comment"));
    ghost var a1 := seq(n, i requires 0 <= i < n => ReviewCells(res, comments[i]));
    ghost var a2 := seq(n, i requires 0 <= i < n => SentimentCells(res, comments[i]));
    ghost var a3 := seq(n, i requires 0 <= i < n => CleanCountCells(res, comments[i]));
    ghost var a4 := seq(n, i requires 0 <= i < n => CommentCountCells(res, comments[i]));
    ghost var a5 := seq(n, i requires 0 <= i < n => MeanCells(res, comments[i]));
    CleanReviews(data, res, comments);
    AddSentiment(data, res, comments);
    ExtendedTwice(rows, a1, a2);
    AddCleanCounts(data, res, comments);
    ghost var a12 := seq(n, i requires 0 <= i < n => a1[i] + a2[i]);
    ExtendedTwice(rows, a12, a3);
    AddCommentCounts(data, res, comments);
    ghost var a123 := seq(n, i requires 0 <= i < n => a12[i] + a3[i]);
    ExtendedTwice(rows, a123, a4);
    AddMeanWordLen(data, res, comments);
    ghost var a1234 := seq(n, i requires 0 <= i < n => a123[i] + a4[i]);
    ExtendedTwice(rows, a1234, a5);
  }

  /** Lines 89-95: `review_clean` is set to the preprocessed review and then
      replaced by the same text without stopwords. */
  method CleanReviews(data: Frame, res: Resources, comments: seq<string>)
    requires data.Valid() && |comments| == |data.rows|
    modifies data
    ensures data.Valid()
    ensures data.columns == old(data.columns) + {"review_clean"}
    ensures data.rows == Extended(old(data.rows), seq(|comments|, i requires 0 <= i < |comments| => ReviewCells(res, comments[i])))
  {
    var n := |comments|;
    ghost var rows := data.rows;
    var reviews := seq(n, i requires 0 <= i < n => PreprocessReview(res.cc, res.nlp, comments[i]));
    var first := seq(n, i requires 0 <= i < n => Text(reviews[i]));
    data.Assign("review_clean", first);
    var column := seq(n, i requires 0 <= i < n => Text(RemoveStopwords(res.cc, res.stopWords, reviews[i])));
    data.Assign("review_clean", column);
    AssignTwice(rows, "review_clean", first, column);
    ExtendedNothing(rows);
    ghost var empty: seq<map<string, Cell>> := seq(n, i => map[]);
    AssignExtended(rows, empty, "review_clean", column);
    forall i | 0 <= i < n
      ensures empty[i]["review_clean" := column[i]] == ReviewCells(res, comments[i])
    {
      assert empty[i] == map[];
      assert column[i] == Text(ReviewClean(res, comments[i]));
      assert empty[i]["review_clean" := column[i]] == map["review_clean" := column[i]];
    }
  }

  /** Lines 98-101: the polarity of the comment and of the cleaned review. */
  method AddSentiment(data: Frame, res: Resources, comments: seq<string>)
    requires data.Valid() && |comments| == |data.rows|
    modifies data
    ensures data.Valid()
    ensures data.columns == old(data.columns) + {"sentiment", "sentiment_clean"}
    ensures data.rows == Extended(old(data.rows), seq(|comments|, i requires 0 <= i < |comments| => SentimentCells(res, comments[i])))
  {
    var n := |comments|;
    ghost var rows := data.rows;
    ExtendedNothing(rows);
    ghost var added: seq<map<string, Cell>> := seq(n, i => map[]);
    var cleans := seq(n, i requires 0 <= i < n => ReviewClean(res, comments[i]));
    var c0 := seq(n, i requires 0 <= i < n => Real(res.polarity(comments[i])));
    AssignExtended(rows, added, "sentiment", c0);
    data.Assign("sentiment", c0);
    added := seq(n, i requires 0 <= i < n => added[i]["sentiment" := c0[i]]);
    var c1 := seq(n, i requires 0 <= i < n => Real(res.polarity(cleans[i])));
    AssignExtended(rows, added, "sentiment_clean", c1);
    data.Assign("sentiment_clean", c1);
    added := seq(n, i requires 0 <= i < n => added[i]["sentiment_clean" := c1[i]]);
    forall i | 0 <= i < n ensures added[i] == SentimentCells(res, comments[i]) {
      assert added[i] == map["sentiment" := c0[i], "sentiment_clean" := c1[i]];
    }
  }

  /** Lines 104-108: the word, unique-word and letter counts of the cleaned review. */
  method AddCleanCounts(data: Frame, res: Resources, comments: seq<string>)
    requires data.Valid() && |comments| == |data.rows|
    modifies data
    ensures data.Valid()
    ensures data.columns == old(data.columns) + {"count_word", "count_unique_word", "count_letters"}
    ensures data.rows == Extended(old(data.rows), seq(|comments|, i requires 0 <= i < |comments| => CleanCountCells(res, comments[i])))
  {
    var n := |comments|;
    ghost var rows := data.rows;
    ExtendedNothing(rows);
    ghost var added: seq<map<string, Cell>> := seq(n, i => map[]);
    var cleans := seq(n, i requires 0 <= i < n => ReviewClean(res, comments[i]));
    var c0 := seq(n, i requires 0 <= i < n => Int(|Words(res.cc, cleans[i])|));
    AssignExtended(rows, added, "count_word", c0);
    data.Assign("count_word", c0);
    added := seq(n, i requires 0 <= i < n => added[i]["count_word" := c0[i]]);
    var c1 := seq(n, i requires 0 <= i < n => Int(Distinct(Words(res.cc, cleans[i]))));
    AssignExtended(rows, added, "count_unique_word", c1);
    data.Assign("count_unique_word", c1);
    added := seq(n, i requires 0 <= i < n => added[i]["count_unique_word" := c1[i]]);
    var c2 := seq(n, i requires 0 <= i < n => Int(|cleans[i]|));
    AssignExtended(rows, added, "count_letters", c2);
    data.Assign("count_letters", c2);
    added := seq(n, i requires 0 <= i < n => added[i]["count_letters" := c2[i]]);
    forall i | 0 <= i < n ensures added[i] == CleanCountCells(res, comments[i]) {
      assert added[i] == map["count_word" := c0[i], "count_unique_word" := c1[i], "count_letters" := c2[i]];
    }
  }

  /** Lines 109-120: the punctuation, upper-case, title-case and stopword counts of the comment. */
  method AddCommentCounts(data: Frame, res: Resources, comments: seq<string>)
    requires data.Valid() && |comments| == |data.rows|
    modifies data
    ensures data.Valid()
    ensures data.columns == old(data.columns) + {"count_punctuations", "count_words_upper", "count_words_title", "count_stopwords"}
    ensures data.rows == Extended(old(data.rows), seq(|comments|, i requires 0 <= i < |comments| => CommentCountCells(res, comments[i])))
  {
    var n := |comments|;
    ghost var rows := data.rows;
    ExtendedNothing(rows);
    ghost var added: seq<map<string, Cell>> := seq(n, i => map[]);
    var c0 := seq(n, i requires 0 <= i < n => Int(CountPunctuation(comments[i])));
    AssignExtended(rows, added, "count_punctuations", c0);
    data.Assign("count_punctuations", c0);
    added := seq(n, i requires 0 <= i < n => added[i]["count_punctuations" := c0[i]]);
    var c1 := seq(n, i requires 0 <= i < n => Int(CountWhere(Words(res.cc, comments[i]), IsUpperWord)));
    AssignExtended(rows, added, "count_words_upper", c1);
    data.Assign("count_words_upper", c1);
    added := seq(n, i requires 0 <= i < n => added[i]["count_words_upper" := c1[i]]);
    var c2 := seq(n, i requires 0 <= i < n => Int(CountWhere(Words(res.cc, comments[i]), IsTitleWord)));
    AssignExtended(rows, added, "count_words_title", c2);
    data.Assign("count_words_title", c2);
    added := seq(n, i requires 0 <= i < n => added[i]["count_words_title" := c2[i]]);
    var c3 := seq(n, i requires 0 <= i < n => Int(CountStopwords(res.cc, res.stopWords, comments[i])));
    AssignExtended(rows, added, "count_stopwords", c3);
    data.Assign("count_stopwords", c3);
    added := seq(n, i requires 0 <= i < n => added[i]["count_stopwords" := c3[i]]);
    forall i | 0 <= i < n ensures added[i] == CommentCountCells(res, comments[i]) {
      assert added[i] == map["count_punctuations" := c0[i], "count_words_upper" := c1[i], "count_words_title" := c2[i], "count_stopwords" := c3[i]];
    }
  }

  /** Lines 121-123: the mean token length of the cleaned review. */
  method AddMeanWordLen(data: Frame, res: Resources, comments: seq<string>)
    requires data.Valid() && |comments| == |data.rows|
    modifies data
    ensures data.Valid()
    ensures data.columns == old(data.columns) + {"mean_word_len"}
    ensures data.rows == Extended(old(data.rows), seq(|comments|, i requires 0 <= i < |comments| => MeanCells(res, comments[i])))
  {
    var n := |comments|;
    ghost var rows := data.rows;
    ExtendedNothing(rows);
    ghost var added: seq<map<string, Cell>> := seq(n, i => map[]);
    var cleans := seq(n, i requires 0 <= i < n => ReviewClean(res, comments[i]));
    var c0 := seq(n, i requires 0 <= i < n => MeanWordLen(Words(res.cc, cleans[i])));
    AssignExtended(rows, added, "mean_word_len", c0);
    data.Assign("mean_word_len", c0);
    added := seq(n, i requires 0 <= i < n => added[i]["mean_word_len" := c0[i]]);
    forall i | 0 <= i < n ensures added[i] == MeanCells(res, comments[i]) {
      assert added[i] == map["mean_word_len" := c0[i]];
    }
  }
}
