# Drug-review preprocessing, modelled in Dafny

This project models the deterministic text and table shaping in the
`health` package's preprocessing module, `src/health/data/preprocessing.py`,
and the copy of its first two functions in `data_preprocessing.py`. It has
three parts.

- **Review cleaning and text features.** `preprocess_review` is a fixed
  chain of rewrites: lowercase, remove `&\w+;` entities, remove
  `http\S+|www.\S+` URLs, remove `[^\w\s]`, remove non-ASCII, `strip()`,
  collapse `\s+` runs to one space, and rewrite `\.{2,}` runs as one space.
  spaCy then re-joins its tokens with single spaces. `preprocess_data` adds
  `review_clean` (the cleaned review without stopwords) and ten feature
  columns to the table in place, eleven new columns in all.
  - Module `Cleaning` models each `re.sub` as a left-to-right scanning
    function. Module `Features` models the per-row counts, and module
    `DataPrep` models the in-place column assignments.
  - Python's character classes are exact for ASCII (module `Chars`). For
    other characters, whether one is `\w` or `\s` is a parameter (`CharClass`).
- **Dataset filter.** `preprocess_topic` drops `text_index`. It keeps the
  rows whose medication mentions "Crohn" or "Ulcerative" and does not
  contain "For". It then splits `medication` into `drug` and `disease`, and
  drops the row whose index label is 3 (module `TopicFilter`).
- **Topic flag decoder.** `postprocess_topic` adds 15 boolean columns from
  substring tests on the `topics` text (module `TopicFlags`). The model
  states every flag exactly. It then proves how the decoder behaves on
  topic lists rendered as codes joined by a separator, including where it
  disagrees with plain membership.

`data_preprocessing.py:24-82` repeats `preprocess_review` and
`preprocess_data` statement for statement, so the same members model both.
Its lines 29-50 are the cleaning steps (source lines 36-57 of the module),
63-66 the stopword removal (92-95) and 69-80 the feature columns (98-123).

The pandas `DataFrame` is the class `Tables.Frame`. It has a column set and
a sequence of rows, and each row has an index label and a map from column
name to cell. Statements that assign or drop columns are methods that change
the frame. `df.loc[mask]` and `df.drop(label)` build new frames.

Some consequences of the code, each proved in the model:
- `df.drop(3)` removes the row *labelled* 3, not the row at position 3.
  When no row labelled 3 survives the filters, the function raises instead
  of returning a table (`TopicFilter.PreprocessTopic`). So a table whose
  row labelled 3 has the medication "For unspecified" raises
  (`TopicFilter.UnspecifiedLabelThreeRaises`).
- A row whose medication is NaN is dropped by the first filter, because `|`
  reads a missing mask entry as false (`TopicFilter.NonTextMedicationDropped`).
- For the topics text "0", `no_side_effects` is false, because the "0,"
  and " 0" tests both fail (`TopicFlags.DecodeZero`).
- For "11,12", `fatigue` is true through the "1," test, and `diarrhea`
  stays false (`TopicFlags.DecodeElevenTwelve`).
- The column is named "hair loss", with a space, not `hair_loss`.
- Cleaning is not idempotent on normalized text. "htt!px" cleans to the
  normalized "httpx": the '!' is removed only after the URL step has run.
  Cleaning "httpx" again removes it as a URL (`Cleaning.CleanNotIdempotent`).

## Model

| member | source | states |
|---|---|---|
| Chars.LowerKeepsClass | src/health/data/preprocessing.py:36 | lowercasing a character never changes whether it is ASCII, a word character or whitespace |
| Strings.LowerString | src/health/data/preprocessing.py:36 | `lower()` keeps the length, lowercases each position and leaves no ASCII uppercase letter |
| Cleaning.EntityLength | src/health/data/preprocessing.py:39 | a nonzero length is the length of an `&\w+;` match at the start of the text |
| Cleaning.EntityLengthExact | src/health/data/preprocessing.py:39 | whenever a prefix matches `&\w+;`, the scanner finds exactly that match (there is only one) |
| Cleaning.RemoveEntities | src/health/data/preprocessing.py:39 | the result is no longer than the input and uses only its characters; text without '&' is unchanged |
| Cleaning.UrlLength | src/health/data/preprocessing.py:42 | a nonzero length is a maximal `http\S+` or `www.\S+` match ending at whitespace or the end; zero means no prefix matches |
| Cleaning.RemoveUrls | src/health/data/preprocessing.py:42 | the result is no longer than the input and uses only its characters |
| Cleaning.RemovePunctuation | src/health/data/preprocessing.py:45 | every remaining character is a word character or whitespace, each of those keeps its count, and the kept characters stay in their original order |
| Cleaning.RemoveNonAscii | src/health/data/preprocessing.py:48 | every remaining character is ASCII, each ASCII character keeps its count, and the kept characters stay in their original order |
| Cleaning.LeadingSpaces | src/health/data/preprocessing.py:51 | counts the maximal run of whitespace at the start |
| Cleaning.TrailingSpaces | src/health/data/preprocessing.py:51 | counts the maximal run of whitespace at the end |
| Cleaning.Strip | src/health/data/preprocessing.py:51 | the result is a slice of the input that neither starts nor ends with whitespace, and only whitespace was cut |
| Cleaning.CollapseSpaces | src/health/data/preprocessing.py:54 | each whitespace run becomes one ' ', no two spaces are adjacent, the ends keep their kind and other characters come from the input |
| Cleaning.CollapseSpacesWords | src/health/data/preprocessing.py:54 | collapsing whitespace runs leaves the whitespace-separated tokens exactly as they were |
| Cleaning.DotSpan | src/health/data/preprocessing.py:57 | counts the maximal run of '.' at the start |
| Cleaning.CollapseDots | src/health/data/preprocessing.py:57 | text without '.' is unchanged, and no two dots remain adjacent |
| Cleaning.CollapseDotsAppend | src/health/data/preprocessing.py:57 | a prefix that does not end in '.' is rewritten on its own: no match spans its end |
| Cleaning.CollapseDotsOfRun | src/health/data/preprocessing.py:57 | a maximal run of two or more dots becomes one space, and the text on either side is rewritten on its own |
| Cleaning.CollapseDotsOfSingle | src/health/data/preprocessing.py:57 | a single dot between non-dots is not a match and is kept in place |
| Cleaning.CleanThroughSpaces | src/health/data/preprocessing.py:36-54 | definition: lowercasing, the entity, URL, punctuation and non-ASCII removals, `strip()` and the whitespace collapse, in the source's order |
| Cleaning.Clean | src/health/data/preprocessing.py:36-57 | definition: those steps followed by the `\.{2,}` rewrite |
| Cleaning.AsciiStageShape | src/health/data/preprocessing.py:36-48 | after lowercasing and the four removals, every character is ASCII, not uppercase, and a word character or whitespace |
| Cleaning.SpacingNormalizes | src/health/data/preprocessing.py:51-54 | stripping then collapsing such text leaves ASCII word characters separated by single spaces, with no space at either end and no '.' |
| Cleaning.CleanIsNormalized | src/health/data/preprocessing.py:36-57 | the cleaned review, before lemmatisation, holds only lowercase ASCII word characters and single inner spaces |
| Cleaning.DotStepIsNoOp | src/health/data/preprocessing.py:45-57 | the `\.{2,}` rewrite never changes the text, since no '.' survives the `[^\w\s]` removal |
| Cleaning.PunctuationBetween | src/health/data/preprocessing.py:45 | a non-word, non-space character between two lowercase words is removed and the words are joined |
| Cleaning.CleanOfLowerWord | src/health/data/preprocessing.py:48-57 | when the removals leave a run of lowercase letters, the later stages return it unchanged |
| Cleaning.CleanNotIdempotent | src/health/data/preprocessing.py:39-57 | "htt!px" cleans to the normalized "httpx", and cleaning that again gives the empty text |
| Cleaning.PreprocessReview | src/health/data/preprocessing.py:33-65 | definition: the cleaned text given to the spaCy parameter, the chosen token forms joined by single spaces |
| Cleaning.Surfaces | src/health/data/preprocessing.py:61-62 | one surface form per spaCy token |
| Cleaning.ReviewTokens | src/health/data/preprocessing.py:60-63 | splitting `preprocess_review`'s result on whitespace gives back exactly the token surfaces, when each is a whitespace-free word |
| Strings.ContainsAt | src/health/data/preprocessing.py:154 | `str.contains` with a literal holds exactly when the literal occurs at some position |
| Strings.Words | src/health/data/preprocessing.py:94 | `split()` yields whitespace-free nonempty tokens, no more than the text's length, and none exactly when the text is all whitespace |
| Strings.WordsOfJoin | src/health/data/preprocessing.py:94 | splitting tokens joined by single spaces gives back the tokens |
| Strings.JoinLength | src/health/data/preprocessing.py:108 | a joined string's length is the pieces' lengths plus one separator between each pair |
| Strings.SplitOn | src/health/data/preprocessing.py:162 | `str.split` with a separator always yields at least one piece |
| Strings.JoinSplit | src/health/data/preprocessing.py:162 | joining the pieces of a split with its separator gives back the text |
| Strings.SplitFirstPiece | src/health/data/preprocessing.py:162 | the first piece never holds the separator, and there is one piece exactly when the text lacks the separator |
| Features.WithoutStopwords | src/health/data/preprocessing.py:94 | keeps exactly the tokens not in the stopword set, in their original order |
| Features.WithoutStopwordsCounts | src/health/data/preprocessing.py:94 | each token that is not a stopword is kept as often as it occurs, and no stopword is kept |
| Features.RemoveStopwords | src/health/data/preprocessing.py:92-95 | definition: the review's tokens that are not stopwords, joined by single spaces |
| Features.RemoveStopwordsTokens | src/health/data/preprocessing.py:92-95 | the tokens of `review_clean` are the review's tokens minus the stopwords, in order, and none is a stopword |
| Features.RemoveStopwordsIdempotent | src/health/data/preprocessing.py:93-95 | removing stopwords a second time changes nothing |
| Features.DistinctAtMost | src/health/data/preprocessing.py:105-107 | the number of distinct tokens is at most the number of tokens, and zero only for no tokens |
| Features.JoinedCounts | src/health/data/preprocessing.py:104-108 | for space-joined tokens, the word count is the number of tokens, the unique count is at most that, the letters are the tokens plus separating spaces, and all three are zero together |
| Features.CleanCounts | src/health/data/preprocessing.py:93-108 | the same counts for the stopword-free review, which has no stopword token |
| Features.CountPunctuation | src/health/data/preprocessing.py:109-111 | at most the comment's length; zero exactly when no character is in `string.punctuation`; the length exactly when all are |
| Features.CountWhere | src/health/data/preprocessing.py:112-117 | at most the number of tokens; zero exactly when no token passes; the token count exactly when all pass |
| Features.IsUpperWord | src/health/data/preprocessing.py:112-114 | definition of `isupper()` on ASCII: some uppercase letter and no lowercase one |
| Features.IsTitleWord | src/health/data/preprocessing.py:115-117 | definition: `istitle()` decided by a one-pass scan, whose meaning `TitleScanSpec` states |
| Features.TitleScanSpec | src/health/data/preprocessing.py:115-117 | the one-pass scan that decides `istitle()` agrees with the positional definition: some cased letter, uppercase only after an uncased character, lowercase only after a cased one |
| Features.TitleWordIsTitleCased | src/health/data/preprocessing.py:116 | a token counts for `count_words_title` exactly when it is title-cased by that definition |
| Features.WordsOfLower | src/health/data/preprocessing.py:119 | splitting the lowercased comment gives the comment's tokens, each lowercased |
| Features.CountStopwords | src/health/data/preprocessing.py:118-120 | definition: the number of tokens of the lowercased comment that are stopwords |
| Features.CommentCountBounds | src/health/data/preprocessing.py:112-120 | the upper, title and stopword counts are each at most the comment's token count |
| Features.MeanLength | src/health/data/preprocessing.py:121-123 | the mean token length of a nonempty token list is not negative |
| DataPrep.ReviewClean | src/health/data/preprocessing.py:89-95 | definition: `preprocess_review` followed by stopword removal |
| DataPrep.FeatureCells | src/health/data/preprocessing.py:89-123 | the cells added to one row are exactly the eleven new columns |
| DataPrep.WithFeatures | src/health/data/preprocessing.py:89-123 | every row, in order, extended by the cells computed from its own comment |
| DataPrep.FeatureFacts | src/health/data/preprocessing.py:93-120 | for every comment: `review_clean` has no stopword; unique words are at most words; letters, words and unique words are zero together; punctuation is at most the comment's length; upper, title and stopword counts are at most its tokens |
| DataPrep.MeanFacts | src/health/data/preprocessing.py:121-123 | `mean_word_len` is missing (NaN) exactly when `review_clean` has no token, and otherwise is the letters less the separating spaces, divided by the word count |
| DataPrep.PreprocessData | src/health/data/preprocessing.py:68-125 | fails and changes nothing when there is no text `comment` column; otherwise adds exactly the eleven columns, with every row's cells given by the per-row functions |
| DataPrep.CleanReviews | src/health/data/preprocessing.py:89-95 | assigns `review_clean` to every row and keeps everything else |
| DataPrep.AddSentiment | src/health/data/preprocessing.py:98-101 | assigns both polarity columns to every row |
| DataPrep.AddCleanCounts | src/health/data/preprocessing.py:104-108 | assigns the three `review_clean` counts to every row |
| DataPrep.AddCommentCounts | src/health/data/preprocessing.py:109-120 | assigns the four comment counts to every row |
| DataPrep.AddMeanWordLen | src/health/data/preprocessing.py:121-123 | assigns `mean_word_len` to every row |
| Tables.Where | src/health/data/preprocessing.py:153-159 | `df.loc[mask]` keeps exactly the rows the mask accepts, in their order |
| Tables.WhereCounts | src/health/data/preprocessing.py:153-159 | `df.loc[mask]` keeps each accepted row as often as it occurs, and no rejected row |
| Tables.WhereTwice | src/health/data/preprocessing.py:153-159 | two successive `loc` filters equal one filter by their conjunction |
| Tables.WhereAfterMap | src/health/data/preprocessing.py:159-171 | filtering reshaped rows equals reshaping the rows that pass the matching filter |
| Tables.WhereFindsLabel | src/health/data/preprocessing.py:171 | a label is present after a filter and a label-preserving reshape exactly when some row that passes the filter carries it |
| Tables.AssignTwice | src/health/data/preprocessing.py:89-95 | assigning a column twice leaves only the second values |
| Tables.ExtendedTwice | src/health/data/preprocessing.py:198-222 | adding two groups of cells in turn equals adding their union once |
| Tables.Frame.Assign | src/health/data/preprocessing.py:162 | `df[name] = values` adds the column, sets its cell in every row and keeps the frame well formed |
| Tables.Frame.DropColumn | src/health/data/preprocessing.py:150 | `drop(columns=..., inplace=True)` removes the column from the frame and every row, and fails with no change when it is missing |
| TopicFilter.PreprocessTopic | src/health/data/preprocessing.py:128-173 | drops `text_index` from the caller's frame; returns a new frame exactly when `text_index` and `medication` exist and a row labelled 3 survives the filters; its columns lose `medication` and gain `drug` and `disease`, and its rows are the kept, reshaped rows |
| TopicFilter.SelectAndReshape | src/health/data/preprocessing.py:153-171 | filters, reshapes and drops label 3, failing exactly when no listed row carries label 3 |
| TopicFilter.Drug | src/health/data/preprocessing.py:162 | definition: the first piece of the medication split on "for" |
| TopicFilter.Disease | src/health/data/preprocessing.py:163-167 | definition: "Crohn's Disease" when the medication mentions Crohn, else "Ulcerative Colitis" when it mentions Ulcerative, else "" |
| TopicFilter.Reshape | src/health/data/preprocessing.py:162-168 | definition: a row with `drug` and `disease` added and `medication` removed |
| TopicFilter.TopicRows | src/health/data/preprocessing.py:153-171 | definition: the reshaped rows that pass both filters and are not labelled 3, in order |
| TopicFilter.SplitMedication | src/health/data/preprocessing.py:162-168 | replaces `medication` with `drug` and `disease` in every row |
| TopicFilter.TopicStages | src/health/data/preprocessing.py:153-171 | the two filters, the reshape and the label drop in program order give the declared output rows, and label 3 is present exactly when some listed row carries it |
| TopicFilter.TopicRowsMembers | src/health/data/preprocessing.py:153-171 | an output row is exactly the reshape of an input row that mentions Crohn or Ulcerative, lacks "For" and is not labelled 3 |
| TopicFilter.TopicRowsShape | src/health/data/preprocessing.py:162-171 | no output row is labelled 3 or has `medication`, and each has a text `drug` and a disease that is one of the two names |
| TopicFilter.DrugBeforeFor | src/health/data/preprocessing.py:162 | `drug` is a prefix of the medication without "for", followed by "for" when the medication has one, and the whole medication otherwise |
| TopicFilter.ReshapedShape | src/health/data/preprocessing.py:163-168 | reshaping keeps the label, removes `medication` and names Crohn's Disease or Ulcerative Colitis for an in-scope row |
| TopicFilter.NonTextMedicationDropped | src/health/data/preprocessing.py:153-156 | a row whose medication is NaN or other non-text fails the first filter and never reaches the output |
| TopicFilter.OutOfScope | src/health/data/preprocessing.py:153-156 | a medication without 'C' and 'U' mentions neither disease |
| TopicFilter.UnspecifiedLabelThreeRaises | src/health/data/preprocessing.py:159-171 | when the row labelled 3 is "For unspecified", `preprocess_topic` raises |
| TopicFilter.SucceedsAfterDrop | src/health/data/preprocessing.py:150-171 | the success condition, checked on the rows after `text_index` is dropped, is the one stated on the input |
| TopicFlags.Code | src/health/data/preprocessing.py:198-222 | a topic code's decimal text has one digit below 10 and two digits from 10 |
| TopicFlags.Flag | src/health/data/preprocessing.py:198-222 | definition: the k-th substring test on the topics text, as written |
| TopicFlags.FlagCells | src/health/data/preprocessing.py:198-222 | the cells added to a row are exactly the 15 flag columns |
| TopicFlags.FlagCellAt | src/health/data/preprocessing.py:198-222 | flag column k holds the k-th test applied to the row's `topics` |
| TopicFlags.PostprocessTopic | src/health/data/preprocessing.py:176-223 | fails and changes nothing without a text `topics` column; otherwise adds exactly the 15 flag columns, each row's flags computed from its `topics` |
| TopicFlags.AddDisambiguatedFlags | src/health/data/preprocessing.py:198-212 | adds `no_side_effects` through `headaches` to every row |
| TopicFlags.AddDigitFlags | src/health/data/preprocessing.py:213-217 | adds `nausea` through `mental_health_issues` to every row |
| TopicFlags.AddTeenFlags | src/health/data/preprocessing.py:218-222 | adds `leg_cramps` through `weight_gain` to every row |
| TopicFlags.WithFlags | src/health/data/preprocessing.py:198-222 | every row, in order, extended by the 15 flags of its own `topics` |
| TopicFlags.WithFlagsAt | src/health/data/preprocessing.py:198-222 | after the decoder, each row keeps its label and other columns, and flag k is the k-th test on its `topics` |
| TopicFlags.TopicsKept | src/health/data/preprocessing.py:198-222 | the `topics` text itself is never changed |
| TopicFlags.Decoded | src/health/data/preprocessing.py:198-222 | definition: the codes 0-14 whose flag the tests set |
| TopicFlags.CommaFreeReading | src/health/data/preprocessing.py:198-222 | definition: code 0 never, 1 only without two-digit codes, 2-4 only without their teen code, 5-14 whenever listed |
| TopicFlags.DecodedWithoutCommas | src/health/data/preprocessing.py:198-222 | for codes joined by a separator without digits, commas, spaces or 'E', the decoded set is exactly that reading of the listed codes |
| TopicFlags.DigitsInJoin | src/health/data/preprocessing.py:213-222 | a digit string occurs in codes joined by a digit-free separator exactly when it occurs in one code |
| TopicFlags.CodeContains | src/health/data/preprocessing.py:202-222 | one code's text contains another's exactly when they are equal, or the second is the first's last digit, or the second is 1 and the first is from 10 to 14 |
| TopicFlags.PlainFlagsExact | src/health/data/preprocessing.py:213-222 | for any digit-free separator, `nausea` through `weight_gain` are set exactly when their code is listed |
| TopicFlags.DisambiguatedWithoutCommas | src/health/data/preprocessing.py:204-212 | without commas in the separator, flags 2-4 are set exactly when the code is listed and its teen code is not |
| TopicFlags.DisambiguatedListed | src/health/data/preprocessing.py:204-212 | with any digit-free separator, a listed code 2-4 whose teen code is not listed is flagged |
| TopicFlags.DisambiguatedAbsent | src/health/data/preprocessing.py:204-212 | with any digit-free separator, a code 2-4 is not flagged when neither it nor its teen code is listed |
| TopicFlags.FatigueWithoutCommas | src/health/data/preprocessing.py:201-203 | without commas in the separator, `fatigue` is set exactly when 1 is listed and no code is 10 or more |
| TopicFlags.AbsentDigitUnflagged | src/health/data/preprocessing.py:201-212 | flags 1-4 are false when their digit does not occur at all |
| TopicFlags.NoSideEffectsWithoutSpace | src/health/data/preprocessing.py:198-200 | codes joined without spaces (and without 'E') never set `no_side_effects`, not even a list holding only 0 |
| TopicFlags.NoSideEffectsCommaSpace | src/health/data/preprocessing.py:198-200 | codes joined by ", " never set `no_side_effects` either |
| TopicFlags.DecodeOneTwoThree | src/health/data/preprocessing.py:198-222 | "1,2,3" sets exactly `fatigue`, `diarrhea` and `arthralgia` |
| TopicFlags.DecodeElevenTwelve | src/health/data/preprocessing.py:198-222 | "11,12" sets exactly `fatigue`, `heart_blood_pressure_issues` and `liver_kidney_pain` |
| TopicFlags.DecodeZero | src/health/data/preprocessing.py:198-222 | "0" sets no flag at all |
| TopicFlags.FatigueWithoutCodeOne | src/health/data/preprocessing.py:201-203 | the list 11, 2 joined by "," sets `fatigue` although 1 is not listed |
| TopicFlags.DiarrheaMissed | src/health/data/preprocessing.py:204-206 | the list 12, 2 joined by ", " leaves `diarrhea` unset although 2 is listed |

## Left out

- spaCy (`spacy.load` and lemmatisation) is a parameter: a function from the cleaned text to tokens, each with a lemma and a text. Its tokenisation is not modelled, and `ReviewTokens` assumes each surface is a whitespace-free word.
- TextBlob polarity is a parameter (`Resources.polarity`). The sentiment columns hold whatever it returns.
- NLTK's English stopword list is a parameter (`Resources.stopWords`).
- `np.mean` is computed over exact reals, not floating point. The NaN of an empty list is the `Missing` cell.
- Unicode: `lower()`, `isupper()`, `istitle()` and `string.punctuation` are modelled for ASCII only. Whether a non-ASCII character is `\w` or `\s` is a parameter, and non-ASCII letters are treated as uncased.
- pandas NaN: a `comment` or `topics` value that is not text makes the model's operation fail, as the source's `lower()` and `~` do. A `medication` that is not text drops its row.
- Column order: a frame's columns are a set, so the order of the new columns is not modelled.
- The row drop's `KeyError` and `loc`'s errors are one failure value (a null frame or `false`), not distinct exceptions.
- Column dtypes: pandas refuses `.str` on a `medication` column holding no text at all. The model has no dtypes; such a table has no listed row labelled 3, so the model fails there as well.
- The LLM stages in `src/health/topic/extraction.py`, the I/O in `main.py`, `tests/test.py`, `setup.py` and the plotting and NLTK imports in `data_preprocessing.py` are not part of this model.
- Cleaning.RemoveUrls: the contract states only that the result is no longer than the input and uses its characters. Exactly which spans are removed is stated by `UrlLength`.
- Cleaning.RemoveEntities: the contract states only length, characters and the no-'&' case. Exactly which spans are removed is stated by `EntityLength` and `EntityLengthExact`.
- Cleaning.CollapseDots: the contract states only the dot-free case and the absence of adjacent dots. What a run of dots becomes is stated by `CollapseDotsOfRun` and `CollapseDotsOfSingle`, and `DotStepIsNoOp` shows the step never changes a cleaned review.
- Cleaning.CollapseSpaces: the contract does not say the tokens are unchanged. That is stated by `CollapseSpacesWords`.
- Features.WithoutStopwords: the contract does not state how often each token is kept. That is stated by `WithoutStopwordsCounts`.
- Tables.Where: the contract does not state how often each row is kept. That is stated by `WhereCounts`.
- Features.MeanLength: the contract states only that the mean is not negative. Its value is stated by `DataPrep.MeanFacts`.
- DataPrep.FeatureFacts: `count_letters == len(review_clean)` holds by the cell definition and is not restated.
- Tables.Frame.Assign: does not model pandas aligning the assigned series by index. Values are assigned by position, which is what every call here does.
