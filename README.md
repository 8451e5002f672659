# Sentiment analyzer: a Dafny model

This project models the sentiment-analysis pipeline of rusnike/sentiment-analysis and proves its properties:

- **Classification.** A review's score is mapped to Positive, Negative or Neutral at the thresholds ±0.05.
- **Scoring guard.** A blank review scores 0.0 and no library is called.
- **Dispatch loop.** One backend scores every review of a file, and each score is classified.
- **Result store.** This covers which lines become reviews, the name a result file gets, when nothing is saved, and the three-column record shape.
- **Statistics.** These are computed over a stored result set: the total, the label counts, the mean score and its label, and the percentages shown on screen.
- **Menu rules.** These are the numbered-menu and result-listing rules of `main.py`.

The model follows Python 3.12 or later, the oldest version that accepts the nested quotes of an f-string in `sentiment.py`.

`sentiment.py` is the earlier single-file version of the program. Its classifier, loader, first-dot output name, save and analysis branch are modelled separately.

The modules follow the program's files:

| file | module | models |
|---|---|---|
| `wrappers.dfy` | `Wrappers` | the optional value used for None, NaN and failed reads |
| `text.dfy` | `Text` | `str.strip()`, `str.endswith`, `int()` on decimal text, printing a number |
| `analyzer.dfy` | `Analyzer` | `src/analyzer.py` |
| `file_handler.dfy` | `FileHandler` | `src/file_handler.py` |
| `statistics.dfy` | `Statistics` | `src/statistics.py` |
| `main.dfy` | `MainMenu` | `main.py` (there is no `Main` method; the module holds the menu actions) |
| `sentiment.dfy` | `SentimentScript` | `sentiment.py` |

The natural-language libraries (TextBlob, VADER and Google Cloud Natural Language) are opaque. Each one is a field of `Analyzer.Engines` of type `string -> real`.

Scores are `real`. A file's contents are its lines, with `None` for a file that cannot be opened. A results directory is a map from path to the table written there. What the user types at a menu is a finite sequence of lines.

Labels are a datatype; the result file stores a label's name as a string. The statistics count those stored strings, as pandas does, so a hand-edited label is simply not counted.

In three places the model follows the code where a reader might expect otherwise:

- **Empty result set.** `calculate_statistics` on a result file with no rows takes the pandas mean of an empty column, which is NaN. `classify_sentiment(NaN)` fails both comparisons and returns "Neutral". The model makes the mean `None` and the label `Neutral` instead of requiring a non-empty file.
- **Zero total.** `display_statistics` with a total of 0 divides by zero. `Statistics.Percentage` and `Statistics.DisplayStatistics` give `None` there. In `handle_statistics` nothing catches that ZeroDivisionError (its `except` names only ValueError), so picking a result file that holds only its header row stops the program. `MainMenu.HandleStatistics` reports this as `Stopped`.
- **No file in `sentiment.py`.** When no file name was typed, its analysis branch executes `return` and leaves `main` altogether. `SentimentScript.AnalyzeMode` reports this as `Quit`.

## Model

| member | source | states |
|---|---|---|
| Text.IsSpace | src/file_handler.py:8 | Python's `str.isspace` set, listed by code point: the characters `strip()` removes on both ends |
| Text.TrimLeftCuts | src/file_handler.py:8 | `lstrip` removes exactly a blank prefix and leaves text that does not start with whitespace |
| Text.TrimRightCuts | src/file_handler.py:8 | `rstrip` removes exactly a blank suffix and leaves text that does not end with whitespace |
| Text.Strip | src/file_handler.py:8 | `str.strip()`, defined as `rstrip` after `lstrip`; its properties are stated by the `Text.Strip…` lemmas: a blank prefix and suffix go and nothing else, the result has no whitespace at either end, and it is empty iff the text was blank |
| Text.StripSpec | src/file_handler.py:8 | stripped text has no whitespace at either end and is empty exactly when the input is blank |
| Text.StripTrims | src/file_handler.py:8 | `strip` removes a blank prefix and a blank suffix and nothing else |
| Text.StripClean | src/file_handler.py:8 | text with no whitespace at either end is left unchanged |
| Text.StripIdempotent | src/file_handler.py:8 | stripping twice equals stripping once |
| Text.StripLine | src/file_handler.py:8 | the newline a file line carries is removed by `strip` |
| Text.EndsWith | src/file_handler.py:6 | `str.endswith`: the suffix is no longer than the text and equals its last characters; `EndsWithAppend` and `FileHandler.OutputNameSuffix` state its properties |
| Text.EndsWithAppend | src/file_handler.py:6 | a name built as stem + suffix ends with that suffix |
| Text.RemoveUnderscores | main.py:35 | the digits `int()` reads from a literal of digits and underscores are all decimal digits, and digit-only text is unchanged |
| Text.RemoveUnderscoresAppend | main.py:35 | dropping underscores works character by character: it distributes over concatenation, so only the underscores go and the digits keep their order |
| Text.DropSeparator | main.py:35 | one underscore between two groups of digits leaves the same digits as no underscore |
| Text.NumeralJoin | main.py:35 | two numerals joined directly or with one underscore between them are numerals `int()` accepts |
| Text.ParseNumeralText | main.py:35 | `int()` of a bare numeral is the value of its digits, underscores dropped |
| Text.UnderscoreSeparator | main.py:35 | `int(a + "_" + b) == int(a + b)` for numerals a and b, so `int("1_0")` is 10 |
| Text.IntStripClean | main.py:35 | text that neither starts nor ends with whitespace `int()` skips is read as it is |
| Text.ParseInt | main.py:35 | `int(text)`: the whitespace `int()` skips is removed from both ends (the `str.isspace` set without the separators U+001C to U+001F), then an optional sign and a numeral; the lemmas `ParseNatToString`, `UnderscoreSeparator` and `SeparatorIsNotIntSpace` state what it returns |
| Text.SeparatorIsNotIntSpace | main.py:35 | a separator U+001C in front of a digit makes `int()` fail, although `str.strip()` removes it |
| Text.NatToString | main.py:27 | the printed menu number is non-empty decimal text whose value is the number |
| Text.ParseNatToString | main.py:35 | `int()` of a printed number gives that number back |
| Analyzer.Classify | src/analyzer.py:25-30 | Positive iff score >= 0.05, Negative iff score <= -0.05, Neutral iff -0.05 < score < 0.05; total on every real |
| Analyzer.ClassifyMonotone | src/analyzer.py:26-30 | a higher score never gets a lower label in the order Negative < Neutral < Positive |
| Analyzer.ClassifyBoundaries | src/analyzer.py:25-30 | both thresholds belong to the outer labels; 0.0, ±0.04 are Neutral, 0.1 and 0.8 Positive, -0.1 and -0.8 Negative |
| Analyzer.NameInjective | src/analyzer.py:25-30 | the three labels are written as three distinct strings and only those |
| Analyzer.AnalyzeSentiment | src/analyzer.py:7-23 | `analyze_sentiment_blob`, `_vader` and `_google` as one function of the backend; `BlankGuard` states its result: 0.0 on blank text, the library's score otherwise |
| Analyzer.BlankGuard | src/analyzer.py:7-19 | a blank review scores 0.0; any other review gets the library's score of the review |
| Analyzer.BlankIgnoresBackend | src/analyzer.py:8-19 | for a blank review every backend over every set of libraries gives 0.0, so no library is consulted |
| Analyzer.BlankIsNeutral | src/analyzer.py:8-30 | a blank review is always classified Neutral |
| Analyzer.ScoreInRange | src/analyzer.py:7-23 | when the libraries answer in [-1, 1], so does every backend |
| FileHandler.KeepNonBlank | src/file_handler.py:8 | every loaded review is non-empty with no whitespace at either end, and there are no more reviews than lines |
| FileHandler.KeepNonBlankAppend | src/file_handler.py:8 | loading works line by line: loading a + b is loading a followed by loading b, so file order is kept |
| FileHandler.KeepNonBlankComplete | src/file_handler.py:8 | every non-blank line is loaded, stripped |
| FileHandler.KeepNonBlankSound | src/file_handler.py:8 | every loaded review comes from some non-blank line |
| FileHandler.KeepNonBlankMembers | src/file_handler.py:8 | a review is loaded iff some non-blank line strips to it |
| FileHandler.KeepNonBlankClean | src/file_handler.py:8 | lines already stripped and non-empty are all kept unchanged |
| FileHandler.KeepNonBlankIdempotent | src/file_handler.py:8 | loading the loaded reviews again changes nothing |
| FileHandler.KeepNonBlankAllLines | src/file_handler.py:8 | with no blank line, review i is line i stripped and there is one review per line |
| FileHandler.LoadReviews | src/file_handler.py:4-15 | a name ending in neither `.csv` nor `.txt`, or an unreadable file, gives `[]`; otherwise the non-blank lines, stripped |
| FileHandler.CsvReadAsText | src/file_handler.py:6-9 | a `.csv` file and a `.txt` file with the same lines give the same reviews |
| FileHandler.LoadScenario | src/file_handler.py:4-15 | a `.txt` file whose lines strip to given texts gives exactly those texts in order; an empty file gives `[]` |
| FileHandler.Basename | src/file_handler.py:22 | the base name has no '/', ends the path, and is preceded by '/' when shorter than the path |
| FileHandler.LastIndexOf | src/file_handler.py:23 | `rfind`: the last position of the character, or -1 |
| FileHandler.Stem | src/file_handler.py:23 | `splitext` drops the last dot and what follows, unless only dots precede that dot |
| FileHandler.OutputName | src/file_handler.py:23 | the stem of the base name followed by `_sentiment_<method>.csv`; `OutputNameSuffix`, `OutputNameInjective`, `OutputNameOfPath` and `OutputNameOfDotName` state its properties |
| FileHandler.Join | src/file_handler.py:24 | `os.path.join` of two parts: an absolute second part replaces the first, otherwise one '/' separates them; `OutputPath` states its result for the results directory |
| FileHandler.OutputPath | src/file_handler.py:22-24 | the result path is `results/` followed by the output name |
| FileHandler.OutputNameIsRelative | src/file_handler.py:22-23 | an output name never starts with `/`, so `os.path.join` keeps the results directory |
| FileHandler.OutputNameSuffix | src/file_handler.py:23 | the output name ends in `_sentiment_<method>.csv` |
| FileHandler.OutputNameInjective | src/file_handler.py:23 | for one source file, different methods give different names |
| FileHandler.ResultSuffixInjective | src/file_handler.py:23 | after a shared prefix, the suffix `_sentiment_<method>.csv` determines the method |
| FileHandler.BasenameOfPath | src/file_handler.py:22 | the directory part of a path is dropped |
| FileHandler.StemOfExtension | src/file_handler.py:23 | only the last extension is removed |
| FileHandler.StemOfDotName | src/file_handler.py:23 | a name whose only dot leads it keeps its whole name |
| FileHandler.OutputNameOfPath | src/file_handler.py:22-23 | `<dir>/<stem>.<ext>` analysed with a method is saved as `<stem>_sentiment_<method>.csv` |
| FileHandler.OutputNameOfDotName | src/file_handler.py:22-23 | `<dir>/.<name>` is saved as `.<name>_sentiment_<method>.csv` |
| FileHandler.SaveAnalysisResults | src/file_handler.py:17-40 | no reviews gives the distinct nothing-saved outcome; unequal columns a failed save; otherwise columns Review, Sentiment Score, Sentiment Classification with row i = (reviews[i], scores[i], classifications[i]), at the output path |
| FileHandler.ResultTable | src/file_handler.py:31-36 | the table has the three fixed column names, and its Review, Sentiment Score and Sentiment Classification columns are exactly the given sequences |
| FileHandler.Persist | src/file_handler.py:37 | `to_csv` writes the table at its path, replacing what was there; `PersistIdempotent` and `PersistMethodsCoexist` state its properties |
| FileHandler.PersistIdempotent | src/file_handler.py:37 | writing the same result twice leaves the same directory as writing it once |
| FileHandler.PersistMethodsCoexist | src/file_handler.py:23-37 | the results of two methods for one source file do not overwrite each other |
| Statistics.WithLabel | src/statistics.py:8-10 | the selected records all carry the label, and there are as many as the label occurs in the column |
| Statistics.WithLabelMembers | src/statistics.py:8-10 | a record is selected iff it is in the file and carries the label |
| Statistics.Mean | src/statistics.py:11 | None iff there are no scores; otherwise mean × count = sum |
| Statistics.ClassifyMean | src/statistics.py:19 | the overall label is the classification of the mean; NaN is Neutral |
| Statistics.CalculateStatistics | src/statistics.py:4-20 | total = number of records; each count = occurrences of that label string; score = mean of the scores; classification = label of the mean |
| Statistics.CountsAtMostTotal | src/statistics.py:7-10 | the three label counts sum to at most the number of labels, with equality iff every label is one of the three |
| Statistics.LabelCountsBound | src/statistics.py:7-10 | positive + negative + neutral <= total, with equality iff every stored label is one of the three |
| Statistics.SumBounds | src/statistics.py:11 | bounds on every score bound the sum by count × bound |
| Statistics.MeanWithin | src/statistics.py:11 | the mean lies within any bounds that hold for every score |
| Statistics.MeanBetweenExtremes | src/statistics.py:11 | the mean lies between the smallest and the largest score |
| Statistics.MeanInRange | src/statistics.py:11 | scores in [-1, 1] give a mean in [-1, 1] |
| Statistics.ClassificationIgnoresLabels | src/statistics.py:11-19 | the overall label depends only on the scores, not on the stored labels |
| Statistics.NotMajority | src/statistics.py:8-19 | two Negative records and one Positive record can still average to Positive |
| Statistics.Scenario | src/statistics.py:4-20 | records at 0.8 Positive, -0.8 Negative, 0.0 Neutral give total 3, one of each, mean 0, Neutral |
| Statistics.Percentage | src/statistics.py:24-26 | None iff the total is 0; otherwise percentage × total = count × 100 |
| Statistics.PercentageBounds | src/statistics.py:24-26 | a count no larger than the total gives a percentage in [0, 100] |
| Statistics.PercentageSum | src/statistics.py:24-26 | the percentages of one total add up as their counts do |
| Statistics.DisplayStatistics | src/statistics.py:22-26 | nothing can be shown for a total of 0; otherwise the three percentages of the counts |
| Statistics.SummarySharesSum | src/statistics.py:24-26 | counts within the total give percentages summing to at most 100, and to 100 when they make up the total |
| Statistics.SharesSum | src/statistics.py:7-26 | the shown percentages sum to at most 100, and to exactly 100 when every stored label is valid |
| Statistics.DisplayScenario | src/statistics.py:22-27 | counts 45/30/25 of 100 are shown as 45, 30 and 25 per cent; a mean of 0.15 is Positive |
| MainMenu.BackendFor | main.py:63 | choice 1 is VADER, anything else TextBlob |
| MainMenu.MethodFor | main.py:60 | choice 1 is "vader", anything else "textblob" |
| MainMenu.MethodNamesBackend | main.py:60-63 | for choices 1 and 2 the method name and the backend agree: same name iff same backend |
| MainMenu.ScoreReviews | main.py:58-66 | parallel lists as long as the reviews; score i is the one backend's guarded score of review i; label i is the name of the classification of score i |
| MainMenu.HandleAnalysis | main.py:43-70 | no file: nothing happens; non-numeric choice or a number outside {1, 2}: rejected before loading; otherwise the loaded reviews are scored with the chosen backend and saved under the chosen method |
| MainMenu.AnalysisSaves | main.py:58-68 | a run's parallel lists never make the save fail; it saves iff there is a review, with row i = (review, score, label) |
| MainMenu.StatisticsOfSavedRun | main.py:62-68 | the statistics of a saved run have total = number of reviews, counts summing to the total, and the mean of the run's scores |
| MainMenu.ResultFiles | main.py:78-79 | every listed name ends in `_sentiment_vader.csv` or `_sentiment_textblob.csv`, with no more names than the directory |
| MainMenu.ResultFilesMembers | main.py:78-79 | a name is listed iff it is in the directory and has one of the two suffixes |
| MainMenu.ResultFilesAppend | main.py:78-79 | the listing keeps directory order |
| MainMenu.SavedNameIsListed | main.py:78-79 | every name the saver gives for choice 1 or 2 passes the listing filter |
| MainMenu.Interpret | main.py:31-39 | "0" exits; input k with 1 <= k <= count picks entry k - 1; text `int()` refuses is not a number |
| MainMenu.InterpretNumber | main.py:35-39 | a parsed number k picks entry k - 1 iff 1 <= k <= count |
| MainMenu.FirstAnswer | main.py:29-41 | the answer a menu settles on is the first line that is not refused |
| MainMenu.FirstAnswerAfterRetries | main.py:29-41 | refused lines before the deciding line change nothing |
| MainMenu.ReadChoice | main.py:29-41 | the retry loop returns the first answer that is not refused, and the count of lines read |
| MainMenu.TypingListedNumberSelects | main.py:26-38 | typing the number printed before entry i picks entry i |
| MainMenu.HandleFileSelection | main.py:14-41 | no data files: nothing is selected; otherwise a picked entry is returned as `data/<entry>`, and leaving selects nothing |
| MainMenu.ViewResult | main.py:88-102 | the statistics loop ends closed, shown, or stopped; what is shown is the summary of a file that was read, with the percentages `display_statistics` prints, and a stop happens only on a total of 0 |
| MainMenu.ViewResultReadable | main.py:88-102 | when every result file can be read, a file is shown or stops the program iff the numbered menu settles on a pick, and it is the picked file under `results`, summarised |
| MainMenu.HeaderOnlyStops | main.py:94-98 | picking a result file with only its header row stops the program with the ZeroDivisionError of src/statistics.py:24 |
| MainMenu.UnreadableAsksAgain | main.py:94-102 | picking a file on which pandas raises a ValueError (an empty or malformed file) gives "Please enter a valid number." and the next line decides |
| MainMenu.HandleStatistics | main.py:72-102 | no results directory or no result files: nothing to show; otherwise the loop is proved equal to `ViewResult` on the listed result files |
| MainMenu.SelectingListedFile | main.py:29-38 | after refused lines, typing entry i's number picks entry i, and typing "0" exits |
| SentimentScript.Classify | sentiment.py:52-58 | agrees with src/analyzer.py's classifier on every score |
| SentimentScript.LoadedReviews | sentiment.py:14-35 | `.csv` gives the Comment column, or `[]` when pandas fails; `.txt` gives the stripped non-empty lines in file order, or `[]` when the file cannot be read; any other name gives `[]`; `TextLoadersAgree` states that on `.txt` it equals src/file_handler.py's loader |
| SentimentScript.LoadReviews | sentiment.py:14-35 | the loop returns `LoadedReviews`: `.csv` gives the Comment column; `.txt` gives the stripped non-empty lines in order; any other name, or an unreadable file, gives `[]` |
| SentimentScript.TextLoadersAgree | sentiment.py:20-27 | on a `.txt` file this loader gives the same reviews as src/file_handler.py's |
| SentimentScript.BeforeFirstDot | sentiment.py:62 | the prefix has no dot, starts the name, and is followed by a dot when shorter than the name |
| SentimentScript.OutputName | sentiment.py:62 | the text before the first dot of the typed name followed by `_sentiment.csv`, a path relative to the working directory that keeps any directory in the typed name (`data/r.txt` gives `data/r_sentiment.csv`, while `./data/r.txt` is cut at its first dot and gives `_sentiment.csv`); `OutputNameFirstDot` and `OutputNamesDiffer` state its properties |
| SentimentScript.OutputNameFirstDot | sentiment.py:62 | everything from the first dot goes: `a.b.txt` becomes `a_sentiment.csv` |
| SentimentScript.OutputNamesDiffer | sentiment.py:62 | for `s.i.e` this version writes `s_sentiment.csv` while src/file_handler.py writes `s.i_sentiment_vader.csv` |
| SentimentScript.SaveAnalysisResults | sentiment.py:60-75 | never refuses an empty set; unequal columns fail; otherwise the three columns with the inputs, at the first-dot name |
| SentimentScript.EmptyResultIsWritten | sentiment.py:60-71 | no reviews gives a written header-only table |
| SentimentScript.AnalyzeMode | sentiment.py:95-124 | no file name ends the program; non-numeric or out-of-range choices are rejected; otherwise the reviews `load_reviews` gives are each scored by the chosen backend, classified, and always saved |

## Left out

- The natural-language behaviour of TextBlob, VADER and Google Cloud Natural Language. These are foreign libraries and network calls. Each library is a function parameter, and `Analyzer.InRange` states the [-1, 1] range that `Analyzer.ScoreInRange` assumes.
- pandas reading and writing of CSV files. A stored result is the `Table` value that was saved. Reading it back in `handle_statistics` is a function parameter, `read`, giving `None` where pandas raises a ValueError.
- MainMenu.HandleStatistics: has no outcome for the other exceptions `calculate_statistics` can raise. These are an OSError from `pd.read_csv` (a PermissionError, or an IsADirectoryError for a directory whose name has a result suffix, since the listing does not filter directories out), a KeyError for a missing column, and a TypeError from `.mean()` on a non-numeric score column. Nothing in main.py catches them, so each one stops the program. `read` can only succeed or raise a ValueError.
- Paths follow POSIX rules (`posixpath`). Windows separators (`\`) and drive letters, which `ntpath` uses in `os.path.basename` and `os.path.join`, are not modelled. `FileHandler.Basename`, `FileHandler.Join` and `FileHandler.OutputPath` hold for POSIX paths.
- The `"Comment"` column branch of sentiment.py's loader. Its column is a parameter, `comments`, so the model does not cover pandas' parsing or the non-string cells pandas may produce there.
- Filesystem operations are left out: `os.listdir`, `os.path.isfile`, `os.path.exists`, `os.makedirs` and `get_available_files`. Directory listings are parameters.
- Exceptions raised while writing a result file. The "Error while saving" branch of `save_analysis_results` is modelled only for columns of unequal length.
- The top-level `main` loops of both scripts, `display_menu` and every `print`. This is user interface; only the analysis, selection and statistics actions are modelled.
- An input stream that ends. The program itself stops there with an uncaught EOFError (main.py:31, 52 and 90). The model has no such outcome: running out of lines stands for that stop, as a menu reading no answer (`MainMenu.FirstAnswer` giving None, `HandleStatistics` giving `Closed`).
- Text.ParseInt: does not model the non-ASCII Unicode digits that Python's `int()` also accepts, nor its limit on digits: since Python 3.11 `int()` raises ValueError for a literal of more than 4300 digits, which the model reads as a number.
- Text.IsSpace: does not model the Unicode database beyond Python's fixed whitespace set, listed by code point.
- The `:.2f` formatting in `display_statistics` and IEEE float rounding. Scores and percentages are exact reals.
- Statistics.Mean: does not model pandas skipping NaN cells in the score column, since a saved result never holds one.
