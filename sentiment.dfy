/**
  sentiment.py, the earlier single-file version of the program: its own
  classifier, its loader (which still reads a "Comment" column from CSV
  files), its first-dot output name and its analysis branch. The scoring
  guard and the scoring loop are the same code as in main.py and
  src/analyzer.py and are shared with those models.
 */
module SentimentScript {

  import opened Wrappers
  import opened Text
  import Analyzer
  import FileHandler
  import MainMenu

  /** `classify_sentiment`, written out again: the same thresholds and the
      same inclusive boundaries as src/analyzer.py. */
  function Classify(score: real): (sentiment: string)
    ensures sentiment == Analyzer.Classify(score).Name()
  {
    if score >= 0.05 then "Positive"
    else if score <= -0.05 then "Negative"
    else "Neutral"
  }

  /** What `load_reviews` gives: a `.csv` file gives its "Comment" column
      (None when pandas cannot read it or the column is missing); a `.txt`
      file gives its non-blank lines, stripped, in file order (None when it
      cannot be read); any other name gives nothing. */
  function LoadedReviews(filename: string, lines: Option<seq<string>>, comments: Option<seq<string>>): seq<string> {
    if EndsWith(filename, ".csv") then (if comments.Some? then comments.value else [])
    else if EndsWith(filename, ".txt") && lines.Some? then FileHandler.KeepNonBlank(lines.value)
    else []
  }

  /** On a `.txt` file the two loaders agree. */
  lemma TextLoadersAgree(filename: string, lines: Option<seq<string>>, comments: Option<seq<string>>)
    requires EndsWith(filename, ".txt")
    ensures LoadedReviews(filename, lines, comments) == FileHandler.LoadReviews(filename, lines)
  {
    assert !EndsWith(filename, ".csv") by {
      assert filename[|filename| - 1] == 't';
    }
  }

  /** `load_reviews`, with its loop over the lines of a `.txt` file. */
  method LoadReviews(filename: string, lines: Option<seq<string>>, comments: Option<seq<string>>)
    returns (reviews: seq<string>)
    ensures reviews == LoadedReviews(filename, lines, comments)
  {
    if EndsWith(filename, ".csv") {
      return if comments.Some? then comments.value else [];
    }
    if !EndsWith(filename, ".txt") || lines.None? {
      return [];
    }
    var file := lines.value;
    reviews := [];
    for k := 0 to |file|
      invariant reviews == FileHandler.KeepNonBlank(file[..k])
    {
      var cleaned := Strip(file[k]);
      StripSpec(file[k]);
      if cleaned != [] {
        reviews := reviews + [cleaned];
      }
      assert file[..k + 1] == file[..k] + [file[k]];
      FileHandler.KeepNonBlankAppend(file[..k], [file[k]]);
    }
    assert file[..|file|] == file;
  }

  /** `filename.split(".")[0]`: the text before the first dot, or all of it. */
  function BeforeFirstDot(filename: string): (prefix: string)
    ensures '.' !in prefix
    ensures |prefix| <= |filename| && prefix == filename[..|prefix|]
    ensures |prefix| < |filename| ==> filename[|prefix|] == '.'
  {
    if filename == [] || filename[0] == '.' then []
    else
      var rest := BeforeFirstDot(filename[1..]);
      [filename[0]] + rest
  }

  /** The name `save_analysis_results` writes to: relative to the working
      directory, and keeping any directory in the typed name, so `data/r.txt`
      gives `data/r_sentiment.csv`; a dot in the directory part cuts there, so
      `./data/r.txt` gives `_sentiment.csv`. */
  function OutputName(filename: string): string {
    BeforeFirstDot(filename) + "_sentiment.csv"
  }

  /** Everything from the first dot on is dropped, so every extension goes,
      not only the last: `a.b.txt` is saved as `a_sentiment.csv`. */
  lemma OutputNameFirstDot(stem: string, rest: string)
    requires '.' !in stem
    ensures OutputName(stem + "." + rest) == stem + "_sentiment.csv"
  {
    var name := stem + "." + rest;
    var p := BeforeFirstDot(name);
    assert name[|stem|] == '.';
    assert forall j :: 0 <= j < |stem| ==> name[j] == stem[j];
    assert p == stem;
  }

  /** The analysers can disagree on where a result goes: src/file_handler.py
      keeps the inner dots and adds the method. */
  lemma OutputNamesDiffer(stem: string, inner: string, ext: string)
    requires '.' !in stem && '/' !in stem && '.' !in inner && '/' !in inner
    requires '.' !in ext && '/' !in ext && stem != []
    ensures OutputName(stem + "." + inner + "." + ext) == stem + "_sentiment.csv"
    ensures FileHandler.OutputName(stem + "." + inner + "." + ext, "vader")
         == stem + "." + inner + FileHandler.ResultSuffix("vader")
  {
    var name := stem + "." + inner + "." + ext;
    assert name == stem + "." + (inner + "." + ext);
    OutputNameFirstDot(stem, inner + "." + ext);
    assert FileHandler.HasNonDotBefore(stem + "." + inner, |stem + "." + inner|) by {
      assert (stem + "." + inner)[0] == stem[0];
    }
    assert '/' !in name;
    assert FileHandler.Basename(name) == name by {
      assert EndsWith(name, FileHandler.Basename(name));
    }
    FileHandler.StemOfExtension(stem + "." + inner, ext);
  }

  /** `save_analysis_results` of sentiment.py: there is no check for an empty
      result set; columns of unequal length make pandas raise, which is
      reported as a failed save; otherwise one row per review. */
  function SaveAnalysisResults(filename: string, reviews: seq<string>, scores: seq<real>,
                               classifications: seq<string>): (o: FileHandler.SaveOutcome)
    ensures !o.NothingToSave?
    ensures o.SaveFailed? <==> |scores| != |reviews| || |classifications| != |reviews|
    ensures o.path == OutputName(filename)
    ensures o.Saved? ==>
      && o.table.columns == FileHandler.Columns
      && FileHandler.ReviewColumn(o.table.rows) == reviews
      && FileHandler.ScoreColumn(o.table.rows) == scores
      && FileHandler.LabelColumn(o.table.rows) == classifications
  {
    var path := OutputName(filename);
    if |scores| != |reviews| || |classifications| != |reviews| then FileHandler.SaveFailed(path)
    else
      FileHandler.Saved(path, FileHandler.ResultTable(reviews, scores, classifications))
  }

  /** Unlike src/file_handler.py, an empty result set is written, as a file
      holding only the header row. */
  lemma EmptyResultIsWritten(filename: string)
    ensures SaveAnalysisResults(filename, [], [], [])
         == FileHandler.Saved(OutputName(filename), FileHandler.Table(FileHandler.Columns, []))
  {
    var o := SaveAnalysisResults(filename, [], [], []);
    assert |FileHandler.ReviewColumn(o.table.rows)| == 0;
  }

  datatype AnalysisOutcome =
    | Quit
    | InvalidChoice
    | InvalidNumber(choice: int)
    | Analyzed(choice: int, reviews: seq<string>, scores: seq<real>,
               classifications: seq<string>, saved: FileHandler.SaveOutcome)

  /** Menu choice 2 of sentiment.py's `main`: with no file name typed the
      program ends; the choice must parse as an integer and be 1 or 2; then
      every review is scored with the chosen backend and classified, and the
      result set is saved. */
  method AnalyzeMode(filename: Option<string>, input: string, engines: Analyzer.Engines,
                     lines: Option<seq<string>>, comments: Option<seq<string>>)
    returns (outcome: AnalysisOutcome)
    ensures outcome == Quit <==> filename.None? || filename.value == []
    ensures outcome == InvalidChoice <==>
      filename.Some? && filename.value != [] && ParseInt(input).None?
    ensures outcome.InvalidNumber? <==>
      filename.Some? && filename.value != [] && ParseInt(input).Some? && ParseInt(input).value !in {1, 2}
    ensures outcome.InvalidNumber? ==> outcome.choice == ParseInt(input).value
    ensures outcome.Analyzed? ==>
      && filename.Some? && ParseInt(input) == Some(outcome.choice) && outcome.choice in {1, 2}
      && outcome.reviews == LoadedReviews(filename.value, lines, comments)
      && |outcome.scores| == |outcome.reviews| && |outcome.classifications| == |outcome.reviews|
      && (forall i :: 0 <= i < |outcome.reviews| ==>
            outcome.scores[i] == Analyzer.AnalyzeSentiment(engines, MainMenu.BackendFor(outcome.choice), outcome.reviews[i]))
      && (forall i :: 0 <= i < |outcome.reviews| ==>
            outcome.classifications[i] == Classify(outcome.scores[i]))
      && outcome.saved == SaveAnalysisResults(filename.value, outcome.reviews, outcome.scores, outcome.classifications)
      && outcome.saved.Saved?
  {
    if filename.None? || filename.value == [] {
      return Quit;
    }
    var parsed := ParseInt(input);
    if parsed.None? {
      return InvalidChoice;
    }
    var choice := parsed.value;
    if choice !in {1, 2} {
      return InvalidNumber(choice);
    }
    var reviews := LoadReviews(filename.value, lines, comments);
    var scores, classifications := MainMenu.ScoreReviews(engines, MainMenu.BackendFor(choice), reviews);
    var saved := SaveAnalysisResults(filename.value, reviews, scores, classifications);
    return Analyzed(choice, reviews, scores, classifications, saved);
  }
}
