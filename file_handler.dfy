/**
  The result store of src/file_handler.py: which lines of a review file become
  reviews, where a result set is written and what it holds. A file's contents
  are its lines as Python's file iterator yields them; None stands for a file
  that could not be opened or read. A results directory is a map from path to
  the table written there.
 */
module FileHandler {

  import opened Wrappers
  import opened Text

  /** One row of a result file. The label is a string: the statistics read it
      back from the file and never re-derive it. */
  datatype Record = Record(review: string, score: real, classification: string)

  /** The header row of every result file, in this order. */
  const Columns: seq<string> := ["Review", "Sentiment Score", "Sentiment Classification"]

  datatype Table = Table(columns: seq<string>, rows: seq<Record>)

  function ReviewColumn(rows: seq<Record>): (column: seq<string>)
    ensures |column| == |rows| && forall i :: 0 <= i < |rows| ==> column[i] == rows[i].review
  {
    seq(|rows|, i requires 0 <= i < |rows| => rows[i].review)
  }

  function ScoreColumn(rows: seq<Record>): (column: seq<real>)
    ensures |column| == |rows| && forall i :: 0 <= i < |rows| ==> column[i] == rows[i].score
  {
    seq(|rows|, i requires 0 <= i < |rows| => rows[i].score)
  }

  function LabelColumn(rows: seq<Record>): (column: seq<string>)
    ensures |column| == |rows| && forall i :: 0 <= i < |rows| ==> column[i] == rows[i].classification
  {
    seq(|rows|, i requires 0 <= i < |rows| => rows[i].classification)
  }

  // ---------------------------------------------------------------- loading

  predicate IsSupported(filename: string) {
    EndsWith(filename, ".csv") || EndsWith(filename, ".txt")
  }

  /** `[line.strip() for line in file if line.strip()]`. */
  function KeepNonBlank(lines: seq<string>): (reviews: seq<string>)
    ensures |reviews| <= |lines|
    ensures forall i :: 0 <= i < |reviews| ==>
      reviews[i] != [] && !IsSpace(reviews[i][0]) && !IsSpace(reviews[i][|reviews[i]| - 1])
  {
    if lines == [] then []
    else
      var t := Strip(lines[0]);
      StripSpec(lines[0]);
      if t == [] then KeepNonBlank(lines[1..]) else [t] + KeepNonBlank(lines[1..])
  }

  /** The filter keeps file order: it works line by line. */
  lemma {:induction false} KeepNonBlankAppend(a: seq<string>, b: seq<string>)
    ensures KeepNonBlank(a + b) == KeepNonBlank(a) + KeepNonBlank(b)
  {
    if a == [] {
      assert a + b == b;
    } else {
      assert (a + b)[0] == a[0];
      assert (a + b)[1..] == a[1..] + b;
      KeepNonBlankAppend(a[1..], b);
      if Strip(a[0]) != [] {
        assert [Strip(a[0])] + (KeepNonBlank(a[1..]) + KeepNonBlank(b)) == ([Strip(a[0])] + KeepNonBlank(a[1..])) + KeepNonBlank(b);
      }
    }
  }

  /** Line `line` of a file is loaded as review `x`. */
  predicate LoadsAs(line: string, x: string) {
    !IsBlank(line) && Strip(line) == x
  }

  /** Every non-blank line is loaded, stripped. */
  lemma {:induction false} KeepNonBlankComplete(lines: seq<string>, i: nat, x: string)
    requires i < |lines| && LoadsAs(lines[i], x)
    ensures x in KeepNonBlank(lines)
  {
    var rest := lines[1..];
    StripSpec(lines[0]);
    if i == 0 {
      assert KeepNonBlank(lines) == [x] + KeepNonBlank(rest);
    } else {
      assert rest[i - 1] == lines[i];
      KeepNonBlankComplete(rest, i - 1, x);
      assert KeepNonBlank(lines) == KeepNonBlank(rest) || KeepNonBlank(lines) == [Strip(lines[0])] + KeepNonBlank(rest);
    }
  }

  /** Every loaded review comes from a non-blank line. */
  lemma {:induction false} KeepNonBlankSound(lines: seq<string>, x: string)
    requires x in KeepNonBlank(lines)
    ensures exists i :: 0 <= i < |lines| && LoadsAs(lines[i], x)
  {
    StripSpec(lines[0]);
    if !LoadsAs(lines[0], x) {
      var rest := lines[1..];
      KeepNonBlankSound(rest, x);
      var i :| 0 <= i < |rest| && LoadsAs(rest[i], x);
      assert LoadsAs(lines[i + 1], x);
    }
  }

  /** A review is loaded exactly when some line strips to it and is not blank. */
  lemma KeepNonBlankMembers(lines: seq<string>, x: string)
    ensures x in KeepNonBlank(lines) <==> exists i :: 0 <= i < |lines| && LoadsAs(lines[i], x)
  {
    if x in KeepNonBlank(lines) {
      KeepNonBlankSound(lines, x);
    }
    if exists i :: 0 <= i < |lines| && LoadsAs(lines[i], x) {
      var i :| 0 <= i < |lines| && LoadsAs(lines[i], x);
      KeepNonBlankComplete(lines, i, x);
    }
  }

  /** Lines that are already stripped and non-empty all survive unchanged;
      in particular loading the loaded reviews again changes nothing. */
  lemma {:induction false} KeepNonBlankClean(lines: seq<string>)
    requires forall i :: 0 <= i < |lines| ==>
      lines[i] != [] && !IsSpace(lines[i][0]) && !IsSpace(lines[i][|lines[i]| - 1])
    ensures KeepNonBlank(lines) == lines
  {
    if lines != [] {
      StripClean(lines[0]);
      KeepNonBlankClean(lines[1..]);
    }
  }

  lemma KeepNonBlankIdempotent(lines: seq<string>)
    ensures KeepNonBlank(KeepNonBlank(lines)) == KeepNonBlank(lines)
  {
    KeepNonBlankClean(KeepNonBlank(lines));
  }

  /** `load_reviews`: a file of an unsupported kind, or one that cannot be
      read, gives no reviews; otherwise its non-blank lines, stripped. */
  function LoadReviews(filename: string, content: Option<seq<string>>): (reviews: seq<string>)
    ensures !IsSupported(filename) || content.None? ==> reviews == []
    ensures IsSupported(filename) && content.Some? ==> reviews == KeepNonBlank(content.value)
  {
    if IsSupported(filename) then
      match content
      case Some(lines) => KeepNonBlank(lines)
      case None => []
    else []
  }

  /** `.csv` and `.txt` files are read the same way, as plain lines. */
  lemma CsvReadAsText(stem: string, content: Option<seq<string>>)
    ensures LoadReviews(stem + ".csv", content) == LoadReviews(stem + ".txt", content)
  {
    EndsWithAppend(stem, ".csv");
    EndsWithAppend(stem, ".txt");
  }

  /** When no line is blank, the loader gives one review per line, in file
      order: line i stripped. */
  lemma {:induction false} KeepNonBlankAllLines(lines: seq<string>)
    requires forall i :: 0 <= i < |lines| ==> !IsBlank(lines[i])
    ensures |KeepNonBlank(lines)| == |lines|
    ensures forall i :: 0 <= i < |lines| ==> KeepNonBlank(lines)[i] == Strip(lines[i])
  {
    if lines != [] {
      StripSpec(lines[0]);
      KeepNonBlankAllLines(lines[1..]);
      assert KeepNonBlank(lines) == [Strip(lines[0])] + KeepNonBlank(lines[1..]);
    }
  }

  /** The loader's unit test, for any review texts: a `.txt` file whose lines
      strip to those texts gives exactly them, in file order, and an empty
      file gives none. */
  lemma LoadScenario(filename: string, lines: seq<string>, reviews: seq<string>)
    requires EndsWith(filename, ".txt")
    requires |lines| == |reviews|
    requires forall i :: 0 <= i < |lines| ==> Strip(lines[i]) == reviews[i] != []
    ensures LoadReviews(filename, Some(lines)) == reviews
    ensures LoadReviews(filename, Some([])) == []
  {
    forall i | 0 <= i < |lines| ensures !IsBlank(lines[i]) {
      StripSpec(lines[i]);
    }
    KeepNonBlankAllLines(lines);
  }

  // ---------------------------------------------------------------- naming

  /** `str.rfind`: the last position of `c`, or -1. */
  function LastIndexOf(s: string, c: char): (k: int)
    ensures -1 <= k < |s|
    ensures k >= 0 ==> s[k] == c
    ensures forall j :: k < j < |s| ==> s[j] != c
  {
    if s == [] then -1
    else if s[|s| - 1] == c then |s| - 1
    else LastIndexOf(s[..|s| - 1], c)
  }

  /** `os.path.basename`: the text after the last '/'. */
  function Basename(path: string): (base: string)
    ensures forall j :: 0 <= j < |base| ==> base[j] != '/'
    ensures EndsWith(path, base)
    ensures |base| < |path| ==> path[|path| - |base| - 1] == '/'
  {
    var slash := LastIndexOf(path, '/');
    var base := path[slash + 1..];
    base
  }

  predicate HasNonDotBefore(name: string, k: int)
    requires k <= |name|
  {
    exists j :: 0 <= j < k && name[j] != '.'
  }

  /** `os.path.splitext(name)[0]` for a name without '/': the last '.' and
      what follows it go, unless every character before that dot is a dot
      (so ".bashrc" keeps its name). */
  function Stem(name: string): (stem: string)
    ensures |stem| <= |name| && stem == name[..|stem|]
    ensures stem != name ==>
      name[|stem|] == '.' && '.' !in name[|stem| + 1..] && HasNonDotBefore(name, |stem|)
    ensures stem == name ==> forall j :: 0 <= j < LastIndexOf(name, '.') ==> name[j] == '.'
  {
    var dot := LastIndexOf(name, '.');
    if HasNonDotBefore(name, dot) then name[..dot] else name
  }

  /** `os.path.join(directory, name)`. */
  function Join(directory: string, name: string): string {
    if name != [] && name[0] == '/' then name
    else if directory == [] || directory[|directory| - 1] == '/' then directory + name
    else directory + "/" + name
  }

  const ResultsDir: string := "results"

  /** What follows the stem in a result file's name. */
  function ResultSuffix(analysisMethod: string): string {
    "_sentiment_" + analysisMethod + ".csv"
  }

  /** The name of the result file for a source file and an analysis method. */
  function OutputName(filename: string, analysisMethod: string): string {
    Stem(Basename(filename)) + ResultSuffix(analysisMethod)
  }

  /** Result files go into the results directory, under their output name. */
  function OutputPath(filename: string, analysisMethod: string): (path: string)
    ensures path == ResultsDir + "/" + OutputName(filename, analysisMethod)
  {
    var name := OutputName(filename, analysisMethod);
    OutputNameIsRelative(filename, analysisMethod);
    Join(ResultsDir, name)
  }

  /** An output name never starts with '/', so joining it keeps the directory. */
  lemma OutputNameIsRelative(filename: string, analysisMethod: string)
    ensures OutputName(filename, analysisMethod)[0] != '/'
  {
    var base := Basename(filename);
    var stem := Stem(base);
    var tag := "_sentiment_" + analysisMethod;
    var name := stem + (tag + ".csv");
    assert OutputName(filename, analysisMethod) == name;
    if stem != [] {
      assert name[0] == stem[0] == base[0];
    } else {
      assert name[0] == tag[0] == '_';
    }
  }

  /** The file name ends in `_sentiment_<method>.csv`. */
  lemma OutputNameSuffix(filename: string, analysisMethod: string)
    ensures EndsWith(OutputName(filename, analysisMethod), ResultSuffix(analysisMethod))
  {
    EndsWithAppend(Stem(Basename(filename)), ResultSuffix(analysisMethod));
  }

  /** The method can be read back from a name ending in its suffix. */
  lemma ResultSuffixInjective(stem: string, m1: string, m2: string)
    requires stem + ResultSuffix(m1) == stem + ResultSuffix(m2)
    ensures m1 == m2
  {
    var s1, s2 := ResultSuffix(m1), ResultSuffix(m2);
    assert s1 == (stem + s1)[|stem|..];
    assert s2 == (stem + s2)[|stem|..];
    assert |m1| == |m2|;
    var k := |"_sentiment_"|;
    assert m1 == s1[k..k + |m1|];
    assert m2 == s2[k..k + |m2|];
  }

  /** Two methods applied to one source file never share a result file. */
  lemma OutputNameInjective(filename: string, m1: string, m2: string)
    requires OutputName(filename, m1) == OutputName(filename, m2)
    ensures m1 == m2
  {
    ResultSuffixInjective(Stem(Basename(filename)), m1, m2);
  }

  /** The base name of a path is the part after its last '/'. */
  lemma BasenameOfPath(directory: string, name: string)
    requires '/' !in name
    ensures Basename(directory + "/" + name) == name
  {
    var p := directory + "/" + name;
    assert p[|p| - |name| - 1] == '/';
    assert p[|p| - |name|..] == name;
  }

  /** Only the last extension is removed from a name that does not start with it. */
  lemma StemOfExtension(stem: string, ext: string)
    requires '.' !in ext && HasNonDotBefore(stem, |stem|)
    ensures Stem(stem + "." + ext) == stem
  {
    var name := stem + "." + ext;
    var k := LastIndexOf(name, '.');
    assert name[|stem|] == '.';
    assert forall j :: |stem| < j < |name| ==> name[j] == ext[j - |stem| - 1];
    assert k == |stem|;
    var j :| 0 <= j < |stem| && stem[j] != '.';
    assert name[j] == stem[j];
    assert name[..k] == stem;
  }

  /** A name whose only dot is its first character keeps its whole name. */
  lemma StemOfDotName(rest: string)
    requires '.' !in rest
    ensures Stem("." + rest) == "." + rest
  {
    var name := "." + rest;
    assert forall j :: 0 < j < |name| ==> name[j] == rest[j - 1];
  }

  /** A file `<directory>/<stem>.<ext>` analysed with a method is saved as
      `<stem>_sentiment_<method>.csv`: the directory and the last extension go. */
  lemma OutputNameOfPath(directory: string, stem: string, ext: string, analysisMethod: string)
    requires '/' !in stem && '/' !in ext && '.' !in ext && HasNonDotBefore(stem, |stem|)
    ensures OutputName(directory + "/" + stem + "." + ext, analysisMethod)
         == stem + ResultSuffix(analysisMethod)
  {
    var name := stem + "." + ext;
    var path := directory + "/" + stem + "." + ext;
    assert path == directory + "/" + name;
    BasenameOfPath(directory, name);
    assert Basename(path) == name;
    StemOfExtension(stem, ext);
  }

  /** A name whose only dot leads it (`data/.reviews`) keeps its whole name. */
  lemma OutputNameOfDotName(directory: string, rest: string, analysisMethod: string)
    requires '/' !in rest && '.' !in rest
    ensures OutputName(directory + "/" + "." + rest, analysisMethod)
         == "." + rest + ResultSuffix(analysisMethod)
  {
    var name := "." + rest;
    assert directory + "/" + "." + rest == directory + "/" + name;
    BasenameOfPath(directory, name);
    StemOfDotName(rest);
  }

  // ---------------------------------------------------------------- saving

  datatype SaveOutcome =
    | NothingToSave
    | SaveFailed(path: string)
    | Saved(path: string, table: Table)

  /** `save_analysis_results`: no reviews, nothing written; columns of unequal
      length make pandas raise, which is reported as a failed save; otherwise
      one row per review under the three fixed column names. */
  function SaveAnalysisResults(filename: string, reviews: seq<string>, scores: seq<real>,
                               classifications: seq<string>, analysisMethod: string): (o: SaveOutcome)
    ensures o.NothingToSave? <==> reviews == []
    ensures o.SaveFailed? <==> reviews != [] && (|scores| != |reviews| || |classifications| != |reviews|)
    ensures !o.NothingToSave? ==> o.path == OutputPath(filename, analysisMethod)
    ensures o.Saved? ==>
      && o.table.columns == Columns
      && ReviewColumn(o.table.rows) == reviews
      && ScoreColumn(o.table.rows) == scores
      && LabelColumn(o.table.rows) == classifications
  {
    var path := OutputPath(filename, analysisMethod);
    if reviews == [] then NothingToSave
    else if |scores| != |reviews| || |classifications| != |reviews| then SaveFailed(path)
    else
      Saved(path, ResultTable(reviews, scores, classifications))
  }

  /** `pd.DataFrame` of the three result columns: one row per review. */
  function ResultTable(reviews: seq<string>, scores: seq<real>, classifications: seq<string>): (t: Table)
    requires |scores| == |reviews| && |classifications| == |reviews|
    ensures t.columns == Columns
    ensures ReviewColumn(t.rows) == reviews
    ensures ScoreColumn(t.rows) == scores
    ensures LabelColumn(t.rows) == classifications
  {
    var rows := seq(|reviews|, i requires 0 <= i < |reviews| => Record(reviews[i], scores[i], classifications[i]));
    assert ReviewColumn(rows) == reviews;
    assert ScoreColumn(rows) == scores;
    Table(Columns, rows)
  }

  /** Writing a result set into the results directory; a second write to the
      same path replaces the first. */
  function Persist(directory: map<string, Table>, o: SaveOutcome): map<string, Table> {
    if o.Saved? then directory[o.path := o.table] else directory
  }

  /** Re-running one analysis leaves the same directory as running it once. */
  lemma PersistIdempotent(directory: map<string, Table>, o: SaveOutcome)
    ensures Persist(Persist(directory, o), o) == Persist(directory, o)
  {
  }

  /** The results of two methods for one source file coexist. */
  lemma PersistMethodsCoexist(directory: map<string, Table>, filename: string,
                              reviews: seq<string>, scores1: seq<real>, labels1: seq<string>, m1: string,
                              scores2: seq<real>, labels2: seq<string>, m2: string)
    requires m1 != m2
    ensures var o1 := SaveAnalysisResults(filename, reviews, scores1, labels1, m1);
            var o2 := SaveAnalysisResults(filename, reviews, scores2, labels2, m2);
            var d := Persist(Persist(directory, o1), o2);
            (o1.Saved? ==> o1.path in d && d[o1.path] == o1.table)
            && (o2.Saved? ==> o2.path in d && d[o2.path] == o2.table)
  {
    var o1 := SaveAnalysisResults(filename, reviews, scores1, labels1, m1);
    var o2 := SaveAnalysisResults(filename, reviews, scores2, labels2, m2);
    if o1.Saved? && o2.Saved? && o1.path == o2.path {
      var n1, n2 := OutputName(filename, m1), OutputName(filename, m2);
      assert n1 == o1.path[|ResultsDir| + 1..] && n2 == o2.path[|ResultsDir| + 1..];
      OutputNameInjective(filename, m1, m2);
    }
  }
}
