/**
  The menu actions of main.py: analysing the selected file with one backend,
  listing the stored results and picking an entry from a numbered list.
  What the user types is a finite sequence of input lines; a file's contents,
  the results directory listing and the reading of a stored result are
  parameters.
 */
module MainMenu {

  import opened Wrappers
  import opened Text
  import opened Analyzer
  import opened FileHandler
  import opened Statistics

  // ---------------------------------------------------------------- analysis

  /** The backend for menu choice 1 or 2: VADER for 1, TextBlob otherwise. */
  function BackendFor(choice: int): (backend: Backend)
    ensures backend == Vader <==> choice == 1
    ensures backend == TextBlob <==> choice != 1
  {
    if choice == 1 then Vader else TextBlob
  }

  /** The method name written into the result file's name. */
  function MethodFor(choice: int): (analysisMethod: string)
    ensures analysisMethod == "vader" <==> choice == 1
    ensures analysisMethod == "textblob" <==> choice != 1
  {
    if choice == 1 then "vader" else "textblob"
  }

  /** The file name records which backend produced the scores. */
  lemma MethodNamesBackend(c1: int, c2: int)
    requires c1 in {1, 2} && c2 in {1, 2}
    ensures MethodFor(c1) == MethodFor(c2) <==> BackendFor(c1) == BackendFor(c2)
  {
  }

  /** The loop of `handle_analysis`: each review in turn is scored with the
      one backend of this run and classified by its score. */
  method ScoreReviews(engines: Engines, backend: Backend, reviews: seq<string>)
    returns (scores: seq<real>, classifications: seq<string>)
    ensures |scores| == |reviews| && |classifications| == |reviews|
    ensures forall i :: 0 <= i < |reviews| ==> scores[i] == AnalyzeSentiment(engines, backend, reviews[i])
    ensures forall i :: 0 <= i < |reviews| ==> classifications[i] == Classify(scores[i]).Name()
  {
    scores, classifications := [], [];
    for k := 0 to |reviews|
      invariant |scores| == k && |classifications| == k
      invariant forall i :: 0 <= i < k ==> scores[i] == AnalyzeSentiment(engines, backend, reviews[i])
      invariant forall i :: 0 <= i < k ==> classifications[i] == Classify(scores[i]).Name()
    {
      var score := AnalyzeSentiment(engines, backend, reviews[k]);
      var sentiment := Classify(score);
      scores := scores + [score];
      classifications := classifications + [sentiment.Name()];
    }
  }

  datatype AnalysisOutcome =
    | NoFileSelected
    | InvalidChoice
    | InvalidNumber(choice: int)
    | Analyzed(choice: int, reviews: seq<string>, scores: seq<real>,
               classifications: seq<string>, saved: SaveOutcome)

  /** `handle_analysis`: without a selected file nothing happens; the choice
      must parse as an integer and be 1 or 2 before the file is loaded; then
      every review is scored with the chosen backend and the result is saved
      under the chosen method's name. */
  method HandleAnalysis(filename: Option<string>, input: string, engines: Engines,
                        content: Option<seq<string>>)
    returns (outcome: AnalysisOutcome)
    ensures outcome == NoFileSelected <==> filename.None? || filename.value == []
    ensures outcome == InvalidChoice <==>
      filename.Some? && filename.value != [] && ParseInt(input).None?
    ensures outcome.InvalidNumber? <==>
      filename.Some? && filename.value != [] && ParseInt(input).Some? && ParseInt(input).value !in {1, 2}
    ensures outcome.InvalidNumber? ==> outcome.choice == ParseInt(input).value
    ensures outcome.Analyzed? ==>
      && filename.Some? && ParseInt(input) == Some(outcome.choice) && outcome.choice in {1, 2}
      && outcome.reviews == LoadReviews(filename.value, content)
      && |outcome.scores| == |outcome.reviews| && |outcome.classifications| == |outcome.reviews|
      && (forall i :: 0 <= i < |outcome.reviews| ==>
            outcome.scores[i] == AnalyzeSentiment(engines, BackendFor(outcome.choice), outcome.reviews[i]))
      && (forall i :: 0 <= i < |outcome.reviews| ==>
            outcome.classifications[i] == Classify(outcome.scores[i]).Name())
      && outcome.saved == SaveAnalysisResults(filename.value, outcome.reviews, outcome.scores,
                                              outcome.classifications, MethodFor(outcome.choice))
  {
    if filename.None? || filename.value == [] {
      return NoFileSelected;
    }
    var parsed := ParseInt(input);
    if parsed.None? {
      return InvalidChoice;
    }
    var choice := parsed.value;
    if choice !in {1, 2} {
      return InvalidNumber(choice);
    }
    var reviews := LoadReviews(filename.value, content);
    var scores, classifications := ScoreReviews(engines, BackendFor(choice), reviews);
    var saved := SaveAnalysisResults(filename.value, reviews, scores, classifications, MethodFor(choice));
    return Analyzed(choice, reviews, scores, classifications, saved);
  }

  /** An analysis run never fails to save for want of matching columns: it
      saves exactly when the file gave at least one review, and then row i
      is review i with its score and label. */
  lemma AnalysisSaves(filename: string, reviews: seq<string>, scores: seq<real>,
                      classifications: seq<string>, analysisMethod: string)
    requires |scores| == |reviews| && |classifications| == |reviews|
    ensures var o := SaveAnalysisResults(filename, reviews, scores, classifications, analysisMethod);
            && !o.SaveFailed?
            && (o.Saved? <==> reviews != [])
            && (o.Saved? ==> |o.table.rows| == |reviews| && forall i :: 0 <= i < |reviews| ==>
                  o.table.rows[i] == Record(reviews[i], scores[i], classifications[i]))
  {
    var o := SaveAnalysisResults(filename, reviews, scores, classifications, analysisMethod);
    if o.Saved? {
      var rows := o.table.rows;
      assert |rows| == |reviews| by {
        assert |ReviewColumn(rows)| == |rows|;
      }
      forall i | 0 <= i < |reviews|
        ensures rows[i] == Record(reviews[i], scores[i], classifications[i])
      {
        assert ReviewColumn(rows)[i] == rows[i].review;
        assert ScoreColumn(rows)[i] == rows[i].score;
        assert LabelColumn(rows)[i] == rows[i].classification;
      }
    }
  }

  /** Reading back what an analysis run saved: one record per review, every
      stored label one of the three, so the label counts add up to the total,
      and the mean is the mean of the run's scores. */
  lemma StatisticsOfSavedRun(filename: string, reviews: seq<string>, scores: seq<real>,
                             classifications: seq<string>, analysisMethod: string)
    requires reviews != [] && |scores| == |reviews| && |classifications| == |reviews|
    requires forall i :: 0 <= i < |reviews| ==> classifications[i] == Classify(scores[i]).Name()
    ensures var o := SaveAnalysisResults(filename, reviews, scores, classifications, analysisMethod);
            var s := CalculateStatistics(o.table.rows);
            && o.Saved?
            && s.total == |reviews|
            && s.positive + s.negative + s.neutral == s.total
            && s.score == Mean(scores)
  {
    var o := SaveAnalysisResults(filename, reviews, scores, classifications, analysisMethod);
    AnalysisSaves(filename, reviews, scores, classifications, analysisMethod);
    var rows := o.table.rows;
    assert forall i :: 0 <= i < |rows| ==> IsLabelName(rows[i].classification) by {
      forall i | 0 <= i < |rows| ensures IsLabelName(rows[i].classification) {
        assert rows[i].classification == Classify(scores[i]).Name();
      }
    }
    LabelCountsBound(rows);
  }

  // ---------------------------------------------------------------- listing

  /** The two suffixes `handle_statistics` looks for. */
  predicate IsResultFile(name: string) {
    EndsWith(name, ResultSuffix("vader")) || EndsWith(name, ResultSuffix("textblob"))
  }

  /** `[f for f in os.listdir(results_dir) if f.endswith(...)]`. */
  function ResultFiles(listing: seq<string>): (files: seq<string>)
    ensures |files| <= |listing|
    ensures forall i :: 0 <= i < |files| ==> IsResultFile(files[i])
  {
    if listing == [] then []
    else (if IsResultFile(listing[0]) then [listing[0]] else []) + ResultFiles(listing[1..])
  }

  /** A name is listed exactly when it is in the directory and has one of the
      two suffixes. */
  lemma {:induction false} ResultFilesMembers(listing: seq<string>, name: string)
    ensures name in ResultFiles(listing) <==> name in listing && IsResultFile(name)
  {
    if listing != [] {
      ResultFilesMembers(listing[1..], name);
      assert listing == [listing[0]] + listing[1..];
    }
  }

  /** The listing keeps directory order. */
  lemma {:induction false} ResultFilesAppend(a: seq<string>, b: seq<string>)
    ensures ResultFiles(a + b) == ResultFiles(a) + ResultFiles(b)
  {
    if a == [] {
      assert a + b == b;
    } else {
      assert (a + b)[0] == a[0];
      assert (a + b)[1..] == a[1..] + b;
      ResultFilesAppend(a[1..], b);
      var head := if IsResultFile(a[0]) then [a[0]] else [];
      assert head + (ResultFiles(a[1..]) + ResultFiles(b)) == (head + ResultFiles(a[1..])) + ResultFiles(b);
    }
  }

  /** Whatever an analysis run saves is offered by the statistics menu. */
  lemma SavedNameIsListed(filename: string, choice: int)
    requires choice in {1, 2}
    ensures IsResultFile(OutputName(filename, MethodFor(choice)))
  {
    OutputNameSuffix(filename, MethodFor(choice));
  }

  // ---------------------------------------------------------------- numbered menus

  /** What one line typed at a numbered menu of `count` entries means. */
  datatype Reply = Exit | Pick(index: nat) | OutOfRange | NotANumber

  /** "0" leaves; a number k with 1 <= k <= count picks entry k - 1; any other
      number is refused, and text that is not a number asks again. */
  function Interpret(input: string, count: nat): (r: Reply)
    ensures r == Exit <==> IsExitKey(input)
    ensures r.Pick? <==> !IsExitKey(input) && ParseInt(input).Some? && 1 <= ParseInt(input).value <= count
    ensures r.Pick? ==> r.index < count && ParseInt(input) == Some(r.index + 1)
    ensures r == NotANumber <==> !IsExitKey(input) && ParseInt(input).None?
  {
    if IsExitKey(input) then Exit else InterpretNumber(ParseInt(input), count)
  }

  /** The line "0", compared as text: " 0" is a number, not the exit key. */
  predicate IsExitKey(input: string) {
    |input| == 1 && input[0] == '0'
  }

  function InterpretNumber(parsed: Option<int>, count: nat): (r: Reply)
    ensures r != Exit
    ensures r.Pick? <==> parsed.Some? && 1 <= parsed.value <= count
    ensures r.Pick? ==> r.index < count && parsed == Some(r.index + 1)
    ensures r == NotANumber <==> parsed.None?
  {
    match parsed
    case None => NotANumber
    case Some(k) => if 0 <= k - 1 < count then Pick(k - 1) else OutOfRange
  }

  /** A reply that asks for another line. */
  predicate Retry(r: Reply) {
    r == OutOfRange || r == NotANumber
  }

  /** The answer a numbered menu settles on: the first line that leaves or
      picks an entry, every line before it being refused. None when every
      line is refused. */
  function FirstAnswer(inputs: seq<string>, count: nat): (answer: Option<Reply>)
    ensures answer.Some? ==> !Retry(answer.value)
    ensures answer.Some? ==> exists j :: 0 <= j < |inputs| && Interpret(inputs[j], count) == answer.value
  {
    if inputs == [] then None
    else
      var r := Interpret(inputs[0], count);
      if !Retry(r) then Some(r)
      else
        var rest := FirstAnswer(inputs[1..], count);
        assert rest.Some? ==> exists j :: 0 <= j < |inputs| && Interpret(inputs[j], count) == rest.value by {
          if rest.Some? {
            var j :| 0 <= j < |inputs[1..]| && Interpret(inputs[1..][j], count) == rest.value;
            assert inputs[j + 1] == inputs[1..][j];
          }
        }
        rest
  }

  /** Refused lines in front change nothing; the first line that is not
      refused decides. */
  lemma {:induction false} FirstAnswerAfterRetries(retries: seq<string>, line: string, rest: seq<string>, count: nat)
    requires forall j :: 0 <= j < |retries| ==> Retry(Interpret(retries[j], count))
    requires !Retry(Interpret(line, count))
    ensures FirstAnswer(retries + [line] + rest, count) == Some(Interpret(line, count))
  {
    var inputs := retries + [line] + rest;
    if retries == [] {
      assert inputs[0] == line;
    } else {
      assert inputs[0] == retries[0];
      assert inputs[1..] == retries[1..] + [line] + rest;
      FirstAnswerAfterRetries(retries[1..], line, rest, count);
    }
  }

  /** The `while True` loop of both numbered menus: lines are read until one
      leaves or picks an entry; `used` counts the lines read. */
  method ReadChoice(inputs: seq<string>, count: nat) returns (reply: Option<Reply>, used: nat)
    ensures reply == FirstAnswer(inputs, count)
    ensures used <= |inputs|
    ensures reply.None? ==> used == |inputs|
    ensures reply.Some? ==> 0 < used && reply.value == Interpret(inputs[used - 1], count)
  {
    used := 0;
    while used < |inputs|
      invariant used <= |inputs|
      invariant FirstAnswer(inputs, count) == FirstAnswer(inputs[used..], count)
    {
      var r := Interpret(inputs[used], count);
      assert inputs[used..][0] == inputs[used];
      assert inputs[used..][1..] == inputs[used + 1..];
      used := used + 1;
      if !Retry(r) {
        return Some(r), used;
      }
    }
    assert inputs[used..] == [];
    return None, used;
  }

  /** Typing the number printed in front of entry i selects it. */
  lemma TypingListedNumberSelects(i: nat, count: nat)
    requires i < count
    ensures Interpret(NatToString(i + 1), count) == Pick(i)
  {
    ParseNatToString(i + 1);
    assert NatToString(i + 1) != "0" by {
      assert DigitsValue("0") == 0;
    }
  }

  /** `handle_file_selection`: with no file in the data directory nothing is
      selected; otherwise the entry the menu settles on is returned joined to
      "data", and leaving, or running out of input, selects nothing. */
  method HandleFileSelection(dataFiles: seq<string>, inputs: seq<string>) returns (selected: Option<string>)
    ensures dataFiles == [] ==> selected.None?
    ensures dataFiles != [] ==>
      var answer := FirstAnswer(inputs, |dataFiles|);
      (selected.Some? <==> answer.Some? && answer.value.Pick?)
      && (selected.Some? ==> selected.value == Join("data", dataFiles[answer.value.index]))
  {
    if dataFiles == [] {
      return None;
    }
    var reply, used := ReadChoice(inputs, |dataFiles|);
    if reply.Some? && reply.value.Pick? {
      selected := Some(Join("data", dataFiles[reply.value.index]));
    } else {
      selected := None;
    }
  }

  /** How `handle_statistics` ends. `Stopped` is the ZeroDivisionError of
      `display_statistics` on a result file with no rows: nothing in main.py
      catches it, so the program stops there. */
  datatype StatisticsOutcome =
    | NoResults
    | Closed
    | Shown(path: string, summary: Summary, shares: Shares)
    | Stopped(path: string, summary: Summary)

  /** What the statistics loop settles on, one typed line at a time. A picked
      file that pandas cannot read (`read` gives None; the ValueError lands in
      the loop's `except`) asks for another line, as a refused line does. */
  function ViewResult(inputs: seq<string>, files: seq<string>, read: string -> Option<seq<Record>>): (o: StatisticsOutcome)
    ensures o != NoResults
    ensures o.Shown? ==> DisplayStatistics(o.summary) == Some(o.shares)
    ensures o.Stopped? ==> o.summary.total == 0
    ensures (o.Shown? || o.Stopped?) ==>
      read(o.path).Some? && o.summary == CalculateStatistics(read(o.path).value)
  {
    if inputs == [] then Closed
    else
      var r := Interpret(inputs[0], |files|);
      if r == Exit then Closed
      else if r.Pick? then
        var path := Join(ResultsDir, files[r.index]);
        match read(path)
        case None => ViewResult(inputs[1..], files, read)
        case Some(rows) =>
          var summary := CalculateStatistics(rows);
          match DisplayStatistics(summary)
          case Some(shares) => Shown(path, summary, shares)
          case None => Stopped(path, summary)
      else ViewResult(inputs[1..], files, read)
  }

  /** When every result file can be read, the loop settles where the numbered
      menu does: an entry picked is shown, or stops the program when it holds
      no rows, and leaving or running out of lines closes the menu. */
  lemma {:induction false} ViewResultReadable(inputs: seq<string>, files: seq<string>, read: string -> Option<seq<Record>>)
    requires forall p :: read(p).Some?
    ensures var o := ViewResult(inputs, files, read);
            var answer := FirstAnswer(inputs, |files|);
            && ((o.Shown? || o.Stopped?) <==> answer.Some? && answer.value.Pick?)
            && ((o.Shown? || o.Stopped?) ==>
                  && o.path == Join(ResultsDir, files[answer.value.index])
                  && o.summary == CalculateStatistics(read(o.path).value))
  {
    if inputs != [] {
      var r := Interpret(inputs[0], |files|);
      if Retry(r) {
        ViewResultReadable(inputs[1..], files, read);
        assert FirstAnswer(inputs, |files|) == FirstAnswer(inputs[1..], |files|);
        assert ViewResult(inputs, files, read) == ViewResult(inputs[1..], files, read);
      }
    }
  }

  /** Picking a result file with only its header row stops the program. */
  lemma HeaderOnlyStops(files: seq<string>, i: nat, rest: seq<string>, read: string -> Option<seq<Record>>)
    requires i < |files|
    requires read(Join(ResultsDir, files[i])) == Some([])
    ensures ViewResult([NatToString(i + 1)] + rest, files, read)
         == Stopped(Join(ResultsDir, files[i]), CalculateStatistics([]))
  {
    TypingListedNumberSelects(i, |files|);
    assert ([NatToString(i + 1)] + rest)[0] == NatToString(i + 1);
  }

  /** Picking a result file pandas cannot read asks for another line. */
  lemma UnreadableAsksAgain(files: seq<string>, i: nat, rest: seq<string>, read: string -> Option<seq<Record>>)
    requires i < |files|
    requires read(Join(ResultsDir, files[i])).None?
    ensures ViewResult([NatToString(i + 1)] + rest, files, read) == ViewResult(rest, files, read)
  {
    TypingListedNumberSelects(i, |files|);
    var inputs := [NatToString(i + 1)] + rest;
    assert inputs[0] == NatToString(i + 1);
    assert inputs[1..] == rest;
  }

  /** `handle_statistics`: without a results directory, or without result
      files in it, there is nothing to show; otherwise lines are read until
      one leaves, or picks a file that can be read, which is then summarised
      and displayed. `read` stands for pandas reading a stored file. */
  method HandleStatistics(listing: Option<seq<string>>, inputs: seq<string>,
                          read: string -> Option<seq<Record>>)
    returns (outcome: StatisticsOutcome)
    ensures outcome == NoResults <==> listing.None? || ResultFiles(listing.value) == []
    ensures outcome != NoResults ==> outcome == ViewResult(inputs, ResultFiles(listing.value), read)
  {
    if listing.None? {
      return NoResults;
    }
    var files := ResultFiles(listing.value);
    if files == [] {
      return NoResults;
    }
    var used := 0;
    while used < |inputs|
      invariant used <= |inputs|
      invariant ViewResult(inputs, files, read) == ViewResult(inputs[used..], files, read)
    {
      var r := Interpret(inputs[used], |files|);
      assert inputs[used..][0] == inputs[used];
      assert inputs[used..][1..] == inputs[used + 1..];
      used := used + 1;
      if r == Exit {
        return Closed;
      }
      if r.Pick? {
        var path := Join(ResultsDir, files[r.index]);
        var stored := read(path);
        if stored.Some? {
          var summary := CalculateStatistics(stored.value);
          var display := DisplayStatistics(summary);
          if display.Some? {
            return Shown(path, summary, display.value);
          }
          return Stopped(path, summary);
        }
      }
    }
    assert inputs[used..] == [];
    return Closed;
  }

  /** Typing the listed number of entry i, after any number of refused lines,
      selects `data/<entry i>`; typing "0" instead selects nothing. */
  lemma SelectingListedFile(dataFiles: seq<string>, retries: seq<string>, i: nat, rest: seq<string>)
    requires i < |dataFiles|
    requires forall j :: 0 <= j < |retries| ==> Retry(Interpret(retries[j], |dataFiles|))
    ensures FirstAnswer(retries + [NatToString(i + 1)] + rest, |dataFiles|) == Some(Pick(i))
    ensures FirstAnswer(retries + ["0"] + rest, |dataFiles|) == Some(Exit)
  {
    TypingListedNumberSelects(i, |dataFiles|);
    FirstAnswerAfterRetries(retries, NatToString(i + 1), rest, |dataFiles|);
    assert Interpret("0", |dataFiles|) == Exit;
    FirstAnswerAfterRetries(retries, "0", rest, |dataFiles|);
  }
}
