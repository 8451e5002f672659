/**
  The statistics of src/statistics.py over one stored result set: how many
  records there are, how many carry each label, the mean score and the label
  of that mean, and the percentages the summary screen shows.
 */
module Statistics {

  import opened Wrappers
  import opened Analyzer
  import opened FileHandler

  /** `df[df["Sentiment Classification"] == name]`: the records whose stored
      label is exactly `name`, in file order. */
  function WithLabel(rows: seq<Record>, name: string): (selected: seq<Record>)
    ensures |selected| == multiset(LabelColumn(rows))[name]
    ensures forall i :: 0 <= i < |selected| ==> selected[i].classification == name
  {
    if rows == [] then []
    else
      assert LabelColumn(rows) == [rows[0].classification] + LabelColumn(rows[1..]);
      (if rows[0].classification == name then [rows[0]] else []) + WithLabel(rows[1..], name)
  }

  /** Selecting by label neither invents nor drops a record. */
  lemma {:induction false} WithLabelMembers(rows: seq<Record>, name: string, r: Record)
    ensures r in WithLabel(rows, name) <==> r in rows && r.classification == name
  {
    if rows != [] {
      WithLabelMembers(rows[1..], name, r);
      assert rows == [rows[0]] + rows[1..];
    }
  }

  /** The sum of the scores, from the first record to the last. */
  function Sum(xs: seq<real>): real {
    if xs == [] then 0.0 else xs[0] + Sum(xs[1..])
  }

  /** `Series.mean()`: None for an empty column, which pandas reports as NaN. */
  function Mean(xs: seq<real>): (m: Option<real>)
    ensures m.None? <==> xs == []
    ensures m.Some? ==> m.value * (|xs| as real) == Sum(xs)
  {
    if xs == [] then None else Some(Sum(xs) / (|xs| as real))
  }

  /** `classify_sentiment` of the mean. NaN fails both threshold tests, so an
      empty result set is classified Neutral. */
  function ClassifyMean(score: Option<real>): (sentiment: Label)
    ensures score.None? ==> sentiment == Neutral
    ensures score.Some? ==> sentiment == Classify(score.value)
  {
    match score
    case None => Neutral
    case Some(s) => Classify(s)
  }

  /** The dictionary `calculate_statistics` returns. */
  datatype Summary = Summary(total: nat, positive: nat, negative: nat, neutral: nat,
                             score: Option<real>, classification: Label)

  /** `calculate_statistics` on the records read back from a result file. */
  function CalculateStatistics(rows: seq<Record>): (s: Summary)
    ensures s.total == |rows|
    ensures s.positive == multiset(LabelColumn(rows))[Positive.Name()]
    ensures s.negative == multiset(LabelColumn(rows))[Negative.Name()]
    ensures s.neutral == multiset(LabelColumn(rows))[Neutral.Name()]
    ensures s.score == Mean(ScoreColumn(rows))
    ensures s.classification == ClassifyMean(s.score)
  {
    var positive := WithLabel(rows, Positive.Name());
    var negative := WithLabel(rows, Negative.Name());
    var neutral := WithLabel(rows, Neutral.Name());
    var score := Mean(ScoreColumn(rows));
    Summary(|rows|, |positive|, |negative|, |neutral|, score, ClassifyMean(score))
  }

  /** The three stored label strings. */
  predicate IsLabelName(name: string) {
    name == Positive.Name() || name == Negative.Name() || name == Neutral.Name()
  }

  /** The label counts never exceed the total, and reach it exactly when every
      stored label is one of the three. */
  lemma {:induction false} CountsAtMostTotal(labels: seq<string>)
    ensures var m := multiset(labels);
            m[Positive.Name()] + m[Negative.Name()] + m[Neutral.Name()] <= |labels|
    ensures var m := multiset(labels);
            m[Positive.Name()] + m[Negative.Name()] + m[Neutral.Name()] == |labels|
            <==> forall i :: 0 <= i < |labels| ==> IsLabelName(labels[i])
  {
    NameInjective(Positive, Negative);
    NameInjective(Positive, Neutral);
    NameInjective(Negative, Neutral);
    if labels != [] {
      var rest := labels[1..];
      CountsAtMostTotal(rest);
      assert labels == [labels[0]] + rest;
      assert multiset(labels) == multiset{labels[0]} + multiset(rest);
      if forall i :: 0 <= i < |labels| ==> IsLabelName(labels[i]) {
        assert forall i :: 0 <= i < |rest| ==> IsLabelName(rest[i]) by {
          forall i | 0 <= i < |rest| ensures IsLabelName(rest[i]) {
            assert rest[i] == labels[i + 1];
          }
        }
      }
      if forall i :: 0 <= i < |rest| ==> IsLabelName(rest[i]) {
        if IsLabelName(labels[0]) {
          assert forall i :: 0 <= i < |labels| ==> IsLabelName(labels[i]) by {
            forall i | 0 <= i < |labels| ensures IsLabelName(labels[i]) {
              if i > 0 { assert labels[i] == rest[i - 1]; }
            }
          }
        }
      }
    }
  }

  /** `positive + negative + neutral <= total`, with equality when every
      stored label is one of the three. */
  lemma LabelCountsBound(rows: seq<Record>)
    ensures var s := CalculateStatistics(rows);
            s.positive + s.negative + s.neutral <= s.total
    ensures var s := CalculateStatistics(rows);
            s.positive + s.negative + s.neutral == s.total
            <==> forall i :: 0 <= i < |rows| ==> IsLabelName(rows[i].classification)
  {
    CountsAtMostTotal(LabelColumn(rows));
  }

  /** Bounds on a quotient from bounds on its dividend. */
  lemma QuotientBounds(a: real, n: real, lo: real, hi: real)
    requires n > 0.0 && n * lo <= a <= n * hi
    ensures lo <= a / n <= hi
  {
    var q := a / n;
    assert q - lo == (a - n * lo) / n;
    assert hi - q == (n * hi - a) / n;
  }

  /** Up to |xs| times a lower and an upper bound on every score. */
  lemma {:induction false} SumBounds(xs: seq<real>, lo: real, hi: real)
    requires forall i :: 0 <= i < |xs| ==> lo <= xs[i] <= hi
    ensures (|xs| as real) * lo <= Sum(xs) <= (|xs| as real) * hi
  {
    if xs != [] {
      SumBounds(xs[1..], lo, hi);
      assert lo <= xs[0] <= hi;
    }
  }

  /** The mean lies within any bounds that hold for every score. */
  lemma MeanWithin(xs: seq<real>, lo: real, hi: real)
    requires xs != []
    requires forall i :: 0 <= i < |xs| ==> lo <= xs[i] <= hi
    ensures lo <= Mean(xs).value <= hi
  {
    SumBounds(xs, lo, hi);
    QuotientBounds(Sum(xs), |xs| as real, lo, hi);
  }

  function Min(xs: seq<real>): (lo: real)
    requires xs != []
    ensures lo in xs && forall i :: 0 <= i < |xs| ==> lo <= xs[i]
  {
    if |xs| == 1 then xs[0]
    else
      var rest := Min(xs[1..]);
      assert forall i :: 1 <= i < |xs| ==> xs[i] == xs[1..][i - 1];
      if xs[0] <= rest then xs[0] else rest
  }

  function Max(xs: seq<real>): (hi: real)
    requires xs != []
    ensures hi in xs && forall i :: 0 <= i < |xs| ==> xs[i] <= hi
  {
    if |xs| == 1 then xs[0]
    else
      var rest := Max(xs[1..]);
      assert forall i :: 1 <= i < |xs| ==> xs[i] == xs[1..][i - 1];
      if xs[0] >= rest then xs[0] else rest
  }

  /** The mean score of a non-empty result set lies between its smallest and
      its largest score. */
  lemma MeanBetweenExtremes(rows: seq<Record>)
    requires rows != []
    ensures var xs := ScoreColumn(rows);
            Min(xs) <= CalculateStatistics(rows).score.value <= Max(xs)
  {
    var xs := ScoreColumn(rows);
    MeanWithin(xs, Min(xs), Max(xs));
  }

  /** Scores in [-1, 1], as every backend produces, give a mean in [-1, 1]. */
  lemma MeanInRange(rows: seq<Record>)
    requires rows != []
    requires forall i :: 0 <= i < |rows| ==> -1.0 <= rows[i].score <= 1.0
    ensures -1.0 <= CalculateStatistics(rows).score.value <= 1.0
  {
    MeanWithin(ScoreColumn(rows), -1.0, 1.0);
  }

  /** The overall label is that of the mean score: the stored labels play no
      part in it, so two result sets with the same scores get the same
      overall label whatever labels they store. */
  lemma ClassificationIgnoresLabels(rows1: seq<Record>, rows2: seq<Record>)
    requires ScoreColumn(rows1) == ScoreColumn(rows2)
    ensures CalculateStatistics(rows1).classification == CalculateStatistics(rows2).classification
  {
  }

  /** Hence the overall label is not a majority vote: two Negative records at
      -0.1 and one Positive record at 0.9 average to about 0.23, Positive. */
  lemma NotMajority(a: string, b: string, c: string)
    ensures var rows := [Record(a, 0.9, "Positive"), Record(b, -0.1, "Negative"), Record(c, -0.1, "Negative")];
            var s := CalculateStatistics(rows);
            s.negative > s.positive && s.classification == Positive
  {
    var rows := [Record(a, 0.9, "Positive"), Record(b, -0.1, "Negative"), Record(c, -0.1, "Negative")];
    assert LabelColumn(rows) == ["Positive", "Negative", "Negative"];
    assert ScoreColumn(rows) == [0.9, -0.1, -0.1];
    assert Sum([0.9, -0.1, -0.1]) == 0.7;
  }

  /** The statistics unit test: one record of each label at 0.8, -0.8 and 0.0
      give three records, one of each label, mean 0 and Neutral. */
  lemma Scenario(a: string, b: string, c: string)
    ensures var s := CalculateStatistics([Record(a, 0.8, "Positive"), Record(b, -0.8, "Negative"), Record(c, 0.0, "Neutral")]);
            s.total == 3 && s.positive == 1 && s.negative == 1 && s.neutral == 1
            && s.score == Some(0.0) && s.classification == Neutral
  {
    var rows := [Record(a, 0.8, "Positive"), Record(b, -0.8, "Negative"), Record(c, 0.0, "Neutral")];
    var m := multiset(LabelColumn(rows));
    assert m == multiset{"Positive", "Negative", "Neutral"} by {
      assert LabelColumn(rows) == ["Positive", "Negative", "Neutral"];
    }
    assert m["Positive"] == 1 && m["Negative"] == 1 && m["Neutral"] == 1 by {
      NameInjective(Positive, Negative);
      NameInjective(Positive, Neutral);
      NameInjective(Negative, Neutral);
    }
    assert Mean(ScoreColumn(rows)) == Some(0.0) by {
      assert ScoreColumn(rows) == [0.8, -0.8, 0.0];
      assert Sum([0.8, -0.8, 0.0]) == 0.0;
    }
  }

  // ---------------------------------------------------------------- display

  /** `count / total * 100`; None stands for the ZeroDivisionError on an
      empty result set. */
  function Percentage(count: nat, total: nat): (p: Option<real>)
    ensures p.None? <==> total == 0
    ensures p.Some? ==> p.value * (total as real) == (count as real) * 100.0
  {
    if total == 0 then None else Some((count as real) / (total as real) * 100.0)
  }

  /** A count no larger than the total is shown as a share between 0 and 100. */
  lemma PercentageBounds(count: nat, total: nat)
    requires 0 < total && count <= total
    ensures 0.0 <= Percentage(count, total).value <= 100.0
  {
    QuotientBounds(count as real, total as real, 0.0, 1.0);
  }

  /** Shares of one total add up like the counts they come from. */
  lemma PercentageSum(a: nat, b: nat, c: nat, total: nat)
    requires 0 < total
    ensures Percentage(a, total).value + Percentage(b, total).value + Percentage(c, total).value
         == Percentage(a + b + c, total).value
  {
    var t := total as real;
    assert (a as real) / t + (b as real) / t + (c as real) / t == ((a + b + c) as real) / t;
  }

  /** The positive, negative and neutral shares of a summary, as fractions. */
  datatype Shares = Shares(positive: real, negative: real, neutral: real)

  /** The three shares `display_statistics` prints, or None when it would
      divide by zero. */
  function DisplayStatistics(s: Summary): (d: Option<Shares>)
    ensures d.None? <==> s.total == 0
    ensures d.Some? ==> d.value.positive == Percentage(s.positive, s.total).value
    ensures d.Some? ==> d.value.negative == Percentage(s.negative, s.total).value
    ensures d.Some? ==> d.value.neutral == Percentage(s.neutral, s.total).value
  {
    if s.total == 0 then None
    else Some(Shares(Percentage(s.positive, s.total).value,
                     Percentage(s.negative, s.total).value,
                     Percentage(s.neutral, s.total).value))
  }

  /** Shares of counts that fit in the total add up to at most 100, and to
      exactly 100 when the counts make up the total. */
  lemma SummarySharesSum(s: Summary)
    requires 0 < s.total && s.positive + s.negative + s.neutral <= s.total
    ensures var d := DisplayStatistics(s).value;
            d.positive + d.negative + d.neutral <= 100.0
    ensures s.positive + s.negative + s.neutral == s.total ==>
            var d := DisplayStatistics(s).value;
            d.positive + d.negative + d.neutral == 100.0
  {
    PercentageSum(s.positive, s.negative, s.neutral, s.total);
    PercentageBounds(s.positive + s.negative + s.neutral, s.total);
    var t := s.total as real;
    assert t / t == 1.0;
  }

  /** The shares add up to at most 100, and to exactly 100 when every stored
      label is one of the three. */
  lemma SharesSum(rows: seq<Record>)
    requires rows != []
    ensures var d := DisplayStatistics(CalculateStatistics(rows)).value;
            d.positive + d.negative + d.neutral <= 100.0
    ensures (forall i :: 0 <= i < |rows| ==> IsLabelName(rows[i].classification)) ==>
            var d := DisplayStatistics(CalculateStatistics(rows)).value;
            d.positive + d.negative + d.neutral == 100.0
  {
    var s := CalculateStatistics(rows);
    LabelCountsBound(rows);
    SummarySharesSum(s);
  }

  /** The display unit test: 45, 30 and 25 of 100 are shown as 45, 30 and 25
      per cent, and a mean of 0.15 is Positive. */
  lemma DisplayScenario()
    ensures DisplayStatistics(Summary(100, 45, 30, 25, Some(0.15), Positive)) == Some(Shares(45.0, 30.0, 25.0))
    ensures ClassifyMean(Some(0.15)) == Positive
  {
  }
}
