/**
  The classifier and the scoring backends of src/analyzer.py. A backend's
  natural-language library is opaque: it is handed in as a function from the
  review text to a score.
 */
module Analyzer {

  import opened Text

  /** The three sentiment labels, in the order Negative < Neutral < Positive. */
  datatype Label = Positive | Negative | Neutral {

    /** The label as the program writes it into the result file. */
    function Name(): string {
      match this
      case Positive => "Positive"
      case Negative => "Negative"
      case Neutral => "Neutral"
    }

    function Rank(): nat {
      match this
      case Negative => 0
      case Neutral => 1
      case Positive => 2
    }
  }

  /** Scores at or above this are positive. */
  const PositiveThreshold: real := 0.05
  /** Scores at or below this are negative. */
  const NegativeThreshold: real := -0.05

  /** `classify_sentiment`: total on every real, with inclusive boundaries. */
  function Classify(score: real): (sentiment: Label)
    ensures sentiment == Positive <==> score >= 0.05
    ensures sentiment == Negative <==> score <= -0.05
    ensures sentiment == Neutral <==> -0.05 < score < 0.05
  {
    if score >= PositiveThreshold then Positive
    else if score <= NegativeThreshold then Negative
    else Neutral
  }

  /** A higher score never gets a lower label. */
  lemma ClassifyMonotone(s1: real, s2: real)
    requires s1 <= s2
    ensures Classify(s1).Rank() <= Classify(s2).Rank()
  {
  }

  /** The thresholds themselves belong to the outer labels. */
  lemma ClassifyBoundaries()
    ensures Classify(0.05) == Positive && Classify(-0.05) == Negative
    ensures Classify(0.0) == Neutral && Classify(0.04) == Neutral && Classify(-0.04) == Neutral
    ensures Classify(0.8) == Positive && Classify(0.1) == Positive
    ensures Classify(-0.8) == Negative && Classify(-0.1) == Negative
  {
  }

  /** Distinct labels are written as distinct strings, and only these three. */
  lemma NameInjective(a: Label, b: Label)
    ensures a.Name() == b.Name() <==> a == b
    ensures a.Name() in ["Positive", "Negative", "Neutral"]
  {
    assert "Positive"[1] != "Negative"[1] && "Positive"[1] != "Neutral"[1];
    assert "Negative"[2] != "Neutral"[2];
  }

  /** The backends the program can call. */
  datatype Backend = TextBlob | Vader | Google

  /** The natural-language libraries behind the backends: TextBlob's polarity,
      VADER's compound score and the Google Cloud document sentiment. */
  datatype Engines = Engines(
    textBlobPolarity: string -> real,
    vaderCompound: string -> real,
    googleScore: string -> real)

  function Library(engines: Engines, backend: Backend): string -> real {
    match backend
    case TextBlob => engines.textBlobPolarity
    case Vader => engines.vaderCompound
    case Google => engines.googleScore
  }

  /** All three libraries answer inside [-1, 1]. */
  ghost predicate InRange(engines: Engines) {
    forall b: Backend, review: string :: -1.0 <= Library(engines, b)(review) <= 1.0
  }

  /** `analyze_sentiment_blob`, `analyze_sentiment_vader` and
      `analyze_sentiment_google`: when nothing is left of the review once it
      is stripped, the score is 0.0 and no library is called; otherwise the
      backend's library scores the review as given. */
  function AnalyzeSentiment(engines: Engines, backend: Backend, review: string): real {
    if Strip(review) == [] then 0.0 else Library(engines, backend)(review)
  }

  /** The guard: a blank review scores 0.0, any other review gets the
      library's score. */
  lemma BlankGuard(engines: Engines, backend: Backend, review: string)
    ensures IsBlank(review) ==> AnalyzeSentiment(engines, backend, review) == 0.0
    ensures !IsBlank(review) ==> AnalyzeSentiment(engines, backend, review) == Library(engines, backend)(review)
  {
    StripSpec(review);
  }

  /** For a blank review no library is consulted: every backend over every
      set of libraries gives the same score. */
  lemma BlankIgnoresBackend(e1: Engines, e2: Engines, b1: Backend, b2: Backend, review: string)
    requires IsBlank(review)
    ensures AnalyzeSentiment(e1, b1, review) == AnalyzeSentiment(e2, b2, review) == 0.0
  {
    BlankGuard(e1, b1, review);
    BlankGuard(e2, b2, review);
  }

  /** Hence a blank review is always classified Neutral. */
  lemma BlankIsNeutral(engines: Engines, backend: Backend, review: string)
    requires IsBlank(review)
    ensures Classify(AnalyzeSentiment(engines, backend, review)) == Neutral
  {
    BlankGuard(engines, backend, review);
  }

  /** The guard keeps every score inside the libraries' range. */
  lemma ScoreInRange(engines: Engines, backend: Backend, review: string)
    requires InRange(engines)
    ensures -1.0 <= AnalyzeSentiment(engines, backend, review) <= 1.0
  {
  }
}
