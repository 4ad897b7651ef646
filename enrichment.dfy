/**
 * Row-wise enrichment and the schema check of the ingestion routine
 * (app/etl.py, lines 38-53).
 */
module Enrichment {
  import opened Wrappers
  import opened Models
  import opened Cleaning
  import Text

  const LengthColumn := "Feedback Length"
  const SentimentCategoryColumn := "Sentiment Category"
  const SentimentNumericColumn := "Sentiment Numeric"

  /** The columns lines 38-42 add to the frame. */
  const DerivedColumns: set<string> := {LengthColumn, SentimentCategoryColumn, SentimentNumericColumn}

  /** The schema every stored record needs, in the order it is checked. */
  const RequiredColumns: seq<string> := [
    DateColumn, SourceColumn, TextColumn, SentimentColumn,
    CategoryColumn, RatingColumn, LengthColumn,
    SentimentCategoryColumn, SentimentNumericColumn
  ]

  const CategoryMap: map<string, string> := map["Positive" := "Good", "Neutral" := "Neutral", "Negative" := "Bad"]
  const NumericMap: map<string, int> := map["Positive" := 1, "Neutral" := 0, "Negative" := -1]

  /** `Series.map(dict)`: a key outside the dictionary maps to NaN. */
  function MapCell<V>(m: map<string, V>, key: string): (v: Option<V>)
    ensures v.Some? <==> key in m
    ensures v.Some? ==> v.value == m[key]
  {
    if key in m then Some(m[key]) else None
  }

  /** The two sentiment mappings, stated side by side as one table. */
  predicate ConsistentSentiment(score: string, category: string, numeric: int)
  {
    || (score == "Positive" && category == "Good" && numeric == 1)
    || (score == "Neutral" && category == "Neutral" && numeric == 0)
    || (score == "Negative" && category == "Bad" && numeric == -1)
  }

  /** Both mappings are total on exactly the three valid sentiments, and agree with the table. */
  lemma SentimentMapsTotal(score: string)
    ensures MapCell(CategoryMap, score).Some? <==> score in ValidSentiments
    ensures MapCell(NumericMap, score).Some? <==> score in ValidSentiments
    ensures score in ValidSentiments ==>
      ConsistentSentiment(score, MapCell(CategoryMap, score).value, MapCell(NumericMap, score).value)
  {
    assert score in ValidSentiments <==> score == "Positive" || score == "Neutral" || score == "Negative";
  }

  /** The only sentiment scores ConsistentSentiment admits are the three valid ones. */
  lemma ConsistentSentimentIsValid(score: string, category: string, numeric: int)
    requires ConsistentSentiment(score, category, numeric)
    ensures score in ValidSentiments
    ensures MapCell(CategoryMap, score) == Some(category) && MapCell(NumericMap, score) == Some(numeric)
  {
    assert ValidSentiments[0] == "Positive" && ValidSentiments[1] == "Neutral" && ValidSentiments[2] == "Negative";
  }

  /** A row that reaches the enrichment step without raising. */
  predicate Enrichable(r: Row)
  {
    HasValidSource(r) && HasValidSentiment(r) && r.text.Some?
  }

  /**
   * Lines 38-42 on one row, followed by the construction of the Feedback
   * object from that row (lines 56-66).
   */
  function Enrich(r: Row): (d: Draft)
    requires Enrichable(r)
    ensures d.date == r.stamp.day
    ensures d.source == r.source.value && d.sentimentScore == r.sentiment.value
    ensures d.productServiceCategory == r.category && d.rating == r.rating
    ensures d.feedbackLength == |r.text.value|
    ensures d.feedbackText == Text.Capitalize(r.text.value)
    ensures ConsistentSentiment(d.sentimentScore, d.sentimentCategory, d.sentimentNumeric)
  {
    var score := r.sentiment.value;
    SentimentMapsTotal(score);
    Draft(
      r.stamp.day,
      r.source.value,
      Text.Capitalize(r.text.value),
      score,
      r.category,
      r.rating,
      |r.text.value|,
      MapCell(CategoryMap, score).value,
      MapCell(NumericMap, score).value)
  }

  function EnrichAll(rows: seq<Row>): (ds: seq<Draft>)
    requires forall k :: 0 <= k < |rows| ==> Enrichable(rows[k])
    ensures |ds| == |rows|
    ensures forall k :: 0 <= k < |rows| ==> ds[k] == Enrich(rows[k])
  {
    seq(|rows|, k requires 0 <= k < |rows| && Enrichable(rows[k]) => Enrich(rows[k]))
  }

  /** The invariants of a record produced by the routine. */
  predicate ValidDraft(d: Draft)
  {
    && d.source in ValidSources
    && d.sentimentScore in ValidSentiments
    && ConsistentSentiment(d.sentimentScore, d.sentimentCategory, d.sentimentNumeric)
    && d.feedbackLength == |d.feedbackText|
    && Text.IsCapitalized(d.feedbackText)
    && (d.rating.Some? ==> InRange(d.rating.value))
  }

  /** An enriched row whose rating is repaired satisfies every record invariant. */
  lemma EnrichValid(r: Row)
    requires Enrichable(r)
    requires r.rating.Some? ==> InRange(r.rating.value)
    ensures ValidDraft(Enrich(r))
  {
    Text.CapitalizeIsCapitalized(r.text.value);
  }

  /** `feedback_length` is the length of the text both before and after capitalization. */
  lemma LengthSurvivesCapitalization(r: Row)
    requires Enrichable(r)
    ensures Enrich(r).feedbackLength == |Enrich(r).feedbackText| == |r.text.value|
  {
  }

  // ---------------------------------------------------------------------------
  // The schema check (lines 44-53)
  // ---------------------------------------------------------------------------

  /** The first column of `required` that is not in `columns`, if any. */
  function FirstMissing(columns: set<string>, required: seq<string>): (m: Option<string>)
    ensures m.None? <==> forall k :: 0 <= k < |required| ==> required[k] in columns
    ensures m.Some? ==>
      exists k :: (0 <= k < |required| && required[k] == m.value
        && m.value !in columns && forall j :: 0 <= j < k ==> required[j] in columns)
  {
    if required == [] then None
    else if required[0] !in columns then Some(required[0])
    else
      var rest := FirstMissing(columns, required[1..]);
      assert forall k :: 1 <= k < |required| ==> required[k] == required[1..][k - 1];
      rest
  }

  /** The `for column in required_columns` loop, returning the column it stops at. */
  method FindMissingColumn(columns: set<string>, required: seq<string>) returns (missing: Option<string>)
    ensures missing == FirstMissing(columns, required)
  {
    var i := 0;
    while i < |required|
      invariant 0 <= i <= |required|
      invariant forall j :: 0 <= j < i ==> required[j] in columns
      invariant FirstMissing(columns, required) == FirstMissing(columns, required[i..])
    {
      if required[i] !in columns {
        return Some(required[i]);
      }
      assert required[i..][1..] == required[i + 1..];
      i := i + 1;
    }
    return None;
  }

  /**
   * When Date, Source, Feedback Text and Sentiment Score are present (the
   * routine raised earlier otherwise) the check can only stop at the
   * category column or, after it, at Rating.
   */
  lemma MissingColumnIsCategoryOrRating(columns: set<string>)
    requires DateColumn in columns && SourceColumn in columns
    requires TextColumn in columns && SentimentColumn in columns
    ensures var m := FirstMissing(columns + DerivedColumns, RequiredColumns);
      && (m.Some? ==> m.value == CategoryColumn || m.value == RatingColumn)
      && (CategoryColumn !in columns ==> m == Some(CategoryColumn))
      && (CategoryColumn in columns && RatingColumn !in columns ==> m == Some(RatingColumn))
      && (CategoryColumn in columns && RatingColumn in columns ==> m == None)
  {
    var cs := columns + DerivedColumns;
    var m := FirstMissing(cs, RequiredColumns);
    if m.Some? {
      var k :| 0 <= k < |RequiredColumns| && RequiredColumns[k] == m.value
        && m.value !in cs && forall j :: 0 <= j < k ==> RequiredColumns[j] in cs;
      assert k == 4 || k == 5;
      if k == 5 { assert RequiredColumns[4] in cs; }
    } else {
      assert RequiredColumns[4] in cs && RequiredColumns[5] in cs;
    }
  }
}
