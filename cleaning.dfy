/**
 * The column-wise validation and repair stages of the ingestion routine
 * (app/etl.py, lines 12-35): default filling, date parsing, the two enum
 * filters and the median repair of ratings.
 *
 * A table row is a record of nullable cells. After date parsing a row also
 * carries its pandas index label, which `dropna` and boolean masks keep; the
 * label is how the stages state that survivors are an ordered subsequence of
 * the input.
 */
module Cleaning {
  import opened Wrappers
  import opened Models
  import Stats

  const DateColumn := "Date"
  const SourceColumn := "Source"
  const TextColumn := "Feedback Text"
  const SentimentColumn := "Sentiment Score"
  const CategoryColumn := "Product/Service Category"
  const RatingColumn := "Rating"

  /** The input columns the routine reads. */
  const InputColumns: set<string> :=
    {DateColumn, SourceColumn, TextColumn, SentimentColumn, CategoryColumn, RatingColumn}

  const ValidSources: seq<string> := ["Social Media", "Survey", "Review Site"]
  const ValidSentiments: seq<string> := ["Positive", "Neutral", "Negative"]

  const DefaultRating: real := 3.0
  const DefaultSentiment: string := "Neutral"

  /** A parsed datetime; `day` is what `.dt.date` keeps of it. */
  datatype Timestamp = Timestamp(day: Date, nanos: nat)

  /** One row of the merged input table; `None` is a null cell. */
  datatype RawRow = RawRow(
    date: Option<string>,
    source: Option<string>,
    text: Option<string>,
    sentiment: Option<string>,
    category: Option<string>,
    rating: Option<real>)

  /**
   * The merged input table. A column of the routine that is not in `columns`
   * does not exist in the frame; its cells in `rows` are never read.
   */
  datatype Table = Table(columns: set<string>, rows: seq<RawRow>)

  /** A row after date parsing, with its index label. */
  datatype Row = Row(
    index: nat,
    stamp: Timestamp,
    source: Option<string>,
    text: Option<string>,
    sentiment: Option<string>,
    category: Option<string>,
    rating: Option<real>)

  /** Survivors appear in the order of the input rows they came from. */
  predicate IndexSorted(rows: seq<Row>)
  {
    forall k, l :: 0 <= k < l < |rows| ==> rows[k].index < rows[l].index
  }

  // ---------------------------------------------------------------------------
  // Empty frame (lines 6-8)
  // ---------------------------------------------------------------------------

  /** `DataFrame.empty`: no rows or no columns. */
  predicate IsEmpty(t: Table)
  {
    |t.rows| == 0 || t.columns == {}
  }

  // ---------------------------------------------------------------------------
  // Missing-value scan and default fill (lines 12-15)
  // ---------------------------------------------------------------------------

  predicate IsNull(r: RawRow, column: string)
  {
    if column == DateColumn then r.date.None?
    else if column == SourceColumn then r.source.None?
    else if column == TextColumn then r.text.None?
    else if column == SentimentColumn then r.sentiment.None?
    else if column == CategoryColumn then r.category.None?
    else if column == RatingColumn then r.rating.None?
    else false
  }

  /** The number of null cells of one column: the rows at which it is null. */
  function NullCount(rows: seq<RawRow>, column: string): (n: nat)
    ensures n == |set i | 0 <= i < |rows| && IsNull(rows[i], column)|
    ensures n <= |rows|
    ensures n == 0 <==> forall i :: 0 <= i < |rows| ==> !IsNull(rows[i], column)
  {
    if rows == [] then 0
    else
      var last := |rows| - 1;
      var prefix := rows[..last];
      assert (set i | 0 <= i < |rows| && IsNull(rows[i], column)) ==
        (set i | 0 <= i < |prefix| && IsNull(prefix[i], column))
          + (if IsNull(rows[last], column) then {last} else {});
      NullCount(prefix, column) + (if IsNull(rows[last], column) then 1 else 0)
  }

  /**
   * `df.isnull().sum()` restricted to the columns with at least one null:
   * every present input column with a null cell is a key, mapped to the
   * number of its null cells.
   */
  function NullCounts(t: Table): (counts: map<string, nat>)
    ensures forall c :: c in counts <==> c in InputColumns && c in t.columns && NullCount(t.rows, c) > 0
    ensures forall c :: c in counts ==>
      counts[c] == |set i | 0 <= i < |t.rows| && IsNull(t.rows[i], c)| && counts[c] > 0
  {
    map c | c in InputColumns && c in t.columns && NullCount(t.rows, c) > 0 :: NullCount(t.rows, c)
  }

  /** `missing_data.any()`. */
  predicate AnyMissing(t: Table)
  {
    NullCounts(t) != map[]
  }

  /** Some count is positive exactly when some present column has a null cell. */
  lemma AnyMissingIff(t: Table)
    ensures AnyMissing(t) <==>
      exists c, i :: c in InputColumns && c in t.columns && 0 <= i < |t.rows| && IsNull(t.rows[i], c)
  {
    if AnyMissing(t) {
      var c :| c in NullCounts(t);
      assert NullCount(t.rows, c) > 0;
      var i :| 0 <= i < |t.rows| && IsNull(t.rows[i], c);
    }
    if exists c, i :: c in InputColumns && c in t.columns && 0 <= i < |t.rows| && IsNull(t.rows[i], c) {
      var c, i :| c in InputColumns && c in t.columns && 0 <= i < |t.rows| && IsNull(t.rows[i], c);
      assert c in NullCounts(t);
    }
  }

  /** `fillna({'Rating': 3, 'Sentiment Score': 'Neutral'})` on one row; absent columns are skipped. */
  function FillRow(columns: set<string>, r: RawRow): (f: RawRow)
    ensures f.date == r.date && f.source == r.source && f.text == r.text && f.category == r.category
    ensures f.rating == (if RatingColumn in columns && r.rating.None? then Some(DefaultRating) else r.rating)
    ensures f.sentiment ==
      (if SentimentColumn in columns && r.sentiment.None? then Some(DefaultSentiment) else r.sentiment)
  {
    r.(rating := if RatingColumn in columns && r.rating.None? then Some(DefaultRating) else r.rating,
       sentiment := if SentimentColumn in columns && r.sentiment.None? then Some(DefaultSentiment) else r.sentiment)
  }

  function FillDefaults(columns: set<string>, rows: seq<RawRow>): (filled: seq<RawRow>)
    ensures |filled| == |rows|
    ensures forall i :: 0 <= i < |rows| ==> filled[i] == FillRow(columns, rows[i])
  {
    seq(|rows|, i requires 0 <= i < |rows| => FillRow(columns, rows[i]))
  }

  /** After the fill a present Rating or Sentiment Score column has no null left. */
  lemma FillLeavesNoNullDefaults(columns: set<string>, rows: seq<RawRow>, i: nat)
    requires i < |rows|
    ensures RatingColumn in columns ==> FillDefaults(columns, rows)[i].rating.Some?
    ensures SentimentColumn in columns ==> FillDefaults(columns, rows)[i].sentiment.Some?
  {
  }

  /**
   * The guard on the fill does not change the table: with nothing missing
   * the fill is the identity.
   */
  lemma FillWithoutMissingIsIdentity(t: Table)
    requires !AnyMissing(t)
    ensures FillDefaults(t.columns, t.rows) == t.rows
  {
    AnyMissingIff(t);
    forall i | 0 <= i < |t.rows| ensures FillRow(t.columns, t.rows[i]) == t.rows[i] {
      assert !IsNull(t.rows[i], RatingColumn) || RatingColumn !in t.columns;
      assert !IsNull(t.rows[i], SentimentColumn) || SentimentColumn !in t.columns;
    }
  }

  // ---------------------------------------------------------------------------
  // Date parsing and dropping unparseable dates (lines 17-21)
  // ---------------------------------------------------------------------------

  /**
   * Row `i` after `to_datetime(errors='coerce')` and `dropna(subset=['Date'])`:
   * kept with its index label exactly when its date cell is present and parses.
   */
  function Dated(r: RawRow, i: nat, parse: string -> Option<Timestamp>): (d: Option<Row>)
    ensures d.Some? <==> r.date.Some? && parse(r.date.value).Some?
    ensures d.Some? ==>
      && d.value.index == i && d.value.stamp == parse(r.date.value).value
      && d.value.source == r.source && d.value.text == r.text && d.value.sentiment == r.sentiment
      && d.value.category == r.category && d.value.rating == r.rating
  {
    match r.date
    case None => None
    case Some(text) =>
      match parse(text)
      case None => None
      case Some(ts) => Some(Row(i, ts, r.source, r.text, r.sentiment, r.category, r.rating))
  }

  function ParseDates(rows: seq<RawRow>, parse: string -> Option<Timestamp>): (r: seq<Row>)
    ensures |r| <= |rows|
    ensures forall k :: 0 <= k < |r| ==>
      r[k].index < |rows| && Dated(rows[r[k].index], r[k].index, parse) == Some(r[k])
    ensures IndexSorted(r)
    ensures forall i :: 0 <= i < |rows| && Dated(rows[i], i, parse).Some? ==>
      Dated(rows[i], i, parse).value in r
  {
    if rows == [] then []
    else
      var last := |rows| - 1;
      var prefix := ParseDates(rows[..last], parse);
      assert forall k :: 0 <= k < |prefix| ==> rows[..last][prefix[k].index] == rows[prefix[k].index];
      match Dated(rows[last], last, parse)
      case None => prefix
      case Some(x) => prefix + [x]
  }

  /** A row whose date is null or does not parse is dropped, so the frame shrinks. */
  lemma {:induction false} ParseDatesDrops(rows: seq<RawRow>, parse: string -> Option<Timestamp>, i: nat)
    requires i < |rows| && Dated(rows[i], i, parse).None?
    ensures |ParseDates(rows, parse)| < |rows|
  {
    var last := |rows| - 1;
    if i < last {
      assert rows[..last][i] == rows[i];
      ParseDatesDrops(rows[..last], parse, i);
    }
  }

  /** When every date parses, no row is dropped and row k keeps label k. */
  lemma {:induction false} ParseDatesKeepsAll(rows: seq<RawRow>, parse: string -> Option<Timestamp>)
    requires forall i :: 0 <= i < |rows| ==> Dated(rows[i], i, parse).Some?
    ensures |ParseDates(rows, parse)| == |rows|
    ensures forall k :: 0 <= k < |rows| ==> ParseDates(rows, parse)[k] == Dated(rows[k], k, parse).value
  {
    if rows != [] {
      var last := |rows| - 1;
      var prefix := rows[..last];
      assert forall i :: 0 <= i < last ==> prefix[i] == rows[i];
      ParseDatesKeepsAll(prefix, parse);
      var x := Dated(rows[last], last, parse).value;
      assert ParseDates(rows, parse) == ParseDates(prefix, parse) + [x];
    }
  }

  // ---------------------------------------------------------------------------
  // The two enum filters (lines 22-32)
  // ---------------------------------------------------------------------------

  /** `df[mask]`: the rows satisfying `keep`, in order. */
  function Keep(rows: seq<Row>, keep: Row -> bool): (r: seq<Row>)
    ensures |r| <= |rows|
    ensures forall x :: x in r <==> x in rows && keep(x)
    ensures IndexSorted(rows) ==> IndexSorted(r)
    ensures (forall k :: 0 <= k < |rows| ==> keep(rows[k])) ==> r == rows
  {
    if rows == [] then []
    else
      var last := |rows| - 1;
      var prefix := Keep(rows[..last], keep);
      assert rows == rows[..last] + [rows[last]];
      assert IndexSorted(rows) ==> forall x :: x in prefix ==> x.index < rows[last].index;
      if keep(rows[last]) then prefix + [rows[last]] else prefix
  }

  /** `df["Source"].isin(valid_sources)`; a null cell is not in the list. */
  predicate HasValidSource(r: Row)
  {
    r.source.Some? && r.source.value in ValidSources
  }

  /** `df["Sentiment Score"].isin(valid_sentiments)`. */
  predicate HasValidSentiment(r: Row)
  {
    r.sentiment.Some? && r.sentiment.value in ValidSentiments
  }

  function KeepValidSources(rows: seq<Row>): (r: seq<Row>)
    ensures |r| <= |rows|
    ensures forall x :: x in r <==> x in rows && HasValidSource(x)
    ensures IndexSorted(rows) ==> IndexSorted(r)
  {
    Keep(rows, HasValidSource)
  }

  function KeepValidSentiments(rows: seq<Row>): (r: seq<Row>)
    ensures |r| <= |rows|
    ensures forall x :: x in r <==> x in rows && HasValidSentiment(x)
    ensures IndexSorted(rows) ==> IndexSorted(r)
  {
    Keep(rows, HasValidSentiment)
  }

  /**
   * Dates, sources and sentiments together: a row survives exactly when its
   * date parses and both enum cells are valid, and the survivors keep their
   * input order. A row dropped by one check is never seen again.
   */
  function Screen(rows: seq<RawRow>, parse: string -> Option<Timestamp>): seq<Row>
  {
    KeepValidSentiments(KeepValidSources(ParseDates(rows, parse)))
  }

  lemma ScreenSpec(rows: seq<RawRow>, parse: string -> Option<Timestamp>)
    ensures IndexSorted(Screen(rows, parse))
    ensures |Screen(rows, parse)| <= |rows|
    ensures forall x :: x in Screen(rows, parse) <==>
      && x.index < |rows| && Dated(rows[x.index], x.index, parse) == Some(x)
      && HasValidSource(x) && HasValidSentiment(x)
  {
    var dated := ParseDates(rows, parse);
    forall x: Row | x.index < |rows| && Dated(rows[x.index], x.index, parse) == Some(x)
      ensures x in dated
    {
    }
    forall x | x in dated ensures x.index < |rows| && Dated(rows[x.index], x.index, parse) == Some(x) {
      var k :| 0 <= k < |dated| && dated[k] == x;
    }
  }

  // ---------------------------------------------------------------------------
  // Rating repair (lines 33-35)
  // ---------------------------------------------------------------------------

  predicate InRange(x: real)
  {
    1.0 <= x <= 5.0
  }

  /** The ratings left after out-of-range values are nulled, in row order. */
  function InRangeRatings(rows: seq<Row>): (rs: seq<real>)
    ensures forall k :: 0 <= k < |rs| ==> InRange(rs[k])
    ensures forall x :: x in rs <==> exists k :: 0 <= k < |rows| && rows[k].rating == Some(x) && InRange(x)
  {
    if rows == [] then []
    else
      var last := |rows| - 1;
      var prefix := InRangeRatings(rows[..last]);
      assert forall k :: 0 <= k < last ==> rows[..last][k] == rows[k];
      match rows[last].rating
      case Some(x) => if InRange(x) then prefix + [x] else prefix
      case None => prefix
  }

  /** The ratings a single row contributes to the median. */
  lemma InRangeRatingsOne(r: Row)
    ensures InRangeRatings([r]) == if r.rating.Some? && InRange(r.rating.value) then [r.rating.value] else []
  {
    assert [r][..0] == [];
  }

  /**
   * The median population is collected row by row, so it keeps every
   * in-range rating as often as it occurs, in row order.
   */
  lemma {:induction false} InRangeRatingsAppend(a: seq<Row>, b: seq<Row>)
    ensures InRangeRatings(a + b) == InRangeRatings(a) + InRangeRatings(b)
  {
    if b == [] {
      assert a + b == a;
    } else {
      var last := |b| - 1;
      var front := b[..last];
      assert (a + b)[..|a + b| - 1] == a + front;
      assert (a + b)[|a + b| - 1] == b[last];
      InRangeRatingsAppend(a, front);
    }
  }

  /** With no rating in [1,5] there is nothing to take the median of. */
  lemma {:induction false} NoInRangeRatings(rows: seq<Row>)
    requires forall k :: 0 <= k < |rows| ==> rows[k].rating.None? || !InRange(rows[k].rating.value)
    ensures InRangeRatings(rows) == []
  {
    if rows != [] {
      var last := |rows| - 1;
      assert forall k :: 0 <= k < last ==> rows[..last][k] == rows[k];
      NoInRangeRatings(rows[..last]);
    }
  }

  /** Null the rating when it lies outside [1,5], then fill a null with the median. */
  function RepairedRating(rating: Option<real>, median: Option<real>): Option<real>
  {
    if rating.Some? && InRange(rating.value) then rating else median
  }

  function RepairRatings(rows: seq<Row>): (r: seq<Row>)
    ensures |r| == |rows|
    ensures forall k :: 0 <= k < |rows| ==>
      r[k] == rows[k].(rating := RepairedRating(rows[k].rating, Stats.Median(InRangeRatings(rows))))
  {
    var m := Stats.Median(InRangeRatings(rows));
    seq(|rows|, k requires 0 <= k < |rows| => rows[k].(rating := RepairedRating(rows[k].rating, m)))
  }

  /**
   * After the repair every rating that is present lies in [1,5]; an
   * in-range rating is unchanged, any other is the median of the in-range
   * ones; when at least one rating is in range, none is null.
   */
  lemma RepairRatingsSpec(rows: seq<Row>, k: nat)
    requires k < |rows|
    ensures var r := RepairRatings(rows)[k];
      && (r.rating.Some? ==> InRange(r.rating.value))
      && (rows[k].rating.Some? && InRange(rows[k].rating.value) ==> r.rating == rows[k].rating)
      && (!(rows[k].rating.Some? && InRange(rows[k].rating.value)) ==>
            r.rating == Stats.Median(InRangeRatings(rows)))
      && ((exists j :: 0 <= j < |rows| && rows[j].rating.Some? && InRange(rows[j].rating.value))
            ==> r.rating.Some?)
      && r.(rating := rows[k].rating) == rows[k]
  {
    var rs := InRangeRatings(rows);
    if rs != [] {
      Stats.MedianWithin(rs, 1.0, 5.0);
    }
    if exists j :: 0 <= j < |rows| && rows[j].rating.Some? && InRange(rows[j].rating.value) {
      var j :| 0 <= j < |rows| && rows[j].rating.Some? && InRange(rows[j].rating.value);
      assert rows[j].rating.value in rs;
    }
  }

  /** A table whose ratings are all present and in range is left as it is. */
  lemma RepairKeepsInRangeRows(rows: seq<Row>)
    requires forall k :: 0 <= k < |rows| ==> rows[k].rating.Some? && InRange(rows[k].rating.value)
    ensures RepairRatings(rows) == rows
  {
  }
}
