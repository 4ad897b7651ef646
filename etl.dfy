/**
 * The ingestion routine `etl(df)` (app/etl.py): validation and repair,
 * enrichment, the schema check, per-row staging and the single commit or
 * rollback.
 *
 * `Prepare` states what lines 6-53 compute from the input table; the method
 * `Etl` runs the same steps one after another on a local frame, stages the
 * rows in a loop and commits, and is proved to agree with `Prepare`. The
 * lemmas after it state what the routine promises in terms of the input.
 */
module Etl {
  import opened Wrappers
  import opened Models
  import opened Cleaning
  import opened Enrichment
  import opened Store
  import Stats
  import Text

  /** Why a run was rolled back. */
  datatype Fault =
    | MissingKey(column: string)  // a column read with df[...] does not exist
    | NullText                    // len() applied to a null Feedback Text
    | NoStringAccessor            // .str on a text column pandas did not type as strings
    | CommitRejected              // the flush hit a NOT NULL column

  /** The warnings and errors the routine logs (info messages are not kept). */
  datatype Issue =
    | EmptyFrame
    | MissingValues(counts: map<string, nat>)
    | InvalidEntries(column: string, count: nat)
    | MissingColumn(column: string)
    | RecordError
    | UploadError(fault: Fault)

  /** The state of the frame once line 53 is passed, or why it never was. */
  datatype Prepared =
    | Empty
    | Aborted(fault: Fault, log: seq<Issue>)
    | Incomplete(column: string, log: seq<Issue>)
    | Ready(rows: seq<Row>, drafts: seq<Draft>, log: seq<Issue>)

  datatype Outcome =
    | NoData
    | ColumnMissing(column: string)
    | Uploaded(count: nat)
    | RolledBack(fault: Fault)

  /** The warning a filter logs when it dropped rows. */
  function DropIssue(column: string, before: nat, after: nat): (log: seq<Issue>)
    requires after <= before
    ensures log == [] <==> after == before
    ensures log != [] ==> log == [InvalidEntries(column, before - after)]
  {
    if after < before then [InvalidEntries(column, before - after)] else []
  }

  /** The rows after lines 12-15. */
  function Filled(t: Table): seq<RawRow>
  {
    if AnyMissing(t) then FillDefaults(t.columns, t.rows) else t.rows
  }

  function MissingLog(t: Table): seq<Issue>
  {
    if AnyMissing(t) then [MissingValues(NullCounts(t))] else []
  }

  /** No row has a null Feedback Text, so line 38 cannot raise. */
  predicate NoNullText(rows: seq<Row>)
  {
    forall k :: 0 <= k < |rows| ==> rows[k].text.Some?
  }

  /**
   * Whether pandas types the Feedback Text column as strings (object dtype),
   * which `.str.capitalize()` on line 41 needs: it does once some cell of
   * the input holds a string, while a column of nulls only is a float
   * column. Lines 12-32 only fill other columns or drop rows, so the type
   * is that of the input column.
   */
  predicate TextIsString(t: Table)
  {
    exists i :: 0 <= i < |t.rows| && t.rows[i].text.Some?
  }

  /** Every row that passed both enum filters. */
  predicate AllScreened(rows: seq<Row>)
  {
    forall k :: 0 <= k < |rows| ==> HasValidSource(rows[k]) && HasValidSentiment(rows[k])
  }

  predicate AllValidSources(rows: seq<Row>)
  {
    forall k :: 0 <= k < |rows| ==> HasValidSource(rows[k])
  }

  lemma SourceFilterValid(rows: seq<Row>)
    ensures AllValidSources(KeepValidSources(rows))
  {
    var r := KeepValidSources(rows);
    forall k | 0 <= k < |r| ensures HasValidSource(r[k]) {
      assert r[k] in r;
    }
  }

  lemma SentimentFilterScreens(rows: seq<Row>)
    requires AllValidSources(rows)
    ensures AllScreened(KeepValidSentiments(rows))
  {
    var r := KeepValidSentiments(rows);
    forall k | 0 <= k < |r| ensures HasValidSource(r[k]) && HasValidSentiment(r[k]) {
      assert r[k] in r;
      var j :| 0 <= j < |rows| && rows[j] == r[k];
    }
  }

  /** The rows after line 35. */
  function Repaired(columns: set<string>, rows: seq<Row>): (r: seq<Row>)
    requires AllScreened(rows)
    ensures |r| == |rows| && AllScreened(r)
  {
    if RatingColumn in columns then
      var r := RepairRatings(rows);
      assert forall k :: 0 <= k < |r| ==> r[k].(rating := rows[k].rating) == rows[k];
      r
    else rows
  }

  /** Lines 38-53, from the screened rows and the log so far. */
  function Finish(columns: set<string>, stringText: bool, screened: seq<Row>, log: seq<Issue>): Prepared
    requires AllScreened(screened)
  {
    var rows := Repaired(columns, screened);
    if TextColumn !in columns then Aborted(MissingKey(TextColumn), log)
    else if !NoNullText(rows) then Aborted(NullText, log)
    else if !stringText then Aborted(NoStringAccessor, log)
    else
      match FirstMissing(columns + DerivedColumns, RequiredColumns)
      case Some(c) => Incomplete(c, log)
      case None => Ready(rows, EnrichAll(rows), log)
  }

  /** Lines 6-53 of the routine. */
  function Prepare(t: Table, parse: string -> Option<Timestamp>): Prepared
  {
    if IsEmpty(t) then Empty else AfterFill(t.columns, TextIsString(t), Filled(t), MissingLog(t), parse)
  }

  /** Lines 17-53, from the filled rows. */
  function AfterFill(columns: set<string>, stringText: bool, rows: seq<RawRow>, log: seq<Issue>,
                     parse: string -> Option<Timestamp>): Prepared
  {
    if DateColumn !in columns then Aborted(MissingKey(DateColumn), log)
    else
      var dated := ParseDates(rows, parse);
      AfterDates(columns, stringText, dated, log + DropIssue(DateColumn, |rows|, |dated|))
  }

  /** Lines 22-53, from the rows with a parsed date. */
  function AfterDates(columns: set<string>, stringText: bool, rows: seq<Row>, log: seq<Issue>): Prepared
  {
    if SourceColumn !in columns then Aborted(MissingKey(SourceColumn), log)
    else
      var kept := KeepValidSources(rows);
      SourceFilterValid(rows);
      AfterSources(columns, stringText, kept, log + DropIssue(SourceColumn, |rows|, |kept|))
  }

  /** Lines 28-53, from the rows with an allowed source. */
  function AfterSources(columns: set<string>, stringText: bool, rows: seq<Row>, log: seq<Issue>): Prepared
    requires AllValidSources(rows)
  {
    if SentimentColumn !in columns then Aborted(MissingKey(SentimentColumn), log)
    else
      var kept := KeepValidSentiments(rows);
      SentimentFilterScreens(rows);
      Finish(columns, stringText, kept, log + DropIssue(SentimentColumn, |rows|, |kept|))
  }

  // ---------------------------------------------------------------------------
  // Staging (lines 54-71)
  // ---------------------------------------------------------------------------

  /** The drafts whose construction and `session.add` succeed, in order. */
  function Accepted(drafts: seq<Draft>, constructs: Draft -> bool): (s: seq<Draft>)
    ensures |s| <= |drafts|
    ensures (forall k :: 0 <= k < |drafts| ==> constructs(drafts[k])) ==> s == drafts
  {
    if drafts == [] then []
    else
      var last := |drafts| - 1;
      assert drafts == drafts[..last] + [drafts[last]];
      Accepted(drafts[..last], constructs) + (if constructs(drafts[last]) then [drafts[last]] else [])
  }

  /** A draft is accepted exactly when it is one of the rows' drafts and constructs. */
  lemma {:induction false} AcceptedMembers(drafts: seq<Draft>, constructs: Draft -> bool)
    ensures forall d :: d in Accepted(drafts, constructs) <==> d in drafts && constructs(d)
  {
    if drafts != [] {
      var last := |drafts| - 1;
      assert drafts == drafts[..last] + [drafts[last]];
      AcceptedMembers(drafts[..last], constructs);
    }
  }

  /** One more row adds its draft at the end when it constructs. */
  lemma AcceptedSnoc(s: seq<Draft>, x: Draft, constructs: Draft -> bool)
    ensures Accepted(s + [x], constructs) == Accepted(s, constructs) + (if constructs(x) then [x] else [])
  {
    assert (s + [x])[..|s|] == s;
  }

  /** Skipping is done row by row, so the accepted drafts keep the row order. */
  lemma {:induction false} AcceptedAppend(a: seq<Draft>, b: seq<Draft>, constructs: Draft -> bool)
    ensures Accepted(a + b, constructs) == Accepted(a, constructs) + Accepted(b, constructs)
  {
    if b == [] {
      assert a + b == a;
    } else {
      var last := |b| - 1;
      var front := b[..last];
      assert b == front + [b[last]];
      assert a + b == (a + front) + [b[last]];
      AcceptedSnoc(a + front, b[last], constructs);
      AcceptedSnoc(front, b[last], constructs);
      AcceptedAppend(a, front, constructs);
    }
  }

  /** One error entry per skipped row. */
  function RecordErrors(n: nat): (log: seq<Issue>)
    ensures |log| == n
    ensures forall k :: 0 <= k < n ==> log[k] == RecordError
  {
    if n == 0 then [] else RecordErrors(n - 1) + [RecordError]
  }

  /** Roll back after an exception (lines 75-77). */
  method Abort(fault: Fault, log0: seq<Issue>, session: Session) returns (outcome: Outcome, log: seq<Issue>)
    modifies session
    ensures outcome == RolledBack(fault) && log == log0 + [UploadError(fault)]
    ensures session.staged == [] && session.committed == old(session.committed)
  {
    session.Rollback();
    outcome, log := RolledBack(fault), log0 + [UploadError(fault)];
  }

  /**
   * How lines 73-77 end: either every pending record is committed, in order,
   * and the outcome counts them, or nothing is committed, the commit is
   * reported as rolled back and the database error is logged.
   */
  predicate Settled(pending: seq<Draft>, staged: seq<Issue>, outcome: Outcome, log: seq<Issue>,
                    before: seq<Feedback>, after: seq<Feedback>)
  {
    if Persistable(pending) then
      outcome == Uploaded(|pending|) && log == staged && after == before + Records(pending)
    else
      outcome == RolledBack(CommitRejected) && log == staged + [UploadError(CommitRejected)] && after == before
  }

  /** Extending the rows by one adds that row's draft when it constructs. */
  lemma AcceptedStep(drafts: seq<Draft>, constructs: Draft -> bool, i: nat)
    requires i < |drafts|
    ensures Accepted(drafts[..i + 1], constructs) ==
      Accepted(drafts[..i], constructs) + (if constructs(drafts[i]) then [drafts[i]] else [])
  {
    assert drafts[..i + 1][..i] == drafts[..i];
  }

  /**
   * Lines 54-71: add one record per row to the session, in row order,
   * logging an error and going on when the construction of a record fails.
   */
  method Stage(drafts: seq<Draft>, constructs: Draft -> bool, session: Session, log0: seq<Issue>)
    returns (log: seq<Issue>)
    modifies session
    ensures session.staged == old(session.staged) + Accepted(drafts, constructs)
    ensures session.committed == old(session.committed)
    ensures log == log0 + RecordErrors(|drafts| - |Accepted(drafts, constructs)|)
  {
    log := log0;
    var i := 0;
    while i < |drafts|
      invariant 0 <= i <= |drafts|
      invariant session.staged == old(session.staged) + Accepted(drafts[..i], constructs)
      invariant session.committed == old(session.committed)
      invariant |Accepted(drafts[..i], constructs)| <= i
      invariant log == log0 + RecordErrors(i - |Accepted(drafts[..i], constructs)|)
    {
      AcceptedStep(drafts, constructs, i);
      if constructs(drafts[i]) {
        session.Add(drafts[i]);
      } else {
        log := log + [RecordError];
      }
      i := i + 1;
    }
    assert drafts[..i] == drafts;
  }

  /** Lines 54-77: stage the records, then commit once, rolling back if the commit fails. */
  method StageAndCommit(drafts: seq<Draft>, constructs: Draft -> bool, session: Session, log0: seq<Issue>)
    returns (outcome: Outcome, log: seq<Issue>)
    modifies session
    ensures var pending := old(session.staged) + Accepted(drafts, constructs);
      var staged := log0 + RecordErrors(|drafts| - |Accepted(drafts, constructs)|);
      && session.staged == []
      && Settled(pending, staged, outcome, log, old(session.committed), session.committed)
  {
    log := Stage(drafts, constructs, session, log0);
    outcome, log := CommitOrRollback(session, log);
  }

  /** Lines 73-77: commit what is staged; if the commit raises, roll back. */
  method CommitOrRollback(session: Session, log0: seq<Issue>) returns (outcome: Outcome, log: seq<Issue>)
    modifies session
    ensures session.staged == []
    ensures Settled(old(session.staged), log0, outcome, log, old(session.committed), session.committed)
  {
    var pending := session.staged;
    var ok := session.Commit();
    if ok {
      outcome, log := Uploaded(|pending|), log0;
    } else {
      session.Rollback();
      outcome, log := RolledBack(CommitRejected), log0 + [UploadError(CommitRejected)];
    }
  }

  /**
   * Lines 6-53 run step by step on a local frame: each step replaces the
   * frame (and extends the log) the way the routine mutates `df`.
   */
  method Validate(t: Table, parse: string -> Option<Timestamp>) returns (p: Prepared)
    ensures p == Prepare(t, parse)
  {
    if IsEmpty(t) {
      return Empty;
    }

    // Lines 12-15: the missing-value scan and the default fill.
    var rows := t.rows;
    var log := [];
    if AnyMissing(t) {
      log := log + [MissingValues(NullCounts(t))];
      rows := FillDefaults(t.columns, rows);
    }
    assert rows == Filled(t) && log == MissingLog(t);
    var stringText := exists i :: 0 <= i < |t.rows| && t.rows[i].text.Some?;
    ghost var rest := AfterFill(t.columns, stringText, rows, log, parse);
    assert Prepare(t, parse) == rest;

    // Lines 17-21: parse dates, drop the rows whose date does not parse.
    if DateColumn !in t.columns {
      return Aborted(MissingKey(DateColumn), log);
    }
    var frame := ParseDates(rows, parse);
    log := log + DropIssue(DateColumn, |rows|, |frame|);
    assert rest == AfterDates(t.columns, stringText, frame, log);
    rest := AfterDates(t.columns, stringText, frame, log);

    // Lines 22-26: keep the allowed sources.
    if SourceColumn !in t.columns {
      return Aborted(MissingKey(SourceColumn), log);
    }
    var kept := KeepValidSources(frame);
    log := log + DropIssue(SourceColumn, |frame|, |kept|);
    SourceFilterValid(frame);
    frame := kept;
    assert rest == AfterSources(t.columns, stringText, frame, log);
    rest := AfterSources(t.columns, stringText, frame, log);

    // Lines 28-32: keep the allowed sentiments.
    if SentimentColumn !in t.columns {
      return Aborted(MissingKey(SentimentColumn), log);
    }
    kept := KeepValidSentiments(frame);
    log := log + DropIssue(SentimentColumn, |frame|, |kept|);
    SentimentFilterScreens(frame);
    frame := kept;
    assert rest == Finish(t.columns, stringText, frame, log);
    p := Derive(t.columns, stringText, frame, log);
  }

  /** Lines 33-53 on the screened frame. */
  method Derive(columns: set<string>, stringText: bool, screened: seq<Row>, log: seq<Issue>) returns (p: Prepared)
    requires AllScreened(screened)
    ensures p == Finish(columns, stringText, screened, log)
  {
    // Lines 33-35: null out-of-range ratings, refill with the median.
    var frame := screened;
    if RatingColumn in columns {
      frame := RepairRatings(frame);
    }
    assert frame == Repaired(columns, screened);

    // Lines 38-42: the derived columns.
    if TextColumn !in columns {
      return Aborted(MissingKey(TextColumn), log);
    }
    if exists k :: 0 <= k < |frame| && frame[k].text.None? {
      return Aborted(NullText, log);
    }
    if !stringText {
      return Aborted(NoStringAccessor, log);
    }
    var drafts := EnrichAll(frame);

    // Lines 44-53: the schema check.
    var missing := FindMissingColumn(columns + DerivedColumns, RequiredColumns);
    if missing.Some? {
      return Incomplete(missing.value, log);
    }
    return Ready(frame, drafts, log);
  }

  /**
   * What a run reports and leaves in the session (`staged`, `committed`
   * before; `staged'`, `committed'` after), given how lines 6-53 ended: an
   * empty frame or a missing required column returns with the session
   * untouched; an exception is logged and rolled back; otherwise the
   * accepted records are staged and settled by one commit.
   */
  predicate Reported(p: Prepared, constructs: Draft -> bool, outcome: Outcome, log: seq<Issue>,
                     staged: seq<Draft>, committed: seq<Feedback>, staged': seq<Draft>, committed': seq<Feedback>)
  {
    match p
    case Empty =>
      outcome == NoData && log == [EmptyFrame] && staged' == staged && committed' == committed
    case Incomplete(column, log0) =>
      && outcome == ColumnMissing(column) && log == log0 + [MissingColumn(column)]
      && staged' == staged && committed' == committed
    case Aborted(fault, log0) =>
      && outcome == RolledBack(fault) && log == log0 + [UploadError(fault)]
      && staged' == [] && committed' == committed
    case Ready(_, drafts, log0) =>
      var accepted := Accepted(drafts, constructs);
      && staged' == []
      && Settled(staged + accepted, log0 + RecordErrors(|drafts| - |accepted|), outcome, log, committed, committed')
  }

  /** Lines 6-77 once the frame has been prepared: report, stage, commit. */
  method Dispatch(p: Prepared, constructs: Draft -> bool, session: Session)
    returns (outcome: Outcome, log: seq<Issue>)
    modifies session
    ensures Reported(p, constructs, outcome, log, old(session.staged), old(session.committed),
                     session.staged, session.committed)
  {
    match p
    case Empty =>
      outcome, log := NoData, [EmptyFrame];
    case Aborted(fault, log0) =>
      outcome, log := Abort(fault, log0, session);
    case Incomplete(column, log0) =>
      outcome, log := ColumnMissing(column), log0 + [MissingColumn(column)];
    case Ready(_, drafts, log0) =>
      outcome, log := StageAndCommit(drafts, constructs, session, log0);
  }

  /**
   * The whole of `etl(df)`: validate and clean the frame, then stage and
   * commit its records through the session. `parse` stands for
   * `pd.to_datetime` on one cell and `constructs` for whether building a
   * Feedback object and adding it to the session succeeds.
   */
  method Etl(t: Table, parse: string -> Option<Timestamp>, constructs: Draft -> bool, session: Session)
    returns (outcome: Outcome, log: seq<Issue>)
    modifies session
    ensures Reported(Prepare(t, parse), constructs, outcome, log, old(session.staged), old(session.committed),
                     session.staged, session.committed)
  {
    var p := Validate(t, parse);
    outcome, log := Dispatch(p, constructs, session);
  }

  // ---------------------------------------------------------------------------
  // What the routine promises, in terms of its input
  // ---------------------------------------------------------------------------

  /** The guard on line 13 changes nothing: filling a frame without nulls is a no-op. */
  lemma FilledIsFillDefaults(t: Table)
    ensures Filled(t) == FillDefaults(t.columns, t.rows)
  {
    if !AnyMissing(t) {
      FillWithoutMissingIsIdentity(t);
    }
  }

  /**
   * How lines 33-53 end, once the three columns read earlier exist: a
   * missing text column or a null text raises (line 38), a text column
   * without strings raises at `.str` (line 41), a missing
   * category or rating column is reported by the schema check, category
   * first as in the list of lines 44-48, and otherwise the screened rows,
   * ratings repaired, reach the staging loop. Nothing is logged here.
   */
  lemma FinishCases(columns: set<string>, stringText: bool, screened: seq<Row>, log: seq<Issue>)
    requires AllScreened(screened)
    requires DateColumn in columns && SourceColumn in columns && SentimentColumn in columns
    ensures var p := Finish(columns, stringText, screened, log);
      && !p.Empty? && p.log == log
      && (p == Aborted(MissingKey(TextColumn), log) <==> TextColumn !in columns)
      && (p == Aborted(NullText, log) <==> TextColumn in columns && !NoNullText(screened))
      && (p == Aborted(NoStringAccessor, log) <==> TextColumn in columns && NoNullText(screened) && !stringText)
      && (p.Aborted? ==> p.fault == MissingKey(TextColumn) || p.fault == NullText || p.fault == NoStringAccessor)
      && (p.Incomplete? <==>
            && TextColumn in columns && NoNullText(screened) && stringText
            && !(CategoryColumn in columns && RatingColumn in columns))
      && (p.Incomplete? ==> p.column == if CategoryColumn !in columns then CategoryColumn else RatingColumn)
      && (p.Ready? <==> InputColumns <= columns && NoNullText(screened) && stringText)
      && (p.Ready? ==> p.rows == RepairRatings(screened))
  {
    var rows := Repaired(columns, screened);
    assert forall k :: 0 <= k < |rows| ==> rows[k].text == screened[k].text;
    assert NoNullText(rows) <==> NoNullText(screened);
    var m := FirstMissing(columns + DerivedColumns, RequiredColumns);
    assert RequiredColumns[2] == TextColumn;
    if InputColumns <= columns {
      forall k | 0 <= k < |RequiredColumns| ensures RequiredColumns[k] in columns + DerivedColumns {
      }
    } else if CategoryColumn !in columns {
      assert RequiredColumns[4] !in columns + DerivedColumns;
      assert forall k :: 0 <= k < 4 ==> RequiredColumns[k] != CategoryColumn;
    } else if RatingColumn !in columns {
      assert RequiredColumns[5] !in columns + DerivedColumns;
      assert forall k :: 0 <= k < 5 ==> RequiredColumns[k] != RatingColumn;
    }
  }

  /** Every row of `Screen` passed both enum filters. */
  lemma ScreenedRows(rows: seq<RawRow>, parse: string -> Option<Timestamp>)
    ensures AllScreened(Screen(rows, parse))
  {
    var dated := ParseDates(rows, parse);
    SourceFilterValid(dated);
    SentimentFilterScreens(KeepValidSources(dated));
  }

  /** The warnings lines 14 and 20 log. */
  function DateLog(t: Table, parse: string -> Option<Timestamp>): seq<Issue>
  {
    var filled := Filled(t);
    MissingLog(t) + DropIssue(DateColumn, |filled|, |ParseDates(filled, parse)|)
  }

  /** The warnings lines 14, 20, 25 and 31 log. */
  function ScreenLog(t: Table, parse: string -> Option<Timestamp>): seq<Issue>
  {
    var dated := ParseDates(Filled(t), parse);
    var sourced := KeepValidSources(dated);
    var screened := KeepValidSentiments(sourced);
    DateLog(t, parse)
      + DropIssue(SourceColumn, |dated|, |sourced|)
      + DropIssue(SentimentColumn, |sourced|, |screened|)
  }

  /**
   * When the frame is not empty and the three columns read on lines 17-32
   * exist, lines 6-32 amount to `Screen` on the filled rows.
   */
  lemma PrepareReachesFinish(t: Table, parse: string -> Option<Timestamp>)
    requires !IsEmpty(t)
    requires DateColumn in t.columns && SourceColumn in t.columns && SentimentColumn in t.columns
    ensures AllScreened(Screen(Filled(t), parse))
    ensures Prepare(t, parse) == Finish(t.columns, TextIsString(t), Screen(Filled(t), parse), ScreenLog(t, parse))
  {
    ScreenedRows(Filled(t), parse);
    var filled := Filled(t);
    var dated := ParseDates(filled, parse);
    var log1 := DateLog(t, parse);
    var stringText := TextIsString(t);
    assert Prepare(t, parse) == AfterDates(t.columns, stringText, dated, log1);
    var sourced := KeepValidSources(dated);
    var log2 := log1 + DropIssue(SourceColumn, |dated|, |sourced|);
    SourceFilterValid(dated);
    assert AfterDates(t.columns, stringText, dated, log1) == AfterSources(t.columns, stringText, sourced, log2);
    var screened := KeepValidSentiments(sourced);
    var log3 := log2 + DropIssue(SentimentColumn, |sourced|, |screened|);
    assert log3 == ScreenLog(t, parse);
    assert screened == Screen(filled, parse);
  }

  /**
   * Every way lines 6-53 can end. Only an empty frame gives `Empty`; a
   * column read with `df[...]` that does not exist raises (the first one in
   * program order is reported); a null text raises; a missing category or
   * rating column is reported by the schema check; everything else reaches
   * the staging loop with the screened rows, ratings repaired.
   */
  lemma PrepareCases(t: Table, parse: string -> Option<Timestamp>)
    ensures var p := Prepare(t, parse);
      && (p.Empty? <==> IsEmpty(t))
      && (p.Aborted? && p.fault == MissingKey(DateColumn) <==> !IsEmpty(t) && DateColumn !in t.columns)
      && (p.Aborted? && p.fault == MissingKey(SourceColumn) <==>
            !IsEmpty(t) && DateColumn in t.columns && SourceColumn !in t.columns)
      && (p.Aborted? && p.fault == MissingKey(SentimentColumn) <==>
            !IsEmpty(t) && DateColumn in t.columns && SourceColumn in t.columns && SentimentColumn !in t.columns)
      && (p.Aborted? ==> p.fault != CommitRejected)
  {
    if !IsEmpty(t) && DateColumn in t.columns && SourceColumn in t.columns && SentimentColumn in t.columns {
      PrepareReachesFinish(t, parse);
      FinishCases(t.columns, TextIsString(t), Screen(Filled(t), parse), ScreenLog(t, parse));
    }
  }

  /**
   * Once the three columns read on lines 17-32 exist, the text, category
   * and rating columns and the texts of the surviving rows decide the rest.
   */
  lemma ScreenedCases(t: Table, parse: string -> Option<Timestamp>)
    requires !IsEmpty(t)
    requires DateColumn in t.columns && SourceColumn in t.columns && SentimentColumn in t.columns
    ensures AllScreened(Screen(Filled(t), parse))
    ensures var p := Prepare(t, parse); var screened := Screen(Filled(t), parse);
      && p.log == ScreenLog(t, parse)
      && (p.Aborted? && p.fault == MissingKey(TextColumn) <==> TextColumn !in t.columns)
      && (p.Aborted? && p.fault == NullText <==> TextColumn in t.columns && !NoNullText(screened))
      && (p.Aborted? && p.fault == NoStringAccessor <==>
            TextColumn in t.columns && NoNullText(screened) && !TextIsString(t))
      && (p.Incomplete? <==>
            && TextColumn in t.columns && NoNullText(screened) && TextIsString(t)
            && !(CategoryColumn in t.columns && RatingColumn in t.columns))
      && (p.Incomplete? ==> p.column == if CategoryColumn !in t.columns then CategoryColumn else RatingColumn)
      && (p.Ready? <==> InputColumns <= t.columns && NoNullText(screened) && TextIsString(t))
      && (p.Ready? ==> p.rows == RepairRatings(screened))
      && (p.Ready? ==>
            && |p.drafts| == |p.rows|
            && forall k :: 0 <= k < |p.rows| ==> Enrichable(p.rows[k]) && p.drafts[k] == Enrich(p.rows[k]))
  {
    PrepareReachesFinish(t, parse);
    FinishCases(t.columns, TextIsString(t), Screen(Filled(t), parse), ScreenLog(t, parse));
  }

  /**
   * A text column that holds no string raises at `.str` on line 41 only
   * when lines 17-32 dropped every row: a surviving row with a text would
   * make it a string column, and one with a null text raises at `len` on
   * line 38 first.
   */
  lemma NoStringAccessorOnlyWhenAllDropped(t: Table, parse: string -> Option<Timestamp>)
    ensures var p := Prepare(t, parse);
      p.Aborted? && p.fault == NoStringAccessor <==>
        && !IsEmpty(t) && DateColumn in t.columns && SourceColumn in t.columns
        && SentimentColumn in t.columns && TextColumn in t.columns
        && Screen(Filled(t), parse) == [] && !TextIsString(t)
  {
    var p := Prepare(t, parse);
    var screened := Screen(Filled(t), parse);
    if !IsEmpty(t) && DateColumn in t.columns && SourceColumn in t.columns && SentimentColumn in t.columns {
      ScreenedCases(t, parse);
      if screened != [] && NoNullText(screened) {
        SurvivorTextIsString(t, parse);
      }
      assert screened == [] ==> NoNullText(screened);
    } else {
      PrepareCases(t, parse);
      assert !(p.Aborted? && p.fault == NoStringAccessor);
    }
  }

  /** A surviving row with a text makes the input's text column a string column. */
  lemma SurvivorTextIsString(t: Table, parse: string -> Option<Timestamp>)
    requires SentimentColumn in t.columns
    requires Screen(Filled(t), parse) != [] && NoNullText(Screen(Filled(t), parse))
    ensures TextIsString(t)
  {
    var screened := Screen(Filled(t), parse);
    ScreenedRow(t, parse, 0);
    assert t.rows[screened[0].index].text == screened[0].text;
  }

  /**
   * Whether input row `r` survives lines 17-32 of a frame that has the
   * date, source and sentiment columns: its date parses, its source is
   * allowed, and its sentiment is allowed or null (a null one was filled
   * with "Neutral" on line 15).
   */
  predicate Survives(r: RawRow, parse: string -> Option<Timestamp>)
  {
    && r.date.Some? && parse(r.date.value).Some?
    && r.source.Some? && r.source.value in ValidSources
    && (r.sentiment.None? || r.sentiment.value in ValidSentiments)
  }

  /** A row of the filled frame passes lines 17-32 exactly when the raw row `Survives`. */
  lemma FilledRowSurvives(t: Table, parse: string -> Option<Timestamp>, i: nat)
    requires SentimentColumn in t.columns && i < |t.rows|
    ensures var d := Dated(Filled(t)[i], i, parse);
      d.Some? && HasValidSource(d.value) && HasValidSentiment(d.value) <==> Survives(t.rows[i], parse)
  {
    FilledIsFillDefaults(t);
  }

  /**
   * The rows that survive lines 17-32 are an ordered subsequence of the
   * input: row `i` of the input is among them exactly when it `Survives`.
   */
  lemma ScreenedFromInput(t: Table, parse: string -> Option<Timestamp>)
    requires SentimentColumn in t.columns
    ensures var screened := Screen(Filled(t), parse);
      && IndexSorted(screened)
      && |screened| <= |t.rows|
      && (forall k :: 0 <= k < |screened| ==> screened[k].index < |t.rows|)
      && forall i :: 0 <= i < |t.rows| ==>
           ((exists k :: 0 <= k < |screened| && screened[k].index == i) <==> Survives(t.rows[i], parse))
  {
    var filled := Filled(t);
    var screened := Screen(filled, parse);
    ScreenSpec(filled, parse);
    FilledIsFillDefaults(t);
    forall k | 0 <= k < |screened| ensures screened[k].index < |t.rows| {
      assert screened[k] in screened;
    }
    forall i | 0 <= i < |t.rows|
      ensures (exists k :: 0 <= k < |screened| && screened[k].index == i) <==> Survives(t.rows[i], parse)
    {
      FilledRowSurvives(t, parse, i);
      if exists k :: 0 <= k < |screened| && screened[k].index == i {
        var k :| 0 <= k < |screened| && screened[k].index == i;
        assert screened[k] in screened;
      }
      if Survives(t.rows[i], parse) {
        var x := Dated(filled[i], i, parse).value;
        assert x in screened;
      }
    }
  }

  /**
   * The rows that reach the staging loop are an ordered subsequence of the
   * input: row `i` of the input is among them exactly when it `Survives`,
   * each at most once, in input order, with one draft per row.
   */
  lemma ReadyRows(t: Table, parse: string -> Option<Timestamp>)
    requires Prepare(t, parse).Ready?
    ensures var p := Prepare(t, parse);
      && IndexSorted(p.rows)
      && |p.drafts| == |p.rows| <= |t.rows|
      && (forall k :: 0 <= k < |p.rows| ==> p.rows[k].index < |t.rows|)
      && forall i :: 0 <= i < |t.rows| ==>
           ((exists k :: 0 <= k < |p.rows| && p.rows[k].index == i) <==> Survives(t.rows[i], parse))
  {
    PrepareCases(t, parse);
    ScreenedCases(t, parse);
    ScreenedFromInput(t, parse);
    var p := Prepare(t, parse);
    var screened := Screen(Filled(t), parse);
    assert forall k :: 0 <= k < |p.rows| ==> p.rows[k].index == screened[k].index;
  }

  /**
   * The k-th staged record, in terms of the input row it came from: the
   * parsed day, the source, the capitalized text and the length of the
   * original text, the sentiment ("Neutral" when null) with its two
   * mapped values, the category as given, and a rating that is 3 when
   * null, kept when in [1,5] and otherwise the median of the in-range
   * ratings (defaults included) of the surviving rows. Every record
   * satisfies `ValidDraft`.
   */
  lemma ReadyRecord(t: Table, parse: string -> Option<Timestamp>, k: nat)
    requires Prepare(t, parse).Ready?
    requires k < |Prepare(t, parse).drafts|
    ensures var p := Prepare(t, parse); var i := p.rows[k].index;
      i < |t.rows| && Survives(t.rows[i], parse) && t.rows[i].text.Some?
    ensures var p := Prepare(t, parse); var raw := t.rows[p.rows[k].index]; var d := p.drafts[k];
      && d.date == parse(raw.date.value).value.day
      && d.source == raw.source.value
      && d.feedbackText == Text.Capitalize(raw.text.value)
      && d.feedbackLength == |raw.text.value|
      && d.sentimentScore == (if raw.sentiment.None? then DefaultSentiment else raw.sentiment.value)
      && d.productServiceCategory == raw.category
      && (raw.rating.None? ==> d.rating == Some(DefaultRating))
      && (raw.rating.Some? && InRange(raw.rating.value) ==> d.rating == raw.rating)
      && (raw.rating.Some? && !InRange(raw.rating.value) ==>
            d.rating == Stats.Median(InRangeRatings(Screen(Filled(t), parse))))
      && ValidDraft(d)
  {
    PrepareCases(t, parse);
    ScreenedCases(t, parse);
    var p := Prepare(t, parse);
    var filled := Filled(t);
    var screened := Screen(filled, parse);
    ScreenSpec(filled, parse);
    FilledIsFillDefaults(t);
    var x := screened[k];
    assert x in screened;
    var i := x.index;
    assert Dated(filled[i], i, parse) == Some(x);
    FilledRowSurvives(t, parse, i);
    RepairRatingsSpec(screened, k);
    EnrichValid(p.rows[k]);
  }

  /** Lines 22-53 only ever append to the log. */
  lemma AfterDatesExtendsLog(columns: set<string>, stringText: bool, rows: seq<Row>, log: seq<Issue>)
    requires DateColumn in columns
    ensures !AfterDates(columns, stringText, rows, log).Empty? && log <= AfterDates(columns, stringText, rows, log).log
  {
    if SourceColumn in columns && SentimentColumn in columns {
      var sourced := KeepValidSources(rows);
      var log2 := log + DropIssue(SourceColumn, |rows|, |sourced|);
      SourceFilterValid(rows);
      var screened := KeepValidSentiments(sourced);
      var log3 := log2 + DropIssue(SentimentColumn, |sourced|, |screened|);
      SentimentFilterScreens(sourced);
      FinishCases(columns, stringText, screened, log3);
      assert log3[..|log|] == log;
    }
  }

  /** Past line 17, whatever the outcome, the warnings of lines 14 and 20 head the log. */
  lemma DateLogKept(t: Table, parse: string -> Option<Timestamp>)
    requires !IsEmpty(t) && DateColumn in t.columns
    ensures !Prepare(t, parse).Empty? && DateLog(t, parse) <= Prepare(t, parse).log
  {
    var dated := ParseDates(Filled(t), parse);
    assert Prepare(t, parse) == AfterDates(t.columns, TextIsString(t), dated, DateLog(t, parse));
    AfterDatesExtendsLog(t.columns, TextIsString(t), dated, DateLog(t, parse));
  }

  /** A null or unparsable date makes line 20 log how many rows line 21 drops. */
  lemma DateLogCounts(t: Table, parse: string -> Option<Timestamp>, i: nat)
    requires i < |t.rows| && (t.rows[i].date.None? || parse(t.rows[i].date.value).None?)
    ensures var log := DateLog(t, parse); var n := |t.rows| - |ParseDates(Filled(t), parse)|;
      n >= 1 && |log| > 0 && log[|log| - 1] == InvalidEntries(DateColumn, n)
  {
    FilledIsFillDefaults(t);
    var filled := Filled(t);
    assert filled[i].date == t.rows[i].date;
    ParseDatesDrops(filled, parse, i);
  }

  /**
   * A row whose date is null or not a date is dropped and reported: however
   * the run ends after line 17, its log holds one warning counting the
   * dropped rows, and there is at least one.
   */
  lemma InvalidDateLogged(t: Table, parse: string -> Option<Timestamp>, i: nat)
    requires !IsEmpty(t) && DateColumn in t.columns
    requires i < |t.rows| && (t.rows[i].date.None? || parse(t.rows[i].date.value).None?)
    ensures var p := Prepare(t, parse); var n := |t.rows| - |ParseDates(Filled(t), parse)|;
      !p.Empty? && n >= 1 && InvalidEntries(DateColumn, n) in p.log
  {
    DateLogCounts(t, parse, i);
    DateLogKept(t, parse);
    var log1 := DateLog(t, parse);
    assert Prepare(t, parse).log[|log1| - 1] == log1[|log1| - 1];
  }

  /** A well-formed input row: every cell present, a parsing date, allowed values, a rating in [1,5]. */
  predicate CleanRow(r: RawRow, parse: string -> Option<Timestamp>)
  {
    && r.date.Some? && parse(r.date.value).Some?
    && r.source.Some? && r.source.value in ValidSources
    && r.text.Some?
    && r.sentiment.Some? && r.sentiment.value in ValidSentiments
    && r.category.Some?
    && r.rating.Some? && InRange(r.rating.value)
  }

  /** A frame of clean rows has no null cell, so line 15 does not run. */
  lemma CleanRowsNotMissing(t: Table, parse: string -> Option<Timestamp>)
    requires forall i :: 0 <= i < |t.rows| ==> CleanRow(t.rows[i], parse)
    ensures !AnyMissing(t) && Filled(t) == t.rows && MissingLog(t) == []
  {
    forall c | c in InputColumns ensures NullCount(t.rows, c) == 0 {
      forall i | 0 <= i < |t.rows| ensures !IsNull(t.rows[i], c) {
        assert CleanRow(t.rows[i], parse);
      }
    }
    assert NullCounts(t) == map[];
  }

  /** Lines 17-32 keep every clean row, in order, as its parsed version. */
  lemma CleanRowsScreened(rows: seq<RawRow>, parse: string -> Option<Timestamp>)
    requires forall i :: 0 <= i < |rows| ==> CleanRow(rows[i], parse)
    ensures forall i :: 0 <= i < |rows| ==> Dated(rows[i], i, parse).Some?
    ensures var dated := ParseDates(rows, parse);
      && KeepValidSources(dated) == dated
      && KeepValidSentiments(dated) == dated
      && Screen(rows, parse) == dated
      && |dated| == |rows|
      && (forall k :: 0 <= k < |rows| ==> dated[k] == Dated(rows[k], k, parse).value)
      && NoNullText(dated)
      && RepairRatings(dated) == dated
  {
    assert forall i :: 0 <= i < |rows| ==> Dated(rows[i], i, parse).Some?;
    ParseDatesKeepsAll(rows, parse);
    var dated := ParseDates(rows, parse);
    assert forall k :: 0 <= k < |dated| ==> HasValidSource(dated[k]) && HasValidSentiment(dated[k]);
    RepairKeepsInRangeRows(dated);
  }

  /**
   * A non-empty frame with every input column and only clean rows goes
   * through lines 6-53 untouched: nothing is logged, and row k of the input
   * becomes the k-th record, in order.
   */
  lemma CleanTableKeptWhole(t: Table, parse: string -> Option<Timestamp>)
    requires |t.rows| > 0 && InputColumns <= t.columns
    requires forall i :: 0 <= i < |t.rows| ==> CleanRow(t.rows[i], parse)
    ensures var p := Prepare(t, parse);
      && p.Ready? && p.log == [] && |p.rows| == |t.rows|
      && forall k :: 0 <= k < |t.rows| ==> Dated(t.rows[k], k, parse) == Some(p.rows[k])
  {
    CleanTableScreened(t, parse);
    assert t.rows[0].text.Some?;
    ScreenedCases(t, parse);
    var p := Prepare(t, parse);
    var screened := Screen(Filled(t), parse);
    assert p.Ready? && p.rows == RepairRatings(screened);
    assert RepairRatings(screened) == screened;
  }

  /** For a frame of clean rows, lines 12-32 keep every row as its parsed version and log nothing. */
  lemma CleanTableScreened(t: Table, parse: string -> Option<Timestamp>)
    requires forall i :: 0 <= i < |t.rows| ==> CleanRow(t.rows[i], parse)
    ensures var screened := Screen(Filled(t), parse);
      && ScreenLog(t, parse) == []
      && |screened| == |t.rows| && NoNullText(screened) && RepairRatings(screened) == screened
      && forall k :: 0 <= k < |t.rows| ==> Dated(t.rows[k], k, parse) == Some(screened[k])
  {
    CleanRowsNotMissing(t, parse);
    CleanRowsScreened(t.rows, parse);
    var dated := ParseDates(t.rows, parse);
    CleanLogEmpty(t, parse, dated);
  }

  /** Filters that drop nothing after a fill that does not run log nothing. */
  lemma CleanLogEmpty(t: Table, parse: string -> Option<Timestamp>, dated: seq<Row>)
    requires Filled(t) == t.rows && MissingLog(t) == []
    requires dated == ParseDates(t.rows, parse) && |dated| == |t.rows|
    requires KeepValidSources(dated) == dated && KeepValidSentiments(dated) == dated
    ensures ScreenLog(t, parse) == []
  {
    assert DropIssue(DateColumn, |t.rows|, |dated|) == [];
    assert DateLog(t, parse) == [];
    assert DropIssue(SourceColumn, |dated|, |dated|) == [];
    assert DropIssue(SentimentColumn, |dated|, |dated|) == [];
  }

  /**
   * One draft with a null column that constructs, and so is staged, makes
   * the whole flush fail, whatever the other rows do.
   */
  lemma NullDraftRejected(drafts: seq<Draft>, constructs: Draft -> bool, before: seq<Draft>, k: nat)
    requires k < |drafts| && ToRecord(drafts[k]).None? && constructs(drafts[k])
    ensures !Persistable(before + Accepted(drafts, constructs))
  {
    var accepted := Accepted(drafts, constructs);
    AcceptedMembers(drafts, constructs);
    assert drafts[k] in accepted;
    var j :| 0 <= j < |accepted| && accepted[j] == drafts[k];
    assert (before + accepted)[|before| + j] == drafts[k];
  }

  /** The draft the loop builds from input row `i`, if that row reached it, constructs. */
  predicate RowConstructs(p: Prepared, i: nat, constructs: Draft -> bool)
    requires p.Ready?
  {
    forall k :: 0 <= k < |p.rows| && k < |p.drafts| && p.rows[k].index == i ==> constructs(p.drafts[k])
  }

  /** Row j of the screened frame is the parsed form of a filled input row that `Survives`. */
  lemma ScreenedRow(t: Table, parse: string -> Option<Timestamp>, j: nat)
    requires SentimentColumn in t.columns
    requires j < |Screen(Filled(t), parse)|
    ensures var x := Screen(Filled(t), parse)[j];
      && x.index < |t.rows| && Survives(t.rows[x.index], parse)
      && Dated(FillRow(t.columns, t.rows[x.index]), x.index, parse) == Some(x)
  {
    var filled := Filled(t);
    var screened := Screen(filled, parse);
    ScreenSpec(filled, parse);
    FilledIsFillDefaults(t);
    assert screened[j] in screened;
    FilledRowSurvives(t, parse, screened[j].index);
  }

  /**
   * A surviving row with a null category reaches the flush with a null
   * NOT NULL column (no default is filled for it), so once its record is
   * staged the commit fails and the run is rolled back.
   */
  lemma NullCategoryRejected(t: Table, parse: string -> Option<Timestamp>, constructs: Draft -> bool,
                             before: seq<Draft>, i: nat)
    requires Prepare(t, parse).Ready?
    requires i < |t.rows| && Survives(t.rows[i], parse) && t.rows[i].category.None?
    requires RowConstructs(Prepare(t, parse), i, constructs)
    ensures !Persistable(before + Accepted(Prepare(t, parse).drafts, constructs))
  {
    ReadyRows(t, parse);
    var p := Prepare(t, parse);
    var k :| 0 <= k < |p.rows| && p.rows[k].index == i;
    ReadyRecord(t, parse, k);
    NullDraftRejected(p.drafts, constructs, before, k);
  }

  /** When no surviving rating lies in [1,5], none is left for the median of line 35. */
  lemma NoRatingInRange(t: Table, parse: string -> Option<Timestamp>)
    requires SentimentColumn in t.columns
    requires forall j :: 0 <= j < |t.rows| && Survives(t.rows[j], parse) ==>
      t.rows[j].rating.Some? && !InRange(t.rows[j].rating.value)
    ensures InRangeRatings(Screen(Filled(t), parse)) == []
  {
    var screened := Screen(Filled(t), parse);
    forall j | 0 <= j < |screened| ensures screened[j].rating.Some? && !InRange(screened[j].rating.value) {
      ScreenedRow(t, parse, j);
    }
    NoInRangeRatings(screened);
  }

  /**
   * When no surviving rating lies in [1,5], the median of line 35 is
   * undefined and an out-of-range rating stays null; once such a record is
   * staged the commit fails and the run is rolled back.
   */
  lemma NoRatingInRangeRejected(t: Table, parse: string -> Option<Timestamp>, constructs: Draft -> bool,
                                before: seq<Draft>, i: nat)
    requires Prepare(t, parse).Ready?
    requires forall j :: 0 <= j < |t.rows| && Survives(t.rows[j], parse) ==>
      t.rows[j].rating.Some? && !InRange(t.rows[j].rating.value)
    requires i < |t.rows| && Survives(t.rows[i], parse)
    requires RowConstructs(Prepare(t, parse), i, constructs)
    ensures !Persistable(before + Accepted(Prepare(t, parse).drafts, constructs))
  {
    ReadyRows(t, parse);
    var p := Prepare(t, parse);
    var k :| 0 <= k < |p.rows| && p.rows[k].index == i;
    ReadyRecord(t, parse, k);
    NoRatingInRange(t, parse);
    assert Stats.Median(InRangeRatings(Screen(Filled(t), parse))) == None;
    assert p.drafts[k].rating == None;
    NullDraftRejected(p.drafts, constructs, before, k);
  }

  /**
   * Only an empty frame yields `NoData`, and such a run stages nothing,
   * commits nothing and leaves the session as it was.
   */
  lemma EmptyRun(t: Table, parse: string -> Option<Timestamp>, constructs: Draft -> bool, outcome: Outcome,
                 log: seq<Issue>, staged: seq<Draft>, committed: seq<Feedback>,
                 staged': seq<Draft>, committed': seq<Feedback>)
    requires Reported(Prepare(t, parse), constructs, outcome, log, staged, committed, staged', committed')
    ensures outcome == NoData <==> IsEmpty(t)
    ensures IsEmpty(t) ==> log == [EmptyFrame] && staged' == staged && committed' == committed
  {
    PrepareCases(t, parse);
  }

  /**
   * The schema check of lines 50-53 only ever reports the category or the
   * rating column (category first), and it returns before anything is
   * staged or committed.
   */
  lemma MissingColumnRun(t: Table, parse: string -> Option<Timestamp>, constructs: Draft -> bool, outcome: Outcome,
                         log: seq<Issue>, staged: seq<Draft>, committed: seq<Feedback>,
                         staged': seq<Draft>, committed': seq<Feedback>)
    requires Reported(Prepare(t, parse), constructs, outcome, log, staged, committed, staged', committed')
    requires outcome.ColumnMissing?
    ensures outcome.column !in t.columns
    ensures outcome.column == CategoryColumn || outcome.column == RatingColumn
    ensures outcome.column == RatingColumn ==> CategoryColumn in t.columns
    ensures staged' == staged && committed' == committed
  {
    PrepareCases(t, parse);
    ScreenedCases(t, parse);
  }

  /** The invariants every stored row of the routine keeps. */
  predicate ValidRecord(f: Feedback)
  {
    && f.source in ValidSources
    && f.sentimentScore in ValidSentiments
    && ConsistentSentiment(f.sentimentScore, f.sentimentCategory, f.sentimentNumeric)
    && f.feedbackLength == |f.feedbackText|
    && Text.IsCapitalized(f.feedbackText)
    && InRange(f.rating)
  }

  /** Every record that reaches the staging loop keeps the record invariants. */
  lemma ReadyDraftsValid(t: Table, parse: string -> Option<Timestamp>)
    requires Prepare(t, parse).Ready?
    ensures forall k :: 0 <= k < |Prepare(t, parse).drafts| ==> ValidDraft(Prepare(t, parse).drafts[k])
  {
    PrepareCases(t, parse);
    ScreenedCases(t, parse);
    var p := Prepare(t, parse);
    var screened := Screen(Filled(t), parse);
    forall k | 0 <= k < |p.drafts| ensures ValidDraft(p.drafts[k]) {
      RepairRatingsSpec(screened, k);
      EnrichValid(p.rows[k]);
    }
  }

  /**
   * A run whose staged records all keep the record invariants writes only
   * rows that keep them, after the rows already written.
   */
  lemma CommittedFromValidDrafts(p: Prepared, constructs: Draft -> bool, outcome: Outcome, log: seq<Issue>,
                                 staged: seq<Draft>, committed: seq<Feedback>,
                                 staged': seq<Draft>, committed': seq<Feedback>)
    requires Reported(p, constructs, outcome, log, staged, committed, staged', committed')
    requires forall k :: 0 <= k < |staged| ==> ValidDraft(staged[k])
    requires p.Ready? ==> forall k :: 0 <= k < |p.drafts| ==> ValidDraft(p.drafts[k])
    ensures |committed| <= |committed'| && committed'[..|committed|] == committed
    ensures forall j :: |committed| <= j < |committed'| ==> ValidRecord(committed'[j])
  {
    if outcome.Uploaded? {
      var pending := staged + Accepted(p.drafts, constructs);
      AcceptedMembers(p.drafts, constructs);
      var written := Records(pending);
      assert committed' == committed + written;
      forall j | |committed| <= j < |committed'| ensures ValidRecord(committed'[j]) {
        var m := j - |committed|;
        assert committed'[j] == written[m];
        assert ToRecord(pending[m]) == Some(written[m]);
        if m >= |staged| {
          assert pending[m] in Accepted(p.drafts, constructs);
        }
        assert ValidDraft(pending[m]);
      }
    } else {
      AllOrNothing(p, constructs, outcome, log, staged, committed, staged', committed');
    }
  }

  /**
   * Every row a run writes has an allowed source and sentiment, the two
   * sentiment values that go with it, its text's length, a capitalized text
   * and a rating in [1,5]; the rows written before stay as they were.
   */
  lemma CommittedRecordsValid(t: Table, parse: string -> Option<Timestamp>, constructs: Draft -> bool,
                              outcome: Outcome, log: seq<Issue>, staged: seq<Draft>, committed: seq<Feedback>,
                              staged': seq<Draft>, committed': seq<Feedback>)
    requires Reported(Prepare(t, parse), constructs, outcome, log, staged, committed, staged', committed')
    requires forall k :: 0 <= k < |staged| ==> ValidDraft(staged[k])
    ensures |committed| <= |committed'| && committed'[..|committed|] == committed
    ensures forall j :: |committed| <= j < |committed'| ==> ValidRecord(committed'[j])
  {
    var p := Prepare(t, parse);
    if p.Ready? {
      ReadyDraftsValid(t, parse);
    }
    CommittedFromValidDrafts(p, constructs, outcome, log, staged, committed, staged', committed');
  }

  /**
   * Nothing is ever partly committed: a run either adds every accepted
   * record, in order, and reports how many, or leaves the written rows as
   * they were. Whatever happens, nothing is left pending in the session
   * after a run that got past line 8 and the schema check.
   */
  lemma AllOrNothing(p: Prepared, constructs: Draft -> bool, outcome: Outcome, log: seq<Issue>,
                     staged: seq<Draft>, committed: seq<Feedback>, staged': seq<Draft>, committed': seq<Feedback>)
    requires Reported(p, constructs, outcome, log, staged, committed, staged', committed')
    ensures outcome.Uploaded? ==>
      && p.Ready?
      && var pending := staged + Accepted(p.drafts, constructs);
         Persistable(pending) && committed' == committed + Records(pending) && outcome.count == |pending|
    ensures !outcome.Uploaded? ==> committed' == committed
    ensures (p.Aborted? || p.Ready?) ==> staged' == []
  {
  }
}
