/** The per-user summary, how it relates to the rows and how far rounding can move it. */
module Reads {
  import opened Prelude
  import opened Money
  import opened Ledger
  import opened Pipeline
  import opened Safety

  // -------------------------------------------------------------------- summary

  /** `get_summary`: COALESCE(SUM, 0) and COUNT, the total normalised to four decimals. */
  ghost function GetSummary(table: Table, user: string): Result<Totals, MoneyError> {
    var t := Aggregate(table, user);
    var total := QuantizeUsd(if t.count == 0 then Finite(0, 0) else Finite(t.total, -4));
    if total.Ok? then Ok(Totals(total.value, t.count)) else Err(total.error)
  }

  /** The normalisation changes nothing: the summary is the aggregate, unless that needs more than 28 digits. */
  lemma SummaryIsAggregate(table: Table, user: string)
    ensures Fits(Aggregate(table, user).total, PRECISION) ==> GetSummary(table, user) == Ok(Aggregate(table, user))
    ensures !Fits(Aggregate(table, user).total, PRECISION) ==> GetSummary(table, user) == Err(InvalidOperation)
  {
    var t := Aggregate(table, user);
    assert t.count == 0 ==> UserRows(table, user) == {} && t.total == 0;
    assert t.total * Pow10(0) == t.total;
    assert Pow10(PRECISION) >= 1;
  }

  ghost predicate Priced(row: Row) {
    ConvertToUsd(row.amount, row.rate) == Ok(row.usd)
  }

  ghost predicate InRange(row: Row) {
    AmountInRange(row.amount) && RateInRange(row.rate)
  }

  /** In every reachable state each row holds the conversion of its own amount at its own rate. */
  lemma {:induction false} RowsArePriced(cfg: Settings, run: seq<Action>)
    ensures forall id :: id in Exec(cfg, INITIAL, run).table ==> Priced(Exec(cfg, INITIAL, run).table[id])
    decreases |run|
  {
    if run != [] {
      RowsArePriced(cfg, run[..|run| - 1]);
    }
  }

  /** The row holds the five fields of the event and the conversion of its amount at the row's rate. */
  ghost predicate HoldsEvent(row: Row, ev: Event) {
    && row.id == ev.id && row.user == ev.user && row.amount == ev.amount
    && row.currency == ev.currency && row.timestamp == ev.timestamp
    && ConvertToUsd(ev.amount, row.rate) == Ok(row.usd)
  }

  /** Some published entry parses to the event that the row holds. */
  ghost predicate FromEntry(cfg: Settings, published: seq<string>, row: Row) {
    exists i :: 0 <= i < |published| && cfg.parse(published[i]).Some? && HoldsEvent(row, cfg.parse(published[i]).value)
  }

  /** Each row stands under its own id and holds the event of a published entry. */
  ghost predicate AllFromEntries(cfg: Settings, s: Sys) {
    forall id :: id in s.table ==> s.table[id].id == id && FromEntry(cfg, s.broker.published, s.table[id])
  }

  lemma FromEntryStays(cfg: Settings, few: seq<string>, more: seq<string>, row: Row)
    requires FromEntry(cfg, few, row) && few <= more
    ensures FromEntry(cfg, more, row)
  {
    var i :| 0 <= i < |few| && cfg.parse(few[i]).Some? && HoldsEvent(row, cfg.parse(few[i]).value);
    assert more[i] == few[i];
  }

  /** So it is in every reachable state. */
  lemma {:induction false} RowsComeFromEntries(cfg: Settings, run: seq<Action>)
    requires LegalRun(cfg, INITIAL, run)
    ensures AllFromEntries(cfg, Exec(cfg, INITIAL, run))
    decreases |run|
  {
    hide LegalRun, FromEntry;
    if run != [] {
      var before, a := run[..|run| - 1], run[|run| - 1];
      assert LegalRun(cfg, INITIAL, before) && Legal(cfg, Exec(cfg, INITIAL, before), a) by { LastOfRun(cfg, run); }
      RowsComeFromEntries(cfg, before);
      Reachable(cfg, before);
      NewRowFromEntry(cfg, Exec(cfg, INITIAL, before), a);
    }
  }

  lemma LastOfRun(cfg: Settings, run: seq<Action>)
    requires LegalRun(cfg, INITIAL, run) && run != []
    ensures var before := run[..|run| - 1];
            LegalRun(cfg, INITIAL, before) && Legal(cfg, Exec(cfg, INITIAL, before), run[|run| - 1])
  {
  }

  lemma NewRowFromEntry(cfg: Settings, s: Sys, a: Action)
    requires Inv(cfg, s) && Legal(cfg, s, a)
    requires AllFromEntries(cfg, s)
    ensures AllFromEntries(cfg, Apply(cfg, s, a))
  {
    hide FromEntry, Inv, Legal;
    var t := Apply(cfg, s, a);
    assert s.broker.published <= t.broker.published by { StepGrows(cfg, s, a); }
    forall id | id in t.table ensures t.table[id].id == id && FromEntry(cfg, t.broker.published, t.table[id]) {
      if id in s.table {
        FromEntryStays(cfg, s.broker.published, t.broker.published, s.table[id]);
      } else {
        StoredFromEntry(cfg, s, a);
      }
    }
  }

  lemma StoredFromEntry(cfg: Settings, s: Sys, a: Action)
    requires Inv(cfg, s) && Legal(cfg, s, a) && NewRow(cfg, s.table, a).Some?
    ensures FromEntry(cfg, s.broker.published, NewRow(cfg, s.table, a).value)
    ensures Apply(cfg, s, a).broker == s.broker
  {
    hide Inv, Legal, HoldsEvent, NewRow, FromEntry;
    NewRowHoldsEvent(cfg, s.table, a);
    HeldIsPublished(cfg, s, a);
    IsFromEntry(cfg, s.broker.published, NewRow(cfg, s.table, a).value, a.m.id - 1);
  }

  lemma NewRowHoldsEvent(cfg: Settings, table: Table, a: Action)
    requires NewRow(cfg, table, a).Some?
    ensures a.Store? && cfg.parse(a.m.payload).Some?
    ensures HoldsEvent(NewRow(cfg, table, a).value, cfg.parse(a.m.payload).value)
  {
  }

  lemma IsFromEntry(cfg: Settings, published: seq<string>, row: Row, i: nat)
    requires i < |published| && cfg.parse(published[i]).Some? && HoldsEvent(row, cfg.parse(published[i]).value)
    ensures FromEntry(cfg, published, row)
  {
  }

  lemma HeldIsPublished(cfg: Settings, s: Sys, a: Action)
    requires Inv(cfg, s) && Legal(cfg, s, a) && a.Store?
    ensures Apply(cfg, s, a).broker == s.broker
    ensures 1 <= a.m.id <= |s.broker.published| && s.broker.published[a.m.id - 1] == a.m.payload
  {
    assert MemoryOk(cfg, s, MemoryOf(s, a.worker)) && a.m in MemoryOf(s, a.worker).held;
  }

  /** The exact product behind a row, in units of 0.0001. */
  ghost function RowExact(row: Row): real {
    if InRange(row) then ExactUnits(row.amount, row.rate) else row.usd as real
  }

  ghost function SumExact(rows: set<Row>): real {
    if rows == {} then 0.0
    else var r :| r in rows; RowExact(r) + SumExact(rows - {r})
  }

  lemma {:induction false} SumExactRemove(rows: set<Row>, r: Row)
    requires r in rows
    ensures SumExact(rows) == RowExact(r) + SumExact(rows - {r})
    decreases rows
  {
    hide RowExact;
    var x :| x in rows && SumExact(rows) == RowExact(x) + SumExact(rows - {x});
    if x != r {
      SumExactRemove(rows - {x}, r);
      SumExactRemove(rows - {r}, x);
      assert rows - {x} - {r} == rows - {r} - {x};
    }
  }

  lemma RowDrift(row: Row)
    requires InRange(row) && Priced(row)
    ensures -0.5 <= row.usd as real - RowExact(row) <= 0.5
  {
    ConversionDrift(row.amount, row.rate);
  }

  /** A total over n rows is within n half units, that is n * 0.00005, of the exact sum. */
  lemma {:induction false} SumDrift(rows: set<Row>)
    requires forall r :: r in rows ==> InRange(r) && Priced(r)
    ensures -0.5 * |rows| as real <= SumUsd(rows) as real - SumExact(rows) <= 0.5 * |rows| as real
    decreases rows
  {
    if rows != {} {
      var r :| r in rows;
      RowDrift(r);
      hide RowExact, InRange, Priced;
      SumUsdRemove(rows, r);
      SumExactRemove(rows, r);
      SumDrift(rows - {r});
      assert |rows| == |rows - {r}| + 1;
    }
  }

  /** The drift bound for the summary of any user in any reachable state. */
  lemma SummaryDrift(cfg: Settings, run: seq<Action>, user: string)
    requires var t := Exec(cfg, INITIAL, run).table;
             forall r :: r in UserRows(t, user) ==> InRange(r)
    ensures var t := Exec(cfg, INITIAL, run).table;
            var a := Aggregate(t, user);
            -0.5 * a.count as real <= a.total as real - SumExact(UserRows(t, user)) <= 0.5 * a.count as real
  {
    RowsArePriced(cfg, run);
    SumDrift(UserRows(Exec(cfg, INITIAL, run).table, user));
  }
}
