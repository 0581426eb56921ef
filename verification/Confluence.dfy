/**
  Order does not matter. With one payload per event id and one rate per currency, the table
  (but for `processedAt`) and every user summary are determined by the set of events that
  were processed, however they were ordered, duplicated, batched or spread over workers.
 */
module Confluence {
  import opened Prelude
  import opened Money
  import opened Ledger
  import opened Pipeline
  import opened Safety

  /** Every publication that parses is the one event of its id. */
  predicate OnePayloadPerId(cfg: Settings, events: map<string, Event>, published: seq<string>) {
    forall i :: 0 <= i < |published| ==>
      var ev := cfg.parse(published[i]);
      ev.Some? ==> ev.value.id in events && events[ev.value.id] == ev.value
  }

  predicate PublishesOnly(cfg: Settings, events: map<string, Event>, run: seq<Action>) {
    forall i :: 0 <= i < |run| ==> run[i].Publish? ==> OnePayloadPerId(cfg, events, [run[i].payload])
  }

  predicate FixedRates(cfg: Settings, rates: string -> Decimal, run: seq<Action>) {
    forall i :: 0 <= i < |run| ==> run[i].Store? && cfg.parse(run[i].m.payload).Some? ==>
      run[i].rate == rates(cfg.parse(run[i].m.payload).value.currency)
  }

  function Content(row: Row): Row {
    row.(processedAt := 0)
  }

  /** Two rows that differ at most in the time of their processing. */
  ghost predicate SameButTime(x: Row, y: Row) {
    && x.id == y.id && x.user == y.user && x.amount == y.amount && x.currency == y.currency
    && x.usd == y.usd && x.rate == y.rate && x.timestamp == y.timestamp
  }

  /** What the table must hold for an event, whenever and by whomever it was processed. */
  predicate IsRowOf(row: Row, ev: Event, rates: string -> Decimal) {
    && row.id == ev.id && row.user == ev.user && row.amount == ev.amount
    && row.currency == ev.currency && row.timestamp == ev.timestamp
    && row.rate == rates(ev.currency) && ConvertToUsd(ev.amount, row.rate) == Ok(row.usd)
  }

  predicate Determined(table: Table, events: map<string, Event>, rates: string -> Decimal) {
    forall id :: id in table ==> id in events && IsRowOf(table[id], events[id], rates)
  }

  lemma {:induction false} TableIsDetermined(cfg: Settings, events: map<string, Event>, rates: string -> Decimal,
                                             run: seq<Action>)
    requires LegalRun(cfg, INITIAL, run) && PublishesOnly(cfg, events, run) && FixedRates(cfg, rates, run)
    ensures OnePayloadPerId(cfg, events, Exec(cfg, INITIAL, run).broker.published)
    ensures Determined(Exec(cfg, INITIAL, run).table, events, rates)
    decreases |run|
  {
    if run != [] {
      var before, a := run[..|run| - 1], run[|run| - 1];
      TableIsDetermined(cfg, events, rates, before);
      Reachable(cfg, before);
      var s := Exec(cfg, INITIAL, before);
      StepIsDetermined(cfg, events, rates, s, a);
    }
  }

  lemma StepIsDetermined(cfg: Settings, events: map<string, Event>, rates: string -> Decimal, s: Sys, a: Action)
    requires MemoriesOk(cfg, s) && Legal(cfg, s, a)
    requires PublishesOnly(cfg, events, [a]) && FixedRates(cfg, rates, [a])
    requires OnePayloadPerId(cfg, events, s.broker.published) && Determined(s.table, events, rates)
    ensures OnePayloadPerId(cfg, events, BrokerAfter(cfg, s.broker, a).published)
    ensures Determined(Apply(cfg, s, a).table, events, rates)
  {
    if a.Publish? {
      assert [a][0] == a && [a.payload][0] == a.payload;
      assert OnePayloadPerId(cfg, events, [a.payload]);
    }
    var row := NewRow(cfg, s.table, a);
    if row.Some? {
      assert Honest(s.broker, a.m);
      assert [a][0].rate == rates(cfg.parse(a.m.payload).value.currency);
      assert IsRowOf(row.value, cfg.parse(a.m.payload).value, rates);
    }
  }

  /** The ids some processing attempt of the run committed or found committed. */
  function Processed(cfg: Settings, run: seq<Action>): set<string> {
    if run == [] then {}
    else
      var a := run[|run| - 1];
      Processed(cfg, run[..|run| - 1]) +
      (if a.Store? && RowFor(cfg, a).Some? then {RowFor(cfg, a).value.id} else {})
  }

  lemma {:induction false} TableHoldsProcessed(cfg: Settings, run: seq<Action>)
    ensures Exec(cfg, INITIAL, run).table.Keys == Processed(cfg, run)
    decreases |run|
  {
    if run != [] {
      TableHoldsProcessed(cfg, run[..|run| - 1]);
    }
  }

  function Contents(table: Table): Table {
    map id | id in table :: Content(table[id])
  }

  /** A summary does not depend on when its rows were processed. */
  lemma {:induction false} AggregateOfContents(table: Table, user: string)
    requires Keyed(table)
    ensures Aggregate(table, user) == Aggregate(Contents(table), user)
    decreases table.Keys
  {
    if table.Keys == {} {
      assert Contents(table) == table;
    } else {
      var id :| id in table;
      var rest, row := table - {id}, table[id];
      AggregateOfContents(rest, user);
      assert Insert(rest, row) == table;
      assert Insert(Contents(rest), Content(row)) == Contents(table);
      InsertAddsToAggregate(rest, row, user);
      InsertAddsToAggregate(Contents(rest), Content(row), user);
    }
  }

  lemma ContentsAgree(t: Table, u: Table, events: map<string, Event>, rates: string -> Decimal)
    requires t.Keys == u.Keys
    requires Determined(t, events, rates) && Determined(u, events, rates)
    ensures Contents(t) == Contents(u)
    ensures forall id :: id in t ==> SameButTime(t[id], u[id])
  {
    forall id | id in t ensures id in u && Content(t[id]) == Content(u[id]) {
      assert id in u.Keys;
      assert IsRowOf(t[id], events[id], rates) && IsRowOf(u[id], events[id], rates);
    }
  }

  /**
    Confluence: two legal runs over the same events and rates that processed the same set of
    events end with the same table, but for `processedAt`, and with the same summary of
    every user.
   */
  lemma SameEventsSameTable(cfg: Settings, events: map<string, Event>, rates: string -> Decimal,
                            left: seq<Action>, right: seq<Action>, user: string)
    requires LegalRun(cfg, INITIAL, left) && PublishesOnly(cfg, events, left) && FixedRates(cfg, rates, left)
    requires LegalRun(cfg, INITIAL, right) && PublishesOnly(cfg, events, right) && FixedRates(cfg, rates, right)
    requires Processed(cfg, left) == Processed(cfg, right)
    ensures var s, t := Exec(cfg, INITIAL, left), Exec(cfg, INITIAL, right);
            Contents(s.table) == Contents(t.table) && Aggregate(s.table, user) == Aggregate(t.table, user)
    ensures var s, t := Exec(cfg, INITIAL, left), Exec(cfg, INITIAL, right);
            && s.table.Keys == t.table.Keys
            && forall id :: id in s.table ==> SameButTime(s.table[id], t.table[id])
  {
    var s, t := Exec(cfg, INITIAL, left), Exec(cfg, INITIAL, right);
    TableIsDetermined(cfg, events, rates, left);
    TableIsDetermined(cfg, events, rates, right);
    TableHoldsProcessed(cfg, left);
    TableHoldsProcessed(cfg, right);
    assert Keyed(s.table) && Keyed(t.table) by {
      Reachable(cfg, left);
      Reachable(cfg, right);
    }
    hide Exec, LegalRun, PublishesOnly, FixedRates, Processed, Aggregate, Contents;
    ContentsAgree(s.table, t.table, events, rates);
    hide Determined, SameButTime;
    AggregateOfContents(s.table, user);
    AggregateOfContents(t.table, user);
  }
}
