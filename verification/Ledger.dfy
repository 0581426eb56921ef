/**
  The transactions table: rows keyed by event id, the insert that ignores a known id, and
  the per-user aggregate that is recomputed from the rows on every request.
 */
module Ledger {
  import opened Money

  datatype Event = Event(id: string, user: string, amount: Decimal, currency: string, timestamp: int)

  datatype Row = Row(id: string, user: string, amount: Decimal, currency: string,
                     usd: int, rate: Decimal, timestamp: int, processedAt: int)

  datatype Outcome = Stored | Duplicate

  type Table = map<string, Row>

  function MakeRow(ev: Event, rate: Decimal, usd: int, now: int): Row {
    Row(ev.id, ev.user, ev.amount, ev.currency, usd, rate, ev.timestamp, now)
  }

  /** INSERT ... ON CONFLICT (id) DO NOTHING, committed. */
  function Insert(table: Table, row: Row): Table {
    if row.id in table then table else table[row.id := row]
  }

  ghost predicate Keyed(table: Table) {
    forall id :: id in table ==> table[id].id == id
  }

  function UserRows(table: Table, user: string): set<Row> {
    set id | id in table && table[id].user == user :: table[id]
  }

  lemma InUserRows(table: Table, user: string)
    requires Keyed(table)
    ensures forall r :: r in UserRows(table, user) <==> r.id in table && table[r.id] == r && r.user == user
  {
  }

  ghost function SumUsd(rows: set<Row>): int {
    if rows == {} then 0
    else var r :| r in rows; r.usd + SumUsd(rows - {r})
  }

  /** The order in which rows are summed does not matter. */
  lemma {:induction false} SumUsdRemove(rows: set<Row>, r: Row)
    requires r in rows
    ensures SumUsd(rows) == r.usd + SumUsd(rows - {r})
    decreases rows
  {
    var x :| x in rows && SumUsd(rows) == x.usd + SumUsd(rows - {x});
    if x != r {
      SumUsdRemove(rows - {x}, r);
      SumUsdRemove(rows - {r}, x);
      assert rows - {x} - {r} == rows - {r} - {x};
    }
  }

  /** `get_summary` before its final quantisation. */
  datatype Totals = Totals(total: int, count: nat)

  ghost function Aggregate(table: Table, user: string): Totals {
    Totals(SumUsd(UserRows(table, user)), |UserRows(table, user)|)
  }

  lemma UserRowsInsert(table: Table, row: Row, user: string)
    requires Keyed(table)
    ensures Keyed(Insert(table, row))
    ensures UserRows(Insert(table, row), user) ==
            UserRows(table, user) + (if row.id !in table && row.user == user then {row} else {})
  {
    var after := Insert(table, row);
    InUserRows(table, user);
    assert Keyed(after);
    InUserRows(after, user);
    var added := if row.id !in table && row.user == user then {row} else {};
    forall r | r in UserRows(after, user) ensures r in UserRows(table, user) + added {
    }
    forall r | r in UserRows(table, user) + added ensures r in UserRows(after, user) {
    }
  }

  lemma InsertAddsToAggregate(table: Table, row: Row, user: string)
    requires Keyed(table)
    ensures Aggregate(Insert(table, row), user) ==
            if row.id in table || row.user != user then Aggregate(table, user)
            else Totals(Aggregate(table, user).total + row.usd, Aggregate(table, user).count + 1)
  {
    UserRowsInsert(table, row, user);
    var before := UserRows(table, user);
    if row.id !in table && row.user == user {
      assert row !in before;
      SumUsdRemove(before + {row}, row);
      assert before + {row} - {row} == before;
    }
  }
}
