/**
  The whole pipeline as one state machine: the stream, the table and what every worker
  remembers, moved by producers, workers and faults one atomic command at a time.

  A command that fails before it takes effect is no step at all. A command that takes
  effect but whose reply is lost is a step with `seen == false`. A crash forgets what one
  worker remembers. The two loops of one worker share its memory.
 */
module Pipeline {
  import opened Prelude
  import opened Money
  import opened Ledger
  import opened Streams

  /** Configuration and the two functions the model leaves open: parsing and known currencies. */
  datatype Settings = Settings(
    maxLen: nat,                       // stream_max_len
    maxDeliveries: nat,                // max_deliveries
    batchSize: nat,                    // batch_size
    minIdle: nat,                      // reclaim_idle_ms
    parse: string -> Option<Event>,    // TransactionEvent.model_validate_json
    priced: string -> bool             // the rate source knows the currency
  )

  /** What one worker process has in memory; a reply only ever adds to it. */
  datatype Memory = Memory(
    claimed: set<nat>,      // ids XAUTOCLAIM returned
    held: set<Message>,     // messages with the delivery count they carry
    done: set<nat>,         // ids whose processing returned normally
    gone: set<nat>          // ids XAUTOCLAIM reported as deleted
  )

  const FORGOTTEN := Memory({}, {}, {}, {})

  datatype Report = Report(eventId: string, outcome: Outcome)

  datatype Sys = Sys(
    broker: Broker,
    table: Table,
    memory: map<string, Memory>,
    // History.
    reports: seq<Report>,           // every outcome a worker ever saw
    books: map<string, Totals>      // per-user running totals, touched only by a new row
  )

  const INITIAL := Sys(EMPTY, map[], map[], [], map[])

  datatype Action =
    | Publish(payload: string, wish: nat)
    | EnsureGroup
    | Tick(ms: nat)
    | Read(worker: string, count: nat, seen: bool)
    | Claim(worker: string, minIdle: nat, count: nat, scan: nat, seen: bool)
    | Count(worker: string, ids: set<nat>)
    | Store(worker: string, m: Message, rate: Decimal, now: int, seen: bool)
    | Ack(worker: string, ids: set<nat>)
    | Park(worker: string, m: Message, reason: Reason, wish: nat)
    | Inspect(worker: string)     // XLEN and XINFO: they change nothing
    | Crash(worker: string)

  function MemoryOf(s: Sys, worker: string): Memory {
    if worker in s.memory then s.memory[worker] else FORGOTTEN
  }

  /** The messages XREADGROUP returns: never delivered before, so they carry count 1. */
  function FreshMessages(b: Broker, count: nat): set<Message> {
    if !b.grouped then {}
    else set id | id in Range(Head(b), ReadTo(b, count)) && IsEntry(b, id) :: Message(id, Payload(b, id), 1)
  }

  /** What `_delivery_counts` answers for one id when it asks XPENDING for `asked` entries. */
  function ReportedCount(b: Broker, worker: string, asked: nat, id: nat): nat {
    if id in b.pel && id in XPendingRange(b, worker, asked) then b.pel[id].times else 1
  }

  function CountedMessages(b: Broker, worker: string, ids: set<nat>): set<Message> {
    var asked := if ids == {} then 1 else |ids|;
    set id | id in ids && IsEntry(b, id) :: Message(id, Payload(b, id), ReportedCount(b, worker, asked, id))
  }

  function Credit(books: map<string, Totals>, user: string, usd: int): map<string, Totals> {
    var t := if user in books then books[user] else Totals(0, 0);
    books[user := Totals(t.total + usd, t.count + 1)]
  }

  /** The row one processing attempt writes: none when the payload or the amount is unusable. */
  function RowFor(cfg: Settings, a: Action): Option<Row>
    requires a.Store?
  {
    var ev := cfg.parse(a.m.payload);
    if ev.None? then None
    else
      var usd := ConvertToUsd(ev.value.amount, a.rate);
      if usd.Err? then None else Some(MakeRow(ev.value, a.rate, usd.value, a.now))
  }

  // ------------------------------------------------------------------- one step

  function BrokerAfter(cfg: Settings, b: Broker, a: Action): Broker {
    match a
    case Publish(payload, wish) => XAdd(b, payload, wish, cfg.maxLen)
    case EnsureGroup => XGroupCreate(b)
    case Tick(ms) => b.(clock := b.clock + ms)
    case Read(w, count, _) => XReadGroup(b, w, count)
    case Claim(w, minIdle, count, scan, _) => XAutoClaim(b, w, minIdle, count, scan)
    case Ack(_, ids) => XAck(b, ids)
    case Park(_, m, reason, wish) => XPark(b, m, reason, wish, cfg.maxLen)
    case _ => b
  }

  /** The row this step commits for the first time. */
  function NewRow(cfg: Settings, table: Table, a: Action): Option<Row> {
    if a.Store? && RowFor(cfg, a).Some? && RowFor(cfg, a).value.id !in table then RowFor(cfg, a) else None
  }

  /** The outcome a worker sees when its processing attempt returns. */
  function Seen(cfg: Settings, table: Table, a: Action): seq<Report> {
    if a.Store? && a.seen && RowFor(cfg, a).Some? then
      [Report(RowFor(cfg, a).value.id, if NewRow(cfg, table, a).Some? then Stored else Duplicate)]
    else []
  }

  /** What the worker learns from the reply, if it gets one. */
  function Learned(cfg: Settings, b: Broker, a: Action): Memory {
    match a
    case Read(_, count, seen) =>
      if seen then Memory({}, FreshMessages(b, count), {}, {}) else FORGOTTEN
    case Claim(_, minIdle, count, scan, seen) =>
      var r := Claimable(b, minIdle, count, scan);
      if seen then Memory(Ids(r.claimed), {}, {}, Ids(r.deleted)) else FORGOTTEN
    case Count(w, ids) => Memory({}, CountedMessages(b, w, ids), {}, {})
    case Store(_, m, _, _, seen) =>
      if seen && RowFor(cfg, a).Some? then Memory({}, {}, {m.id}, {}) else FORGOTTEN
    case _ => FORGOTTEN
  }

  function Join(x: Memory, y: Memory): Memory {
    Memory(x.claimed + y.claimed, x.held + y.held, x.done + y.done, x.gone + y.gone)
  }

  function MemoryAfter(cfg: Settings, s: Sys, a: Action): map<string, Memory> {
    match a
    case Read(w, _, _) => s.memory[w := Join(MemoryOf(s, w), Learned(cfg, s.broker, a))]
    case Claim(w, _, _, _, _) => s.memory[w := Join(MemoryOf(s, w), Learned(cfg, s.broker, a))]
    case Count(w, _) => s.memory[w := Join(MemoryOf(s, w), Learned(cfg, s.broker, a))]
    case Store(w, _, _, _, _) => s.memory[w := Join(MemoryOf(s, w), Learned(cfg, s.broker, a))]
    case Crash(w) => s.memory[w := FORGOTTEN]
    case _ => s.memory
  }

  function Apply(cfg: Settings, s: Sys, a: Action): Sys {
    var row := NewRow(cfg, s.table, a);
    Sys(BrokerAfter(cfg, s.broker, a),
        if row.Some? then Insert(s.table, row.value) else s.table,
        MemoryAfter(cfg, s, a),
        s.reports + Seen(cfg, s.table, a),
        if row.Some? then Credit(s.books, row.value.user, row.value.usd) else s.books)
  }

  /** USD needs no rate; any other code must be known to the rate source in upper case. */
  predicate Convertible(cfg: Settings, currency: string) {
    Upper(currency) == BASE_CURRENCY || cfg.priced(Upper(currency))
  }

  /** The dollar converts, and of the other codes of capitals exactly those the source prices. */
  lemma ConvertibleByName(cfg: Settings, currency: string)
    requires Capitals(currency)
    ensures Convertible(cfg, currency) <==> currency == "USD" || cfg.priced(currency)
  {
    CapitalsStay(currency);
  }

  /** The reason a message is dead-lettered is a fact about the message. */
  predicate Deserved(cfg: Settings, m: Message, reason: Reason) {
    match reason
    case ExceededDeliveries => m.deliveryCount > cfg.maxDeliveries
    case InvalidEvent => cfg.parse(m.payload).None?
    case UnknownCurrency => cfg.parse(m.payload).Some? && !Convertible(cfg, cfg.parse(m.payload).value.currency)
  }

  /** What the worker's code checks before each command it sends. */
  predicate Legal(cfg: Settings, s: Sys, a: Action) {
    match a
    case Count(w, ids) => ids <= MemoryOf(s, w).claimed
    case Store(w, m, rate, now, seen) =>
      && m in MemoryOf(s, w).held
      && (cfg.parse(m.payload).Some? ==> Convertible(cfg, cfg.parse(m.payload).value.currency))
    case Ack(w, ids) => ids <= MemoryOf(s, w).done + MemoryOf(s, w).gone
    case Park(w, m, reason, wish) => m in MemoryOf(s, w).held && Deserved(cfg, m, reason)
    case _ => true
  }

  function Exec(cfg: Settings, s: Sys, run: seq<Action>): Sys {
    if run == [] then s
    else Apply(cfg, Exec(cfg, s, run[..|run| - 1]), run[|run| - 1])
  }

  predicate LegalRun(cfg: Settings, s: Sys, run: seq<Action>) {
    run == [] ||
    (LegalRun(cfg, s, run[..|run| - 1]) &&
     Legal(cfg, Exec(cfg, s, run[..|run| - 1]), run[|run| - 1]))
  }

  lemma ExecStep(cfg: Settings, s: Sys, run: seq<Action>, a: Action)
    ensures Exec(cfg, s, run + [a]) == Apply(cfg, Exec(cfg, s, run), a)
    ensures LegalRun(cfg, s, run + [a]) <==> LegalRun(cfg, s, run) && Legal(cfg, Exec(cfg, s, run), a)
  {
    assert (run + [a])[..|run|] == run;
  }

  /** What the stream does depends on the stream alone. */
  function ExecBroker(cfg: Settings, b: Broker, run: seq<Action>): Broker {
    if run == [] then b
    else BrokerAfter(cfg, ExecBroker(cfg, b, run[..|run| - 1]), run[|run| - 1])
  }

  lemma {:induction false} BrokerOfExec(cfg: Settings, s: Sys, run: seq<Action>)
    ensures Exec(cfg, s, run).broker == ExecBroker(cfg, s.broker, run)
    decreases |run|
  {
    if run != [] {
      BrokerOfExec(cfg, s, run[..|run| - 1]);
    }
  }

  lemma {:induction false} ExecSplit(cfg: Settings, s: Sys, xs: seq<Action>, ys: seq<Action>)
    ensures Exec(cfg, s, xs + ys) == Exec(cfg, Exec(cfg, s, xs), ys)
    ensures LegalRun(cfg, s, xs + ys) <==> LegalRun(cfg, s, xs) && LegalRun(cfg, Exec(cfg, s, xs), ys)
    decreases |ys|
  {
    if ys == [] {
      assert xs + ys == xs;
    } else {
      var zs := ys[..|ys| - 1];
      ExecSplit(cfg, s, xs, zs);
      assert (xs + ys)[..|xs + ys| - 1] == xs + zs;
    }
  }
}
