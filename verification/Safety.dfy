/** Safety of the pipeline over every legal run, whatever crashes, fails or is delivered twice. */
module Safety {
  import opened Ledger
  import opened Streams
  import opened StreamLaws
  import opened Pipeline

  // ------------------------------------------------------------ what only grows

  ghost predicate BrokerGrows(b: Broker, c: Broker) {
    && b.published <= c.published
    && b.floor <= c.floor && b.cursor <= c.cursor && b.clock <= c.clock
    && b.parked <= c.parked
    && b.delivered <= c.delivered
    && b.acked <= c.acked && b.vanished <= c.vanished
    && (b.grouped ==> c.grouped)
  }

  ghost predicate TableGrows(t: Table, u: Table) {
    forall id :: id in t ==> id in u && u[id] == t[id]
  }

  /** Nothing the histories, the table or the stream has recorded is ever taken back. */
  ghost predicate Grows(s: Sys, t: Sys) {
    BrokerGrows(s.broker, t.broker) && TableGrows(s.table, t.table) && s.reports <= t.reports
  }

  lemma BrokerStepGrows(cfg: Settings, b: Broker, a: Action)
    ensures BrokerGrows(b, BrokerAfter(cfg, b, a))
  {
    match a
    case Publish(_, _) =>
    case Read(_, _, _) =>
    case Claim(_, _, _, _, _) =>
    case _ =>
  }

  lemma StepGrows(cfg: Settings, s: Sys, a: Action)
    ensures Grows(s, Apply(cfg, s, a))
  {
    BrokerStepGrows(cfg, s.broker, a);
  }

  lemma {:induction false} RunGrows(cfg: Settings, s: Sys, run: seq<Action>)
    ensures Grows(s, Exec(cfg, s, run))
    decreases |run|
  {
    if run != [] {
      var before := Exec(cfg, s, run[..|run| - 1]);
      RunGrows(cfg, s, run[..|run| - 1]);
      StepGrows(cfg, before, run[|run| - 1]);
      var after := Exec(cfg, s, run);
      assert s.broker.published <= before.broker.published <= after.broker.published;
      assert s.broker.parked <= before.broker.parked <= after.broker.parked;
      assert s.reports <= before.reports <= after.reports;
    }
  }

  /** What a worker knows, as long as it does not crash. */
  ghost predicate Remembers(x: Memory, y: Memory) {
    x.claimed <= y.claimed && x.held <= y.held && x.done <= y.done && x.gone <= y.gone
  }

  lemma MemoryStep(cfg: Settings, s: Sys, a: Action, me: string)
    requires a != Crash(me)
    ensures Remembers(MemoryOf(s, me), MemoryOf(Apply(cfg, s, a), me))
  {
    hide BrokerAfter, NewRow, Seen, Learned, Credit;
  }

  lemma {:induction false} RunRemembers(cfg: Settings, s: Sys, run: seq<Action>, me: string)
    requires Crash(me) !in run
    ensures Remembers(MemoryOf(s, me), MemoryOf(Exec(cfg, s, run), me))
    decreases |run|
  {
    if run != [] {
      RunRemembers(cfg, s, run[..|run| - 1], me);
      MemoryStep(cfg, Exec(cfg, s, run[..|run| - 1]), run[|run| - 1], me);
    }
  }

  // ------------------------------------------------------- where an entry can be

  predicate Committed(cfg: Settings, s: Sys, id: nat) {
    && IsEntry(s.broker, id)
    && cfg.parse(Payload(s.broker, id)).Some?
    && cfg.parse(Payload(s.broker, id)).value.id in s.table
  }

  /** The event is in the table or its entry is in the history of dead letters. */
  predicate Landed(cfg: Settings, s: Sys, id: nat) {
    Dead(s.broker, id) || Committed(cfg, s, id)
  }

  predicate Settled(cfg: Settings, s: Sys, id: nat) {
    Trimmed(s.broker, id) || Landed(cfg, s, id)
  }

  lemma SettledStays(cfg: Settings, s: Sys, t: Sys, id: nat)
    requires Grows(s, t)
    ensures Committed(cfg, s, id) ==> Committed(cfg, t, id)
    ensures Landed(cfg, s, id) ==> Landed(cfg, t, id)
    ensures Settled(cfg, s, id) ==> Settled(cfg, t, id)
  {
  }

  // ------------------------------------------------------------------ invariants

  /** A held message is what was published and carries no more deliveries than were made. */
  ghost predicate Honest(b: Broker, m: Message) {
    && IsEntry(b, m.id) && m.payload == Payload(b, m.id)
    && 1 <= m.deliveryCount <= b.delivered[m.id]
  }

  ghost predicate MemoryOk(cfg: Settings, s: Sys, mem: Memory) {
    && (forall id :: id in mem.claimed ==> IsEntry(s.broker, id) && id in s.broker.delivered)
    && (forall m :: m in mem.held ==> Honest(s.broker, m))
    && (forall id :: id in mem.done ==> Committed(cfg, s, id))
    && (forall id :: id in mem.gone ==> id in s.broker.vanished)
  }

  ghost predicate MemoriesOk(cfg: Settings, s: Sys) {
    forall w :: w in s.memory ==> MemoryOk(cfg, s, s.memory[w])
  }

  ghost predicate AckedOk(cfg: Settings, s: Sys) {
    forall id :: id in s.broker.acked ==> Landed(cfg, s, id)
  }

  /** Every dead letter is a published payload that deserved it. */
  ghost predicate Justified(cfg: Settings, b: Broker, d: Parked) {
    var m := Message(d.originalId, d.payload, d.deliveryCount);
    Honest(b, m) && Deserved(cfg, m, d.reason)
  }

  ghost predicate ParkedOk(cfg: Settings, s: Sys) {
    forall d :: d in s.broker.parked ==> Justified(cfg, s.broker, d)
  }

  function TimesStored(reports: seq<Report>, id: string): nat {
    if reports == [] then 0
    else
      var r := reports[|reports| - 1];
      TimesStored(reports[..|reports| - 1], id) + (if r == Report(id, Stored) then 1 else 0)
  }

  /** STORED is reported at most once per event, and nothing is reported that is not committed. */
  ghost predicate ReportsOk(s: Sys) {
    && (forall id :: TimesStored(s.reports, id) <= 1)
    && (forall r :: r in s.reports ==> r.eventId in s.table)
  }

  ghost predicate BooksOk(s: Sys) {
    && Keyed(s.table)
    && forall u :: Aggregate(s.table, u) == Book(s.books, u)
  }

  ghost predicate Inv(cfg: Settings, s: Sys) {
    && WellFormed(s.broker)
    && TrimOk(s.broker, cfg.maxLen)
    && MemoriesOk(cfg, s)
    && AckedOk(cfg, s)
    && ParkedOk(cfg, s)
    && ReportsOk(s)
    && BooksOk(s)
  }

  // -------------------------------------------------------------- one step keeps

  lemma OnlyPublishTrims(cfg: Settings, b: Broker, a: Action)
    ensures !a.Publish? ==> BrokerAfter(cfg, b, a).floor == b.floor && BrokerAfter(cfg, b, a).published == b.published
  {
  }

  lemma KeepsTick(b: Broker, ms: nat)
    requires WellFormed(b)
    ensures WellFormed(b.(clock := b.clock + ms))
  {
  }

  lemma KeepsGroup(b: Broker)
    requires WellFormed(b)
    ensures WellFormed(XGroupCreate(b))
  {
  }

  lemma KeepsBroker(cfg: Settings, b: Broker, a: Action)
    requires WellFormed(b) && TrimOk(b, cfg.maxLen)
    ensures WellFormed(BrokerAfter(cfg, b, a)) && TrimOk(BrokerAfter(cfg, b, a), cfg.maxLen)
  {
    hide WellFormed, XAdd, XReadGroup, XAutoClaim, XAck, XPark, XGroupCreate;
    OnlyPublishTrims(cfg, b, a);
    match a
    case Publish(payload, wish) => XAddKeeps(b, payload, wish, cfg.maxLen);
    case EnsureGroup => KeepsGroup(b);
    case Tick(ms) => KeepsTick(b, ms);
    case Read(w, count, seen) => XReadGroupKeeps(b, w, count);
    case Claim(w, minIdle, count, scan, seen) => XAutoClaimKeeps(b, w, minIdle, count, scan);
    case Ack(w, ids) => XAckKeeps(b, ids);
    case Park(w, m, reason, wish) => XParkKeeps(b, m, reason, wish, cfg.maxLen);
    case _ =>
  }

  lemma MemoryStays(cfg: Settings, s: Sys, t: Sys, mem: Memory)
    requires Grows(s, t) && MemoryOk(cfg, s, mem)
    ensures MemoryOk(cfg, t, mem)
  {
    forall m | m in mem.held ensures Honest(t.broker, m) {
      assert Honest(s.broker, m);
    }
    forall id | id in mem.done ensures Committed(cfg, t, id) {
      SettledStays(cfg, s, t, id);
    }
  }

  lemma ReadIsHonest(b: Broker, w: string, count: nat)
    requires WellFormed(b)
    ensures forall m :: m in FreshMessages(b, count) ==> Honest(XReadGroup(b, w, count), m)
  {
    var c := XReadGroup(b, w, count);
    forall m | m in FreshMessages(b, count) ensures Honest(c, m) {
      assert m.id in Range(Head(b), ReadTo(b, count));
      assert c.delivered[m.id] >= 1;
    }
  }

  lemma ClaimIsHonest(b: Broker, w: string, minIdle: nat, count: nat, scan: nat)
    requires WellFormed(b)
    ensures var c, r := XAutoClaim(b, w, minIdle, count, scan), Claimable(b, minIdle, count, scan);
            && (forall id :: id in Ids(r.claimed) ==> IsEntry(c, id) && id in c.delivered)
            && (forall id :: id in Ids(r.deleted) ==> id in c.vanished)
  {
    ScanFacts(b, 1, minIdle, count, scan);
  }

  /** No reported delivery count exceeds the deliveries made. */
  lemma ReportedAtMostDelivered(b: Broker, w: string, asked: nat, id: nat)
    requires WellFormed(b) && id in b.delivered
    ensures 1 <= ReportedCount(b, w, asked, id) <= b.delivered[id]
  {
  }

  lemma CountIsHonest(b: Broker, w: string, ids: set<nat>)
    requires WellFormed(b) && forall id :: id in ids ==> id in b.delivered
    ensures forall m :: m in CountedMessages(b, w, ids) ==> Honest(b, m)
  {
    forall m | m in CountedMessages(b, w, ids) ensures Honest(b, m) {
      ReportedAtMostDelivered(b, w, if ids == {} then 1 else |ids|, m.id);
    }
  }

  /** An attempt that returned normally has its row committed. */
  lemma StoreCommits(cfg: Settings, s: Sys, a: Action)
    requires a.Store? && Honest(s.broker, a.m) && RowFor(cfg, a).Some?
    ensures Committed(cfg, Apply(cfg, s, a), a.m.id)
  {
  }

  /** Whatever a reply teaches a worker is true. */
  lemma LearnedIsTrue(cfg: Settings, s: Sys, a: Action)
    requires WellFormed(s.broker) && MemoriesOk(cfg, s) && Legal(cfg, s, a)
    ensures MemoryOk(cfg, Apply(cfg, s, a), Learned(cfg, s.broker, a))
  {
    match a
    case Read(w, count, _) => ReadIsHonest(s.broker, w, count);
    case Claim(w, minIdle, count, scan, _) => ClaimIsHonest(s.broker, w, minIdle, count, scan);
    case Count(w, ids) => CountIsHonest(s.broker, w, ids);
    case Store(w, m, _, _, _) => if RowFor(cfg, a).Some? { StoreCommits(cfg, s, a); }
    case _ =>
  }

  /** A worker whose reply is lost learns nothing from the command, and nobody else learns from it at all. */
  lemma LostReplyTeachesNothing(cfg: Settings, s: Sys, a: Action, w: string)
    requires (a.Read? || a.Claim? || a.Store?) && (!a.seen || w != a.worker)
    ensures MemoryOf(Apply(cfg, s, a), w) == MemoryOf(s, w)
    ensures !a.seen ==> Apply(cfg, s, a).reports == s.reports
  {
    var mem := MemoryOf(s, w);
    assert Join(mem, FORGOTTEN) == mem;
  }

  lemma KeepsMemories(cfg: Settings, s: Sys, a: Action)
    requires WellFormed(s.broker) && MemoriesOk(cfg, s) && Legal(cfg, s, a)
    ensures MemoriesOk(cfg, Apply(cfg, s, a))
  {
    var t := Apply(cfg, s, a);
    StepGrows(cfg, s, a);
    LearnedIsTrue(cfg, s, a);
    forall w | w in t.memory ensures MemoryOk(cfg, t, t.memory[w]) {
      var mem := MemoryOf(s, w);
      MemoryStays(cfg, s, t, mem);
      assert t.memory[w] == mem || t.memory[w] == FORGOTTEN || t.memory[w] == Join(mem, Learned(cfg, s.broker, a));
    }
  }

  lemma KeepsAcked(cfg: Settings, s: Sys, a: Action)
    requires WellFormed(s.broker) && MemoriesOk(cfg, s) && AckedOk(cfg, s) && Legal(cfg, s, a)
    ensures AckedOk(cfg, Apply(cfg, s, a))
  {
    var t := Apply(cfg, s, a);
    StepGrows(cfg, s, a);
    forall id | id in t.broker.acked ensures Landed(cfg, t, id) {
      if id in s.broker.acked {
        SettledStays(cfg, s, t, id);
      } else if a.Ack? {
        assert MemoryOk(cfg, s, MemoryOf(s, a.worker)) && id in s.broker.pel;
        SettledStays(cfg, s, t, id);
      } else {
        assert a.Park? && id == a.m.id;
        var d := Parked(a.m.payload, a.reason, id, a.m.deliveryCount);
        assert t.broker.parked[|s.broker.parked|] == d;
      }
    }
  }

  lemma JustifiedStays(cfg: Settings, b: Broker, c: Broker, d: Parked)
    requires BrokerGrows(b, c) && Justified(cfg, b, d)
    ensures Justified(cfg, c, d)
  {
  }

  lemma KeepsParked(cfg: Settings, s: Sys, a: Action)
    requires MemoriesOk(cfg, s) && ParkedOk(cfg, s) && Legal(cfg, s, a)
    ensures ParkedOk(cfg, Apply(cfg, s, a))
  {
    var c := BrokerAfter(cfg, s.broker, a);
    BrokerStepGrows(cfg, s.broker, a);
    forall d | d in c.parked ensures Justified(cfg, c, d) {
      if d !in s.broker.parked {
        assert a.Park? && d == Parked(a.m.payload, a.reason, a.m.id, a.m.deliveryCount);
        assert MemoryOk(cfg, s, MemoryOf(s, a.worker)) && a.m == Message(d.originalId, d.payload, d.deliveryCount);
      }
      JustifiedStays(cfg, s.broker, c, d);
    }
  }

  lemma {:induction false} StoredWasReported(reports: seq<Report>, id: string)
    ensures TimesStored(reports, id) > 0 ==> Report(id, Stored) in reports
  {
    if reports != [] {
      StoredWasReported(reports[..|reports| - 1], id);
    }
  }

  lemma KeepsReports(cfg: Settings, s: Sys, a: Action)
    requires ReportsOk(s)
    ensures ReportsOk(Apply(cfg, s, a))
  {
    var t := Apply(cfg, s, a);
    var news := Seen(cfg, s.table, a);
    if news == [] {
      assert t.reports == s.reports;
    } else {
      assert t.reports[..|t.reports| - 1] == s.reports;
      forall id ensures TimesStored(t.reports, id) <= 1 {
        StoredWasReported(s.reports, id);
      }
    }
  }

  ghost function Book(books: map<string, Totals>, user: string): Totals {
    if user in books then books[user] else Totals(0, 0)
  }

  lemma CreditFollowsInsert(table: Table, books: map<string, Totals>, row: Row, user: string)
    requires Keyed(table) && row.id !in table && Aggregate(table, user) == Book(books, user)
    ensures Aggregate(Insert(table, row), user) == Book(Credit(books, row.user, row.usd), user)
  {
    InsertAddsToAggregate(table, row, user);
  }

  lemma KeepsBooks(cfg: Settings, s: Sys, a: Action)
    requires BooksOk(s)
    ensures BooksOk(Apply(cfg, s, a))
  {
    var row := NewRow(cfg, s.table, a);
    if row.Some? {
      var r := row.value;
      UserRowsInsert(s.table, r, r.user);
      forall u ensures Aggregate(Insert(s.table, r), u) == Book(Credit(s.books, r.user, r.usd), u) {
        CreditFollowsInsert(s.table, s.books, r, u);
      }
    }
  }

  lemma StepKeepsInv(cfg: Settings, s: Sys, a: Action)
    requires Inv(cfg, s) && Legal(cfg, s, a)
    ensures Inv(cfg, Apply(cfg, s, a))
  {
    KeepsBroker(cfg, s.broker, a);
    KeepsMemories(cfg, s, a);
    KeepsAcked(cfg, s, a);
    KeepsParked(cfg, s, a);
    KeepsReports(cfg, s, a);
    KeepsBooks(cfg, s, a);
  }

  lemma {:induction false} RunKeepsInv(cfg: Settings, s: Sys, run: seq<Action>)
    requires Inv(cfg, s) && LegalRun(cfg, s, run)
    ensures Inv(cfg, Exec(cfg, s, run))
    decreases |run|
  {
    if run != [] {
      RunKeepsInv(cfg, s, run[..|run| - 1]);
      StepKeepsInv(cfg, Exec(cfg, s, run[..|run| - 1]), run[|run| - 1]);
    }
  }

  /** Every state a legal run can reach satisfies the invariant. */
  lemma {:induction false} Reachable(cfg: Settings, run: seq<Action>)
    requires LegalRun(cfg, INITIAL, run)
    ensures Inv(cfg, Exec(cfg, INITIAL, run))
  {
    RunKeepsInv(cfg, INITIAL, run);
  }

  // ----------------------------------------------------------------- main results

  lemma EntryIsSomewhere(cfg: Settings, s: Sys, id: nat)
    requires Inv(cfg, s) && IsEntry(s.broker, id)
    ensures id in Unread(s.broker) || id in s.broker.pel || Settled(cfg, s, id)
  {
    if id in s.broker.delivered && id in s.broker.acked {
      assert Landed(cfg, s, id);
    }
  }

  /**
    No event is lost: in every reachable state each entry ever published is unread, pending,
    trimmed, in the history of dead letters, or its event id has a committed row.
   */
  lemma {:induction false} NoEventLost(cfg: Settings, run: seq<Action>, id: nat)
    requires LegalRun(cfg, INITIAL, run)
    requires IsEntry(Exec(cfg, INITIAL, run).broker, id)
    ensures var s := Exec(cfg, INITIAL, run);
            id in Unread(s.broker) || id in s.broker.pel || Settled(cfg, s, id)
  {
    Reachable(cfg, run);
    EntryIsSomewhere(cfg, Exec(cfg, INITIAL, run), id);
  }

  /**
    Nothing is ever acknowledged without having landed: an id that an XACK took out of the
    pending list has a committed row or a dead letter, even if its entry was trimmed.
   */
  lemma {:induction false} AckedHasLanded(cfg: Settings, run: seq<Action>, id: nat)
    requires LegalRun(cfg, INITIAL, run)
    requires id in Exec(cfg, INITIAL, run).broker.acked
    ensures Landed(cfg, Exec(cfg, INITIAL, run), id)
  {
    Reachable(cfg, run);
  }

  /** An entry followed by fewer than `maxLen` publications has not been trimmed, so it is not lost to trimming. */
  lemma {:induction false} NoLossWithinBound(cfg: Settings, run: seq<Action>, id: nat)
    requires LegalRun(cfg, INITIAL, run)
    requires var b := Exec(cfg, INITIAL, run).broker;
             IsEntry(b, id) && |b.published| - id < cfg.maxLen
    ensures var s := Exec(cfg, INITIAL, run);
            && !Trimmed(s.broker, id)
            && (id in Unread(s.broker) || id in s.broker.pel || Dead(s.broker, id) || Committed(cfg, s, id))
  {
    Reachable(cfg, run);
    NoEventLost(cfg, run, id);
  }

  /** What is retained is the end of the history, and never shorter than the bound once trimmed. */
  ghost predicate NewestKept(kept: seq<Parked>, all: seq<Parked>, maxLen: nat) {
    && |kept| <= |all|
    && (forall i :: 0 <= i < |kept| ==> kept[i] == all[|all| - |kept| + i])
    && (|kept| < |all| ==> maxLen <= |kept|)
  }

  lemma ParkKeepsNewest(kept: seq<Parked>, all: seq<Parked>, d: Parked, wish: nat, maxLen: nat)
    requires NewestKept(kept, all, maxLen)
    ensures var grown := kept + [d];
            NewestKept(grown[TrimCount(|grown|, wish, maxLen)..], all + [d], maxLen)
  {
  }

  lemma OnlyParkWritesDlq(cfg: Settings, b: Broker, a: Action)
    ensures var c := BrokerAfter(cfg, b, a);
            if a.Park? then
              var d := Parked(a.m.payload, a.reason, a.m.id, a.m.deliveryCount);
              var grown := b.dlq + [d];
              c.parked == b.parked + [d] && c.dlq == grown[TrimCount(|grown|, a.wish, cfg.maxLen)..]
            else c.parked == b.parked && c.dlq == b.dlq
  {
  }

  lemma {:induction false} DlqHoldsTheNewest(cfg: Settings, b: Broker, run: seq<Action>)
    requires NewestKept(b.dlq, b.parked, cfg.maxLen)
    ensures var c := ExecBroker(cfg, b, run); NewestKept(c.dlq, c.parked, cfg.maxLen)
    decreases |run|
  {
    if run != [] {
      var c, a := ExecBroker(cfg, b, run[..|run| - 1]), run[|run| - 1];
      DlqHoldsTheNewest(cfg, b, run[..|run| - 1]);
      OnlyParkWritesDlq(cfg, c, a);
      hide NewestKept, BrokerAfter;
      if a.Park? {
        ParkKeepsNewest(c.dlq, c.parked, Parked(a.m.payload, a.reason, a.m.id, a.m.deliveryCount), a.wish, cfg.maxLen);
      }
    }
  }

  /** A dead letter followed by fewer than `maxLen` others can be read back. */
  lemma {:induction false} RecentLetterIsKept(cfg: Settings, run: seq<Action>, i: nat)
    requires var b := Exec(cfg, INITIAL, run).broker; i < |b.parked| && |b.parked| - i <= cfg.maxLen
    ensures var b := Exec(cfg, INITIAL, run).broker; b.parked[i] in b.dlq
  {
    hide Exec, ExecBroker;
    BrokerOfExec(cfg, INITIAL, run);
    DlqHoldsTheNewest(cfg, EMPTY, run);
    var b := Exec(cfg, INITIAL, run).broker;
    assert b.dlq[i - (|b.parked| - |b.dlq|)] == b.parked[i];
  }

  /**
    Within both bounds nothing is lost at all: an entry followed by fewer than `maxLen`
    publications is unread, pending, stored, or readable in the dead-letter stream, as long
    as some dead letter of it, if it has one, is followed by fewer than `maxLen` others.
   */
  lemma {:induction false} NothingLostWithinBounds(cfg: Settings, run: seq<Action>, id: nat, i: nat)
    requires LegalRun(cfg, INITIAL, run)
    requires var b := Exec(cfg, INITIAL, run).broker;
             IsEntry(b, id) && |b.published| - id < cfg.maxLen
             && (Dead(b, id) ==> i < |b.parked| && b.parked[i].originalId == id && |b.parked| - i <= cfg.maxLen)
    ensures var s := Exec(cfg, INITIAL, run);
            || id in Unread(s.broker) || id in s.broker.pel || Committed(cfg, s, id)
            || exists d :: d in s.broker.dlq && d.originalId == id
  {
    hide Exec, LegalRun, Committed, Unread, Trimmed;
    NoLossWithinBound(cfg, run, id);
    if Dead(Exec(cfg, INITIAL, run).broker, id) { RecentLetterIsKept(cfg, run, i); }
  }

  /** Only what deserved it is dead-lettered, and then with the payload that was published. */
  lemma {:induction false} OnlyPoisonIsParked(cfg: Settings, run: seq<Action>, d: Parked)
    requires LegalRun(cfg, INITIAL, run)
    requires d in Exec(cfg, INITIAL, run).broker.parked
    ensures var b := Exec(cfg, INITIAL, run).broker;
            && IsEntry(b, d.originalId) && d.payload == Payload(b, d.originalId)
            && match d.reason
               case ExceededDeliveries => b.delivered[d.originalId] > cfg.maxDeliveries
               case InvalidEvent => cfg.parse(d.payload).None?
               case UnknownCurrency =>
                 cfg.parse(d.payload).Some? && !Convertible(cfg, cfg.parse(d.payload).value.currency)
  {
    Reachable(cfg, run);
    assert Justified(cfg, Exec(cfg, INITIAL, run).broker, d);
  }

  lemma PartitionWithoutTrimming(b: Broker)
    requires WellFormed(b) && b.floor == 0
    ensures Range(0, b.cursor) == b.pel.Keys + b.acked
    ensures forall id :: id in b.delivered <==> id in Range(0, b.cursor)
  {
    forall id | id in Range(0, b.cursor) ensures id in b.pel.Keys + b.acked && id in b.delivered {
      assert !Trimmed(b, id);
    }
  }

  /**
    Without trimming, unread entries are exactly those past the cursor, and delivered entries
    split into pending and acknowledged ones.
   */
  lemma {:induction false} DeliveryPartition(cfg: Settings, run: seq<Action>)
    requires LegalRun(cfg, INITIAL, run) && Exec(cfg, INITIAL, run).broker.floor == 0
    ensures var b := Exec(cfg, INITIAL, run).broker;
            && Unread(b) == Range(b.cursor, |b.published|)
            && Range(0, b.cursor) == b.pel.Keys + b.acked
            && b.pel.Keys !! b.acked
            && (forall id :: id in b.delivered <==> id in Range(0, b.cursor))
  {
    Reachable(cfg, run);
    PartitionWithoutTrimming(Exec(cfg, INITIAL, run).broker);
  }

  /** Once acknowledged, an entry is never pending and never readable again. */
  lemma {:induction false} AckedForever(cfg: Settings, past: seq<Action>, future: seq<Action>, id: nat)
    requires LegalRun(cfg, INITIAL, past + future)
    requires id in Exec(cfg, INITIAL, past).broker.acked
    ensures var b := Exec(cfg, INITIAL, past + future).broker;
            id in b.acked && id !in b.pel && id !in Unread(b)
  {
    Reachable(cfg, past + future);
    ExecSplit(cfg, INITIAL, past, future);
    RunGrows(cfg, Exec(cfg, INITIAL, past), future);
  }

  // ------------------------------------------------------------ exactly-once storage

  /** Step `i` of the run puts a row for `id` into a table that has none. */
  predicate Inserts(cfg: Settings, s: Sys, run: seq<Action>, i: nat, id: string)
    requires i < |run|
  {
    id !in Exec(cfg, s, run[..i]).table && id in Apply(cfg, Exec(cfg, s, run[..i]), run[i]).table
  }

  /** How many steps of the run committed a row for `id` for the first time. */
  function TimesInserted(cfg: Settings, s: Sys, run: seq<Action>, id: string): nat {
    if run == [] then 0
    else
      var before := run[..|run| - 1];
      var row := NewRow(cfg, Exec(cfg, s, before).table, run[|run| - 1]);
      TimesInserted(cfg, s, before, id) + (if row.Some? && row.value.id == id then 1 else 0)
  }

  lemma InsertsNewRow(cfg: Settings, s: Sys, a: Action, id: string)
    ensures id !in s.table && id in Apply(cfg, s, a).table <==>
            NewRow(cfg, s.table, a).Some? && NewRow(cfg, s.table, a).value.id == id
  {
  }

  lemma LastInserts(cfg: Settings, s: Sys, run: seq<Action>, id: string)
    requires run != []
    ensures TimesInserted(cfg, s, run, id) ==
            TimesInserted(cfg, s, run[..|run| - 1], id) + if Inserts(cfg, s, run, |run| - 1, id) then 1 else 0
  {
    hide Exec, Apply, NewRow;
    InsertsNewRow(cfg, Exec(cfg, s, run[..|run| - 1]), run[|run| - 1], id);
  }

  lemma InsertsBefore(cfg: Settings, s: Sys, run: seq<Action>, i: nat, id: string)
    requires i < |run| - 1
    ensures Inserts(cfg, s, run[..|run| - 1], i, id) <==> Inserts(cfg, s, run, i, id)
  {
    hide Exec, Apply;
    assert run[..|run| - 1][..i] == run[..i];
  }

  ghost function InsertedAt(cfg: Settings, s: Sys, run: seq<Action>, id: string): set<nat> {
    set i: nat | i < |run| && Inserts(cfg, s, run, i, id)
  }

  lemma {:induction false} InsertedIsCounted(cfg: Settings, s: Sys, run: seq<Action>, id: string)
    ensures TimesInserted(cfg, s, run, id) == |InsertedAt(cfg, s, run, id)|
    decreases |run|
  {
    hide Exec, Apply, NewRow, Inserts;
    if run == [] {
      assert InsertedAt(cfg, s, run, id) == {};
    } else {
      var n: nat := |run| - 1;
      InsertedIsCounted(cfg, s, run[..n], id);
      LastInserts(cfg, s, run, id);
      forall i: nat | i < n ensures Inserts(cfg, s, run[..n], i, id) <==> Inserts(cfg, s, run, i, id) {
        InsertsBefore(cfg, s, run, i, id);
      }
      assert InsertedAt(cfg, s, run, id) ==
             InsertedAt(cfg, s, run[..n], id) + (if Inserts(cfg, s, run, n, id) then {n} else {});
    }
  }

  ghost function StoredAt(reports: seq<Report>, id: string): set<nat> {
    set i: nat | i < |reports| && reports[i] == Report(id, Stored)
  }

  lemma {:induction false} StoredIsCounted(reports: seq<Report>, id: string)
    ensures TimesStored(reports, id) == |StoredAt(reports, id)|
    decreases |reports|
  {
    if reports == [] {
      assert StoredAt(reports, id) == {};
    } else {
      var n: nat := |reports| - 1;
      StoredIsCounted(reports[..n], id);
      assert StoredAt(reports, id) ==
             StoredAt(reports[..n], id) + (if reports[n] == Report(id, Stored) then {n} else {});
    }
  }

  /** Any run inserts an id once if it makes it appear, and never otherwise. */
  lemma {:induction false} InsertedAtMostOnce(cfg: Settings, s: Sys, run: seq<Action>, id: string)
    ensures TimesInserted(cfg, s, run, id) ==
            if id in Exec(cfg, s, run).table && id !in s.table then 1 else 0
    decreases |run|
  {
    if run != [] {
      InsertedAtMostOnce(cfg, s, run[..|run| - 1], id);
      RunGrows(cfg, s, run[..|run| - 1]);
    }
  }

  /**
    Exactly-once storage: over any interleaving a committed row never changes, each id is
    inserted at most once and STORED is reported at most once per id across all workers.
   */
  lemma ExactlyOnce(cfg: Settings, past: seq<Action>, future: seq<Action>, id: string)
    requires LegalRun(cfg, INITIAL, past + future)
    ensures var s, t := Exec(cfg, INITIAL, past), Exec(cfg, INITIAL, past + future);
            && (id in s.table ==> id in t.table && t.table[id] == s.table[id])
            && TimesInserted(cfg, INITIAL, past + future, id) <= 1
            && TimesStored(t.reports, id) <= TimesInserted(cfg, INITIAL, past + future, id)
            && |StoredAt(t.reports, id)| <= |InsertedAt(cfg, INITIAL, past + future, id)| <= 1
  {
    Reachable(cfg, past + future);
    ExecSplit(cfg, INITIAL, past, future);
    RunGrows(cfg, Exec(cfg, INITIAL, past), future);
    InsertedAtMostOnce(cfg, INITIAL, past + future, id);
    StoredWasReported(Exec(cfg, INITIAL, past + future).reports, id);
    InsertedIsCounted(cfg, INITIAL, past + future, id);
    StoredIsCounted(Exec(cfg, INITIAL, past + future).reports, id);
  }

  /** The aggregate recomputed from the rows equals the running totals, whatever was replayed. */
  lemma {:induction false} SummaryEqualsBooks(cfg: Settings, run: seq<Action>, user: string)
    requires LegalRun(cfg, INITIAL, run)
    ensures var s := Exec(cfg, INITIAL, run);
            Aggregate(s.table, user) == Book(s.books, user)
  {
    Reachable(cfg, run);
  }
}
