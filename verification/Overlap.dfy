/**
  Stored and dead-lettered are not exclusive: a row whose acknowledgement failed can be
  delivered once too often and end in the dead-letter stream as well. That is the only way.
 */
module Overlap {
  import opened Prelude
  import opened Money
  import opened Ledger
  import opened Streams
  import opened StreamLaws
  import opened Pipeline
  import opened Safety
  import opened Counts
  import opened Drain

  // ----------------------------------------------------------- the only way there

  /** Every row was converted from a currency somebody prices. */
  lemma {:induction false} RowsAreConvertible(cfg: Settings, run: seq<Action>)
    requires LegalRun(cfg, INITIAL, run)
    ensures forall id :: id in Exec(cfg, INITIAL, run).table ==>
              Convertible(cfg, Exec(cfg, INITIAL, run).table[id].currency)
    decreases |run|
  {
    if run != [] {
      RowsAreConvertible(cfg, run[..|run| - 1]);
    }
  }

  /**
    In every reachable state: an entry whose event is stored and which was dead-lettered as well
    was delivered more than `max_deliveries` times, unless the row of that event id came from
    another payload, with another currency.
   */
  lemma {:induction false} BothMeansOverdelivered(cfg: Settings, run: seq<Action>, id: nat)
    requires LegalRun(cfg, INITIAL, run)
    requires var s := Exec(cfg, INITIAL, run); Dead(s.broker, id) && Committed(cfg, s, id)
    ensures var s := Exec(cfg, INITIAL, run);
            var ev := cfg.parse(Payload(s.broker, id)).value;
            s.broker.delivered[id] > cfg.maxDeliveries || s.table[ev.id].currency != ev.currency
  {
    hide LegalRun, Exec;
    RowsAreConvertible(cfg, run);
    var b := Exec(cfg, INITIAL, run).broker;
    var d :| d in b.parked && d.originalId == id;
    OnlyPoisonIsParked(cfg, run, d);
  }

  // -------------------------------------------------- exactly when the next round

  lemma ClaimTakesDue(cfg: Settings, s: Sys, r: Round)
    requires WellFormed(s.broker) && OldestIsDue(cfg, s.broker) && cfg.batchSize > 0 && r.scan > 0
    requires !Trimmed(s.broker, Oldest(s.broker.pel))
    ensures var id, c := Oldest(s.broker.pel), Apply(cfg, s, ClaimOf(cfg, r)).broker;
            && id in ClaimedBy(cfg, s, r) && WellFormed(c)
            && OldestSlot(c, id, Pending(r.worker, s.broker.pel[id].times + 1, s.broker.clock))
  {
    var b, id := s.broker, Oldest(s.broker.pel);
    ScanFindsOldest(b, 1, cfg.minIdle, cfg.batchSize, r.scan);
    ClaimShape(b, r.worker, cfg.minIdle, cfg.batchSize, r.scan);
    ScanFacts(b, 1, cfg.minIdle, cfg.batchSize, r.scan);
    XAutoClaimKeeps(b, r.worker, cfg.minIdle, cfg.batchSize, r.scan);
    assert id !in Ids(Claimable(b, cfg.minIdle, cfg.batchSize, r.scan).deleted);
  }

  function Undisturbed(w: string, scan: nat, wish: nat): Round {
    Round(w, scan, wish, [], [])
  }

  /** Claiming and counting write no row, no dead letter and no entry. */
  ghost predicate SameBooks(s: Sys, t: Sys) {
    t.table == s.table && t.broker.published == s.broker.published && t.broker.parked == s.broker.parked
  }

  lemma QuietSteps(cfg: Settings, s: Sys, r: Round)
    requires r.early == [] && r.middle == []
    ensures AtCount(cfg, s, r) == Apply(cfg, s, ClaimOf(cfg, r))
    ensures SameBooks(s, AtPark(cfg, s, r))
  {
    hide ClaimedBy, Claimable;
    assert AtPark(cfg, s, r) == Counting(cfg, s, r);
  }

  lemma ParkBooks(cfg: Settings, s: Sys, m: Message, r: Round)
    ensures var t := Exec(cfg, s, [Park(r.worker, m, ExceededDeliveries, r.wish)]);
            && t.table == s.table && t.broker.published == s.broker.published
            && t.broker.parked == s.broker.parked + [Parked(m.payload, ExceededDeliveries, m.id, m.deliveryCount)]
  {
    SingleStep(cfg, s, Park(r.worker, m, ExceededDeliveries, r.wish));
  }

  lemma QuietRound(cfg: Settings, s: Sys, r: Round)
    requires s.broker.pel.Keys != {} && r.early == [] && r.middle == []
    ensures var t := Exec(cfg, s, RoundRun(cfg, s, r));
            && t.table == s.table && s.broker.published == t.broker.published
            && t.broker.parked == s.broker.parked +
                 (if Exhausted(cfg, s, r).None? then []
                  else var m := Exhausted(cfg, s, r).value;
                       [Parked(m.payload, ExceededDeliveries, m.id, m.deliveryCount)])
  {
    hide Exec, LegalRun, Apply, RoundRun, Exhausted, ProductiveSteps, Productive, AtPark, AtCount, Counting;
    RoundParts(cfg, s, r);
    QuietSteps(cfg, s, r);
    if Exhausted(cfg, s, r).Some? {
      ParkBooks(cfg, AtPark(cfg, s, r), Exhausted(cfg, s, r).value, r);
    } else {
      EmptyRun(cfg, AtPark(cfg, s, r));
    }
  }

  /** The undisturbed round finds the oldest entry exhausted exactly if this delivery is one too many. */
  lemma ExhaustedIff(cfg: Settings, s: Sys, r: Round)
    requires WellFormed(s.broker) && OldestIsDue(cfg, s.broker) && cfg.batchSize > 0 && r.scan > 0
    requires !Trimmed(s.broker, Oldest(s.broker.pel)) && r.early == [] && r.middle == []
    ensures Exhausted(cfg, s, r).Some? <==> s.broker.delivered[Oldest(s.broker.pel)] >= cfg.maxDeliveries
    ensures Exhausted(cfg, s, r).Some? ==> Exhausted(cfg, s, r).value.id == Oldest(s.broker.pel)
  {
    var id := Oldest(s.broker.pel);
    assert s.broker.pel[id].times == s.broker.delivered[id];
    assert s.broker.pel[id].times >= 1;
    ClaimTakesDue(cfg, s, r);
    hide Exec, Apply, ClaimedBy, OldestSlot, Trimmed, OldestIsDue, AtCount, WellFormed, ReportedCount;
    QuietSteps(cfg, s, r);
    assert ClaimedBy(cfg, s, r) != {};
    OldestIsCounted(AtCount(cfg, s, r).broker, r.worker, |ClaimedBy(cfg, s, r)|, id,
                    Pending(r.worker, s.broker.pel[id].times + 1, s.broker.clock));
  }

  /**
    Exactly when a stored event is dead-lettered as well: an undisturbed round over a due oldest
    entry whose row is committed leaves the row and buries the entry if and only if
    it had been delivered `max_deliveries` times or more.
   */
  lemma StoredIsBuriedIff(cfg: Settings, s: Sys, w: string, scan: nat, wish: nat)
    requires Inv(cfg, s) && OldestIsDue(cfg, s.broker) && cfg.batchSize > 0 && scan > 0
    requires var id := Oldest(s.broker.pel);
             !Trimmed(s.broker, id) && Committed(cfg, s, id) && !Dead(s.broker, id)
    ensures var id, run := Oldest(s.broker.pel), RoundRun(cfg, s, Undisturbed(w, scan, wish));
            var t := Exec(cfg, s, run);
            && LegalRun(cfg, s, run) && Committed(cfg, t, id)
            && (Dead(t.broker, id) <==> s.broker.delivered[id] >= cfg.maxDeliveries)
  {
    hide RoundRun, Exec, LegalRun, Apply, Trimmed, OldestIsDue, Inv, WellFormed, Exhausted, TooSoon, Counting;
    var r := Undisturbed(w, scan, wish);
    var id := Oldest(s.broker.pel);
    StillWellFormed(cfg, s);
    QuietIsOk(cfg, s, r);
    RoundIsLegal(cfg, s, r);
    QuietRound(cfg, s, r);
    ExhaustedIff(cfg, s, r);
    var t := Exec(cfg, s, RoundRun(cfg, s, r));
    if Exhausted(cfg, s, r).Some? {
      assert t.broker.parked[|s.broker.parked|].originalId == id;
    }
  }

  lemma QuietIsOk(cfg: Settings, s: Sys, r: Round)
    requires r.scan > 0 && r.early == [] && r.middle == []
    ensures RoundOk(cfg, s, r)
  {
    hide Apply, Counting;
  }

  /** Claim, count and, if the count of this one message is above the limit, dead-letter it. */
  ghost function BuryRun(cfg: Settings, s: Sys, w: string, scan: nat, wish: nat, id: nat): seq<Action> {
    var claim := Claim(w, cfg.minIdle, cfg.batchSize, scan, true);
    var ids, c := Ids(Claimable(s.broker, cfg.minIdle, cfg.batchSize, scan).claimed), Apply(cfg, s, claim).broker;
    var n := ReportedCount(c, w, |ids|, id);
    [claim, Count(w, ids)] +
    (if IsEntry(c, id) && n > cfg.maxDeliveries
     then [Park(w, Message(id, Payload(c, id), n), ExceededDeliveries, wish)] else [])
  }

  /** The count of a just claimed entry: the deliveries made, or 1 if the worker owns too many older entries. */
  lemma ClaimedCount(cfg: Settings, s: Sys, w: string, scan: nat, id: nat)
    requires WellFormed(s.broker) && id in Claimable(s.broker, cfg.minIdle, cfg.batchSize, scan).claimed
    ensures var ids := Ids(Claimable(s.broker, cfg.minIdle, cfg.batchSize, scan).claimed);
            var c := XAutoClaim(s.broker, w, cfg.minIdle, cfg.batchSize, scan);
            && IsEntry(c, id) && c.parked == s.broker.parked && c.published == s.broker.published
            && ReportedCount(c, w, |ids|, id) ==
               if |OwnedBetween(c, w, 1, id)| < |ids| then s.broker.delivered[id] + 1 else 1
  {
    var c, ids := XAutoClaim(s.broker, w, cfg.minIdle, cfg.batchSize, scan),
                  Ids(Claimable(s.broker, cfg.minIdle, cfg.batchSize, scan).claimed);
    ScanFacts(s.broker, 1, cfg.minIdle, cfg.batchSize, scan);
    XAutoClaimKeeps(s.broker, w, cfg.minIdle, cfg.batchSize, scan);
    ClaimedSlots(s.broker, w, cfg.minIdle, cfg.batchSize, scan);
    assert id in ids && c.pel[id].times == s.broker.pel[id].times + 1;
    assert c.pel[id].times == s.broker.delivered[id] + 1;
    hide XAutoClaim, Claimable, Ids, OwnedBetween;
    InFirst(c, w, 1, |ids|, id);
  }

  lemma BuryRunIs(cfg: Settings, s: Sys, w: string, scan: nat, wish: nat, id: nat)
    requires Inv(cfg, s) && id in Claimable(s.broker, cfg.minIdle, cfg.batchSize, scan).claimed
    ensures var ids := Ids(Claimable(s.broker, cfg.minIdle, cfg.batchSize, scan).claimed);
            var c := XAutoClaim(s.broker, w, cfg.minIdle, cfg.batchSize, scan);
            var run, t := BuryRun(cfg, s, w, scan, wish, id), Exec(cfg, s, BuryRun(cfg, s, w, scan, wish, id));
            && LegalRun(cfg, s, run) && t.table == s.table && t.broker.published == c.published
            && if IsEntry(c, id) && ReportedCount(c, w, |ids|, id) > cfg.maxDeliveries
               then |t.broker.parked| == |c.parked| + 1 && c.parked < t.broker.parked
                    && t.broker.parked[|c.parked|].originalId == id
               else t.broker.parked == c.parked
  {
    hide Exec, LegalRun, Claimable, XAutoClaim, ReportedCount, Inv, Apply, Ids;
    var claim := Claim(w, cfg.minIdle, cfg.batchSize, scan, true);
    var ids, c := Ids(Claimable(s.broker, cfg.minIdle, cfg.batchSize, scan).claimed), Apply(cfg, s, claim).broker;
    var count, n := Count(w, ids), ReportedCount(c, w, |ids|, id);
    ClaimedThenCounted(cfg, s, w, scan, id);
    if IsEntry(c, id) && n > cfg.maxDeliveries {
      var m := Message(id, Payload(c, id), n);
      var u := Exec(cfg, s, [claim, count]);
      var park := Park(w, m, ExceededDeliveries, wish);
      ExecStep(cfg, s, [claim, count], park);
      ParkStep(cfg, u, m, w, wish);
      assert BuryRun(cfg, s, w, scan, wish, id) == [claim, count] + [park];
    } else {
      assert BuryRun(cfg, s, w, scan, wish, id) == [claim, count];
    }
  }

  lemma ParkStep(cfg: Settings, s: Sys, m: Message, w: string, wish: nat)
    ensures var t := Apply(cfg, s, Park(w, m, ExceededDeliveries, wish));
            && t.table == s.table && t.broker.published == s.broker.published
            && t.broker.parked == s.broker.parked + [Parked(m.payload, ExceededDeliveries, m.id, m.deliveryCount)]
  {
  }

  lemma ClaimedThenCounted(cfg: Settings, s: Sys, w: string, scan: nat, id: nat)
    requires id in Claimable(s.broker, cfg.minIdle, cfg.batchSize, scan).claimed
    ensures var claim := Claim(w, cfg.minIdle, cfg.batchSize, scan, true);
            var ids, c := Ids(Claimable(s.broker, cfg.minIdle, cfg.batchSize, scan).claimed), Apply(cfg, s, claim).broker;
            var u := Exec(cfg, s, [claim, Count(w, ids)]);
            && LegalRun(cfg, s, [claim, Count(w, ids)])
            && c == XAutoClaim(s.broker, w, cfg.minIdle, cfg.batchSize, scan)
            && u.broker == c && u.table == s.table
            && (IsEntry(c, id) ==> Message(id, Payload(c, id), ReportedCount(c, w, |ids|, id)) in MemoryOf(u, w).held)
  {
    hide Exec, LegalRun, Claimable, XAutoClaim, ReportedCount, XPendingRange;
    var claim := Claim(w, cfg.minIdle, cfg.batchSize, scan, true);
    var ids, c := Ids(Claimable(s.broker, cfg.minIdle, cfg.batchSize, scan).claimed), Apply(cfg, s, claim).broker;
    SingleStep(cfg, s, claim);
    ExecStep(cfg, s, [claim], Count(w, ids));
    assert [claim] + [Count(w, ids)] == [claim, Count(w, ids)];
    if IsEntry(c, id) {
      assert id in ids;
      assert Message(id, Payload(c, id), ReportedCount(c, w, |ids|, id)) in CountedMessages(c, w, ids);
    }
  }

  /**
    The same for any pending entry that a claim meets: a stored one is buried if and only if it had
    been delivered `max_deliveries` times and the worker owns fewer older entries than it
    claimed; with `max_deliveries` 0 always.
   */
  lemma ClaimedIsBuriedIff(cfg: Settings, s: Sys, w: string, scan: nat, wish: nat, id: nat)
    requires Inv(cfg, s) && id in Claimable(s.broker, cfg.minIdle, cfg.batchSize, scan).claimed
    requires Committed(cfg, s, id) && !Dead(s.broker, id)
    ensures var ids := Ids(Claimable(s.broker, cfg.minIdle, cfg.batchSize, scan).claimed);
            var c := XAutoClaim(s.broker, w, cfg.minIdle, cfg.batchSize, scan);
            var run, t := BuryRun(cfg, s, w, scan, wish, id), Exec(cfg, s, BuryRun(cfg, s, w, scan, wish, id));
            && LegalRun(cfg, s, run) && Committed(cfg, t, id)
            && (Dead(t.broker, id) <==>
                  (s.broker.delivered[id] >= cfg.maxDeliveries && |OwnedBetween(c, w, 1, id)| < |ids|)
                  || cfg.maxDeliveries == 0)
  {
    hide Exec, LegalRun, BuryRun, Claimable, XAutoClaim, ReportedCount, Inv, WellFormed, OwnedBetween;
    StillWellFormed(cfg, s);
    ClaimedCount(cfg, s, w, scan, id);
    BuryRunIs(cfg, s, w, scan, wish, id);
    var t := Exec(cfg, s, BuryRun(cfg, s, w, scan, wish, id));
    if t.broker.parked != s.broker.parked {
      assert t.broker.parked[|s.broker.parked|] in t.broker.parked;
    }
  }

  // ------------------------------------------------------------------- a run of it

  /** The entry is reclaimed `k` times by "v", which crashes or loses the reply every time but the last. */
  function Reclaims(cfg: Settings, k: nat): seq<Action> {
    if k == 0 then []
    else
      Reclaims(cfg, k - 1) + [Tick(cfg.minIdle), Claim("v", cfg.minIdle, cfg.batchSize, 10 * cfg.batchSize, true)]
  }

  /** Worker "w" stores the event but its XACK fails; worker "v" reclaims the entry `k` times and buries it. */
  function TwiceSettledRun(cfg: Settings, rate: Decimal, k: nat): seq<Action> {
    StoreRun(cfg, rate) + Reclaims(cfg, k) + [Count("v", {1}), Park("v", Message(1, "p", 1 + k), ExceededDeliveries, 0)]
  }

  function StoreRun(cfg: Settings, rate: Decimal): seq<Action> {
    [EnsureGroup, Publish("p", 0), Read("w", cfg.batchSize, true), Store("w", Message(1, "p", 1), rate, 0, true)]
  }

  const DELIVERED := EMPTY.(
    published := ["p"], grouped := true, cursor := 1, pel := map[1 := Pending("w", 1, 0)], delivered := multiset{1})

  /** Entry 1 is pending after `times` deliveries, the last of them just now. */
  predicate Waiting(b: Broker, owner: string, times: nat) {
    && b.published == ["p"] && b.floor == 0 && b.grouped && b.cursor == 1
    && b.pel == map[1 := Pending(owner, times, b.clock)]
  }

  lemma ReadOnce(batch: nat)
    requires batch > 0
    ensures var b := EMPTY.(published := ["p"], grouped := true);
            XReadGroup(b, "w", batch) == DELIVERED && Message(1, "p", 1) in FreshMessages(b, batch)
  {
    var b := EMPTY.(published := ["p"], grouped := true);
    assert Head(b) == 0 && ReadTo(b, batch) == 1;
    assert Range(0, 1) == {1};
  }

  lemma ClaimOnce(b: Broker, owner: string, times: nat, minIdle: nat, batch: nat)
    requires Waiting(b, owner, times) && batch > 0
    ensures var c := b.(clock := b.clock + minIdle);
            && Claimable(c, minIdle, batch, 10 * batch) == Scanned([1], [])
            && Waiting(XAutoClaim(c, "v", minIdle, batch, 10 * batch), "v", times + 1)
  {
    var c := b.(clock := b.clock + minIdle);
    assert Scan(c, 2, minIdle, batch - 1, 10 * batch - 1) == Scanned([], []);
    assert Scan(c, 1, minIdle, batch, 10 * batch) == Scanned([1], []);
    assert Ids([1]) == {1};
  }

  lemma CountOnce(b: Broker, times: nat)
    requires Waiting(b, "v", times)
    ensures Message(1, "p", times) in CountedMessages(b, "v", {1})
  {
    assert OwnedFrom(b, "v", 1) == [1] + OwnedFrom(b, "v", 2);
    assert XPendingRange(b, "v", 1) == [1];
    assert ReportedCount(b, "v", 1, 1) == times;
  }

  lemma Step(cfg: Settings, run: seq<Action>, k: nat)
    requires k < |run|
    ensures Exec(cfg, INITIAL, run[..0]) == INITIAL && LegalRun(cfg, INITIAL, run[..0])
    ensures Exec(cfg, INITIAL, run[..k + 1]) == Apply(cfg, Exec(cfg, INITIAL, run[..k]), run[k])
    ensures LegalRun(cfg, INITIAL, run[..k + 1]) <==>
            LegalRun(cfg, INITIAL, run[..k]) && Legal(cfg, Exec(cfg, INITIAL, run[..k]), run[k])
  {
    assert run[..k + 1][..k] == run[..k];
  }

  lemma HeldByW(cfg: Settings, rate: Decimal)
    requires cfg.batchSize > 0
    ensures var s := Exec(cfg, INITIAL, StoreRun(cfg, rate)[..3]);
            && LegalRun(cfg, INITIAL, StoreRun(cfg, rate)[..3])
            && s.broker == DELIVERED && s.table == map[] && Message(1, "p", 1) in MemoryOf(s, "w").held
  {
    hide Exec, LegalRun, XReadGroup, FreshMessages;
    var run := StoreRun(cfg, rate);
    ReadOnce(cfg.batchSize);
    Step(cfg, run, 0);
    Step(cfg, run, 1);
    assert Exec(cfg, INITIAL, run[..2]).broker == EMPTY.(published := ["p"], grouped := true);
    Step(cfg, run, 2);
  }

  /** The event is committed, but its entry is still pending. */
  lemma StoredButNotAcked(cfg: Settings, ev: Event, rate: Decimal, usd: int)
    requires cfg.batchSize > 0 && cfg.parse("p") == Some(ev) && Convertible(cfg, ev.currency)
    requires ConvertToUsd(ev.amount, rate) == Ok(usd)
    ensures var s := Exec(cfg, INITIAL, StoreRun(cfg, rate));
            && LegalRun(cfg, INITIAL, StoreRun(cfg, rate))
            && Waiting(s.broker, "w", 1) && ev.id in s.table
  {
    hide Exec, LegalRun, ConvertToUsd;
    var run := StoreRun(cfg, rate);
    HeldByW(cfg, rate);
    Step(cfg, run, 3);
    assert run[..4] == run;
  }

  lemma {:induction false} StillWaiting(cfg: Settings, s: Sys, k: nat)
    requires Waiting(s.broker, "w", 1) && cfg.batchSize > 0
    ensures var t := Exec(cfg, s, Reclaims(cfg, k));
            && LegalRun(cfg, s, Reclaims(cfg, k)) && t.table == s.table
            && Waiting(t.broker, if k == 0 then "w" else "v", 1 + k)
            && (k > 0 ==> 1 in MemoryOf(t, "v").claimed)
    decreases k
  {
    hide Exec, LegalRun, Reclaims, XAutoClaim, Claimable, Waiting;
    if k == 0 {
      EmptyRun(cfg, s);
      assert Reclaims(cfg, 0) == [] by { ReclaimsStart(cfg); }
    } else {
      var tick, claim := Tick(cfg.minIdle), Claim("v", cfg.minIdle, cfg.batchSize, 10 * cfg.batchSize, true);
      StillWaiting(cfg, s, k - 1);
      var past := Reclaims(cfg, k - 1);
      var u := Exec(cfg, s, past);
      ClaimOnce(u.broker, if k == 1 then "w" else "v", k, cfg.minIdle, cfg.batchSize);
      assert 1 in Ids([1]);
      assert past + [tick, claim] == past + [tick] + [claim];
      assert Reclaims(cfg, k) == past + [tick] + [claim] by { ReclaimsStep(cfg, k); }
      ExecStep(cfg, s, past, tick);
      ExecStep(cfg, s, past + [tick], claim);
    }
  }

  lemma ReclaimsStart(cfg: Settings)
    ensures Reclaims(cfg, 0) == []
  {
  }

  lemma ReclaimsStep(cfg: Settings, k: nat)
    requires k > 0
    ensures Reclaims(cfg, k) == Reclaims(cfg, k - 1)
              + [Tick(cfg.minIdle), Claim("v", cfg.minIdle, cfg.batchSize, 10 * cfg.batchSize, true)]
  {
  }

  lemma CountThenPark(cfg: Settings, s: Sys, times: nat)
    requires Waiting(s.broker, "v", times) && 1 in MemoryOf(s, "v").claimed && times > cfg.maxDeliveries
    ensures var run := [Count("v", {1}), Park("v", Message(1, "p", times), ExceededDeliveries, 0)];
            var t := Exec(cfg, s, run);
            LegalRun(cfg, s, run) && t.table == s.table && t.broker.published == ["p"] && Dead(t.broker, 1)
  {
    var count, park := Count("v", {1}), Park("v", Message(1, "p", times), ExceededDeliveries, 0);
    CountOnce(s.broker, times);
    hide Exec, LegalRun, CountedMessages;
    SingleStep(cfg, s, count);
    ExecStep(cfg, s, [count], park);
    assert [count] + [park] == [count, park];
    var t := Exec(cfg, s, [count, park]);
    assert t.broker.parked[|s.broker.parked|].originalId == 1;
  }

  /** Under any settings, enough lost acknowledgements end with one event that has both a row and a dead letter. */
  lemma {:induction false} StoredAndDeadLettered(cfg: Settings, ev: Event, rate: Decimal, usd: int, k: nat)
    requires cfg.batchSize > 0 && cfg.parse("p") == Some(ev) && Convertible(cfg, ev.currency)
    requires ConvertToUsd(ev.amount, rate) == Ok(usd) && 1 <= k && cfg.maxDeliveries <= k
    ensures var s := Exec(cfg, INITIAL, TwiceSettledRun(cfg, rate, k));
            LegalRun(cfg, INITIAL, TwiceSettledRun(cfg, rate, k)) && Committed(cfg, s, 1) && Dead(s.broker, 1)
  {
    hide Exec, LegalRun, StoreRun, Reclaims, ConvertToUsd;
    var first, again, last := StoreRun(cfg, rate), Reclaims(cfg, k),
                             [Count("v", {1}), Park("v", Message(1, "p", 1 + k), ExceededDeliveries, 0)];
    StoredButNotAcked(cfg, ev, rate, usd);
    var s := Exec(cfg, INITIAL, first);
    StillWaiting(cfg, s, k);
    CountThenPark(cfg, Exec(cfg, s, again), 1 + k);
    ExecSplit(cfg, INITIAL, first, again);
    ExecSplit(cfg, INITIAL, first + again, last);
  }
}
