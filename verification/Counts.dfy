/**
  How far the delivery counts of a reclaim round can be trusted. `_delivery_counts` asks
  XPENDING for as many of the worker's own entries as it has just claimed, oldest first, and
  takes 1 for every id that is missing from the answer.
 */
module Counts {
  import opened Streams
  import opened StreamLaws
  import opened Pipeline

  /** The ids in [lo, hi) that `owner` has pending. */
  function OwnedBetween(b: Broker, owner: string, lo: nat, hi: nat): set<nat> {
    set id | id in b.pel && b.pel[id].owner == owner && lo <= id < hi
  }

  lemma OwnedFromNext(b: Broker, owner: string, from: nat, id: nat)
    ensures |OwnedBetween(b, owner, from, id)| ==
            |OwnedBetween(b, owner, from + 1, id)| +
            (if from in b.pel && b.pel[from].owner == owner && from < id then 1 else 0)
  {
    if from in b.pel && b.pel[from].owner == owner && from < id {
      assert OwnedBetween(b, owner, from, id) == OwnedBetween(b, owner, from + 1, id) + {from};
    } else {
      assert OwnedBetween(b, owner, from, id) == OwnedBetween(b, owner, from + 1, id);
    }
  }

  function First(s: seq<nat>, k: nat): seq<nat> {
    if |s| <= k then s else s[..k]
  }

  /** XPENDING's answer holds exactly the owned ids with fewer than `k` older owned ones. */
  lemma {:induction false} InFirst(b: Broker, owner: string, from: nat, k: nat, id: nat)
    requires forall j :: j in b.pel ==> j <= |b.published|
    ensures id in First(OwnedFrom(b, owner, from), k) <==>
            id in b.pel && b.pel[id].owner == owner && from <= id && |OwnedBetween(b, owner, from, id)| < k
    decreases |b.published| + 1 - from
  {
    if from <= |b.published| {
      var rest := OwnedFrom(b, owner, from + 1);
      OwnedFromNext(b, owner, from, id);
      if from in b.pel && b.pel[from].owner == owner {
        if k > 0 {
          InFirst(b, owner, from + 1, k - 1, id);
          assert First([from] + rest, k) == [from] + First(rest, k - 1);
        }
      } else {
        InFirst(b, owner, from + 1, k, id);
      }
    }
  }

  /** The exact condition, id by id: a count above 1 is reported iff few enough own entries are older. */
  lemma ReportedExactly(b: Broker, owner: string, asked: nat, id: nat)
    requires WellFormed(b) && id in b.pel && b.pel[id].owner == owner && b.pel[id].times >= 2
    ensures ReportedCount(b, owner, asked, id) == b.delivered[id] <==> |OwnedBetween(b, owner, 1, id)| < asked
  {
    InFirst(b, owner, 1, asked, id);
  }

  /** Every id of `ids` is in the worker's hands and has been delivered before. */
  ghost predicate Redelivered(c: Broker, w: string, ids: set<nat>) {
    forall id :: id in ids ==> id in c.pel && c.pel[id].owner == w && c.pel[id].times >= 2
  }

  /** A just claimed id is in the worker's hands and has been delivered at least twice. */
  lemma ClaimedSlots(b: Broker, w: string, minIdle: nat, count: nat, scan: nat)
    requires WellFormed(b)
    ensures var c, ids := XAutoClaim(b, w, minIdle, count, scan), Ids(Claimable(b, minIdle, count, scan).claimed);
            Redelivered(c, w, ids)
  {
    ScanFacts(b, 1, minIdle, count, scan);
  }

  lemma {:induction false} Greatest(s: set<nat>) returns (g: nat)
    requires s != {}
    ensures g in s && forall x :: x in s ==> x <= g
    decreases s
  {
    g :| g in s;
    var rest := s - {g};
    if rest != {} {
      var h := Greatest(rest);
      assert forall x :: x in s ==> x == g || x in rest;
      g := if g < h then h else g;
    } else {
      assert s == {g};
    }
  }

  lemma SubsetSize(x: set<nat>, y: set<nat>)
    requires x <= y
    ensures |x| <= |y|
  {
    assert y == x + (y - x);
  }

  ghost predicate ExactFor(c: Broker, w: string, ids: set<nat>) {
    forall id :: id in ids ==> ReportedCount(c, w, |ids|, id) == c.delivered[id]
  }

  /** No entry the worker owns outside `ids` is older than one in `ids`. */
  ghost predicate NothingOlderLeft(c: Broker, w: string, ids: set<nat>) {
    forall id, own :: id in ids && own in c.pel && c.pel[own].owner == w && own < id ==> own in ids
  }

  lemma NothingOlderLeftIsEnough(c: Broker, w: string, ids: set<nat>)
    requires WellFormed(c) && Redelivered(c, w, ids) && NothingOlderLeft(c, w, ids)
    ensures ExactFor(c, w, ids)
  {
    forall id | id in ids ensures ReportedCount(c, w, |ids|, id) == c.delivered[id] {
      SubsetSize(OwnedBetween(c, w, 1, id), ids - {id});
      ReportedExactly(c, w, |ids|, id);
    }
  }

  lemma NothingOlderLeftIsNeeded(c: Broker, w: string, ids: set<nat>, id: nat, own: nat)
    requires WellFormed(c) && Redelivered(c, w, ids)
    requires id in ids && own in c.pel && c.pel[own].owner == w && own < id && own !in ids
    ensures !ExactFor(c, w, ids)
  {
    var g := Greatest(ids);
    SubsetSize(ids - {g} + {own}, OwnedBetween(c, w, 1, g));
    ReportedExactly(c, w, |ids|, g);
  }

  /**
    Claim and count taken together: every reported count is exact if and only if no entry the
    worker already owned, and did not claim again, is older than one it claimed.
   */
  lemma AllExactIff(b: Broker, w: string, minIdle: nat, count: nat, scan: nat)
    requires WellFormed(b)
    ensures var c, ids := XAutoClaim(b, w, minIdle, count, scan), Ids(Claimable(b, minIdle, count, scan).claimed);
            ExactFor(c, w, ids) <==> NothingOlderLeft(c, w, ids)
  {
    var c, ids := XAutoClaim(b, w, minIdle, count, scan), Ids(Claimable(b, minIdle, count, scan).claimed);
    XAutoClaimKeeps(b, w, minIdle, count, scan);
    ClaimedSlots(b, w, minIdle, count, scan);
    if NothingOlderLeft(c, w, ids) {
      NothingOlderLeftIsEnough(c, w, ids);
    } else {
      var id, own :| id in ids && own in c.pel && c.pel[own].owner == w && own < id && own !in ids;
      NothingOlderLeftIsNeeded(c, w, ids, id, own);
    }
  }

  /** The oldest pending entry, once claimed, is counted exactly: nothing the worker owns is older. */
  lemma OldestIsExact(b: Broker, w: string, minIdle: nat, count: nat, scan: nat, oldest: nat)
    requires WellFormed(b) && oldest in b.pel && oldest in Claimable(b, minIdle, count, scan).claimed
    requires forall id :: id in b.pel ==> oldest <= id
    ensures var c, ids := XAutoClaim(b, w, minIdle, count, scan), Ids(Claimable(b, minIdle, count, scan).claimed);
            ids != {} && oldest in ids &&
            ReportedCount(c, w, |ids|, oldest) == c.delivered[oldest] == b.pel[oldest].times + 1
  {
    var c, ids := XAutoClaim(b, w, minIdle, count, scan), Ids(Claimable(b, minIdle, count, scan).claimed);
    ScanFacts(b, 1, minIdle, count, scan);
    XAutoClaimKeeps(b, w, minIdle, count, scan);
    ClaimedSlots(b, w, minIdle, count, scan);
    assert OwnedBetween(c, w, 1, oldest) == {};
    ReportedExactly(c, w, |ids|, oldest);
  }

  // --------------------------------------------------------- where the count is short

  lemma {:induction false} NothingToCheck(cfg: Settings, s: Sys, run: seq<Action>)
    requires forall a :: a in run ==> a.EnsureGroup? || a.Publish? || a.Tick? || a.Read? || a.Claim?
    ensures LegalRun(cfg, s, run)
    decreases |run|
  {
    if run != [] {
      NothingToCheck(cfg, s, run[..|run| - 1]);
    }
  }

  lemma BrokerStep(cfg: Settings, b: Broker, run: seq<Action>, k: nat)
    requires k < |run|
    ensures ExecBroker(cfg, b, run[..0]) == b
    ensures ExecBroker(cfg, b, run[..k + 1]) == BrokerAfter(cfg, ExecBroker(cfg, b, run[..k]), run[k])
  {
    assert run[..k + 1][..k] == run[..k];
  }

  /**
    The gap is reachable under any settings: entry 1 is claimed and stays with the worker, its next
    round skips it because it is no longer idle and claims entry 2, which was published a
    moment later. XPENDING is asked for one entry, answers with entry 1, and entry 2 is taken to
    have been delivered once although it was delivered twice.
   */
  function ShortCountRun(cfg: Settings): seq<Action> {
    [EnsureGroup, Publish("a", 0), Read("w", cfg.batchSize, true), Tick(1),
     Publish("b", 0), Read("v", cfg.batchSize, true), Tick(if cfg.minIdle > 0 then cfg.minIdle - 1 else 0),
     Claim("w", cfg.minIdle, cfg.batchSize, 10 * cfg.batchSize, true), Tick(1),
     Claim("w", cfg.minIdle, cfg.batchSize, 10 * cfg.batchSize, true), Count("w", {2})]
  }

  const FIRST_READ := EMPTY.(
    published := ["a"], grouped := true, cursor := 1, pel := map[1 := Pending("w", 1, 0)], delivered := multiset{1})

  const BOTH_READ := FIRST_READ.(
    published := ["a", "b"], cursor := 2, clock := 1,
    pel := map[1 := Pending("w", 1, 0), 2 := Pending("v", 1, 1)], delivered := multiset{1, 2})

  function FirstClaimed(minIdle: nat): Broker {
    BOTH_READ.(clock := minIdle, delivered := multiset{1, 1, 2},
               pel := map[1 := Pending("w", 2, minIdle), 2 := Pending("v", 1, 1)])
  }

  function SecondClaimed(minIdle: nat): Broker {
    BOTH_READ.(clock := minIdle + 1, delivered := multiset{1, 1, 2, 2},
               pel := map[1 := Pending("w", 2, minIdle), 2 := Pending("w", 2, minIdle + 1)])
  }

  lemma ReadFirst(batch: nat)
    requires batch > 0
    ensures XReadGroup(EMPTY.(published := ["a"], grouped := true), "w", batch) == FIRST_READ
  {
    assert Range(0, 1) == {1};
  }

  lemma ReadSecond(batch: nat)
    requires batch > 0
    ensures XReadGroup(FIRST_READ.(published := ["a", "b"], clock := 1), "v", batch) == BOTH_READ
  {
    assert Range(1, 2) == {2};
  }

  lemma ClaimFirst(minIdle: nat, batch: nat)
    requires minIdle >= 2 && batch > 0
    ensures XAutoClaim(BOTH_READ.(clock := minIdle), "w", minIdle, batch, 10 * batch) == FirstClaimed(minIdle)
  {
    var b := BOTH_READ.(clock := minIdle);
    assert Scan(b, 3, minIdle, batch - 1, 10 * batch - 2) == Scanned([], []);
    assert Scan(b, 2, minIdle, batch - 1, 10 * batch - 1) == Scanned([], []);
    assert Scan(b, 1, minIdle, batch, 10 * batch) == Scanned([1], []);
    assert Ids([1]) == {1};
  }

  lemma ClaimSecond(minIdle: nat, batch: nat)
    requires minIdle >= 2 && batch > 0
    ensures var b := FirstClaimed(minIdle).(clock := minIdle + 1);
            && Claimable(b, minIdle, batch, 10 * batch) == Scanned([2], [])
            && XAutoClaim(b, "w", minIdle, batch, 10 * batch) == SecondClaimed(minIdle)
  {
    var b := FirstClaimed(minIdle).(clock := minIdle + 1);
    assert Scan(b, 3, minIdle, batch - 1, 10 * batch - 2) == Scanned([], []);
    assert Scan(b, 2, minIdle, batch, 10 * batch - 1) == Scanned([2], []);
    assert Claimable(b, minIdle, batch, 10 * batch) == Scanned([2], []);
    hide Scan, Claimable;
    assert Ids([2]) == {2} && Ids([]) == {};
    var c := XAutoClaim(b, "w", minIdle, batch, 10 * batch);
    assert c.pel == SecondClaimed(minIdle).pel;
  }

  lemma AskForOne(minIdle: nat)
    ensures CountedMessages(SecondClaimed(minIdle), "w", {2}) == {Message(2, "b", 1)}
  {
    var b := SecondClaimed(minIdle);
    assert OwnedFrom(b, "w", 2) == [2] + OwnedFrom(b, "w", 3);
    assert XPendingRange(b, "w", 1) == [1];
    assert ReportedCount(b, "w", 1, 2) == 1;
  }

  lemma BothRead(cfg: Settings)
    requires cfg.batchSize > 0
    ensures ExecBroker(cfg, EMPTY, ShortCountRun(cfg)[..6]) == BOTH_READ
  {
    hide ExecBroker, XReadGroup;
    var run := ShortCountRun(cfg);
    BrokerStep(cfg, EMPTY, run, 0);
    BrokerStep(cfg, EMPTY, run, 1);
    assert ExecBroker(cfg, EMPTY, run[..2]) == EMPTY.(published := ["a"], grouped := true);
    ReadFirst(cfg.batchSize);
    BrokerStep(cfg, EMPTY, run, 2);
    BrokerStep(cfg, EMPTY, run, 3);
    BrokerStep(cfg, EMPTY, run, 4);
    assert ExecBroker(cfg, EMPTY, run[..5]) == FIRST_READ.(published := ["a", "b"], clock := 1);
    ReadSecond(cfg.batchSize);
    BrokerStep(cfg, EMPTY, run, 5);
  }

  lemma ShortCountBrokers(cfg: Settings)
    requires cfg.batchSize > 0 && cfg.minIdle >= 2
    ensures ExecBroker(cfg, EMPTY, ShortCountRun(cfg)[..9]) == FirstClaimed(cfg.minIdle).(clock := cfg.minIdle + 1)
    ensures ExecBroker(cfg, EMPTY, ShortCountRun(cfg)[..10]) == SecondClaimed(cfg.minIdle)
  {
    hide ExecBroker, XAutoClaim, Claimable;
    var run := ShortCountRun(cfg);
    BothRead(cfg);
    BrokerStep(cfg, EMPTY, run, 6);
    ClaimFirst(cfg.minIdle, cfg.batchSize);
    BrokerStep(cfg, EMPTY, run, 7);
    BrokerStep(cfg, EMPTY, run, 8);
    ClaimSecond(cfg.minIdle, cfg.batchSize);
    BrokerStep(cfg, EMPTY, run, 9);
  }

  /** At the end the worker holds entry 2 with count 1, although it was delivered twice. */
  lemma {:induction false} CountsCanFallShort(cfg: Settings)
    requires cfg.batchSize > 0 && cfg.minIdle >= 2
    ensures LegalRun(cfg, INITIAL, ShortCountRun(cfg))
    ensures var s := Exec(cfg, INITIAL, ShortCountRun(cfg));
            Message(2, "b", 1) in MemoryOf(s, "w").held && s.broker.delivered[2] == 2
  {
    hide Exec, LegalRun, ExecBroker, XAutoClaim, Claimable, CountedMessages, Scan;
    var run := ShortCountRun(cfg);
    NothingToCheck(cfg, INITIAL, run[..10]);
    BrokerOfExec(cfg, INITIAL, run[..9]);
    BrokerOfExec(cfg, INITIAL, run[..10]);
    ShortCountBrokers(cfg);
    ClaimSecond(cfg.minIdle, cfg.batchSize);
    AskForOne(cfg.minIdle);
    var s := Exec(cfg, INITIAL, run[..9]);
    ExecStep(cfg, INITIAL, run[..9], run[9]);
    assert run[..9] + [run[9]] == run[..10];
    assert 2 in Ids([2]);
    var t := Exec(cfg, INITIAL, run[..10]);
    assert {2} <= MemoryOf(t, "w").claimed;
    ExecStep(cfg, INITIAL, run[..10], run[10]);
    assert run[..10] + [run[10]] == run;
  }
}
