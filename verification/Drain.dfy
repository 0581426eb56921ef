/**
  The backlog drains. Without new publications no step of anybody makes the backlog worse,
  and a reclaim round that meets an idle oldest entry makes it strictly better, because the
  delivery count of that entry is exact even when younger counts fall short.
 */
module Drain {
  import opened Prelude
  import opened Streams
  import opened StreamLaws
  import opened Pipeline
  import opened Counts
  import opened Safety

  ghost function Least(s: set<nat>): (m: nat)
    requires s != {}
    ensures m in s && forall x :: x in s ==> m <= x
  {
    var x :| x in s;
    var rest := s - {x};
    if rest == {} then
      assert s == {x};
      x
    else
      assert forall y :: y in s ==> y == x || y in rest;
      var m := Least(rest);
      if x < m then x else m
  }

  ghost function Oldest(pel: map<nat, Pending>): (id: nat)
    requires pel.Keys != {}
    ensures id in pel && forall j :: j in pel ==> id <= j
  {
    Least(pel.Keys)
  }

  // ------------------------------------------------------------------ the measure

  function UnreadCount(b: Broker): nat {
    if Head(b) <= |b.published| then |b.published| - Head(b) else 0
  }

  function Backlog(b: Broker): nat {
    UnreadCount(b) + |b.pel.Keys|
  }

  /** Deliveries the oldest pending entry has left; one more than any while nothing is pending. */
  ghost function Left(pel: map<nat, Pending>, maxDeliveries: nat): nat {
    if pel.Keys == {} then maxDeliveries + 1
    else if pel[Oldest(pel)].times > maxDeliveries then 0
    else maxDeliveries + 1 - pel[Oldest(pel)].times
  }

  datatype Measure = Measure(backlog: nat, left: nat, unread: nat)

  ghost function MeasureOf(cfg: Settings, b: Broker): Measure {
    Measure(Backlog(b), Left(b.pel, cfg.maxDeliveries), UnreadCount(b))
  }

  ghost predicate Below(x: Measure, y: Measure) {
    || x.backlog < y.backlog
    || (x.backlog == y.backlog && x.left < y.left)
    || (x.backlog == y.backlog && x.left == y.left && x.unread < y.unread)
  }

  ghost predicate AtMost(x: Measure, y: Measure) {
    x == y || Below(x, y)
  }

  /** The steps that get something done, by the branch of the command they exercise. */
  ghost predicate Productive(cfg: Settings, b: Broker, a: Action) {
    match a
    case Read(_, _, _) => b.grouped && UnreadCount(b) > 0
    case Claim(_, minIdle, count, scan, _) =>
      && b.grouped && count > 0 && scan > 0 && b.pel.Keys != {}
      && (Trimmed(b, Oldest(b.pel)) ||
          (Stale(b, Oldest(b.pel), minIdle) && b.pel[Oldest(b.pel)].times <= cfg.maxDeliveries))
    case Ack(_, ids) => ids * b.pel.Keys != {}
    case Park(_, m, _, _) => m.id in b.pel
    case _ => false
  }

  // --------------------------------------------------------- every step but Publish

  lemma SmallerKeys(x: set<nat>, y: set<nat>)
    requires x <= y
    ensures |x| <= |y| && (|x| == |y| ==> x == y)
  {
    assert y == x + (y - x);
  }

  lemma OldestUnchanged(p: map<nat, Pending>, q: map<nat, Pending>)
    requires p.Keys != {} && p.Keys <= q.Keys && forall id :: id in q.Keys - p.Keys ==> Oldest(p) <= id
    ensures Oldest(q) == Oldest(p)
  {
    assert Oldest(p) in q.Keys && (Oldest(q) in p.Keys || Oldest(q) in q.Keys - p.Keys);
  }

  /** Reading gives exactly the ids of one range a slot, and leaves every other slot alone. */
  lemma ReadSlots(b: Broker, w: string, count: nat)
    requires StreamOk(b) && PelOk(b) && b.grouped && UnreadCount(b) > 0
    ensures var c, lo, hi := XReadGroup(b, w, count), Head(b), ReadTo(b, count);
            && lo < hi && c.cursor == hi
            && c.pel.Keys == b.pel.Keys + Range(lo, hi)
            && (forall id :: id in b.pel ==> c.pel[id] == b.pel[id] && id <= lo)
            && (forall id :: id in Range(lo, hi) ==> c.pel[id] == Pending(w, 1, b.clock))
  {
    var c, lo, hi := XReadGroup(b, w, count), Head(b), ReadTo(b, count);
    assert lo < hi && forall id :: id in b.pel ==> id <= lo;
    hide PelOk, StreamOk, UnreadCount, Head, ReadTo;
    assert c.pel == b.pel + (map id | id in Range(lo, hi) :: Pending(w, 1, b.clock));
    hide XReadGroup, Range;
  }

  lemma ReadShape(b: Broker, w: string, count: nat)
    requires StreamOk(b) && PelOk(b) && b.grouped && UnreadCount(b) > 0
    ensures var c := XReadGroup(b, w, count);
            && Backlog(c) == Backlog(b) && UnreadCount(c) < UnreadCount(b)
            && c.pel.Keys != {} && b.pel.Keys <= c.pel.Keys
            && (forall id :: id in b.pel ==> c.pel[id] == b.pel[id] && id <= Head(b))
            && (forall id :: id in c.pel.Keys - b.pel.Keys ==> Head(b) < id && c.pel[id].times == 1)
  {
    ReadSlots(b, w, count);
    var c := XReadGroup(b, w, count);
    var lo, hi := Head(b), ReadTo(b, count);
    hide PelOk;
    assert b.pel.Keys !! Range(lo, hi);
    assert |c.pel.Keys| == |b.pel.Keys| + (hi - lo);
    assert hi in Range(lo, hi);
  }

  lemma NothingToRead(b: Broker, w: string, count: nat)
    requires !b.grouped || UnreadCount(b) == 0
    ensures XReadGroup(b, w, count) == b
  {
  }

  lemma Parts(b: Broker)
    requires WellFormed(b)
    ensures StreamOk(b) && PelOk(b)
  {
  }

  lemma ReadLowers(cfg: Settings, b: Broker, w: string, count: nat)
    requires WellFormed(b)
    ensures var c := XReadGroup(b, w, count);
            if b.grouped && UnreadCount(b) > 0 then Below(MeasureOf(cfg, c), MeasureOf(cfg, b))
            else MeasureOf(cfg, c) == MeasureOf(cfg, b)
  {
    hide XReadGroup, Backlog, UnreadCount, WellFormed;
    var c := XReadGroup(b, w, count);
    if !b.grouped || UnreadCount(b) == 0 {
      assert c == b by { NothingToRead(b, w, count); }
    } else {
      assert StreamOk(b) && PelOk(b) by { Parts(b); }
      ReadShape(b, w, count);
      if b.pel.Keys != {} {
        OldestUnchanged(b.pel, c.pel);
      } else {
        assert Oldest(c.pel) in c.pel.Keys - b.pel.Keys;
      }
    }
  }

  lemma {:induction false} ScanFindsOldest(b: Broker, from: nat, minIdle: nat, count: nat, scan: nat)
    requires WellFormed(b) && b.pel.Keys != {} && from <= Oldest(b.pel) && count > 0 && scan > 0
    ensures var r := Scan(b, from, minIdle, count, scan);
            && (Trimmed(b, Oldest(b.pel)) ==> Oldest(b.pel) in r.deleted)
            && (!Trimmed(b, Oldest(b.pel)) && Stale(b, Oldest(b.pel), minIdle) ==> Oldest(b.pel) in r.claimed)
    decreases |b.published| + 1 - from
  {
    if from < Oldest(b.pel) {
      ScanFindsOldest(b, from + 1, minIdle, count, scan);
    }
  }

  /** What claiming does to the pending list: the deleted go, the rest stay and never count down. */
  lemma ClaimShape(b: Broker, w: string, minIdle: nat, count: nat, scan: nat)
    requires WellFormed(b)
    ensures var c, r := XAutoClaim(b, w, minIdle, count, scan), Claimable(b, minIdle, count, scan);
            && c.pel.Keys == b.pel.Keys - Ids(r.deleted)
            && Ids(r.deleted) <= b.pel.Keys
            && (forall id :: id in c.pel ==> c.pel[id].times == b.pel[id].times + (if id in Ids(r.claimed) then 1 else 0))
  {
    ScanFacts(b, 1, minIdle, count, scan);
  }

  /** Slots go away or count up, so fewer are left or the oldest has no more deliveries left. */
  lemma SlotsLower(p: map<nat, Pending>, q: map<nat, Pending>, claimed: set<nat>, deleted: set<nat>, max: nat)
    requires q.Keys == p.Keys - deleted
    requires forall id :: id in q ==> q[id].times == p[id].times + (if id in claimed then 1 else 0)
    ensures |q.Keys| < |p.Keys| || (q.Keys == p.Keys && Left(q, max) <= Left(p, max))
    ensures deleted * p.Keys != {} ==> |q.Keys| < |p.Keys|
    ensures p.Keys != {} && Oldest(p) in claimed && p[Oldest(p)].times <= max ==>
              |q.Keys| < |p.Keys| || (q.Keys == p.Keys && Left(q, max) < Left(p, max))
  {
    SmallerKeys(q.Keys, p.Keys);
    if q.Keys == p.Keys && p.Keys != {} {
      OldestUnchanged(p, q);
    }
    if deleted * p.Keys != {} {
      var id :| id in deleted * p.Keys;
      assert id in p.Keys && id !in q.Keys;
    }
  }

  lemma ClaimLowers(cfg: Settings, b: Broker, w: string, minIdle: nat, count: nat, scan: nat)
    requires WellFormed(b)
    ensures var c, a := XAutoClaim(b, w, minIdle, count, scan), Claim(w, minIdle, count, scan, true);
            AtMost(MeasureOf(cfg, c), MeasureOf(cfg, b)) &&
            (Productive(cfg, b, a) ==> Below(MeasureOf(cfg, c), MeasureOf(cfg, b)))
  {
    hide XAutoClaim, WellFormed, UnreadCount, Claimable, Ids;
    var c, r := XAutoClaim(b, w, minIdle, count, scan), Claimable(b, minIdle, count, scan);
    assert UnreadCount(c) == UnreadCount(b) by { ClaimReadsNothing(b, w, minIdle, count, scan); }
    ClaimShape(b, w, minIdle, count, scan);
    SlotsLower(b.pel, c.pel, Ids(r.claimed), Ids(r.deleted), cfg.maxDeliveries);
    if Productive(cfg, b, Claim(w, minIdle, count, scan, true)) {
      FoundOldest(b, minIdle, count, scan);
      if Trimmed(b, Oldest(b.pel)) { assert Oldest(b.pel) in Ids(r.deleted) * b.pel.Keys; }
    }
  }

  lemma ClaimReadsNothing(b: Broker, w: string, minIdle: nat, count: nat, scan: nat)
    ensures UnreadCount(XAutoClaim(b, w, minIdle, count, scan)) == UnreadCount(b)
  {
  }

  lemma FoundOldest(b: Broker, minIdle: nat, count: nat, scan: nat)
    requires WellFormed(b) && b.grouped && b.pel.Keys != {} && count > 0 && scan > 0
    ensures var r := Claimable(b, minIdle, count, scan);
            && (Trimmed(b, Oldest(b.pel)) ==> Oldest(b.pel) in Ids(r.deleted))
            && (!Trimmed(b, Oldest(b.pel)) && Stale(b, Oldest(b.pel), minIdle) ==> Oldest(b.pel) in Ids(r.claimed))
  {
    ScanFindsOldest(b, 1, minIdle, count, scan);
  }

  lemma AckLowers(cfg: Settings, b: Broker, ids: set<nat>)
    ensures var c := XAck(b, ids);
            if ids * b.pel.Keys != {} then Below(MeasureOf(cfg, c), MeasureOf(cfg, b))
            else MeasureOf(cfg, c) == MeasureOf(cfg, b)
  {
    var c := XAck(b, ids);
    if ids * b.pel.Keys == {} {
      forall id | id in b.pel ensures id !in ids {
        assert id !in ids * b.pel.Keys;
      }
      assert c.pel == b.pel;
    } else {
      var id :| id in ids * b.pel.Keys;
      SmallerKeys(c.pel.Keys, b.pel.Keys);
      assert id in b.pel.Keys && id !in c.pel.Keys;
    }
  }

  /** Nobody but a producer can raise the measure, and a productive step lowers it. */
  lemma StepLowers(cfg: Settings, b: Broker, a: Action)
    requires WellFormed(b) && !a.Publish?
    ensures AtMost(MeasureOf(cfg, BrokerAfter(cfg, b, a)), MeasureOf(cfg, b))
    ensures Productive(cfg, b, a) ==> Below(MeasureOf(cfg, BrokerAfter(cfg, b, a)), MeasureOf(cfg, b))
  {
    hide WellFormed, MeasureOf, XAck, XReadGroup, XAutoClaim, XPark;
    match a
    case Read(w, count, _) => ReadLowers(cfg, b, w, count);
    case Claim(w, minIdle, count, scan, _) => ClaimLowers(cfg, b, w, minIdle, count, scan);
    case Ack(_, ids) => AckLowers(cfg, b, ids);
    case Park(_, m, reason, wish) =>
      ParkIsAck(cfg, b, m, reason, wish);
      AckLowers(cfg, b, {m.id});
      assert m.id in b.pel ==> m.id in {m.id} * b.pel.Keys;
    case Tick(ms) => TickIsNothing(cfg, b, ms);
    case EnsureGroup => GroupIsNothing(cfg, b);
    case _ =>
  }

  lemma TickIsNothing(cfg: Settings, b: Broker, ms: nat)
    ensures MeasureOf(cfg, b.(clock := b.clock + ms)) == MeasureOf(cfg, b)
  {
  }

  lemma GroupIsNothing(cfg: Settings, b: Broker)
    ensures MeasureOf(cfg, XGroupCreate(b)) == MeasureOf(cfg, b)
  {
  }

  lemma ParkIsAck(cfg: Settings, b: Broker, m: Message, reason: Reason, wish: nat)
    ensures MeasureOf(cfg, XPark(b, m, reason, wish, cfg.maxLen)) == MeasureOf(cfg, XAck(b, {m.id}))
  {
  }

  // ------------------------------------------------------------------- whole runs

  /** The measure as one number, for backlogs of at most `cap`. */
  function Number(m: Measure, maxDeliveries: nat, cap: nat): nat {
    (m.backlog * (maxDeliveries + 2) + m.left) * (cap + 1) + m.unread
  }

  ghost predicate Sane(m: Measure, maxDeliveries: nat, cap: nat) {
    m.unread <= m.backlog <= cap && m.left <= maxDeliveries + 1
  }

  lemma Lexicographic(x: nat, y: nat, p: nat, q: nat, k: nat)
    requires x < y && p < k
    ensures x * k + p < y * k + q
  {
    Scaled(x + 1, y, k);
    assert (x + 1) * k == x * k + k;
  }

  lemma NumberDrops(x: Measure, y: Measure, maxDeliveries: nat, cap: nat)
    requires Sane(x, maxDeliveries, cap) && Sane(y, maxDeliveries, cap) && Below(x, y)
    ensures Number(x, maxDeliveries, cap) < Number(y, maxDeliveries, cap)
  {
    var k := maxDeliveries + 2;
    var a, b := x.backlog * k + x.left, y.backlog * k + y.left;
    if x.backlog < y.backlog {
      Lexicographic(x.backlog, y.backlog, x.left, y.left, k);
    }
    if a < b {
      Lexicographic(a, b, x.unread, y.unread, cap + 1);
    }
  }

  lemma Scaled(a: nat, b: nat, k: nat)
    requires a <= b
    ensures a * k <= b * k
  {
    assert b * k == a * k + (b - a) * k;
  }

  /** How many productive steps the backlog can absorb at most. */
  ghost function Rank(cfg: Settings, b: Broker, cap: nat): nat {
    Number(MeasureOf(cfg, b), cfg.maxDeliveries, cap)
  }

  lemma PelIsSane(cfg: Settings, b: Broker, cap: nat)
    requires WellFormed(b) && Backlog(b) <= cap
    ensures Sane(MeasureOf(cfg, b), cfg.maxDeliveries, cap)
  {
  }

  ghost predicate NoPublish(run: seq<Action>) {
    forall i :: 0 <= i < |run| ==> !run[i].Publish?
  }

  ghost function ProductiveSteps(cfg: Settings, s: Sys, run: seq<Action>): nat {
    if run == [] then 0
    else
      var before := run[..|run| - 1];
      ProductiveSteps(cfg, s, before) +
      (if Productive(cfg, Exec(cfg, s, before).broker, run[|run| - 1]) then 1 else 0)
  }

  ghost predicate ProductiveStep(cfg: Settings, s: Sys, run: seq<Action>, i: nat)
    requires i < |run|
  {
    Productive(cfg, Exec(cfg, s, run[..i]).broker, run[i])
  }

  ghost function ProductiveAt(cfg: Settings, s: Sys, run: seq<Action>): set<nat> {
    set i: nat | i < |run| && ProductiveStep(cfg, s, run, i)
  }

  lemma ProductiveBefore(cfg: Settings, s: Sys, run: seq<Action>, i: nat)
    requires i < |run| - 1
    ensures ProductiveStep(cfg, s, run[..|run| - 1], i) <==> ProductiveStep(cfg, s, run, i)
  {
    hide Exec, Productive;
    assert run[..|run| - 1][..i] == run[..i];
  }

  lemma LastProductive(cfg: Settings, s: Sys, run: seq<Action>)
    requires run != []
    ensures ProductiveSteps(cfg, s, run) ==
            ProductiveSteps(cfg, s, run[..|run| - 1]) + if ProductiveStep(cfg, s, run, |run| - 1) then 1 else 0
  {
    hide Exec, Productive;
  }

  lemma NothingProductive(cfg: Settings, s: Sys)
    ensures ProductiveSteps(cfg, s, []) == 0 && ProductiveAt(cfg, s, []) == {}
  {
  }

  lemma {:induction false} StepsAreCounted(cfg: Settings, s: Sys, run: seq<Action>)
    ensures ProductiveSteps(cfg, s, run) == |ProductiveAt(cfg, s, run)|
    decreases |run|
  {
    hide Exec, ProductiveStep, ProductiveSteps;
    if run == [] {
      NothingProductive(cfg, s);
    } else {
      var n: nat := |run| - 1;
      StepsAreCounted(cfg, s, run[..n]);
      LastProductive(cfg, s, run);
      forall i: nat | i < n ensures ProductiveStep(cfg, s, run[..n], i) <==> ProductiveStep(cfg, s, run, i) {
        ProductiveBefore(cfg, s, run, i);
      }
      assert ProductiveAt(cfg, s, run) ==
             ProductiveAt(cfg, s, run[..n]) + (if ProductiveStep(cfg, s, run, n) then {n} else {});
    }
  }

  /**
    Over any legal run without publications, by any number of workers and with any faults,
    every productive step takes one off a bound that nothing raises again.
   */
  lemma {:induction false} DrainBound(cfg: Settings, s: Sys, run: seq<Action>, cap: nat)
    requires Inv(cfg, s) && LegalRun(cfg, s, run) && NoPublish(run) && Backlog(s.broker) <= cap
    ensures Inv(cfg, Exec(cfg, s, run)) && Backlog(Exec(cfg, s, run).broker) <= Backlog(s.broker)
    ensures ProductiveSteps(cfg, s, run) + Rank(cfg, Exec(cfg, s, run).broker, cap) <= Rank(cfg, s.broker, cap)
    decreases |run|
  {
    if run != [] {
      var before, a := run[..|run| - 1], run[|run| - 1];
      DrainBound(cfg, s, before, cap);
      var t := Exec(cfg, s, before);
      StepKeepsInv(cfg, t, a);
      StepLowersRank(cfg, t.broker, a, cap);
      assert Exec(cfg, s, run).broker == BrokerAfter(cfg, t.broker, a);
    }
  }

  lemma StepLowersRank(cfg: Settings, b: Broker, a: Action, cap: nat)
    requires WellFormed(b) && WellFormed(BrokerAfter(cfg, b, a)) && !a.Publish? && Backlog(b) <= cap
    ensures var c := BrokerAfter(cfg, b, a);
            && Backlog(c) <= Backlog(b)
            && (if Productive(cfg, b, a) then 1 else 0) + Rank(cfg, c, cap) <= Rank(cfg, b, cap)
  {
    var c := BrokerAfter(cfg, b, a);
    StepLowers(cfg, b, a);
    PelIsSane(cfg, b, cap);
    PelIsSane(cfg, c, cap);
    if MeasureOf(cfg, c) != MeasureOf(cfg, b) {
      NumberDrops(MeasureOf(cfg, c), MeasureOf(cfg, b), cfg.maxDeliveries, cap);
    }
  }

  // ------------------------------------------------------------------- the rounds

  lemma GrowRun(cfg: Settings, s: Sys, run: seq<Action>, a: Action)
    ensures Exec(cfg, s, run + [a]) == Apply(cfg, Exec(cfg, s, run), a)
    ensures LegalRun(cfg, s, run + [a]) <==> LegalRun(cfg, s, run) && Legal(cfg, Exec(cfg, s, run), a)
    ensures ProductiveSteps(cfg, s, run + [a]) ==
            ProductiveSteps(cfg, s, run) + (if Productive(cfg, Exec(cfg, s, run).broker, a) then 1 else 0)
  {
    ExecStep(cfg, s, run, a);
    assert (run + [a])[..|run|] == run;
  }

  lemma {:induction false} ProductiveSplit(cfg: Settings, s: Sys, xs: seq<Action>, ys: seq<Action>)
    ensures ProductiveSteps(cfg, s, xs + ys) ==
            ProductiveSteps(cfg, s, xs) + ProductiveSteps(cfg, Exec(cfg, s, xs), ys)
    decreases |ys|
  {
    if ys == [] {
      assert xs + ys == xs;
    } else {
      hide Apply, Productive, LegalRun, Exec, ProductiveSteps;
      var zs, a := ys[..|ys| - 1], ys[|ys| - 1];
      assert zs + [a] == ys;
      assert xs + ys == (xs + zs) + [a];
      ProductiveSplit(cfg, s, xs, zs);
      ExecSplit(cfg, s, xs, zs);
      GrowRun(cfg, s, xs + zs, a);
      GrowRun(cfg, Exec(cfg, s, xs), zs, a);
    }
  }

  lemma SingleStep(cfg: Settings, s: Sys, a: Action)
    ensures Exec(cfg, s, [a]) == Apply(cfg, s, a)
    ensures LegalRun(cfg, s, [a]) <==> Legal(cfg, s, a)
    ensures ProductiveSteps(cfg, s, [a]) == if Productive(cfg, s.broker, a) then 1 else 0
  {
    GrowRun(cfg, s, [], a);
    assert [] + [a] == [a];
  }

  /** Too little time has passed for any claim in the run to reach a slot touched at `since`. */
  ghost predicate TooSoon(cfg: Settings, s: Sys, run: seq<Action>, since: nat)
    decreases |run|
  {
    run == [] ||
    (var before, a := run[..|run| - 1], run[|run| - 1];
     TooSoon(cfg, s, before, since) && (a.Claim? ==> Exec(cfg, s, before).broker.clock < since + a.minIdle))
  }

  /** The oldest pending entry is `id` and its slot is `slot`. */
  ghost predicate OldestSlot(b: Broker, id: nat, slot: Pending) {
    id in b.pel && b.pel[id] == slot && Oldest(b.pel) == id
  }

  /** A step that cannot reclaim the oldest entry gets something done or leaves its slot alone. */
  lemma SlotStep(cfg: Settings, b: Broker, a: Action, id: nat, slot: Pending)
    requires WellFormed(b) && OldestSlot(b, id, slot)
    requires a.Claim? ==> b.clock < slot.since + a.minIdle
    ensures Productive(cfg, b, a) || OldestSlot(BrokerAfter(cfg, b, a), id, slot)
  {
    if !Productive(cfg, b, a) {
      match a
      case Read(w, count, _) =>
      case Claim(w, minIdle, count, scan, _) => UnclaimedStays(cfg, b, w, minIdle, count, scan, id, slot);
      case Ack(_, ids) =>
        assert id !in ids * b.pel.Keys;
        assert (b.pel - ids).Keys <= b.pel.Keys && id in b.pel - ids;
      case Park(_, m, _, _) =>
        assert (b.pel - {m.id}).Keys <= b.pel.Keys && id in b.pel - {m.id};
      case _ =>
    }
  }

  lemma UnclaimedStays(cfg: Settings, b: Broker, w: string, minIdle: nat, count: nat, scan: nat, id: nat, slot: Pending)
    requires WellFormed(b) && OldestSlot(b, id, slot) && b.clock < slot.since + minIdle
    requires !Productive(cfg, b, Claim(w, minIdle, count, scan, true))
    ensures OldestSlot(XAutoClaim(b, w, minIdle, count, scan), id, slot)
  {
    var r := Claimable(b, minIdle, count, scan);
    ScanFacts(b, 1, minIdle, count, scan);
    assert id !in Ids(r.claimed);
    assert id !in Ids(r.deleted);
    ClaimShape(b, w, minIdle, count, scan);
  }

  lemma {:induction false} SlotStays(cfg: Settings, s: Sys, run: seq<Action>, id: nat, slot: Pending)
    requires Inv(cfg, s) && LegalRun(cfg, s, run) && OldestSlot(s.broker, id, slot) && TooSoon(cfg, s, run, slot.since)
    ensures ProductiveSteps(cfg, s, run) >= 1 || OldestSlot(Exec(cfg, s, run).broker, id, slot)
    decreases |run|
  {
    if run != [] {
      var before, a := run[..|run| - 1], run[|run| - 1];
      SlotStays(cfg, s, before, id, slot);
      RunKeepsInv(cfg, s, before);
      var t := Exec(cfg, s, before);
      assert Exec(cfg, s, run).broker == BrokerAfter(cfg, t.broker, a);
      hide Inv, Exec, LegalRun, BrokerAfter, Productive;
      if OldestSlot(t.broker, id, slot) {
        StillWellFormed(cfg, t);
        SlotStep(cfg, t.broker, a, id, slot);
      }
    }
  }

  lemma StillWellFormed(cfg: Settings, s: Sys)
    requires Inv(cfg, s)
    ensures WellFormed(s.broker)
  {
  }

  /**
    A reclaim round of one worker: claim from "0-0", ask for the counts, dead-letter the oldest
    message if its count is above the limit. `early` and `middle` are what everybody else, and
    the worker's own other tasks, do in between.
   */
  datatype Round = Round(worker: string, scan: nat, wish: nat, early: seq<Action>, middle: seq<Action>)

  ghost function ClaimOf(cfg: Settings, r: Round): Action {
    Claim(r.worker, cfg.minIdle, cfg.batchSize, r.scan, true)
  }

  ghost function ClaimedBy(cfg: Settings, s: Sys, r: Round): set<nat> {
    Ids(Claimable(s.broker, cfg.minIdle, cfg.batchSize, r.scan).claimed)
  }

  ghost function AtCount(cfg: Settings, s: Sys, r: Round): Sys {
    Exec(cfg, Apply(cfg, s, ClaimOf(cfg, r)), r.early)
  }

  ghost function Counting(cfg: Settings, s: Sys, r: Round): Sys {
    Apply(cfg, AtCount(cfg, s, r), Count(r.worker, ClaimedBy(cfg, s, r)))
  }

  ghost function AtPark(cfg: Settings, s: Sys, r: Round): Sys {
    Exec(cfg, Counting(cfg, s, r), r.middle)
  }

  /** The oldest message, if the round claimed it and its reported count is above the limit. */
  ghost function Exhausted(cfg: Settings, s: Sys, r: Round): Option<Message>
    requires s.broker.pel.Keys != {}
  {
    var ids, c, id := ClaimedBy(cfg, s, r), AtCount(cfg, s, r).broker, Oldest(s.broker.pel);
    if id in ids && IsEntry(c, id) && ReportedCount(c, r.worker, |ids|, id) > cfg.maxDeliveries
    then Some(Message(id, Payload(c, id), ReportedCount(c, r.worker, |ids|, id)))
    else None
  }

  ghost function Verdict(cfg: Settings, s: Sys, r: Round): seq<Action>
    requires s.broker.pel.Keys != {}
  {
    var m := Exhausted(cfg, s, r);
    if m.Some? then [Park(r.worker, m.value, ExceededDeliveries, r.wish)] else []
  }

  ghost function RoundRun(cfg: Settings, s: Sys, r: Round): seq<Action>
    requires s.broker.pel.Keys != {}
  {
    [ClaimOf(cfg, r)] + (r.early + ([Count(r.worker, ClaimedBy(cfg, s, r))] + (r.middle + Verdict(cfg, s, r))))
  }

  /**
    What a round asks of the others: they take legal steps, publish nothing, and do not claim
    again what was claimed at `since`; and the worker itself lives on.
   */
  ghost predicate GapOk(cfg: Settings, s: Sys, run: seq<Action>, worker: string, since: nat) {
    LegalRun(cfg, s, run) && NoPublish(run) && TooSoon(cfg, s, run, since) && Crash(worker) !in run
  }

  ghost predicate RoundOk(cfg: Settings, s: Sys, r: Round) {
    && r.scan > 0
    && GapOk(cfg, Apply(cfg, s, ClaimOf(cfg, r)), r.early, r.worker, s.broker.clock)
    && GapOk(cfg, Counting(cfg, s, r), r.middle, r.worker, s.broker.clock)
  }

  /** The oldest entry can be handled now: it is idle for long enough, or it was trimmed. */
  ghost predicate OldestIsDue(cfg: Settings, b: Broker) {
    && b.grouped && b.pel.Keys != {}
    && (Trimmed(b, Oldest(b.pel)) || Stale(b, Oldest(b.pel), cfg.minIdle))
  }

  lemma RoundParts(cfg: Settings, s: Sys, r: Round)
    requires s.broker.pel.Keys != {}
    ensures ProductiveSteps(cfg, s, RoundRun(cfg, s, r)) ==
            (if Productive(cfg, s.broker, ClaimOf(cfg, r)) then 1 else 0)
            + ProductiveSteps(cfg, Apply(cfg, s, ClaimOf(cfg, r)), r.early)
            + ProductiveSteps(cfg, Counting(cfg, s, r), r.middle)
            + ProductiveSteps(cfg, AtPark(cfg, s, r), Verdict(cfg, s, r))
    ensures LegalRun(cfg, s, RoundRun(cfg, s, r)) <==>
            && LegalRun(cfg, Apply(cfg, s, ClaimOf(cfg, r)), r.early)
            && Legal(cfg, AtCount(cfg, s, r), Count(r.worker, ClaimedBy(cfg, s, r)))
            && LegalRun(cfg, Counting(cfg, s, r), r.middle)
            && LegalRun(cfg, AtPark(cfg, s, r), Verdict(cfg, s, r))
    ensures Exec(cfg, s, RoundRun(cfg, s, r)) == Exec(cfg, AtPark(cfg, s, r), Verdict(cfg, s, r))
  {
    hide Exec, LegalRun, ProductiveSteps, Apply, ClaimedBy, Verdict, Productive;
    var claim, count, v := ClaimOf(cfg, r), Count(r.worker, ClaimedBy(cfg, s, r)), Verdict(cfg, s, r);
    var s1, s2, s3 := Apply(cfg, s, claim), AtCount(cfg, s, r), Counting(cfg, s, r);
    assert Legal(cfg, s, claim) && !Productive(cfg, s2.broker, count) by { CountDoesNothing(cfg, s2.broker, count); }
    SingleStep(cfg, s, claim);
    SingleStep(cfg, s2, count);
    ExecSplit(cfg, s3, r.middle, v);
    ProductiveSplit(cfg, s3, r.middle, v);
    ExecSplit(cfg, s2, [count], r.middle + v);
    ProductiveSplit(cfg, s2, [count], r.middle + v);
    ExecSplit(cfg, s1, r.early, [count] + (r.middle + v));
    ProductiveSplit(cfg, s1, r.early, [count] + (r.middle + v));
    ExecSplit(cfg, s, [claim], r.early + ([count] + (r.middle + v)));
    ProductiveSplit(cfg, s, [claim], r.early + ([count] + (r.middle + v)));
  }

  lemma CountDoesNothing(cfg: Settings, b: Broker, a: Action)
    requires a.Count?
    ensures !Productive(cfg, b, a)
  {
  }

  lemma VerdictOf(cfg: Settings, s: Sys, r: Round)
    requires s.broker.pel.Keys != {} && Exhausted(cfg, s, r).Some?
    ensures var m := Exhausted(cfg, s, r).value;
            && Verdict(cfg, s, r) == [Park(r.worker, m, ExceededDeliveries, r.wish)]
            && m.id == Oldest(s.broker.pel) && m.deliveryCount > cfg.maxDeliveries
            && m in MemoryOf(Counting(cfg, s, r), r.worker).held
  {
    var c := AtCount(cfg, s, r);
    hide Exec, AtCount;
    var m := Exhausted(cfg, s, r).value;
    assert m in CountedMessages(c.broker, r.worker, ClaimedBy(cfg, s, r));
  }

  /** Whatever the others do in its gaps, the round is legal. */
  lemma RoundIsLegal(cfg: Settings, s: Sys, r: Round)
    requires s.broker.pel.Keys != {} && RoundOk(cfg, s, r)
    ensures LegalRun(cfg, s, RoundRun(cfg, s, r)) && NoPublish(RoundRun(cfg, s, r))
  {
    hide Exec, LegalRun, ProductiveSteps, Productive, TooSoon, Exhausted, RoundRun;
    RoundParts(cfg, s, r);
    ClaimLearns(cfg, s, r);
    RunRemembers(cfg, Apply(cfg, s, ClaimOf(cfg, r)), r.early, r.worker);
    RoundPublishesNothing(cfg, s, r);
    if Exhausted(cfg, s, r).Some? {
      VerdictOf(cfg, s, r);
      RunRemembers(cfg, Counting(cfg, s, r), r.middle, r.worker);
      SingleStep(cfg, AtPark(cfg, s, r), Park(r.worker, Exhausted(cfg, s, r).value, ExceededDeliveries, r.wish));
    } else {
      assert LegalRun(cfg, AtPark(cfg, s, r), []) by { EmptyRun(cfg, AtPark(cfg, s, r)); }
    }
  }

  lemma EmptyRun(cfg: Settings, s: Sys)
    ensures LegalRun(cfg, s, []) && Exec(cfg, s, []) == s && ProductiveSteps(cfg, s, []) == 0
  {
  }

  lemma ClaimLearns(cfg: Settings, s: Sys, r: Round)
    ensures ClaimedBy(cfg, s, r) <= MemoryOf(Apply(cfg, s, ClaimOf(cfg, r)), r.worker).claimed
  {
  }

  lemma RoundPublishesNothing(cfg: Settings, s: Sys, r: Round)
    requires s.broker.pel.Keys != {} && NoPublish(r.early) && NoPublish(r.middle)
    ensures NoPublish(RoundRun(cfg, s, r))
  {
    hide Exhausted, ClaimedBy;
    forall a | a in RoundRun(cfg, s, r) ensures !a.Publish? {
      assert a in r.early || a in r.middle || a.Claim? || a.Count? || a.Park?;
    }
  }

  /** If the claim gets nothing done, it took the oldest entry for one delivery too many. */
  lemma ClaimTakesOldest(cfg: Settings, s: Sys, r: Round)
    requires WellFormed(s.broker) && OldestIsDue(cfg, s.broker) && cfg.batchSize > 0 && r.scan > 0
    requires !Productive(cfg, s.broker, ClaimOf(cfg, r))
    ensures var id, c := Oldest(s.broker.pel), Apply(cfg, s, ClaimOf(cfg, r)).broker;
            && id in ClaimedBy(cfg, s, r) && s.broker.pel[id].times > cfg.maxDeliveries
            && OldestSlot(c, id, Pending(r.worker, s.broker.pel[id].times + 1, s.broker.clock))
  {
    var b, id := s.broker, Oldest(s.broker.pel);
    ScanFindsOldest(b, 1, cfg.minIdle, cfg.batchSize, r.scan);
    ClaimShape(b, r.worker, cfg.minIdle, cfg.batchSize, r.scan);
    ScanFacts(b, 1, cfg.minIdle, cfg.batchSize, r.scan);
    assert id !in Ids(Claimable(b, cfg.minIdle, cfg.batchSize, r.scan).deleted);
  }

  /** An oldest entry that its counter still owns is counted exactly. */
  lemma OldestIsCounted(b: Broker, w: string, asked: nat, id: nat, slot: Pending)
    requires WellFormed(b) && OldestSlot(b, id, slot) && slot.owner == w && slot.times >= 2 && asked > 0
    ensures IsEntry(b, id) && ReportedCount(b, w, asked, id) == slot.times
  {
    assert OwnedBetween(b, w, 1, id) == {};
    ReportedExactly(b, w, asked, id);
  }

  /**
    A reclaim round whose oldest pending entry is due always gets something done, whatever others
    do in its gaps: the claim itself, one of their steps, or the dead letter.
   */
  lemma RoundIsProductive(cfg: Settings, s: Sys, r: Round)
    requires Inv(cfg, s) && OldestIsDue(cfg, s.broker) && cfg.batchSize > 0 && RoundOk(cfg, s, r)
    ensures LegalRun(cfg, s, RoundRun(cfg, s, r)) && NoPublish(RoundRun(cfg, s, r))
    ensures ProductiveSteps(cfg, s, RoundRun(cfg, s, r)) >= 1
  {
    hide RoundRun, Exec, LegalRun, ProductiveSteps, Productive, Apply, Inv, RoundOk, Verdict, WellFormed;
    hide OldestSlot, ClaimedBy, AtCount, Counting, AtPark, Trimmed;
    assert r.scan > 0 by { RoundScans(cfg, s, r); }
    RoundIsLegal(cfg, s, r);
    RoundParts(cfg, s, r);
    StillWellFormed(cfg, s);
    if !Productive(cfg, s.broker, ClaimOf(cfg, r)) {
      ClaimTakesOldest(cfg, s, r);
      var id := Oldest(s.broker.pel);
      SlotTimes(s.broker, id);
      LastDelivery(cfg, s, r, id, Pending(r.worker, s.broker.pel[id].times + 1, s.broker.clock));
    }
  }

  lemma RoundScans(cfg: Settings, s: Sys, r: Round)
    requires RoundOk(cfg, s, r)
    ensures r.scan > 0
  {
  }

  lemma SlotTimes(b: Broker, id: nat)
    requires WellFormed(b) && id in b.pel
    ensures b.pel[id].times >= 1
  {
  }

  /** The claim took the oldest entry, `id`, for one delivery too many. */
  ghost predicate TookLast(cfg: Settings, s: Sys, r: Round, id: nat, slot: Pending) {
    && s.broker.pel.Keys != {} && id == Oldest(s.broker.pel) && id in ClaimedBy(cfg, s, r)
    && slot.owner == r.worker && slot.since == s.broker.clock
    && slot.times > cfg.maxDeliveries && slot.times >= 2
    && OldestSlot(Apply(cfg, s, ClaimOf(cfg, r)).broker, id, slot)
  }

  lemma LastDelivery(cfg: Settings, s: Sys, r: Round, id: nat, slot: Pending)
    requires Inv(cfg, s) && RoundOk(cfg, s, r) && TookLast(cfg, s, r, id, slot)
    ensures ProductiveSteps(cfg, Apply(cfg, s, ClaimOf(cfg, r)), r.early) >= 1
            || ProductiveSteps(cfg, Counting(cfg, s, r), r.middle) >= 1
            || ProductiveSteps(cfg, AtPark(cfg, s, r), Verdict(cfg, s, r)) >= 1
  {
    hide Exec, LegalRun, ProductiveSteps, Productive, Apply, Inv, TooSoon, Verdict, Exhausted, ClaimedBy, OldestSlot;
    InvAtCount(cfg, s, r);
    SlotStays(cfg, Apply(cfg, s, ClaimOf(cfg, r)), r.early, id, slot);
    if OldestSlot(AtCount(cfg, s, r).broker, id, slot) {
      CountSees(cfg, s, r, id, slot);
      SlotStays(cfg, Counting(cfg, s, r), r.middle, id, slot);
      VerdictOf(cfg, s, r);
      if OldestSlot(AtPark(cfg, s, r).broker, id, slot) {
        assert id in AtPark(cfg, s, r).broker.pel by { SlotIsPending(AtPark(cfg, s, r).broker, id, slot); }
        ParkPays(cfg, AtPark(cfg, s, r), Exhausted(cfg, s, r).value, r);
      }
    }
  }

  lemma SlotIsPending(b: Broker, id: nat, slot: Pending)
    requires OldestSlot(b, id, slot)
    ensures id in b.pel
  {
  }

  lemma InvAtCount(cfg: Settings, s: Sys, r: Round)
    requires Inv(cfg, s) && RoundOk(cfg, s, r)
    ensures Inv(cfg, Apply(cfg, s, ClaimOf(cfg, r))) && Inv(cfg, AtCount(cfg, s, r)) && Inv(cfg, Counting(cfg, s, r))
  {
    hide Exec, LegalRun, Apply, Inv, TooSoon, ClaimedBy;
    assert Legal(cfg, s, ClaimOf(cfg, r));
    StepKeepsInv(cfg, s, ClaimOf(cfg, r));
    RunKeepsInv(cfg, Apply(cfg, s, ClaimOf(cfg, r)), r.early);
    ClaimLearns(cfg, s, r);
    RunRemembers(cfg, Apply(cfg, s, ClaimOf(cfg, r)), r.early, r.worker);
    StepKeepsInv(cfg, AtCount(cfg, s, r), Count(r.worker, ClaimedBy(cfg, s, r)));
  }

  lemma CountingIsReading(cfg: Settings, s: Sys, r: Round)
    ensures Counting(cfg, s, r).broker == AtCount(cfg, s, r).broker
  {
    hide Exec, AtCount;
  }

  /** While the slot is as the claim left it, the count is exact and above the limit. */
  lemma CountSees(cfg: Settings, s: Sys, r: Round, id: nat, slot: Pending)
    requires TookLast(cfg, s, r, id, slot) && Inv(cfg, AtCount(cfg, s, r))
    requires OldestSlot(AtCount(cfg, s, r).broker, id, slot)
    ensures Exhausted(cfg, s, r).Some? && Exhausted(cfg, s, r).value.id == id
    ensures OldestSlot(Counting(cfg, s, r).broker, id, slot)
  {
    hide Inv, Counting, Exec, Apply, AtCount, OldestSlot, ClaimedBy, WellFormed, ReportedCount;
    StillWellFormed(cfg, AtCount(cfg, s, r));
    CountingIsReading(cfg, s, r);
    assert ClaimedBy(cfg, s, r) != {};
    OldestIsCounted(AtCount(cfg, s, r).broker, r.worker, |ClaimedBy(cfg, s, r)|, id, slot);
  }

  lemma ParkPays(cfg: Settings, s: Sys, m: Message, r: Round)
    ensures m.id in s.broker.pel ==> ProductiveSteps(cfg, s, [Park(r.worker, m, ExceededDeliveries, r.wish)]) >= 1
  {
    SingleStep(cfg, s, Park(r.worker, m, ExceededDeliveries, r.wish));
  }

  // -------------------------------------------------------------------- it drains

  /**
    A turn of some worker: it reads while anything is unread, and otherwise waits for
    `reclaim_idle_ms` and makes a reclaim round; `late` is what happens until the next turn.
   */
  datatype Turn = Turn(round: Round, wait: nat, late: seq<Action>)

  ghost function TurnRun(cfg: Settings, s: Sys, t: Turn): seq<Action> {
    if UnreadCount(s.broker) > 0 then [Read(t.round.worker, cfg.batchSize, true)]
    else if s.broker.pel.Keys == {} then []
    else [Tick(t.wait)] + RoundRun(cfg, Apply(cfg, s, Tick(t.wait)), t.round)
  }

  /** What a turn asks: it waits long enough, and the others take legal steps and publish nothing. */
  ghost predicate TurnOk(cfg: Settings, s: Sys, t: Turn) {
    && t.wait >= cfg.minIdle
    && (UnreadCount(s.broker) == 0 && s.broker.pel.Keys != {} ==> RoundOk(cfg, Apply(cfg, s, Tick(t.wait)), t.round))
    && LegalRun(cfg, Exec(cfg, s, TurnRun(cfg, s, t)), t.late) && NoPublish(t.late)
  }

  ghost predicate TurnsOk(cfg: Settings, s: Sys, turns: seq<Turn>)
    decreases |turns|
  {
    turns == [] || (TurnOk(cfg, s, turns[0]) && TurnsOk(cfg, AfterTurn(cfg, s, turns[0]), turns[1..]))
  }

  ghost function AfterTurn(cfg: Settings, s: Sys, t: Turn): Sys {
    Exec(cfg, s, TurnRun(cfg, s, t) + t.late)
  }

  ghost function AfterTurns(cfg: Settings, s: Sys, turns: seq<Turn>): Sys
    decreases |turns|
  {
    if turns == [] then s else AfterTurns(cfg, AfterTurn(cfg, s, turns[0]), turns[1..])
  }

  /** While anything is left, reading or waiting and reclaiming is productive. */
  lemma ProgressIsPossible(cfg: Settings, s: Sys, w: string)
    requires Inv(cfg, s) && s.broker.grouped && Backlog(s.broker) > 0
    ensures UnreadCount(s.broker) == 0 ==> OldestIsDue(cfg, Apply(cfg, s, Tick(cfg.minIdle)).broker)
    ensures UnreadCount(s.broker) > 0 ==> Productive(cfg, s.broker, Read(w, cfg.batchSize, true))
  {
    assert UnreadCount(s.broker) == 0 ==> s.broker.pel.Keys != {};
  }

  /** Every turn that finds anything gets something done. */
  lemma TurnIsProductive(cfg: Settings, s: Sys, t: Turn)
    requires Inv(cfg, s) && s.broker.grouped && cfg.batchSize > 0 && TurnOk(cfg, s, t)
    ensures LegalRun(cfg, s, TurnRun(cfg, s, t)) && NoPublish(TurnRun(cfg, s, t))
    ensures Backlog(s.broker) > 0 ==> ProductiveSteps(cfg, s, TurnRun(cfg, s, t)) >= 1
  {
    hide RoundRun, Exec, LegalRun, ProductiveSteps, Inv, RoundOk;
    if UnreadCount(s.broker) > 0 {
      SingleStep(cfg, s, Read(t.round.worker, cfg.batchSize, true));
    } else if s.broker.pel.Keys != {} {
      WaitThenRound(cfg, s, t.wait, t.round);
    } else {
      EmptyRun(cfg, s);
    }
  }

  lemma WaitThenRound(cfg: Settings, s: Sys, wait: nat, r: Round)
    requires Inv(cfg, s) && s.broker.grouped && cfg.batchSize > 0 && wait >= cfg.minIdle && s.broker.pel.Keys != {}
    requires RoundOk(cfg, Apply(cfg, s, Tick(wait)), r)
    ensures var run := [Tick(wait)] + RoundRun(cfg, Apply(cfg, s, Tick(wait)), r);
            LegalRun(cfg, s, run) && NoPublish(run) && ProductiveSteps(cfg, s, run) >= 1
  {
    hide RoundRun, Exec, LegalRun, ProductiveSteps, Inv, RoundOk, Apply, OldestIsDue;
    var tick, u := Tick(wait), Apply(cfg, s, Tick(wait));
    WaitedEnough(cfg, s, wait);
    StepKeepsInv(cfg, s, tick);
    RoundIsProductive(cfg, u, r);
    SingleStep(cfg, s, tick);
    ExecSplit(cfg, s, [tick], RoundRun(cfg, u, r));
    ProductiveSplit(cfg, s, [tick], RoundRun(cfg, u, r));
  }

  lemma WaitedEnough(cfg: Settings, s: Sys, wait: nat)
    requires Inv(cfg, s) && s.broker.grouped && s.broker.pel.Keys != {} && wait >= cfg.minIdle
    ensures OldestIsDue(cfg, Apply(cfg, s, Tick(wait)).broker)
    ensures Apply(cfg, s, Tick(wait)).broker.pel == s.broker.pel
  {
    assert Apply(cfg, s, Tick(wait)).broker == s.broker.(clock := s.broker.clock + wait);
    assert s.broker.pel[Oldest(s.broker.pel)].since <= s.broker.clock;
  }

  lemma RankIsPositive(cfg: Settings, b: Broker, cap: nat)
    requires Backlog(b) > 0
    ensures Rank(cfg, b, cap) > 0
  {
    Scaled(1, Backlog(b), cfg.maxDeliveries + 2);
    var a := Backlog(b) * (cfg.maxDeliveries + 2) + Left(b.pel, cfg.maxDeliveries);
    Scaled(1, a, cap + 1);
  }

  lemma TurnLowersRank(cfg: Settings, s: Sys, t: Turn, cap: nat)
    requires Inv(cfg, s) && s.broker.grouped && cfg.batchSize > 0 && TurnOk(cfg, s, t) && Backlog(s.broker) <= cap
    ensures var u := AfterTurn(cfg, s, t);
            && Inv(cfg, u) && u.broker.grouped && Backlog(u.broker) <= Backlog(s.broker)
            && (Backlog(s.broker) > 0 ==> Rank(cfg, u.broker, cap) < Rank(cfg, s.broker, cap))
  {
    hide Exec, LegalRun, ProductiveSteps, Inv, TurnRun, Rank, Backlog;
    TurnIsProductive(cfg, s, t);
    var run := TurnRun(cfg, s, t) + t.late;
    ExecSplit(cfg, s, TurnRun(cfg, s, t), t.late);
    ProductiveSplit(cfg, s, TurnRun(cfg, s, t), t.late);
    assert NoPublish(run);
    DrainBound(cfg, s, run, cap);
    RunGrows(cfg, s, run);
  }

  lemma {:induction false} TurnsEmptyBacklog(cfg: Settings, s: Sys, turns: seq<Turn>, cap: nat)
    requires Inv(cfg, s) && s.broker.grouped && cfg.batchSize > 0 && TurnsOk(cfg, s, turns) && Backlog(s.broker) <= cap
    requires Backlog(s.broker) == 0 || |turns| >= Rank(cfg, s.broker, cap)
    ensures Inv(cfg, AfterTurns(cfg, s, turns)) && Backlog(AfterTurns(cfg, s, turns).broker) == 0
    decreases |turns|
  {
    hide Inv, Rank, Backlog, TurnOk, AfterTurn;
    if Backlog(s.broker) > 0 { RankIsPositive(cfg, s.broker, cap); }
    if turns != [] {
      TurnLowersRank(cfg, s, turns[0], cap);
      TurnsEmptyBacklog(cfg, AfterTurn(cfg, s, turns[0]), turns[1..], cap);
    }
  }

  /**
    The backlog drains: after as many turns as `Rank` says, of any workers, with any legal
    publication-free steps of the others within and between the turns, nothing is unread or
    pending and every published entry is stored, dead-lettered or trimmed.
   */
  lemma {:induction false} BacklogDrains(cfg: Settings, s: Sys, turns: seq<Turn>)
    requires Inv(cfg, s) && s.broker.grouped && cfg.batchSize > 0 && TurnsOk(cfg, s, turns)
    requires |turns| >= Rank(cfg, s.broker, Backlog(s.broker))
    ensures var t := AfterTurns(cfg, s, turns);
            Backlog(t.broker) == 0 && forall id: nat :: IsEntry(t.broker, id) ==> Settled(cfg, t, id)
  {
    TurnsEmptyBacklog(cfg, s, turns, Backlog(s.broker));
    DrainedIsSettled(cfg, AfterTurns(cfg, s, turns));
  }

  /** A turn nobody interrupts. */
  function QuietTurn(cfg: Settings, w: string, scan: nat, wish: nat): Turn {
    Turn(Round(w, scan, wish, [], []), cfg.minIdle, [])
  }

  lemma {:induction false} QuietTurnsOk(cfg: Settings, s: Sys, w: string, scan: nat, wish: nat, n: nat)
    requires scan > 0
    ensures TurnsOk(cfg, s, seq(n, _ => QuietTurn(cfg, w, scan, wish)))
    decreases n
  {
    hide TurnRun, Exec, AfterTurn, Apply, Counting;
    if n > 0 {
      var t := QuietTurn(cfg, w, scan, wish);
      assert seq(n, _ => t)[1..] == seq(n - 1, _ => t);
      QuietTurnsOk(cfg, AfterTurn(cfg, s, t), w, scan, wish, n - 1);
    }
  }

  /** So one worker alone drains any backlog it finds. */
  lemma {:induction false} OneWorkerDrains(cfg: Settings, s: Sys, w: string, scan: nat, wish: nat)
    requires Inv(cfg, s) && s.broker.grouped && cfg.batchSize > 0 && scan > 0
    ensures var t := AfterTurns(cfg, s, seq(Rank(cfg, s.broker, Backlog(s.broker)), _ => QuietTurn(cfg, w, scan, wish)));
            Backlog(t.broker) == 0 && forall id: nat :: IsEntry(t.broker, id) ==> Settled(cfg, t, id)
  {
    QuietTurnsOk(cfg, s, w, scan, wish, Rank(cfg, s.broker, Backlog(s.broker)));
    BacklogDrains(cfg, s, seq(Rank(cfg, s.broker, Backlog(s.broker)), _ => QuietTurn(cfg, w, scan, wish)));
  }

  lemma DrainedIsSettled(cfg: Settings, t: Sys)
    requires Inv(cfg, t) && Backlog(t.broker) == 0
    ensures forall id: nat :: IsEntry(t.broker, id) ==> Settled(cfg, t, id)
  {
    assert t.broker.pel.Keys == {};
    forall id: nat | IsEntry(t.broker, id) ensures Settled(cfg, t, id) {
      EntryIsSomewhere(cfg, t, id);
    }
  }

  // ------------------------------------------------------------- drain detection

  datatype QueueStats = QueueStats(length: nat, pending: nat, lag: nat, dlqLength: nat)

  /** `stats`: without the group, or with a lag that Redis cannot compute, the lag is reported as 0. */
  function StatsOf(b: Broker, rawLag: Option<nat>): QueueStats {
    QueueStats(Length(b),
               if b.grouped then |b.pel.Keys| else 0,
               if b.grouped && rawLag.Some? then rawLag.value else 0,
               |b.dlq|)
  }

  function Length(b: Broker): nat {
    if b.floor <= |b.published| then |b.published| - b.floor else 0
  }

  /**
    What Redis may answer: a number that covers every unread entry (entries trimmed before
    they were read may be counted too), or nothing once it has trimmed.
   */
  predicate PossibleLag(b: Broker, rawLag: Option<nat>) {
    if rawLag.Some? then UnreadCount(b) <= rawLag.value else b.floor > 0
  }

  predicate LooksDrained(q: QueueStats) {
    q.lag == 0 && q.pending == 0
  }

  lemma LooksDrainedIsSettled(cfg: Settings, s: Sys, rawLag: Option<nat>)
    requires Inv(cfg, s) && rawLag.Some? && s.broker.grouped && PossibleLag(s.broker, rawLag)
    requires StatsOf(s.broker, rawLag).pending == 0 && StatsOf(s.broker, rawLag).lag == 0
    ensures forall id: nat :: IsEntry(s.broker, id) ==> Settled(cfg, s, id)
  {
    DrainedIsSettled(cfg, s);
  }

  /** A snapshot that looks drained is drained when the group exists and Redis could compute the lag. */
  lemma {:induction false} DrainDetection(cfg: Settings, run: seq<Action>, rawLag: Option<nat>)
    requires LegalRun(cfg, INITIAL, run) && rawLag.Some?
    requires var b := Exec(cfg, INITIAL, run).broker;
             b.grouped && PossibleLag(b, rawLag) && LooksDrained(StatsOf(b, rawLag))
    ensures var s := Exec(cfg, INITIAL, run);
            forall id: nat :: IsEntry(s.broker, id) ==> Settled(cfg, s, id)
  {
    Reachable(cfg, run);
    DrainedIsSettled(cfg, Exec(cfg, INITIAL, run));
  }

  /** Looking drained implies being drained exactly when the group's lag was computed or nothing is unread. */
  lemma DrainDetectionIff(b: Broker, rawLag: Option<nat>)
    requires PossibleLag(b, rawLag) && b.pel.Keys == {}
    ensures (LooksDrained(StatsOf(b, rawLag)) ==> Backlog(b) == 0) <==>
            ((b.grouped && rawLag.Some?) || UnreadCount(b) == 0)
  {
  }

  lemma {:induction false} NothingStored(cfg: Settings, s: Sys, run: seq<Action>)
    requires forall a :: a in run ==> !a.Store?
    ensures Exec(cfg, s, run).table == s.table
    decreases |run|
  {
    if run != [] {
      NothingStored(cfg, s, run[..|run| - 1]);
    }
  }

  /** One publication before any worker has created the group. */
  function UngroupedRun(): seq<Action> {
    [Publish("a", 0)]
  }

  /** Under any settings a stream without its group looks drained, whatever it holds. */
  lemma MissingGroupLooksDrained(cfg: Settings, rawLag: Option<nat>)
    ensures LegalRun(cfg, INITIAL, UngroupedRun())
    ensures var s := Exec(cfg, INITIAL, UngroupedRun());
            && LooksDrained(StatsOf(s.broker, rawLag))
            && IsEntry(s.broker, 1) && 1 in Unread(s.broker) && !Settled(cfg, s, 1)
  {
    SingleStep(cfg, INITIAL, Publish("a", 0));
  }

  /** Publications up to and beyond the bound; the last of them trims the first entry away. */
  function FullRun(k: nat): seq<Action> {
    if k == 0 then [EnsureGroup] else FullRun(k - 1) + [Publish("a", 0)]
  }

  function BlindRun(cfg: Settings): seq<Action> {
    FullRun(cfg.maxLen + 1) + [Publish("a", 1)]
  }

  ghost predicate Full(b: Broker, k: nat) {
    && b == EMPTY.(published := b.published, grouped := true)
    && |b.published| == k
  }

  lemma {:induction false} FullRunLeads(cfg: Settings, k: nat)
    ensures LegalRun(cfg, INITIAL, FullRun(k))
    ensures Full(Exec(cfg, INITIAL, FullRun(k)).broker, k) && Exec(cfg, INITIAL, FullRun(k)).table == map[]
    decreases k
  {
    hide Exec, LegalRun;
    if k == 0 {
      EmptyRun(cfg, INITIAL);
      ExecStep(cfg, INITIAL, [], EnsureGroup);
      assert [] + [EnsureGroup] == FullRun(0);
    } else {
      FullRunLeads(cfg, k - 1);
      ExecStep(cfg, INITIAL, FullRun(k - 1), Publish("a", 0));
    }
  }

  /**
    And with a group, for every bound: once something was trimmed Redis may not know the lag, and
    the report can be wrong. It looks drained while entry 2 was never read.
   */
  lemma {:induction false} UnknownLagLooksDrained(cfg: Settings)
    ensures LegalRun(cfg, INITIAL, BlindRun(cfg))
    ensures var s := Exec(cfg, INITIAL, BlindRun(cfg));
            && s.broker.grouped && PossibleLag(s.broker, None) && LooksDrained(StatsOf(s.broker, None))
            && IsEntry(s.broker, 2) && 2 in Unread(s.broker) && !Settled(cfg, s, 2)
  {
    hide Exec, LegalRun, FullRun;
    FullRunLeads(cfg, cfg.maxLen + 1);
    ExecStep(cfg, INITIAL, FullRun(cfg.maxLen + 1), Publish("a", 1));
    var s, b := Exec(cfg, INITIAL, BlindRun(cfg)), Exec(cfg, INITIAL, FullRun(cfg.maxLen + 1)).broker;
    assert s.broker == b.(published := b.published + ["a"], floor := 1);
  }
}
