/**
  What XAUTOCLAIM and XREADGROUP take, said slot by slot: how far their walks reach and what
  COUNT limits, in terms of the fields of the stream alone.
 */
module Scans {
  import opened Streams

  /** The slots in [lo, id). */
  ghost function Slots(b: Broker, lo: nat, id: nat): set<nat> {
    set j | j in b.pel && lo <= j < id
  }

  /** Those of them that a claim takes or drops: trimmed, or idle for long enough. */
  ghost function Hits(b: Broker, minIdle: nat, lo: nat, id: nat): set<nat> {
    set j | j in b.pel && lo <= j < id && (j <= b.floor || b.clock - b.pel[j].since >= minIdle)
  }

  /** The walk from `lo` gets to the slot: fewer than `scan` slots and fewer than `count` hits are older. */
  ghost predicate Reached(b: Broker, minIdle: nat, count: nat, scan: nat, lo: nat, id: nat) {
    && lo <= id && id in b.pel
    && |Slots(b, lo, id)| < scan && |Hits(b, minIdle, lo, id)| < count
  }

  /** A slot that is reached is claimed if its entry is there and it is idle for long enough. */
  ghost predicate Taken(b: Broker, minIdle: nat, count: nat, scan: nat, id: nat) {
    Reached(b, minIdle, count, scan, 1, id) && id > b.floor && b.clock - b.pel[id].since >= minIdle
  }

  /** And dropped if its entry was trimmed. */
  ghost predicate Dropped(b: Broker, minIdle: nat, count: nat, scan: nat, id: nat) {
    Reached(b, minIdle, count, scan, 1, id) && id <= b.floor
  }

  ghost predicate Ascending(s: seq<nat>) {
    forall i, j :: 0 <= i < j < |s| ==> s[i] < s[j]
  }

  lemma SlotsNext(b: Broker, minIdle: nat, lo: nat, id: nat)
    requires lo < id
    ensures |Slots(b, lo, id)| == |Slots(b, lo + 1, id)| + (if lo in b.pel then 1 else 0)
    ensures |Hits(b, minIdle, lo, id)| == |Hits(b, minIdle, lo + 1, id)| +
              (if lo in b.pel && (lo <= b.floor || b.clock - b.pel[lo].since >= minIdle) then 1 else 0)
  {
    if lo in b.pel {
      assert Slots(b, lo, id) == Slots(b, lo + 1, id) + {lo};
    } else {
      assert Slots(b, lo, id) == Slots(b, lo + 1, id);
    }
    if lo in b.pel && (lo <= b.floor || b.clock - b.pel[lo].since >= minIdle) {
      assert Hits(b, minIdle, lo, id) == Hits(b, minIdle, lo + 1, id) + {lo};
    } else {
      assert Hits(b, minIdle, lo, id) == Hits(b, minIdle, lo + 1, id);
    }
  }

  lemma FirstReached(b: Broker, minIdle: nat, count: nat, scan: nat, lo: nat)
    ensures Reached(b, minIdle, count, scan, lo, lo) <==> lo in b.pel && count > 0 && scan > 0
  {
    assert Slots(b, lo, lo) == {} && Hits(b, minIdle, lo, lo) == {};
  }

  /** One slot further: what remains of the two limits. */
  lemma ReachedNext(b: Broker, minIdle: nat, count: nat, scan: nat, lo: nat, id: nat)
    requires lo < id && count > 0 && scan > 0
    ensures var hit := lo in b.pel && (lo <= b.floor || b.clock - b.pel[lo].since >= minIdle);
            Reached(b, minIdle, count, scan, lo, id) <==>
            Reached(b, minIdle, if hit then count - 1 else count, if lo in b.pel then scan - 1 else scan, lo + 1, id)
  {
    SlotsNext(b, minIdle, lo, id);
  }

  /** The walk claims and drops exactly what it reaches. */
  lemma {:induction false} ScanExactly(b: Broker, lo: nat, minIdle: nat, count: nat, scan: nat, id: nat)
    requires 1 <= lo && forall j :: j in b.pel ==> j <= |b.published|
    ensures var r := Scan(b, lo, minIdle, count, scan);
            && (id in r.claimed <==>
                  Reached(b, minIdle, count, scan, lo, id) && id > b.floor && b.clock - b.pel[id].since >= minIdle)
            && (id in r.deleted <==> Reached(b, minIdle, count, scan, lo, id) && id <= b.floor)
    decreases |b.published| + 1 - lo
  {
    hide Reached;
    if lo > |b.published| || count == 0 || scan == 0 {
      NothingReached(b, minIdle, count, scan, lo, id);
    } else {
      FirstReached(b, minIdle, count, scan, lo);
      if id > lo { ReachedNext(b, minIdle, count, scan, lo, id); }
      NoneBelow(b, minIdle, count, scan, lo, id);
      if lo !in b.pel {
        ScanExactly(b, lo + 1, minIdle, count, scan, id);
        NoneBelow(b, minIdle, count, scan, lo + 1, id);
      } else if lo <= b.floor || b.clock - b.pel[lo].since >= minIdle {
        ScanExactly(b, lo + 1, minIdle, count - 1, scan - 1, id);
        NoneBelow(b, minIdle, count - 1, scan - 1, lo + 1, id);
      } else {
        ScanExactly(b, lo + 1, minIdle, count, scan - 1, id);
        NoneBelow(b, minIdle, count, scan - 1, lo + 1, id);
      }
    }
  }

  lemma NothingReached(b: Broker, minIdle: nat, count: nat, scan: nat, lo: nat, id: nat)
    requires forall j :: j in b.pel ==> j <= |b.published|
    requires lo > |b.published| || count == 0 || scan == 0
    ensures !Reached(b, minIdle, count, scan, lo, id)
  {
  }

  lemma NoneBelow(b: Broker, minIdle: nat, count: nat, scan: nat, lo: nat, id: nat)
    ensures id < lo ==> !Reached(b, minIdle, count, scan, lo, id)
    ensures Reached(b, minIdle, count, scan, lo, id) ==> id in b.pel
  {
  }

  lemma {:induction false} ScanAscends(b: Broker, lo: nat, minIdle: nat, count: nat, scan: nat)
    ensures var r := Scan(b, lo, minIdle, count, scan);
            && Ascending(r.claimed) && (forall id :: id in r.claimed ==> id >= lo)
            && Ascending(r.deleted) && (forall id :: id in r.deleted ==> id >= lo)
    decreases |b.published| + 1 - lo
  {
    hide Ascending;
    if lo > |b.published| || count == 0 || scan == 0 {
      EmptyAscends();
    } else if lo !in b.pel {
      ScanAscends(b, lo + 1, minIdle, count, scan);
    } else if Trimmed(b, lo) || Stale(b, lo, minIdle) {
      ScanAscends(b, lo + 1, minIdle, count - 1, scan - 1);
      var r := Scan(b, lo + 1, minIdle, count - 1, scan - 1);
      ConsAscends(lo, if Trimmed(b, lo) then r.deleted else r.claimed);
    } else {
      ScanAscends(b, lo + 1, minIdle, count, scan - 1);
    }
  }

  lemma EmptyAscends()
    ensures Ascending([])
  {
  }

  lemma ConsAscends(id: nat, s: seq<nat>)
    requires Ascending(s) && forall j :: j in s ==> j > id
    ensures Ascending([id] + s)
  {
    assert forall j :: 0 <= j < |s| ==> s[j] in s;
  }

  /** What a claim that took effect leaves in the pending list. */
  ghost predicate AfterClaim(b: Broker, c: Broker, owner: string, minIdle: nat, count: nat, scan: nat) {
    && (forall id :: id in c.pel <==> id in b.pel && !Dropped(b, minIdle, count, scan, id))
    && (forall id :: id in c.pel ==>
          c.pel[id] == if Taken(b, minIdle, count, scan, id) then Pending(owner, b.pel[id].times + 1, b.clock)
                       else b.pel[id])
  }

  /** XAUTOCLAIM takes and drops exactly what the walk from "0-0" reaches within its limits, in order. */
  lemma ClaimExactly(b: Broker, owner: string, minIdle: nat, count: nat, scan: nat)
    requires b.grouped && forall j :: j in b.pel ==> 1 <= j <= |b.published|
    ensures var r, c := Claimable(b, minIdle, count, scan), XAutoClaim(b, owner, minIdle, count, scan);
            && (forall id :: id in r.claimed <==> Taken(b, minIdle, count, scan, id))
            && (forall id :: id in r.deleted <==> Dropped(b, minIdle, count, scan, id))
            && Ascending(r.claimed) && Ascending(r.deleted)
            && AfterClaim(b, c, owner, minIdle, count, scan)
            && c == b.(pel := c.pel, delivered := c.delivered, vanished := c.vanished)
  {
    hide Reached;
    var r := Claimable(b, minIdle, count, scan);
    forall id: nat
      ensures id in r.claimed <==> Taken(b, minIdle, count, scan, id)
      ensures id in r.deleted <==> Dropped(b, minIdle, count, scan, id)
    {
      ScanExactly(b, 1, minIdle, count, scan, id);
    }
    ScanAscends(b, 1, minIdle, count, scan);
    hide Scan, Claimable, Taken, Dropped;
  }

  // --------------------------------------------------------------- XREADGROUP

  /** The id before the first unread one. */
  function Before(b: Broker): nat {
    if b.cursor < b.floor then b.floor else b.cursor
  }

  /** How many entries a read for `count` of them hands out: no more than asked for, no fewer than there are. */
  function ReadSize(b: Broker, count: nat): nat
    requires Before(b) <= |b.published|
  {
    if |b.published| - Before(b) < count then |b.published| - Before(b) else count
  }

  /** A read of `n` entries: the cursor moves past them, each gets a slot, and nothing else changes. */
  ghost predicate AfterRead(b: Broker, c: Broker, owner: string, n: nat) {
    && c == b.(cursor := c.cursor, pel := c.pel, delivered := c.delivered)
    && c.cursor == (if n == 0 then b.cursor else Before(b) + n)
    && (forall id :: id in c.pel <==> id in b.pel || Before(b) < id <= Before(b) + n)
    && (forall id :: id in c.pel ==>
          c.pel[id] == if Before(b) < id <= Before(b) + n then Pending(owner, 1, b.clock) else b.pel[id])
  }

  lemma ReadExactly(b: Broker, owner: string, count: nat)
    requires count > 0 && Before(b) <= |b.published|
    ensures ReadTo(b, count) == Before(b) + ReadSize(b, count)
    ensures b.grouped ==> AfterRead(b, XReadGroup(b, owner, count), owner, ReadSize(b, count))
  {
  }
}
