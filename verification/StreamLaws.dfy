/** What every Redis command keeps, and what each one does to the pending list. */
module StreamLaws {
  import opened Prelude
  import opened Streams

  lemma XAddKeeps(b: Broker, payload: string, wish: nat, maxLen: nat)
    requires WellFormed(b)
    ensures var c := XAdd(b, payload, wish, maxLen);
            WellFormed(c) && b.floor <= c.floor && (TrimOk(b, maxLen) ==> TrimOk(c, maxLen))
  {
  }

  lemma XReadGroupKeeps(b: Broker, owner: string, count: nat)
    requires WellFormed(b)
    ensures WellFormed(XReadGroup(b, owner, count))
  {
    var c, lo, hi := XReadGroup(b, owner, count), Head(b), ReadTo(b, count);
    if b.grouped && lo < hi {
      var read := Range(lo, hi);
      assert b.cursor <= lo && hi <= |b.published|;
      assert c.cursor == hi && c.floor == b.floor && c.delivered == b.delivered + multiset(read);
      assert c.pel == b.pel + (map id | id in read :: Pending(owner, 1, b.clock));
      hide XReadGroup, Range, Head, ReadTo;
      assert PelOk(c);
    }
  }

  // --------------------------------------------------------------- XAUTOCLAIM

  lemma {:induction false} ScanFacts(b: Broker, from: nat, minIdle: nat, count: nat, scan: nat)
    ensures var r := Scan(b, from, minIdle, count, scan);
            && (forall id :: id in r.claimed ==>
                  from <= id <= |b.published| && id in b.pel && !Trimmed(b, id) && Stale(b, id, minIdle))
            && (forall id :: id in r.deleted ==> from <= id && id in b.pel && Trimmed(b, id))
    decreases |b.published| + 1 - from
  {
    if from > |b.published| || count == 0 || scan == 0 {
    } else if from !in b.pel {
      ScanFacts(b, from + 1, minIdle, count, scan);
    } else if Trimmed(b, from) || Stale(b, from, minIdle) {
      ScanFacts(b, from + 1, minIdle, count - 1, scan - 1);
    } else {
      ScanFacts(b, from + 1, minIdle, count, scan - 1);
    }
  }

  lemma ClaimKeepsPel(b: Broker, owner: string, minIdle: nat, count: nat, scan: nat)
    requires WellFormed(b)
    ensures PelOk(XAutoClaim(b, owner, minIdle, count, scan))
  {
    ScanFacts(b, 1, minIdle, count, scan);
    hide PartitionOk, Scan;
  }

  lemma ClaimKeepsPartition(b: Broker, owner: string, minIdle: nat, count: nat, scan: nat)
    requires WellFormed(b)
    ensures PartitionOk(XAutoClaim(b, owner, minIdle, count, scan))
  {
    ScanFacts(b, 1, minIdle, count, scan);
  }

  lemma XAutoClaimKeeps(b: Broker, owner: string, minIdle: nat, count: nat, scan: nat)
    requires WellFormed(b)
    ensures WellFormed(XAutoClaim(b, owner, minIdle, count, scan))
  {
    ClaimKeepsPel(b, owner, minIdle, count, scan);
    ClaimKeepsPartition(b, owner, minIdle, count, scan);
    hide PelOk, PartitionOk;
  }

  lemma XAckKeeps(b: Broker, ids: set<nat>)
    requires WellFormed(b)
    ensures WellFormed(XAck(b, ids))
  {
  }

  lemma XParkKeeps(b: Broker, m: Message, reason: Reason, wish: nat, maxLen: nat)
    requires WellFormed(b)
    ensures WellFormed(XPark(b, m, reason, wish, maxLen))
  {
  }
}
