/** `EventQueue`: publishing, reading, reclaiming, acknowledging, dead-lettering and statistics. */
module Queue {
  import opened Prelude
  import opened Streams
  import opened Pipeline
  import opened Safety
  import opened Counts
  import opened Drain
  import Scans
  import opened Clusters

  datatype RedisError = ConnectionLost | NoGroup | BadCount

  datatype GroupInfo = GroupInfo(name: string, pending: nat, lag: Option<nat>)

  /** The last group of that name in the reply. */
  function LastNamed(groups: seq<GroupInfo>, name: string): (g: Option<GroupInfo>)
    ensures g.None? ==> forall h :: h in groups ==> h.name != name
    ensures g.Some? ==> exists i :: 0 <= i < |groups| && groups[i] == g.value && g.value.name == name
                                    && forall j :: i < j < |groups| ==> groups[j].name != name
  {
    if groups == [] then None
    else if groups[|groups| - 1].name == name then Some(groups[|groups| - 1])
    else LastNamed(groups[..|groups| - 1], name)
  }

  lemma NoneNamed(groups: seq<GroupInfo>, name: string)
    requires forall g :: g in groups ==> g.name != name
    ensures LastNamed(groups, name) == None
  {
  }

  lemma LastIsNamed(groups: seq<GroupInfo>, g: GroupInfo)
    ensures LastNamed(groups + [g], g.name) == Some(g)
  {
  }

  /** One XADD landed: the payload is the newest entry, and only entries beyond the bound were trimmed. */
  ghost predicate Added(s: Sys, t: Sys, payload: string, maxLen: nat) {
    && t == s.(broker := s.broker.(published := s.broker.published + [payload], floor := t.broker.floor))
    && s.broker.floor <= t.broker.floor
    && (s.broker.floor < t.broker.floor ==> t.broker.floor + maxLen <= |t.broker.published|)
  }

  /** The id the entry of a publishing call got, if the call took effect. */
  function EntryOf(c: Call): nat {
    |c.before.broker.published| + 1
  }

  /** Call i sent payload i, and every call that took effect left its payload in the stream, in order. */
  ghost predicate Pushed(b: Broker, made: seq<Call>, payloads: seq<string>) {
    && |made| <= |payloads|
    && (forall i :: 0 <= i < |made| ==> made[i].command.Publish? && made[i].command.payload == payloads[i])
    && (forall i :: 0 <= i < |made| && !made[i].fault.Refused? ==>
          EntryOf(made[i]) <= |b.published| && b.published[EntryOf(made[i]) - 1] == payloads[i])
    && (forall i, j :: 0 <= i < j < |made| && !made[i].fault.Refused? ==> EntryOf(made[i]) < EntryOf(made[j]))
  }

  lemma PushedStays(b: Broker, c: Broker, made: seq<Call>, payloads: seq<string>)
    requires Pushed(b, made, payloads) && b.published <= c.published
    ensures Pushed(c, made, payloads)
  {
  }

  lemma PushedGrows(b: Broker, c: Broker, made: seq<Call>, payloads: seq<string>, call: Call)
    requires Pushed(b, made, payloads) && |made| < |payloads|
    requires call.command.Publish? && call.command.payload == payloads[|made|] && call.before.broker == b
    requires c.published == if call.fault.Refused? then b.published else b.published + [payloads[|made|]]
    ensures Pushed(c, made + [call], payloads)
  {
    PushedStays(b, c, made, payloads);
  }

  /** What a read returns, in order. */
  function Handout(b: Broker, count: nat): seq<Message> {
    if Head(b) > |b.published| then []
    else
      seq(ReadTo(b, count) - Head(b),
          i requires 0 <= i < ReadTo(b, count) - Head(b) => Message(Head(b) + 1 + i, Payload(b, Head(b) + 1 + i), 1))
  }

  lemma HandoutAt(b: Broker, count: nat, i: nat)
    requires b.grouped && Head(b) <= |b.published| && i < |Handout(b, count)|
    ensures Handout(b, count)[i] in FreshMessages(b, count)
    ensures Handout(b, count)[i].id in Range(Head(b), ReadTo(b, count))
  {
    assert Head(b) + 1 + i in Range(Head(b), ReadTo(b, count));
  }

  /** The message was never delivered before and now has one delivery to `me`. */
  ghost predicate FreshSlot(b: Broker, c: Broker, me: string, count: nat, m: Message) {
    m in FreshMessages(b, count) && m.id in c.pel && c.pel[m.id] == Pending(me, 1, b.clock)
  }

  lemma HandoutIsFresh(b: Broker, me: string, count: nat)
    requires b.grouped && WellFormed(b)
    ensures var c := XReadGroup(b, me, count);
            forall i :: 0 <= i < |Handout(b, count)| ==> FreshSlot(b, c, me, count, Handout(b, count)[i])
  {
    if UnreadCount(b) > 0 {
      ReadSlots(b, me, count);
      hide XReadGroup, WellFormed, UnreadCount;
      forall i | 0 <= i < |Handout(b, count)|
        ensures FreshSlot(b, XReadGroup(b, me, count), me, count, Handout(b, count)[i])
      {
        HandoutAt(b, count, i);
      }
    }
  }

  /** A message as the stream and the PEL vouch for it. */
  ghost predicate Vouched(s: Sys, me: string, m: Message) {
    m in MemoryOf(s, me).held && Honest(s.broker, m)
  }

  lemma ReadVouches(cfg: Settings, s: Sys, me: string, count: nat)
    requires Inv(cfg, s) && s.broker.grouped
    ensures var t := Apply(cfg, s, Read(me, count, true));
            forall m :: m in Handout(s.broker, count) ==>
              && Vouched(t, me, m)
              && m.id in t.broker.pel && t.broker.pel[m.id] == Pending(me, 1, s.broker.clock)
  {
    var a := Read(me, count, true);
    HandoutIsFresh(s.broker, me, count);
    LearnedIsTrue(cfg, s, a);
    forall m | m in Handout(s.broker, count)
      ensures m in Learned(cfg, s.broker, a).held && m in MemoryOf(Apply(cfg, s, a), me).held
    {
    }
  }

  lemma IdsCons(id: nat, rest: seq<nat>)
    requires id !in rest
    ensures |Ids([id] + rest)| == 1 + |Ids(rest)|
  {
    assert Ids([id] + rest) == {id} + Ids(rest);
  }

  lemma {:induction false} ClaimedAreDistinct(b: Broker, from: nat, minIdle: nat, count: nat, scan: nat)
    ensures var r := Scan(b, from, minIdle, count, scan);
            |Ids(r.claimed)| == |r.claimed| && forall id :: id in r.claimed ==> id >= from
    decreases |b.published| + 1 - from
  {
    if from > |b.published| || count == 0 || scan == 0 {
    } else if from !in b.pel {
      ClaimedAreDistinct(b, from + 1, minIdle, count, scan);
    } else if Trimmed(b, from) || Stale(b, from, minIdle) {
      ClaimedAreDistinct(b, from + 1, minIdle, count - 1, scan - 1);
      if !Trimmed(b, from) { IdsCons(from, Scan(b, from + 1, minIdle, count - 1, scan - 1).claimed); }
    } else {
      ClaimedAreDistinct(b, from + 1, minIdle, count, scan - 1);
    }
  }

  /** The messages `claim_stale` builds from the claimed ids and the counts XPENDING gave. */
  function Counted(b: Broker, me: string, ids: seq<nat>): (ms: seq<Message>)
    ensures |ms| == |ids| && forall i :: 0 <= i < |ids| ==> ms[i].id == ids[i]
  {
    var asked := if ids == [] then 1 else |ids|;
    seq(|ids|, i requires 0 <= i < |ids| =>
                 Message(ids[i], if IsEntry(b, ids[i]) then Payload(b, ids[i]) else "",
                         ReportedCount(b, me, asked, ids[i])))
  }

  lemma ClaimTeaches(cfg: Settings, s: Sys, me: string, minIdle: nat, count: nat, scan: nat)
    ensures var found := Claimable(s.broker, minIdle, count, scan);
            var mem := MemoryOf(Apply(cfg, s, Claim(me, minIdle, count, scan, true)), me);
            Ids(found.claimed) <= mem.claimed && Ids(found.deleted) <= mem.gone
  {
  }

  lemma CountVouches(cfg: Settings, s: Sys, me: string, ids: seq<nat>)
    requires Inv(cfg, s) && Ids(ids) <= MemoryOf(s, me).claimed && ids != [] && |Ids(ids)| == |ids|
    ensures forall id :: id in ids ==> IsEntry(s.broker, id)
    ensures var t := Apply(cfg, s, Count(me, Ids(ids)));
            forall m :: m in Counted(s.broker, me, ids) ==> Vouched(t, me, m)
  {
    var a := Count(me, Ids(ids));
    var t := Apply(cfg, s, a);
    assert MemoryOk(cfg, s, MemoryOf(s, me));
    forall id | id in ids ensures IsEntry(s.broker, id) {
      assert id in Ids(ids);
    }
    LearnedIsTrue(cfg, s, a);
    forall m | m in Counted(s.broker, me, ids) ensures m in MemoryOf(t, me).held && Honest(t.broker, m) {
      assert m.id in Ids(ids);
      assert m in CountedMessages(s.broker, me, Ids(ids));
      assert m in Learned(cfg, s.broker, a).held;
    }
  }

  /** A read of as many entries as were asked for, or as there were: each has a slot now, and the cursor is past them. */
  ghost predicate HandedOver(b: Broker, c: Broker, owner: string, count: nat) {
    Scans.Before(b) <= |b.published| && Scans.AfterRead(b, c, owner, Scans.ReadSize(b, count))
  }

  /** As many of the unread entries as were asked for, or all there are, from the first one on. */
  ghost predicate NextUnread(b: Broker, count: nat, ms: seq<Message>) {
    var head := if b.cursor < b.floor then b.floor else b.cursor;
    && head <= |b.published|
    && |ms| == (if |b.published| - head < count then |b.published| - head else count)
    && forall i :: 0 <= i < |ms| ==> ms[i] == Message(head + 1 + i, b.published[head + i], 1)
  }

  lemma ReadIsExact(cfg: Settings, s: Sys, owner: string, count: nat)
    requires Inv(cfg, s) && count > 0
    ensures s.broker.grouped ==> HandedOver(s.broker, XReadGroup(s.broker, owner, count), owner, count)
    ensures NextUnread(s.broker, count, Handout(s.broker, count))
  {
    var b, ms := s.broker, Handout(s.broker, count);
    assert Scans.Before(b) <= |b.published|;
    hide Inv, XReadGroup, Scans.AfterRead;
    Scans.ReadExactly(b, owner, count);
    assert |ms| == Scans.ReadSize(b, count);
    forall i | 0 <= i < |ms| ensures ms[i] == Message(Scans.Before(b) + 1 + i, b.published[Scans.Before(b) + i], 1) {
      assert ms[i] == Message(Head(b) + 1 + i, Payload(b, Head(b) + 1 + i), 1);
    }
  }

  /** The given ids have left the pending list for good, and nothing else has changed. */
  ghost predicate AckedExactly(s: Sys, t: Sys, ids: seq<nat>) {
    var b, gone := s.broker, set id | id in ids;
    t == s.(broker := b.(pel := b.pel - gone, acked := b.acked + (gone * b.pel.Keys)))
  }

  /** What a claim found, in terms of the slots it met. */
  ghost predicate ClaimedExactly(b: Broker, found: Scanned, minIdle: nat, count: nat, scan: nat) {
    && (forall id :: id in found.claimed <==> Scans.Taken(b, minIdle, count, scan, id))
    && (forall id :: id in found.deleted <==> Scans.Dropped(b, minIdle, count, scan, id))
    && Scans.Ascending(found.claimed) && Scans.Ascending(found.deleted)
  }

  lemma ClaimIsExact(cfg: Settings, s: Sys, owner: string, minIdle: nat, count: nat, scan: nat)
    requires Inv(cfg, s) && s.broker.grouped
    ensures ClaimedExactly(s.broker, Claimable(s.broker, minIdle, count, scan), minIdle, count, scan)
    ensures Scans.AfterClaim(s.broker, XAutoClaim(s.broker, owner, minIdle, count, scan), owner, minIdle, count, scan)
  {
    assert forall j :: j in s.broker.pel ==> 1 <= j <= |s.broker.published|;
    hide Claimable, XAutoClaim, Inv;
    Scans.ClaimExactly(s.broker, owner, minIdle, count, scan);
  }

  /**
    The message of an id, with the count XPENDING led to: its deliveries, if the consumer owns the
    slot and fewer than `asked` older ones; 1 if it is missing from the answer.
   */
  ghost function CountedAs(b: Broker, me: string, asked: nat, id: nat): Message
    requires IsEntry(b, id)
  {
    Message(id, b.published[id - 1],
            if id in b.pel && b.pel[id].owner == me && |OwnedBetween(b, me, 1, id)| < asked then b.pel[id].times else 1)
  }

  lemma CountIsExact(cfg: Settings, s: Sys, me: string, ids: seq<nat>)
    requires Inv(cfg, s) && ids != [] && forall id :: id in ids ==> IsEntry(s.broker, id)
    ensures forall i :: 0 <= i < |ids| ==> Counted(s.broker, me, ids)[i] == CountedAs(s.broker, me, |ids|, ids[i])
  {
    forall i | 0 <= i < |ids| ensures Counted(s.broker, me, ids)[i] == CountedAs(s.broker, me, |ids|, ids[i]) {
      assert ids[i] in ids;
      InFirst(s.broker, me, 1, |ids|, ids[i]);
    }
  }

  lemma DistinctClaims(b: Broker, minIdle: nat, count: nat, scan: nat)
    ensures var found := Claimable(b, minIdle, count, scan); |Ids(found.claimed)| == |found.claimed|
  {
    ClaimedAreDistinct(b, 1, minIdle, count, scan);
  }

  lemma NothingPushed(b: Broker, payloads: seq<string>)
    ensures Pushed(b, [], payloads)
  {
  }

  lemma PushedLasts(s: Sys, t: Sys, made: seq<Call>, payloads: seq<string>, me: string)
    requires Pushed(s.broker, made, payloads) && Onward(s, t, me)
    ensures Pushed(t.broker, made, payloads)
  {
    PushedStays(s.broker, t.broker, made, payloads);
  }

  lemma NoneVouched(s: Sys, me: string)
    ensures forall m :: m in [] ==> Vouched(s, me, m)
    ensures Counted(s.broker, me, []) == []
  {
  }

  lemma NothingToAck(b: Broker)
    ensures Ids([]) == {} && b.pel - {} == b.pel && |Ids([]) * b.pel.Keys| == 0
  {
  }

  lemma MemoryLasts(s: Sys, t: Sys, me: string, found: Scanned)
    requires Onward(s, t, me)
    ensures Ids(found.claimed) <= MemoryOf(s, me).claimed ==> Ids(found.claimed) <= MemoryOf(t, me).claimed
    ensures Ids(found.deleted) <= MemoryOf(s, me).gone ==> Ids(found.deleted) <= MemoryOf(t, me).gone
  {
  }

  lemma LengthCounts(cfg: Settings, s: Sys)
    requires Inv(cfg, s)
    ensures Length(s.broker) == |Range(s.broker.floor, |s.broker.published|)|
  {
  }

  lemma StatsAre(b: Broker, lag: Option<nat>)
    ensures StatsOf(b, lag).pending == (if b.grouped then |b.pel.Keys| else 0)
    ensures StatsOf(b, lag).lag == (if b.grouped && lag.Some? then lag.value else 0)
    ensures StatsOf(b, lag).length == Length(b) && StatsOf(b, lag).dlqLength == |b.dlq|
  {
  }

  lemma LagIsPossible(b: Broker, lag: Option<nat>, extra: nat)
    requires lag == Some(UnreadCount(b) + extra) || (lag == None && b.floor > 0)
    ensures PossibleLag(b, lag)
  {
  }

  lemma KnownLag(b: Broker)
    ensures PossibleLag(b, Some(UnreadCount(b)))
  {
  }

  /** Only queries were sent, each after the one before it was answered. */
  ghost predicate Inspected(made: seq<Call>, me: string) {
    && (forall i :: 0 <= i < |made| ==> made[i].command == Action.Inspect(me))
    && (forall i :: 0 <= i < |made| - 1 ==> made[i].fault.Fine?)
  }

  lemma FirstInspect(made: seq<Call>, me: string, s: Sys)
    requires One(made, Action.Inspect(me), s)
    ensures Inspected(made, me)
  {
  }

  lemma NextInspect(made: seq<Call>, more: seq<Call>, me: string, s: Sys)
    requires Inspected(made, me) && made != [] && made[|made| - 1].fault.Fine? && One(more, Action.Inspect(me), s)
    ensures Inspected(made + more, me)
  {
  }

  /** The messages and the deleted ids are exactly those of the slots the claim took and dropped, in order. */
  ghost predicate TookOver(claim: Call, minIdle: nat, count: nat, ms: seq<Message>, deleted: seq<nat>) {
    && claim.command.Claim?
    && var b, scan := claim.before.broker, claim.command.scan;
       && (forall id :: Scans.Taken(b, minIdle, count, scan, id) <==> exists i :: 0 <= i < |ms| && ms[i].id == id)
       && (forall i, j :: 0 <= i < j < |ms| ==> ms[i].id < ms[j].id)
       && (forall id :: id in deleted <==> Scans.Dropped(b, minIdle, count, scan, id))
       && Scans.Ascending(deleted)
  }

  lemma TookOverExactly(claim: Call, minIdle: nat, count: nat, found: Scanned, ms: seq<Message>)
    requires claim.command.Claim? && ClaimedExactly(claim.before.broker, found, minIdle, count, claim.command.scan)
    requires |ms| == |found.claimed| && forall i :: 0 <= i < |ms| ==> ms[i].id == found.claimed[i]
    ensures TookOver(claim, minIdle, count, ms, found.deleted)
  {
    hide Scans.Taken, Scans.Dropped;
    var b, scan := claim.before.broker, claim.command.scan;
    forall id: nat
      ensures Scans.Taken(b, minIdle, count, scan, id) <==> exists i :: 0 <= i < |ms| && ms[i].id == id
    {
      if Scans.Taken(b, minIdle, count, scan, id) {
        var i :| 0 <= i < |found.claimed| && found.claimed[i] == id;
        assert ms[i].id == id;
      }
      if i :| 0 <= i < |ms| && ms[i].id == id {
        assert found.claimed[i] == id;
      }
    }
  }

  /** The one claim of the calls, as it was sent. */
  ghost predicate ClaimSent(me: string, minIdle: nat, count: nat, made: seq<Call>) {
    && 1 <= |made| <= 2 && made[0].command.Claim?
    && made[0].command == Action.Claim(me, minIdle, count, made[0].command.scan, made[0].fault.Fine?)
  }

  function FoundBy(claim: Call): Scanned
    requires claim.command.Claim?
  {
    Claimable(claim.before.broker, claim.command.minIdle, claim.command.count, claim.command.scan)
  }

  /** Both commands replied: one message per claimed id with the counts of the second, and the deleted ids. */
  ghost predicate ClaimReplied(me: string, minIdle: nat, count: nat, made: seq<Call>, ms: seq<Message>,
                               deleted: seq<nat>)
  {
    && ClaimSent(me, minIdle, count, made) && made[0].fault.Fine?
    && deleted == FoundBy(made[0]).deleted
    && if FoundBy(made[0]).claimed == [] then ms == [] && |made| == 1
       else
         && |made| == 2 && made[1].fault.Fine?
         && made[1].command == Action.Count(me, Ids(FoundBy(made[0]).claimed))
         && ms == Counted(made[1].before.broker, me, FoundBy(made[0]).claimed)
  }

  /** One of the commands failed, and nothing was sent after it. */
  ghost predicate ClaimFailed(me: string, minIdle: nat, count: nat, made: seq<Call>) {
    && ClaimSent(me, minIdle, count, made)
    && if |made| == 1 then !made[0].fault.Fine?
       else
         && made[0].fault.Fine? && FoundBy(made[0]).claimed != []
         && made[1].command == Action.Count(me, Ids(FoundBy(made[0]).claimed)) && !made[1].fault.Fine?
  }

  class EventQueue {
    const cluster: Cluster
    const consumer: string

    constructor (cluster: Cluster, consumer: string)
      ensures this.cluster == cluster && this.consumer == consumer
    {
      this.cluster, this.consumer := cluster, consumer;
    }

    // ------------------------------------------------------------------ producer

    method Publish(payload: string) returns (r: Result<nat, RedisError>, ghost made: seq<Call>)
      requires cluster.Good()
      modifies cluster
      ensures cluster.Good() && old(cluster.trace) <= cluster.trace
      ensures Onward(old(cluster.state), cluster.state, consumer)
      ensures cluster.calls == old(cluster.calls) + made
      ensures |made| == 1 && made[0].command.Publish? &&
              One(made, Action.Publish(payload, made[0].command.wish), old(cluster.state))
      ensures r.Ok? <==> made[0].fault.Fine?
      ensures if made[0].fault.Refused? then cluster.state == old(cluster.state)
              else Added(old(cluster.state), cluster.state, payload, cluster.cfg.maxLen)
      ensures r.Ok? ==> r.value == |cluster.state.broker.published|
    {
      hide Exec, LegalRun, LogOk, Onward;
      cluster.GoodIsInv();
      var wish := AnyNat();
      OnwardRefl(cluster.state, consumer);
      var fault;
      fault, made := cluster.Send(Action.Publish(payload, wish), consumer, cluster.state);
      r := if fault.Fine? then Ok(|cluster.state.broker.published|) else Err(ConnectionLost);
    }

    /**
      A pipeline that is not a transaction: one XADD per event in order, each of which may be
      refused or lose its reply on its own, with other clients' commands in between.
     */
    method PublishMany(payloads: seq<string>) returns (r: Result<seq<nat>, RedisError>, ghost made: seq<Call>)
      requires cluster.Good()
      modifies cluster
      ensures cluster.Good() && old(cluster.trace) <= cluster.trace
      ensures Onward(old(cluster.state), cluster.state, consumer)
      ensures cluster.calls == old(cluster.calls) + made
      ensures |made| == |payloads| && Pushed(cluster.state.broker, made, payloads)
      ensures r.Ok? <==> forall i :: 0 <= i < |made| ==> made[i].fault.Fine?
      ensures r.Ok? ==> |r.value| == |payloads| && forall i :: 0 <= i < |made| ==> r.value[i] == EntryOf(made[i])
    {
      hide Exec, LegalRun, LogOk, Onward, Grows, Pushed, TrimCount;
      ghost var start := cluster.state;
      OnwardRefl(start, consumer);
      NothingPushed(start.broker, payloads);
      var ids: seq<nat> := [];
      var broken := false;
      made := [];
      for i := 0 to |payloads|
        invariant cluster.Good() && old(cluster.trace) <= cluster.trace
        invariant Onward(start, cluster.state, consumer)
        invariant cluster.calls == old(cluster.calls) + made
        invariant |ids| == |made| == i && Pushed(cluster.state.broker, made, payloads)
        invariant !broken <==> forall k :: 0 <= k < i ==> made[k].fault.Fine?
        invariant forall k :: 0 <= k < i ==> ids[k] == EntryOf(made[k])
      {
        ghost var s := cluster.state;
        cluster.Interfere(consumer, start);
        PushedLasts(s, cluster.state, made, payloads, consumer);
        ghost var b := cluster.state.broker;
        var wish := AnyNat();
        var id := |cluster.state.broker.published| + 1;
        ghost var sent;
        var fault;
        fault, sent := cluster.Send(Action.Publish(payloads[i], wish), consumer, start);
        PushedGrows(b, cluster.state.broker, made, payloads, sent[0]);
        assert sent == [sent[0]];
        ids, made, broken := ids + [id], made + sent, broken || !fault.Fine?;
        assert made[i] == sent[0];
      }
      r := if broken then Err(ConnectionLost) else Ok(ids);
    }

    // ------------------------------------------------------------------ lifecycle

    /** Creates the group at id 0, or finds it there: nothing already published is skipped. */
    method EnsureGroup() returns (r: Result<(), RedisError>, ghost made: seq<Call>)
      requires cluster.Good()
      modifies cluster
      ensures cluster.Good() && old(cluster.trace) <= cluster.trace
      ensures Onward(old(cluster.state), cluster.state, consumer)
      ensures cluster.calls == old(cluster.calls) + made && One(made, Action.EnsureGroup, old(cluster.state))
      ensures made[0].at == |old(cluster.trace)|
      ensures r.Ok? <==> made[0].fault.Fine?
      ensures cluster.state ==
              old(cluster.state).(broker := old(cluster.state).broker.(grouped := cluster.state.broker.grouped))
      ensures cluster.state.broker.grouped == (old(cluster.state.broker.grouped) || !made[0].fault.Refused?)
      ensures r.Ok? && !old(cluster.state.broker.grouped) ==> cluster.state.broker.cursor == 0
    {
      hide Exec, LegalRun, LogOk, Onward;
      cluster.GoodIsInv();
      OnwardRefl(cluster.state, consumer);
      var fault;
      fault, made := cluster.Send(Action.EnsureGroup, consumer, cluster.state);
      r := if fault.Fine? then Ok(()) else Err(ConnectionLost);
    }

    // ------------------------------------------------------------------- consumer

    /**
      The next unread entries in order, each now pending for this consumer with one delivery.
      The client refuses a COUNT below one before anything is sent.
     */
    method Read(count: nat) returns (r: Result<seq<Message>, RedisError>, ghost made: seq<Call>)
      requires cluster.Good()
      modifies cluster
      ensures cluster.Good() && old(cluster.trace) <= cluster.trace
      ensures Onward(old(cluster.state), cluster.state, consumer)
      ensures cluster.calls == old(cluster.calls) + made && cluster.state.table == old(cluster.state).table
      ensures count == 0 ==> r == Err(BadCount) && made == [] && cluster.state == old(cluster.state)
      ensures count > 0 ==> One(made, Action.Read(consumer, count, false), old(cluster.state))
      ensures r.Ok? <==> made != [] && made[0].fault.Fine?
      ensures !old(cluster.state.broker.grouped) ==> r.Err?
      ensures cluster.state.broker == if made != [] && !made[0].fault.Refused?
                                      then XReadGroup(old(cluster.state).broker, consumer, count)
                                      else old(cluster.state).broker
      ensures made != [] && !made[0].fault.Refused? ==>
                HandedOver(old(cluster.state).broker, cluster.state.broker, consumer, count)
      ensures r.Ok? ==> NextUnread(old(cluster.state).broker, count, r.value)
      ensures r.Ok? ==>
                && r.value == Handout(old(cluster.state).broker, count)
                && forall m :: m in r.value ==>
                     && Vouched(cluster.state, consumer, m)
                     && m.id in cluster.state.broker.pel
                     && cluster.state.broker.pel[m.id] == Pending(consumer, 1, old(cluster.state).broker.clock)
    {
      hide Exec, LegalRun, LogOk, Onward, Honest;
      cluster.GoodIsInv();
      OnwardRefl(cluster.state, consumer);
      if count == 0 { return Err(BadCount), []; }
      if cluster.state.broker.grouped { ReadVouches(cluster.cfg, cluster.state, consumer, count); }
      var messages := Handout(cluster.state.broker, count);
      ReadIsExact(cluster.cfg, cluster.state, consumer, count);
      hide Inv, Handout, Vouched, HandedOver, NextUnread, XReadGroup, Head, MemoryOf;
      var fault;
      fault, made := cluster.Send(Action.Read(consumer, count, true), consumer, cluster.state);
      r := if fault.Fine? then Ok(messages) else Err(ConnectionLost);
    }

    /** XAUTOCLAIM from "0-0": the ids this consumer now owns and those that were trimmed away. */
    method Autoclaim(minIdle: nat, count: nat, ghost start: Sys)
      returns (r: Result<Scanned, RedisError>, ghost made: seq<Call>)
      requires cluster.Good() && Onward(start, cluster.state, consumer)
      modifies cluster
      ensures cluster.Good() && old(cluster.trace) <= cluster.trace
      ensures Onward(start, cluster.state, consumer)
      ensures cluster.calls == old(cluster.calls) + made && cluster.state.table == old(cluster.state).table
      ensures |made| == 1 && made[0].command.Claim? &&
              One(made, Action.Claim(consumer, minIdle, count, made[0].command.scan, false), old(cluster.state))
      ensures r.Ok? <==> made[0].fault.Fine?
      ensures count == 0 || !old(cluster.state.broker.grouped) ==> made[0].fault.Refused?
      ensures cluster.state.broker ==
              if made[0].fault.Refused? then old(cluster.state).broker
              else XAutoClaim(old(cluster.state).broker, consumer, minIdle, count, made[0].command.scan)
      ensures !made[0].fault.Refused? ==>
                Scans.AfterClaim(old(cluster.state).broker, cluster.state.broker, consumer, minIdle, count,
                                 made[0].command.scan)
      ensures r.Ok? ==> ClaimedExactly(old(cluster.state).broker, r.value, minIdle, count, made[0].command.scan)
      ensures r.Ok? ==>
                && r.value == Claimable(old(cluster.state).broker, minIdle, count, made[0].command.scan)
                && |Ids(r.value.claimed)| == |r.value.claimed|
                && Ids(r.value.claimed) <= MemoryOf(cluster.state, consumer).claimed
                && Ids(r.value.deleted) <= MemoryOf(cluster.state, consumer).gone
    {
      hide Exec, LegalRun, LogOk, Onward, Ids, MemoryOf, Claimable, ClaimedExactly, Inv;
      var examined := AnyNat();
      var found := Claimable(cluster.state.broker, minIdle, count, examined);
      cluster.GoodIsInv();
      if cluster.state.broker.grouped {
        ClaimIsExact(cluster.cfg, cluster.state, consumer, minIdle, count, examined);
      }
      DistinctClaims(cluster.state.broker, minIdle, count, examined);
      ClaimTeaches(cluster.cfg, cluster.state, consumer, minIdle, count, examined);
      var fault;
      fault, made := cluster.Send(Action.Claim(consumer, minIdle, count, examined, true), consumer, start);
      r := if fault.Fine? then Ok(found) else Err(ConnectionLost);
    }

    /** XPENDING over the consumer's own entries, and the messages built from its answer. */
    method DeliveryCounts(ids: seq<nat>, ghost start: Sys)
      returns (r: Result<seq<Message>, RedisError>, ghost made: seq<Call>)
      requires cluster.Good() && Onward(start, cluster.state, consumer)
      requires |Ids(ids)| == |ids| && Ids(ids) <= MemoryOf(cluster.state, consumer).claimed
      modifies cluster
      ensures cluster.Good() && old(cluster.trace) <= cluster.trace
      ensures Onward(start, cluster.state, consumer) && Onward(old(cluster.state), cluster.state, consumer)
      ensures cluster.state.broker == old(cluster.state).broker && cluster.state.table == old(cluster.state).table
      ensures cluster.calls == old(cluster.calls) + made
      ensures if ids == [] then made == [] else One(made, Action.Count(consumer, Ids(ids)), old(cluster.state))
      ensures r.Ok? <==> ids == [] || made[0].fault.Fine?
      ensures r.Ok? ==>
                && (forall id :: id in ids ==> IsEntry(cluster.state.broker, id))
                && r.value == Counted(cluster.state.broker, consumer, ids)
                && |r.value| == |ids|
                && (forall i :: 0 <= i < |ids| ==> r.value[i] == CountedAs(cluster.state.broker, consumer, |ids|, ids[i]))
                && forall m :: m in r.value ==> Vouched(cluster.state, consumer, m)
    {
      hide Exec, LegalRun, LogOk, Inv, Honest, Onward, BrokerGrows;
      OnwardRefl(cluster.state, consumer);
      if ids == [] { return Ok([]), []; }
      cluster.GoodIsInv();
      CountVouches(cluster.cfg, cluster.state, consumer, ids);
      CountIsExact(cluster.cfg, cluster.state, consumer, ids);
      var messages := Counted(cluster.state.broker, consumer, ids);
      var fault;
      fault, made := cluster.Send(Action.Count(consumer, Ids(ids)), consumer, start);
      r := if fault.Fine? then Ok(messages) else Err(ConnectionLost);
    }

    /**
      Take over what others left unacknowledged, then ask how often each was delivered. The
      count of a message never exceeds the deliveries made, whatever others do in between;
      the deleted ids were trimmed. A failure of either command loses both replies.
     */
    method ClaimStale(minIdle: nat, count: nat)
      returns (r: Result<(seq<Message>, seq<nat>), RedisError>, ghost made: seq<Call>)
      requires cluster.Good()
      modifies cluster
      ensures cluster.Good() && old(cluster.trace) <= cluster.trace
      ensures Onward(old(cluster.state), cluster.state, consumer)
      ensures cluster.calls == old(cluster.calls) + made
      ensures made != [] && made[0].before == old(cluster.state)
      ensures match r
              case Ok(found) => ClaimReplied(consumer, minIdle, count, made, found.0, found.1)
              case Err(_) => ClaimFailed(consumer, minIdle, count, made)
      ensures r.Ok? ==> TookOver(made[0], minIdle, count, r.value.0, r.value.1)
      ensures r.Ok? ==>
                && (forall m :: m in r.value.0 ==> Vouched(cluster.state, consumer, m))
                && Ids(r.value.1) <= MemoryOf(cluster.state, consumer).gone
    {
      hide ClaimedExactly, TookOver, Scans.AfterClaim;
      hide Exec, LegalRun, LogOk, Onward, Ids, Claimable, Counted, Vouched, MemoryOf, Grows, XAutoClaim;
      ghost var start := cluster.state;
      OnwardRefl(start, consumer);
      var found;
      found, made := Autoclaim(minIdle, count, start);
      if found.Err? { return Err(found.error), made; }
      if found.value.claimed == [] {
        NoneVouched(cluster.state, consumer);
        TookOverExactly(made[0], minIdle, count, found.value, []);
        return Ok(([], found.value.deleted)), made;
      }
      ghost var s := cluster.state;
      cluster.Interfere(consumer, start);
      MemoryLasts(s, cluster.state, consumer, found.value);
      s := cluster.state;
      var messages;
      ghost var asked;
      messages, asked := DeliveryCounts(found.value.claimed, start);
      MemoryLasts(s, cluster.state, consumer, found.value);
      made := made + asked;
      if messages.Err? { return Err(messages.error), made; }
      TookOverExactly(made[0], minIdle, count, found.value, messages.value);
      r := Ok((messages.value, found.value.deleted));
    }

    /** Takes ids out of the pending list; nothing is sent for an empty list. */
    method Ack(ids: seq<nat>) returns (r: Result<nat, RedisError>, ghost made: seq<Call>)
      requires cluster.Valid()
      modifies cluster
      ensures cluster.Valid() && old(cluster.trace) <= cluster.trace
      ensures old(cluster.Good()) && Legal(cluster.cfg, old(cluster.state), Action.Ack(consumer, Ids(ids)))
              ==> cluster.Good()
      ensures Onward(old(cluster.state), cluster.state, consumer)
      ensures cluster.calls == old(cluster.calls) + made
      ensures if ids == [] then made == [] else One(made, Action.Ack(consumer, Ids(ids)), old(cluster.state))
      ensures r.Ok? <==> ids == [] || made[0].fault.Fine?
      ensures if made == [] || made[0].fault.Refused? then cluster.state == old(cluster.state)
              else AckedExactly(old(cluster.state), cluster.state, ids)
      ensures r.Ok? ==>
                && cluster.state.broker.pel == old(cluster.state).broker.pel - Ids(ids)
                && r.value == |Ids(ids) * old(cluster.state).broker.pel.Keys|
    {
      hide Exec, LegalRun, LogOk, Onward, Legal;
      OnwardRefl(cluster.state, consumer);
      if ids == [] {
        NothingToAck(cluster.state.broker);
        return Ok(0), [];
      }
      var removed := |Ids(ids) * cluster.state.broker.pel.Keys|;
      var fault;
      fault, made := cluster.Send(Action.Ack(consumer, Ids(ids)), consumer, cluster.state);
      r := if fault.Fine? then Ok(removed) else Err(ConnectionLost);
    }

    /**
      Park and acknowledge in one transaction: afterwards the message is in the history of
      dead letters and not pending, or nothing has happened at all.
     */
    method DeadLetter(m: Message, reason: Reason) returns (r: Result<(), RedisError>, ghost made: seq<Call>)
      requires cluster.Valid()
      modifies cluster
      ensures cluster.Valid() && old(cluster.trace) <= cluster.trace
      ensures old(cluster.Good()) && m in MemoryOf(old(cluster.state), consumer).held && Deserved(cluster.cfg, m, reason)
              ==> cluster.Good()
      ensures Onward(old(cluster.state), cluster.state, consumer)
      ensures cluster.calls == old(cluster.calls) + made
      ensures |made| == 1 && made[0].command.Park? &&
              One(made, Action.Park(consumer, m, reason, made[0].command.wish), old(cluster.state))
      ensures r.Ok? <==> made[0].fault.Fine?
      ensures cluster.state ==
              if made[0].fault.Refused? then old(cluster.state)
              else
                var b := old(cluster.state).broker;
                old(cluster.state).(broker := b.(
                  pel := b.pel - {m.id}, acked := b.acked + ({m.id} * b.pel.Keys), dlq := cluster.state.broker.dlq,
                  parked := b.parked + [Parked(m.payload, reason, m.id, m.deliveryCount)]))
      ensures !made[0].fault.Refused? && cluster.cfg.maxLen > 0 ==>
                var dlq := cluster.state.broker.dlq;
                dlq != [] && dlq[|dlq| - 1] == Parked(m.payload, reason, m.id, m.deliveryCount)
    {
      hide Exec, LegalRun, LogOk, Onward, Deserved;
      OnwardRefl(cluster.state, consumer);
      var wish := AnyNat();
      var fault;
      fault, made := cluster.Send(Action.Park(consumer, m, reason, wish), consumer, cluster.state);
      r := if fault.Fine? then Ok(()) else Err(ConnectionLost);
    }

    // -------------------------------------------------------------- observability

    /** XINFO GROUPS: every group of the stream, this one among them if it exists. */
    method XInfoGroups(name: string) returns (groups: seq<GroupInfo>)
      ensures var b, g := cluster.state.broker, LastNamed(groups, name);
              if b.grouped then g.Some? && g.value.pending == |b.pel.Keys| && PossibleLag(b, g.value.lag) else g.None?
    {
      hide LastNamed, PossibleLag, UnreadCount;
      var b := cluster.state.broker;
      var unknown: bool := *;
      var extra := AnyNat();
      var known: nat := UnreadCount(b) + extra;
      var lag := if unknown && b.floor > 0 then None else Some(known);
      var other: GroupInfo := *;
      groups := if other.name == name then [] else [other];
      NoneNamed(groups, name);
      if b.grouped {
        LagIsPossible(b, lag, extra);
        LastIsNamed(groups, GroupInfo(name, |b.pel.Keys|, lag));
        groups := groups + [GroupInfo(name, |b.pel.Keys|, lag)];
      }
    }

    /** XINFO GROUPS and the loop over its reply: pending and lag of this group at one moment. */
    method GroupStats(group: string, ghost start: Sys)
      returns (r: Result<(nat, nat), RedisError>, ghost made: seq<Call>, ghost lag: Option<nat>)
      requires cluster.Good() && Onward(start, cluster.state, consumer)
      modifies cluster
      ensures cluster.Good() && old(cluster.trace) <= cluster.trace && Onward(start, cluster.state, consumer)
      ensures cluster.calls == old(cluster.calls) + made
      ensures One(made, Action.Inspect(consumer), old(cluster.state)) && (r.Ok? <==> made[0].fault.Fine?)
      ensures cluster.state.broker == old(cluster.state).broker
      ensures r.Ok? ==> PossibleLag(cluster.state.broker, lag)
                        && r.value.0 == StatsOf(cluster.state.broker, lag).pending
                        && r.value.1 == StatsOf(cluster.state.broker, lag).lag
    {
      hide Exec, LegalRun, LogOk, Onward, Grows, PossibleLag;
      lag := None;
      var fault;
      fault, made := cluster.Send(Action.Inspect(consumer), consumer, start);
      if !fault.Fine? { return Err(ConnectionLost), made, lag; }
      var groups := XInfoGroups(group);
      ghost var g := LastNamed(groups, group);
      lag := if g.Some? then g.value.lag else Some(UnreadCount(cluster.state.broker));
      KnownLag(cluster.state.broker);
      var pending, reported := PickGroup(groups, group);
      r := Ok((pending, reported));
    }

    /** The two XLENs: the length of the stream, and later that of the dead-letter stream. */
    method Lengths() returns (r: Result<(nat, nat), RedisError>, ghost made: seq<Call>)
      requires cluster.Good()
      modifies cluster
      ensures cluster.Good() && old(cluster.trace) <= cluster.trace
      ensures Onward(old(cluster.state), cluster.state, consumer)
      ensures cluster.calls == old(cluster.calls) + made
      ensures 1 <= |made| <= 2 && Inspected(made, consumer) && made[0].before == old(cluster.state)
      ensures r.Ok? <==> |made| == 2 && made[1].fault.Fine?
      ensures r.Ok? ==> r.value.0 == Length(made[0].before.broker) && r.value.1 == |made[1].before.broker.dlq|
    {
      hide Exec, LegalRun, LogOk, Onward, Grows, Length, Apply, Inspected;
      ghost var start := cluster.state;
      OnwardRefl(start, consumer);
      var length := Length(cluster.state.broker);
      var fault;
      fault, made := cluster.Send(Action.Inspect(consumer), consumer, start);
      FirstInspect(made, consumer, start);
      if !fault.Fine? { return Err(ConnectionLost), made; }
      cluster.Interfere(consumer, start);
      ghost var here, sent := cluster.state, [];
      var dlqLength := |cluster.state.broker.dlq|;
      fault, sent := cluster.Send(Action.Inspect(consumer), consumer, start);
      NextInspect(made, sent, consumer, here);
      made := made + sent;
      r := if fault.Fine? then Ok((length, dlqLength)) else Err(ConnectionLost);
    }

    /**
      Three commands, so three moments: the stream length is that of the first, the number of
      dead letters that of the second, pending and lag are those of the third. An unknown
      lag and a missing group read as 0. If the group exists and its lag was known, a report
      that looks drained means that every published entry is settled at the third moment.
     */
    method Stats(group: string)
      returns (r: Result<QueueStats, RedisError>, ghost made: seq<Call>, ghost lag: Option<nat>)
      requires cluster.Good()
      modifies cluster
      ensures cluster.Good() && old(cluster.trace) <= cluster.trace
      ensures Onward(old(cluster.state), cluster.state, consumer)
      ensures cluster.calls == old(cluster.calls) + made
      ensures 1 <= |made| <= 3 && made[0].before == old(cluster.state) && Inspected(made, consumer)
      ensures r.Ok? <==> |made| == 3 && made[2].fault.Fine?
      ensures r.Ok? ==>
                && r.value.length == Length(made[0].before.broker)
                && r.value.dlqLength == |made[1].before.broker.dlq|
                && cluster.state.broker == made[2].before.broker && PossibleLag(cluster.state.broker, lag)
                && r.value.pending == StatsOf(cluster.state.broker, lag).pending
                && r.value.lag == StatsOf(cluster.state.broker, lag).lag
      ensures r.Ok? ==>
                var first, now := made[0].before.broker, cluster.state.broker;
                && r.value.length == |Range(first.floor, |first.published|)|
                && r.value.pending == (if now.grouped then |now.pel.Keys| else 0)
                && r.value.lag == (if now.grouped && lag.Some? then lag.value else 0)
      ensures r.Ok? && LooksDrained(r.value) && cluster.state.broker.grouped && lag.Some? ==>
                forall id: nat :: IsEntry(cluster.state.broker, id) ==> Settled(cluster.cfg, cluster.state, id)
    {
      hide Exec, LegalRun, LogOk, Onward, Grows, Settled, Inv, PossibleLag, StatsOf, Length, Apply, Inspected;
      ghost var start := cluster.state;
      lag := None;
      cluster.GoodIsInv();
      LengthCounts(cluster.cfg, start);
      var lengths;
      lengths, made := Lengths();
      if lengths.Err? { return Err(lengths.error), made, lag; }
      cluster.Interfere(consumer, start);
      ghost var here, sent := cluster.state, [];
      var counts;
      counts, sent, lag := GroupStats(group, start);
      NextInspect(made, sent, consumer, here);
      made := made + sent;
      if counts.Err? { return Err(counts.error), made, lag; }
      r := Ok(QueueStats(lengths.value.0, counts.value.0, counts.value.1, lengths.value.1));
      StatsAre(cluster.state.broker, lag);
      cluster.GoodIsInv();
      if LooksDrained(r.value) && cluster.state.broker.grouped && lag.Some? {
        LooksDrainedIsSettled(cluster.cfg, cluster.state, lag);
      }
    }

    method PickGroup(groups: seq<GroupInfo>, name: string) returns (pending: nat, lag: nat)
      ensures var g := LastNamed(groups, name);
              && pending == (if g.Some? then g.value.pending else 0)
              && lag == (if g.Some? && g.value.lag.Some? then g.value.lag.value else 0)
    {
      pending, lag := 0, 0;
      for i := 0 to |groups|
        invariant var g := LastNamed(groups[..i], name);
                  && pending == (if g.Some? then g.value.pending else 0)
                  && lag == (if g.Some? && g.value.lag.Some? then g.value.lag.value else 0)
      {
        assert groups[..i + 1][..i] == groups[..i];
        if groups[i].name == name {
          pending := groups[i].pending;
          lag := if groups[i].lag.Some? then groups[i].lag.value else 0;
        }
      }
      assert groups[..|groups|] == groups;
    }
  }
}
