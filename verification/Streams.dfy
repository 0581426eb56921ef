/**
  The Redis stream behind `EventQueue`: what was published, how far it has been trimmed,
  the consumer group's cursor, its pending-entries list (PEL) and the dead-letter
  stream, together with the history that the server itself forgets.

  Entry ids only ever matter by their order, so an entry's id is its position in the
  order of publication, starting at 1; id 0 is the "0-0" before every entry.

  Every Redis command the service sends is one total function on `Broker`. Choices that
  Redis makes on its own (how far an approximate trim goes, how many pending entries one
  XAUTOCLAIM examines) are parameters.
 */
module Streams {
  import opened Prelude

  /** One slot of the PEL. `times` counts deliveries, `since` is the last delivery time. */
  datatype Pending = Pending(owner: string, times: nat, since: nat)

  /** What a worker holds after a delivery (`QueuedMessage` in the service). */
  datatype Message = Message(id: nat, payload: string, deliveryCount: nat)

  datatype Parked = Parked(payload: string, reason: Reason, originalId: nat, deliveryCount: nat)

  datatype Broker = Broker(
    published: seq<string>,     // every payload ever added; entry `id` is published[id - 1]
    floor: nat,                 // entries up to this id have been trimmed away
    grouped: bool,              // the consumer group exists
    cursor: nat,                // the group's last delivered id
    pel: map<nat, Pending>,
    dlq: seq<Parked>,           // dead letters still retained
    clock: nat,
    // History: never forgotten by the model, not known to Redis.
    parked: seq<Parked>,        // every dead letter ever written
    delivered: multiset<nat>,   // every delivery ever made
    acked: set<nat>,            // ids an XACK took out of the PEL
    vanished: set<nat>          // ids XAUTOCLAIM took out of the PEL because they were trimmed
  )

  const EMPTY := Broker([], 0, false, 0, map[], [], 0, [], multiset{}, {}, {})

  predicate IsEntry(b: Broker, id: nat) {
    1 <= id <= |b.published|
  }

  predicate Trimmed(b: Broker, id: nat) {
    1 <= id <= b.floor
  }

  predicate Dead(b: Broker, id: nat) {
    exists d :: d in b.parked && d.originalId == id
  }

  function Payload(b: Broker, id: nat): string
    requires IsEntry(b, id)
  {
    b.published[id - 1]
  }

  /** Ids in (lo, hi]. */
  function Range(lo: nat, hi: nat): (r: set<nat>)
    ensures forall id: nat :: id in r <==> lo < id <= hi
    ensures |r| == if lo <= hi then hi - lo else 0
  {
    if hi <= lo then {} else Range(lo, hi - 1) + {hi}
  }

  /** The unread entries are those after this id. */
  function Head(b: Broker): nat {
    if b.cursor < b.floor then b.floor else b.cursor
  }

  function Unread(b: Broker): set<nat> {
    Range(Head(b), |b.published|)
  }

  // --------------------------------------------------------------- commands

  /** How many of `length` entries an approximate MAXLEN trim drops: it stops at the bound. */
  function TrimCount(length: nat, wish: nat, maxLen: nat): nat {
    if length <= maxLen then 0 else if wish < length - maxLen then wish else length - maxLen
  }

  /** XADD with an approximate MAXLEN: append, then drop some of the oldest entries. */
  function XAdd(b: Broker, payload: string, wish: nat, maxLen: nat): Broker {
    var length := if b.floor <= |b.published| then |b.published| + 1 - b.floor else 0;
    b.(published := b.published + [payload],
       floor := b.floor + TrimCount(length, wish, maxLen))
  }

  /** XGROUP CREATE at id 0; BUSYGROUP leaves an existing group alone. */
  function XGroupCreate(b: Broker): Broker {
    b.(grouped := true)
  }

  /** The last id XREADGROUP hands out for the id `>`; COUNT 0 means no limit. */
  function ReadTo(b: Broker, count: nat): nat {
    if |b.published| <= Head(b) then Head(b)
    else if count == 0 || |b.published| <= Head(b) + count then |b.published|
    else Head(b) + count
  }

  function XReadGroup(b: Broker, owner: string, count: nat): Broker {
    if !b.grouped || ReadTo(b, count) == Head(b) then b
    else
      b.(cursor := ReadTo(b, count),
         pel := b.pel + (map id | id in Range(Head(b), ReadTo(b, count)) :: Pending(owner, 1, b.clock)),
         delivered := b.delivered + multiset(Range(Head(b), ReadTo(b, count))))
  }

  datatype Scanned = Scanned(claimed: seq<nat>, deleted: seq<nat>)

  predicate Stale(b: Broker, id: nat, minIdle: nat)
    requires id in b.pel
  {
    b.clock - b.pel[id].since >= minIdle
  }

  /**
    XAUTOCLAIM's walk over the PEL in id order, from `from` on. A slot whose entry was
    trimmed is reported as deleted, a slot idle for long enough is claimed, any other
    slot is passed over. `count` bounds the reply and `scan` the slots examined.
   */
  function Scan(b: Broker, from: nat, minIdle: nat, count: nat, scan: nat): Scanned
    decreases |b.published| + 1 - from
  {
    if from > |b.published| || count == 0 || scan == 0 then Scanned([], [])
    else if from !in b.pel then Scan(b, from + 1, minIdle, count, scan)
    else if Trimmed(b, from) then
      var r := Scan(b, from + 1, minIdle, count - 1, scan - 1);
      Scanned(r.claimed, [from] + r.deleted)
    else if !Stale(b, from, minIdle) then Scan(b, from + 1, minIdle, count, scan - 1)
    else
      var r := Scan(b, from + 1, minIdle, count - 1, scan - 1);
      Scanned([from] + r.claimed, r.deleted)
  }

  /** The walk from "0-0"; without a group the command fails and claims nothing. */
  function Claimable(b: Broker, minIdle: nat, count: nat, scan: nat): Scanned {
    if b.grouped then Scan(b, 1, minIdle, count, scan) else Scanned([], [])
  }

  function Ids(s: seq<nat>): set<nat> {
    set id | id in s
  }

  /** A claimed slot changes owner, counts one more delivery and is idle no longer. */
  function XAutoClaim(b: Broker, owner: string, minIdle: nat, count: nat, scan: nat): Broker {
    var r := Claimable(b, minIdle, count, scan);
    b.(pel := map id | id in b.pel && id !in Ids(r.deleted) ::
                if id in Ids(r.claimed) then Pending(owner, b.pel[id].times + 1, b.clock) else b.pel[id],
       delivered := b.delivered + multiset(Ids(r.claimed)),
       vanished := b.vanished + Ids(r.deleted))
  }

  /** The ids one consumer owns, from `from` on, in id order. */
  function OwnedFrom(b: Broker, owner: string, from: nat): seq<nat>
    decreases |b.published| + 1 - from
  {
    if from > |b.published| then []
    else if from in b.pel && b.pel[from].owner == owner then [from] + OwnedFrom(b, owner, from + 1)
    else OwnedFrom(b, owner, from + 1)
  }

  /** XPENDING - + count consumer: the first `count` ids this consumer owns. */
  function XPendingRange(b: Broker, owner: string, count: nat): seq<nat> {
    var own := OwnedFrom(b, owner, 1);
    if |own| <= count then own else own[..count]
  }

  /** XACK takes ids out of the PEL and nothing else; the entries stay in the stream. */
  function XAck(b: Broker, ids: set<nat>): Broker {
    b.(pel := b.pel - ids, acked := b.acked + (ids * b.pel.Keys))
  }

  /** MULTI: XADD to the dead-letter stream and XACK on the main one, EXEC. */
  function XPark(b: Broker, m: Message, reason: Reason, wish: nat, maxLen: nat): Broker {
    var d := Parked(m.payload, reason, m.id, m.deliveryCount);
    var grown := b.dlq + [d];
    XAck(b.(dlq := grown[TrimCount(|grown|, wish, maxLen)..], parked := b.parked + [d]), {m.id})
  }

  // ---------------------------------------------------------- well-formedness

  ghost predicate StreamOk(b: Broker) {
    && b.floor <= |b.published|
    && b.cursor <= |b.published|
    && (!b.grouped ==> b.cursor == 0)
  }

  ghost predicate PelOk(b: Broker) {
    forall id :: id in b.pel ==>
      && 1 <= id <= b.cursor
      && b.pel[id].since <= b.clock
      && 1 <= b.pel[id].times == b.delivered[id]
  }

  /**
    Every delivered id is in exactly one of: pending, acknowledged, vanished. An entry the
    cursor has passed without a delivery was trimmed before it could be read.
   */
  ghost predicate PartitionOk(b: Broker) {
    && (forall id :: id in b.delivered <==> id in b.pel || id in b.acked || id in b.vanished)
    && (forall id :: id in b.delivered ==> 1 <= id <= b.cursor)
    && b.pel.Keys !! b.acked !! b.vanished
    && (forall id :: id in b.vanished ==> Trimmed(b, id))
    && (forall id: nat :: 1 <= id <= b.cursor && id !in b.delivered ==> Trimmed(b, id))
  }

  ghost predicate WellFormed(b: Broker) {
    StreamOk(b) && PelOk(b) && PartitionOk(b)
  }

  /** Trimming happens only above the bound. */
  ghost predicate TrimOk(b: Broker, maxLen: nat) {
    0 < b.floor ==> b.floor + maxLen <= |b.published|
  }
}
