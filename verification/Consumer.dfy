/** `EventConsumer`: handling one message, a batch, and the bodies of the consume and reclaim loops. */
module Consumer {
  import opened Prelude
  import opened Ledger
  import opened Streams
  import opened Pipeline
  import opened Safety
  import opened Retry
  import opened Clusters
  import opened Queue
  import opened Processor
  import Drain
  import Rates

  /** How handling one message ends. */
  datatype Fate =
    | Processed(outcome: Outcome)
    | DeadLettered(reason: Reason)
    | NotParked(reason: Reason)     // the dead-letter transaction failed, or its reply was lost
    | LeftPending                   // out of attempts, or an unexpected error

  /** The handling of one message: its fate, the attempts at it and every remote call they made. */
  datatype Handled = Handled(fate: Fate, log: seq<Attempt<Outcome>>, calls: seq<Call>, asked: seq<Rates.Remote>)

  // ------------------------------------------------------- what the servers say

  /** A message in hand is safe while it is pending or settled. */
  ghost predicate Safe(cfg: Settings, s: Sys, id: nat) {
    id in s.broker.pel || Settled(cfg, s, id)
  }

  /** Whatever a worker holds is safe, in every reachable state. */
  lemma HeldIsSafe(cfg: Settings, s: Sys, me: string, m: Message)
    requires Inv(cfg, s) && m in MemoryOf(s, me).held
    ensures IsEntry(s.broker, m.id) && m.payload == Payload(s.broker, m.id) && Safe(cfg, s, m.id)
  {
    assert MemoryOk(cfg, s, MemoryOf(s, me));
    EntryIsSomewhere(cfg, s, m.id);
    assert m.id in s.broker.delivered;
  }

  /** What the fate of a message says about the servers. */
  ghost predicate FateOk(cfg: Settings, s: Sys, me: string, m: Message, fate: Fate) {
    match fate
    case Processed(_) => m.id in MemoryOf(s, me).done && Committed(cfg, s, m.id)
    case DeadLettered(reason) => Deserved(cfg, m, reason) && Dead(s.broker, m.id)
    case NotParked(reason) => Deserved(cfg, m, reason)
    case LeftPending => cfg.parse(m.payload).Some?
  }

  lemma FateStays(cfg: Settings, s: Sys, t: Sys, me: string, m: Message, fate: Fate)
    requires FateOk(cfg, s, me, m, fate) && Onward(s, t, me)
    ensures FateOk(cfg, t, me, m, fate)
  {
    SettledStays(cfg, s, t, m.id);
  }

  ghost predicate FatesOk(cfg: Settings, s: Sys, me: string, ms: seq<Message>, hs: seq<Handled>) {
    |hs| == |ms| && forall i :: 0 <= i < |ms| ==> FateOk(cfg, s, me, ms[i], hs[i].fate)
  }

  lemma FatesStay(cfg: Settings, s: Sys, t: Sys, me: string, ms: seq<Message>, hs: seq<Handled>)
    requires FatesOk(cfg, s, me, ms, hs) && Onward(s, t, me)
    ensures FatesOk(cfg, t, me, ms, hs)
  {
    forall i | 0 <= i < |ms| ensures FateOk(cfg, t, me, ms[i], hs[i].fate) {
      FateStays(cfg, s, t, me, ms[i], hs[i].fate);
    }
  }

  lemma FatesGrow(cfg: Settings, s: Sys, t: Sys, me: string, ms: seq<Message>, hs: seq<Handled>, m: Message, h: Handled)
    requires FatesOk(cfg, s, me, ms, hs) && Onward(s, t, me) && FateOk(cfg, t, me, m, h.fate)
    ensures FatesOk(cfg, t, me, ms + [m], hs + [h])
  {
    FatesStay(cfg, s, t, me, ms, hs);
  }

  // ---------------------------------------------------- what the consumer sent

  /** One dead-letter transaction for the message, and a fate that tells how it ended. */
  ghost predicate Parks(made: seq<Call>, me: string, m: Message, reason: Reason, fate: Fate) {
    && |made| == 1 && made[0].command.Park?
    && made[0].command == Park(me, m, reason, made[0].command.wish)
    && fate == if made[0].fault.Fine? then DeadLettered(reason) else NotParked(reason)
  }

  /**
    `_handle_one`, call by call. A payload that does not parse is dead-lettered at once.
    Otherwise the attempts follow the retry schedule, each witnessed by its calls, and the last
    decides: a normal return is left to the batch, a permanent error is dead-lettered, and after
    any other nothing more is sent.
   */
  ghost predicate HandledOk(cfg: Settings, me: string, maxAttempts: int, m: Message, h: Handled) {
    var ev := cfg.parse(m.payload);
    if ev.None? then
      h.log == [] && h.asked == [] && Parks(h.calls, me, m, InvalidEvent, h.fate)
    else if maxAttempts < 1 then
      h == Handled(LeftPending, [], [], [])
    else
      && h.log != [] && Settles(Replay(h.log), maxAttempts, |h.log|)
      && match h.log[|h.log| - 1]
         case Returned(outcome) =>
           h.fate == Processed(outcome) && Attempted(me, m, ev.value, h.log, h.calls, h.asked)
         case PermanentError(reason) =>
           && h.calls != [] && reason == UnknownCurrency
           && Parks([h.calls[|h.calls| - 1]], me, m, reason, h.fate)
           && Attempted(me, m, ev.value, h.log, h.calls[..|h.calls| - 1], h.asked)
         case _ =>
           h.fate == LeftPending && Attempted(me, m, ev.value, h.log, h.calls, h.asked)
  }

  /** A message left pending was left alone: no command of its handling acknowledges or parks anything. */
  lemma LeftAlone(cfg: Settings, me: string, maxAttempts: int, m: Message, h: Handled)
    requires HandledOk(cfg, me, maxAttempts, m, h)
    ensures h.fate.LeftPending? ==> forall c :: c in h.calls ==> IsStore(c, me, m)
    ensures h.fate.DeadLettered? || h.fate.NotParked? ==>
              && h.calls != [] && h.calls[|h.calls| - 1].command.Park?
              && forall c :: c in h.calls[..|h.calls| - 1] ==> IsStore(c, me, m)
    ensures h.fate.Processed? ==> h.calls != [] && forall c :: c in h.calls ==> IsStore(c, me, m)
  {
  }

  function AllCalls(hs: seq<Handled>): seq<Call> {
    if hs == [] then [] else AllCalls(hs[..|hs| - 1]) + hs[|hs| - 1].calls
  }

  function AllAsked(hs: seq<Handled>): seq<Rates.Remote> {
    if hs == [] then [] else AllAsked(hs[..|hs| - 1]) + hs[|hs| - 1].asked
  }

  lemma AllGrow(hs: seq<Handled>, h: Handled)
    ensures AllCalls(hs + [h]) == AllCalls(hs) + h.calls
    ensures AllAsked(hs + [h]) == AllAsked(hs) + h.asked
  {
    assert (hs + [h])[..|hs|] == hs;
  }

  /** The ids of the processed messages, in order: what one batch acknowledges. */
  function DoneIds(ms: seq<Message>, hs: seq<Handled>): seq<nat>
    requires |ms| == |hs|
  {
    if ms == [] then []
    else
      var n := |ms| - 1;
      DoneIds(ms[..n], hs[..n]) + (if hs[n].fate.Processed? then [ms[n].id] else [])
  }

  lemma {:induction false} DoneIdsAre(ms: seq<Message>, hs: seq<Handled>)
    requires |ms| == |hs|
    ensures forall id :: id in DoneIds(ms, hs) <==> exists i :: 0 <= i < |ms| && hs[i].fate.Processed? && ms[i].id == id
    decreases |ms|
  {
    if ms != [] {
      var n := |ms| - 1;
      DoneIdsAre(ms[..n], hs[..n]);
      forall id | exists i :: 0 <= i < |ms| && hs[i].fate.Processed? && ms[i].id == id
        ensures id in DoneIds(ms, hs)
      {
        var i :| 0 <= i < |ms| && hs[i].fate.Processed? && ms[i].id == id;
        if i < n { assert hs[..n][i].fate.Processed? && ms[..n][i].id == id; }
      }
      forall id | id in DoneIds(ms, hs)
        ensures exists i :: 0 <= i < |ms| && hs[i].fate.Processed? && ms[i].id == id
      {
        if id in DoneIds(ms[..n], hs[..n]) {
          var i :| 0 <= i < n && hs[..n][i].fate.Processed? && ms[..n][i].id == id;
          assert hs[i].fate.Processed? && ms[i].id == id;
        }
      }
    }
  }

  lemma DoneIdsGrow(ms: seq<Message>, hs: seq<Handled>, m: Message, h: Handled)
    requires |ms| == |hs|
    ensures DoneIds(ms + [m], hs + [h]) == DoneIds(ms, hs) + (if h.fate.Processed? then [m.id] else [])
  {
    assert (ms + [m])[..|ms|] == ms && (hs + [h])[..|ms|] == hs;
  }

  /** What one batch acknowledges is what the worker knows to be committed. */
  lemma DoneIdsAreDone(cfg: Settings, s: Sys, me: string, ms: seq<Message>, hs: seq<Handled>)
    requires FatesOk(cfg, s, me, ms, hs)
    ensures Legal(cfg, s, Ack(me, Ids(DoneIds(ms, hs))))
  {
    DoneIdsAre(ms, hs);
    assert Ids(DoneIds(ms, hs)) <= MemoryOf(s, me).done;
  }

  ghost predicate AllHandled(cfg: Settings, me: string, maxAttempts: int, ms: seq<Message>, hs: seq<Handled>) {
    |hs| == |ms| && forall i :: 0 <= i < |ms| ==> HandledOk(cfg, me, maxAttempts, ms[i], hs[i])
  }

  /** The batch ends with one XACK of exactly the processed ids; nothing is sent if there are none. */
  ghost predicate BatchOk(cfg: Settings, me: string, maxAttempts: int, ms: seq<Message>, hs: seq<Handled>,
                          tail: seq<Call>)
  {
    && AllHandled(cfg, me, maxAttempts, ms, hs)
    && if DoneIds(ms, hs) == [] then tail == []
       else |tail| == 1 && tail[0].command == Ack(me, Ids(DoneIds(ms, hs)))
  }

  // -------------------------------------------------------------- overdelivered

  /** The messages delivered more than `max` times, or those that were not, in order. */
  function Split(ms: seq<Message>, max: nat, over: bool): (r: seq<Message>)
    ensures forall m :: m in r ==> m in ms
    ensures forall m :: m in ms && (m.deliveryCount > max) == over ==> m in r
  {
    if ms == [] then []
    else
      var n := |ms| - 1;
      Split(ms[..n], max, over) + (if (ms[n].deliveryCount > max) == over then [ms[n]] else [])
  }

  lemma SplitGrows(ms: seq<Message>, k: nat, max: nat)
    requires k < |ms|
    ensures forall over :: Split(ms[..k + 1], max, over) ==
                           Split(ms[..k], max, over) + (if (ms[k].deliveryCount > max) == over then [ms[k]] else [])
  {
    assert ms[..k + 1][..k] == ms[..k];
  }

  /** One dead-letter transaction per message, in order, for having been delivered too often. */
  ghost predicate Buried(me: string, ms: seq<Message>, made: seq<Call>) {
    && |made| == |ms|
    && forall i :: 0 <= i < |ms| ==>
         made[i].command.Park? && made[i].command == Park(me, ms[i], ExceededDeliveries, made[i].command.wish)
  }

  lemma BuriedGrows(me: string, ms: seq<Message>, made: seq<Call>, m: Message, more: seq<Call>, fate: Fate)
    requires Buried(me, ms, made) && Parks(more, me, m, ExceededDeliveries, fate)
    ensures Buried(me, ms + [m], made + more)
  {
  }

  lemma StartSplit(me: string, ms: seq<Message>, max: nat)
    ensures forall over :: Split(ms[..0], max, over) == []
    ensures Buried(me, [], [])
  {
  }

  // ---------------------------------------------------------------- whole turns

  /**
    One turn of a loop: the calls that fetched messages, the messages, the dead-letter calls, the
    messages handled as a batch, their handling and the closing acknowledgement.
   */
  datatype Turn = Turn(fetched: seq<Call>, ms: seq<Message>, buried: seq<Call>, retried: seq<Message>,
                       hs: seq<Handled>, tail: seq<Call>)

  function TurnCalls(t: Turn): seq<Call> {
    t.fetched + t.buried + AllCalls(t.hs) + t.tail
  }

  function AllTurnCalls(ts: seq<Turn>): seq<Call> {
    if ts == [] then [] else AllTurnCalls(ts[..|ts| - 1]) + TurnCalls(ts[|ts| - 1])
  }

  lemma TurnsGrow(ts: seq<Turn>, t: Turn)
    ensures AllTurnCalls(ts + [t]) == AllTurnCalls(ts) + TurnCalls(t) && AllTurnCalls([]) == []
  {
    assert (ts + [t])[..|ts|] == ts;
  }

  /** A read that replied hands over the next unread entries, and every one of them is handled. */
  ghost predicate ConsumeOk(cfg: Settings, me: string, maxAttempts: int, t: Turn) {
    && (if cfg.batchSize == 0 then t.fetched == []
        else |t.fetched| == 1 && t.fetched[0].command == Read(me, cfg.batchSize, t.fetched[0].fault.Fine?))
    && t.ms == (if t.fetched != [] && t.fetched[0].fault.Fine? then Handout(t.fetched[0].before.broker, cfg.batchSize)
                else [])
    && t.buried == [] && t.retried == t.ms
    && BatchOk(cfg, me, maxAttempts, t.ms, t.hs, t.tail)
  }

  /** The claim and the acknowledgement of the trimmed ids: all of it replied, or the turn is over. */
  ghost predicate FetchOk(cfg: Settings, me: string, fetched: seq<Call>, ms: seq<Message>, deleted: seq<nat>, ok: bool) {
    || (!ok && ms == [] && deleted == [] && ClaimFailed(me, cfg.minIdle, cfg.batchSize, fetched))
    || (ok && deleted == [] && ClaimReplied(me, cfg.minIdle, cfg.batchSize, fetched, ms, []))
    || (&& deleted != [] && fetched != []
        && var n := |fetched| - 1;
           && ClaimReplied(me, cfg.minIdle, cfg.batchSize, fetched[..n], ms, deleted)
           && fetched[n].command == Ack(me, Ids(deleted)) && ok == fetched[n].fault.Fine?)
  }

  /** Once claiming went well every claimed message is buried or handled; otherwise none is. */
  ghost predicate ReclaimOk(cfg: Settings, me: string, maxAttempts: int, t: Turn, deleted: seq<nat>, ok: bool) {
    && FetchOk(cfg, me, t.fetched, t.ms, deleted, ok)
    && (if ok then
          && t.retried == Split(t.ms, cfg.maxDeliveries, false)
          && Buried(me, Split(t.ms, cfg.maxDeliveries, true), t.buried)
        else t.retried == [] && t.buried == [])
    && BatchOk(cfg, me, maxAttempts, t.retried, t.hs, t.tail)
  }

  /** A turn of either loop. */
  ghost predicate TurnOk(cfg: Settings, me: string, maxAttempts: int, t: Turn) {
    || ConsumeOk(cfg, me, maxAttempts, t)
    || exists deleted, ok :: ReclaimOk(cfg, me, maxAttempts, t, deleted, ok)
  }

  lemma EmptyBatch(cfg: Settings, s: Sys, me: string, maxAttempts: int)
    ensures BatchOk(cfg, me, maxAttempts, [], [], []) && AllCalls([]) == [] && FatesOk(cfg, s, me, [], [])
  {
  }

  // ----------------------------------------------------- a turn of the code drains

  ghost predicate Worked(cfg: Settings, c: Call) {
    !c.fault.Refused? && Drain.Productive(cfg, c.before.broker, c.command)
  }

  /** Some call of the turn took effect and got something done. */
  ghost predicate GotDone(cfg: Settings, calls: seq<Call>) {
    exists c :: c in calls && Worked(cfg, c)
  }

  /** While the turn counts and buries, nobody else takes, acknowledges or buries the oldest entry. */
  ghost predicate OldestWaits(t: Turn, me: string)
    requires t.fetched != [] && t.fetched[0].before.broker.pel.Keys != {}
  {
    var b := t.fetched[0].before.broker;
    var id := Drain.Oldest(b.pel);
    && (|t.fetched| > 1 && t.fetched[1].command.Count? ==>
          && WellFormed(t.fetched[1].before.broker)
          && Drain.OldestSlot(t.fetched[1].before.broker, id, Pending(me, b.pel[id].times + 1, b.clock)))
    && forall c :: c in t.buried ==>
         !c.fault.Refused? && (c.command.Park? && c.command.m.id == id ==> id in c.before.broker.pel)
  }

  lemma {:induction false} CountedAt(b: Broker, me: string, ids: seq<nat>, id: nat) returns (i: nat)
    requires id in ids && IsEntry(b, id)
    ensures i < |ids| && ids[i] == id
    ensures Counted(b, me, ids)[i].deliveryCount == ReportedCount(b, me, |ids|, id) && Counted(b, me, ids)[i].id == id
  {
    i :| 0 <= i < |ids| && ids[i] == id;
  }

  /**
    The turn the code makes is the round that drains the backlog: if the oldest pending entry
    is due, the claim gets something done, or else the dead letter does if others leave the
    entry alone meanwhile.
   */
  lemma ReclaimTurnGetsSomethingDone(cfg: Settings, me: string, maxAttempts: int, t: Turn, deleted: seq<nat>)
    requires ReclaimOk(cfg, me, maxAttempts, t, deleted, true) && t.fetched != [] && t.fetched[0].command.Claim?
    requires WellFormed(t.fetched[0].before.broker) && Drain.OldestIsDue(cfg, t.fetched[0].before.broker)
    requires cfg.batchSize > 0 && t.fetched[0].command.scan > 0
    requires !Drain.Productive(cfg, t.fetched[0].before.broker, t.fetched[0].command) ==> OldestWaits(t, me)
    ensures GotDone(cfg, TurnCalls(t))
  {
    var claim := t.fetched[0];
    assert ClaimHeads(cfg, me, t) by { ClaimIsFirst(cfg, me, maxAttempts, t, deleted); }
    if Drain.Productive(cfg, claim.before.broker, claim.command) {
      assert claim in TurnCalls(t);
    } else {
      LastOneIsBuried(cfg, me, maxAttempts, t, deleted);
    }
  }

  ghost predicate ClaimHeads(cfg: Settings, me: string, t: Turn)
    requires t.fetched != [] && t.fetched[0].command.Claim?
  {
    var claim := t.fetched[0];
    claim.fault.Fine? && claim.command == Claim(me, cfg.minIdle, cfg.batchSize, claim.command.scan, true)
  }

  lemma ClaimIsFirst(cfg: Settings, me: string, maxAttempts: int, t: Turn, deleted: seq<nat>)
    requires ReclaimOk(cfg, me, maxAttempts, t, deleted, true) && t.fetched != [] && t.fetched[0].command.Claim?
    ensures ClaimHeads(cfg, me, t)
    ensures var found := FoundBy(t.fetched[0]).claimed;
            found != [] ==>
              && |t.fetched| > 1 && t.fetched[1].command.Count?
              && t.ms == Counted(t.fetched[1].before.broker, me, found)
  {
    hide BatchOk, Claimable, Counted;
    var n := |t.fetched| - 1;
    if deleted != [] {
      assert t.fetched[..n][0] == t.fetched[0];
      if FoundBy(t.fetched[0]).claimed != [] { assert t.fetched[..n][1] == t.fetched[1]; }
    }
  }

  /** The claim took the oldest entry for one delivery too many, and the count says so. */
  lemma LastOneIsOver(cfg: Settings, me: string, maxAttempts: int, t: Turn, deleted: seq<nat>) returns (m: Message)
    requires ReclaimOk(cfg, me, maxAttempts, t, deleted, true) && t.fetched != [] && t.fetched[0].command.Claim?
    requires WellFormed(t.fetched[0].before.broker) && Drain.OldestIsDue(cfg, t.fetched[0].before.broker)
    requires cfg.batchSize > 0 && t.fetched[0].command.scan > 0 && OldestWaits(t, me)
    requires !Drain.Productive(cfg, t.fetched[0].before.broker, t.fetched[0].command)
    ensures m.id == Drain.Oldest(t.fetched[0].before.broker.pel) && m in Split(t.ms, cfg.maxDeliveries, true)
  {
    hide BatchOk, WellFormed, Claimable, Counted, ReportedCount, Drain.OldestSlot, Split, ReclaimOk;
    var claim := t.fetched[0];
    var b, found := claim.before.broker, FoundBy(claim).claimed;
    var id := Drain.Oldest(b.pel);
    ClaimIsFirst(cfg, me, maxAttempts, t, deleted);
    Drain.ClaimTakesOldest(cfg, claim.before, Drain.Round(me, claim.command.scan, 0, [], []));
    assert id in found;
    var c := t.fetched[1].before.broker;
    Drain.OldestIsCounted(c, me, |found|, id, Pending(me, b.pel[id].times + 1, b.clock));
    var i := CountedAt(c, me, found, id);
    m := t.ms[i];
    assert m in t.ms;
  }

  lemma LastOneIsBuried(cfg: Settings, me: string, maxAttempts: int, t: Turn, deleted: seq<nat>)
    requires ReclaimOk(cfg, me, maxAttempts, t, deleted, true) && t.fetched != [] && t.fetched[0].command.Claim?
    requires WellFormed(t.fetched[0].before.broker) && Drain.OldestIsDue(cfg, t.fetched[0].before.broker)
    requires cfg.batchSize > 0 && t.fetched[0].command.scan > 0 && OldestWaits(t, me)
    requires !Drain.Productive(cfg, t.fetched[0].before.broker, t.fetched[0].command)
    ensures GotDone(cfg, TurnCalls(t))
  {
    hide ReclaimOk, WellFormed, Drain.OldestSlot, Drain.OldestIsDue, Drain.Productive, Split, TurnCalls;
    var m := LastOneIsOver(cfg, me, maxAttempts, t, deleted);
    TurnBuries(cfg, me, maxAttempts, t, deleted);
    var park := ParkOf(me, Split(t.ms, cfg.maxDeliveries, true), t.buried, m);
    ParkIsProductive(cfg, park);
  }

  lemma TurnBuries(cfg: Settings, me: string, maxAttempts: int, t: Turn, deleted: seq<nat>)
    requires ReclaimOk(cfg, me, maxAttempts, t, deleted, true)
    ensures Buried(me, Split(t.ms, cfg.maxDeliveries, true), t.buried)
    ensures forall c :: c in t.buried ==> c in TurnCalls(t)
  {
    hide FetchOk, BatchOk, Buried, Split, AllCalls;
  }

  lemma ParkOf(me: string, ms: seq<Message>, made: seq<Call>, m: Message) returns (c: Call)
    requires Buried(me, ms, made) && m in ms
    ensures c in made && c.command.Park? && c.command.m == m
  {
    var j :| 0 <= j < |ms| && ms[j] == m;
    c := made[j];
  }

  lemma ParkIsProductive(cfg: Settings, c: Call)
    requires c.command.Park?
    ensures c.command.m.id in c.before.broker.pel ==> Drain.Productive(cfg, c.before.broker, c.command)
  {
  }

  /** A read that hands something over gets something done as well. */
  lemma ConsumeTurnGetsSomethingDone(cfg: Settings, me: string, maxAttempts: int, t: Turn)
    requires ConsumeOk(cfg, me, maxAttempts, t) && t.fetched != [] && !t.fetched[0].fault.Refused?
    requires t.fetched[0].before.broker.grouped && Drain.UnreadCount(t.fetched[0].before.broker) > 0
    ensures GotDone(cfg, TurnCalls(t))
  {
    hide BatchOk, Handout, AllCalls;
    assert t.fetched[0] in TurnCalls(t);
  }

  /** How many of the calls took effect and got something done. */
  ghost function ProductiveCalls(cfg: Settings, calls: seq<Call>): nat {
    if calls == [] then 0
    else
      var c := calls[|calls| - 1];
      ProductiveCalls(cfg, calls[..|calls| - 1]) +
      (if Worked(cfg, c) then 1 else 0)
  }

  lemma {:induction false} ProductiveCallsAreCounted(cfg: Settings, calls: seq<Call>)
    ensures ProductiveCalls(cfg, calls) ==
            |set i | 0 <= i < |calls| && Worked(cfg, calls[i])|
    decreases |calls|
  {
    hide Worked;
    if calls != [] {
      var n := |calls| - 1;
      ProductiveCallsAreCounted(cfg, calls[..n]);
      var before := set i | 0 <= i < n && Worked(cfg, calls[..n][i]);
      assert (set i | 0 <= i < |calls| && Worked(cfg, calls[i])) ==
             before + (if Worked(cfg, calls[n]) then {n} else {});
    }
  }

  lemma {:induction false} ProductiveCallsAdd(cfg: Settings, xs: seq<Call>, ys: seq<Call>)
    ensures ProductiveCalls(cfg, xs + ys) == ProductiveCalls(cfg, xs) + ProductiveCalls(cfg, ys)
    decreases |ys|
  {
    hide Drain.Productive;
    if ys == [] {
      assert xs + ys == xs;
    } else {
      ProductiveCallsAdd(cfg, xs, ys[..|ys| - 1]);
      assert (xs + ys)[..|xs + ys| - 1] == xs + ys[..|ys| - 1];
    }
  }

  lemma {:induction false} GotDoneCounts(cfg: Settings, calls: seq<Call>)
    ensures GotDone(cfg, calls) ==> ProductiveCalls(cfg, calls) >= 1
    decreases |calls|
  {
    hide Drain.Productive;
    if GotDone(cfg, calls) {
      var c :| c in calls && !c.fault.Refused? && Drain.Productive(cfg, c.before.broker, c.command);
      if c != calls[|calls| - 1] {
        assert c in calls[..|calls| - 1];
        GotDoneCounts(cfg, calls[..|calls| - 1]);
      }
    }
  }

  /** The calls that took effect did so between two places of the trace. */
  ghost predicate Within(cfg: Settings, trace: seq<Action>, calls: seq<Call>, lo: nat, hi: nat) {
    forall c :: c in calls && !c.fault.Refused? ==> lo <= c.at < hi && Placed(cfg, trace, c)
  }

  lemma LastCall(cfg: Settings, trace: seq<Action>, calls: seq<Call>, lo: nat, hi: nat)
    requires calls != [] && hi <= |trace| && InOrder(calls) && Within(cfg, trace, calls, lo, hi)
    ensures var n := |calls| - 1;
            var c, rest := calls[n], calls[..n];
            && InOrder(rest)
            && if c.fault.Refused? then Within(cfg, trace, rest, lo, hi)
               else
                 && lo <= c.at < hi && Within(cfg, trace, rest, lo, c.at)
                 && trace[c.at] == c.command && c.before == Exec(cfg, INITIAL, trace[..c.at])
  {
    hide Exec;
    var n := |calls| - 1;
    assert calls[n] in calls;
    forall d | d in calls[..n] && !d.fault.Refused?
      ensures d in calls && (!calls[n].fault.Refused? ==> d.at < calls[n].at)
    {
      var i :| 0 <= i < n && calls[i] == d;
    }
  }

  /** Calls between two places of the trace that took effect are different steps of the run between them. */
  lemma {:induction false} CallsAreSteps(cfg: Settings, trace: seq<Action>, calls: seq<Call>, lo: nat, hi: nat)
    requires lo <= hi <= |trace| && InOrder(calls) && Within(cfg, trace, calls, lo, hi)
    ensures ProductiveCalls(cfg, calls) <= Drain.ProductiveSteps(cfg, Exec(cfg, INITIAL, trace[..lo]), trace[lo..hi])
    decreases |calls|
  {
    hide Exec, Drain.Productive, Drain.ProductiveSteps, InOrder, Within;
    if calls != [] {
      var n := |calls| - 1;
      var c, rest := calls[n], calls[..n];
      LastCall(cfg, trace, calls, lo, hi);
      if !c.fault.Refused? {
        CallsAreSteps(cfg, trace, rest, lo, c.at);
        OneStepMore(cfg, trace, lo, c.at, hi);
      } else {
        CallsAreSteps(cfg, trace, rest, lo, hi);
      }
    }
  }

  lemma OneStepMore(cfg: Settings, trace: seq<Action>, lo: nat, at: nat, hi: nat)
    requires lo <= at < hi <= |trace|
    ensures var s := Exec(cfg, INITIAL, trace[..lo]);
            Drain.ProductiveSteps(cfg, s, trace[lo..hi]) >=
            Drain.ProductiveSteps(cfg, s, trace[lo..at])
            + (if Drain.Productive(cfg, Exec(cfg, INITIAL, trace[..at]).broker, trace[at]) then 1 else 0)
  {
    hide Exec, LegalRun, Drain.Productive, Drain.ProductiveSteps;
    var s := Exec(cfg, INITIAL, trace[..lo]);
    var past, now, later := trace[lo..at], [trace[at]], trace[at + 1..hi];
    assert trace[lo..hi] == past + (now + later);
    Drain.ProductiveSplit(cfg, s, past, now + later);
    ExecSplit(cfg, INITIAL, trace[..lo], past);
    assert trace[..lo] + past == trace[..at];
    var t := Exec(cfg, INITIAL, trace[..at]);
    Drain.ProductiveSplit(cfg, t, now, later);
    Drain.SingleStep(cfg, t, trace[at]);
  }

  /** How many turns got something done. */
  ghost function BusyTurns(cfg: Settings, turns: seq<Turn>): nat {
    if turns == [] then 0
    else BusyTurns(cfg, turns[..|turns| - 1]) + (if GotDone(cfg, TurnCalls(turns[|turns| - 1])) then 1 else 0)
  }

  lemma {:induction false} BusyTurnsAreCounted(cfg: Settings, turns: seq<Turn>)
    ensures BusyTurns(cfg, turns) == |set i | 0 <= i < |turns| && GotDone(cfg, TurnCalls(turns[i]))|
    decreases |turns|
  {
    hide TurnCalls, GotDone;
    if turns != [] {
      var n := |turns| - 1;
      BusyTurnsAreCounted(cfg, turns[..n]);
      var before := set i | 0 <= i < n && GotDone(cfg, TurnCalls(turns[..n][i]));
      assert (set i | 0 <= i < |turns| && GotDone(cfg, TurnCalls(turns[i]))) ==
             before + (if GotDone(cfg, TurnCalls(turns[n])) then {n} else {});
    }
  }

  lemma {:induction false} BusyTurnsCall(cfg: Settings, turns: seq<Turn>)
    ensures BusyTurns(cfg, turns) <= ProductiveCalls(cfg, AllTurnCalls(turns))
    decreases |turns|
  {
    if turns != [] {
      hide TurnCalls, GotDone, ProductiveCalls;
      var past, t := turns[..|turns| - 1], turns[|turns| - 1];
      BusyTurnsCall(cfg, past);
      GotDoneCounts(cfg, TurnCalls(t));
      ProductiveCallsAdd(cfg, AllTurnCalls(past), TurnCalls(t));
    }
  }

  /**
    The code drains the backlog: since the trace was at `lo`, if nothing was published, no more of
    a worker's turns got something done than the measure of the state there allows.
   */
  lemma BusyTurnsAreBounded(cfg: Settings, trace: seq<Action>, calls: seq<Call>, before: seq<Call>, turns: seq<Turn>,
                            lo: nat)
    requires LogOk(cfg, trace, calls) && LegalRun(cfg, INITIAL, trace) && calls == before + AllTurnCalls(turns)
    requires lo <= |trace| && Drain.NoPublish(trace[lo..])
    requires forall c :: c in AllTurnCalls(turns) ==> lo <= c.at
    ensures var b := Exec(cfg, INITIAL, trace[..lo]).broker;
            BusyTurns(cfg, turns) <= Drain.Rank(cfg, b, Drain.Backlog(b))
  {
    hide Exec, LegalRun, AllTurnCalls, ProductiveCalls;
    hide Drain.NoPublish, Drain.Rank, Drain.ProductiveSteps, Drain.Backlog;
    hide BusyTurns, Inv, Within;
    var mine := AllTurnCalls(turns);
    BusyTurnsCall(cfg, turns);
    assert forall c :: c in mine ==> c in calls;
    assert InOrder(mine) by { SuffixInOrder(before, mine); }
    MineWithin(cfg, trace, calls, mine, lo);
    CallsAreSteps(cfg, trace, mine, lo, |trace|);
    assert trace[lo..|trace|] == trace[lo..];
    ExecSplit(cfg, INITIAL, trace[..lo], trace[lo..]);
    assert trace[..lo] + trace[lo..] == trace;
    Reachable(cfg, trace[..lo]);
    var s := Exec(cfg, INITIAL, trace[..lo]);
    Drain.DrainBound(cfg, s, trace[lo..], Drain.Backlog(s.broker));
  }

  lemma SuffixInOrder(xs: seq<Call>, ys: seq<Call>)
    requires InOrder(xs + ys)
    ensures InOrder(ys)
  {
    forall i, j | 0 <= i < j < |ys|
      ensures ys[i].at <= ys[j].at && (!ys[i].fault.Refused? ==> ys[i].at < ys[j].at)
    {
      assert ys[i] == (xs + ys)[|xs| + i] && ys[j] == (xs + ys)[|xs| + j];
    }
  }

  lemma MineWithin(cfg: Settings, trace: seq<Action>, calls: seq<Call>, mine: seq<Call>, lo: nat)
    requires LogOk(cfg, trace, calls) && forall c :: c in mine ==> c in calls && lo <= c.at
    ensures Within(cfg, trace, mine, lo, |trace|)
  {
  }

  /** Calls logged after one are not placed before it. */
  lemma AfterFirst(calls: seq<Call>, before: seq<Call>, first: seq<Call>, mine: seq<Call>)
    requires InOrder(calls) && calls == before + first + mine && |first| == 1
    ensures forall c :: c in mine ==> first[0].at <= c.at
  {
    forall c | c in mine ensures first[0].at <= c.at {
      var i :| 0 <= i < |mine| && mine[i] == c;
      assert calls[|before|] == first[0] && calls[|before| + 1 + i] == c;
    }
  }

  class EventConsumer {
    const queue: EventQueue
    const processor: EventProcessor
    const maxAttempts: int
    const base: real
    const maxDelay: real

    constructor (queue: EventQueue, processor: EventProcessor, maxAttempts: int, base: real, maxDelay: real)
      requires queue.cluster == processor.cluster && queue.consumer == processor.consumer
      ensures this.queue == queue && this.processor == processor && Wired()
    {
      this.queue, this.processor := queue, processor;
      this.maxAttempts, this.base, this.maxDelay := maxAttempts, base, maxDelay;
    }

    /** Both collaborators talk to the same servers in the name of the same consumer. */
    ghost predicate Wired() {
      queue.cluster == processor.cluster && queue.consumer == processor.consumer
    }

    ghost predicate Ready()
      reads processor.cluster, processor.rates.service
    {
      Wired() && processor.Ready()
    }

    ghost predicate Holds(ms: seq<Message>)
      reads processor.cluster
    {
      forall m :: m in ms ==> m in MemoryOf(processor.cluster.state, processor.consumer).held
    }

    lemma StillHolds(start: Sys, ms: seq<Message>, m: Message)
      requires forall x :: x in ms ==> x in MemoryOf(start, processor.consumer).held
      requires Onward(start, processor.cluster.state, processor.consumer) && m in ms
      ensures Holds([m])
    {
    }

    lemma AllSafe(ms: seq<Message>)
      requires Ready() && Holds(ms)
      ensures forall m :: m in ms ==> Safe(processor.cluster.cfg, processor.cluster.state, m.id)
    {
      processor.cluster.GoodIsInv();
      forall m | m in ms ensures Safe(processor.cluster.cfg, processor.cluster.state, m.id) {
        HeldIsSafe(processor.cluster.cfg, processor.cluster.state, processor.consumer, m);
      }
    }

    /** `_dead_letter`: a failure is swallowed and leaves the message to the reclaim loop. */
    method DeadLetter(m: Message, reason: Reason) returns (ghost fate: Fate, ghost made: seq<Call>)
      requires Ready() && Holds([m]) && Deserved(processor.cluster.cfg, m, reason)
      modifies processor.cluster
      ensures Ready() && old(processor.cluster.trace) <= processor.cluster.trace
      ensures Onward(old(processor.cluster.state), processor.cluster.state, processor.consumer)
      ensures processor.cluster.calls == old(processor.cluster.calls) + made
      ensures Parks(made, processor.consumer, m, reason, fate)
      ensures FateOk(processor.cluster.cfg, processor.cluster.state, processor.consumer, m, fate)
      ensures fate.DeadLettered? ==> m.id !in processor.cluster.state.broker.pel
    {
      hide Exec, LegalRun, LogOk, Deserved, Grows, Remembers;
      assert m in [m];
      ghost var start := processor.cluster.state;
      OnwardRefl(start, processor.consumer);
      processor.cluster.Interfere(processor.consumer, start);
      ghost var here := processor.cluster.state;
      StillHolds(start, [m], m);
      assert m in [m];
      var r;
      r, made := queue.DeadLetter(m, reason);
      OnwardTrans(start, here, processor.cluster.state, processor.consumer);
      fate := if r.Ok? then DeadLettered(reason) else NotParked(reason);
      if r.Ok? {
        assert processor.cluster.state.broker.parked[|here.broker.parked|].originalId == m.id;
      }
    }

    /** The branches of `_handle_one` after processing: acknowledge, dead-letter or leave alone. */
    method Conclude(m: Message, ghost ev: Event, r: Attempt<Outcome>)
      returns (ready: Option<nat>, ghost fate: Fate, ghost made: seq<Call>)
      requires Ready() && Holds([m]) && processor.cluster.cfg.parse(m.payload) == Some(ev)
      requires r.Returned? ==> m.id in MemoryOf(processor.cluster.state, processor.consumer).done
      requires r.PermanentError? ==> r.reason == UnknownCurrency && !Convertible(processor.cluster.cfg, ev.currency)
      modifies processor.cluster
      ensures Ready() && old(processor.cluster.trace) <= processor.cluster.trace
      ensures Onward(old(processor.cluster.state), processor.cluster.state, processor.consumer)
      ensures processor.cluster.calls == old(processor.cluster.calls) + made
      ensures ready == (if fate.Processed? then Some(m.id) else None)
      ensures match r
              case Returned(outcome) => fate == Processed(outcome) && made == []
              case PermanentError(reason) => Parks(made, processor.consumer, m, reason, fate)
              case _ => fate == LeftPending && made == []
      ensures FateOk(processor.cluster.cfg, processor.cluster.state, processor.consumer, m, fate)
    {
      hide Exec, LegalRun, LogOk, Honest, MemoryOk;
      OnwardRefl(processor.cluster.state, processor.consumer);
      ready, made := None, [];
      match r
      case Returned(outcome) =>
        processor.cluster.GoodIsInv();
        DoneIsCommitted(processor.cluster.cfg, processor.cluster.state, processor.consumer, m.id);
        ready, fate := Some(m.id), Processed(outcome);
      case PermanentError(reason) =>
        fate, made := DeadLetter(m, reason);
      case _ =>
        fate := LeftPending;
    }

    /**
      `_handle_one`. The id comes back for acknowledgement exactly when processing returned
      normally, so its row is committed; the record of the handling is that of `HandledOk`.
     */
    method HandleOne(m: Message) returns (ready: Option<nat>, ghost h: Handled)
      requires Ready() && Holds([m])
      modifies processor.cluster, processor.rates.service
      ensures Ready() && old(processor.cluster.trace) <= processor.cluster.trace
      ensures Onward(old(processor.cluster.state), processor.cluster.state, processor.consumer)
      ensures processor.cluster.calls == old(processor.cluster.calls) + h.calls
      ensures processor.rates.service.asked == old(processor.rates.service.asked) + h.asked
      ensures ready == if h.fate.Processed? then Some(m.id) else None
      ensures HandledOk(processor.cluster.cfg, processor.consumer, maxAttempts, m, h)
      ensures FateOk(processor.cluster.cfg, processor.cluster.state, processor.consumer, m, h.fate)
    {
      hide Exec, LegalRun, LogOk, Honest, Settles, FateOk, Attempted, FirstEver, Rates.Exec, Rates.LegalRun;
      hide Onward, HandledOk, Replay, WaitsWithin, TimesInserted, Told;
      assert m in [m];
      ghost var start := processor.cluster.state;
      var ev := processor.cluster.cfg.parse(m.payload);
      ghost var fate, made;
      if ev.None? {
        fate, made := DeadLetter(m, InvalidEvent);
        h := Handled(fate, [], made, []);
        HandledUnparsed(processor.cluster.cfg, processor.consumer, maxAttempts, m, h);
        return None, h;
      }
      var r, log, waits;
      ghost var tried, asked;
      r, log, waits, tried, asked := processor.ProcessWithRetry(m, ev.value, maxAttempts, base, maxDelay);
      ghost var here := processor.cluster.state;
      StillHolds(start, [m], m);
      if maxAttempts >= 1 {
        ToldMeans(processor.cluster.cfg, here, processor.rates.service.world, processor.consumer, m, ev.value, r);
      }
      ready, fate, made := Conclude(m, ev.value, r);
      OnwardTrans(start, here, processor.cluster.state, processor.consumer);
      h := Handled(fate, log, tried + made, asked);
      HandledByAttempts(processor.cluster.cfg, processor.consumer, maxAttempts, m, h, tried, made);
    }

    lemma ToldMeans(cfg: Settings, s: Sys, world: Rates.World, me: string, m: Message, ev: Event, r: Attempt<Outcome>)
      requires Told(cfg, s, world, me, m, ev, r)
      ensures r.Returned? ==> m.id in MemoryOf(s, me).done
      ensures r.PermanentError? ==> r.reason == UnknownCurrency && !Convertible(cfg, ev.currency)
    {
    }

    lemma HandledUnparsed(cfg: Settings, me: string, maxAttempts: int, m: Message, h: Handled)
      requires cfg.parse(m.payload).None? && h.log == [] && h.asked == [] && Parks(h.calls, me, m, InvalidEvent, h.fate)
      ensures HandledOk(cfg, me, maxAttempts, m, h)
    {
    }

    lemma HandledByAttempts(cfg: Settings, me: string, maxAttempts: int, m: Message, h: Handled,
                            tried: seq<Call>, made: seq<Call>)
      requires cfg.parse(m.payload).Some? && h.calls == tried + made
      requires Attempted(me, m, cfg.parse(m.payload).value, h.log, tried, h.asked)
      requires maxAttempts < 1 ==> h == Handled(LeftPending, [], [], [])
      requires maxAttempts >= 1 ==>
                 && h.log != [] && Settles(Replay(h.log), maxAttempts, |h.log|)
                 && match h.log[|h.log| - 1]
                    case Returned(outcome) => h.fate == Processed(outcome) && made == []
                    case PermanentError(reason) => reason == UnknownCurrency && Parks(made, me, m, reason, h.fate)
                    case _ => h.fate == LeftPending && made == []
      ensures HandledOk(cfg, me, maxAttempts, m, h)
    {
      if made == [] {
        assert tried + made == tried;
      } else {
        assert h.calls[..|h.calls| - 1] == tried && [h.calls[|h.calls| - 1]] == made;
      }
    }

    lemma NoneHandled(cfg: Settings, s: Sys, me: string, maxAttempts: int, ms: seq<Message>)
      ensures FatesOk(cfg, s, me, ms[..0], []) && DoneIds(ms[..0], []) == []
      ensures AllHandled(cfg, me, maxAttempts, ms[..0], []) && AllCalls([]) == [] && AllAsked([]) == []
    {
    }

    lemma HandledMore(cfg: Settings, me: string, maxAttempts: int, ms: seq<Message>, hs: seq<Handled>,
                      m: Message, h: Handled)
      requires AllHandled(cfg, me, maxAttempts, ms, hs) && HandledOk(cfg, me, maxAttempts, m, h)
      ensures AllHandled(cfg, me, maxAttempts, ms + [m], hs + [h])
      ensures |hs| == |ms|
    {
    }

    /** The gathered tasks of a batch, and the ids they hand back for acknowledgement. */
    method HandleAll(ms: seq<Message>) returns (done: seq<nat>, ghost hs: seq<Handled>)
      requires Ready() && Holds(ms)
      modifies processor.cluster, processor.rates.service
      ensures Ready() && old(processor.cluster.trace) <= processor.cluster.trace
      ensures Onward(old(processor.cluster.state), processor.cluster.state, processor.consumer)
      ensures processor.cluster.calls == old(processor.cluster.calls) + AllCalls(hs)
      ensures processor.rates.service.asked == old(processor.rates.service.asked) + AllAsked(hs)
      ensures |hs| == |ms| && done == DoneIds(ms, hs)
      ensures AllHandled(processor.cluster.cfg, processor.consumer, maxAttempts, ms, hs)
      ensures FatesOk(processor.cluster.cfg, processor.cluster.state, processor.consumer, ms, hs)
    {
      hide Exec, LegalRun, LogOk, HandledOk, FateOk, FatesOk, Onward, MemoryOf, DoneIds, AllHandled, AllCalls, AllAsked;
      hide Rates.Exec, Rates.LegalRun;
      ghost var start := processor.cluster.state;
      OnwardRefl(start, processor.consumer);
      done, hs := [], [];
      NoneHandled(processor.cluster.cfg, start, processor.consumer, maxAttempts, ms);
      for k := 0 to |ms|
        invariant Ready() && old(processor.cluster.trace) <= processor.cluster.trace
        invariant Onward(start, processor.cluster.state, processor.consumer)
        invariant |hs| == k
        invariant processor.cluster.calls == old(processor.cluster.calls) + AllCalls(hs)
        invariant processor.rates.service.asked == old(processor.rates.service.asked) + AllAsked(hs)
        invariant AllHandled(processor.cluster.cfg, processor.consumer, maxAttempts, ms[..k], hs)
        invariant FatesOk(processor.cluster.cfg, processor.cluster.state, processor.consumer, ms[..k], hs)
        invariant done == DoneIds(ms[..k], hs)
      {
        ghost var here := processor.cluster.state;
        StillHolds(start, ms, ms[k]);
        var ready;
        ghost var h;
        ready, h := HandleOne(ms[k]);
        OnwardTrans(start, here, processor.cluster.state, processor.consumer);
        FatesGrow(processor.cluster.cfg, here, processor.cluster.state, processor.consumer, ms[..k], hs, ms[k], h);
        AllGrow(hs, h);
        HandledMore(processor.cluster.cfg, processor.consumer, maxAttempts, ms[..k], hs, ms[k], h);
        DoneIdsGrow(ms[..k], hs, ms[k], h);
        assert ms[..k] + [ms[k]] == ms[..k + 1];
        hs := hs + [h];
        if ready.Some? { done := done + [ready.value]; }
      }
      assert ms[..|ms|] == ms;
    }

    /** `_ack` at the end of a batch: one XACK of the processed ids, whose failure is swallowed. */
    method AckDone(done: seq<nat>, ghost ms: seq<Message>, ghost hs: seq<Handled>, ghost start: Sys)
      returns (acked: bool, ghost tail: seq<Call>)
      requires Ready() && Onward(start, processor.cluster.state, processor.consumer)
      requires |ms| == |hs| && done == DoneIds(ms, hs)
      requires FatesOk(processor.cluster.cfg, processor.cluster.state, processor.consumer, ms, hs)
      modifies processor.cluster
      ensures Ready() && old(processor.cluster.trace) <= processor.cluster.trace
      ensures Onward(start, processor.cluster.state, processor.consumer)
      ensures processor.cluster.calls == old(processor.cluster.calls) + tail
      ensures if done == [] then tail == [] else |tail| == 1 && tail[0].command == Ack(processor.consumer, Ids(done))
      ensures FatesOk(processor.cluster.cfg, processor.cluster.state, processor.consumer, ms, hs)
      ensures acked <==> forall c :: c in tail ==> c.fault.Fine?
      ensures acked ==> Ids(done) !! processor.cluster.state.broker.pel.Keys
    {
      hide Exec, LegalRun, LogOk, FateOk, FatesOk, Onward, Grows, DoneIds, Ids, Legal, XAck, AckedExactly;
      hide Rates.Exec, Rates.LegalRun;
      acked, tail := true, [];
      if done == [] {
        NothingToAck(processor.cluster.state.broker);
        return;
      }
      ghost var here := processor.cluster.state;
      processor.cluster.Interfere(processor.consumer, start);
      ghost var before := processor.cluster.state;
      FatesStay(processor.cluster.cfg, here, before, processor.consumer, ms, hs);
      DoneIdsAreDone(processor.cluster.cfg, before, processor.consumer, ms, hs);
      var r;
      r, tail := queue.Ack(done);
      acked := r.Ok?;
      OnwardTrans(start, before, processor.cluster.state, processor.consumer);
      FatesStay(processor.cluster.cfg, before, processor.cluster.state, processor.consumer, ms, hs);
    }

    /**
      `_handle_batch`. Every message meets its own fate; then one XACK covers exactly the
      ids whose processing returned normally. If it fails they stay to be redelivered.
     */
    method HandleBatch(ms: seq<Message>) returns (acked: bool, ghost hs: seq<Handled>, ghost tail: seq<Call>)
      requires Ready() && Holds(ms)
      modifies processor.cluster, processor.rates.service
      ensures Ready() && old(processor.cluster.trace) <= processor.cluster.trace
      ensures Onward(old(processor.cluster.state), processor.cluster.state, processor.consumer)
      ensures processor.cluster.calls == old(processor.cluster.calls) + (AllCalls(hs) + tail)
      ensures processor.rates.service.asked == old(processor.rates.service.asked) + AllAsked(hs)
      ensures BatchOk(processor.cluster.cfg, processor.consumer, maxAttempts, ms, hs, tail)
      ensures FatesOk(processor.cluster.cfg, processor.cluster.state, processor.consumer, ms, hs)
      ensures acked <==> forall c :: c in tail ==> c.fault.Fine?
      ensures acked ==> Ids(DoneIds(ms, hs)) !! processor.cluster.state.broker.pel.Keys
    {
      hide Exec, LegalRun, LogOk, HandledOk, FateOk, FatesOk, Onward, AllCalls, AllAsked, AllHandled, DoneIds;
      hide Rates.Exec, Rates.LegalRun;
      ghost var start := processor.cluster.state;
      OnwardRefl(start, processor.consumer);
      var done: seq<nat>;
      done, hs := HandleAll(ms);
      acked, tail := AckDone(done, ms, hs, start);
    }

    /**
      One turn of `_consume_loop`. If the read replied, the next unread entries are handled,
      all of them and in order; if it failed, nothing else is sent.
     */
    method ConsumeTurn() returns (ghost t: Turn)
      requires Ready()
      modifies processor.cluster, processor.rates.service
      ensures Ready() && old(processor.cluster.trace) <= processor.cluster.trace
      ensures Onward(old(processor.cluster.state), processor.cluster.state, processor.consumer)
      ensures processor.cluster.calls == old(processor.cluster.calls) + TurnCalls(t)
      ensures t.fetched != [] ==> t.fetched[0].before == old(processor.cluster.state)
      ensures ConsumeOk(processor.cluster.cfg, processor.consumer, maxAttempts, t)
      ensures FatesOk(processor.cluster.cfg, processor.cluster.state, processor.consumer, t.ms, t.hs)
      ensures forall m :: m in t.ms ==> Safe(processor.cluster.cfg, processor.cluster.state, m.id)
    {
      hide Exec, LegalRun, LogOk, FateOk, Honest, Handout, Onward, BatchOk, Safe, AllCalls, FatesOk;
      hide HandedOver, NextUnread, XReadGroup;
      hide Rates.Exec, Rates.LegalRun;
      ghost var start := processor.cluster.state;
      EmptyBatch(processor.cluster.cfg, start, processor.consumer, maxAttempts);
      var r;
      ghost var fetched;
      r, fetched := queue.Read(processor.cluster.cfg.batchSize);
      EmptyBatch(processor.cluster.cfg, processor.cluster.state, processor.consumer, maxAttempts);
      if r.Err? || r.value == [] { return Turn(fetched, [], [], [], [], []); }
      ghost var here := processor.cluster.state;
      StartHolding(r.value);
      var acked;
      ghost var hs, tail;
      acked, hs, tail := HandleBatch(r.value);
      OnwardTrans(start, here, processor.cluster.state, processor.consumer);
      HoldsOn(here, r.value);
      AllSafe(r.value);
      t := Turn(fetched, r.value, [], r.value, hs, tail);
      assert fetched + [] + AllCalls(hs) + tail == fetched + (AllCalls(hs) + tail);
    }

    lemma StartHolding(ms: seq<Message>)
      requires forall m :: m in ms ==> Vouched(processor.cluster.state, processor.consumer, m)
      ensures Holds(ms)
    {
    }

    lemma HoldsOn(s: Sys, ms: seq<Message>)
      requires forall m :: m in ms ==> m in MemoryOf(s, processor.consumer).held
      requires Onward(s, processor.cluster.state, processor.consumer)
      ensures Holds(ms)
    {
    }

    /**
      The decision of `_reclaim_loop`: a message whose reported count is above the limit is
      dead-lettered, the others are kept for another attempt, in order.
     */
    method BuryOverdelivered(ms: seq<Message>) returns (retryable: seq<Message>, ghost made: seq<Call>)
      requires Ready() && Holds(ms)
      modifies processor.cluster
      ensures Ready() && old(processor.cluster.trace) <= processor.cluster.trace
      ensures Onward(old(processor.cluster.state), processor.cluster.state, processor.consumer)
      ensures processor.cluster.calls == old(processor.cluster.calls) + made
      ensures retryable == Split(ms, processor.cluster.cfg.maxDeliveries, false)
      ensures Buried(processor.consumer, Split(ms, processor.cluster.cfg.maxDeliveries, true), made)
    {
      hide Exec, LegalRun, LogOk, FateOk, Honest, Split, Onward, MemoryOf, Buried, Parks;
      ghost var start := processor.cluster.state;
      OnwardRefl(start, processor.consumer);
      var max := processor.cluster.cfg.maxDeliveries;
      retryable, made := [], [];
      StartSplit(processor.consumer, ms, max);
      for k := 0 to |ms|
        invariant Ready() && old(processor.cluster.trace) <= processor.cluster.trace
        invariant Onward(start, processor.cluster.state, processor.consumer)
        invariant processor.cluster.calls == old(processor.cluster.calls) + made
        invariant retryable == Split(ms[..k], max, false)
        invariant Buried(processor.consumer, Split(ms[..k], max, true), made)
      {
        SplitGrows(ms, k, max);
        if ms[k].deliveryCount > max {
          ghost var here := processor.cluster.state;
          StillHolds(start, ms, ms[k]);
          ghost var fate, more;
          fate, more := DeadLetter(ms[k], ExceededDeliveries);
          OnwardTrans(start, here, processor.cluster.state, processor.consumer);
          BuriedGrows(processor.consumer, Split(ms[..k], max, true), made, ms[k], more, fate);
          made := made + more;
        } else {
          assert Split(ms[..k], max, true) + [] == Split(ms[..k], max, true);
          retryable := retryable + [ms[k]];
        }
      }
      assert ms[..|ms|] == ms;
    }

    /**
      Claim what is stale and acknowledge what was trimmed while pending. A failure of either
      command is caught by the caller's `except`, which leaves the claimed messages alone.
     */
    method ClaimAndForget() returns (ms: seq<Message>, deleted: seq<nat>, ok: bool, ghost fetched: seq<Call>)
      requires Ready()
      modifies processor.cluster
      ensures Ready() && old(processor.cluster.trace) <= processor.cluster.trace
      ensures Onward(old(processor.cluster.state), processor.cluster.state, processor.consumer)
      ensures processor.cluster.calls == old(processor.cluster.calls) + fetched
      ensures fetched != [] && fetched[0].before == old(processor.cluster.state)
      ensures FetchOk(processor.cluster.cfg, processor.consumer, fetched, ms, deleted, ok)
      ensures Holds(ms)
      ensures forall id :: id in deleted ==> Trimmed(processor.cluster.state.broker, id)
      ensures ok && deleted != [] ==> Ids(deleted) !! processor.cluster.state.broker.pel.Keys
    {
      hide Exec, LegalRun, LogOk, Honest, Claimable, ClaimReplied, ClaimFailed, Onward, Inv, MemoryOk, Grows;
      hide XAck, Counted, AckedExactly;
      ghost var start := processor.cluster.state;
      var r;
      r, fetched := queue.ClaimStale(processor.cluster.cfg.minIdle, processor.cluster.cfg.batchSize);
      if r.Err? { return [], [], false, fetched; }
      ms, deleted, ok := r.value.0, r.value.1, true;
      StartHolding(ms);
      ghost var held := processor.cluster.state;
      OnwardRefl(held, processor.consumer);
      if deleted != [] {
        processor.cluster.Interfere(processor.consumer, start);
        ghost var here := processor.cluster.state;
        GoneStays(held, here, deleted);
        var a;
        ghost var more;
        a, more := queue.Ack(deleted);
        OnwardTrans(start, here, processor.cluster.state, processor.consumer);
        OnwardTrans(held, here, processor.cluster.state, processor.consumer);
        GoneStays(held, processor.cluster.state, deleted);
        assert (fetched + more)[..|fetched + more| - 1] == fetched;
        fetched := fetched + more;
        ok := a.Ok?;
      }
      HoldsOn(held, ms);
      GoneIsTrimmed(deleted);
    }

    lemma GoneStays(s: Sys, t: Sys, ids: seq<nat>)
      requires Ids(ids) <= MemoryOf(s, processor.consumer).gone && Onward(s, t, processor.consumer)
      ensures Ids(ids) <= MemoryOf(t, processor.consumer).gone
    {
    }

    lemma GoneIsTrimmed(ids: seq<nat>)
      requires Ready() && Ids(ids) <= MemoryOf(processor.cluster.state, processor.consumer).gone
      ensures forall id :: id in ids ==> Trimmed(processor.cluster.state.broker, id)
    {
      processor.cluster.GoodIsInv();
      assert MemoryOk(processor.cluster.cfg, processor.cluster.state,
                      MemoryOf(processor.cluster.state, processor.consumer));
      assert forall id :: id in ids ==> id in Ids(ids);
    }

    /**
      One turn of `_reclaim_loop`: of the claimed messages the overdelivered are dead-lettered
      and the rest are handled as a batch, unless claiming failed.
     */
    method ReclaimTurn() returns (ok: bool, ghost t: Turn, ghost deleted: seq<nat>)
      requires Ready()
      modifies processor.cluster, processor.rates.service
      ensures Ready() && old(processor.cluster.trace) <= processor.cluster.trace
      ensures Onward(old(processor.cluster.state), processor.cluster.state, processor.consumer)
      ensures processor.cluster.calls == old(processor.cluster.calls) + TurnCalls(t)
      ensures t.fetched != [] && t.fetched[0].before == old(processor.cluster.state)
      ensures ReclaimOk(processor.cluster.cfg, processor.consumer, maxAttempts, t, deleted, ok)
      ensures FatesOk(processor.cluster.cfg, processor.cluster.state, processor.consumer, t.retried, t.hs)
      ensures forall m :: m in t.ms ==> Safe(processor.cluster.cfg, processor.cluster.state, m.id)
    {
      hide Exec, LegalRun, LogOk, FateOk, Honest, Split, Onward, BatchOk, Safe, AllCalls, FatesOk, FetchOk, Buried;
      hide Rates.Exec, Rates.LegalRun;
      ghost var start := processor.cluster.state;
      var ms, gone;
      ghost var fetched;
      ms, gone, ok, fetched := ClaimAndForget();
      deleted := gone;
      ghost var here := processor.cluster.state;
      OnwardRefl(here, processor.consumer);
      EmptyBatch(processor.cluster.cfg, here, processor.consumer, maxAttempts);
      AllSafe(ms);
      if !ok { return ok, Turn(fetched, ms, [], [], [], []), deleted; }
      var retried;
      ghost var buried;
      retried, buried := BuryOverdelivered(ms);
      OnwardTrans(start, here, processor.cluster.state, processor.consumer);
      EmptyBatch(processor.cluster.cfg, processor.cluster.state, processor.consumer, maxAttempts);
      ghost var hs, tail: seq<Call> := [], [];
      if retried != [] {
        ghost var middle := processor.cluster.state;
        HoldsRest(here, ms, retried);
        var acked;
        acked, hs, tail := HandleBatch(retried);
        OnwardTrans(start, middle, processor.cluster.state, processor.consumer);
        OnwardTrans(here, middle, processor.cluster.state, processor.consumer);
      }
      HoldsOn(here, ms);
      AllSafe(ms);
      t := Turn(fetched, ms, buried, retried, hs, tail);
      assert fetched + buried + AllCalls(hs) + tail == fetched + buried + (AllCalls(hs) + tail);
    }

    lemma HoldsRest(s: Sys, ms: seq<Message>, retried: seq<Message>)
      requires forall m :: m in ms ==> m in MemoryOf(s, processor.consumer).held
      requires Onward(s, processor.cluster.state, processor.consumer)
      requires retried == Split(ms, processor.cluster.cfg.maxDeliveries, false)
      ensures Holds(retried)
    {
    }

    /**
      `run`, as any number of turns of the two loops in any order; the statistics loop
      changes nothing. All it sends is what its turns send, and whenever it stops no published entry is lost.
     */
    method Run() returns (started: bool, ghost first: seq<Call>, ghost turns: seq<Turn>)
      requires Ready()
      modifies processor.cluster, processor.rates.service
      ensures Ready() && old(processor.cluster.trace) <= processor.cluster.trace
      ensures Onward(old(processor.cluster.state), processor.cluster.state, processor.consumer)
      ensures processor.cluster.calls == old(processor.cluster.calls) + first + AllTurnCalls(turns)
      ensures One(first, Action.EnsureGroup, old(processor.cluster.state)) && (started <==> first[0].fault.Fine?)
      ensures started ==> processor.cluster.state.broker.grouped
      ensures !started ==> turns == []
      ensures forall t :: t in turns ==> TurnOk(processor.cluster.cfg, processor.consumer, maxAttempts, t)
      ensures Drain.NoPublish(processor.cluster.trace[|old(processor.cluster.trace)|..]) ==>
                var b := old(processor.cluster.state).broker;
                BusyTurns(processor.cluster.cfg, turns) <= Drain.Rank(processor.cluster.cfg, b, Drain.Backlog(b))
      ensures forall id: nat :: IsEntry(processor.cluster.state.broker, id) ==>
                id in Unread(processor.cluster.state.broker) || Safe(processor.cluster.cfg, processor.cluster.state, id)
    {
      hide Exec, LegalRun, LogOk, FatesOk, Split, Safe, Handout, ConsumeOk, ReclaimOk, TurnCalls, AllTurnCalls, Onward;
      hide BusyTurns, Unread, Drain.NoPublish, Drain.Rank, Drain.Backlog, Rates.Exec, Rates.LegalRun;
      ghost var start := processor.cluster.state;
      turns := [];
      TurnsGrow([], Turn([], [], [], [], [], []));
      var group;
      group, first := queue.EnsureGroup();
      started := group.Ok?;
      if started {
        var left := AnyNat();
        while left > 0
          invariant Ready() && old(processor.cluster.trace) <= processor.cluster.trace
          invariant Onward(start, processor.cluster.state, processor.consumer)
          invariant processor.cluster.state.broker.grouped
          invariant processor.cluster.calls == old(processor.cluster.calls) + first + AllTurnCalls(turns)
          invariant forall t :: t in turns ==> TurnOk(processor.cluster.cfg, processor.consumer, maxAttempts, t)
        {
          ghost var here := processor.cluster.state;
          processor.cluster.Interfere(processor.consumer, start);
          GroupStays(here);
          here := processor.cluster.state;
          ghost var t;
          var consume: bool := *;
          if consume {
            t := ConsumeTurn();
          } else {
            var ok;
            ghost var deleted;
            ok, t, deleted := ReclaimTurn();
          }
          OnwardTrans(start, here, processor.cluster.state, processor.consumer);
          GroupStays(here);
          TurnsGrow(turns, t);
          turns := turns + [t];
          left := left - 1;
        }
      }
      NothingLost();
      TurnsBounded(old(processor.cluster.state), old(processor.cluster.trace), old(processor.cluster.calls),
                   first, turns);
    }

    lemma TurnsBounded(start: Sys, past: seq<Action>, before: seq<Call>, first: seq<Call>, turns: seq<Turn>)
      requires Ready() && past <= processor.cluster.trace && start == Exec(processor.cluster.cfg, INITIAL, past)
      requires processor.cluster.calls == before + first + AllTurnCalls(turns)
      requires |first| == 1 && first[0].at == |past|
      ensures Drain.NoPublish(processor.cluster.trace[|past|..]) ==>
                BusyTurns(processor.cluster.cfg, turns) <=
                Drain.Rank(processor.cluster.cfg, start.broker, Drain.Backlog(start.broker))
    {
      hide Exec, LegalRun, Drain.NoPublish, Drain.Rank, Drain.Backlog, BusyTurns, AllTurnCalls;
      AfterFirst(processor.cluster.calls, before, first, AllTurnCalls(turns));
      assert processor.cluster.trace[..|past|] == past;
      if Drain.NoPublish(processor.cluster.trace[|past|..]) {
        BusyTurnsAreBounded(processor.cluster.cfg, processor.cluster.trace, processor.cluster.calls, before + first,
                            turns, |past|);
      }
    }

    lemma GroupStays(s: Sys)
      requires s.broker.grouped && Onward(s, processor.cluster.state, processor.consumer)
      ensures processor.cluster.state.broker.grouped
    {
    }

    lemma NothingLost()
      requires Ready()
      ensures forall id: nat :: IsEntry(processor.cluster.state.broker, id) ==>
                id in Unread(processor.cluster.state.broker) || Safe(processor.cluster.cfg, processor.cluster.state, id)
    {
      processor.cluster.GoodIsInv();
      forall id: nat | IsEntry(processor.cluster.state.broker, id)
        ensures id in Unread(processor.cluster.state.broker) || Safe(processor.cluster.cfg, processor.cluster.state, id)
      {
        EntryIsSomewhere(processor.cluster.cfg, processor.cluster.state, id);
      }
    }
  }
}
