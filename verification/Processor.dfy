/** `EventProcessor`: convert, insert if absent, commit; and the retry loop around it. */
module Processor {
  import opened Prelude
  import opened Money
  import opened Ledger
  import opened Streams
  import opened Pipeline
  import opened Safety
  import opened Retry
  import opened Clusters
  import Rates

  /** What the processor writes for an event: converted at a rate its source returned for that currency. */
  ghost predicate FaithfulRow(w: Rates.World, ev: Event, row: Row) {
    && row.id == ev.id && row.user == ev.user && row.amount == ev.amount && row.currency == ev.currency
    && row.timestamp == ev.timestamp
    && ConvertToUsd(ev.amount, row.rate) == Ok(row.usd)
    && Rates.RateFor(w, ev.currency, row.rate)
  }

  /** No rate the source returned for the currency converts the amount. */
  ghost predicate Inconvertible(w: Rates.World, ev: Event) {
    exists rate :: Rates.RateFor(w, ev.currency, rate) && ConvertToUsd(ev.amount, rate).Err?
  }

  /**
    What the end of an attempt tells: after a normal return the row is committed, a faithful
    conversion if it was this attempt that stored it; a permanent error blames the currency
    and an unexpected one the arithmetic.
   */
  ghost predicate Told(cfg: Settings, s: Sys, w: Rates.World, me: string, m: Message, ev: Event, r: Attempt<Outcome>) {
    && (r.Returned? ==> m.id in MemoryOf(s, me).done && ev.id in s.table && Report(ev.id, r.value) in s.reports)
    && (r == Returned(Stored) ==> ev.id in s.table && FaithfulRow(w, ev, s.table[ev.id]))
    && (r.PermanentError? ==> r.reason == UnknownCurrency && !Convertible(cfg, ev.currency))
    && (r.UnexpectedError? ==> Inconvertible(w, ev))
  }

  // ---------------------------------------------------------- what an attempt did

  predicate IsStore(c: Call, me: string, m: Message) {
    c.command.Store? && c.command.worker == me && c.command.m == m
  }

  /** How many of the calls failed, before or after taking effect. */
  function Failures(made: seq<Call>): nat {
    if made == [] then 0
    else Failures(made[..|made| - 1]) + (if made[|made| - 1].fault.Fine? then 0 else 1)
  }

  function Transients(log: seq<Attempt<Outcome>>): nat {
    if log == [] then 0
    else Transients(log[..|log| - 1]) + (if log[|log| - 1].TransientError? then 1 else 0)
  }

  /** Some call took effect, but its reply was lost. */
  ghost predicate LostReply(made: seq<Call>) {
    exists c :: c in made && c.fault.ReplyLost?
  }

  /** The row was in the table at some moment up to the call. */
  ghost predicate SeenBefore(cfg: Settings, trace: seq<Action>, at: nat, id: string) {
    exists n: nat :: n <= at <= |trace| && id in Exec(cfg, INITIAL, trace[..n]).table
  }

  /**
    The calls of the attempts at one message. Each transient error is one failed store or one
    outage of the source. A normal return is one store that went well, with the rate the
    lookup brought: STORED exactly if no row was there when it arrived, so an earlier commit
    whose reply was lost rules STORED out. A permanent error is a currency the source does not
    know, an unexpected one a conversion that fails at the rate the lookup brought.
   */
  ghost predicate Attempted(me: string, m: Message, ev: Event, log: seq<Attempt<Outcome>>,
                            made: seq<Call>, asked: seq<Rates.Remote>)
  {
    && (forall c :: c in made ==> IsStore(c, me, m))
    && Failures(made) + Rates.Outages(asked) == Transients(log)
    && if log == [] then made == [] else LastAttempt(ev, log[|log| - 1], made, asked)
  }

  /** How the last attempt ended, by the calls that were made. */
  ghost predicate LastAttempt(ev: Event, r: Attempt<Outcome>, made: seq<Call>, asked: seq<Rates.Remote>) {
    match r
    case Returned(outcome) =>
      && made != [] && |made| == Failures(made) + 1
      && var last := made[|made| - 1];
         && last.fault.Fine? && last.command.Store? && Rates.Obtained(ev.currency, asked) == Some(last.command.rate)
         && (outcome.Stored? <==> ev.id !in last.before.table)
         && (outcome.Stored? ==> !LostReply(made))
    case PermanentError(reason) => |made| == Failures(made) && Rates.AskedInVain(ev.currency, asked)
    case UnexpectedError(_) =>
      && |made| == Failures(made)
      && var rate := Rates.Obtained(ev.currency, asked);
         rate.Some? && ConvertToUsd(ev.amount, rate.value).Err?
    case TransientError(_) => |made| == Failures(made)
  }

  /** If the last attempt reports STORED, the row was in the table at no moment before its call. */
  ghost predicate FirstEver(cfg: Settings, trace: seq<Action>, log: seq<Attempt<Outcome>>, made: seq<Call>, id: string) {
    log != [] && log[|log| - 1] == Returned(Stored) ==>
      made != [] && !SeenBefore(cfg, trace, made[|made| - 1].at, id)
  }

  lemma EarlierTable(cfg: Settings, trace: seq<Action>, n: nat, at: nat)
    requires n <= at <= |trace|
    ensures TableGrows(Exec(cfg, INITIAL, trace[..n]).table, Exec(cfg, INITIAL, trace[..at]).table)
  {
    hide Exec, LegalRun;
    ExecSplit(cfg, INITIAL, trace[..n], trace[n..at]);
    assert trace[..n] + trace[n..at] == trace[..at];
    RunGrows(cfg, Exec(cfg, INITIAL, trace[..n]), trace[n..at]);
  }

  lemma NotSeenBefore(cfg: Settings, trace: seq<Action>, at: nat, id: string)
    requires at <= |trace| && id !in Exec(cfg, INITIAL, trace[..at]).table
    ensures !SeenBefore(cfg, trace, at, id)
  {
    hide Exec;
    forall n: nat | n <= at ensures id !in Exec(cfg, INITIAL, trace[..n]).table {
      EarlierTable(cfg, trace, n, at);
    }
  }

  /** Every attempt so far failed in a way that is worth another. */
  ghost predicate AllTransient(log: seq<Attempt<Outcome>>) {
    forall i :: 0 <= i < |log| ==> log[i].TransientError?
  }

  lemma FailuresGrow(made: seq<Call>, c: Call)
    ensures Failures(made + [c]) == Failures(made) + (if c.fault.Fine? then 0 else 1)
  {
    assert (made + [c])[..|made|] == made;
  }

  lemma TransientsGrow(log: seq<Attempt<Outcome>>, r: Attempt<Outcome>)
    ensures Transients(log + [r]) == Transients(log) + (if r.TransientError? then 1 else 0)
  {
    assert (log + [r])[..|log|] == log;
  }

  /** A commit puts the row there unless its id is taken, and a worker that hears of it knows the entry is done. */
  lemma StoreTeaches(cfg: Settings, s: Sys, me: string, m: Message, ev: Event, rate: Decimal, usd: int, now: int,
                     seen: bool)
    requires Inv(cfg, s) && m in MemoryOf(s, me).held
    requires cfg.parse(m.payload) == Some(ev) && ConvertToUsd(ev.amount, rate) == Ok(usd)
    ensures var t := Apply(cfg, s, Store(me, m, rate, now, seen));
            && t.broker == s.broker
            && t.table == Insert(s.table, MakeRow(ev, rate, usd, now))
            && (seen ==> m.id in MemoryOf(t, me).done && Committed(cfg, t, m.id))
            && t.reports == s.reports +
                 (if seen then [Report(ev.id, if ev.id in s.table then Duplicate else Stored)] else [])
  {
    hide ConvertToUsd;
    var a := Store(me, m, rate, now, seen);
    MemoryIsHonest(cfg, s, me, m);
    StoreCommits(cfg, s, a);
    hide Honest, Inv;
  }

  lemma MemoryIsHonest(cfg: Settings, s: Sys, me: string, m: Message)
    requires Inv(cfg, s) && m in MemoryOf(s, me).held
    ensures Honest(s.broker, m)
  {
    assert MemoryOk(cfg, s, MemoryOf(s, me));
  }

  lemma DoneIsCommitted(cfg: Settings, s: Sys, me: string, id: nat)
    requires Inv(cfg, s) && id in MemoryOf(s, me).done
    ensures Committed(cfg, s, id)
  {
    assert MemoryOk(cfg, s, MemoryOf(s, me));
  }

  lemma NoOutages()
    ensures Rates.Outages([]) == 0 && Failures([]) == 0 && !LostReply([])
  {
  }

  lemma ToldOfFailure(cfg: Settings, s: Sys, w: Rates.World, me: string, m: Message, ev: Event, r: Attempt<Outcome>)
    requires !r.Returned? && (r.UnexpectedError? ==> Inconvertible(w, ev))
    requires r.PermanentError? ==> r.reason == UnknownCurrency && !Convertible(cfg, ev.currency)
    ensures Told(cfg, s, w, me, m, ev, r)
  {
  }

  lemma FailedAt(w: Rates.World, ev: Event, rate: Decimal)
    requires Rates.RateFor(w, ev.currency, rate) && ConvertToUsd(ev.amount, rate).Err?
    ensures Inconvertible(w, ev)
  {
  }

  lemma NotFirst(cfg: Settings, trace: seq<Action>, r: Attempt<Outcome>, made: seq<Call>, id: string)
    requires !r.Returned?
    ensures FirstEver(cfg, trace, [r], made, id)
  {
  }

  /** One attempt without a store: an outage, a currency nobody prices, or arithmetic. */
  lemma NoStore(me: string, m: Message, ev: Event, r: Attempt<Outcome>, asked: seq<Rates.Remote>)
    requires !r.Returned? && Rates.Outages(asked) == if r.TransientError? then 1 else 0
    requires LastAttempt(ev, r, [], asked)
    ensures Attempted(me, m, ev, [r], [], asked)
  {
    TransientsGrow([], r);
    assert [] + [r] == [r];
  }

  lemma OneStore(me: string, m: Message, ev: Event, r: Attempt<Outcome>, made: seq<Call>, asked: seq<Rates.Remote>)
    requires |made| == 1 && IsStore(made[0], me, m) && Rates.Outages(asked) == 0
    requires Rates.Obtained(ev.currency, asked) == Some(made[0].command.rate)
    requires if made[0].fault.Fine? then r.Returned? && (r.value.Stored? <==> ev.id !in made[0].before.table)
             else r.TransientError?
    ensures Attempted(me, m, ev, [r], made, asked)
  {
    TransientsGrow([], r);
    assert [] + [r] == [r];
    FailuresGrow([], made[0]);
    assert [] + [made[0]] == made;
  }

  lemma {:induction false} FailuresAdd(xs: seq<Call>, ys: seq<Call>)
    ensures Failures(xs + ys) == Failures(xs) + Failures(ys)
    decreases |ys|
  {
    if ys == [] {
      assert xs + ys == xs;
    } else {
      FailuresAdd(xs, ys[..|ys| - 1]);
      assert (xs + ys)[..|xs + ys| - 1] == xs + ys[..|ys| - 1];
    }
  }

  /** What the last attempt was is told by its own calls; those before it all failed. */
  lemma LastOfMore(ev: Event, r: Attempt<Outcome>, made: seq<Call>, asked: seq<Rates.Remote>,
                   more: seq<Call>, askedMore: seq<Rates.Remote>)
    requires LastAttempt(ev, r, more, askedMore) && |made| == Failures(made)
    requires r == Returned(Stored) ==> !LostReply(made)
    ensures LastAttempt(ev, r, made + more, asked + askedMore)
  {
    hide ConvertToUsd, Failures;
    FailuresAdd(made, more);
    if more != [] { assert (made + more)[|made + more| - 1] == more[|more| - 1]; }
    if askedMore != [] { assert (asked + askedMore)[|asked + askedMore| - 1] == askedMore[|askedMore| - 1]; }
  }

  lemma AllFailed(ev: Event, log: seq<Attempt<Outcome>>, made: seq<Call>, asked: seq<Rates.Remote>)
    requires AllTransient(log) && if log == [] then made == [] else LastAttempt(ev, log[|log| - 1], made, asked)
    ensures |made| == Failures(made)
  {
  }

  /** Another attempt after attempts that all failed; `s` is the state in which it began. */
  lemma OneMore(me: string, m: Message, ev: Event, log: seq<Attempt<Outcome>>, made: seq<Call>, asked: seq<Rates.Remote>,
                s: Sys, r: Attempt<Outcome>, more: seq<Call>, askedMore: seq<Rates.Remote>)
    requires Attempted(me, m, ev, log, made, asked) && AllTransient(log)
    requires Attempted(me, m, ev, [r], more, askedMore)
    requires LostReply(made) ==> ev.id in s.table
    requires ev.id in s.table ==> r != Returned(Stored)
    ensures Attempted(me, m, ev, log + [r], made + more, asked + askedMore)
  {
    hide LastAttempt, LostReply, IsStore, AllTransient, Failures;
    TransientsGrow([], r);
    assert [] + [r] == [r];
    TransientsGrow(log, r);
    FailuresAdd(made, more);
    Rates.OutagesAdd(asked, askedMore);
    AllFailed(ev, log, made, asked);
    LastOfMore(ev, r, made, asked, more, askedMore);
    assert (log + [r])[|log + [r]| - 1] == r;
  }

  lemma NothingAttempted(cfg: Settings, trace: seq<Action>, me: string, m: Message, ev: Event,
                         base: real, maxDelay: real)
    ensures Attempted(me, m, ev, [], [], []) && FirstEver(cfg, trace, [], [], ev.id)
    ensures AllTransient([]) && WaitsWithin([], base, maxDelay) && !LostReply([])
  {
  }

  /** Between attempts the message stays in hand and rows stay in place. */
  lemma StillHeld(s: Sys, t: Sys, me: string, m: Message, id: string)
    requires Onward(s, t, me)
    ensures m in MemoryOf(s, me).held ==> m in MemoryOf(t, me).held
    ensures id in s.table ==> id in t.table
  {
  }

  lemma LostMore(made: seq<Call>, more: seq<Call>)
    ensures LostReply(made + more) <==> LostReply(made) || LostReply(more)
  {
    if LostReply(made) || LostReply(more) {
      var c :| c in made + more && c.fault.ReplyLost?;
    }
  }

  lemma TransientMore(log: seq<Attempt<Outcome>>, r: Attempt<Outcome>)
    requires AllTransient(log)
    ensures AllTransient((log + [r])[..|log|]) && (r.TransientError? ==> AllTransient(log + [r]))
  {
  }

  lemma WaitMore(waits: seq<real>, delay: real, base: real, maxDelay: real)
    requires WaitsWithin(waits, base, maxDelay) && Jittered(delay, Ceiling(|waits| + 1, base, maxDelay))
    ensures WaitsWithin(waits + [delay], base, maxDelay)
  {
  }

  lemma StoppedLog(log: seq<Attempt<Outcome>>, r: Attempt<Outcome>, maxAttempts: nat)
    requires 1 <= |log| <= maxAttempts && r == log[|log| - 1] && AllTransient(log[..|log| - 1])
    requires r.TransientError? ==> |log| == maxAttempts
    ensures Settles(Replay(log), maxAttempts, |log|)
  {
    forall i | 0 <= i < |log| - 1 ensures log[i].TransientError? {
      assert log[..|log| - 1][i].TransientError?;
    }
    StoppedIsSettled(log, maxAttempts);
  }

  lemma LastOfAll(cfg: Settings, trace: seq<Action>, log: seq<Attempt<Outcome>>, r: Attempt<Outcome>,
                  made: seq<Call>, more: seq<Call>, id: string)
    requires FirstEver(cfg, trace, [r], more, id)
    ensures FirstEver(cfg, trace, log + [r], made + more, id)
  {
    if r == Returned(Stored) {
      assert [r][|[r]| - 1] == r && (made + more)[|made + more| - 1] == more[|more| - 1];
    }
  }

  /** Everything the loop knows after one more attempt, which led from `s` to `t`. */
  lemma NextAttempt(cfg: Settings, trace: seq<Action>, me: string, m: Message, ev: Event,
                    log: seq<Attempt<Outcome>>, made: seq<Call>, asked: seq<Rates.Remote>, s: Sys, t: Sys,
                    r: Attempt<Outcome>, more: seq<Call>, askedMore: seq<Rates.Remote>)
    requires Attempted(me, m, ev, log, made, asked) && AllTransient(log)
    requires Attempted(me, m, ev, [r], more, askedMore) && FirstEver(cfg, trace, [r], more, ev.id)
    requires Onward(s, t, me) && (LostReply(made) ==> ev.id in s.table) && (LostReply(more) ==> ev.id in t.table)
    requires ev.id in s.table ==> r != Returned(Stored)
    ensures Attempted(me, m, ev, log + [r], made + more, asked + askedMore)
    ensures FirstEver(cfg, trace, log + [r], made + more, ev.id)
    ensures LostReply(made + more) ==> ev.id in t.table
    ensures AllTransient((log + [r])[..|log|]) && (r.TransientError? ==> AllTransient(log + [r]))
  {
    hide Attempted, FirstEver, LostReply, AllTransient, Onward;
    OneMore(me, m, ev, log, made, asked, s, r, more, askedMore);
    StillHeld(s, t, me, m, ev.id);
    LostMore(made, more);
    LastOfAll(cfg, trace, log, r, made, more, ev.id);
    TransientMore(log, r);
  }

  class EventProcessor {
    const cluster: Cluster
    const consumer: string
    const rates: Rates.ExchangeRateProvider
    const upsert: bool     // the dialect has ON CONFLICT DO NOTHING

    constructor (cluster: Cluster, consumer: string, rates: Rates.ExchangeRateProvider, upsert: bool)
      ensures this.cluster == cluster && this.consumer == consumer && this.rates == rates
    {
      this.cluster, this.consumer, this.rates, this.upsert := cluster, consumer, rates, upsert;
    }

    /** The servers are in a reachable state and the rate source is the one the settings speak of. */
    ghost predicate Ready()
      reads cluster, rates.service
    {
      cluster.Good() && rates.service.Good() && rates.service.priced == cluster.cfg.priced
    }

    /**
      `_store`. True when this call wrote the row, false when the id was taken; a plain
      INSERT finds that out by failing. A failure may come after the commit took effect.
     */
    method Store(m: Message, ghost ev: Event, row: Row, ghost start: Sys)
      returns (r: Attempt<bool>, ghost made: seq<Call>)
      requires cluster.Good() && Onward(start, cluster.state, consumer)
      requires m in MemoryOf(cluster.state, consumer).held && cluster.cfg.parse(m.payload) == Some(ev)
      requires row == Row(ev.id, ev.user, ev.amount, ev.currency, row.usd, row.rate, ev.timestamp, row.processedAt)
      requires ConvertToUsd(ev.amount, row.rate) == Ok(row.usd)
      requires Convertible(cluster.cfg, ev.currency)
      modifies cluster
      ensures cluster.Good() && old(cluster.trace) <= cluster.trace
      ensures Onward(start, cluster.state, consumer)
      ensures cluster.calls == old(cluster.calls) + made
      ensures One(made, Action.Store(consumer, m, row.rate, row.processedAt, false), old(cluster.state))
      ensures made[0].at == |old(cluster.trace)|
      ensures cluster.state.broker == old(cluster.state).broker
      ensures var was := old(cluster.state).table;
              cluster.state.table == if made[0].fault.Refused? || row.id in was then was else was[row.id := row]
      ensures if made[0].fault.Fine? then r == Returned(row.id !in old(cluster.state).table) else r.TransientError?
      ensures r.Returned? ==> m.id in MemoryOf(cluster.state, consumer).done
      ensures cluster.state.reports == old(cluster.state).reports +
                (if r.Returned? then [Report(row.id, if r.value then Stored else Duplicate)] else [])
    {
      hide Exec, LegalRun, LogOk, ConvertToUsd, Inv, Apply, Committed;
      cluster.GoodIsInv();
      StoreTeaches(cluster.cfg, cluster.state, consumer, m, ev, row.rate, row.usd, row.processedAt, true);
      StoreTeaches(cluster.cfg, cluster.state, consumer, m, ev, row.rate, row.usd, row.processedAt, false);
      var absent := row.id !in cluster.state.table;
      var fault;
      fault, made := cluster.Send(Action.Store(consumer, m, row.rate, row.processedAt, true), consumer, start);
      if !fault.Fine? { return TransientError("database write failed"), made; }
      if !upsert && !absent {
        // A plain INSERT has failed on the key.
        return Returned(false), made;
      }
      r := Returned(absent);
    }

    /** The second half of `process`: insert, commit and report what happened. */
    method StoreConverted(m: Message, ev: Event, rate: Decimal, usd: int,
                          ghost asked: seq<Rates.Remote>, ghost start: Sys)
      returns (r: Attempt<Outcome>, ghost made: seq<Call>)
      requires Ready() && Onward(start, cluster.state, consumer)
      requires m in MemoryOf(cluster.state, consumer).held && cluster.cfg.parse(m.payload) == Some(ev)
      requires ConvertToUsd(ev.amount, rate) == Ok(usd) && Convertible(cluster.cfg, ev.currency)
      requires Rates.RateFor(rates.service.world, ev.currency, rate)
      requires Rates.Outages(asked) == 0 && Rates.Obtained(ev.currency, asked) == Some(rate)
      modifies cluster
      ensures Ready() && old(cluster.trace) <= cluster.trace && Onward(start, cluster.state, consumer)
      ensures cluster.calls == old(cluster.calls) + made
      ensures Attempted(consumer, m, ev, [r], made, asked)
      ensures Told(cluster.cfg, cluster.state, rates.service.world, consumer, m, ev, r)
      ensures FirstEver(cluster.cfg, cluster.trace, [r], made, ev.id)
      ensures ev.id in start.table ==> r != Returned(Stored)
      ensures LostReply(made) ==> ev.id in cluster.state.table
    {
      hide Exec, LegalRun, LogOk, ConvertToUsd, Attempted, SeenBefore;
      hide Rates.Exec, Rates.LegalRun, Rates.RateFor, Rates.Obtained;
      var now: int := *;
      var row := MakeRow(ev, rate, usd, now);
      ghost var past := cluster.trace;
      var inserted;
      inserted, made := Store(m, ev, row, start);
      if inserted.TransientError? {
        r := TransientError(inserted.detail);
      } else {
        r := Returned(if inserted.value then Stored else Duplicate);
      }
      OneStore(consumer, m, ev, r, made, asked);
      assert cluster.trace[..|past|] == past;
      if r == Returned(Stored) { NotSeenBefore(cluster.cfg, cluster.trace, |past|, ev.id); }
    }

    /**
      `process`. A normal return means the row is committed: STORED when this call wrote it,
      which then is a faithful conversion, DUPLICATE when the id was there before. A currency
      neither base nor priced is a permanent error, an outage of either server a transient one.
     */
    method Process(m: Message, ev: Event)
      returns (r: Attempt<Outcome>, ghost made: seq<Call>, ghost asked: seq<Rates.Remote>)
      requires Ready()
      requires m in MemoryOf(cluster.state, consumer).held && cluster.cfg.parse(m.payload) == Some(ev)
      modifies cluster, rates.service
      ensures Ready() && old(cluster.trace) <= cluster.trace && old(rates.service.run) <= rates.service.run
      ensures Onward(old(cluster.state), cluster.state, consumer)
      ensures cluster.calls == old(cluster.calls) + made && rates.service.asked == old(rates.service.asked) + asked
      ensures Attempted(consumer, m, ev, [r], made, asked)
      ensures Told(cluster.cfg, cluster.state, rates.service.world, consumer, m, ev, r)
      ensures FirstEver(cluster.cfg, cluster.trace, [r], made, ev.id)
      ensures ev.id in old(cluster.state).table ==> r != Returned(Stored)
      ensures LostReply(made) ==> ev.id in cluster.state.table
    {
      hide Exec, LegalRun, LogOk, ConvertToUsd, Attempted, FirstEver, Told, Inconvertible, LostReply, Onward, MemoryOf;
      hide Rates.Exec, Rates.LegalRun, Rates.WasFetched, Rates.Consulted, Rates.Outages, Rates.Obtained, Rates.RateFor;
      hide Upper, Capitals, Rates.AllAbout, Rates.Live, Rates.ConstantSource;
      ghost var start := cluster.state;
      OnwardRefl(start, consumer);
      made := [];
      ghost var k;
      var rate;
      rate, asked, k := rates.GetRate(ev.currency);
      NoOutages();
      Rates.ObtainedByLookup(rates.cached, ev.currency, rate, asked);
      if Upper(ev.currency) != BASE_CURRENCY { Rates.OutagesOfLookup(rates.cached, Upper(ev.currency), rate, asked); }
      cluster.Interfere(consumer, start);
      StillHeld(start, cluster.state, consumer, m, ev.id);
      if rate.Err? {
        r := if rate.error.CurrencyUnknown? then PermanentError(UnknownCurrency) else TransientError("rate unavailable");
        NoStore(consumer, m, ev, r, asked);
        NotFirst(cluster.cfg, cluster.trace, r, made, ev.id);
        ToldOfFailure(cluster.cfg, cluster.state, rates.service.world, consumer, m, ev, r);
        return;
      }
      var usd := ConvertToUsd(ev.amount, rate.value);
      if usd.Err? {
        r := UnexpectedError("arithmetic");
        FailedAt(rates.service.world, ev, rate.value);
        NoStore(consumer, m, ev, r, asked);
        NotFirst(cluster.cfg, cluster.trace, r, made, ev.id);
        ToldOfFailure(cluster.cfg, cluster.state, rates.service.world, consumer, m, ev, r);
        return;
      }
      r, made := StoreConverted(m, ev, rate.value, usd.value, asked, start);
    }

    /** The loop of `retry_transient`: attempts until one is final or none is left, with a wait after each other. */
    method Attempts(m: Message, ev: Event, maxAttempts: nat, base: real, maxDelay: real)
      returns (r: Attempt<Outcome>, log: seq<Attempt<Outcome>>, waits: seq<real>,
               ghost made: seq<Call>, ghost asked: seq<Rates.Remote>)
      requires Ready() && maxAttempts >= 1
      requires m in MemoryOf(cluster.state, consumer).held && cluster.cfg.parse(m.payload) == Some(ev)
      modifies cluster, rates.service
      ensures Ready() && old(cluster.trace) <= cluster.trace
      ensures Onward(old(cluster.state), cluster.state, consumer)
      ensures cluster.calls == old(cluster.calls) + made && rates.service.asked == old(rates.service.asked) + asked
      ensures 1 <= |log| <= maxAttempts && r == log[|log| - 1] && AllTransient(log[..|log| - 1])
      ensures r.TransientError? ==> |log| == maxAttempts
      ensures |waits| == |log| - 1 && WaitsWithin(waits, base, maxDelay)
      ensures Attempted(consumer, m, ev, log, made, asked)
      ensures Told(cluster.cfg, cluster.state, rates.service.world, consumer, m, ev, r)
      ensures FirstEver(cluster.cfg, cluster.trace, log, made, ev.id)
      ensures ev.id in old(cluster.state).table ==> r != Returned(Stored)
    {
      hide Exec, LegalRun, LogOk, Told, MemoryOf, Honest, Attempted, FirstEver, Onward;
      hide LostReply, WaitsWithin, Jittered, Ceiling, AllTransient, Rates.Exec, Rates.LegalRun;
      ghost var start := cluster.state;
      OnwardRefl(start, consumer);
      log, waits, made, asked := [], [], [], [];
      NothingAttempted(cluster.cfg, cluster.trace, consumer, m, ev, base, maxDelay);
      var attempt := 1;
      while attempt <= maxAttempts
        invariant 1 <= attempt <= maxAttempts
        invariant Ready() && old(cluster.trace) <= cluster.trace
        invariant Onward(start, cluster.state, consumer)
        invariant cluster.calls == old(cluster.calls) + made && rates.service.asked == old(rates.service.asked) + asked
        invariant |log| == |waits| == attempt - 1 && AllTransient(log) && WaitsWithin(waits, base, maxDelay)
        invariant Attempted(consumer, m, ev, log, made, asked)
        invariant LostReply(made) ==> ev.id in cluster.state.table
        decreases maxAttempts - attempt
      {
        ghost var before, more, askedMore := cluster.state, [], [];
        StillHeld(start, before, consumer, m, ev.id);
        r, more, askedMore := Process(m, ev);
        OnwardTrans(start, before, cluster.state, consumer);
        NextAttempt(cluster.cfg, cluster.trace, consumer, m, ev, log, made, asked, before, cluster.state,
                    r, more, askedMore);
        log, made, asked := log + [r], made + more, asked + askedMore;
        var wait := WaitAfter(r, attempt, maxAttempts, base, maxDelay);
        if wait.None? { break; }
        WaitMore(waits, wait.value, base, maxDelay);
        waits := waits + [wait.value];
        before := cluster.state;
        cluster.Interfere(consumer, start);
        StillHeld(before, cluster.state, consumer, m, ev.id);
        attempt := attempt + 1;
      }
    }

    /**
      `retry_transient` around `process`. The attempts follow the retry schedule and each is
      witnessed by the calls it made; a normal return means the row is committed; STORED is
      reported only if the row was there at no earlier moment, whoever might have written it;
      and between the first attempt and the return the id is inserted at most once, by anybody.
     */
    method ProcessWithRetry(m: Message, ev: Event, maxAttempts: int, base: real, maxDelay: real)
      returns (r: Attempt<Outcome>, log: seq<Attempt<Outcome>>, waits: seq<real>,
               ghost made: seq<Call>, ghost asked: seq<Rates.Remote>)
      requires Ready()
      requires m in MemoryOf(cluster.state, consumer).held && cluster.cfg.parse(m.payload) == Some(ev)
      modifies cluster, rates.service
      ensures Ready() && old(cluster.trace) <= cluster.trace
      ensures Onward(old(cluster.state), cluster.state, consumer)
      ensures cluster.calls == old(cluster.calls) + made && rates.service.asked == old(rates.service.asked) + asked
      ensures maxAttempts < 1 ==> r.UnexpectedError? && log == [] && made == [] && asked == []
      ensures maxAttempts >= 1 ==> log != [] && r == log[|log| - 1] && Settles(Replay(log), maxAttempts, |log|)
      ensures log != [] ==> |waits| == |log| - 1 && WaitsWithin(waits, base, maxDelay)
      ensures Attempted(consumer, m, ev, log, made, asked)
      ensures log != [] ==> Told(cluster.cfg, cluster.state, rates.service.world, consumer, m, ev, r)
      ensures FirstEver(cluster.cfg, cluster.trace, log, made, ev.id)
      ensures ev.id in old(cluster.state).table ==> r != Returned(Stored)
      ensures TimesInserted(cluster.cfg, old(cluster.state), cluster.trace[|old(cluster.trace)|..], ev.id) <= 1
    {
      hide Exec, LegalRun, LogOk, Told, MemoryOf, Honest, TimesInserted, Attempted, FirstEver, Onward;
      hide LostReply, Settles, Replay, WaitsWithin, AllTransient, Rates.Exec, Rates.LegalRun;
      OnwardRefl(cluster.state, consumer);
      log, waits, made, asked := [], [], [], [];
      if maxAttempts < 1 {
        NothingAttempted(cluster.cfg, cluster.trace, consumer, m, ev, base, maxDelay);
        r := UnexpectedError("max_attempts must be >= 1");
      } else {
        r, log, waits, made, asked := Attempts(m, ev, maxAttempts, base, maxDelay);
        StoppedLog(log, r, maxAttempts);
      }
      cluster.InsertedOnceSince(old(cluster.trace), ev.id);
    }
  }
}
