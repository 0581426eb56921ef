/**
  The servers and everybody connected to them, as one mutable object. Each await of a worker
  is one `Do`; between two awaits anybody else may act, which is `Interfere`.
 */
module Clusters {
  import opened Prelude
  import opened Pipeline
  import opened Safety

  /** How a remote call ends: normally, without effect, or with its effect but without its reply. */
  datatype Fault = Fine | Refused | ReplyLost

  /** What a worker can rely on while it does not crash: the history and its memory only grow. */
  ghost predicate Onward(s: Sys, t: Sys, me: string) {
    Grows(s, t) && Remembers(MemoryOf(s, me), MemoryOf(t, me))
  }

  lemma OnwardStep(cfg: Settings, s: Sys, a: Action, me: string)
    requires a != Crash(me)
    ensures Onward(s, Apply(cfg, s, a), me)
  {
    StepGrows(cfg, s, a);
    MemoryStep(cfg, s, a, me);
    hide Apply, Grows, Remembers, MemoryOf;
  }

  lemma OnwardTrans(s: Sys, t: Sys, u: Sys, me: string)
    requires Onward(s, t, me) && Onward(t, u, me)
    ensures Onward(s, u, me)
  {
    assert s.broker.published <= t.broker.published <= u.broker.published;
    assert s.broker.parked <= t.broker.parked <= u.broker.parked;
    assert s.reports <= t.reports <= u.reports;
  }

  lemma OnwardRefl(s: Sys, me: string)
    ensures Onward(s, s, me)
  {
  }

  /** The command as it takes effect: the worker sees the reply only if the call ends normally. */
  function Sent(a: Action, fault: Fault): Action {
    match a
    case Read(w, count, _) => Read(w, count, fault.Fine?)
    case Claim(w, minIdle, count, scan, _) => Claim(w, minIdle, count, scan, fault.Fine?)
    case Store(w, m, rate, now, _) => Store(w, m, rate, now, fault.Fine?)
    case _ => a
  }

  /** One remote call: the command, how it ended, the state it met and that state's place in the trace. */
  datatype Call = Call(command: Action, fault: Fault, before: Sys, at: nat)

  /** The call met the state at its place in the trace, and if it took effect it is the step there. */
  ghost predicate Placed(cfg: Settings, trace: seq<Action>, c: Call) {
    && c.at <= |trace| && c.before == Exec(cfg, INITIAL, trace[..c.at])
    && (!c.fault.Refused? ==> c.at < |trace| && trace[c.at] == c.command)
  }

  /** Calls are logged in the order of the trace, and no two steps share a place. */
  ghost predicate InOrder(calls: seq<Call>) {
    forall i, j :: 0 <= i < j < |calls| ==>
      calls[i].at <= calls[j].at && (!calls[i].fault.Refused? ==> calls[i].at < calls[j].at)
  }

  ghost predicate LogOk(cfg: Settings, trace: seq<Action>, calls: seq<Call>) {
    InOrder(calls) && forall c :: c in calls ==> Placed(cfg, trace, c)
  }

  lemma LogStays(cfg: Settings, trace: seq<Action>, more: seq<Action>, calls: seq<Call>)
    requires LogOk(cfg, trace, calls) && trace <= more
    ensures LogOk(cfg, more, calls)
  {
    forall c | c in calls ensures Placed(cfg, more, c) {
      assert Placed(cfg, trace, c);
      assert more[..c.at] == trace[..c.at];
    }
  }

  lemma LogGrows(cfg: Settings, trace: seq<Action>, a: Action, fault: Fault, s: Sys, calls: seq<Call>)
    requires LogOk(cfg, trace, calls) && s == Exec(cfg, INITIAL, trace)
    ensures LogOk(cfg, if fault.Refused? then trace else trace + [a], calls + [Call(a, fault, s, |trace|)])
  {
    hide Exec, InOrder, Placed;
    var more, c := (if fault.Refused? then trace else trace + [a]), Call(a, fault, s, |trace|);
    LogStays(cfg, trace, more, calls);
    NewCallIsPlaced(cfg, trace, c);
    LastInOrder(cfg, trace, calls, c);
  }

  lemma NewCallIsPlaced(cfg: Settings, trace: seq<Action>, c: Call)
    requires c.at == |trace| && c.before == Exec(cfg, INITIAL, trace)
    ensures Placed(cfg, if c.fault.Refused? then trace else trace + [c.command], c)
  {
    hide Exec;
    assert trace[..|trace|] == trace && (trace + [c.command])[..|trace|] == trace;
  }

  lemma LastInOrder(cfg: Settings, trace: seq<Action>, calls: seq<Call>, c: Call)
    requires LogOk(cfg, trace, calls) && c.at == |trace|
    ensures InOrder(calls + [c])
  {
    hide Exec;
    forall i | 0 <= i < |calls|
      ensures calls[i].at <= |trace| && (!calls[i].fault.Refused? ==> calls[i].at < |trace|)
    {
      assert Placed(cfg, trace, calls[i]);
    }
  }

  /** The one call made is this command, sent when the state was `s`. */
  ghost predicate One(made: seq<Call>, a: Action, s: Sys) {
    |made| == 1 && made[0].command == Sent(a, made[0].fault) && made[0].before == s
  }

  /** A command the server is bound to refuse: no group, or a COUNT it does not accept. */
  predicate BoundToFail(s: Sys, a: Action) {
    ((a.Read? || a.Claim?) && !s.broker.grouped) || (a.Claim? && a.count == 0)
  }

  class Cluster {
    const cfg: Settings
    var state: Sys
    ghost var trace: seq<Action>   // every step since the beginning, by anybody
    ghost var calls: seq<Call>     // the remote calls made through this object by its own user

    constructor (cfg: Settings)
      ensures this.cfg == cfg && state == INITIAL && trace == [] && calls == [] && Good()
    {
      this.cfg := cfg;
      state := INITIAL;
      trace, calls := [], [];
    }

    /** The state is what the steps so far lead to, and the log of calls is true. */
    ghost predicate Valid()
      reads this
    {
      state == Exec(cfg, INITIAL, trace) && LogOk(cfg, trace, calls)
    }

    /** And every one of those steps was one the code may take. */
    ghost predicate Good()
      reads this
    {
      Valid() && LegalRun(cfg, INITIAL, trace)
    }

    lemma GoodIsInv()
      requires Good()
      ensures Inv(cfg, state)
    {
      Reachable(cfg, trace);
    }

    /** Whatever happened since the trace was `past`, it inserted an id at most once. */
    lemma InsertedOnceSince(past: seq<Action>, id: string)
      requires Good() && past <= trace
      ensures TimesInserted(cfg, Exec(cfg, INITIAL, past), trace[|past|..], id) <= 1
    {
      InsertedAtMostOnce(cfg, Exec(cfg, INITIAL, past), trace[|past|..], id);
    }

    /** One step, by anybody. */
    method Do(a: Action)
      requires Valid()
      modifies this
      ensures Valid() && state == Apply(cfg, old(state), a) && trace == old(trace) + [a] && calls == old(calls)
      ensures old(Good()) && Legal(cfg, old(state), a) ==> Good()
      ensures forall me :: a != Crash(me) ==> Onward(old(state), state, me)
    {
      hide LogOk;
      ExecStep(cfg, INITIAL, trace, a);
      LogStays(cfg, trace, trace + [a], calls);
      state := Apply(cfg, state, a);
      trace := trace + [a];
      forall me | a != Crash(me) ensures Onward(old(state), state, me) {
        OnwardStep(cfg, old(state), a, me);
      }
    }

    /**
      A remote call on behalf of a worker that has been running since `start`. It may fail
      without effect, or take effect and lose its reply; a query that fails has no effect.
     */
    method Send(a: Action, me: string, ghost start: Sys) returns (fault: Fault, ghost made: seq<Call>)
      requires Valid() && a != Crash(me) && Onward(start, state, me)
      modifies this
      ensures Valid() && calls == old(calls) + made && One(made, a, old(state)) && made[0].fault == fault
      ensures made[0].at == |old(trace)|
      ensures state == (if fault.Refused? then old(state) else Apply(cfg, old(state), Sent(a, fault)))
      ensures trace == (if fault.Refused? then old(trace) else old(trace) + [Sent(a, fault)])
      ensures BoundToFail(old(state), a) ==> fault.Refused?
      ensures a.Count? || a.Inspect? ==> !fault.ReplyLost?
      ensures old(Good()) && Legal(cfg, old(state), a) ==> Good()
      ensures Onward(old(state), state, me) && Onward(start, state, me)
    {
      hide Exec, LegalRun, LogOk, Grows, Remembers;
      fault := *;
      if BoundToFail(state, a) || ((a.Count? || a.Inspect?) && fault.ReplyLost?) { fault := Refused; }
      ghost var before, past := state, trace;
      OnwardRefl(state, me);
      LogGrows(cfg, trace, Sent(a, fault), fault, state, calls);
      if !fault.Refused? {
        Do(Sent(a, fault));
        OnwardTrans(start, before, state, me);
      }
      made := [Call(Sent(a, fault), fault, before, |past|)];
      calls := calls + made;
    }

    /** Others, and the worker's own other tasks, take any number of legal steps; `me` does not crash. */
    method Interfere(me: string, ghost start: Sys)
      requires Good() && Onward(start, state, me)
      modifies this
      ensures Good() && old(trace) <= trace && calls == old(calls)
      ensures Onward(old(state), state, me) && Onward(start, state, me)
    {
      hide Exec, LegalRun, LogOk, Grows, Remembers, Legal;
      ghost var here := state;
      OnwardRefl(state, me);
      var n := AnyNat();
      while n > 0
        invariant Good() && old(trace) <= trace && calls == old(calls)
        invariant Onward(here, state, me)
      {
        var a: Action := *;
        if Legal(cfg, state, a) && a != Crash(me) {
          ghost var before := state;
          Do(a);
          OnwardTrans(here, before, state, me);
        }
        n := n - 1;
      }
      OnwardTrans(start, here, state, me);
    }
  }
}
