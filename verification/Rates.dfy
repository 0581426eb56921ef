/**
  The exchange-rate lookup: a cache with a time to live in front of a source that may fail.

  The cache is shared by every worker. A cached value is live until `ttl` after it was
  written; reads, writes and the source may fail at any time.
 */
module Rates {
  import opened Prelude
  import opened Money

  datatype RateError = CurrencyUnknown | RateUnavailable

  /** What a key holds: the text of a decimal, or text that does not parse. */
  datatype Raw = Text(rate: Decimal) | Garbage

  datatype Cached = Cached(raw: Raw, writtenAt: int)

  /** One answer of the source. */
  datatype Fetched = Fetched(currency: string, rate: Decimal, at: int)

  datatype World = World(cache: map<string, Cached>, now: int, fetched: seq<Fetched>)

  function CacheKey(currency: string): string {
    "rate:" + currency
  }

  lemma CacheKeyIsInjective(a: string, b: string)
    requires CacheKey(a) == CacheKey(b)
    ensures a == b
  {
    assert CacheKey(a)[5..] == a && CacheKey(b)[5..] == b;
  }

  // ------------------------------------------------------------ the state machine

  datatype Step =
    | Advance(seconds: nat)
    | Answer(currency: string, rate: Decimal)
    | Write(currency: string, rate: Decimal)
    | Evict(key: string)
    | Foreign(key: string, raw: Raw)   // a write by other software

  function Apply(w: World, a: Step): World {
    match a
    case Advance(seconds) => w.(now := w.now + seconds)
    case Answer(currency, rate) => w.(fetched := w.fetched + [Fetched(currency, rate, w.now)])
    case Write(currency, rate) => w.(cache := w.cache[CacheKey(currency) := Cached(Text(rate), w.now)])
    case Evict(key) => w.(cache := w.cache - {key})
    case Foreign(key, raw) => w.(cache := w.cache[key := Cached(raw, w.now)])
  }

  predicate WasFetched(w: World, currency: string, rate: Decimal) {
    exists f :: f in w.fetched && f.currency == currency && f.rate == rate
  }

  /**
    The source answers for the currencies it knows, the code writes a rate only after the
    source returned it for that currency, and nobody else writes.
   */
  predicate Legal(priced: string -> bool, w: World, a: Step) {
    match a
    case Answer(currency, _) => priced(currency)
    case Write(currency, rate) => WasFetched(w, currency, rate)
    case Foreign(_, _) => false
    case _ => true
  }

  function Exec(w: World, run: seq<Step>): World {
    if run == [] then w else Apply(Exec(w, run[..|run| - 1]), run[|run| - 1])
  }

  predicate LegalRun(priced: string -> bool, w: World, run: seq<Step>) {
    run == [] ||
    (LegalRun(priced, w, run[..|run| - 1]) && Legal(priced, Exec(w, run[..|run| - 1]), run[|run| - 1]))
  }

  /** An empty cache, and a source that was never asked. */
  function Fresh(start: int): World {
    World(map[], start, [])
  }

  function Live(w: World, ttl: int, currency: string): Option<Raw> {
    var key := CacheKey(currency);
    if key in w.cache && w.now < w.cache[key].writtenAt + ttl then Some(w.cache[key].raw) else None
  }

  /** Everything cached was fetched for the currency of its key, no later than it was written. */
  ghost predicate CacheOk(w: World) {
    forall key :: key in w.cache ==>
      exists f :: f in w.fetched && key == CacheKey(f.currency) && w.cache[key].raw == Text(f.rate)
                  && f.at <= w.cache[key].writtenAt <= w.now
  }

  ghost predicate FetchedOk(priced: string -> bool, w: World) {
    forall f :: f in w.fetched ==> f.at <= w.now && priced(f.currency)
  }

  lemma StepKeepsCacheOk(priced: string -> bool, w: World, a: Step)
    requires CacheOk(w) && FetchedOk(priced, w) && Legal(priced, w, a)
    ensures CacheOk(Apply(w, a)) && FetchedOk(priced, Apply(w, a))
  {
    var v := Apply(w, a);
    forall key | key in v.cache
      ensures exists f :: f in v.fetched && key == CacheKey(f.currency) && v.cache[key].raw == Text(f.rate)
                          && f.at <= v.cache[key].writtenAt <= v.now
    {
      if a.Write? && key == CacheKey(a.currency) {
        var f :| f in w.fetched && f.currency == a.currency && f.rate == a.rate;
        assert f in v.fetched;
      } else {
        var f :| f in w.fetched && key == CacheKey(f.currency) && w.cache[key].raw == Text(f.rate)
                 && f.at <= w.cache[key].writtenAt <= w.now;
        assert f in v.fetched;
      }
    }
  }

  lemma {:induction false} RunKeepsCacheOk(priced: string -> bool, w: World, run: seq<Step>)
    requires CacheOk(w) && FetchedOk(priced, w) && LegalRun(priced, w, run)
    ensures CacheOk(Exec(w, run)) && FetchedOk(priced, Exec(w, run))
    decreases |run|
  {
    if run != [] {
      RunKeepsCacheOk(priced, w, run[..|run| - 1]);
      StepKeepsCacheOk(priced, Exec(w, run[..|run| - 1]), run[|run| - 1]);
    }
  }

  /**
    The cache agrees with its source: from an empty cache written only by this code, a live
    entry is a rate the source returned for that currency, written less than `ttl` ago.
   */
  lemma CacheAgreesWithSource(priced: string -> bool, start: int, run: seq<Step>, ttl: int, currency: string)
    requires LegalRun(priced, Fresh(start), run)
    requires Live(Exec(Fresh(start), run), ttl, currency).Some?
    ensures var w := Exec(Fresh(start), run);
            var raw := Live(w, ttl, currency).value;
            && raw.Text? && WasFetched(w, currency, raw.rate) && priced(currency)
            && w.now - w.cache[CacheKey(currency)].writtenAt < ttl
  {
    RunKeepsCacheOk(priced, Fresh(start), run);
    LiveWasFetched(Exec(Fresh(start), run), ttl, currency);
  }

  lemma LiveWasFetched(w: World, ttl: int, currency: string)
    requires CacheOk(w) && Live(w, ttl, currency).Some?
    ensures var raw := Live(w, ttl, currency).value;
            raw.Text? && WasFetched(w, currency, raw.rate)
  {
    var key := CacheKey(currency);
    var f :| f in w.fetched && key == CacheKey(f.currency) && w.cache[key].raw == Text(f.rate);
    CacheKeyIsInjective(f.currency, currency);
  }

  /** Every answer of the source is `quote`. */
  ghost predicate ConstantSource(w: World, quote: map<string, Decimal>) {
    forall f :: f in w.fetched ==> f.currency in quote && quote[f.currency] == f.rate
  }

  /** With a constant source a rate from the cache is the rate the source would return. */
  lemma CacheIsUnobservable(priced: string -> bool, start: int, run: seq<Step>, ttl: int, currency: string,
                            quote: map<string, Decimal>)
    requires LegalRun(priced, Fresh(start), run)
    requires ConstantSource(Exec(Fresh(start), run), quote)
    requires Live(Exec(Fresh(start), run), ttl, currency).Some?
    ensures currency in quote && Live(Exec(Fresh(start), run), ttl, currency) == Some(Text(quote[currency]))
  {
    CacheAgreesWithSource(priced, start, run, ttl, currency);
  }

  // ------------------------------------------------------------------- the service

  ghost predicate Later(w: World, v: World) {
    w.now <= v.now && w.fetched <= v.fetched
  }

  lemma LaterTrans(u: World, v: World, w: World)
    requires Later(u, v) && Later(v, w)
    ensures Later(u, w)
  {
    assert u.fetched <= v.fetched <= w.fetched;
  }

  /** With a constant source everything fetched for a currency is its quote. */
  lemma FetchedIsAnyQuote(w: World, currency: string, rate: Decimal)
    requires WasFetched(w, currency, rate)
    ensures forall quote :: ConstantSource(w, quote) ==> currency in quote && rate == quote[currency]
  {
  }

  lemma JustFetched(w: World, v: World, currency: string, rate: Decimal)
    requires Later(Apply(w, Answer(currency, rate)), v)
    ensures WasFetched(v, currency, rate)
  {
    var after := Apply(w, Answer(currency, rate));
    assert after.fetched[|w.fetched|] == v.fetched[|w.fetched|] == Fetched(currency, rate, w.now);
  }

  /** What a GET of the cache comes back with. */
  datatype Reply = Failed | Answered(raw: Option<Raw>)

  /** One remote call of a lookup, with its outcome. */
  datatype Remote =
    | CacheGet(currency: string, reply: Reply)
    | SourceFetch(currency: string, answer: Result<Decimal, RateError>)
    | CacheSet(currency: string, rate: Decimal, taken: bool)

  /** How many of the calls met an outage of the source. */
  function Outages(asked: seq<Remote>): nat {
    if asked == [] then 0
    else
      var last := asked[|asked| - 1];
      Outages(asked[..|asked| - 1]) + (if last.SourceFetch? && last.answer == Err(RateUnavailable) then 1 else 0)
  }

  lemma {:induction false} OutagesAdd(xs: seq<Remote>, ys: seq<Remote>)
    ensures Outages(xs + ys) == Outages(xs) + Outages(ys)
    decreases |ys|
  {
    if ys == [] {
      assert xs + ys == xs;
    } else {
      OutagesAdd(xs, ys[..|ys| - 1]);
      assert (xs + ys)[..|xs + ys| - 1] == xs + ys[..|ys| - 1];
    }
  }

  lemma OutagesOfOne(x: Remote)
    ensures Outages([x]) == if x.SourceFetch? && x.answer == Err(RateUnavailable) then 1 else 0
  {
    assert [x][..0] == [];
  }

  /** The cache everybody shares, the rate source and the clock. */
  class RateService {
    const start: int
    const priced: string -> bool     // the currencies the source knows
    var world: World
    ghost var run: seq<Step>         // every step since the beginning, by anybody
    ghost var asked: seq<Remote>     // the remote calls made through this object by its own user

    constructor (start: int, priced: string -> bool)
      ensures this.start == start && this.priced == priced && run == [] && asked == [] && Good()
    {
      this.start, this.priced := start, priced;
      world, run, asked := Fresh(start), [], [];
    }

    ghost predicate Good()
      reads this
    {
      world == Exec(Fresh(start), run) && LegalRun(priced, Fresh(start), run)
    }

    method Do(a: Step)
      requires Good() && Legal(priced, world, a)
      modifies this
      ensures Good() && world == Apply(old(world), a) && run == old(run) + [a] && Later(old(world), world)
      ensures asked == old(asked)
    {
      assert (run + [a])[..|run|] == run;
      world, run := Apply(world, a), run + [a];
    }

    /** Time passes and others look up rates; keys expire or are evicted. */
    method Interfere()
      requires Good()
      modifies this
      ensures Good() && old(run) <= run && Later(old(world), world)
      ensures asked == old(asked)
    {
      var n := AnyNat();
      while n > 0
        invariant Good() && old(run) <= run && Later(old(world), world) && asked == old(asked)
      {
        var a: Step := *;
        if Legal(priced, world, a) {
          ghost var before := world;
          Do(a);
          LaterTrans(old(world), before, world);
        }
        n := n - 1;
      }
    }

    /** GET: it fails, or it answers with what is live. */
    method Get(currency: string, ttl: int) returns (reply: Reply)
      requires Good()
      modifies this
      ensures Good() && run == old(run) && world == old(world)
      ensures asked == old(asked) + [CacheGet(currency, reply)]
      ensures reply.Failed? || reply == Answered(Live(world, ttl, currency))
      ensures reply.Answered? ==>
                reply.raw == if "rate:" + currency in world.cache &&
                                world.now - world.cache["rate:" + currency].writtenAt < ttl
                             then Some(world.cache["rate:" + currency].raw) else None
    {
      var down: bool := *;
      reply := if down then Failed else Answered(Live(world, ttl, currency));
      asked := asked + [CacheGet(currency, reply)];
    }

    /** The downstream lookup: it can fail at any time, and knows only the priced currencies. */
    method Fetch(currency: string) returns (r: Result<Decimal, RateError>)
      requires Good()
      modifies this
      ensures Good() && old(run) <= run && Later(old(world), world)
      ensures asked == old(asked) + [SourceFetch(currency, r)]
      ensures r.Ok? ==> priced(currency) && world == Apply(old(world), Answer(currency, r.value))
      ensures r.Ok? ==> world == old(world).(fetched := old(world).fetched + [Fetched(currency, r.value, old(world).now)])
      ensures r == Err(CurrencyUnknown) ==> !priced(currency)
      ensures r.Err? ==> world == old(world)
    {
      var outage: bool := *;
      if outage {
        r := Err(RateUnavailable);
      } else if !priced(currency) {
        r := Err(CurrencyUnknown);
      } else {
        var rate: Decimal := *;
        Do(Answer(currency, rate));
        r := Ok(rate);
      }
      asked := asked + [SourceFetch(currency, r)];
    }

    /** SET with an expiry: refused when the server is down or the expiry is below one. */
    method Set(currency: string, rate: Decimal, ttl: int) returns (taken: bool)
      requires Good() && WasFetched(world, currency, rate)
      modifies this
      ensures Good() && old(run) <= run && Later(old(world), world)
      ensures asked == old(asked) + [CacheSet(currency, rate, taken)]
      ensures world == if taken then Apply(old(world), Write(currency, rate)) else old(world)
      ensures taken ==>
                world == old(world).(cache := old(world).cache["rate:" + currency := Cached(Text(rate), old(world).now)])
      ensures taken ==> ttl >= 1
    {
      var down: bool := *;
      taken := !down && ttl >= 1;
      if taken { Do(Write(currency, rate)); }
      asked := asked + [CacheSet(currency, rate, taken)];
    }
  }

  /** The rate a lookup took from the cache, if its GET brought text that parses. */
  function Hit(made: seq<Remote>): Option<Decimal> {
    if made == [] then None
    else
      match made[0]
      case CacheGet(_, Answered(Some(Text(rate)))) => Some(rate)
      case _ => None
  }

  /** Cache first, then the source, then the cache is filled: the calls of one lookup and what they led to. */
  ghost predicate Consulted(cached: bool, code: string, r: Result<Decimal, RateError>, made: seq<Remote>) {
    var gets := if cached then 1 else 0;
    && |made| >= gets
    && (cached ==> made[0].CacheGet? && made[0].currency == code)
    && if cached && Hit(made).Some? then |made| == 1 && r == Ok(Hit(made).value)
       else
         && |made| == gets + (if cached && r.Ok? then 2 else 1)
         && made[gets] == SourceFetch(code, r)
         && (cached && r.Ok? ==> made[2].CacheSet? && made[2].currency == code && made[2].rate == r.value)
  }

  /** A lookup met an outage exactly if that is how it ended. */
  lemma OutagesOfLookup(cached: bool, code: string, r: Result<Decimal, RateError>, made: seq<Remote>)
    requires Consulted(cached, code, r, made)
    ensures Outages(made) == if r == Err(RateUnavailable) then 1 else 0
  {
    hide Outages;
    OutagesOfOne(made[0]);
    if |made| >= 2 {
      OutagesOfOne(made[1]);
      OutagesAdd([made[0]], [made[1]]);
    }
    if |made| == 3 {
      OutagesOfOne(made[2]);
      OutagesAdd([made[0]] + [made[1]], [made[2]]);
      assert made == [made[0]] + [made[1]] + [made[2]];
    } else if |made| == 2 {
      assert made == [made[0]] + [made[1]];
    } else {
      assert made == [made[0]];
    }
  }

  /** The rate a lookup ended with: 1 for USD, else what its last call brought or wrote. */
  function Obtained(currency: string, asked: seq<Remote>): Option<Decimal> {
    if Upper(currency) == BASE_CURRENCY then Some(Finite(1, 0))
    else if asked == [] then None
    else
      match asked[|asked| - 1]
      case CacheGet(_, Answered(Some(Text(rate)))) => Some(rate)
      case SourceFetch(_, Ok(rate)) => Some(rate)
      case CacheSet(_, rate, _) => Some(rate)
      case _ => None
  }

  /** The source was asked for the currency last, and does not know it. */
  predicate AskedInVain(currency: string, asked: seq<Remote>) {
    asked != [] && asked[|asked| - 1] == SourceFetch(Upper(currency), Err(CurrencyUnknown))
  }

  lemma ObtainedByLookup(cached: bool, currency: string, r: Result<Decimal, RateError>, made: seq<Remote>)
    requires if Upper(currency) == BASE_CURRENCY then r == Ok(Finite(1, 0))
             else Consulted(cached, Upper(currency), r, made)
    ensures r.Ok? ==> Obtained(currency, made) == Some(r.value)
    ensures r == Err(CurrencyUnknown) ==> AskedInVain(currency, made)
  {
  }

  /** A rate the code may convert with. */
  ghost predicate RateFor(w: World, currency: string, rate: Decimal) {
    if Upper(currency) == BASE_CURRENCY then rate == Finite(1, 0) else WasFetched(w, Upper(currency), rate)
  }

  /** There are calls, and every one of them names this very currency. */
  ghost predicate AllAbout(currency: string, made: seq<Remote>) {
    made != [] && forall c :: c in made ==> c.currency == currency
  }

  /** The lookup of a code of capitals: the dollar needs no call, and any other is asked for under its own name. */
  lemma LookupByName(cached: bool, currency: string, r: Result<Decimal, RateError>, made: seq<Remote>)
    requires if Upper(currency) == BASE_CURRENCY then r == Ok(Finite(1, 0)) && made == []
             else Consulted(cached, Upper(currency), r, made)
    ensures currency == "USD" ==> r == Ok(Finite(1, 0)) && made == []
    ensures Capitals(currency) && currency != "USD" ==> AllAbout(currency, made)
  {
    hide Consulted, AllAbout;
    assert Capitals("USD");
    if Capitals(currency) {
      CapitalsStay(currency);
      if currency != "USD" { ConsultedByName(cached, currency, r, made); }
    }
  }

  lemma ConsultedByName(cached: bool, code: string, r: Result<Decimal, RateError>, made: seq<Remote>)
    requires Consulted(cached, code, r, made)
    ensures AllAbout(code, made)
  {
    forall c | c in made ensures c.currency == code {
      var i :| 0 <= i < |made| && made[i] == c;
      assert |made| <= 3;
    }
  }

  lemma HitIsConsulted(cached: bool, code: string, r: Result<Decimal, RateError>, made: seq<Remote>)
    requires cached && |made| == 1 && made[0].CacheGet? && made[0].currency == code
    requires Hit(made).Some? && r == Ok(Hit(made).value)
    ensures Consulted(cached, code, r, made)
  {
  }

  lemma MissIsConsulted(cached: bool, code: string, r: Result<Decimal, RateError>, made: seq<Remote>, more: seq<Remote>)
    requires if cached then |made| == 1 && made[0].CacheGet? && made[0].currency == code && Hit(made).None?
             else made == []
    requires |more| == (if cached && r.Ok? then 2 else 1) && more[0] == SourceFetch(code, r)
    requires cached && r.Ok? ==> more[1].CacheSet? && more[1].currency == code && more[1].rate == r.value
    ensures Consulted(cached, code, r, made + more)
  {
  }

  class ExchangeRateProvider {
    const service: RateService
    const cached: bool            // there is a cache at all
    const ttl: int

    constructor (service: RateService, cached: bool, ttl: int)
      ensures this.service == service && this.cached == cached && this.ttl == ttl
    {
      this.service, this.cached, this.ttl := service, cached, ttl;
    }

    /** A read that fails and text that does not parse are both a miss. */
    method ReadCache(currency: string) returns (r: Option<Decimal>, ghost made: seq<Remote>)
      requires service.Good()
      modifies service
      ensures service.Good() && service.run == old(service.run) && service.world == old(service.world)
      ensures service.asked == old(service.asked) + made && r == Hit(made)
      ensures if !cached then made == []
              else |made| == 1 && made[0].CacheGet? && made[0].currency == currency &&
                   (made[0].reply.Failed? || made[0].reply == Answered(Live(service.world, ttl, currency)))
    {
      if !cached { return None, []; }
      var reply := service.Get(currency, ttl);
      made := [CacheGet(currency, reply)];
      if reply.Failed? || reply.raw.None? { return None, made; }
      if reply.raw.value.Garbage? { return None, made; }
      r := Some(reply.raw.value.rate);
    }

    /** A write that fails, as every write with a time to live below one does, is ignored. */
    method WriteCache(currency: string, rate: Decimal) returns (ghost made: seq<Remote>)
      requires service.Good() && WasFetched(service.world, currency, rate)
      modifies service
      ensures service.Good() && old(service.run) <= service.run && Later(old(service.world), service.world)
      ensures service.asked == old(service.asked) + made
      ensures if !cached then made == [] && service.world == old(service.world)
              else
                && |made| == 1 && made[0].CacheSet? && made[0].currency == currency && made[0].rate == rate
                && (made[0].taken ==> ttl >= 1)
                && service.world == if made[0].taken then Apply(old(service.world), Write(currency, rate))
                                    else old(service.world)
    {
      if !cached { return []; }
      var taken := service.Set(currency, rate, ttl);
      made := [CacheSet(currency, rate, taken)];
    }

    /** A miss: ask the source, and fill the cache with what it returned. */
    method FetchRate(code: string) returns (r: Result<Decimal, RateError>, ghost made: seq<Remote>)
      requires service.Good()
      modifies service
      ensures service.Good() && old(service.run) <= service.run && Later(old(service.world), service.world)
      ensures service.asked == old(service.asked) + made
      ensures |made| == (if cached && r.Ok? then 2 else 1) && made[0] == SourceFetch(code, r)
      ensures cached && r.Ok? ==> made[1].CacheSet? && made[1].currency == code && made[1].rate == r.value
      ensures r.Ok? ==> WasFetched(service.world, code, r.value) && service.priced(code)
      ensures r == Err(CurrencyUnknown) ==> !service.priced(code)
    {
      hide Exec, LegalRun;
      r := service.Fetch(code);
      made := [SourceFetch(code, r)];
      if r.Err? { return; }
      ghost var answered := service.world;
      service.Interfere();
      ghost var here := service.world;
      JustFetched(old(service.world), here, code, r.value);
      ghost var wrote := WriteCache(code, r.value);
      made := made + wrote;
      LaterTrans(answered, here, service.world);
      JustFetched(old(service.world), service.world, code, r.value);
      LaterTrans(old(service.world), answered, service.world);
    }

    /**
      USD costs no call. Any other lookup consults the cache as it was after the first `k`
      steps of the run, some moment of this call, and then the source. A success is a rate
      the source returned for this very currency; an unknown currency is unknown to the source.
     */
    method GetRate(currency: string) returns (r: Result<Decimal, RateError>, ghost made: seq<Remote>, ghost k: nat)
      requires service.Good()
      modifies service
      ensures service.Good() && old(service.run) <= service.run && Later(old(service.world), service.world)
      ensures service.asked == old(service.asked) + made
      ensures |old(service.run)| <= k <= |service.run|
      ensures Upper(currency) == BASE_CURRENCY ==>
                r == Ok(Finite(1, 0)) && made == [] && service.world == old(service.world)
      ensures Upper(currency) != BASE_CURRENCY ==> Consulted(cached, Upper(currency), r, made)
      ensures currency == "USD" ==> r == Ok(Finite(1, 0)) && made == []
      ensures Capitals(currency) && currency != "USD" ==> AllAbout(currency, made)
      ensures made != [] && cached ==>
                made[0].reply.Failed? ||
                made[0].reply == Answered(Live(Exec(Fresh(service.start), service.run[..k]), ttl, Upper(currency)))
      ensures r.Ok? ==> RateFor(service.world, currency, r.value)
      ensures r.Ok? && Upper(currency) != BASE_CURRENCY ==>
                && service.priced(Upper(currency))
                && forall quote :: ConstantSource(service.world, quote) ==>
                     Upper(currency) in quote && r.value == quote[Upper(currency)]
      ensures r == Err(CurrencyUnknown) ==> Upper(currency) != BASE_CURRENCY && !service.priced(Upper(currency))
    {
      hide Exec, LegalRun, Live, WasFetched, Consulted, Capitals, AllAbout, Upper;
      made, k := [], |service.run|;
      var code := Upper(currency);
      r := Ok(Finite(1, 0));
      if code == BASE_CURRENCY {
        LookupByName(cached, currency, r, made);
        return;
      }
      service.Interfere();
      ghost var seen, upTo := service.world, service.run;
      k := |upTo|;
      assert upTo[..k] == upTo;
      var hit;
      hit, made := ReadCache(code);
      if hit.Some? {
        CacheAgreesWithSource(service.priced, service.start, service.run, ttl, code);
        FetchedIsAnyQuote(service.world, code, hit.value);
        r := Ok(hit.value);
        HitIsConsulted(cached, code, r, made);
        LookupByName(cached, currency, r, made);
        return;
      }
      service.Interfere();
      ghost var before := service.world;
      ghost var more;
      r, more := FetchRate(code);
      LaterTrans(seen, before, service.world);
      LaterTrans(old(service.world), seen, service.world);
      MissIsConsulted(cached, code, r, made, more);
      if cached { assert (made + more)[0] == made[0]; }
      made := made + more;
      LookupByName(cached, currency, r, made);
      assert service.run[..k] == upTo;
      if r.Ok? { FetchedIsAnyQuote(service.world, code, r.value); }
    }
  }
}
