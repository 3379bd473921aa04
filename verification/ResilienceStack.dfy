/** Cache, circuit breaker and retry together, as the maps adapter stacks them. A request is
    cut at every await: reading the cache, asking the breaker, each call to the maps service
    and each sleep between two calls, the breaker's verdict and the write to the cache. The
    pieces of different requests interleave freely, with each other and with everybody else
    who uses the cache. */
module ResilienceStack {
  import opened Wrappers
  import CB = CircuitBreaker
  import BT = BreakerTraces
  import MC = MemoryCache
  import opened Retry

  /** truthy tells which cached values JavaScript takes for a hit. */
  datatype Settings<!V> = Settings(
    cacheEnabled: bool,
    cacheTtl: int,
    breaker: CB.Config,
    retry: RetryConfig,
    truthy: V -> bool)

  type Count = n: nat | n >= 1 witness 1

  /** Where a request is suspended; attempt counts its calls, and a sleep is not over before
      until. Settling holds what the retry ended with, if it called at all. */
  datatype Phase<V> =
    | Missed
    | InCall(attempt: Count)
    | Sleeping(attempt: Count, until: int)
    | Settling(result: Option<Attempt<V>>)
    | Storing(value: V)

  datatype Pending<V> = Pending(key: string, ttl: int, phase: Phase<V>)

  datatype Stack<V> = Stack(cache: MC.Table<V>, circuit: CB.Circuit, inFlight: map<nat, Pending<V>>, nextId: nat)

  /** Return carries the random number drawn for the delay if the request is to sleep. Others
      stands for the sweep timer and for other services that share the cache. */
  datatype Event<V> =
    | Read(key: string, ttl: Option<int>, at: int)
    | Ask(id: nat, at: int)
    | Return(id: nat, outcome: Attempt<V>, random: real, at: int)
    | Wake(id: nat, at: int)
    | Settle(id: nat, at: int)
    | Store(id: nat, at: int)
    | Others(op: MC.Op<V>)

  function Time<V>(e: Event<V>): int {
    if e.Others? then e.op.now else e.at
  }

  function EffectiveTtl(ttl: Option<int>, default: int): int {
    if ttl.None? || ttl.value == 0 then default else ttl.value
  }

  function PhaseOf<V>(y: Stack<V>, id: nat): Option<Phase<V>> {
    if id in y.inFlight then Some(y.inFlight[id].phase) else None
  }

  function MoveTo<V>(y: Stack<V>, id: nat, phase: Phase<V>): Stack<V>
    requires id in y.inFlight
  {
    y.(inFlight := y.inFlight[id := y.inFlight[id].(phase := phase)])
  }

  function Done<V>(y: Stack<V>, id: nat): Stack<V> {
    y.(inFlight := y.inFlight - {id})
  }

  /** The value a read serves from the cache, if it does. */
  function Served<V>(st: Settings<V>, y: Stack<V>, key: string, now: int): Option<V> {
    var cached := MC.Lookup(y.cache, key, now);
    if st.cacheEnabled && cached.Some? && st.truthy(cached.value) then cached else None
  }

  function AfterRead<V>(st: Settings<V>, y: Stack<V>, key: string, ttl: Option<int>, now: int): Stack<V> {
    var read := y.(cache := if st.cacheEnabled then MC.AfterGet(y.cache, key, now) else y.cache);
    if Served(st, y, key, now).Some? then read
    else
      read.(inFlight := y.inFlight[y.nextId := Pending(key, EffectiveTtl(ttl, st.cacheTtl), Missed)],
            nextId := y.nextId + 1)
  }

  function AfterAsk<V>(st: Settings<V>, y: Stack<V>, id: nat, now: int): Stack<V> {
    if PhaseOf(y, id).None? || !y.inFlight[id].phase.Missed? then y
    else
      var asked := y.(circuit := CB.Refreshed(y.circuit, st.breaker, now));
      if asked.circuit.state == CB.Open then Done(asked, id)
      else MoveTo(asked, id, if st.retry.maxAttempts <= 0 then Settling(None) else InCall(1))
  }

  function AfterReturn<V>(st: Settings<V>, y: Stack<V>, id: nat, outcome: Attempt<V>, random: real, now: int)
    : Stack<V>
  {
    if PhaseOf(y, id).None? || !y.inFlight[id].phase.InCall? then y
    else
      var attempt := y.inFlight[id].phase.attempt;
      MoveTo(y, id,
        if Stops(outcome, attempt, st.retry, None) then Settling(Some(outcome))
        else Sleeping(attempt, now + Delay(attempt, st.retry, random)))
  }

  /** Request id is asleep and its time has come. */
  predicate CanWake<V>(y: Stack<V>, id: nat, now: int) {
    id in y.inFlight && y.inFlight[id].phase.Sleeping? && now >= y.inFlight[id].phase.until
  }

  function AfterWake<V>(y: Stack<V>, id: nat, now: int): Stack<V> {
    if !CanWake(y, id, now) then y else MoveTo(y, id, InCall(y.inFlight[id].phase.attempt + 1))
  }

  function AfterSettle<V>(st: Settings<V>, y: Stack<V>, id: nat, now: int): Stack<V> {
    if PhaseOf(y, id).None? || !y.inFlight[id].phase.Settling? then y
    else
      var result := y.inFlight[id].phase.result;
      if result.Some? && result.value.Returned? then
        var settled := y.(circuit := CB.Succeeded(y.circuit, st.breaker));
        if st.cacheEnabled then MoveTo(settled, id, Storing(result.value.value)) else Done(settled, id)
      else Done(y.(circuit := CB.Failed(y.circuit, st.breaker, now)), id)
  }

  function AfterStore<V>(y: Stack<V>, id: nat, now: int): Stack<V> {
    if PhaseOf(y, id).None? || !y.inFlight[id].phase.Storing? then y
    else
      var p := y.inFlight[id];
      Done(y.(cache := MC.AfterSet(y.cache, p.key, p.phase.value, p.ttl, now)), id)
  }

  function Next<V>(st: Settings<V>, y: Stack<V>, e: Event<V>): Stack<V> {
    match e
    case Read(key, ttl, now) => AfterRead(st, y, key, ttl, now)
    case Ask(id, now) => AfterAsk(st, y, id, now)
    case Return(id, outcome, random, now) => AfterReturn(st, y, id, outcome, random, now)
    case Wake(id, now) => AfterWake(y, id, now)
    case Settle(id, now) => AfterSettle(st, y, id, now)
    case Store(id, now) => AfterStore(y, id, now)
    case Others(op) => y.(cache := MC.Apply(y.cache, op))
  }

  function After<V>(st: Settings<V>, es: seq<Event<V>>): Stack<V> {
    if es == [] then Stack(map[], CB.NEW_CIRCUIT, map[], 0)
    else Next(st, After(st, es[..|es| - 1]), es[|es| - 1])
  }

  // ---- The adapter ----

  class MapsAdapter<V> {
    const settings: Settings<V>
    const cacheService: MC.MemoryCacheService<V>
    const circuit: CB.CircuitInfo
    var inFlight: map<nat, Pending<V>>
    var nextId: nat
    ghost var trace: seq<Event<V>>

    ghost function View(): Stack<V>
      reads this, cacheService, circuit
    {
      Stack(cacheService.cache, circuit.View(), inFlight, nextId)
    }

    ghost predicate Valid()
      reads this, cacheService, circuit
    {
      circuit.config == settings.breaker && View() == After(settings, trace)
    }

    constructor (settings: Settings<V>, cacheService: MC.MemoryCacheService<V>, circuit: CB.CircuitInfo)
      requires circuit.config == settings.breaker && circuit.View() == CB.NEW_CIRCUIT && cacheService.cache == map[]
      ensures this.settings == settings && this.cacheService == cacheService && this.circuit == circuit
      ensures Valid() && trace == []
    {
      this.settings := settings;
      this.cacheService := cacheService;
      this.circuit := circuit;
      inFlight, nextId, trace := map[], 0, [];
    }

    ghost method Record(before: Stack<V>, e: Event<V>)
      requires circuit.config == settings.breaker
      requires before == After(settings, trace) && View() == Next(settings, before, e)
      modifies this`trace
      ensures Valid() && trace == old(trace) + [e]
    {
      trace := trace + [e];
      assert trace[..|trace| - 1] == old(trace);
    }

    method SetPhase(id: nat, phase: Phase<V>)
      requires id in inFlight
      modifies this`inFlight
      ensures inFlight == old(inFlight)[id := old(inFlight)[id].(phase := phase)]
    {
      inFlight := inFlight[id := inFlight[id].(phase := phase)];
    }

    /** withCache up to the answer of the cache: a value, or a new request. */
    method BeginRequest(key: string, ttl: Option<int>, now: int) returns (hit: Option<V>, id: nat)
      requires Valid()
      modifies this, cacheService
      ensures Valid() && trace == old(trace) + [Read(key, ttl, now)]
      ensures hit == Served(settings, old(View()), key, now)
      ensures hit.None? ==> id in inFlight && id !in old(inFlight) && inFlight[id].phase.Missed?
    {
      hit, id := None, nextId;
      if settings.cacheEnabled {
        hit := cacheService.Get(key, now);
        if hit.Some? && !settings.truthy(hit.value) {
          hit := None;
        }
      }
      if hit.None? {
        inFlight := inFlight[id := Pending(key, EffectiveTtl(ttl, settings.cacheTtl), Missed)];
        nextId := nextId + 1;
        OnlyIssued(settings, trace);
      }
      Record(old(View()), Read(key, ttl, now));
    }

    /** The breaker's check and, when it lets the request through, the first call. */
    method AskBreaker(id: nat, now: int) returns (letThrough: bool)
      requires Valid() && id in inFlight && inFlight[id].phase.Missed?
      modifies this, circuit
      ensures Valid() && trace == old(trace) + [Ask(id, now)]
      ensures letThrough <==> id in inFlight
      ensures letThrough <==> circuit.View().state != CB.Open
    {
      circuit.UpdateCircuitState(now);
      letThrough := circuit.state != CB.Open;
      if letThrough {
        SetPhase(id, if settings.retry.maxAttempts <= 0 then Settling(None) else InCall(1));
      } else {
        inFlight := inFlight - {id};
      }
      Record(old(View()), Ask(id, now));
    }

    /** One turn of the retry loop, after the awaited call: the delay to sleep, if another call follows. */
    method CallReturned(id: nat, outcome: Attempt<V>, random: real, now: int) returns (delay: Option<int>)
      requires Valid() && id in inFlight && inFlight[id].phase.InCall?
      modifies this
      ensures Valid() && trace == old(trace) + [Return(id, outcome, random, now)]
      ensures delay.None? <==> Stops(outcome, old(inFlight[id].phase.attempt), settings.retry, None)
      ensures delay.Some? ==> delay.value == Delay(old(inFlight[id].phase.attempt), settings.retry, random)
    {
      var attempt := inFlight[id].phase.attempt;
      delay := None;
      if outcome.Returned? {
        SetPhase(id, Settling(Some(outcome)));
      } else if attempt == settings.retry.maxAttempts || !ShouldRetry(outcome.error, None) {
        SetPhase(id, Settling(Some(outcome)));
      } else {
        delay := Some(Delay(attempt, settings.retry, random));
        SetPhase(id, Sleeping(attempt, now + delay.value));
      }
      Record(old(View()), Return(id, outcome, random, now));
    }

    /** The sleep is over and the next call is made. */
    method Retried(id: nat, now: int)
      requires Valid() && id in inFlight && inFlight[id].phase.Sleeping? && now >= inFlight[id].phase.until
      modifies this
      ensures Valid() && trace == old(trace) + [Wake(id, now)]
      ensures id in inFlight && inFlight[id].phase == InCall(old(inFlight[id].phase.attempt) + 1)
    {
      SetPhase(id, InCall(inFlight[id].phase.attempt + 1));
      Record(old(View()), Wake(id, now));
    }

    /** The breaker's accounting, after the awaited retry. */
    method SettleOutcome(id: nat, now: int)
      requires Valid() && id in inFlight && inFlight[id].phase.Settling?
      modifies this, circuit
      ensures Valid() && trace == old(trace) + [Settle(id, now)]
    {
      var result := inFlight[id].phase.result;
      if result.Some? && result.value.Returned? {
        circuit.OnSuccess();
        if settings.cacheEnabled {
          SetPhase(id, Storing(result.value.value));
        } else {
          inFlight := inFlight - {id};
        }
      } else {
        circuit.OnFailure(now);
        inFlight := inFlight - {id};
      }
      Record(old(View()), Settle(id, now));
    }

    method StoreResult(id: nat, now: int)
      requires Valid() && id in inFlight && inFlight[id].phase.Storing?
      modifies this, cacheService
      ensures Valid() && trace == old(trace) + [Store(id, now)]
    {
      var p := inFlight[id];
      cacheService.Set(p.key, p.phase.value, p.ttl, now);
      inFlight := inFlight - {id};
      Record(old(View()), Store(id, now));
    }

    /** The sweep timer fires between two pieces of requests. */
    method SweepTimer(now: int)
      requires Valid()
      modifies this, cacheService
      ensures Valid() && trace == old(trace) + [Others(MC.Sweep(now))]
    {
      var _ := cacheService.CleanExpiredEntries(now);
      assert cacheService.cache == MC.Apply(old(cacheService.cache), MC.Sweep(now));
      Record(old(View()), Others(MC.Sweep(now)));
    }
  }

  // ---- The breaker and the cache inside the stack ----

  predicate Settles<V>(y: Stack<V>, e: Event<V>) {
    e.Settle? && e.id in y.inFlight && y.inFlight[e.id].phase.Settling?
  }

  function BreakerStep<V>(y: Stack<V>, e: Event<V>): seq<BT.Event> {
    match e
    case Ask(id, now) => if id in y.inFlight && y.inFlight[id].phase.Missed? then [BT.Begin(now)] else []
    case Settle(id, now) =>
      if !Settles(y, e) then []
      else
        var result := y.inFlight[id].phase.result;
        if result.Some? && result.value.Returned? then [BT.Success(now)] else [BT.Failure(now)]
    case _ => []
  }

  function CacheStep<V>(st: Settings<V>, y: Stack<V>, e: Event<V>): seq<MC.Op<V>> {
    match e
    case Read(key, _, now) => if st.cacheEnabled then [MC.Get(key, now)] else []
    case Store(id, now) =>
      if id in y.inFlight && y.inFlight[id].phase.Storing?
      then [MC.Set(y.inFlight[id].key, y.inFlight[id].phase.value, y.inFlight[id].ttl, now)]
      else []
    case Others(op) => [op]
    case _ => []
  }

  /** What the circuit sees of a trace. */
  function BreakerView<V>(st: Settings<V>, es: seq<Event<V>>): seq<BT.Event> {
    if es == [] then []
    else BreakerView(st, es[..|es| - 1]) + BreakerStep(After(st, es[..|es| - 1]), es[|es| - 1])
  }

  function CacheView<V>(st: Settings<V>, es: seq<Event<V>>): seq<MC.Op<V>> {
    if es == [] then []
    else CacheView(st, es[..|es| - 1]) + CacheStep(st, After(st, es[..|es| - 1]), es[|es| - 1])
  }

  lemma BreakerOneMore(cfg: CB.Config, bs: seq<BT.Event>, b: BT.Event)
    ensures BT.After(cfg, bs + [b]) == BT.Next(BT.After(cfg, bs), cfg, b)
  {
  }

  lemma CacheOneMore<V>(ops: seq<MC.Op<V>>, op: MC.Op<V>)
    ensures MC.After(ops + [op]) == MC.Apply(MC.After(ops), op)
  {
  }

  lemma CircuitStep<V>(st: Settings<V>, y: Stack<V>, e: Event<V>)
    ensures var step := BreakerStep(y, e);
      && |step| <= 1
      && Next(st, y, e).circuit == if step == [] then y.circuit else BT.Next(y.circuit, st.breaker, step[0])
  {
  }

  lemma TableStep<V>(st: Settings<V>, y: Stack<V>, e: Event<V>)
    ensures var step := CacheStep(st, y, e);
      && |step| <= 1
      && Next(st, y, e).cache == if step == [] then y.cache else MC.Apply(y.cache, step[0])
  {
  }

  lemma OneOrNone<T>(s: seq<T>, step: seq<T>)
    requires |step| <= 1
    ensures s + step == if step == [] then s else s + [step[0]]
  {
  }

  /** The circuit of the stack is a circuit after a trace of its own, so all that is proved of
      circuits holds inside the stack. */
  lemma {:induction false} CircuitProjects<V>(st: Settings<V>, es: seq<Event<V>>)
    ensures After(st, es).circuit == BT.After(st.breaker, BreakerView(st, es))
  {
    if es != [] {
      var front, e := es[..|es| - 1], es[|es| - 1];
      var y, bs := After(st, front), BreakerView(st, front);
      var step := BreakerStep(y, e);
      CircuitProjects(st, front);
      CircuitStep(st, y, e);
      OneOrNone(bs, step);
      if step != [] {
        BreakerOneMore(st.breaker, bs, step[0]);
      }
    }
  }

  /** And the cache is a cache after a run of its own operations. */
  lemma {:induction false} CacheProjects<V>(st: Settings<V>, es: seq<Event<V>>)
    ensures After(st, es).cache == MC.After(CacheView(st, es))
  {
    if es != [] {
      var front, e := es[..|es| - 1], es[|es| - 1];
      var y, ops := After(st, front), CacheView(st, front);
      var step := CacheStep(st, y, e);
      CacheProjects(st, front);
      TableStep(st, y, e);
      OneOrNone(ops, step);
      if step != [] {
        CacheOneMore(ops, step[0]);
      }
    }
  }

  // ---- The breaker's ledger ----

  /** The outcomes in a breaker trace. */
  function Outcomes(bs: seq<BT.Event>): nat {
    if bs == [] then 0 else Outcomes(bs[..|bs| - 1]) + (if bs[|bs| - 1].Begin? then 0 else 1)
  }

  lemma OutcomesOneMore(bs: seq<BT.Event>, b: BT.Event)
    ensures Outcomes(bs + [b]) == Outcomes(bs) + (if b.Begin? then 0 else 1)
  {
  }

  /** Event e lets request id through to the maps service. */
  predicate LetsThrough<V>(st: Settings<V>, y: Stack<V>, e: Event<V>) {
    && e.Ask? && e.id in y.inFlight && y.inFlight[e.id].phase.Missed?
    && CB.Refreshed(y.circuit, st.breaker, e.at).state != CB.Open
  }

  function LetThrough<V>(st: Settings<V>, es: seq<Event<V>>): nat {
    if es == [] then 0
    else LetThrough(st, es[..|es| - 1]) + (if LetsThrough(st, After(st, es[..|es| - 1]), es[|es| - 1]) then 1 else 0)
  }

  /** The breaker still waits for the outcome of a request in this phase. */
  predicate Awaited<V>(phase: Phase<V>) {
    phase.InCall? || phase.Sleeping? || phase.Settling?
  }

  function AwaitedIds<V>(y: Stack<V>): set<nat> {
    set id | id in y.inFlight && Awaited(y.inFlight[id].phase)
  }

  predicate IdsIssued<V>(y: Stack<V>) {
    forall id :: id in y.inFlight ==> id < y.nextId
  }

  lemma {:induction false} OnlyIssued<V>(st: Settings<V>, es: seq<Event<V>>)
    ensures IdsIssued(After(st, es))
  {
    if es != [] {
      OnlyIssued(st, es[..|es| - 1]);
    }
  }

  lemma AwaitedStep<V>(st: Settings<V>, y: Stack<V>, e: Event<V>)
    requires IdsIssued(y)
    ensures AwaitedIds(Next(st, y, e))
         == if LetsThrough(st, y, e) then AwaitedIds(y) + {e.id}
            else if Settles(y, e) then AwaitedIds(y) - {e.id}
            else AwaitedIds(y)
  {
  }

  lemma LedgerStep<V>(st: Settings<V>, y: Stack<V>, e: Event<V>)
    requires IdsIssued(y)
    ensures var step := BreakerStep(y, e);
      |AwaitedIds(Next(st, y, e))| + (if step == [] || step[0].Begin? then 0 else 1)
      == |AwaitedIds(y)| + (if LetsThrough(st, y, e) then 1 else 0)
  {
    AwaitedStep(st, y, e);
    if LetsThrough(st, y, e) {
      assert e.id !in AwaitedIds(y);
    } else if Settles(y, e) {
      assert e.id in AwaitedIds(y);
    }
  }

  /** In all, the breaker has been told as many outcomes as requests were let through, less
      those it still waits for. */
  lemma {:induction false} LedgerBalances<V>(st: Settings<V>, es: seq<Event<V>>)
    ensures LetThrough(st, es) == Outcomes(BreakerView(st, es)) + |AwaitedIds(After(st, es))|
  {
    if es != [] {
      var front, e := es[..|es| - 1], es[|es| - 1];
      var y, bs := After(st, front), BreakerView(st, front);
      var step := BreakerStep(y, e);
      LedgerBalances(st, front);
      OnlyIssued(st, front);
      LedgerStep(st, y, e);
      CircuitStep(st, y, e);
      OneOrNone(bs, step);
      if step != [] {
        OutcomesOneMore(bs, step[0]);
      }
    } else {
      assert AwaitedIds(After(st, es)) == {};
    }
  }

  // ---- The calls of one request ----

  /** A call of request id comes back. */
  predicate Returns<V>(y: Stack<V>, e: Event<V>, id: nat) {
    e.Return? && e.id == id && id in y.inFlight && y.inFlight[id].phase.InCall?
  }

  /** What the calls of a request have come back with so far. */
  function OutcomesOf<V>(st: Settings<V>, es: seq<Event<V>>, id: nat): seq<Attempt<V>> {
    if es == [] then []
    else
      var front, e := es[..|es| - 1], es[|es| - 1];
      OutcomesOf(st, front, id) + if Returns(After(st, front), e, id) then [e.outcome] else []
  }

  /** A call to the maps service is made for request id. */
  predicate CallsUpstream<V>(st: Settings<V>, y: Stack<V>, e: Event<V>, id: nat) {
    || (LetsThrough(st, y, e) && e.id == id && st.retry.maxAttempts >= 1)
    || (e.Wake? && e.id == id && CanWake(y, id, e.at))
  }

  function CallsMade<V>(st: Settings<V>, es: seq<Event<V>>, id: nat): nat {
    if es == [] then 0
    else
      var front, e := es[..|es| - 1], es[|es| - 1];
      CallsMade(st, front, id) + if CallsUpstream(st, After(st, front), e, id) then 1 else 0
  }

  predicate WasLetThrough<V>(st: Settings<V>, es: seq<Event<V>>, id: nat) {
    es != [] && (WasLetThrough(st, es[..|es| - 1], id)
                 || (LetsThrough(st, After(st, es[..|es| - 1]), es[|es| - 1]) && es[|es| - 1].id == id))
  }

  /** The account of a request: what its calls came back with, how many were made, and
      whether the breaker let it through, against where it is suspended. */
  ghost predicate Account<V>(cfg: RetryConfig, phase: Option<Phase<V>>, outcomes: seq<Attempt<V>>, made: nat,
                             through: bool) {
    match phase
    case None => if through then RetryRun(outcomes, cfg, None) && made == |outcomes| else outcomes == [] && made == 0
    case Some(Missed) => !through && outcomes == [] && made == 0
    case Some(InCall(attempt)) =>
      through && NoneStops(outcomes, cfg, None) && attempt == made == |outcomes| + 1 <= cfg.maxAttempts
    case Some(Sleeping(attempt, _)) =>
      through && NoneStops(outcomes, cfg, None) && attempt == made == |outcomes| && 1 <= |outcomes| < cfg.maxAttempts
    case Some(Settling(result)) =>
      && through && RetryRun(outcomes, cfg, None) && made == |outcomes|
      && result == if outcomes == [] then None else Some(outcomes[|outcomes| - 1])
    case Some(Storing(value)) =>
      && through && RetryRun(outcomes, cfg, None) && made == |outcomes|
      && outcomes != [] && outcomes[|outcomes| - 1] == Returned(value)
  }

  lemma ReturnAccount<V>(st: Settings<V>, y: Stack<V>, e: Event<V>, id: nat, outcomes: seq<Attempt<V>>, made: nat,
                         through: bool)
    requires Returns(y, e, id)
    requires Account(st.retry, PhaseOf(y, id), outcomes, made, through)
    ensures Account(st.retry, PhaseOf(Next(st, y, e), id), outcomes + [e.outcome], made, through)
  {
    assert (outcomes + [e.outcome])[..|outcomes|] == outcomes;
  }

  lemma OtherAccount<V>(st: Settings<V>, y: Stack<V>, e: Event<V>, id: nat, outcomes: seq<Attempt<V>>, made: nat,
                        through: bool)
    requires IdsIssued(y) && (through ==> id < y.nextId) && !Returns(y, e, id)
    requires Account(st.retry, PhaseOf(y, id), outcomes, made, through)
    ensures Account(st.retry, PhaseOf(Next(st, y, e), id), outcomes,
                    made + (if CallsUpstream(st, y, e, id) then 1 else 0),
                    through || (LetsThrough(st, y, e) && e.id == id))
  {
  }

  lemma NextIdGrows<V>(st: Settings<V>, y: Stack<V>, e: Event<V>)
    ensures Next(st, y, e).nextId >= y.nextId
  {
  }

  /** At any moment of any interleaving: a request in a call or asleep has made fewer than
      maxAttempts calls that came back, all failed retryably; one that is over made between
      one and maxAttempts and stopped where the retry stops; one that was not let through
      made none. */
  lemma {:induction false} AccountHolds<V>(st: Settings<V>, es: seq<Event<V>>, id: nat)
    ensures Account(st.retry, PhaseOf(After(st, es), id), OutcomesOf(st, es, id), CallsMade(st, es, id),
                    WasLetThrough(st, es, id))
    ensures WasLetThrough(st, es, id) ==> id < After(st, es).nextId
  {
    if es != [] {
      var front, e := es[..|es| - 1], es[|es| - 1];
      var y, outcomes := After(st, front), OutcomesOf(st, front, id);
      var made, through := CallsMade(st, front, id), WasLetThrough(st, front, id);
      AccountHolds(st, front, id);
      OnlyIssued(st, front);
      NextIdGrows(st, y, e);
      if Returns(y, e, id) {
        ReturnAccount(st, y, e, id, outcomes, made, through);
      } else {
        OtherAccount(st, y, e, id, outcomes, made, through);
        assert outcomes + [] == outcomes;
      }
    }
  }

  /** So no request makes more than maxAttempts calls. */
  lemma CallsPerRequest<V>(st: Settings<V>, es: seq<Event<V>>, id: nat)
    ensures var made := CallsMade(st, es, id);
      if WasLetThrough(st, es, id) && st.retry.maxAttempts >= 1 then 1 <= made <= st.retry.maxAttempts else made == 0
  {
    AccountHolds(st, es, id);
  }

  /** Between two calls of a request lies at least the delay worked out for the first of them:
      the call that ended in its sleep came back at event i. */
  ghost predicate AsleepSince<V>(st: Settings<V>, es: seq<Event<V>>, i: nat, id: nat, attempt: Count, until: int) {
    && i < |es| && es[i].Return? && es[i].id == id
    && PhaseOf(After(st, es[..i]), id) == Some(InCall(attempt))
    && until == es[i].at + Delay(attempt, st.retry, es[i].random)
  }

  lemma {:induction false} SleepersReturned<V>(st: Settings<V>, es: seq<Event<V>>, id: nat) returns (i: nat)
    requires PhaseOf(After(st, es), id).Some? && After(st, es).inFlight[id].phase.Sleeping?
    ensures var phase := After(st, es).inFlight[id].phase; AsleepSince(st, es, i, id, phase.attempt, phase.until)
  {
    var n := |es| - 1;
    var y := After(st, es[..n]);
    if Returns(y, es[n], id) {
      i := n;
    } else {
      SleepWasThere(st, y, es[n], id);
      i := SleepersReturned(st, es[..n], id);
      assert es[..n][..i] == es[..i];
    }
  }

  lemma SleepWasThere<V>(st: Settings<V>, y: Stack<V>, e: Event<V>, id: nat)
    requires id in Next(st, y, e).inFlight && Next(st, y, e).inFlight[id].phase.Sleeping? && !Returns(y, e, id)
    ensures id in y.inFlight && y.inFlight[id].phase == Next(st, y, e).inFlight[id].phase
  {
  }

  /** A call that is not a request's first follows an earlier one that came back at least its
      delay before. */
  lemma NextCallWaits<V>(st: Settings<V>, es: seq<Event<V>>, e: Event<V>, id: nat) returns (i: nat, attempt: Count)
    requires CallsUpstream(st, After(st, es), e, id) && !e.Ask?
    ensures i < |es| && es[i].Return? && es[i].id == id && PhaseOf(After(st, es[..i]), id) == Some(InCall(attempt))
    ensures PhaseOf(Next(st, After(st, es), e), id) == Some(InCall(attempt + 1))
    ensures Time(e) >= es[i].at + Delay(attempt, st.retry, es[i].random)
  {
    attempt := After(st, es).inFlight[id].phase.attempt;
    i := SleepersReturned(st, es, id);
  }

  // ---- The one outcome of each request ----

  /** What the breaker was told about request id. */
  function Given<V>(st: Settings<V>, es: seq<Event<V>>, id: nat): seq<BT.Event> {
    if es == [] then []
    else
      var front, e := es[..|es| - 1], es[|es| - 1];
      Given(st, front, id) + if e.Settle? && e.id == id then BreakerStep(After(st, front), e) else []
  }

  /** A request that is over, or only has its result to store, has given the breaker one
      outcome, a success exactly when its last call returned; any other has given none. */
  ghost predicate GivenOnce<V>(phase: Option<Phase<V>>, outcomes: seq<Attempt<V>>, through: bool,
                               given: seq<BT.Event>) {
    if through && (phase.None? || phase.value.Storing?) then
      && |given| == 1 && !given[0].Begin?
      && (given[0].Success? <==> outcomes != [] && outcomes[|outcomes| - 1].Returned?)
    else given == []
  }

  lemma GivenStep<V>(st: Settings<V>, y: Stack<V>, e: Event<V>, id: nat, outcomes: seq<Attempt<V>>, made: nat,
                     through: bool, given: seq<BT.Event>)
    requires IdsIssued(y) && (through ==> id < y.nextId)
    requires Account(st.retry, PhaseOf(y, id), outcomes, made, through)
    requires GivenOnce(PhaseOf(y, id), outcomes, through, given)
    ensures GivenOnce(PhaseOf(Next(st, y, e), id), outcomes + (if Returns(y, e, id) then [e.outcome] else []),
                      through || (LetsThrough(st, y, e) && e.id == id),
                      given + if e.Settle? && e.id == id then BreakerStep(y, e) else [])
  {
    assert given + [] == given && outcomes + [] == outcomes;
    assert forall step: seq<BT.Event> :: [] + step == step;
  }

  lemma {:induction false} OneOutcomePerRequest<V>(st: Settings<V>, es: seq<Event<V>>, id: nat)
    ensures GivenOnce(PhaseOf(After(st, es), id), OutcomesOf(st, es, id), WasLetThrough(st, es, id), Given(st, es, id))
  {
    if es != [] {
      var front, e := es[..|es| - 1], es[|es| - 1];
      OneOutcomePerRequest(st, front, id);
      AccountHolds(st, front, id);
      OnlyIssued(st, front);
      GivenStep(st, After(st, front), e, id, OutcomesOf(st, front, id), CallsMade(st, front, id),
                WasLetThrough(st, front, id), Given(st, front, id));
    }
  }

  /** A read served from the cache does not touch the breaker; one that meets an open circuit
      ends there; neither leaves a request behind. */
  lemma NothingLeftWhenServedOrOpen<V>(st: Settings<V>, y: Stack<V>, key: string, ttl: Option<int>, id: nat, now: int)
    requires IdsIssued(y)
    ensures var z := AfterRead(st, y, key, ttl, now);
      && z.circuit == y.circuit
      && (Served(st, y, key, now).Some? <==> z.inFlight == y.inFlight)
    ensures id in y.inFlight && y.inFlight[id].phase.Missed? ==>
      (LetsThrough(st, y, Ask(id, now)) <==> id in AfterAsk(st, y, id, now).inFlight)
  {
    assert y.nextId !in y.inFlight;
  }

  // ---- Where a served value comes from ----

  /** Event i put this value under this key, to be kept until expiresAt: the result of a
      request for the key, or a value another user of the cache set. */
  ghost predicate ProducedAt<V>(st: Settings<V>, es: seq<Event<V>>, i: nat, key: string, value: V, expiresAt: int) {
    && i < |es|
    && match es[i]
       case Store(id, now) =>
         var y, outcomes := After(st, es[..i]), OutcomesOf(st, es[..i], id);
         && id in y.inFlight && y.inFlight[id].key == key && expiresAt == now + 1000 * y.inFlight[id].ttl
         && outcomes != [] && outcomes[|outcomes| - 1] == Returned(value)
       case Others(op) => op.Set? && op.key == key && op.value == value && expiresAt == op.now + 1000 * op.ttl
       case _ => false
  }

  /** Event e writes the entry of this key. */
  predicate Writes<V>(y: Stack<V>, e: Event<V>, key: string) {
    || (e.Store? && e.id in y.inFlight && y.inFlight[e.id].phase.Storing? && y.inFlight[e.id].key == key)
    || (e.Others? && e.op.Set? && e.op.key == key)
  }

  lemma EntryWasThere<V>(st: Settings<V>, y: Stack<V>, e: Event<V>, key: string)
    requires key in Next(st, y, e).cache && !Writes(y, e, key)
    ensures key in y.cache && Next(st, y, e).cache[key] == y.cache[key]
  {
    TableStep(st, y, e);
  }

  lemma WriterProduces<V>(st: Settings<V>, es: seq<Event<V>>, key: string)
    requires es != [] && Writes(After(st, es[..|es| - 1]), es[|es| - 1], key)
    ensures var t := After(st, es).cache;
      key in t && ProducedAt(st, es, |es| - 1, key, t[key].value, t[key].expiresAt)
  {
    var n := |es| - 1;
    if es[n].Store? {
      AccountHolds(st, es[..n], es[n].id);
    }
  }

  lemma ProducedEarlier<V>(st: Settings<V>, es: seq<Event<V>>, n: nat, i: nat, key: string, value: V, expiresAt: int)
    requires n <= |es| && ProducedAt(st, es[..n], i, key, value, expiresAt)
    ensures ProducedAt(st, es, i, key, value, expiresAt)
  {
    assert es[..n][..i] == es[..i];
  }

  lemma {:induction false} EntriesWereProduced<V>(st: Settings<V>, es: seq<Event<V>>, key: string) returns (i: nat)
    requires key in After(st, es).cache
    ensures ProducedAt(st, es, i, key, After(st, es).cache[key].value, After(st, es).cache[key].expiresAt)
  {
    var n := |es| - 1;
    var y := After(st, es[..n]);
    if Writes(y, es[n], key) {
      i := n;
      WriterProduces(st, es, key);
    } else {
      EntryWasThere(st, y, es[n], key);
      i := EntriesWereProduced(st, es[..n], key);
      ProducedEarlier(st, es, n, i, key, y.cache[key].value, y.cache[key].expiresAt);
    }
  }

  /** A value served from the cache came back from a call made for the same key, or was set
      under it by another user, at most its time to live ago. */
  lemma ServedIsFresh<V>(st: Settings<V>, es: seq<Event<V>>, key: string, now: int) returns (i: nat, expiresAt: int)
    requires Served(st, After(st, es), key, now).Some?
    ensures ProducedAt(st, es, i, key, Served(st, After(st, es), key, now).value, expiresAt)
    ensures now <= expiresAt
  {
    expiresAt := After(st, es).cache[key].expiresAt;
    i := EntriesWereProduced(st, es, key);
  }

  // ---- What a read serves ----

  /** A read is served exactly when the cache is on and its timed map holds a value that counts
      as a hit, and then that value. */
  lemma ServedIff<V>(st: Settings<V>, es: seq<Event<V>>, key: string, now: int, value: V)
    requires MC.Monotone(CacheView(st, es), now)
    ensures Served(st, After(st, es), key, now) == Some(value)
            <==> st.cacheEnabled && st.truthy(value) && MC.Holds(CacheView(st, es), key, now, value)
  {
    CacheProjects(st, es);
    MC.GetRefinesTimedMap(CacheView(st, es), key, now, value);
  }

  /** A request keeps the key it was read with and the time to live given, or the default when
      none or zero was given. */
  lemma {:induction false} KeptSinceRead<V>(st: Settings<V>, es: seq<Event<V>>, id: nat) returns (i: nat)
    requires id in After(st, es).inFlight
    ensures i < |es| && es[i].Read? && After(st, es[..i]).nextId == id
    ensures var p := After(st, es).inFlight[id];
      && p.key == es[i].key
      && (es[i].ttl.Some? && es[i].ttl.value != 0 ==> p.ttl == es[i].ttl.value)
      && (es[i].ttl == None || es[i].ttl == Some(0) ==> p.ttl == st.cacheTtl)
  {
    var n := |es| - 1;
    var y := After(st, es[..n]);
    if es[n].Read? && id == y.nextId {
      i := n;
      OnlyIssued(st, es[..n]);
    } else {
      PendingWasThere(st, y, es[n], id);
      i := KeptSinceRead(st, es[..n], id);
      assert es[..n][..i] == es[..i];
    }
  }

  lemma PendingWasThere<V>(st: Settings<V>, y: Stack<V>, e: Event<V>, id: nat)
    requires id in Next(st, y, e).inFlight && !(e.Read? && id == y.nextId)
    ensures id in y.inFlight
    ensures Next(st, y, e).inFlight[id].key == y.inFlight[id].key
    ensures Next(st, y, e).inFlight[id].ttl == y.inFlight[id].ttl
  {
  }

  /** A request whose last call returned goes on to store the value exactly when the cache is
      on; one that failed, or was not stored, is over. */
  lemma SettledGoesOn<V>(st: Settings<V>, y: Stack<V>, id: nat, now: int)
    requires id in y.inFlight && y.inFlight[id].phase.Settling?
    ensures var result := y.inFlight[id].phase.result;
      PhaseOf(AfterSettle(st, y, id, now), id)
      == if st.cacheEnabled && result.Some? && result.value.Returned? then Some(Storing(result.value.value)) else None
  {
  }

  /** And once stored, the value is what a read of the key is served for its time to live. */
  lemma StoredIsServed<V>(st: Settings<V>, y: Stack<V>, id: nat, at: int, now: int)
    requires st.cacheEnabled && id in y.inFlight && y.inFlight[id].phase.Storing?
    requires st.truthy(y.inFlight[id].phase.value) && now <= at + 1000 * y.inFlight[id].ttl
    ensures Served(st, AfterStore(y, id, at), y.inFlight[id].key, now) == Some(y.inFlight[id].phase.value)
    ensures id !in AfterStore(y, id, at).inFlight
  {
  }

  // ---- The quiet window inside the stack ----

  predicate Monotone<V>(es: seq<Event<V>>) {
    forall i, j :: 0 <= i < j < |es| ==> Time(es[i]) <= Time(es[j])
  }

  lemma {:induction false} BreakerViewMonotone<V>(st: Settings<V>, es: seq<Event<V>>)
    requires Monotone(es)
    ensures BT.Monotone(BreakerView(st, es))
    ensures forall b :: b in BreakerView(st, es) ==> es != [] && b.now <= Time(es[|es| - 1])
  {
    if es != [] {
      BreakerViewMonotone(st, es[..|es| - 1]);
    }
  }

  lemma {:induction false} BreakerViewGrows<V>(st: Settings<V>, es: seq<Event<V>>, k: nat)
    requires k <= |es|
    ensures BreakerView(st, es[..k]) <= BreakerView(st, es)
    decreases |es| - k
  {
    if k == |es| {
      assert es[..k] == es;
    } else {
      BreakerViewGrows(st, es, k + 1);
      assert es[..k + 1][..k] == es[..k];
    }
  }

  /** Event i is a request's outcome and opens the circuit, or opens it again. */
  predicate TripsAt<V>(st: Settings<V>, es: seq<Event<V>>, i: nat)
    requires i < |es|
  {
    var y := After(st, es[..i]);
    BreakerStep(y, es[i]) == [BT.Failure(Time(es[i]))] && CB.Trips(y.circuit, st.breaker)
  }

  lemma ViewOneMore<V>(st: Settings<V>, es: seq<Event<V>>, k: nat)
    requires k < |es|
    ensures BreakerView(st, es[..k + 1]) == BreakerView(st, es[..k]) + BreakerStep(After(st, es[..k]), es[k])
    ensures After(st, es[..k + 1]) == Next(st, After(st, es[..k]), es[k])
  {
    var front := es[..k + 1];
    assert front[..k] == es[..k] && front[k] == es[k];
  }

  /** Where the breaker's view of event k stands in its view of the whole trace. */
  lemma ViewAt<V>(st: Settings<V>, es: seq<Event<V>>, k: nat, b: BT.Event)
    requires k < |es| && BreakerStep(After(st, es[..k]), es[k]) == [b]
    ensures var bs, n := BreakerView(st, es), |BreakerView(st, es[..k])|;
      && n < |bs| && bs[n] == b && bs[..n] == BreakerView(st, es[..k])
      && bs[..n + 1] == BreakerView(st, es[..k + 1])
  {
    BreakerViewGrows(st, es, k + 1);
    ViewOneMore(st, es, k);
  }

  lemma TripInView<V>(st: Settings<V>, es: seq<Event<V>>, i: nat)
    requires i < |es| && TripsAt(st, es, i)
    ensures var bs, b := BreakerView(st, es), |BreakerView(st, es[..i])|;
      b < |bs| && BT.TripsAt(st.breaker, bs, b) && bs[b].now == Time(es[i]) && b < |BreakerView(st, es[..i + 1])|
  {
    ViewAt(st, es, i, BT.Failure(Time(es[i])));
    CircuitProjects(st, es[..i]);
  }

  lemma StartInView<V>(st: Settings<V>, es: seq<Event<V>>, j: nat)
    requires j < |es| && LetsThrough(st, After(st, es[..j]), es[j])
    ensures var bs, b := BreakerView(st, es), |BreakerView(st, es[..j])|;
      b < |bs| && BT.StartsAt(st.breaker, bs, b) && bs[b].now == Time(es[j])
  {
    ViewOneMore(st, es, j);
    ViewAt(st, es, j, BT.Begin(Time(es[j])));
    CircuitProjects(st, es[..j + 1]);
  }

  /** The stack lets no request through within resetTimeout of one that tripped the circuit. */
  lemma StackQuietWindow<V>(st: Settings<V>, es: seq<Event<V>>, i: nat, j: nat)
    requires i < j < |es| && Monotone(es) && TripsAt(st, es, i) && LetsThrough(st, After(st, es[..j]), es[j])
    ensures Time(es[j]) >= Time(es[i]) + st.breaker.resetTimeout
  {
    TripInView(st, es, i);
    StartInView(st, es, j);
    BreakerViewGrows(st, es[..j], i + 1);
    assert es[..j][..i + 1] == es[..i + 1];
    BreakerViewMonotone(st, es);
    BT.QuietWindow(st.breaker, BreakerView(st, es), |BreakerView(st, es[..i])|, |BreakerView(st, es[..j])|);
  }

  lemma {:induction false} NobodyNewInWindow<V>(st: Settings<V>, es: seq<Event<V>>, i: nat, id: nat)
    requires i < |es| && Monotone(es) && TripsAt(st, es, i)
    requires Time(es[|es| - 1]) < Time(es[i]) + st.breaker.resetTimeout
    ensures WasLetThrough(st, es, id) == WasLetThrough(st, es[..i + 1], id)
  {
    var n := |es| - 1;
    if i == n {
      assert es[..i + 1] == es;
    } else {
      assert es[..n][..i] == es[..i] && es[..n][..i + 1] == es[..i + 1];
      NobodyNewInWindow(st, es[..n], i, id);
      if LetsThrough(st, After(st, es[..n]), es[n]) {
        StackQuietWindow(st, es, i, n);
      }
    }
  }

  /** While the circuit is shut the maps service is still called, but only for requests let
      through before the trip, and for each of them at most maxAttempts - 1 times more. */
  lemma CallsInQuietWindow<V>(st: Settings<V>, es: seq<Event<V>>, i: nat, id: nat)
    requires i < |es| && Monotone(es) && TripsAt(st, es, i)
    requires Time(es[|es| - 1]) < Time(es[i]) + st.breaker.resetTimeout
    ensures var more := CallsMade(st, es, id) - CallsMade(st, es[..i + 1], id);
      if WasLetThrough(st, es[..i + 1], id) && st.retry.maxAttempts >= 1
      then more <= st.retry.maxAttempts - 1 else more == 0
  {
    NobodyNewInWindow(st, es, i, id);
    CallsPerRequest(st, es, id);
    CallsPerRequest(st, es[..i + 1], id);
  }
}
