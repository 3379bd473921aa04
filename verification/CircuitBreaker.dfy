/** The circuit breaker. An execution suspends while its operation is awaited, so it is cut
    into a beginning and an end, and any number of others may begin or end in between. */
module CircuitBreaker {
  import Wrappers

  datatype CircuitState = Closed | Open | HalfOpen

  datatype Config = Config(failureThreshold: int, resetTimeout: int, monitoringPeriod: int, successThreshold: int)

  /** What a caller may override. */
  datatype Overrides = Overrides(
    failureThreshold: Wrappers.Option<int>,
    resetTimeout: Wrappers.Option<int>,
    monitoringPeriod: Wrappers.Option<int>,
    successThreshold: Wrappers.Option<int>)

  function Pick(o: Wrappers.Option<int>, default: int): int {
    if o.Some? then o.value else default
  }

  function Merged(cfg: Config, o: Overrides): Config {
    Config(Pick(o.failureThreshold, cfg.failureThreshold), Pick(o.resetTimeout, cfg.resetTimeout),
           Pick(o.monitoringPeriod, cfg.monitoringPeriod), Pick(o.successThreshold, cfg.successThreshold))
  }

  /** A field the caller gives replaces the default, each its own and no other. */
  lemma OverridesWin(cfg: Config, o: Overrides)
    ensures var merged := Merged(cfg, o);
      && (forall n :: o.failureThreshold == Wrappers.Some(n) ==> merged.failureThreshold == n)
      && (forall n :: o.resetTimeout == Wrappers.Some(n) ==> merged.resetTimeout == n)
      && (forall n :: o.monitoringPeriod == Wrappers.Some(n) ==> merged.monitoringPeriod == n)
      && (forall n :: o.successThreshold == Wrappers.Some(n) ==> merged.successThreshold == n)
      && (o.failureThreshold.None? ==> merged.failureThreshold == cfg.failureThreshold)
      && (o.resetTimeout.None? ==> merged.resetTimeout == cfg.resetTimeout)
      && (o.monitoringPeriod.None? ==> merged.monitoringPeriod == cfg.monitoringPeriod)
      && (o.successThreshold.None? ==> merged.successThreshold == cfg.successThreshold)
  {
  }

  datatype Circuit = Circuit(
    state: CircuitState,
    failures: int,
    successes: int,
    lastFailureTime: int,
    nextAttemptTime: int)

  const NEW_CIRCUIT := Circuit(Closed, 0, 0, 0, 0)

  // ---- The effect of each step ----

  predicate Expired(c: Circuit, cfg: Config, now: int) {
    && !(c.state == Open && now >= c.nextAttemptTime)
    && c.lastFailureTime > 0 && now - c.lastFailureTime > cfg.monitoringPeriod
  }

  function Refreshed(c: Circuit, cfg: Config, now: int): Circuit {
    if c.state == Open && now >= c.nextAttemptTime then c.(state := HalfOpen, successes := 0)
    else if Expired(c, cfg, now) then c.(failures := 0)
    else c
  }

  predicate Closes(c: Circuit, cfg: Config) {
    c.state == HalfOpen && c.successes + 1 >= cfg.successThreshold
  }

  function Succeeded(c: Circuit, cfg: Config): Circuit {
    if Closes(c, cfg) then c.(state := Closed, failures := 0, successes := 0)
    else if c.state == HalfOpen then c.(successes := c.successes + 1)
    else c.(failures := if c.failures > 0 then c.failures - 1 else 0)
  }

  predicate Trips(c: Circuit, cfg: Config) {
    c.state == HalfOpen || c.failures + 1 >= cfg.failureThreshold
  }

  function Failed(c: Circuit, cfg: Config, now: int): Circuit {
    var d := c.(failures := c.failures + 1, lastFailureTime := now);
    if Trips(c, cfg) then d.(state := Open, nextAttemptTime := now + cfg.resetTimeout) else d
  }

  // ---- The objects ----

  class CircuitInfo {
    var state: CircuitState
    var failures: int
    var successes: int
    var lastFailureTime: int
    var nextAttemptTime: int
    const config: Config

    constructor (config: Config)
      ensures View() == NEW_CIRCUIT && this.config == config
    {
      state, failures, successes, lastFailureTime, nextAttemptTime := Closed, 0, 0, 0, 0;
      this.config := config;
    }

    ghost function View(): Circuit
      reads this
    {
      Circuit(state, failures, successes, lastFailureTime, nextAttemptTime)
    }

    method UpdateCircuitState(now: int)
      modifies this
      ensures View() == Refreshed(old(View()), config, now)
    {
      if state == Open && now >= nextAttemptTime {
        state := HalfOpen;
        successes := 0;
      } else if lastFailureTime > 0 && now - lastFailureTime > config.monitoringPeriod {
        failures := 0;
      }
    }

    method OnSuccess()
      modifies this
      ensures View() == Succeeded(old(View()), config)
    {
      if state == HalfOpen {
        successes := successes + 1;
        if successes >= config.successThreshold {
          ResetCircuit();
        }
      } else {
        failures := if failures - 1 > 0 then failures - 1 else 0;
      }
    }

    method OnFailure(now: int)
      modifies this
      ensures View() == Failed(old(View()), config, now)
    {
      failures := failures + 1;
      lastFailureTime := now;
      if state == HalfOpen || failures >= config.failureThreshold {
        TripCircuit(now);
      }
    }

    method TripCircuit(now: int)
      modifies this`state, this`nextAttemptTime
      ensures state == Open && nextAttemptTime == now + config.resetTimeout
    {
      state := Open;
      nextAttemptTime := now + config.resetTimeout;
    }

    method ResetCircuit()
      modifies this`state, this`failures, this`successes
      ensures state == Closed && failures == 0 && successes == 0
    {
      state := Closed;
      failures := 0;
      successes := 0;
    }
  }

  class CircuitBreakerService {
    var circuits: map<string, CircuitInfo>
    const defaultConfig: Config

    constructor (defaultConfig: Config)
      ensures circuits == map[] && this.defaultConfig == defaultConfig
    {
      circuits := map[];
      this.defaultConfig := defaultConfig;
    }

    /** No two names share a circuit. */
    ghost predicate Valid()
      reads this
    {
      forall m, n :: m in circuits && n in circuits && m != n ==> circuits[m] != circuits[n]
    }

    /** The first caller's configuration is the one a circuit keeps. */
    method GetCircuit(name: string, config: Overrides) returns (circuit: CircuitInfo)
      requires Valid()
      modifies this
      ensures Valid() && name in circuits && circuits[name] == circuit
      ensures name in old(circuits) ==> circuits == old(circuits)
      ensures name !in old(circuits) ==>
        && circuits == old(circuits)[name := circuit] && fresh(circuit) && circuit.View() == NEW_CIRCUIT
        && circuit.config == Merged(defaultConfig, config)
    {
      if name !in circuits {
        var circuitConfig := Merged(defaultConfig, config);
        var created := new CircuitInfo(circuitConfig);
        circuits := circuits[name := created];
      }
      circuit := circuits[name];
    }

    /** Up to the awaited operation: started tells whether the operation is called at all. */
    method Begin(name: string, config: Overrides, now: int) returns (circuit: CircuitInfo, started: bool)
      requires Valid()
      modifies this, circuits.Values
      ensures Valid() && name in circuits && circuits[name] == circuit
      ensures name in old(circuits) ==>
        circuits == old(circuits) && circuit.View() == Refreshed(old(circuits[name].View()), circuit.config, now)
      ensures name !in old(circuits) ==>
        circuits == old(circuits)[name := circuit] && fresh(circuit)
          && circuit.View() == Refreshed(NEW_CIRCUIT, circuit.config, now)
      ensures started == (circuit.View().state != Open)
      ensures forall n :: n in old(circuits) && n != name ==>
        n in circuits && circuits[n] == old(circuits[n]) && circuits[n].View() == old(circuits[n].View())
    {
      circuit := GetCircuit(name, config);
      circuit.UpdateCircuitState(now);
      started := circuit.state != Open;
    }

    /** After the awaited operation, on the circuit held since the beginning. */
    method End(circuit: CircuitInfo, succeeded: bool, now: int)
      requires Valid()
      modifies circuit
      ensures Valid()
      ensures circuit.View() == if succeeded then Succeeded(old(circuit.View()), circuit.config)
                                else Failed(old(circuit.View()), circuit.config, now)
    {
      if succeeded {
        circuit.OnSuccess();
      } else {
        circuit.OnFailure(now);
      }
    }
  }
}
