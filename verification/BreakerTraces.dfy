/** Properties of every trace of one circuit. A trace is any list of beginnings and ends:
    nothing ties an end to a particular beginning, so every interleaving of calls in flight
    is one of these traces. */
module BreakerTraces {
  import Wrappers
  import opened CircuitBreaker

  datatype Event =
    | Begin(now: int)
    | Success(now: int)
    | Failure(now: int)

  function Next(c: Circuit, cfg: Config, e: Event): Circuit {
    match e
    case Begin(now) => Refreshed(c, cfg, now)
    case Success(_) => Succeeded(c, cfg)
    case Failure(now) => Failed(c, cfg, now)
  }

  /** The circuit after a trace. */
  function After(cfg: Config, es: seq<Event>): Circuit {
    if es == [] then NEW_CIRCUIT else Next(After(cfg, es[..|es| - 1]), cfg, es[|es| - 1])
  }

  lemma AfterOneMore(cfg: Config, es: seq<Event>, k: nat)
    requires k < |es|
    ensures After(cfg, es[..k + 1]) == Next(After(cfg, es[..k]), cfg, es[k])
  {
    assert es[..k + 1][..k] == es[..k];
  }

  predicate Monotone(es: seq<Event>) {
    forall i, j :: 0 <= i < j < |es| ==> es[i].now <= es[j].now
  }

  /** Event i begins an execution whose operation is called. */
  predicate StartsAt(cfg: Config, es: seq<Event>, i: nat)
    requires i < |es|
  {
    es[i].Begin? && After(cfg, es[..i + 1]).state != Open
  }

  /** Event i is a failure that opens the circuit, or opens it again. */
  predicate TripsAt(cfg: Config, es: seq<Event>, i: nat)
    requires i < |es|
  {
    es[i].Failure? && Trips(After(cfg, es[..i]), cfg)
  }

  // ---- The quiet window ----

  predicate ShutUntil(c: Circuit, until: int) {
    c.state == Open && c.nextAttemptTime >= until
  }

  lemma StepWhileShut(c: Circuit, cfg: Config, e: Event, until: int)
    requires ShutUntil(c, until) && (e.Failure? ==> e.now + cfg.resetTimeout >= until)
    ensures ShutUntil(Next(c, cfg, e), until) || e.now >= until
  {
  }

  lemma {:induction false} OpenUntil(cfg: Config, es: seq<Event>, i: nat)
    requires i < |es| && Monotone(es) && TripsAt(cfg, es, i)
    ensures ShutUntil(After(cfg, es), es[i].now + cfg.resetTimeout) || es[|es| - 1].now >= es[i].now + cfg.resetTimeout
  {
    var n := |es| - 1;
    if i < n {
      assert es[..n][..i] == es[..i];
      OpenUntil(cfg, es[..n], i);
      if es[n - 1].now < es[i].now + cfg.resetTimeout {
        StepWhileShut(After(cfg, es[..n]), cfg, es[n], es[i].now + cfg.resetTimeout);
      }
    }
  }

  /** After a trip at time t no operation is called before t + resetTimeout, whatever earlier
      calls come back with in the meantime. */
  lemma QuietWindow(cfg: Config, es: seq<Event>, i: nat, j: nat)
    requires i < j < |es| && Monotone(es) && TripsAt(cfg, es, i) && StartsAt(cfg, es, j)
    ensures es[j].now >= es[i].now + cfg.resetTimeout
  {
    assert es[..j][..i] == es[..i];
    OpenUntil(cfg, es[..j], i);
    AfterOneMore(cfg, es, j);
  }

  /** A later trip moves the end of the window further out, never nearer. */
  lemma RetripExtends(cfg: Config, es: seq<Event>, i: nat, j: nat)
    requires i < j < |es| && Monotone(es) && TripsAt(cfg, es, i) && TripsAt(cfg, es, j)
    ensures After(cfg, es[..i + 1]).nextAttemptTime <= After(cfg, es[..j + 1]).nextAttemptTime
  {
    AfterOneMore(cfg, es, i);
    AfterOneMore(cfg, es, j);
  }

  // ---- What the failure counter counts ----

  /** Failures minus successes; true stands for a failure. */
  function Excess(w: seq<bool>): int {
    if w == [] then 0 else Excess(w[..|w| - 1]) + (if w[|w| - 1] then 1 else -1)
  }

  /** m is the largest excess of any suffix, the empty one included. */
  predicate IsMaxSuffixExcess(m: int, w: seq<bool>) {
    && (exists k :: 0 <= k <= |w| && Excess(w[k..]) == m)
    && (forall k :: 0 <= k <= |w| ==> Excess(w[k..]) <= m)
  }

  /** Some contiguous run of outcomes has at least this excess. */
  predicate HasRun(w: seq<bool>, threshold: int) {
    exists i, j :: 0 <= i <= j <= |w| && Excess(w[i..j]) >= threshold
  }

  /** When the last failure of a trace came back. */
  function LastFailure(es: seq<Event>): Wrappers.Option<int> {
    if es == [] then Wrappers.None
    else if es[|es| - 1].Failure? then Wrappers.Some(es[|es| - 1].now)
    else LastFailure(es[..|es| - 1])
  }

  /** When the circuit was last opened, or opened again. */
  function LastTrip(cfg: Config, es: seq<Event>): Wrappers.Option<int> {
    if es == [] then Wrappers.None
    else if TripsAt(cfg, es, |es| - 1) then Wrappers.Some(es[|es| - 1].now)
    else LastTrip(cfg, es[..|es| - 1])
  }

  /** The last failure is longer ago than the monitoring period; a time of zero counts as none. */
  predicate LongAgo(cfg: Config, es: seq<Event>, now: int) {
    LastFailure(es).Some? && LastFailure(es).value > 0 && now - LastFailure(es).value > cfg.monitoringPeriod
  }

  /** A beginning at this time is the first one after the quiet window. */
  predicate Reopens(cfg: Config, es: seq<Event>, now: int) {
    After(cfg, es).state == Open && LastTrip(cfg, es).Some? && now >= LastTrip(cfg, es).value + cfg.resetTimeout
  }

  /** The times a circuit keeps are those of its trace. */
  lemma {:induction false} TimesOfTrace(cfg: Config, es: seq<Event>)
    ensures var c := After(cfg, es);
      && c.lastFailureTime == (if LastFailure(es).Some? then LastFailure(es).value else 0)
      && (c.state == Open ==>
            LastTrip(cfg, es).Some? && c.nextAttemptTime == LastTrip(cfg, es).value + cfg.resetTimeout)
  {
    if es != [] {
      TimesOfTrace(cfg, es[..|es| - 1]);
    }
  }

  /** A beginning calls the operation unless the circuit is open and its quiet window not over. */
  lemma LetsThroughIff(cfg: Config, es: seq<Event>, now: int)
    ensures After(cfg, es + [Begin(now)]).state != Open <==> After(cfg, es).state != Open || Reopens(cfg, es, now)
  {
    TimesOfTrace(cfg, es);
    AfterAppend(cfg, es, Begin(now));
  }

  /** And it sets the failure counter to zero exactly when the last failure is long ago and it
      does not reopen the circuit; otherwise it leaves it alone. */
  lemma SetBackIff(cfg: Config, es: seq<Event>, now: int)
    ensures After(cfg, es + [Begin(now)]).failures
         == if LongAgo(cfg, es, now) && !Reopens(cfg, es, now) then 0 else After(cfg, es).failures
  {
    TimesOfTrace(cfg, es);
    AfterAppend(cfg, es, Begin(now));
  }

  lemma AfterAppend(cfg: Config, es: seq<Event>, e: Event)
    ensures After(cfg, es + [e]) == Next(After(cfg, es), cfg, e)
  {
    assert (es + [e])[..|es|] == es;
  }

  /** The outcomes recorded by the failure counter since it was last set to zero: at the
      start, when the circuit closed, or when the monitoring period had passed. A success in
      the half-open state is recorded by the other counter. */
  ghost function Window(cfg: Config, es: seq<Event>): seq<bool> {
    if es == [] then []
    else
      var front, e := es[..|es| - 1], es[|es| - 1];
      var w, state := Window(cfg, front), After(cfg, front).state;
      match e
      case Begin(now) => if LongAgo(cfg, front, now) && !Reopens(cfg, front, now) then [] else w
      case Success(_) =>
        if state != HalfOpen then w + [false] else if After(cfg, es).state == Closed then [] else w
      case Failure(_) => w + [true]
  }

  lemma ExcessOneMore(w: seq<bool>, b: bool, k: nat)
    requires k <= |w|
    ensures Excess((w + [b])[k..]) == Excess(w[k..]) + (if b then 1 else -1)
  {
    var v := (w + [b])[k..];
    assert v[..|v| - 1] == w[k..];
  }

  lemma MaxSuffixOneMore(m: int, w: seq<bool>, b: bool)
    requires IsMaxSuffixExcess(m, w) && m >= 0
    ensures IsMaxSuffixExcess(if b then m + 1 else if m > 0 then m - 1 else 0, w + [b])
  {
    var v, n := w + [b], if b then m + 1 else if m > 0 then m - 1 else 0;
    assert Excess(v[|v|..]) == 0;
    forall k | 0 <= k <= |v| ensures Excess(v[k..]) <= n {
      if k <= |w| {
        ExcessOneMore(w, b, k);
      }
    }
    var k :| 0 <= k <= |w| && Excess(w[k..]) == m;
    ExcessOneMore(w, b, k);
    assert if b || m > 0 then Excess(v[k..]) == n else Excess(v[|v|..]) == n;
  }

  /** The failure counter is the maximum, over all suffixes of the recorded outcomes, of
      failures minus successes. */
  lemma {:induction false} CounterIsMaxSuffix(cfg: Config, es: seq<Event>)
    ensures After(cfg, es).failures >= 0
    ensures IsMaxSuffixExcess(After(cfg, es).failures, Window(cfg, es))
  {
    if es == [] {
      EmptyWindow();
    } else {
      var es', e := es[..|es| - 1], es[|es| - 1];
      var c, w := After(cfg, es'), Window(cfg, es');
      CounterIsMaxSuffix(cfg, es');
      EmptyWindow();
      TimesOfTrace(cfg, es');
      match e
      case Begin(_) =>
      case Success(_) =>
        if c.state != HalfOpen {
          MaxSuffixOneMore(c.failures, w, false);
        }
      case Failure(_) =>
        MaxSuffixOneMore(c.failures, w, true);
    }
  }

  lemma EmptyWindow()
    ensures IsMaxSuffixExcess(0, [])
  {
    var w: seq<bool> := [];
    assert Excess(w[0..]) == 0;
  }

  /** Thresholds a configuration must have for the counters to mean anything. */
  predicate Sound(cfg: Config) {
    cfg.failureThreshold >= 1 && cfg.successThreshold >= 1
  }

  lemma RunOneMore(w: seq<bool>, b: bool, m: int, threshold: int)
    requires IsMaxSuffixExcess(m, w + [b]) && !HasRun(w, threshold) && threshold >= 1
    ensures HasRun(w + [b], threshold) <==> m >= threshold
  {
    var v := w + [b];
    if m >= threshold {
      var k :| 0 <= k <= |v| && Excess(v[k..]) == m;
      assert v[k..|v|] == v[k..];
    }
    forall i, j | 0 <= i <= j < |v| ensures Excess(v[i..j]) < threshold {
      assert v[i..j] == w[i..j];
    }
    forall i | 0 <= i <= |v| ensures Excess(v[i..|v|]) <= m {
      assert v[i..|v|] == v[i..];
    }
  }

  /** While the circuit is closed no run of the recorded outcomes has reached the threshold. */
  lemma {:induction false} ClosedMeansNoRun(cfg: Config, es: seq<Event>)
    requires Sound(cfg)
    ensures After(cfg, es).state == Closed ==> !HasRun(Window(cfg, es), cfg.failureThreshold)
  {
    NoRunInNothing(cfg.failureThreshold);
    if es != [] && After(cfg, es).state == Closed {
      var es', e := es[..|es| - 1], es[|es| - 1];
      var c, w := After(cfg, es'), Window(cfg, es');
      CounterIsMaxSuffix(cfg, es);
      CounterIsMaxSuffix(cfg, es');
      ReachableBounds(cfg, es);
      if c.state == Closed {
        ClosedMeansNoRun(cfg, es');
        match e
        case Begin(_) =>
        case Success(_) =>
          RunOneMore(w, false, After(cfg, es).failures, cfg.failureThreshold);
        case Failure(_) =>
          RunOneMore(w, true, After(cfg, es).failures, cfg.failureThreshold);
      }
    }
  }

  lemma NoRunInNothing(threshold: int)
    requires threshold >= 1
    ensures !HasRun([], threshold)
  {
  }

  /** A failure opens a closed circuit exactly when, counting it, some contiguous run of
      the recorded outcomes has an excess of failureThreshold. */
  lemma ClosedTripsIffRun(cfg: Config, es: seq<Event>, now: int)
    requires Sound(cfg) && After(cfg, es).state == Closed
    ensures var c := After(cfg, es + [Failure(now)]);
      && (c.state == Open || c.state == Closed)
      && (c.state == Open <==> HasRun(Window(cfg, es) + [true], cfg.failureThreshold))
  {
    var more := es + [Failure(now)];
    assert more[..|more| - 1] == es;
    CounterIsMaxSuffix(cfg, es);
    ClosedMeansNoRun(cfg, es);
    MaxSuffixOneMore(After(cfg, es).failures, Window(cfg, es), true);
    RunOneMore(Window(cfg, es), true, After(cfg, es).failures + 1, cfg.failureThreshold);
  }

  // ---- Failing inside and outside the monitoring period ----

  function Failures(es: seq<Event>): nat {
    if es == [] then 0 else Failures(es[..|es| - 1]) + (if es[|es| - 1].Failure? then 1 else 0)
  }

  /** From a trace on only calls that fail: no success, and no beginning long after a failure. */
  predicate KeepsFailing(cfg: Config, es: seq<Event>, more: seq<Event>) {
    more != [] ==>
      var front, e := more[..|more| - 1], more[|more| - 1];
      KeepsFailing(cfg, es, front) && !e.Success? && (e.Begin? ==> !LongAgo(cfg, es + front, e.now))
  }

  /** The circuit is open after these events or was after fewer of them. */
  predicate OpensWithin(cfg: Config, es: seq<Event>, more: seq<Event>) {
    After(cfg, es + more).state == Open || (more != [] && OpensWithin(cfg, es, more[..|more| - 1]))
  }

  /** Until it opens the counter keeps all these failures. */
  lemma {:induction false} CountsUp(cfg: Config, es: seq<Event>, more: seq<Event>)
    requires After(cfg, es).state == Closed && KeepsFailing(cfg, es, more)
    ensures OpensWithin(cfg, es, more)
            || (After(cfg, es + more).state == Closed
                && After(cfg, es + more).failures == After(cfg, es).failures + Failures(more))
  {
    if more == [] {
      assert es + more == es;
    } else {
      var front, e := more[..|more| - 1], more[|more| - 1];
      CountsUp(cfg, es, front);
      assert es + more == (es + front) + [e];
      AfterAppend(cfg, es + front, e);
      TimesOfTrace(cfg, es + front);
    }
  }

  /** failureThreshold failures of a closed circuit, with no success among them and every
      beginning within the period of the last failure, open it. */
  lemma FailuresOpen(cfg: Config, es: seq<Event>, more: seq<Event>)
    requires Sound(cfg) && After(cfg, es).state == Closed
    requires KeepsFailing(cfg, es, more) && Failures(more) >= cfg.failureThreshold
    ensures OpensWithin(cfg, es, more)
  {
    CountsUp(cfg, es, more);
    ReachableBounds(cfg, es + more);
    ReachableBounds(cfg, es);
  }

  /** Since the last failure something began, long after it. */
  predicate LateSince(cfg: Config, es: seq<Event>) {
    es != [] &&
      var front, e := es[..|es| - 1], es[|es| - 1];
      !e.Failure? && ((e.Begin? && LongAgo(cfg, front, e.now)) || LateSince(cfg, front))
  }

  /** So it is whenever a further failure comes back. */
  predicate FarApart(cfg: Config, es: seq<Event>) {
    es != [] ==>
      var front, e := es[..|es| - 1], es[|es| - 1];
      FarApart(cfg, front) && (e.Failure? && LastFailure(front).Some? ==> LateSince(cfg, front))
  }

  /** Failures that far apart never open the circuit, when it takes two to do so. */
  lemma {:induction false} RareFailuresNeverOpen(cfg: Config, es: seq<Event>)
    requires cfg.failureThreshold >= 2 && FarApart(cfg, es)
    ensures After(cfg, es).state == Closed && 0 <= After(cfg, es).failures <= 1
    ensures After(cfg, es).failures == 1 ==> LastFailure(es).Some? && !LateSince(cfg, es)
  {
    if es != [] {
      RareFailuresNeverOpen(cfg, es[..|es| - 1]);
      TimesOfTrace(cfg, es[..|es| - 1]);
    }
  }

  // ---- How the circuit closes ----

  function Successes(es: seq<Event>): nat {
    if es == [] then 0 else Successes(es[..|es| - 1]) + (if es[|es| - 1].Success? then 1 else 0)
  }

  /** The circuit has been half-open since event i let a trial call through, without a failure. */
  ghost predicate HalfOpenSince(cfg: Config, es: seq<Event>, i: nat)
    requires i < |es|
  {
    && es[i].Begin? && After(cfg, es[..i]).state == Open
    && (forall k :: i < k <= |es| ==> After(cfg, es[..k]).state == HalfOpen)
    && (forall k :: i < k < |es| ==> !es[k].Failure?)
  }

  lemma HalfOpenOneMore(cfg: Config, es: seq<Event>, front: seq<Event>, i: nat)
    requires |es| == |front| + 1 && front == es[..|front|]
    requires i < |front| && HalfOpenSince(cfg, front, i)
    requires After(cfg, es).state == HalfOpen && !es[|front|].Failure?
    ensures HalfOpenSince(cfg, es, i)
  {
    assert es[..i] == front[..i];
    forall k | i < k <= |es| ensures After(cfg, es[..k]).state == HalfOpen {
      if k <= |front| {
        assert es[..k] == front[..k];
      } else {
        assert es[..k] == es;
      }
    }
    forall k | i < k < |es| ensures !es[k].Failure? {
      assert k < |front| ==> es[k] == front[k];
    }
  }

  lemma {:induction false} HalfOpenEntry(cfg: Config, es: seq<Event>) returns (i: nat)
    requires Sound(cfg) && After(cfg, es).state == HalfOpen
    ensures i < |es| && HalfOpenSince(cfg, es, i)
    ensures After(cfg, es).successes == Successes(es[i + 1..]) < cfg.successThreshold
  {
    var n := |es| - 1;
    assert es[..|es|] == es;
    if After(cfg, es[..n]).state == HalfOpen {
      i := HalfOpenEntry(cfg, es[..n]);
      HalfOpenOneMore(cfg, es, es[..n], i);
      assert es[i + 1..][..|es[i + 1..]| - 1] == es[..n][i + 1..];
    } else {
      i := n;
    }
  }

  /** A circuit closes only on a success in the half-open state that is exactly the
      successThreshold-th since the trial began, with no failure since. */
  lemma ClosesAfterThreshold(cfg: Config, es: seq<Event>, e: Event) returns (i: nat)
    requires Sound(cfg) && After(cfg, es).state != Closed && After(cfg, es + [e]).state == Closed
    ensures e.Success? && i < |es| && HalfOpenSince(cfg, es, i)
    ensures Successes((es + [e])[i + 1..]) == cfg.successThreshold
  {
    var more := es + [e];
    assert more[..|more| - 1] == es;
    i := HalfOpenEntry(cfg, es);
    assert more[i + 1..][..|more[i + 1..]| - 1] == es[i + 1..];
  }

  /** Bounds that hold in every reachable state. */
  lemma {:induction false} ReachableBounds(cfg: Config, es: seq<Event>)
    requires Sound(cfg)
    ensures var c := After(cfg, es);
      && (c.state == Closed ==> 0 <= c.failures < cfg.failureThreshold && c.successes == 0)
      && (c.state == HalfOpen ==> 0 <= c.successes < cfg.successThreshold)
      && (c.state == Open && Monotone(es) ==> c.nextAttemptTime <= c.lastFailureTime + cfg.resetTimeout)
      && (c.state == Open && Monotone(es) && es != [] ==> c.lastFailureTime <= es[|es| - 1].now)
      && c.failures >= 0
  {
    if es != [] {
      ReachableBounds(cfg, es[..|es| - 1]);
    }
  }
}
