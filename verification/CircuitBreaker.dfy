/** internal/mesh/circuitbreaker.go: a three-state breaker that equals a predicate on its history. */
module CircuitBreaker {

  datatype State = Closed | Open | HalfOpen

  /** The mutable part of the breaker. Times are nanoseconds on a monotone clock. */
  datatype Gauge = Gauge(state: State, failures: int, openedAt: int)

  datatype Config = Config(threshold: int, resetTimeout: int)

  const DEFAULT_THRESHOLD := 5
  const DEFAULT_RESET := 30_000_000_000

  function Normalised(threshold: int, resetTimeout: int): (c: Config)
    ensures c.threshold > 0 && c.resetTimeout > 0
    ensures c.threshold == if threshold > 0 then threshold else 5
    ensures c.resetTimeout == if resetTimeout > 0 then resetTimeout else 30 * 1_000_000_000
  {
    Config(if threshold <= 0 then DEFAULT_THRESHOLD else threshold, if resetTimeout <= 0 then DEFAULT_RESET else resetTimeout)
  }

  class Breaker {
    var state: State
    var failures: int
    var openedAt: int
    const config: Config

    constructor (threshold: int, resetTimeout: int)
      ensures config == Normalised(threshold, resetTimeout)
      ensures Current() == Initial()
    {
      config := Normalised(threshold, resetTimeout);
      state, failures, openedAt := Closed, 0, 0;
    }

    ghost function Current(): Gauge
      reads this
    {
      Gauge(state, failures, openedAt)
    }

    method Allow(now: int) returns (ok: bool)
      modifies this`state
      ensures ok == Allows(config, old(Current()), now)
      ensures Current() == After(config, old(Current()), Asked(now))
    {
      if state != Open {
        return true;
      }
      if now - openedAt < config.resetTimeout {
        return false;
      }
      state := HalfOpen;
      return true;
    }

    method RecordSuccess()
      modifies this`state, this`failures
      ensures forall now :: Current() == After(config, old(Current()), Succeeded(now))
    {
      failures := 0;
      state := Closed;
    }

    method RecordFailure(now: int)
      modifies this`state, this`failures, this`openedAt
      ensures Current() == After(config, old(Current()), Failed(now))
    {
      failures := failures + 1;
      if state == HalfOpen || failures >= config.threshold {
        state := Open;
        openedAt := now;
      }
    }
  }

  // ---------------------------------------------------------------- transitions and histories

  datatype Event = Asked(at: int) | Succeeded(at: int) | Failed(at: int)

  function Initial(): Gauge { Gauge(Closed, 0, 0) }

  predicate Allows(c: Config, g: Gauge, now: int)
  {
    g.state != Open || now - g.openedAt >= c.resetTimeout
  }

  function After(c: Config, g: Gauge, e: Event): Gauge
  {
    match e
    case Asked(now) => if g.state == Open && now - g.openedAt >= c.resetTimeout then g.(state := HalfOpen) else g
    case Succeeded(_) => g.(state := Closed, failures := 0)
    case Failed(now) =>
      if g.state == HalfOpen || g.failures + 1 >= c.threshold then Gauge(Open, g.failures + 1, now)
      else g.(failures := g.failures + 1)
  }

  function Run(c: Config, es: seq<Event>): Gauge
  {
    if es == [] then Initial() else After(c, Run(c, es[..|es| - 1]), es[|es| - 1])
  }

  ghost predicate Monotone(es: seq<Event>)
  {
    forall i, j :: 0 <= i <= j < |es| ==> es[i].at <= es[j].at
  }

  // ---------------------------------------------------------------- what the history says

  /** Failures recorded since the last success. */
  function FailuresSince(es: seq<Event>): nat
  {
    if es == [] then 0
    else
      match es[|es| - 1]
      case Asked(_) => FailuresSince(es[..|es| - 1])
      case Succeeded(_) => 0
      case Failed(_) => FailuresSince(es[..|es| - 1]) + 1
  }

  /** The time of the last failure; zero if there was none. */
  function LastFailure(es: seq<Event>): int
  {
    if es == [] then 0
    else if es[|es| - 1].Failed? then es[|es| - 1].at
    else LastFailure(es[..|es| - 1])
  }

  /** A request was let through after the last failure, once the timeout had passed. */
  ghost predicate Probed(c: Config, es: seq<Event>)
  {
    exists i :: 0 <= i < |es| && es[i].Asked? && es[i].at - LastFailure(es[..i]) >= c.resetTimeout
      && forall j :: i < j < |es| ==> es[j].Asked?
  }

  lemma ProbedNext(c: Config, es: seq<Event>, e: Event)
    ensures Probed(c, es + [e]) <==> e.Asked? && (Probed(c, es) || e.at - LastFailure(es) >= c.resetTimeout)
  {
    var all := es + [e];
    assert forall i :: 0 <= i < |es| ==> all[..i] == es[..i];
    assert all[..|es|] == es;
    if Probed(c, all) {
      var i :| 0 <= i < |all| && all[i].Asked? && all[i].at - LastFailure(all[..i]) >= c.resetTimeout
        && forall j :: i < j < |all| ==> all[j].Asked?;
      if i < |es| {
        assert all[|es|].Asked?;
        assert forall j :: i < j < |es| ==> all[j] == es[j];
      }
    }
    if e.Asked? && Probed(c, es) {
      var i :| 0 <= i < |es| && es[i].Asked? && es[i].at - LastFailure(es[..i]) >= c.resetTimeout
        && forall j :: i < j < |es| ==> es[j].Asked?;
      assert all[i] == es[i];
    }
    if e.Asked? && e.at - LastFailure(es) >= c.resetTimeout {
      assert all[|es|] == e;
    }
  }

  /** The state of the machine, read off the history alone. */
  ghost predicate ClosedForm(c: Config, es: seq<Event>, g: Gauge)
  {
    && g.failures == FailuresSince(es)
    && (g.state == Closed <==> FailuresSince(es) < c.threshold)
    && (g.state == HalfOpen <==> FailuresSince(es) >= c.threshold && Probed(c, es))
    && (FailuresSince(es) >= c.threshold ==> g.openedAt == LastFailure(es))
  }

  lemma {:induction false} StateOfHistory(c: Config, es: seq<Event>)
    requires c.threshold > 0
    ensures ClosedForm(c, es, Run(c, es))
  {
    if es != [] {
      var n := |es| - 1;
      StateOfHistory(c, es[..n]);
      assert es == es[..n] + [es[n]];
      ClosedFormStep(c, es[..n], es[n], Run(c, es[..n]));
    }
  }

  lemma HistoryNext(es: seq<Event>, e: Event)
    ensures FailuresSince(es + [e]) == if e.Succeeded? then 0 else if e.Failed? then FailuresSince(es) + 1 else FailuresSince(es)
    ensures LastFailure(es + [e]) == if e.Failed? then e.at else LastFailure(es)
  {
    assert (es + [e])[..|es|] == es;
  }

  lemma ClosedFormStep(c: Config, es: seq<Event>, e: Event, g: Gauge)
    requires c.threshold > 0 && ClosedForm(c, es, g)
    ensures ClosedForm(c, es + [e], After(c, g, e))
  {
    HistoryNext(es, e);
    ProbedNext(c, es, e);
  }

  /** Once probed, the timeout has passed for every later time. */
  lemma ProbedMeansElapsed(c: Config, es: seq<Event>, t: int)
    requires Monotone(es) && Probed(c, es) && (forall i :: 0 <= i < |es| ==> es[i].at <= t)
    ensures t - LastFailure(es) >= c.resetTimeout
  {
    var i :| 0 <= i < |es| && es[i].Asked? && es[i].at - LastFailure(es[..i]) >= c.resetTimeout
      && forall j :: i < j < |es| ==> es[j].Asked?;
    LastFailureOf(es, i);
  }

  lemma {:induction false} LastFailureOf(es: seq<Event>, i: nat)
    requires i < |es| && forall j :: i <= j < |es| ==> es[j].Asked?
    ensures LastFailure(es) == LastFailure(es[..i])
  {
    var n := |es| - 1;
    if i < n {
      LastFailureOf(es[..n], i);
      assert es[..n][..i] == es[..i];
    }
  }

  /** Closed form: for every history on a monotone clock, a request at time `t` is let through exactly when the failures
      since the last success are below the threshold or the timeout has passed since the last failure. */
  lemma AllowClosedForm(c: Config, es: seq<Event>, t: int)
    requires c.threshold > 0
    requires Monotone(es) && (forall i :: 0 <= i < |es| ==> es[i].at <= t)
    ensures Allows(c, Run(c, es), t) <==> FailuresSince(es) < c.threshold || t - LastFailure(es) >= c.resetTimeout
  {
    StateOfHistory(c, es);
    if Probed(c, es) {
      ProbedMeansElapsed(c, es, t);
    }
  }
}
