/**
 * Sidekiq budgets: the global `$SIDEKIQ_BUDGET` names the budget jobs
 * enqueued from the current code are charged to (`SidekiqBudget.with`), and
 * the server middleware refuses a job whose budget is exhausted and charges
 * the time it ran for to its budget's counter in Redis.
 *
 * The code run inside `with` or by a job is a `Block`: a small program
 * that can read the global, assign it, raise, nest `with` and run in
 * sequence. Elapsed time and the number of Sidekiq processes are
 * parameters.
 */
module SidekiqBudget {
  import opened Wrappers
  import opened RedisStore

  /** A counter at or above this many seconds refuses further jobs. */
  const EXHAUSTION_THRESHOLD: int := 64
  /** Charges expire from the counter after this many seconds. */
  const RATE_TTL: int := 256

  datatype Block =
    | Observe                                     // read `$SIDEKIQ_BUDGET`
    | Raise                                       // raise an exception
    | Assign(value: Option<string>)               // `$SIDEKIQ_BUDGET = value`
    | Within(specified: Option<string>, body: Block)  // `SidekiqBudget.with(specified) { body }`
    | Then(first: Block, second: Block)

  /** What a block read, whether it raised, and the global's value when it finished. */
  datatype Outcome = Outcome(observed: seq<Option<string>>, raised: bool, budget: Option<string>)

  /** Running `b` with the global at `budget`. */
  function Trace(budget: Option<string>, b: Block): (o: Outcome)
    ensures b.Within? ==> o.budget == budget
    decreases b
  {
    match b
    case Observe => Outcome([budget], false, budget)
    case Raise => Outcome([], true, budget)
    case Assign(v) => Outcome([], false, v)
    case Within(s, body) =>
      var inner := Trace(s, body);
      Outcome(inner.observed, inner.raised, budget)
    case Then(first, second) =>
      var o := Trace(budget, first);
      if o.raised then o
      else
        var o2 := Trace(o.budget, second);
        Outcome(o.observed + o2.observed, o2.raised, o2.budget)
  }

  /** A block that assigns the global only inside `with`. */
  predicate Balanced(b: Block) {
    match b
    case Assign(_) => false
    case Then(first, second) => Balanced(first) && Balanced(second)
    case _ => true
  }

  /**
   * Nested `with` calls restore in last-in, first-out order: a block that
   * assigns the global only inside `with` leaves it as it found it, raising
   * or not.
   */
  lemma {:induction false} BalancedKeepsBudget(budget: Option<string>, b: Block)
    requires Balanced(b)
    ensures Trace(budget, b).budget == budget
  {
    match b
    case Then(first, second) =>
      BalancedKeepsBudget(budget, first);
      if !Trace(budget, first).raised {
        BalancedKeepsBudget(budget, second);
      }
    case _ =>
  }

  /** The first read inside `with` sees the specified budget, and the global is restored after a raise too. */
  lemma WithinSeesSpecified(budget: Option<string>, specified: Option<string>, rest: Block)
    ensures var o := Trace(budget, Within(specified, Then(Observe, rest))).observed;
      |o| > 0 && o[0] == specified
    ensures Trace(budget, Within(specified, Then(rest, Raise))).budget == budget
    ensures Trace(budget, Within(specified, Then(rest, Raise))).raised
  {
    var first := Trace(specified, Observe);
    assert first == Outcome([specified], false, specified);
    var tail := Trace(specified, rest);
    assert Trace(specified, Then(Observe, rest)).observed == [specified] + tail.observed;
    var o := Trace(specified, rest);
    assert Trace(specified, Then(rest, Raise)).raised by {
      if !o.raised {
        assert Trace(o.budget, Raise).raised;
      }
    }
  }

  /** Two nested `with`s: reads see the outer, the inner, then the outer budget again. */
  lemma NestedLifo(budget: Option<string>, outer: Option<string>, inner: Option<string>)
    ensures Trace(budget, Within(outer, Then(Observe, Then(Within(inner, Observe), Observe))))
            == Outcome([outer, inner, outer], false, budget)
  {
    assert Trace(outer, Within(inner, Observe)) == Outcome([inner], false, outer);
    assert Trace(outer, Then(Within(inner, Observe), Observe)) == Outcome([inner, outer], false, outer);
    assert Trace(outer, Then(Observe, Then(Within(inner, Observe), Observe))) == Outcome([outer, inner, outer], false, outer);
  }

  /** `$SIDEKIQ_BUDGET` */
  class Global {
    var budget: Option<string>

    constructor(budget: Option<string>)
      ensures this.budget == budget
    {
      this.budget := budget;
    }
  }

  /** Running a block against the global. */
  method Run(g: Global, b: Block) returns (observed: seq<Option<string>>, raised: bool)
    modifies g
    ensures Outcome(observed, raised, g.budget) == Trace(old(g.budget), b)
    decreases b, 1
  {
    match b
    case Observe =>
      observed, raised := [g.budget], false;
    case Raise =>
      observed, raised := [], true;
    case Assign(v) =>
      g.budget := v;
      observed, raised := [], false;
    case Within(s, body) =>
      observed, raised := With(g, s, body);
    case Then(first, second) =>
      observed, raised := Run(g, first);
      if !raised {
        var more;
        more, raised := Run(g, second);
        observed := observed + more;
      }
  }

  /** `SidekiqBudget.with`: save the global, set it, run the block, and restore it in `ensure`. */
  method With(g: Global, specified: Option<string>, body: Block) returns (observed: seq<Option<string>>, raised: bool)
    modifies g
    ensures g.budget == old(g.budget)
    ensures (observed, raised) == (Trace(specified, body).observed, Trace(specified, body).raised)
    decreases body, 2
  {
    var original := g.budget;
    g.budget := specified;
    observed, raised := Run(g, body);
    g.budget := original;
  }

  /** `sidekiq_budget:<budget>` */
  function RateKey(budget: string): string {
    "sidekiq_budget:" + budget
  }

  /** A counter that refuses jobs: present and at least the threshold. */
  predicate Exhausted(strings: map<string, int>, key: string) {
    key in strings && strings[key] >= EXHAUSTION_THRESHOLD
  }

  /**
   * The whole seconds charged for a run: the elapsed time divided by the
   * number of processes, floored, and only when that exceeds one second.
   * With no process, a positive time divides to infinity and flooring it
   * raises, so nothing is charged.
   */
  function Charge(elapsed: real, processCount: nat): (c: Option<int>)
    ensures c.Some? <==> processCount > 0 && elapsed / processCount as real > 1.0
    ensures c.Some? ==> c.value >= 1 && c.value as real <= elapsed / processCount as real < c.value as real + 1.0
  {
    if processCount == 0 then None
    else
      var time := elapsed / processCount as real;
      if time > 1.0 then Some(time.Floor) else None
  }

  datatype CallResult =
    | Refused                                              // `SidekiqBudget::Exhausted`
    | Ran(observed: seq<Option<string>>, raised: bool)     // the job ran

  /** The counter after charging `c`. */
  function Charged(strings: map<string, int>, key: string, c: Option<int>): map<string, int> {
    if c.None? then strings else strings[key := (if key in strings then strings[key] else 0) + c.value]
  }

  /** `ServerMiddleware#call` on a job with budget `jobBudget` whose body is `job` and takes `elapsed` seconds. */
  method Call(g: Global, r: Redis, jobBudget: Option<string>, processCount: nat, elapsed: real, job: Block)
    returns (result: CallResult)
    modifies g, r
    ensures r.zsets == old(r.zsets)
    ensures jobBudget.None? ==>
              && result == Ran(Trace(None, job).observed, Trace(None, job).raised)
              && r.strings == old(r.strings) && r.ttl == old(r.ttl)
              && g.budget == Trace(None, job).budget
    ensures jobBudget.Some? ==> (result.Refused? <==> Exhausted(old(r.strings), RateKey(jobBudget.value)))
    ensures result.Refused? ==> g.budget == old(g.budget) && r.strings == old(r.strings) && r.ttl == old(r.ttl)
    ensures jobBudget.Some? && result.Ran? ==>
              var o := Trace(jobBudget, job);
              var key := RateKey(jobBudget.value);
              var c := if o.raised || (processCount == 0 && elapsed > 0.0) then None else Charge(elapsed, processCount);
              && result == Ran(o.observed, o.raised || (processCount == 0 && elapsed > 0.0))
              && g.budget == o.budget
              && r.strings == Charged(old(r.strings), key, c)
              && r.ttl == if c.None? then old(r.ttl) else old(r.ttl)[key := RATE_TTL]
  {
    if jobBudget.None? {
      g.budget := None;
      var observed, raised := Run(g, job);
      return Ran(observed, raised);
    }
    var key := RateKey(jobBudget.value);
    var rateValue := r.Get(key);
    if !(rateValue.None? || rateValue.value < EXHAUSTION_THRESHOLD) {
      return Refused;
    }
    g.budget := jobBudget;
    var observed, raised := Run(g, job);
    if raised {
      return Ran(observed, true);
    }
    if processCount == 0 && elapsed > 0.0 {
      // `Float::INFINITY.floor` raises FloatDomainError.
      return Ran(observed, true);
    }
    var c := Charge(elapsed, processCount);
    if c.Some? {
      var _ := r.IncrBy(key, c.value);
      var _ := r.Expire(key, RATE_TTL);
    }
    return Ran(observed, false);
  }

  /** A job taking 64 seconds on one process exhausts a fresh budget: the next job is refused. */
  lemma OneProcessExhausts(key: string)
    ensures Exhausted(Charged(map[], key, Charge(64.0, 1)), key)
  {
  }

  /** On two processes the same job needs two runs to exhaust it, and 63 seconds never does on one run. */
  lemma MoreProcessesTakeLonger(key: string)
    ensures !Exhausted(Charged(map[], key, Charge(64.0, 2)), key)
    ensures Exhausted(Charged(Charged(map[], key, Charge(64.0, 2)), key, Charge(64.0, 2)), key)
    ensures !Exhausted(Charged(map[], key, Charge(63.0, 1)), key)
  {
    assert (64.0 / 2 as real).Floor == 32;
    assert (63.0 / 1 as real).Floor == 63;
  }

  /** Charging never lowers a counter. */
  lemma ChargeOnlyRaises(strings: map<string, int>, key: string, elapsed: real, processCount: nat)
    requires key in strings
    ensures key in Charged(strings, key, Charge(elapsed, processCount))
    ensures Charged(strings, key, Charge(elapsed, processCount))[key] >= strings[key]
  {
  }
}
