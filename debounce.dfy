/**
 * The trailing debouncer with a maximum wait of src/lib/debounce.ts.
 *
 * The closure's two variables, the pending `timeout` and `lastInvokeTime`,
 * are the fields of `Debouncer`; `Date.now()` becomes the `now` argument of
 * each operation, and the timer firing becomes `Tick(now)`. Every run of the
 * wrapped function is appended to `log`. The transitions are the functions
 * `OnCall` and `OnTick` of `DebounceState`, and the lemmas about runs of
 * events are stated on them.
 */
module Debounce {
  import opened Wrappers

  const DefaultWait: int := 500
  const DefaultMaxWait: int := 1000

  /** The largest delay a Node timer accepts. */
  const TimeoutMax: int := 2147483647

  /** The delay a Node timer actually waits: out-of-range delays become 1 ms. */
  function Delay(wait: int): (d: int)
    ensures 1 <= d <= TimeoutMax
    ensures 1 <= wait <= TimeoutMax ==> d == wait
  {
    if wait < 1 || wait > TimeoutMax then 1 else wait
  }

  /** A pending `setTimeout(invoke, wait)`, with the call that armed it. */
  datatype Scheduled<A> = Scheduled(due: int, callTime: int, args: A)

  /** One run of the wrapped function: when it ran, the call it belongs to, its arguments. */
  datatype Invocation<A> = Invocation(at: int, callTime: int, args: A)

  datatype DebounceState<A> = DebounceState(
    wait: int,
    maxWait: int,
    lastInvokeTime: int,
    pending: Option<Scheduled<A>>,
    log: seq<Invocation<A>>)
  {
    /**
     * A call at `now`: the pending timer is cleared; if more than `maxWait`
     * has passed since the last invocation the function runs at once,
     * otherwise it is scheduled `wait` later with this call's arguments.
     */
    function OnCall(now: int, args: A): DebounceState<A> {
      if now - lastInvokeTime > maxWait then
        this.(lastInvokeTime := now, pending := None, log := log + [Invocation(now, now, args)])
      else
        this.(pending := Some(Scheduled(now + Delay(wait), now, args)))
    }

    /**
     * The clock reaches `now`: a pending timer that is due runs, and sets
     * `lastInvokeTime` to the time of the call that armed it.
     */
    function OnTick(now: int): DebounceState<A> {
      if pending.Some? && pending.value.due <= now then
        this.(lastInvokeTime := pending.value.callTime, pending := None,
              log := log + [Invocation(now, pending.value.callTime, pending.value.args)])
      else this
    }
  }

  /** The state right after `debounce(func, wait, maxWait)` at time `now`. */
  function Created<A>(now: int, wait: int, maxWait: int): DebounceState<A> {
    DebounceState(wait, maxWait, now, None, [])
  }

  /** The debounced closure with its captured state. */
  class Debouncer<A> {
    const wait: int
    const maxWait: int
    var lastInvokeTime: int
    var timeout: Option<Scheduled<A>>
    var log: seq<Invocation<A>>

    function State(): DebounceState<A>
      reads this
    {
      DebounceState(wait, maxWait, lastInvokeTime, timeout, log)
    }

    /** `debounce(func, wait, maxWait)` at time `now`. */
    constructor (now: int, wait: int, maxWait: int)
      ensures State() == Created(now, wait, maxWait)
    {
      this.wait := wait;
      this.maxWait := maxWait;
      lastInvokeTime := now;
      timeout := None;
      log := [];
    }

    /** `debounce(func)` at time `now`, with the default delays. */
    constructor WithDefaults(now: int)
      ensures State() == Created(now, DefaultWait, DefaultMaxWait)
    {
      wait := DefaultWait;
      maxWait := DefaultMaxWait;
      lastInvokeTime := now;
      timeout := None;
      log := [];
    }

    /** Calling the debounced function at `now`. */
    method Call(now: int, args: A)
      modifies this
      ensures State() == old(State()).OnCall(now, args)
    {
      var elapsed := now - lastInvokeTime;
      timeout := None;
      if elapsed > maxWait {
        lastInvokeTime := now;
        log := log + [Invocation(now, now, args)];
      } else {
        timeout := Some(Scheduled(now + Delay(wait), now, args));
      }
    }

    /** The timer queue at time `now`. */
    method Tick(now: int)
      modifies this
      ensures State() == old(State()).OnTick(now)
    {
      if timeout.Some? && timeout.value.due <= now {
        var fired := timeout.value;
        lastInvokeTime := fired.callTime;
        timeout := None;
        log := log + [Invocation(now, fired.callTime, fired.args)];
      }
    }
  }

  /** An event seen by the debouncer: a call, or the clock reaching a time. */
  datatype Event<A> = CallAt(time: int, args: A) | TickAt(time: int)

  function Step<A>(s: DebounceState<A>, e: Event<A>): DebounceState<A> {
    match e
    case CallAt(t, a) => s.OnCall(t, a)
    case TickAt(t) => s.OnTick(t)
  }

  function Run<A>(s: DebounceState<A>, events: seq<Event<A>>): DebounceState<A>
    decreases |events|
  {
    if events == [] then s else Run(Step(s, events[0]), events[1..])
  }

  /** How many events are calls. */
  function Calls<A>(events: seq<Event<A>>): nat
    decreases |events|
  {
    if events == [] then 0 else (if events[0].CallAt? then 1 else 0) + Calls(events[1..])
  }

  /** Invocations run so far plus the one pending, if any. */
  function Weight<A>(s: DebounceState<A>): nat {
    |s.log| + if s.pending.Some? then 1 else 0
  }

  /**
   * A call leaves nothing of what was pending before it: either it ran the
   * function at once with its own arguments or it armed the only timer
   * with them, `Delay(wait)` ahead. It runs at once exactly when more than
   * `maxWait` has passed since the last invocation, so an elapsed time
   * equal to `maxWait` still defers.
   */
  lemma CallReplacesPending<A>(s: DebounceState<A>, now: int, args: A)
    ensures var s' := s.OnCall(now, args);
      && s'.log[..|s.log|] == s.log
      && (|s'.log| == |s.log| + 1 <==> now - s.lastInvokeTime > s.maxWait)
      && (now - s.lastInvokeTime > s.maxWait ==>
            s'.log[|s.log|] == Invocation(now, now, args) && s'.pending.None? && s'.lastInvokeTime == now)
      && (now - s.lastInvokeTime <= s.maxWait ==>
            |s'.log| == |s.log| && s'.pending == Some(Scheduled(now + Delay(s.wait), now, args))
            && s'.lastInvokeTime == s.lastInvokeTime)
  {
  }

  /**
   * A due timer runs the function with the arguments of the call that armed
   * it, and from then on `lastInvokeTime` is that call's time, not the time
   * it fired; a timer that is not due leaves everything as it was.
   */
  lemma TickRunsDueTimer<A>(s: DebounceState<A>, now: int)
    ensures var s' := s.OnTick(now);
      && (s'.pending.Some? ==> s' == s)
      && (s.pending.Some? && s.pending.value.due <= now ==>
            && s'.log == s.log + [Invocation(now, s.pending.value.callTime, s.pending.value.args)]
            && s'.lastInvokeTime == s.pending.value.callTime)
      && (s.pending.None? || now < s.pending.value.due ==> s' == s)
  {
  }

  /**
   * What every reachable state satisfies: a pending timer is due exactly
   * `Delay(wait)` after the call that armed it, and that call came within
   * `maxWait` of the last invocation; every logged run happened at its
   * call or at least `Delay(wait)` after it.
   */
  ghost predicate Scheduling<A>(s: DebounceState<A>) {
    && (s.pending.Some? ==>
          && s.pending.value.due == s.pending.value.callTime + Delay(s.wait)
          && s.pending.value.callTime - s.lastInvokeTime <= s.maxWait)
    && (forall i :: 0 <= i < |s.log| ==>
          s.log[i].at == s.log[i].callTime || s.log[i].at >= s.log[i].callTime + Delay(s.wait))
  }

  lemma StepKeepsScheduling<A>(s: DebounceState<A>, e: Event<A>)
    requires Scheduling(s)
    ensures Scheduling(Step(s, e))
    ensures Step(s, e).wait == s.wait && Step(s, e).maxWait == s.maxWait
  {
  }

  lemma {:induction false} RunKeepsScheduling<A>(s: DebounceState<A>, events: seq<Event<A>>)
    requires Scheduling(s)
    ensures Scheduling(Run(s, events))
    decreases |events|
  {
    if events != [] {
      StepKeepsScheduling(s, events[0]);
      RunKeepsScheduling(Step(s, events[0]), events[1..]);
    }
  }

  /** A fresh debouncer satisfies the scheduling invariant, and so does every state it reaches. */
  lemma ReachableScheduling<A>(now: int, wait: int, maxWait: int, events: seq<Event<A>>)
    ensures Scheduling(Run(Created<A>(now, wait, maxWait), events))
  {
    RunKeepsScheduling(Created<A>(now, wait, maxWait), events);
  }

  /**
   * The log only grows, and the function runs at most once per call: the
   * runs logged plus the one pending never exceed the calls made.
   */
  lemma {:induction false} RunsAtMostOncePerCall<A>(s: DebounceState<A>, events: seq<Event<A>>)
    ensures s.log <= Run(s, events).log
    ensures Weight(Run(s, events)) <= Weight(s) + Calls(events)
    decreases |events|
  {
    if events != [] {
      var s1 := Step(s, events[0]);
      RunsAtMostOncePerCall(s1, events[1..]);
    }
  }

  /** The arguments and call time of a logged run or a pending timer came from a call among `events`. */
  ghost predicate FromCall<A>(events: seq<Event<A>>, callTime: int, args: A) {
    exists k :: 0 <= k < |events| && events[k] == CallAt(callTime, args)
  }

  /**
   * In a run from a fresh debouncer, every invocation and the pending
   * timer carry the time and arguments of one of the calls.
   */
  lemma {:induction false} RunsCarryCallArguments<A>(s: DebounceState<A>, done: seq<Event<A>>, events: seq<Event<A>>)
    requires forall i :: 0 <= i < |s.log| ==> FromCall(done, s.log[i].callTime, s.log[i].args)
    requires s.pending.Some? ==> FromCall(done, s.pending.value.callTime, s.pending.value.args)
    ensures var r := Run(s, events);
      && (forall i :: 0 <= i < |r.log| ==> FromCall(done + events, r.log[i].callTime, r.log[i].args))
      && (r.pending.Some? ==> FromCall(done + events, r.pending.value.callTime, r.pending.value.args))
    decreases |events|
  {
    if events == [] {
      assert done + events == done;
    } else {
      var done' := done + [events[0]];
      var s1 := Step(s, events[0]);
      forall c: int, a: A | FromCall(done, c, a) ensures FromCall(done', c, a) {
        var k :| 0 <= k < |done| && done[k] == CallAt(c, a);
        assert done'[k] == CallAt(c, a);
      }
      if events[0].CallAt? {
        assert done'[|done|] == CallAt(events[0].time, events[0].args);
      }
      assert forall i :: 0 <= i < |s1.log| ==> FromCall(done', s1.log[i].callTime, s1.log[i].args) by {
        forall i | 0 <= i < |s1.log| ensures FromCall(done', s1.log[i].callTime, s1.log[i].args) {
          if i < |s.log| {
            assert s1.log[i] == s.log[i];
          }
        }
      }
      RunsCarryCallArguments(s1, done', events[1..]);
      assert done' + events[1..] == done + events;
    }
  }

  lemma ProvenanceFromCreation<A>(now: int, wait: int, maxWait: int, events: seq<Event<A>>)
    ensures var r := Run(Created<A>(now, wait, maxWait), events);
      forall i :: 0 <= i < |r.log| ==> FromCall(events, r.log[i].callTime, r.log[i].args)
  {
    RunsCarryCallArguments(Created<A>(now, wait, maxWait), [], events);
    assert [] + events == events;
  }

  /**
   * The trailing edge: after a call, the clock reaching `Delay(wait)` later
   * with no call in between has run the function with that call's
   * arguments, and nothing is pending.
   */
  lemma LastCallDelivered<A>(s: DebounceState<A>, now: int, args: A)
    ensures var r := s.OnCall(now, args).OnTick(now + Delay(s.wait));
      && r.pending.None? && |r.log| == |s.log| + 1
      && r.log[|s.log|].args == args && r.log[|s.log|].callTime == now
      && r.lastInvokeTime == now
  {
  }

  /**
   * `lastInvokeTime` starts at the creation time, so a first call within
   * `maxWait` of creation is deferred, not run.
   */
  lemma FirstCallDeferred<A>(created: int, wait: int, maxWait: int, now: int, args: A)
    requires now - created <= maxWait
    ensures var r := Created<A>(created, wait, maxWait).OnCall(now, args);
      r.log == [] && r.pending == Some(Scheduled(now + Delay(wait), now, args))
  {
  }

  /**
   * With the defaults, created at 0, called at 0 and 100, the clock reaching
   * 600, then called at 1200: the function runs twice, at 600 with the
   * arguments of the call at 100, and at 1200 at once, since 1200 - 100
   * exceeds 1000.
   */
  lemma DefaultScenario(a: int, b: int, c: int)
    ensures Run(Created<int>(0, DefaultWait, DefaultMaxWait), [CallAt(0, a), CallAt(100, b), TickAt(600), CallAt(1200, c)]).log
         == [Invocation(600, 100, b), Invocation(1200, 1200, c)]
  {
    var s0 := Created<int>(0, DefaultWait, DefaultMaxWait);
    var es := [CallAt(0, a), CallAt(100, b), TickAt(600), CallAt(1200, c)];
    var s1 := s0.OnCall(0, a);
    var s2 := s1.OnCall(100, b);
    var s3 := s2.OnTick(600);
    var s4 := s3.OnCall(1200, c);
    assert es[1..][1..][1..][1..] == [];
    assert Run(s0, es) == Run(s1, es[1..]);
    assert Run(s1, es[1..]) == Run(s2, es[1..][1..]);
    assert Run(s2, es[1..][1..]) == Run(s3, es[1..][1..][1..]);
    assert Run(s3, es[1..][1..][1..]) == s4;
  }
}
