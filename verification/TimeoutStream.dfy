/**
 A stream or a promise wrapped with a timeout.  Time passes, a timer fires, the underlying stream
 settles its calls and the consumer asks, in any order; the wrapper races each call of `next`
 against the timer.  The promise form is one race, on from the start.
 */
module TimeoutStream {
  import opened Outcomes
  import opened Sequences

  type Value(!new, ==)
  type Error(!new, ==)

  /** What becomes of a call of `next` on the underlying iterator. */
  datatype Reaction = Item(value: Value) | Done | Fails(error: Error) | Never

  /** What the wrapped function returns. */
  datatype Form = Stream | Promise

  /**
   The form; the underlying stream: the outcome of its k-th `next`, which may depend on whether its
   signal is aborted by then (of a promise: call 0, fulfilled with `Item` or rejected); the timeout;
   and the time the wrapped function took to return, at the end of which the wrapper takes its
   start time.
   */
  datatype Env = Env(form: Form, source: (nat, bool) -> Reaction, timeout: nat, lag: nat)

  /** How a race settles. */
  datatype Won = Source(reaction: Reaction) | Timer

  datatype Outcome = NotEntered | Completed | Returned | TimeoutError | Failed(error: Error)

  /** Fresh: the generator is not entered.  Settled: the race is over, the loop has not continued yet. */
  datatype Phase = Fresh | Racing | Settled(won: Won) | Yielded | Over(outcome: Outcome)

  /** Time since the timer was set; whether the controller is aborted; calls of `next` so far. */
  datatype State = State(elapsed: nat, aborted: bool, phase: Phase, pulled: nat, delivered: seq<Value>, cleared: bool, returned: bool)

  const INITIAL := State(0, false, Fresh, 0, [], false, false)

  /** A generator waits to be entered, a promise is raced at once. */
  function Start(env: Env): State {
    if env.form.Stream? then INITIAL else INITIAL.(phase := Racing, pulled := 1)
  }

  datatype Event =
    | Tick(d: nat)
    | TimerFires     // the controller's timer, unless it is cleared
    | TimerWins      // a race that starts after the controller was aborted is lost to it
    | SourceSettles
    | Look           // the loop continues after its await
    | Next           // the consumer's calls
    | Return
    | Throw(error: Error)

  /** `maybeThrowTimeoutError` throws. */
  predicate Late(env: Env, s: State) {
    s.aborted || s.elapsed > env.lag + env.timeout
  }

  /** `finally`: only a generator has an iterator to return. */
  function Leave(env: Env, s: State, o: Outcome): State {
    s.(phase := Over(o), cleared := true, returned := env.form.Stream?)
  }

  /** `catch`: an error that comes late aborts the controller and becomes a TimeoutError. */
  function Caught(env: Env, s: State, o: Outcome): State {
    if Late(env, s) then Leave(env, s.(aborted := true), TimeoutError) else Leave(env, s, o)
  }

  /** From the settlement of a race on.  Completed, for a promise, means fulfilled with the value delivered. */
  function Continue(env: Env, s: State, w: Won): State {
    match w
    case Timer => Caught(env, s, TimeoutError)
    case Source(Done) => Leave(env, s, Completed)
    case Source(Fails(e)) => Caught(env, s, Failed(e))
    case Source(Item(v)) =>
      if Late(env, s) then Caught(env, s, TimeoutError)
      else
        var t := s.(delivered := s.delivered + [v]);
        if env.form.Stream? then t.(phase := Yielded) else Leave(env, t, Completed)
    case Source(Never) => s
  }

  /** What the call of `next` that is raced comes to.  A promise has no end. */
  function Reacts(env: Env, s: State): Reaction
    requires s.pulled > 0
  {
    var r := env.source(s.pulled - 1, s.aborted);
    if env.form.Promise? && r.Done? then Never else r
  }

  function Step(env: Env, s: State, ev: Event): State {
    match ev
    case Tick(d) => if s.cleared then s else s.(elapsed := s.elapsed + d)
    case TimerFires =>
      if s.cleared || s.aborted || s.elapsed < env.timeout then s
      else s.(aborted := true, phase := if s.phase.Racing? then Settled(Timer) else s.phase)
    case TimerWins => if s.phase.Racing? && s.aborted then s.(phase := Settled(Timer)) else s
    case SourceSettles =>
      if !s.phase.Racing? || s.pulled == 0 || Reacts(env, s).Never? then s
      else s.(phase := Settled(Source(Reacts(env, s))))
    case Look => if s.phase.Settled? then Continue(env, s, s.phase.won) else s
    case Next => if s.phase.Fresh? || s.phase.Yielded? then s.(phase := Racing, pulled := s.pulled + 1) else s
    case Return =>
      if s.phase.Fresh? then s.(phase := Over(NotEntered)) else if s.phase.Yielded? then Leave(env, s, Returned) else s
    case Throw(e) =>
      if s.phase.Fresh? then s.(phase := Over(NotEntered)) else if s.phase.Yielded? then Caught(env, s, Failed(e)) else s
  }

  function Run(env: Env, evs: seq<Event>): State {
    if evs == [] then Start(env) else Step(env, Run(env, evs[..|evs| - 1]), evs[|evs| - 1])
  }

  // ---------------------------------------------------------------- invariant

  /** What was delivered is what the first calls of `next` gave while the controller was not aborted. */
  ghost predicate IsPrefix(env: Env, delivered: seq<Value>) {
    forall i | 0 <= i < |delivered| :: env.source(i, false) == Item(delivered[i])
  }

  /** How the stream stands or has ended, in terms of the underlying stream and the clock. */
  ghost predicate PhaseFits(env: Env, s: State) {
    var n := |s.delivered|;
    match s.phase
    case Fresh => env.form.Stream? && s.pulled == 0
    case Racing => s.pulled == n + 1
    case Settled(Timer) => s.pulled == n + 1 && s.aborted
    case Settled(Source(r)) =>
      && s.pulled == n + 1 && !r.Never? && (env.form.Promise? ==> !r.Done?)
      && (r == env.source(n, false) || (s.aborted && r == env.source(n, true)))
    case Yielded => env.form.Stream? && s.pulled == n > 0
    case Over(NotEntered) => env.form.Stream? && s.pulled == 0
    case Over(Completed) =>
      if env.form.Promise? then s.pulled == n == 1 && !Late(env, s)
      else s.pulled == n + 1 && (env.source(n, false).Done? || (s.aborted && env.source(n, true).Done?))
    case Over(Returned) => env.form.Stream? && s.pulled == n > 0
    case Over(TimeoutError) => s.aborted && s.pulled > 0 && (env.form.Promise? ==> n == 0)
    case Over(Failed(e)) =>
      && !Late(env, s)
      && if s.pulled == n then env.form.Stream? && n > 0 else s.pulled == n + 1 && env.source(n, false) == Fails(e)
  }

  ghost predicate Inv(env: Env, s: State) {
    && IsPrefix(env, s.delivered)
    && |s.delivered| <= s.pulled <= |s.delivered| + 1
    && (env.form.Promise? ==> s.pulled == 1)
    && PhaseFits(env, s)
    && s.cleared == (s.phase.Over? && s.phase != Over(NotEntered))
    && s.returned == (s.cleared && env.form.Stream?)
    && (s.aborted ==> s.elapsed >= env.timeout)
  }

  lemma PrefixStep(env: Env, s: State, ev: Event)
    requires Inv(env, s)
    ensures IsPrefix(env, Step(env, s, ev).delivered)
  {
  }

  lemma InvStep(env: Env, s: State, ev: Event)
    requires Inv(env, s)
    ensures Inv(env, Step(env, s, ev))
  {
    PrefixStep(env, s, ev);
  }

  // ---------------------------------------------------------------- main results

  /**
   Over every order of clock, timer, underlying stream and consumer: what was delivered is a prefix
   of the underlying stream, which is at most one call ahead; a stream that completed was told so
   by the call after the last value; one that failed did so in time, with the error of that call or
   of its consumer; a TimeoutError means that the controller is aborted, so that the wrapped
   function is told to stop, and this never happens before the timeout; and the timer is cleared and
   the iterator returned exactly on the exits from the generator's body.  The promise form is included.
   */
  lemma {:induction false} WrappedStream(env: Env, evs: seq<Event>)
    ensures Inv(env, Run(env, evs))
  {
    if evs != [] {
      WrappedStream(env, evs[..|evs| - 1]);
      InvStep(env, Run(env, evs[..|evs| - 1]), evs[|evs| - 1]);
    }
  }

  lemma RunLast(env: Env, evs: seq<Event>, front: seq<Event>, ev: Event)
    requires evs != [] && evs[..|evs| - 1] == front && evs[|evs| - 1] == ev
    ensures Run(env, evs) == Step(env, Run(env, front), ev)
  {
  }

  lemma RunOn(env: Env, evs: seq<Event>, more: seq<Event>)
    requires more != []
    ensures Run(env, evs + more) == Step(env, Run(env, evs + more[..|more| - 1]), more[|more| - 1])
  {
    LastOf(evs, more);
    RunLast(env, evs + more, evs + more[..|more| - 1], more[|more| - 1]);
  }

  lemma RunNone(env: Env, evs: seq<Event>)
    ensures Run(env, evs + []) == Run(env, evs)
  {
    assert evs + [] == evs;
  }

  /**
   From a late moment on: nothing was added; and if a race was on or settled then, it can only end
   by timeout or by the end of the underlying stream.
   */
  ghost predicate AfterLate(env: Env, s: State, t: State) {
    && Late(env, t)
    && t.delivered == s.delivered
    && (t.phase.Over? && !s.phase.Over? ==> !t.phase.outcome.Failed?)
    && (s.phase.Racing? || s.phase.Settled? ==>
          t.phase.Racing? || t.phase.Settled? || t.phase == Over(TimeoutError) || (env.form.Stream? && t.phase == Over(Completed)))
    && (s.phase.Over? ==> t.phase == s.phase)
  }

  lemma LateStep(env: Env, s: State, t: State, ev: Event)
    requires Inv(env, t) && AfterLate(env, s, t)
    ensures AfterLate(env, s, Step(env, t, ev))
  {
  }

  /** Once late, no value passes whatever happens next, and no error but a TimeoutError. */
  lemma {:induction false} LateIsFinal(env: Env, evs: seq<Event>, more: seq<Event>)
    requires Late(env, Run(env, evs))
    ensures AfterLate(env, Run(env, evs), Run(env, evs + more))
    decreases |more|
  {
    if more == [] {
      RunNone(env, evs);
    } else {
      var n := |more| - 1;
      LateIsFinal(env, evs, more[..n]);
      RunOn(env, evs, more);
      WrappedStream(env, evs + more[..n]);
      LateStep(env, Run(env, evs), Run(env, evs + more[..n]), more[n]);
    }
  }

  /** Call k of the underlying iterator, or the promise, settles neither before nor after an abort. */
  ghost predicate Hangs(env: Env, k: nat) {
    env.source(k, false).Never? && env.source(k, true).Never?
  }

  /** Call k is raced with the timer still to come, or the timer has won, or has ended the stream. */
  ghost predicate WaitsForTimer(s: State, k: nat) {
    && s.pulled == k + 1
    && ((s.phase.Racing? && !s.aborted) || s.phase == Settled(Timer) || s.phase == Over(TimeoutError))
  }

  lemma HangingStep(env: Env, s: State, k: nat, ev: Event)
    requires Hangs(env, k) && WaitsForTimer(s, k)
    ensures WaitsForTimer(Step(env, s, ev), k)
  {
  }

  /** The ways out: the timer, when the time is over, and then the next turn of the loop. */
  ghost predicate TimerLeads(env: Env, s: State) {
    && (s.phase.Settled? ==> Step(env, s, Look).phase == Over(TimeoutError))
    && (s.phase.Racing? && s.elapsed >= env.timeout ==> Step(env, Step(env, s, TimerFires), Look).phase == Over(TimeoutError))
  }

  lemma TimerLeadsOut(env: Env, s: State, k: nat)
    requires Inv(env, s) && WaitsForTimer(s, k)
    ensures TimerLeads(env, s)
  {
  }

  /** When the underlying stream never settles: once the timer fires, the only way on is to a TimeoutError, and it is open. */
  lemma {:induction false} HangingEnds(env: Env, evs: seq<Event>, more: seq<Event>, k: nat)
    requires Hangs(env, k) && Run(env, evs).phase.Racing? && !Run(env, evs).aborted && Run(env, evs).pulled == k + 1
    ensures WaitsForTimer(Run(env, evs + more), k) && TimerLeads(env, Run(env, evs + more))
    decreases |more|
  {
    WrappedStream(env, evs + more);
    if more == [] {
      RunNone(env, evs);
    } else {
      var n := |more| - 1;
      HangingEnds(env, evs, more[..n], k);
      RunOn(env, evs, more);
      HangingStep(env, Run(env, evs + more[..n]), k, more[n]);
    }
    TimerLeadsOut(env, Run(env, evs + more), k);
  }

  /** Whatever the underlying stream does: a race that is on when the time is over can end at once, with a TimeoutError. */
  lemma {:induction false} TimerEndsRace(env: Env, evs: seq<Event>)
    requires Run(env, evs).phase.Racing? && Run(env, evs).elapsed >= env.timeout
    ensures var s := Run(env, evs);
            var t := Step(env, Step(env, s, if s.aborted then TimerWins else TimerFires), Look);
            t.phase == Over(TimeoutError) && t.aborted && t.delivered == s.delivered
  {
    WrappedStream(env, evs);
  }

  lemma OverStep(env: Env, s: State, ev: Event)
    requires Inv(env, s) && s.phase.Over? && s.phase != Over(NotEntered)
    ensures Step(env, s, ev) == s
  {
  }

  /** A stream that was entered and has ended, or a promise, stays as it is: in particular one that ended in time never aborts the wrapped function. */
  lemma {:induction false} OverIsFinal(env: Env, evs: seq<Event>, more: seq<Event>)
    requires Run(env, evs).phase.Over? && Run(env, evs).phase != Over(NotEntered)
    ensures Run(env, evs + more) == Run(env, evs)
    decreases |more|
  {
    WrappedStream(env, evs);
    if more == [] {
      RunNone(env, evs);
    } else {
      var n := |more| - 1;
      OverIsFinal(env, evs, more[..n]);
      RunOn(env, evs, more);
      OverStep(env, Run(env, evs), more[n]);
    }
  }

  /**
   The next call: from a generator that is fresh or has just yielded, in time, the call that
   follows the values so far is made, and what it gives comes through: the value, the end, the error.
   */
  lemma {:induction false} NextDelivers(env: Env, evs: seq<Event>)
    requires var s := Run(env, evs);
             env.form.Stream? && (s.phase.Fresh? || s.phase.Yielded?) && !s.aborted && s.elapsed <= env.lag + env.timeout
    ensures var s := Run(env, evs);
            var asked := Step(env, s, Next);
            var t := Step(env, Step(env, asked, SourceSettles), Look);
            && asked == s.(phase := Racing, pulled := |s.delivered| + 1)
            && match env.source(|s.delivered|, false)
               case Item(v) => t == asked.(phase := Yielded, delivered := s.delivered + [v])
               case Done => t == asked.(phase := Over(Completed), cleared := true, returned := true)
               case Fails(e) => t == asked.(phase := Over(Failed(e)), cleared := true, returned := true)
               case Never => t == asked
  {
    WrappedStream(env, evs);
  }

  /** A race settled by the underlying stream, when the loop looks at it late: a value or an error ends in a TimeoutError and an abort. */
  lemma {:induction false} LateTurn(env: Env, evs: seq<Event>, r: Reaction)
    requires var s := Run(env, evs); s.phase == Settled(Source(r)) && (s.aborted || s.elapsed > env.lag + env.timeout) && r != Done
    ensures var s := Run(env, evs);
            Step(env, s, Look) == s.(phase := Over(TimeoutError), aborted := true, cleared := true, returned := env.form.Stream?)
  {
    WrappedStream(env, evs);
  }

  /** The consumer leaves a generator that has yielded: by a return, or by an error that is passed on in time. */
  lemma {:induction false} ConsumerLeaves(env: Env, evs: seq<Event>, e: Error)
    requires Run(env, evs).phase.Yielded?
    ensures var s := Run(env, evs);
            var late := s.aborted || s.elapsed > env.lag + env.timeout;
            && Step(env, s, Return) == s.(phase := Over(Returned), cleared := true, returned := true)
            && Step(env, s, Throw(e)) ==
               if late then s.(phase := Over(TimeoutError), aborted := true, cleared := true, returned := true)
               else s.(phase := Over(Failed(e)), cleared := true, returned := true)
  {
    WrappedStream(env, evs);
  }

  lemma Extend(env: Env, evs: seq<Event>, ev: Event) returns (all: seq<Event>)
    ensures Run(env, all) == Step(env, Run(env, evs), ev)
  {
    all := evs + [ev];
    assert all[..|all| - 1] == evs;
  }

  /** The end of the underlying stream is not checked for lateness: from any race it can be taken late, and the controller stays unaborted. */
  lemma {:induction false} LateEndIsNormal(env: Env, evs: seq<Event>)
    requires var s := Run(env, evs); env.form.Stream? && s.phase.Racing? && !s.aborted && env.source(|s.delivered|, false) == Done
    ensures exists all :: var t := Run(env, all); t.phase == Over(Completed) && t.elapsed > env.lag + env.timeout && !t.aborted
  {
    WrappedStream(env, evs);
    var all := Extend(env, evs, SourceSettles);
    all := Extend(env, all, Tick(env.lag + env.timeout + 1));
    all := Extend(env, all, Look);
    assert Run(env, all).phase == Over(Completed);
  }

  /** A generator stopped before its first `next` leaves the timer running, and the wrapped function is aborted later on. */
  lemma {:induction false} UnenteredAborts(env: Env, evs: seq<Event>)
    requires Run(env, evs).phase == Over(NotEntered)
    ensures var s := Step(env, Step(env, Run(env, evs), Tick(env.timeout)), TimerFires);
            s.phase == Over(NotEntered) && s.aborted && !s.cleared && !s.returned
  {
    WrappedStream(env, evs);
  }

  // ---------------------------------------------------------------- promises

  /** Neither has the timer fired nor has more time passed since the start than the timeout allows. */
  predicate InTime(env: Env, s: State) {
    !s.aborted && s.elapsed - env.lag <= env.timeout
  }

  /**
   Over every order of clock, timer and settlement: a wrapped promise is fulfilled only in time and
   with the value of the underlying one, rejected in time only with its error, and otherwise with a
   TimeoutError, which means that the controller is aborted; and the timer is cleared exactly when
   it settles.
   */
  lemma {:induction false} WrappedPromise(env: Env, evs: seq<Event>)
    requires env.form.Promise?
    ensures var s := Run(env, evs);
            && s.cleared == s.phase.Over?
            && match s.phase
               case Over(Completed) => InTime(env, s) && |s.delivered| == 1 && env.source(0, false) == Item(s.delivered[0])
               case Over(Failed(e)) => InTime(env, s) && s.delivered == [] && env.source(0, false) == Fails(e)
               case Over(o) => o == TimeoutError && s.aborted && s.delivered == []
               case phase => (phase.Racing? || phase.Settled?) && s.delivered == []
  {
    WrappedStream(env, evs);
  }

  /**
   The other way round: once its race is settled, the wrapped promise is rejected with a TimeoutError
   exactly when it is late, and in time takes over the value or the error of the underlying one.
   */
  lemma {:induction false} PromisePassesIff(env: Env, evs: seq<Event>)
    requires env.form.Promise? && Run(env, evs).phase.Settled?
    ensures var s, t := Run(env, evs), Step(env, Run(env, evs), Look);
            && (t.phase == Over(TimeoutError) <==> !InTime(env, s))
            && (t.phase == Over(Completed) <==> InTime(env, s) && env.source(0, false).Item?)
            && (t.phase.Over? && t.phase.outcome.Failed? <==> InTime(env, s) && env.source(0, false).Fails?)
            && (t.phase == Over(Completed) ==> t.delivered == [env.source(0, false).value])
            && (InTime(env, s) && env.source(0, false).Fails? ==> t.phase == Over(Failed(env.source(0, false).error)))
            && t.cleared && (t.aborted <==> s.aborted || !InTime(env, s))
  {
    WrappedStream(env, evs);
  }

  // ---------------------------------------------------------------- the class

  class Wrapper {
    const env: Env
    var elapsed: nat
    var aborted: bool
    var cleared: bool
    var phase: Phase
    var pulled: nat
    var delivered: seq<Value>
    var returned: bool

    ghost function Snapshot(): State
      reads this
    {
      State(elapsed, aborted, phase, pulled, delivered, cleared, returned)
    }

    constructor (env: Env)
      ensures this.env == env && Snapshot() == Start(env)
    {
      this.env := env;
      elapsed, aborted, cleared, returned := 0, false, false, false;
      phase, pulled, delivered := if env.form.Stream? then Fresh else Racing, if env.form.Stream? then 0 else 1, [];
    }

    /** True: throws. */
    method MaybeThrowTimeoutError() returns (throws: bool)
      modifies this`aborted
      ensures throws == old(Late(env, Snapshot())) && aborted == (old(aborted) || throws)
    {
      if aborted {
        return true;
      }
      if elapsed > env.lag + env.timeout {
        aborted := true; // controller.abort()
        return true;
      }
      return false;
    }

    method Finally(o: Outcome)
      modifies this
      ensures Snapshot() == Leave(env, old(Snapshot()), o)
    {
      cleared := true;
      returned := env.form.Stream?;
      phase := Over(o);
    }

    /** What was thrown may be the TimeoutError of the `try` block itself: then the check runs a second time. */
    method Catch(error: Outcome)
      modifies this
      ensures Snapshot() == Caught(env, old(Snapshot()), error)
    {
      var throws := MaybeThrowTimeoutError();
      Finally(if throws then TimeoutError else error);
    }

    /** The abort listener on the timer's controller. */
    method OnTimer()
      modifies this
      ensures Snapshot() == Step(env, old(Snapshot()), TimerFires)
    {
      if !cleared && !aborted && elapsed >= env.timeout {
        aborted := true;
        if phase.Racing? {
          phase := Settled(Timer);
        }
      }
    }

    /** The consumer's `next`: from the start of the body or behind its `yield` to the next await. */
    method NextValue()
      modifies this
      ensures Snapshot() == Step(env, old(Snapshot()), Event.Next)
    {
      if phase.Fresh? || phase.Yielded? {
        pulled := pulled + 1;
        phase := Racing;
      }
    }

    /** The body of the loop behind its await. */
    method Resume()
      requires env.form.Stream? && phase.Settled? && phase.won != Source(Never)
      modifies this
      ensures Snapshot() == Step(env, old(Snapshot()), Look)
    {
      match phase.won {
        case Timer => Catch(TimeoutError);
        case Source(Done) => Finally(Completed);
        case Source(Fails(e)) => Catch(Failed(e));
        case Source(Item(value)) =>
          var throws := MaybeThrowTimeoutError();
          if throws {
            Catch(TimeoutError);
          } else {
            delivered := delivered + [value];
            phase := Yielded;
          }
      }
    }

    /** The promise form behind its await. */
    method ResumePromise()
      requires env.form.Promise? && phase.Settled? && phase.won != Source(Never) && phase.won != Source(Done)
      modifies this
      ensures Snapshot() == Step(env, old(Snapshot()), Look)
    {
      match phase.won {
        case Timer => Catch(TimeoutError);
        case Source(Fails(e)) => Catch(Failed(e));
        case Source(Item(res)) =>
          var throws := MaybeThrowTimeoutError();
          if throws {
            Catch(TimeoutError);
          } else {
            delivered := delivered + [res];
            Finally(Completed);
          }
      }
    }

    /** The consumer's `return`. */
    method ReturnEarly()
      modifies this
      ensures Snapshot() == Step(env, old(Snapshot()), Event.Return)
    {
      if phase.Fresh? {
        phase := Over(NotEntered);
      } else if phase.Yielded? {
        Finally(Returned);
      }
    }

    /** The consumer's `throw`. */
    method ThrowInto(error: Error)
      modifies this
      ensures Snapshot() == Step(env, old(Snapshot()), Event.Throw(error))
    {
      if phase.Fresh? {
        phase := Over(NotEntered);
      } else if phase.Yielded? {
        Catch(Failed(error));
      }
    }
  }
}
