/**
 The preloader: calls that ask remote nodes to fetch a path, sharing the `stopped` flag, the
 list of pending requests and a cache of recent paths.  A call runs from one `await` to the
 next in one step; everything else may happen in between.  The cache may forget any path at
 any time (`Evict`), and `shuffle` may produce any order of the addresses.
 */
module Preloader {
  import opened Outcomes

  type Controller = nat

  /** A call that passed the gate: the URIs tried are the first `tried` of its shuffled list. */
  datatype Call = Call(path: string, uris: seq<string>, tried: nat, results: seq<bool>, pending: Option<Controller>)

  datatype State = State(
    stopped: bool, requests: seq<Controller>, cache: set<string>,
    calls: seq<Call>,
    aborted: set<Controller>,
    created: Controller) // controllers are numbered in order of creation, one for each attempt

  const INITIAL := State(true, [], {}, [], {}, 0)

  datatype Event =
    | Invoke(path: string, order: seq<string>)
    | Settle(call: nat, ok: bool)
    | Start | Stop
    | Evict(path: string)

  function Without(s: seq<Controller>, c: Controller): seq<Controller> {
    if s == [] then []
    else (if s[0] == c then [] else [s[0]]) + Without(s[1..], c)
  }

  /** The head of the loop over the URIs: give up when stopped or when none is left, else issue the next request. */
  function Attempt(s: State, i: nat): State
    requires i < |s.calls|
  {
    var c := s.calls[i];
    if c.tried >= |c.uris| || s.stopped then s
    else s.(requests := s.requests + [s.created], created := s.created + 1,
            calls := s.calls[i := c.(tried := c.tried + 1, pending := Some(s.created))])
  }

  function Step(api: seq<string>, s: State, ev: Event): State {
    match ev
    case Invoke(path, order) =>
      if multiset(order) != multiset(api) || s.stopped || path in s.cache then s
      else Attempt(s.(cache := s.cache + {path}, calls := s.calls + [Call(path, order, 0, [], None)]), |s.calls|)
    case Settle(i, ok) =>
      if i >= |s.calls| || s.calls[i].pending.None? then s
      else
        var c := s.calls[i];
        var s' := s.(requests := Without(s.requests, c.pending.value),
                     calls := s.calls[i := c.(pending := None, results := c.results + [ok])]);
        if ok then s' else Attempt(s', i)
    case Start => s.(stopped := false)
    case Stop => s.(stopped := true, requests := [], aborted := s.aborted + set r | r in s.requests)
    case Evict(path) => s.(cache := s.cache - {path})
  }

  function Run(api: seq<string>, s: State, evs: seq<Event>): State {
    if evs == [] then s else Step(api, Run(api, s, evs[..|evs| - 1]), evs[|evs| - 1])
  }

  // ---------------------------------------------------------------- invariant

  ghost predicate NoDuplicates<T>(s: seq<T>) {
    forall i, j | 0 <= i < j < |s| :: s[i] != s[j]
  }

  /** Call i is waiting for controller r. */
  ghost predicate Pending(s: State, i: nat, r: Controller) {
    i < |s.calls| && s.calls[i].pending == Some(r)
  }

  ghost predicate InFlight(s: State, r: Controller) {
    exists i: nat :: Pending(s, i, r)
  }

  /** Addresses are tried one at a time, in the order of the shuffled list, until one succeeds. */
  ghost predicate CallOk(api: seq<string>, c: Call) {
    && multiset(c.uris) == multiset(api)
    && c.tried <= |c.uris|
    && |c.results| + (if c.pending.Some? then 1 else 0) == c.tried
    && (forall k | 0 <= k < |c.results| - 1 :: !c.results[k])
    && (c.pending.Some? && c.results != [] ==> !c.results[|c.results| - 1])
  }

  ghost predicate Inv(api: seq<string>, s: State) {
    && NoDuplicates(s.requests)
    && (forall r: Controller :: r in s.requests <==> InFlight(s, r) && r !in s.aborted)
    && (forall i: nat, r: Controller | Pending(s, i, r) :: r < s.created)
    && (forall r: Controller | r in s.aborted :: r < s.created)
    && (forall i: nat, j: nat, r: Controller | Pending(s, i, r) && Pending(s, j, r) :: i == j)
    && (s.stopped ==> s.requests == [])
    && (forall i | 0 <= i < |s.calls| :: CallOk(api, s.calls[i]))
  }

  lemma {:induction false} WithoutIs(s: seq<Controller>, c: Controller)
    requires NoDuplicates(s)
    ensures NoDuplicates(Without(s, c))
    ensures forall r: Controller :: r in Without(s, c) <==> r in s && r != c
  {
    if s != [] {
      WithoutIs(s[1..], c);
      var rest := Without(s[1..], c);
      forall k | 0 <= k < |rest| ensures rest[k] != s[0] {
        assert rest[k] in s[1..];
      }
    }
  }

  lemma Snoc(s: seq<Controller>, c: Controller)
    requires NoDuplicates(s) && c !in s
    ensures NoDuplicates(s + [c])
  {
    forall i, j | 0 <= i < j < |s + [c]| ensures (s + [c])[i] != (s + [c])[j] {
      assert (s + [c])[i] == s[i] && s[i] in s;
    }
  }

  lemma AttemptKeepsInv(api: seq<string>, s: State, i: nat)
    requires Inv(api, s) && i < |s.calls| && s.calls[i].pending.None?
    requires s.calls[i].results != [] ==> !s.calls[i].results[|s.calls[i].results| - 1]
    ensures Inv(api, Attempt(s, i))
  {
    var s' := Attempt(s, i);
    if s' != s {
      forall r: Controller | r in s.requests ensures r < s.created {
        var j: nat :| Pending(s, j, r);
      }
      Snoc(s.requests, s.created);
      assert forall j: nat, r: Controller :: Pending(s', j, r) <==> if j == i then r == s.created else Pending(s, j, r);
      assert Pending(s', i, s.created);
      forall r: Controller ensures r in s'.requests <==> InFlight(s', r) && r !in s'.aborted {
        if InFlight(s, r) {
          var j: nat :| Pending(s, j, r);
          assert Pending(s', j, r);
        }
      }
    }
  }

  lemma SettleKeepsInv(api: seq<string>, s: State, i: nat, ok: bool)
    requires Inv(api, s)
    ensures Inv(api, Step(api, s, Settle(i, ok)))
  {
    if i < |s.calls| && s.calls[i].pending.Some? {
      var c := s.calls[i];
      var r0 := c.pending.value;
      var s' := s.(requests := Without(s.requests, r0), calls := s.calls[i := c.(pending := None, results := c.results + [ok])]);
      WithoutIs(s.requests, r0);
      assert Pending(s, i, r0);
      assert forall j: nat, r: Controller :: Pending(s', j, r) <==> j != i && Pending(s, j, r);
      forall r: Controller ensures r in s'.requests <==> InFlight(s', r) && r !in s'.aborted {
        if InFlight(s, r) {
          var j: nat :| Pending(s, j, r);
          assert j != i ==> Pending(s', j, r);
        }
      }
      if !ok {
        AttemptKeepsInv(api, s', i);
      }
    }
  }

  lemma InvokeKeepsInv(api: seq<string>, s: State, path: string, order: seq<string>)
    requires Inv(api, s)
    ensures Inv(api, Step(api, s, Invoke(path, order)))
  {
    if multiset(order) == multiset(api) && !s.stopped && path !in s.cache {
      var s' := s.(cache := s.cache + {path}, calls := s.calls + [Call(path, order, 0, [], None)]);
      assert forall j: nat, r: Controller :: Pending(s', j, r) <==> Pending(s, j, r);
      assert forall r: Controller :: InFlight(s', r) <==> InFlight(s, r);
      AttemptKeepsInv(api, s', |s.calls|);
    }
  }

  lemma SwitchKeepsInv(api: seq<string>, s: State, ev: Event)
    requires Inv(api, s) && !ev.Invoke? && !ev.Settle?
    ensures Inv(api, Step(api, s, ev))
  {
    var s' := Step(api, s, ev);
    assert forall j: nat, r: Controller :: Pending(s', j, r) <==> Pending(s, j, r);
    assert forall r: Controller :: InFlight(s', r) <==> InFlight(s, r);
  }

  lemma {:induction false} RunOnKeepsInv(api: seq<string>, start: State, evs: seq<Event>)
    requires Inv(api, start)
    ensures Inv(api, Run(api, start, evs))
  {
    if evs != [] {
      var s := Run(api, start, evs[..|evs| - 1]);
      RunOnKeepsInv(api, start, evs[..|evs| - 1]);
      match evs[|evs| - 1]
      case Invoke(path, order) => InvokeKeepsInv(api, s, path, order);
      case Settle(i, ok) => SettleKeepsInv(api, s, i, ok);
      case _ => SwitchKeepsInv(api, s, evs[|evs| - 1]);
    }
  }

  lemma RunKeepsInv(api: seq<string>, evs: seq<Event>)
    ensures Inv(api, Run(api, INITIAL, evs))
  {
    assert forall r: Controller :: !InFlight(INITIAL, r);
    RunOnKeepsInv(api, INITIAL, evs);
  }

  // ---------------------------------------------------------------- main results

  /**
   Under any interleaving, `requests` lists without duplicates exactly the controllers of the
   attempts in flight that were not aborted, each of one call; so it is empty while stopped
   and once all attempts have settled.
   */
  lemma {:induction false} RequestsExact(api: seq<string>, evs: seq<Event>)
    ensures var s := Run(api, INITIAL, evs);
            && NoDuplicates(s.requests)
            && (forall r: Controller :: r in s.requests <==> InFlight(s, r) && r !in s.aborted)
            && (forall i: nat, j: nat, r: Controller | Pending(s, i, r) && Pending(s, j, r) :: i == j)
            && (s.stopped ==> s.requests == [] && forall r: Controller | InFlight(s, r) :: r in s.aborted)
            && ((forall r: Controller :: !InFlight(s, r)) ==> s.requests == [])
  {
    RunKeepsInv(api, evs);
    var s := Run(api, INITIAL, evs);
    if s.requests != [] {
      assert s.requests[0] in s.requests;
    }
    if s.stopped {
      forall r: Controller | InFlight(s, r) ensures r in s.aborted {
        assert r !in s.requests;
      }
    }
  }

  /** After `stop` every attempt in flight is aborted, and until `start` no call issues another one or passes the gate. */
  lemma {:induction false} StopHalts(api: seq<string>, evs: seq<Event>, more: seq<Event>)
    requires Start !in more
    ensures var s := Step(api, Run(api, INITIAL, evs), Stop);
            var s' := Run(api, s, more);
            && (forall r: Controller | InFlight(s, r) :: r in s.aborted)
            && s'.stopped && s'.created == s.created && |s'.calls| == |s.calls| && s'.requests == []
    decreases |more|
  {
    var before := Run(api, INITIAL, evs);
    RunKeepsInv(api, evs);
    var s := Step(api, before, Stop);
    forall r: Controller | InFlight(s, r) ensures r in s.aborted {
      var i: nat :| Pending(s, i, r);
      assert Pending(before, i, r);
    }
    if more != [] {
      var most := more[..|more| - 1];
      assert Start !in most && more[|more| - 1] != Start;
      StopHalts(api, evs, most);
    }
  }

  lemma {:induction false} OccursOnce<T>(s: seq<T>, x: T)
    requires NoDuplicates(s)
    ensures multiset(s)[x] <= 1
  {
    if s != [] {
      assert s == [s[0]] + s[1..];
      OccursOnce(s[1..], x);
      if x == s[0] {
        assert x !in s[1..];
      }
    }
  }

  lemma OccursTwice<T>(s: seq<T>, i: nat, j: nat)
    requires i < j < |s| && s[i] == s[j]
    ensures multiset(s)[s[i]] >= 2
  {
    assert s == s[..i] + [s[i]] + s[i + 1..j] + [s[j]] + s[j + 1..];
  }

  lemma ShuffledDistinct<T>(s: seq<T>, shuffled: seq<T>)
    requires NoDuplicates(s) && multiset(shuffled) == multiset(s)
    ensures NoDuplicates(shuffled)
  {
    forall k, l | 0 <= k < l < |shuffled| ensures shuffled[k] != shuffled[l] {
      OccursOnce(s, shuffled[k]);
      if shuffled[k] == shuffled[l] {
        OccursTwice(shuffled, k, l);
      }
    }
  }

  /**
   A call makes at most one attempt per configured address, one at a time, and none after a
   success: when the configured addresses are distinct, so are the ones it has tried.
   */
  lemma {:induction false} AttemptsDistinct(api: seq<string>, evs: seq<Event>, i: nat)
    requires i < |Run(api, INITIAL, evs).calls|
    ensures var c := Run(api, INITIAL, evs).calls[i];
            && c.tried <= |c.uris|
            && multiset(c.uris[..c.tried]) <= multiset(api)
            && (NoDuplicates(api) ==> NoDuplicates(c.uris[..c.tried]))
            && c.tried == |c.results| + (if c.pending.Some? then 1 else 0)
            && (forall k | 0 <= k < |c.results| && c.results[k] :: k == |c.results| - 1 && c.tried == |c.results|)
  {
    RunKeepsInv(api, evs);
    var c := Run(api, INITIAL, evs).calls[i];
    assert CallOk(api, c);
    CallTriesDistinct(api, c);
  }

  lemma CallTriesDistinct(api: seq<string>, c: Call)
    requires CallOk(api, c)
    ensures multiset(c.uris[..c.tried]) <= multiset(api)
    ensures NoDuplicates(api) ==> NoDuplicates(c.uris[..c.tried])
  {
    assert c.uris == c.uris[..c.tried] + c.uris[c.tried..];
    if NoDuplicates(api) {
      ShuffledDistinct(api, c.uris);
    }
  }

  /** The call has succeeded, has tried every address, or is at it. */
  predicate Busy(api: seq<string>, c: Call) {
    c.pending.Some? || c.tried == |api| || (c.results != [] && c.results[|c.results| - 1])
  }

  lemma BusyStep(api: seq<string>, s: State, ev: Event, i: nat)
    requires ev != Stop && i < |Step(api, s, ev).calls| && (i < |s.calls| ==> !s.stopped)
    requires forall k | 0 <= k < |s.calls| :: |s.calls[k].uris| == |api| && s.calls[k].tried <= |api|
    requires i < |s.calls| ==> Busy(api, s.calls[i])
    ensures Busy(api, Step(api, s, ev).calls[i])
  {
    if ev.Invoke? && multiset(ev.order) == multiset(api) {
      assert |multiset(ev.order)| == |multiset(api)|;
    }
  }

  /**
   A call that was made and not followed by a stop has, when it comes to rest, succeeded or tried
   every address, however often the preloader was stopped and started before.
   */
  lemma {:induction false} Exhaustive(api: seq<string>, before: seq<Event>, after: seq<Event>, i: nat)
    requires var start := Run(api, INITIAL, before);
             Stop !in after && |start.calls| <= i < |Run(api, start, after).calls|
    ensures Busy(api, Run(api, Run(api, INITIAL, before), after).calls[i])
    decreases |after|
  {
    var start := Run(api, INITIAL, before);
    if after != [] {
      var most := after[..|after| - 1];
      var s := Run(api, start, most);
      assert Stop !in most && after[|after| - 1] != Stop;
      if i < |s.calls| {
        Exhaustive(api, before, most, i);
      }
      CallsMeanStarted(api, start, most);
      RunKeepsInv(api, before);
      RunOnKeepsInv(api, start, most);
      forall k | 0 <= k < |s.calls| ensures |s.calls[k].uris| == |api| && s.calls[k].tried <= |api| {
        assert CallOk(api, s.calls[k]);
        assert |multiset(s.calls[k].uris)| == |multiset(api)|;
      }
      BusyStep(api, s, after[|after| - 1], i);
    }
  }

  lemma {:induction false} CallsMeanStarted(api: seq<string>, start: State, evs: seq<Event>)
    requires Stop !in evs
    ensures var s := Run(api, start, evs); |s.calls| > |start.calls| ==> !s.stopped
  {
    if evs != [] {
      assert evs[|evs| - 1] != Stop;
      CallsMeanStarted(api, start, evs[..|evs| - 1]);
    }
  }

  /** Event k of the run is a call for the path that passes the cache gate. */
  ghost predicate Passes(api: seq<string>, evs: seq<Event>, k: nat, path: string) {
    && k < |evs| && evs[k].Invoke? && evs[k].path == path
    && |Run(api, INITIAL, evs[..k + 1]).calls| > |Run(api, INITIAL, evs[..k]).calls|
  }

  lemma {:induction false} CachedUntilEvicted(api: seq<string>, evs: seq<Event>, i: nat, j: nat, path: string)
    requires Passes(api, evs, i, path) && i < j <= |evs|
    requires forall k | i < k < j :: evs[k] != Evict(path)
    ensures path in Run(api, INITIAL, evs[..j]).cache
    decreases j
  {
    assert evs[..j][..j - 1] == evs[..j - 1] && evs[..j][j - 1] == evs[j - 1];
    if j > i + 1 {
      CachedUntilEvicted(api, evs, i, j - 1, path);
    }
  }

  lemma CachedBlocks(api: seq<string>, evs: seq<Event>, j: nat, path: string)
    requires j <= |evs| && path in Run(api, INITIAL, evs[..j]).cache
    ensures !Passes(api, evs, j, path)
  {
    if j < |evs| {
      assert evs[..j + 1][..j] == evs[..j] && evs[..j + 1][j] == evs[j];
    }
  }

  /** Two calls for the same path both pass the cache gate only if that path was evicted in between. */
  lemma {:induction false} GateOnce(api: seq<string>, evs: seq<Event>, i: nat, j: nat, path: string)
    requires Passes(api, evs, i, path) && Passes(api, evs, j, path) && i < j
    ensures exists k :: i < k < j && evs[k] == Evict(path)
  {
    if forall k | i < k < j :: evs[k] != Evict(path) {
      CachedUntilEvicted(api, evs, i, j, path);
      CachedBlocks(api, evs, j, path);
    }
  }

  // ---------------------------------------------------------------- the gate is exact

  /** Something happened before moment k and was not undone since. */
  ghost predicate Lasting(done: nat -> bool, undone: nat -> bool, k: nat) {
    exists i: nat :: i < k && done(i) && NotUndone(undone, i, k)
  }

  ghost predicate NotUndone(undone: nat -> bool, i: nat, k: nat) {
    forall j: nat | i < j < k :: !undone(j)
  }

  lemma LastingStep(done: nat -> bool, undone: nat -> bool, k: nat)
    ensures Lasting(done, undone, k + 1) <==> done(k) || (Lasting(done, undone, k) && !undone(k))
  {
    if done(k) {
      assert NotUndone(undone, k, k + 1);
    }
    if Lasting(done, undone, k) && !undone(k) {
      var i: nat :| i < k && done(i) && NotUndone(undone, i, k);
      assert NotUndone(undone, i, k + 1);
    }
    if Lasting(done, undone, k + 1) {
      var i: nat :| i < k + 1 && done(i) && NotUndone(undone, i, k + 1);
      assert NotUndone(undone, i, k);
    }
  }

  ghost function At(evs: seq<Event>, ev: Event): nat -> bool {
    (i: nat) => i < |evs| && evs[i] == ev
  }

  /** The last start or stop before event k is a start. */
  ghost predicate StartedBefore(evs: seq<Event>, k: nat) {
    Lasting(At(evs, Start), At(evs, Stop), k)
  }

  lemma StepAt(api: seq<string>, evs: seq<Event>, k: nat)
    requires k < |evs|
    ensures Run(api, INITIAL, evs[..k + 1]) == Step(api, Run(api, INITIAL, evs[..k]), evs[k])
  {
    assert evs[..k + 1][..k] == evs[..k];
  }

  lemma StoppedStep(api: seq<string>, s: State, ev: Event)
    ensures Step(api, s, ev).stopped <==> ev == Stop || (s.stopped && ev != Start)
  {
  }

  lemma {:induction false} StoppedIff(api: seq<string>, evs: seq<Event>, k: nat)
    requires k <= |evs|
    ensures Run(api, INITIAL, evs[..k]).stopped <==> !StartedBefore(evs, k)
  {
    if k > 0 {
      StoppedIff(api, evs, k - 1);
      StepAt(api, evs, k - 1);
      StoppedStep(api, Run(api, INITIAL, evs[..k - 1]), evs[k - 1]);
      LastingStep(At(evs, Start), At(evs, Stop), k - 1);
    }
  }

  ghost function PassedAt(api: seq<string>, evs: seq<Event>, path: string): nat -> bool {
    (i: nat) => Passes(api, evs, i, path)
  }

  /** A call for the path passed before event k, and the path was not evicted since. */
  ghost predicate Remembered(api: seq<string>, evs: seq<Event>, k: nat, path: string) {
    Lasting(PassedAt(api, evs, path), At(evs, Evict(path)), k)
  }

  /** A call grows the list of calls, and the cache by its path, exactly when it passes. */
  lemma GateStep(api: seq<string>, s: State, ev: Event, path: string)
    ensures var t := Step(api, s, ev);
            && (path in t.cache <==> (ev.Invoke? && ev.path == path && |t.calls| > |s.calls|) || (path in s.cache && ev != Evict(path)))
            && (ev.Invoke? && ev.path == path && multiset(ev.order) == multiset(api) ==>
                  (|t.calls| > |s.calls| <==> !s.stopped && path !in s.cache))
  {
  }

  lemma {:induction false} CachedIff(api: seq<string>, evs: seq<Event>, k: nat, path: string)
    requires k <= |evs|
    ensures path in Run(api, INITIAL, evs[..k]).cache <==> Remembered(api, evs, k, path)
  {
    if k > 0 {
      CachedIff(api, evs, k - 1, path);
      StepAt(api, evs, k - 1);
      GateStep(api, Run(api, INITIAL, evs[..k - 1]), evs[k - 1], path);
      LastingStep(PassedAt(api, evs, path), At(evs, Evict(path)), k - 1);
    }
  }

  /**
   A call passes exactly when the preloader is started and every earlier call for its path that
   passed was followed by an eviction of that path.
   */
  lemma {:induction false} PassesIff(api: seq<string>, evs: seq<Event>, k: nat, path: string)
    requires k < |evs| && evs[k].Invoke? && evs[k].path == path && multiset(evs[k].order) == multiset(api)
    ensures Passes(api, evs, k, path) <==> StartedBefore(evs, k) && EvictedSince(api, evs, k, path)
  {
    StoppedIff(api, evs, k);
    CachedIff(api, evs, k, path);
    StepAt(api, evs, k);
    GateStep(api, Run(api, INITIAL, evs[..k]), evs[k], path);
    RememberedIff(api, evs, k, path);
  }

  ghost predicate EvictedSince(api: seq<string>, evs: seq<Event>, k: nat, path: string) {
    forall i: nat | i < k && Passes(api, evs, i, path) :: EvictedBetween(evs, i, k, path)
  }

  ghost predicate EvictedBetween(evs: seq<Event>, i: nat, k: nat, path: string) {
    exists j: nat :: i < j < k && j < |evs| && evs[j] == Evict(path)
  }

  lemma RememberedIff(api: seq<string>, evs: seq<Event>, k: nat, path: string)
    requires k <= |evs|
    ensures Remembered(api, evs, k, path) <==> !EvictedSince(api, evs, k, path)
  {
    var done, undone := PassedAt(api, evs, path), At(evs, Evict(path));
    if Remembered(api, evs, k, path) {
      var i: nat :| i < k && done(i) && NotUndone(undone, i, k);
      assert !EvictedBetween(evs, i, k, path) by { NoneBetween(evs, i, k, path); }
    } else {
      forall i: nat | i < k && Passes(api, evs, i, path) ensures EvictedBetween(evs, i, k, path) {
        assert done(i) && !NotUndone(undone, i, k);
        var j: nat :| i < j < k && undone(j);
      }
    }
  }

  lemma NoneBetween(evs: seq<Event>, i: nat, k: nat, path: string)
    requires NotUndone(At(evs, Evict(path)), i, k)
    ensures !EvictedBetween(evs, i, k, path)
  {
    forall j: nat | i < j < k && j < |evs| ensures evs[j] != Evict(path) {
      assert !At(evs, Evict(path))(j);
    }
  }

  /** A call that passes has its request to the first address of its list in flight at once, when an address is configured. */
  lemma {:induction false} FirstRequest(api: seq<string>, evs: seq<Event>, k: nat, path: string)
    requires Passes(api, evs, k, path) && api != []
    ensures var s, before := Run(api, INITIAL, evs[..k + 1]), Run(api, INITIAL, evs[..k]);
            && s.calls == before.calls + [Call(path, evs[k].order, 1, [], Some(before.created))]
            && s.requests == before.requests + [before.created] && before.created !in s.aborted
  {
    StepAt(api, evs, k);
    RunKeepsInv(api, evs[..k]);
    assert |multiset(evs[k].order)| == |multiset(api)|;
  }

  /**
   What the settlement of an attempt leads to: its outcome is recorded and it leaves the list of
   requests; after a failure the next address is tried, unless none is left or the preloader is
   stopped; no other call is touched.
   */
  lemma {:induction false} Settled(api: seq<string>, evs: seq<Event>, i: nat, ok: bool)
    requires var s := Run(api, INITIAL, evs); i < |s.calls| && s.calls[i].pending.Some?
    ensures var s, t := Run(api, INITIAL, evs), Run(api, INITIAL, evs + [Settle(i, ok)]);
            var c := s.calls[i];
            var on := !ok && !s.stopped && c.tried < |c.uris|;
            && t.calls == s.calls[i := Call(c.path, c.uris, if on then c.tried + 1 else c.tried, c.results + [ok],
                                            if on then Some(s.created) else None)]
            && (forall r: Controller :: r in t.requests <==> (r in s.requests && Some(r) != c.pending) || (on && r == s.created))
            && t.stopped == s.stopped && t.cache == s.cache && t.aborted == s.aborted
  {
    RunKeepsInv(api, evs);
    var s := Run(api, INITIAL, evs);
    var all := evs + [Settle(i, ok)];
    assert all[..|evs|] == evs;
    assert Run(api, INITIAL, all) == Step(api, s, Settle(i, ok));
    WithoutIs(s.requests, s.calls[i].pending.value);
  }

  // ---------------------------------------------------------------- the preloader

  /** The variables shared by the closures, and the calls that are under way. */
  class Preload {
    const api: seq<string>
    var stopped: bool
    var requests: seq<Controller>
    var cache: set<string>
    var calls: seq<Call>
    var aborted: set<Controller>
    var created: Controller

    ghost function Snapshot(): State
      reads this
    {
      State(stopped, requests, cache, calls, aborted, created)
    }

    constructor (api: seq<string>)
      ensures this.api == api && Snapshot() == INITIAL
    {
      this.api := api;
      stopped, requests, cache := true, [], {};
      calls, aborted, created := [], {}, 0;
    }

    /** A call up to its first `await`; the order is what `shuffle` returns. */
    method Invoke(path: string, order: seq<string>)
      requires multiset(order) == multiset(api)
      modifies this
      ensures Snapshot() == Step(api, old(Snapshot()), Event.Invoke(path, order))
    {
      if stopped || path in cache {
        return;
      }
      cache := cache + {path};
      calls := calls + [Call(path, order, 0, [], None)];
      NextAttempt(|calls| - 1);
    }

    /** One turn of the loop over the URIs, up to `await preload(...)`. */
    method NextAttempt(i: nat)
      requires i < |calls|
      modifies this
      ensures Snapshot() == Attempt(old(Snapshot()), i)
    {
      var c := calls[i];
      if c.tried < |c.uris| && !stopped {
        var controller := created;
        created := created + 1;
        requests := requests + [controller];
        calls := calls[i := c.(tried := c.tried + 1, pending := Some(controller))];
      }
    }

    /** `await preload(...)` settles: the `finally` block, and on after a failure. */
    method Resume(i: nat, success: bool)
      requires i < |calls| && calls[i].pending.Some?
      modifies this
      ensures Snapshot() == Step(api, old(Snapshot()), Event.Settle(i, success))
    {
      var c := calls[i];
      requests := Without(requests, c.pending.value);
      calls := calls[i := c.(pending := None, results := c.results + [success])];
      if !success {
        NextAttempt(i);
      }
    }

    method StartPreloading()
      modifies this
      ensures Snapshot() == Step(api, old(Snapshot()), Event.Start)
    {
      stopped := false;
    }

    method StopPreloading()
      modifies this
      ensures Snapshot() == Step(api, old(Snapshot()), Event.Stop)
    {
      stopped := true;
      var k := 0;
      while k < |requests|
        invariant 0 <= k <= |requests|
        invariant aborted == old(aborted) + set r | r in requests[..k]
        invariant Snapshot() == old(Snapshot()).(stopped := true, aborted := aborted)
      {
        assert requests[..k + 1] == requests[..k] + [requests[k]];
        aborted := aborted + {requests[k]};
        k := k + 1;
      }
      assert requests[..k] == requests;
      requests := [];
    }
  }
}
