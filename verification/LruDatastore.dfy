/**
 A datastore with a cache in front of it.  A write changes the cache at once and the child when
 the child gets to it; the cache may forget any entries whenever it is written or read.
 */
module LruDatastore {
  import opened Outcomes
  import opened Sequences

  type Value(!new, ==)

  type Store = map<string, Value>

  /** A write the child has been asked for and has not finished. */
  datatype Write = Assign(key: string, value: Value) | Erase(key: string)

  /** The pending writes stand in the order of their calls. */
  datatype State = State(lru: Store, child: Store, pending: seq<Write>)

  /**
   The calls of `put` and `delete`, the child's settlement of the i-th pending write, reads, and
   what the cache forgets.  `putMany` and `deleteMany` call on each entry, as the child pulls it,
   like `put` and `delete`.
   */
  datatype Event =
    | Put(key: string, value: Value)
    | Delete(key: string)
    | Settle(i: nat, ok: bool)
    | Get(key: string)
    | Has(key: string)
    | Forget(keys: set<string>)

  function Apply(child: Store, w: Write): Store {
    if w.Assign? then child[w.key := w.value] else child - {w.key}
  }

  function Step(s: State, ev: Event): State {
    match ev
    case Put(k, v) => s.(lru := s.lru[k := v], pending := s.pending + [Assign(k, v)])
    case Delete(k) => s.(lru := s.lru - {k}, pending := s.pending + [Erase(k)])
    case Settle(i, ok) =>
      if i >= |s.pending| then s
      else s.(child := if ok then Apply(s.child, s.pending[i]) else s.child, pending := Without(s.pending, i))
    case Forget(ks) => s.(lru := s.lru - ks)
    case Get(_) => s
    case Has(_) => s
  }

  function Run(s: State, evs: seq<Event>): State {
    if evs == [] then s else Step(Run(s, evs[..|evs| - 1]), evs[|evs| - 1])
  }

  function Start(child: Store): State {
    State(map[], child, [])
  }

  function ReadChild(child: Store, k: string): Option<Value> {
    if k in child then Some(child[k]) else None
  }

  /** `get`; None: not found. */
  function Read(s: State, k: string): Option<Value> {
    if k in s.lru then Some(s.lru[k]) else ReadChild(s.child, k)
  }

  predicate Knows(s: State, k: string) {
    k in s.lru || k in s.child
  }

  // ---------------------------------------------------------------- what the child is going to hold

  predicate Writes(pending: seq<Write>, k: string) {
    exists i :: 0 <= i < |pending| && pending[i].key == k
  }

  /** What the child holds under k once the pending writes have gone through in the order of their calls. */
  function Final(child: Store, pending: seq<Write>, k: string): Option<Value> {
    if pending == [] then ReadChild(child, k)
    else
      var w := pending[|pending| - 1];
      if w.key == k then (if w.Assign? then Some(w.value) else None)
      else Final(child, pending[..|pending| - 1], k)
  }

  lemma {:induction false} FinalAppend(child: Store, a: seq<Write>, b: seq<Write>, k: string)
    ensures Final(child, a + b, k) == if Writes(b, k) then Final(map[], b, k) else Final(child, a, k)
    decreases |b|
  {
    if b == [] {
      assert a + b == a;
    } else {
      var n := |b| - 1;
      assert (a + b)[|a| + n] == b[n] && (a + b)[..|a| + n] == a + b[..n];
      FinalAppend(child, a, b[..n], k);
      if b[n].key == k {
        assert Writes(b, k);
      } else {
        assert Writes(b, k) <==> Writes(b[..n], k) by { WritesLast(b, k); }
        FinalAppend(map[], [], b[..n], k);
      }
    }
  }

  lemma WritesLast(b: seq<Write>, k: string)
    requires b != [] && b[|b| - 1].key != k
    ensures Writes(b, k) <==> Writes(b[..|b| - 1], k)
  {
    if Writes(b, k) {
      var i :| 0 <= i < |b| && b[i].key == k;
      assert b[..|b| - 1][i].key == k;
    }
    if Writes(b[..|b| - 1], k) {
      var i :| 0 <= i < |b| - 1 && b[..|b| - 1][i].key == k;
      assert b[i].key == k;
    }
  }

  lemma {:induction false} FinalWithoutWrites(child: Store, pending: seq<Write>, k: string)
    requires !Writes(pending, k)
    ensures Final(child, pending, k) == ReadChild(child, k)
  {
    FinalAppend(child, [], pending, k);
    assert [] + pending == pending;
  }

  /** Of which entry a cached value is: of a pending put, or the child's. */
  lemma {:induction false} FinalIsSomewhere(child: Store, pending: seq<Write>, k: string, v: Value)
    requires Final(child, pending, k) == Some(v)
    ensures Assign(k, v) in pending || ReadChild(child, k) == Some(v)
  {
    if pending != [] && pending[|pending| - 1].key != k {
      FinalIsSomewhere(child, pending[..|pending| - 1], k, v);
    }
  }

  /** Settling a write leaves what the other writes, or its own success, leave under its key. */
  lemma SettledFinal(child: Store, pending: seq<Write>, i: nat, ok: bool, k: string)
    requires i < |pending|
    ensures var w := pending[i];
            Final(if ok then Apply(child, w) else child, Without(pending, i), k) ==
            if w.key != k || Writes(pending[i + 1..], k) then Final(child, pending, k)
            else if Writes(pending[..i], k) then Final(child, pending[..i], k)
            else if ok then Final(child, pending, k)
            else ReadChild(child, k)
  {
    var w, early, late := pending[i], pending[..i], pending[i + 1..];
    var child' := if ok then Apply(child, w) else child;
    FinalAppend(child', early, late, k);
    assert pending == (early + [w]) + late;
    FinalAppend(child, early + [w], late, k);
    assert (early + [w])[..i] == early;
    FinalAppend(child', [], early, k);
    FinalAppend(child, [], early, k);
    assert [] + early == early;
  }

  // ---------------------------------------------------------------- agreement

  /** Every cached entry is what the child is going to hold. */
  ghost predicate Promised(s: State) {
    forall k | k in s.lru :: Final(s.child, s.pending, k) == Some(s.lru[k])
  }

  /**
   The settlement leaves the cached entry right: a later write of the key is still to come; or an
   earlier one is and leaves the same value; or this one succeeds, or the child has the value anyway.
   */
  predicate Harmless(s: State, i: nat, ok: bool)
    requires i < |s.pending|
  {
    var k := s.pending[i].key;
    || k !in s.lru
    || Writes(s.pending[i + 1..], k)
    || if Writes(s.pending[..i], k) then Final(s.child, s.pending[..i], k) == Some(s.lru[k])
       else ok || ReadChild(s.child, k) == Some(s.lru[k])
  }

  predicate Allowed(s: State, ev: Event) {
    ev.Settle? && ev.i < |s.pending| ==> Harmless(s, ev.i, ev.ok)
  }

  /** A call never breaks the agreement, and a settlement keeps it exactly when it is harmless. */
  lemma {:induction false} StepPromisedIff(s: State, ev: Event)
    requires Promised(s)
    ensures Promised(Step(s, ev)) <==> Allowed(s, ev)
  {
    var t := Step(s, ev);
    match ev
    case Put(k, v) => assert t.pending[..|s.pending|] == s.pending;
    case Delete(k) => assert t.pending[..|s.pending|] == s.pending;
    case Settle(i, ok) =>
      if i < |s.pending| {
        forall k | k in s.lru
          ensures Final(t.child, t.pending, k) == Some(s.lru[k]) <==> s.pending[i].key != k || Harmless(s, i, ok)
        {
          SettledFinal(s.child, s.pending, i, ok, k);
        }
      }
    case _ =>
  }

  /** When the child works on the writes of each key in the order of their calls, only a put that fails can do harm. */
  lemma InOrderHarmlessIff(s: State, i: nat, ok: bool)
    requires Promised(s) && i < |s.pending| && !Writes(s.pending[..i], s.pending[i].key)
    ensures var k := s.pending[i].key;
            Promised(Step(s, Settle(i, ok))) <==>
            ok || k !in s.lru || Writes(s.pending[i + 1..], k) || ReadChild(s.child, k) == Some(s.lru[k])
  {
    StepPromisedIff(s, Settle(i, ok));
  }

  /** Every settlement in the run is harmless where it happens. */
  ghost predicate AllAllowed(s: State, evs: seq<Event>) {
    evs == [] || (var n := |evs| - 1; AllAllowed(s, evs[..n]) && Allowed(Run(s, evs[..n]), evs[n]))
  }

  /** The agreement holds all the way through the run. */
  ghost predicate AlwaysPromised(s: State, evs: seq<Event>) {
    Promised(Run(s, evs)) && (evs == [] || AlwaysPromised(s, evs[..|evs| - 1]))
  }

  /** The agreement holds all the way through a run exactly when every settlement in it is harmless. */
  lemma {:induction false} RunPromisedIff(child: Store, evs: seq<Event>)
    ensures AlwaysPromised(Start(child), evs) <==> AllAllowed(Start(child), evs)
  {
    if evs != [] {
      var n := |evs| - 1;
      RunPromisedIff(child, evs[..n]);
      if Promised(Run(Start(child), evs[..n])) {
        StepPromisedIff(Run(Start(child), evs[..n]), evs[n]);
      }
    }
  }

  /** Every cached entry is the child's own or that of a pending put, as long as all settlements are harmless. */
  lemma {:induction false} CachedIsSomewhere(child: Store, evs: seq<Event>, k: string)
    requires AllAllowed(Start(child), evs) && k in Run(Start(child), evs).lru
    ensures var s := Run(Start(child), evs);
            Assign(k, s.lru[k]) in s.pending || ReadChild(s.child, k) == Some(s.lru[k])
  {
    RunPromisedIff(child, evs);
    var s := Run(Start(child), evs);
    FinalIsSomewhere(s.child, s.pending, k, s.lru[k]);
  }

  // ---------------------------------------------------------------- against the bare child

  /** The same calls and settlements on the bare child: its content and its pending writes. */
  function RunBare(child: Store, evs: seq<Event>): (Store, seq<Write>) {
    if evs == [] then (child, [])
    else
      var (c, p) := RunBare(child, evs[..|evs| - 1]);
      match evs[|evs| - 1]
      case Put(k, v) => (c, p + [Assign(k, v)])
      case Delete(k) => (c, p + [Erase(k)])
      case Settle(i, ok) => if i < |p| then (if ok then Apply(c, p[i]) else c, Without(p, i)) else (c, p)
      case _ => (c, p)
  }

  lemma {:induction false} ChildIsBare(child: Store, evs: seq<Event>)
    ensures var s := Run(Start(child), evs); RunBare(child, evs) == (s.child, s.pending)
  {
    if evs != [] {
      ChildIsBare(child, evs[..|evs| - 1]);
    }
  }

  /**
   Over any run in which every settlement is harmless, and whatever the cache forgets: where no
   write of a key is pending, `get` and `has` answer as the bare child does.
   */
  lemma {:induction false} Indistinguishable(child: Store, evs: seq<Event>, k: string)
    requires AllAllowed(Start(child), evs) && !Writes(RunBare(child, evs).1, k)
    ensures var s, bare := Run(Start(child), evs), RunBare(child, evs).0;
            Read(s, k) == ReadChild(bare, k) && (Knows(s, k) <==> k in bare)
  {
    RunPromisedIff(child, evs);
    ChildIsBare(child, evs);
    var s := Run(Start(child), evs);
    FinalWithoutWrites(s.child, s.pending, k);
  }

  /** At most one write of each key is in flight, and every put succeeds. */
  ghost predicate OneAtATime(s: State, evs: seq<Event>) {
    evs == [] || (var n := |evs| - 1; OneAtATime(s, evs[..n]) && Calm(Run(s, evs[..n]), evs[n]))
  }

  predicate Calm(s: State, ev: Event) {
    && (ev.Put? || ev.Delete? ==> !Writes(s.pending, ev.key))
    && (ev.Settle? && ev.i < |s.pending| && s.pending[ev.i].Assign? ==> ev.ok)
  }

  ghost predicate SingleFlight(pending: seq<Write>) {
    forall i, j | 0 <= i < j < |pending| :: pending[i].key != pending[j].key
  }

  lemma SettleSingle(pending: seq<Write>, i: nat)
    requires SingleFlight(pending) && i < |pending|
    ensures SingleFlight(Without(pending, i)) && !Writes(pending[..i], pending[i].key) && !Writes(pending[i + 1..], pending[i].key)
  {
  }

  /** A caller who awaits each write before the next one of its key, and whose puts succeed, never sees a difference afterwards. */
  lemma {:induction false} OneAtATimeIsAllowed(child: Store, evs: seq<Event>)
    requires OneAtATime(Start(child), evs)
    ensures AllAllowed(Start(child), evs)
    ensures Promised(Run(Start(child), evs)) && SingleFlight(Run(Start(child), evs).pending)
  {
    if evs != [] {
      var n := |evs| - 1;
      OneAtATimeIsAllowed(child, evs[..n]);
      CalmAllowed(Run(Start(child), evs[..n]), evs[n]);
      StepPromisedIff(Run(Start(child), evs[..n]), evs[n]);
    }
  }

  lemma CalmAllowed(s: State, ev: Event)
    requires Promised(s) && SingleFlight(s.pending) && Calm(s, ev)
    ensures Allowed(s, ev) && SingleFlight(Step(s, ev).pending)
  {
    if ev.Settle? && ev.i < |s.pending| {
      var i, k := ev.i, s.pending[ev.i].key;
      SettleSingle(s.pending, i);
      if k in s.lru {
        assert s.pending == (s.pending[..i] + [s.pending[i]]) + s.pending[i + 1..];
        FinalAppend(s.child, s.pending[..i] + [s.pending[i]], s.pending[i + 1..], k);
        assert s.pending[i].Assign?;
      }
    }
  }

  // ---------------------------------------------------------------- reading one's writes

  /** A put is visible at once, and after the child has stored it also when the cache has forgotten it. */
  lemma {:induction false} PutIsRead(s: State, k: string, v: Value)
    ensures var put := Step(s, Put(k, v));
            var stored := Step(put, Settle(|s.pending|, true));
            && Read(put, k) == Some(v) && Knows(put, k)
            && stored.pending == s.pending
            && Read(Step(stored, Forget({k})), k) == Some(v) && Knows(Step(stored, Forget({k})), k)
  {
    LastSettles(s.pending, Assign(k, v));
  }

  /** A deletion shows the child's value until the child has deleted it, and nothing afterwards. */
  lemma {:induction false} DeleteIsRead(s: State, k: string)
    ensures var deleted := Step(s, Delete(k));
            var gone := Step(deleted, Settle(|s.pending|, true));
            && Read(deleted, k) == (if k in s.child then Some(s.child[k]) else None)
            && gone.pending == s.pending && Read(gone, k) == None && !Knows(gone, k)
  {
    LastSettles(s.pending, Erase(k));
  }

  /** Reads and forgetting leave the child alone; other keys are not touched by a write. */
  lemma {:induction false} OthersKept(s: State, ev: Event, k: string)
    requires match ev case Put(l, _) => l != k case Delete(l) => l != k case Settle(i, _) => i < |s.pending| ==> s.pending[i].key != k
                      case Forget(ks) => k !in ks case _ => true
    ensures Read(Step(s, ev), k) == Read(s, k) && (Knows(Step(s, ev), k) <==> Knows(s, k))
  {
  }

  lemma LastSettles<T>(s: seq<T>, x: T)
    ensures (s + [x])[|s|] == x && Without(s + [x], |s|) == s
  {
  }

  // ---------------------------------------------------------------- where they part

  /** After a put that failed, `get` answers with a value the child does not have until the cache forgets it. */
  lemma {:induction false} FailedPutShows(s: State, k: string, v: Value)
    requires s.pending == [] && ReadChild(s.child, k) != Some(v)
    ensures var s' := Run(s, [Put(k, v), Settle(0, false)]);
            && s'.pending == []
            && Read(s', k) == Some(v) != ReadChild(s'.child, k) == ReadChild(s.child, k)
            && Read(Step(s', Forget({k})), k) == ReadChild(s.child, k)
  {
    var evs := [Put(k, v), Settle(0, false)];
    assert evs[..1] == [Put(k, v)] && evs[..1][..0] == [];
    assert Run(s, evs[..1]) == Step(s, Put(k, v));
  }

  /** Two puts of one key that succeed, the second before the first: cache and child differ with nothing left to settle. */
  lemma {:induction false} OvertakenPutShows(s: State, k: string, v0: Value, v1: Value)
    requires s.pending == [] && v0 != v1
    ensures var s' := Run(s, [Put(k, v0), Put(k, v1), Settle(1, true), Settle(0, true)]);
            s'.pending == [] && Read(s', k) == Some(v1) && ReadChild(s'.child, k) == Some(v0)
  {
    var evs := [Put(k, v0), Put(k, v1), Settle(1, true), Settle(0, true)];
    assert evs[..3][..2] == evs[..2] && evs[..2][..1] == evs[..1] && evs[..1] == [Put(k, v0)] && evs[..1][..0] == [];
    assert Run(s, evs[..1]) == Step(s, evs[0]);
    assert Run(s, evs[..2]) == Step(Step(s, evs[0]), evs[1]);
    assert Run(s, evs[..3]) == Step(Run(s, evs[..2]), evs[2]);
    assert Run(s, evs[..3]).pending == [Assign(k, v0)];
  }

  // ---------------------------------------------------------------- the class

  class LRUDatastore {
    var lru: Store
    var child: Store
    var pending: seq<Write>

    ghost function Snapshot(): State
      reads this
    {
      State(lru, child, pending)
    }

    constructor (child: Store)
      ensures Snapshot() == Start(child)
    {
      this.lru, this.child, this.pending := map[], child, [];
    }

    method PutValue(key: string, val: Value)
      modifies this
      ensures Snapshot() == Step(old(Snapshot()), Event.Put(key, val))
    {
      lru := lru[key := val];
      pending := pending + [Assign(key, val)];
    }

    method DeleteValue(key: string)
      modifies this
      ensures Snapshot() == Step(old(Snapshot()), Event.Delete(key))
    {
      lru := lru - {key};
      pending := pending + [Erase(key)];
    }

    /** The child is done with a write. */
    method ChildSettles(i: nat, ok: bool)
      requires i < |pending|
      modifies this
      ensures Snapshot() == Step(old(Snapshot()), Settle(i, ok))
    {
      var w := pending[i];
      pending := Without(pending, i);
      if ok {
        if w.Assign? {
          child := child[w.key := w.value];
        } else {
          child := child - {w.key};
        }
      }
    }

    method GetValue(key: string) returns (r: Option<Value>)
      ensures r == Read(Snapshot(), key)
    {
      if key in lru {
        return Some(lru[key]);
      }
      return ReadChild(child, key);
    }

    method HasValue(key: string) returns (r: bool)
      ensures r == Knows(Snapshot(), key)
    {
      if key in lru {
        return true;
      }
      return key in child;
    }

    /** `putMany` of a source of which the child pulls some entries, all of them unless it fails. */
    method PutMany(source: seq<(string, Value)>, pulled: nat)
      requires pulled <= |source|
      modifies this
      ensures Snapshot() == Run(old(Snapshot()), Puts(source[..pulled]))
    {
      var i := 0;
      ghost var evs := Puts(source[..pulled]);
      while i < pulled
        invariant 0 <= i <= pulled
        invariant Snapshot() == Run(old(Snapshot()), evs[..i])
      {
        assert evs[..i + 1][..i] == evs[..i];
        PutValue(source[i].0, source[i].1);
        i := i + 1;
      }
      assert evs[..i] == evs;
    }

    method DeleteMany(source: seq<string>, pulled: nat)
      requires pulled <= |source|
      modifies this
      ensures Snapshot() == Run(old(Snapshot()), Deletes(source[..pulled]))
    {
      var i := 0;
      ghost var evs := Deletes(source[..pulled]);
      while i < pulled
        invariant 0 <= i <= pulled
        invariant Snapshot() == Run(old(Snapshot()), evs[..i])
      {
        assert evs[..i + 1][..i] == evs[..i];
        DeleteValue(source[i]);
        i := i + 1;
      }
      assert evs[..i] == evs;
    }
  }

  function Puts(source: seq<(string, Value)>): (evs: seq<Event>)
    ensures |evs| == |source| && forall i | 0 <= i < |source| :: evs[i] == Event.Put(source[i].0, source[i].1)
  {
    seq(|source|, i requires 0 <= i < |source| => Event.Put(source[i].0, source[i].1))
  }

  function Deletes(source: seq<string>): (evs: seq<Event>)
    ensures |evs| == |source| && forall i | 0 <= i < |source| :: evs[i] == Event.Delete(source[i])
  {
    seq(|source|, i requires 0 <= i < |source| => Event.Delete(source[i]))
  }
}
