/**
 The hybrid block store: a local child store in front of the exchange (bitswap), which stores
 what it is given and what it fetches into the same child.
 */
module HybridBlockStore {
  import opened Outcomes
  import opened Sequences

  type Cid(!new, ==)
  type Block(!new)

  type Child = map<Cid, Block>

  /** What the exchange can fetch from the network. */
  type Network = Cid -> Option<Block>

  // ---------------------------------------------------------------- meaning

  function Put(child: Child, c: Cid, b: Block): Child {
    if c in child then child else child[c := b]
  }

  /** The child after a sequence of puts. */
  function PutAll(child: Child, pairs: seq<(Cid, Block)>): Child {
    if pairs == [] then child
    else
      var (c, b) := pairs[|pairs| - 1];
      Put(PutAll(child, pairs[..|pairs| - 1]), c, b)
  }

  /** What `get` resolves to; None: it rejects, or the exchange waits for the block in vain. */
  function Get(child: Child, started: bool, net: Network, c: Cid): Option<Block> {
    if c !in child && started then net(c)
    else if c in child then Some(child[c])
    else None
  }

  // ---------------------------------------------------------------- puts in flight

  /** The child and the puts that have looked their key up, found nothing and not written yet. */
  datatype State = State(child: Child, pending: seq<(Cid, Block)>)

  /** A put looks its key up; the i-th pending put writes; the exchange stores what it has fetched. */
  datatype Event = Look(c: Cid, b: Block) | Write(i: nat) | Fetched(c: Cid, b: Block)

  function Step(s: State, ev: Event): State {
    match ev
    case Look(c, b) => if c in s.child then s else s.(pending := s.pending + [(c, b)])
    case Write(i) =>
      if i < |s.pending| then State(s.child[s.pending[i].0 := s.pending[i].1], Without(s.pending, i)) else s
    case Fetched(c, b) => s.(child := s.child[c := b])
  }

  function Run(s: State, evs: seq<Event>): State {
    if evs == [] then s else Step(Run(s, evs[..|evs| - 1]), evs[|evs| - 1])
  }

  ghost predicate Keeps(before: Child, after: Child) {
    forall c | c in before :: c in after && after[c] == before[c]
  }

  /** A late write changes no binding exactly when its key is still free or holds the same block. */
  lemma WriteKeepsIff(s: State, i: nat)
    requires i < |s.pending|
    ensures var (c, b) := s.pending[i];
            Keeps(s.child, Step(s, Write(i)).child) <==> c !in s.child || s.child[c] == b
  {
    var (c, b) := s.pending[i];
    assert Step(s, Write(i)).child[c] == b;
  }

  /** Two puts of one key that both look it up before either writes: the later write replaces the earlier one. */
  lemma OverlappingPuts(child: Child, c: Cid, b0: Block, b1: Block)
    requires c !in child
    ensures var s := Run(State(child, []), [Look(c, b0), Look(c, b1), Write(0)]);
            s.child == child[c := b0] && Step(s, Write(0)) == State(child[c := b1], [])
  {
    var s := State(child, []);
    var evs := [Look(c, b0), Look(c, b1), Write(0)];
    assert evs[..1] == [Look(c, b0)] && evs[..2][..1] == evs[..1] && evs[..1][..0] == [];
    assert Run(s, evs[..1]) == State(child, [(c, b0)]);
    assert Run(s, evs[..2]) == State(child, [(c, b0), (c, b1)]);
    assert Run(s, evs) == State(child[c := b0], [(c, b1)]);
    assert child[c := b0][c := b1] == child[c := b1];
  }

  /** Every stored or pending block is the one its cid stands for. */
  ghost predicate Addressed(s: State, content: Cid -> Block) {
    && (forall c | c in s.child :: s.child[c] == content(c))
    && (forall p | p in s.pending :: p.1 == content(p.0))
  }

  ghost predicate AllAddressed(evs: seq<Event>, content: Cid -> Block) {
    forall i | 0 <= i < |evs| :: evs[i].Write? || evs[i].b == content(evs[i].c)
  }

  /** The key is readable, or its write is still to come. */
  ghost predicate Underway(s: State, c: Cid) {
    c in s.child || exists b :: (c, b) in s.pending
  }

  lemma {:induction false} StepUnderway(s: State, ev: Event, c: Cid)
    requires Underway(s, c) || (ev.Look? && ev.c == c)
    ensures Underway(Step(s, ev), c)
  {
    var t := Step(s, ev);
    if c !in t.child {
      if ev.Look? && ev.c == c {
        assert t.pending[|s.pending|] == (c, ev.b);
      } else {
        var b :| (c, b) in s.pending;
        var j :| 0 <= j < |s.pending| && s.pending[j] == (c, b);
        if ev.Write? && ev.i < |s.pending| {
          assert if j < ev.i then t.pending[j] == (c, b) else t.pending[j - 1] == (c, b);
        }
        assert (c, b) in t.pending;
      }
    }
  }

  lemma {:induction false} StepAddressed(s: State, ev: Event, content: Cid -> Block)
    requires Addressed(s, content) && AllAddressed([ev], content)
    ensures Addressed(Step(s, ev), content) && Keeps(s.child, Step(s, ev).child)
  {
    assert [ev][0] == ev;
  }

  /**
   As cids stand for contents: however any number of puts and fetches interleave, no binding ever
   changes, and every put is readable or has its write still to come, so all are readable once
   none is pending.
   */
  lemma {:induction false} InFlightKeeps(s: State, evs: seq<Event>, content: Cid -> Block)
    requires Addressed(s, content) && AllAddressed(evs, content)
    ensures Addressed(Run(s, evs), content) && Keeps(s.child, Run(s, evs).child)
    ensures forall i | 0 <= i < |evs| && evs[i].Look? :: Underway(Run(s, evs), evs[i].c)
  {
    if evs != [] {
      var n := |evs| - 1;
      InFlightKeeps(s, evs[..n], content);
      StepAddressed(Run(s, evs[..n]), evs[n], content);
      forall i | 0 <= i < |evs| && evs[i].Look? ensures Underway(Run(s, evs), evs[i].c) {
        assert i < n ==> evs[..n][i] == evs[i];
        StepUnderway(Run(s, evs[..n]), evs[n], evs[i].c);
      }
    }
  }

  /** Puts of the offered pairs, writes in any order, and fetched blocks that are offered and were not stored at the start. */
  ghost predicate Offered(child: Child, puts: set<(Cid, Block)>, ev: Event) {
    match ev
    case Look(c, b) => (c, b) in puts
    case Write(_) => true
    case Fetched(c, b) => (c, b) in puts && c !in child
  }

  ghost predicate Only(child: Child, puts: set<(Cid, Block)>, evs: seq<Event>) {
    forall i | 0 <= i < |evs| :: Offered(child, puts, evs[i])
  }

  /** What was stored at the start is unchanged; what is new or pending was offered, for keys not stored at the start. */
  ghost predicate Grows(child: Child, puts: set<(Cid, Block)>, s: State) {
    && Keeps(child, s.child)
    && (forall c | c in s.child && c !in child :: (c, s.child[c]) in puts)
    && (forall p | p in s.pending :: p in puts && p.0 !in child)
  }

  lemma StepGrows(child: Child, puts: set<(Cid, Block)>, s: State, ev: Event)
    requires Grows(child, puts, s) && Offered(child, puts, ev)
    ensures Grows(child, puts, Step(s, ev))
  {
  }

  /**
   Whatever blocks are put and however the puts interleave: no binding from before is changed, all
   new ones were put, and every put is readable or has its write still to come.
   */
  lemma {:induction false} PutsOnlyAdd(child: Child, puts: set<(Cid, Block)>, evs: seq<Event>)
    requires Only(child, puts, evs)
    ensures Grows(child, puts, Run(State(child, []), evs))
    ensures forall i | 0 <= i < |evs| && evs[i].Look? :: Underway(Run(State(child, []), evs), evs[i].c)
  {
    if evs != [] {
      var n := |evs| - 1;
      var s := Run(State(child, []), evs[..n]);
      PutsOnlyAdd(child, puts, evs[..n]);
      StepGrows(child, puts, s, evs[n]);
      forall i | 0 <= i < |evs| && evs[i].Look? ensures Underway(Run(State(child, []), evs), evs[i].c) {
        assert i < n ==> evs[..n][i] == evs[i];
        StepUnderway(s, evs[n], evs[i].c);
      }
    }
  }

  /** No step of the run changes a binding. */
  ghost predicate AlwaysKeeps(s: State, evs: seq<Event>) {
    evs == [] ||
    (var front := evs[..|evs| - 1]; AlwaysKeeps(s, front) && Keeps(Run(s, front).child, Run(s, evs).child))
  }

  /** One block for each key that is not stored yet. */
  ghost predicate OneBlockEach(child: Child, puts: set<(Cid, Block)>) {
    forall p, q | p in puts && q in puts && p.0 == q.0 && p.0 !in child :: p.1 == q.1
  }

  lemma StepKeeps(child: Child, puts: set<(Cid, Block)>, s: State, ev: Event)
    requires OneBlockEach(child, puts) && Grows(child, puts, s) && Offered(child, puts, ev)
    ensures Keeps(s.child, Step(s, ev).child)
  {
    if ev.Write? && ev.i < |s.pending| {
      WriteKeepsIff(s, ev.i);
    }
  }

  lemma {:induction false} RunKeeps(child: Child, puts: set<(Cid, Block)>, evs: seq<Event>)
    requires OneBlockEach(child, puts) && Only(child, puts, evs)
    ensures AlwaysKeeps(State(child, []), evs)
  {
    if evs != [] {
      var n := |evs| - 1;
      RunKeeps(child, puts, evs[..n]);
      PutsOnlyAdd(child, puts, evs[..n]);
      StepKeeps(child, puts, Run(State(child, []), evs[..n]), evs[n]);
    }
  }

  lemma OverlapKeeps(child: Child, c: Cid, b0: Block, b1: Block)
    requires c !in child && AlwaysKeeps(State(child, []), [Look(c, b0), Look(c, b1), Write(0), Write(0)])
    ensures b0 == b1
  {
    var evs := [Look(c, b0), Look(c, b1), Write(0), Write(0)];
    assert evs[..3] == [Look(c, b0), Look(c, b1), Write(0)];
    OverlappingPuts(child, c, b0, b1);
    assert Run(State(child, []), evs) == Step(Run(State(child, []), evs[..3]), Write(0));
    assert child[c := b0][c] == child[c := b1][c];
  }

  /**
   What a caller can check beforehand: the puts of a set of pairs change no binding at any step of
   any interleaving exactly when the set has no two blocks for a key that is not stored yet.
   */
  lemma {:induction false} PutsKeepIff(child: Child, puts: set<(Cid, Block)>)
    ensures (forall evs | Only(child, puts, evs) :: AlwaysKeeps(State(child, []), evs)) <==> OneBlockEach(child, puts)
  {
    if forall evs | Only(child, puts, evs) :: AlwaysKeeps(State(child, []), evs) {
      forall p, q | p in puts && q in puts && p.0 == q.0 && p.0 !in child ensures p.1 == q.1 {
        var evs := [Look(p.0, p.1), Look(q.0, q.1), Write(0), Write(0)];
        assert Only(child, puts, evs);
        OverlapKeeps(child, p.0, p.1, q.1);
      }
    }
    if OneBlockEach(child, puts) {
      forall evs | Only(child, puts, evs) ensures AlwaysKeeps(State(child, []), evs) {
        RunKeeps(child, puts, evs);
      }
    }
  }

  // ---------------------------------------------------------------- what is stored for good

  /** The pending puts of the key have this block. */
  ghost predicate PendingAgree(s: State, c: Cid, b: Block) {
    forall p | p in s.pending && p.0 == c :: p.1 == b
  }

  ghost predicate Holds(s: State, c: Cid, b: Block) {
    c in s.child && s.child[c] == b
  }

  /** Nothing is fetched for the key: the exchange is asked for missing blocks only. */
  ghost predicate NotFetched(evs: seq<Event>, c: Cid) {
    forall i | 0 <= i < |evs| :: evs[i].Fetched? ==> evs[i].c != c
  }

  lemma StepHolds(s: State, ev: Event, c: Cid, b: Block)
    requires Holds(s, c, b) && PendingAgree(s, c, b) && NotFetched([ev], c)
    ensures Holds(Step(s, ev), c, b) && PendingAgree(Step(s, ev), c, b)
  {
    assert [ev][0] == ev;
  }

  lemma {:induction false} RunHolds(s: State, evs: seq<Event>, c: Cid, b: Block)
    requires Holds(s, c, b) && PendingAgree(s, c, b) && NotFetched(evs, c)
    ensures Holds(Run(s, evs), c, b) && PendingAgree(Run(s, evs), c, b)
  {
    if evs != [] {
      var n := |evs| - 1;
      RunHolds(s, evs[..n], c, b);
      StepHolds(Run(s, evs[..n]), evs[n], c, b);
    }
  }

  lemma RunOne(s: State, ev: Event)
    ensures Run(s, [ev]) == Step(s, ev)
  {
    assert [ev][..0] == [];
  }

  /** A stored block stays, whatever puts are still to come, exactly when no put of its key with another block is pending. */
  lemma {:induction false} StoredForGoodIff(s: State, c: Cid, b: Block)
    requires Holds(s, c, b)
    ensures (forall evs | NotFetched(evs, c) :: Holds(Run(s, evs), c, b)) <==> PendingAgree(s, c, b)
  {
    if forall evs | NotFetched(evs, c) :: Holds(Run(s, evs), c, b) {
      forall p | p in s.pending && p.0 == c ensures p.1 == b {
        var i :| 0 <= i < |s.pending| && s.pending[i] == p;
        assert NotFetched([Write(i)], c);
        RunOne(s, Write(i));
        assert Step(s, Write(i)).child[c] == p.1;
      }
    }
    if PendingAgree(s, c, b) {
      forall evs | NotFetched(evs, c) ensures Holds(Run(s, evs), c, b) {
        RunHolds(s, evs, c, b);
      }
    }
  }

  // ---------------------------------------------------------------- puts one after the other

  /** Each put writes before the next one looks up; a `Write` with nothing pending has no effect. */
  function Sequential(pairs: seq<(Cid, Block)>): (evs: seq<Event>)
    ensures |evs| == 2 * |pairs|
    ensures forall i | 0 <= i < |pairs| :: evs[2 * i] == Look(pairs[i].0, pairs[i].1) && evs[2 * i + 1] == Write(0)
  {
    if pairs == [] then []
    else
      var n := |pairs| - 1;
      Sequential(pairs[..n]) + [Look(pairs[n].0, pairs[n].1), Write(0)]
  }

  /** With nothing in between, look-up and write are one `Put`. */
  lemma PutAtOnce(child: Child, c: Cid, b: Block)
    ensures Step(Step(State(child, []), Look(c, b)), Write(0)) == State(Put(child, c, b), [])
  {
    assert Without([] + [(c, b)], 0) == [];
  }

  lemma RunTwo(s: State, front: seq<Event>, e0: Event, e1: Event)
    ensures Run(s, front + [e0, e1]) == Step(Step(Run(s, front), e0), e1)
  {
    var evs := front + [e0, e1];
    assert evs[..|evs| - 1] == front + [e0];
    assert (front + [e0])[..|front|] == front;
  }

  lemma {:induction false} SequentialIsPutAll(child: Child, pairs: seq<(Cid, Block)>)
    ensures Run(State(child, []), Sequential(pairs)) == State(PutAll(child, pairs), [])
  {
    if pairs != [] {
      var n := |pairs| - 1;
      SequentialIsPutAll(child, pairs[..n]);
      RunTwo(State(child, []), Sequential(pairs[..n]), Look(pairs[n].0, pairs[n].1), Write(0));
      PutAtOnce(PutAll(child, pairs[..n]), pairs[n].0, pairs[n].1);
    }
  }

  ghost function AllOf(pairs: seq<(Cid, Block)>): set<(Cid, Block)> {
    set p | p in pairs
  }

  lemma SequentialOnly(child: Child, pairs: seq<(Cid, Block)>)
    ensures Only(child, AllOf(pairs), Sequential(pairs))
  {
    var evs := Sequential(pairs);
    forall i | 0 <= i < |evs| ensures Offered(child, AllOf(pairs), evs[i]) {
      assert i == 2 * (i / 2) || i == 2 * (i / 2) + 1;
      assert pairs[i / 2] in pairs;
    }
  }

  /** A put never changes a binding, and the block can be read afterwards, with the exchange running or not. */
  lemma {:induction false} PutAllKeeps(child: Child, pairs: seq<(Cid, Block)>, net: Network, started: bool)
    ensures var child' := PutAll(child, pairs);
            && (forall c | c in child :: c in child' && child'[c] == child[c])
            && (forall c | c in child' :: c in child || exists i :: 0 <= i < |pairs| && pairs[i] == (c, child'[c]))
            && (forall i | 0 <= i < |pairs| :: Get(child', started, net, pairs[i].0).Some?)
  {
    SequentialIsPutAll(child, pairs);
    SequentialOnly(child, pairs);
    PutsOnlyAdd(child, AllOf(pairs), Sequential(pairs));
    var child' := PutAll(child, pairs);
    forall i | 0 <= i < |pairs| ensures Get(child', started, net, pairs[i].0).Some? {
      assert Sequential(pairs)[2 * i] == Look(pairs[i].0, pairs[i].1);
    }
  }

  lemma PutAllExtends(child: Child, pairs: seq<(Cid, Block)>, k: nat)
    requires k <= |pairs|
    ensures Keeps(PutAll(child, pairs[..k]), PutAll(child, pairs))
    decreases |pairs|
  {
    var n := |pairs| - 1;
    if k <= n {
      assert pairs[..n][..k] == pairs[..k];
      PutAllExtends(child, pairs[..n], k);
    } else {
      assert pairs[..k] == pairs;
    }
  }

  /** Of several blocks for one cid, each stored before the next is looked up, the first is kept. */
  lemma {:induction false} FirstPutWins(child: Child, pairs: seq<(Cid, Block)>, i: nat)
    requires i < |pairs| && pairs[i].0 !in child && forall j | 0 <= j < i :: pairs[j].0 != pairs[i].0
    ensures pairs[i].0 in PutAll(child, pairs) && PutAll(child, pairs)[pairs[i].0] == pairs[i].1
  {
    PutAllKeeps(child, pairs[..i], _ => None, false);
    assert pairs[..i + 1][..i] == pairs[..i];
    PutAllExtends(child, pairs, i + 1);
  }

  // ---------------------------------------------------------------- routing of many requests

  /** What a request finds when it is routed: the blocks at hand, and whether the exchange runs. */
  datatype Moment = Moment(local: set<Cid>, started: bool)

  predicate ToExchange(m: Moment, c: Cid) {
    c !in m.local && m.started
  }

  /** The requests that go one way, in order. */
  function Routed(cids: seq<Cid>, at: seq<Moment>, exchange: bool): seq<Cid>
    requires |cids| == |at|
  {
    if cids == [] then []
    else
      var n := |cids| - 1;
      Routed(cids[..n], at[..n], exchange) + if ToExchange(at[n], cids[n]) == exchange then [cids[n]] else []
  }

  /** Each queue keeps the order of the requests. */
  lemma {:induction false} RoutedInOrder(a: seq<Cid>, at: seq<Moment>, b: seq<Cid>, bt: seq<Moment>, exchange: bool)
    requires |a| == |at| && |b| == |bt|
    ensures Routed(a + b, at + bt, exchange) == Routed(a, at, exchange) + Routed(b, bt, exchange)
  {
    if b == [] {
      assert a + b == a && at + bt == at;
    } else {
      var n := |b| - 1;
      RoutedInOrder(a, at, b[..n], bt[..n], exchange);
      assert (a + b)[..|a + b| - 1] == a + b[..n] && (at + bt)[..|a + b| - 1] == at + bt[..n];
    }
  }

  /** One request goes to the exchange exactly when it misses its block while the exchange runs. */
  lemma RoutedOne(c: Cid, m: Moment)
    ensures Routed([c], [m], true) == if m.started && c !in m.local then [c] else []
    ensures Routed([c], [m], false) == if m.started && c !in m.local then [] else [c]
  {
    assert Routed([c][..0], [m][..0], true) == [] && Routed([c][..0], [m][..0], false) == [];
  }

  /** Every request enters exactly one of the two queues, whatever changes while they are routed. */
  lemma {:induction false} RoutingConserves(cids: seq<Cid>, at: seq<Moment>)
    requires |cids| == |at|
    ensures multiset(Routed(cids, at, true)) + multiset(Routed(cids, at, false)) == multiset(cids)
  {
    if cids != [] {
      var n := |cids| - 1;
      RoutingConserves(cids[..n], at[..n]);
      assert cids == cids[..n] + [cids[n]];
    }
  }

  /** What goes to the exchange was not at hand and found the exchange running. */
  lemma {:induction false} ExchangeOnlyMissing(cids: seq<Cid>, at: seq<Moment>, c: Cid)
    requires |cids| == |at| && c in Routed(cids, at, true)
    ensures exists i :: 0 <= i < |cids| && cids[i] == c && c !in at[i].local && at[i].started
  {
    var n := |cids| - 1;
    if c in Routed(cids[..n], at[..n], true) {
      ExchangeOnlyMissing(cids[..n], at[..n], c);
      var i :| 0 <= i < n && cids[..n][i] == c && c !in at[..n][i].local && at[..n][i].started;
      assert cids[i] == c;
    }
  }

  /** m is some interleaving of a and b. */
  ghost predicate IsMerge<T>(a: seq<T>, b: seq<T>, m: seq<T>)
    decreases |m|
  {
    if m == [] then a == [] && b == []
    else
      || (a != [] && a[0] == m[0] && IsMerge(a[1..], b, m[1..]))
      || (b != [] && b[0] == m[0] && IsMerge(a, b[1..], m[1..]))
  }

  lemma {:induction false} MergeConserves<T>(a: seq<T>, b: seq<T>, m: seq<T>)
    requires IsMerge(a, b, m)
    ensures multiset(m) == multiset(a) + multiset(b)
    decreases |m|
  {
    if m != [] {
      assert m == [m[0]] + m[1..];
      if a != [] && a[0] == m[0] && IsMerge(a[1..], b, m[1..]) {
        MergeConserves(a[1..], b, m[1..]);
        assert a == [a[0]] + a[1..];
      } else {
        MergeConserves(a, b[1..], m[1..]);
        assert b == [b[0]] + b[1..];
      }
    }
  }

  lemma MapAgree<A, B>(f: A -> B, g: A -> B, s: seq<A>)
    requires forall i | 0 <= i < |s| :: f(s[i]) == g(s[i])
    ensures Map(f, s) == Map(g, s)
  {
  }

  /** The rest of a sequence when one occurrence is taken out. */
  lemma TakeOut<A>(s: seq<A>, k: nat)
    requires k < |s|
    ensures multiset(s) == multiset(s[..k] + s[k + 1..]) + multiset{s[k]}
  {
    assert s == s[..k] + [s[k]] + s[k + 1..];
  }

  lemma Cancel<A>(m: multiset<A>, n: multiset<A>, x: A)
    requires m + multiset{x} == n + multiset{x}
    ensures m == n
  {
    assert m == (m + multiset{x}) - multiset{x};
    assert n == (n + multiset{x}) - multiset{x};
  }

  lemma MapTakeOut<A, B>(f: A -> B, s: seq<A>, k: nat)
    requires k < |s|
    ensures multiset(Map(f, s)) == multiset(Map(f, Without(s, k))) + multiset{f(s[k])}
  {
    TakeOut(Map(f, s), k);
    assert Map(f, s)[..k] + Map(f, s)[k + 1..] == Map(f, Without(s, k));
  }

  lemma RestRearranged<A>(a: seq<A>, b: seq<A>) returns (k: nat)
    requires a != [] && multiset(a) == multiset(b)
    ensures k < |b| && b[k] == a[0] && multiset(Without(a, 0)) == multiset(Without(b, k))
  {
    assert a[0] in multiset(b);
    k :| 0 <= k < |b| && b[k] == a[0];
    TakeOut(a, 0);
    TakeOut(b, k);
    Cancel(multiset(Without(a, 0)), multiset(Without(b, k)), a[0]);
  }

  /** Mapping a rearrangement rearranges the results. */
  lemma {:induction false} MapRearranged<A, B>(f: A -> B, a: seq<A>, b: seq<A>)
    requires multiset(a) == multiset(b)
    ensures multiset(Map(f, a)) == multiset(Map(f, b))
    decreases |a|
  {
    if a == [] {
      assert |multiset(b)| == 0;
    } else {
      var k := RestRearranged(a, b);
      MapRearranged(f, Without(a, 0), Without(b, k));
      MapTakeOut(f, a, 0);
      MapTakeOut(f, b, k);
    }
  }

  /** What the child alone, and what the exchange alone, answers. */
  function FromChild(child: Child): Cid -> Option<Block> {
    c => if c in child then Some(child[c]) else None
  }

  function Getter(child: Child, started: bool, net: Network): Cid -> Option<Block> {
    c => Get(child, started, net, c)
  }

  /** What becomes of a request by the moment at which it was routed. */
  function AnswerAt(later: Child, net: Network, m: Moment, c: Cid): Option<Block> {
    if ToExchange(m, c) then net(c) else FromChild(later)(c)
  }

  function AnswersAt(later: Child, net: Network, cids: seq<Cid>, at: seq<Moment>): (r: seq<Option<Block>>)
    requires |cids| == |at|
    ensures |r| == |cids| && forall i | 0 <= i < |cids| :: r[i] == AnswerAt(later, net, at[i], cids[i])
  {
    seq(|cids|, i requires 0 <= i < |cids| => AnswerAt(later, net, at[i], cids[i]))
  }

  lemma {:induction false} QueuesAnswer(later: Child, net: Network, cids: seq<Cid>, at: seq<Moment>)
    requires |cids| == |at|
    ensures multiset(AnswersAt(later, net, cids, at)) ==
            multiset(Map(net, Routed(cids, at, true))) + multiset(Map(FromChild(later), Routed(cids, at, false)))
  {
    if cids != [] {
      var n := |cids| - 1;
      QueuesAnswer(later, net, cids[..n], at[..n]);
      var x := AnswerAt(later, net, at[n], cids[n]);
      assert AnswersAt(later, net, cids, at) == AnswersAt(later, net, cids[..n], at[..n]) + [x];
      if ToExchange(at[n], cids[n]) {
        MapSnoc(net, Routed(cids[..n], at[..n], true), cids[n]);
        assert Routed(cids, at, false) == Routed(cids[..n], at[..n], false);
      } else {
        MapSnoc(FromChild(later), Routed(cids[..n], at[..n], false), cids[n]);
        assert Routed(cids, at, true) == Routed(cids[..n], at[..n], true);
      }
    }
  }

  lemma MapSnoc<A, B>(f: A -> B, s: seq<A>, x: A)
    ensures Map(f, s + [x]) == Map(f, s) + [f(x)]
  {
  }

  /** What the consumer receives of a stream of answers: the program ends it at the first one that fails. */
  function Received(answers: seq<Option<Block>>): (blocks: seq<Block>)
    ensures |blocks| <= |answers| && forall i | 0 <= i < |blocks| :: answers[i] == Some(blocks[i])
    ensures |blocks| < |answers| ==> answers[|blocks|] == None
  {
    if answers == [] || answers[0] == None then [] else [answers[0].value] + Received(answers[1..])
  }

  ghost predicate NoneFails(answers: seq<Option<Block>>) {
    None !in multiset(answers)
  }

  function Wrap(blocks: seq<Block>): (r: seq<Option<Block>>)
    ensures |r| == |blocks| && forall i | 0 <= i < |blocks| :: r[i] == Some(blocks[i])
  {
    seq(|blocks|, i requires 0 <= i < |blocks| => Some(blocks[i]))
  }

  lemma WrapReceived(answers: seq<Option<Block>>)
    ensures Wrap(Received(answers)) == answers[..|Received(answers)|]
  {
  }

  lemma PrefixWithin<A>(s: seq<A>, n: nat)
    requires n <= |s|
    ensures multiset(s[..n]) <= multiset(s)
  {
    assert s == s[..n] + s[n..];
  }

  lemma ReceivedAllIff(answers: seq<Option<Block>>)
    ensures |Received(answers)| == |answers| <==> NoneFails(answers)
  {
    var n := |Received(answers)|;
    if n < |answers| {
      assert answers[n] in multiset(answers);
    } else {
      assert forall x | x in multiset(answers) :: x in answers;
    }
  }

  lemma ReceivedIs(answers: seq<Option<Block>>)
    ensures multiset(Wrap(Received(answers))) <= multiset(answers)
    ensures |Received(answers)| == |answers| <==> NoneFails(answers)
    ensures NoneFails(answers) ==> multiset(Wrap(Received(answers))) == multiset(answers)
  {
    WrapReceived(answers);
    PrefixWithin(answers, |Received(answers)|);
    ReceivedAllIff(answers);
    assert answers[..|answers|] == answers;
  }

  /**
   Whatever the store and the exchange do meanwhile, however the exchange orders its answers and
   however the two streams are merged: the answers are a rearrangement of what each request comes to
   by the moment at which it was routed; the consumer receives only such blocks, and the stream ends
   without an error exactly when no request fails, and then it has brought them all.
   */
  lemma {:induction false} GetManyAnswers(later: Child, net: Network, cids: seq<Cid>, at: seq<Moment>,
                                          order: seq<Cid>, merged: seq<Option<Block>>)
    requires |cids| == |at| && multiset(order) == multiset(Routed(cids, at, true))
    requires IsMerge(Map(net, order), Map(FromChild(later), Routed(cids, at, false)), merged)
    ensures Brings(merged, AnswersAt(later, net, cids, at))
  {
    MergeConserves(Map(net, order), Map(FromChild(later), Routed(cids, at, false)), merged);
    MapRearranged(net, order, Routed(cids, at, true));
    QueuesAnswer(later, net, cids, at);
    ReceivedIs(merged);
  }

  /** The stream of answers rearranges the wanted ones, and brings the consumer them all unless one fails. */
  ghost predicate Brings(merged: seq<Option<Block>>, wanted: seq<Option<Block>>) {
    && multiset(merged) == multiset(wanted)
    && multiset(Wrap(Received(merged))) <= multiset(wanted)
    && (|Received(merged)| == |merged| <==> NoneFails(wanted))
    && (NoneFails(wanted) ==> multiset(Wrap(Received(merged))) == multiset(wanted))
  }

  /** The store has grown by blocks the exchange can fetch. */
  ghost predicate Grown(child: Child, later: Child, net: Network) {
    Keeps(child, later) && forall c | c in later && c !in child :: net(c) == Some(later[c])
  }

  /** A request answers as `get` would have at the start exactly unless it misses a block that could be had while the exchange is stopped. */
  lemma AnswerIsGetIff(child: Child, later: Child, net: Network, m: Moment, c: Cid)
    requires Grown(child, later, net) && child.Keys <= m.local <= later.Keys
    ensures AnswerAt(later, net, m, c) == Get(child, true, net, c) <==> m.started || c in later || net(c) == None
  {
  }

  /** Nothing is deleted while requests are routed, and none misses a block that could be had while the exchange is stopped. */
  ghost predicate Served(child: Child, later: Child, net: Network, cids: seq<Cid>, at: seq<Moment>) {
    && |cids| == |at|
    && forall i | 0 <= i < |cids| ::
         && child.Keys <= at[i].local <= later.Keys
         && (at[i].started || cids[i] in later || net(cids[i]) == None)
  }

  /**
   Then, although what the exchange fetches, for this call or another, enters the store between the
   requests, and although the exchange may start or stop: `getMany` answers with a rearrangement of
   what `get` on each cid would have answered at the start, failures included, up to the first failure.
   */
  lemma {:induction false} GetManyIsGet(child: Child, later: Child, net: Network, cids: seq<Cid>, at: seq<Moment>,
                                        order: seq<Cid>, merged: seq<Option<Block>>)
    requires Served(child, later, net, cids, at) && Grown(child, later, net)
    requires multiset(order) == multiset(Routed(cids, at, true))
    requires IsMerge(Map(net, order), Map(FromChild(later), Routed(cids, at, false)), merged)
    ensures Brings(merged, Map(Getter(child, true, net), cids))
  {
    GetManyAnswers(later, net, cids, at, order, merged);
    forall i | 0 <= i < |cids| ensures AnswerAt(later, net, at[i], cids[i]) == Getter(child, true, net)(cids[i]) {
      AnswerIsGetIff(child, later, net, at[i], cids[i]);
    }
    assert AnswersAt(later, net, cids, at) == Map(Getter(child, true, net), cids);
  }

  lemma {:induction false} StoppedRouting(cids: seq<Cid>, at: seq<Moment>)
    requires |cids| == |at| && forall i | 0 <= i < |cids| :: !at[i].started
    ensures Routed(cids, at, true) == [] && Routed(cids, at, false) == cids
  {
    if cids != [] {
      var n := |cids| - 1;
      StoppedRouting(cids[..n], at[..n]);
      assert cids == cids[..n] + [cids[n]];
    }
  }

  /**
   While the exchange is stopped all requests go to the child, and `getMany` answers as `get` on each
   cid in order, up to the first one that is not stored.
   */
  lemma {:induction false} GetManyStopped(later: Child, net: Network, cids: seq<Cid>, at: seq<Moment>,
                                          order: seq<Cid>, merged: seq<Option<Block>>)
    requires |cids| == |at| && forall i | 0 <= i < |cids| :: !at[i].started
    requires multiset(order) == multiset(Routed(cids, at, true))
    requires IsMerge(Map(net, order), Map(FromChild(later), Routed(cids, at, false)), merged)
    ensures merged == Map(Getter(later, false, net), cids)
    ensures var blocks := Received(merged);
            && |blocks| <= |cids| && (|blocks| < |cids| ==> cids[|blocks|] !in later)
            && forall i | 0 <= i < |blocks| :: cids[i] in later && blocks[i] == later[cids[i]]
  {
    StoppedRouting(cids, at);
    assert |multiset(order)| == 0;
    assert Map(net, order) == [];
    MapAgree(FromChild(later), Getter(later, false, net), cids);
    MergeOfOne(Map(FromChild(later), cids), merged);
  }

  lemma {:induction false} MergeOfOne<T>(b: seq<T>, m: seq<T>)
    requires IsMerge([], b, m)
    ensures m == b
  {
    if m != [] {
      MergeOfOne(b[1..], m[1..]);
    }
  }

  // ---------------------------------------------------------------- the class

  class BlockStorage {
    var child: Child
    var pending: seq<(Cid, Block)>
    var started: bool
    const net: Network

    ghost function Snapshot(): State
      reads this
    {
      State(child, pending)
    }

    constructor (child: Child, started: bool, net: Network)
      ensures Snapshot() == State(child, []) && this.started == started && this.net == net
    {
      this.child, this.pending, this.started, this.net := child, [], started, net;
    }

    method Has(c: Cid) returns (has: bool)
      ensures has == (c in child)
    {
      has := c in child;
    }

    /** `put` from the answer of its look-up to its second await. */
    method PutBlock(c: Cid, b: Block)
      modifies this`pending
      ensures Snapshot() == Step(old(Snapshot()), Look(c, b))
    {
      var has := Has(c);
      if has {
        return;
      }
      pending := pending + [(c, b)];
    }

    /** The i-th pending put writes. */
    method FinishPut(i: nat)
      requires i < |pending|
      modifies this`child, this`pending
      ensures Snapshot() == Step(old(Snapshot()), Write(i))
    {
      var (c, b) := pending[i];
      pending := Without(pending, i);
      if started {
        BitswapPut(c, b);
      } else {
        child := child[c := b];
      }
    }

    /** The exchange stores into the same child. */
    method BitswapPut(c: Cid, b: Block)
      modifies this`child
      ensures Snapshot() == Step(old(Snapshot()), Fetched(c, b))
    {
      child := child[c := b];
    }

    /** `putMany` with nothing in between its awaits, and a child that stores each pair before it asks for the next. */
    method PutMany(pairs: seq<(Cid, Block)>)
      modifies this`child
      ensures child == PutAll(old(child), pairs)
    {
      var i := 0;
      while i < |pairs|
        invariant 0 <= i <= |pairs|
        invariant child == PutAll(old(child), pairs[..i])
      {
        assert pairs[..i + 1][..i] == pairs[..i];
        var (c, b) := pairs[i];
        var has := Has(c);
        if !has {
          child := child[c := b];
        }
        i := i + 1;
      }
      assert pairs[..i] == pairs;
    }

    /** `get` with nothing in between its awaits.  A block fetched by the exchange is stored on the way. */
    method GetBlock(c: Cid) returns (r: Option<Block>)
      modifies this`child
      ensures r == Get(old(child), started, net, c)
      ensures child == if r.Some? then Put(old(child), c, r.value) else old(child)
    {
      var has := Has(c);
      if !has && started {
        r := net(c);
        if r.Some? {
          BitswapPut(c, r.value);
        }
      } else if has {
        r := Some(child[c]);
      } else {
        r := None;
      }
    }
  }

  /** The routing loop of `getMany`; what each request finds is given by the moments. */
  method Route(cids: seq<Cid>, at: seq<Moment>) returns (getFromBitswap: seq<Cid>, getFromChild: seq<Cid>)
    requires |cids| == |at|
    ensures getFromBitswap == Routed(cids, at, true) && getFromChild == Routed(cids, at, false)
  {
    getFromBitswap, getFromChild := [], [];
    var i := 0;
    while i < |cids|
      invariant 0 <= i <= |cids|
      invariant getFromBitswap == Routed(cids[..i], at[..i], true)
      invariant getFromChild == Routed(cids[..i], at[..i], false)
    {
      assert cids[..i + 1][..i] == cids[..i] && at[..i + 1][..i] == at[..i];
      if cids[i] !in at[i].local && at[i].started {
        getFromBitswap := getFromBitswap + [cids[i]];
      } else {
        getFromChild := getFromChild + [cids[i]];
      }
      i := i + 1;
    }
    assert cids[..i] == cids && at[..i] == at;
  }
}
