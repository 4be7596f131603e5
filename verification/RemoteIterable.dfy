/**
 Streaming an iterable over a pair of entangled message ports.

 The server (`encodeIterable`) answers each `next` request with one reply; the client
 (`decodeIterable`) is an async generator that posts a request, waits for the reply, and
 yields what it decodes.  The model is the product of both sides and the two port queues.
 A run is any sequence of events; an event that is not enabled leaves the state alone, so
 quantifying over event sequences quantifies over every interleaving.

 Ports follow section 9.4 of the WHATWG HTML Living Standard: posting through a pair one of
 whose ends is closed does nothing, and closing does not recall what was already posted.
 What a closed port does with messages still queued on it is left open: they may be handled
 (`ServerTakes`) or lost (`QueueLost`).  The server posts its last reply and closes its port in
 one turn: it takes no message in between, but the client may already have seen the reply.
 */
module RemoteIterable {
  import opened Outcomes
  import opened Sequences

  type Item(!new)
  type Wire(!new)
  type Output(!new)

  /** The properties an error keeps on its way through a port. */
  datatype Error = Error(name: string, message: string, stack: Option<string>,
                         code: Option<string>, detail: Option<string>)

  /** `decodeError(encodeError(e))`: the detail is sent but not restored. */
  function Carried(e: Error): Error {
    e.(detail := None)
  }

  /**
   How one call of `iterator.next()` settles.  The error is None when it cannot be sent: null or
   undefined was thrown, or an error with a property that cannot be read or cloned.
   */
  datatype Pull = Yields(item: Item) | Ends | Throws(error: Option<Error>)

  /** `encode` followed by the structured clone: a wire value (None for null), or a throw. */
  datatype Encoding = Encoded(payload: Option<Wire>) | EncodeThrows(error: Option<Error>)

  datatype Decoding = Decoded(output: Output) | DecodeThrows

  /** What the two closures are given: the k-th outcome of the source, and the codecs. */
  datatype Env = Env(pull: nat -> Pull, encode: Item -> Encoding, decode: Wire -> Decoding, hasReturn: bool)

  datatype Request = Next | Return
  datatype Reply = Value(payload: Option<Wire>) | Done | Thrown(error: Error)

  /** What the source and `encode` make of the k-th request; None: encoding the error throws, nothing is sent. */
  function Answer(env: Env, k: nat): Option<Reply> {
    match env.pull(k)
    case Ends => Some(Done)
    case Throws(None) => None
    case Throws(Some(e)) => Some(Thrown(e))
    case Yields(x) =>
      match env.encode(x)
      case Encoded(p) => Some(Value(p))
      case EncodeThrows(None) => None
      case EncodeThrows(Some(e)) => Some(Thrown(e))
  }

  /** The k-th outcome reaches the consumer as a value, or as a null that the client skips. */
  predicate Passes(env: Env, k: nat) {
    var a := Answer(env, k);
    a.Some? && a.value.Value? && (a.value.payload.Some? ==> env.decode(a.value.payload.value).Decoded?)
  }

  /** Reference meaning of the stream: the first n outcomes of the source, encoded and decoded in order. */
  function Prefix(env: Env, n: nat): seq<Output> {
    if n == 0 then []
    else Prefix(env, n - 1) + Delivered(env, n - 1)
  }

  function Delivered(env: Env, k: nat): seq<Output> {
    var a := Answer(env, k);
    if Passes(env, k) && a.value.payload.Some? then [env.decode(a.value.payload.value).output] else []
  }

  datatype Outcome = Completed | SourceFailed(error: Error) | DecodeFailed | StoppedEarly | NeverStarted

  datatype Client =
    | Fresh                     // generator created, body not entered
    | Waiting                   // suspended in `await next()`
    | Suspended                 // suspended in `yield`
    | Leaving(outcome: Outcome) // in `finally`, before `port.close()`
    | Left(outcome: Outcome)

  datatype State = State(
    client: Client, clientOpen: bool, received: seq<Output>,
    taken: nat,                 // value replies the client has got past
    toServer: seq<Request>, toClient: seq<Reply>,
    serverOpen: bool, closing: bool,  // closing: the last reply is posted, `port.close()` is next
    pulls: nat,                 // calls of iterator.next()
    settled: nat,               // how many of them have settled
    returned: nat)              // calls of iterator.return()

  const INITIAL := State(Fresh, true, [], 0, [], [], true, false, 0, 0, 0)

  datatype Event =
    | ConsumerStarts | ConsumerResumes | ConsumerStops
    | ClientTakes | ClientCloses
    | ServerTakes | SourceSettles | ServerCloses
    | QueueLost

  function PostToServer(s: State, m: Request): State {
    if s.clientOpen && s.serverOpen then s.(toServer := s.toServer + [m]) else s
  }

  function PostToClient(s: State, m: Reply): State {
    if s.clientOpen && s.serverOpen then s.(toClient := s.toClient + [m]) else s
  }

  /** Leaving the loop: `return` is posted unless the last reply said done. */
  function Leave(s: State, o: Outcome): State {
    (if o == Completed then s else PostToServer(s, Return)).(client := Leaving(o))
  }

  function OnReply(env: Env, s: State, m: Reply): State {
    if s.client != Waiting then s  // `receive` resolves a promise that is already resolved
    else
      match m
      case Done => Leave(s, Completed)
      case Thrown(e) => Leave(s, SourceFailed(Carried(e)))
      case Value(None) => PostToServer(s.(taken := s.taken + 1), Next)
      case Value(Some(w)) =>
        match env.decode(w)
        case DecodeThrows => Leave(s, DecodeFailed)
        case Decoded(o) => s.(taken := s.taken + 1, received := s.received + [o], client := Suspended)
  }

  function OnRequest(env: Env, s: State, m: Request): State {
    match m
    case Next => s.(pulls := s.pulls + 1)
    case Return => s.(serverOpen := false, returned := s.returned + if env.hasReturn then 1 else 0)
  }

  function Settle(env: Env, s: State): State {
    var s' := s.(settled := s.settled + 1);
    match Answer(env, s.settled)
    case None => s'
    case Some(m) => PostToClient(s', m).(closing := s.closing || !m.Value?)
  }

  function Step(env: Env, s: State, ev: Event): State {
    match ev
    case ConsumerStarts => if s.client == Fresh then PostToServer(s, Next).(client := Waiting) else s
    case ConsumerResumes => if s.client == Suspended then PostToServer(s, Next).(client := Waiting) else s
    case ConsumerStops =>
      if s.client == Suspended then Leave(s, StoppedEarly)
      else if s.client == Fresh then s.(client := Left(NeverStarted))
      else s
    case ClientTakes => if s.toClient == [] then s else OnReply(env, s.(toClient := s.toClient[1..]), s.toClient[0])
    case ClientCloses => if s.client.Leaving? then s.(client := Left(s.client.outcome), clientOpen := false) else s
    case ServerTakes => if s.toServer == [] || s.closing then s else OnRequest(env, s.(toServer := s.toServer[1..]), s.toServer[0])
    case SourceSettles => if s.settled < s.pulls then Settle(env, s) else s
    case ServerCloses => if s.closing then s.(serverOpen := false, closing := false) else s
    case QueueLost =>
      s.(toServer := if s.serverOpen then s.toServer else [], toClient := if s.clientOpen then s.toClient else [])
  }

  function Run(env: Env, s: State, evs: seq<Event>): State {
    if evs == [] then s else Step(env, Run(env, s, evs[..|evs| - 1]), evs[|evs| - 1])
  }

  // ---------------------------------------------------------------- invariant

  /** The only things that can be outstanding while the client waits. */
  ghost predicate InFlight(env: Env, s: State) {
    && s.clientOpen && s.returned == 0
    && if s.pulls == s.taken then
         s.toServer == [Next] && s.toClient == [] && s.settled == s.pulls && s.serverOpen && !s.closing
       else if s.settled == s.taken then
         s.toServer == [] && s.toClient == [] && s.pulls == s.taken + 1 && s.serverOpen && !s.closing
       else
         && s.pulls == s.settled == s.taken + 1 && s.toServer == []
         && match Answer(env, s.taken)
            case None => s.toClient == [] && s.serverOpen && !s.closing
            case Some(m) => s.toClient == [m] && (s.serverOpen <==> (m.Value? || s.closing)) && (m.Value? ==> !s.closing)
  }

  /** The server has posted its last reply and closes, or has closed, its port. */
  ghost predicate Finishing(s: State) {
    s.pulls == s.settled == s.taken + 1 && s.serverOpen == s.closing
  }

  /** `return` is on its way, or has arrived and closed the server's port. */
  ghost predicate Returning(env: Env, s: State) {
    && !s.closing
    && if s.serverOpen then s.toServer == [Return] && s.returned == 0
       else s.toServer == [] && s.returned == if env.hasReturn then 1 else 0
  }

  ghost predicate LeftInv(env: Env, s: State, o: Outcome) {
    && s.toClient == []
    && match o
       case NeverStarted => s == INITIAL.(client := Left(NeverStarted))
       case Completed => env.pull(s.taken) == Ends && Finishing(s) && s.toServer == [] && s.returned == 0
       case SourceFailed(e) =>
         && (exists e0 :: Answer(env, s.taken) == Some(Thrown(e0)) && e == Carried(e0)) && Finishing(s)
         && (s.toServer == [] || s.toServer == [Return]) && s.returned + |s.toServer| <= 1 && (s.closing ==> s.returned == 0)
       case DecodeFailed =>
         && s.pulls == s.settled == s.taken + 1 && Returning(env, s)
         && var a := Answer(env, s.taken);
            a.Some? && a.value.Value? && a.value.payload.Some? && env.decode(a.value.payload.value) == DecodeThrows
       case StoppedEarly => s.pulls == s.settled == s.taken > 0 && Returning(env, s)
  }

  ghost predicate Inv(env: Env, s: State) {
    && (forall k: nat | k < s.taken :: Passes(env, k))
    && s.received == Prefix(env, s.taken)
    && match s.client
       case Fresh => s == INITIAL
       case Waiting => InFlight(env, s)
       case Suspended =>
         && s.clientOpen && s.serverOpen && !s.closing && s.toServer == [] && s.toClient == []
         && s.pulls == s.settled == s.taken > 0 && s.returned == 0
       case Leaving(o) => o != NeverStarted && s.clientOpen && LeftInv(env, s, o)
       case Left(o) => (o != NeverStarted ==> !s.clientOpen) && LeftInv(env, s, o)
  }

  lemma ReplyKeepsInv(env: Env, s: State)
    requires Inv(env, s)
    ensures Inv(env, Step(env, s, ClientTakes))
  {
    if s.toClient != [] {
      assert s.client == Waiting && s.toClient[1..] == [];
    }
  }

  lemma ClientKeepsInv(env: Env, s: State, ev: Event)
    requires Inv(env, s)
    requires ev in {ConsumerStarts, ConsumerResumes, ConsumerStops, ClientCloses}
    ensures Inv(env, Step(env, s, ev))
  {
  }

  lemma RequestKeepsInv(env: Env, s: State)
    requires Inv(env, s)
    ensures Inv(env, Step(env, s, ServerTakes))
  {
    if s.toServer != [] && !s.closing {
      assert |s.toServer| == 1 && s.toServer[1..] == [];
    }
  }

  lemma ServerKeepsInv(env: Env, s: State, ev: Event)
    requires Inv(env, s)
    requires ev in {SourceSettles, ServerCloses, QueueLost}
    ensures Inv(env, Step(env, s, ev))
  {
    if ev == SourceSettles && s.settled < s.pulls {
      assert s.client == Waiting;
    }
  }

  lemma {:induction false} StepKeepsInv(env: Env, s: State, ev: Event)
    requires Inv(env, s)
    ensures Inv(env, Step(env, s, ev))
  {
    match ev
    case ClientTakes => ReplyKeepsInv(env, s);
    case ServerTakes => RequestKeepsInv(env, s);
    case SourceSettles => ServerKeepsInv(env, s, ev);
    case ServerCloses => ServerKeepsInv(env, s, ev);
    case QueueLost => ServerKeepsInv(env, s, ev);
    case _ => ClientKeepsInv(env, s, ev);
  }

  lemma {:induction false} RunKeepsInv(env: Env, s: State, evs: seq<Event>)
    requires Inv(env, s)
    ensures Inv(env, Run(env, s, evs))
  {
    if evs != [] {
      RunKeepsInv(env, s, evs[..|evs| - 1]);
      StepKeepsInv(env, Run(env, s, evs[..|evs| - 1]), evs[|evs| - 1]);
    }
  }

  lemma InitialInv(env: Env)
    ensures Inv(env, INITIAL)
  {
  }

  // ---------------------------------------------------------------- main results

  /** The requests, pulls and replies that are on their way at this moment. */
  function Outstanding(s: State): int {
    |s.toServer| + (s.pulls - s.settled) + |s.toClient|
  }

  /**
   In every reachable state the consumer has exactly the decoded encoding of a prefix of the
   source, one message or pull is outstanding at most, and the source has been advanced at
   most once beyond what the client has got past.
   */
  lemma {:induction false} Safety(env: Env, evs: seq<Event>)
    ensures var s := Run(env, INITIAL, evs);
            && s.received == Prefix(env, s.taken)
            && (forall k: nat | k < s.taken :: Passes(env, k))
            && 0 <= Outstanding(s) <= 1
            && s.taken <= s.settled <= s.pulls <= s.taken + 1
            && (s.client == Suspended ==> s.pulls == s.taken && Outstanding(s) == 0)
            && (s.toClient != [] ==> s.client == Waiting)
  {
    InitialInv(env);
    RunKeepsInv(env, INITIAL, evs);
  }

  /** A started stream whose generator has returned, with nothing left on the server's side. */
  ghost predicate Over(s: State) {
    s.client.Left? && s.client.outcome != NeverStarted && s.toServer == [] && !s.closing
  }

  /** How often a finished stream has called `iterator.return()`. */
  ghost predicate ReturnsFor(env: Env, s: State)
    requires s.client.Left?
  {
    match s.client.outcome
    case Completed => s.returned == 0
    case SourceFailed(_) => s.returned <= if env.hasReturn then 1 else 0
    case _ => s.returned == if env.hasReturn then 1 else 0
  }

  lemma ReturnsBound(env: Env, evs: seq<Event>)
    ensures Run(env, INITIAL, evs).returned == 0 || env.hasReturn
  {
    if evs != [] {
      ReturnsBound(env, evs[..|evs| - 1]);
    }
  }

  /**
   Every completed run of a started stream: both ports are closed and
   - everything the source has was delivered and `return` was not called, or
   - the first outcomes were delivered and the consumer saw the error of the source (or of
     `encode`), or
   - `decode` failed or the consumer stopped, and `return` was called exactly once.
   */
  lemma {:induction false} Completion(env: Env, evs: seq<Event>)
    requires Over(Run(env, INITIAL, evs))
    ensures var s := Run(env, INITIAL, evs);
            && !s.clientOpen && !s.serverOpen && ReturnsFor(env, s)
            && s.received == Prefix(env, s.taken)
            && match s.client.outcome
               case Completed => env.pull(s.taken) == Ends && s.pulls == s.taken + 1
               case SourceFailed(e) =>
                 s.pulls == s.taken + 1 && exists e0 :: Answer(env, s.taken) == Some(Thrown(e0)) && e == Carried(e0)
               case DecodeFailed => s.pulls == s.taken + 1 && !Passes(env, s.taken)
               case StoppedEarly => s.pulls == s.taken > 0 && Passes(env, s.taken - 1)
               case NeverStarted => false
  {
    InitialInv(env);
    RunKeepsInv(env, INITIAL, evs);
    ReturnsBound(env, evs);
  }

  lemma StepAfterLeaving(env: Env, s: State, ev: Event)
    requires Inv(env, s) && (s.client.Leaving? || s.client.Left?)
    ensures var s' := Step(env, s, ev);
            s'.pulls == s.pulls && s'.received == s.received && (s'.client.Leaving? || s'.client.Left?)
  {
  }

  /** Once the client's loop is left, whatever happens next, the source is not advanced and nothing more is delivered. */
  lemma {:induction false} NeverAdvancedAgain(env: Env, evs: seq<Event>, more: seq<Event>)
    requires var c := Run(env, INITIAL, evs).client; c.Leaving? || c.Left?
    ensures var s, s' := Run(env, INITIAL, evs), Run(env, Run(env, INITIAL, evs), more);
            s'.pulls == s.pulls && s'.received == s.received && (s'.client.Leaving? || s'.client.Left?)
  {
    var s := Run(env, INITIAL, evs);
    InitialInv(env);
    RunKeepsInv(env, INITIAL, evs);
    if more != [] {
      var most := more[..|more| - 1];
      NeverAdvancedAgain(env, evs, most);
      RunKeepsInv(env, s, most);
      StepAfterLeaving(env, Run(env, s, most), more[|more| - 1]);
    }
  }

  /** A completed stream is at rest: no event changes it any more. */
  lemma {:induction false} OverIsFinal(env: Env, evs: seq<Event>, ev: Event)
    requires Over(Run(env, INITIAL, evs))
    ensures Step(env, Run(env, INITIAL, evs), ev) == Run(env, INITIAL, evs)
  {
    InitialInv(env);
    RunKeepsInv(env, INITIAL, evs);
  }

  // ---------------------------------------------------------------- progress

  predicate Internal(ev: Event) {
    ev in {ClientTakes, ClientCloses, ServerTakes, ServerCloses, QueueLost}
  }

  /** Messages and closing steps still to come while source and consumer stay silent. */
  function Work(s: State): nat {
    4 * |s.toClient| + 2 * |s.toServer| + (if s.closing then 1 else 0) + (if s.client.Leaving? then 1 else 0)
  }

  /** How many of the events have an effect. */
  function Effects(env: Env, s: State, evs: seq<Event>): nat {
    if evs == [] then 0
    else
      var before := Run(env, s, evs[..|evs| - 1]);
      Effects(env, s, evs[..|evs| - 1]) + if Step(env, before, evs[|evs| - 1]) == before then 0 else 1
  }

  lemma InternalStepWorks(env: Env, s: State, ev: Event)
    requires Internal(ev)
    ensures Step(env, s, ev) == s || Work(Step(env, s, ev)) < Work(s)
  {
  }

  /** Without the source and the consumer the two sides cannot go on for ever: the work that is left bounds the steps they take. */
  lemma {:induction false} InternalStepsRunOut(env: Env, s: State, evs: seq<Event>)
    requires forall i | 0 <= i < |evs| :: Internal(evs[i])
    ensures Effects(env, s, evs) + Work(Run(env, s, evs)) <= Work(s)
  {
    if evs != [] {
      var most := evs[..|evs| - 1];
      InternalStepsRunOut(env, s, most);
      InternalStepWorks(env, Run(env, s, most), evs[|evs| - 1]);
    }
  }

  /** Where they end: a started stream whose client has left is at rest exactly when it is over. */
  lemma {:induction false} RestIsOver(env: Env, evs: seq<Event>)
    requires var c := Run(env, INITIAL, evs).client; (c.Leaving? || c.Left?) && c != Left(NeverStarted)
    ensures var s := Run(env, INITIAL, evs);
            (forall ev | Internal(ev) :: Step(env, s, ev) == s) <==> Over(s)
  {
    InitialInv(env);
    RunKeepsInv(env, INITIAL, evs);
    var s := Run(env, INITIAL, evs);
    if s.client.Leaving? {
      assert Step(env, s, ClientCloses).client.Left?;
    } else if s.closing {
      assert !Step(env, s, ServerCloses).closing;
    } else if s.toServer != [] {
      assert |Step(env, s, ServerTakes).toServer| < |s.toServer|;
    }
  }

  /** The client waits for a reply and no event of either side, the source or the consumer will ever bring it. */
  ghost predicate Stuck(env: Env, s: State) {
    s.client == Waiting && forall ev :: Step(env, s, ev) == s
  }

  /**
   A consumer waits for ever exactly when the source or `encode` has thrown what cannot be sent:
   describing it or posting the description throws, so neither a reply nor a close is ever sent.
   */
  lemma {:induction false} StuckIff(env: Env, evs: seq<Event>)
    ensures var s := Run(env, INITIAL, evs);
            Stuck(env, s) <==> s.client == Waiting && s.settled == s.taken + 1 && Answer(env, s.taken) == None
  {
    var s := Run(env, INITIAL, evs);
    InitialInv(env);
    RunKeepsInv(env, INITIAL, evs);
    if s.client == Waiting {
      if s.pulls == s.taken {
        assert Step(env, s, ServerTakes).pulls == s.pulls + 1;
      } else if s.settled == s.taken {
        assert Step(env, s, SourceSettles).settled == s.settled + 1;
      } else if Answer(env, s.taken).Some? {
        assert |Step(env, s, ClientTakes).toClient| == 0;
      }
    }
  }

  /** Stopping a generator whose body was never entered runs no `finally`: both ports stay open, the source is left alone. */
  lemma {:induction false} UnstartedLeaks(env: Env, evs: seq<Event>)
    requires Run(env, INITIAL, evs).client == Left(NeverStarted)
    ensures var s := Run(env, INITIAL, evs); s.clientOpen && s.serverOpen && s.pulls == 0 && s.returned == 0
  {
    InitialInv(env);
    RunKeepsInv(env, INITIAL, evs);
  }

  lemma Extend(env: Env, evs: seq<Event>, ev: Event) returns (all: seq<Event>)
    ensures Run(env, INITIAL, all) == Step(env, Run(env, INITIAL, evs), ev)
  {
    all := evs + [ev];
    assert all[..|all| - 1] == evs;
  }

  lemma ErrorSent(env: Env, e: Error) returns (evs: seq<Event>)
    requires env.pull(0) == Throws(Some(e))
    ensures Run(env, INITIAL, evs) == INITIAL.(client := Waiting, toClient := [Thrown(e)], pulls := 1, settled := 1, closing := true)
  {
    evs := Extend(env, [], ConsumerStarts);
    evs := Extend(env, evs, ServerTakes);
    evs := Extend(env, evs, SourceSettles);
  }

  /**
   The one race of the protocol: when the client sees the error before the server has closed
   its port, its `return` is queued there, and a port that still handles it returns the iterator.
   */
  lemma {:induction false} ReturnAfterError(env: Env, e: Error)
    requires env.hasReturn && env.pull(0) == Throws(Some(e))
    ensures exists evs :: Over(Run(env, INITIAL, evs)) && Run(env, INITIAL, evs).returned == 1
  {
    var evs := ErrorSent(env, e);
    evs := Extend(env, evs, ClientTakes);
    evs := Extend(env, evs, ServerCloses);
    assert Run(env, INITIAL, evs).toServer == [Return];
    evs := Extend(env, evs, ServerTakes);
    evs := Extend(env, evs, ClientCloses);
    assert Over(Run(env, INITIAL, evs));
  }

  lemma {:induction false} NoReturnAfterError(env: Env, e: Error)
    requires env.pull(0) == Throws(Some(e))
    ensures exists evs :: Over(Run(env, INITIAL, evs)) && Run(env, INITIAL, evs).returned == 0
  {
    var evs := ErrorSent(env, e);
    evs := Extend(env, evs, ServerCloses);
    evs := Extend(env, evs, ClientTakes);
    evs := Extend(env, evs, ClientCloses);
    assert Over(Run(env, INITIAL, evs));
  }

  /** The outcomes of the calls of `next` on a list. */
  ghost predicate IsList(env: Env, items: seq<Item>) {
    forall k: nat :: env.pull(k) == if k < |items| then Yields(items[k]) else Ends
  }

  lemma ListEndsAt(env: Env, items: seq<Item>, s: State)
    requires IsList(env, items) && Inv(env, s) && env.pull(s.taken) == Ends
    ensures s.taken == |items|
  {
    assert s.taken > |items| ==> Passes(env, |items|);
  }

  /** A stream over a list that completes has delivered the whole list, in one pull more than it has items. */
  lemma {:induction false} ListFullyDelivered(env: Env, items: seq<Item>, evs: seq<Event>)
    requires IsList(env, items)
    requires var s := Run(env, INITIAL, evs); Over(s) && s.client.outcome == Completed
    ensures var s := Run(env, INITIAL, evs); s.received == Prefix(env, |items|) && s.pulls == |items| + 1
  {
    Completion(env, evs);
    InitialInv(env);
    RunKeepsInv(env, INITIAL, evs);
    ListEndsAt(env, items, Run(env, INITIAL, evs));
  }

  // ---------------------------------------------------------------- what the consumer hears

  /** Call k of `next` gives an item that the consumer hears as v; None: `encode` makes it null. */
  ghost predicate Hears(env: Env, k: nat, v: Option<Output>) {
    && env.pull(k).Yields?
    && match env.encode(env.pull(k).item)
       case Encoded(None) => v == None
       case Encoded(Some(w)) => v.Some? && env.decode(w) == Decoded(v.value)
       case EncodeThrows(_) => false
  }

  ghost predicate HearsAll(env: Env, vs: seq<Option<Output>>) {
    forall k | 0 <= k < |vs| :: Hears(env, k, vs[k])
  }

  /** What is heard of a call that passes. */
  function HeardOf(env: Env, k: nat): Option<Output>
    requires Passes(env, k)
  {
    var p := Answer(env, k).value.payload;
    if p.None? then None else Some(env.decode(p.value).output)
  }

  lemma PassesHeard(env: Env, k: nat)
    ensures Passes(env, k) ==> Hears(env, k, HeardOf(env, k)) && Delivered(env, k) == Present([HeardOf(env, k)])
  {
    if Passes(env, k) {
      var v := HeardOf(env, k);
      assert Present([v][..0]) == [];
    }
  }

  lemma {:induction false} PrefixHeard(env: Env, n: nat) returns (vs: seq<Option<Output>>)
    requires forall k: nat | k < n :: Passes(env, k)
    ensures |vs| == n && HearsAll(env, vs) && Prefix(env, n) == Present(vs)
  {
    if n == 0 {
      vs := [];
    } else {
      var front := PrefixHeard(env, n - 1);
      PassesHeard(env, n - 1);
      PresentAppend(front, [HeardOf(env, n - 1)]);
      vs := front + [HeardOf(env, n - 1)];
    }
  }

  /** In every reachable state the consumer has heard each outcome it has got past, encoded and decoded, in order. */
  lemma {:induction false} Delivery(env: Env, evs: seq<Event>)
    ensures var s := Run(env, INITIAL, evs);
            exists vs :: |vs| == s.taken && HearsAll(env, vs) && s.received == Present(vs)
  {
    Safety(env, evs);
    var vs := PrefixHeard(env, Run(env, INITIAL, evs).taken);
  }

  lemma HeardSame(env: Env, vs: seq<Option<Output>>, us: seq<Option<Output>>)
    requires HearsAll(env, vs) && HearsAll(env, us) && |vs| == |us|
    ensures vs == us
  {
    forall k | 0 <= k < |vs| ensures vs[k] == us[k] {
      assert Hears(env, k, vs[k]) && Hears(env, k, us[k]);
    }
  }

  /** A completed stream over a list has delivered what each item becomes, without those that become null. */
  lemma {:induction false} ListHeard(env: Env, items: seq<Item>, vs: seq<Option<Output>>, evs: seq<Event>)
    requires IsList(env, items) && |vs| == |items| && HearsAll(env, vs)
    requires var s := Run(env, INITIAL, evs); Over(s) && s.client.outcome == Completed
    ensures Run(env, INITIAL, evs).received == Present(vs)
  {
    Completion(env, evs);
    InitialInv(env);
    RunKeepsInv(env, INITIAL, evs);
    ListEndsAt(env, items, Run(env, INITIAL, evs));
    var us := PrefixHeard(env, |items|);
    HeardSame(env, vs, us);
  }

  /** In particular: every item, encoded and decoded, when none becomes null. */
  lemma {:induction false} ListDelivered(env: Env, items: seq<Item>, wire: Item -> Wire, output: Item -> Output, evs: seq<Event>)
    requires IsList(env, items)
    requires forall x | x in items :: env.encode(x) == Encoded(Some(wire(x))) && env.decode(wire(x)) == Decoded(output(x))
    requires var s := Run(env, INITIAL, evs); Over(s) && s.client.outcome == Completed
    ensures Run(env, INITIAL, evs).received == Map(output, items)
  {
    var vs := seq(|items|, i requires 0 <= i < |items| => Some(output(items[i])));
    forall k | 0 <= k < |vs| ensures Hears(env, k, vs[k]) {
      assert items[k] in items;
    }
    ListHeard(env, items, vs, evs);
    PresentIs(vs, Map(output, items));
  }

  /** Call k throws e: the source does, or `encode` of its item. */
  ghost predicate ThrowsAt(env: Env, k: nat, e: Error) {
    env.pull(k) == Throws(Some(e)) || (env.pull(k).Yields? && env.encode(env.pull(k).item) == EncodeThrows(Some(e)))
  }

  /** `decode` fails on what call k sends. */
  ghost predicate DecodeFailsAt(env: Env, k: nat) {
    && env.pull(k).Yields?
    && var c := env.encode(env.pull(k).item);
       c.Encoded? && c.payload.Some? && env.decode(c.payload.value) == DecodeThrows
  }

  lemma EndIs(env: Env, s: State, e: Error)
    requires s.client.Left? && s.client.outcome != NeverStarted && LeftInv(env, s, s.client.outcome)
    requires s.client.outcome != StoppedEarly
    ensures s.client.outcome == Completed <==> env.pull(s.taken) == Ends
    ensures s.client.outcome.SourceFailed? <==> exists x :: ThrowsAt(env, s.taken, x)
    ensures s.client.outcome == DecodeFailed <==> DecodeFailsAt(env, s.taken)
    ensures ThrowsAt(env, s.taken, e) ==> s.client.outcome == SourceFailed(Error(e.name, e.message, e.stack, e.code, None))
  {
    if s.client.outcome.SourceFailed? {
      var e0 :| Answer(env, s.taken) == Some(Thrown(e0)) && s.client.outcome.error == Carried(e0);
      assert ThrowsAt(env, s.taken, e0);
    }
  }

  /**
   How a finished stream has ended, in terms of the call after the last one it got past: a stream
   the consumer did not stop has completed exactly when that call is the end, has failed with name,
   message, stack and code of the error, but not its detail, exactly when it threw one, and has
   failed in `decode` exactly when that call was sent and cannot be decoded.
   */
  lemma {:induction false} EndMeans(env: Env, evs: seq<Event>, e: Error)
    requires Over(Run(env, INITIAL, evs))
    ensures var s := Run(env, INITIAL, evs);
            s.client.outcome != StoppedEarly ==>
              && (s.client.outcome == Completed <==> env.pull(s.taken) == Ends)
              && (s.client.outcome.SourceFailed? <==> exists x :: ThrowsAt(env, s.taken, x))
              && (s.client.outcome == DecodeFailed <==> DecodeFailsAt(env, s.taken))
              && (ThrowsAt(env, s.taken, e) ==>
                    s.client.outcome == SourceFailed(Error(e.name, e.message, e.stack, e.code, None)))
  {
    InitialInv(env);
    RunKeepsInv(env, INITIAL, evs);
    if Run(env, INITIAL, evs).client.outcome != StoppedEarly {
      EndIs(env, Run(env, INITIAL, evs), e);
    }
  }

  // ---------------------------------------------------------------- streams do go on

  /** The client has asked for call n and nothing has happened since. */
  ghost predicate Asked(s: State, n: nat) {
    s.client == Waiting && s.pulls == s.taken == n
  }

  lemma RequestTaken(env: Env, s: State, n: nat)
    requires Inv(env, s) && Asked(s, n)
    ensures Step(env, s, ServerTakes) == s.(toServer := [], pulls := n + 1)
  {
    assert s.toServer[1..] == [];
  }

  lemma ReplySent(env: Env, s: State, n: nat, m: Reply)
    requires Inv(env, s) && Asked(s, n) && Answer(env, n) == Some(m)
    ensures Step(env, s.(toServer := [], pulls := n + 1), SourceSettles) ==
            s.(toServer := [], pulls := n + 1, settled := n + 1, toClient := [m], closing := !m.Value?)
  {
  }

  lemma ReplyTaken(env: Env, s: State, m: Reply)
    requires s.toClient == [m]
    ensures Step(env, s, ClientTakes) == OnReply(env, s.(toClient := []), m)
  {
    assert s.toClient[1..] == [];
  }

  /** The source is asked, settles, and the reply reaches the client. */
  lemma AnswerArrives(env: Env, evs: seq<Event>, n: nat) returns (all: seq<Event>)
    requires Asked(Run(env, INITIAL, evs), n) && Answer(env, n).Some?
    ensures var s, m := Run(env, INITIAL, evs), Answer(env, n).value;
            Run(env, INITIAL, all) == OnReply(env, s.(toServer := [], pulls := n + 1, settled := n + 1, closing := !m.Value?), m)
  {
    InitialInv(env);
    RunKeepsInv(env, INITIAL, evs);
    var s := Run(env, INITIAL, evs);
    RequestTaken(env, s, n);
    ReplySent(env, s, n, Answer(env, n).value);
    all := Extend(env, evs, ServerTakes);
    all := Extend(env, all, SourceSettles);
    ReplyTaken(env, Run(env, INITIAL, all), Answer(env, n).value);
    all := Extend(env, all, ClientTakes);
    assert s.toClient == [];
  }

  /** The consumer asks on after each value it hears; nulls need no asking. */
  lemma {:induction false} CanAsk(env: Env, vs: seq<Option<Output>>) returns (evs: seq<Event>)
    requires HearsAll(env, vs)
    ensures Asked(Run(env, INITIAL, evs), |vs|)
  {
    if vs == [] {
      evs := Extend(env, [], ConsumerStarts);
    } else {
      var n := |vs| - 1;
      assert Hears(env, n, vs[n]);
      evs := CanAsk(env, vs[..n]);
      evs := AnswerArrives(env, evs, n);
      if vs[n].Some? {
        evs := Extend(env, evs, ConsumerResumes);
      }
    }
  }

  /** The run ends the stream in this way, past n calls. */
  ghost predicate Reaches(env: Env, evs: seq<Event>, o: Outcome, n: nat) {
    var s := Run(env, INITIAL, evs);
    Over(s) && s.client.outcome == o && s.taken == n
  }

  ghost predicate Reachable(env: Env, o: Outcome, n: nat) {
    exists evs :: Reaches(env, evs, o, n)
  }

  /** The ports close behind a client that has left its loop. */
  lemma CanFinish(env: Env, evs: seq<Event>)
    requires var s := Run(env, INITIAL, evs); s.client.Leaving? && (s.closing || s.toServer == [Return])
    ensures var s := Run(env, INITIAL, evs); Reachable(env, s.client.outcome, s.taken)
  {
    InitialInv(env);
    RunKeepsInv(env, INITIAL, evs);
    var s := Run(env, INITIAL, evs);
    var all := Extend(env, evs, ServerCloses);
    var t := Run(env, INITIAL, all);
    all := Extend(env, all, ServerTakes);
    assert t.toServer != [] ==> t.toServer[1..] == [];
    all := Extend(env, all, ClientCloses);
    assert Reaches(env, all, s.client.outcome, s.taken);
  }

  /** The next reply makes the client leave. */
  lemma CanEnd(env: Env, vs: seq<Option<Output>>, m: Reply, o: Outcome)
    requires HearsAll(env, vs) && Answer(env, |vs|) == Some(m)
    requires match m
             case Done => o == Completed
             case Thrown(e) => o == SourceFailed(Carried(e))
             case Value(None) => false
             case Value(Some(w)) => o == DecodeFailed && env.decode(w) == DecodeThrows
    ensures Reachable(env, o, |vs|)
  {
    var evs := CanAsk(env, vs);
    InitialInv(env);
    RunKeepsInv(env, INITIAL, evs);
    evs := AnswerArrives(env, evs, |vs|);
    CanFinish(env, evs);
  }

  lemma CanStop(env: Env, vs: seq<Option<Output>>)
    requires HearsAll(env, vs) && vs != [] && vs[|vs| - 1].Some?
    ensures Reachable(env, StoppedEarly, |vs|)
  {
    var n := |vs| - 1;
    assert Hears(env, n, vs[n]);
    var evs := CanAsk(env, vs[..n]);
    InitialInv(env);
    RunKeepsInv(env, INITIAL, evs);
    evs := AnswerArrives(env, evs, n);
    evs := Extend(env, evs, ConsumerStops);
    CanFinish(env, evs);
  }

  /**
   After any number of outcomes that are heard, each way to end can be reached: completion when the
   next call is the end, failure when it throws, failure of `decode`, and a stop after a value.
   */
  lemma {:induction false} EndsAreReached(env: Env, vs: seq<Option<Output>>)
    requires HearsAll(env, vs)
    ensures env.pull(|vs|) == Ends ==> Reachable(env, Completed, |vs|)
    ensures forall e | ThrowsAt(env, |vs|, e) :: Reachable(env, SourceFailed(Error(e.name, e.message, e.stack, e.code, None)), |vs|)
    ensures DecodeFailsAt(env, |vs|) ==> Reachable(env, DecodeFailed, |vs|)
    ensures vs != [] && vs[|vs| - 1].Some? ==> Reachable(env, StoppedEarly, |vs|)
  {
    if env.pull(|vs|) == Ends {
      CanEnd(env, vs, Done, Completed);
    }
    forall e | ThrowsAt(env, |vs|, e) ensures Reachable(env, SourceFailed(Error(e.name, e.message, e.stack, e.code, None)), |vs|) {
      CanEnd(env, vs, Thrown(e), SourceFailed(Carried(e)));
    }
    if DecodeFailsAt(env, |vs|) {
      CanEnd(env, vs, Answer(env, |vs|).value, DecodeFailed);
    }
    if vs != [] && vs[|vs| - 1].Some? {
      CanStop(env, vs);
    }
  }

  // ---------------------------------------------------------------- the two closures

  /** The mutable variables of the two closures and the two port queues, changed by the handlers below. */
  class RemoteStream {
    const env: Env
    var client: Client
    var clientOpen: bool
    var received: seq<Output>
    var taken: nat
    var toServer: seq<Request>
    var toClient: seq<Reply>
    var serverOpen: bool
    var closing: bool
    var pulls: nat
    var settled: nat
    var returned: nat

    ghost function Snapshot(): State
      reads this
    {
      State(client, clientOpen, received, taken, toServer, toClient, serverOpen, closing, pulls, settled, returned)
    }

    constructor (env: Env)
      ensures this.env == env && Snapshot() == INITIAL
    {
      this.env := env;
      client, clientOpen, received, taken := Fresh, true, [], 0;
      toServer, toClient, serverOpen, closing := [], [], true, false;
      pulls, settled, returned := 0, 0, 0;
    }

    method PostRequest(m: Request)
      modifies this`toServer
      ensures Snapshot() == PostToServer(old(Snapshot()), m)
    {
      if clientOpen && serverOpen {
        toServer := toServer + [m];
      }
    }

    method PostReply(m: Reply)
      modifies this`toClient
      ensures Snapshot() == PostToClient(old(Snapshot()), m)
    {
      if clientOpen && serverOpen {
        toClient := toClient + [m];
      }
    }

    /** The consumer's `next()`: enter the body, or resume after `yield`; either way the loop posts a request. */
    method ConsumerNext()
      requires client == Fresh || client == Suspended
      modifies this
      ensures Snapshot() == Step(env, old(Snapshot()), if old(client) == Fresh then ConsumerStarts else ConsumerResumes)
    {
      PostRequest(Next);
      client := Waiting;
    }

    /** The consumer's `return()` on a suspended generator. */
    method ConsumerReturn()
      requires client == Fresh || client == Suspended
      modifies this
      ensures Snapshot() == Step(env, old(Snapshot()), ConsumerStops)
    {
      if client == Fresh {
        client := Left(NeverStarted);
      } else {
        Finally(false, StoppedEarly);
      }
    }

    /** The `finally` block up to `port.close()`. */
    method Finally(isDone: bool, o: Outcome)
      requires isDone <==> o == Completed
      modifies this
      ensures Snapshot() == Leave(old(Snapshot()), o)
    {
      if !isDone {
        PostRequest(Return);
      }
      client := Leaving(o);
    }

    method CloseClientPort()
      requires client.Leaving?
      modifies this
      ensures Snapshot() == Step(env, old(Snapshot()), ClientCloses)
    {
      clientOpen := false;
      client := Left(client.outcome);
    }

    /** The client's `onmessage`, and the loop body it wakes. */
    method ClientOnMessage()
      requires toClient != []
      modifies this
      ensures Snapshot() == Step(env, old(Snapshot()), ClientTakes)
    {
      var m := toClient[0];
      toClient := toClient[1..];
      if client != Waiting {
        return;
      }
      var isDone := m.Done?;
      if m.Thrown? {
        Finally(isDone, SourceFailed(Carried(m.error)));
      } else if m.Value? && m.payload.Some? {
        var d := env.decode(m.payload.value);
        if d.DecodeThrows? {
          Finally(isDone, DecodeFailed);
        } else {
          taken := taken + 1;
          received := received + [d.output];
          client := Suspended;
        }
      } else if isDone {
        Finally(isDone, Completed);
      } else {
        taken := taken + 1;
        PostRequest(Next);
      }
    }

    /** The server's `onmessage` up to its `await`. */
    method ServerOnMessage()
      requires toServer != [] && !closing
      modifies this
      ensures Snapshot() == Step(env, old(Snapshot()), ServerTakes)
    {
      var m := toServer[0];
      toServer := toServer[1..];
      if m == Next {
        pulls := pulls + 1;
      } else {
        serverOpen := false;
        if env.hasReturn {
          returned := returned + 1;
        }
      }
    }

    /** The server's `onmessage` after `await iterator.next()`, up to `port.close()`. */
    method ServerResume()
      requires settled < pulls
      modifies this
      ensures Snapshot() == Step(env, old(Snapshot()), SourceSettles)
    {
      var p := env.pull(settled);
      settled := settled + 1;
      var failure: Option<Option<Error>> := None;
      match p {
        case Ends =>
          PostReply(Done);
          closing := true;
        case Throws(e) =>
          failure := Some(e);
        case Yields(x) =>
          match env.encode(x) {
            case Encoded(payload) => PostReply(Value(payload));
            case EncodeThrows(e) => failure := Some(e);
          }
      }
      if failure.Some? && failure.value.Some? {
        PostReply(Thrown(failure.value.value));
        closing := true;
      }
    }

    method CloseServerPort()
      requires closing
      modifies this
      ensures Snapshot() == Step(env, old(Snapshot()), ServerCloses)
    {
      serverOpen := false;
      closing := false;
    }
  }
}
