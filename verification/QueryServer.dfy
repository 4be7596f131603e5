/**
 The life of a query on the message-port server: entered in the table, run, deleted from the
 table when `run` has returned (which is before the service settles), and answered when its
 result settles.  Abort messages and settlements may come at any point in between.
 */
module QueryServer {
  import opened Outcomes
  import opened Sequences

  type Payload(!new)
  type Fault(!new)

  /**
   How a promise settles.  NoValue: fulfilled with undefined or null.  Failed(None): rejected with
   what cannot be described in an answer: null, undefined, or an error with a property that cannot
   be cloned.
   */
  datatype Settlement = Fulfilled(value: Payload) | NoValue | Failed(error: Option<Error>)

  datatype Error = ServiceError(fault: Fault) | NamespaceNotFound | MethodNotFound | Aborted | NoTransfer | NotCloneable

  /** What `services[namespace][method]` is, and does when called. */
  datatype Service = NoNamespace | NoMethod | Throws(error: Option<Error>) | Runs

  datatype Env = Env(service: (string, string) -> Service, cloneable: Payload -> bool)

  datatype Reply = OkReply(value: Payload) | ErrorReply(error: Error)

  /** What is posted for a settlement.  None: describing the rejection, or posting its description, throws. */
  function ReplyTo(env: Env, r: Settlement): Option<Reply> {
    match r
    case Fulfilled(v) => Some(if env.cloneable(v) then OkReply(v) else ErrorReply(NotCloneable))
    case NoValue => Some(ErrorReply(NoTransfer)) // reading its `transfer` throws
    case Failed(Some(e)) => Some(ErrorReply(e))
    case Failed(None) => None
  }

  /** What `run` does to the result before it returns. */
  function RunResult(env: Env, namespace: string, procedure: string): Option<Settlement> {
    match env.service(namespace, procedure)
    case NoNamespace => Some(Failed(Some(NamespaceNotFound)))
    case NoMethod => Some(Failed(Some(MethodNotFound)))
    case Throws(e) => Some(Failed(e))
    case Runs => None
  }

  /** Inserted: between insert and delete.  Waiting: deleted, awaiting the result.  Finished: `handleQuery` is over. */
  datatype Phase = Inserted | Waiting | Finished

  datatype View = View(id: string, aborted: bool, result: Option<Settlement>, phase: Phase)

  datatype Post = Post(query: nat, id: string, reply: Reply)

  /** Queries are numbered in order of arrival; the table maps ids to these numbers. */
  datatype State = State(table: map<string, nat>, queries: seq<View>, posts: seq<Post>)

  const INITIAL := State(map[], [], [])

  datatype Event =
    | Arrive(id: string, namespace: string, procedure: string)
    | Abort(id: string)
    | Returned(query: nat)                    // `await this.run(query)` continues
    | Settles(query: nat, result: Settlement) // the service's promise settles
    | Resulted(query: nat)                    // `await query.result` continues

  /** A promise settles once. */
  function First(old_: Option<Settlement>, r: Settlement): Option<Settlement> {
    if old_.Some? then old_ else Some(r)
  }

  function Step(env: Env, s: State, ev: Event): State {
    match ev
    case Arrive(id, ns, m) =>
      s.(table := s.table[id := |s.queries|], queries := s.queries + [View(id, false, RunResult(env, ns, m), Inserted)])
    case Abort(id) =>
      if id !in s.table || s.table[id] >= |s.queries| then s
      else
        var k := s.table[id];
        var q := s.queries[k];
        s.(table := s.table - {id}, queries := s.queries[k := q.(aborted := true, result := First(q.result, Failed(Some(Aborted))))])
    case Returned(k) =>
      if k >= |s.queries| || s.queries[k].phase != Inserted then s
      else
        var q := s.queries[k];
        s.(table := s.table - {q.id}, queries := s.queries[k := q.(phase := if q.aborted then Finished else Waiting)])
    case Settles(k, r) =>
      if k >= |s.queries| then s
      else s.(queries := s.queries[k := s.queries[k].(result := First(s.queries[k].result, r))])
    case Resulted(k) =>
      if k >= |s.queries| || s.queries[k].phase != Waiting || s.queries[k].result.None? then s
      else
        var q := s.queries[k];
        var reply := ReplyTo(env, q.result.value);
        s.(queries := s.queries[k := q.(phase := Finished)],
           posts := s.posts + if reply.Some? then [Post(k, q.id, reply.value)] else [])
  }

  function Run(env: Env, evs: seq<Event>): State {
    if evs == [] then INITIAL else Step(env, Run(env, evs[..|evs| - 1]), evs[|evs| - 1])
  }

  // ---------------------------------------------------------------- invariant

  ghost predicate DistinctIds(s: State) {
    forall i, j | 0 <= i < j < |s.queries| :: s.queries[i].id != s.queries[j].id
  }

  /** Between insert and delete, and not aborted. */
  predicate Open(q: View) {
    q.phase == Inserted && !q.aborted
  }

  /** Every entry leads to an open query of that id. */
  ghost predicate TableSound(s: State) {
    forall id | id in s.table :: s.table[id] < |s.queries| && s.queries[s.table[id]].id == id && Open(s.queries[s.table[id]])
  }

  /** And every open query has its entry. */
  ghost predicate TableExact(s: State) {
    && TableSound(s)
    && forall k | 0 <= k < |s.queries| && Open(s.queries[k]) :: s.queries[k].id in s.table && s.table[s.queries[k].id] == k
  }

  /** No two queries between insert and delete share an id. */
  ghost predicate WindowDistinct(s: State) {
    forall i, j | 0 <= i < j < |s.queries| && s.queries[i].phase == Inserted && s.queries[j].phase == Inserted ::
      s.queries[i].id != s.queries[j].id
  }

  /** The table is exact and stays so whichever query leaves the window next. */
  ghost predicate Robust(env: Env, s: State) {
    TableExact(s) && forall k: nat :: TableExact(Step(env, s, Returned(k)))
  }

  /** Every answer is that of a finished query that was not aborted, under its id, with its result. */
  ghost predicate PostsSound(env: Env, s: State) {
    forall i | 0 <= i < |s.posts| ::
      var p := s.posts[i];
      && p.query < |s.queries|
      && var q := s.queries[p.query];
         q.phase == Finished && !q.aborted && p.id == q.id && q.result.Some? && ReplyTo(env, q.result.value) == Some(p.reply)
  }

  ghost predicate PostsOnce(s: State) {
    forall i, j | 0 <= i < j < |s.posts| :: s.posts[i].query != s.posts[j].query
  }

  ghost predicate Answered(env: Env, s: State, k: nat)
    requires k < |s.queries|
  {
    && s.queries[k].result.Some?
    && (ReplyTo(env, s.queries[k].result.value).Some? ==> exists i :: 0 <= i < |s.posts| && s.posts[i].query == k)
  }

  /** Every finished query that was not aborted has its answer. */
  ghost predicate PostsComplete(env: Env, s: State) {
    forall k | 0 <= k < |s.queries| && s.queries[k].phase == Finished && !s.queries[k].aborted :: Answered(env, s, k)
  }

  ghost predicate AbortsSettled(s: State) {
    forall k | 0 <= k < |s.queries| && s.queries[k].aborted :: s.queries[k].phase != Waiting && s.queries[k].result.Some?
  }

  ghost predicate PostsExact(env: Env, s: State) {
    PostsSound(env, s) && PostsOnce(s) && PostsComplete(env, s) && AbortsSettled(s)
  }

  lemma TableSoundStep(env: Env, s: State, ev: Event)
    requires TableSound(s)
    ensures TableSound(Step(env, s, ev))
  {
  }

  lemma TableStep(env: Env, s: State, ev: Event)
    requires TableExact(s) && WindowDistinct(s) && WindowDistinct(Step(env, s, ev))
    ensures TableExact(Step(env, s, ev))
  {
    TableSoundStep(env, s, ev);
    var s' := Step(env, s, ev);
    forall k | 0 <= k < |s'.queries| && Open(s'.queries[k]) ensures s'.queries[k].id in s'.table && s'.table[s'.queries[k].id] == k {
      StillFound(env, s, ev, k);
    }
  }

  lemma StillFound(env: Env, s: State, ev: Event, k: nat)
    requires TableExact(s) && WindowDistinct(s) && WindowDistinct(Step(env, s, ev))
    requires k < |Step(env, s, ev).queries| && Open(Step(env, s, ev).queries[k])
    ensures var s' := Step(env, s, ev); s'.queries[k].id in s'.table && s'.table[s'.queries[k].id] == k
  {
    if k < |s.queries| {
      assert Open(s.queries[k]);
      if ev.Arrive? {
        assert Step(env, s, ev).queries[|s.queries|].phase == Inserted;
      }
    }
  }

  lemma ReturnedKeepsWindow(env: Env, s: State, k: nat)
    requires WindowDistinct(s)
    ensures WindowDistinct(Step(env, s, Returned(k)))
  {
  }

  lemma ArrivalClash(env: Env, s: State, ev: Event) returns (k: nat)
    requires TableExact(s) && WindowDistinct(s) && !WindowDistinct(Step(env, s, ev))
    ensures !TableExact(Step(env, s, ev)) || !TableExact(Step(env, Step(env, s, ev), Returned(k)))
  {
    var s' := Step(env, s, ev);
    var i, j :| 0 <= i < j < |s'.queries| && s'.queries[i].phase == Inserted && s'.queries[j].phase == Inserted &&
      s'.queries[i].id == s'.queries[j].id;
    k := i;
    var s'' := Step(env, s', Returned(i));
    assert Open(s''.queries[j]) && s''.queries[j].id !in s''.table;
  }

  /** The exact condition: an event leaves the table robust exactly when it lets no two queries with one id into the window. */
  lemma {:induction false} RobustIff(env: Env, s: State, ev: Event)
    requires TableExact(s) && WindowDistinct(s)
    ensures WindowDistinct(Step(env, s, ev)) <==> Robust(env, Step(env, s, ev))
  {
    var s' := Step(env, s, ev);
    if WindowDistinct(s') {
      TableStep(env, s, ev);
      forall k: nat ensures TableExact(Step(env, s', Returned(k))) {
        ReturnedKeepsWindow(env, s', k);
        TableStep(env, s', Returned(k));
      }
    } else {
      var k := ArrivalClash(env, s, ev);
    }
  }

  lemma SoundStep(env: Env, s: State, ev: Event)
    requires TableSound(s) && PostsSound(env, s) && AbortsSettled(s)
    ensures PostsSound(env, Step(env, s, ev))
  {
  }

  lemma OnceStep(env: Env, s: State, ev: Event)
    requires PostsSound(env, s) && PostsOnce(s)
    ensures PostsOnce(Step(env, s, ev))
  {
  }

  lemma SettledStep(env: Env, s: State, ev: Event)
    requires TableSound(s) && AbortsSettled(s)
    ensures AbortsSettled(Step(env, s, ev))
  {
  }

  lemma CompleteStep(env: Env, s: State, ev: Event)
    requires TableSound(s) && PostsComplete(env, s) && AbortsSettled(s)
    ensures PostsComplete(env, Step(env, s, ev))
  {
    var s' := Step(env, s, ev);
    forall k | 0 <= k < |s'.queries| && s'.queries[k].phase == Finished && !s'.queries[k].aborted ensures Answered(env, s', k) {
      if k < |s.queries| && s.queries[k].phase == Finished {
        assert Answered(env, s, k) && s'.queries[k].result == s.queries[k].result;
        if ReplyTo(env, s.queries[k].result.value).Some? {
          var i :| 0 <= i < |s.posts| && s.posts[i].query == k;
          assert s'.posts[i].query == k;
        }
      } else if ReplyTo(env, s'.queries[k].result.value).Some? {
        assert s'.posts[|s.posts|].query == k;
      }
    }
  }

  lemma PostsStep(env: Env, s: State, ev: Event)
    requires TableSound(s) && PostsExact(env, s)
    ensures PostsExact(env, Step(env, s, ev))
  {
    SoundStep(env, s, ev);
    OnceStep(env, s, ev);
    SettledStep(env, s, ev);
    CompleteStep(env, s, ev);
  }

  lemma {:induction false} RunInv(env: Env, evs: seq<Event>)
    ensures TableSound(Run(env, evs)) && PostsExact(env, Run(env, evs))
  {
    if evs != [] {
      var s := Run(env, evs[..|evs| - 1]);
      RunInv(env, evs[..|evs| - 1]);
      TableSoundStep(env, s, evs[|evs| - 1]);
      PostsStep(env, s, evs[|evs| - 1]);
    }
  }

  /** At no time of the run two queries with one id are in the window. */
  ghost predicate AlwaysWindowDistinct(env: Env, evs: seq<Event>) {
    WindowDistinct(Run(env, evs)) && (evs == [] || AlwaysWindowDistinct(env, evs[..|evs| - 1]))
  }

  ghost predicate AlwaysRobust(env: Env, evs: seq<Event>) {
    Robust(env, Run(env, evs)) && (evs == [] || AlwaysRobust(env, evs[..|evs| - 1]))
  }

  // ---------------------------------------------------------------- main results

  /** The answers posted for query k. */
  function AnswersOf(posts: seq<Post>, k: nat): seq<Post> {
    if posts == [] then []
    else AnswersOf(posts[..|posts| - 1], k) + if posts[|posts| - 1].query == k then [posts[|posts| - 1]] else []
  }

  /** The answers a client that sent `id` receives. */
  function AnswersTo(posts: seq<Post>, id: string): seq<Post> {
    if posts == [] then []
    else AnswersTo(posts[..|posts| - 1], id) + if posts[|posts| - 1].id == id then [posts[|posts| - 1]] else []
  }

  lemma {:induction false} AnswersAre(posts: seq<Post>, k: nat, only: Option<nat>)
    requires forall i | 0 <= i < |posts| :: posts[i].query == k <==> only == Some(i)
    requires only.Some? ==> only.value < |posts|
    ensures AnswersOf(posts, k) == if only.Some? then [posts[only.value]] else []
  {
    if posts != [] {
      var n := |posts| - 1;
      var before := if only == Some(n) then None else only;
      assert forall i | 0 <= i < n :: posts[..n][i].query == k <==> before == Some(i);
      AnswersAre(posts[..n], k, before);
    }
  }

  lemma {:induction false} SameAnswers(posts: seq<Post>, k: nat, id: string)
    requires forall p | p in posts :: p.query == k <==> p.id == id
    ensures AnswersTo(posts, id) == AnswersOf(posts, k)
  {
    if posts != [] {
      SameAnswers(posts[..|posts| - 1], k, id);
    }
  }

  /** No other query has the id of query k. */
  ghost predicate UniqueId(s: State, k: nat) {
    k < |s.queries| && forall j | 0 <= j < |s.queries| && j != k :: s.queries[j].id != s.queries[k].id
  }

  lemma AllOfTheId(env: Env, s: State, k: nat)
    requires PostsSound(env, s) && UniqueId(s, k)
    ensures AnswersTo(s.posts, s.queries[k].id) == AnswersOf(s.posts, k)
  {
    forall p | p in s.posts ensures p.query == k <==> p.id == s.queries[k].id {
      var i :| 0 <= i < |s.posts| && s.posts[i] == p;
      assert s.queries[p.query].id == p.id;
    }
    SameAnswers(s.posts, k, s.queries[k].id);
  }

  /** The one answer a query calls for, when it is finished. */
  function Due(env: Env, q: View, k: nat): seq<Post> {
    if q.phase == Finished && !q.aborted && q.result.Some? && ReplyTo(env, q.result.value).Some?
    then [Post(k, q.id, ReplyTo(env, q.result.value).value)] else []
  }

  /**
   Over every interleaving of queries, aborts and settlements, whatever the ids: a query that was
   aborted while in the table is never answered; any other is answered exactly once, when it is
   finished, under its own id and with what its result first settled to (not at all if that was a
   rejection that cannot be described).  Where no other query has the id, these are all the answers
   the client receives for it.
   */
  lemma {:induction false} AnsweredOnce(env: Env, evs: seq<Event>, k: nat)
    requires k < |Run(env, evs).queries|
    ensures var s := Run(env, evs);
            && AnswersOf(s.posts, k) == Due(env, s.queries[k], k)
            && (UniqueId(s, k) ==> AnswersTo(s.posts, s.queries[k].id) == Due(env, s.queries[k], k))
  {
    RunInv(env, evs);
    var s := Run(env, evs);
    var q := s.queries[k];
    if Due(env, q, k) != [] {
      assert Answered(env, s, k);
      var i :| 0 <= i < |s.posts| && s.posts[i].query == k;
      AnswersAre(s.posts, k, Some(i));
    } else {
      AnswersAre(s.posts, k, None);
    }
    if UniqueId(s, k) {
      AllOfTheId(env, s, k);
    }
  }

  /**
   The table is exact all the way, and cannot be broken by the next query that leaves the window,
   exactly when at no time two queries with one id are in the window together.  An id may be used
   again once its earlier query has left.
   */
  lemma {:induction false} TableExactIff(env: Env, evs: seq<Event>)
    ensures AlwaysRobust(env, evs) <==> AlwaysWindowDistinct(env, evs)
  {
    if evs != [] {
      var n := |evs| - 1;
      TableExactIff(env, evs[..n]);
      if AlwaysRobust(env, evs[..n]) {
        RobustIff(env, Run(env, evs[..n]), evs[n]);
      }
    }
  }

  /** The table holds exactly the queries between insert and delete, so it drains. */
  lemma {:induction false} TableDrains(env: Env, evs: seq<Event>)
    requires AlwaysWindowDistinct(env, evs)
    ensures var s := Run(env, evs);
            && TableExact(s)
            && ((forall k | 0 <= k < |s.queries| :: s.queries[k].phase != Inserted) ==> s.table == map[])
  {
    TableExactIff(env, evs);
  }

  /** Ids that are distinct for ever are distinct in the window. */
  lemma {:induction false} DistinctInWindow(env: Env, evs: seq<Event>)
    requires DistinctIds(Run(env, evs))
    ensures AlwaysWindowDistinct(env, evs)
  {
    if evs != [] {
      var s := Run(env, evs[..|evs| - 1]);
      assert forall k | 0 <= k < |s.queries| :: Run(env, evs).queries[k].id == s.queries[k].id;
      DistinctInWindow(env, evs[..|evs| - 1]);
    }
  }

  /**
   An abort for which no query of that id is open changes nothing, whatever the ids; and with ids
   distinct in the window only such an abort changes nothing.
   */
  lemma {:induction false} LateAbort(env: Env, evs: seq<Event>, id: string)
    ensures var s := Run(env, evs);
            var late := forall k | 0 <= k < |s.queries| && s.queries[k].id == id :: !Open(s.queries[k]);
            && (late ==> Step(env, s, Abort(id)) == s)
            && (AlwaysWindowDistinct(env, evs) && Step(env, s, Abort(id)) == s ==> late)
  {
    RunInv(env, evs);
    if AlwaysWindowDistinct(env, evs) {
      TableDrains(env, evs);
      var s := Run(env, evs);
      forall k | 0 <= k < |s.queries| && s.queries[k].id == id && Open(s.queries[k]) ensures Step(env, s, Abort(id)) != s {
        assert Step(env, s, Abort(id)).queries[k].aborted;
      }
    }
  }

  lemma RunLast(env: Env, evs: seq<Event>, front: seq<Event>, ev: Event)
    requires evs != [] && evs[..|evs| - 1] == front && evs[|evs| - 1] == ev
    ensures Run(env, evs) == Step(env, Run(env, front), ev)
  {
  }

  lemma RunOn(env: Env, evs: seq<Event>, more: seq<Event>)
    requires more != []
    ensures Run(env, evs + more) == Step(env, Run(env, evs + more[..|more| - 1]), more[|more| - 1])
  {
    LastOf(evs, more);
    RunLast(env, evs + more, evs + more[..|more| - 1], more[|more| - 1]);
  }

  lemma SettledOne(env: Env, s: State, ev: Event, k: nat)
    requires k < |s.queries|
    ensures var q, s' := s.queries[k], Step(env, s, ev);
            && k < |s'.queries| && s'.queries[k].id == q.id
            && (q.aborted ==> s'.queries[k].aborted)
            && (q.result.Some? ==> s'.queries[k].result == q.result)
  {
  }

  /** Once settled or aborted, a query stays so. */
  lemma {:induction false} Settled(env: Env, evs: seq<Event>, more: seq<Event>, k: nat)
    requires k < |Run(env, evs).queries|
    ensures var q, s' := Run(env, evs).queries[k], Run(env, evs + more);
            && k < |s'.queries| && s'.queries[k].id == q.id
            && (q.aborted ==> s'.queries[k].aborted)
            && (q.result.Some? ==> s'.queries[k].result == q.result)
    decreases |more|
  {
    if more == [] {
      assert evs + more == evs;
    } else {
      var most := more[..|more| - 1];
      Settled(env, evs, most, k);
      RunOn(env, evs, more);
      SettledOne(env, Run(env, evs + most), more[|more| - 1], k);
    }
  }

  /**
   An abort in the window, while the query has its entry, keeps it from ever being answered,
   whatever happens next.  With ids distinct in the window it has its entry as long as it is open.
   */
  lemma {:induction false} AbortInWindow(env: Env, evs: seq<Event>, k: nat, more: seq<Event>)
    requires var s := Run(env, evs);
             && k < |s.queries| && Open(s.queries[k])
             && ((s.queries[k].id in s.table && s.table[s.queries[k].id] == k) || AlwaysWindowDistinct(env, evs))
    ensures var id := Run(env, evs).queries[k].id;
            var s' := Run(env, evs + [Abort(id)] + more);
            AnswersOf(s'.posts, k) == [] && (UniqueId(s', k) ==> AnswersTo(s'.posts, id) == [])
  {
    var id := Run(env, evs).queries[k].id;
    var upTo := evs + [Abort(id)];
    assert upTo[..|upTo| - 1] == evs;
    if AlwaysWindowDistinct(env, evs) {
      TableDrains(env, evs);
    }
    assert Run(env, upTo).queries[k].aborted;
    Settled(env, upTo, more, k);
    AnsweredOnce(env, upTo + more, k);
  }

  /**
   Where that fails: an id is used twice within the window, the end of the first run deletes the
   entry of the second query, and this is then out of reach of an abort although still in its window.
   */
  lemma {:induction false} DuplicateIdLosesEntry(env: Env, id: string, ns: string, m: string)
    ensures var s := Run(env, [Arrive(id, ns, m), Arrive(id, ns, m), Returned(0)]);
            |s.queries| == 2 && Open(s.queries[1]) && !TableExact(s) && Step(env, s, Abort(id)) == s
  {
    var evs := [Arrive(id, ns, m), Arrive(id, ns, m), Returned(0)];
    assert evs[..2] == [Arrive(id, ns, m), Arrive(id, ns, m)];
    assert evs[..2][..1] == [Arrive(id, ns, m)];
    assert evs[..2][..1][..0] == [];
    assert Run(env, evs[..2][..1]) == Step(env, INITIAL, Arrive(id, ns, m));
    assert Run(env, evs[..2]) == Step(env, Run(env, evs[..2][..1]), Arrive(id, ns, m));
  }

  // ---------------------------------------------------------------- answers in terms of the events

  /** Event a is the arrival of query k. */
  ghost predicate ArrivesAs(env: Env, evs: seq<Event>, a: nat, k: nat) {
    a < |evs| && evs[a].Arrive? && |Run(env, evs[..a]).queries| == k
  }

  /** Event j is an abort that finds query k in the table. */
  ghost predicate AbortFinds(env: Env, evs: seq<Event>, j: nat, k: nat) {
    && j < |evs| && evs[j].Abort?
    && var t := Run(env, evs[..j]).table;
       evs[j].id in t && t[evs[j].id] == k
  }

  /** Some abort behind the arrival finds query k. */
  ghost predicate AbortFound(env: Env, evs: seq<Event>, a: nat, k: nat) {
    exists j: nat :: a < j && AbortFinds(env, evs, j, k)
  }

  /** Event j settles query k with r, unless it is settled already. */
  ghost predicate SettlesAt(env: Env, evs: seq<Event>, j: nat, k: nat, r: Settlement) {
    || (j < |evs| && evs[j] == Settles(k, r))
    || (AbortFinds(env, evs, j, k) && r == Failed(Some(Aborted)))
  }

  /** The first event behind the arrival that settles query k does so with r. */
  ghost predicate FirstSettles(env: Env, evs: seq<Event>, a: nat, k: nat, r: Settlement) {
    exists j: nat :: a < j && SettlesAt(env, evs, j, k, r) && NotSettled(env, evs, a, j, k)
  }

  ghost predicate NotSettled(env: Env, evs: seq<Event>, a: nat, j: nat, k: nat) {
    forall i: nat, r | a < i < j :: !SettlesAt(env, evs, i, k, r)
  }

  /** What the call of the service comes to: at once if there is none or it throws, else by the first event that settles it. */
  ghost predicate ComesTo(env: Env, evs: seq<Event>, a: nat, k: nat, r: Settlement)
    requires a < |evs| && evs[a].Arrive?
  {
    match env.service(evs[a].namespace, evs[a].procedure)
    case NoNamespace => r == Failed(Some(NamespaceNotFound))
    case NoMethod => r == Failed(Some(MethodNotFound))
    case Throws(e) => r == Failed(e)
    case Runs => FirstSettles(env, evs, a, k, r)
  }

  lemma FrontAt(env: Env, evs: seq<Event>, j: nat)
    requires evs != [] && j < |evs| - 1
    ensures evs[..|evs| - 1][j] == evs[j] && evs[..|evs| - 1][..j] == evs[..j]
  {
  }

  lemma FrontSettles(env: Env, evs: seq<Event>, j: nat, k: nat, r: Settlement)
    requires evs != [] && j < |evs| - 1
    ensures SettlesAt(env, evs, j, k, r) <==> SettlesAt(env, evs[..|evs| - 1], j, k, r)
    ensures AbortFinds(env, evs, j, k) <==> AbortFinds(env, evs[..|evs| - 1], j, k)
  {
    FrontAt(env, evs, j);
  }

  /** A query keeps its number, its id and its first settlement; an event settles or aborts it only as defined above. */
  lemma StepSettles(env: Env, evs: seq<Event>, k: nat)
    requires evs != [] && k < |Run(env, evs[..|evs| - 1]).queries|
    ensures var n := |evs| - 1;
            var q, q' := Run(env, evs[..n]).queries[k], Run(env, evs).queries[k];
            && k < |Run(env, evs).queries| && q'.id == q.id
            && (q.result.Some? ==> q'.result == q.result)
            && (q.result.None? && q'.result.Some? ==> SettlesAt(env, evs, n, k, q'.result.value))
            && (q'.result.None? ==> forall r :: !SettlesAt(env, evs, n, k, r))
            && (q'.aborted <==> q.aborted || AbortFinds(env, evs, n, k))
  {
    RunInv(env, evs[..|evs| - 1]);
  }

  /** A query has the id it arrived with; it is aborted exactly when an abort has found it. */
  lemma {:induction false} ArrivedQuery(env: Env, evs: seq<Event>, a: nat, k: nat)
    requires ArrivesAs(env, evs, a, k)
    ensures var s := Run(env, evs);
            && k < |s.queries| && s.queries[k].id == evs[a].id
            && (s.queries[k].aborted <==> AbortFound(env, evs, a, k))
  {
    var n := |evs| - 1;
    if a < n {
      FrontAt(env, evs, a);
      ArrivedQuery(env, evs[..n], a, k);
      StepSettles(env, evs, k);
      AbortsSoFar(env, evs, a, k);
    }
  }

  lemma AbortsSoFar(env: Env, evs: seq<Event>, a: nat, k: nat)
    requires evs != [] && a < |evs| - 1
    ensures AbortFound(env, evs, a, k) <==> AbortFound(env, evs[..|evs| - 1], a, k) || AbortFinds(env, evs, |evs| - 1, k)
  {
    var n := |evs| - 1;
    forall j: nat | j < n ensures AbortFinds(env, evs, j, k) <==> AbortFinds(env, evs[..n], j, k) {
      FrontSettles(env, evs, j, k, NoValue);
    }
  }

  /** Whether a query is settled, and with what. */
  lemma {:induction false} ResultIs(env: Env, evs: seq<Event>, a: nat, k: nat)
    requires ArrivesAs(env, evs, a, k)
    ensures var s := Run(env, evs);
            && k < |s.queries|
            && (s.queries[k].result.Some? ==> ComesTo(env, evs, a, k, s.queries[k].result.value))
            && (s.queries[k].result.None? ==>
                  env.service(evs[a].namespace, evs[a].procedure) == Runs && NotSettled(env, evs, a, |evs|, k))
  {
    var n := |evs| - 1;
    if a < n {
      FrontAt(env, evs, a);
      ResultIs(env, evs[..n], a, k);
      StepSettles(env, evs, k);
      FirstSoFar(env, evs, a, k);
    }
  }

  lemma FirstSoFar(env: Env, evs: seq<Event>, a: nat, k: nat)
    requires evs != [] && a < |evs| - 1
    ensures forall r | FirstSettles(env, evs[..|evs| - 1], a, k, r) :: FirstSettles(env, evs, a, k, r)
    ensures NotSettled(env, evs[..|evs| - 1], a, |evs| - 1, k) ==> NotSettled(env, evs, a, |evs| - 1, k)
    ensures forall r | NotSettled(env, evs, a, |evs| - 1, k) && SettlesAt(env, evs, |evs| - 1, k, r) :: FirstSettles(env, evs, a, k, r)
  {
    var n := |evs| - 1;
    forall i: nat, r | i < n ensures SettlesAt(env, evs, i, k, r) <==> SettlesAt(env, evs[..n], i, k, r) {
      FrontSettles(env, evs, i, k, r);
    }
    forall r | FirstSettles(env, evs[..n], a, k, r) ensures FirstSettles(env, evs, a, k, r) {
      var j: nat :| a < j && SettlesAt(env, evs[..n], j, k, r) && NotSettled(env, evs[..n], a, j, k);
      assert j < n;
      assert NotSettled(env, evs, a, j, k);
    }
  }

  /** A query comes to one settlement only. */
  lemma {:induction false} ComesToOne(env: Env, evs: seq<Event>, a: nat, k: nat, r: Settlement, r': Settlement)
    requires a < |evs| && evs[a].Arrive? && ComesTo(env, evs, a, k, r) && ComesTo(env, evs, a, k, r')
    ensures r == r'
  {
    if env.service(evs[a].namespace, evs[a].procedure) == Runs {
      var j: nat :| a < j && SettlesAt(env, evs, j, k, r) && NotSettled(env, evs, a, j, k);
      var i: nat :| a < i && SettlesAt(env, evs, i, k, r') && NotSettled(env, evs, a, i, k);
      assert i == j;
    }
  }

  /**
   What the client gets, from the events alone: a finished query that no abort has found is answered
   once, under the id it arrived with: with the value its service fulfilled if that can be cloned,
   else with an error that says so; with the error of a rejection, of an unknown namespace or method,
   or of a service that throws; with the error of an abort never; and not at all when the rejection
   cannot be described.  A query that an abort has found is never answered.
   */
  lemma {:induction false} AnswerFromEvents(env: Env, evs: seq<Event>, a: nat, k: nat, r: Settlement)
    requires ArrivesAs(env, evs, a, k)
    ensures var s := Run(env, evs);
            && k < |s.queries|
            && (AbortFound(env, evs, a, k) ==> AnswersOf(s.posts, k) == [])
            && (s.queries[k].phase != Finished ==> AnswersOf(s.posts, k) == [])
            && (s.queries[k].phase == Finished && !AbortFound(env, evs, a, k) &&
                ComesTo(env, evs, a, k, r) ==>
                  AnswersOf(s.posts, k) ==
                  match r
                  case Fulfilled(v) =>
                    if env.cloneable(v) then [Post(k, evs[a].id, OkReply(v))] else [Post(k, evs[a].id, ErrorReply(NotCloneable))]
                  case NoValue => [Post(k, evs[a].id, ErrorReply(NoTransfer))]
                  case Failed(Some(e)) => [Post(k, evs[a].id, ErrorReply(e))]
                  case Failed(None) => [])
  {
    ArrivedQuery(env, evs, a, k);
    ResultIs(env, evs, a, k);
    AnsweredOnce(env, evs, k);
    RunInv(env, evs);
    var s := Run(env, evs);
    if s.queries[k].phase == Finished && !s.queries[k].aborted && ComesTo(env, evs, a, k, r) {
      assert Answered(env, s, k);
      ComesToOne(env, evs, a, k, r, s.queries[k].result.value);
    }
  }

  /** Nothing holds a query up: the end of `run` takes it out of the window, and its settlement then finishes it. */
  lemma {:induction false} QueriesGoOn(env: Env, s: State, k: nat)
    requires k < |s.queries|
    ensures s.queries[k].phase == Inserted ==>
              Step(env, s, Returned(k)).queries[k].phase == if s.queries[k].aborted then Finished else Waiting
    ensures s.queries[k].phase == Waiting && s.queries[k].result.Some? ==> Step(env, s, Resulted(k)).queries[k].phase == Finished
    ensures s.queries[k].phase == Waiting && s.queries[k].result.None? ==> Step(env, s, Resulted(k)) == s
  {
  }

  // ---------------------------------------------------------------- the classes

  /** A query received on the server: its deferred result and its abort signal. */
  class Query {
    const serial: nat
    const id: string
    const namespace: string
    const procedure: string
    var aborted: bool
    var result: Option<Settlement>
    var phase: Phase

    constructor (serial: nat, id: string, namespace: string, procedure: string)
      ensures this.serial == serial && this.id == id && this.namespace == namespace && this.procedure == procedure
      ensures Now() == View(id, false, None, Inserted)
    {
      this.serial, this.id, this.namespace, this.procedure := serial, id, namespace, procedure;
      aborted, result, phase := false, None, Inserted;
    }

    function Now(): View
      reads this
    {
      View(id, aborted, result, phase)
    }

    /** `succeed` and `fail`: only the first call counts. */
    method Settle(r: Settlement)
      modifies this`result
      ensures result == First(old(result), r)
    {
      if result.None? {
        result := Some(r);
      }
    }

    method Cancel()
      modifies this
      ensures Now() == old(Now()).(aborted := true, result := First(old(result), Failed(Some(Aborted))))
    {
      aborted := true;
      Settle(Failed(Some(Aborted)));
    }
  }

  class Server {
    const env: Env
    var queries: map<string, Query>
    var received: seq<Query> // every query object handed to handleQuery
    var posts: seq<Post>
    ghost var table: map<string, nat>
    ghost var views: seq<View>

    ghost predicate Valid()
      reads this, received
    {
      && |views| == |received|
      && (forall i | 0 <= i < |received| :: received[i].serial == i && views[i] == received[i].Now())
      && table.Keys == queries.Keys
      && (forall id | id in queries :: table[id] == queries[id].serial < |received| && received[table[id]] == queries[id])
    }

    ghost function Snapshot(): State
      reads this
    {
      State(table, views, posts)
    }

    constructor (env: Env)
      ensures this.env == env && Valid() && Snapshot() == INITIAL
    {
      this.env := env;
      queries, received, posts := map[], [], [];
      table, views := map[], [];
    }

    method AbortQuery(id: string)
      requires Valid()
      modifies this`queries, this`table, this`views, received
      ensures Valid() && received == old(received)
      ensures Snapshot() == Step(env, old(Snapshot()), Event.Abort(id))
    {
      if id in queries {
        var query := queries[id];
        queries := queries - {id};
        query.Cancel();
        table := table - {id};
        views := views[query.serial := query.Now()];
      }
    }

    /** `handleQuery` up to its first `await`. */
    method HandleQuery(id: string, namespace: string, procedure: string)
      requires Valid()
      modifies this
      ensures Valid() && |received| == |old(received)| + 1 && fresh(received[|old(received)|])
      ensures Snapshot() == Step(env, old(Snapshot()), Event.Arrive(id, namespace, procedure))
    {
      var query := new Query(|received|, id, namespace, procedure);
      queries := queries[id := query];
      received := received + [query];
      Invoke(query);
      table := table[id := query.serial];
      views := views + [query.Now()];
    }

    method Invoke(query: Query)
      modifies query`result
      ensures query.result == if RunResult(env, query.namespace, query.procedure).None? then old(query.result)
                              else First(old(query.result), RunResult(env, query.namespace, query.procedure).value)
    {
      match env.service(query.namespace, query.procedure) {
        case NoNamespace => query.Settle(Failed(Some(NamespaceNotFound)));
        case NoMethod => query.Settle(Failed(Some(MethodNotFound)));
        case Throws(e) => query.Settle(Failed(e));
        case Runs =>
      }
    }

    /** `Promise.resolve(result).then(query.succeed, query.fail)` */
    method OnServiceSettled(query: Query, r: Settlement)
      requires Valid() && query in received
      modifies this`views, query
      ensures Valid() && received == old(received)
      ensures Snapshot() == Step(env, old(Snapshot()), Event.Settles(query.serial, r))
    {
      query.Settle(r);
      views := views[query.serial := query.Now()];
    }

    /** `handleQuery` after `await this.run(query)`, up to `await query.result`. */
    method AfterRun(query: Query)
      requires Valid() && query in received && query.phase == Inserted
      modifies this`queries, this`table, this`views, query
      ensures Valid() && received == old(received)
      ensures Snapshot() == Step(env, old(Snapshot()), Event.Returned(query.serial))
    {
      queries := queries - {query.id};
      query.phase := if query.aborted then Finished else Waiting;
      table := table - {query.id};
      views := views[query.serial := query.Now()];
    }

    /** `handleQuery` after `await query.result`. */
    method AfterResult(query: Query)
      requires Valid() && query in received && query.phase == Waiting && query.result.Some?
      modifies this`posts, this`views, query
      ensures Valid() && received == old(received)
      ensures Snapshot() == Step(env, old(Snapshot()), Event.Resulted(query.serial))
      ensures posts == old(posts) +
                       match old(query.result).value
                       case Fulfilled(v) => [Post(query.serial, query.id, if env.cloneable(v) then OkReply(v) else ErrorReply(NotCloneable))]
                       case NoValue => [Post(query.serial, query.id, ErrorReply(NoTransfer))]
                       case Failed(Some(e)) => [Post(query.serial, query.id, ErrorReply(e))]
                       case Failed(None) => []
    {
      var error: Option<Error> := None;
      match query.result.value {
        case Fulfilled(value) =>
          if env.cloneable(value) {
            posts := posts + [Post(query.serial, query.id, OkReply(value))];
          } else {
            error := Some(NotCloneable);
          }
        case NoValue => error := Some(NoTransfer);
        case Failed(e) => error := e;
      }
      if error.Some? {
        posts := posts + [Post(query.serial, query.id, ErrorReply(error.value))];
      }
      query.phase := Finished;
      views := views[query.serial := query.Now()];
    }
  }
}
