/** IPFS paths as text: splitting on slashes and joining again. */
module Paths {

  /** Index of the first slash, or the length. */
  function Slash(p: string): (i: nat)
    ensures i <= |p| && '/' !in p[..i] && (i < |p| ==> p[i] == '/')
  {
    if p == "" || p[0] == '/' then 0
    else
      var j := Slash(p[1..]);
      assert p[..j + 1] == [p[0]] + p[1..][..j];
      j + 1
  }

  /** `p.split('/')` */
  function Split(p: string): (parts: seq<string>)
    ensures |parts| > 0
    decreases |p|
  {
    var i := Slash(p);
    if i == |p| then [p] else [p[..i]] + Split(p[i + 1..])
  }

  /** `parts.join('/')` */
  function Join(parts: seq<string>): string {
    if parts == [] then ""
    else if |parts| == 1 then parts[0]
    else parts[0] + "/" + Join(parts[1..])
  }

  /** `parts.filter(Boolean)` */
  function NonEmpty(parts: seq<string>): seq<string> {
    if parts == [] then []
    else (if parts[0] == "" then [] else [parts[0]]) + NonEmpty(parts[1..])
  }

  function Segments(p: string): seq<string> {
    NonEmpty(Split(p))
  }

  ghost predicate Clean(segs: seq<string>) {
    forall i | 0 <= i < |segs| :: segs[i] != "" && '/' !in segs[i]
  }

  lemma SplitCons(p: string)
    requires Slash(p) < |p|
    ensures Split(p) == [p[..Slash(p)]] + Split(p[Slash(p) + 1..])
  {
  }

  lemma JoinCons(head: string, rest: seq<string>)
    requires rest != []
    ensures Join([head] + rest) == head + "/" + Join(rest)
  {
    assert ([head] + rest)[1..] == rest;
  }

  lemma {:induction false} JoinSplit(p: string)
    ensures Join(Split(p)) == p
    decreases |p|
  {
    var i := Slash(p);
    if i < |p| {
      var rest := p[i + 1..];
      JoinSplit(rest);
      SplitCons(p);
      JoinCons(p[..i], Split(rest));
      assert p == p[..i] + "/" + rest;
    }
  }

  lemma {:induction false} SlashIs(p: string, i: nat)
    requires i <= |p| && '/' !in p[..i] && (i < |p| ==> p[i] == '/')
    ensures Slash(p) == i
  {
    if i > 0 {
      assert p[..i][0] == p[0] && p[1..][..i - 1] == p[..i][1..];
      SlashIs(p[1..], i - 1);
    }
  }

  /** Joining segments and splitting the text gives the segments back. */
  lemma {:induction false} SegmentsJoin(segs: seq<string>)
    requires Clean(segs)
    ensures Segments(Join(segs)) == segs
  {
    if segs == [] {
      assert Split("") == [""] && NonEmpty([""]) == [] + NonEmpty([]);
    } else if |segs| == 1 {
      SlashIs(segs[0], |segs[0]|);
      assert Split(segs[0]) == [segs[0]];
      assert NonEmpty([segs[0]]) == [segs[0]] + NonEmpty([]);
    } else {
      var rest := Join(segs[1..]);
      SegmentsJoin(segs[1..]);
      var p := segs[0] + "/" + rest;
      assert p[..|segs[0]|] == segs[0] && p[|segs[0]| + 1..] == rest;
      SlashIs(p, |segs[0]|);
      assert Split(p) == [segs[0]] + Split(rest);
      assert Split(p)[1..] == Split(rest);
    }
  }

  lemma {:induction false} SplitClean(p: string)
    ensures forall s | s in Split(p) :: '/' !in s
    decreases |p|
  {
    if Slash(p) < |p| {
      SplitClean(p[Slash(p) + 1..]);
    }
  }

  lemma {:induction false} NonEmptyClean(parts: seq<string>)
    requires forall s | s in parts :: '/' !in s
    ensures Clean(NonEmpty(parts))
  {
    if parts != [] {
      NonEmptyClean(parts[1..]);
    }
  }

  lemma NonEmptyCons(x: string, rest: seq<string>)
    ensures NonEmpty([x] + rest) == (if x == "" then [] else [x]) + NonEmpty(rest)
  {
    assert ([x] + rest)[1..] == rest;
  }

  lemma Assoc<T>(a: seq<T>, b: seq<T>, c: seq<T>)
    ensures a + b + c == a + (b + c)
  {
  }

  lemma NonEmptyStep(x: string, rest: seq<string>, b: seq<string>)
    requires NonEmpty(rest + b) == NonEmpty(rest) + NonEmpty(b)
    ensures NonEmpty([x] + rest + b) == NonEmpty([x] + rest) + NonEmpty(b)
  {
    Assoc([x], rest, b);
    NonEmptyCons(x, rest);
    NonEmptyCons(x, rest + b);
    Assoc(if x == "" then [] else [x], NonEmpty(rest), NonEmpty(b));
  }

  lemma {:induction false} NonEmptyAppend(a: seq<string>, b: seq<string>)
    ensures NonEmpty(a + b) == NonEmpty(a) + NonEmpty(b)
  {
    if a == [] {
      assert a + b == b;
    } else {
      NonEmptyAppend(a[1..], b);
      NonEmptyStep(a[0], a[1..], b);
      assert a == [a[0]] + a[1..];
    }
  }

  lemma HeadRead(head: string, rest: string)
    requires '/' !in head
    ensures var t := head + "/" + rest;
            Slash(t) == |head| < |t| && t[..|head|] == head && t[|head|..] == "/" + rest && t[|head| + 1..] == rest
  {
    var t := head + "/" + rest;
    assert t[..|head|] == head;
    SlashIs(t, |head|);
  }

  lemma HeadAlone(head: string)
    requires '/' !in head
    ensures Slash(head) == |head| && head[..|head|] == head && Split(head) == [head]
  {
    SlashIs(head, |head|);
  }

  lemma SplitHead(head: string, rest: string)
    requires '/' !in head
    ensures Split(head + "/" + rest) == [head] + Split(rest)
  {
    HeadRead(head, rest);
    SplitCons(head + "/" + rest);
  }

  lemma SplitStep(head: string, rest: string, b: string)
    requires '/' !in head && Split(rest + "/" + b) == Split(rest) + Split(b)
    ensures Split(head + "/" + (rest + "/" + b)) == Split(head + "/" + rest) + Split(b)
  {
    SplitHead(head, rest);
    SplitHead(head, rest + "/" + b);
    Assoc([head], Split(rest), Split(b));
  }

  lemma WholeText(a: string)
    ensures a[..|a|] == a
  {
  }

  lemma {:induction false} SplitAt(a: string, b: string)
    ensures Split(a + "/" + b) == Split(a) + Split(b)
    decreases |a|
  {
    var i := Slash(a);
    if i == |a| {
      WholeText(a);
      HeadAlone(a);
      SplitHead(a, b);
    } else {
      SplitAt(a[i + 1..], b);
      SplitStep(a[..i], a[i + 1..], b);
      AroundSlash(a, i, b);
    }
  }

  lemma AroundSlash(a: string, i: nat, b: string)
    requires i < |a| && a[i] == '/'
    ensures a == a[..i] + "/" + a[i + 1..] && a + "/" + b == a[..i] + "/" + (a[i + 1..] + "/" + b)
  {
  }

  /** Segments are what stands between slashes, without the empty ones. */
  lemma {:induction false} SegmentsAre(a: string, b: string)
    ensures Segments(a + "/" + b) == Segments(a) + Segments(b)
    ensures '/' !in a ==> Segments(a) == if a == "" then [] else [a]
  {
    SplitAt(a, b);
    NonEmptyAppend(Split(a), Split(b));
    if '/' !in a {
      assert a[..|a|] == a;
      SlashIs(a, |a|);
      assert NonEmpty([a]) == (if a == "" then [] else [a]) + NonEmpty([]);
    }
  }

  lemma SegmentsClean(p: string)
    ensures Clean(Segments(p))
  {
    SplitClean(p);
    NonEmptyClean(Split(p));
  }

  /** A leading slash names no segment. */
  lemma LeadingSlash(p: string)
    ensures Segments("/" + p) == Segments(p)
  {
    assert ("/" + p)[1..] == p;
    assert Split("/" + p) == [""] + Split(p);
    assert ([""] + Split(p))[1..] == Split(p);
  }
}

/**
 Walking an IPFS path over a store of linked blocks: `resolve` yields the values it passes,
 `resolvePath` shortens a (cid, path) pair to the last cid on the way.
 */
module PathResolution {
  import opened Outcomes
  import opened Paths

  datatype Cid = Cid(code: nat, digest: nat)

  const DAG_PB := 0x70

  datatype PBLink = PBLink(name: string, hash: Cid)

  /**
   A decoded value: null or undefined; a CID; anything else, with its own properties and, when
   its `Links` property is an array, the links in it.
   */
  datatype Value =
    | Nothing
    | CidValue(cid: Cid)
    | Node(own: map<string, Value>, links: Option<seq<PBLink>>, data: nat)

  datatype Failure =
    | InvalidCid
    | LoadFailed(cid: Cid, reason: nat)
    | NoLink(key: string, under: Cid)
    | NotAnObject // a property of null or undefined was asked for

  /** Codec lookup, block retrieval and decoding; the own properties of CID objects; CID parsing. */
  datatype Store = Store(
    block: Cid -> Result<Value, nat>, cidProps: Cid -> map<string, Value>,
    parse: string -> Option<Cid>, fromBytes: seq<bv8> -> Option<Cid>)

  function Load(st: Store, c: Cid): Result<Value, Failure> {
    match st.block(c)
    case Ok(v) => Ok(v)
    case Err(e) => Err(LoadFailed(c, e))
  }

  /** `links.find(l => l.Name === key)` */
  function FindLink(links: seq<PBLink>, key: string): Option<Cid> {
    if links == [] then None
    else if links[0].name == key then Some(links[0].hash)
    else FindLink(links[1..], key)
  }

  /** A link is found exactly when there is one of that name, and it is the first of them. */
  lemma {:induction false} FirstLink(links: seq<PBLink>, key: string)
    ensures FindLink(links, key) == None <==> forall i | 0 <= i < |links| :: links[i].name != key
    ensures forall j | 0 <= j < |links| && links[j].name == key && (forall i | 0 <= i < j :: links[i].name != key) ::
              FindLink(links, key) == Some(links[j].hash)
  {
    if links != [] {
      FirstLink(links[1..], key);
      forall j | 0 < j < |links| && links[j].name == key && (forall i | 0 <= i < j :: links[i].name != key)
        ensures FindLink(links, key) == Some(links[j].hash)
      {
        assert links[0].name != key && links[1..][j - 1] == links[j];
        assert forall i | 0 <= i < j - 1 :: links[1..][i] == links[i + 1];
      }
      assert forall i | 0 <= i < |links| - 1 :: links[1..][i] == links[i + 1];
    }
  }

  // ---------------------------------------------------------------- reference evaluator

  /** Where a path leads: a value, and the block it was found in. */
  datatype Position = Position(value: Value, under: Cid)

  /** One segment.  `pb`: link names count as segments, which the codec of the path's root decides. */
  function Lookup(st: Store, pb: bool, p: Position, key: string): Result<Value, Failure> {
    match p.value
    case Nothing => Err(NotAnObject)
    case CidValue(c) => if key in st.cidProps(c) then Ok(st.cidProps(c)[key]) else Err(NoLink(key, p.under))
    case Node(own, links, _) =>
      if pb && links.Some? && FindLink(links.value, key).Some? then Ok(CidValue(FindLink(links.value, key).value))
      else if key in own then Ok(own[key])
      else Err(NoLink(key, p.under))
  }

  /** The value found, or the block it links to. */
  function Follow(st: Store, v: Value, under: Cid): Result<Position, Failure> {
    if v.CidValue? then At(st, v.cid) else Ok(Position(v, under))
  }

  function At(st: Store, c: Cid): Result<Position, Failure> {
    match Load(st, c)
    case Ok(v) => Ok(Position(v, c))
    case Err(f) => Err(f)
  }

  function Walk(st: Store, pb: bool, p: Result<Position, Failure>, segs: seq<string>): Result<Position, Failure>
    decreases |segs|
  {
    if p.Err? || segs == [] then p
    else
      match Lookup(st, pb, p.value, segs[0])
      case Err(f) => Err(f)
      case Ok(v) => Walk(st, pb, Follow(st, v, p.value.under), segs[1..])
  }

  /** The meaning of a path from a cid. */
  function Eval(st: Store, pb: bool, c: Cid, segs: seq<string>): Result<Position, Failure> {
    Walk(st, pb, At(st, c), segs)
  }

  lemma {:induction false} WalkAppend(st: Store, pb: bool, p: Result<Position, Failure>, a: seq<string>, b: seq<string>)
    ensures Walk(st, pb, p, a + b) == Walk(st, pb, Walk(st, pb, p, a), b)
    decreases |a|
  {
    if a == [] {
      assert a + b == b;
    } else if p.Ok? {
      assert (a + b)[0] == a[0] && (a + b)[1..] == a[1..] + b;
      var r := Lookup(st, pb, p.value, a[0]);
      if r.Ok? {
        WalkAppend(st, pb, Follow(st, r.value, p.value.under), a[1..], b);
      }
    }
  }

  // ---------------------------------------------------------------- resolve

  datatype Entry = Entry(value: Value, remainderPath: string)

  /** What segment i names where the first i segments lead. */
  function Named(st: Store, pb: bool, root: Cid, segs: seq<string>, i: nat): Result<Value, Failure>
    requires i < |segs|
  {
    match Eval(st, pb, root, segs[..i])
    case Err(f) => Err(f)
    case Ok(p) => Lookup(st, pb, p, segs[i])
  }

  /** Entry i of a walk: what segment i names, and the text of the segments after it. */
  ghost predicate EntryFor(st: Store, pb: bool, root: Cid, segs: seq<string>, i: nat, e: Entry)
    requires i < |segs|
  {
    e.remainderPath == Join(segs[i + 1..]) && Named(st, pb, root, segs, i) == Ok(e.value)
  }

  lemma EvalStep(st: Store, pb: bool, root: Cid, segs: seq<string>, k: nat, p: Position)
    requires k < |segs| && Eval(st, pb, root, segs[..k]) == Ok(p)
    ensures match Lookup(st, pb, p, segs[k])
            case Err(f) => Eval(st, pb, root, segs) == Err(f)
            case Ok(v) =>
              && Eval(st, pb, root, segs[..k + 1]) == Follow(st, v, p.under)
              && EntryFor(st, pb, root, segs, k, Entry(v, Join(segs[k + 1..])))
              && (Follow(st, v, p.under).Err? ==> Eval(st, pb, root, segs) == Follow(st, v, p.under))
  {
    assert segs[..k + 1] == segs[..k] + [segs[k]];
    WalkAppend(st, pb, At(st, root), segs[..k], [segs[k]]);
    assert segs == segs[..k + 1] + segs[k + 1..];
    WalkAppend(st, pb, At(st, root), segs[..k + 1], segs[k + 1..]);
    assert [segs[k]][1..] == [];
  }

  /** The walk has passed one segment per entry and stands at p. */
  ghost predicate Passed(st: Store, pb: bool, root: Cid, segs: seq<string>, entries: seq<Entry>, p: Position) {
    && |entries| <= |segs|
    && Eval(st, pb, root, segs[..|entries|]) == Ok(p)
    && Entries(st, pb, root, segs, entries)
  }

  ghost predicate Entries(st: Store, pb: bool, root: Cid, segs: seq<string>, entries: seq<Entry>) {
    forall i | 0 <= i < |entries| && i < |segs| :: EntryFor(st, pb, root, segs, i, entries[i])
  }

  /** Nothing is named from segment k on. */
  ghost predicate NothingFrom(st: Store, pb: bool, root: Cid, segs: seq<string>, k: nat) {
    forall i | k <= i < |segs| :: Named(st, pb, root, segs, i).Err?
  }

  lemma WalkEnds(st: Store, pb: bool, root: Cid, segs: seq<string>, k: nat)
    requires k < |segs| ==> Named(st, pb, root, segs, k).Err?
    ensures NothingFrom(st, pb, root, segs, k)
  {
    forall i | k < i < |segs| ensures Named(st, pb, root, segs, i).Err? {
      assert segs[..i] == segs[..k] + segs[k..i];
      WalkAppend(st, pb, At(st, root), segs[..k], segs[k..i]);
    }
  }

  /** The walk has ended with the failure of the whole path. */
  ghost predicate Ended(st: Store, pb: bool, root: Cid, segs: seq<string>, entries: seq<Entry>, f: Failure) {
    && |entries| <= |segs|
    && Eval(st, pb, root, segs) == Err(f)
    && Entries(st, pb, root, segs, entries)
    && NothingFrom(st, pb, root, segs, |entries|)
  }

  lemma PassOne(st: Store, pb: bool, root: Cid, segs: seq<string>, entries: seq<Entry>, p: Position)
    requires Passed(st, pb, root, segs, entries, p) && |entries| < |segs|
    ensures var k := |entries|;
            match Lookup(st, pb, p, segs[k])
            case Err(f) => Ended(st, pb, root, segs, entries, f)
            case Ok(v) =>
              var more := entries + [Entry(v, Join(segs[k + 1..]))];
              match Follow(st, v, p.under)
              case Err(f) => Ended(st, pb, root, segs, more, f)
              case Ok(q) => Passed(st, pb, root, segs, more, q)
  {
    var k := |entries|;
    EvalStep(st, pb, root, segs, k, p);
    var r := Lookup(st, pb, p, segs[k]);
    if r.Err? {
      WalkEnds(st, pb, root, segs, k);
    } else if Follow(st, r.value, p.under).Err? {
      WalkEnds(st, pb, root, segs, k + 1);
    }
  }

  /** The body of the loop up to its `yield`: a link of that name, else an own property, else an error. */
  method Find(st: Store, root: Cid, value: Value, lastCid: Cid, key: string) returns (found: Result<Value, Failure>)
    ensures found == Lookup(st, root.code == DAG_PB, Position(value, lastCid), key)
  {
    if root.code == DAG_PB && value.Node? && value.links.Some? {
      var link := FindLink(value.links.value, key);
      if link.Some? {
        return Ok(CidValue(link.value));
      }
    }
    if value.Nothing? {
      return Err(NotAnObject);
    }
    var own := if value.CidValue? then st.cidProps(value.cid) else value.own;
    if key in own {
      return Ok(own[key]);
    }
    return Err(NoLink(key, lastCid));
  }

  lemma RestOf(segs: seq<string>, k: nat)
    requires k < |segs|
    ensures segs[k..] != [] && segs[k..][0] == segs[k] && segs[k..][1..] == segs[k + 1..]
  {
  }

  lemma WalkDone(st: Store, pb: bool, root: Cid, segs: seq<string>, entries: seq<Entry>, p: Position)
    requires Passed(st, pb, root, segs, entries, p) && |entries| == |segs|
    ensures Eval(st, pb, root, segs) == Ok(p) && Entries(st, pb, root, segs, entries + [Entry(p.value, "")])
  {
    assert segs[..|segs|] == segs;
  }

  /** How a walk has come out. */
  ghost predicate Outcome(st: Store, pb: bool, root: Cid, segs: seq<string>, entries: seq<Entry>, failure: Option<Failure>) {
    && Entries(st, pb, root, segs, entries)
    && match Eval(st, pb, root, segs)
       case Err(f) => failure == Some(f) && |entries| <= |segs| && NothingFrom(st, pb, root, segs, |entries|)
       case Ok(p) => failure == None && |entries| == |segs| + 1 && entries[|segs|] == Entry(p.value, "")
  }

  /**
   The generator `resolve`: everything it yields, and the error it ends with, if any.  It
   refines the evaluator: it ends without error exactly when the path has a meaning, and then
   has yielded one entry per segment and the value of the whole path.  Otherwise it has yielded
   every value that a segment names.
   */
  method Resolve(st: Store, root: Cid, path: string) returns (entries: seq<Entry>, failure: Option<Failure>)
    ensures Outcome(st, root.code == DAG_PB, root, Segments(path), entries, failure)
  {
    ghost var segs, pb := Segments(path), root.code == DAG_PB;
    entries := [];
    failure := None;
    var parts := NonEmpty(Split(path));
    var loaded := Load(st, root);
    assert segs[..0] == [] && segs[0..] == segs;
    if loaded.Err? {
      failure := Some(loaded.error);
      WalkEnds(st, pb, root, segs, 0);
      return;
    }
    var value, lastCid := loaded.value, root;
    while parts != []
      invariant Passed(st, pb, root, segs, entries, Position(value, lastCid))
      invariant parts == segs[|entries|..]
      invariant failure == None
      decreases |parts|
    {
      RestOf(segs, |entries|);
      PassOne(st, pb, root, segs, entries, Position(value, lastCid));
      var key := parts[0];
      parts := parts[1..];
      var found := Find(st, root, value, lastCid, key);
      if found.Err? {
        failure := Some(found.error);
        return;
      }
      value := found.value;
      entries := entries + [Entry(value, Join(parts))];
      if value.CidValue? {
        lastCid := value.cid;
        loaded := Load(st, lastCid);
        if loaded.Err? {
          failure := Some(loaded.error);
          return;
        }
        value := loaded.value;
      }
    }
    WalkDone(st, pb, root, segs, entries, Position(value, lastCid));
    entries := entries + [Entry(value, "")];
  }

  /** What a segment names is yielded at its place. */
  lemma {:induction false} YieldedIs(st: Store, pb: bool, root: Cid, segs: seq<string>, entries: seq<Entry>, failure: Option<Failure>, i: nat, e: Entry)
    requires Outcome(st, pb, root, segs, entries, failure) && i < |segs| && EntryFor(st, pb, root, segs, i, e)
    ensures i < |entries| && entries[i] == e
  {
    assert Named(st, pb, root, segs, i).Ok?;
    if i < |entries| {
      assert EntryFor(st, pb, root, segs, i, entries[i]);
    }
  }

  /** Link j is the first one of that name. */
  ghost predicate IsFirst(links: seq<PBLink>, key: string, j: nat) {
    j < |links| && links[j].name == key && forall i | 0 <= i < j :: links[i].name != key
  }

  /** Where the walk stands before segment i. */
  ghost predicate StandsAt(st: Store, pb: bool, root: Cid, segs: seq<string>, i: nat, value: Value, under: Cid) {
    i < |segs| && Eval(st, pb, root, segs[..i]) == Ok(Position(value, under))
  }

  /**
   A segment that names a link of the block, under a dag-pb root: the first link of that name is
   yielded, and the walk goes on with its block, or ends with the failure to load it.
   */
  lemma {:induction false} LinkIsFollowed(st: Store, root: Cid, segs: seq<string>, i: nat, value: Value, under: Cid, j: nat)
    requires root.code == 0x70 && StandsAt(st, root.code == DAG_PB, root, segs, i, value, under)
    requires value.Node? && value.links.Some? && IsFirst(value.links.value, segs[i], j)
    ensures var hash, pb := value.links.value[j].hash, root.code == DAG_PB;
            && EntryFor(st, pb, root, segs, i, Entry(CidValue(hash), Join(segs[i + 1..])))
            && match st.block(hash)
               case Ok(v) => Eval(st, pb, root, segs[..i + 1]) == Ok(Position(v, hash))
               case Err(e) => Eval(st, pb, root, segs) == Err(LoadFailed(hash, e))
  {
    FirstLink(value.links.value, segs[i]);
    EvalStep(st, root.code == DAG_PB, root, segs, i, Position(value, under));
  }

  /** No link is looked up, or there is none of that name. */
  ghost predicate NoLinkNamed(root: Cid, value: Value, key: string) {
    root.code == DAG_PB && value.Node? && value.links.Some? ==>
      forall j | 0 <= j < |value.links.value| :: value.links.value[j].name != key
  }

  /** The own properties of a value that has some. */
  ghost predicate Owns(st: Store, value: Value, own: map<string, Value>) {
    (value.Node? && own == value.own) || (value.CidValue? && own == st.cidProps(value.cid))
  }

  /** A segment that names no link, or a root that is no dag-pb: the own property is yielded, and followed if it is a CID. */
  lemma {:induction false} PropertyIsFollowed(st: Store, root: Cid, segs: seq<string>, i: nat, value: Value, under: Cid, own: map<string, Value>)
    requires StandsAt(st, root.code == DAG_PB, root, segs, i, value, under) && Owns(st, value, own) && segs[i] in own
    requires NoLinkNamed(root, value, segs[i])
    ensures var v, pb := own[segs[i]], root.code == DAG_PB;
            && EntryFor(st, pb, root, segs, i, Entry(v, Join(segs[i + 1..])))
            && if v.CidValue? then
                 match st.block(v.cid)
                 case Ok(w) => Eval(st, pb, root, segs[..i + 1]) == Ok(Position(w, v.cid))
                 case Err(e) => Eval(st, pb, root, segs) == Err(LoadFailed(v.cid, e))
               else Eval(st, pb, root, segs[..i + 1]) == Ok(Position(v, under))
  {
    if value.Node? && value.links.Some? {
      FirstLink(value.links.value, segs[i]);
    }
    EvalStep(st, root.code == DAG_PB, root, segs, i, Position(value, under));
  }

  /** A segment that names neither: the path fails with the segment and the last block that was entered. */
  lemma {:induction false} NothingNamed(st: Store, root: Cid, segs: seq<string>, i: nat, value: Value, under: Cid, own: map<string, Value>)
    requires StandsAt(st, root.code == DAG_PB, root, segs, i, value, under) && Owns(st, value, own) && segs[i] !in own
    requires NoLinkNamed(root, value, segs[i])
    ensures Eval(st, root.code == DAG_PB, root, segs) == Err(NoLink(segs[i], under))
    ensures NothingFrom(st, root.code == DAG_PB, root, segs, i)
  {
    if value.Node? && value.links.Some? {
      FirstLink(value.links.value, segs[i]);
    }
    EvalStep(st, root.code == DAG_PB, root, segs, i, Position(value, under));
    WalkEnds(st, root.code == DAG_PB, root, segs, i);
  }

  /** The walk starts at the block of the root, or fails as its loading does; on null and undefined every segment fails. */
  lemma {:induction false} WalkStarts(st: Store, root: Cid, segs: seq<string>)
    ensures var pb := root.code == DAG_PB;
            match st.block(root)
            case Err(e) => Eval(st, pb, root, segs) == Err(LoadFailed(root, e))
            case Ok(v) =>
              && Eval(st, pb, root, []) == Ok(Position(v, root))
              && (segs != [] ==> StandsAt(st, pb, root, segs, 0, v, root))
              && (v == Nothing && segs != [] ==> Eval(st, pb, root, segs) == Err(NotAnObject))
  {
    if segs != [] {
      assert segs[..0] == [];
    }
  }

  // ---------------------------------------------------------------- toCidAndPath

  datatype Input = Bytes(bytes: seq<bv8>) | CidObject(cid: Cid) | Text(text: string)

  const IPFS_PREFIX := "/ipfs/"

  function StripPrefix(s: string): string {
    if IPFS_PREFIX <= s then s[|IPFS_PREFIX|..] else s
  }

  /** What an input denotes: a cid, and for a text the part from its first slash on. */
  function Denotes(st: Store, input: Input): Result<(Cid, Option<string>), Failure> {
    match input
    case Bytes(b) => if st.fromBytes(b).Some? then Ok((st.fromBytes(b).value, None)) else Err(InvalidCid)
    case CidObject(c) => Ok((c, None))
    case Text(s) =>
      var t := StripPrefix(s);
      var i := Slash(t);
      if st.parse(t[..i]).None? then Err(InvalidCid)
      else Ok((st.parse(t[..i]).value, if i == |t| then None else Some(t[i..])))
  }

  lemma HeadAndTail<T>(x: T, xs: seq<T>)
    ensures ([x] + xs)[0] == x && ([x] + xs)[1..] == xs
  {
  }

  lemma AtSlash(t: string, i: nat)
    requires i < |t| && t[i] == '/'
    ensures t[i..] == "/" + t[i + 1..]
  {
  }

  lemma SplitRest(t: string)
    requires Slash(t) < |t|
    ensures Split(t)[0] == t[..Slash(t)] && Split(t)[1..] != [] && "/" + Join(Split(t)[1..]) == t[Slash(t)..]
  {
    var i := Slash(t);
    SplitCons(t);
    HeadAndTail(t[..i], Split(t[i + 1..]));
    JoinSplit(t[i + 1..]);
    AtSlash(t, i);
  }

  method ToCidAndPath(st: Store, input: Input) returns (r: Result<(Cid, Option<string>), Failure>)
    ensures r == Denotes(st, input)
  {
    var cid: Option<Cid> := None;
    var text := "";
    match input {
      case Bytes(b) =>
        cid := st.fromBytes(b);
        if cid.None? {
          return Err(InvalidCid);
        }
      case CidObject(c) => cid := Some(c);
      case Text(s) => text := s;
    }
    if cid.Some? {
      return Ok((cid.value, None));
    }
    if IPFS_PREFIX <= text {
      text := text[|IPFS_PREFIX|..];
    }
    var parts := Split(text);
    var head := parts[0];
    if Slash(text) < |text| {
      SplitRest(text);
    } else {
      assert parts == [text] && text[..Slash(text)] == text;
    }
    parts := parts[1..];
    cid := st.parse(head);
    if cid.None? {
      return Err(InvalidCid);
    }
    var path: Option<string> := None;
    if parts != [] {
      path := Some("/" + Join(parts));
    }
    return Ok((cid.value, path));
  }

  lemma NotPrefixed(p: string, s: string)
    requires p != "" && p[0] !in s
    ensures !(p <= s)
  {
    if s != "" {
      assert s[0] in s;
    }
  }

  lemma Stripped(t: string)
    ensures "/ipfs/" <= "/ipfs/" + t && ("/ipfs/" + t)[|"/ipfs/"|..] == t
  {
  }

  /** What a text denotes when its first part is this head: the cid of the head, if it is one, and the rest. */
  function HeadDenotes(st: Store, head: string, path: Option<string>): Result<(Cid, Option<string>), Failure> {
    match st.parse(head)
    case None => Err(InvalidCid)
    case Some(c) => Ok((c, path))
  }

  lemma TextIs(st: Store, s: string, t: string, i: nat)
    requires StripPrefix(s) == t && Slash(t) == i
    ensures Denotes(st, Text(s)) == HeadDenotes(st, t[..i], if i == |t| then None else Some(t[i..]))
  {
  }

  /** Behind the prefix: a cid alone, or a cid and the path from its slash on. */
  lemma {:induction false} PrefixedMeans(st: Store, head: string, rest: string)
    requires '/' !in head
    ensures Denotes(st, Text("/ipfs/" + (head + "/" + rest))) == HeadDenotes(st, head, Some("/" + rest))
    ensures Denotes(st, Text("/ipfs/" + head)) == HeadDenotes(st, head, None)
  {
    HeadRead(head, rest);
    HeadAlone(head);
    Stripped(head + "/" + rest);
    Stripped(head);
    TextIs(st, "/ipfs/" + (head + "/" + rest), head + "/" + rest, |head|);
    TextIs(st, "/ipfs/" + head, head, |head|);
  }

  /** The same without the prefix; bytes and CIDs. */
  lemma {:induction false} PlainMeans(st: Store, head: string, rest: string)
    requires '/' !in head
    ensures !("/ipfs/" <= head + "/" + rest) ==> Denotes(st, Text(head + "/" + rest)) == HeadDenotes(st, head, Some("/" + rest))
    ensures Denotes(st, Text(head)) == HeadDenotes(st, head, None)
  {
    HeadRead(head, rest);
    HeadAlone(head);
    NotPrefixed("/ipfs/", head);
    TextIs(st, head, head, |head|);
    if !("/ipfs/" <= head + "/" + rest) {
      TextIs(st, head + "/" + rest, head + "/" + rest, |head|);
    }
  }

  lemma OtherMeans(st: Store, c: Cid, bytes: seq<bv8>)
    ensures Denotes(st, CidObject(c)) == Ok((c, None))
    ensures st.fromBytes(bytes) == Some(c) ==> Denotes(st, Bytes(bytes)) == Ok((c, None))
    ensures st.fromBytes(bytes) == None ==> Denotes(st, Bytes(bytes)) == Err(InvalidCid)
  {
  }

  // ---------------------------------------------------------------- resolvePath

  datatype Resolved = Resolved(cid: Cid, remainderPath: string)

  /** The path that is walked: the one in the input, else the option. */
  function PathOf(denoted: (Cid, Option<string>), option: Option<string>): string {
    if denoted.1.Some? && denoted.1.value != "" then denoted.1.value else option.GetOr("")
  }

  /** The path in the input goes before the option; without either there is none. */
  lemma PathTaken(c: Cid, p: string, q: string)
    requires p != ""
    ensures PathOf((c, Some(p)), Some(q)) == PathOf((c, Some(p)), None) == PathOf((c, None), Some(p)) == p
    ensures PathOf((c, None), None) == ""
  {
  }

  /** The pair means what the path from the cid means, with the link rule the original root decides. */
  ghost predicate Preserves(st: Store, root: Cid, path: string, r: Resolved) {
    var pb := root.code == DAG_PB;
    Eval(st, pb, r.cid, Segments(r.remainderPath)) == Eval(st, pb, root, Segments(path))
  }

  /** Nothing is left to shorten: the block is there and the next segment, if any, names a value that is no CID. */
  ghost predicate Shortest(st: Store, pb: bool, r: Resolved) {
    var p, segs := At(st, r.cid), Segments(r.remainderPath);
    && p.Ok?
    && (segs == [] || var v := Lookup(st, pb, p.value, segs[0]); v.Ok? && !v.value.CidValue?)
  }

  lemma ShorterPreserves(st: Store, root: Cid, path: string, i: nat, e: Entry)
    requires var segs := Segments(path);
             i < |segs| && EntryFor(st, root.code == DAG_PB, root, segs, i, e) && e.value.CidValue?
    ensures Preserves(st, root, path, Resolved(e.value.cid, e.remainderPath))
    ensures Segments(e.remainderPath) == Segments(path)[i + 1..]
    ensures Eval(st, root.code == DAG_PB, root, Segments(path)[..i + 1]) == At(st, e.value.cid)
  {
    var segs, pb := Segments(path), root.code == DAG_PB;
    EvalStep(st, pb, root, segs, i, Eval(st, pb, root, segs[..i]).value);
    assert segs == segs[..i + 1] + segs[i + 1..];
    WalkAppend(st, pb, At(st, root), segs[..i + 1], segs[i + 1..]);
    SegmentsClean(path);
    assert Clean(segs[i + 1..]);
    SegmentsJoin(segs[i + 1..]);
  }

  function WithoutSlash(path: string): string {
    if path != "" && path[0] == '/' then path[1..] else path
  }

  lemma StripPreserves(path: string)
    ensures Segments(WithoutSlash(path)) == Segments(path)
  {
    if path != "" && path[0] == '/' {
      LeadingSlash(path[1..]);
      assert path == "/" + path[1..];
    }
  }

  /** The loop over the entries of `resolve`: the last of the leading CIDs and its remainder, and how many there are. */
  method LastCid(entries: seq<Entry>, cid: Cid, path: string) returns (last: Resolved, i: nat)
    ensures LeadingCids(entries, cid, path, last, i)
  {
    var lastCid, lastRemainderPath := cid, path;
    if lastRemainderPath != "" && lastRemainderPath[0] == '/' {
      lastRemainderPath := lastRemainderPath[1..];
    }
    i := 0;
    while i < |entries| && entries[i].value.CidValue?
      invariant 0 <= i <= |entries|
      invariant forall k | 0 <= k < i :: entries[k].value.CidValue?
      invariant if i == 0 then lastCid == cid && lastRemainderPath == WithoutSlash(path)
                else entries[i - 1] == Entry(CidValue(lastCid), lastRemainderPath)
    {
      lastRemainderPath := entries[i].remainderPath;
      lastCid := entries[i].value.cid;
      i := i + 1;
    }
    last := Resolved(lastCid, lastRemainderPath);
  }

  ghost predicate LeadingCids(entries: seq<Entry>, cid: Cid, path: string, last: Resolved, i: nat) {
    && i <= |entries|
    && (forall k | 0 <= k < i :: entries[k].value.CidValue?)
    && (i < |entries| ==> !entries[i].value.CidValue?)
    && if i == 0 then last == Resolved(cid, WithoutSlash(path))
       else entries[i - 1] == Entry(CidValue(last.cid), last.remainderPath)
  }

  /** Every value that a segment names is a CID. */
  ghost predicate NamesOnlyCids(st: Store, pb: bool, root: Cid, segs: seq<string>) {
    forall i | 0 <= i < |segs| :: Named(st, pb, root, segs, i).Ok? ==> Named(st, pb, root, segs, i).value.CidValue?
  }

  /** Every segment names a CID and the block of the last one decodes to a bare CID. */
  ghost predicate EndsBare(st: Store, root: Cid, path: string) {
    var pb := root.code == DAG_PB;
    var whole := Eval(st, pb, root, Segments(path));
    NamesOnlyCids(st, pb, root, Segments(path)) && whole.Ok? && whole.value.value.CidValue?
  }

  /** And that is not its own CID. */
  ghost predicate Lost(st: Store, root: Cid, path: string) {
    && EndsBare(st, root, path)
    && var whole := Eval(st, root.code == DAG_PB, root, Segments(path));
       whole.value.value.cid != whole.value.under
  }

  /** What `resolve` yields for a path, as its contract says. */
  ghost predicate Yields(st: Store, pb: bool, root: Cid, segs: seq<string>, entries: seq<Entry>) {
    && Entries(st, pb, root, segs, entries)
    && match Eval(st, pb, root, segs)
       case Err(_) => |entries| <= |segs| && NothingFrom(st, pb, root, segs, |entries|)
       case Ok(p) => |entries| == |segs| + 1 && entries[|segs|] == Entry(p.value, "")
  }

  /** The loop runs through exactly when all that was yielded are CIDs. */
  lemma LeadingAll(st: Store, pb: bool, root: Cid, segs: seq<string>, entries: seq<Entry>, cid: Cid, path: string, last: Resolved, i: nat)
    requires Yields(st, pb, root, segs, entries) && LeadingCids(entries, cid, path, last, i)
    ensures NamesOnlyCids(st, pb, root, segs) <==> i >= |entries| || i == |segs|
  {
    if i < |entries| && i < |segs| {
      assert EntryFor(st, pb, root, segs, i, entries[i]);
    } else {
      forall k | 0 <= k < |segs| && Named(st, pb, root, segs, k).Ok?
        ensures Named(st, pb, root, segs, k).value.CidValue?
      {
        assert k < |entries| && EntryFor(st, pb, root, segs, k, entries[k]);
      }
    }
  }

  /** A whole path of CIDs ends at the block of the last one. */
  lemma EndsAtBlock(st: Store, pb: bool, root: Cid, segs: seq<string>)
    requires NamesOnlyCids(st, pb, root, segs) && Eval(st, pb, root, segs).Ok?
    ensures var p := Eval(st, pb, root, segs).value; At(st, p.under) == Ok(p)
  {
    if segs != [] {
      var k := |segs| - 1;
      assert segs == segs[..k] + [segs[k]];
      WalkAppend(st, pb, At(st, root), segs[..k], [segs[k]]);
      assert Named(st, pb, root, segs, k).Ok?;
      EvalStep(st, pb, root, segs, k, Eval(st, pb, root, segs[..k]).value);
      assert segs[..k + 1] == segs;
    }
  }

  lemma NoSegments()
    ensures Segments("") == []
  {
    assert Split("") == [""] && NonEmpty([""]) == [] + NonEmpty([]);
  }

  /** Stopping at entry i within the segments leaves a pair with the meaning of the whole path. */
  lemma StopPreserves(st: Store, root: Cid, path: string, entries: seq<Entry>, last: Resolved, i: nat)
    requires Yields(st, root.code == DAG_PB, root, Segments(path), entries)
    requires LeadingCids(entries, root, path, last, i) && i < |entries| && i <= |Segments(path)|
    ensures Preserves(st, root, path, last) && Shortest(st, root.code == DAG_PB, last)
  {
    var segs, pb := Segments(path), root.code == DAG_PB;
    if i == 0 {
      StripPreserves(path);
      assert segs[..0] == [];
      assert Eval(st, pb, root, segs[..0]) == At(st, root);
    } else {
      ShorterPreserves(st, root, path, i - 1, entries[i - 1]);
    }
    assert Segments(last.remainderPath) == segs[i..] && Eval(st, pb, root, segs[..i]) == At(st, last.cid);
    if i < |segs| {
      assert EntryFor(st, pb, root, segs, i, entries[i]);
    } else {
      assert segs[..i] == segs;
    }
  }

  /** The pair is the last of i leading CIDs with the segments behind it, or the root with the path less one leading slash. */
  ghost predicate LeadsTo(st: Store, root: Cid, path: string, i: nat, r: Resolved) {
    var pb, segs := root.code == DAG_PB, Segments(path);
    && i <= |segs|
    && (forall k | 0 <= k < i :: Named(st, pb, root, segs, k).Ok? && Named(st, pb, root, segs, k).value.CidValue?)
    && if i == 0 then r == Resolved(root, if path != "" && path[0] == '/' then path[1..] else path)
       else Named(st, pb, root, segs, i - 1) == Ok(CidValue(r.cid)) && r.remainderPath == Join(segs[i..])
  }

  lemma StopLeads(st: Store, root: Cid, path: string, entries: seq<Entry>, last: Resolved, i: nat)
    requires Yields(st, root.code == DAG_PB, root, Segments(path), entries)
    requires LeadingCids(entries, root, path, last, i) && i <= |Segments(path)|
    ensures LeadsTo(st, root, path, i, last)
  {
    var pb, segs := root.code == DAG_PB, Segments(path);
    forall k | 0 <= k < i ensures Named(st, pb, root, segs, k) == Ok(entries[k].value) {
      assert EntryFor(st, pb, root, segs, k, entries[k]);
    }
    if i > 0 {
      assert EntryFor(st, pb, root, segs, i - 1, entries[i - 1]);
    }
  }

  /** Where the loop stops, the meaning is kept unless it is `Lost`, and then the bare CID has replaced it. */
  lemma LastCidPreserves(st: Store, root: Cid, path: string, entries: seq<Entry>, last: Resolved, i: nat)
    requires Yields(st, root.code == DAG_PB, root, Segments(path), entries)
    requires LeadingCids(entries, root, path, last, i)
    requires Eval(st, root.code == DAG_PB, root, Segments(path)).Err? ==> i < |entries|
    ensures Preserves(st, root, path, last) <==> !Lost(st, root, path)
    ensures !Lost(st, root, path) ==> Shortest(st, root.code == DAG_PB, last)
    ensures if EndsBare(st, root, path) then last == Resolved(Eval(st, root.code == DAG_PB, root, Segments(path)).value.value.cid, "")
            else exists k :: LeadsTo(st, root, path, k, last)
  {
    var segs, pb := Segments(path), root.code == DAG_PB;
    LeadingAll(st, pb, root, segs, entries, root, path, last, i);
    if i <= |segs| {
      StopPreserves(st, root, path, entries, last, i);
      StopLeads(st, root, path, entries, last, i);
    } else {
      EndsAtBlock(st, pb, root, segs);
      NoSegments();
    }
  }

  /**
   `resolvePath` fails exactly when the whole path fails and every value on the way is a CID, and
   then as the whole path fails.  Otherwise the pair it returns has the value or the failure of
   the whole path, and cannot be shortened further, exactly when the path is not `Lost`: on a path
   of CIDs whose last block decodes to a bare CID, that CID takes the place of its block.
   */
  method ResolvePath(st: Store, input: Input, option: Option<string>) returns (r: Result<Resolved, Failure>)
    ensures match Denotes(st, input)
            case Err(f) => r == Err(f)
            case Ok(d) =>
              var path, pb := PathOf(d, option), d.0.code == DAG_PB;
              var whole := Eval(st, pb, d.0, Segments(path));
              if path == "" then r == Ok(Resolved(d.0, ""))
              else
                && (r.Err? <==> whole.Err? && NamesOnlyCids(st, pb, d.0, Segments(path)))
                && (r.Err? ==> whole == Err(r.error))
                && (r.Ok? ==> (Preserves(st, d.0, path, r.value) <==> !Lost(st, d.0, path)))
                && (r.Ok? && !Lost(st, d.0, path) ==> Shortest(st, pb, r.value))
                && (r.Ok? && EndsBare(st, d.0, path) ==> r.value == Resolved(whole.value.value.cid, ""))
                && (r.Ok? && !EndsBare(st, d.0, path) ==> exists i :: LeadsTo(st, d.0, path, i, r.value))
  {
    var denoted := ToCidAndPath(st, input);
    if denoted.Err? {
      return Err(denoted.error);
    }
    var cid, path := denoted.value.0, PathOf(denoted.value, option);
    if path == "" {
      return Ok(Resolved(cid, ""));
    }
    var entries, failure := Resolve(st, cid, path);
    var last, i := LastCid(entries, cid, path);
    LeadingAll(st, cid.code == DAG_PB, cid, Segments(path), entries, cid, path, last, i);
    if i == |entries| && failure.Some? {
      return Err(failure.value);
    }
    LastCidPreserves(st, cid, path, entries, last, i);
    return Ok(last);
  }

  /** Such a path: a root that decodes to another CID, and the path "/". */
  lemma BareRootIsLost(st: Store, root: Cid, d: Cid)
    requires st.block(root) == Ok(CidValue(d)) && d != root
    ensures Lost(st, root, "/") && !Preserves(st, root, "/", Resolved(d, "")) && Preserves(st, root, "/", Resolved(root, ""))
  {
    LeadingSlash("");
    NoSegments();
    assert "/" + "" == "/";
  }

  /** When no block decodes to a bare CID, no path means one. */
  lemma {:induction false} NoBareCid(st: Store, pb: bool, p: Result<Position, Failure>, segs: seq<string>)
    requires forall c :: st.block(c).Ok? ==> !st.block(c).value.CidValue?
    requires p.Ok? ==> !p.value.value.CidValue?
    ensures var w := Walk(st, pb, p, segs); w.Ok? ==> !w.value.value.CidValue?
    decreases |segs|
  {
    if p.Ok? && segs != [] {
      var v := Lookup(st, pb, p.value, segs[0]);
      if v.Ok? {
        NoBareCid(st, pb, Follow(st, v.value, p.value.under), segs[1..]);
      }
    }
  }

  /** So the exception of `ResolvePath` does not arise. */
  lemma {:induction false} NeverLost(st: Store, root: Cid, path: string)
    requires forall c :: st.block(c).Ok? ==> !st.block(c).value.CidValue?
    ensures !Lost(st, root, path)
  {
    NoBareCid(st, root.code == DAG_PB, At(st, root), Segments(path));
  }

  /** The link of that name at a position, if any. */
  function LinkAt(p: Position, key: string): Option<Cid> {
    if p.value.Node? && p.value.links.Some? then FindLink(p.value.links.value, key) else None
  }

  /**
   A name that both rules treat alike: it names no link, or the own property of that name is the CID
   of the link, or the content of the block itself when the link leads back to it.
   */
  predicate Unshadowed(st: Store, p: Position, key: string) {
    var link := LinkAt(p, key);
    link.Some? ==>
      && key in p.value.own
      && var v := p.value.own[key];
         v == CidValue(link.value) || (!v.CidValue? && link.value == p.under && st.block(p.under) == Ok(v))
  }

  /** One more segment leads to the same place under both rules. */
  ghost predicate AgreeAt(st: Store, r: Result<Position, Failure>, key: string) {
    Walk(st, true, r, [key]) == Walk(st, false, r, [key])
  }

  lemma WalkOne(st: Store, pb: bool, p: Position, key: string)
    ensures Walk(st, pb, Ok(p), [key]) ==
            match Lookup(st, pb, p, key)
            case Err(f) => Err(f)
            case Ok(v) => Follow(st, v, p.under)
  {
    assert [key][1..] == [];
  }

  /** This can be seen from the names of the links at the position. */
  lemma {:induction false} AgreeAtIff(st: Store, p: Position, key: string)
    ensures AgreeAt(st, Ok(p), key) <==> Unshadowed(st, p, key)
  {
    WalkOne(st, true, p, key);
    WalkOne(st, false, p, key);
  }

  /** Each name of a path is treated alike where the names before it lead. */
  ghost predicate UnshadowedAlong(st: Store, c: Cid, segs: seq<string>) {
    forall i | 0 <= i < |segs| :: UnshadowedAfter(st, c, segs[..i], segs[i])
  }

  ghost predicate UnshadowedAfter(st: Store, c: Cid, segs: seq<string>, key: string) {
    var r := Eval(st, false, c, segs);
    r.Ok? ==> Unshadowed(st, r.value, key)
  }

  lemma AgreeAfterIff(st: Store, c: Cid, segs: seq<string>, key: string)
    ensures AgreeAt(st, Eval(st, false, c, segs), key) <==> UnshadowedAfter(st, c, segs, key)
  {
    var r := Eval(st, false, c, segs);
    if r.Ok? {
      AgreeAtIff(st, r.value, key);
    }
  }

  /** Both rules give every path from c the same meaning exactly when every name at every place below c is treated alike. */
  lemma {:induction false} RulesAgreeIff(st: Store, c: Cid)
    ensures (forall segs: seq<string> :: Eval(st, true, c, segs) == Eval(st, false, c, segs)) <==>
            (forall segs: seq<string>, key: string :: UnshadowedAfter(st, c, segs, key))
  {
    if forall segs: seq<string> :: Eval(st, true, c, segs) == Eval(st, false, c, segs) {
      forall segs: seq<string>, key: string ensures UnshadowedAfter(st, c, segs, key) {
        WalkAppend(st, true, At(st, c), segs, [key]);
        WalkAppend(st, false, At(st, c), segs, [key]);
        assert Eval(st, true, c, segs + [key]) == Eval(st, false, c, segs + [key]);
        AgreeAfterIff(st, c, segs, key);
      }
    }
    if forall segs: seq<string>, key: string :: UnshadowedAfter(st, c, segs, key) {
      forall segs: seq<string> ensures Eval(st, true, c, segs) == Eval(st, false, c, segs) {
        AgreeAlong(st, c, segs);
      }
    }
  }

  lemma {:induction false} AgreeAlong(st: Store, c: Cid, segs: seq<string>)
    requires UnshadowedAlong(st, c, segs)
    ensures Eval(st, true, c, segs) == Eval(st, false, c, segs)
    decreases |segs|
  {
    if segs != [] {
      var k := |segs| - 1;
      var front := segs[..k];
      assert segs == front + [segs[k]];
      forall i | 0 <= i < k ensures UnshadowedAfter(st, c, front[..i], front[i]) {
        assert front[..i] == segs[..i];
      }
      AgreeAlong(st, c, front);
      WalkAppend(st, true, At(st, c), front, [segs[k]]);
      WalkAppend(st, false, At(st, c), front, [segs[k]]);
      AgreeAfterIff(st, c, front, segs[k]);
    }
  }

  /** A shortened pair may be read with the rule of its own cid when that is the rule of the root, or the names left are treated alike by both. */
  lemma OwnRuleSafe(st: Store, root: Cid, path: string, r: Resolved)
    requires Preserves(st, root, path, r)
    requires (root.code == DAG_PB) == (r.cid.code == DAG_PB) || UnshadowedAlong(st, r.cid, Segments(r.remainderPath))
    ensures Eval(st, r.cid.code == DAG_PB, r.cid, Segments(r.remainderPath)) == Eval(st, root.code == DAG_PB, root, Segments(path))
  {
    if (root.code == DAG_PB) != (r.cid.code == DAG_PB) {
      AgreeAlong(st, r.cid, Segments(r.remainderPath));
    }
  }

  /**
   The link rule is not part of the shortened pair.  Walking on from it with the rule of its
   own cid can lead elsewhere: under a dag-cbor root the segment `Links` is the property of
   that name, under the dag-pb cid the path is shortened to it is the link of that name.
   */
  lemma RuleOfRootMatters(st: Store, root: Cid, dir: Cid, target: Cid, list: Value, leaf: Value)
    requires root.code != DAG_PB == dir.code && list.Node? && leaf.Node? && list != leaf
    requires st.block(root) == Ok(Node(map["dir" := CidValue(dir)], None, 0))
    requires st.block(dir) == Ok(Node(map["Links" := list], Some([PBLink("Links", target)]), 0))
    requires st.block(target) == Ok(leaf)
    ensures Eval(st, root.code == DAG_PB, root, ["dir", "Links"]) == Ok(Position(list, dir))
    ensures Eval(st, root.code == DAG_PB, dir, ["Links"]) == Ok(Position(list, dir))
    ensures Eval(st, dir.code == DAG_PB, dir, ["Links"]) == Ok(Position(leaf, target))
  {
    assert ["dir", "Links"][1..] == ["Links"];
    assert ["Links"][1..] == [];
    assert "Links" in map["Links" := list];
  }
}
