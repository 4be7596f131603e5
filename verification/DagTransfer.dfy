/**
 Sending a DAG node over a message port.  The structured clone copies the graph of objects with
 its sharing, but a CID arrives as a plain object.  `encodeNode` sends the list of all CID
 objects of the node along, and `decodeNode` turns exactly these back into CIDs in place.
 */
module DagTransfer {
  import opened Outcomes
  import opened Sequences

  type Ref = nat

  datatype Value = Primitive(p: int) | Pointer(ref: Ref)

  /** Erased: a CID that has lost its prototype.  Bytes stands for the content of an ArrayBuffer. */
  datatype Obj =
    | Cid(data: nat, bytes: Ref)
    | Erased(data: nat, bytes: Ref)
    | Buffer(content: nat)
    | View(bytes: Ref, range: nat)
    | Array(members: seq<Value>)
    | Record(keys: seq<string>, members: seq<Value>)

  type Heap = map<Ref, Obj>

  /** The members that are traversed: array elements and property values, not the inside of a CID or of binary data. */
  function Members(o: Obj): seq<Value> {
    if o.Array? || o.Record? then o.members else []
  }

  /** Pointers stay in the heap and go down in rank: DAG nodes are finite JSON-like values, with sharing allowed. */
  ghost predicate Acyclic(h: Heap, rank: Ref -> nat) {
    forall r | r in h :: Below(h, rank, Members(h[r]), rank(r))
  }

  ghost predicate Below(h: Heap, rank: Ref -> nat, vs: seq<Value>, n: nat) {
    forall i | 0 <= i < |vs| :: Fits(h, rank, vs[i], n)
  }

  ghost predicate Fits(h: Heap, rank: Ref -> nat, v: Value, n: nat) {
    v.Pointer? ==> v.ref in h && rank(v.ref) < n
  }

  // ---------------------------------------------------------------- what is collected

  /** The CID objects below a value, in the order of the traversal, once for each way to them. */
  ghost function Cids(h: Heap, rank: Ref -> nat, v: Value, n: nat): seq<Ref>
    requires Acyclic(h, rank) && Fits(h, rank, v, n)
    decreases n, 0
  {
    if v.Primitive? then []
    else if h[v.ref].Cid? then [v.ref]
    else CidsOfAll(h, rank, Members(h[v.ref]), rank(v.ref))
  }

  ghost function CidsOfAll(h: Heap, rank: Ref -> nat, vs: seq<Value>, n: nat): seq<Ref>
    requires Acyclic(h, rank) && Below(h, rank, vs, n)
    decreases n, |vs|
  {
    if vs == [] then [] else CidsOfAll(h, rank, vs[..|vs| - 1], n) + Cids(h, rank, vs[|vs| - 1], n)
  }

  /** The buffers that are moved instead of copied. */
  function Buffers(r: Ref, o: Obj): set<Ref> {
    match o
    case Cid(_, b) => {b}
    case Erased(_, b) => {b}
    case View(b, _) => {b}
    case Buffer(_) => {r}
    case _ => {}
  }

  ghost function Transfers(h: Heap, rank: Ref -> nat, v: Value, n: nat): set<Ref>
    requires Acyclic(h, rank) && Fits(h, rank, v, n)
    decreases n, 0
  {
    if v.Primitive? then {}
    else Buffers(v.ref, h[v.ref]) + TransfersOfAll(h, rank, Members(h[v.ref]), rank(v.ref))
  }

  ghost function TransfersOfAll(h: Heap, rank: Ref -> nat, vs: seq<Value>, n: nat): set<Ref>
    requires Acyclic(h, rank) && Below(h, rank, vs, n)
    decreases n, |vs|
  {
    if vs == [] then {} else TransfersOfAll(h, rank, vs[..|vs| - 1], n) + Transfers(h, rank, vs[|vs| - 1], n)
  }

  class Collector {
    const heap: Heap
    const withTransfer: bool
    var cids: seq<Ref>
    var transfer: set<Ref>

    constructor (heap: Heap, withTransfer: bool)
      ensures this.heap == heap && this.withTransfer == withTransfer && cids == [] && transfer == {}
    {
      this.heap, this.withTransfer, cids, transfer := heap, withTransfer, [], {};
    }

    method CollectNode(v: Value, ghost rank: Ref -> nat, ghost n: nat)
      requires Acyclic(heap, rank) && Fits(heap, rank, v, n)
      modifies this
      ensures cids == old(cids) + Cids(heap, rank, v, n)
      ensures transfer == if withTransfer then old(transfer) + Transfers(heap, rank, v, n) else old(transfer)
      decreases n, 0
    {
      if v.Primitive? {
        return;
      }
      var o := heap[v.ref];
      if withTransfer {
        transfer := transfer + Buffers(v.ref, o);
      }
      if o.Cid? {
        cids := cids + [v.ref];
      } else {
        CollectMembers(Members(o), rank, rank(v.ref));
      }
    }

    /** The loops over array members and property values. */
    method CollectMembers(members: seq<Value>, ghost rank: Ref -> nat, ghost n: nat)
      requires Acyclic(heap, rank) && Below(heap, rank, members, n)
      modifies this
      ensures cids == old(cids) + CidsOfAll(heap, rank, members, n)
      ensures transfer == if withTransfer then old(transfer) + TransfersOfAll(heap, rank, members, n) else old(transfer)
      decreases n, 1
    {
      var i := 0;
      while i < |members|
        invariant 0 <= i <= |members|
        invariant cids == old(cids) + CidsOfAll(heap, rank, members[..i], n)
        invariant transfer == if withTransfer then old(transfer) + TransfersOfAll(heap, rank, members[..i], n) else old(transfer)
      {
        ghost var done := members[..i + 1];
        assert done[..i] == members[..i] && done[i] == members[i];
        CollectNode(members[i], rank, n);
        i := i + 1;
      }
      assert members[..i] == members;
    }
  }

  // ---------------------------------------------------------------- exactly the CIDs

  /** The object is the value or lies below it. */
  ghost predicate Reaches(h: Heap, rank: Ref -> nat, v: Value, n: nat, r: Ref)
    requires Acyclic(h, rank) && Fits(h, rank, v, n)
    decreases n
  {
    && v.Pointer? && r in h
    && (v.ref == r ||
        exists i :: 0 <= i < |Members(h[v.ref])| && Reaches(h, rank, Members(h[v.ref])[i], rank(v.ref), r))
  }

  lemma {:induction false} CidsOfAllExact(h: Heap, rank: Ref -> nat, vs: seq<Value>, n: nat, r: Ref)
    requires Acyclic(h, rank) && Below(h, rank, vs, n)
    ensures r in CidsOfAll(h, rank, vs, n) <==> exists i :: 0 <= i < |vs| && r in Cids(h, rank, vs[i], n)
  {
    if vs != [] {
      CidsOfAllExact(h, rank, vs[..|vs| - 1], n, r);
    }
  }

  /** `collectNode` gathers every CID of the node and nothing else. */
  lemma {:induction false} CidsExact(h: Heap, rank: Ref -> nat, v: Value, n: nat, r: Ref)
    requires Acyclic(h, rank) && Fits(h, rank, v, n)
    ensures r in Cids(h, rank, v, n) <==> Reaches(h, rank, v, n, r) && h[r].Cid?
    decreases n
  {
    if v.Pointer? && !h[v.ref].Cid? {
      var vs, k := Members(h[v.ref]), rank(v.ref);
      forall i | 0 <= i < |vs| ensures r in Cids(h, rank, vs[i], k) <==> Reaches(h, rank, vs[i], k, r) && h[r].Cid? {
        CidsExact(h, rank, vs[i], k, r);
      }
      CidsOfAllExact(h, rank, vs, k, r);
    }
  }

  lemma {:induction false} TransfersOfAllExact(h: Heap, rank: Ref -> nat, vs: seq<Value>, n: nat, b: Ref)
    requires Acyclic(h, rank) && Below(h, rank, vs, n)
    ensures b in TransfersOfAll(h, rank, vs, n) <==> exists i :: 0 <= i < |vs| && b in Transfers(h, rank, vs[i], n)
  {
    if vs != [] {
      TransfersOfAllExact(h, rank, vs[..|vs| - 1], n, b);
    }
  }

  /** The transfer list holds the buffers of all CIDs and binary data of the node and nothing else. */
  lemma {:induction false} TransfersExact(h: Heap, rank: Ref -> nat, v: Value, n: nat, b: Ref)
    requires Acyclic(h, rank) && Fits(h, rank, v, n)
    ensures b in Transfers(h, rank, v, n) <==> exists r :: Reaches(h, rank, v, n, r) && b in Buffers(r, h[r])
    decreases n
  {
    if v.Pointer? {
      var vs, k := Members(h[v.ref]), rank(v.ref);
      TransfersOfAllExact(h, rank, vs, k, b);
      forall i | 0 <= i < |vs|
        ensures b in Transfers(h, rank, vs[i], k) <==> exists r :: Reaches(h, rank, vs[i], k, r) && b in Buffers(r, h[r])
      {
        TransfersExact(h, rank, vs[i], k, b);
      }
      if b in Transfers(h, rank, v, n) {
        if b in Buffers(v.ref, h[v.ref]) {
          assert Reaches(h, rank, v, n, v.ref);
        } else {
          var i :| 0 <= i < |vs| && b in Transfers(h, rank, vs[i], k);
          var r :| Reaches(h, rank, vs[i], k, r) && b in Buffers(r, h[r]);
          assert Reaches(h, rank, v, n, r);
        }
      }
    }
  }

  /** In terms of the objects: the buffer of a CID, of what was one, or of a view, or a buffer itself. */
  ghost predicate Holds(h: Heap, r: Ref, b: Ref) {
    r in h && ((h[r].Buffer? && r == b) || ((h[r].Cid? || h[r].Erased? || h[r].View?) && h[r].bytes == b))
  }

  lemma {:induction false} TransfersMean(h: Heap, rank: Ref -> nat, v: Value, n: nat, b: Ref)
    requires Acyclic(h, rank) && Fits(h, rank, v, n)
    ensures b in Transfers(h, rank, v, n) <==> exists r :: Reaches(h, rank, v, n, r) && Holds(h, r, b)
  {
    TransfersExact(h, rank, v, n, b);
    forall r | Reaches(h, rank, v, n, r) ensures b in Buffers(r, h[r]) <==> Holds(h, r, b) {
    }
  }

  // ---------------------------------------------------------------- the clone

  function MovedValue(f: Ref -> Ref, v: Value): Value {
    if v.Primitive? then v else Pointer(f(v.ref))
  }

  function MovedValues(f: Ref -> Ref, vs: seq<Value>): (r: seq<Value>)
    ensures |r| == |vs| && forall i | 0 <= i < |vs| :: r[i] == MovedValue(f, vs[i])
  {
    seq(|vs|, i requires 0 <= i < |vs| => MovedValue(f, vs[i]))
  }

  /** The same object among the copies. */
  function Moved(f: Ref -> Ref, o: Obj): Obj {
    match o
    case Cid(d, b) => Cid(d, f(b))
    case Erased(d, b) => Erased(d, f(b))
    case Buffer(c) => Buffer(c)
    case View(b, range) => View(f(b), range)
    case Array(ms) => Array(MovedValues(f, ms))
    case Record(ks, ms) => Record(ks, MovedValues(f, ms))
  }

  /** What the structured clone makes of an object. */
  function Cloned(f: Ref -> Ref, o: Obj): Obj {
    if o.Cid? then Erased(o.data, f(o.bytes)) else Moved(f, o)
  }

  /**
   The receiver's heap holds a copy of each object, one and the same however many ways lead to
   it, and nothing else: f gives the copy of an object, g the original of a copy.
   */
  ghost predicate CloneOf(h: Heap, f: Ref -> Ref, g: Ref -> Ref, h': Heap) {
    && (forall r :: g(f(r)) == r)
    && (forall r | r in h :: f(r) in h' && h'[f(r)] == Cloned(f, h[r]))
    && Onto(h, f, g, h')
  }

  // ---------------------------------------------------------------- decodeNode

  /** `decodeCID` in place; None: the object has not the parts of a CID, and the mutation throws. */
  function Revive(h: Heap, c: Ref): Option<Heap> {
    if c !in h then None
    else
      match h[c]
      case Cid(_, _) => Some(h)
      case Erased(d, b) => Some(h[c := Cid(d, b)])
      case _ => None
  }

  function ReviveAll(h: Heap, cs: seq<Ref>): Option<Heap> {
    if cs == [] then Some(h)
    else
      var before := ReviveAll(h, cs[..|cs| - 1]);
      if before.None? then None else Revive(before.value, cs[|cs| - 1])
  }

  class Realm {
    var heap: Heap

    constructor (heap: Heap)
      ensures this.heap == heap
    {
      this.heap := heap;
    }

    method DecodeNode(cids: seq<Ref>) returns (ok: bool)
      modifies this
      ensures ok == ReviveAll(old(heap), cids).Some?
      ensures ok ==> heap == ReviveAll(old(heap), cids).value
    {
      var i := 0;
      while i < |cids|
        invariant 0 <= i <= |cids|
        invariant ReviveAll(old(heap), cids[..i]) == Some(heap)
      {
        assert cids[..i + 1][..i] == cids[..i];
        var revived := Revive(heap, cids[i]);
        if revived.None? {
          NoneFrom(old(heap), cids, i + 1);
          return false;
        }
        heap := revived.value;
        i := i + 1;
      }
      assert cids[..i] == cids;
      return true;
    }
  }

  /** What `decodeCID` can revive: a CID, or an object that was one. */
  ghost predicate Revivable(h: Heap, c: Ref) {
    c in h && (h[c].Cid? || h[c].Erased?)
  }

  ghost predicate AllRevivable(h: Heap, cs: seq<Ref>) {
    forall i | 0 <= i < |cs| :: Revivable(h, cs[i])
  }

  /** The listed objects have become CIDs, and nothing else has changed. */
  ghost predicate BecomeCids(h: Heap, cs: seq<Ref>, h': Heap) {
    && h'.Keys == h.Keys
    && forall r | r in h :: h'[r] == if r in cs && h[r].Erased? then Cid(h[r].data, h[r].bytes) else h[r]
  }

  lemma ReviveNext(h: Heap, cs: seq<Ref>, h': Heap, c: Ref)
    requires BecomeCids(h, cs, h')
    ensures Revive(h', c).Some? <==> Revivable(h, c)
    ensures Revive(h', c).Some? ==> BecomeCids(h, cs + [c], Revive(h', c).value)
  {
    assert forall r :: r in cs + [c] <==> r in cs || r == c;
  }

  lemma AllSnoc(h: Heap, cs: seq<Ref>, c: Ref)
    ensures AllRevivable(h, cs + [c]) <==> AllRevivable(h, cs) && Revivable(h, c)
  {
    if AllRevivable(h, cs + [c]) {
      assert (cs + [c])[|cs|] == c;
      assert forall i | 0 <= i < |cs| :: (cs + [c])[i] == cs[i];
    }
  }

  /** Decoding fails exactly when some listed object has not the shape of a CID; otherwise these become CIDs and nothing else changes. */
  lemma {:induction false} ReviveAllIs(h: Heap, cs: seq<Ref>)
    ensures ReviveAll(h, cs).Some? <==> AllRevivable(h, cs)
    ensures ReviveAll(h, cs).Some? ==> BecomeCids(h, cs, ReviveAll(h, cs).value)
  {
    if cs != [] {
      var n := |cs| - 1;
      ReviveAllIs(h, cs[..n]);
      assert cs == cs[..n] + [cs[n]];
      AllSnoc(h, cs[..n], cs[n]);
      if ReviveAll(h, cs[..n]).Some? {
        ReviveNext(h, cs[..n], ReviveAll(h, cs[..n]).value, cs[n]);
      }
    }
  }

  lemma {:induction false} NoneFrom(h: Heap, cs: seq<Ref>, i: nat)
    requires i <= |cs| && ReviveAll(h, cs[..i]).None?
    ensures ReviveAll(h, cs).None?
    decreases |cs|
  {
    if i < |cs| {
      assert cs[..|cs| - 1][..i] == cs[..i];
      NoneFrom(h, cs[..|cs| - 1], i);
    } else {
      assert cs[..i] == cs;
    }
  }

  // ---------------------------------------------------------------- round trip

  /** The receiver's heap with the copies of these objects turned into CIDs. */
  ghost predicate RevivedTo(h: Heap, f: Ref -> Ref, g: Ref -> Ref, cs: seq<Ref>, h': Heap) {
    Copies(h, f, cs, h') && Onto(h, f, g, h')
  }

  ghost predicate Copies(h: Heap, f: Ref -> Ref, cs: seq<Ref>, h': Heap) {
    forall r | r in h :: f(r) in h' && h'[f(r)] == if r in cs then Moved(f, h[r]) else Cloned(f, h[r])
  }

  ghost predicate Onto(h: Heap, f: Ref -> Ref, g: Ref -> Ref, h': Heap) {
    forall r' | r' in h' :: g(r') in h && f(g(r')) == r'
  }

  lemma ReviveOne(h: Heap, f: Ref -> Ref, g: Ref -> Ref, cs: seq<Ref>, h': Heap, c: Ref)
    requires RevivedTo(h, f, g, cs, h') && c in h && h[c].Cid? && forall r :: g(f(r)) == r
    ensures Revive(h', f(c)).Some? && RevivedTo(h, f, g, cs + [c], Revive(h', f(c)).value)
  {
    var more := cs + [c];
    assert forall r :: r in more <==> r in cs || r == c;
    var h'' := Revive(h', f(c)).value;
    assert h''.Keys == h'.Keys;
  }

  lemma {:induction false} RevivesMoved(h: Heap, f: Ref -> Ref, g: Ref -> Ref, h': Heap, cs: seq<Ref>)
    requires CloneOf(h, f, g, h') && forall c | c in cs :: c in h && h[c].Cid?
    ensures ReviveAll(h', Map(f, cs)).Some?
    ensures RevivedTo(h, f, g, cs, ReviveAll(h', Map(f, cs)).value)
  {
    if cs != [] {
      var n := |cs| - 1;
      assert Map(f, cs)[..n] == Map(f, cs[..n]);
      RevivesMoved(h, f, g, h', cs[..n]);
      assert cs == cs[..n] + [cs[n]];
      ReviveOne(h, f, g, cs[..n], ReviveAll(h', Map(f, cs[..n])).value, cs[n]);
    }
  }

  /** A node as a value: what can be seen of it without comparing object identities. */
  datatype Tree =
    | Leaf(p: int)
    | CidTree(data: nat, content: Option<nat>)
    | PlainCid(data: nat, content: Option<nat>)
    | BytesTree(content: Option<nat>, range: nat)
    | ArrayTree(members: seq<Tree>)
    | RecordTree(keys: seq<string>, members: seq<Tree>)

  function Content(h: Heap, b: Ref): Option<nat> {
    if b in h && h[b].Buffer? then Some(h[b].content) else None
  }

  ghost function TreeOf(h: Heap, rank: Ref -> nat, v: Value, n: nat): Tree
    requires Acyclic(h, rank) && Fits(h, rank, v, n)
    decreases n, 0
  {
    match v
    case Primitive(p) => Leaf(p)
    case Pointer(r) =>
      match h[r]
      case Cid(d, b) => CidTree(d, Content(h, b))
      case Erased(d, b) => PlainCid(d, Content(h, b))
      case Buffer(c) => BytesTree(Some(c), 0)
      case View(b, range) => BytesTree(Content(h, b), range + 1)
      case Array(ms) => ArrayTree(TreesOf(h, rank, ms, rank(r)))
      case Record(ks, ms) => RecordTree(ks, TreesOf(h, rank, ms, rank(r)))
  }

  ghost function TreesOf(h: Heap, rank: Ref -> nat, vs: seq<Value>, n: nat): seq<Tree>
    requires Acyclic(h, rank) && Below(h, rank, vs, n)
    decreases n, |vs|
  {
    if vs == [] then [] else TreesOf(h, rank, vs[..|vs| - 1], n) + [TreeOf(h, rank, vs[|vs| - 1], n)]
  }

  /** The buffers a CID or a view points to are part of the heap that is sent. */
  ghost predicate BytesInside(h: Heap) {
    forall r | r in h :: (h[r].Cid? || h[r].Erased? || h[r].View?) ==> h[r].bytes in h
  }

  /** The copies have the ranks of the originals. */
  ghost predicate SameRank(f: Ref -> Ref, rank: Ref -> nat, rank': Ref -> nat) {
    forall r :: rank'(f(r)) == rank(r)
  }

  lemma MembersMoved(f: Ref -> Ref, o: Obj)
    ensures Members(Moved(f, o)) == MovedValues(f, Members(o)) == Members(Cloned(f, o))
  {
    assert Members(o) == [] ==> MovedValues(f, Members(o)) == [];
  }

  lemma AcyclicMoved(h: Heap, f: Ref -> Ref, g: Ref -> Ref, cs: seq<Ref>, h': Heap, rank: Ref -> nat, rank': Ref -> nat)
    requires Acyclic(h, rank) && RevivedTo(h, f, g, cs, h') && SameRank(f, rank, rank')
    ensures Acyclic(h', rank')
  {
    forall r' | r' in h' ensures Below(h', rank', Members(h'[r']), rank'(r')) {
      var r := g(r');
      MembersMoved(f, h[r]);
      BelowMoved(h, f, cs, h', rank, rank', Members(h[r]), rank(r));
    }
  }

  lemma BelowMoved(h: Heap, f: Ref -> Ref, cs: seq<Ref>, h': Heap, rank: Ref -> nat, rank': Ref -> nat, vs: seq<Value>, n: nat)
    requires Copies(h, f, cs, h') && SameRank(f, rank, rank') && Below(h, rank, vs, n)
    ensures Below(h', rank', MovedValues(f, vs), n)
  {
    forall i | 0 <= i < |vs| ensures Fits(h', rank', MovedValue(f, vs[i]), n) {
      assert Fits(h, rank, vs[i], n);
    }
  }

  lemma ContentMoved(h: Heap, f: Ref -> Ref, cs: seq<Ref>, h': Heap, b: Ref)
    requires Copies(h, f, cs, h') && b in h
    ensures Content(h', f(b)) == Content(h, b)
  {
  }

  lemma {:induction false} TreeMoved(h: Heap, f: Ref -> Ref, cs: seq<Ref>, h': Heap, rank: Ref -> nat, rank': Ref -> nat, v: Value, n: nat)
    requires Acyclic(h, rank) && BytesInside(h) && Fits(h, rank, v, n)
    requires Copies(h, f, cs, h') && SameRank(f, rank, rank') && Acyclic(h', rank')
    requires forall r | r in Cids(h, rank, v, n) :: r in cs
    ensures Fits(h', rank', MovedValue(f, v), n)
    ensures TreeOf(h', rank', MovedValue(f, v), n) == TreeOf(h, rank, v, n)
    decreases n, 0
  {
    if v.Pointer? {
      var o := h[v.ref];
      if o.Array? || o.Record? {
        TreesMoved(h, f, cs, h', rank, rank', Members(o), rank(v.ref));
        assert h'[f(v.ref)] == Moved(f, o);
      } else {
        FlatMoved(h, f, cs, h', rank, rank', v.ref, n);
      }
    }
  }

  lemma FlatMoved(h: Heap, f: Ref -> Ref, cs: seq<Ref>, h': Heap, rank: Ref -> nat, rank': Ref -> nat, r: Ref, n: nat)
    requires Acyclic(h, rank) && BytesInside(h) && Fits(h, rank, Pointer(r), n) && !h[r].Array? && !h[r].Record?
    requires Copies(h, f, cs, h') && Acyclic(h', rank') && Fits(h', rank', Pointer(f(r)), n)
    requires h[r].Cid? ==> r in cs
    ensures TreeOf(h', rank', Pointer(f(r)), n) == TreeOf(h, rank, Pointer(r), n)
  {
    assert h'[f(r)] == Moved(f, h[r]);
    if !h[r].Buffer? {
      ContentMoved(h, f, cs, h', h[r].bytes);
    }
  }

  lemma {:induction false} TreesMoved(h: Heap, f: Ref -> Ref, cs: seq<Ref>, h': Heap, rank: Ref -> nat, rank': Ref -> nat, vs: seq<Value>, n: nat)
    requires Acyclic(h, rank) && BytesInside(h) && Below(h, rank, vs, n)
    requires Copies(h, f, cs, h') && SameRank(f, rank, rank') && Acyclic(h', rank')
    requires forall r | r in CidsOfAll(h, rank, vs, n) :: r in cs
    ensures Below(h', rank', MovedValues(f, vs), n)
    ensures TreesOf(h', rank', MovedValues(f, vs), n) == TreesOf(h, rank, vs, n)
    decreases n, |vs| + 1
  {
    BelowMoved(h, f, cs, h', rank, rank', vs, n);
    if vs != [] {
      var k := |vs| - 1;
      TreesMoved(h, f, cs, h', rank, rank', vs[..k], n);
      TreeMoved(h, f, cs, h', rank, rank', vs[k], n);
      assert MovedValues(f, vs)[..k] == MovedValues(f, vs[..k]);
    }
  }

  /** The receiver's heap after decoding the message: the same node, every object it reaches the copy of its original. */
  ghost predicate SameNode(h: Heap, rank: Ref -> nat, v: Value, n: nat, f: Ref -> Ref, decoded: Heap, rank': Ref -> nat)
    requires Acyclic(h, rank) && Fits(h, rank, v, n)
  {
    && Acyclic(decoded, rank') && Fits(decoded, rank', MovedValue(f, v), n)
    && TreeOf(decoded, rank', MovedValue(f, v), n) == TreeOf(h, rank, v, n)
    && forall r | Reaches(h, rank, v, n, r) :: f(r) in decoded && decoded[f(r)] == Moved(f, h[r])
  }

  /**
   Sending a DAG node is a round trip: encode it, clone it with its sharing but without the
   identity of its CIDs, decode it, and the node is equal to the original.
   */
  lemma {:induction false} RoundTrip(h: Heap, rank: Ref -> nat, v: Value, n: nat, f: Ref -> Ref, g: Ref -> Ref, h': Heap, rank': Ref -> nat)
    requires Acyclic(h, rank) && BytesInside(h) && Fits(h, rank, v, n)
    requires CloneOf(h, f, g, h') && SameRank(f, rank, rank')
    ensures var decoded := ReviveAll(h', Map(f, Cids(h, rank, v, n)));
            decoded.Some? && SameNode(h, rank, v, n, f, decoded.value, rank')
  {
    var cs := Cids(h, rank, v, n);
    forall r ensures r in cs <==> Reaches(h, rank, v, n, r) && h[r].Cid? {
      CidsExact(h, rank, v, n, r);
    }
    RevivesMoved(h, f, g, h', cs);
    var decoded := ReviveAll(h', Map(f, cs)).value;
    AcyclicMoved(h, f, g, cs, decoded, rank, rank');
    TreeMoved(h, f, cs, decoded, rank, rank', v, n);
  }

  /** Without the list the receiver sees plain objects: a node with a CID in it is never equal to its bare clone. */
  lemma {:induction false} CloneAloneDiffers(h: Heap, rank: Ref -> nat, v: Value, n: nat, f: Ref -> Ref, g: Ref -> Ref, h': Heap, rank': Ref -> nat)
    requires Acyclic(h, rank) && Fits(h, rank, v, n) && Cids(h, rank, v, n) != []
    requires CloneOf(h, f, g, h') && Acyclic(h', rank') && Fits(h', rank', MovedValue(f, v), n) && SameRank(f, rank, rank')
    ensures TreeOf(h', rank', MovedValue(f, v), n) != TreeOf(h, rank, v, n)
    decreases n, 0
  {
    var r := v.ref;
    assert h'[f(r)] == Cloned(f, h[r]);
    if !h[r].Cid? {
      MembersMoved(f, h[r]);
      ClonesAloneDiffer(h, rank, Members(h[r]), rank(r), f, g, h', rank');
    }
  }

  lemma {:induction false} ClonesAloneDiffer(h: Heap, rank: Ref -> nat, vs: seq<Value>, n: nat, f: Ref -> Ref, g: Ref -> Ref, h': Heap, rank': Ref -> nat)
    requires Acyclic(h, rank) && Below(h, rank, vs, n) && CidsOfAll(h, rank, vs, n) != []
    requires CloneOf(h, f, g, h') && Acyclic(h', rank') && Below(h', rank', MovedValues(f, vs), n) && SameRank(f, rank, rank')
    ensures TreesOf(h', rank', MovedValues(f, vs), n) != TreesOf(h, rank, vs, n)
    decreases n, |vs| + 1
  {
    var k := |vs| - 1;
    var moved := MovedValues(f, vs);
    assert moved[..k] == MovedValues(f, vs[..k]);
    var a, b := TreesOf(h', rank', moved[..k], n), TreesOf(h, rank, vs[..k], n);
    var x, y := TreeOf(h', rank', moved[k], n), TreeOf(h, rank, vs[k], n);
    if Cids(h, rank, vs[k], n) != [] {
      CloneAloneDiffers(h, rank, vs[k], n, f, g, h', rank');
    } else {
      ClonesAloneDiffer(h, rank, vs[..k], n, f, g, h', rank');
    }
    SnocDiffers(a, x, b, y);
  }

  lemma SnocDiffers<T>(a: seq<T>, x: T, b: seq<T>, y: T)
    requires a != b || x != y
    ensures a + [x] != b + [y]
  {
    if |a| == |b| && x == y {
      var i :| 0 <= i < |a| && a[i] != b[i];
      assert (a + [x])[i] != (b + [y])[i];
    } else if |a| == |b| {
      assert (a + [x])[|a|] != (b + [y])[|a|];
    }
  }
}
