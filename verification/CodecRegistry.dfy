/**
 Registries of codecs, hashers and multibase encoders.  Each keeps two tables, by name and by
 code (or prefix), and loads what is missing on demand; while a load is awaited anything else
 may happen to the tables.
 */
module CodecRegistry {
  import opened Outcomes

  datatype Codec<K> = Codec(name: string, code: K, impl: nat)

  datatype Tables<K> = Tables(byName: map<string, Codec<K>>, byCode: map<K, Codec<K>>)

  datatype Key<K> = Name(name: string) | Code(code: K)

  function Empty<K>(): Tables<K> {
    Tables(map[], map[])
  }

  function Lookup<K(==)>(t: Tables<K>, key: Key<K>): Option<Codec<K>> {
    match key
    case Name(n) => if n in t.byName then Some(t.byName[n]) else None
    case Code(k) => if k in t.byCode then Some(t.byCode[k]) else None
  }

  /** `addCodec` throws. */
  predicate Taken<K(==)>(t: Tables<K>, c: Codec<K>) {
    c.name in t.byName || c.code in t.byCode
  }

  function Insert<K(==)>(t: Tables<K>, c: Codec<K>): Tables<K> {
    if Taken(t, c) then t else Tables(t.byName[c.name := c], t.byCode[c.code := c])
  }

  function Drop<K(==)>(t: Tables<K>, c: Codec<K>): Tables<K> {
    Tables(t.byName - {c.name}, t.byCode - {c.code})
  }

  /** The recheck of `getCodec` and `getHasher` after a load looks at the table that was asked only. */
  predicate Rechecks<K(==)>(t: Tables<K>, key: Key<K>) {
    Lookup(t, key).None?
  }

  /** The end of `getCodec`, when the load has delivered. */
  function Finish<K(==)>(t: Tables<K>, key: Key<K>, c: Codec<K>): Tables<K> {
    if Rechecks(t, key) then Insert(t, c) else t
  }

  predicate FinishThrows<K(==)>(t: Tables<K>, key: Key<K>, c: Codec<K>) {
    Rechecks(t, key) && Taken(t, c)
  }

  // ---------------------------------------------------------------- runs

  datatype Event<K> = Add(codec: Codec<K>) | Remove(codec: Codec<K>) | Loaded(key: Key<K>, codec: Codec<K>)

  function Step<K(==)>(t: Tables<K>, ev: Event<K>): Tables<K> {
    match ev
    case Add(c) => Insert(t, c)
    case Remove(c) => Drop(t, c)
    case Loaded(key, c) => Finish(t, key, c)
  }

  function Run<K(==)>(t: Tables<K>, evs: seq<Event<K>>): Tables<K> {
    if evs == [] then t else Step(Run(t, evs[..|evs| - 1]), evs[|evs| - 1])
  }

  /** The two tables are inverse to one another over the same set of codecs. */
  ghost predicate Inverse<K>(t: Tables<K>) {
    && (forall n | n in t.byName :: t.byName[n].name == n && t.byName[n].code in t.byCode && t.byCode[t.byName[n].code] == t.byName[n])
    && (forall k | k in t.byCode :: t.byCode[k].code == k && t.byCode[k].name in t.byName && t.byName[t.byCode[k].name] == t.byCode[k])
  }

  /** The codec is registered as it is, or neither its name nor its code is. */
  ghost predicate Removable<K>(t: Tables<K>, c: Codec<K>) {
    Lookup(t, Name(c.name)) == Lookup(t, Code(c.code))
  }

  /** `removeCodec` keeps the tables inverse exactly when the name and the code it is given belong together. */
  lemma {:induction false} RemoveKeepsInverseIff<K>(t: Tables<K>, c: Codec<K>)
    requires Inverse(t)
    ensures Inverse(Drop(t, c)) <==> Removable(t, c)
  {
    var t' := Drop(t, c);
    if c.name in t.byName && !Removable(t, c) {
      var k := t.byName[c.name].code;
      assert k in t'.byCode;
    } else if c.code in t.byCode && !Removable(t, c) {
      var n := t.byCode[c.code].name;
      assert n in t'.byName;
    }
  }

  /** A run that only removes what is registered. */
  ghost predicate Orderly<K(!new)>(evs: seq<Event<K>>) {
    forall i | 0 <= i < |evs| && evs[i].Remove? :: Removable(Run(Empty(), evs[..i]), evs[i].codec)
  }

  /** Over any run of adds, loads by any loader, and removals of registered codecs the tables stay inverse. */
  lemma {:induction false} RunKeepsInverse<K(!new)>(evs: seq<Event<K>>)
    requires Orderly(evs)
    ensures Inverse(Run(Empty(), evs))
  {
    if evs != [] {
      var n := |evs| - 1;
      assert forall i | 0 <= i < n :: evs[..n][..i] == evs[..i] && evs[..n][i] == evs[i];
      RunKeepsInverse(evs[..n]);
      if evs[n].Remove? {
        RemoveKeepsInverseIff(Run(Empty(), evs[..n]), evs[n].codec);
      }
    }
  }

  // ---------------------------------------------------------------- what a call leaves behind

  /** An added codec is found under its name and its code, and nothing else changes; one that is taken changes nothing. */
  lemma {:induction false} AddedIsFound<K(!new)>(t: Tables<K>, c: Codec<K>, key: Key<K>)
    ensures var free := c.name !in t.byName && c.code !in t.byCode;
            Lookup(Insert(t, c), key) == if free && (key == Name(c.name) || key == Code(c.code)) then Some(c) else Lookup(t, key)
  {
  }

  /** A removed codec is found under neither, and nothing else changes. */
  lemma {:induction false} RemovedIsGone<K(!new)>(t: Tables<K>, c: Codec<K>, key: Key<K>)
    ensures Lookup(Drop(t, c), key) == if key == Name(c.name) || key == Code(c.code) then None else Lookup(t, key)
  {
  }

  // ---------------------------------------------------------------- honest loaders

  /** Codecs of which a name or a code identifies one. */
  ghost predicate Consistent<K(!new)>(known: iset<Codec<K>>) {
    forall a, b | a in known && b in known && (a.name == b.name || a.code == b.code) :: a == b
  }

  predicate Answers<K(==)>(key: Key<K>, c: Codec<K>) {
    match key
    case Name(n) => c.name == n
    case Code(k) => c.code == k
  }

  ghost predicate Honest<K(!new)>(known: iset<Codec<K>>, ev: Event<K>) {
    match ev
    case Add(c) => c in known
    case Remove(c) => true
    case Loaded(key, c) => c in known && Answers(key, c)
  }

  ghost predicate Within<K(!new)>(known: iset<Codec<K>>, t: Tables<K>) {
    (forall n | n in t.byName :: t.byName[n] in known) && (forall k | k in t.byCode :: t.byCode[k] in known)
  }

  lemma {:induction false} RunWithin<K(!new)>(known: iset<Codec<K>>, evs: seq<Event<K>>)
    requires forall i | 0 <= i < |evs| :: Honest(known, evs[i])
    ensures Within(known, Run(Empty(), evs))
  {
    if evs != [] {
      RunWithin(known, evs[..|evs| - 1]);
      assert Honest(known, evs[|evs| - 1]);
    }
  }

  /** When a load that answers its key is finished, `addCodec` throws exactly when the other index is taken by another codec. */
  lemma {:induction false} FinishThrowsIff<K(!new)>(t: Tables<K>, key: Key<K>, c: Codec<K>)
    requires Inverse(t) && Answers(key, c)
    ensures FinishThrows(t, key, c) <==>
              Lookup(t, key).None? && Lookup(t, if key.Name? then Code(c.code) else Name(c.name)).Some?
  {
  }

  /**
   Over any orderly run with an honest loader no `getCodec` makes `addCodec` throw, even when
   one codec is loaded by name and by code at once, and afterwards both indices lead to it.
   */
  lemma {:induction false} HonestNeverThrows<K(!new)>(known: iset<Codec<K>>, evs: seq<Event<K>>, key: Key<K>, c: Codec<K>)
    requires Consistent(known) && Orderly(evs) && forall i | 0 <= i < |evs| :: Honest(known, evs[i])
    requires c in known && Answers(key, c)
    ensures var t := Run(Empty(), evs);
            && !FinishThrows(t, key, c)
            && Lookup(Finish(t, key, c), Name(c.name)) == Some(c) && Lookup(Finish(t, key, c), Code(c.code)) == Some(c)
  {
    RunKeepsInverse(evs);
    RunWithin(known, evs);
    FinishThrowsIff(Run(Empty(), evs), key, c);
  }

  // ---------------------------------------------------------------- the classes

  /** `Multicodecs`, and `Multihashes`, which is the same with hashers. */
  class Multicodecs<K(==)> {
    var codecsByName: map<string, Codec<K>>
    var codecsByCode: map<K, Codec<K>>

    ghost function Snapshot(): Tables<K>
      reads this
    {
      Tables(codecsByName, codecsByCode)
    }

    constructor ()
      ensures Snapshot() == Empty()
    {
      codecsByName, codecsByCode := map[], map[];
    }

    method AddCodec(codec: Codec<K>) returns (thrown: bool)
      modifies this
      ensures Snapshot() == Insert(old(Snapshot()), codec) && thrown == Taken(old(Snapshot()), codec)
    {
      if codec.name in codecsByName || codec.code in codecsByCode {
        return true;
      }
      codecsByName := codecsByName[codec.name := codec];
      codecsByCode := codecsByCode[codec.code := codec];
      return false;
    }

    method RemoveCodec(codec: Codec<K>)
      modifies this
      ensures Snapshot() == Drop(old(Snapshot()), codec)
    {
      codecsByName := codecsByName - {codec.name};
      codecsByCode := codecsByCode - {codec.code};
    }

    /** `getCodec` up to the load. */
    method FindCodec(key: Key<K>) returns (found: Option<Codec<K>>)
      ensures found == Lookup(Snapshot(), key)
    {
      match key {
        case Name(n) => found := if n in codecsByName then Some(codecsByName[n]) else None;
        case Code(k) => found := if k in codecsByCode then Some(codecsByCode[k]) else None;
      }
    }

    /** `getCodec` after the load. */
    method FinishLoad(key: Key<K>, codec: Codec<K>) returns (thrown: bool)
      modifies this
      ensures Snapshot() == Finish(old(Snapshot()), key, codec) && thrown == FinishThrows(old(Snapshot()), key, codec)
    {
      var found := FindCodec(key);
      thrown := false;
      if found.None? {
        thrown := AddCodec(codec);
      }
    }
  }

  /** `Multibases`: one name space for names and prefixes, and a recheck of both indices of what was loaded. */
  class Multibases {
    var basesByName: map<string, Codec<string>>
    var basesByPrefix: map<string, Codec<string>>

    ghost function Snapshot(): Tables<string>
      reads this
    {
      Tables(basesByName, basesByPrefix)
    }

    constructor ()
      ensures Snapshot() == Empty()
    {
      basesByName, basesByPrefix := map[], map[];
    }

    method AddBase(base: Codec<string>) returns (thrown: bool)
      modifies this
      ensures Snapshot() == Insert(old(Snapshot()), base) && thrown == Taken(old(Snapshot()), base)
    {
      if base.name in basesByName || base.code in basesByPrefix {
        return true;
      }
      basesByName := basesByName[base.name := base];
      basesByPrefix := basesByPrefix[base.code := base];
      return false;
    }

    method RemoveBase(base: Codec<string>)
      modifies this
      ensures Snapshot() == Drop(old(Snapshot()), base)
    {
      basesByName := basesByName - {base.name};
      basesByPrefix := basesByPrefix - {base.code};
    }

    /** `getBase` up to the load: a name goes before a prefix. */
    method FindBase(nameOrPrefix: string) returns (found: Option<Codec<string>>)
      ensures found == if Lookup(Snapshot(), Name(nameOrPrefix)).Some? then Lookup(Snapshot(), Name(nameOrPrefix))
                       else Lookup(Snapshot(), Code(nameOrPrefix))
    {
      if nameOrPrefix in basesByName {
        return Some(basesByName[nameOrPrefix]);
      }
      if nameOrPrefix in basesByPrefix {
        return Some(basesByPrefix[nameOrPrefix]);
      }
      return None;
    }

    /** `getBase` after the load: whatever the loader delivers, `addBase` does not throw and the tables stay inverse. */
    method FinishLoad(base: Codec<string>) returns (thrown: bool)
      modifies this
      ensures !thrown && Snapshot() == Insert(old(Snapshot()), base)
      ensures old(Inverse(Snapshot())) ==> Inverse(Snapshot())
    {
      thrown := false;
      if base.name !in basesByName && base.code !in basesByPrefix {
        thrown := AddBase(base);
      }
    }
  }
}
