/** Credential overwrites and how they are inherited (packages/cli/src/credentials-overwrites.ts).

    `setPlainData` replaces entries by merged ones while `getOverwrites` remembers, by name only,
    which types it has been asked about; a remembered type may never have been merged.  What `get`
    answers is nevertheless fixed by the raw data alone. */
module CredentialsOverwrites {
  import opened Wrappers
  import opened CredentialTypes

  // ----- Data -----

  /** A credential field.  `Object` carries the identity that `!==` compares and the content that
      survives a copy. */
  datatype Value =
    | Undefined
    | Null
    | Text(s: string)
    | Number(n: real)
    | Boolean(b: bool)
    | Object(ref: nat, content: string)

  type Fields = map<string, Value>
  type Overwrites = map<TypeName, Fields>

  /** `parents` has the `extends` list of every type that declares one, empty or not. */
  datatype KnownTypes = KnownTypes(parents: Registry, recognized: set<TypeName>)

  ghost predicate WellFormed(known: KnownTypes) {
    && Acyclic(known.parents)
    && forall t :: t !in known.recognized ==> Extends(known.parents, t) == []
  }

  function Entry(data: Overwrites, t: TypeName): Fields {
    if t in data then data[t] else map[]
  }

  function Lookup(data: Overwrites, t: TypeName): Option<Fields> {
    if t in data then Some(data[t]) else None
  }

  // ----- What the two resolving functions compute -----

  /** `getOverwrites(t)`: the answer, and the list of resolved types afterwards. */
  ghost function Resolve(known: KnownTypes, data: Overwrites, resolved: seq<TypeName>, t: TypeName)
    : (Option<Fields>, seq<TypeName>)
    requires WellFormed(known)
    decreases Rank(known.parents, t), 1, 0
  {
    if t in resolved then (Lookup(data, t), resolved)
    else if t !in known.recognized then (None, resolved)
    else if t !in known.parents then (Lookup(data, t), resolved + [t])
    else
      ParentsBounded(known.parents, t);
      var (inherited, resolved') := ResolveAll(known, data, resolved, known.parents[t], map[]);
      (Some(inherited + Entry(data, t)), resolved' + [t])
  }

  /** The loop over `extends`: later parents overwrite earlier ones. */
  ghost function ResolveAll(known: KnownTypes, data: Overwrites, resolved: seq<TypeName>,
                            parents: seq<TypeName>, acc: Fields): (Fields, seq<TypeName>)
    requires WellFormed(known)
    decreases Bound(known.parents, parents), 0, |parents|
  {
    if parents == [] then (acc, resolved)
    else
      BoundIsLeast(known.parents, parents[1..], Bound(known.parents, parents));
      var (answer, resolved') := Resolve(known, data, resolved, parents[0]);
      ResolveAll(known, data, resolved', parents[1..], acc + OrEmpty(answer))
  }

  function OrEmpty(answer: Option<Fields>): Fields {
    if answer.Some? then answer.value else map[]
  }

  lemma ParentsBounded(g: Registry, t: TypeName)
    requires Acyclic(g)
    ensures Bound(g, Extends(g, t)) <= Rank(g, t)
  {
    forall e | e in Extends(g, t) ensures Rank(g, e) < Rank(g, t) { ParentRanksLower(g, t, e); }
    BoundIsLeast(g, Extends(g, t), Rank(g, t));
  }

  /** `setPlainData`: the stored data and the resolved types after visiting the keys in `order`. */
  ghost function Flatten(known: KnownTypes, data: Overwrites, resolved: seq<TypeName>, order: seq<TypeName>)
    : (Overwrites, seq<TypeName>)
    requires WellFormed(known)
    decreases |order|
  {
    if order == [] then (data, resolved)
    else
      var (answer, resolved') := Resolve(known, data, resolved, order[0]);
      Flatten(known, Store(data, order[0], answer), resolved', order[1..])
  }

  function Store(data: Overwrites, t: TypeName, answer: Option<Fields>): Overwrites {
    if answer.Some? && |answer.value.Keys| > 0 then data[t := answer.value] else data
  }

  /** The fold of `get`: in a nearest-first list the first type that has a key decides it. */
  function Merge(data: Overwrites, types: seq<TypeName>): Fields {
    if types == [] then map[] else Merge(data, types[1..]) + Entry(data, types[0])
  }

  ghost function EffectiveOverwrites(known: KnownTypes, data: Overwrites, t: TypeName): Fields
    requires WellFormed(known)
  {
    Merge(data, [t] + ParentTypes(known.parents, t))
  }

  // ----- What a type inherits, from the raw data alone -----

  /** `v` is inheritable for key `k` at type `t`: either `t` itself sets it, or `t` leaves the key
      open and one of its parents makes it inheritable. */
  ghost predicate Inherits(known: KnownTypes, raw: Overwrites, t: TypeName, k: string, v: Value)
    requires WellFormed(known)
    decreases Rank(known.parents, t)
  {
    if k in Entry(raw, t) then v == Entry(raw, t)[k]
    else exists e :: e in Extends(known.parents, t)
                  && (ParentRanksLower(known.parents, t, e); Inherits(known, raw, e, k, v))
  }

  ghost predicate InheritsFromOneOf(known: KnownTypes, raw: Overwrites, types: seq<TypeName>, k: string, v: Value)
    requires WellFormed(known)
  {
    exists e :: e in types && Inherits(known, raw, e, k, v)
  }

  ghost predicate AllInheritFromOneOf(known: KnownTypes, raw: Overwrites, types: seq<TypeName>, m: Fields)
    requires WellFormed(known)
  {
    forall k | k in m :: InheritsFromOneOf(known, raw, types, k, m[k])
  }

  /** Some type among `t` and its ancestors sets `k`. */
  ghost predicate SetAbove(known: KnownTypes, raw: Overwrites, t: TypeName, k: string) {
    exists a :: (a == t || IsAncestor(known.parents, t, a)) && k in Entry(raw, a)
  }

  /** Between the raw entry of `t` and what `t` inherits. */
  ghost predicate Between(known: KnownTypes, raw: Overwrites, t: TypeName, m: Fields)
    requires WellFormed(known)
  {
    && (forall k | k in Entry(raw, t) :: k in m && m[k] == Entry(raw, t)[k])
    && (forall k | k in m :: Inherits(known, raw, t, k, m[k]))
  }

  ghost predicate Sandwiched(known: KnownTypes, raw: Overwrites, data: Overwrites)
    requires WellFormed(known)
  {
    && data.Keys == raw.Keys
    && forall t :: Between(known, raw, t, Entry(data, t))
  }

  lemma InheritsFromParent(known: KnownTypes, raw: Overwrites, t: TypeName, e: TypeName, k: string, v: Value)
    requires WellFormed(known) && e in Extends(known.parents, t)
    requires k !in Entry(raw, t) && Inherits(known, raw, e, k, v)
    ensures Inherits(known, raw, t, k, v)
  {
  }

  lemma RawIsSandwiched(known: KnownTypes, raw: Overwrites)
    requires WellFormed(known)
    ensures Sandwiched(known, raw, raw)
  {
  }

  // ----- Resolving keeps the stored data between raw and inherited -----

  lemma {:induction false} ResolveIsBetween(known: KnownTypes, raw: Overwrites, data: Overwrites,
                                            resolved: seq<TypeName>, t: TypeName)
    requires WellFormed(known) && Sandwiched(known, raw, data)
    ensures var answer := Resolve(known, data, resolved, t).0;
      && (answer.Some? ==> Between(known, raw, t, answer.value))
    decreases Rank(known.parents, t), 1, 0
  {
    assert Between(known, raw, t, Entry(data, t));
    if t !in resolved && t in known.recognized && t in known.parents {
      var parents := known.parents[t];
      ParentsBounded(known.parents, t);
      ResolveAllInherits(known, raw, data, resolved, parents, parents, map[]);
      var inherited := ResolveAll(known, data, resolved, parents, map[]).0;
      var m := inherited + Entry(data, t);
      forall k | k in m ensures Inherits(known, raw, t, k, m[k]) {
        if k !in Entry(data, t) {
          assert k in inherited && InheritsFromOneOf(known, raw, parents, k, inherited[k]);
          var e :| e in parents && Inherits(known, raw, e, k, inherited[k]);
          InheritsFromParent(known, raw, t, e, k, inherited[k]);
        }
      }
    }
  }

  lemma {:induction false} ResolveAllInherits(known: KnownTypes, raw: Overwrites, data: Overwrites,
      resolved: seq<TypeName>, all: seq<TypeName>, parents: seq<TypeName>, acc: Fields)
    requires WellFormed(known) && Sandwiched(known, raw, data)
    requires forall e | e in parents :: e in all
    requires AllInheritFromOneOf(known, raw, all, acc)
    ensures AllInheritFromOneOf(known, raw, all, ResolveAll(known, data, resolved, parents, acc).0)
    decreases Bound(known.parents, parents), 0, |parents|
  {
    if parents == [] {
    } else {
      BoundIsLeast(known.parents, parents[1..], Bound(known.parents, parents));
      ResolveIsBetween(known, raw, data, resolved, parents[0]);
      var (answer, resolved') := Resolve(known, data, resolved, parents[0]);
      var acc' := acc + OrEmpty(answer);
      forall k | k in acc' ensures InheritsFromOneOf(known, raw, all, k, acc'[k]) {
        if k in OrEmpty(answer) { assert Inherits(known, raw, parents[0], k, acc'[k]); }
      }
      ResolveAllInherits(known, raw, data, resolved', all, parents[1..], acc');
    }
  }

  lemma StoreKeepsSandwich(known: KnownTypes, raw: Overwrites, data: Overwrites, t: TypeName, answer: Option<Fields>)
    requires WellFormed(known) && Sandwiched(known, raw, data) && t in raw
    requires answer.Some? ==> Between(known, raw, t, answer.value)
    ensures Sandwiched(known, raw, Store(data, t, answer))
  {
    var data' := Store(data, t, answer);
    forall u ensures Between(known, raw, u, Entry(data', u)) {
      assert Between(known, raw, u, Entry(data, u));
    }
  }

  /** Whatever order the keys are visited in, and whatever was resolved before, the stored data
      stays between the raw data and what the types inherit. */
  lemma {:induction false} FlattenKeepsSandwich(known: KnownTypes, raw: Overwrites, data: Overwrites,
                                                resolved: seq<TypeName>, order: seq<TypeName>)
    requires WellFormed(known) && Sandwiched(known, raw, data)
    requires forall t | t in order :: t in raw
    ensures Sandwiched(known, raw, Flatten(known, data, resolved, order).0)
    decreases |order|
  {
    if order == [] {
    } else {
      var (answer, resolved') := Resolve(known, data, resolved, order[0]);
      ResolveIsBetween(known, raw, data, resolved, order[0]);
      StoreKeepsSandwich(known, raw, data, order[0], answer);
      FlattenKeepsSandwich(known, raw, Store(data, order[0], answer), resolved', order[1..]);
    }
  }

  // ----- What `get` answers -----

  /** The first listed type that has the key. */
  lemma {:induction false} MergeTakesTheFirst(data: Overwrites, types: seq<TypeName>, k: string) returns (i: nat)
    ensures k in Merge(data, types) <==> exists t :: t in types && k in Entry(data, t)
    ensures k in Merge(data, types) ==>
      && i < |types| && k in Entry(data, types[i]) && Merge(data, types)[k] == Entry(data, types[i])[k]
      && forall j | 0 <= j < i :: k !in Entry(data, types[j])
  {
    i := 0;
    if types != [] && k !in Entry(data, types[0]) {
      i := MergeTakesTheFirst(data, types[1..], k);
      i := i + 1;
      assert forall t :: t in types <==> t == types[0] || t in types[1..];
    }
  }

  /** A value inheritable at a listed type is inheritable at `t`, when no type listed before it
      sets the key: every listed type is extended by one listed before it. */
  lemma {:induction false} InheritsUpTheList(known: KnownTypes, raw: Overwrites, t: TypeName,
                                             i: nat, k: string, v: Value)
    requires WellFormed(known)
    requires var types := [t] + ParentTypes(known.parents, t);
      && i < |types| && Inherits(known, raw, types[i], k, v)
      && forall j | 0 <= j < i :: k !in Entry(raw, types[j])
    ensures Inherits(known, raw, t, k, v)
    decreases i
  {
    if i > 0 {
      var parents := ParentTypes(known.parents, t);
      var types := [t] + parents;
      ParentTypesAreSupported(known.parents, t);
      assert ExtendedByOneOf(known.parents, parents[i - 1], [t] + parents[..i - 1]);
      assert types[..i] == [t] + parents[..i - 1];
      var u :| u in types[..i] && types[i] in Extends(known.parents, u);
      var j :| 0 <= j < i && types[j] == u;
      InheritsFromParent(known, raw, u, types[i], k, v);
      InheritsUpTheList(known, raw, t, j, k, v);
    }
  }

  lemma {:induction false} InheritedIsSetAbove(known: KnownTypes, raw: Overwrites, t: TypeName, k: string, v: Value)
    requires WellFormed(known) && Inherits(known, raw, t, k, v)
    ensures SetAbove(known, raw, t, k)
    decreases Rank(known.parents, t)
  {
    if k !in Entry(raw, t) {
      var e :| e in Extends(known.parents, t) && Inherits(known, raw, e, k, v);
      ParentRanksLower(known.parents, t, e);
      InheritedIsSetAbove(known, raw, e, k, v);
      var a :| (a == e || IsAncestor(known.parents, e, a)) && k in Entry(raw, a);
      ParentIsAncestor(known.parents, t, e);
      if a != e { AncestorThroughParent(known.parents, t, e, a); }
    }
  }

  /** On every acyclic registry, whichever entries have been flattened: `get(t)` has exactly the keys
      set by `t` or an ancestor, and gives each key a value that `t` inherits. */
  lemma GetInherits(known: KnownTypes, raw: Overwrites, data: Overwrites, t: TypeName)
    requires WellFormed(known) && Sandwiched(known, raw, data)
    ensures var r := EffectiveOverwrites(known, data, t);
      && (forall k :: k in r <==> SetAbove(known, raw, t, k))
      && (forall k | k in r :: Inherits(known, raw, t, k, r[k]))
  {
    var types := [t] + ParentTypes(known.parents, t);
    var r := EffectiveOverwrites(known, data, t);
    forall k ensures k in r <==> SetAbove(known, raw, t, k)
             ensures k in r ==> Inherits(known, raw, t, k, r[k])
    {
      var i := MergeTakesTheFirst(data, types, k);
      if k in r {
        assert forall u :: Between(known, raw, u, Entry(data, u));
        assert Inherits(known, raw, types[i], k, r[k]);
        InheritsUpTheList(known, raw, t, i, k, r[k]);
        InheritedIsSetAbove(known, raw, t, k, r[k]);
      }
      if SetAbove(known, raw, t, k) {
        var a :| (a == t || IsAncestor(known.parents, t, a)) && k in Entry(raw, a);
        ParentTypesAreTheAncestors(known.parents, t);
        assert a in types;
        assert Between(known, raw, a, Entry(data, a));
      }
    }
  }

  // ----- Single inheritance: the nearest type wins -----

  /** On a chain the inheritable value is the one of the nearest member that sets the key. */
  lemma {:induction false} ChainInheritsNearest(known: KnownTypes, raw: Overwrites, t: TypeName, k: string, v: Value)
    returns (i: nat)
    requires WellFormed(known) && SingleInheritance(known.parents) && Inherits(known, raw, t, k, v)
    ensures var c := Chain(known.parents, t);
      && i < |c| && k in Entry(raw, c[i]) && v == Entry(raw, c[i])[k]
      && forall j | 0 <= j < i :: k !in Entry(raw, c[j])
    decreases Rank(known.parents, t)
  {
    i := 0;
    if k !in Entry(raw, t) {
      var e :| e in Extends(known.parents, t) && Inherits(known, raw, e, k, v);
      assert |Extends(known.parents, t)| <= 1;
      ParentRanksLower(known.parents, t, e);
      i := ChainInheritsNearest(known, raw, e, k, v);
      i := i + 1;
    }
  }

  /** Nearest ancestor wins: after `setPlainData(raw)`, in any key order, `get(t)` gives every key
      the raw value of the first type on the chain of `t` that sets it. */
  lemma NearestWins(known: KnownTypes, raw: Overwrites, order: seq<TypeName>, t: TypeName, i: nat, k: string)
    requires WellFormed(known) && SingleInheritance(known.parents)
    requires forall u | u in order :: u in raw
    requires var c := Chain(known.parents, t);
      && i < |c| && k in Entry(raw, c[i]) && forall j | 0 <= j < i :: k !in Entry(raw, c[j])
    ensures var r := EffectiveOverwrites(known, Flatten(known, raw, [], order).0, t);
      k in r && r[k] == Entry(raw, Chain(known.parents, t)[i])[k]
  {
    var data := Flatten(known, raw, [], order).0;
    RawIsSandwiched(known, raw);
    FlattenKeepsSandwich(known, raw, raw, [], order);
    GetInherits(known, raw, data, t);
    var c := Chain(known.parents, t);
    ParentTypesStartWithTheChain(known.parents, t);
    ParentTypesAreTheAncestors(known.parents, t);
    if i > 0 { assert c[i] == c[1..][i - 1]; assert c[i] in ParentTypes(known.parents, t); }
    assert SetAbove(known, raw, t, k);
    var i' := ChainInheritsNearest(known, raw, t, k, EffectiveOverwrites(known, data, t)[k]);
    assert i' == i;
  }

  lemma {:induction false} InheritedIsUnique(known: KnownTypes, raw: Overwrites, t: TypeName,
                                             k: string, v: Value, w: Value)
    requires WellFormed(known) && SingleInheritance(known.parents)
    requires Inherits(known, raw, t, k, v) && Inherits(known, raw, t, k, w)
    ensures v == w
  {
    var i := ChainInheritsNearest(known, raw, t, k, v);
    var j := ChainInheritsNearest(known, raw, t, k, w);
    assert i == j;
  }

  // ----- What one answer of `getOverwrites` holds -----

  /** Some recognized type among `t` and its ancestors sets `k`. */
  ghost predicate SetByRecognized(known: KnownTypes, data: Overwrites, t: TypeName, k: string) {
    exists a :: a in known.recognized && (a == t || IsAncestor(known.parents, t, a)) && k in Entry(data, a)
  }

  /** An unrecognized type has no answer.  A recognized one is answered with at least its own entry, whatever
      was resolved before. */
  lemma OwnEntryIsAnswered(known: KnownTypes, data: Overwrites, resolved: seq<TypeName>, t: TypeName)
    requires WellFormed(known)
    ensures t !in resolved && t !in known.recognized ==> Resolve(known, data, resolved, t) == (None, resolved)
    ensures t in resolved || t in known.recognized ==>
      var r := OrEmpty(Resolve(known, data, resolved, t).0);
      forall k | k in Entry(data, t) :: k in r && r[k] == Entry(data, t)[k]
  {
  }

  /** The fields gathered so far stay, unless a later parent sets them again. */
  lemma {:induction false} GatheredKeysStay(known: KnownTypes, data: Overwrites, resolved: seq<TypeName>,
                                            parents: seq<TypeName>, acc: Fields)
    requires WellFormed(known)
    ensures acc.Keys <= ResolveAll(known, data, resolved, parents, acc).0.Keys
    decreases |parents|
  {
    if parents == [] {
    } else {
      BoundIsLeast(known.parents, parents[1..], Bound(known.parents, parents));
      var (answer, resolved') := Resolve(known, data, resolved, parents[0]);
      GatheredKeysStay(known, data, resolved', parents[1..], acc + OrEmpty(answer));
    }
  }

  lemma {:induction false} ParentsAreGathered(known: KnownTypes, data: Overwrites, resolved: seq<TypeName>,
                                              parents: seq<TypeName>, acc: Fields, e: TypeName)
    requires WellFormed(known) && e in parents && e in known.recognized
    ensures Entry(data, e).Keys <= ResolveAll(known, data, resolved, parents, acc).0.Keys
    decreases |parents|
  {
    BoundIsLeast(known.parents, parents[1..], Bound(known.parents, parents));
    var (answer, resolved') := Resolve(known, data, resolved, parents[0]);
    if parents[0] == e {
      OwnEntryIsAnswered(known, data, resolved, e);
      GatheredKeysStay(known, data, resolved', parents[1..], acc + OrEmpty(answer));
    } else {
      ParentsAreGathered(known, data, resolved', parents[1..], acc + OrEmpty(answer), e);
    }
  }

  /** The answer for a type that is asked for the first time has the fields of every recognized parent,
      whatever else was resolved before. */
  lemma ParentsAreMerged(known: KnownTypes, data: Overwrites, resolved: seq<TypeName>, t: TypeName, e: TypeName)
    requires WellFormed(known) && t !in resolved && t in known.recognized && e in known.recognized
    requires t in known.parents && e in known.parents[t]
    ensures var answer := Resolve(known, data, resolved, t).0;
      answer.Some? && Entry(data, e).Keys <= answer.value.Keys
  {
    ParentsBounded(known.parents, t);
    ParentsAreGathered(known, data, resolved, known.parents[t], map[], e);
  }

  lemma {:induction false} LastIsGatheredLast(known: KnownTypes, data: Overwrites, resolved: seq<TypeName>,
                                              parents: seq<TypeName>, acc: Fields, k: string)
    requires WellFormed(known) && parents != [] && parents[|parents| - 1] in known.recognized
    requires k in Entry(data, parents[|parents| - 1])
    ensures var r := ResolveAll(known, data, resolved, parents, acc).0;
      k in r && r[k] == Entry(data, parents[|parents| - 1])[k]
    decreases |parents|
  {
    BoundIsLeast(known.parents, parents[1..], Bound(known.parents, parents));
    var (answer, resolved') := Resolve(known, data, resolved, parents[0]);
    if |parents| == 1 {
      OwnEntryIsAnswered(known, data, resolved, parents[0]);
    } else {
      LastIsGatheredLast(known, data, resolved', parents[1..], acc + OrEmpty(answer), k);
    }
  }

  /** Among parents that set a key themselves, the answer takes the last one, ... */
  lemma LastParentWins(known: KnownTypes, data: Overwrites, resolved: seq<TypeName>, t: TypeName, k: string)
    requires WellFormed(known) && t !in resolved && t in known.recognized
    requires t in known.parents && known.parents[t] != []
    requires var e := known.parents[t][|known.parents[t]| - 1];
      e in known.recognized && k in Entry(data, e) && k !in Entry(data, t)
    ensures var answer, e := Resolve(known, data, resolved, t).0, known.parents[t][|known.parents[t]| - 1];
      answer.Some? && k in answer.value && answer.value[k] == Entry(data, e)[k]
  {
    ParentsBounded(known.parents, t);
    LastIsGatheredLast(known, data, resolved, known.parents[t], map[], k);
  }

  /** ... and `get` the first one: they disagree on a type whose entry has not been flattened. */
  lemma FirstParentWins(known: KnownTypes, data: Overwrites, t: TypeName, k: string)
    requires WellFormed(known) && Extends(known.parents, t) != []
    requires k in Entry(data, Extends(known.parents, t)[0]) && k !in Entry(data, t)
    ensures var r := EffectiveOverwrites(known, data, t);
      k in r && r[k] == Entry(data, Extends(known.parents, t)[0])[k]
  {
    var parents := Extends(known.parents, t);
    StartsWithTheQueue(known.parents, parents);
    var types := [t] + ParentTypes(known.parents, t);
    assert types[1] == parents[0];
    var i := MergeTakesTheFirst(data, types, k);
    assert i == 1;
  }

  // ----- The first answer has everything -----

  /** Only recognized types are resolved, and with a type its recognized parents. */
  ghost predicate Closed(known: KnownTypes, resolved: seq<TypeName>) {
    forall u | u in resolved ::
      u in known.recognized && forall e | e in Extends(known.parents, u) && e in known.recognized :: e in resolved
  }

  ghost predicate Covers(data: Overwrites, m: Fields, u: TypeName) {
    Entry(data, u).Keys <= m.Keys
  }

  /** The fields of every type that this answer resolves are in it. */
  lemma {:induction false} ResolveCovers(known: KnownTypes, data: Overwrites, resolved: seq<TypeName>, t: TypeName)
    requires WellFormed(known) && Closed(known, resolved)
    ensures var (answer, resolved') := Resolve(known, data, resolved, t);
      && Closed(known, resolved') && (forall u | u in resolved :: u in resolved')
      && (t in known.recognized ==> t in resolved')
      && (forall u | u in resolved' && u !in resolved :: Covers(data, OrEmpty(answer), u))
    decreases Rank(known.parents, t), 1, 0
  {
    if t !in resolved && t in known.recognized && t in known.parents {
      ParentsBounded(known.parents, t);
      ResolveAllCovers(known, data, resolved, known.parents[t], map[]);
    }
  }

  lemma {:induction false} ResolveAllCovers(known: KnownTypes, data: Overwrites, resolved: seq<TypeName>,
                                            parents: seq<TypeName>, acc: Fields)
    requires WellFormed(known) && Closed(known, resolved)
    ensures var (m, resolved') := ResolveAll(known, data, resolved, parents, acc);
      && Closed(known, resolved') && (forall u | u in resolved :: u in resolved')
      && (forall e | e in parents && e in known.recognized :: e in resolved')
      && (forall u | u in resolved' && u !in resolved :: Covers(data, m, u))
    decreases Bound(known.parents, parents), 0, |parents|
  {
    if parents == [] {
    } else {
      BoundIsLeast(known.parents, parents[1..], Bound(known.parents, parents));
      var (answer, resolved1) := Resolve(known, data, resolved, parents[0]);
      var acc1 := acc + OrEmpty(answer);
      ResolveCovers(known, data, resolved, parents[0]);
      ResolveAllCovers(known, data, resolved1, parents[1..], acc1);
      GatheredKeysStay(known, data, resolved1, parents[1..], acc1);
    }
  }

  lemma {:induction false} ClosedHoldsTheAncestors(known: KnownTypes, resolved: seq<TypeName>, p: seq<TypeName>)
    requires WellFormed(known) && Closed(known, resolved) && IsPath(known.parents, p) && p[0] in resolved
    requires p[|p| - 1] in known.recognized
    ensures p[|p| - 1] in resolved
    decreases |p|
  {
    if |p| == 1 {
    } else {
      PathTail(known.parents, p);
      if |p| > 2 { assert p[1..][0 + 1] in Extends(known.parents, p[1..][0]); }
      ClosedHoldsTheAncestors(known, resolved, p[1..]);
    }
  }

  lemma {:induction false} ResolvedKeysAreSet(known: KnownTypes, data: Overwrites, resolved: seq<TypeName>,
                                              t: TypeName, k: string)
    requires WellFormed(known) && Closed(known, resolved)
    requires k in OrEmpty(Resolve(known, data, resolved, t).0)
    ensures SetByRecognized(known, data, t, k)
    decreases Rank(known.parents, t), 1, 0
  {
    if t !in resolved && t in known.parents && k !in Entry(data, t) {
      ParentsBounded(known.parents, t);
      var e := GatheredKeysAreSet(known, data, resolved, known.parents[t], map[], k);
      var a :| a in known.recognized && (a == e || IsAncestor(known.parents, e, a)) && k in Entry(data, a);
      ParentIsAncestor(known.parents, t, e);
      if a != e { AncestorThroughParent(known.parents, t, e, a); }
    }
  }

  lemma {:induction false} GatheredKeysAreSet(known: KnownTypes, data: Overwrites, resolved: seq<TypeName>,
      parents: seq<TypeName>, acc: Fields, k: string) returns (e: TypeName)
    requires WellFormed(known) && Closed(known, resolved)
    requires k !in acc && k in ResolveAll(known, data, resolved, parents, acc).0
    ensures e in parents && SetByRecognized(known, data, e, k)
    decreases Bound(known.parents, parents), 0, |parents|
  {
    BoundIsLeast(known.parents, parents[1..], Bound(known.parents, parents));
    var (answer, resolved') := Resolve(known, data, resolved, parents[0]);
    if k in OrEmpty(answer) {
      ResolvedKeysAreSet(known, data, resolved, parents[0], k);
      e := parents[0];
    } else {
      ResolveCovers(known, data, resolved, parents[0]);
      e := GatheredKeysAreSet(known, data, resolved', parents[1..], acc + OrEmpty(answer), k);
    }
  }

  /** With nothing resolved before, the answer has exactly the keys that the type or one of its recognized
      ancestors sets, diamonds included. */
  lemma FirstAnswerHasAllKeys(known: KnownTypes, data: Overwrites, t: TypeName, k: string)
    requires WellFormed(known) && t in known.recognized
    ensures k in OrEmpty(Resolve(known, data, [], t).0) <==> SetByRecognized(known, data, t, k)
  {
    ResolveCovers(known, data, [], t);
    var (answer, resolved) := Resolve(known, data, [], t);
    if k in OrEmpty(answer) { ResolvedKeysAreSet(known, data, [], t, k); }
    if SetByRecognized(known, data, t, k) {
      var a :| a in known.recognized && (a == t || IsAncestor(known.parents, t, a)) && k in Entry(data, a);
      if a != t {
        var p :| |p| >= 2 && PathBetween(known.parents, p, t, a);
        ClosedHoldsTheAncestors(known, resolved, p);
      }
      assert Covers(data, OrEmpty(answer), a);
    }
  }

  /** If all its ancestors are recognized, these are the keys set above the type. */
  lemma RecognizedAncestorsSetAll(known: KnownTypes, data: Overwrites, t: TypeName, k: string)
    requires t in known.recognized && forall a | IsAncestor(known.parents, t, a) :: a in known.recognized
    ensures SetByRecognized(known, data, t, k) <==> SetAbove(known, data, t, k)
  {
    if SetAbove(known, data, t, k) {
      var a :| (a == t || IsAncestor(known.parents, t, a)) && k in Entry(data, a);
      assert a in known.recognized;
    }
  }

  // ----- What is stored for the first key visited -----

  lemma {:induction false} ResolvedGrows(known: KnownTypes, data: Overwrites, resolved: seq<TypeName>, t: TypeName)
    requires WellFormed(known)
    ensures resolved <= Resolve(known, data, resolved, t).1
    ensures t in known.recognized ==> t in Resolve(known, data, resolved, t).1
    decreases Rank(known.parents, t), 1, 0
  {
    if t !in resolved && t in known.recognized && t in known.parents {
      ParentsBounded(known.parents, t);
      ResolvedAllGrows(known, data, resolved, known.parents[t], map[]);
    }
  }

  lemma {:induction false} ResolvedAllGrows(known: KnownTypes, data: Overwrites, resolved: seq<TypeName>,
                                            parents: seq<TypeName>, acc: Fields)
    requires WellFormed(known)
    ensures resolved <= ResolveAll(known, data, resolved, parents, acc).1
    decreases Bound(known.parents, parents), 0, |parents|
  {
    if parents == [] {
    } else {
      BoundIsLeast(known.parents, parents[1..], Bound(known.parents, parents));
      var (answer, resolved') := Resolve(known, data, resolved, parents[0]);
      ResolvedGrows(known, data, resolved, parents[0]);
      ResolvedAllGrows(known, data, resolved', parents[1..], acc + OrEmpty(answer));
    }
  }

  /** The entry of a resolved type is final. */
  lemma {:induction false} ResolvedEntryStays(known: KnownTypes, data: Overwrites, resolved: seq<TypeName>,
                                              order: seq<TypeName>, t: TypeName)
    requires WellFormed(known) && t in resolved
    ensures Lookup(Flatten(known, data, resolved, order).0, t) == Lookup(data, t)
    decreases |order|
  {
    if order == [] {
    } else {
      var (answer, resolved') := Resolve(known, data, resolved, order[0]);
      ResolvedGrows(known, data, resolved, order[0]);
      ResolvedEntryStays(known, Store(data, order[0], answer), resolved', order[1..], t);
    }
  }

  /** The nearest type on the chain of `t` that sets `k`. */
  ghost predicate IsNearest(known: KnownTypes, raw: Overwrites, t: TypeName, i: nat, k: string)
    requires WellFormed(known) && SingleInheritance(known.parents)
  {
    var c := Chain(known.parents, t);
    i < |c| && k in Entry(raw, c[i]) && forall j | 0 <= j < i :: k !in Entry(raw, c[j])
  }

  /** The type that `setPlainData` visits first is stored with exactly the keys that it or a recognized
      ancestor sets in the raw data, and with single inheritance each has the value of the nearest type. */
  lemma FirstVisitedIsFlattened(known: KnownTypes, raw: Overwrites, order: seq<TypeName>)
    requires WellFormed(known) && order != [] && order[0] in raw && order[0] in known.recognized
    ensures var stored, t := Entry(Flatten(known, raw, [], order).0, order[0]), order[0];
      && (forall k :: k in stored <==> SetByRecognized(known, raw, t, k))
      && (SingleInheritance(known.parents) ==>
            forall k, i: nat | k in stored && IsNearest(known, raw, t, i, k) ::
              stored[k] == Entry(raw, Chain(known.parents, t)[i])[k])
  {
    var t := order[0];
    var (answer, resolved) := Resolve(known, raw, [], t);
    var data := Store(raw, t, answer);
    var stored := Entry(Flatten(known, raw, [], order).0, t);
    ResolvedGrows(known, raw, [], t);
    ResolvedEntryStays(known, data, resolved, order[1..], t);
    assert Lookup(Flatten(known, raw, [], order).0, t) == Lookup(data, t);
    OwnEntryIsAnswered(known, raw, [], t);
    assert stored == OrEmpty(answer);
    forall k ensures k in stored <==> SetByRecognized(known, raw, t, k) {
      FirstAnswerHasAllKeys(known, raw, t, k);
    }
    if SingleInheritance(known.parents) {
      FirstAnswerIsNearest(known, raw, t);
    }
  }

  /** With single inheritance every value of the first answer is that of the nearest type. */
  lemma FirstAnswerIsNearest(known: KnownTypes, raw: Overwrites, t: TypeName)
    requires WellFormed(known) && SingleInheritance(known.parents)
    ensures var r := OrEmpty(Resolve(known, raw, [], t).0);
      forall k, i: nat | k in r && IsNearest(known, raw, t, i, k) :: r[k] == Entry(raw, Chain(known.parents, t)[i])[k]
  {
    RawIsSandwiched(known, raw);
    ResolveIsBetween(known, raw, raw, [], t);
    var r := OrEmpty(Resolve(known, raw, [], t).0);
    forall k, i: nat | k in r && IsNearest(known, raw, t, i, k)
      ensures r[k] == Entry(raw, Chain(known.parents, t)[i])[k]
    {
      var i' := ChainInheritsNearest(known, raw, t, k, r[k]);
      assert i' == i;
    }
  }

  // ----- Which types are stored with their parents' fields -----

  lemma {:induction false} ResolvedAreAbove(known: KnownTypes, data: Overwrites, resolved: seq<TypeName>,
                                            t: TypeName, u: TypeName)
    requires WellFormed(known) && u in Resolve(known, data, resolved, t).1 && u !in resolved
    ensures u in known.recognized && (u == t || IsAncestor(known.parents, t, u))
    decreases Rank(known.parents, t), 1, 0
  {
    if u != t {
      ParentsBounded(known.parents, t);
      var e := GatheredAreAbove(known, data, resolved, known.parents[t], map[], u);
      ParentIsAncestor(known.parents, t, e);
      if u != e { AncestorThroughParent(known.parents, t, e, u); }
    }
  }

  lemma {:induction false} GatheredAreAbove(known: KnownTypes, data: Overwrites, resolved: seq<TypeName>,
      parents: seq<TypeName>, acc: Fields, u: TypeName) returns (e: TypeName)
    requires WellFormed(known) && u in ResolveAll(known, data, resolved, parents, acc).1 && u !in resolved
    ensures e in parents && u in known.recognized && (u == e || IsAncestor(known.parents, e, u))
    decreases Bound(known.parents, parents), 0, |parents|
  {
    BoundIsLeast(known.parents, parents[1..], Bound(known.parents, parents));
    var (answer, resolved') := Resolve(known, data, resolved, parents[0]);
    if u in resolved' {
      ResolvedAreAbove(known, data, resolved, parents[0], u);
      e := parents[0];
    } else {
      e := GatheredAreAbove(known, data, resolved', parents[1..], acc + OrEmpty(answer), u);
    }
  }

  /** A visited type is `u`, or below it. */
  ghost predicate VisitedBelow(known: KnownTypes, order: seq<TypeName>, u: TypeName) {
    exists v :: v in order && (v == u || IsAncestor(known.parents, v, u))
  }

  lemma VisitedBelowExtends(known: KnownTypes, order: seq<TypeName>, t: TypeName, u: TypeName)
    ensures VisitedBelow(known, order + [t], u) <==>
      VisitedBelow(known, order, u) || u == t || IsAncestor(known.parents, t, u)
  {
    var longer := order + [t];
    assert longer[|order|] == t;
    if VisitedBelow(known, order, u) {
      var v :| v in order && (v == u || IsAncestor(known.parents, v, u));
      assert v in longer;
    }
    if VisitedBelow(known, longer, u) {
      var v :| v in longer && (v == u || IsAncestor(known.parents, v, u));
      assert v in order || v == t;
    }
    assert t in longer;
  }

  lemma FlattenOne(known: KnownTypes, data: Overwrites, resolved: seq<TypeName>, t: TypeName)
    requires WellFormed(known)
    ensures var (answer, resolved') := Resolve(known, data, resolved, t);
      Flatten(known, data, resolved, [t]) == (Store(data, t, answer), resolved')
  {
    var order := [t];
    assert order[0] == t && order[1..] == [];
  }

  lemma {:induction false} FlattenSplits(known: KnownTypes, data: Overwrites, resolved: seq<TypeName>,
                                         first: seq<TypeName>, rest: seq<TypeName>)
    requires WellFormed(known)
    ensures var (data', resolved') := Flatten(known, data, resolved, first);
      Flatten(known, data, resolved, first + rest) == Flatten(known, data', resolved', rest)
    decreases |first|
  {
    if first == [] {
      assert first + rest == rest;
    } else {
      var (answer, resolved') := Resolve(known, data, resolved, first[0]);
      FlattenSplits(known, Store(data, first[0], answer), resolved', first[1..], rest);
      assert (first + rest)[1..] == first[1..] + rest && (first + rest)[0] == first[0];
    }
  }

  /** What has been resolved after some visits, in terms of the registry alone; a type that has not been
      visited still has its raw entry. */
  lemma {:induction false} FlattenResolves(known: KnownTypes, raw: Overwrites, order: seq<TypeName>)
    requires WellFormed(known)
    ensures var (data, resolved) := Flatten(known, raw, [], order);
      && Closed(known, resolved)
      && (forall u :: u in resolved <==> u in known.recognized && VisitedBelow(known, order, u))
      && (forall u | u !in order :: Lookup(data, u) == Lookup(raw, u))
    decreases |order|
  {
    if order == [] {
    } else {
      var n := |order| - 1;
      var before, t := order[..n], order[n];
      assert order == before + [t];
      FlattenResolves(known, raw, before);
      FlattenSplits(known, raw, [], before, [t]);
      var (data, resolved) := Flatten(known, raw, [], before);
      FlattenOne(known, data, resolved, t);
      FlattenResolvesStep(known, data, resolved, before, t);
    }
  }

  lemma FlattenResolvesStep(known: KnownTypes, data: Overwrites, resolved: seq<TypeName>,
                            before: seq<TypeName>, t: TypeName)
    requires WellFormed(known) && Closed(known, resolved)
    requires forall u :: u in resolved <==> u in known.recognized && VisitedBelow(known, before, u)
    ensures var resolved' := Resolve(known, data, resolved, t).1;
      Closed(known, resolved')
      && forall u :: u in resolved' <==> u in known.recognized && VisitedBelow(known, before + [t], u)
  {
    var resolved' := Resolve(known, data, resolved, t).1;
    ResolveCovers(known, data, resolved, t);
    forall u ensures u in resolved' <==> u in known.recognized && VisitedBelow(known, before + [t], u) {
      VisitedBelowExtends(known, before, t, u);
      if u in resolved' && u !in resolved { ResolvedAreAbove(known, data, resolved, t, u); }
      if u in known.recognized && IsAncestor(known.parents, t, u) {
        var p :| |p| >= 2 && PathBetween(known.parents, p, t, u);
        assert p[0 + 1] in Extends(known.parents, p[0]);
        ClosedHoldsTheAncestors(known, resolved', p);
      }
    }
  }

  /** The exact rule for what is stored for the type visited at position `n`: visited after a type below it,
      it keeps its raw entry; visited before all of these, it gets the fields of its recognized parents. */
  lemma StoredWithParentsIff(known: KnownTypes, raw: Overwrites, order: seq<TypeName>, n: nat)
    requires WellFormed(known) && n < |order| && order[n] in known.recognized && order[n] !in order[..n]
    ensures var stored := Flatten(known, raw, [], order).0;
      if VisitedBelow(known, order[..n], order[n]) then
        Lookup(stored, order[n]) == Lookup(raw, order[n])
      else
        && Entry(raw, order[n]).Keys <= Entry(stored, order[n]).Keys
        && forall e | e in Extends(known.parents, order[n]) && e in known.recognized ::
             Entry(raw, e).Keys <= Entry(stored, order[n]).Keys
  {
    var t, before := order[n], order[..n];
    var (data, resolved) := Flatten(known, raw, [], before);
    var (answer, resolved') := Resolve(known, data, resolved, t);
    FlattenResolves(known, raw, before);
    assert order == before + ([t] + order[n + 1..]);
    FlattenSplits(known, raw, [], before, [t] + order[n + 1..]);
    FlattenSplits(known, data, resolved, [t], order[n + 1..]);
    FlattenOne(known, data, resolved, t);
    ResolvedGrows(known, data, resolved, t);
    ResolvedEntryStays(known, Store(data, t, answer), resolved', order[n + 1..], t);
    if !VisitedBelow(known, before, t) {
      OwnEntryIsAnswered(known, data, resolved, t);
      assert Entry(data, t) == Entry(raw, t);
      forall e | e in Extends(known.parents, t) && e in known.recognized
        ensures Entry(raw, e).Keys <= Entry(Store(data, t, answer), t).Keys
      {
        ParentsAreMerged(known, data, resolved, t, e);
        VisitedKeepRawKeys(known, raw, before, e);
      }
    }
  }

  lemma {:induction false} VisitedKeepRawKeys(known: KnownTypes, raw: Overwrites, order: seq<TypeName>, u: TypeName)
    requires WellFormed(known)
    ensures Entry(raw, u).Keys <= Entry(Flatten(known, raw, [], order).0, u).Keys
    decreases |order|
  {
    if order == [] {
    } else {
      var n := |order| - 1;
      var before, t := order[..n], order[n];
      assert order == before + [t];
      VisitedKeepRawKeys(known, raw, before, u);
      FlattenSplits(known, raw, [], before, [t]);
      var (data, resolved) := Flatten(known, raw, [], before);
      FlattenOne(known, data, resolved, t);
      OwnEntryIsAnswered(known, data, resolved, t);
    }
  }

  // ----- Save, load and resolve again -----

  /** What is inherited from partly flattened data was already inherited from the raw data. */
  lemma {:induction false} SandwichInheritsNothingNew(known: KnownTypes, raw: Overwrites, data: Overwrites,
                                                      t: TypeName, k: string, v: Value)
    requires WellFormed(known) && Sandwiched(known, raw, data) && Inherits(known, data, t, k, v)
    ensures Inherits(known, raw, t, k, v)
    decreases Rank(known.parents, t)
  {
    assert Between(known, raw, t, Entry(data, t));
    if k !in Entry(data, t) {
      var e :| e in Extends(known.parents, t) && Inherits(known, data, e, k, v);
      ParentRanksLower(known.parents, t, e);
      SandwichInheritsNothingNew(known, raw, data, e, k, v);
      InheritsFromParent(known, raw, t, e, k, v);
    }
  }

  lemma SandwichesCompose(known: KnownTypes, raw: Overwrites, saved: Overwrites, data: Overwrites)
    requires WellFormed(known) && Sandwiched(known, raw, saved) && Sandwiched(known, saved, data)
    ensures Sandwiched(known, raw, data)
  {
    forall t ensures Between(known, raw, t, Entry(data, t)) {
      assert Between(known, raw, t, Entry(saved, t)) && Between(known, saved, t, Entry(data, t));
      forall k | k in Entry(data, t) ensures Inherits(known, raw, t, k, Entry(data, t)[k]) {
        SandwichInheritsNothingNew(known, raw, saved, t, k, Entry(data, t)[k]);
      }
    }
  }

  /** What one instance stores, another may load and resolve again, in any order, over and over:
      the keys of every `get` stay the union of the raw keys of the type and its ancestors, and with
      single inheritance the whole answer stays the same. */
  lemma ReloadKeepsEffectiveOverwrites(known: KnownTypes, raw: Overwrites,
                                       order: seq<TypeName>, order': seq<TypeName>, t: TypeName)
    requires WellFormed(known)
    requires forall u | u in order :: u in raw
    requires forall u | u in order' :: u in raw
    ensures var saved := Flatten(known, raw, [], order).0;
      var loaded := Flatten(known, saved, [], order').0;
      && EffectiveOverwrites(known, loaded, t).Keys == EffectiveOverwrites(known, saved, t).Keys
      && (forall k :: k in EffectiveOverwrites(known, loaded, t) <==> SetAbove(known, raw, t, k))
      && (SingleInheritance(known.parents) ==>
            EffectiveOverwrites(known, loaded, t) == EffectiveOverwrites(known, saved, t))
  {
    var saved := Flatten(known, raw, [], order).0;
    var loaded := Flatten(known, saved, [], order').0;
    RawIsSandwiched(known, raw);
    FlattenKeepsSandwich(known, raw, raw, [], order);
    RawIsSandwiched(known, saved);
    FlattenKeepsSandwich(known, saved, saved, [], order');
    SandwichesCompose(known, raw, saved, loaded);
    GetInherits(known, raw, saved, t);
    GetInherits(known, raw, loaded, t);
    var a, b := EffectiveOverwrites(known, saved, t), EffectiveOverwrites(known, loaded, t);
    if SingleInheritance(known.parents) {
      forall k | k in a ensures a[k] == b[k] {
        InheritedIsUnique(known, raw, t, k, a[k], b[k]);
      }
    }
  }

  // ----- Applying overwrites to a stored credential -----

  function Field(data: Fields, k: string): Value {
    if k in data then data[k] else Undefined
  }

  predicate IsEmpty(v: Value) {
    v == Null || v == Undefined || v == Text("")
  }

  /** A copied object is a new object with the same content. */
  function Copied(v: Value, renew: nat -> nat): Value {
    if v.Object? then Object(renew(v.ref), v.content) else v
  }

  function DeepCopy(data: Fields, renew: nat -> nat): Fields {
    map k | k in data :: Copied(data[k], renew)
  }

  predicate SameContent(v: Value, w: Value) {
    v == w || (v.Object? && w.Object? && v.content == w.content)
  }

  ghost predicate SameFields(a: Fields, b: Fields) {
    forall k :: SameContent(Field(a, k), Field(b, k))
  }

  /** A field the user has set to something else than the overwrite. */
  predicate IsFieldCustomized(overwrites: Fields, data: Fields, k: string)
    requires k in overwrites
  {
    !IsEmpty(Field(data, k)) && Field(data, k) != overwrites[k]
  }

  predicate IsCustomized(overwrites: Fields, data: Fields) {
    exists k | k in overwrites :: IsFieldCustomized(overwrites, data, k)
  }

  function Fill(overwrites: Fields, copy: Fields): Fields {
    copy + map k | k in overwrites && IsEmpty(Field(copy, k)) :: overwrites[k]
  }

  /** `Fill` with the keys in `open` still to come. */
  function FillExcept(overwrites: Fields, copy: Fields, open: set<string>): Fields {
    copy + map k | k in overwrites && k !in open && IsEmpty(Field(copy, k)) :: overwrites[k]
  }

  function Applied(overwrites: Fields, skipListed: bool, data: Fields, renew: nat -> nat): Fields {
    if skipListed && IsCustomized(overwrites, data) then data else Fill(overwrites, DeepCopy(data, renew))
  }

  /** What a stored credential has under a key: null, undefined, the empty string and a missing key are
      empty, and nothing else is. */
  lemma EmptyFields(data: Fields, k: string)
    ensures IsEmpty(Field(data, k)) <==> k !in data || data[k] == Null || data[k] == Undefined || data[k] == Text("")
    ensures !IsEmpty(Boolean(false)) && !IsEmpty(Number(0.0)) && forall r, c :: !IsEmpty(Object(r, c))
  {
  }

  /** A stored field that is not empty keeps its content; an empty or missing one is filled exactly
      when there is an overwrite for it.  A skip-listed type either comes back as it was or has all
      such fields filled, the former exactly when a field that has an overwrite is stored with another
      value that is not empty. */
  lemma AppliedFillsTheGaps(overwrites: Fields, skipListed: bool, data: Fields, renew: nat -> nat, k: string)
    ensures var r := Applied(overwrites, skipListed, data, renew);
      var customized := exists f :: f in overwrites && f in data && data[f] != overwrites[f]
                                 && data[f] != Null && data[f] != Undefined && data[f] != Text("");
      var open := k !in data || data[k] == Null || data[k] == Undefined || data[k] == Text("");
      && (!open ==> k in r && SameContent(r[k], data[k]))
      && (!open && !(skipListed && customized) && data[k].Object? ==>
            r[k] == Object(renew(data[k].ref), data[k].content))
      && (skipListed && customized ==> r == data)
      && (!(skipListed && customized) && open && k in overwrites ==> k in r && r[k] == overwrites[k])
      && (!(skipListed && customized) && open && k !in overwrites ==> Field(r, k) == Field(data, k))
      && (r.Keys <= data.Keys + overwrites.Keys)
  {
    var customized := exists f :: f in overwrites && f in data && data[f] != overwrites[f]
                               && data[f] != Null && data[f] != Undefined && data[f] != Text("");
    if customized {
      var f :| f in overwrites && f in data && data[f] != overwrites[f]
            && data[f] != Null && data[f] != Undefined && data[f] != Text("");
      assert IsFieldCustomized(overwrites, data, f);
    }
    assert IsCustomized(overwrites, data) <==> customized;
  }

  /** Applying the overwrites a second time changes no content, for any renewal of identities. */
  lemma AppliedTwiceIsAppliedOnce(overwrites: Fields, skipListed: bool, data: Fields,
                                  renew: nat -> nat, renew': nat -> nat)
    ensures var once := Applied(overwrites, skipListed, data, renew);
      SameFields(Applied(overwrites, skipListed, once, renew'), once)
  {
  }

  // ----- The service -----

  class OverwriteService {
    const known: KnownTypes
    const skipTypes: set<TypeName>
    var overwriteData: Overwrites
    var resolvedTypes: seq<TypeName>
    /** The data last set, before any entry was merged. */
    ghost var raw: Overwrites

    ghost predicate Valid()
      reads this
    {
      WellFormed(known) && Sandwiched(known, raw, overwriteData)
    }

    constructor (known: KnownTypes, skipTypes: set<TypeName>)
      requires WellFormed(known)
      ensures Valid() && this.known == known && this.skipTypes == skipTypes
      ensures overwriteData == raw == map[] && resolvedTypes == []
    {
      this.known, this.skipTypes := known, skipTypes;
      overwriteData, resolvedTypes, raw := map[], [], map[];
      new;
      RawIsSandwiched(known, map[]);
    }

    method SetPlainData(data: Overwrites, order: seq<TypeName>)
      requires WellFormed(known)
      requires forall t | t in order :: t in data
      modifies this
      ensures Valid() && raw == data
      ensures (overwriteData, resolvedTypes) == Flatten(known, data, [], order)
    {
      resolvedTypes := [];
      overwriteData := data;
      raw := data;
      RawIsSandwiched(known, data);
      var i := 0;
      while i < |order|
        invariant 0 <= i <= |order| && raw == data && Valid()
        invariant Flatten(known, overwriteData, resolvedTypes, order[i..]) == Flatten(known, data, [], order)
      {
        ghost var before := overwriteData;
        var overwrites := GetOverwrites(order[i]);
        if overwrites.Some? && |overwrites.value.Keys| > 0 {
          overwriteData := overwriteData[order[i] := overwrites.value];
        }
        StoreKeepsSandwich(known, raw, before, order[i], overwrites);
        i := i + 1;
      }
    }

    method GetOverwrites(t: TypeName) returns (r: Option<Fields>)
      requires Valid()
      modifies this`resolvedTypes
      ensures Valid()
      ensures r.Some? ==> Between(known, raw, t, r.value)
      ensures (r, resolvedTypes) == Resolve(known, overwriteData, old(resolvedTypes), t)
      decreases Rank(known.parents, t)
    {
      ResolveIsBetween(known, raw, overwriteData, resolvedTypes, t);
      if t in resolvedTypes { return Lookup(overwriteData, t); }
      if t !in known.recognized { return None; }
      if t !in known.parents {
        resolvedTypes := resolvedTypes + [t];
        return Lookup(overwriteData, t);
      }
      var parents := known.parents[t];
      var overwrites: Fields := map[];
      var i := 0;
      while i < |parents|
        invariant 0 <= i <= |parents|
        invariant ResolveAll(known, overwriteData, resolvedTypes, parents[i..], overwrites)
               == ResolveAll(known, overwriteData, old(resolvedTypes), parents, map[])
      {
        ParentRanksLower(known.parents, t, parents[i]);
        var inherited := GetOverwrites(parents[i]);
        overwrites := overwrites + OrEmpty(inherited);
        i := i + 1;
      }
      overwrites := overwrites + Entry(overwriteData, t);
      resolvedTypes := resolvedTypes + [t];
      return Some(overwrites);
    }

    method Get(name: TypeName) returns (acc: Fields)
      requires Valid()
      ensures acc == EffectiveOverwrites(known, overwriteData, name)
      ensures forall k :: k in acc <==> SetAbove(known, raw, name, k)
      ensures forall k | k in acc :: Inherits(known, raw, name, k, acc[k])
    {
      var parentTypes := GetParentTypes(known.parents, name);
      var types := [name] + parentTypes;
      acc := map[];
      var i := |types|;
      while i > 0
        invariant 0 <= i <= |types|
        invariant acc == Merge(overwriteData, types[i..])
      {
        i := i - 1;
        acc := acc + Entry(overwriteData, types[i]);
      }
      GetInherits(known, raw, overwriteData, name);
    }

    method ApplyOverwrite(t: TypeName, data: Fields, renew: nat -> nat) returns (returnData: Fields)
      requires Valid()
      ensures returnData == Applied(EffectiveOverwrites(known, overwriteData, t), t in skipTypes, data, renew)
    {
      var overwrites := Get(t);
      if t in skipTypes && IsCustomized(overwrites, data) { return data; }
      returnData := FillEmptyFields(overwrites, DeepCopy(data, renew));
    }
  }

  lemma FillNext(overwrites: Fields, copy: Fields, open: set<string>, k: string)
    requires k in open && k in overwrites
    ensures var r := FillExcept(overwrites, copy, open);
      FillExcept(overwrites, copy, open - {k}) == if IsEmpty(Field(r, k)) then r[k := overwrites[k]] else r
  {
  }

  /** The loop over the keys of the overwrites, in any order. */
  method FillEmptyFields(overwrites: Fields, copy: Fields) returns (returnData: Fields)
    ensures returnData == Fill(overwrites, copy)
  {
    returnData := copy;
    var keys := overwrites.Keys;
    assert FillExcept(overwrites, copy, keys) == copy;
    while keys != {}
      invariant keys <= overwrites.Keys
      invariant returnData == FillExcept(overwrites, copy, keys)
    {
      var k :| k in keys;
      FillNext(overwrites, copy, keys, k);
      if IsEmpty(Field(returnData, k)) {
        returnData := returnData[k := overwrites[k]];
      }
      keys := keys - {k};
    }
    assert FillExcept(overwrites, copy, {}) == Fill(overwrites, copy);
  }
}
