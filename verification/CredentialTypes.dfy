/** Credential types and their `extends` lists (packages/cli/src/credential-types.ts).

    `getParentTypes` walks over an array while it pushes recursive results onto the same array, so
    what it appends is visited again.  The specification `ParentTypes` is the level-by-level reading
    of that walk; the method `GetParentTypes` is the walk itself. */
module CredentialTypes {
  import opened Collections

  type TypeName = string

  /** `knownCredentials[name].extends`; a name without an entry extends nothing. */
  type Registry = map<TypeName, seq<TypeName>>

  function Extends(g: Registry, t: TypeName): seq<TypeName> {
    if t in g then g[t] else []
  }

  // ----- Ancestors and acyclicity, in terms of paths -----

  ghost predicate IsPath(g: Registry, p: seq<TypeName>) {
    && |p| > 0
    && forall i :: 0 <= i < |p| - 1 ==> p[i + 1] in Extends(g, p[i])
  }

  ghost predicate PathBetween(g: Registry, p: seq<TypeName>, from: TypeName, to: TypeName) {
    IsPath(g, p) && p[0] == from && p[|p| - 1] == to
  }

  /** `a` is a proper ancestor of `t`: a path of at least one step leads from `t` to `a`. */
  ghost predicate IsAncestor(g: Registry, t: TypeName, a: TypeName) {
    exists p :: |p| >= 2 && PathBetween(g, p, t, a)
  }

  ghost predicate Acyclic(g: Registry) {
    forall t :: !IsAncestor(g, t, t)
  }

  lemma PathStep(g: Registry, t: TypeName, e: TypeName, p: seq<TypeName>)
    requires e in Extends(g, t) && |p| >= 1 && IsPath(g, p) && p[0] == e
    ensures PathBetween(g, [t] + p, t, p[|p| - 1])
  {
    var q := [t] + p;
    forall i | 0 <= i < |q| - 1
      ensures q[i + 1] in Extends(g, q[i])
    {
      if i > 0 { assert q[i + 1] == p[i] && q[i] == p[i - 1]; assert p[i - 1 + 1] in Extends(g, p[i - 1]); }
    }
  }

  lemma PathTail(g: Registry, p: seq<TypeName>)
    requires IsPath(g, p) && |p| >= 2
    ensures IsPath(g, p[1..]) && p[1] in Extends(g, p[0])
  {
    var q := p[1..];
    assert p[0 + 1] in Extends(g, p[0]);
    forall i | 0 <= i < |q| - 1
      ensures q[i + 1] in Extends(g, q[i])
    {
      assert q[i] == p[i + 1] && q[i + 1] == p[i + 1 + 1];
    }
  }

  lemma ParentIsAncestor(g: Registry, t: TypeName, e: TypeName)
    requires e in Extends(g, t)
    ensures IsAncestor(g, t, e)
  {
    PathStep(g, t, e, [e]);
  }

  lemma AncestorThroughParent(g: Registry, t: TypeName, e: TypeName, a: TypeName)
    requires e in Extends(g, t) && IsAncestor(g, e, a)
    ensures IsAncestor(g, t, a)
  {
    var p :| |p| >= 2 && PathBetween(g, p, e, a);
    PathStep(g, t, e, p);
  }

  /** An ancestor is a parent, or an ancestor of a parent. */
  lemma AncestorSplit(g: Registry, t: TypeName, a: TypeName) returns (e: TypeName)
    requires IsAncestor(g, t, a)
    ensures e in Extends(g, t) && (e == a || IsAncestor(g, e, a))
  {
    var p :| |p| >= 2 && PathBetween(g, p, t, a);
    e := p[0 + 1];
    var q := p[1..];
    PathTail(g, p);
    if |q| >= 2 { assert PathBetween(g, q, e, a); }
  }

  lemma {:induction false} AncestorTransitive(g: Registry, t: TypeName, b: TypeName, a: TypeName)
    requires IsAncestor(g, t, b) && IsAncestor(g, b, a)
    ensures IsAncestor(g, t, a)
  {
    var p :| |p| >= 2 && PathBetween(g, p, t, b);
    AncestorAlongPath(g, p, a);
  }

  lemma {:induction false} AncestorAlongPath(g: Registry, p: seq<TypeName>, a: TypeName)
    requires IsPath(g, p) && IsAncestor(g, p[|p| - 1], a)
    ensures IsAncestor(g, p[0], a)
    decreases |p|
  {
    if |p| <= 1 {
    } else {
      var q := p[1..];
      PathTail(g, p);
      AncestorAlongPath(g, q, a);
      assert p[0 + 1] in Extends(g, p[0]);
      AncestorThroughParent(g, p[0], p[1], a);
    }
  }

  // ----- A rank that every `extends` step lowers: the number of ancestors -----

  ghost function Ancestors(g: Registry, t: TypeName): set<TypeName> {
    set u, a | u in g && a in g[u] && IsAncestor(g, t, a) :: a
  }

  lemma AncestorsComplete(g: Registry, t: TypeName, a: TypeName)
    ensures a in Ancestors(g, t) <==> IsAncestor(g, t, a)
  {
    if IsAncestor(g, t, a) {
      var p :| |p| >= 2 && PathBetween(g, p, t, a);
      var i := |p| - 2;
      assert p[i + 1] in Extends(g, p[i]);
      assert p[i] in g && a in g[p[i]];
    }
  }

  ghost function Rank(g: Registry, t: TypeName): nat {
    |Ancestors(g, t)|
  }

  lemma ParentRanksLower(g: Registry, t: TypeName, e: TypeName)
    requires Acyclic(g) && e in Extends(g, t)
    ensures Rank(g, e) < Rank(g, t)
  {
    forall a | a in Ancestors(g, e)
      ensures a in Ancestors(g, t)
    {
      AncestorsComplete(g, e, a);
      AncestorThroughParent(g, t, e, a);
      AncestorsComplete(g, t, a);
    }
    ParentIsAncestor(g, t, e);
    AncestorsComplete(g, t, e);
    AncestorsComplete(g, e, e);
    ProperSubsetIsSmaller(Ancestors(g, e), Ancestors(g, t));
  }

  // ----- The list the walk produces -----

  /** One more than the largest rank in `q`. */
  ghost function Bound(g: Registry, q: seq<TypeName>): (b: nat)
    ensures forall x | x in q :: Rank(g, x) < b
  {
    if q == [] then 0
    else
      var rest := Bound(g, q[1..]);
      if Rank(g, q[0]) < rest then rest else Rank(g, q[0]) + 1
  }

  lemma BoundIsLeast(g: Registry, q: seq<TypeName>, b: nat)
    requires forall x | x in q :: Rank(g, x) < b
    ensures Bound(g, q) <= b
  {
  }

  ghost function ParentTypes(g: Registry, t: TypeName): (r: seq<TypeName>)
    requires Acyclic(g)
    ensures forall y | y in r :: Rank(g, y) < Rank(g, t)
    decreases Rank(g, t), 2, 0
  {
    var q := Extends(g, t);
    assert forall e | e in q :: Rank(g, e) < Rank(g, t) by {
      forall e | e in q ensures Rank(g, e) < Rank(g, t) { ParentRanksLower(g, t, e); }
    }
    BoundIsLeast(g, q, Rank(g, t));
    LevelOrder(g, q)
  }

  /** The queue itself, followed by everything its visits append, level by level. */
  ghost function LevelOrder(g: Registry, q: seq<TypeName>): (r: seq<TypeName>)
    requires Acyclic(g)
    ensures forall y | y in r :: Rank(g, y) < Bound(g, q)
    decreases Bound(g, q), 1, 0
  {
    if q == [] then []
    else
      var next := Appended(g, q);
      BoundIsLeast(g, next, Bound(g, q) - 1);
      q + LevelOrder(g, next)
  }

  /** What visiting every element of `q` pushes, in order. */
  ghost function Appended(g: Registry, q: seq<TypeName>): (r: seq<TypeName>)
    requires Acyclic(g)
    ensures forall y | y in r :: Rank(g, y) + 1 < Bound(g, q)
    decreases Bound(g, q), 0, |q|
  {
    if q == [] then []
    else
      BoundIsLeast(g, q[1..], Bound(g, q));
      ParentTypes(g, q[0]) + Appended(g, q[1..])
  }

  lemma {:induction false} AppendedConcat(g: Registry, a: seq<TypeName>, b: seq<TypeName>)
    requires Acyclic(g)
    ensures Appended(g, a + b) == Appended(g, a) + Appended(g, b)
  {
    if a == [] {
      assert a + b == b;
    } else {
      assert (a + b)[1..] == a[1..] + b;
      AppendedConcat(g, a[1..], b);
    }
  }

  lemma NextLevel(g: Registry, q: seq<TypeName>)
    requires Acyclic(g) && q != []
    ensures LevelOrder(g, q) == q + LevelOrder(g, Appended(g, q))
    ensures Bound(g, Appended(g, q)) < Bound(g, q)
  {
    BoundIsLeast(g, Appended(g, q), Bound(g, q) - 1);
  }

  /** Moving a visited prefix to the front: `a` first, then `b` and what `a` appended. */
  lemma {:induction false} LevelOrderRotates(g: Registry, a: seq<TypeName>, b: seq<TypeName>)
    requires Acyclic(g)
    ensures LevelOrder(g, a + b) == a + LevelOrder(g, b + Appended(g, a))
    decreases Bound(g, a + b), 1
  {
    if a == [] {
      assert a + b == b && b + Appended(g, a) == b;
    } else {
      var fa, fb, bound := Appended(g, a), Appended(g, b), Bound(g, a + b);
      calc {
        LevelOrder(g, a + b);
      ==  { NextLevel(g, a + b); AppendedConcat(g, a, b); }
        (a + b) + LevelOrder(g, fa + fb);
      ==  { Associative(a, b, LevelOrder(g, fa + fb)); }
        a + (b + LevelOrder(g, fa + fb));
      ==  { NextLevel(g, a + b); AppendedConcat(g, a, b); RotateNext(g, fa, b, bound); }
        a + LevelOrder(g, b + fa);
      }
    }
  }

  lemma {:induction false} RotateNext(g: Registry, fa: seq<TypeName>, b: seq<TypeName>, bound: nat)
    requires Acyclic(g) && Bound(g, fa + Appended(g, b)) < bound
    ensures b + LevelOrder(g, fa + Appended(g, b)) == LevelOrder(g, b + fa)
    decreases bound, 0
  {
    var fb := Appended(g, b);
    if b + fa == [] {
      assert b == [] && fa == [] && fa + fb == [];
    } else {
      var rest := LevelOrder(g, fb + Appended(g, fa));
      calc {
        b + LevelOrder(g, fa + fb);
      ==  { LevelOrderRotates(g, fa, fb); }
        b + (fa + rest);
      ==  { Associative(b, fa, rest); }
        (b + fa) + rest;
      ==  { NextLevel(g, b + fa); AppendedConcat(g, b, fa); }
        LevelOrder(g, b + fa);
      }
    }
  }

  /** One turn of the source's loop: visit `x`, push its parent types behind the queue. */
  lemma VisitOne(g: Registry, x: TypeName, q: seq<TypeName>)
    requires Acyclic(g)
    ensures LevelOrder(g, [x] + q) == [x] + LevelOrder(g, q + ParentTypes(g, x))
  {
    LevelOrderRotates(g, [x], q);
    assert Appended(g, [x]) == ParentTypes(g, x) + Appended(g, [x][1..]);
    assert Appended(g, [x]) == ParentTypes(g, x);
  }

  lemma SplitAt<T>(a: seq<T>, i: nat, pushed: seq<T>)
    requires i < |a|
    ensures a[i..] == [a[i]] + a[i + 1..]
    ensures (a + pushed)[i + 1..] == a[i + 1..] + pushed
    ensures (a + pushed)[..i + 1] == a[..i] + [a[i]]
  {
  }

  lemma AdvanceWalk(g: Registry, a: seq<TypeName>, i: nat, pushed: seq<TypeName>)
    requires Acyclic(g) && i < |a| && pushed == ParentTypes(g, a[i])
    ensures var b := a + pushed;
      && a[..i] + LevelOrder(g, a[i..]) == b[..i + 1] + LevelOrder(g, b[i + 1..])
      && |LevelOrder(g, a[i..])| == 1 + |LevelOrder(g, b[i + 1..])|
  {
    var b, x, rest := a + pushed, a[i], a[i + 1..];
    SplitAt(a, i, pushed);
    calc {
      a[..i] + LevelOrder(g, a[i..]);
    ==
      a[..i] + LevelOrder(g, [x] + rest);
    ==  { VisitOne(g, x, rest); }
      a[..i] + ([x] + LevelOrder(g, rest + pushed));
    ==  { Associative(a[..i], [x], LevelOrder(g, rest + pushed)); }
      (a[..i] + [x]) + LevelOrder(g, rest + pushed);
    ==
      b[..i + 1] + LevelOrder(g, b[i + 1..]);
    }
    VisitOne(g, x, rest);
  }

  /** The walk over the growing array.  It ends on every acyclic registry although each turn may
      append elements that will be visited in turn. */
  method GetParentTypes(g: Registry, t: TypeName) returns (extendsArrCopy: seq<TypeName>)
    requires Acyclic(g)
    ensures extendsArrCopy == ParentTypes(g, t)
    decreases Rank(g, t)
  {
    var extendsArr := Extends(g, t);
    if |extendsArr| == 0 { return []; }
    extendsArrCopy := extendsArr;
    forall e | e in extendsArr ensures Rank(g, e) < Rank(g, t) { ParentRanksLower(g, t, e); }
    var i := 0;
    while i < |extendsArrCopy|
      invariant 0 <= i <= |extendsArrCopy|
      invariant forall x | x in extendsArrCopy :: Rank(g, x) < Rank(g, t)
      invariant extendsArrCopy[..i] + LevelOrder(g, extendsArrCopy[i..]) == ParentTypes(g, t)
      decreases |LevelOrder(g, extendsArrCopy[i..])|
    {
      var pushed := GetParentTypes(g, extendsArrCopy[i]);
      AdvanceWalk(g, extendsArrCopy, i, pushed);
      extendsArrCopy := extendsArrCopy + pushed;
      i := i + 1;
    }
  }

  // ----- Exactly the proper ancestors -----

  lemma {:induction false} ListedAreAncestors(g: Registry, t: TypeName, a: TypeName)
    requires Acyclic(g) && a in ParentTypes(g, t)
    ensures IsAncestor(g, t, a)
    decreases Rank(g, t), 1
  {
    forall e | e in Extends(g, t) ensures IsAncestor(g, t, e) && Rank(g, e) < Rank(g, t) {
      ParentIsAncestor(g, t, e);
      ParentRanksLower(g, t, e);
    }
    BoundIsLeast(g, Extends(g, t), Rank(g, t));
    LevelsAreAncestors(g, t, Extends(g, t), a);
  }

  lemma {:induction false} LevelsAreAncestors(g: Registry, t: TypeName, q: seq<TypeName>, a: TypeName)
    requires Acyclic(g) && forall x | x in q :: IsAncestor(g, t, x)
    requires a in LevelOrder(g, q)
    ensures IsAncestor(g, t, a)
    decreases Bound(g, q), 0
  {
    if a !in q {
      var next := Appended(g, q);
      forall y | y in next ensures IsAncestor(g, t, y) {
        var x := AppendedSource(g, q, y);
        ListedAreAncestors(g, x, y);
        AncestorTransitive(g, t, x, y);
      }
      BoundIsLeast(g, next, Bound(g, q) - 1);
      LevelsAreAncestors(g, t, next, a);
    }
  }

  lemma {:induction false} AppendedSource(g: Registry, q: seq<TypeName>, y: TypeName) returns (x: TypeName)
    requires Acyclic(g) && y in Appended(g, q)
    ensures x in q && y in ParentTypes(g, x)
    decreases |q|
  {
    if y in ParentTypes(g, q[0]) {
      x := q[0];
    } else {
      x := AppendedSource(g, q[1..], y);
    }
  }

  lemma {:induction false} AppendedContains(g: Registry, q: seq<TypeName>, x: TypeName, y: TypeName)
    requires Acyclic(g) && x in q && y in ParentTypes(g, x)
    ensures y in Appended(g, q)
    decreases |q|
  {
    if x != q[0] { AppendedContains(g, q[1..], x, y); }
  }

  lemma {:induction false} AncestorsAreListed(g: Registry, t: TypeName, a: TypeName)
    requires Acyclic(g) && IsAncestor(g, t, a)
    ensures a in ParentTypes(g, t)
    decreases Rank(g, t)
  {
    var e := AncestorSplit(g, t, a);
    if e != a {
      ParentRanksLower(g, t, e);
      AncestorsAreListed(g, e, a);
      AppendedContains(g, Extends(g, t), e, a);
      assert a in LevelOrder(g, Appended(g, Extends(g, t)));
    }
  }

  /** The set of results is exactly the set of proper ancestors. */
  lemma ParentTypesAreTheAncestors(g: Registry, t: TypeName)
    requires Acyclic(g)
    ensures forall a :: a in ParentTypes(g, t) <==> IsAncestor(g, t, a)
  {
    forall a ensures a in ParentTypes(g, t) <==> IsAncestor(g, t, a) {
      if a in ParentTypes(g, t) { ListedAreAncestors(g, t, a); }
      if IsAncestor(g, t, a) { AncestorsAreListed(g, t, a); }
    }
  }

  // ----- Every listed type is listed after a type that extends it -----

  ghost predicate ExtendedByOneOf(g: Registry, x: TypeName, before: seq<TypeName>) {
    exists u :: u in before && x in Extends(g, u)
  }

  ghost predicate Supported(g: Registry, before: seq<TypeName>, q: seq<TypeName>) {
    forall i :: 0 <= i < |q| ==> ExtendedByOneOf(g, q[i], before + q[..i])
  }

  lemma SupportedWeakens(g: Registry, before: seq<TypeName>, more: seq<TypeName>, q: seq<TypeName>)
    requires Supported(g, before, q) && forall u | u in before :: u in more
    ensures Supported(g, more, q)
  {
    forall i | 0 <= i < |q| ensures ExtendedByOneOf(g, q[i], more + q[..i]) {
      assert ExtendedByOneOf(g, q[i], before + q[..i]);
      var u :| u in before + q[..i] && q[i] in Extends(g, u);
      assert u in more + q[..i];
    }
  }

  lemma TakeOfConcat<T>(before: seq<T>, q: seq<T>, r: seq<T>, i: nat)
    requires i < |q + r|
    ensures i < |q| ==> (q + r)[i] == q[i] && (q + r)[..i] == q[..i]
    ensures i >= |q| ==> (q + r)[i] == r[i - |q|] && before + (q + r)[..i] == before + q + r[..i - |q|]
  {
  }

  lemma SupportedJoins(g: Registry, before: seq<TypeName>, q: seq<TypeName>, r: seq<TypeName>)
    requires Supported(g, before, q) && Supported(g, before + q, r)
    ensures Supported(g, before, q + r)
  {
    forall i | 0 <= i < |q + r| ensures ExtendedByOneOf(g, (q + r)[i], before + (q + r)[..i]) {
      TakeOfConcat(before, q, r, i);
      if i < |q| {
        assert ExtendedByOneOf(g, q[i], before + q[..i]);
      } else {
        assert ExtendedByOneOf(g, r[i - |q|], before + q + r[..i - |q|]);
      }
    }
  }

  lemma {:induction false} ParentTypesAreSupported(g: Registry, t: TypeName)
    requires Acyclic(g)
    ensures Supported(g, [t], ParentTypes(g, t))
    decreases Rank(g, t), 1, 0
  {
    var q := Extends(g, t);
    forall e | e in q ensures Rank(g, e) < Rank(g, t) { ParentRanksLower(g, t, e); }
    BoundIsLeast(g, q, Rank(g, t));
    forall i | 0 <= i < |q| ensures ExtendedByOneOf(g, q[i], [t] + q[..i]) {
      assert t in [t] + q[..i];
    }
    LevelOrderIsSupported(g, [t], q);
  }

  lemma {:induction false} LevelOrderIsSupported(g: Registry, before: seq<TypeName>, q: seq<TypeName>)
    requires Acyclic(g) && Supported(g, before, q)
    ensures Supported(g, before, LevelOrder(g, q))
    decreases Bound(g, q), 0, |q| + 1
  {
    if q == [] {
    } else {
      var next := Appended(g, q);
      AppendedIsSupported(g, before + q, q);
      NextLevel(g, q);
      LevelOrderIsSupported(g, before + q, next);
      SupportedJoins(g, before, q, LevelOrder(g, next));
    }
  }

  lemma {:induction false} AppendedIsSupported(g: Registry, before: seq<TypeName>, q: seq<TypeName>)
    requires Acyclic(g) && forall x | x in q :: x in before
    ensures Supported(g, before, Appended(g, q))
    decreases Bound(g, q), 0, |q|
  {
    if q == [] {
    } else {
      var first, rest := ParentTypes(g, q[0]), q[1..];
      ParentTypesAreSupported(g, q[0]);
      SupportedWeakens(g, [q[0]], before, first);
      BoundIsLeast(g, rest, Bound(g, q));
      AppendedIsSupported(g, before, rest);
      SupportedWeakens(g, before, before + first, Appended(g, rest));
      SupportedJoins(g, before, first, Appended(g, rest));
    }
  }

  // ----- The recursion has an answer exactly on acyclic registries -----

  function Concat(f: TypeName -> seq<TypeName>, q: seq<TypeName>): seq<TypeName> {
    if q == [] then [] else f(q[0]) + Concat(f, q[1..])
  }

  /** What a finished call must satisfy: the array is the `extends` list followed by what each of
      its elements, appended ones included, had pushed. */
  ghost predicate Answers(g: Registry, f: TypeName -> seq<TypeName>) {
    forall t :: AnswersFor(g, f, t)
  }

  ghost predicate AnswersFor(g: Registry, f: TypeName -> seq<TypeName>, t: TypeName) {
    f(t) == if Extends(g, t) == [] then [] else Extends(g, t) + Concat(f, f(t))
  }

  lemma {:induction false} ConcatIsAtLeast(f: TypeName -> seq<TypeName>, q: seq<TypeName>, x: TypeName)
    requires x in q
    ensures |f(x)| <= |Concat(f, q)|
    decreases |q|
  {
    if x != q[0] { ConcatIsAtLeast(f, q[1..], x); }
  }

  lemma AnswerContains(g: Registry, f: TypeName -> seq<TypeName>, t: TypeName, e: TypeName)
    requires AnswersFor(g, f, t) && e in Extends(g, t)
    ensures |f(t)| > |f(e)|
  {
    ConcatIsAtLeast(f, f(t), e);
  }

  lemma {:induction false} AnswersShrinkAlongPaths(g: Registry, f: TypeName -> seq<TypeName>, p: seq<TypeName>)
    requires Answers(g, f) && IsPath(g, p)
    ensures |f(p[0])| >= |f(p[|p| - 1])| + |p| - 1
    decreases |p|
  {
    if |p| <= 1 {
    } else {
      var q := p[1..];
      PathTail(g, p);
      AnswersShrinkAlongPaths(g, f, q);
      assert p[0 + 1] in Extends(g, p[0]);
      AnswerContains(g, f, p[0], p[1]);
    }
  }

  lemma {:induction false} LevelOrderUnfolds(g: Registry, q: seq<TypeName>)
    requires Acyclic(g)
    ensures LevelOrder(g, q) == q + Appended(g, LevelOrder(g, q))
    decreases Bound(g, q)
  {
    if q == [] {
    } else {
      var next := Appended(g, q);
      BoundIsLeast(g, next, Bound(g, q) - 1);
      LevelOrderUnfolds(g, next);
      AppendedConcat(g, q, LevelOrder(g, next));
      assert q + (next + Appended(g, LevelOrder(g, next))) == q + Appended(g, q + LevelOrder(g, next));
    }
  }

  lemma {:induction false} ConcatIsAppended(g: Registry, f: TypeName -> seq<TypeName>, q: seq<TypeName>)
    requires Acyclic(g) && forall x | x in q :: f(x) == ParentTypes(g, x)
    ensures Concat(f, q) == Appended(g, q)
    decreases |q|
  {
    if q == [] {
    } else {
      ConcatIsAppended(g, f, q[1..]);
    }
  }

  lemma ParentTypesAnswer(g: Registry, f: TypeName -> seq<TypeName>)
    requires Acyclic(g) && forall t :: f(t) == ParentTypes(g, t)
    ensures Answers(g, f)
  {
    forall t ensures AnswersFor(g, f, t) {
      LevelOrderUnfolds(g, Extends(g, t));
      ConcatIsAppended(g, f, f(t));
    }
  }

  /** The recursion of `getParentTypes` has a finite answer for every type if and only if the
      registry is acyclic; on an acyclic registry `ParentTypes` is such an answer. */
  lemma AnswersExistIffAcyclic(g: Registry)
    ensures (exists f :: Answers(g, f)) <==> Acyclic(g)
  {
    if f :| Answers(g, f) {
      forall t ensures !IsAncestor(g, t, t) {
        if IsAncestor(g, t, t) {
          var p :| |p| >= 2 && PathBetween(g, p, t, t);
          AnswersShrinkAlongPaths(g, f, p);
        }
      }
    }
    if Acyclic(g) {
      var f := t => if Acyclic(g) then ParentTypes(g, t) else [];
      ParentTypesAnswer(g, f);
    }
  }

  lemma {:induction false} ConcatConcat(f: TypeName -> seq<TypeName>, a: seq<TypeName>, b: seq<TypeName>)
    ensures Concat(f, a + b) == Concat(f, a) + Concat(f, b)
    decreases |a|
  {
    if a == [] {
      assert a + b == b;
    } else {
      ConcatConcat(f, a[1..], b);
      assert (a + b)[1..] == a[1..] + b && (a + b)[0] == a[0];
      Associative(f(a[0]), Concat(f, a[1..]), Concat(f, b));
    }
  }

  lemma {:induction false} ConcatSource(f: TypeName -> seq<TypeName>, q: seq<TypeName>, x: TypeName)
    returns (y: TypeName)
    requires x in Concat(f, q)
    ensures y in q && x in f(y)
    decreases |q|
  {
    if x in f(q[0]) {
      y := q[0];
    } else {
      y := ConcatSource(f, q[1..], x);
    }
  }

  /** No array grows out of nothing: an answer is longer than those of its elements. */
  lemma {:induction false} NothingAppendsItself(g: Registry, f: TypeName -> seq<TypeName>, q: seq<TypeName>, n: nat)
    requires Answers(g, f) && q == Concat(f, q) && forall x | x in q :: |f(x)| < n
    ensures q == []
    decreases n
  {
    if q == [] {
    } else {
      assert |f(q[0])| < n;
      forall x | x in q ensures |f(x)| < n - 1 {
        var y := ConcatSource(f, q, x);
        assert AnswersFor(g, f, y);
        ConcatIsAtLeast(f, f(y), x);
      }
      NothingAppendsItself(g, f, q, n - 1);
    }
  }

  /** An array that consists of a queue and of what its own elements append is the level-order list. */
  lemma {:induction false} QueueDetermines(g: Registry, f: TypeName -> seq<TypeName>, q: seq<TypeName>,
                                           all: seq<TypeName>, b: nat)
    requires Acyclic(g) && Answers(g, f) && all == q + Concat(f, all)
    requires forall x | Rank(g, x) < b :: f(x) == ParentTypes(g, x)
    requires forall x | x in q :: Rank(g, x) < b
    ensures all == LevelOrder(g, q)
    decreases Bound(g, q)
  {
    if q == [] {
      assert all == Concat(f, all);
      forall x | x in all ensures |f(x)| < |all| + 1 { ConcatIsAtLeast(f, all, x); }
      NothingAppendsItself(g, f, all, |all| + 1);
    } else {
      var next, rest := Appended(g, q), Concat(f, all);
      ConcatIsAppended(g, f, q);
      ConcatConcat(f, q, rest);
      assert all == q + rest && rest == next + Concat(f, rest);
      NextLevel(g, q);
      BoundIsLeast(g, q, b);
      QueueDetermines(g, f, next, rest, b);
    }
  }

  /** The recursion has one answer only: whatever satisfies its equations is the level-order list, with all
      its duplicates and in its order. */
  lemma {:induction false} AnswersAreUnique(g: Registry, f: TypeName -> seq<TypeName>, t: TypeName)
    requires Acyclic(g) && Answers(g, f)
    ensures f(t) == ParentTypes(g, t)
    decreases Rank(g, t)
  {
    var q := Extends(g, t);
    assert AnswersFor(g, f, t);
    if q == [] {
    } else {
      forall x | Rank(g, x) < Rank(g, t) ensures f(x) == ParentTypes(g, x) { AnswersAreUnique(g, f, x); }
      forall e | e in q ensures Rank(g, e) < Rank(g, t) { ParentRanksLower(g, t, e); }
      QueueDetermines(g, f, q, f(t), Rank(g, t));
    }
  }

  // ----- Single inheritance -----

  ghost predicate SingleInheritance(g: Registry) {
    forall t :: |Extends(g, t)| <= 1
  }

  /** The type itself, its parent, its grandparent, ... */
  ghost function Chain(g: Registry, t: TypeName): (c: seq<TypeName>)
    requires Acyclic(g) && SingleInheritance(g)
    ensures |c| >= 1 && c[0] == t
    decreases Rank(g, t)
  {
    if Extends(g, t) == [] then [t]
    else
      ParentRanksLower(g, t, Extends(g, t)[0]);
      [t] + Chain(g, Extends(g, t)[0])
  }

  /** The chain is the whole path to the root: each member is the only parent of the one before. */
  lemma {:induction false} ChainIsThePath(g: Registry, t: TypeName)
    requires Acyclic(g) && SingleInheritance(g)
    ensures var c := Chain(g, t);
      && Extends(g, c[|c| - 1]) == []
      && forall i :: 0 <= i < |c| - 1 ==> Extends(g, c[i]) == [c[i + 1]]
    decreases Rank(g, t)
  {
    if Extends(g, t) == [] {
    } else {
      var e := Extends(g, t)[0];
      ParentRanksLower(g, t, e);
      ChainIsThePath(g, e);
      var c, d := Chain(g, t), Chain(g, e);
      assert |Extends(g, t)| <= 1;
      forall i | 0 <= i < |c| - 1 ensures Extends(g, c[i]) == [c[i + 1]] {
        if i > 0 { assert c[i] == d[i - 1] && c[i + 1] == d[i - 1 + 1]; }
      }
    }
  }

  lemma StartsWithTheQueue(g: Registry, q: seq<TypeName>)
    requires Acyclic(g)
    ensures q <= LevelOrder(g, q)
  {
  }

  lemma PrefixBehind<T>(e: T, a: seq<T>, b: seq<T>, c: seq<T>)
    requires a <= b <= c
    ensures [e] + a <= [e] + c
  {
  }

  /** On an inheritance chain the result starts with the exact nearest-first ancestor list;
      duplicates can only follow it. */
  lemma {:induction false} ParentTypesStartWithTheChain(g: Registry, t: TypeName)
    requires Acyclic(g) && SingleInheritance(g)
    ensures Chain(g, t)[1..] <= ParentTypes(g, t)
    decreases Rank(g, t)
  {
    if Extends(g, t) == [] {
    } else {
      var e := Extends(g, t)[0];
      assert |Extends(g, t)| <= 1;
      assert Extends(g, t) == [e] + [];
      ParentRanksLower(g, t, e);
      ParentTypesStartWithTheChain(g, e);
      VisitOne(g, e, []);
      var parents := ParentTypes(g, e);
      assert [] + parents == parents;
      assert ParentTypes(g, t) == [e] + LevelOrder(g, parents);
      StartsWithTheQueue(g, parents);
      PrefixBehind(e, Chain(g, e)[1..], parents, LevelOrder(g, parents));
      assert Chain(g, t)[1..] == Chain(g, e);
    }
  }
}
