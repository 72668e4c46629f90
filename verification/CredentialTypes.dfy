/** The `extends` graph of credential types and the walk over it.

    `getParentTypes` pushes onto the very array it is iterating over and calls
    itself for every element it meets, so neither its termination nor the set it
    returns can be read off its body. */
module CredentialTypes {

  type TypeName = string

  /** Known types with the types they extend; a type that is absent extends nothing. */
  type Graph = map<TypeName, seq<TypeName>>

  function Extends(g: Graph, t: TypeName): seq<TypeName> {
    if t in g then g[t] else []
  }

  // ---------- Ancestors, defined by paths ----------

  ghost predicate IsPath(g: Graph, path: seq<TypeName>) {
    && |path| >= 2
    && forall i :: 0 <= i < |path| - 1 ==> path[i] in g && path[i + 1] in g[path[i]]
  }

  /** `a` is reached from `t` by following `extends` at least once. */
  ghost predicate Ancestor(g: Graph, t: TypeName, a: TypeName) {
    exists path :: IsPath(g, path) && path[0] == t && path[|path| - 1] == a
  }

  /** No type is its own ancestor. */
  ghost predicate Acyclic(g: Graph) {
    forall t :: !Ancestor(g, t, t)
  }

  ghost predicate SingleInheritance(g: Graph) {
    forall t :: t in g ==> |g[t]| <= 1
  }

  lemma ParentIsAncestor(g: Graph, t: TypeName, p: TypeName)
    requires p in Extends(g, t)
    ensures Ancestor(g, t, p)
  {
    assert IsPath(g, [t, p]);
  }

  lemma AncestorTransitive(g: Graph, t: TypeName, u: TypeName, a: TypeName)
    requires Ancestor(g, t, u) && Ancestor(g, u, a)
    ensures Ancestor(g, t, a)
  {
    var p :| IsPath(g, p) && p[0] == t && p[|p| - 1] == u;
    var q :| IsPath(g, q) && q[0] == u && q[|q| - 1] == a;
    var path := p + q[1..];
    forall i | 0 <= i < |path| - 1
      ensures path[i] in g && path[i + 1] in g[path[i]]
    {
      if i >= |p| - 1 {
        var j := i - (|p| - 1);
        assert path[i] == q[j] && path[i + 1] == q[j + 1];
      }
    }
    assert IsPath(g, path);
  }

  /** The first step of a path to an ancestor goes through a parent. */
  lemma FirstStep(g: Graph, t: TypeName, a: TypeName) returns (y: TypeName)
    requires Ancestor(g, t, a)
    ensures y in Extends(g, t) && (a == y || Ancestor(g, y, a))
  {
    var p :| IsPath(g, p) && p[0] == t && p[|p| - 1] == a;
    y := p[1];
    if |p| > 2 {
      var q := p[1..];
      forall i | 0 <= i < |q| - 1
        ensures q[i] in g && q[i + 1] in g[q[i]]
      {
        assert q[i] == p[i + 1] && q[i + 1] == p[i + 2];
      }
      assert IsPath(g, q);
    }
  }

  // ---------- The termination measure ----------

  ghost function Names(g: Graph): set<TypeName> {
    set t, p | t in g && p in g[t] :: p
  }

  ghost function AncestorSet(g: Graph, t: TypeName): (s: set<TypeName>)
    ensures forall a :: a in s <==> Ancestor(g, t, a)
  {
    AncestorsAreNamed(g, t);
    set a | a in Names(g) && Ancestor(g, t, a)
  }

  lemma AncestorsAreNamed(g: Graph, t: TypeName)
    ensures forall a :: Ancestor(g, t, a) ==> a in Names(g)
  {
    forall a | Ancestor(g, t, a)
      ensures a in Names(g)
    {
      var p :| IsPath(g, p) && p[0] == t && p[|p| - 1] == a;
      assert p[|p| - 2 + 1] in g[p[|p| - 2]];
    }
  }

  /** How far above `t` the graph still goes. */
  ghost function Height(g: Graph, t: TypeName): nat {
    |AncestorSet(g, t)|
  }

  lemma SmallerSet<T>(small: set<T>, big: set<T>)
    requires small < big
    ensures |small| < |big|
  {
    assert |big - small| > 0 by {
      var x :| x in big && x !in small;
      assert x in big - small;
    }
    assert big == small + (big - small);
  }

  /** Every step up an acyclic graph lowers the height. */
  lemma HeightDrops(g: Graph, t: TypeName, a: TypeName)
    requires Acyclic(g) && Ancestor(g, t, a)
    ensures Height(g, a) < Height(g, t)
  {
    forall b | b in AncestorSet(g, a)
      ensures b in AncestorSet(g, t)
    {
      AncestorTransitive(g, t, a, b);
    }
    assert a in AncestorSet(g, t) && a !in AncestorSet(g, a);
    SmallerSet(AncestorSet(g, a), AncestorSet(g, t));
  }

  // ---------- Lineage of a type under single inheritance ----------

  /** The ancestors of `t`, nearest first. */
  ghost function Lineage(g: Graph, t: TypeName): (r: seq<TypeName>)
    requires Acyclic(g) && SingleInheritance(g)
    ensures forall a :: a in r <==> Ancestor(g, t, a)
    decreases Height(g, t)
  {
    if Extends(g, t) == [] then
      NoAncestors(g, t);
      []
    else
      var p := Extends(g, t)[0];
      ParentIsAncestor(g, t, p);
      HeightDrops(g, t, p);
      AncestorsOfOnlyChild(g, t, p);
      [p] + Lineage(g, p)
  }

  lemma NoAncestors(g: Graph, t: TypeName)
    requires Extends(g, t) == []
    ensures forall a :: !Ancestor(g, t, a)
  {
    forall a | Ancestor(g, t, a)
      ensures false
    {
      var _ := FirstStep(g, t, a);
    }
  }

  lemma AncestorsOfOnlyChild(g: Graph, t: TypeName, p: TypeName)
    requires Extends(g, t) == [p]
    ensures forall a :: Ancestor(g, t, a) <==> a == p || Ancestor(g, p, a)
  {
    ParentIsAncestor(g, t, p);
    forall a | Ancestor(g, t, a)
      ensures a == p || Ancestor(g, p, a)
    {
      var _ := FirstStep(g, t, a);
    }
    forall a | Ancestor(g, p, a)
      ensures Ancestor(g, t, a)
    {
      AncestorTransitive(g, t, p, a);
    }
  }

  /** `s` without the repeats of what it already listed. */
  function FirstOccurrences(s: seq<TypeName>): (r: seq<TypeName>)
    ensures forall x :: x in r <==> x in s
  {
    if s == [] then []
    else
      var init := FirstOccurrences(s[..|s| - 1]);
      var last := s[|s| - 1];
      assert s == s[..|s| - 1] + [last];
      if last in init then init else init + [last]
  }

  /** Appending only known elements adds no first occurrence. */
  lemma {:induction false} FirstOccurrencesOfKnown(s: seq<TypeName>, more: seq<TypeName>)
    requires forall x :: x in more ==> x in s
    ensures FirstOccurrences(s + more) == FirstOccurrences(s)
  {
    if more == [] {
      assert s + more == s;
    } else {
      var init := more[..|more| - 1];
      assert more == init + [more[|more| - 1]];
      assert (s + more)[..|s + more| - 1] == s + init;
      FirstOccurrencesOfKnown(s, init);
    }
  }

  /** A new head comes first and changes nothing behind it. */
  lemma {:induction false} FirstOccurrencesOfFreshHead(x: TypeName, s: seq<TypeName>)
    requires x !in s
    ensures FirstOccurrences([x] + s) == [x] + FirstOccurrences(s)
  {
    if s == [] {
      assert [x] + s == [x];
      assert FirstOccurrences([x]) == [x] by {
        assert [x][..0] == [];
      }
    } else {
      var init := s[..|s| - 1];
      assert s == init + [s[|s| - 1]];
      assert ([x] + s)[..|[x] + s| - 1] == [x] + init;
      FirstOccurrencesOfFreshHead(x, init);
    }
  }

  // ---------- getParentTypes ----------

  ghost predicate AllAncestors(g: Graph, t: TypeName, s: seq<TypeName>) {
    forall a :: a in s ==> Ancestor(g, t, a)
  }

  ghost predicate AllBelow(g: Graph, s: seq<TypeName>, level: int) {
    forall a :: a in s ==> Height(g, a) < level
  }

  /** Whatever lies above a visited element has been pushed. */
  ghost predicate Expanded(g: Graph, visited: seq<TypeName>, all: seq<TypeName>) {
    forall y, a :: y in visited && Ancestor(g, y, a) ==> a in all
  }

  /** First occurrences of the array so far, once one element was visited. */
  ghost predicate ListsLineage(g: Graph, t: TypeName, s: seq<TypeName>)
    requires Acyclic(g)
  {
    SingleInheritance(g) ==> FirstOccurrences(s) == Lineage(g, t)
  }

  lemma ParentsBelow(g: Graph, t: TypeName)
    requires Acyclic(g)
    ensures AllAncestors(g, t, Extends(g, t)) && AllBelow(g, Extends(g, t), Height(g, t))
  {
    forall a | a in Extends(g, t)
      ensures Ancestor(g, t, a) && Height(g, a) < Height(g, t)
    {
      ParentIsAncestor(g, t, a);
      HeightDrops(g, t, a);
    }
  }

  lemma PushedBelow(g: Graph, t: TypeName, current: TypeName, more: seq<TypeName>)
    requires Acyclic(g) && Ancestor(g, t, current)
    requires AllAncestors(g, current, more)
    ensures AllAncestors(g, t, more) && AllBelow(g, more, Height(g, current))
  {
    forall a | a in more
      ensures Ancestor(g, t, a) && Height(g, a) < Height(g, current)
    {
      AncestorTransitive(g, t, current, a);
      HeightDrops(g, current, a);
    }
  }

  lemma FirstPushListsLineage(g: Graph, t: TypeName, more: seq<TypeName>)
    requires Acyclic(g) && Extends(g, t) != []
    requires AllAncestors(g, Extends(g, t)[0], more) && ListsLineage(g, Extends(g, t)[0], more)
    ensures ListsLineage(g, t, Extends(g, t) + more)
  {
    if SingleInheritance(g) {
      assert Extends(g, t) == [Extends(g, t)[0]];
      FirstOccurrencesOfFreshHead(Extends(g, t)[0], more);
    }
  }

  lemma LaterPushListsLineage(g: Graph, t: TypeName, s: seq<TypeName>, more: seq<TypeName>)
    requires Acyclic(g) && AllAncestors(g, t, more) && ListsLineage(g, t, s)
    ensures ListsLineage(g, t, s + more)
  {
    if SingleInheritance(g) {
      forall a | a in more
        ensures a in s
      {
        assert a in Lineage(g, t);
        assert a in FirstOccurrences(s);
      }
      FirstOccurrencesOfKnown(s, more);
    }
  }

  lemma ExpandedIsComplete(g: Graph, t: TypeName, s: seq<TypeName>)
    requires Extends(g, t) <= s && Expanded(g, s, s)
    ensures forall a :: Ancestor(g, t, a) ==> a in s
  {
    forall a | Ancestor(g, t, a)
      ensures a in s
    {
      var y := FirstStep(g, t, a);
      assert y in s;
    }
  }

  /** The three parts of the array after a push at its end and a step of the loop. */
  lemma SlicesAfterPush(s: seq<TypeName>, more: seq<TypeName>, i: nat, boundary: nat)
    requires i < boundary <= |s|
    ensures (s + more)[..i + 1] == s[..i] + [s[i]]
    ensures (s + more)[i + 1..boundary] == s[i..boundary][1..]
    ensures (s + more)[boundary..] == s[boundary..] + more
  {
  }

  /** The state of the walk at index `i`: what is left up to `boundary` lies below
      height `level`, what was pushed since then lies below `level - 1`. */
  ghost predicate Walk(g: Graph, t: TypeName, s: seq<TypeName>, i: int, boundary: int, level: int)
    requires Acyclic(g)
  {
    && 0 <= i <= boundary <= |s|
    && Extends(g, t) <= s && (i == 0 ==> s == Extends(g, t))
    && AllAncestors(g, t, s)
    && AllBelow(g, s[i..boundary], level)
    && AllBelow(g, s[boundary..], level - 1)
    && Expanded(g, s[..i], s)
    && (i > 0 ==> ListsLineage(g, t, s))
  }

  lemma WalkStep(g: Graph, t: TypeName, s: seq<TypeName>, more: seq<TypeName>, i: nat, boundary: nat, level: int)
    requires Acyclic(g) && Walk(g, t, s, i, boundary, level) && i < boundary
    requires forall a :: a in more <==> Ancestor(g, s[i], a)
    requires ListsLineage(g, s[i], more)
    ensures Walk(g, t, s + more, i + 1, boundary, level)
  {
    SlicesAfterPush(s, more, i, boundary);
    PushedBelow(g, t, s[i], more);
    assert Height(g, s[i]) < level by {
      assert s[i] == s[i..boundary][0];
    }
    if i == 0 {
      FirstPushListsLineage(g, t, more);
    } else {
      LaterPushListsLineage(g, t, s, more);
    }
  }

  /** All parent types: exactly the strict ancestors, on any acyclic graph. With
      single inheritance, first occurrences run from the nearest to the root. */
  method GetParentTypes(g: Graph, typeName: TypeName) returns (parents: seq<TypeName>)
    requires Acyclic(g)
    ensures forall a :: a in parents <==> Ancestor(g, typeName, a)
    ensures SingleInheritance(g) ==> FirstOccurrences(parents) == Lineage(g, typeName)
    decreases Height(g, typeName)
  {
    var extendsArr := Extends(g, typeName);
    if |extendsArr| == 0 {
      NoAncestors(g, typeName);
      return [];
    }
    parents := extendsArr;
    ParentsBelow(g, typeName);
    ghost var level: int, boundary := Height(g, typeName), |parents|;
    assert parents[0..boundary] == parents;
    var i := 0;
    while i < |parents|
      invariant Walk(g, typeName, parents, i, boundary, level)
      decreases level, boundary - i
    {
      if i == boundary {
        level, boundary := level - 1, |parents|;
      }
      assert parents[i] in parents[i..boundary];
      HeightDrops(g, typeName, parents[i]);
      var more := GetParentTypes(g, parents[i]);
      WalkStep(g, typeName, parents, more, i, boundary, level);
      parents := parents + more;
      i := i + 1;
    }
    assert parents[..i] == parents;
    ExpandedIsComplete(g, typeName, parents);
  }
}
