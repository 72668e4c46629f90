/** Credential overwrites: field values an operator sets per credential type, which
    types inherit along `extends`.

    `setPlainData` merges the table in place, type by type, in whatever order the
    keys come; a type first met as somebody's parent is marked resolved without its
    merged value ever being stored. So the table may be left partly merged, and
    what is proved is that looking a type up gives the full merge all the same. */
module CredentialsOverwrites {
  import opened Wrappers
  import opened CredentialTypes

  /** Scalar field values. */
  datatype Value = Null | Text(text: string) | Number(n: int) | Flag(b: bool)

  type Fields = map<string, Value>
  type Table = map<TypeName, Fields>

  function FieldsOf(table: Table, t: TypeName): Fields {
    if t in table then table[t] else map[]
  }

  // ---------- Reference: the override fold from the root down to the type ----------

  ghost function Merged(g: Graph, table: Table, t: TypeName): Fields
    requires Acyclic(g) && SingleInheritance(g)
    decreases Height(g, t)
  {
    if Extends(g, t) == [] then FieldsOf(table, t)
    else
      ParentsBelow(g, t);
      Merged(g, table, Extends(g, t)[0]) + FieldsOf(table, t)
  }

  /** One type after the other, each extending the next and nothing else. */
  ghost predicate IsChain(g: Graph, path: seq<TypeName>) {
    path != [] && forall i :: 0 <= i < |path| - 1 ==> path[i] in g && g[path[i]] == [path[i + 1]]
  }

  /** A field has the value that the nearest type on the way up sets, and is there only if
      some type on the way sets it. */
  lemma {:induction false} NearestTypeWins(g: Graph, table: Table, path: seq<TypeName>, i: nat, key: string)
    requires Acyclic(g) && SingleInheritance(g) && IsChain(g, path) && i < |path|
    requires forall j :: 0 <= j < i ==> path[j] !in table || key !in table[path[j]]
    ensures path[i] in table && key in table[path[i]] ==>
              key in Merged(g, table, path[0]) && Merged(g, table, path[0])[key] == table[path[i]][key]
    ensures (path[i] !in g || g[path[i]] == []) && !(path[i] in table && key in table[path[i]]) ==>
              key !in Merged(g, table, path[0])
    decreases i
  {
    if i > 0 {
      var rest := path[1..];
      assert forall j :: 0 <= j < |rest| ==> rest[j] == path[j + 1];
      assert Extends(g, path[0]) == [rest[0]];
      NearestTypeWins(g, table, rest, i - 1, key);
    }
  }

  /** Every field of `a` is a field of `b` with the same value. */
  ghost predicate Within(a: Fields, b: Fields) {
    forall k :: k in a ==> k in b && b[k] == a[k]
  }

  /** The invariant of the table: at least the original data, at most the full merge. */
  ghost predicate Sandwiched(g: Graph, original: Table, table: Table)
    requires Acyclic(g) && SingleInheritance(g)
  {
    && table.Keys == original.Keys
    && forall t :: t in original ==>
                     Within(original[t], table[t]) && Within(table[t], Merged(g, original, t))
  }

  /** A partly merged table resolves like the original one. */
  lemma {:induction false} SandwichedResolvesAlike(g: Graph, original: Table, table: Table, t: TypeName)
    requires Acyclic(g) && SingleInheritance(g) && Sandwiched(g, original, table)
    ensures Merged(g, table, t) == Merged(g, original, t)
    decreases Height(g, t)
  {
    if Extends(g, t) != [] {
      var p := Extends(g, t)[0];
      ParentsBelow(g, t);
      SandwichedResolvesAlike(g, original, table, p);
    }
    MergedContainsOwn(g, original, t);
  }

  lemma MergedContainsOwn(g: Graph, table: Table, t: TypeName)
    requires Acyclic(g) && SingleInheritance(g)
    ensures Within(FieldsOf(table, t), Merged(g, table, t))
  {
  }

  /** Loading a merged table again and again, merged anew each time, resolves like
      the table that was loaded first. */
  lemma {:induction false} ReloadsResolveAlike(g: Graph, tables: seq<Table>, t: TypeName)
    requires Acyclic(g) && SingleInheritance(g) && tables != []
    requires forall i :: 0 <= i < |tables| - 1 ==> Sandwiched(g, tables[i], tables[i + 1])
    ensures Merged(g, tables[|tables| - 1], t) == Merged(g, tables[0], t)
  {
    if |tables| > 1 {
      var rest := tables[1..];
      forall i | 0 <= i < |rest| - 1
        ensures Sandwiched(g, rest[i], rest[i + 1])
      {
        assert rest[i] == tables[i + 1] && rest[i + 1] == tables[i + 2];
      }
      ReloadsResolveAlike(g, rest, t);
      SandwichedResolvesAlike(g, tables[0], tables[1], t);
    }
  }

  // ---------- Resolving a type, and what is left in the table ----------

  function Find(table: Table, t: TypeName): Option<Fields> {
    if t in table then Some(table[t]) else None
  }

  /** What resolving a type gives, and the types marked resolved by then. */
  datatype Resolution = Resolution(value: Option<Fields>, resolved: seq<TypeName>)

  /** A resolved type has what is stored for it; another one the merge of its parents'
      and its own, which is not stored. */
  ghost function Resolved(g: Graph, recognized: set<TypeName>, resolved: seq<TypeName>,
      table: Table, t: TypeName): Resolution
    requires Acyclic(g)
    decreases Height(g, t), 1, 0
  {
    if t in resolved then Resolution(Find(table, t), resolved)
    else if t !in recognized then Resolution(None, resolved)
    else if t !in g then Resolution(Find(table, t), resolved + [t])
    else
      var up := Inherited(g, recognized, resolved, table, t, |Extends(g, t)|);
      Resolution(Some(up.value.value + FieldsOf(table, t)), up.resolved + [t])
  }

  /** From the first `n` parents, one after the other. */
  ghost function Inherited(g: Graph, recognized: set<TypeName>, resolved: seq<TypeName>,
      table: Table, t: TypeName, n: nat): (r: Resolution)
    requires Acyclic(g) && n <= |Extends(g, t)|
    ensures r.value.Some?
    decreases Height(g, t), 0, n
  {
    if n == 0 then Resolution(Some(map[]), resolved)
    else
      ParentsBelow(g, t);
      var before := Inherited(g, recognized, resolved, table, t, n - 1);
      var parent := Resolved(g, recognized, before.resolved, table, Extends(g, t)[n - 1]);
      Resolution(Some(if parent.value.Some? then before.value.value + parent.value.value else before.value.value),
          parent.resolved)
  }

  datatype Memo = Memo(table: Table, resolved: seq<TypeName>)

  /** The table and the marks once the first `n` keys have been merged in place. */
  ghost function MergedInPlace(g: Graph, recognized: set<TypeName>, data: Table, order: seq<TypeName>, n: nat): Memo
    requires Acyclic(g) && n <= |order|
  {
    if n == 0 then Memo(data, [])
    else
      var before := MergedInPlace(g, recognized, data, order, n - 1);
      var r := Resolved(g, recognized, before.resolved, before.table, order[n - 1]);
      Memo(if r.value.Some? && r.value.value != map[] then before.table[order[n - 1] := r.value.value]
           else before.table,
           r.resolved)
  }

  /** Whatever is resolved lies between the original data and the full merge. */
  lemma {:induction false} ResolvedIsSandwiched(g: Graph, recognized: set<TypeName>,
      resolved: seq<TypeName>, original: Table, table: Table, t: TypeName)
    requires Acyclic(g) && SingleInheritance(g) && Sandwiched(g, original, table)
    ensures var r := Resolved(g, recognized, resolved, table, t).value;
            r.Some? ==> Within(FieldsOf(original, t), r.value) && Within(r.value, Merged(g, original, t))
    decreases Height(g, t)
  {
    if t !in resolved && t in recognized && t in g && Extends(g, t) != [] {
      ParentsBelow(g, t);
      assert |Extends(g, t)| == 1;
      var before := Inherited(g, recognized, resolved, table, t, 0);
      ResolvedIsSandwiched(g, recognized, resolved, original, table, Extends(g, t)[0]);
      assert Inherited(g, recognized, resolved, table, t, 1).resolved
          == Resolved(g, recognized, resolved, table, Extends(g, t)[0]).resolved;
    }
    MergedContainsOwn(g, original, t);
  }

  /** So merging in place keeps the table sandwiched, whatever the order of the keys. */
  lemma {:induction false} MergingKeepsSandwich(g: Graph, recognized: set<TypeName>,
      data: Table, order: seq<TypeName>, n: nat)
    requires Acyclic(g) && SingleInheritance(g) && n <= |order| && forall t :: t in order ==> t in data
    ensures Sandwiched(g, data, MergedInPlace(g, recognized, data, order, n).table)
  {
    if n == 0 {
      forall t | t in data
        ensures Within(data[t], Merged(g, data, t))
      {
        MergedContainsOwn(g, data, t);
      }
    } else {
      var before := MergedInPlace(g, recognized, data, order, n - 1);
      MergingKeepsSandwich(g, recognized, data, order, n - 1);
      ResolvedIsSandwiched(g, recognized, before.resolved, data, before.table, order[n - 1]);
      assert FieldsOf(data, order[n - 1]) == data[order[n - 1]];
    }
  }

  /** A type that is not resolved yet gives its only parent's fields, as they resolve by
      then, with its own over them. */
  lemma OneParentInherits(g: Graph, recognized: set<TypeName>, resolved: seq<TypeName>, table: Table,
                          t: TypeName, parent: TypeName)
    requires Acyclic(g) && t in g && g[t] == [parent] && t in recognized && t !in resolved
    ensures var r := Resolved(g, recognized, resolved, table, t);
            var up := Resolved(g, recognized, resolved, table, parent);
            && r.value.Some? && r.resolved == up.resolved + [t]
            && (forall key :: t in table && key in table[t] ==>
                  key in r.value.value && r.value.value[key] == table[t][key])
            && (forall key :: up.value.Some? && key in up.value.value && !(t in table && key in table[t]) ==>
                  key in r.value.value && r.value.value[key] == up.value.value[key])
            && (forall key :: key in r.value.value ==>
                  (t in table && key in table[t]) || (up.value.Some? && key in up.value.value))
  {
    ParentsBelow(g, t);
    var before := Inherited(g, recognized, resolved, table, t, 0);
    assert Inherited(g, recognized, resolved, table, t, 1).resolved
        == Resolved(g, recognized, resolved, table, parent).resolved;
  }

  /** Nothing on the way up from `t` is resolved yet, and all of it is known. */
  ghost predicate Fresh(g: Graph, recognized: set<TypeName>, resolved: seq<TypeName>, t: TypeName) {
    t in recognized && t !in resolved && forall a :: Ancestor(g, t, a) ==> a in recognized && a !in resolved
  }

  /** Such a type resolves to its full merge. */
  lemma {:induction false} FreshResolvesFully(g: Graph, recognized: set<TypeName>, resolved: seq<TypeName>,
                                              table: Table, t: TypeName)
    requires Acyclic(g) && SingleInheritance(g) && Fresh(g, recognized, resolved, t)
    ensures var r := Resolved(g, recognized, resolved, table, t).value;
            if r.Some? then r.value == Merged(g, table, t) else Merged(g, table, t) == map[]
    decreases Height(g, t)
  {
    if t in g && g[t] != [] {
      var parent := g[t][0];
      assert g[t] == [parent];
      ParentsBelow(g, t);
      forall a | Ancestor(g, parent, a)
        ensures Ancestor(g, t, a)
      {
        AncestorTransitive(g, t, parent, a);
      }
      FreshResolvesFully(g, recognized, resolved, table, parent);
      OneParentInherits(g, recognized, resolved, table, t, parent);
      var r := Resolved(g, recognized, resolved, table, t).value.value;
      assert r == Merged(g, table, t);
    } else if t in g {
      assert Inherited(g, recognized, resolved, table, t, 0).value == Some(map[]);
    }
  }

  /** So a key that the loop comes to before anything on its way up was resolved is stored
      with its full merge, and stays so. */
  lemma FreshIsStoredMerged(g: Graph, recognized: set<TypeName>, data: Table, order: seq<TypeName>, i: nat)
    requires Acyclic(g) && SingleInheritance(g) && i < |order| && forall t :: t in order ==> t in data
    requires Fresh(g, recognized, MergedInPlace(g, recognized, data, order, i).resolved, order[i])
    ensures order[i] in MergedInPlace(g, recognized, data, order, |order|).table
    ensures MergedInPlace(g, recognized, data, order, |order|).table[order[i]] == Merged(g, data, order[i])
  {
    var t := order[i];
    var before := MergedInPlace(g, recognized, data, order, i);
    MergingKeepsSandwich(g, recognized, data, order, i);
    MergingKeepsKeys(g, recognized, data, order, i);
    FreshResolvesFully(g, recognized, before.resolved, before.table, t);
    SandwichedResolvesAlike(g, data, before.table, t);
    ResolvingMarks(g, recognized, before.resolved, before.table, t);
    ResolvedIsFinal(g, recognized, data, order, i + 1, |order|, t);
    assert Within(before.table[t], Merged(g, data, t));
    assert Find(MergedInPlace(g, recognized, data, order, i + 1).table, t) == Some(Merged(g, data, t));
  }

  lemma {:induction false} MergingKeepsKeys(g: Graph, recognized: set<TypeName>,
      data: Table, order: seq<TypeName>, n: nat)
    requires Acyclic(g) && n <= |order| && forall t :: t in order ==> t in data
    ensures MergedInPlace(g, recognized, data, order, n).table.Keys == data.Keys
  {
    if n > 0 {
      MergingKeepsKeys(g, recognized, data, order, n - 1);
    }
  }

  lemma {:induction false} ResolvingMarks(g: Graph, recognized: set<TypeName>,
      resolved: seq<TypeName>, table: Table, t: TypeName)
    requires Acyclic(g)
    ensures var after := Resolved(g, recognized, resolved, table, t).resolved;
            && resolved <= after && (t in recognized ==> t in after)
            && (t in g && t in recognized && t !in resolved ==>
                  forall p :: p in Extends(g, t) && p in recognized ==> p in after)
    decreases Height(g, t), 1, 0
  {
    if t !in resolved && t in recognized && t in g {
      InheritingMarks(g, recognized, resolved, table, t, |Extends(g, t)|);
    }
  }

  lemma {:induction false} InheritingMarks(g: Graph, recognized: set<TypeName>,
      resolved: seq<TypeName>, table: Table, t: TypeName, n: nat)
    requires Acyclic(g) && n <= |Extends(g, t)|
    ensures var after := Inherited(g, recognized, resolved, table, t, n).resolved;
            resolved <= after && forall p :: p in Extends(g, t)[..n] && p in recognized ==> p in after
    decreases Height(g, t), 0, n
  {
    if n > 0 {
      ParentsBelow(g, t);
      InheritingMarks(g, recognized, resolved, table, t, n - 1);
      var before := Inherited(g, recognized, resolved, table, t, n - 1);
      ResolvingMarks(g, recognized, before.resolved, table, Extends(g, t)[n - 1]);
      assert Extends(g, t)[..n] == Extends(g, t)[..n - 1] + [Extends(g, t)[n - 1]];
    }
  }

  lemma {:induction false} ResolvedIsFinal(g: Graph, recognized: set<TypeName>,
      data: Table, order: seq<TypeName>, m: nat, n: nat, t: TypeName)
    requires Acyclic(g) && m <= n <= |order| && t in MergedInPlace(g, recognized, data, order, m).resolved
    ensures t in MergedInPlace(g, recognized, data, order, n).resolved
    ensures Find(MergedInPlace(g, recognized, data, order, n).table, t)
        == Find(MergedInPlace(g, recognized, data, order, m).table, t)
    decreases n
  {
    if m < n {
      ResolvedIsFinal(g, recognized, data, order, m, n - 1, t);
      var before := MergedInPlace(g, recognized, data, order, n - 1);
      ResolvingMarks(g, recognized, before.resolved, before.table, order[n - 1]);
    }
  }

  lemma {:induction false} NotYetListedIsRaw(g: Graph, recognized: set<TypeName>,
      data: Table, order: seq<TypeName>, n: nat, t: TypeName)
    requires Acyclic(g) && n <= |order| && t !in order[..n]
    ensures Find(MergedInPlace(g, recognized, data, order, n).table, t) == Find(data, t)
  {
    if n > 0 {
      assert order[..n] == order[..n - 1] + [order[n - 1]];
      NotYetListedIsRaw(g, recognized, data, order, n - 1, t);
    }
  }

  /** Why the table may be left partly merged: a parent whose key comes after that of a
      type extending it was resolved on the way, and its merge is never stored. */
  lemma ListedAfterChildStaysRaw(g: Graph, recognized: set<TypeName>, data: Table,
      order: seq<TypeName>, i: nat, parent: TypeName)
    requires Acyclic(g) && i < |order| && order[i] in g && order[i] in recognized
    requires parent in Extends(g, order[i]) && parent in recognized && parent !in order[..i + 1]
    requires order[i] !in MergedInPlace(g, recognized, data, order, i).resolved
    ensures Find(MergedInPlace(g, recognized, data, order, |order|).table, parent) == Find(data, parent)
  {
    var before := MergedInPlace(g, recognized, data, order, i);
    ResolvingMarks(g, recognized, before.resolved, before.table, order[i]);
    ResolvedIsFinal(g, recognized, data, order, i + 1, |order|, parent);
    NotYetListedIsRaw(g, recognized, data, order, i + 1, parent);
  }

  // ---------- The lookup pipeline: reverse, map, filter, reduce ----------

  function Reverse(s: seq<TypeName>): seq<TypeName> {
    if s == [] then [] else Reverse(s[1..]) + [s[0]]
  }

  /** The entries that are present, in the order of `types`. */
  function Present(table: Table, types: seq<TypeName>): seq<Fields> {
    if types == [] then []
    else (if types[0] in table then [table[types[0]]] else []) + Present(table, types[1..])
  }

  /** Assigning each entry onto the accumulator, later entries winning. */
  function AssignAll(acc: Fields, entries: seq<Fields>): Fields
    decreases |entries|
  {
    if entries == [] then acc else AssignAll(acc + entries[0], entries[1..])
  }

  function LookUp(table: Table, name: TypeName, parents: seq<TypeName>): Fields {
    AssignAll(map[], Present(table, Reverse([name] + parents)))
  }

  /** The same overlay, read from the other end: the earliest type wins. */
  ghost function Overlay(table: Table, types: seq<TypeName>): Fields {
    if types == [] then map[] else Overlay(table, types[1..]) + FieldsOf(table, types[0])
  }

  lemma {:induction false} PresentAppend(table: Table, a: seq<TypeName>, b: seq<TypeName>)
    ensures Present(table, a + b) == Present(table, a) + Present(table, b)
  {
    if a == [] {
      assert a + b == b;
    } else {
      assert (a + b)[1..] == a[1..] + b;
      PresentAppend(table, a[1..], b);
    }
  }

  lemma {:induction false} AssignAllAppend(acc: Fields, a: seq<Fields>, b: seq<Fields>)
    ensures AssignAll(acc, a + b) == AssignAll(AssignAll(acc, a), b)
    decreases |a|
  {
    if a == [] {
      assert a + b == b;
    } else {
      assert (a + b)[1..] == a[1..] + b;
      AssignAllAppend(acc + a[0], a[1..], b);
    }
  }

  lemma {:induction false} PipelineIsOverlay(table: Table, types: seq<TypeName>)
    ensures AssignAll(map[], Present(table, Reverse(types))) == Overlay(table, types)
  {
    if types != [] {
      var before := Reverse(types[1..]);
      PipelineIsOverlay(table, types[1..]);
      PresentAppend(table, before, [types[0]]);
      AssignAllAppend(map[], Present(table, before), Present(table, [types[0]]));
    }
  }

  lemma Regroup(a: Fields, b: Fields, c: Fields)
    ensures (a + b) + c == a + (b + c)
  {
  }

  lemma Absorbed(a: Fields, b: Fields)
    requires a.Keys <= b.Keys
    ensures a + b == b
  {
  }

  lemma {:induction false} OverlaySnoc(table: Table, init: seq<TypeName>, last: TypeName)
    ensures Overlay(table, init + [last]) == FieldsOf(table, last) + Overlay(table, init)
  {
    if init == [] {
      assert [] + [last] == [last] && [last][1..] == [];
    } else {
      assert (init + [last])[1..] == init[1..] + [last];
      OverlaySnoc(table, init[1..], last);
      Regroup(FieldsOf(table, last), Overlay(table, init[1..]), FieldsOf(table, init[0]));
    }
  }

  lemma {:induction false} OverlayCovers(table: Table, types: seq<TypeName>, t: TypeName)
    requires t in types
    ensures FieldsOf(table, t).Keys <= Overlay(table, types).Keys
  {
    if t != types[0] {
      OverlayCovers(table, types[1..], t);
    }
  }

  /** Listing a type again further up changes nothing. */
  lemma {:induction false} OverlayIgnoresRepeats(table: Table, types: seq<TypeName>)
    ensures Overlay(table, types) == Overlay(table, FirstOccurrences(types))
  {
    if types != [] {
      var init, last := types[..|types| - 1], types[|types| - 1];
      assert types == init + [last];
      OverlayIgnoresRepeats(table, init);
      OverlaySnoc(table, init, last);
      if last in FirstOccurrences(init) {
        OverlayCovers(table, init, last);
        Absorbed(FieldsOf(table, last), Overlay(table, init));
      } else {
        OverlaySnoc(table, FirstOccurrences(init), last);
      }
    }
  }

  lemma {:induction false} LineageOverlayIsMerged(g: Graph, table: Table, t: TypeName)
    requires Acyclic(g) && SingleInheritance(g)
    ensures Overlay(table, [t] + Lineage(g, t)) == Merged(g, table, t)
    decreases Height(g, t)
  {
    assert ([t] + Lineage(g, t))[1..] == Lineage(g, t);
    if Extends(g, t) != [] {
      ParentsBelow(g, t);
      LineageOverlayIsMerged(g, table, Extends(g, t)[0]);
    }
  }

  /** The lookup is the override fold, whatever repeats the parent list holds. */
  lemma LookUpIsMerged(g: Graph, table: Table, name: TypeName, parents: seq<TypeName>)
    requires Acyclic(g) && SingleInheritance(g)
    requires FirstOccurrences(parents) == Lineage(g, name)
    ensures LookUp(table, name, parents) == Merged(g, table, name)
  {
    PipelineIsOverlay(table, [name] + parents);
    OverlayIgnoresRepeats(table, [name] + parents);
    assert name !in parents by {
      assert forall x :: x in parents ==> x in FirstOccurrences(parents);
    }
    FirstOccurrencesOfFreshHead(name, parents);
    LineageOverlayIsMerged(g, table, name);
  }

  lemma OverlayOfThree(table: Table, x: TypeName, y: TypeName, z: TypeName)
    ensures Overlay(table, [x] + [y, z]) == FieldsOf(table, z) + FieldsOf(table, y) + FieldsOf(table, x)
  {
    assert ([x] + [y, z])[1..] == [y, z] && [y, z][1..] == [z] && [z][1..] == [];
    assert Overlay(table, [z]) == FieldsOf(table, z);
    assert Overlay(table, [y, z]) == FieldsOf(table, z) + FieldsOf(table, y);
  }

  // ---------- Two parents ----------

  /** `t` extends two types that extend nothing. */
  ghost predicate TwoParents(g: Graph, t: TypeName, a: TypeName, b: TypeName) {
    g == map[t := [a, b]] && t != a && t != b && a != b
  }

  lemma TwoParentsAcyclic(g: Graph, t: TypeName, a: TypeName, b: TypeName)
    requires TwoParents(g, t, a, b)
    ensures Acyclic(g)
  {
    forall x | Ancestor(g, x, x)
      ensures false
    {
      var y := FirstStep(g, x, x);
      var z := FirstStep(g, y, x);
    }
  }

  lemma ParentsResolveToThemselves(g: Graph, recognized: set<TypeName>, resolved: seq<TypeName>, table: Table,
                                   t: TypeName, a: TypeName, b: TypeName)
    requires TwoParents(g, t, a, b) && Acyclic(g) && {t, a, b} <= recognized && t !in resolved
    ensures var r := Resolved(g, recognized, resolved, table, t);
            r.value == Some(FieldsOf(table, a) + FieldsOf(table, b) + FieldsOf(table, t)) && t in r.resolved
  {
    var none: Fields := map[];
    var first := Inherited(g, recognized, resolved, table, t, 1);
    assert Inherited(g, recognized, resolved, table, t, 0) == Resolution(Some(none), resolved);
    assert none + FieldsOf(table, a) == FieldsOf(table, a) && FieldsOf(table, a) + none == FieldsOf(table, a);
    assert Resolved(g, recognized, resolved, table, a).value == Find(table, a);
    assert first.value == Some(FieldsOf(table, a));
    assert Resolved(g, recognized, first.resolved, table, b).value == Find(table, b);
    assert Inherited(g, recognized, resolved, table, t, 2).value == Some(FieldsOf(table, a) + FieldsOf(table, b));
  }

  lemma OthersResolveToThemselves(g: Graph, recognized: set<TypeName>, resolved: seq<TypeName>, table: Table,
                                  t: TypeName, a: TypeName, b: TypeName, x: TypeName)
    requires TwoParents(g, t, a, b) && Acyclic(g) && x != t
    ensures var r := Resolved(g, recognized, resolved, table, x);
            (r.value.Some? ==> r.value == Find(table, x)) && (t in r.resolved <==> t in resolved)
  {
  }

  /** Merging in place changes the entry of `t` alone, to its parents' merge and its own. */
  lemma {:induction false} MergedWithTwoParents(g: Graph, recognized: set<TypeName>, data: Table, order: seq<TypeName>,
                                                n: nat, t: TypeName, a: TypeName, b: TypeName)
    requires TwoParents(g, t, a, b) && Acyclic(g) && {t, a, b} <= recognized
    requires n <= |order| && forall x :: x in order ==> x in data
    ensures var m := MergedInPlace(g, recognized, data, order, n);
            && (t in m.resolved <==> t in order[..n])
            && m.table == if t in order[..n] then data[t := FieldsOf(data, a) + FieldsOf(data, b) + data[t]] else data
  {
    if n > 0 {
      var before := MergedInPlace(g, recognized, data, order, n - 1);
      MergedWithTwoParents(g, recognized, data, order, n - 1, t, a, b);
      assert order[..n] == order[..n - 1] + [order[n - 1]];
      MergesOneMore(g, recognized, data, before, order[n - 1], t in order[..n - 1], t, a, b);
    }
  }

  lemma MergesOneMore(g: Graph, recognized: set<TypeName>, data: Table, before: Memo, x: TypeName, done: bool,
                      t: TypeName, a: TypeName, b: TypeName)
    requires TwoParents(g, t, a, b) && Acyclic(g) && {t, a, b} <= recognized && x in data && (done ==> t in data)
    requires t in before.resolved <==> done
    requires before.table == if done then data[t := FieldsOf(data, a) + FieldsOf(data, b) + data[t]] else data
    ensures var r := Resolved(g, recognized, before.resolved, before.table, x);
            && (t in r.resolved <==> done || x == t)
            && (if r.value.Some? && r.value.value != map[] then before.table[x := r.value.value] else before.table)
               == if done || x == t then data[t := FieldsOf(data, a) + FieldsOf(data, b) + data[t]] else data
  {
    if x != t {
      OthersResolveToThemselves(g, recognized, before.resolved, before.table, t, a, b, x);
    } else if !done {
      ParentsResolveToThemselves(g, recognized, before.resolved, before.table, t, a, b);
    }
  }

  /** Two parents disagree on no field that the type itself leaves open. */
  ghost predicate SiblingsAgree(data: Table, t: TypeName, a: TypeName, b: TypeName) {
    forall key :: key in FieldsOf(data, a) && key in FieldsOf(data, b) && key !in FieldsOf(data, t) ==>
                    FieldsOf(data, a)[key] == FieldsOf(data, b)[key]
  }

  /** Why single inheritance is asked for. Of two parents that set a field the lookup prefers
      the one listed first, merging in place the one listed last; so merging leaves the lookup
      alone exactly if the type has no entry to be merged into, or the parents agree on what
      it leaves open. */
  lemma MergingHarmlessExactlyWhen(g: Graph, recognized: set<TypeName>, data: Table, order: seq<TypeName>,
                                   t: TypeName, a: TypeName, b: TypeName)
    requires TwoParents(g, t, a, b) && {t, a, b} <= recognized && forall x :: x in order <==> x in data
    ensures Acyclic(g)
    ensures LookUp(MergedInPlace(g, recognized, data, order, |order|).table, t, [a, b]) == LookUp(data, t, [a, b])
       <==> t !in data || SiblingsAgree(data, t, a, b)
  {
    TwoParentsAcyclic(g, t, a, b);
    MergedWithTwoParents(g, recognized, data, order, |order|, t, a, b);
    assert order[..|order|] == order;
    var table := MergedInPlace(g, recognized, data, order, |order|).table;
    PipelineIsOverlay(data, [t] + [a, b]);
    PipelineIsOverlay(table, [t] + [a, b]);
    OverlayOfThree(data, t, a, b);
    OverlayOfThree(table, t, a, b);
    if t in data {
      OverlaysAgreeExactlyWhen(FieldsOf(data, a), FieldsOf(data, b), data[t]);
    }
  }

  lemma OverlaysAgreeExactlyWhen(a: Fields, b: Fields, own: Fields)
    ensures b + a + (a + b + own) == b + a + own <==>
            forall key :: key in a && key in b && key !in own ==> a[key] == b[key]
  {
    var merged, plain := b + a + (a + b + own), b + a + own;
    if merged == plain {
      forall key | key in a && key in b && key !in own
        ensures a[key] == b[key]
      {
        assert merged[key] == b[key] && plain[key] == a[key];
      }
    } else {
      assert merged.Keys == plain.Keys;
      var key :| key in merged && merged[key] != plain[key];
    }
  }

  /** For one, a field that both parents set, and an entry of the type that does not mention
      it. */
  lemma SiblingParentsDisagree()
    ensures var g := map["t" := ["a", "b"]];
            var data := map["a" := map["k" := Number(1)], "b" := map["k" := Number(2)], "t" := map["j" := Null]];
            && Acyclic(g)
            && LookUp(MergedInPlace(g, {"t", "a", "b"}, data, ["t", "a", "b"], 3).table, "t", ["a", "b"])
               != LookUp(data, "t", ["a", "b"])
  {
    var g := map["t" := ["a", "b"]];
    var data := map["a" := map["k" := Number(1)], "b" := map["k" := Number(2)], "t" := map["j" := Null]];
    var order := ["t", "a", "b"];
    assert order[0] == "t" && order[1] == "a" && order[2] == "b";
    MergingHarmlessExactlyWhen(g, {"t", "a", "b"}, data, order, "t", "a", "b");
    assert FieldsOf(data, "a")["k"] != FieldsOf(data, "b")["k"] && "k" !in FieldsOf(data, "t");
  }

  // ---------- Filling in a credential's data ----------

  predicate IsEmpty(data: Fields, key: string) {
    key !in data || data[key] in {Null, Text("")}
  }

  predicate IsFieldCustomized(overwrites: Fields, data: Fields, key: string)
    requires key in overwrites
  {
    !IsEmpty(data, key) && data[key] != overwrites[key]
  }

  predicate IsCustomized(overwrites: Fields, data: Fields) {
    exists key :: key in overwrites && IsFieldCustomized(overwrites, data, key)
  }

  function Filled(overwrites: Fields, data: Fields): Fields {
    map key | key in data.Keys + overwrites.Keys ::
      if key in overwrites && IsEmpty(data, key) then overwrites[key] else data[key]
  }

  function Applied(overwrites: Fields, skip: bool, data: Fields): Fields {
    if skip && IsCustomized(overwrites, data) then data else Filled(overwrites, data)
  }

  /** A type on the skip list keeps its data if the user stored some overwritten field with
      a value of its own, neither null nor the empty text. Otherwise exactly the overwritten
      fields that are missing, null or empty get the overwrite's value. */
  lemma AppliesExactly(overwrites: Fields, skip: bool, data: Fields)
    ensures var r := Applied(overwrites, skip, data);
            if skip && exists key :: key in overwrites && key in data && data[key] != Null && data[key] != Text("")
                                    && data[key] != overwrites[key]
            then r == data
            else
              && r.Keys == data.Keys + overwrites.Keys
              && (forall key :: key in overwrites && (key !in data || data[key] == Null || data[key] == Text("")) ==>
                    r[key] == overwrites[key])
              && (forall key :: key in data && !(key in overwrites && (data[key] == Null || data[key] == Text(""))) ==>
                    r[key] == data[key])
  {
    if key :| key in overwrites && key in data && data[key] !in {Null, Text(""), overwrites[key]} {
      assert IsFieldCustomized(overwrites, data, key);
    }
  }

  /** Applying overwrites to data that already went through them changes nothing,
      for skip-list types and ordinary ones. */
  lemma ApplyTwice(overwrites: Fields, skip: bool, data: Fields)
    ensures Applied(overwrites, skip, Applied(overwrites, skip, data)) == Applied(overwrites, skip, data)
  {
    var once := Applied(overwrites, skip, data);
    assert Filled(overwrites, Filled(overwrites, data)) == Filled(overwrites, data);
    if skip && !IsCustomized(overwrites, data) {
      assert !IsCustomized(overwrites, once);
    }
  }

  /** A value the user stored survives; for skip-list types the outcome is either
      the user's data untouched or data in which no overwrite field is customised. */
  lemma ApplyRespectsUser(overwrites: Fields, skip: bool, data: Fields)
    ensures forall key :: key in data && !IsEmpty(data, key) ==>
                            key in Applied(overwrites, skip, data) && Applied(overwrites, skip, data)[key] == data[key]
    ensures skip ==>
              Applied(overwrites, skip, data) == data || !IsCustomized(overwrites, Applied(overwrites, skip, data))
    ensures !(skip && IsCustomized(overwrites, data)) ==>
              forall key :: key in overwrites && !IsEmpty(overwrites, key) ==>
                              !IsEmpty(Applied(overwrites, skip, data), key)
  {
    if skip && !IsCustomized(overwrites, data) {
      var filled := Filled(overwrites, data);
      forall key | key in overwrites
        ensures !IsFieldCustomized(overwrites, filled, key)
      {
        assert !IsFieldCustomized(overwrites, data, key);
      }
    }
  }

  // ---------- The service ----------

  class CredentialsOverwrites {
    const types: Graph
    const recognized: set<TypeName>
    const skipTypes: set<TypeName>
    var overwriteData: Table
    var resolvedTypes: seq<TypeName>
    /** The data as it was loaded, before it was merged in place. */
    ghost var loaded: Table

    /** Nothing extends itself, and the table lies between what was loaded and its merge. */
    ghost predicate Valid()
      reads this
    {
      && Acyclic(types)
      && overwriteData.Keys == loaded.Keys
      && (SingleInheritance(types) ==> Sandwiched(types, loaded, overwriteData))
    }

    constructor (types: Graph, recognized: set<TypeName>, skipTypes: set<TypeName>)
      requires Acyclic(types)
      ensures Valid() && this.types == types && this.recognized == recognized && this.skipTypes == skipTypes
      ensures overwriteData == map[] && resolvedTypes == [] && loaded == map[]
    {
      this.types, this.recognized, this.skipTypes := types, recognized, skipTypes;
      overwriteData, resolvedTypes, loaded := map[], [], map[];
    }

    /** The stored value of a resolved type, the merge of its parents' and its own
        otherwise. Marks types as resolved, and leaves the table alone. */
    method GetOverwrites(t: TypeName) returns (r: Option<Fields>)
      requires Acyclic(types)
      modifies this`resolvedTypes
      ensures Resolution(r, resolvedTypes) == Resolved(types, recognized, old(resolvedTypes), overwriteData, t)
      decreases Height(types, t)
    {
      if t in resolvedTypes {
        return if t in overwriteData then Some(overwriteData[t]) else None;
      }
      if t !in recognized {
        return None;
      }
      if t !in types {
        resolvedTypes := resolvedTypes + [t];
        return if t in overwriteData then Some(overwriteData[t]) else None;
      }
      ParentsBelow(types, t);
      var parents := Extends(types, t);
      var overwrites: Fields := map[];
      for i := 0 to |parents|
        invariant Resolution(Some(overwrites), resolvedTypes)
            == Inherited(types, recognized, old(resolvedTypes), overwriteData, t, i)
      {
        var inherited := GetOverwrites(parents[i]);
        if inherited.Some? {
          overwrites := overwrites + inherited.value;
        }
      }
      assert overwrites + map[] == overwrites;
      if t in overwriteData {
        overwrites := overwrites + overwriteData[t];
      }
      resolvedTypes := resolvedTypes + [t];
      r := Some(overwrites);
    }

    /** Takes the table over and merges it in place, in the order its keys come. */
    method SetPlainData(data: Table, order: seq<TypeName>)
      requires Valid()
      requires forall t :: t in order <==> t in data
      modifies this
      ensures Valid() && loaded == data
      ensures Memo(overwriteData, resolvedTypes) == MergedInPlace(types, recognized, data, order, |order|)
    {
      resolvedTypes := [];
      overwriteData := data;
      loaded := data;
      for i := 0 to |order|
        invariant Memo(overwriteData, resolvedTypes) == MergedInPlace(types, recognized, data, order, i)
        invariant Acyclic(types) && loaded == data
      {
        var overwrites := GetOverwrites(order[i]);
        if overwrites.Some? && overwrites.value != map[] {
          overwriteData := overwriteData[order[i] := overwrites.value];
        }
      }
      MergingKeepsKeys(types, recognized, data, order, |order|);
      if SingleInheritance(types) {
        MergingKeepsSandwich(types, recognized, data, order, |order|);
      }
    }

    /** The fields in force for `name`: the override fold of the data as loaded. */
    method Get(name: TypeName) returns (fields: Fields)
      requires Valid()
      ensures SingleInheritance(types) ==> fields == Merged(types, loaded, name)
    {
      var parentTypes := GetParentTypes(types, name);
      fields := LookUp(overwriteData, name, parentTypes);
      if SingleInheritance(types) {
        LookUpIsMerged(types, overwriteData, name, parentTypes);
        SandwichedResolvesAlike(types, loaded, overwriteData, name);
      }
    }

    /** Returns what goes to the database: the table as merged in place. */
    method SetData(data: Table, order: seq<TypeName>) returns (persisted: Table)
      requires Valid()
      requires forall t :: t in order <==> t in data
      modifies this
      ensures Valid() && loaded == data && persisted == overwriteData
      ensures overwriteData == MergedInPlace(types, recognized, data, order, |order|).table
    {
      SetPlainData(data, order);
      persisted := overwriteData;
    }

    /** Reloading what was persisted, any number of times and in any key orders,
        leaves every lookup as it was. */
    method Reload(orders: seq<seq<TypeName>>)
      requires Valid()
      requires forall i, t :: 0 <= i < |orders| ==> (t in orders[i] <==> t in overwriteData)
      modifies this
      ensures Valid()
      ensures SingleInheritance(types) ==>
                forall t :: Merged(types, loaded, t) == old(Merged(types, loaded, t))
    {
      for i := 0 to |orders|
        invariant Valid() && overwriteData.Keys == old(overwriteData.Keys)
        invariant SingleInheritance(types) ==>
                    forall t :: Merged(types, loaded, t) == old(Merged(types, loaded, t))
      {
        ghost var previous := loaded;
        if SingleInheritance(types) {
          forall t
            ensures Merged(types, overwriteData, t) == Merged(types, previous, t)
          {
            SandwichedResolvesAlike(types, previous, overwriteData, t);
          }
        }
        var _ := SetData(overwriteData, orders[i]);
      }
    }

    /** Fills the fields the credential leaves empty, unless its type is on the skip
        list and the user customised one of them. */
    method ApplyOverwrite(t: TypeName, data: Fields) returns (r: Fields)
      requires Valid()
      ensures SingleInheritance(types) ==> r == Applied(Merged(types, loaded, t), t in skipTypes, data)
      ensures SingleInheritance(types) ==>
                var overwrites := Merged(types, loaded, t);
                var customized := t in skipTypes && exists key ::
                  key in overwrites && key in data && data[key] !in {Null, Text(""), overwrites[key]};
                var filled := map key | key in data.Keys + overwrites.Keys ::
                  if key in overwrites && (key !in data || data[key] in {Null, Text("")}) then overwrites[key]
                  else data[key];
                r == if customized then data else filled
    {
      var overwrites := Get(t);
      if t in skipTypes && exists key :: key in overwrites && IsFieldCustomized(overwrites, data, key) {
        return data;
      }
      r := FillEmptyFields(overwrites, data);
    }
  }

  /** The data once the overwrites for `keys` have been considered. */
  ghost function FilledFor(overwrites: Fields, keys: set<string>, data: Fields): Fields {
    Filled(map key | key in keys && key in overwrites :: overwrites[key], data)
  }

  lemma FilledForOneMore(overwrites: Fields, keys: set<string>, key: string, data: Fields)
    requires key in overwrites && key !in keys
    ensures var before := FilledFor(overwrites, keys, data);
            && IsEmpty(before, key) == IsEmpty(data, key)
            && FilledFor(overwrites, keys + {key}, data)
               == if IsEmpty(before, key) then before[key := overwrites[key]] else before
  {
  }

  lemma FilledForNone(overwrites: Fields, data: Fields)
    ensures FilledFor(overwrites, {}, data) == data
  {
  }

  lemma FilledForAll(overwrites: Fields, data: Fields)
    ensures FilledFor(overwrites, overwrites.Keys, data) == Filled(overwrites, data)
  {
    assert (map key | key in overwrites.Keys && key in overwrites :: overwrites[key]) == overwrites;
  }

  method FillEmptyFields(overwrites: Fields, data: Fields) returns (r: Fields)
    ensures r == Filled(overwrites, data)
  {
    r := data;
    var remaining := overwrites.Keys;
    ghost var considered: set<string> := {};
    FilledForNone(overwrites, data);
    while remaining != {}
      invariant remaining == overwrites.Keys - considered && considered <= overwrites.Keys
      invariant r == FilledFor(overwrites, considered, data)
      decreases |remaining|
    {
      var key :| key in remaining;
      FilledForOneMore(overwrites, considered, key, data);
      if IsEmpty(r, key) {
        r := r[key := overwrites[key]];
      }
      remaining, considered := remaining - {key}, considered + {key};
    }
    assert considered == overwrites.Keys;
    FilledForAll(overwrites, data);
  }
}
