/**
 Exactly when flattening keeps lookup precedence: for class-level lists that are those of the loaded
 graph, and for lists that are shared with the ones `getParentTypes` appends to.
 */
module OverwritePrecedence {
  import opened ExtendsGraph
  import opened CredentialInheritance
  import opened Wrappers
  import opened Overwrites

  /** Every answer is that of the nearest type, for all data and key orders. */
  ghost predicate PrecedenceLaw(g: Graph, classes: ClassExtends)
    requires Acyclic(g) && ClassesWithin(g, classes)
  {
    forall data: OverwriteData, keys: seq<string> :: Enumerates(keys, data) ==>
      SameAnswers(g, data, Flatten(g, classes, data, [], keys))
  }

  // ---------- how flattening lets the last recognized parent win ----------

  ghost predicate LastRecognized(classes: ClassExtends, list: seq<string>, i: nat) {
    i < |list| && list[i] in classes && NoneRecognized(classes, list[i + 1..])
  }

  lemma {:induction false} SomeIsLast(classes: ClassExtends, list: seq<string>) returns (i: nat)
    requires !NoneRecognized(classes, list)
    ensures LastRecognized(classes, list, i)
    decreases |list|
  {
    var n := |list| - 1;
    assert list == list[..n] + [list[n]];
    if list[n] in classes {
      i := n;
    } else {
      i := SomeIsLast(classes, list[..n]);
      assert list[i + 1..] == list[..n][i + 1..] + [list[n]];
    }
  }

  lemma {:induction false} UnrecognizedAddNothing(g: Graph, classes: ClassExtends, data: OverwriteData, resolved: seq<string>,
                                                  t: string, todo: seq<string>, merged: Record)
    requires Acyclic(g) && ClassesWithin(g, classes) && AllRecognized(classes, resolved)
    requires (forall p :: p in todo ==> IsAncestor(g, t, p)) && NoneRecognized(classes, todo)
    ensures ResolveAll(g, classes, data, resolved, t, todo, merged).overwrites == Some(merged)
    decreases |todo|
  {
    if todo != [] {
      RankFalls(g, t, todo[0]);
      assert todo[0] in todo && forall p :: p in todo[1..] ==> p in todo;
      UnrecognizedAddNothing(g, classes, data, resolved, t, todo[1..], merged);
      assert merged + map[] == merged;
    }
  }

  lemma {:induction false} LastRecognizedWins(g: Graph, classes: ClassExtends, data: OverwriteData, resolved: seq<string>,
                                              t: string, todo: seq<string>, merged: Record, i: nat, k: string)
    requires Acyclic(g) && ClassesWithin(g, classes) && AllRecognized(classes, resolved)
    requires forall p :: p in todo ==> IsAncestor(g, t, p)
    requires LastRecognized(classes, todo, i) && k in Own(data, todo[i])
    ensures var r := Fields(ResolveAll(g, classes, data, resolved, t, todo, merged).overwrites);
            k in r && r[k] == data[todo[i]][k]
    decreases |todo|
  {
    RankFalls(g, t, todo[0]);
    assert forall p :: p in todo[1..] ==> p in todo;
    var r := Resolve(g, classes, data, resolved, todo[0]);
    if i == 0 {
      UnrecognizedAddNothing(g, classes, data, r.resolved, t, todo[1..], merged + Fields(r.overwrites));
    } else {
      assert todo[1..][i..] == todo[i + 1..];
      LastRecognizedWins(g, classes, data, r.resolved, t, todo[1..], merged + Fields(r.overwrites), i - 1, k);
    }
  }

  /** If resolving `t` first gives it a value for a field of its own lacks that is not the nearest
      one, then the answer for `t` is wrong. */
  lemma FirstKeyBreaks(g: Graph, classes: ClassExtends, data: OverwriteData, t: string, rest: seq<string>, k: string)
    requires Acyclic(g) && ClassesWithin(g, classes) && Enumerates([t] + rest, data)
    requires var r := Fields(Resolve(g, classes, data, [], t).overwrites);
             k in r && FirstHolder(data, Lookup(g, t), k) != Some(r[k])
    ensures !SameAnswers(g, data, Flatten(g, classes, data, [], [t] + rest))
  {
    var keys := [t] + rest;
    var r := Resolve(g, classes, data, [], t);
    var next := WriteBack(data, t, r.overwrites);
    assert keys[0] == t && keys[1..] == rest;
    OwnFieldsStay(g, classes, next, r.resolved, rest, t, k);
    var now := Flatten(g, classes, data, [], keys);
    assert now == Flatten(g, classes, next, r.resolved, rest);
    assert Lookup(g, t)[0] == t;
    assert FirstHolder(now, Lookup(g, t), k) == Some(next[t][k]);
  }

  /** The witness data: only `a` and `z` have a value, each its own. */
  function Rivals(t: string, a: string, z: string): OverwriteData {
    map[t := map[], a := map["k" := Text("a")], z := map["k" := Text("z")]]
  }

  lemma RivalsHold(t: string, a: string, z: string)
    requires t != a && t != z && a != z
    ensures var data := Rivals(t, a, z);
            && Enumerates([t] + [a, z], data)
            && Own(data, a) == map["k" := Text("a")] && Own(data, z) == map["k" := Text("z")]
            && forall u :: u != a && u != z ==> Own(data, u) == map[]
  {
  }

  /** Where the last recognized type that a class lists is not the first in lookup order, `get`
      can answer with the former instead of the latter. */
  lemma LastListedBreaksPrecedence(g: Graph, classes: ClassExtends, t: string, a: string, i: nat)
      returns (data: OverwriteData, keys: seq<string>)
    requires Acyclic(g) && ClassesWithin(g, classes)
    requires t in classes && classes[t].Some? && LastRecognized(classes, classes[t].value, i)
    requires Order(g, t) != [] && Order(g, t)[0] == a && a != classes[t].value[i]
    ensures Enumerates(keys, data) && !SameAnswers(g, data, Flatten(g, classes, data, [], keys))
  {
    var z := classes[t].value[i];
    assert z in classes[t].value;
    OrderIsAncestors(g, t, a);
    data := Rivals(t, a, z);
    keys := [t] + [a, z];
    RivalsHold(t, a, z);
    hide Enumerates, Rivals;
    LastRecognizedWins(g, classes, data, [], t, classes[t].value, map[], i, "k");
    assert Lookup(g, t)[1..] == Order(g, t);
    assert FirstHolder(data, Lookup(g, t), "k") == FirstHolder(data, Order(g, t), "k") == Some(Text("a"));
    FirstKeyBreaks(g, classes, data, t, [a, z], "k");
  }

  /** Resolving `t` first gives it what its first parent inherits, if no other parent is recognized. */
  lemma ResolvesToInherited(g: Graph, classes: ClassExtends, data: OverwriteData, t: string, p: string, i: nat, k: string)
    requires Acyclic(g) && SameLists(g, classes)
    requires Parents(g, t) != [] && Parents(g, t)[0] == p && p in classes && NoneRecognized(classes, Parents(g, t)[1..])
    requires LastRecognized(classes, Parents(g, p), i) && k in Own(data, Parents(g, p)[i])
    requires k !in Own(data, t) && k !in Own(data, p)
    ensures var r := Fields(Resolve(g, classes, data, [], t).overwrites); k in r && r[k] == data[Parents(g, p)[i]][k]
  {
    var ps, v := Parents(g, t), data[Parents(g, p)[i]][k];
    assert p in ps && forall x :: x in ps[1..] ==> x in ps;
    RankFalls(g, t, p);
    LastRecognizedWins(g, classes, data, [], p, Parents(g, p), map[], i, k);
    var r := Resolve(g, classes, data, [], p);
    assert Field(Fields(r.overwrites), k) == Some(v);
    UnrecognizedAddNothing(g, classes, data, r.resolved, t, ps[1..], map[] + Fields(r.overwrites));
  }

  /** Where the only recognized parent comes first and inherits itself, another parent of `t`
      loses to what that one inherits. */
  lemma InheritedBeatsParent(g: Graph, classes: ClassExtends, t: string, p: string, u: string, i: nat)
      returns (data: OverwriteData, keys: seq<string>)
    requires Acyclic(g) && SameLists(g, classes) && NoDuplicates(Parents(g, t))
    requires Parents(g, t) != [] && Parents(g, t)[0] == p && p in classes && NoneRecognized(classes, Parents(g, t)[1..])
    requires u in Parents(g, t)[1..] && LastRecognized(classes, Parents(g, p), i)
    ensures Enumerates(keys, data) && !SameAnswers(g, data, Flatten(g, classes, data, [], keys))
  {
    var ps, z := Parents(g, t), Parents(g, p)[i];
    assert u in ps && p in ps && z in Parents(g, p) && u != p;
    ParentIsAncestor(g, t, u);
    ParentIsAncestor(g, t, p);
    ParentIsAncestor(g, p, z);
    AncestorTransitive(g, t, p, z);
    data := Rivals(t, u, z);
    keys := [t] + [u, z];
    RivalsHold(t, u, z);
    hide IsAncestor, Lookup, Resolve, FirstHolder, Flatten, NoneRecognized, Enumerates, Rivals, SameAnswers;
    ResolvesToInherited(g, classes, data, t, p, i, "k");
    NearestIsOther(g, data, t, u, z);
    FirstKeyBreaks(g, classes, data, t, [u, z], "k");
  }

  /** A parent of `t` is nearer than a type that is no parent. */
  lemma NearestIsOther(g: Graph, data: OverwriteData, t: string, u: string, z: string)
    requires Acyclic(g) && u in Parents(g, t) && z !in Parents(g, t)
    requires forall b :: b != u && b != z ==> "k" !in Own(data, b)
    requires t != u && t != z && "k" in Own(data, u)
    ensures FirstHolder(data, Lookup(g, t), "k") == Some(data[u]["k"])
  {
    var ps := Parents(g, t);
    var rest := OrderOfAll(g, t, ps);
    FirstHolderOfConcat(data, [t], Order(g, t), "k");
    FirstHolderOfDedupe(data, ps + rest, "k");
    FirstHolderOfConcat(data, ps, rest, "k");
    FirstHolderHolds(data, ps, "k");
  }

  // ---------- lists as loaded ----------

  /** An ambiguous type has data and a key order for which its answer is not the nearest one. */
  lemma AmbiguityBreaksPrecedence(g: Graph, classes: ClassExtends, t: string)
      returns (data: OverwriteData, keys: seq<string>)
    requires Acyclic(g) && SameLists(g, classes) && NoDuplicates(Parents(g, t)) && !Unambiguous(g, classes, t)
    ensures Enumerates(keys, data) && !SameAnswers(g, data, Flatten(g, classes, data, [], keys))
  {
    var ps := Parents(g, t);
    var p, q :| p in ps && q in ps && p in classes && q != p
                && !(q !in classes && ps[0] == p && NoneRecognized(classes, Parents(g, p)));
    var i := SomeIsLast(classes, ps);
    FirstParentFirst(g, t);
    if ps[i] != ps[0] {
      data, keys := LastListedBreaksPrecedence(g, classes, t, ps[0], i);
    } else {
      assert i == 0 && ps == [ps[0]] + ps[1..];
      assert p == ps[0] && q in ps[1..];
      var j := SomeIsLast(classes, Parents(g, p));
      data, keys := InheritedBeatsParent(g, classes, t, p, q, j);
    }
  }

  /** For lists as loaded, none of which repeats a type, precedence survives exactly if no type is
      ambiguous. */
  lemma PrecedenceSurvivesIff(g: Graph, classes: ClassExtends)
    requires Acyclic(g) && SameLists(g, classes) && forall t :: NoDuplicates(Parents(g, t))
    ensures PrecedenceLaw(g, classes) <==> forall t :: Unambiguous(g, classes, t)
  {
    if t :| !Unambiguous(g, classes, t) {
      assert NoDuplicates(Parents(g, t));
      var data, keys := AmbiguityBreaksPrecedence(g, classes, t);
    } else {
      forall data: OverwriteData, keys: seq<string> | Enumerates(keys, data)
        ensures SameAnswers(g, data, Flatten(g, classes, data, [], keys))
      {
        UnambiguousKeepsAnswers(g, classes, data, keys);
      }
    }
  }

  /** Where also all parents are recognized, precedence survives exactly if no type has two parents. */
  lemma PrecedenceNeedsSingleInheritance(g: Graph, classes: ClassExtends)
    requires Acyclic(g) && SameLists(g, classes)
    requires forall t :: NoDuplicates(Parents(g, t))
    requires forall t, p :: p in Parents(g, t) ==> p in classes
    ensures PrecedenceLaw(g, classes) <==> forall t :: |Parents(g, t)| <= 1
  {
    PrecedenceSurvivesIff(g, classes);
    hide PrecedenceLaw, SameLists, Unambiguous, NoDuplicates, Acyclic;
    forall t
      ensures Unambiguous(g, classes, t) <==> |Parents(g, t)| <= 1
    {
      RecognizedParentsAreAmbiguous(g, classes, t);
    }
  }

  lemma RecognizedParentsAreAmbiguous(g: Graph, classes: ClassExtends, t: string)
    requires NoDuplicates(Parents(g, t)) && forall p :: p in Parents(g, t) ==> p in classes
    ensures Unambiguous(g, classes, t) <==> |Parents(g, t)| <= 1
  {
    var ps := Parents(g, t);
    if |ps| > 1 {
      assert ps[0] in ps && ps[1] in ps && ps[0] != ps[1];
    }
  }

  // ---------- lists shared with the ones that lookups append to ----------

  /** `t` has a parent that has a recognized parent. */
  ghost predicate HasRecognizedGrandparent(g: Graph, classes: ClassExtends, t: string) {
    exists p :: p in Parents(g, t) && !NoneRecognized(classes, Parents(g, p))
  }

  /** Nothing recognized lies above an ancestor of `t`. */
  ghost predicate Shallow(g: Graph, classes: ClassExtends, t: string) {
    forall x, y :: IsAncestor(g, t, x) && IsAncestor(g, x, y) ==> y !in classes
  }

  lemma NoGrandparentIsShallow(g: Graph, classes: ClassExtends, t: string)
    requires (forall u :: u in g ==> u in classes) && !HasRecognizedGrandparent(g, classes, t)
    ensures Shallow(g, classes, t)
  {
    forall x, y | IsAncestor(g, t, x) && IsAncestor(g, x, y)
      ensures y !in classes
    {
      var p := AncestorByParent(g, t, x);
      if p != x { AncestorTransitive(g, p, x, y); }
      var q := AncestorByParent(g, p, y);
      assert q !in classes;
      if q != y { var z := AncestorByParent(g, q, y); }
    }
  }

  /** Of the recognized types, the lists hold only those that were loaded. */
  ghost predicate AddsUnrecognized(classes: ClassExtends, g0: Graph, g: Graph) {
    g.Keys == g0.Keys && forall t, x :: t in g && x in g[t] && x in classes ==> x in g0[t]
  }

  lemma {:induction false} ShallowWalk(g0: Graph, classes: ClassExtends, g: Graph, t: string)
    requires Acyclic(g0) && Within(g0, g) && Shallow(g0, classes, t) && AddsUnrecognized(classes, g0, g)
    ensures AddsUnrecognized(classes, g0, Walk(g0, g, t))
    decreases Rank(g0, t), 1, 0
  {
    if t in g {
      ShallowPushes(g0, classes, g, t, g[t]);
    }
  }

  lemma {:induction false} ShallowPushes(g0: Graph, classes: ClassExtends, g: Graph, t: string, todo: seq<string>)
    requires Acyclic(g0) && Within(g0, g) && t in g && Shallow(g0, classes, t) && AddsUnrecognized(classes, g0, g)
    requires forall x :: x in todo ==> IsAncestor(g0, t, x)
    ensures AddsUnrecognized(classes, g0, Pushes(g0, g, t, todo))
    decreases Rank(g0, t), 0, |todo|
  {
    if todo != [] {
      var x := todo[0];
      RankFalls(g0, t, x);
      ShallowAbove(g0, classes, t, x);
      ShallowWalk(g0, classes, g, x);
      var g1 := Walk(g0, g, x);
      PushStaysWithin(g0, g, g1, t, x);
      ShallowPush(g0, classes, g1, t, x);
      assert forall y :: y in todo[1..] ==> y in todo;
      ShallowPushes(g0, classes, g1[t := g1[t] + Parents(g1, x)], t, todo[1..]);
    }
  }

  lemma ShallowAbove(g: Graph, classes: ClassExtends, t: string, x: string)
    requires Shallow(g, classes, t) && IsAncestor(g, t, x)
    ensures Shallow(g, classes, x)
  {
    forall y, z | IsAncestor(g, x, y) && IsAncestor(g, y, z)
      ensures z !in classes
    {
      AncestorTransitive(g, t, x, y);
    }
  }

  lemma ShallowPush(g0: Graph, classes: ClassExtends, g: Graph, t: string, x: string)
    requires Within(g0, g) && t in g && Shallow(g0, classes, t) && IsAncestor(g0, t, x) && AddsUnrecognized(classes, g0, g)
    ensures AddsUnrecognized(classes, g0, g[t := g[t] + Parents(g, x)])
  {
    forall y | y in Parents(g, x)
      ensures y !in classes
    {
      assert IsAncestor(g0, x, y);
    }
  }

  lemma {:induction false} ShallowCalls(g0: Graph, classes: ClassExtends, g: Graph, calls: seq<string>)
    requires Acyclic(g0) && Within(g0, g) && AddsUnrecognized(classes, g0, g)
    requires forall t :: t in calls ==> Shallow(g0, classes, t)
    ensures AddsUnrecognized(classes, g0, WalkAll(g0, g, calls))
    decreases |calls|
  {
    if calls != [] {
      assert calls[0] in calls && forall t :: t in calls[1..] ==> t in calls;
      ShallowWalk(g0, classes, g, calls[0]);
      ShallowCalls(g0, classes, Walk(g0, g, calls[0]), calls[1..]);
    }
  }

  lemma SharedListsAreWithin(g: Graph, classes: ClassExtends, calls: seq<string>)
    requires Acyclic(g) && SameLists(AfterCalls(g, calls), classes)
    ensures ClassesWithin(g, classes)
  {
    var h := AfterCalls(g, calls);
    forall t, p | t in classes && classes[t].Some? && p in classes[t].value
      ensures IsAncestor(g, t, p)
    {
      assert p in Parents(h, t);
    }
  }

  /** A lookup of a type with a recognized grandparent leaves a list whose last recognized type is
      not its parent. */
  lemma DeepCallBreaksPrecedence(g: Graph, classes: ClassExtends, calls: seq<string>, t: string)
      returns (data: OverwriteData, keys: seq<string>)
    requires Acyclic(g) && SingleInheritance(g) && SameLists(AfterCalls(g, calls), classes)
    requires t in calls && HasRecognizedGrandparent(g, classes, t)
    ensures ClassesWithin(g, classes)
    ensures Enumerates(keys, data) && !SameAnswers(g, data, Flatten(g, classes, data, [], keys))
  {
    SharedListsAreWithin(g, classes, calls);
    var list := AfterCalls(g, calls)[t];
    var p :| p in Parents(g, t) && !NoneRecognized(classes, Parents(g, p));
    var q :| q in Parents(g, p) && q in classes;
    LoadedIsWithin(g);
    CalledListIsComplete(g, g, calls, t, p, q);
    CallsGrow(g, g, calls);
    var i := LastIsBeyondLoaded(classes, g[t], list, q);
    FirstParentFirst(g, t);
    data, keys := LastListedBreaksPrecedence(g, classes, t, g[t][0], i);
  }

  lemma LastIsBeyondLoaded(classes: ClassExtends, loaded: seq<string>, list: seq<string>, q: string) returns (i: nat)
    requires GrownAt(loaded, loaded, list) && q in list && q !in loaded && q in classes
    ensures LastRecognized(classes, list, i) && list[i] !in loaded
  {
    var n := |loaded|;
    assert list == loaded + list[n..];
    var j := SomeIsLast(classes, list[n..]);
    i := n + j;
    assert list[n..][j + 1..] == list[i + 1..];
    assert list[i] in list[n..];
  }

  /** Once `t` was called, its list has the grandparent `q`, which the loaded list lacks. */
  lemma {:induction false} CalledListIsComplete(g0: Graph, g: Graph, calls: seq<string>, t: string, p: string, q: string)
    requires Acyclic(g0) && SingleInheritance(g0) && Within(g0, g) && Settled(g0, g)
    requires t in calls && p in Parents(g0, t) && q in Parents(g0, p)
    ensures q in Parents(WalkAll(g0, g, calls), t) && q !in g0[t]
    decreases |calls|
  {
    var next := Walk(g0, g, calls[0]);
    WalkSettles(g0, g, calls[0]);
    if calls[0] == t {
      ParentIsAncestor(g0, t, p);
      ParentIsAncestor(g0, p, q);
      AncestorTransitive(g0, t, p, q);
      AboveAncestorIsNoParent(g0, t, p, q);
      OrderIsAncestors(g0, t, q);
      assert q in next[t];
      KeepsElements(g0, next, calls[1..], t, q);
    } else {
      CalledListIsComplete(g0, next, calls[1..], t, p, q);
    }
  }

  lemma KeepsElements(g0: Graph, g: Graph, calls: seq<string>, t: string, q: string)
    requires Acyclic(g0) && SingleInheritance(g0) && Within(g0, g) && t in g && q in g[t]
    ensures q in WalkAll(g0, g, calls)[t]
  {
    CallsGrow(g0, g, calls);
    assert q in WalkAll(g0, g, calls)[t][..|g[t]|];
  }

  /** With single inheritance and class-level lists that are the very lists lookups append to,
      precedence survives a sequence of lookups exactly if none of them was for a type with a
      recognized grandparent; where all parents are recognized, exactly if no list has grown. */
  lemma SharedListsKeepPrecedenceIff(g: Graph, classes: ClassExtends, calls: seq<string>)
    requires Acyclic(g) && SingleInheritance(g) && SameLists(AfterCalls(g, calls), classes)
    ensures ClassesWithin(g, classes)
    ensures PrecedenceLaw(g, classes) <==> forall t :: t in calls ==> !HasRecognizedGrandparent(g, classes, t)
    ensures (forall t, p :: p in Parents(g, t) ==> p in classes) ==>
              (PrecedenceLaw(g, classes) <==> AfterCalls(g, calls) == g)
  {
    SharedListsAreWithin(g, classes, calls);
    if t :| t in calls && HasRecognizedGrandparent(g, classes, t) {
      var data, keys := DeepCallBreaksPrecedence(g, classes, calls, t);
    } else {
      ShallowCallsKeepPrecedence(g, classes, calls);
    }
    if forall t, p :: p in Parents(g, t) ==> p in classes {
      GrandparentsAreRecognized(g, classes, calls);
      ListsStayIff(g, calls);
    }
  }

  lemma GrandparentsAreRecognized(g: Graph, classes: ClassExtends, calls: seq<string>)
    requires forall t, p :: p in Parents(g, t) ==> p in classes
    ensures forall t :: HasRecognizedGrandparent(g, classes, t) <==> HasGrandparent(g, t)
  {
    forall t
      ensures HasRecognizedGrandparent(g, classes, t) <==> HasGrandparent(g, t)
    {
      if p :| p in Parents(g, t) && Parents(g, p) != [] {
        assert Parents(g, p)[0] in Parents(g, p);
      }
    }
  }

  lemma ShallowCallsKeepPrecedence(g: Graph, classes: ClassExtends, calls: seq<string>)
    requires Acyclic(g) && SingleInheritance(g) && SameLists(AfterCalls(g, calls), classes)
    requires forall t :: t in calls ==> !HasRecognizedGrandparent(g, classes, t)
    ensures ClassesWithin(g, classes) && PrecedenceLaw(g, classes)
  {
    SharedListsAreWithin(g, classes, calls);
    LoadedIsWithin(g);
    forall t | t in calls
      ensures Shallow(g, classes, t)
    {
      NoGrandparentIsShallow(g, classes, t);
    }
    ShallowCalls(g, classes, g, calls);
    assert RecognizedLists(g, classes);
    SingleIsUnambiguous(g, classes);
    forall data: OverwriteData, keys: seq<string> | Enumerates(keys, data)
      ensures SameAnswers(g, data, Flatten(g, classes, data, [], keys))
    {
      UnambiguousKeepsAnswers(g, classes, data, keys);
    }
  }

  /** One lookup of a chain of three is enough: with `c` under `b` under `a`, the shared lists
      break precedence. */
  lemma SharedListsBreakPrecedence()
    ensures Acyclic(Chain())
    ensures var h := AfterCalls(Chain(), ["c"]);
            "c" in h && "b" in h
            && var classes: ClassExtends := map["c" := Some(h["c"]), "b" := Some(h["b"]), "a" := None];
               ClassesWithin(Chain(), classes) && !PrecedenceLaw(Chain(), classes)
  {
    ChainIsAcyclic();
    var h := AfterCalls(Chain(), ["c"]);
    var classes: ClassExtends := map["c" := Some(h["c"]), "b" := Some(h["b"]), "a" := None];
    assert SameLists(h, classes);
    ChainHasGrandparent(classes);
    hide *;
    SharedListsKeepPrecedenceIff(Chain(), classes, ["c"]);
    assert "c" in ["c"];
  }

  lemma ChainHasGrandparent(classes: ClassExtends)
    requires "a" in classes
    ensures HasRecognizedGrandparent(Chain(), classes, "c")
  {
    assert "b" in Parents(Chain(), "c") && "a" in Parents(Chain(), "b");
  }
}
