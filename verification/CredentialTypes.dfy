/**
 `getParentTypes` walks up the `extends` lists and appends what it finds to the very lists it
 walks. The state after a call is the function `Walk`; the lemmas show that the appended
 repetitions never change the order in which a caller meets the ancestors first.
 */
module CredentialInheritance {
  import opened ExtendsGraph

  // ---------- specification of the mutating walk ----------

  /** Every list of `g` holds proper ancestors of its type in the loaded graph `g0`. */
  ghost predicate Within(g0: Graph, g: Graph) {
    g.Keys == g0.Keys && forall t, x :: t in g && x in g[t] ==> IsAncestor(g0, t, x)
  }

  /** Only the list of `t` and the lists of its ancestors may differ. */
  ghost predicate ChangesUpFrom(g0: Graph, t: string, g: Graph, r: Graph)
    requires g.Keys == r.Keys
  {
    forall u :: u in g && r[u] != g[u] ==> u == t || IsAncestor(g0, t, u)
  }

  /** The lists after `getParentTypes(t)`. */
  ghost function Walk(g0: Graph, g: Graph, t: string): (r: Graph)
    requires Acyclic(g0) && Within(g0, g)
    ensures Within(g0, r) && ChangesUpFrom(g0, t, g, r)
    decreases Rank(g0, t), 1, 0
  {
    if t in g then Pushes(g0, g, t, g[t]) else g
  }

  /** The rest of the `forEach` over the elements the list of `t` had at the start. */
  ghost function Pushes(g0: Graph, g: Graph, t: string, todo: seq<string>): (r: Graph)
    requires Acyclic(g0) && Within(g0, g) && t in g
    requires forall x :: x in todo ==> IsAncestor(g0, t, x)
    ensures Within(g0, r) && ChangesUpFrom(g0, t, g, r)
    decreases Rank(g0, t), 0, |todo|
  {
    if todo == [] then g else
      var x := todo[0];
      RankFalls(g0, t, x);
      var g1 := Walk(g0, g, x);
      var g2 := g1[t := g1[t] + Parents(g1, x)];
      PushStaysWithin(g0, g, g1, t, x);
      assert forall y :: y in todo[1..] ==> y in todo;
      Pushes(g0, g2, t, todo[1..])
  }

  lemma PushStaysWithin(g0: Graph, g: Graph, g1: Graph, t: string, x: string)
    requires Acyclic(g0) && Within(g0, g) && Within(g0, g1) && t in g
    requires IsAncestor(g0, t, x) && ChangesUpFrom(g0, x, g, g1)
    ensures g1[t] == g[t]
    ensures Within(g0, g1[t := g1[t] + Parents(g1, x)])
    ensures forall u :: u in g && g1[u] != g[u] ==> IsAncestor(g0, t, u)
  {
    forall u | u == x || IsAncestor(g0, x, u)
      ensures IsAncestor(g0, t, u)
    {
      if u != x { AncestorTransitive(g0, t, x, u); }
    }
    forall y | y in Parents(g1, x)
      ensures IsAncestor(g0, t, y)
    {
      AncestorTransitive(g0, t, x, y);
    }
  }

  lemma LoadedIsWithin(g0: Graph)
    requires Acyclic(g0)
    ensures Within(g0, g0)
  {
    forall t, x | t in g0 && x in g0[t]
      ensures IsAncestor(g0, t, x)
    {
      ParentIsAncestor(g0, t, x);
    }
  }

  lemma NextPush(g0: Graph, g: Graph, t: string, initial: seq<string>, i: nat)
    requires Acyclic(g0) && Within(g0, g) && t in g && i < |initial|
    requires forall x :: x in initial[i..] ==> IsAncestor(g0, t, x)
    ensures Rank(g0, initial[i]) < Rank(g0, t) && initial[i] != t
    ensures forall x :: x in initial[i + 1..] ==> IsAncestor(g0, t, x)
    ensures var g1 := Walk(g0, g, initial[i]);
            var g2 := g1[t := g1[t] + Parents(g1, initial[i])];
            && Within(g0, g2)
            && Pushes(g0, g, t, initial[i..]) == Pushes(g0, g2, t, initial[i + 1..])
  {
    var x := initial[i];
    assert initial[i..][0] == x && initial[i..][1..] == initial[i + 1..];
    assert forall y :: y in initial[i + 1..] ==> y in initial[i..];
    RankFalls(g0, t, x);
    PushStaysWithin(g0, g, Walk(g0, g, x), t, x);
  }

  // ---------- the lookup order never drifts ----------

  /** Each list is as loaded, or meets the ancestors of its type in lookup order. */
  ghost predicate Settled(g0: Graph, g: Graph)
    requires Acyclic(g0)
  {
    g.Keys == g0.Keys && forall t :: t in g ==> SettledAt(g0, g, t)
  }

  ghost predicate SettledAt(g0: Graph, g: Graph, t: string)
    requires Acyclic(g0) && t in g && t in g0
  {
    g[t] == g0[t] || Dedupe(g[t]) == Order(g0, t)
  }

  lemma {:induction false} WalkSettles(g0: Graph, g: Graph, t: string)
    requires Acyclic(g0) && Within(g0, g) && Settled(g0, g)
    ensures Settled(g0, Walk(g0, g, t))
    ensures Dedupe(Parents(Walk(g0, g, t), t)) == Order(g0, t)
    decreases Rank(g0, t), 1, 0
  {
    if t in g {
      var r := Walk(g0, g, t);
      PushesInOrder(g0, g, t, g[t]);
      if g[t] != g0[t] {
        var rest := OrderOfAll(g0, t, g[t]);
        forall a | a in rest
          ensures a in g[t]
        {
          InOrderOfAll(g0, t, g[t], a);
          var x :| x in g[t] && a in Order(g0, x);
          OrderIsAncestors(g0, x, a);
          AncestorTransitive(g0, t, x, a);
          OrderIsAncestors(g0, t, a);
        }
        DedupeAbsorbs(g[t], rest);
      }
      forall u | u in r
        ensures SettledAt(g0, r, u)
      {
      }
    }
  }

  lemma {:induction false} PushesInOrder(g0: Graph, g: Graph, t: string, todo: seq<string>)
    requires Acyclic(g0) && Within(g0, g) && t in g
    requires forall u :: u in g && u != t ==> SettledAt(g0, g, u)
    requires forall x :: x in todo ==> IsAncestor(g0, t, x)
    ensures var r := Pushes(g0, g, t, todo);
            && (forall u :: u in r && u != t ==> SettledAt(g0, r, u))
            && Dedupe(r[t]) == Dedupe(g[t] + OrderOfAll(g0, t, todo))
    decreases Rank(g0, t), 0, |todo|
  {
    if todo == [] {
      assert g[t] + OrderOfAll(g0, t, todo) == g[t];
    } else {
      var x := todo[0];
      RankFalls(g0, t, x);
      var g1 := Walk(g0, g, x);
      var found := Parents(g1, x);
      var g2 := g1[t := g1[t] + found];
      PushStaysWithin(g0, g, g1, t, x);
      OtherListsSettle(g0, g, t, x);
      SettledExceptAt(g0, g1, t, g2[t]);
      assert forall y :: y in todo[1..] ==> y in todo;
      PushesInOrder(g0, g2, t, todo[1..]);
      OneStepInOrder(g0, t, todo, g[t], found);
    }
  }

  lemma SettledExceptAt(g0: Graph, g: Graph, t: string, list: seq<string>)
    requires Acyclic(g0) && g.Keys == g0.Keys && t in g
    requires forall u :: u in g && u != t ==> SettledAt(g0, g, u)
    ensures forall u :: u in g && u != t ==> SettledAt(g0, g[t := list], u)
  {
  }

  lemma OneStepInOrder(g0: Graph, t: string, todo: seq<string>, list: seq<string>, found: seq<string>)
    requires Acyclic(g0) && todo != []
    requires forall x :: x in todo ==> IsAncestor(g0, t, x)
    requires Dedupe(found) == Order(g0, todo[0])
    ensures forall x :: x in todo[1..] ==> IsAncestor(g0, t, x)
    ensures Dedupe((list + found) + OrderOfAll(g0, t, todo[1..])) == Dedupe(list + OrderOfAll(g0, t, todo))
  {
    assert forall y :: y in todo[1..] ==> y in todo;
    var first, rest := Order(g0, todo[0]), OrderOfAll(g0, t, todo[1..]);
    var all := OrderOfAll(g0, t, todo);
    assert all == first + rest;
    DedupeMiddle(list, found, first, rest);
    Associative(list, first, rest);
  }

  lemma Associative(a: seq<string>, b: seq<string>, c: seq<string>)
    ensures a + (b + c) == a + b + c
  {
  }

  /** While the list of `t` is being extended, a call for one of its ancestors never looks at it. */
  lemma {:induction false} OtherListsSettle(g0: Graph, g: Graph, t: string, x: string)
    requires Acyclic(g0) && Within(g0, g) && t in g && IsAncestor(g0, t, x)
    requires forall u :: u in g && u != t ==> SettledAt(g0, g, u)
    ensures var g1 := Walk(g0, g, x);
            && (forall u :: u in g1 && u != t ==> SettledAt(g0, g1, u))
            && Dedupe(Parents(g1, x)) == Order(g0, x)
    decreases Rank(g0, x), 2, 0
  {
    var h := g[t := g0[t]];
    LoadedIsWithin(g0);
    assert Within(g0, h);
    assert forall u :: u in h ==> SettledAt(g0, h, u);
    assert !IsAncestor(g0, x, t) && x != t by {
      if IsAncestor(g0, x, t) { AncestorTransitive(g0, t, x, t); }
    }
    WalkSettles(g0, h, x);
    WalkIgnores(g0, g, h, t, x);
    var g1, h1 := Walk(g0, g, x), Walk(g0, h, x);
    forall u | u in g1 && u != t
      ensures SettledAt(g0, g1, u)
    {
      assert SettledAt(g0, h1, u) && g1[u] == h1[u];
    }
  }

  /** The list of a type below `x` has no effect on the walk from `x`. */
  lemma {:induction false} WalkIgnores(g0: Graph, g: Graph, h: Graph, t: string, x: string)
    requires Acyclic(g0) && Within(g0, g) && Within(g0, h)
    requires x != t && !IsAncestor(g0, x, t)
    requires forall u :: u in g && u != t ==> g[u] == h[u]
    ensures forall u :: u in g && u != t ==> Walk(g0, g, x)[u] == Walk(g0, h, x)[u]
    decreases Rank(g0, x), 1, 0
  {
    if x in g {
      PushesIgnore(g0, g, h, t, x, g[x]);
    }
  }

  lemma {:induction false} PushesIgnore(g0: Graph, g: Graph, h: Graph, t: string, x: string, todo: seq<string>)
    requires Acyclic(g0) && Within(g0, g) && Within(g0, h) && x in g
    requires x != t && !IsAncestor(g0, x, t)
    requires forall u :: u in g && u != t ==> g[u] == h[u]
    requires forall y :: y in todo ==> IsAncestor(g0, x, y)
    ensures forall u :: u in g && u != t ==> Pushes(g0, g, x, todo)[u] == Pushes(g0, h, x, todo)[u]
    decreases Rank(g0, x), 0, |todo|
  {
    if todo != [] {
      var y := todo[0];
      RankFalls(g0, x, y);
      if IsAncestor(g0, y, t) { AncestorTransitive(g0, x, y, t); }
      WalkIgnores(g0, g, h, t, y);
      var g1, h1 := Walk(g0, g, y), Walk(g0, h, y);
      PushStaysWithin(g0, g, g1, x, y);
      PushStaysWithin(g0, h, h1, x, y);
      assert forall z :: z in todo[1..] ==> z in todo;
      PushesIgnore(g0, g1[x := g1[x] + Parents(g1, y)], h1[x := h1[x] + Parents(h1, y)], t, x, todo[1..]);
    }
  }

  lemma DedupeMiddle(a: seq<string>, r: seq<string>, o: seq<string>, b: seq<string>)
    requires Dedupe(r) == o
    ensures Dedupe(a + r + b) == Dedupe(a + o + b)
  {
    DedupeHasNoDuplicates(r);
    DedupeOfDistinct(o);
    DedupeConcat(a, r);
    DedupeConcat(a, o);
    DedupeConcat(a + r, b);
    DedupeConcat(a + o, b);
  }

  /** The lists after a sequence of calls. */
  ghost function WalkAll(g0: Graph, g: Graph, calls: seq<string>): (r: Graph)
    requires Acyclic(g0) && Within(g0, g)
    ensures Within(g0, r)
  {
    if calls == [] then g else WalkAll(g0, Walk(g0, g, calls[0]), calls[1..])
  }

  /** The lists after a sequence of calls, from the lists as loaded. */
  ghost function AfterCalls(g: Graph, calls: seq<string>): (r: Graph)
    requires Acyclic(g)
    ensures Within(g, r)
  {
    LoadedIsWithin(g);
    WalkAll(g, g, calls)
  }

  lemma {:induction false} CallsSettle(g0: Graph, g: Graph, calls: seq<string>)
    requires Acyclic(g0) && Within(g0, g) && Settled(g0, g)
    ensures Settled(g0, WalkAll(g0, g, calls))
  {
    if calls != [] {
      WalkSettles(g0, g, calls[0]);
      CallsSettle(g0, Walk(g0, g, calls[0]), calls[1..]);
    }
  }

  /** After any calls for any names, a call for `t` returns exactly the proper ancestors of `t`
      in the loaded graph, and meets them in an order fixed by that graph alone. */
  lemma LookupNeverDrifts(g0: Graph, calls: seq<string>, t: string)
    requires Acyclic(g0)
    ensures Within(g0, g0)
    ensures var found := Parents(Walk(g0, WalkAll(g0, g0, calls), t), t);
            && Dedupe(found) == Order(g0, t)
            && forall a :: a in found <==> IsAncestor(g0, t, a)
  {
    LoadedIsWithin(g0);
    CallsSettle(g0, g0, calls);
    WalkSettles(g0, WalkAll(g0, g0, calls), t);
    var found := Parents(Walk(g0, WalkAll(g0, g0, calls), t), t);
    forall a
      ensures a in found <==> IsAncestor(g0, t, a)
    {
      assert a in found <==> a in Dedupe(found);
      OrderIsAncestors(g0, t, a);
    }
  }

  /** `c` under `b` under `a`. */
  ghost function Chain(): Graph {
    map["c" := ["b"], "b" := ["a"]]
  }

  lemma ChainIsAcyclic()
    ensures Acyclic(Chain()) && Within(Chain(), Chain()) && SingleInheritance(Chain())
    ensures IsAncestor(Chain(), "c", "b") && IsAncestor(Chain(), "b", "a") && IsAncestor(Chain(), "c", "a")
  {
    var g := Chain();
    forall t
      ensures !IsAncestor(g, t, t)
    {
      if IsAncestor(g, t, t) {
        var x := AncestorByParent(g, t, t);
        if IsAncestor(g, x, t) {
          var y := AncestorByParent(g, x, t);
          if IsAncestor(g, y, t) { var z := AncestorByParent(g, y, t); }
        }
      }
    }
    LoadedIsWithin(g);
    ParentIsAncestor(g, "c", "b");
    ParentIsAncestor(g, "b", "a");
    AncestorTransitive(g, "c", "b", "a");
  }

  /** A call for `b` changes nothing, whatever the list of `c` holds. */
  lemma ChainCallOfB(g: Graph)
    requires Acyclic(Chain()) && Within(Chain(), g) && g["b"] == ["a"]
    requires IsAncestor(Chain(), "b", "a")
    ensures Walk(Chain(), g, "b") == g
  {
    hide Acyclic, IsAncestor;
    OneMorePush(Chain(), g, "b", "a");
    assert g["b"] + [] == g["b"] && g["b" := g["b"]] == g;
  }

  /** In a call for `c`, each `b` adds an `a`, and each `a` adds nothing. */
  lemma ChainPushes(g: Graph, todo: seq<string>)
    requires Acyclic(Chain()) && Within(Chain(), g) && g["b"] == ["a"]
    requires IsAncestor(Chain(), "b", "a") && IsAncestor(Chain(), "c", "b") && IsAncestor(Chain(), "c", "a")
    requires todo == ["b"] || todo == ["b", "a"]
    ensures Pushes(Chain(), g, "c", todo) == g["c" := g["c"] + ["a"]]
  {
    hide Acyclic, IsAncestor;
    ChainCallOfB(g);
    var next := g["c" := g["c"] + ["a"]];
    OneMorePush(Chain(), g, "c", "b");
    if todo == ["b", "a"] {
      assert Within(Chain(), next);
      OneMorePush(Chain(), next, "c", "a");
      RankFalls(Chain(), "c", "b");
      assert todo[1..] == ["a"];
      assert next["c"] + [] == next["c"] && next["c" := next["c"]] == next;
      assert Pushes(Chain(), g, "c", todo) == Pushes(Chain(), next, "c", ["a"]);
    }
  }

  /** The lists themselves do drift: a second call for `c` returns more elements than the first. */
  lemma ListsGrow()
    ensures Acyclic(Chain()) && Within(Chain(), Chain())
    ensures Walk(Chain(), Chain(), "c") == map["c" := ["b", "a"], "b" := ["a"]]
    ensures Walk(Chain(), Walk(Chain(), Chain(), "c"), "c")["c"] == ["b", "a", "a"]
  {
    ChainIsAcyclic();
    hide Acyclic, IsAncestor, Pushes;
    ChainPushes(Chain(), ["b"]);
    var once := Walk(Chain(), Chain(), "c");
    assert ["b"] + ["a"] == ["b", "a"];
    assert once == Chain()["c" := ["b", "a"]];
    assert once == map["c" := ["b", "a"], "b" := ["a"]];
    ChainPushes(once, once["c"]);
    assert Walk(Chain(), once, "c")["c"] == ["b", "a"] + ["a"];
  }

  lemma OneMorePush(g0: Graph, g: Graph, t: string, x: string)
    requires Acyclic(g0) && Within(g0, g) && t in g && IsAncestor(g0, t, x)
    ensures var g1 := Walk(g0, g, x);
            Pushes(g0, g, t, [x]) == g1[t := g1[t] + Parents(g1, x)]
  {
    var g1 := Walk(g0, g, x);
    PushStaysWithin(g0, g, g1, t, x);
    RankFalls(g0, t, x);
    assert [x][1..] == [];
  }

  // ---------- how the lists grow ----------

  /** Each list of `h` is the one of `g` followed by elements that the loaded list lacks. */
  ghost predicate Grown(g0: Graph, g: Graph, h: Graph) {
    g.Keys == h.Keys == g0.Keys && forall t :: t in g ==> GrownAt(g0[t], g[t], h[t])
  }

  ghost predicate GrownAt(loaded: seq<string>, before: seq<string>, after: seq<string>) {
    |before| <= |after| && after[..|before|] == before && forall x :: x in after[|before|..] ==> x !in loaded
  }

  lemma GrownTwice(loaded: seq<string>, a: seq<string>, b: seq<string>, c: seq<string>)
    requires GrownAt(loaded, a, b) && GrownAt(loaded, b, c)
    ensures GrownAt(loaded, a, c)
  {
    assert c[..|a|] == b[..|a|];
    assert c[|a|..] == b[|a|..] + c[|b|..];
  }

  lemma GraphGrownTwice(g0: Graph, a: Graph, b: Graph, c: Graph)
    requires Grown(g0, a, b) && Grown(g0, b, c)
    ensures Grown(g0, a, c)
  {
    forall t | t in a
      ensures GrownAt(g0[t], a[t], c[t])
    {
      GrownTwice(g0[t], a[t], b[t], c[t]);
    }
  }

  /** With single inheritance a call only appends, and never what the loaded list has. */
  lemma {:induction false} WalkGrows(g0: Graph, g: Graph, t: string)
    requires Acyclic(g0) && SingleInheritance(g0) && Within(g0, g)
    ensures Grown(g0, g, Walk(g0, g, t))
    decreases Rank(g0, t), 1, 0
  {
    if t in g {
      PushesGrow(g0, g, t, g[t]);
    }
  }

  lemma {:induction false} PushesGrow(g0: Graph, g: Graph, t: string, todo: seq<string>)
    requires Acyclic(g0) && SingleInheritance(g0) && Within(g0, g) && t in g
    requires forall x :: x in todo ==> IsAncestor(g0, t, x)
    ensures Grown(g0, g, Pushes(g0, g, t, todo))
    decreases Rank(g0, t), 0, |todo|
  {
    if todo != [] {
      var x := todo[0];
      RankFalls(g0, t, x);
      WalkGrows(g0, g, x);
      var g1 := Walk(g0, g, x);
      var g2 := g1[t := g1[t] + Parents(g1, x)];
      PushStaysWithin(g0, g, g1, t, x);
      OnePushGrows(g0, g1, t, x);
      assert forall y :: y in todo[1..] ==> y in todo;
      PushesGrow(g0, g2, t, todo[1..]);
      GraphGrownTwice(g0, g, g1, g2);
      GraphGrownTwice(g0, g, g2, Pushes(g0, g, t, todo));
    }
  }

  lemma OnePushGrows(g0: Graph, g: Graph, t: string, x: string)
    requires Acyclic(g0) && SingleInheritance(g0) && Within(g0, g) && t in g && IsAncestor(g0, t, x)
    ensures Grown(g0, g, g[t := g[t] + Parents(g, x)])
  {
    forall y | y in Parents(g, x)
      ensures y !in g0[t]
    {
      AboveAncestorIsNoParent(g0, t, x, y);
    }
    assert (g[t] + Parents(g, x))[|g[t]|..] == Parents(g, x);
  }

  lemma {:induction false} CallsGrow(g0: Graph, g: Graph, calls: seq<string>)
    requires Acyclic(g0) && SingleInheritance(g0) && Within(g0, g)
    ensures Grown(g0, g, WalkAll(g0, g, calls))
    decreases |calls|
  {
    if calls != [] {
      WalkGrows(g0, g, calls[0]);
      CallsGrow(g0, Walk(g0, g, calls[0]), calls[1..]);
      GraphGrownTwice(g0, g, Walk(g0, g, calls[0]), WalkAll(g0, g, calls));
    }
  }

  /** `t` has a parent that has a parent. */
  ghost predicate HasGrandparent(g: Graph, t: string) {
    exists p :: p in Parents(g, t) && Parents(g, p) != []
  }

  lemma {:induction false} FlatPushesStay(g0: Graph, t: string, todo: seq<string>)
    requires Acyclic(g0) && Within(g0, g0) && t in g0 && !HasGrandparent(g0, t)
    requires forall x :: x in todo ==> x in g0[t] && IsAncestor(g0, t, x)
    ensures Pushes(g0, g0, t, todo) == g0
    decreases |todo|
  {
    if todo != [] {
      var x := todo[0];
      RankFalls(g0, t, x);
      assert x in todo && x in Parents(g0, t) && Parents(g0, x) == [];
      assert Walk(g0, g0, x) == g0;
      assert g0[t] + Parents(g0, x) == g0[t];
      assert g0[t := g0[t]] == g0;
      assert forall y :: y in todo[1..] ==> y in todo;
      FlatPushesStay(g0, t, todo[1..]);
    }
  }

  lemma FlatCallStays(g0: Graph, t: string)
    requires Acyclic(g0) && Within(g0, g0) && !HasGrandparent(g0, t)
    ensures Walk(g0, g0, t) == g0
  {
    if t in g0 {
      FlatPushesStay(g0, t, g0[t]);
    }
  }

  /** A call for a type with a grandparent leaves a list that is not the loaded one, for good. */
  lemma DeepCallGrows(g0: Graph, g: Graph, t: string, calls: seq<string>)
    requires Acyclic(g0) && SingleInheritance(g0) && Within(g0, g) && Settled(g0, g) && HasGrandparent(g0, t)
    ensures WalkAll(g0, Walk(g0, g, t), calls) != g0
  {
    var p :| p in Parents(g0, t) && Parents(g0, p) != [];
    var q := Parents(g0, p)[0];
    var next := Walk(g0, g, t);
    ParentIsAncestor(g0, t, p);
    ParentIsAncestor(g0, p, q);
    AncestorTransitive(g0, t, p, q);
    AboveAncestorIsNoParent(g0, t, p, q);
    WalkSettles(g0, g, t);
    OrderIsAncestors(g0, t, q);
    assert q in next[t];
    CallsGrow(g0, next, calls);
    var last := WalkAll(g0, next, calls);
    assert q in last[t][..|next[t]|];
  }

  /** With single inheritance the stored lists stay as loaded through a sequence of calls exactly
      if none of the called types has a grandparent. */
  lemma {:induction false} ListsStayIff(g0: Graph, calls: seq<string>)
    requires Acyclic(g0) && SingleInheritance(g0)
    ensures AfterCalls(g0, calls) == g0 <==> forall t :: t in calls ==> !HasGrandparent(g0, t)
    decreases |calls|
  {
    LoadedIsWithin(g0);
    if calls != [] {
      assert forall t :: t in calls <==> t == calls[0] || t in calls[1..];
      if HasGrandparent(g0, calls[0]) {
        DeepCallGrows(g0, g0, calls[0], calls[1..]);
      } else {
        FlatCallStays(g0, calls[0]);
        ListsStayIff(g0, calls[1..]);
      }
    }
  }

  // ---------- the service ----------

  /** A list shared by reference, like the JavaScript array it stands for. */
  class ExtendsList {
    var items: seq<string>

    constructor (items: seq<string>)
      ensures this.items == items
    {
      this.items := items;
    }
  }

  class CredentialTypes {
    // `known.credentials[t].extends`, null where the type extends nothing
    var known: map<string, ExtendsList?>
    // the graph as it was loaded
    ghost const loaded: Graph

    constructor (known: map<string, ExtendsList?>)
      requires NotShared(known)
      requires Acyclic(GraphOf(known))
      ensures this.known == known && loaded == GraphOf(known) && Valid()
    {
      this.known := known;
      this.loaded := GraphOf(known);
      new;
      LoadedIsWithin(loaded);
    }

    static ghost predicate NotShared(known: map<string, ExtendsList?>) {
      forall t, u :: t in known && u in known && t != u && known[t] != null ==> known[t] != known[u]
    }

    static ghost function GraphOf(known: map<string, ExtendsList?>): Graph
      reads known.Values
    {
      map t | t in known :: if known[t] == null then [] else known[t].items
    }

    ghost function Snapshot(): Graph
      reads this, known.Values
    {
      GraphOf(known)
    }

    ghost predicate Valid()
      reads this, known.Values
    {
      NotShared(known) && Acyclic(loaded) && Within(loaded, Snapshot())
    }

    /** The `forEach` pushes onto the list it iterates over, and visits only the elements
        that were there when it started. The result is the stored list itself, or a new
        empty list where there is none. */
    method GetParentTypes(typeName: string) returns (list: ExtendsList)
      requires Valid()
      modifies known.Values
      ensures Valid()
      ensures Snapshot() == Walk(loaded, old(Snapshot()), typeName)
      ensures list.items == Parents(Snapshot(), typeName)
      ensures typeName in known && known[typeName] != null ==> list == known[typeName]
      ensures typeName !in known || known[typeName] == null ==> fresh(list)
      decreases Rank(loaded, typeName), 0
    {
      if typeName !in known || known[typeName] == null {
        list := new ExtendsList([]);
        return;
      }
      list := known[typeName];
      ghost var g := Snapshot();
      var initial := list.items;
      for i := 0 to |initial|
        invariant Valid()
        invariant forall x :: x in initial[i..] ==> IsAncestor(loaded, typeName, x)
        invariant Pushes(loaded, Snapshot(), typeName, initial[i..]) == Walk(loaded, g, typeName)
      {
        NextPush(loaded, Snapshot(), typeName, initial, i);
        hide Acyclic, IsAncestor, Pushes, Walk, Rank;
        PushParentsOf(initial[i], typeName, list);
      }
    }

    /** The body of the `forEach`. */
    method PushParentsOf(x: string, typeName: string, list: ExtendsList)
      requires Valid()
      requires typeName in known && known[typeName] == list && IsAncestor(loaded, typeName, x)
      requires x != typeName
      modifies known.Values
      ensures Valid()
      ensures var g := Walk(loaded, old(Snapshot()), x);
              Snapshot() == g[typeName := g[typeName] + Parents(g, x)]
      decreases Rank(loaded, x), 1
    {
      ghost var now := Snapshot();
      var found := GetParentTypes(x);
      PushStaysWithin(loaded, now, Snapshot(), typeName, x);
      hide Acyclic, IsAncestor, Walk, Pushes, Rank;
      Append(typeName, list, found);
    }

    /** What was found goes to the end of the list. */
    method Append(typeName: string, list: ExtendsList, found: ExtendsList)
      requires NotShared(known) && typeName in known && known[typeName] == list
      modifies list
      ensures Snapshot() == old(Snapshot())[typeName := old(Snapshot())[typeName] + old(found.items)]
    {
      list.items := list.items + found.items;
    }
  }
}
