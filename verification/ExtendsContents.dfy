/**
 What the `extends` lists hold after any calls of `getParentTypes`, on any acyclic graph.
 */
module ExtendsContents {
  import opened ExtendsGraph
  import opened CredentialInheritance

  /** No list of `h` lacks an element that it has in `g`. */
  ghost predicate Keeps(g: Graph, h: Graph) {
    g.Keys == h.Keys && forall t, x :: t in g && x in g[t] ==> x in h[t]
  }

  /** The list of `t` holds all its ancestors. */
  ghost predicate Complete(g0: Graph, g: Graph, t: string) {
    forall a :: IsAncestor(g0, t, a) ==> a in Parents(g, t)
  }

  ghost predicate CompleteUpFrom(g0: Graph, g: Graph, t: string) {
    Complete(g0, g, t) && forall u :: IsAncestor(g0, t, u) ==> Complete(g0, g, u)
  }

  lemma KeepsTwice(a: Graph, b: Graph, c: Graph)
    requires Keeps(a, b) && Keeps(b, c)
    ensures Keeps(a, c)
  {
  }

  lemma KeepsComplete(g0: Graph, g: Graph, h: Graph, t: string)
    requires Keeps(g, h) && CompleteUpFrom(g0, g, t)
    ensures CompleteUpFrom(g0, h, t)
  {
    assert forall u :: Complete(g0, g, u) ==> Complete(g0, h, u);
  }

  lemma {:induction false} WalkKeeps(g0: Graph, g: Graph, t: string)
    requires Acyclic(g0) && Within(g0, g)
    ensures Keeps(g, Walk(g0, g, t))
    decreases Rank(g0, t), 1, 0
  {
    if t in g {
      PushesKeep(g0, g, t, g[t]);
    }
  }

  lemma {:induction false} PushesKeep(g0: Graph, g: Graph, t: string, todo: seq<string>)
    requires Acyclic(g0) && Within(g0, g) && t in g && forall x :: x in todo ==> IsAncestor(g0, t, x)
    ensures Keeps(g, Pushes(g0, g, t, todo))
    decreases Rank(g0, t), 0, |todo|
  {
    if todo != [] {
      var x := todo[0];
      RankFalls(g0, t, x);
      WalkKeeps(g0, g, x);
      var g1 := Walk(g0, g, x);
      var g2 := g1[t := g1[t] + Parents(g1, x)];
      PushStaysWithin(g0, g, g1, t, x);
      assert forall y :: y in todo[1..] ==> y in todo;
      PushesKeep(g0, g2, t, todo[1..]);
      hide Walk, Acyclic, Within, IsAncestor;
      assert Keeps(g1, g2);
      KeepsTwice(g, g1, g2);
      KeepsTwice(g, g2, Pushes(g0, g, t, todo));
    }
  }

  /** A call completes the lists of its type and of all its ancestors. */
  lemma {:induction false} WalkCompletes(g0: Graph, g: Graph, t: string)
    requires Acyclic(g0) && Within(g0, g) && Keeps(g0, g)
    ensures CompleteUpFrom(g0, Walk(g0, g, t), t)
    decreases Rank(g0, t), 1, 0
  {
    var r := Walk(g0, g, t);
    WalkKeeps(g0, g, t);
    if t in g {
      PushesComplete(g0, g, t, g[t]);
    }
    forall a | IsAncestor(g0, t, a)
      ensures a in Parents(r, t) && Complete(g0, r, a)
    {
      var x := AncestorByParent(g0, t, a);
      assert x in g[t] && x in r[t];
    }
  }

  lemma {:induction false} PushesComplete(g0: Graph, g: Graph, t: string, todo: seq<string>)
    requires Acyclic(g0) && Within(g0, g) && Keeps(g0, g) && t in g && forall x :: x in todo ==> IsAncestor(g0, t, x)
    ensures var r := Pushes(g0, g, t, todo);
            forall x :: x in todo ==> CompleteUpFrom(g0, r, x) && forall a :: IsAncestor(g0, x, a) ==> a in r[t]
    decreases Rank(g0, t), 0, |todo|
  {
    if todo != [] {
      var x, r := todo[0], Pushes(g0, g, t, todo);
      RankFalls(g0, t, x);
      var g1 := Walk(g0, g, x);
      var g2 := g1[t := g1[t] + Parents(g1, x)];
      PushStaysWithin(g0, g, g1, t, x);
      WalkKeeps(g0, g, x);
      WalkCompletes(g0, g, x);
      assert Keeps(g1, g2) && Keeps(g0, g2);
      KeepsComplete(g0, g1, g2, x);
      assert forall y :: y in todo[1..] ==> y in todo;
      PushesKeep(g0, g2, t, todo[1..]);
      PushesComplete(g0, g2, t, todo[1..]);
      KeepsComplete(g0, g2, r, x);
      forall a | IsAncestor(g0, x, a)
        ensures a in r[t]
      {
        assert a in Parents(g1, x) && a in g2[t];
      }
      assert todo == [x] + todo[1..];
    }
  }

  /** `t` was called for, or lies above a type that was. */
  ghost predicate Touched(g: Graph, calls: seq<string>, t: string) {
    exists c :: c in calls && (c == t || IsAncestor(g, c, t))
  }

  lemma WalkFills(g0: Graph, g: Graph, c: string, t: string, a: string)
    requires Acyclic(g0) && Within(g0, g) && Keeps(g0, g)
    ensures a in Parents(Walk(g0, g, c), t) <==>
              a in Parents(g, t) || ((c == t || IsAncestor(g0, c, t)) && IsAncestor(g0, t, a))
  {
    WalkKeeps(g0, g, c);
    WalkCompletes(g0, g, c);
  }

  lemma {:induction false} CallsFill(g0: Graph, g: Graph, calls: seq<string>, t: string, a: string)
    requires Acyclic(g0) && Within(g0, g) && Keeps(g0, g)
    ensures a in Parents(WalkAll(g0, g, calls), t) <==> a in Parents(g, t) || (Touched(g0, calls, t) && IsAncestor(g0, t, a))
    decreases |calls|
  {
    if calls != [] {
      var next := Walk(g0, g, calls[0]);
      WalkKeeps(g0, g, calls[0]);
      WalkFills(g0, g, calls[0], t, a);
      hide Walk, Acyclic, Within, IsAncestor;
      KeepsTwice(g0, g, next);
      TouchedFirst(g0, calls, t);
      hide Touched, Keeps;
      CallsFill(g0, next, calls[1..], t, a);
      assert WalkAll(g0, g, calls) == WalkAll(g0, next, calls[1..]);
    }
  }

  lemma TouchedFirst(g: Graph, calls: seq<string>, t: string)
    requires calls != []
    ensures Touched(g, calls, t) <==> calls[0] == t || IsAncestor(g, calls[0], t) || Touched(g, calls[1..], t)
  {
    assert forall c :: c in calls <==> c == calls[0] || c in calls[1..];
    if calls[0] == t || IsAncestor(g, calls[0], t) {
      assert calls[0] in calls;
    } else if c :| c in calls[1..] && (c == t || IsAncestor(g, c, t)) {
      assert c in calls;
    }
  }

  /** On any acyclic graph and after any calls, the list of a type holds what was loaded, and all
      its ancestors exactly if it was called for or lies above a type that was. */
  lemma ListContents(g: Graph, calls: seq<string>, t: string, a: string)
    requires Acyclic(g)
    ensures a in Parents(AfterCalls(g, calls), t) <==> a in Parents(g, t) || (Touched(g, calls, t) && IsAncestor(g, t, a))
  {
    LoadedIsWithin(g);
    CallsFill(g, g, calls, t, a);
  }
}
