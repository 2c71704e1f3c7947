/**
 The `extends` graph of credential types: paths, ancestors, acyclicity, and the order in
 which a type's ancestors are looked up.
 */
module ExtendsGraph {

  /** The parents listed by each type; a type outside the map lists none. */
  type Graph = map<string, seq<string>>

  function Parents(g: Graph, t: string): seq<string> {
    if t in g then g[t] else []
  }

  // ---------- paths and ancestors ----------

  /** Each element of `p` lists its successor as a parent. */
  ghost predicate IsPath(g: Graph, p: seq<string>) {
    forall i :: 0 <= i < |p| - 1 ==> p[i + 1] in Parents(g, p[i])
  }

  ghost predicate PathFromTo(g: Graph, p: seq<string>, t: string, a: string) {
    |p| >= 2 && p[0] == t && p[|p| - 1] == a && IsPath(g, p)
  }

  /** `a` is a proper ancestor of `t`. */
  ghost predicate IsAncestor(g: Graph, t: string, a: string) {
    exists p :: PathFromTo(g, p, t, a)
  }

  ghost predicate Acyclic(g: Graph) {
    forall t :: !IsAncestor(g, t, t)
  }

  /** No type has two different parents. */
  ghost predicate SingleInheritance(g: Graph) {
    forall t, p, q :: p in Parents(g, t) && q in Parents(g, t) ==> p == q
  }

  lemma ParentIsAncestor(g: Graph, t: string, p: string)
    requires p in Parents(g, t)
    ensures IsAncestor(g, t, p)
  {
    assert PathFromTo(g, [t, p], t, p);
  }

  lemma AncestorTransitive(g: Graph, t: string, a: string, b: string)
    requires IsAncestor(g, t, a) && IsAncestor(g, a, b)
    ensures IsAncestor(g, t, b)
  {
    var p :| PathFromTo(g, p, t, a);
    var q :| PathFromTo(g, q, a, b);
    var r := p + q[1..];
    forall i | 0 <= i < |r| - 1
      ensures r[i + 1] in Parents(g, r[i])
    {
      if i == |p| - 1 {
        assert r[i] == q[0] && r[i + 1] == q[1];
      } else if i >= |p| {
        assert r[i] == q[i - |p| + 1] && r[i + 1] == q[i - |p| + 2];
      }
    }
    assert PathFromTo(g, r, t, b);
  }

  /** An ancestor is a parent, or an ancestor of a parent. */
  lemma AncestorByParent(g: Graph, t: string, a: string) returns (x: string)
    requires IsAncestor(g, t, a)
    ensures x in Parents(g, t) && (x == a || IsAncestor(g, x, a))
  {
    var p :| PathFromTo(g, p, t, a);
    x := p[1];
    assert p[0 + 1] in Parents(g, p[0]);
    if |p| > 2 {
      var q := p[1..];
      forall i | 0 <= i < |q| - 1
        ensures q[i + 1] in Parents(g, q[i])
      {
        assert p[(i + 1) + 1] in Parents(g, p[i + 1]);
      }
      assert PathFromTo(g, q, x, a);
    }
  }

  /** With single inheritance, what lies above an ancestor of `t` is not a parent of `t`. */
  lemma AboveAncestorIsNoParent(g: Graph, t: string, x: string, y: string)
    requires Acyclic(g) && SingleInheritance(g) && IsAncestor(g, t, x) && IsAncestor(g, x, y)
    ensures y !in Parents(g, t)
  {
    var p := AncestorByParent(g, t, x);
    if p != x {
      AncestorTransitive(g, p, x, y);
    }
  }

  // ---------- a rank that falls along every edge ----------

  ghost function Mentioned(g: Graph): set<string> {
    set t, a | t in g && a in g[t] :: a
  }

  ghost function Ancestors(g: Graph, t: string): set<string> {
    set a | a in Mentioned(g) && IsAncestor(g, t, a)
  }

  ghost function Rank(g: Graph, t: string): nat {
    |Ancestors(g, t)|
  }

  lemma AncestorIsMentioned(g: Graph, t: string, a: string)
    requires IsAncestor(g, t, a)
    ensures a in Ancestors(g, t)
  {
    var p :| PathFromTo(g, p, t, a);
    assert p[(|p| - 2) + 1] in Parents(g, p[|p| - 2]);
  }

  lemma RankFalls(g: Graph, t: string, a: string)
    requires Acyclic(g) && IsAncestor(g, t, a)
    ensures Rank(g, a) < Rank(g, t)
  {
    forall b | b in Ancestors(g, a)
      ensures b in Ancestors(g, t)
    {
      AncestorTransitive(g, t, a, b);
    }
    AncestorIsMentioned(g, t, a);
    assert a !in Ancestors(g, a);
    ProperSubsetIsSmaller(Ancestors(g, a), Ancestors(g, t));
  }

  lemma ProperSubsetIsSmaller(a: set<string>, b: set<string>)
    requires a < b
    ensures |a| < |b|
  {
    assert b == a + (b - a);
    assert b - a != {};
  }

  // ---------- first occurrences ----------

  /** The elements of `s` without the repetitions, each at its first position. */
  function Dedupe(s: seq<string>): (d: seq<string>)
    ensures forall x :: x in d <==> x in s
  {
    if s == [] then [] else
      var d := Dedupe(s[..|s| - 1]);
      var x := s[|s| - 1];
      assert s == s[..|s| - 1] + [x];
      if x in d then d else d + [x]
  }

  ghost predicate NoDuplicates(s: seq<string>) {
    forall i, j :: 0 <= i < j < |s| ==> s[i] != s[j]
  }

  lemma {:induction false} DedupeHasNoDuplicates(s: seq<string>)
    ensures NoDuplicates(Dedupe(s))
  {
    if s != [] {
      DedupeHasNoDuplicates(s[..|s| - 1]);
    }
  }

  lemma {:induction false} DedupeOfDistinct(s: seq<string>)
    requires NoDuplicates(s)
    ensures Dedupe(s) == s
  {
    if s != [] {
      DedupeOfDistinct(s[..|s| - 1]);
      assert s == s[..|s| - 1] + [s[|s| - 1]];
    }
  }

  lemma DedupeSnoc(s: seq<string>, x: string)
    ensures Dedupe(s + [x]) == if x in s then Dedupe(s) else Dedupe(s) + [x]
  {
    assert (s + [x])[..|s|] == s;
  }

  /** Only the first occurrences of both halves matter. */
  lemma {:induction false} DedupeConcat(a: seq<string>, b: seq<string>)
    ensures Dedupe(a + b) == Dedupe(Dedupe(a) + Dedupe(b))
  {
    if b == [] {
      assert a + b == a && Dedupe(a) + Dedupe(b) == Dedupe(a);
      DedupeHasNoDuplicates(a);
      DedupeOfDistinct(Dedupe(a));
    } else {
      var b', x := b[..|b| - 1], b[|b| - 1];
      assert b == b' + [x] && a + b == (a + b') + [x];
      DedupeConcat(a, b');
      DedupeSnoc(a + b', x);
      DedupeSnoc(b', x);
      if x !in b' {
        assert Dedupe(a) + Dedupe(b) == (Dedupe(a) + Dedupe(b')) + [x];
        DedupeSnoc(Dedupe(a) + Dedupe(b'), x);
      }
    }
  }

  lemma {:induction false} DedupeAbsorbs(a: seq<string>, b: seq<string>)
    requires forall x :: x in b ==> x in a
    ensures Dedupe(a + b) == Dedupe(a)
  {
    if b == [] {
      assert a + b == a;
    } else {
      var b', x := b[..|b| - 1], b[|b| - 1];
      assert b == b' + [x] && a + b == (a + b') + [x];
      assert x in b && forall y :: y in b' ==> y in b;
      DedupeAbsorbs(a, b');
      DedupeSnoc(a + b', x);
    }
  }

  // ---------- lookup order ----------

  /** The ancestors of `t` in the order in which a lookup meets them first:
      its parents, then the ancestors of each parent in turn. */
  ghost function Order(g: Graph, t: string): seq<string>
    requires Acyclic(g)
    decreases Rank(g, t), 1, 0
  {
    var ps := Parents(g, t);
    Dedupe(ps + OrderOfAll(g, t, ps))
  }

  ghost function OrderOfAll(g: Graph, t: string, xs: seq<string>): seq<string>
    requires Acyclic(g)
    requires forall x :: x in xs ==> IsAncestorOrParent(g, t, x)
    decreases Rank(g, t), 0, |xs|
  {
    if xs == [] then [] else
      assert IsAncestorOrParent(g, t, xs[0]);
      AncestorOrParentRank(g, t, xs[0]);
      Order(g, xs[0]) + OrderOfAll(g, t, xs[1..])
  }

  ghost predicate IsAncestorOrParent(g: Graph, t: string, x: string) {
    x in Parents(g, t) || IsAncestor(g, t, x)
  }

  lemma AncestorOrParentRank(g: Graph, t: string, x: string)
    requires Acyclic(g) && IsAncestorOrParent(g, t, x)
    ensures IsAncestor(g, t, x) && Rank(g, x) < Rank(g, t)
  {
    if x in Parents(g, t) {
      ParentIsAncestor(g, t, x);
    }
    RankFalls(g, t, x);
  }

  lemma {:induction false} InOrderOfAll(g: Graph, t: string, xs: seq<string>, a: string)
    requires Acyclic(g)
    requires forall x :: x in xs ==> IsAncestorOrParent(g, t, x)
    ensures a in OrderOfAll(g, t, xs) <==> exists x :: x in xs && a in Order(g, x)
  {
    if xs != [] {
      InOrderOfAll(g, t, xs[1..], a);
      assert forall x :: x in xs <==> x == xs[0] || x in xs[1..];
      assert IsAncestorOrParent(g, t, xs[0]);
      AncestorOrParentRank(g, t, xs[0]);
      var head, tail := Order(g, xs[0]), OrderOfAll(g, t, xs[1..]);
      assert OrderOfAll(g, t, xs) == head + tail;
      if exists x :: x in xs && a in Order(g, x) {
        var x :| x in xs && a in Order(g, x);
        assert x == xs[0] || x in xs[1..];
      }
      if a in head {
        assert xs[0] in xs && a in Order(g, xs[0]);
      } else if a in tail {
        var x :| x in xs[1..] && a in Order(g, x);
        assert x in xs && a in Order(g, x);
      }
    }
  }

  /** The lookup order lists exactly the proper ancestors. */
  lemma {:induction false} OrderIsAncestors(g: Graph, t: string, a: string)
    requires Acyclic(g)
    ensures a in Order(g, t) <==> IsAncestor(g, t, a)
    decreases Rank(g, t)
  {
    var ps := Parents(g, t);
    InOrderOfAll(g, t, ps, a);
    if a in Order(g, t) {
      if a in ps {
        ParentIsAncestor(g, t, a);
      } else {
        var x :| x in ps && a in Order(g, x);
        AncestorOrParentRank(g, t, x);
        OrderIsAncestors(g, x, a);
        AncestorTransitive(g, t, x, a);
      }
    }
    if IsAncestor(g, t, a) {
      var x := AncestorByParent(g, t, a);
      AncestorOrParentRank(g, t, x);
      if x != a {
        OrderIsAncestors(g, x, a);
      }
    }
  }

  lemma OrderHasNoDuplicates(g: Graph, t: string)
    requires Acyclic(g)
    ensures NoDuplicates(Order(g, t))
    ensures t !in Order(g, t)
  {
    DedupeHasNoDuplicates(Parents(g, t) + OrderOfAll(g, t, Parents(g, t)));
    OrderIsAncestors(g, t, t);
  }

  /** A repeated parent adds nothing. */
  lemma {:induction false} OrderOfSameParents(g: Graph, t: string, p: string, xs: seq<string>)
    requires Acyclic(g) && p in Parents(g, t)
    requires forall x :: x in xs ==> x == p
    ensures forall x :: x in xs ==> IsAncestorOrParent(g, t, x)
    ensures xs != [] ==> Dedupe(OrderOfAll(g, t, xs)) == Order(g, p) && Dedupe(xs) == [p]
  {
    if xs != [] {
      AncestorOrParentRank(g, t, p);
      assert forall x :: x in xs[1..] ==> x in xs;
      var head, tail := Order(g, p), OrderOfAll(g, t, xs[1..]);
      assert xs[0] in xs && xs[0] == p && OrderOfAll(g, t, xs) == head + tail;
      forall a | a in tail
        ensures a in head
      {
        InOrderOfAll(g, t, xs[1..], a);
        var x :| x in xs[1..] && a in Order(g, x);
        assert x == p;
      }
      DedupeAbsorbs(head, tail);
      OrderHasNoDuplicates(g, p);
      DedupeOfDistinct(head);
      assert xs == [p] + xs[1..];
      DedupeAbsorbs([p], xs[1..]);
      DedupeOfDistinct([p]);
    }
  }

  /** With one parent the lookup order is the chain of ancestors, nearest first. */
  lemma OrderOfChain(g: Graph, t: string, p: string)
    requires Acyclic(g)
    requires p in Parents(g, t) && forall x :: x in Parents(g, t) ==> x == p
    ensures Order(g, t) == [p] + Order(g, p)
  {
    var ps := Parents(g, t);
    OrderOfSameParents(g, t, p, ps);
    DedupeConcat(ps, OrderOfAll(g, t, ps));
    OrderHasNoDuplicates(g, p);
    DedupeOfDistinct([p] + Order(g, p));
  }
}
