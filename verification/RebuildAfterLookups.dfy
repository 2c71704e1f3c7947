/**
 Rebuilds after lookups of credential types. A loader that loads at once shares the list that a
 class `extends` with the list that `getParentTypes` appends to, and the rebuild reads that list
 to decide which nodes take the custom API call option.
 */
module RebuildAfterLookups {
  import opened Wrappers
  import opened ExtendsGraph
  import opened ExtendsContents
  import C = CredentialInheritance
  import opened NodeDescriptions
  import opened NodeRebuild

  // ---------- which credentials forward authentication then ----------

  /** The credential types as a rebuild finds them when their lists are those of `h`. */
  function Relisted(types: seq<CredentialType>, h: Graph): (r: seq<CredentialType>)
    ensures |r| == |types|
  {
    seq(|types|, i requires 0 <= i < |types| => WithList(types[i], h))
  }

  function WithList(c: CredentialType, h: Graph): CredentialType {
    if c.parents.None? then c else c.(parents := Some(Parents(h, c.name)))
  }

  /** Each type that extends others does so through the list of the graph. */
  ghost predicate Shares(types: seq<CredentialType>, g: Graph) {
    forall c :: c in types && c.parents.Some? ==> c.parents.value == Parents(g, c.name)
  }

  lemma {:induction false} FindRelisted(types: seq<CredentialType>, h: Graph, name: string)
    ensures var found := FindCredential(types, name);
            FindCredential(Relisted(types, h), name) == if found.None? then None else Some(WithList(found.value, h))
    ensures FindCredential(types, name).Some? ==>
              FindCredential(types, name).value in types && FindCredential(types, name).value.name == name
    decreases |types|
  {
    if types != [] {
      assert Relisted(types, h)[1..] == Relisted(types[1..], h);
      FindRelisted(types[1..], h, name);
    }
  }

  /** The type extends others, was touched, and lies under an OAuth type. */
  ghost predicate GainsAuth(types: seq<CredentialType>, g: Graph, calls: seq<string>, name: string) {
    var found := FindCredential(types, name);
    && found.Some? && found.value.parents.Some? && Touched(g, calls, name)
    && exists a :: a in OAUTH_TYPES && IsAncestor(g, name, a)
  }

  /** After lookups a type forwards authentication exactly if it did before, or it was looked up,
      itself or through an heir, and lies anywhere under an OAuth type. */
  lemma ForwardsAuthAfterLookups(types: seq<CredentialType>, g: Graph, calls: seq<string>, name: string)
    requires Acyclic(g) && Shares(types, g)
    ensures ForwardsAuth(Relisted(types, C.AfterCalls(g, calls)), name) <==>
              ForwardsAuth(types, name) || GainsAuth(types, g, calls, name)
  {
    var h := C.AfterCalls(g, calls);
    FindRelisted(types, h, name);
    forall a
      ensures a in Parents(h, name) <==> a in Parents(g, name) || (Touched(g, calls, name) && IsAncestor(g, name, a))
    {
      ListContents(g, calls, name, a);
    }
    hide C.AfterCalls, Touched, IsAncestor, Acyclic;
  }

  /** One lookup of a type whose grandparent is an OAuth type, and none of its parents, is enough. */
  lemma LookupGainsAuth(types: seq<CredentialType>, g: Graph, name: string, p: string, a: string)
    requires Acyclic(g) && Shares(types, g)
    requires FindCredential(types, name).Some? && FindCredential(types, name).value.parents.Some?
    requires !FindCredential(types, name).value.authenticate
    requires p in Parents(g, name) && a in Parents(g, p) && a in OAUTH_TYPES
    requires forall x :: x in Parents(g, name) ==> x !in OAUTH_TYPES
    ensures !ForwardsAuth(types, name) && ForwardsAuth(Relisted(types, C.AfterCalls(g, [name])), name)
  {
    FindRelisted(types, C.AfterCalls(g, [name]), name);
    ParentIsAncestor(g, name, p);
    ParentIsAncestor(g, p, a);
    AncestorTransitive(g, name, p, a);
    assert name in [name] && Touched(g, [name], name);
    ForwardsAuthAfterLookups(types, g, [name], name);
  }

  /** A node takes the option after lookups exactly if it did before, or it is a latest version with
      a credential that gained authentication. */
  lemma EligibleAfterLookups(n: SharedNode, types: seq<CredentialType>, g: Graph, calls: seq<string>)
    requires Acyclic(g) && Shares(types, g)
    ensures Eligible(n, Relisted(types, C.AfterCalls(g, calls))) <==>
              || Eligible(n, types)
              || (&& (n.defaultVersion.None? || n.version == Single(n.defaultVersion.value))
                  && n.credentials.Some? && exists c :: c in n.credentials.value && GainsAuth(types, g, calls, c))
  {
    var later := Relisted(types, C.AfterCalls(g, calls));
    forall c
      ensures ForwardsAuth(later, c) <==> ForwardsAuth(types, c) || GainsAuth(types, g, calls, c)
    {
      ForwardsAuthAfterLookups(types, g, calls, c);
    }
    hide ForwardsAuth, GainsAuth, Relisted, C.AfterCalls, Acyclic, Shares;
  }

  // ---------- what a rebuild with more eligible nodes shows ----------

  ghost predicate MoreEligible(types: seq<CredentialType>, later: seq<CredentialType>) {
    forall n: SharedNode :: Eligible(n, types) ==> Eligible(n, later)
  }

  ghost predicate HasOption(store: Store, a: Address) {
    WithCustomCall(ItemsAt(store, a)) == ItemsAt(store, a)
  }

  /** Of the lists of `n`, those that `now` selects were selected by `before` or have the option. */
  ghost predicate NothingNew(n: SharedNode, store: Store, before: Address -> bool, now: Address -> bool) {
    forall i :: 0 <= i < |n.properties| && n.properties[i].options.Some? ==>
      var a := n.properties[i].options.value; now(a) ==> before(a) || HasOption(store, a)
  }

  /** `final` is `store` with the option added to the lists that `targets` selects below `count`. */
  ghost predicate AddedTo(store: Store, final: Store, targets: Address -> bool, count: Address) {
    forall a: Address :: a < count ==>
      ItemsAt(final, a) == if targets(a) then WithCustomCall(ItemsAt(store, a)) else ItemsAt(store, a)
  }

  lemma OptionsShowSame(o: Option<Address>, store: Store, final: Store, t: Address -> bool, before: Address -> bool,
                        now: Address -> bool, count: Address)
    requires AddedTo(store, final, t, count) && (o.Some? ==> o.value < count)
    ensures ShownOptions(o, final, now) == ShownOptions(o, store, before) <==>
              (o.Some? ==> (t(o.value) || now(o.value) ==> before(o.value) || HasOption(store, o.value))
                           && (before(o.value) ==> t(o.value) || now(o.value) || HasOption(store, o.value)))
  {
    if o.Some? {
      CustomCallOnce(ItemsAt(store, o.value));
    }
  }

  lemma ShownSameIff(n: SharedNode, store: Store, final: Store, t: Address -> bool, before: Address -> bool,
                     now: Address -> bool, count: Address)
    requires Within(n, 0, count) && AddedTo(store, final, t, count)
    requires forall a: Address :: before(a) ==> t(a) || now(a)
    ensures Shown(n, final, now).properties == Shown(n, store, before).properties <==>
              NothingNew(n, store, before, (a: Address) => t(a) || now(a))
  {
    var x, y := Shown(n, final, now).properties, Shown(n, store, before).properties;
    forall i | 0 <= i < |n.properties|
      ensures x[i] == y[i] <==>
                (n.properties[i].options.Some? ==>
                   var a := n.properties[i].options.value; t(a) || now(a) ==> before(a) || HasOption(store, a))
    {
      OptionsShowSame(n.properties[i].options, store, final, t, before, now, count);
    }
    hide Shown, ShownOptions, HasOption, AddedTo;
    assert x == y <==> forall i :: 0 <= i < |n.properties| ==> x[i] == y[i];
  }

  /** The tool of `n` shows the same as before. */
  lemma ToolSameIff(n: SharedNode, nodes: seq<SharedNode>, types: seq<CredentialType>, later: seq<CredentialType>,
                    store: Store, final: Store, count: Address)
    requires Within(n, 0, count) && MoreEligible(types, later)
    requires AddedTo(store, final, (a: Address) => Target(nodes, types, a), count)
    ensures ShownTool(n, final, later) == ShownTool(n, store, types) <==>
              NothingNew(n, store, (a: Address) => TargetOf(n, types, a),
                         (a: Address) => Target(nodes, types, a) || TargetOf(n, later, a))
  {
    var t := (a: Address) => Target(nodes, types, a);
    var before, now := (a: Address) => TargetOf(n, types, a), (a: Address) => TargetOf(n, later, a);
    var x, y := Shown(n, final, now), Shown(n, store, before);
    assert forall a: Address :: before(a) ==> now(a);
    ShownSameIff(n, store, final, t, before, now, count);
    assert NothingNew(n, store, before, (a: Address) => t(a) || now(a)) <==>
      NothingNew(n, store, before, (a: Address) => Target(nodes, types, a) || TargetOf(n, later, a));
    hide Target, TargetOf, NothingNew, AddedTo;
    NamesOfShown(n, final, now, store, before);
    if ShownTool(n, final, later) == ShownTool(n, store, types) {
      SameToolSameProperties(x, y, Some(DESCRIPTION_CHOICE));
    }
    if x.properties == y.properties {
      assert x == y;
    }
  }

  lemma NamesOfShown(n: SharedNode, s: Store, t: Address -> bool, r: Store, u: Address -> bool)
    ensures forall name :: HasProperty(Shown(n, s, t).properties, name) == HasProperty(Shown(n, r, u).properties, name)
  {
    forall name
      ensures HasProperty(Shown(n, s, t).properties, name) == HasProperty(Shown(n, r, u).properties, name)
    {
      ShownPreservesNames(n, s, t, name);
      ShownPreservesNames(n, r, u, name);
    }
  }

  /** A loader's node shows the same as before. */
  lemma NodeSameIff(n: SharedNode, nodes: seq<SharedNode>, types: seq<CredentialType>, later: seq<CredentialType>,
                    store: Store, final: Store, count: Address)
    requires Within(n, 0, count)
    requires AddedTo(store, final, (a: Address) => Target(nodes, types, a), count)
    ensures Shown(n, final, (a: Address) => Target(nodes, later, a)) == Shown(n, store, (a: Address) => Target(nodes, types, a)) <==>
              NothingNew(n, store, (a: Address) => Target(nodes, types, a), (a: Address) => Target(nodes, later, a))
  {
    var t, now := (a: Address) => Target(nodes, types, a), (a: Address) => Target(nodes, later, a);
    ShownSameIff(n, store, final, t, t, now, count);
    assert NothingNew(n, store, t, (a: Address) => t(a) || now(a)) <==> NothingNew(n, store, t, now);
    var x, y := Shown(n, final, now), Shown(n, store, t);
    hide Target, NothingNew, AddedTo, Within;
    if x.properties == y.properties {
      assert x == y;
    }
  }

  /** Neither a node nor a tool has a list that only now receives the option. */
  ghost predicate SameOptions(nodes: seq<SharedNode>, types: seq<CredentialType>, later: seq<CredentialType>, store: Store) {
    && (forall n :: n in nodes ==>
          NothingNew(n, store, (a: Address) => Target(nodes, types, a), (a: Address) => Target(nodes, later, a)))
    && (forall n :: n in nodes && n.usableAsTool ==>
          NothingNew(n, store, (a: Address) => TargetOf(n, types, a),
                     (a: Address) => Target(nodes, types, a) || TargetOf(n, later, a)))
  }

  lemma PartsSameIff(store: Store, nodes: seq<SharedNode>, types: seq<CredentialType>, later: seq<CredentialType>,
                     count: Address, base: Address, again: Address)
    requires AllWithin(nodes, 0, count) && count <= base && count <= again && MoreEligible(types, later)
    requires Rebuilt(store, nodes, types, count, base).Some?
    requires Rebuilt(Rebuilt(store, nodes, types, count, base).value.0, nodes, later, count, again).Some?
    ensures var (first, all) := Rebuilt(store, nodes, types, count, base).value;
            var (second, everything) := Rebuilt(first, nodes, later, count, again).value;
            var usable := Usable(nodes);
            && |all| == |everything| == |nodes| + |usable|
            && (forall i :: 0 <= i < |nodes| ==>
                  (Deep(all[i], first) == Deep(everything[i], second) <==>
                     NothingNew(nodes[i], store, (a: Address) => Target(nodes, types, a), (a: Address) => Target(nodes, later, a))))
            && (forall i :: 0 <= i < |usable| ==>
                  (Deep(all[|nodes| + i], first) == Deep(everything[|nodes| + i], second) <==>
                     NothingNew(usable[i], store, (a: Address) => TargetOf(usable[i], types, a),
                                (a: Address) => Target(nodes, types, a) || TargetOf(usable[i], later, a))))
  {
    hide Rebuilt, Target, TargetOf, Deep, Shown, ShownTool, Tools, NothingNew, MoreEligible;
    var (first, all) := Rebuilt(store, nodes, types, count, base).value;
    var (second, everything) := Rebuilt(first, nodes, later, count, again).value;
    var usable := Usable(nodes);
    RebuildShows(store, nodes, types, count, base);
    RebuildShows(first, nodes, later, count, again);
    assert AddedTo(store, first, (a: Address) => Target(nodes, types, a), count);
    hide AddedTo;
    forall i | 0 <= i < |nodes|
      ensures Deep(all[i], first) == Deep(everything[i], second) <==>
                NothingNew(nodes[i], store, (a: Address) => Target(nodes, types, a), (a: Address) => Target(nodes, later, a))
    {
      assert nodes[i] in nodes;
      NodeSameIff(nodes[i], nodes, types, later, store, first, count);
    }
    forall i | 0 <= i < |usable|
      ensures Deep(all[|nodes| + i], first) == Deep(everything[|nodes| + i], second) <==>
                NothingNew(usable[i], store, (a: Address) => TargetOf(usable[i], types, a),
                           (a: Address) => Target(nodes, types, a) || TargetOf(usable[i], later, a))
    {
      UsableIn(nodes, usable[i]);
      ToolSameIff(usable[i], nodes, types, later, store, first, count);
      assert all[|nodes|..][i] == all[|nodes| + i] && everything[|nodes|..][i] == everything[|nodes| + i];
    }
  }

  /** A second rebuild in which more nodes may be eligible shows the same types exactly if neither a
      node nor a tool has a list that only now receives the option. */
  lemma RebuildWithMoreEligible(store: Store, nodes: seq<SharedNode>, types: seq<CredentialType>, later: seq<CredentialType>,
                                count: Address, base: Address, again: Address)
    requires AllWithin(nodes, 0, count) && count <= base && count <= again && MoreEligible(types, later)
    requires Rebuilt(store, nodes, types, count, base).Some?
    requires Rebuilt(Rebuilt(store, nodes, types, count, base).value.0, nodes, later, count, again).Some?
    ensures var (first, all) := Rebuilt(store, nodes, types, count, base).value;
            var (second, everything) := Rebuilt(first, nodes, later, count, again).value;
            ShownAll(first, all) == ShownAll(second, everything) <==> SameOptions(nodes, types, later, store)
  {
    hide Rebuilt, Target, TargetOf, Deep, NothingNew, MoreEligible;
    PartsSameIff(store, nodes, types, later, count, base, again);
    var (first, all) := Rebuilt(store, nodes, types, count, base).value;
    var (second, everything) := Rebuilt(first, nodes, later, count, again).value;
    var usable := Usable(nodes);
    var x, y := ShownAll(first, all), ShownAll(second, everything);
    if x == y {
      forall n | n in nodes
        ensures NothingNew(n, store, (a: Address) => Target(nodes, types, a), (a: Address) => Target(nodes, later, a))
      {
        var i :| 0 <= i < |nodes| && nodes[i] == n;
        assert x[i] == y[i];
      }
      forall n | n in nodes && n.usableAsTool
        ensures NothingNew(n, store, (a: Address) => TargetOf(n, types, a),
                           (a: Address) => Target(nodes, types, a) || TargetOf(n, later, a))
      {
        UsableIn(nodes, n);
        var i :| 0 <= i < |usable| && usable[i] == n;
        assert x[|nodes| + i] == y[|nodes| + i];
      }
    }
    if SameOptions(nodes, types, later, store) {
      forall i | 0 <= i < |all|
        ensures x[i] == y[i]
      {
        if i < |nodes| {
          assert nodes[i] in nodes;
        } else {
          UsableIn(nodes, usable[i - |nodes|]);
        }
      }
      assert x == y;
    }
  }

  /** It throws exactly if a list that only now receives the option is empty. */
  lemma ThrowsWithMoreEligible(store: Store, nodes: seq<SharedNode>, types: seq<CredentialType>, later: seq<CredentialType>,
                               count: Address, base: Address, again: Address)
    requires AllWithin(nodes, 0, count) && count <= base && count <= again
    requires Rebuilt(store, nodes, types, count, base).Some?
    ensures Rebuilt(Rebuilt(store, nodes, types, count, base).value.0, nodes, later, count, again).None? <==>
              exists a :: Target(nodes, later, a) && !Target(nodes, types, a) && ItemsAt(store, a) == []
  {
    hide Rebuilt, Target, ShownAll, AllShow;
    var first := Rebuilt(store, nodes, types, count, base).value.0;
    RebuildShows(store, nodes, types, count, base);
    RebuildThrowsOnEmptyList(first, nodes, later, count, again);
    if a: Address :| Target(nodes, later, a) && ItemsAt(first, a) == [] {
      TargetsBelow(nodes, later, count, a);
      CustomCallOnce(ItemsAt(store, a));
      assert !Target(nodes, types, a) && ItemsAt(store, a) == [];
    }
    if a: Address :| Target(nodes, later, a) && !Target(nodes, types, a) && ItemsAt(store, a) == [] {
      TargetsBelow(nodes, later, count, a);
      assert ItemsAt(first, a) == [];
    }
  }

  /** A rebuild after any lookups shows the same types as the one before them exactly if neither a
      node nor a tool has a list that only nodes whose credentials gained authentication select. */
  lemma RebuildAfterLookups(store: Store, nodes: seq<SharedNode>, types: seq<CredentialType>, g: Graph, calls: seq<string>,
                            count: Address, base: Address, again: Address)
    requires Acyclic(g) && Shares(types, g)
    requires AllWithin(nodes, 0, count) && count <= base && count <= again
    requires Rebuilt(store, nodes, types, count, base).Some?
    ensures var (first, all) := Rebuilt(store, nodes, types, count, base).value;
            var later := Relisted(types, C.AfterCalls(g, calls));
            var result := Rebuilt(first, nodes, later, count, again);
            && (result.None? <==> exists a :: Target(nodes, later, a) && !Target(nodes, types, a) && ItemsAt(store, a) == [])
            && (result.Some? ==>
                  (ShownAll(first, all) == ShownAll(result.value.0, result.value.1) <==> SameOptions(nodes, types, later, store)))
  {
    var later := Relisted(types, C.AfterCalls(g, calls));
    forall n: SharedNode | Eligible(n, types)
      ensures Eligible(n, later)
    {
      EligibleAfterLookups(n, types, g, calls);
    }
    assert MoreEligible(types, later);
    hide *;
    ThrowsWithMoreEligible(store, nodes, types, later, count, base, again);
    if Rebuilt(Rebuilt(store, nodes, types, count, base).value.0, nodes, later, count, again).Some? {
      RebuildWithMoreEligible(store, nodes, types, later, count, base, again);
    }
  }
}
