/**
 Rebuilding the node types: the loaders' nodes, then one AI tool for each usable node, then the
 custom API call options. Injection writes through to the loaders' own lists, so a second rebuild
 starts from other contents than the first.
 */
module NodeRebuild {
  import opened Wrappers
  import opened NodeDescriptions

  // ---------- tools ----------

  function Usable<O>(nodes: seq<Node<O>>): seq<Node<O>> {
    if nodes == [] then []
    else (if nodes[0].usableAsTool then [nodes[0]] else []) + Usable(nodes[1..])
  }

  /** `structuredClone`: the copy of the list at `a` lives at `base + a`, so that properties
      which share a list share its copy. */
  function CloneProperties(ps: seq<Property<Option<Address>>>, base: Address): (r: seq<Property<Option<Address>>>)
    ensures |r| == |ps|
    ensures forall i :: 0 <= i < |ps| ==> r[i] == ps[i].(options := Shifted(ps[i].options, base))
  {
    seq(|ps|, i requires 0 <= i < |ps| => ps[i].(options := Shifted(ps[i].options, base)))
  }

  function Shifted(o: Option<Address>, base: Address): Option<Address> {
    if o.Some? then Some(base + o.value) else None
  }

  /** The tool of `n`, with its lists at `base` and after; `limit` is where its new list goes. */
  function ToolOf(n: SharedNode, base: Address, limit: Address): SharedNode {
    AsTool(n.(properties := CloneProperties(n.properties, base)), None, Some(limit))
  }

  /** The store with a copy of each list below `count`. */
  function WithCopies(store: Store, count: Address, base: Address): Store
    decreases count
  {
    if count == 0 then store
    else WithCopies(store, count - 1, base)[base + count - 1 := ItemsAt(store, count - 1)]
  }

  lemma {:induction false} CopiesAt(store: Store, count: Address, base: Address, a: Address)
    ensures ItemsAt(WithCopies(store, count, base), a)
         == if base <= a < base + count then ItemsAt(store, a - base) else ItemsAt(store, a)
    decreases count
  {
    if count > 0 {
      CopiesAt(store, count - 1, base, a);
    }
  }

  /** The store once the tool at `base` is made. */
  function NextStore(store: Store, count: Address, base: Address): Store {
    WithCopies(store, count, base)[base + count := DESCRIPTION_CHOICE]
  }

  lemma NextStoreAt(store: Store, count: Address, base: Address, a: Address)
    ensures ItemsAt(NextStore(store, count, base), a)
         == if a == base + count then DESCRIPTION_CHOICE
            else if base <= a < base + count then ItemsAt(store, a - base) else ItemsAt(store, a)
  {
    CopiesAt(store, count, base, a);
  }

  /** The tools of the usable nodes; lists of the loaders lie below `count`, and those of the
      tools from `base` on. */
  function Tools(usable: seq<SharedNode>, count: Address, base: Address): seq<SharedNode>
    decreases |usable|
  {
    if usable == [] then []
    else [ToolOf(usable[0], base, base + count)] + Tools(usable[1..], count, base + count + 1)
  }

  function ToolStore(store: Store, usable: seq<SharedNode>, count: Address, base: Address): Store
    decreases |usable|
  {
    if usable == [] then store
    else ToolStore(NextStore(store, count, base), usable[1..], count, base + count + 1)
  }

  /** The node types and the store after a rebuild, or nothing if it throws. */
  function Rebuilt(store: Store, nodes: seq<SharedNode>, types: seq<CredentialType>,
                   count: Address, base: Address): Option<(Store, seq<SharedNode>)> {
    var all := nodes + Tools(Usable(nodes), count, base);
    var injected := InjectedAll(ToolStore(store, Usable(nodes), count, base), all, types);
    if injected.None? then None else Some((injected.value, all))
  }

  // ---------- what a rebuild shows ----------

  ghost predicate Within(n: SharedNode, lo: Address, hi: Address) {
    forall i :: 0 <= i < |n.properties| && n.properties[i].options.Some? ==> lo <= n.properties[i].options.value < hi
  }

  ghost predicate AllWithin(nodes: seq<SharedNode>, lo: Address, hi: Address) {
    forall n :: n in nodes ==> Within(n, lo, hi)
  }

  /** What the options of `p` show once the lists in `targets` have the custom option. */
  ghost function ShownOptions(o: Option<Address>, store: Store, targets: Address -> bool): Option<seq<OptionItem>> {
    if o.None? then None
    else Some(if targets(o.value) then WithCustomCall(ItemsAt(store, o.value)) else ItemsAt(store, o.value))
  }

  ghost function Shown(n: SharedNode, store: Store, targets: Address -> bool): (r: DeepNode)
    ensures |r.properties| == |n.properties|
    ensures forall i :: 0 <= i < |n.properties| ==>
              r.properties[i] == Property(n.properties[i].name, ShownOptions(n.properties[i].options, store, targets),
                                          n.properties[i].default, n.properties[i].displayOptions)
  {
    var ps := n.properties;
    Node(n.name, n.displayName, n.description, n.version, n.defaultVersion, n.usableAsTool, n.credentials,
         seq(|ps|, i requires 0 <= i < |ps| =>
           Property(ps[i].name, ShownOptions(ps[i].options, store, targets), ps[i].default, ps[i].displayOptions)),
         n.inputs, n.outputs, n.codex)
  }

  /** What the tool of `n` shows: a conversion of `n` in which exactly the lists that `n` itself
      exposes as resource or operation have the option. */
  ghost function ShownTool(n: SharedNode, store: Store, types: seq<CredentialType>): DeepNode {
    AsTool(Shown(n, store, (a: Address) => TargetOf(n, types, a)), None, Some(DESCRIPTION_CHOICE))
  }

  lemma ClonePreservesNames(ps: seq<Property<Option<Address>>>, base: Address, name: string)
    ensures HasProperty(CloneProperties(ps, base), name) == HasProperty(ps, name)
  {
    var r := CloneProperties(ps, base);
    if i :| 0 <= i < |ps| && ps[i].name == name { assert r[i].name == name; }
    if i :| 0 <= i < |r| && r[i].name == name { assert ps[i].name == name; }
  }

  lemma ShownPreservesNames(n: SharedNode, store: Store, targets: Address -> bool, name: string)
    ensures HasProperty(Shown(n, store, targets).properties, name) == HasProperty(n.properties, name)
  {
    var r := Shown(n, store, targets).properties;
    if i :| 0 <= i < |n.properties| && n.properties[i].name == name { assert r[i].name == name; }
    if i :| 0 <= i < |r| && r[i].name == name { assert n.properties[i].name == name; }
  }

  lemma ToolIsEligibleLikeItsNode(n: SharedNode, types: seq<CredentialType>, base: Address, limit: Address)
    ensures Eligible(ToolOf(n, base, limit), types) == Eligible(n, types)
  {
    var t := ToolOf(n, base, limit);
    assert t.credentials == n.credentials && t.version == n.version && t.defaultVersion == n.defaultVersion;
  }

  lemma CloneHolds(ps: seq<Property<Option<Address>>>, base: Address, a: Address)
    ensures Holds(CloneProperties(ps, base), a) <==> a >= base && Holds(ps, a - base)
  {
    var copies := CloneProperties(ps, base);
    if Holds(copies, a) {
      var p :| p in copies && TakesCustomCall(p) && p.options.value == a;
      var i :| 0 <= i < |copies| && copies[i] == p;
      assert ps[i] in ps && TakesCustomCall(ps[i]);
    }
    if a >= base && Holds(ps, a - base) {
      var p :| p in ps && TakesCustomCall(p) && p.options.value == a - base;
      var i :| 0 <= i < |ps| && ps[i] == p;
      assert copies[i] in copies && TakesCustomCall(copies[i]);
    }
  }

  /** The tool exposes exactly the copies of the lists that its node exposes. */
  lemma ToolTargets(n: SharedNode, types: seq<CredentialType>, base: Address, limit: Address, a: Address)
    ensures TargetOf(ToolOf(n, base, limit), types, a) <==> a >= base && TargetOf(n, types, a - base)
  {
    var t := ToolOf(n, base, limit);
    var copies := CloneProperties(n.properties, base);
    var front := ToolProperties(copies, n.description, None, Some(limit));
    ToolIsEligibleLikeItsNode(n, types, base, limit);
    CloneHolds(n.properties, base, a);
    assert forall p :: p in front ==> !TakesCustomCall(p);
    assert forall p :: p in t.properties <==> p in front || p in copies;
  }

  lemma {:induction false} ToolStoreBelow(store: Store, usable: seq<SharedNode>, count: Address, base: Address, a: Address)
    requires a < base
    ensures ItemsAt(ToolStore(store, usable, count, base), a) == ItemsAt(store, a)
    decreases |usable|
  {
    if usable != [] {
      ToolStoreBelow(NextStore(store, count, base), usable[1..], count, base + count + 1, a);
      NextStoreAt(store, count, base, a);
    }
  }

  lemma HeadOrRest(head: SharedNode, rest: seq<SharedNode>, types: seq<CredentialType>, a: Address)
    ensures Target([head] + rest, types, a) <==> TargetOf(head, types, a) || Target(rest, types, a)
  {
    assert forall n :: n in [head] + rest <==> n == head || n in rest;
  }

  /** The lists of the tools lie from `base` on. */
  lemma {:induction false} ToolTargetsAbove(usable: seq<SharedNode>, types: seq<CredentialType>, count: Address, base: Address, a: Address)
    ensures Target(Tools(usable, count, base), types, a) ==> a >= base
    decreases |usable|
  {
    if usable != [] {
      var after := base + count + 1;
      HeadOrRest(ToolOf(usable[0], base, base + count), Tools(usable[1..], count, after), types, a);
      ToolTargets(usable[0], types, base, base + count, a);
      ToolTargetsAbove(usable[1..], types, count, after, a);
    }
  }

  /** If the copies of a node's lists were injected as its tool exposes them, the tool shows
      what it should. */
  lemma ToolShows(n: SharedNode, types: seq<CredentialType>, store: Store, final: Store, count: Address, base: Address)
    requires Within(n, 0, count)
    requires forall b: Address :: b < count ==>
               ItemsAt(final, base + b) == if TargetOf(n, types, b) then WithCustomCall(ItemsAt(store, b)) else ItemsAt(store, b)
    requires ItemsAt(final, base + count) == DESCRIPTION_CHOICE
    ensures Deep(ToolOf(n, base, base + count), final) == ShownTool(n, store, types)
  {
    var targets := (a: Address) => TargetOf(n, types, a);
    var copies := CloneProperties(n.properties, base);
    var shown := Shown(n, store, targets).properties;
    ClonePreservesNames(n.properties, base, "toolDescription");
    ClonePreservesNames(n.properties, base, "resource");
    ClonePreservesNames(n.properties, base, "operation");
    ShownPreservesNames(n, store, targets, "toolDescription");
    ShownPreservesNames(n, store, targets, "resource");
    ShownPreservesNames(n, store, targets, "operation");
    var front := ToolProperties(copies, n.description, None, Some(base + count));
    var shownFront := ToolProperties(shown, n.description, None, Some(DESCRIPTION_CHOICE));
    assert DeepProperties(front, final) == shownFront;
    assert DeepProperties(copies, final) == shown;
    DeepConcat(front, copies, final);
  }

  lemma DeepConcat(a: seq<Property<Option<Address>>>, b: seq<Property<Option<Address>>>, store: Store)
    ensures DeepProperties(a + b, store) == DeepProperties(a, store) + DeepProperties(b, store)
  {
  }

  /** `final` is `made` with the lists of `tools` injected, as far as lists from `base` on go. */
  ghost predicate InjectedFrom(final: Store, made: Store, tools: seq<SharedNode>, types: seq<CredentialType>, base: Address) {
    forall a: Address :: a >= base ==>
      ItemsAt(final, a) == if Target(tools, types, a) then WithCustomCall(ItemsAt(made, a)) else ItemsAt(made, a)
  }

  lemma NotHeldAbove(n: SharedNode, types: seq<CredentialType>, count: Address, a: Address)
    requires Within(n, 0, count)
    ensures TargetOf(n, types, a) ==> a < count
  {
    if TargetOf(n, types, a) {
      var p :| p in n.properties && TakesCustomCall(p) && p.options.value == a;
      var i :| 0 <= i < |n.properties| && n.properties[i] == p;
    }
  }

  lemma FirstToolTarget(usable: seq<SharedNode>, types: seq<CredentialType>, count: Address, base: Address, b: Address)
    requires usable != [] && b <= count
    ensures Target(Tools(usable, count, base), types, base + b) <==> TargetOf(usable[0], types, b)
  {
    hide *;
    TargetOfTools(usable, types, count, base, base + b);
    ToolTargetsAbove(usable[1..], types, count, base + count + 1, base + b);
  }

  lemma TargetOfTools(usable: seq<SharedNode>, types: seq<CredentialType>, count: Address, base: Address, a: Address)
    requires usable != []
    ensures Target(Tools(usable, count, base), types, a)
       <==> (a >= base && TargetOf(usable[0], types, a - base)) || Target(Tools(usable[1..], count, base + count + 1), types, a)
  {
    var head, rest := ToolOf(usable[0], base, base + count), Tools(usable[1..], count, base + count + 1);
    assert Tools(usable, count, base) == [head] + rest;
    HeadOrRest(head, rest, types, a);
    ToolTargets(usable[0], types, base, base + count, a);
  }

  lemma FirstToolMade(usable: seq<SharedNode>, store: Store, count: Address, base: Address, b: Address)
    requires usable != [] && b <= count
    ensures ItemsAt(ToolStore(store, usable, count, base), base + b) == if b == count then DESCRIPTION_CHOICE else ItemsAt(store, b)
  {
    ToolStoreBelow(NextStore(store, count, base), usable[1..], count, base + count + 1, base + b);
    NextStoreAt(store, count, base, base + b);
    assert base + b - base == b;
  }

  /** What the first tool's part of the store holds in the end. */
  lemma FirstToolFinal(usable: seq<SharedNode>, types: seq<CredentialType>, store: Store, final: Store,
                       count: Address, base: Address, b: Address)
    requires usable != [] && Within(usable[0], 0, count) && b <= count
    requires InjectedFrom(final, ToolStore(store, usable, count, base), Tools(usable, count, base), types, base)
    ensures ItemsAt(final, base + b)
         == if b == count then DESCRIPTION_CHOICE
            else if TargetOf(usable[0], types, b) then WithCustomCall(ItemsAt(store, b)) else ItemsAt(store, b)
  {
    FirstToolTarget(usable, types, count, base, b);
    FirstToolMade(usable, store, count, base, b);
    NotHeldAbove(usable[0], types, count, b);
  }

  lemma OtherToolsFinal(usable: seq<SharedNode>, types: seq<CredentialType>, store: Store, final: Store, count: Address, base: Address)
    requires usable != [] && Within(usable[0], 0, count)
    requires InjectedFrom(final, ToolStore(store, usable, count, base), Tools(usable, count, base), types, base)
    ensures InjectedFrom(final, ToolStore(NextStore(store, count, base), usable[1..], count, base + count + 1),
                         Tools(usable[1..], count, base + count + 1), types, base + count + 1)
  {
    var n, after := usable[0], base + count + 1;
    forall a: Address | a >= after
      ensures Target(Tools(usable, count, base), types, a) == Target(Tools(usable[1..], count, after), types, a)
    {
      TargetOfTools(usable, types, count, base, a);
      NotHeldAbove(n, types, count, a - base);
    }
  }

  ghost predicate SameBelow(count: Address, store: Store, given: Store) {
    forall b: Address :: b < count ==> ItemsAt(store, b) == ItemsAt(given, b)
  }

  lemma NextStoreIsSameBelow(count: Address, store: Store, given: Store, base: Address)
    requires SameBelow(count, store, given) && count <= base
    ensures SameBelow(count, NextStore(store, count, base), given)
  {
    forall b: Address | b < count
      ensures ItemsAt(NextStore(store, count, base), b) == ItemsAt(given, b)
    {
      NextStoreAt(store, count, base, b);
    }
  }

  lemma FirstToolShows(usable: seq<SharedNode>, types: seq<CredentialType>, given: Store, store: Store, final: Store,
                       count: Address, base: Address)
    requires usable != [] && Within(usable[0], 0, count) && SameBelow(count, store, given)
    requires InjectedFrom(final, ToolStore(store, usable, count, base), Tools(usable, count, base), types, base)
    ensures Deep(ToolOf(usable[0], base, base + count), final) == ShownTool(usable[0], given, types)
  {
    forall b: Address | b < count
      ensures ItemsAt(final, base + b)
           == if TargetOf(usable[0], types, b) then WithCustomCall(ItemsAt(given, b)) else ItemsAt(given, b)
    {
      FirstToolFinal(usable, types, store, final, count, base, b);
    }
    FirstToolFinal(usable, types, store, final, count, base, count);
    ToolShows(usable[0], types, given, final, count, base);
  }

  /** The tool of each usable node, in order, shows what it should. */
  ghost predicate AllShow(tools: seq<SharedNode>, usable: seq<SharedNode>, types: seq<CredentialType>, given: Store, final: Store) {
    |tools| == |usable| && forall i :: 0 <= i < |usable| ==> Deep(tools[i], final) == ShownTool(usable[i], given, types)
  }

  lemma FirstAndRestShow(tool: SharedNode, tools: seq<SharedNode>, usable: seq<SharedNode>, types: seq<CredentialType>,
                         given: Store, final: Store)
    requires usable != [] && Deep(tool, final) == ShownTool(usable[0], given, types)
    requires AllShow(tools, usable[1..], types, given, final)
    ensures AllShow([tool] + tools, usable, types, given, final)
  {
    forall i | 0 <= i < |usable|
      ensures Deep(([tool] + tools)[i], final) == ShownTool(usable[i], given, types)
    {
      if i > 0 { assert usable[1..][i - 1] == usable[i]; }
    }
  }

  /** The tools show what they should, whatever the loaders' lists receive. */
  lemma {:induction false} ToolsShow(usable: seq<SharedNode>, types: seq<CredentialType>, given: Store, store: Store, final: Store,
                                     count: Address, base: Address)
    requires AllWithin(usable, 0, count) && count <= base && SameBelow(count, store, given)
    requires InjectedFrom(final, ToolStore(store, usable, count, base), Tools(usable, count, base), types, base)
    ensures AllShow(Tools(usable, count, base), usable, types, given, final)
    decreases |usable|
  {
    hide *;
    if usable == [] {
      NoToolsShow(types, given, final, count, base);
    } else {
      RestIsReady(usable, types, given, store, final, count, base);
      ToolsShow(usable[1..], types, given, NextStore(store, count, base), final, count, base + count + 1);
      ToolsShowStep(usable, types, given, store, final, count, base);
    }
  }

  lemma NoToolsShow(types: seq<CredentialType>, given: Store, final: Store, count: Address, base: Address)
    ensures AllShow(Tools([], count, base), [], types, given, final)
  {
  }

  lemma RestIsReady(usable: seq<SharedNode>, types: seq<CredentialType>, given: Store, store: Store, final: Store,
                    count: Address, base: Address)
    requires usable != [] && AllWithin(usable, 0, count) && count <= base && SameBelow(count, store, given)
    requires InjectedFrom(final, ToolStore(store, usable, count, base), Tools(usable, count, base), types, base)
    ensures var after, next, rest := base + count + 1, NextStore(store, count, base), usable[1..];
            && AllWithin(rest, 0, count) && SameBelow(count, next, given)
            && InjectedFrom(final, ToolStore(next, rest, count, after), Tools(rest, count, after), types, after)
  {
    FirstTool(usable, count, base);
    hide *;
    OtherToolsFinal(usable, types, store, final, count, base);
    NextStoreIsSameBelow(count, store, given, base);
  }

  lemma ToolsShowStep(usable: seq<SharedNode>, types: seq<CredentialType>, given: Store, store: Store, final: Store,
                      count: Address, base: Address)
    requires usable != [] && AllWithin(usable, 0, count) && count <= base && SameBelow(count, store, given)
    requires InjectedFrom(final, ToolStore(store, usable, count, base), Tools(usable, count, base), types, base)
    requires AllShow(Tools(usable[1..], count, base + count + 1), usable[1..], types, given, final)
    ensures AllShow(Tools(usable, count, base), usable, types, given, final)
  {
    FirstTool(usable, count, base);
    hide *;
    var rest := Tools(usable[1..], count, base + count + 1);
    FirstToolShows(usable, types, given, store, final, count, base);
    FirstAndRestShow(ToolOf(usable[0], base, base + count), rest, usable, types, given, final);
  }

  lemma FirstTool(usable: seq<SharedNode>, count: Address, base: Address)
    requires usable != [] && AllWithin(usable, 0, count)
    ensures Tools(usable, count, base) == [ToolOf(usable[0], base, base + count)] + Tools(usable[1..], count, base + count + 1)
    ensures Within(usable[0], 0, count) && AllWithin(usable[1..], 0, count)
  {
    assert usable[0] in usable && forall m :: m in usable[1..] ==> m in usable;
  }

  // ---------- the rebuild as a whole ----------

  /** The store that `nodes` was loaded with uses addresses below `count`; those from `base` on
      are free for the tools. */
  lemma TargetsOfAll(nodes: seq<SharedNode>, types: seq<CredentialType>, count: Address, base: Address, a: Address)
    requires AllWithin(nodes, 0, count) && count <= base
    ensures var tools := Tools(Usable(nodes), count, base);
            Target(nodes + tools, types, a) <==> if a < base then Target(nodes, types, a) else Target(tools, types, a)
  {
    var tools := Tools(Usable(nodes), count, base);
    assert forall n :: n in nodes + tools <==> n in nodes || n in tools;
    ToolTargetsAbove(Usable(nodes), types, count, base, a);
    if Target(nodes, types, a) {
      var n :| n in nodes && TargetOf(n, types, a);
      NotHeldAbove(n, types, count, a);
    }
  }

  lemma {:induction false} UsableIn<O>(nodes: seq<Node<O>>, n: Node<O>)
    ensures n in Usable(nodes) <==> n in nodes && n.usableAsTool
  {
    if nodes != [] {
      UsableIn(nodes[1..], n);
      assert nodes == [nodes[0]] + nodes[1..];
    }
  }

  lemma DeepIsShown(n: SharedNode, store: Store, final: Store, targets: Address -> bool, count: Address)
    requires Within(n, 0, count)
    requires forall a: Address :: a < count ==>
               ItemsAt(final, a) == if targets(a) then WithCustomCall(ItemsAt(store, a)) else ItemsAt(store, a)
    ensures Deep(n, final) == Shown(n, store, targets)
  {
    assert DeepProperties(n.properties, final) == Shown(n, store, targets).properties;
  }

  /** After a rebuild the type list is the loaders' nodes followed by one tool for each usable
      node. Each node shows the option on every list that any node exposes; each tool shows it
      on the lists that its own node exposes. */
  lemma RebuildShows(store: Store, nodes: seq<SharedNode>, types: seq<CredentialType>, count: Address, base: Address)
    requires AllWithin(nodes, 0, count) && count <= base
    requires Rebuilt(store, nodes, types, count, base).Some?
    ensures var (final, all) := Rebuilt(store, nodes, types, count, base).value;
            var usable := Usable(nodes);
            && all == nodes + Tools(usable, count, base)
            && (forall i :: 0 <= i < |nodes| ==>
                  Deep(all[i], final) == Shown(nodes[i], store, (a: Address) => Target(nodes, types, a)))
            && AllShow(all[|nodes|..], usable, types, store, final)
            && (forall a: Address :: a < count ==>
                  ItemsAt(final, a) == if Target(nodes, types, a) then WithCustomCall(ItemsAt(store, a)) else ItemsAt(store, a))
  {
    var usable := Usable(nodes);
    var tools := Tools(usable, count, base);
    var made := ToolStore(store, usable, count, base);
    var (final, all) := Rebuilt(store, nodes, types, count, base).value;
    InjectionPointwise(made, nodes + tools, types);
    forall a: Address | a < count
      ensures ItemsAt(final, a) == if Target(nodes, types, a) then WithCustomCall(ItemsAt(store, a)) else ItemsAt(store, a)
    {
      TargetsOfAll(nodes, types, count, base, a);
      ToolStoreBelow(store, usable, count, base, a);
    }
    forall i | 0 <= i < |nodes|
      ensures Deep(nodes[i], final) == Shown(nodes[i], store, (a: Address) => Target(nodes, types, a))
    {
      assert nodes[i] in nodes;
      DeepIsShown(nodes[i], store, final, (a: Address) => Target(nodes, types, a), count);
    }
    forall n | n in usable
      ensures Within(n, 0, count)
    {
      UsableIn(nodes, n);
    }
    forall a: Address | a >= base
      ensures ItemsAt(final, a) == if Target(tools, types, a) then WithCustomCall(ItemsAt(made, a)) else ItemsAt(made, a)
    {
      TargetsOfAll(nodes, types, count, base, a);
    }
    ToolsShow(usable, types, store, store, final, count, base);
    assert all[|nodes|..] == tools;
  }

  /** A rebuild throws exactly if a node exposes an empty option list as resource or operation
      and takes the custom option. */
  lemma RebuildThrowsOnEmptyList(store: Store, nodes: seq<SharedNode>, types: seq<CredentialType>, count: Address, base: Address)
    requires AllWithin(nodes, 0, count) && count <= base
    ensures Rebuilt(store, nodes, types, count, base).None? <==> exists a :: Target(nodes, types, a) && ItemsAt(store, a) == []
  {
    var usable := Usable(nodes);
    var tools := Tools(usable, count, base);
    var made := ToolStore(store, usable, count, base);
    InjectionPointwise(made, nodes + tools, types);
    if a: Address :| Target(nodes, types, a) && ItemsAt(store, a) == [] {
      TargetsBelow(nodes, types, count, a);
      TargetsOfAll(nodes, types, count, base, a);
      ToolStoreBelow(store, usable, count, base, a);
      assert Target(nodes + tools, types, a) && ItemsAt(made, a) == [];
    }
    if a: Address :| Target(nodes + tools, types, a) && ItemsAt(made, a) == [] {
      TargetsOfAll(nodes, types, count, base, a);
      if a < base {
        ToolStoreBelow(store, usable, count, base, a);
      } else {
        forall n | n in usable
          ensures Within(n, 0, count)
        {
          UsableIn(nodes, n);
        }
        var n, b := EmptyCopy(usable, types, store, store, count, base, a);
        UsableIn(nodes, n);
        assert Target(nodes, types, b);
      }
    }
  }

  lemma TargetsBelow(nodes: seq<SharedNode>, types: seq<CredentialType>, count: Address, a: Address)
    requires AllWithin(nodes, 0, count) && Target(nodes, types, a)
    ensures a < count
  {
    var n :| n in nodes && TargetOf(n, types, a);
    NotHeldAbove(n, types, count, a);
  }

  /** `n` is a usable node that exposes the empty list at `b`. */
  ghost predicate ExposesEmpty(n: SharedNode, b: Address, usable: seq<SharedNode>, types: seq<CredentialType>, given: Store) {
    n in usable && TargetOf(n, types, b) && ItemsAt(given, b) == []
  }

  lemma EmptyCopyOfFirst(usable: seq<SharedNode>, types: seq<CredentialType>, given: Store, store: Store,
                         count: Address, base: Address, a: Address)
    requires usable != [] && Within(usable[0], 0, count) && SameBelow(count, store, given)
    requires a >= base && TargetOf(usable[0], types, a - base)
    requires ItemsAt(ToolStore(store, usable, count, base), a) == []
    ensures ExposesEmpty(usable[0], a - base, usable, types, given)
  {
    NotHeldAbove(usable[0], types, count, a - base);
    FirstToolMade(usable, store, count, base, a - base);
    assert base + (a - base) == a;
  }

  /** An empty list that a tool exposes is the copy of one that its node exposes. */
  lemma {:induction false} EmptyCopy(usable: seq<SharedNode>, types: seq<CredentialType>, given: Store, store: Store,
                                     count: Address, base: Address, a: Address) returns (n: SharedNode, b: Address)
    requires AllWithin(usable, 0, count) && count <= base && SameBelow(count, store, given)
    requires Target(Tools(usable, count, base), types, a)
    requires ItemsAt(ToolStore(store, usable, count, base), a) == []
    ensures ExposesEmpty(n, b, usable, types, given)
    decreases |usable|
  {
    hide Target, TargetOf, NextStore;
    NoToolsNoTargets(usable, types, count, base, a);
    var after, next, rest := base + count + 1, NextStore(store, count, base), usable[1..];
    assert usable[0] in usable && forall m :: m in rest ==> m in usable;
    TargetOfTools(usable, types, count, base, a);
    if a >= base && TargetOf(usable[0], types, a - base) {
      n, b := usable[0], a - base;
      EmptyCopyOfFirst(usable, types, given, store, count, base, a);
    } else {
      NextStoreIsSameBelow(count, store, given, base);
      assert ToolStore(store, usable, count, base) == ToolStore(next, rest, count, after);
      n, b := EmptyCopy(rest, types, given, next, count, after, a);
    }
  }

  lemma NoToolsNoTargets(usable: seq<SharedNode>, types: seq<CredentialType>, count: Address, base: Address, a: Address)
    requires Target(Tools(usable, count, base), types, a)
    ensures usable != []
  {
  }

  // ---------- rebuilding twice ----------

  /** Every list of `n` that some node exposes for the custom option is exposed by `n` itself,
      or has the option already. */
  ghost predicate KeepsUp(n: SharedNode, nodes: seq<SharedNode>, types: seq<CredentialType>, store: Store) {
    forall i :: 0 <= i < |n.properties| && n.properties[i].options.Some? ==>
      var a := n.properties[i].options.value;
      Target(nodes, types, a) ==> TargetOf(n, types, a) || WithCustomCall(ItemsAt(store, a)) == ItemsAt(store, a)
  }

  lemma CustomCallOnce(items: seq<OptionItem>)
    ensures WithCustomCall(WithCustomCall(items)) == WithCustomCall(items) && WithCustomCall(items) != []
  {
  }

  /** Conversion keeps the properties of the node at the end. */
  lemma SameToolSameProperties(a: DeepNode, b: DeepNode, choice: Option<seq<OptionItem>>)
    requires forall name :: HasProperty(a.properties, name) == HasProperty(b.properties, name)
    requires AsTool(a, None, choice) == AsTool(b, None, choice)
    ensures a.properties == b.properties
  {
    var front := ToolProperties(a.properties, a.description, None, choice);
    assert HasProperty(a.properties, "toolDescription") == HasProperty(b.properties, "toolDescription");
    assert HasProperty(a.properties, "resource") == HasProperty(b.properties, "resource");
    assert HasProperty(a.properties, "operation") == HasProperty(b.properties, "operation");
    assert front == ToolProperties(b.properties, b.description, None, choice);
    assert a.properties == (front + a.properties)[|front|..];
    assert b.properties == (front + b.properties)[|front|..];
  }

  lemma SameNames(n: SharedNode, store: Store, final: Store, t: Address -> bool)
    ensures forall name :: HasProperty(Shown(n, store, t).properties, name) == HasProperty(Shown(n, final, t).properties, name)
  {
    forall name
      ensures HasProperty(Shown(n, store, t).properties, name) == HasProperty(Shown(n, final, t).properties, name)
    {
      ShownPreservesNames(n, store, t, name);
      ShownPreservesNames(n, final, t, name);
    }
  }

  /** The tool of `n` made after the first rebuild shows the same as the one made before it
      exactly if `n` keeps up. */
  lemma ToolShowsSameIfKeepsUp(n: SharedNode, nodes: seq<SharedNode>, types: seq<CredentialType>, store: Store, final: Store, count: Address)
    requires Within(n, 0, count)
    requires forall a: Address :: a < count ==>
               ItemsAt(final, a) == if Target(nodes, types, a) then WithCustomCall(ItemsAt(store, a)) else ItemsAt(store, a)
    ensures ShownTool(n, final, types) == ShownTool(n, store, types) <==> KeepsUp(n, nodes, types, store)
  {
    var t := (a: Address) => TargetOf(n, types, a);
    var before, after := Shown(n, store, t), Shown(n, final, t);
    SameNames(n, store, final, t);
    if ShownTool(n, final, types) == ShownTool(n, store, types) {
      SameToolSameProperties(before, after, Some(DESCRIPTION_CHOICE));
    }
    forall i | 0 <= i < |n.properties|
      ensures before.properties[i] == after.properties[i] <==>
                (n.properties[i].options.Some? ==>
                   var a := n.properties[i].options.value;
                   Target(nodes, types, a) ==> TargetOf(n, types, a) || WithCustomCall(ItemsAt(store, a)) == ItemsAt(store, a))
    {
      if n.properties[i].options.Some? {
        CustomCallOnce(ItemsAt(store, n.properties[i].options.value));
      }
    }
    if KeepsUp(n, nodes, types, store) {
      assert before.properties == after.properties;
      assert before == after;
    }
  }

  /** What the type list shows, whatever addresses its lists have. */
  ghost function ShownAll(store: Store, all: seq<SharedNode>): seq<DeepNode> {
    seq(|all|, i requires 0 <= i < |all| => Deep(all[i], store))
  }

  lemma LoaderNodeShowsSame(n: SharedNode, store: Store, final: Store, targets: Address -> bool, count: Address)
    requires Within(n, 0, count)
    requires forall a: Address :: a < count ==>
               ItemsAt(final, a) == if targets(a) then WithCustomCall(ItemsAt(store, a)) else ItemsAt(store, a)
    ensures Shown(n, final, targets) == Shown(n, store, targets)
  {
    forall i | 0 <= i < |n.properties|
      ensures Shown(n, final, targets).properties[i] == Shown(n, store, targets).properties[i]
    {
      if n.properties[i].options.Some? {
        CustomCallOnce(ItemsAt(store, n.properties[i].options.value));
      }
    }
    assert Shown(n, final, targets).properties == Shown(n, store, targets).properties;
  }

  /** A rebuild after a rebuild never throws: no list becomes empty. */
  lemma SecondRebuildNeverThrows(store: Store, nodes: seq<SharedNode>, types: seq<CredentialType>, count: Address,
                                 base: Address, again: Address)
    requires AllWithin(nodes, 0, count) && count <= base && count <= again
    requires Rebuilt(store, nodes, types, count, base).Some?
    ensures Rebuilt(Rebuilt(store, nodes, types, count, base).value.0, nodes, types, count, again).Some?
  {
    hide Rebuilt, Target, ShownAll, AllShow;
    var final := Rebuilt(store, nodes, types, count, base).value.0;
    RebuildShows(store, nodes, types, count, base);
    RebuildThrowsOnEmptyList(store, nodes, types, count, base);
    RebuildThrowsOnEmptyList(final, nodes, types, count, again);
    if a: Address :| Target(nodes, types, a) && ItemsAt(final, a) == [] {
      TargetsBelow(nodes, types, count, a);
      CustomCallOnce(ItemsAt(store, a));
      assert false;
    }
  }

  /** The nodes of the loaders show the same after a second rebuild; the tools do so exactly if
      their nodes keep up. */
  lemma PartsShowSame(store: Store, nodes: seq<SharedNode>, types: seq<CredentialType>, count: Address, base: Address, again: Address)
    requires AllWithin(nodes, 0, count) && count <= base && count <= again
    requires Rebuilt(store, nodes, types, count, base).Some?
    requires Rebuilt(Rebuilt(store, nodes, types, count, base).value.0, nodes, types, count, again).Some?
    ensures var (first, all) := Rebuilt(store, nodes, types, count, base).value;
            var (second, everything) := Rebuilt(first, nodes, types, count, again).value;
            var usable := Usable(nodes);
            && |all| == |everything| == |nodes| + |usable|
            && (forall i :: 0 <= i < |nodes| ==> Deep(all[i], first) == Deep(everything[i], second))
            && (forall i :: 0 <= i < |usable| ==>
                  (Deep(all[|nodes| + i], first) == Deep(everything[|nodes| + i], second) <==>
                     KeepsUp(usable[i], nodes, types, store)))
  {
    hide Rebuilt, Target, KeepsUp, Deep, Shown, ShownTool, Tools;
    var (first, all) := Rebuilt(store, nodes, types, count, base).value;
    var (second, everything) := Rebuilt(first, nodes, types, count, again).value;
    var usable := Usable(nodes);
    var targets := (a: Address) => Target(nodes, types, a);
    RebuildShows(store, nodes, types, count, base);
    RebuildShows(first, nodes, types, count, again);
    forall i | 0 <= i < |nodes|
      ensures Deep(all[i], first) == Deep(everything[i], second)
    {
      assert nodes[i] in nodes;
      LoaderNodeShowsSame(nodes[i], store, first, targets, count);
    }
    forall i | 0 <= i < |usable|
      ensures Deep(all[|nodes| + i], first) == Deep(everything[|nodes| + i], second) <==> KeepsUp(usable[i], nodes, types, store)
    {
      UsableIn(nodes, usable[i]);
      ToolShowsSameIfKeepsUp(usable[i], nodes, types, store, first, count);
      assert all[|nodes|..][i] == all[|nodes| + i] && everything[|nodes|..][i] == everything[|nodes| + i];
    }
  }

  /** Rebuilding twice shows the same node types as rebuilding once exactly if each usable node
      keeps up, that is, unless it carries a list that only other nodes expose. */
  lemma RebuildTwice(store: Store, nodes: seq<SharedNode>, types: seq<CredentialType>, count: Address, base: Address, again: Address)
    requires AllWithin(nodes, 0, count) && count <= base && count <= again
    requires Rebuilt(store, nodes, types, count, base).Some?
    ensures var (first, all) := Rebuilt(store, nodes, types, count, base).value;
            && Rebuilt(first, nodes, types, count, again).Some?
            && var (second, everything) := Rebuilt(first, nodes, types, count, again).value;
               (ShownAll(first, all) == ShownAll(second, everything)
                <==> forall n :: n in nodes && n.usableAsTool ==> KeepsUp(n, nodes, types, store))
  {
    hide Rebuilt, Target, KeepsUp, Deep;
    SecondRebuildNeverThrows(store, nodes, types, count, base, again);
    PartsShowSame(store, nodes, types, count, base, again);
    var (first, all) := Rebuilt(store, nodes, types, count, base).value;
    var (second, everything) := Rebuilt(first, nodes, types, count, again).value;
    var usable := Usable(nodes);
    if ShownAll(first, all) == ShownAll(second, everything) {
      forall n | n in nodes && n.usableAsTool
        ensures KeepsUp(n, nodes, types, store)
      {
        UsableIn(nodes, n);
        var i :| 0 <= i < |usable| && usable[i] == n;
        assert ShownAll(first, all)[|nodes| + i] == ShownAll(second, everything)[|nodes| + i];
      }
    }
    if forall n :: n in nodes && n.usableAsTool ==> KeepsUp(n, nodes, types, store) {
      forall i | 0 <= i < |all|
        ensures ShownAll(first, all)[i] == ShownAll(second, everything)[i]
      {
        if i >= |nodes| {
          UsableIn(nodes, usable[i - |nodes|]);
        }
      }
      assert ShownAll(first, all) == ShownAll(second, everything);
    }
  }

  ghost predicate SharesNoList(n: SharedNode, m: SharedNode) {
    forall i, j :: 0 <= i < |n.properties| && 0 <= j < |m.properties| && n.properties[i].options.Some? ==>
      n.properties[i].options != m.properties[j].options
  }

  /** If no two nodes share an option list, every node keeps up. */
  lemma UnsharedKeepsUp(nodes: seq<SharedNode>, types: seq<CredentialType>, store: Store, n: SharedNode)
    requires n in nodes
    requires forall m :: m in nodes && m != n ==> SharesNoList(n, m)
    ensures KeepsUp(n, nodes, types, store)
  {
    forall i | 0 <= i < |n.properties| && n.properties[i].options.Some? && Target(nodes, types, n.properties[i].options.value)
      ensures TargetOf(n, types, n.properties[i].options.value)
    {
      var m :| m in nodes && TargetOf(m, types, n.properties[i].options.value);
      var p :| p in m.properties && TakesCustomCall(p) && p.options.value == n.properties[i].options.value;
      var j :| 0 <= j < |m.properties| && m.properties[j] == p;
      assert m.properties[j].options == n.properties[i].options;
    }
  }

  /** A usable node without credentials that shares its resource list with another node, one that
      takes the custom option: its tool lacks the option after one rebuild and has it after two. */
  lemma SharedListBreaksRebuildTwice(own: SharedNode, other: SharedNode, types: seq<CredentialType>, a: Address, items: seq<OptionItem>)
    requires own.properties == other.properties == [Property("resource", Some(a), "", "")]
    requires own.usableAsTool && own.credentials.None? && Eligible(other, types)
    requires items != [] && items[|items| - 1].name != CUSTOM_API_CALL_NAME
    ensures !KeepsUp(own, [other, own], types, map[a := items])
  {
    var p := own.properties[0];
    assert p in other.properties && TakesCustomCall(p);
    assert TargetOf(other, types, a);
    assert other in [other, own];
    assert |WithCustomCall(items)| > |items|;
  }
}
