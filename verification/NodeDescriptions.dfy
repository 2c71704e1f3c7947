/**
 Node descriptions whose properties share option lists by reference: an option list is an
 address in a store, so pushing to it is seen by everyone who holds the address.
 */
module NodeDescriptions {
  import opened Wrappers

  datatype OptionItem = OptionItem(name: string, value: string)

  const CUSTOM_API_CALL_NAME := "Custom API Call"
  const CUSTOM_API_CALL_KEY := "__CUSTOM_API_CALL__"
  const CUSTOM_API_CALL := OptionItem(CUSTOM_API_CALL_NAME, CUSTOM_API_CALL_KEY)

  type Address = nat
  type Store = map<Address, seq<OptionItem>>

  /** `O` is what stands for the options of a property: an address, or the listed items. */
  datatype Property<O> = Property(name: string, options: O, default: string, displayOptions: string)

  datatype Version = Single(number: nat) | Many(numbers: seq<nat>)

  datatype Codex = Codex(categories: seq<string>, subcategories: map<string, seq<string>>, resources: string)

  datatype Node<O> = Node(name: string, displayName: string, description: string,
                          version: Version, defaultVersion: Option<nat>, usableAsTool: bool,
                          credentials: Option<seq<string>>, properties: seq<Property<O>>,
                          inputs: seq<string>, outputs: seq<string>, codex: Option<Codex>)

  type SharedNode = Node<Option<Address>>
  type DeepNode = Node<Option<seq<OptionItem>>>

  datatype CredentialType = CredentialType(name: string, authenticate: bool, parents: Option<seq<string>>,
                                           supportedNodes: Option<seq<string>>)

  // ---------- what a description shows ----------

  function ItemsAt(store: Store, a: Address): seq<OptionItem> {
    if a in store then store[a] else []
  }

  function DeepOptions(o: Option<Address>, store: Store): Option<seq<OptionItem>> {
    if o.Some? then Some(ItemsAt(store, o.value)) else None
  }

  function DeepProperties(ps: seq<Property<Option<Address>>>, store: Store): (r: seq<Property<Option<seq<OptionItem>>>>)
    ensures |r| == |ps|
    ensures forall i :: 0 <= i < |ps| ==>
              r[i] == Property(ps[i].name, DeepOptions(ps[i].options, store), ps[i].default, ps[i].displayOptions)
  {
    seq(|ps|, i requires 0 <= i < |ps| =>
      Property(ps[i].name, DeepOptions(ps[i].options, store), ps[i].default, ps[i].displayOptions))
  }

  /** The description with the current items in place of the addresses. */
  function Deep(n: SharedNode, store: Store): DeepNode {
    Node(n.name, n.displayName, n.description, n.version, n.defaultVersion, n.usableAsTool, n.credentials,
         DeepProperties(n.properties, store), n.inputs, n.outputs, n.codex)
  }

  // ---------- conversion to an AI tool ----------

  predicate HasProperty<O>(ps: seq<Property<O>>, name: string) {
    exists i :: 0 <= i < |ps| && ps[i].name == name
  }

  const DESCRIPTION_CHOICE := [OptionItem("Set Automatically", "auto"), OptionItem("Set Manually", "manual")]

  /** The properties put in front; `choice` is the option list of `descriptionType`. */
  function ToolProperties<O>(ps: seq<Property<O>>, description: string, none: O, choice: O): seq<Property<O>> {
    if HasProperty(ps, "toolDescription") then []
    else if HasProperty(ps, "resource") || HasProperty(ps, "operation") then
      [Property("descriptionType", choice, "auto", ""), Property("toolDescription", none, description, "descriptionType: manual")]
    else
      [Property("toolDescription", none, description, "")]
  }

  /** `convertNodeToAiTool`. */
  function AsTool<O>(n: Node<O>, none: O, choice: O): Node<O> {
    n.(name := n.name + "Tool", displayName := n.displayName + " Tool", inputs := [], outputs := ["ai_tool"],
       usableAsTool := false,
       properties := ToolProperties(n.properties, n.description, none, choice) + n.properties,
       codex := Some(Codex(["AI"], map["AI" := ["Tools"], "Tools" := ["Other Tools"]],
                           if n.codex.Some? then n.codex.value.resources else "")))
  }

  /** What a conversion changes beside the properties: names, ends, the mark, and the codex but for its
      resources. Everything else is that of the node. */
  predicate ToolFields<O>(n: Node<O>, tool: Node<O>) {
    && tool.name == n.name + "Tool" && tool.displayName == n.displayName + " Tool"
    && tool.inputs == [] && tool.outputs == ["ai_tool"] && !tool.usableAsTool
    && tool.codex.Some? && tool.codex.value.categories == ["AI"]
    && tool.codex.value.subcategories == map["AI" := ["Tools"], "Tools" := ["Other Tools"]]
    && tool.codex.value.resources == (if n.codex.Some? then n.codex.value.resources else "")
    && tool.description == n.description && tool.version == n.version && tool.defaultVersion == n.defaultVersion
    && tool.credentials == n.credentials
  }

  /** Whether and how the description of a tool can be chosen: it starts as the description of the node,
      and is there only once; next to resources or operations it can be set automatically. */
  lemma ToolIsDescribed<O>(n: Node<O>, none: O, choice: O)
    ensures var tool := AsTool(n, none, choice);
            && ToolFields(n, tool)
            && var more := |tool.properties| - |n.properties|;
               && 0 <= more <= 2 && tool.properties[more..] == n.properties
               && (more == 0 <==> HasProperty(n.properties, "toolDescription"))
               && (more == 2 <==> !HasProperty(n.properties, "toolDescription")
                                  && (HasProperty(n.properties, "resource") || HasProperty(n.properties, "operation")))
               && (more > 0 ==>
                     var description := tool.properties[more - 1];
                     && description.name == "toolDescription" && description.default == n.description && description.options == none
                     && description.displayOptions == if more == 2 then "descriptionType: manual" else "")
               && (more == 2 ==>
                     var kind := tool.properties[0];
                     kind.name == "descriptionType" && kind.options == choice && kind.default == "auto")
  {
    var front := ToolProperties(n.properties, n.description, none, choice);
    assert (front + n.properties)[|front|..] == n.properties;
  }

  /** A tool always has a description property and keeps the properties of its node at the end;
      converting it again puts nothing more in front. */
  lemma ConvertTwiceAddsNothing<O>(n: Node<O>, none: O, choice: O, other: O)
    ensures var tool := AsTool(n, none, choice);
            && HasProperty(tool.properties, "toolDescription")
            && |tool.properties| >= |n.properties|
            && tool.properties[|tool.properties| - |n.properties|..] == n.properties
            && AsTool(tool, none, other).properties == tool.properties
  {
    var front := ToolProperties(n.properties, n.description, none, choice);
    var all := front + n.properties;
    if HasProperty(n.properties, "toolDescription") {
      var i :| 0 <= i < |n.properties| && n.properties[i].name == "toolDescription";
      assert all[|front| + i] == n.properties[i];
    } else {
      assert all[|front| - 1].name == "toolDescription";
    }
    assert HasProperty(all, "toolDescription");
    assert [] + all == all;
  }

  // ---------- custom API call options ----------

  const OAUTH_TYPES := ["oAuth2Api", "googleOAuth2Api", "oAuth1Api"]

  function FindCredential(types: seq<CredentialType>, name: string): Option<CredentialType> {
    if types == [] then None else if types[0].name == name then Some(types[0]) else FindCredential(types[1..], name)
  }

  predicate ForwardsAuth(types: seq<CredentialType>, name: string) {
    var found := FindCredential(types, name);
    found.Some? && (found.value.authenticate ||
      (found.value.parents.Some? && exists p :: p in found.value.parents.value && p in OAUTH_TYPES))
  }

  predicate SupportsProxyAuth<O>(n: Node<O>, types: seq<CredentialType>) {
    n.credentials.Some? && exists c :: c in n.credentials.value && ForwardsAuth(types, c)
  }

  lemma {:induction false} FirstOfName(types: seq<CredentialType>, name: string)
    ensures FindCredential(types, name).None? <==> forall i :: 0 <= i < |types| ==> types[i].name != name
    ensures FindCredential(types, name).Some? ==>
              exists i :: 0 <= i < |types| && types[i] == FindCredential(types, name).value && types[i].name == name
                          && forall j :: 0 <= j < i ==> types[j].name != name
  {
    if types != [] && types[0].name != name {
      var rest := types[1..];
      FirstOfName(rest, name);
      if FindCredential(types, name).Some? {
        var i :| 0 <= i < |rest| && rest[i] == FindCredential(rest, name).value && rest[i].name == name
                 && forall j :: 0 <= j < i ==> rest[j].name != name;
        assert types[i + 1] == rest[i];
      } else {
        assert forall i :: 0 < i < |types| ==> types[i] == rest[i - 1];
      }
    }
  }

  /** A latest version that supports proxy authentication. */
  predicate Eligible<O>(n: Node<O>, types: seq<CredentialType>) {
    (n.defaultVersion.None? || n.version == Single(n.defaultVersion.value)) && SupportsProxyAuth(n, types)
  }

  /** The `i`-th type is the first of its name, and authenticates itself or lists an OAuth type. */
  ghost predicate Authenticates(types: seq<CredentialType>, i: nat)
    requires i < |types|
  {
    && (forall j :: 0 <= j < i ==> types[j].name != types[i].name)
    && (types[i].authenticate
        || (types[i].parents.Some? && exists p :: p in types[i].parents.value && p in {"oAuth2Api", "googleOAuth2Api", "oAuth1Api"}))
  }

  /** Exactly the nodes without a default version, or of that version, that use such a type take the option. */
  lemma EligibleIff(n: SharedNode, types: seq<CredentialType>)
    ensures Eligible(n, types) <==>
              && (n.defaultVersion.Some? ==> n.version.Single? && n.version.number == n.defaultVersion.value)
              && n.credentials.Some? && exists i :: 0 <= i < |types| && types[i].name in n.credentials.value && Authenticates(types, i)
  {
    forall c
      ensures ForwardsAuth(types, c) <==> exists i :: 0 <= i < |types| && types[i].name == c && Authenticates(types, i)
    {
      FirstOfName(types, c);
      AuthenticatesFirst(types, c);
    }
    hide Authenticates, ForwardsAuth;
  }

  lemma AuthenticatesFirst(types: seq<CredentialType>, c: string)
    requires FindCredential(types, c).None? <==> forall i :: 0 <= i < |types| ==> types[i].name != c
    requires FindCredential(types, c).Some? ==>
               exists i :: 0 <= i < |types| && types[i] == FindCredential(types, c).value && types[i].name == c
                           && forall j :: 0 <= j < i ==> types[j].name != c
    ensures ForwardsAuth(types, c) <==> exists i :: 0 <= i < |types| && types[i].name == c && Authenticates(types, i)
  {
    hide FindCredential;
    if FindCredential(types, c).Some? {
      var i :| 0 <= i < |types| && types[i] == FindCredential(types, c).value && types[i].name == c
               && forall j :: 0 <= j < i ==> types[j].name != c;
      assert ForwardsAuth(types, c) <==> Authenticates(types, i);
    }
  }

  predicate TakesCustomCall<O>(p: Property<Option<O>>) {
    p.name in ["resource", "operation"] && p.options.Some?
  }

  function WithCustomCall(items: seq<OptionItem>): seq<OptionItem> {
    if items != [] && items[|items| - 1].name == CUSTOM_API_CALL_NAME then items else items + [CUSTOM_API_CALL]
  }

  /** Pushes onto one list; reading the last element of an empty list throws. */
  function InjectedAt(store: Store, a: Address): Option<Store> {
    if ItemsAt(store, a) == [] then None else Some(store[a := WithCustomCall(ItemsAt(store, a))])
  }

  function InjectedInto(store: Store, ps: seq<Property<Option<Address>>>): Option<Store> {
    if ps == [] then Some(store)
    else if !TakesCustomCall(ps[0]) then InjectedInto(store, ps[1..])
    else
      var next := InjectedAt(store, ps[0].options.value);
      if next.None? then None else InjectedInto(next.value, ps[1..])
  }

  /** `injectCustomApiCallOptions`, or nothing if it throws. */
  function InjectedAll(store: Store, nodes: seq<SharedNode>, types: seq<CredentialType>): Option<Store>
    decreases |nodes|
  {
    if nodes == [] then Some(store)
    else
      var next := if Eligible(nodes[0], types) then InjectedInto(store, nodes[0].properties) else Some(store);
      if next.None? then None else InjectedAll(next.value, nodes[1..], types)
  }

  /** The lists as a throw leaves them, or as they are in the end if nothing throws. */
  function LeftInto(store: Store, ps: seq<Property<Option<Address>>>): Store {
    if ps == [] then store
    else if !TakesCustomCall(ps[0]) then LeftInto(store, ps[1..])
    else
      var next := InjectedAt(store, ps[0].options.value);
      if next.None? then store else LeftInto(next.value, ps[1..])
  }

  function LeftAll(store: Store, nodes: seq<SharedNode>, types: seq<CredentialType>): Store
    decreases |nodes|
  {
    if nodes == [] then store
    else if !Eligible(nodes[0], types) then LeftAll(store, nodes[1..], types)
    else
      var next := InjectedInto(store, nodes[0].properties);
      if next.None? then LeftInto(store, nodes[0].properties) else LeftAll(next.value, nodes[1..], types)
  }

  // ---------- what injection does to each list ----------

  ghost predicate Holds(ps: seq<Property<Option<Address>>>, a: Address) {
    exists p :: p in ps && TakesCustomCall(p) && p.options.value == a
  }

  /** `a` is the option list of a resource or operation of an eligible node. */
  ghost predicate Target(nodes: seq<SharedNode>, types: seq<CredentialType>, a: Address) {
    exists n :: n in nodes && TargetOf(n, types, a)
  }

  ghost predicate TargetOf(n: SharedNode, types: seq<CredentialType>, a: Address) {
    Eligible(n, types) && Holds(n.properties, a)
  }

  /** The store with the option added exactly to the lists that `targets` selects. */
  ghost predicate InjectedWhere(store: Store, r: Store, targets: Address -> bool) {
    forall a :: ItemsAt(r, a) == if targets(a) then WithCustomCall(ItemsAt(store, a)) else ItemsAt(store, a)
  }

  lemma {:induction false} InjectedIntoPointwise(store: Store, ps: seq<Property<Option<Address>>>)
    ensures InjectedInto(store, ps).None? <==> exists a :: Holds(ps, a) && ItemsAt(store, a) == []
    ensures InjectedInto(store, ps).Some? ==> InjectedWhere(store, InjectedInto(store, ps).value, (a: Address) => Holds(ps, a))
    decreases |ps|
  {
    if ps != [] {
      assert forall p :: p in ps <==> p == ps[0] || p in ps[1..];
      forall a
        ensures Holds(ps, a) <==> (TakesCustomCall(ps[0]) && ps[0].options.value == a) || Holds(ps[1..], a)
      {
      }
      if !TakesCustomCall(ps[0]) {
        InjectedIntoPointwise(store, ps[1..]);
      } else {
        var b := ps[0].options.value;
        assert Holds(ps, b);
        var next := InjectedAt(store, b);
        if next.Some? {
          InjectedIntoPointwise(next.value, ps[1..]);
          assert forall a :: ItemsAt(next.value, a) == [] <==> ItemsAt(store, a) == [];
        }
      }
    }
  }

  /** Injection throws exactly if some targeted list is empty, and otherwise adds the option to
      exactly the targeted lists, once, however many properties and nodes share them. */
  lemma {:induction false} InjectionPointwise(store: Store, nodes: seq<SharedNode>, types: seq<CredentialType>)
    ensures InjectedAll(store, nodes, types).None? <==> exists a :: Target(nodes, types, a) && ItemsAt(store, a) == []
    ensures InjectedAll(store, nodes, types).Some? ==>
              InjectedWhere(store, InjectedAll(store, nodes, types).value, (a: Address) => Target(nodes, types, a))
    decreases |nodes|
  {
    hide Eligible, InjectedInto;
    if nodes != [] {
      assert forall n :: n in nodes <==> n == nodes[0] || n in nodes[1..];
      forall a
        ensures Target(nodes, types, a) <==> TargetOf(nodes[0], types, a) || Target(nodes[1..], types, a)
      {
      }
      var next := if Eligible(nodes[0], types) then InjectedInto(store, nodes[0].properties) else Some(store);
      InjectedIntoPointwise(store, nodes[0].properties);
      if next.Some? {
        InjectionPointwise(next.value, nodes[1..], types);
        assert forall a :: ItemsAt(next.value, a) == [] <==> ItemsAt(store, a) == [];
      }
    }
  }

  lemma {:induction false} LeftIntoPointwise(store: Store, ps: seq<Property<Option<Address>>>, a: Address)
    ensures InjectedInto(store, ps).Some? ==> LeftInto(store, ps) == InjectedInto(store, ps).value
    ensures var r := LeftInto(store, ps);
            ItemsAt(r, a) == ItemsAt(store, a) || (Holds(ps, a) && ItemsAt(r, a) == WithCustomCall(ItemsAt(store, a)))
    decreases |ps|
  {
    if ps != [] {
      var rest := ps[1..];
      assert forall p :: p in ps <==> p == ps[0] || p in rest;
      if !TakesCustomCall(ps[0]) {
        LeftIntoPointwise(store, rest, a);
      } else {
        var next := InjectedAt(store, ps[0].options.value);
        if next.Some? {
          LeftIntoPointwise(next.value, rest, a);
        }
      }
    }
  }

  /** Wherever it throws, each list is as it was, or is a targeted one with the option added once. */
  lemma {:induction false} LeftPointwise(store: Store, nodes: seq<SharedNode>, types: seq<CredentialType>, a: Address)
    ensures InjectedAll(store, nodes, types).Some? ==> LeftAll(store, nodes, types) == InjectedAll(store, nodes, types).value
    ensures var r := LeftAll(store, nodes, types);
            || ItemsAt(r, a) == ItemsAt(store, a)
            || (Target(nodes, types, a) && ItemsAt(r, a) == WithCustomCall(ItemsAt(store, a)))
    decreases |nodes|
  {
    if nodes != [] {
      var n, rest := nodes[0], nodes[1..];
      assert forall m :: m in nodes <==> m == n || m in rest;
      assert Target(nodes, types, a) <==> TargetOf(n, types, a) || Target(rest, types, a);
      LeftIntoPointwise(store, n.properties, a);
      if !Eligible(n, types) {
        LeftPointwise(store, rest, types, a);
      } else if InjectedInto(store, n.properties).Some? {
        LeftPointwise(InjectedInto(store, n.properties).value, rest, types, a);
      }
    }
  }
}
