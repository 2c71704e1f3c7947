/**
 The service that rebuilds the node types and the indexes from the loaders, and looks classes up.
 Each method is proved against the functions of the modules it imports.
 */
module LoadNodesAndCredentialsService {
  import opened Wrappers
  import opened NodeDescriptions
  import opened NodeRebuild
  import opened NodeIndex
  import opened IndexContents

  /** The tool made for each usable node carries its name, and the indexes have it under the
      source of its node, for the credentials of its node. */
  lemma ToolsAreIndexed(loaders: seq<Loader>, count: Address, base: Address, i: nat, c: string)
    requires var usable := Usable(AllNodes(loaders)); i < |usable| && NoToolAmong(Names(usable))
    ensures var usable := Usable(AllNodes(loaders));
            var tools := Tools(usable, count, base);
            && |tools| == |usable| && tools[i].name == usable[i].name + "Tool"
            && NodeInfo(KnownAfter(loaders), tools[i].name) == NodeInfo(Index(loaders), usable[i].name)
            && (Supports(Index(loaders), c, usable[i].name) ==> Supports(KnownAfter(loaders), c, tools[i].name))
            && (Supports(KnownAfter(loaders), c, tools[i].name) ==>
                  Supports(Index(loaders), c, usable[i].name) || Supports(Index(loaders), c, tools[i].name))
  {
    hide AllNodes, Index, Usable, AddTools, Supports, NodeInfo, Tools;
    var usable := Usable(AllNodes(loaders));
    var names := Names(usable);
    assert names[i] in names;
    ToolNames(usable, count, base, i);
    ToolIndexesAgree(Index(loaders), names, names[i], c);
    SupportedAfterTools(Index(loaders), names, c, names[i]);
    SupportedAfterTools(Index(loaders), names, c, names[i] + "Tool");
    forall m | m in names && m + "Tool" == names[i] + "Tool"
      ensures m == names[i]
    {
      SameTool(m, names[i]);
    }
  }

  /** For distinct packages without a dot, the tool of a listed node that its loader knows is in the type
      list under the full name of its node, and in the index under the class, the directory and the
      path of that loader. */
  lemma ListedToolsAreIndexed(loaders: seq<Loader>, count: Address, base: Address, i: nat, j: nat)
    requires PlainPackages(loaders) && NoToolAmong(Names(Usable(AllNodes(loaders))))
    requires i < |loaders| && j < |loaders[i].nodes| && loaders[i].nodes[j].usableAsTool
    requires loaders[i].nodes[j].name in loaders[i].knownNodes
    ensures var l, n := loaders[i], loaders[i].nodes[j];
            var tools := Tools(Usable(AllNodes(loaders)), count, base);
            && NodesBefore(loaders, i) + j <= |AllNodes(loaders)|
            && var k := UsableBefore(AllNodes(loaders), NodesBefore(loaders, i) + j);
               && k < |tools| && tools[k].name == l.packageName + "." + n.name + "Tool"
               && var source := l.knownNodes[n.name];
                  NodeInfo(KnownAfter(loaders), tools[k].name) == Some(Located(source.className, l.directory, source.path))
  {
    hide *;
    ListedNodesAreIndexed(loaders, i, j);
    StandsAt(loaders, i, j);
    var at := NodesBefore(loaders, i) + j;
    var k := UsableBefore(AllNodes(loaders), at);
    UsableInOrder(AllNodes(loaders), at);
    ToolsAreIndexed(loaders, count, base, k, "");
  }

  lemma {:induction false} ToolNames(usable: seq<SharedNode>, count: Address, base: Address, i: nat)
    requires i < |usable|
    ensures |Tools(usable, count, base)| == |usable| && Tools(usable, count, base)[i].name == usable[i].name + "Tool"
    decreases |usable|
  {
    ToolCount(usable[1..], count, base + count + 1);
    if i > 0 {
      ToolNames(usable[1..], count, base + count + 1, i - 1);
    }
  }

  lemma {:induction false} ToolCount(usable: seq<SharedNode>, count: Address, base: Address)
    ensures |Tools(usable, count, base)| == |usable|
    decreases |usable|
  {
    if usable != [] {
      ToolCount(usable[1..], count, base + count + 1);
    }
  }

  lemma NextTool(usable: seq<SharedNode>, i: nat, store: Store, known: Known, count: Address, free: Address)
    requires i < |usable|
    ensures Tools(usable[i..], count, free) == [ToolOf(usable[i], free, free + count)] + Tools(usable[i + 1..], count, free + count + 1)
    ensures ToolStore(store, usable[i..], count, free)
         == ToolStore(NextStore(store, count, free), usable[i + 1..], count, free + count + 1)
    ensures AddTools(known, Names(usable[i..])) == AddTools(AddTool(known, usable[i].name), Names(usable[i + 1..]))
  {
    hide ToolOf, NextStore, AddTool;
    var names := Names(usable[i..]);
    assert usable[i..][1..] == usable[i + 1..];
    assert names[1..] == Names(usable[i + 1..]);
  }

  lemma NoMoreTools(usable: seq<SharedNode>, store: Store, known: Known, count: Address, free: Address)
    ensures Tools(usable[|usable|..], count, free) == [] && ToolStore(store, usable[|usable|..], count, free) == store
    ensures AddTools(known, Names(usable[|usable|..])) == known
  {
  }

  ghost predicate Bounded(l: Loader, count: Address) {
    AllWithin(l.nodes, 0, count) && forall node :: node in l.nodeFiles ==> AllWithin(l.nodeFiles[node].described, 0, count)
  }

  lemma {:induction false} NodesAreBounded(loaders: seq<Loader>, count: Address)
    requires forall l :: l in loaders ==> Bounded(l, count)
    ensures AllWithin(AllNodes(loaders), 0, count)
    decreases |loaders|
  {
    if loaders != [] {
      var n := |loaders| - 1;
      assert loaders[n] in loaders && forall l :: l in loaders[..n] ==> l in loaders;
      NodesAreBounded(loaders[..n], count);
      RenamedAreBounded(loaders[n], count);
    }
  }

  lemma RenamedAreBounded(l: Loader, count: Address)
    requires Bounded(l, count)
    ensures AllWithin(RenamedNodes(l), 0, count)
  {
    forall n | n in RenamedNodes(l)
      ensures Within(n, 0, count)
    {
      var i :| 0 <= i < |l.nodes| && RenamedNodes(l)[i] == n;
      assert l.nodes[i] in l.nodes && n.properties == l.nodes[i].properties;
    }
  }

  class LoadNodesAndCredentials {
    var loaders: seq<Loader>
    var known: Known
    var nodes: seq<SharedNode>
    var credentials: seq<CredentialType>
    var loadedNodes: map<string, Class>
    var loadedCredentials: map<string, Class>

    /** The option lists: those of the loaders lie below `count`, and new ones go to `free`. */
    var store: Store
    const count: Address
    var free: Address

    ghost function Lookups(): Lookup
      reads this`loaders, this`loadedCredentials
    {
      Lookup(loaders, loadedCredentials)
    }

    /** The lists that the loaders' descriptions have, or will have, lie below `count`. */
    ghost predicate Valid()
      reads this`loaders, this`free
    {
      count <= free && forall l :: l in loaders ==> Bounded(l, count)
    }

    constructor (loaders: seq<Loader>, store: Store, count: Address)
      requires forall l :: l in loaders ==> Bounded(l, count)
      ensures this.loaders == loaders && this.store == store && this.count == count == free
      ensures known == Known(map[], map[]) && nodes == [] && credentials == []
      ensures loadedNodes == map[] && loadedCredentials == map[]
      ensures Valid()
    {
      this.loaders, this.store, this.count, free := loaders, store, count, count;
      known, nodes, credentials := Known(map[], map[]), [], [];
      loadedNodes, loadedCredentials := map[], map[];
    }

    // ---------- rebuilding ----------

    method ConvertNodeToAiTool(node: SharedNode, choice: Address) returns (r: SharedNode)
      ensures r == AsTool(node, None, Some(choice)) && ToolFields(node, r)
    {
      r := node.(name := node.name + "Tool", inputs := [], outputs := ["ai_tool"], displayName := node.displayName + " Tool",
                 usableAsTool := false);
      var hasResource := HasProperty(r.properties, "resource");
      var hasOperation := HasProperty(r.properties, "operation");
      if !HasProperty(r.properties, "toolDescription") {
        var description := Property("toolDescription", None, r.description, "");
        if hasResource || hasOperation {
          description := description.(displayOptions := "descriptionType: manual");
        }
        r := r.(properties := [description] + r.properties);
        if hasResource || hasOperation {
          r := r.(properties := [Property("descriptionType", Some(choice), "auto", "")] + r.properties);
        }
      }
      var resources := if r.codex.Some? then r.codex.value.resources else "";
      r := r.(codex := Some(Codex(["AI"], map["AI" := ["Tools"], "Tools" := ["Other Tools"]], resources)));
    }

    /** One node: its copy joins the types, and its entries join the indexes. */
    method CreateAiTool(usable: SharedNode)
      modifies `nodes, `store, `free, `known
      ensures nodes == old(nodes) + [ToolOf(usable, old(free), old(free) + count)]
      ensures store == NextStore(old(store), count, old(free)) && free == old(free) + count + 1
      ensures known == AddTool(old(known), usable.name)
    {
      store := WithCopies(store, count, free)[free + count := DESCRIPTION_CHOICE];
      var copied := usable.(properties := CloneProperties(usable.properties, free));
      var wrapped := ConvertNodeToAiTool(copied, free + count);
      nodes := nodes + [wrapped];
      free := free + count + 1;
      known := known.(nodes := known.nodes[wrapped.name := NodeInfo(known, usable.name)]);
      PushSupported(usable.name, wrapped.name);
    }

    method PushSupported(name: string, tool: string)
      requires tool == name + "Tool"
      modifies `known
      ensures known == Known(old(known).nodes, map c | c in old(known).credentials :: WithTool(old(known).credentials[c], name))
    {
      var todo := set c | c in known.credentials && Supports(known, c, name);
      ghost var before := known;
      while todo != {}
        invariant known.nodes == before.nodes && known.credentials.Keys == before.credentials.Keys
        invariant forall c :: c in todo ==> Supports(before, c, name)
        invariant forall c :: c in before.credentials ==>
                    known.credentials[c] == if c in todo then before.credentials[c] else WithTool(before.credentials[c], name)
        decreases |todo|
      {
        var c :| c in todo;
        var entry := known.credentials[c];
        known := known.(credentials := known.credentials[c := entry.(supportedNodes := Some(entry.supportedNodes.value + [tool]))]);
        todo := todo - {c};
      }
    }

    method CreateAiTools()
      modifies `nodes, `store, `free, `known
      ensures nodes == old(nodes) + Tools(Usable(old(nodes)), count, old(free))
      ensures store == ToolStore(old(store), Usable(old(nodes)), count, old(free))
      ensures free >= old(free)
      ensures known == AddTools(old(known), Names(Usable(old(nodes))))
    {
      var usable := Usable(nodes);
      hide *;
      assert usable[0..] == usable;
      var i := 0;
      while i < |usable|
        invariant 0 <= i <= |usable| && free >= old(free)
        invariant nodes + Tools(usable[i..], count, free) == old(nodes) + Tools(usable, count, old(free))
        invariant ToolStore(store, usable[i..], count, free) == ToolStore(old(store), usable, count, old(free))
        invariant AddTools(known, Names(usable[i..])) == AddTools(old(known), Names(usable))
      {
        NextTool(usable, i, store, known, count, free);
        ghost var before, rest := nodes, Tools(usable[i + 1..], count, free + count + 1);
        CreateAiTool(usable[i]);
        assert before + (nodes[|before|..] + rest) == nodes + rest;
        i := i + 1;
      }
      NoMoreTools(usable, store, known, count, free);
    }

    /** Stops where reading the last item of an empty list throws. */
    method InjectInto(properties: seq<Property<Option<Address>>>) returns (ok: bool)
      modifies `store
      ensures ok <==> InjectedInto(old(store), properties).Some?
      ensures ok ==> store == InjectedInto(old(store), properties).value
      ensures store == LeftInto(old(store), properties)
    {
      var i := 0;
      while i < |properties|
        invariant 0 <= i <= |properties|
        invariant InjectedInto(store, properties[i..]) == InjectedInto(old(store), properties)
        invariant LeftInto(store, properties[i..]) == LeftInto(old(store), properties)
      {
        assert properties[i..][1..] == properties[i + 1..];
        var p := properties[i];
        if p.name in ["resource", "operation"] && p.options.Some? {
          var options := ItemsAt(store, p.options.value);
          if options == [] {
            return false;
          }
          if options[|options| - 1].name != CUSTOM_API_CALL_NAME {
            options := options + [CUSTOM_API_CALL];
          }
          store := store[p.options.value := options];
        }
        i := i + 1;
      }
      return true;
    }

    method InjectCustomApiCallOptions() returns (ok: bool)
      modifies `store
      ensures ok <==> InjectedAll(old(store), nodes, credentials).Some?
      ensures ok ==> store == InjectedAll(old(store), nodes, credentials).value
      ensures store == LeftAll(old(store), nodes, credentials)
    {
      var i := 0;
      while i < |nodes|
        invariant 0 <= i <= |nodes|
        invariant InjectedAll(store, nodes[i..], credentials) == InjectedAll(old(store), nodes, credentials)
        invariant LeftAll(store, nodes[i..], credentials) == LeftAll(old(store), nodes, credentials)
      {
        assert nodes[i..][1..] == nodes[i + 1..];
        var isLatestVersion := nodes[i].defaultVersion.None? || nodes[i].version == Single(nodes[i].defaultVersion.value);
        if isLatestVersion && SupportsProxyAuth(nodes[i], credentials) {
          var injected := InjectInto(nodes[i].properties);
          if !injected {
            return false;
          }
        }
        i := i + 1;
      }
      return true;
    }

    method IndexNodes(loader: Loader)
      modifies `known
      ensures known == old(known).(nodes := old(known).nodes + NodeEntries(loader))
    {
      var nodes, todo := known.nodes, loader.knownNodes.Keys;
      ghost var before := nodes;
      ghost var all := LocatedNodes(loader);
      ghost var done: map<string, Option<Located>> := map[];
      NoFullNames(loader.packageName, nodes);
      hide UnderFullNames, FullName;
      while todo != {}
        invariant todo <= loader.knownNodes.Keys && done.Keys == loader.knownNodes.Keys - todo
        invariant forall node :: node in done ==> done[node] == all[node]
        invariant known == old(known) && nodes == before + UnderFullNames(loader.packageName, done)
      {
        var node :| node in todo;
        var source := loader.knownNodes[node];
        var entry := Some(Located(source.className, loader.directory, source.path));
        OneMoreFullName(loader.packageName, done, node, entry, before);
        nodes := nodes[FullName(loader.packageName, node) := entry];
        done := done[node := entry];
        todo := todo - {node};
      }
      assert done == all;
      known := known.(nodes := nodes);
    }

    method IndexCredentials(loader: Loader)
      modifies `known
      ensures known == old(known).(credentials := old(known).credentials + CredentialEntries(loader))
    {
      var todo := loader.knownCredentials.Keys;
      while todo != {}
        invariant todo <= loader.knownCredentials.Keys && known.nodes == old(known).nodes
        invariant known.credentials == old(known).credentials
                    + map t | t in loader.knownCredentials && t !in todo :: CredentialEntryOf(loader, t)
      {
        var t :| t in todo;
        var CredentialEntry(source, supportedNodes, parents) := loader.knownCredentials[t];
        var entry := CredentialEntry(Located(source.className, loader.directory, source.path), Prefixed(loader, supportedNodes), parents);
        known := known.(credentials := known.credentials[t := entry]);
        todo := todo - {t};
      }
    }

    /** The nodes that a loader holds. */
    method HoldNodes(loader: Loader)
      modifies `loadedNodes
      ensures loadedNodes == old(loadedNodes) + UnderFullNames(loader.packageName, loader.nodeClasses.loaded)
    {
      var held := loader.nodeClasses.loaded;
      var todo := held.Keys;
      ghost var done: map<string, Class> := map[];
      NoFullNames(loader.packageName, loadedNodes);
      hide UnderFullNames, FullName;
      while todo != {}
        invariant todo <= held.Keys && done.Keys == held.Keys - todo
        invariant forall node :: node in done ==> done[node] == held[node]
        invariant loadedNodes == old(loadedNodes) + UnderFullNames(loader.packageName, done)
      {
        var node :| node in todo;
        OneMoreFullName(loader.packageName, done, node, held[node], old(loadedNodes));
        loadedNodes := loadedNodes[FullName(loader.packageName, node) := held[node]];
        done := done[node := held[node]];
        todo := todo - {node};
      }
      assert done == held;
    }

    /** The credentials that a loader holds. */
    method HoldCredentials(loader: Loader)
      modifies `loadedCredentials
      ensures loadedCredentials == old(loadedCredentials) + loader.credentialClasses.loaded
    {
      var held := loader.credentialClasses.loaded;
      var todo := held.Keys;
      while todo != {}
        invariant todo <= held.Keys
        invariant loadedCredentials == old(loadedCredentials) + map t | t in held && t !in todo :: held[t]
      {
        var t :| t in todo;
        loadedCredentials := loadedCredentials[t := held[t]];
        todo := todo - {t};
      }
      assert held == map t | t in held :: held[t];
    }

    method IndexLoaders()
      modifies `known, `nodes, `credentials, `loadedNodes, `loadedCredentials
      ensures known == Index(loaders) && nodes == AllNodes(loaders) && credentials == AllCredentials(loaders)
      ensures loadedNodes == LoadedNodes(loaders) && loadedCredentials == LoadedCredentials(loaders)
      ensures ListsNodes(loaders, nodes) && |nodes| == NodesBefore(loaders, |loaders|) && ListsCredentials(loaders, credentials)
    {
      known, nodes, credentials, loadedNodes, loadedCredentials := Known(map[], map[]), [], [], map[], map[];
      var i := 0;
      while i < |loaders|
        invariant 0 <= i <= |loaders|
        invariant known == Index(loaders[..i]) && nodes == AllNodes(loaders[..i]) && credentials == AllCredentials(loaders[..i])
        invariant loadedNodes == LoadedNodes(loaders[..i]) && loadedCredentials == LoadedCredentials(loaders[..i])
      {
        OneMoreLoader(loaders, i);
        hide *;
        IndexLoader(loaders[i]);
        i := i + 1;
      }
      assert loaders[..i] == loaders;
      NodesAreListed(loaders);
      CredentialsAreListed(loaders);
    }

    method IndexLoader(loader: Loader)
      modifies `known, `nodes, `credentials, `loadedNodes, `loadedCredentials
      ensures known == Indexed(old(known), loader)
      ensures nodes == old(nodes) + RenamedNodes(loader) && credentials == old(credentials) + RenamedCredentials(loader)
      ensures loadedNodes == old(loadedNodes) + UnderFullNames(loader.packageName, loader.nodeClasses.loaded)
      ensures loadedCredentials == old(loadedCredentials) + loader.credentialClasses.loaded
    {
      nodes := nodes + RenamedNodes(loader);
      credentials := credentials + RenamedCredentials(loader);
      HoldNodes(loader);
      HoldCredentials(loader);
      IndexNodes(loader);
      IndexCredentials(loader);
    }

    /** A rebuild. The indexes are those of the loaders whether or not it throws. */
    method PostProcessLoaders() returns (ok: bool)
      modifies this
      ensures loaders == old(loaders) && free >= old(free) && (old(Valid()) ==> Valid())
      ensures known == KnownAfter(loaders) && credentials == AllCredentials(loaders)
      ensures loadedNodes == LoadedNodes(loaders) && loadedCredentials == LoadedCredentials(loaders)
      ensures var result := Rebuilt(old(store), AllNodes(loaders), AllCredentials(loaders), count, old(free));
              (ok <==> result.Some?) && (ok ==> result == Some((store, nodes)))
      ensures nodes == AllNodes(loaders) + Tools(Usable(AllNodes(loaders)), count, old(free))
      ensures store == LeftAll(ToolStore(old(store), Usable(AllNodes(loaders)), count, old(free)), nodes, credentials)
      ensures ListsNodes(loaders, nodes) && ListsCredentials(loaders, credentials)
    {
      hide Index, AllNodes, AllCredentials, LoadedNodes, LoadedCredentials, Tools, ToolStore, AddTools, Usable, Names, InjectedAll,
           LeftAll, Bounded, ListsNodes, ListsCredentials;
      IndexLoaders();
      ListsNodesAndMore(loaders, nodes, Tools(Usable(nodes), count, free));
      CreateAiTools();
      ok := InjectCustomApiCallOptions();
    }

    /** Two rebuilds, as after a hot reload: the second never throws where the first did not, the
        indexes are the same, and the types show the same exactly if every usable node keeps up. */
    method PostProcessTwice() returns (ok: bool, first: Store, types: seq<SharedNode>)
      requires Valid()
      modifies this
      ensures Valid() && loaders == old(loaders) && known == KnownAfter(loaders)
      ensures ok <==> Rebuilt(old(store), AllNodes(loaders), AllCredentials(loaders), count, old(free)).Some?
      ensures ok ==> Rebuilt(old(store), AllNodes(loaders), AllCredentials(loaders), count, old(free)) == Some((first, types))
      ensures ok ==>
                (ShownAll(first, types) == ShownAll(store, nodes) <==>
                   forall n :: n in AllNodes(loaders) && n.usableAsTool ==>
                     KeepsUp(n, AllNodes(loaders), AllCredentials(loaders), old(store)))
    {
      NodesAreBounded(loaders, count);
      hide Rebuilt, KeepsUp, ShownAll, AllNodes, AllCredentials, KnownAfter, LeftAll, Tools, ToolStore, LoadedNodes,
           LoadedCredentials, Bounded;
      ghost var given, base := store, free;
      ok := PostProcessLoaders();
      first, types := store, nodes;
      if ok {
        ghost var again := free;
        RebuildTwice(given, AllNodes(loaders), AllCredentials(loaders), count, base, again);
        var second := PostProcessLoaders();
      }
    }

    // ---------- looking up ----------

    static method NoteNode(byCredential: map<string, seq<string>>, credentials: seq<string>, node: string)
        returns (r: map<string, seq<string>>)
      ensures r == Noted(byCredential, credentials, node)
    {
      r := byCredential;
      for i := 0 to |credentials|
        invariant Noted(r, credentials[i..], node) == Noted(byCredential, credentials, node)
      {
        assert credentials[i..][0] == credentials[i] && credentials[i..][1..] == credentials[i + 1..];
        var c := credentials[i];
        ghost var before := r;
        if c !in r {
          r := r[c := []];
        }
        r := r[c := r[c] + [node]];
        assert r == before[c := (if c in before then before[c] else []) + [node]];
      }
    }

    /** `getNode` of a loader, which may have to load the file first. */
    static method GetNodeOf(l: Loader, node: string) returns (r: Option<Class>, after: Loader)
      ensures r == Get(l.nodeClasses, node in l.knownNodes, node) && after == WithNode(l, node)
    {
      after := l;
      if node !in after.nodeClasses.loaded && node in after.knownNodes {
        if node !in after.nodeClasses.files {
          return None, l;
        }
        if node in after.nodeFiles {
          var file := after.nodeFiles[node];
          var byCredential := NoteNode(after.nodesByCredential, file.credentials, node);
          after := after.(knownNodes := after.knownNodes[node := file.source], nodes := after.nodes + file.described,
                          nodesByCredential := byCredential);
        }
        after := after.(nodeClasses := after.nodeClasses.(loaded := after.nodeClasses.loaded[node := after.nodeClasses.files[node]]));
      }
      if node in after.nodeClasses.loaded {
        return Some(after.nodeClasses.loaded[node]), after;
      }
      return None, after;
    }

    method GetNode(fullNodeType: string) returns (r: Option<Class>)
      modifies `loaders
      ensures r == NodeAnswer(old(loaders), fullNodeType) && loaders == AfterNode(old(loaders), fullNodeType)
      ensures old(Valid()) ==> Valid()
    {
      var (packageName, node) := ReadName(fullNodeType);
      var at := FindLoader(loaders, packageName);
      if at.None? {
        return None;
      }
      ghost var before := loaders;
      var after;
      r, after := GetNodeOf(loaders[at.value], node);
      assert before[at.value] in before;
      BoundedWithNode(before[at.value], node, count);
      loaders := loaders[at.value := after];
      forall l | l in loaders
        ensures l in before || l == after
      {
      }
    }

    /** `getCredential` of a loader. */
    static method GetCredentialOf(l: Loader, t: string) returns (r: Option<Class>, after: Loader)
      ensures r == CredentialOf(l, t) && after == AfterCredential(l, t)
    {
      after := l;
      if t !in after.credentialClasses.loaded && t in after.knownCredentials {
        if t !in after.credentialClasses.files {
          return None, l;
        }
        if t in after.credentialFiles {
          after := after.(knownCredentials := after.knownCredentials[t := LoadedEntry(after, t)],
                          credentials := after.credentials + [after.credentialFiles[t].described]);
        }
        after := after.(credentialClasses :=
          after.credentialClasses.(loaded := after.credentialClasses.loaded[t := after.credentialClasses.files[t]]));
      }
      if t in after.credentialClasses.loaded {
        return Some(after.credentialClasses.loaded[t]), after;
      }
      return None, after;
    }

    method GetCredential(credentialType: string) returns (r: Option<Class>)
      modifies `loaders, `loadedCredentials
      ensures r == Answer(old(Lookups()), credentialType) && Lookups() == AfterLookup(old(Lookups()), credentialType)
      ensures old(Valid()) ==> Valid()
    {
      var i := 0;
      while i < |loaders|
        invariant 0 <= i <= |loaders| && (old(Valid()) ==> Valid())
        invariant Loaded(Lookups(), credentialType, i) == Loaded(old(Lookups()), credentialType, 0)
      {
        if credentialType in loaders[i].knownCredentials {
          ghost var before := loaders;
          assert before[i] in before;
          var class_, after := GetCredentialOf(loaders[i], credentialType);
          if class_.None? {
            return None;
          }
          loaders := loaders[i := after];
          loadedCredentials := loadedCredentials[credentialType := class_.value];
          assert forall l :: l in loaders ==> l in before || l == after;
        }
        i := i + 1;
      }
      if credentialType in loadedCredentials {
        return Some(loadedCredentials[credentialType]);
      }
      return None;
    }
  }

  lemma BoundedWithNode(l: Loader, node: string, count: Address)
    ensures Bounded(l, count) ==> Bounded(WithNode(l, node), count)
  {
    assert forall n :: n in WithNode(l, node).nodes ==> n in l.nodes || (node in l.nodeFiles && n in l.nodeFiles[node].described);
  }

  lemma OneMoreLoader(loaders: seq<Loader>, i: nat)
    requires i < |loaders|
    ensures var front, l := loaders[..i], loaders[i];
            && Index(loaders[..i + 1]) == Indexed(Index(front), l)
            && AllNodes(loaders[..i + 1]) == AllNodes(front) + RenamedNodes(l)
            && AllCredentials(loaders[..i + 1]) == AllCredentials(front) + RenamedCredentials(l)
            && LoadedNodes(loaders[..i + 1]) == LoadedNodes(front) + UnderFullNames(l.packageName, l.nodeClasses.loaded)
            && LoadedCredentials(loaders[..i + 1]) == LoadedCredentials(front) + l.credentialClasses.loaded
  {
    assert loaders[..i + 1][..i] == loaders[..i];
  }
}
