/**
 The indexes over all loaders: sources of nodes and credentials, which nodes each credential
 supports, the entries of the AI tools, and the lookups by name.
 */
module NodeIndex {
  import opened Wrappers
  import opened NodeDescriptions
  import opened Strings

  datatype Source = Source(className: string, path: string)

  /** A path joined to the directory of its loader. */
  datatype Located = Located(className: string, directory: string, path: string)

  datatype CredentialEntry<S> = CredentialEntry(source: S, supportedNodes: Option<seq<string>>, parents: Option<seq<string>>)

  type Class = nat

  /** Classes that a loader holds, and those that its files define. */
  datatype Classes = Classes(loaded: map<string, Class>, files: map<string, Class>)

  datatype Loader = Loader(packageName: string, isPackage: bool, directory: string,
                           nodes: seq<SharedNode>, credentials: seq<CredentialType>,
                           knownNodes: map<string, Source>, knownCredentials: map<string, CredentialEntry<Source>>,
                           nodeClasses: Classes, credentialClasses: Classes,
                           nodeFiles: map<string, NodeFile>, credentialFiles: map<string, CredentialFile>,
                           // the loaded nodes that use each credential
                           nodesByCredential: map<string, seq<string>>)

  /** What loading a node from its file writes into the loader; there is a description for each version. */
  datatype NodeFile = NodeFile(source: Source, described: seq<SharedNode>, credentials: seq<string>)

  /** What loading a credential from its file writes into the loader. */
  datatype CredentialFile = CredentialFile(source: Source, parents: Option<seq<string>>, described: CredentialType)

  /** An entry of `nodes` may be there without a value. */
  datatype Known = Known(nodes: map<string, Option<Located>>, credentials: map<string, CredentialEntry<Located>>)

  // ---------- names ----------

  function FullName(packageName: string, node: string): string {
    packageName + "." + node
  }

  /** What follows the package in a full name. */
  function NodePart(packageName: string, name: string): string {
    if |packageName| < |name| then name[|packageName| + 1..] else ""
  }

  lemma PartOfFullName(packageName: string, node: string)
    ensures NodePart(packageName, FullName(packageName, node)) == node
  {
  }

  /** The package and the node that `getNode` reads off a name; a missing part is `undefined`,
      which a lookup turns into this string. */
  function ReadName(fullName: string): (string, string) {
    var parts := Split(fullName, '.');
    (parts[0], if |parts| > 1 then parts[1] else "undefined")
  }

  /** A name is read back as it was put together exactly if neither part has a dot. */
  lemma NameRoundTrip(packageName: string, node: string)
    ensures ReadName(FullName(packageName, node)) == (packageName, node) <==> '.' !in packageName && '.' !in node
  {
    var name := FullName(packageName, node);
    SplitThenJoin(name, '.');
    var parts := Split(name, '.');
    if '.' !in packageName {
      SplitAfter(packageName, node, '.');
      SplitOfPart(node, '.');
      assert parts == [packageName] + Split(node, '.');
      if '.' in node {
        SplitThenJoin(node, '.');
        assert Split(node, '.')[0] in Split(node, '.');
      }
    } else {
      assert parts[0] in parts;
    }
  }

  /** Names put together from different parts differ, if no part has a dot. */
  lemma NamesNeverCollide(p: string, n: string, q: string, m: string)
    requires '.' !in p && '.' !in n && '.' !in q && '.' !in m
    ensures FullName(p, n) == FullName(q, m) <==> p == q && n == m
  {
    NameRoundTrip(p, n);
    NameRoundTrip(q, m);
  }

  // ---------- indexing the loaders ----------

  function Prefixed(l: Loader, names: Option<seq<string>>): Option<seq<string>> {
    if l.isPackage && names.Some? then
      Some(seq(|names.value|, i requires 0 <= i < |names.value| => FullName(l.packageName, names.value[i])))
    else None
  }

  function RenamedNodes(l: Loader): (r: seq<SharedNode>)
    ensures |r| == |l.nodes|
  {
    seq(|l.nodes|, i requires 0 <= i < |l.nodes| => l.nodes[i].(name := FullName(l.packageName, l.nodes[i].name)))
  }

  function RenamedCredentials(l: Loader): seq<CredentialType> {
    seq(|l.credentials|, i requires 0 <= i < |l.credentials| =>
      l.credentials[i].(supportedNodes := Prefixed(l, l.credentials[i].supportedNodes)))
  }

  function NodeEntry(l: Loader, node: string): Located
    requires node in l.knownNodes
  {
    Located(l.knownNodes[node].className, l.directory, l.knownNodes[node].path)
  }

  /** The entries of `m` under full names. */
  function UnderFullNames<V>(packageName: string, m: map<string, V>): (r: map<string, V>)
    ensures forall node :: node in m ==> FullName(packageName, node) in r && r[FullName(packageName, node)] == m[node]
  {
    assert forall node :: NodePart(packageName, FullName(packageName, node)) == node by {
      forall node
        ensures NodePart(packageName, FullName(packageName, node)) == node
      {
        PartOfFullName(packageName, node);
      }
    }
    map name | name in set node | node in m :: FullName(packageName, node) :: m[NodePart(packageName, name)]
  }

  lemma UnderFullName<V>(packageName: string, m: map<string, V>, name: string)
    ensures var part := NodePart(packageName, name);
            && (name in UnderFullNames(packageName, m) <==> name == FullName(packageName, part) && part in m)
            && (name in UnderFullNames(packageName, m) ==> UnderFullNames(packageName, m)[name] == m[part])
  {
    if name in UnderFullNames(packageName, m) {
      var node :| node in m && name == FullName(packageName, node);
      PartOfFullName(packageName, node);
    }
  }

  lemma OneMoreFullName<V>(packageName: string, m: map<string, V>, node: string, v: V, base: map<string, V>)
    ensures base + UnderFullNames(packageName, m[node := v])
         == (base + UnderFullNames(packageName, m))[FullName(packageName, node) := v]
  {
    hide UnderFullNames, NodePart, FullName;
    var more, left := m[node := v], UnderFullNames(packageName, m)[FullName(packageName, node) := v];
    forall name
      ensures name in UnderFullNames(packageName, more) <==> name in left
      ensures name in left ==> UnderFullNames(packageName, more)[name] == left[name]
    {
      UnderFullName(packageName, m, name);
      UnderFullName(packageName, more, name);
      PartOfFullName(packageName, node);
    }
    assert UnderFullNames(packageName, more) == left;
    assert base + left == (base + UnderFullNames(packageName, m))[FullName(packageName, node) := v];
  }

  lemma NoFullNames<V>(packageName: string, base: map<string, V>)
    ensures base + UnderFullNames(packageName, map[]) == base
  {
  }

  function LocatedNodes(l: Loader): map<string, Option<Located>> {
    map node | node in l.knownNodes :: Some(NodeEntry(l, node))
  }

  function NodeEntries(l: Loader): map<string, Option<Located>> {
    UnderFullNames(l.packageName, LocatedNodes(l))
  }

  function EntryFrom(l: Loader, e: CredentialEntry<Source>): CredentialEntry<Located> {
    CredentialEntry(Located(e.source.className, l.directory, e.source.path), Prefixed(l, e.supportedNodes), e.parents)
  }

  function CredentialEntryOf(l: Loader, t: string): CredentialEntry<Located>
    requires t in l.knownCredentials
  {
    EntryFrom(l, l.knownCredentials[t])
  }

  function CredentialEntries(l: Loader): map<string, CredentialEntry<Located>> {
    map t | t in l.knownCredentials :: CredentialEntryOf(l, t)
  }

  function Indexed(known: Known, l: Loader): Known {
    Known(known.nodes + NodeEntries(l), known.credentials + CredentialEntries(l))
  }

  function Index(loaders: seq<Loader>): Known
    decreases |loaders|
  {
    if loaders == [] then Known(map[], map[])
    else Indexed(Index(loaders[..|loaders| - 1]), loaders[|loaders| - 1])
  }

  function AllNodes(loaders: seq<Loader>): seq<SharedNode>
    decreases |loaders|
  {
    if loaders == [] then [] else AllNodes(loaders[..|loaders| - 1]) + RenamedNodes(loaders[|loaders| - 1])
  }

  function AllCredentials(loaders: seq<Loader>): seq<CredentialType>
    decreases |loaders|
  {
    if loaders == [] then [] else AllCredentials(loaders[..|loaders| - 1]) + RenamedCredentials(loaders[|loaders| - 1])
  }

  /** The nodes and the credentials that the loaders hold already. */
  function LoadedNodes(loaders: seq<Loader>): map<string, Class>
    decreases |loaders|
  {
    if loaders == [] then map[]
    else
      var l := loaders[|loaders| - 1];
      LoadedNodes(loaders[..|loaders| - 1]) + UnderFullNames(l.packageName, l.nodeClasses.loaded)
  }

  function LoadedCredentials(loaders: seq<Loader>): map<string, Class>
    decreases |loaders|
  {
    if loaders == [] then map[]
    else LoadedCredentials(loaders[..|loaders| - 1]) + loaders[|loaders| - 1].credentialClasses.loaded
  }

  // ---------- which loader an entry comes from ----------

  /** The position of the last loader that knows credential type `t`. */
  function LastKnowing(loaders: seq<Loader>, t: string): (r: Option<nat>)
    ensures r.None? <==> forall l :: l in loaders ==> t !in l.knownCredentials
    ensures r.Some? ==> r.value < |loaders| && t in loaders[r.value].knownCredentials
                        && forall i :: r.value < i < |loaders| ==> t !in loaders[i].knownCredentials
    decreases |loaders|
  {
    if loaders == [] then None
    else
      var n := |loaders| - 1;
      assert loaders == loaders[..n] + [loaders[n]];
      if t in loaders[n].knownCredentials then Some(n) else LastKnowing(loaders[..n], t)
  }

  /** The credential index holds, for each type, the entry of the last loader that knows it. */
  lemma {:induction false} EntryIsFromLast(loaders: seq<Loader>, t: string)
    ensures t in Index(loaders).credentials <==> LastKnowing(loaders, t).Some?
    ensures LastKnowing(loaders, t).Some? ==>
              Index(loaders).credentials[t] == CredentialEntryOf(loaders[LastKnowing(loaders, t).value], t)
    decreases |loaders|
  {
    if loaders != [] {
      EntryIsFromLast(loaders[..|loaders| - 1], t);
    }
  }

  predicate DistinctPackages(loaders: seq<Loader>) {
    forall i, j :: 0 <= i < j < |loaders| ==> loaders[i].packageName != loaders[j].packageName
  }

  /** The loader registered under a package name. */
  function FindLoader(loaders: seq<Loader>, packageName: string): (r: Option<nat>)
    ensures r.Some? ==> r.value < |loaders| && loaders[r.value].packageName == packageName
    ensures r.None? ==> forall l :: l in loaders ==> l.packageName != packageName
    decreases |loaders|
  {
    if loaders == [] then None
    else
      var n := |loaders| - 1;
      assert loaders == loaders[..n] + [loaders[n]];
      if loaders[n].packageName == packageName then Some(n) else FindLoader(loaders[..n], packageName)
  }

  lemma NodeEntriesAt(l: Loader, name: string)
    ensures name in NodeEntries(l) ==> Occurrences(name, '.') >= 1
    ensures Occurrences(name, '.') == 1 ==>
              (name in NodeEntries(l) <==> l.packageName == ReadName(name).0 && ReadName(name).1 in l.knownNodes)
    ensures Occurrences(name, '.') == 1 && name in NodeEntries(l) ==>
              NodeEntries(l)[name] == Some(NodeEntry(l, ReadName(name).1))
  {
    if node :| node in l.knownNodes && name == FullName(l.packageName, node) {
      DotsOfName(l.packageName, node);
      NameRoundTrip(l.packageName, node);
      assert node in LocatedNodes(l);
    }
    if Occurrences(name, '.') == 1 {
      NameOfOneDot(name);
      assert ReadName(name).1 in l.knownNodes ==> ReadName(name).1 in LocatedNodes(l);
    }
  }

  lemma DotsOfName(packageName: string, node: string)
    ensures Occurrences(FullName(packageName, node), '.') == Occurrences(packageName, '.') + 1 + Occurrences(node, '.')
    ensures Occurrences(FullName(packageName, node), '.') == 1 ==> '.' !in packageName && '.' !in node
  {
    OccurrencesConcat(packageName, ".", '.');
    OccurrencesConcat(packageName + ".", node, '.');
    NoOccurrences(packageName, '.');
    NoOccurrences(node, '.');
  }

  /** A name with one dot is put together from the parts read off it. */
  lemma NameOfOneDot(name: string)
    requires Occurrences(name, '.') == 1
    ensures name == FullName(ReadName(name).0, ReadName(name).1)
  {
    SplitThenJoin(name, '.');
    var parts := Split(name, '.');
    assert parts == [parts[0], parts[1]] && parts[1..] == [parts[1]];
    assert Join(parts, '.') == parts[0] + ['.'] + parts[1];
  }

  /** The node index and the lookup agree on a name: it is in the index exactly if it is put
      together from the parts read off it and the loader that the lookup picks knows the node, and
      its entry is theirs. */
  ghost predicate Agree(loaders: seq<Loader>, name: string) {
    var (packageName, node) := ReadName(name);
    var at := FindLoader(loaders, packageName);
    && (name in Index(loaders).nodes
        <==> name == FullName(packageName, node) && at.Some? && node in loaders[at.value].knownNodes)
    && (name in Index(loaders).nodes ==> Index(loaders).nodes[name] == Some(NodeEntry(loaders[at.value], node)))
  }

  lemma AgreeStep(loaders: seq<Loader>, front: seq<Loader>, last: Loader, name: string)
    requires loaders == front + [last] && Agree(front, name) && DistinctPackages(loaders) && Occurrences(name, '.') == 1
    ensures Agree(loaders, name)
  {
    var package := ReadName(name).0;
    assert loaders[..|loaders| - 1] == front;
    IndexWithLast(loaders);
    FindWithLast(loaders, package);
    hide ReadName, NodeEntries, FullName, NodeEntry, Index, FindLoader, DistinctPackages, Occurrences;
    NodeEntriesAt(last, name);
    NameOfOneDot(name);
  }

  lemma IndexWithLast(loaders: seq<Loader>)
    requires loaders != []
    ensures Index(loaders).nodes == Index(loaders[..|loaders| - 1]).nodes + NodeEntries(loaders[|loaders| - 1])
  {
    hide NodeEntries, CredentialEntries;
  }

  lemma FindWithLast(loaders: seq<Loader>, packageName: string)
    requires loaders != [] && DistinctPackages(loaders)
    ensures var n := |loaders| - 1;
            if loaders[n].packageName == packageName then FindLoader(loaders, packageName) == Some(n) && FindLoader(loaders[..n], packageName).None?
            else FindLoader(loaders, packageName) == FindLoader(loaders[..n], packageName)
  {
  }

  lemma {:induction false} OneDotAgrees(loaders: seq<Loader>, name: string)
    requires DistinctPackages(loaders) && Occurrences(name, '.') == 1
    ensures Agree(loaders, name)
    decreases |loaders|
  {
    if loaders != [] {
      OneDotAgrees(loaders[..|loaders| - 1], name);
      AgreeStep(loaders, loaders[..|loaders| - 1], loaders[|loaders| - 1], name);
    }
  }

  lemma {:induction false} IndexedNamesHaveDots(loaders: seq<Loader>, name: string)
    ensures name in Index(loaders).nodes ==> Occurrences(name, '.') >= 1
    decreases |loaders|
  {
    if loaders != [] {
      IndexedNamesHaveDots(loaders[..|loaders| - 1], name);
      NodeEntriesAt(loaders[|loaders| - 1], name);
    }
  }

  /** The index and the lookup agree on a name exactly if it has one dot or is not in the index. */
  lemma NodeIndexMatchesLookup(loaders: seq<Loader>, name: string)
    requires DistinctPackages(loaders)
    ensures Agree(loaders, name) <==> Occurrences(name, '.') == 1 || name !in Index(loaders).nodes
  {
    var (packageName, node) := ReadName(name);
    if Occurrences(name, '.') == 1 {
      OneDotAgrees(loaders, name);
    } else {
      IndexedNamesHaveDots(loaders, name);
      if name == FullName(packageName, node) {
        PutTogetherHasOneDot(name);
      }
    }
  }

  lemma PutTogetherHasOneDot(name: string)
    requires name == FullName(ReadName(name).0, ReadName(name).1)
    ensures Occurrences(name, '.') == 1
  {
    SplitThenJoin(name, '.');
    var parts := Split(name, '.');
    var (packageName, node) := ReadName(name);
    assert parts[0] in parts;
    if |parts| > 1 { assert parts[1] in parts; }
    assert '.' !in packageName && '.' !in node;
    NoOccurrences(packageName, '.');
    NoOccurrences(node, '.');
    DotsOfName(packageName, node);
  }

  // ---------- entries of the AI tools ----------

  function NodeInfo(known: Known, name: string): Option<Located> {
    if name in known.nodes then known.nodes[name] else None
  }

  predicate Supports(known: Known, c: string, name: string) {
    c in known.credentials && known.credentials[c].supportedNodes.Some? && name in known.credentials[c].supportedNodes.value
  }

  function WithTool(e: CredentialEntry<Located>, name: string): CredentialEntry<Located> {
    if e.supportedNodes.Some? && name in e.supportedNodes.value
    then e.(supportedNodes := Some(e.supportedNodes.value + [name + "Tool"])) else e
  }

  /** What `createAiTools` adds for one usable node. */
  function AddTool(known: Known, name: string): Known {
    Known(known.nodes[name + "Tool" := NodeInfo(known, name)],
          map c | c in known.credentials :: WithTool(known.credentials[c], name))
  }

  function AddTools(known: Known, names: seq<string>): Known
    decreases |names|
  {
    if names == [] then known else AddTools(AddTool(known, names[0]), names[1..])
  }

  /** No usable node is named like the tool of another. */
  predicate NoToolAmong(names: seq<string>) {
    forall m, n :: m in names && n in names ==> m + "Tool" != n
  }

  ghost predicate IsToolOf(name: string, names: seq<string>) {
    exists m :: m in names && name == m + "Tool"
  }

  lemma SameTool(m: string, n: string)
    requires m + "Tool" == n + "Tool"
    ensures m == n
  {
    assert (m + "Tool")[..|m|] == m && (n + "Tool")[..|n|] == n;
  }

  /** A credential supports a name after the tools are added exactly if it did before, or the
      name is that of a tool whose node it supports. */
  lemma {:induction false} SupportedAfterTools(known: Known, names: seq<string>, c: string, name: string)
    requires NoToolAmong(names)
    ensures Supports(AddTools(known, names), c, name)
       <==> Supports(known, c, name) || exists m :: m in names && name == m + "Tool" && Supports(known, c, m)
    decreases |names|
  {
    if names != [] {
      var n, rest, next := names[0], names[1..], AddTool(known, names[0]);
      assert forall m :: m in names <==> m == n || m in rest;
      SupportedAfterTools(next, rest, c, name);
      SupportedAfterOne(known, n, c, name);
      forall m | m in rest
        ensures Supports(next, c, m) == Supports(known, c, m)
      {
        SupportedAfterOne(known, n, c, m);
      }
    }
  }

  lemma SupportedAfterOne(known: Known, n: string, c: string, name: string)
    ensures Supports(AddTool(known, n), c, name)
       <==> Supports(known, c, name) || (name == n + "Tool" && Supports(known, c, n))
  {
  }

  /** The source of a tool is that of its node; every other entry stays. */
  lemma {:induction false} SourcesAfterTools(known: Known, names: seq<string>, name: string)
    requires NoToolAmong(names)
    ensures name in names ==> NodeInfo(AddTools(known, names), name + "Tool") == NodeInfo(known, name)
    ensures !IsToolOf(name, names) ==> NodeInfo(AddTools(known, names), name) == NodeInfo(known, name)
    ensures name in AddTools(known, names).nodes <==> name in known.nodes || IsToolOf(name, names)
    decreases |names|
  {
    if names != [] {
      var n, rest, next := names[0], names[1..], AddTool(known, names[0]);
      assert forall m :: m in names <==> m == n || m in rest;
      SourcesAfterTools(next, rest, name);
      if name in names {
        SourcesAfterTools(next, rest, name + "Tool");
        if IsToolOf(name + "Tool", rest) {
          var m :| m in rest && name + "Tool" == m + "Tool";
          SameTool(m, name);
        }
      }
    }
  }

  // ---------- usable nodes named like tools ----------

  /** Going through `names` in order, `from` turns into `to` by taking the name of its tool at some
      of the places where it stands. */
  ghost predicate BecomesTool(names: seq<string>, from: string, to: string)
    decreases |names|
  {
    || from == to
    || (names != [] && BecomesTool(names[1..], from, to))
    || (names != [] && names[0] == from && BecomesTool(names[1..], from + "Tool", to))
  }

  /** For any usable nodes, a credential supports a name after the tools are added exactly if it
      supported one that turns into it. */
  lemma {:induction false} SupportedAfterAnyTools(known: Known, names: seq<string>, c: string, name: string)
    ensures Supports(AddTools(known, names), c, name) <==> exists m :: Supports(known, c, m) && BecomesTool(names, m, name)
    decreases |names|
  {
    if names == [] {
      assert BecomesTool(names, name, name);
    } else {
      var n, rest, next := names[0], names[1..], AddTool(known, names[0]);
      SupportedAfterAnyTools(next, rest, c, name);
      hide Supports, AddTool;
      if m :| Supports(next, c, m) && BecomesTool(rest, m, name) {
        SupportedAfterOne(known, n, c, m);
        assert Supports(known, c, m) ==> BecomesTool(names, m, name);
        assert m == n + "Tool" ==> BecomesTool(names, n, name);
      }
      if m :| Supports(known, c, m) && BecomesTool(names, m, name) {
        SupportedAfterOne(known, n, c, m);
        SupportedAfterOne(known, n, c, m + "Tool");
        if m == name {
          assert BecomesTool(rest, m, name);
        } else if m == n && BecomesTool(rest, m + "Tool", name) {
          assert Supports(next, c, m + "Tool");
        } else {
          assert Supports(next, c, m);
        }
      }
    }
  }

  /** The name whose source `name` has in the end: the last usable node with a tool of that name
      decides, and it may itself have taken its source from an earlier one. */
  function SourceName(names: seq<string>, name: string): string
    decreases |names|
  {
    if names == [] then name
    else
      var front, last := names[..|names| - 1], names[|names| - 1];
      if last + "Tool" == name then SourceName(front, last) else SourceName(front, name)
  }

  lemma {:induction false} LastTool(known: Known, names: seq<string>)
    requires names != []
    ensures AddTools(known, names) == AddTool(AddTools(known, names[..|names| - 1]), names[|names| - 1])
    decreases |names|
  {
    hide AddTool;
    if |names| == 1 {
      assert names[..0] == [] && names[1..] == [];
    } else {
      LastTool(AddTool(known, names[0]), names[1..]);
      assert names[1..][..|names| - 2] == names[..|names| - 1][1..];
    }
  }

  /** For any usable nodes, each entry ends with the source of the name that decides. */
  lemma {:induction false} SourcesAfterAnyTools(known: Known, names: seq<string>, name: string)
    ensures NodeInfo(AddTools(known, names), name) == NodeInfo(known, SourceName(names, name))
    decreases |names|
  {
    if names != [] {
      var front, last := names[..|names| - 1], names[|names| - 1];
      LastTool(known, names);
      SourcesAfterAnyTools(known, front, last);
      SourcesAfterAnyTools(known, front, name);
    }
  }

  // ---------- agreement on tools ----------

  /** The indexes agree on tools. The source of a tool is that of its node, and a credential
      supports the tool whenever it supports the node; the converse holds exactly if it did not
      list the name of the tool before. */
  lemma ToolIndexesAgree(known: Known, names: seq<string>, n: string, c: string)
    requires NoToolAmong(names) && n in names
    ensures var after := AddTools(known, names);
            && NodeInfo(after, n + "Tool") == NodeInfo(after, n) == NodeInfo(known, n)
            && (Supports(after, c, n) ==> Supports(after, c, n + "Tool"))
            && ((Supports(after, c, n + "Tool") ==> Supports(after, c, n))
                <==> (Supports(known, c, n + "Tool") ==> Supports(known, c, n)))
  {
    SourcesAfterTools(known, names, n);
    SupportedAfterTools(known, names, c, n);
    SupportedAfterTools(known, names, c, n + "Tool");
    forall m | m in names && m + "Tool" == n + "Tool"
      ensures m == n
    {
      SameTool(m, n);
    }
  }

  lemma AddOneTool(known: Known, n: string)
    ensures AddTools(known, [n]) == AddTool(known, n)
  {
    assert AddTools(AddTool(known, n), []) == AddTool(known, n);
  }

  /** A usable node named like the tool of another loses its source to that tool if it comes
      after the other, and so does its own tool. */
  lemma ToolAmongNodes(known: Known, n: string)
    ensures var after := AddTools(known, [n, n + "Tool"]);
            && NodeInfo(after, n + "Tool") == NodeInfo(known, n)
            && NodeInfo(after, n + "Tool" + "Tool") == NodeInfo(known, n)
    ensures var after := AddTools(known, [n + "Tool", n]);
            && NodeInfo(after, n + "Tool") == NodeInfo(known, n)
            && NodeInfo(after, n + "Tool" + "Tool") == NodeInfo(known, n + "Tool")
  {
    var one, two := [n, n + "Tool"], [n + "Tool", n];
    assert one[1..] == [n + "Tool"] && two[1..] == [n];
    AddOneTool(AddTool(known, n), n + "Tool");
    AddOneTool(AddTool(known, n + "Tool"), n);
    assert |n + "Tool" + "Tool"| > |n + "Tool"| > |n|;
  }

  // ---------- lookups ----------

  /** What a loader answers for a name. */
  function Get(classes: Classes, known: bool, name: string): Option<Class> {
    if name in classes.loaded then Some(classes.loaded[name])
    else if known && name in classes.files then Some(classes.files[name])
    else None
  }

  /** The classes of a loader once it has answered. */
  function AfterGet(classes: Classes, known: bool, name: string): Classes {
    if name !in classes.loaded && known && name in classes.files
    then classes.(loaded := classes.loaded[name := classes.files[name]]) else classes
  }

  /** What is loaded once is held from then on, and what is held is answered without its file. */
  lemma AnswerIsHeld(classes: Classes, known: bool, name: string)
    ensures var answer, after := Get(classes, known, name), AfterGet(classes, known, name);
            && (answer.Some? <==> name in classes.loaded || (known && name in classes.files))
            && (answer.Some? ==> name in after.loaded && after.loaded[name] == answer.value)
            && (answer.Some? ==> answer.value == if name in classes.loaded then classes.loaded[name] else classes.files[name])
            && after.files == classes.files && after.loaded.Keys <= classes.loaded.Keys + {name}
            && forall other :: other in classes.loaded ==> other in after.loaded && after.loaded[other] == classes.loaded[other]
  {
  }

  lemma GetIsStable(classes: Classes, known: bool, name: string, knownOther: bool, other: string)
    requires name == other ==> known == knownOther
    ensures Get(AfterGet(classes, known, name), knownOther, other) == Get(classes, knownOther, other)
  {
  }

  function CredentialOf(l: Loader, t: string): Option<Class> {
    Get(l.credentialClasses, t in l.knownCredentials, t)
  }

  predicate LoadsCredential(l: Loader, t: string) {
    t !in l.credentialClasses.loaded && t in l.knownCredentials && t in l.credentialClasses.files && t in l.credentialFiles
  }

  /** Loading a credential from its file also rewrites its entry and adds its type. */
  function AfterCredential(l: Loader, t: string): Loader {
    var got := l.(credentialClasses := AfterGet(l.credentialClasses, t in l.knownCredentials, t));
    if !LoadsCredential(l, t) then got
    else got.(knownCredentials := l.knownCredentials[t := LoadedEntry(l, t)],
              credentials := l.credentials + [l.credentialFiles[t].described])
  }

  /** The supported nodes are those that were loaded so far and use the credential. */
  function LoadedEntry(l: Loader, t: string): CredentialEntry<Source>
    requires t in l.credentialFiles
  {
    CredentialEntry(l.credentialFiles[t].source, if t in l.nodesByCredential then Some(l.nodesByCredential[t]) else None,
                    l.credentialFiles[t].parents)
  }

  /** The loaders and the cache of `getCredential`. */
  datatype Lookup = Lookup(loaders: seq<Loader>, cache: map<string, Class>)

  /** The loop of `getCredential` from loader `i` on; it stops where a loader throws. */
  function Loaded(s: Lookup, t: string, i: nat): (Lookup, bool)
    requires i <= |s.loaders|
    decreases |s.loaders| - i
  {
    if i == |s.loaders| then (s, true)
    else if t !in s.loaders[i].knownCredentials then Loaded(s, t, i + 1)
    else
      var class_ := CredentialOf(s.loaders[i], t);
      if class_.None? then (s, false)
      else Loaded(Lookup(s.loaders[i := AfterCredential(s.loaders[i], t)], s.cache[t := class_.value]), t, i + 1)
  }

  function AfterLookup(s: Lookup, t: string): Lookup {
    Loaded(s, t, 0).0
  }

  /** The answer of `getCredential`, or nothing if it throws. */
  function Answer(s: Lookup, t: string): Option<Class> {
    var (after, ok) := Loaded(s, t, 0);
    if ok && t in after.cache then Some(after.cache[t]) else None
  }

  ghost predicate SameAnswers(a: seq<Loader>, b: seq<Loader>) {
    |a| == |b| && forall i :: 0 <= i < |a| ==> SameCredentials(a[i], b[i])
  }

  ghost predicate SameCredentials(a: Loader, b: Loader) {
    a.knownCredentials.Keys == b.knownCredentials.Keys && forall u :: CredentialOf(a, u) == CredentialOf(b, u)
  }

  ghost predicate SameBut(a: map<string, Class>, b: map<string, Class>, t: string) {
    forall u :: u != t ==> (u in a <==> u in b) && (u in a ==> a[u] == b[u])
  }

  ghost predicate KnownFrom(loaders: seq<Loader>, t: string, i: nat) {
    exists j :: i <= j < |loaders| && t in loaders[j].knownCredentials
  }

  ghost predicate NoneThrowsFrom(loaders: seq<Loader>, t: string, i: nat) {
    forall j :: i <= j < |loaders| && t in loaders[j].knownCredentials ==> CredentialOf(loaders[j], t).Some?
  }

  ghost function LastClass(loaders: seq<Loader>, t: string): Option<Class> {
    var at := LastKnowing(loaders, t);
    if at.Some? then CredentialOf(loaders[at.value], t) else None
  }

  lemma SameLoaders(a: seq<Loader>, b: seq<Loader>, t: string, i: nat)
    requires SameAnswers(a, b)
    ensures LastKnowing(a, t) == LastKnowing(b, t) && LastClass(a, t) == LastClass(b, t)
    ensures KnownFrom(a, t, i) == KnownFrom(b, t, i) && NoneThrowsFrom(a, t, i) == NoneThrowsFrom(b, t, i)
  {
    forall i | 0 <= i < |a|
      ensures a[i].knownCredentials.Keys == b[i].knownCredentials.Keys && CredentialOf(a[i], t) == CredentialOf(b[i], t)
    {
      assert SameCredentials(a[i], b[i]);
    }
    hide CredentialOf, SameCredentials;
    SameKnown(a, b, t);
  }

  lemma SameKnown(a: seq<Loader>, b: seq<Loader>, t: string)
    requires |a| == |b| && forall i :: 0 <= i < |a| ==> a[i].knownCredentials.Keys == b[i].knownCredentials.Keys
    ensures LastKnowing(a, t) == LastKnowing(b, t)
  {
  }

  lemma OneLoads(loaders: seq<Loader>, t: string, i: nat)
    requires i < |loaders|
    ensures SameAnswers(loaders, loaders[i := AfterCredential(loaders[i], t)])
  {
    forall u
      ensures CredentialOf(AfterCredential(loaders[i], t), u) == CredentialOf(loaders[i], u)
    {
      GetIsStable(loaders[i].credentialClasses, t in loaders[i].knownCredentials, t, u in loaders[i].knownCredentials, u);
    }
  }

  lemma SameAnswersTwice(a: seq<Loader>, b: seq<Loader>, c: seq<Loader>)
    requires SameAnswers(a, b) && SameAnswers(b, c)
    ensures SameAnswers(a, c)
  {
    forall i | 0 <= i < |a|
      ensures SameCredentials(a[i], c[i])
    {
      assert SameCredentials(a[i], b[i]) && SameCredentials(b[i], c[i]);
    }
  }

  /** The loader at `i` is the last to know `t`, or a later one does. */
  lemma LastFrom(loaders: seq<Loader>, t: string, i: nat)
    requires i < |loaders| && t in loaders[i].knownCredentials
    ensures KnownFrom(loaders, t, i) && LastKnowing(loaders, t).Some?
    ensures !KnownFrom(loaders, t, i + 1) ==> LastKnowing(loaders, t).value == i
  {
    var last := LastKnowing(loaders, t);
    assert loaders[i] in loaders;
    assert last.Some?;
    if last.value > i {
      assert KnownFrom(loaders, t, i + 1);
    }
  }

  /** What the loop does from loader `i` on: answers that loaders give stay as they are, no other
      key of the cache changes, and that of `t` ends at the class of the last loader that knows it. */
  ghost predicate Effect(s: Lookup, t: string, i: nat, after: Lookup, ok: bool) {
    && SameAnswers(s.loaders, after.loaders)
    && SameBut(s.cache, after.cache, t)
    && (ok <==> NoneThrowsFrom(s.loaders, t, i))
    && (ok && KnownFrom(s.loaders, t, i) ==> t in after.cache && Some(after.cache[t]) == LastClass(s.loaders, t))
    && (ok && !KnownFrom(s.loaders, t, i) ==> after.cache == s.cache)
  }

  lemma EffectOfSkip(s: Lookup, t: string, i: nat, after: Lookup, ok: bool)
    requires i < |s.loaders| && t !in s.loaders[i].knownCredentials && Effect(s, t, i + 1, after, ok)
    ensures Effect(s, t, i, after, ok)
  {
    hide SameAnswers, LastClass, CredentialOf;
    if KnownFrom(s.loaders, t, i) {
      var j :| i <= j < |s.loaders| && t in s.loaders[j].knownCredentials;
      assert j >= i + 1;
    }
  }

  lemma EffectOfLoad(s: Lookup, t: string, i: nat, next: Lookup, after: Lookup, ok: bool)
    requires i < |s.loaders| && t in s.loaders[i].knownCredentials && CredentialOf(s.loaders[i], t).Some?
    requires next == Lookup(s.loaders[i := AfterCredential(s.loaders[i], t)], s.cache[t := CredentialOf(s.loaders[i], t).value])
    requires Effect(next, t, i + 1, after, ok)
    ensures Effect(s, t, i, after, ok)
  {
    hide SameAnswers, CredentialOf, AfterCredential, LastKnowing;
    OneLoads(s.loaders, t, i);
    SameAnswersTwice(s.loaders, next.loaders, after.loaders);
    SameLoaders(s.loaders, next.loaders, t, i + 1);
    LastFrom(s.loaders, t, i);
  }

  lemma {:induction false} LoadedEffect(s: Lookup, t: string, i: nat)
    requires i <= |s.loaders|
    ensures Effect(s, t, i, Loaded(s, t, i).0, Loaded(s, t, i).1)
    decreases |s.loaders| - i
  {
    hide Effect, CredentialOf, AfterCredential;
    if i == |s.loaders| || (t in s.loaders[i].knownCredentials && CredentialOf(s.loaders[i], t).None?) {
      EffectOfEnd(s, t, i);
    } else if t !in s.loaders[i].knownCredentials {
      LoadedEffect(s, t, i + 1);
      EffectOfSkip(s, t, i, Loaded(s, t, i).0, Loaded(s, t, i).1);
    } else {
      var next := Lookup(s.loaders[i := AfterCredential(s.loaders[i], t)], s.cache[t := CredentialOf(s.loaders[i], t).value]);
      LoadedEffect(next, t, i + 1);
      EffectOfLoad(s, t, i, next, Loaded(s, t, i).0, Loaded(s, t, i).1);
    }
  }

  lemma EffectOfEnd(s: Lookup, t: string, i: nat)
    requires i <= |s.loaders|
    requires i < |s.loaders| ==> t in s.loaders[i].knownCredentials && CredentialOf(s.loaders[i], t).None?
    ensures Effect(s, t, i, s, i == |s.loaders|)
  {
    SameAsItself(s.loaders);
  }

  lemma SameAsItself(loaders: seq<Loader>)
    ensures SameAnswers(loaders, loaders)
  {
  }

  /** A known type is answered with the class of the loader whose entry is in the index, unless
      one of the loaders that know it throws. */
  lemma AnswerMatchesIndex(s: Lookup, t: string)
    requires LastKnowing(s.loaders, t).Some?
    ensures Answer(s, t)
         == if forall l :: l in s.loaders && t in l.knownCredentials ==> CredentialOf(l, t).Some?
            then CredentialOf(s.loaders[LastKnowing(s.loaders, t).value], t) else None
    ensures t in Index(s.loaders).credentials
    ensures Index(s.loaders).credentials[t] == CredentialEntryOf(s.loaders[LastKnowing(s.loaders, t).value], t)
  {
    LoadedEffect(s, t, 0);
    EntryIsFromLast(s.loaders, t);
    var last := LastKnowing(s.loaders, t).value;
    LastFrom(s.loaders, t, last);
    assert KnownFrom(s.loaders, t, 0);
    assert NoneThrowsFrom(s.loaders, t, 0) <==> forall l :: l in s.loaders && t in l.knownCredentials ==> CredentialOf(l, t).Some?;
  }

  /** Where the loop of a lookup stops: at the first loader that throws, or after the last loader. */
  function StopsAt(loaders: seq<Loader>, t: string, i: nat): (stop: nat)
    requires i <= |loaders|
    ensures i <= stop <= |loaders|
    ensures stop < |loaders| ==> t in loaders[stop].knownCredentials
    decreases |loaders| - i
  {
    if i == |loaders| || (t in loaders[i].knownCredentials && CredentialOf(loaders[i], t).None?) then i
    else StopsAt(loaders, t, i + 1)
  }

  /** From `i` on and before `stop`, exactly the loaders that know the type have been asked. */
  ghost predicate Asked(a: seq<Loader>, b: seq<Loader>, t: string, i: nat, stop: nat) {
    |a| == |b| && forall j :: 0 <= j < |a| ==>
      b[j] == if i <= j < stop && t in a[j].knownCredentials then AfterCredential(a[j], t) else a[j]
  }

  lemma AskedOneMore(a: seq<Loader>, b: seq<Loader>, t: string, i: nat, stop: nat)
    requires i < |a| && i < stop && t in a[i].knownCredentials && Asked(a[i := AfterCredential(a[i], t)], b, t, i + 1, stop)
    ensures Asked(a, b, t, i, stop)
  {
    hide AfterCredential;
    var next := a[i := AfterCredential(a[i], t)];
    forall j | 0 <= j < |a|
      ensures b[j] == if i <= j < stop && t in a[j].knownCredentials then AfterCredential(a[j], t) else a[j]
    {
      assert j != i ==> next[j] == a[j];
      assert b[j] == if i + 1 <= j < stop && t in next[j].knownCredentials then AfterCredential(next[j], t) else next[j];
    }
  }

  lemma NotAsked(a: seq<Loader>, b: seq<Loader>, t: string, i: nat, stop: nat)
    requires i < |a| && t !in a[i].knownCredentials && Asked(a, b, t, i + 1, stop)
    ensures Asked(a, b, t, i, stop)
  {
    hide AfterCredential;
  }

  lemma {:induction false} LoadedLoaders(s: Lookup, t: string, i: nat)
    requires i <= |s.loaders|
    ensures Asked(s.loaders, Loaded(s, t, i).0.loaders, t, i, StopsAt(s.loaders, t, i))
    ensures Loaded(s, t, i).1 <==> StopsAt(s.loaders, t, i) == |s.loaders|
    decreases |s.loaders| - i
  {
    if i < |s.loaders| && (t !in s.loaders[i].knownCredentials || CredentialOf(s.loaders[i], t).Some?) {
      hide AfterCredential, CredentialOf, Asked;
      var after, stop := Loaded(s, t, i).0.loaders, StopsAt(s.loaders, t, i);
      if t !in s.loaders[i].knownCredentials {
        LoadedLoaders(s, t, i + 1);
        NotAsked(s.loaders, after, t, i, stop);
      } else {
        var next := Lookup(s.loaders[i := AfterCredential(s.loaders[i], t)], s.cache[t := CredentialOf(s.loaders[i], t).value]);
        LoadedLoaders(next, t, i + 1);
        SameStop(s.loaders, next.loaders, t, i + 1);
        AskedOneMore(s.loaders, after, t, i, stop);
      }
    }
  }

  lemma {:induction false} SameStop(a: seq<Loader>, b: seq<Loader>, t: string, i: nat)
    requires i <= |a| == |b| && forall j :: i <= j < |a| ==> a[j] == b[j]
    ensures StopsAt(a, t, i) == StopsAt(b, t, i)
    decreases |a| - i
  {
    if i < |a| {
      SameStop(a, b, t, i + 1);
    }
  }

  /** After a lookup of `t` the index of a rebuild differs at most in `t`, and it is the same there
      exactly if some loader threw, the last loader that knows `t` did not load it, or its file gives
      the same entry. */
  lemma IndexAfterLookup(s: Lookup, t: string, u: string)
    ensures var before, after := Index(s.loaders).credentials, Index(AfterLookup(s, t).loaders).credentials;
            && (u in before <==> LastKnowing(s.loaders, u).Some?)
            && (u in before <==> u in after)
            && (u in before ==>
                  var l := s.loaders[LastKnowing(s.loaders, u).value];
                  (after[u] == before[u] <==>
                     u != t || !Loaded(s, t, 0).1 || !LoadsCredential(l, t) || EntryFrom(l, LoadedEntry(l, t)) == before[u]))
  {
    var after := AfterLookup(s, t).loaders;
    EntryIsFromLast(s.loaders, u);
    EntryIsFromLast(after, u);
    LoadedEffect(s, t, 0);
    SameLoaders(s.loaders, after, u, 0);
    LoadedLoaders(s, t, 0);
    hide Loaded, Effect, Index;
    if LastKnowing(s.loaders, u).Some? {
      EntryAfterCredential(s.loaders[LastKnowing(s.loaders, u).value], t, u);
    }
  }

  lemma EntryAfterCredential(l: Loader, t: string, u: string)
    requires u in l.knownCredentials
    ensures u in AfterCredential(l, t).knownCredentials
    ensures CredentialEntryOf(AfterCredential(l, t), u)
         == if u == t && LoadsCredential(l, t) then EntryFrom(l, LoadedEntry(l, t)) else CredentialEntryOf(l, u)
  {
  }

  function AfterLookups(s: Lookup, ts: seq<string>): Lookup
    decreases |ts|
  {
    if ts == [] then s else AfterLookups(AfterLookup(s, ts[0]), ts[1..])
  }

  lemma AnswerAfterOne(s: Lookup, t: string, u: string)
    ensures Answer(AfterLookup(s, t), u) == Answer(s, u)
  {
    var after := AfterLookup(s, t);
    LoadedEffect(s, t, 0);
    LoadedEffect(s, u, 0);
    LoadedEffect(after, u, 0);
    SameLoaders(s.loaders, after.loaders, u, 0);
  }

  /** No sequence of lookups changes a later answer. */
  lemma {:induction false} LookupsNeverChangeAnswers(s: Lookup, ts: seq<string>, u: string)
    ensures Answer(AfterLookups(s, ts), u) == Answer(s, u)
    decreases |ts|
  {
    if ts != [] {
      AnswerAfterOne(s, ts[0], u);
      LookupsNeverChangeAnswers(AfterLookup(s, ts[0]), ts[1..], u);
    }
  }

  // ---------- node lookups ----------

  /** The answer of `getNode`, or nothing if it throws. */
  function NodeAnswer(loaders: seq<Loader>, name: string): Option<Class> {
    var (packageName, node) := ReadName(name);
    var at := FindLoader(loaders, packageName);
    if at.None? then None else Get(loaders[at.value].nodeClasses, node in loaders[at.value].knownNodes, node)
  }

  function AfterNode(loaders: seq<Loader>, name: string): seq<Loader> {
    var (packageName, node) := ReadName(name);
    var at := FindLoader(loaders, packageName);
    if at.None? then loaders
    else
      loaders[at.value := WithNode(loaders[at.value], node)]
  }

  /** Loading a node from its file also rewrites its entry, adds its descriptions to the types of the
      loader, and notes the node under its credentials. */
  function WithNode(l: Loader, node: string): Loader {
    var got := l.(nodeClasses := AfterGet(l.nodeClasses, node in l.knownNodes, node));
    if !LoadsNode(l, node) then got
    else got.(knownNodes := l.knownNodes[node := l.nodeFiles[node].source], nodes := l.nodes + l.nodeFiles[node].described,
              nodesByCredential := Noted(l.nodesByCredential, l.nodeFiles[node].credentials, node))
  }

  function Noted(byCredential: map<string, seq<string>>, credentials: seq<string>, node: string): map<string, seq<string>>
    decreases |credentials|
  {
    if credentials == [] then byCredential
    else
      var c := credentials[0];
      var before := if c in byCredential then byCredential[c] else [];
      Noted(byCredential[c := before + [node]], credentials[1..], node)
  }

  function Uses(credentials: seq<string>, c: string): nat {
    if credentials == [] then 0 else Uses(credentials[1..], c) + if credentials[0] == c then 1 else 0
  }

  function Repeat(node: string, n: nat): seq<string> {
    seq(n, _ => node)
  }

  /** The node is noted once under each use of a credential, after those noted before. */
  lemma {:induction false} NotedOnce(byCredential: map<string, seq<string>>, credentials: seq<string>, node: string, c: string)
    ensures var r := Noted(byCredential, credentials, node);
            && (c in r <==> c in byCredential || c in credentials)
            && (c in r ==> r[c] == (if c in byCredential then byCredential[c] else []) + Repeat(node, Uses(credentials, c)))
    decreases |credentials|
  {
    if credentials != [] {
      var first := credentials[0];
      var before := if first in byCredential then byCredential[first] else [];
      NotedOnce(byCredential[first := before + [node]], credentials[1..], node, c);
      if c == first {
        assert [node] + Repeat(node, Uses(credentials[1..], c)) == Repeat(node, Uses(credentials, c));
      }
    }
  }

  lemma {:induction false} UsedIsNoted(credentials: seq<string>, c: string)
    ensures Uses(credentials, c) > 0 <==> c in credentials
  {
    if credentials != [] {
      UsedIsNoted(credentials[1..], c);
      assert credentials == [credentials[0]] + credentials[1..];
    }
  }

  /** If a node is loaded from its file and then a credential that it uses, the entry of the credential is
      that of its file and supports the node; all other entries stay. */
  lemma CredentialSupportsLoaded(l: Loader, node: string, t: string)
    requires LoadsNode(l, node) && LoadsCredential(l, t) && t in l.nodeFiles[node].credentials
    ensures var after := AfterCredential(WithNode(l, node), t);
            && (forall other :: other in l.knownCredentials && other != t ==>
                  other in after.knownCredentials && after.knownCredentials[other] == l.knownCredentials[other])
            && t in after.knownCredentials
            && var entry := after.knownCredentials[t];
               && entry.source == l.credentialFiles[t].source && entry.parents == l.credentialFiles[t].parents
               && entry.supportedNodes.Some? && node in entry.supportedNodes.value
  {
    var credentials := l.nodeFiles[node].credentials;
    NotedOnce(l.nodesByCredential, credentials, node, t);
    UsedIsNoted(credentials, t);
    var noted := Repeat(node, Uses(credentials, t));
    assert noted[0] == node;
    hide Noted;
    var loaded := WithNode(l, node);
    assert loaded.nodesByCredential[t] == (if t in l.nodesByCredential then l.nodesByCredential[t] else []) + noted;
  }

  predicate LoadsNode(l: Loader, node: string) {
    node !in l.nodeClasses.loaded && node in l.knownNodes && node in l.nodeClasses.files && node in l.nodeFiles
  }

  /** A node that is loaded from its file has the entry of the file, and its descriptions come after
      those of the nodes before; no other entry changes. */
  lemma NodeLoads(l: Loader, node: string)
    requires LoadsNode(l, node)
    ensures var after, file := WithNode(l, node), l.nodeFiles[node];
            && after.nodes[..|l.nodes|] == l.nodes && after.nodes[|l.nodes|..] == file.described
            && node in after.knownNodes && after.knownNodes[node] == file.source && after.knownNodes.Keys == l.knownNodes.Keys
            && (forall other :: other in l.knownNodes && other != node ==> after.knownNodes[other] == l.knownNodes[other])
            && after.credentials == l.credentials && after.knownCredentials == l.knownCredentials
            && after.packageName == l.packageName && after.isPackage == l.isPackage && after.directory == l.directory
  {
  }

  function Described(l: Loader, node: string): seq<SharedNode> {
    if LoadsNode(l, node) then l.nodeFiles[node].described else []
  }

  /** The entries that a rebuild reads off a loader are the same after a node lookup exactly if the
      node was not loaded from its file or the file gives the same source. */
  lemma SameEntriesAfterLookup(l: Loader, node: string)
    ensures NodeEntries(WithNode(l, node)) == NodeEntries(l) <==>
              !LoadsNode(l, node) || l.nodeFiles[node].source == l.knownNodes[node]
  {
    if !LoadsNode(l, node) || l.nodeFiles[node].source == l.knownNodes[node] {
      SameKnownNodes(l, node);
    } else {
      EntryUnderFullName(l, node);
      EntryUnderFullName(WithNode(l, node), node);
      hide NodeEntries, FullName;
    }
  }

  lemma SameKnownNodes(l: Loader, node: string)
    requires !LoadsNode(l, node) || l.nodeFiles[node].source == l.knownNodes[node]
    ensures NodeEntries(WithNode(l, node)) == NodeEntries(l)
  {
    hide UnderFullNames;
    assert WithNode(l, node).knownNodes == l.knownNodes;
    SameLocated(l, WithNode(l, node));
  }

  lemma SameLocated(l: Loader, m: Loader)
    requires m.knownNodes == l.knownNodes && m.directory == l.directory
    ensures LocatedNodes(m) == LocatedNodes(l)
  {
  }

  lemma EntryUnderFullName(l: Loader, node: string)
    ensures node in l.knownNodes ==>
              FullName(l.packageName, node) in NodeEntries(l)
              && NodeEntries(l)[FullName(l.packageName, node)] == Some(NodeEntry(l, node))
  {
    assert node in l.knownNodes ==> node in LocatedNodes(l);
  }

  lemma {:induction false} NodesOfChanged(loaders: seq<Loader>, i: nat, l: Loader)
    requires i < |loaders| && l.packageName == loaders[i].packageName
    ensures |AllNodes(loaders[i := l])| == |AllNodes(loaders)| - |loaders[i].nodes| + |l.nodes|
    ensures l.nodes == loaders[i].nodes ==> AllNodes(loaders[i := l]) == AllNodes(loaders)
    decreases |loaders|
  {
    var n := |loaders| - 1;
    var changed := loaders[i := l];
    if i < n {
      assert changed[..n] == loaders[..n][i := l];
      NodesOfChanged(loaders[..n], i, l);
    } else {
      assert changed[..n] == loaders[..n];
      assert l.nodes == loaders[i].nodes ==> RenamedNodes(l) == RenamedNodes(loaders[i]);
    }
  }

  /** A rebuild after a node lookup starts from the same nodes exactly if the lookup did not load
      a file with descriptions: otherwise it lists those a second time. */
  lemma SameNodesAfterLookup(loaders: seq<Loader>, name: string)
    ensures var (packageName, node) := ReadName(name);
            var at := FindLoader(loaders, packageName);
            AllNodes(AfterNode(loaders, name)) == AllNodes(loaders) <==> at.None? || Described(loaders[at.value], node) == []
  {
    var (packageName, node) := ReadName(name);
    var at := FindLoader(loaders, packageName);
    if at.Some? {
      NodesOfChanged(loaders, at.value, WithNode(loaders[at.value], node));
    }
  }

  lemma {:induction false} SamePackagesSameFind(a: seq<Loader>, b: seq<Loader>, packageName: string)
    requires |a| == |b| && forall i :: 0 <= i < |a| ==> a[i].packageName == b[i].packageName
    ensures FindLoader(a, packageName) == FindLoader(b, packageName)
    decreases |a|
  {
    if a != [] {
      SamePackagesSameFind(a[..|a| - 1], b[..|b| - 1], packageName);
    }
  }

  /** Looking up a node changes no later answer, of any name. */
  lemma NodeLookupNeverChangesAnswers(loaders: seq<Loader>, name: string, other: string)
    ensures NodeAnswer(AfterNode(loaders, name), other) == NodeAnswer(loaders, other)
  {
    var (p, n) := ReadName(name);
    var (q, m) := ReadName(other);
    SamePackagesSameFind(loaders, AfterNode(loaders, name), q);
    var at := FindLoader(loaders, p);
    if at.Some? {
      var l := loaders[at.value];
      GetIsStable(l.nodeClasses, n in l.knownNodes, n, m in l.knownNodes, m);
    }
  }

  /** `getNode` ignores what follows a second dot. */
  lemma FurtherPartsAreIgnored(loaders: seq<Loader>, packageName: string, node: string, rest: string)
    requires '.' !in packageName && '.' !in node
    ensures NodeAnswer(loaders, FullName(FullName(packageName, node), rest)) == NodeAnswer(loaders, FullName(packageName, node))
  {
    var longer := FullName(FullName(packageName, node), rest);
    assert longer == packageName + ['.'] + (node + ['.'] + rest);
    SplitAfter(packageName, node + ['.'] + rest, '.');
    SplitAfter(node, rest, '.');
    NameRoundTrip(packageName, node);
  }
}
