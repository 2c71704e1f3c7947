/**
 What the type lists and the indexes of a rebuild contain, entry by entry, in terms of what the
 loaders hold and know.
 */
module IndexContents {
  import opened Wrappers
  import opened NodeDescriptions
  import opened NodeRebuild
  import opened NodeIndex

  // ---------- the type lists ----------

  /** How many nodes the loaders before the `i`-th hold. */
  function NodesBefore(loaders: seq<Loader>, i: nat): nat
    requires i <= |loaders|
  {
    if i == 0 then 0 else NodesBefore(loaders, i - 1) + |loaders[i - 1].nodes|
  }

  function CredentialsBefore(loaders: seq<Loader>, i: nat): nat
    requires i <= |loaders|
  {
    if i == 0 then 0 else CredentialsBefore(loaders, i - 1) + |loaders[i - 1].credentials|
  }

  /** `listed` is `n` under its full name, and otherwise unchanged. */
  predicate ListedAs(l: Loader, n: SharedNode, listed: SharedNode) {
    listed.name == l.packageName + "." + n.name && listed.(name := n.name) == n
  }

  /** `full` are the names of `names` in full, in their order; only packages list supported nodes. */
  predicate InFull(l: Loader, names: Option<seq<string>>, full: Option<seq<string>>) {
    if l.isPackage && names.Some? then
      full.Some? && |full.value| == |names.value|
      && forall i :: 0 <= i < |names.value| ==> full.value[i] == l.packageName + "." + names.value[i]
    else full.None?
  }

  predicate CredentialListedAs(l: Loader, c: CredentialType, listed: CredentialType) {
    InFull(l, c.supportedNodes, listed.supportedNodes) && listed.(supportedNodes := c.supportedNodes) == c
  }

  /** The nodes of each loader stand in `nodes` one after another, loader after loader. */
  ghost predicate ListsNodes(loaders: seq<Loader>, nodes: seq<SharedNode>) {
    && NodesBefore(loaders, |loaders|) <= |nodes|
    && forall i, j :: 0 <= i < |loaders| && 0 <= j < |loaders[i].nodes| ==> NodeStands(loaders, nodes, i, j)
  }

  ghost predicate NodeStands(loaders: seq<Loader>, nodes: seq<SharedNode>, i: nat, j: nat)
    requires i < |loaders| && j < |loaders[i].nodes|
  {
    var at := NodesBefore(loaders, i) + j;
    at < |nodes| && ListedAs(loaders[i], loaders[i].nodes[j], nodes[at])
  }

  ghost predicate ListsCredentials(loaders: seq<Loader>, credentials: seq<CredentialType>) {
    && CredentialsBefore(loaders, |loaders|) == |credentials|
    && forall i, j :: 0 <= i < |loaders| && 0 <= j < |loaders[i].credentials| ==> CredentialStands(loaders, credentials, i, j)
  }

  ghost predicate CredentialStands(loaders: seq<Loader>, credentials: seq<CredentialType>, i: nat, j: nat)
    requires i < |loaders| && j < |loaders[i].credentials|
  {
    var at := CredentialsBefore(loaders, i) + j;
    at < |credentials| && CredentialListedAs(loaders[i], loaders[i].credentials[j], credentials[at])
  }

  lemma {:induction false} SameBefore(a: seq<Loader>, b: seq<Loader>, i: nat)
    requires i <= |a| && i <= |b| && a[..i] == b[..i]
    ensures NodesBefore(a, i) == NodesBefore(b, i) && CredentialsBefore(a, i) == CredentialsBefore(b, i)
  {
    if i > 0 {
      assert a[..i][..i - 1] == a[..i - 1] && b[..i][..i - 1] == b[..i - 1];
      assert a[..i][i - 1] == a[i - 1] && b[..i][i - 1] == b[i - 1];
      SameBefore(a, b, i - 1);
    }
  }

  /** The types before the tools are the nodes of the loaders under full names, in order. */
  lemma {:induction false} NodesAreListed(loaders: seq<Loader>)
    ensures ListsNodes(loaders, AllNodes(loaders)) && |AllNodes(loaders)| == NodesBefore(loaders, |loaders|)
    decreases |loaders|
  {
    if loaders != [] {
      var n := |loaders| - 1;
      var front, l := loaders[..n], loaders[n];
      NodesAreListed(front);
      SameBefore(front, loaders, n);
      forall i, j | 0 <= i < |loaders| && 0 <= j < |loaders[i].nodes|
        ensures NodeStands(loaders, AllNodes(loaders), i, j)
      {
        if i < n {
          assert front[..i] == loaders[..i];
          SameBefore(front, loaders, i);
          assert NodeStands(front, AllNodes(front), i, j);
        } else {
          assert AllNodes(loaders)[NodesBefore(loaders, n) + j] == RenamedNodes(l)[j];
        }
      }
    }
  }

  lemma ListsNodesAndMore(loaders: seq<Loader>, nodes: seq<SharedNode>, more: seq<SharedNode>)
    requires ListsNodes(loaders, nodes)
    ensures ListsNodes(loaders, nodes + more)
  {
    forall i, j | 0 <= i < |loaders| && 0 <= j < |loaders[i].nodes|
      ensures NodeStands(loaders, nodes + more, i, j)
    {
      assert NodeStands(loaders, nodes, i, j);
    }
  }

  lemma {:induction false} CredentialsAreListed(loaders: seq<Loader>)
    ensures ListsCredentials(loaders, AllCredentials(loaders))
    decreases |loaders|
  {
    if loaders != [] {
      var n := |loaders| - 1;
      var front, l := loaders[..n], loaders[n];
      CredentialsAreListed(front);
      SameBefore(front, loaders, n);
      forall i, j | 0 <= i < |loaders| && 0 <= j < |loaders[i].credentials|
        ensures CredentialStands(loaders, AllCredentials(loaders), i, j)
      {
        if i < n {
          assert front[..i] == loaders[..i];
          SameBefore(front, loaders, i);
          assert CredentialStands(front, AllCredentials(front), i, j);
        } else {
          assert AllCredentials(loaders)[CredentialsBefore(loaders, n) + j] == RenamedCredentials(l)[j];
        }
      }
    }
  }

  // ---------- the node index ----------

  /** A loader knows a node whose full name is `name`. */
  ghost predicate KnowsUnder(l: Loader, name: string) {
    exists node :: node in l.knownNodes && l.packageName + "." + node == name
  }

  /** No loader after the `i`-th knows a node of that full name. */
  ghost predicate NoneKnowsLater(loaders: seq<Loader>, i: nat, name: string) {
    forall k :: i < k < |loaders| ==> !KnowsUnder(loaders[k], name)
  }

  lemma EntriesOf(l: Loader, name: string)
    ensures name in NodeEntries(l) <==> KnowsUnder(l, name)
  {
    forall node | node in l.knownNodes && l.packageName + "." + node == name
      ensures name in NodeEntries(l)
    {
      EntryUnderFullName(l, node);
    }
  }

  /** The entry of a name is that of the last loader that knows a node of that full name. */
  lemma NodeEntryIsFromLast(loaders: seq<Loader>, i: nat, node: string)
    requires i < |loaders| && node in loaders[i].knownNodes
    requires NoneKnowsLater(loaders, i, loaders[i].packageName + "." + node)
    ensures var l := loaders[i];
            NodeInfo(Index(loaders), l.packageName + "." + node)
            == Some(Located(l.knownNodes[node].className, l.directory, l.knownNodes[node].path))
  {
    var name := FullName(loaders[i].packageName, node);
    LaterEntriesDoNotCount(loaders, i, name);
    EntryUnderFullName(loaders[i], node);
    hide NodeEntries, Index;
  }

  lemma {:induction false} LaterEntriesDoNotCount(loaders: seq<Loader>, i: nat, name: string)
    requires i < |loaders| && NoneKnowsLater(loaders, i, name) && name in NodeEntries(loaders[i])
    ensures NodeInfo(Index(loaders), name) == NodeEntries(loaders[i])[name]
    decreases |loaders|
  {
    var n := |loaders| - 1;
    hide *;
    LastEntryCounts(loaders, name);
    if i < n {
      EntriesOf(loaders[n], name);
      NoneKnowsLaterInFront(loaders, i, name);
      LaterEntriesDoNotCount(loaders[..n], i, name);
    }
  }

  lemma NoneKnowsLaterInFront(loaders: seq<Loader>, i: nat, name: string)
    requires i < |loaders| - 1 && NoneKnowsLater(loaders, i, name)
    ensures NoneKnowsLater(loaders[..|loaders| - 1], i, name) && !KnowsUnder(loaders[|loaders| - 1], name)
  {
    hide KnowsUnder;
  }

  lemma LastEntryCounts(loaders: seq<Loader>, name: string)
    requires loaders != []
    ensures var n := |loaders| - 1;
            NodeInfo(Index(loaders), name)
            == if name in NodeEntries(loaders[n]) then NodeEntries(loaders[n])[name] else NodeInfo(Index(loaders[..n]), name)
  {
    hide NodeEntries, CredentialEntries;
  }

  lemma IndexedWithLast(loaders: seq<Loader>, name: string)
    requires loaders != []
    ensures var n := |loaders| - 1;
            name in Index(loaders).nodes <==> name in Index(loaders[..n]).nodes || KnowsUnder(loaders[n], name)
  {
    EntriesOf(loaders[|loaders| - 1], name);
    hide NodeEntries, CredentialEntries, KnowsUnder;
  }

  /** A name that no loader knows a node under is not in the index. */
  lemma {:induction false} OnlyKnownAreIndexed(loaders: seq<Loader>, name: string)
    ensures name in Index(loaders).nodes <==> exists i :: 0 <= i < |loaders| && KnowsUnder(loaders[i], name)
    decreases |loaders|
  {
    if loaders != [] {
      var n := |loaders| - 1;
      IndexedWithLast(loaders, name);
      hide *;
      OnlyKnownAreIndexed(loaders[..n], name);
      if name in Index(loaders[..n]).nodes {
        var i :| 0 <= i < n && KnowsUnder(loaders[..n][i], name);
        assert KnowsUnder(loaders[i], name);
      }
      if i :| 0 <= i < |loaders| && KnowsUnder(loaders[i], name) {
        assert i < n ==> KnowsUnder(loaders[..n][i], name);
      }
    }
  }

  lemma {:induction false} LastExists(loaders: seq<Loader>, i: nat, name: string) returns (k: nat)
    requires i < |loaders| && KnowsUnder(loaders[i], name)
    ensures i <= k < |loaders| && KnowsUnder(loaders[k], name) && NoneKnowsLater(loaders, k, name)
    decreases |loaders| - i
  {
    hide KnowsUnder;
    if NoneKnowsLater(loaders, i, name) {
      k := i;
    } else {
      var next :| i < next < |loaders| && KnowsUnder(loaders[next], name);
      k := LastExists(loaders, next, name);
    }
  }

  /** A node that a loader knows is indexed with that loader's class, directory and path exactly if the
      last loader that knows a node of the same full name has the same. */
  lemma OwnSourceIff(loaders: seq<Loader>, i: nat, node: string)
    requires i < |loaders| && node in loaders[i].knownNodes
    ensures var l := loaders[i];
            var name, own := l.packageName + "." + node, Located(l.knownNodes[node].className, l.directory, l.knownNodes[node].path);
            NodeInfo(Index(loaders), name) == Some(own) <==>
              forall k, other :: i <= k < |loaders| && other in loaders[k].knownNodes && loaders[k].packageName + "." + other == name
                                 && NoneKnowsLater(loaders, k, name) ==>
                own == Located(loaders[k].knownNodes[other].className, loaders[k].directory, loaders[k].knownNodes[other].path)
  {
    var name := loaders[i].packageName + "." + node;
    hide Index, NodeInfo, NoneKnowsLater;
    forall k, other | i <= k < |loaders| && other in loaders[k].knownNodes && loaders[k].packageName + "." + other == name
                      && NoneKnowsLater(loaders, k, name)
      ensures NodeInfo(Index(loaders), name)
           == Some(Located(loaders[k].knownNodes[other].className, loaders[k].directory, loaders[k].knownNodes[other].path))
    {
      NodeEntryIsFromLast(loaders, k, other);
    }
    var last := LastExists(loaders, i, name);
    var other :| other in loaders[last].knownNodes && loaders[last].packageName + "." + other == name;
  }

  /** Distinct packages can claim the same full name if one has a dot: the later one gets it. */
  lemma DottedPackageLosesSource(l: Loader, m: Loader)
    requires l.packageName == "a.b" && "c" in l.knownNodes && m.packageName == "a" && "b.c" in m.knownNodes
    requires l.directory != m.directory
    ensures DistinctPackages([l, m])
    ensures var own := Located(l.knownNodes["c"].className, l.directory, l.knownNodes["c"].path);
            NodeInfo(Index([l, m]), "a.b" + "." + "c") != Some(own)
  {
    assert "a" + "." + "b.c" == "a.b" + "." + "c";
    NodeEntryIsFromLast([l, m], 1, "b.c");
    hide Index, NodeInfo;
  }

  lemma PackageOfName(p: string, n: string, q: string, m: string)
    requires '.' !in p && '.' !in q && p + "." + n == q + "." + m
    ensures p == q
  {
    var name := p + "." + n;
    assert name == q + "." + m;
    assert name[|p|] == '.' && name[|q|] == '.';
    assert name[..|p|] == p && name[..|q|] == q;
  }

  predicate PlainPackages(loaders: seq<Loader>) {
    DistinctPackages(loaders) && forall i :: 0 <= i < |loaders| ==> '.' !in loaders[i].packageName
  }

  /** Distinct packages without a dot never claim the same full name. */
  lemma PlainPackagesShareNoName(loaders: seq<Loader>, i: nat, node: string)
    requires PlainPackages(loaders) && i < |loaders|
    ensures NoneKnowsLater(loaders, i, loaders[i].packageName + "." + node)
  {
    forall k | i < k < |loaders|
      ensures !KnowsUnder(loaders[k], loaders[i].packageName + "." + node)
    {
      forall other | other in loaders[k].knownNodes
        ensures loaders[k].packageName + "." + other != loaders[i].packageName + "." + node
      {
        if loaders[k].packageName + "." + other == loaders[i].packageName + "." + node {
          PackageOfName(loaders[k].packageName, other, loaders[i].packageName, node);
        }
      }
    }
  }

  /** The type list and the node index agree: for distinct packages without a dot, a listed node that
      its loader knows has that loader's class, directory and path. */
  lemma ListedNodesAreIndexed(loaders: seq<Loader>, i: nat, j: nat)
    requires PlainPackages(loaders) && i < |loaders| && j < |loaders[i].nodes|
    requires loaders[i].nodes[j].name in loaders[i].knownNodes
    ensures NodeStands(loaders, AllNodes(loaders), i, j)
    ensures var l, listed := loaders[i], AllNodes(loaders)[NodesBefore(loaders, i) + j];
            var source := l.knownNodes[l.nodes[j].name];
            NodeInfo(Index(loaders), listed.name) == Some(Located(source.className, l.directory, source.path))
  {
    hide *;
    StandsAt(loaders, i, j);
    PlainPackagesShareNoName(loaders, i, loaders[i].nodes[j].name);
    NodeEntryIsFromLast(loaders, i, loaders[i].nodes[j].name);
  }

  lemma StandsAt(loaders: seq<Loader>, i: nat, j: nat)
    requires i < |loaders| && j < |loaders[i].nodes|
    ensures NodeStands(loaders, AllNodes(loaders), i, j) && NodesBefore(loaders, i) + j < |AllNodes(loaders)|
    ensures AllNodes(loaders)[NodesBefore(loaders, i) + j].name == loaders[i].packageName + "." + loaders[i].nodes[j].name
    ensures AllNodes(loaders)[NodesBefore(loaders, i) + j].usableAsTool == loaders[i].nodes[j].usableAsTool
  {
    NodesAreListed(loaders);
    hide AllNodes;
    assert NodeStands(loaders, AllNodes(loaders), i, j);
  }

  // ---------- the credential index ----------

  /** The entry of a credential has the class, the path and the parents that the last loader that knows
      it gives, in that loader's directory, and its supported nodes in full. */
  lemma CredentialIsIndexed(loaders: seq<Loader>, i: nat, t: string)
    requires i < |loaders| && t in loaders[i].knownCredentials
    requires forall k :: i < k < |loaders| ==> t !in loaders[k].knownCredentials
    ensures t in Index(loaders).credentials
    ensures var l, entry := loaders[i], Index(loaders).credentials[t];
            var own := l.knownCredentials[t];
            && entry.source == Located(own.source.className, l.directory, own.source.path)
            && entry.parents == own.parents && InFull(l, own.supportedNodes, entry.supportedNodes)
  {
    EntryIsFromLast(loaders, t);
    assert loaders[i] in loaders;
    assert LastKnowing(loaders, t) == Some(i);
  }

  // ---------- the classes held ----------

  /** A class that a loader holds is found under its full name, unless a later loader holds one under
      the same name. */
  lemma {:induction false} HeldNodeIsLoaded(loaders: seq<Loader>, i: nat, node: string)
    requires i < |loaders| && node in loaders[i].nodeClasses.loaded
    requires forall k, other :: i < k < |loaders| && other in loaders[k].nodeClasses.loaded ==>
               loaders[k].packageName + "." + other != loaders[i].packageName + "." + node
    ensures loaders[i].packageName + "." + node in LoadedNodes(loaders)
    ensures LoadedNodes(loaders)[loaders[i].packageName + "." + node] == loaders[i].nodeClasses.loaded[node]
    decreases |loaders|
  {
    var n := |loaders| - 1;
    var name := FullName(loaders[i].packageName, node);
    if i < n {
      assert forall other :: other in loaders[n].nodeClasses.loaded ==> FullName(loaders[n].packageName, other) != name;
      assert name !in UnderFullNames(loaders[n].packageName, loaders[n].nodeClasses.loaded);
      hide UnderFullNames;
      HeldNodeIsLoaded(loaders[..n], i, node);
    }
  }

  lemma {:induction false} HeldCredentialIsLoaded(loaders: seq<Loader>, i: nat, t: string)
    requires i < |loaders| && t in loaders[i].credentialClasses.loaded
    requires forall k :: i < k < |loaders| ==> t !in loaders[k].credentialClasses.loaded
    ensures t in LoadedCredentials(loaders) && LoadedCredentials(loaders)[t] == loaders[i].credentialClasses.loaded[t]
    decreases |loaders|
  {
    var n := |loaders| - 1;
    if i < n {
      HeldCredentialIsLoaded(loaders[..n], i, t);
    }
  }

  // ---------- the tools ----------

  function Names(nodes: seq<SharedNode>): seq<string> {
    seq(|nodes|, i requires 0 <= i < |nodes| => nodes[i].name)
  }

  /** The indexes after a rebuild: a function of what the loaders know, so that any number of
      rebuilds gives the same ones. */
  function KnownAfter(loaders: seq<Loader>): Known {
    AddTools(Index(loaders), Names(Usable(AllNodes(loaders))))
  }

  /** How many of the first `i` nodes are usable. */
  function UsableBefore(nodes: seq<SharedNode>, i: nat): nat
    requires i <= |nodes|
  {
    if i == 0 then 0 else UsableBefore(nodes, i - 1) + if nodes[i - 1].usableAsTool then 1 else 0
  }

  lemma {:induction false} UsableConcat(a: seq<SharedNode>, b: seq<SharedNode>)
    ensures Usable(a + b) == Usable(a) + Usable(b)
  {
    hide Usable;
    if a == [] {
      NoneUsable();
      assert a + b == b;
    } else {
      UsableConcat(a[1..], b);
      assert (a + b)[0] == a[0] && (a + b)[1..] == a[1..] + b;
      FirstUsable(a);
      FirstUsable(a + b);
    }
  }

  lemma NoneUsable()
    ensures Usable<Option<Address>>([]) == []
  {
  }

  lemma FirstUsable(nodes: seq<SharedNode>)
    requires nodes != []
    ensures Usable(nodes) == (if nodes[0].usableAsTool then [nodes[0]] else []) + Usable(nodes[1..])
  {
  }

  /** The usable nodes are those marked so, each once and in order. */
  lemma {:induction false} UsableInOrder(nodes: seq<SharedNode>, i: nat)
    requires i <= |nodes|
    ensures |Usable(nodes[..i])| == UsableBefore(nodes, i)
    ensures Usable(nodes[..i]) <= Usable(nodes)
    ensures i < |nodes| && nodes[i].usableAsTool ==>
              UsableBefore(nodes, i) < |Usable(nodes)| && Usable(nodes)[UsableBefore(nodes, i)] == nodes[i]
  {
    assert nodes == nodes[..i] + nodes[i..];
    UsableConcat(nodes[..i], nodes[i..]);
    if i > 0 {
      UsableInOrder(nodes, i - 1);
      assert nodes[..i] == nodes[..i - 1] + [nodes[i - 1]];
      UsableConcat(nodes[..i - 1], [nodes[i - 1]]);
      assert [nodes[i - 1]][1..] == [];
    }
  }
}
