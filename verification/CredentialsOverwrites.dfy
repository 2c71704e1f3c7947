/**
 Overwrite data for credential types: flattened once over the class-level `extends` lists by
 `setData`, with a memo that keeps less than it computes, and merged a second time at lookup.
 */
module Overwrites {
  import opened ExtendsGraph
  import opened CredentialInheritance
  import opened Wrappers

  /** A field of a credential: the blank values, and all others by their JSON text. */
  datatype Value = Null | Undefined | Text(text: string) | Json(json: string)

  type Record = map<string, Value>
  type OverwriteData = map<string, Record>

  /** What `recognizes` and `getByName(t).extends` answer: a type outside the map is not
      recognized, and `None` is a class without `extends`. */
  type ClassExtends = map<string, Option<seq<string>>>

  function Own(data: OverwriteData, t: string): Record {
    if t in data then data[t] else map[]
  }

  // ---------- specification of setData ----------

  datatype Resolution = Resolution(overwrites: Option<Record>, resolved: seq<string>)

  function Stored(data: OverwriteData, t: string): Option<Record> {
    if t in data then Some(data[t]) else None
  }

  function Fields(r: Option<Record>): Record {
    if r.Some? then r.value else map[]
  }

  /** The class-level lists lead only to proper ancestors in the loaded graph. */
  ghost predicate ClassesWithin(g: Graph, classes: ClassExtends) {
    forall t, p :: t in classes && classes[t].Some? && p in classes[t].value ==> IsAncestor(g, t, p)
  }

  /** The classes list exactly what the loaded graph lists. */
  ghost predicate SameLists(g: Graph, classes: ClassExtends)
    ensures SameLists(g, classes) ==> ClassesWithin(g, classes) && RecognizedLists(g, classes)
  {
    assert forall t, p :: p in Parents(g, t) ==> IsAncestor(g, t, p) by {
      forall t, p | p in Parents(g, t)
        ensures IsAncestor(g, t, p)
      {
        ParentIsAncestor(g, t, p);
      }
    }
    && (forall t :: t in g ==> t in classes)
    && (forall t :: t in classes ==> Parents(g, t) == if classes[t].Some? then classes[t].value else [])
  }

  /** Of the recognized types, the classes list only parents in the loaded graph. */
  ghost predicate RecognizedLists(g: Graph, classes: ClassExtends) {
    && (forall t :: t in g ==> t in classes)
    && (forall t, p :: t in classes && classes[t].Some? && p in classes[t].value && p in classes ==> p in Parents(g, t))
  }

  ghost predicate AllRecognized(classes: ClassExtends, ts: seq<string>) {
    forall t :: t in ts ==> t in classes
  }

  /** `getOverwrites(t)`. */
  ghost function Resolve(g: Graph, classes: ClassExtends, data: OverwriteData, resolved: seq<string>, t: string): (r: Resolution)
    requires Acyclic(g) && ClassesWithin(g, classes)
    ensures AllRecognized(classes, resolved) ==> AllRecognized(classes, r.resolved)
    decreases Rank(g, t), 1, 0
  {
    if t in resolved then Resolution(Stored(data, t), resolved)
    else if t !in classes then Resolution(None, resolved)
    else if classes[t].None? then Resolution(Stored(data, t), resolved + [t])
    else
      var above := ResolveAll(g, classes, data, resolved, t, classes[t].value, map[]);
      Resolution(Some(Fields(above.overwrites) + Own(data, t)), above.resolved + [t])
  }

  /** The loop of `getOverwrites(t)` over the parents still to merge into `merged`. */
  ghost function ResolveAll(g: Graph, classes: ClassExtends, data: OverwriteData, resolved: seq<string>,
                            t: string, todo: seq<string>, merged: Record): (r: Resolution)
    requires Acyclic(g) && ClassesWithin(g, classes)
    requires forall p :: p in todo ==> IsAncestor(g, t, p)
    ensures r.overwrites.Some?
    ensures AllRecognized(classes, resolved) ==> AllRecognized(classes, r.resolved)
    decreases Rank(g, t), 0, |todo|
  {
    if todo == [] then Resolution(Some(merged), resolved) else
      RankFalls(g, t, todo[0]);
      var r := Resolve(g, classes, data, resolved, todo[0]);
      assert forall p :: p in todo[1..] ==> p in todo;
      ResolveAll(g, classes, data, r.resolved, t, todo[1..], merged + Fields(r.overwrites))
  }

  lemma NextParent(g: Graph, classes: ClassExtends, data: OverwriteData, resolved: seq<string>,
                   t: string, parents: seq<string>, i: nat, merged: Record)
    requires Acyclic(g) && ClassesWithin(g, classes) && i < |parents|
    requires forall p :: p in parents[i..] ==> IsAncestor(g, t, p)
    ensures Rank(g, parents[i]) < Rank(g, t)
    ensures forall p :: p in parents[i + 1..] ==> IsAncestor(g, t, p)
    ensures var r := Resolve(g, classes, data, resolved, parents[i]);
            ResolveAll(g, classes, data, resolved, t, parents[i..], merged) ==
              ResolveAll(g, classes, data, r.resolved, t, parents[i + 1..], merged + Fields(r.overwrites))
  {
    assert parents[i..][0] == parents[i] && parents[i..][1..] == parents[i + 1..];
    assert forall p :: p in parents[i + 1..] ==> p in parents[i..];
    RankFalls(g, t, parents[i]);
  }

  /** The loop of `setData` over the keys still to visit, in the order the object lists them. */
  ghost function Flatten(g: Graph, classes: ClassExtends, data: OverwriteData, resolved: seq<string>, keys: seq<string>): OverwriteData
    requires Acyclic(g) && ClassesWithin(g, classes)
    decreases |keys|
  {
    if keys == [] then data else
      var r := Resolve(g, classes, data, resolved, keys[0]);
      Flatten(g, classes, WriteBack(data, keys[0], r.overwrites), r.resolved, keys[1..])
  }

  lemma NextKey(g: Graph, classes: ClassExtends, data: OverwriteData, resolved: seq<string>, keys: seq<string>, i: nat)
    requires Acyclic(g) && ClassesWithin(g, classes) && i < |keys|
    ensures var r := Resolve(g, classes, data, resolved, keys[i]);
            Flatten(g, classes, data, resolved, keys[i..]) ==
              Flatten(g, classes, WriteBack(data, keys[i], r.overwrites), r.resolved, keys[i + 1..])
  {
    assert keys[i..][0] == keys[i] && keys[i..][1..] == keys[i + 1..];
  }

  /** An empty result is not written back. */
  function WriteBack(data: OverwriteData, t: string, overwrites: Option<Record>): OverwriteData {
    if Fields(overwrites) != map[] then data[t := Fields(overwrites)] else data
  }

  /** `keys` lists the keys of `data`, each once, in any order. */
  ghost predicate Enumerates(keys: seq<string>, data: OverwriteData) {
    NoDuplicates(keys) && forall t :: t in keys <==> t in data
  }

  // ---------- specification of get ----------

  /** The answer of `get` over a list of types: of two records with the same field, that of the
      type listed earlier counts. */
  function Merge(data: OverwriteData, list: seq<string>): Record {
    if list == [] then map[] else Merge(data, list[1..]) + Own(data, list[0])
  }

  /** The value `k` has in the first listed type whose record has `k`. */
  function FirstHolder(data: OverwriteData, list: seq<string>, k: string): Option<Value> {
    if list == [] then None
    else if k in Own(data, list[0]) then Some(data[list[0]][k])
    else FirstHolder(data, list[1..], k)
  }

  function Field(r: Record, k: string): Option<Value> {
    if k in r then Some(r[k]) else None
  }

  /** Merging is looking for the first holder of each key. */
  lemma {:induction false} MergeIsFirstHolder(data: OverwriteData, list: seq<string>, k: string)
    ensures Field(Merge(data, list), k) == FirstHolder(data, list, k)
  {
    if list != [] {
      MergeIsFirstHolder(data, list[1..], k);
    }
  }

  lemma {:induction false} FirstHolderOfConcat(data: OverwriteData, a: seq<string>, b: seq<string>, k: string)
    ensures FirstHolder(data, a + b, k)
         == if FirstHolder(data, a, k).Some? then FirstHolder(data, a, k) else FirstHolder(data, b, k)
  {
    if a == [] {
      assert a + b == b;
    } else {
      FirstHolderOfConcat(data, a[1..], b, k);
      assert (a + b)[1..] == a[1..] + b;
    }
  }

  lemma {:induction false} FirstHolderHolds(data: OverwriteData, list: seq<string>, k: string)
    ensures FirstHolder(data, list, k).Some? <==> exists a :: a in list && k in Own(data, a)
    ensures FirstHolder(data, list, k).Some? ==>
              exists a :: a in list && k in Own(data, a) && FirstHolder(data, list, k) == Some(data[a][k])
  {
    if list != [] {
      FirstHolderHolds(data, list[1..], k);
      assert list == [list[0]] + list[1..];
      if exists a :: a in list && k in Own(data, a) {
        var a :| a in list && k in Own(data, a);
        assert a == list[0] || a in list[1..];
      }
      if k in Own(data, list[0]) {
        assert list[0] in list;
      } else if FirstHolder(data, list[1..], k).Some? {
        var a :| a in list[1..] && k in Own(data, a) && FirstHolder(data, list[1..], k) == Some(data[a][k]);
        assert a in list;
      }
    }
  }

  /** Repetitions in the list change nothing. */
  lemma {:induction false} FirstHolderOfDedupe(data: OverwriteData, list: seq<string>, k: string)
    ensures FirstHolder(data, Dedupe(list), k) == FirstHolder(data, list, k)
  {
    if list != [] {
      var init, x := list[..|list| - 1], list[|list| - 1];
      assert list == init + [x];
      FirstHolderOfDedupe(data, init, k);
      FirstHolderOfConcat(data, init, [x], k);
      FirstHolderOfConcat(data, Dedupe(init), [x], k);
      FirstHolderHolds(data, init, k);
    }
  }

  /** The types a lookup of `t` consults, nearest first. */
  ghost function Lookup(g: Graph, t: string): seq<string>
    requires Acyclic(g)
  {
    [t] + Order(g, t)
  }

  lemma SameFieldsSameRecord(a: Record, b: Record)
    requires forall k :: Field(a, k) == Field(b, k)
    ensures a == b
  {
    forall k
      ensures k in a <==> k in b
      ensures k in a ==> a[k] == b[k]
    {
      assert Field(a, k) == Field(b, k);
    }
  }

  /** The answer of `get(t)`, whatever repetitions the list it was given holds. */
  lemma GetIgnoresRepetitions(g: Graph, data: OverwriteData, t: string, found: seq<string>)
    requires Acyclic(g) && Dedupe(found) == Order(g, t)
    ensures Merge(data, [t] + found) == Merge(data, Lookup(g, t))
  {
    forall k
      ensures Field(Merge(data, [t] + found), k) == Field(Merge(data, Lookup(g, t)), k)
    {
      MergeIsFirstHolder(data, [t] + found, k);
      MergeIsFirstHolder(data, Lookup(g, t), k);
      FirstHolderOfConcat(data, [t], found, k);
      FirstHolderOfConcat(data, [t], Order(g, t), k);
      FirstHolderOfDedupe(data, found, k);
    }
    SameFieldsSameRecord(Merge(data, [t] + found), Merge(data, Lookup(g, t)));
  }

  // ---------- what flattening can store ----------

  /** A relation between a type and the fields flattening may give it. */
  type Origin = (string, string, Value) -> bool

  /** Own fields are allowed, and a recognized type may pass an allowed field down where its heir
      has none. */
  ghost predicate Inherits(g: Graph, classes: ClassExtends, data: OverwriteData, ok: Origin) {
    && (forall t, k :: t in data && k in data[t] ==> ok(t, k, data[t][k]))
    && (forall t, p, k, v :: p in Parents(g, t) && p in classes && ok(p, k, v) && k !in Own(data, t) ==> ok(t, k, v))
  }

  ghost predicate AllOk(ok: Origin, t: string, r: Record) {
    forall k :: k in r ==> ok(t, k, r[k])
  }

  /** Same types, own fields kept, and nothing outside `ok` added. */
  ghost predicate Between(ok: Origin, data: OverwriteData, now: OverwriteData) {
    && now.Keys == data.Keys
    && (forall t :: t in data ==> data[t].Keys <= now[t].Keys)
    && (forall t, k :: t in data && k in data[t] ==> now[t][k] == data[t][k])
    && (forall t :: t in now ==> AllOk(ok, t, now[t]))
  }

  lemma {:induction false} ResolveIsOk(g: Graph, classes: ClassExtends, ok: Origin, data: OverwriteData, now: OverwriteData,
                                       resolved: seq<string>, t: string)
    requires Acyclic(g) && RecognizedLists(g, classes) && ClassesWithin(g, classes) && AllRecognized(classes, resolved)
    requires Inherits(g, classes, data, ok) && Between(ok, data, now)
    ensures var r := Resolve(g, classes, now, resolved, t).overwrites;
            && AllOk(ok, t, Fields(r))
            && (r.Some? ==> t in classes && Own(data, t).Keys <= r.value.Keys && forall k :: k in Own(data, t) ==> r.value[k] == data[t][k])
    decreases Rank(g, t), 1, 0
  {
    StoredIsOk(ok, data, now, t);
    if t !in resolved && t in classes && classes[t].Some? {
      ListedIsParent(g, classes, t);
      hide Inherits, Between, RecognizedLists, ClassesWithin, AllOk, Acyclic;
      ResolveAllIsOk(g, classes, ok, data, now, resolved, t, classes[t].value, map[]);
      MergedIsOk(g, classes, ok, data, now, t, Fields(ResolveAll(g, classes, now, resolved, t, classes[t].value, map[]).overwrites));
    }
  }

  lemma StoredIsOk(ok: Origin, data: OverwriteData, now: OverwriteData, t: string)
    requires Between(ok, data, now)
    ensures AllOk(ok, t, Own(now, t)) && Own(data, t).Keys <= Own(now, t).Keys
    ensures forall k :: k in Own(data, t) ==> Own(now, t)[k] == data[t][k]
    ensures t in data <==> t in now
  {
  }

  lemma ListedIsParent(g: Graph, classes: ClassExtends, t: string)
    requires RecognizedLists(g, classes) && ClassesWithin(g, classes) && t in classes && classes[t].Some?
    ensures forall p :: p in classes[t].value ==> IsAncestor(g, t, p) && (p in classes ==> p in Parents(g, t))
  {
  }

  lemma MergedIsOk(g: Graph, classes: ClassExtends, ok: Origin, data: OverwriteData, now: OverwriteData, t: string, merged: Record)
    requires Inherits(g, classes, data, ok) && Between(ok, data, now) && OkAbove(g, classes, ok, t, merged)
    ensures AllOk(ok, t, merged + Own(now, t))
  {
    StoredIsOk(ok, data, now, t);
  }

  /** A merged field not overridden by `t` itself comes from a recognized parent of `t`. */
  ghost predicate OkAbove(g: Graph, classes: ClassExtends, ok: Origin, t: string, merged: Record) {
    forall k :: k in merged ==> exists p :: p in Parents(g, t) && p in classes && ok(p, k, merged[k])
  }

  lemma OkAboveStep(g: Graph, classes: ClassExtends, ok: Origin, t: string, p: string, merged: Record, more: Record)
    requires OkAbove(g, classes, ok, t, merged)
    requires more != map[] ==> p in Parents(g, t) && p in classes && AllOk(ok, p, more)
    ensures OkAbove(g, classes, ok, t, merged + more)
  {
  }

  lemma {:induction false} ResolveAllIsOk(g: Graph, classes: ClassExtends, ok: Origin, data: OverwriteData, now: OverwriteData,
                                          resolved: seq<string>, t: string, todo: seq<string>, merged: Record)
    requires Acyclic(g) && RecognizedLists(g, classes) && ClassesWithin(g, classes) && AllRecognized(classes, resolved)
    requires Inherits(g, classes, data, ok) && Between(ok, data, now)
    requires forall p :: p in todo ==> IsAncestor(g, t, p) && (p in classes ==> p in Parents(g, t))
    requires OkAbove(g, classes, ok, t, merged)
    ensures OkAbove(g, classes, ok, t, Fields(ResolveAll(g, classes, now, resolved, t, todo, merged).overwrites))
    decreases Rank(g, t), 0, |todo|
  {
    if todo != [] {
      var p := todo[0];
      RankFalls(g, t, p);
      ResolveIsOk(g, classes, ok, data, now, resolved, p);
      var r := Resolve(g, classes, now, resolved, p);
      assert p in todo && forall q :: q in todo[1..] ==> q in todo;
      OkAboveStep(g, classes, ok, t, p, merged, Fields(r.overwrites));
      ResolveAllIsOk(g, classes, ok, data, now, r.resolved, t, todo[1..], merged + Fields(r.overwrites));
    }
  }

  /** Whatever the order of the keys and whatever the memo forgets, flattening stays between
      the given data and what the types above may pass down. */
  lemma {:induction false} FlattenIsBetween(g: Graph, classes: ClassExtends, ok: Origin, data: OverwriteData, now: OverwriteData,
                                            resolved: seq<string>, keys: seq<string>)
    requires Acyclic(g) && RecognizedLists(g, classes) && ClassesWithin(g, classes) && AllRecognized(classes, resolved)
    requires Inherits(g, classes, data, ok) && Between(ok, data, now)
    requires forall t :: t in keys ==> t in data
    ensures Between(ok, data, Flatten(g, classes, now, resolved, keys))
    decreases |keys|
  {
    if keys != [] {
      var t := keys[0];
      ResolveIsOk(g, classes, ok, data, now, resolved, t);
      var r := Resolve(g, classes, now, resolved, t);
      assert t in keys && forall u :: u in keys[1..] ==> u in keys;
      FlattenIsBetween(g, classes, ok, data, WriteBack(now, t, r.overwrites), r.resolved, keys[1..]);
    }
  }

  // ---------- what callers see ----------

  ghost predicate SameAnswers(g: Graph, data: OverwriteData, now: OverwriteData)
    requires Acyclic(g)
  {
    forall t, k :: FirstHolder(now, Lookup(g, t), k) == FirstHolder(data, Lookup(g, t), k)
  }

  ghost predicate OnlyParent(g: Graph, t: string, p: string) {
    p in Parents(g, t) && forall x :: x in Parents(g, t) ==> x == p
  }

  lemma LookupOfChain(g: Graph, t: string, p: string)
    requires Acyclic(g) && OnlyParent(g, t, p)
    ensures Lookup(g, t) == [t] + Lookup(g, p)
  {
    OrderOfChain(g, t, p);
    Associative([t], [p], Order(g, p));
  }

  lemma LookupOfRoot(g: Graph, t: string)
    requires Acyclic(g) && Parents(g, t) == []
    ensures Lookup(g, t) == [t]
  {
    if Order(g, t) != [] {
      var a := Order(g, t)[0];
      OrderIsAncestors(g, t, a);
      var x := AncestorByParent(g, t, a);
    }
  }

  lemma {:induction false} DedupeHead(s: seq<string>)
    requires s != []
    ensures Dedupe(s) != [] && Dedupe(s)[0] == s[0]
  {
    if |s| > 1 {
      DedupeHead(s[..|s| - 1]);
    }
  }

  /** The first parent is looked up before any other ancestor. */
  lemma FirstParentFirst(g: Graph, t: string)
    requires Acyclic(g) && Parents(g, t) != []
    ensures Order(g, t) != [] && Order(g, t)[0] == Parents(g, t)[0]
  {
    DedupeHead(Parents(g, t) + OrderOfAll(g, t, Parents(g, t)));
  }

  ghost predicate NoneRecognized(classes: ClassExtends, ts: seq<string>) {
    forall t :: t in ts ==> t !in classes
  }

  /** `t` inherits from at most one recognized parent; if it has other parents beside that one,
      then that one is listed first and inherits from nothing. */
  ghost predicate Unambiguous(g: Graph, classes: ClassExtends, t: string) {
    forall p, q :: p in Parents(g, t) && q in Parents(g, t) && p in classes && q != p ==>
      q !in classes && Parents(g, t)[0] == p && NoneRecognized(classes, Parents(g, p))
  }

  lemma SingleIsUnambiguous(g: Graph, classes: ClassExtends)
    requires SingleInheritance(g)
    ensures forall t :: Unambiguous(g, classes, t)
  {
  }

  /** A field of `t` may only hold the value of the nearest type that has it, and only its own
      fields if no parent is recognized. */
  ghost function Nearest(g: Graph, classes: ClassExtends, data: OverwriteData): Origin {
    (t, k, v) =>
      && Acyclic(g) && FirstHolder(data, Lookup(g, t), k) == Some(v)
      && (NoneRecognized(classes, Parents(g, t)) ==> k in Own(data, t))
  }

  lemma NearestInherits(g: Graph, classes: ClassExtends, data: OverwriteData)
    requires Acyclic(g) && forall t :: Unambiguous(g, classes, t)
    ensures Inherits(g, classes, data, Nearest(g, classes, data))
  {
    forall t, k | t in data && k in data[t]
      ensures Nearest(g, classes, data)(t, k, data[t][k])
    {
      assert Lookup(g, t)[0] == t;
    }
    forall t, p, k, v | p in Parents(g, t) && p in classes && Nearest(g, classes, data)(p, k, v) && k !in Own(data, t)
      ensures Nearest(g, classes, data)(t, k, v)
    {
      assert Unambiguous(g, classes, t);
      if OnlyParent(g, t, p) {
        LookupOfChain(g, t, p);
        FirstHolderOfConcat(data, [t], Lookup(g, p), k);
      } else {
        FirstParentFirst(g, t);
        assert k in Own(data, p) && Parents(g, t)[0] == p;
        assert Lookup(g, t)[1..] == Order(g, t);
        assert FirstHolder(data, Lookup(g, t), k) == FirstHolder(data, Order(g, t), k) == Some(data[p][k]);
      }
    }
  }

  ghost predicate HasSeveralParents(g: Graph, t: string) {
    exists p, q :: p in Parents(g, t) && q in Parents(g, t) && p != q
  }

  /** Nothing above a type with several parents inherits. */
  lemma NothingAboveInherits(g: Graph, classes: ClassExtends, t: string, b: string)
    requires Acyclic(g) && Unambiguous(g, classes, t) && IsAncestor(g, t, b)
    requires forall u :: u in g ==> u in classes
    requires HasSeveralParents(g, t)
    ensures NoneRecognized(classes, Parents(g, b))
  {
    var x := AncestorByParent(g, t, b);
    var other :| other in Parents(g, t) && other != x;
    if x in classes {
      assert NoneRecognized(classes, Parents(g, x));
      if x != b {
        var y := AncestorByParent(g, x, b);
        assert y !in classes && Parents(g, y) == [];
        if y != b { var z := AncestorByParent(g, y, b); }
      }
    } else {
      assert Parents(g, x) == [];
      if x != b { var z := AncestorByParent(g, x, b); }
    }
  }

  lemma {:induction false} SameHolders(data: OverwriteData, now: OverwriteData, list: seq<string>, k: string)
    requires forall b :: b in list ==> Field(Own(now, b), k) == Field(Own(data, b), k)
    ensures FirstHolder(now, list, k) == FirstHolder(data, list, k)
  {
    if list != [] {
      assert list[0] in list && forall b :: b in list[1..] ==> b in list;
      assert Field(Own(now, list[0]), k) == Field(Own(data, list[0]), k);
      SameHolders(data, now, list[1..], k);
    }
  }

  lemma OwnFieldsOnly(g: Graph, classes: ClassExtends, data: OverwriteData, now: OverwriteData, b: string, k: string)
    requires Between(Nearest(g, classes, data), data, now) && NoneRecognized(classes, Parents(g, b))
    ensures Field(Own(now, b), k) == Field(Own(data, b), k)
  {
    if k in Own(now, b) {
      assert AllOk(Nearest(g, classes, data), b, now[b]);
      assert Nearest(g, classes, data)(b, k, now[b][k]);
    }
  }

  lemma {:induction false} BetweenAnswersTheSame(g: Graph, classes: ClassExtends, data: OverwriteData, now: OverwriteData,
                                                 t: string, k: string)
    requires Acyclic(g) && (forall u :: u in g ==> u in classes) && forall u :: Unambiguous(g, classes, u)
    requires Between(Nearest(g, classes, data), data, now)
    ensures FirstHolder(now, Lookup(g, t), k) == FirstHolder(data, Lookup(g, t), k)
    decreases Rank(g, t)
  {
    OwnKept(Nearest(g, classes, data), data, now, t, k);
    if k in Own(now, t) {
      assert AllOk(Nearest(g, classes, data), t, now[t]);
      assert Nearest(g, classes, data)(t, k, now[t][k]);
    } else if Parents(g, t) == [] {
      LookupOfRoot(g, t);
    } else if p :| OnlyParent(g, t, p) {
      hide Between, Unambiguous, FirstHolder, Lookup;
      AncestorOrParentRank(g, t, p);
      BetweenAnswersTheSame(g, classes, data, now, p, k);
      SameThroughParent(g, data, now, t, p, k);
    } else {
      SeveralParents(g, t);
      hide Between, Unambiguous, FirstHolder, Lookup, HasSeveralParents;
      SameAmongParents(g, classes, data, now, t, k);
    }
  }

  lemma OwnKept(ok: Origin, data: OverwriteData, now: OverwriteData, t: string, k: string)
    requires Between(ok, data, now)
    ensures k !in Own(now, t) ==> Field(Own(now, t), k) == Field(Own(data, t), k)
  {
  }

  lemma SameThroughParent(g: Graph, data: OverwriteData, now: OverwriteData, t: string, p: string, k: string)
    requires Acyclic(g) && OnlyParent(g, t, p)
    requires Field(Own(now, t), k) == Field(Own(data, t), k)
    requires FirstHolder(now, Lookup(g, p), k) == FirstHolder(data, Lookup(g, p), k)
    ensures FirstHolder(now, Lookup(g, t), k) == FirstHolder(data, Lookup(g, t), k)
  {
    LookupOfChain(g, t, p);
    FirstHolderOfConcat(data, [t], Lookup(g, p), k);
    FirstHolderOfConcat(now, [t], Lookup(g, p), k);
  }

  lemma SameAmongParents(g: Graph, classes: ClassExtends, data: OverwriteData, now: OverwriteData, t: string, k: string)
    requires Acyclic(g) && (forall u :: u in g ==> u in classes) && Unambiguous(g, classes, t)
    requires Between(Nearest(g, classes, data), data, now)
    requires Field(Own(now, t), k) == Field(Own(data, t), k)
    requires HasSeveralParents(g, t)
    ensures FirstHolder(now, Lookup(g, t), k) == FirstHolder(data, Lookup(g, t), k)
  {
    hide *;
    forall b | b in Lookup(g, t)
      ensures Field(Own(now, b), k) == Field(Own(data, b), k)
    {
      SameAbove(g, classes, data, now, t, b, k);
    }
    SameHolders(data, now, Lookup(g, t), k);
  }

  lemma SameAbove(g: Graph, classes: ClassExtends, data: OverwriteData, now: OverwriteData, t: string, b: string, k: string)
    requires Acyclic(g) && (forall u :: u in g ==> u in classes) && Unambiguous(g, classes, t) && HasSeveralParents(g, t)
    requires Between(Nearest(g, classes, data), data, now)
    requires Field(Own(now, t), k) == Field(Own(data, t), k) && b in Lookup(g, t)
    ensures Field(Own(now, b), k) == Field(Own(data, b), k)
  {
    hide Between, Unambiguous, HasSeveralParents, NoneRecognized, Own;
    if b != t {
      OrderIsAncestors(g, t, b);
      NothingAboveInherits(g, classes, t, b);
      OwnFieldsOnly(g, classes, data, now, b, k);
    }
  }

  lemma SeveralParents(g: Graph, t: string)
    requires Parents(g, t) != [] && forall p :: !OnlyParent(g, t, p)
    ensures HasSeveralParents(g, t)
  {
    var p := Parents(g, t)[0];
    assert p in Parents(g, t) && !OnlyParent(g, t, p);
  }

  /** Where no type is ambiguous, flattening in any key order leaves every answer of `get` the
      value of the nearest type whose given data has the key. */
  lemma UnambiguousKeepsAnswers(g: Graph, classes: ClassExtends, data: OverwriteData, keys: seq<string>)
    requires Acyclic(g) && RecognizedLists(g, classes) && ClassesWithin(g, classes)
    requires Enumerates(keys, data) && forall t :: Unambiguous(g, classes, t)
    ensures SameAnswers(g, data, Flatten(g, classes, data, [], keys))
    ensures Flatten(g, classes, data, [], keys).Keys == data.Keys
  {
    NearestInherits(g, classes, data);
    hide Unambiguous;
    var now := Flatten(g, classes, data, [], keys);
    FlattenIsBetween(g, classes, Nearest(g, classes, data), data, data, [], keys);
    forall t, k
      ensures FirstHolder(now, Lookup(g, t), k) == FirstHolder(data, Lookup(g, t), k)
    {
      BetweenAnswersTheSame(g, classes, data, now, t, k);
    }
  }

  /** With single inheritance, flattening in any key order leaves every answer of `get` the
      value of the nearest type whose given data has the key. */
  lemma SetDataKeepsAnswers(g: Graph, classes: ClassExtends, data: OverwriteData, keys: seq<string>)
    requires Acyclic(g) && SameLists(g, classes) && SingleInheritance(g)
    requires Enumerates(keys, data)
    ensures SameAnswers(g, data, Flatten(g, classes, data, [], keys))
    ensures Flatten(g, classes, data, [], keys).Keys == data.Keys
  {
    SingleIsUnambiguous(g, classes);
    UnambiguousKeepsAnswers(g, classes, data, keys);
  }

  /** With single inheritance flattening is invisible: each lookup answers with the same record
      as it would in the data as given. */
  lemma FlatteningIsInvisible(g: Graph, classes: ClassExtends, data: OverwriteData, keys: seq<string>, t: string)
    requires Acyclic(g) && SameLists(g, classes) && SingleInheritance(g)
    requires Enumerates(keys, data)
    ensures Merge(Flatten(g, classes, data, [], keys), Lookup(g, t)) == Merge(data, Lookup(g, t))
  {
    var now := Flatten(g, classes, data, [], keys);
    SetDataKeepsAnswers(g, classes, data, keys);
    forall k
      ensures Field(Merge(now, Lookup(g, t)), k) == Field(Merge(data, Lookup(g, t)), k)
    {
      MergeIsFirstHolder(now, Lookup(g, t), k);
      MergeIsFirstHolder(data, Lookup(g, t), k);
    }
    SameFieldsSameRecord(Merge(now, Lookup(g, t)), Merge(data, Lookup(g, t)));
  }

  /** Setting the flattened data again, in another key order, changes no answer. */
  lemma SetDataTwice(g: Graph, classes: ClassExtends, data: OverwriteData, keys: seq<string>, again: seq<string>)
    requires Acyclic(g) && SameLists(g, classes) && SingleInheritance(g)
    requires Enumerates(keys, data) && Enumerates(again, data)
    ensures var once := Flatten(g, classes, data, [], keys);
            SameAnswers(g, once, Flatten(g, classes, once, [], again))
  {
    SetDataKeepsAnswers(g, classes, data, keys);
    SetDataKeepsAnswers(g, classes, Flatten(g, classes, data, [], keys), again);
  }

  ghost predicate HeldAbove(g: Graph, data: OverwriteData, t: string, k: string, v: Value) {
    Acyclic(g) && exists a :: a in Lookup(g, t) && k in Own(data, a) && data[a][k] == v
  }

  lemma HeldAboveInherits(g: Graph, classes: ClassExtends, data: OverwriteData)
    requires Acyclic(g)
    ensures Inherits(g, classes, data, (t, k, v) => HeldAbove(g, data, t, k, v))
  {
    forall t, k | t in data && k in data[t]
      ensures HeldAbove(g, data, t, k, data[t][k])
    {
      assert t in Lookup(g, t);
    }
    forall t, p, k, v | p in Parents(g, t) && HeldAbove(g, data, p, k, v)
      ensures HeldAbove(g, data, t, k, v)
    {
      var a :| a in Lookup(g, p) && k in Own(data, a) && data[a][k] == v;
      LookupGrows(g, t, p, a);
    }
  }

  lemma LookupGrows(g: Graph, t: string, p: string, a: string)
    requires Acyclic(g) && a in Lookup(g, p)
    requires p in Lookup(g, t) || p in Parents(g, t)
    ensures a in Lookup(g, t)
  {
    if p in Parents(g, t) {
      ParentIsAncestor(g, t, p);
      OrderIsAncestors(g, t, p);
    }
    if p != t && a != p {
      OrderIsAncestors(g, t, p);
      OrderIsAncestors(g, p, a);
      AncestorTransitive(g, t, p, a);
      OrderIsAncestors(g, t, a);
    }
  }

  /** A lookup in data between the given data and what may be inherited finds a key exactly
      where it was given, and with a value it was given. */
  lemma BetweenKeepsKeys(g: Graph, data: OverwriteData, now: OverwriteData, t: string, k: string)
    requires Acyclic(g)
    requires Between((t, k, v) => HeldAbove(g, data, t, k, v), data, now)
    ensures var answer := FirstHolder(now, Lookup(g, t), k);
            && (FirstHolder(data, Lookup(g, t), k).Some? ==> answer.Some?)
            && (answer.Some? ==> HeldAbove(g, data, t, k, answer.value))
  {
    FirstHolderHolds(data, Lookup(g, t), k);
    FirstHolderHolds(now, Lookup(g, t), k);
    if FirstHolder(now, Lookup(g, t), k).Some? {
      var b :| b in Lookup(g, t) && k in Own(now, b) && FirstHolder(now, Lookup(g, t), k) == Some(now[b][k]);
      assert AllOk((t, k, v) => HeldAbove(g, data, t, k, v), b, now[b]);
      assert HeldAbove(g, data, b, k, now[b][k]);
      var a :| a in Lookup(g, b) && k in Own(data, a) && data[a][k] == now[b][k];
      LookupGrows(g, t, b, a);
    }
  }

  /** With any number of parents, the keys of `get(t)` are those given for `t` and all its
      ancestors, and each value is one that was given for its key. */
  lemma SetDataKeepsKeys(g: Graph, classes: ClassExtends, data: OverwriteData, keys: seq<string>, t: string, k: string)
    requires Acyclic(g) && SameLists(g, classes)
    requires Enumerates(keys, data)
    ensures var answer := FirstHolder(Flatten(g, classes, data, [], keys), Lookup(g, t), k);
            && (answer.Some? <==> exists a :: (a == t || IsAncestor(g, t, a)) && k in Own(data, a))
            && (answer.Some? ==> HeldAbove(g, data, t, k, answer.value))
  {
    HeldAboveInherits(g, classes, data);
    FlattenIsBetween(g, classes, (t, k, v) => HeldAbove(g, data, t, k, v), data, data, [], keys);
    BetweenKeepsKeys(g, data, Flatten(g, classes, data, [], keys), t, k);
    HeldSomewhereAbove(g, data, t, k);
  }

  lemma HeldSomewhereAbove(g: Graph, data: OverwriteData, t: string, k: string)
    requires Acyclic(g)
    ensures FirstHolder(data, Lookup(g, t), k).Some? <==> exists a :: (a == t || IsAncestor(g, t, a)) && k in Own(data, a)
    ensures forall v :: HeldAbove(g, data, t, k, v) ==> FirstHolder(data, Lookup(g, t), k).Some?
  {
    FirstHolderHolds(data, Lookup(g, t), k);
    forall a
      ensures a in Lookup(g, t) <==> a == t || IsAncestor(g, t, a)
    {
      OrderIsAncestors(g, t, a);
    }
  }

  /** Flattening never takes a field from a type, nor changes it. */
  lemma {:induction false} OwnFieldsStay(g: Graph, classes: ClassExtends, data: OverwriteData, resolved: seq<string>, keys: seq<string>,
                                         t: string, k: string)
    requires Acyclic(g) && ClassesWithin(g, classes)
    requires k in Own(data, t)
    ensures var now := Flatten(g, classes, data, resolved, keys);
            k in Own(now, t) && now[t][k] == data[t][k]
    decreases |keys|
  {
    if keys != [] {
      var r := Resolve(g, classes, data, resolved, keys[0]);
      OwnFieldsStay(g, classes, WriteBack(data, keys[0], r.overwrites), r.resolved, keys[1..], t, k);
    }
  }

  // ---------- filling blank fields ----------

  predicate Blank(data: Record, k: string) {
    k !in data || data[k] in {Null, Undefined, Text("")}
  }

  /** `applyOverwrite`: only blank fields are overwritten. */
  function Filled(data: Record, overwrites: Record): Record {
    map k | k in data.Keys + overwrites.Keys ::
      if Blank(data, k) && k in overwrites then overwrites[k] else data[k]
  }

  /** Filling keeps every field that is not blank, gives each blank field its overwrite where
      there is one, adds nothing else, and filling again changes nothing. */
  lemma FillingIsIdempotent(data: Record, overwrites: Record)
    ensures Filled(Filled(data, overwrites), overwrites) == Filled(data, overwrites)
    ensures forall k :: !Blank(data, k) ==> Field(Filled(data, overwrites), k) == Field(data, k)
    ensures forall k :: Blank(data, k) ==>
              Field(Filled(data, overwrites), k) == if k in overwrites then Some(overwrites[k]) else Field(data, k)
  {
    var once := Filled(data, overwrites);
    forall k | k in once
      ensures Filled(once, overwrites)[k] == once[k]
    {
    }
  }

  /** With single inheritance, a credential is filled from the data as it was given: each blank
      field takes the value of the nearest type whose given data has it. */
  lemma FilledFromNearest(g: Graph, classes: ClassExtends, given: OverwriteData, keys: seq<string>, t: string, data: Record, k: string)
    requires Acyclic(g) && SameLists(g, classes) && SingleInheritance(g)
    requires Enumerates(keys, given)
    ensures var filled := Filled(data, Merge(Flatten(g, classes, given, [], keys), Lookup(g, t)));
            var nearest := FirstHolder(given, Lookup(g, t), k);
            Field(filled, k) == if Blank(data, k) && nearest.Some? then nearest else Field(data, k)
  {
    SetDataKeepsAnswers(g, classes, given, keys);
    MergeIsFirstHolder(Flatten(g, classes, given, [], keys), Lookup(g, t), k);
  }

  // ---------- the service ----------

  class CredentialsOverwrites {
    const types: CredentialTypes
    const classes: ClassExtends
    var overwriteData: OverwriteData
    var resolvedTypes: seq<string>

    constructor (types: CredentialTypes, classes: ClassExtends, data: OverwriteData, keys: seq<string>)
      requires types.Valid() && ClassesWithin(types.loaded, classes) && Enumerates(keys, data)
      ensures this.types == types && this.classes == classes && Valid()
      ensures overwriteData == Flatten(types.loaded, classes, data, [], keys)
    {
      this.types := types;
      this.classes := classes;
      new;
      SetData(data, keys);
    }

    ghost predicate Valid()
      reads types, types.known.Values
    {
      types.Valid() && ClassesWithin(types.loaded, classes)
    }

    /** `keys` is the order in which the loop visits the properties of `data`. */
    method SetData(data: OverwriteData, keys: seq<string>)
      requires Valid() && Enumerates(keys, data)
      modifies this
      ensures overwriteData == Flatten(types.loaded, classes, data, [], keys)
    {
      hide Enumerates;
      resolvedTypes := [];
      overwriteData := data;
      for i := 0 to |keys|
        invariant Flatten(types.loaded, classes, overwriteData, resolvedTypes, keys[i..])
               == Flatten(types.loaded, classes, data, [], keys)
      {
        NextKey(types.loaded, classes, overwriteData, resolvedTypes, keys, i);
        FlattenType(keys[i]);
      }
      assert keys[|keys|..] == [];
    }

    /** The body of the loop. */
    method FlattenType(t: string)
      requires Valid()
      modifies this
      ensures var r := Resolve(types.loaded, classes, old(overwriteData), old(resolvedTypes), t);
              overwriteData == WriteBack(old(overwriteData), t, r.overwrites) && resolvedTypes == r.resolved
    {
      var overwrites := GetOverwrites(t);
      if overwrites.Some? && overwrites.value != map[] {
        overwriteData := overwriteData[t := overwrites.value];
      }
    }

    method GetOverwrites(t: string) returns (overwrites: Option<Record>)
      requires Valid()
      modifies this`resolvedTypes
      ensures Resolution(overwrites, resolvedTypes)
           == Resolve(types.loaded, classes, overwriteData, old(resolvedTypes), t)
      decreases Rank(types.loaded, t)
    {
      if t in resolvedTypes {
        return Stored(overwriteData, t);
      }
      if t !in classes {
        return None;
      }
      if classes[t].None? {
        resolvedTypes := resolvedTypes + [t];
        return Stored(overwriteData, t);
      }
      var parents := classes[t].value;
      var merged: Record := map[];
      for i := 0 to |parents|
        invariant forall p :: p in parents[i..] ==> IsAncestor(types.loaded, t, p)
        invariant ResolveAll(types.loaded, classes, overwriteData, resolvedTypes, t, parents[i..], merged)
               == ResolveAll(types.loaded, classes, overwriteData, old(resolvedTypes), t, parents, map[])
      {
        NextParent(types.loaded, classes, overwriteData, resolvedTypes, t, parents, i, merged);
        hide ResolveAll, Resolve, ClassesWithin, Acyclic, IsAncestor, Rank;
        var above := GetOverwrites(parents[i]);
        merged := merged + Fields(above);
      }
      assert parents[|parents|..] == [];
      resolvedTypes := resolvedTypes + [t];
      overwrites := Some(merged + Own(overwriteData, t));
    }

    /** The answer is that of the first type in lookup order that has the key, at any point
        of a history of lookups. */
    method Get(name: string) returns (answer: Record)
      requires Valid() && Settled(types.loaded, types.Snapshot())
      modifies types.known.Values
      ensures Valid() && Settled(types.loaded, types.Snapshot())
      ensures answer == Merge(overwriteData, Lookup(types.loaded, name))
    {
      WalkSettles(types.loaded, types.Snapshot(), name);
      var parentTypes := types.GetParentTypes(name);
      answer := Merge(overwriteData, [name] + parentTypes.items);
      GetIgnoresRepetitions(types.loaded, overwriteData, name, parentTypes.items);
    }

    method ApplyOverwrite(name: string, data: Record) returns (result: Record)
      requires Valid() && Settled(types.loaded, types.Snapshot())
      modifies types.known.Values
      ensures Valid() && Settled(types.loaded, types.Snapshot())
      ensures result == Filled(data, Merge(overwriteData, Lookup(types.loaded, name)))
    {
      var overwrites := Get(name);
      result := data;
      var todo := overwrites.Keys;
      while todo != {}
        invariant todo <= overwrites.Keys
        invariant forall k :: k !in overwrites || k in todo ==> Field(result, k) == Field(data, k)
        invariant forall k :: k in overwrites && k !in todo ==>
                    Field(result, k) == if Blank(data, k) then Some(overwrites[k]) else Field(data, k)
      {
        var key :| key in todo;
        assert Blank(result, key) == Blank(data, key) by {
          assert Field(result, key) == Field(data, key);
        }
        if Blank(result, key) {
          result := result[key := overwrites[key]];
        }
        todo := todo - {key};
      }
      assert forall k :: Field(result, k) == Field(Filled(data, overwrites), k);
      SameFieldsSameRecord(result, Filled(data, overwrites));
    }
  }
}
