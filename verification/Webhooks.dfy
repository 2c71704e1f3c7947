/**
 Webhook registration: one row after another is upserted into the webhook table, and a failure
 deletes the workflow's rows again, except on start-up where rows may be left from before.
 */
module WebhookRegistration {
  import opened Strings
  import opened Wrappers

  type Id = string

  datatype Verb = Get | Post | Put | Patch | Delete | Head | Options

  /** A webhook of a workflow, with the `webhookId` of its node. */
  datatype WebhookData = WebhookData(path: string, verb: Verb, node: string, webhookId: Option<string>)

  datatype Key = Key(verb: Verb, path: string)

  datatype Row = Row(workflowId: Id, path: string, verb: Verb, node: string,
                     webhookId: Option<string>, pathLength: Option<nat>)

  type Table = map<Key, Row>

  // ---------- paths ----------

  predicate IsDynamic(path: string) {
    (path != [] && path[0] == ':') || Includes(path, "/:")
  }

  function WithoutFirstSlash(path: string): string {
    if path != [] && path[0] == '/' then path[1..] else path
  }

  function WithoutLastSlash(path: string): string {
    if path != [] && path[|path| - 1] == '/' then path[..|path| - 1] else path
  }

  function Stripped(path: string): string {
    WithoutLastSlash(WithoutFirstSlash(path))
  }

  /** The stored path is the given one without one leading and one trailing slash: each path is of one
      of these four forms. */
  lemma StrippedOnce(core: string)
    ensures Stripped("/" + core + "/") == core
    ensures core == "" || core[|core| - 1] != '/' ==> Stripped("/" + core) == core
    ensures core == "" || core[0] != '/' ==> Stripped(core + "/") == core
    ensures core == "" || (core[0] != '/' && core[|core| - 1] != '/') ==> Stripped(core) == core
  {
    assert ("/" + core + "/")[1..] == core + "/" && (core + "/")[..|core|] == core;
    assert ("/" + core)[1..] == core;
  }

  lemma FirstSlashKeepsDynamic(path: string)
    ensures IsDynamic(WithoutFirstSlash(path)) == IsDynamic(path)
  {
    if path != [] && path[0] == '/' {
      var rest := path[1..];
      if |path| >= 2 {
        assert path[..2] == "/:" <==> path[1] == ':';
        assert Includes(path, "/:") <==> path[..2] == "/:" || Includes(rest, "/:");
      }
    }
  }

  lemma LastSlashKeepsDynamic(path: string)
    ensures IsDynamic(WithoutLastSlash(path)) == IsDynamic(path)
  {
    if path != [] && path[|path| - 1] == '/' {
      var rest := path[..|path| - 1];
      IncludesAt(path, "/:");
      IncludesAt(rest, "/:");
      if i: nat :| OccursAt(path, "/:", i) {
        assert path[i..][..2][1] == path[i + 1];
        assert i + 2 < |path|;
        assert rest[i..][..2] == path[i..][..2];
        assert OccursAt(rest, "/:", i);
      }
      if i: nat :| OccursAt(rest, "/:", i) {
        assert rest[i..][..2] == path[i..][..2];
        assert OccursAt(path, "/:", i);
      }
    }
  }

  /** The test on the raw path answers for the stripped path that is stored. */
  lemma DynamicTestIgnoresStripping(path: string)
    ensures IsDynamic(Stripped(path)) == IsDynamic(path)
  {
    FirstSlashKeepsDynamic(path);
    LastSlashKeepsDynamic(WithoutFirstSlash(path));
  }

  function RowOf(workflowId: Id, d: WebhookData): Row {
    var path := Stripped(d.path);
    if IsDynamic(d.path) && d.webhookId.Some? && d.webhookId.value != "" then
      Row(workflowId, path, d.verb, d.node, d.webhookId, Some(|Split(path, '/')|))
    else
      Row(workflowId, path, d.verb, d.node, None, None)
  }

  function KeyOf(d: WebhookData): Key {
    Key(d.verb, Stripped(d.path))
  }

  /** A path without an outer slash is stored as it is, and any other without one of each. */
  lemma PathForms(path: string)
    ensures || path == "/" + Stripped(path) + "/" || path == "/" + Stripped(path)
            || path == Stripped(path) + "/" || path == Stripped(path)
  {
  }

  /** A row belongs to its workflow and node, and carries the verb of its webhook. */
  lemma RowIsOf(workflowId: Id, d: WebhookData)
    ensures var r := RowOf(workflowId, d);
            && r.workflowId == workflowId && r.verb == d.verb && r.node == d.node && r.path == Stripped(d.path)
            && (r.webhookId.None? || r.webhookId == d.webhookId) && (r.webhookId.Some? <==> r.pathLength.Some?)
            && KeyOf(d) == Key(r.verb, r.path)
  {
  }

  /** Each row sits under its own verb and path. */
  ghost predicate WellKeyed(t: Table) {
    forall k :: k in t ==> k == Key(t[k].verb, t[k].path)
  }

  /** A stored row carries a path length exactly if its own path is dynamic and its node has a
      webhook id; the length is one more than the slashes of the path, and it is the number of
      segments that a request for the path has after the webhook id. */
  lemma RowsMatchRequests(workflowId: Id, d: WebhookData, request: string)
    ensures var r := RowOf(workflowId, d);
            && (r.pathLength.Some? <==> IsDynamic(r.path) && d.webhookId.Some? && d.webhookId.value != "")
            && (r.pathLength.Some? ==> r.pathLength.value == Occurrences(r.path, '/') + 1 && r.webhookId == d.webhookId)
            && (r.pathLength.Some? && '/' !in d.webhookId.value && request == d.webhookId.value + "/" + r.path ==>
                  Split(request, '/')[0] == d.webhookId.value && |Split(request, '/')[1..]| == r.pathLength.value)
  {
    DynamicTestIgnoresStripping(d.path);
    SplitThenJoin(Stripped(d.path), '/');
    if d.webhookId.Some? && '/' !in d.webhookId.value {
      SplitAfter(d.webhookId.value, Stripped(d.path), '/');
    }
  }

  // ---------- registration ----------

  /** What storing a row and then creating the webhook at its service do; `query` tells a
      failed database query from other failures. */
  datatype Outcome = Stored | StoreFails(query: bool) | CreateFails(query: bool)

  datatype Result = Registered | PathTaken | Failed

  datatype Item = Item(data: WebhookData, outcome: Outcome)

  function Upsert(t: Table, workflowId: Id, item: Item): Table {
    if item.outcome.StoreFails? then t else t[KeyOf(item.data) := RowOf(workflowId, item.data)]
  }

  /** `deleteWorkflowWebhooks`. */
  function WithoutWorkflow(t: Table, workflowId: Id): Table {
    map k | k in t && t[k].workflowId != workflowId :: t[k]
  }

  /** A failed query is ignored on start-up. */
  predicate Fatal(item: Item, init: bool) {
    !item.outcome.Stored? && !(init && item.outcome.query)
  }

  /** `addWebhooks`; `rollback` tells whether `clearWebhooks` succeeds. */
  function AddAll(t: Table, workflowId: Id, items: seq<Item>, init: bool, rollback: bool): (Table, Result)
    decreases |items|
  {
    if items == [] then (t, Registered) else
      var t' := Upsert(t, workflowId, items[0]);
      if !Fatal(items[0], init) then AddAll(t', workflowId, items[1..], init, rollback)
      else (if rollback then WithoutWorkflow(t', workflowId) else t',
            if items[0].outcome.query then PathTaken else Failed)
  }

  /** The items that are tried: all of them, or those up to the first fatal one. */
  function Tried(items: seq<Item>, init: bool): seq<Item> {
    if items == [] then [] else
      [items[0]] + if Fatal(items[0], init) then [] else Tried(items[1..], init)
  }

  /** The keys of the rows that were stored, even if only for a while. */
  ghost predicate StoresKey(items: seq<Item>, init: bool, k: Key) {
    exists item :: item in Tried(items, init) && !item.outcome.StoreFails? && KeyOf(item.data) == k
  }

  lemma StoresKeyStep(items: seq<Item>, init: bool, k: Key)
    requires items != []
    ensures StoresKey(items, init, k) <==>
              || (!items[0].outcome.StoreFails? && KeyOf(items[0].data) == k)
              || (!Fatal(items[0], init) && StoresKey(items[1..], init, k))
  {
    var rest := if Fatal(items[0], init) then [] else Tried(items[1..], init);
    assert Tried(items, init) == [items[0]] + rest;
    assert forall item :: item in Tried(items, init) <==> item == items[0] || item in rest;
  }

  /** A row of another workflow is unchanged in the end exactly if its key was never stored:
      storing is an upsert, so a taken key is overwritten, and then rolled back to nothing. */
  lemma {:induction false} OthersKeepUnlessOverwritten(t: Table, workflowId: Id, items: seq<Item>, init: bool, rollback: bool, k: Key)
    requires k in t && t[k].workflowId != workflowId
    ensures var r := AddAll(t, workflowId, items, init, rollback).0;
            (k in r && r[k] == t[k]) <==> !StoresKey(items, init, k)
    decreases |items|
  {
    if items != [] {
      StoresKeyStep(items, init, k);
      var t' := Upsert(t, workflowId, items[0]);
      if t'[k] != t[k] {
        OverwrittenStays(t', workflowId, items, init, rollback, k);
        if !Fatal(items[0], init) {
          OverwrittenStays(t', workflowId, items[1..], init, rollback, k);
        }
      } else if !Fatal(items[0], init) {
        OthersKeepUnlessOverwritten(t', workflowId, items[1..], init, rollback, k);
      }
    }
  }

  /** A key taken over by the workflow is its own or free in the end. */
  lemma {:induction false} OverwrittenStays(t: Table, workflowId: Id, items: seq<Item>, init: bool, rollback: bool, k: Key)
    requires k in t ==> t[k].workflowId == workflowId
    ensures var r := AddAll(t, workflowId, items, init, rollback).0; k in r ==> r[k].workflowId == workflowId
    decreases |items|
  {
    if items != [] && !Fatal(items[0], init) {
      OverwrittenStays(Upsert(t, workflowId, items[0]), workflowId, items[1..], init, rollback, k);
    }
  }

  /** If storing fails where another workflow holds the key, as an insert does, then the rows of
      all other workflows are the same before and after, whatever fails. */
  lemma InsertingKeepsOthers(t: Table, workflowId: Id, items: seq<Item>, init: bool, rollback: bool, k: Key)
    requires forall item :: item in items && KeyOf(item.data) in t && t[KeyOf(item.data)].workflowId != workflowId ==>
               item.outcome.StoreFails?
    ensures var r := AddAll(t, workflowId, items, init, rollback).0;
            && (k in t && t[k].workflowId != workflowId <==> k in r && r[k].workflowId != workflowId)
            && (k in t && t[k].workflowId != workflowId ==> r[k] == t[k])
  {
    if k in t && t[k].workflowId != workflowId {
      TriedAreItems(items, init);
      OthersKeepUnlessOverwritten(t, workflowId, items, init, rollback, k);
    } else {
      OverwrittenStays(t, workflowId, items, init, rollback, k);
    }
  }

  lemma {:induction false} TriedAreItems(items: seq<Item>, init: bool)
    ensures forall item :: item in Tried(items, init) ==> item in items
  {
    if items != [] {
      TriedAreItems(items[1..], init);
    }
  }

  /** The row of the last item with key `k`. */
  function LastRow(workflowId: Id, items: seq<Item>, k: Key): Option<Row> {
    if items == [] then None
    else
      var later := LastRow(workflowId, items[1..], k);
      if later.Some? then later
      else if KeyOf(items[0].data) == k then Some(RowOf(workflowId, items[0].data)) else None
  }

  predicate AllStored(items: seq<Item>) {
    forall item :: item in items ==> item.outcome.Stored?
  }

  lemma {:induction false} StoredAll(t: Table, workflowId: Id, items: seq<Item>, init: bool, rollback: bool, k: Key)
    requires AllStored(items)
    ensures var (r, result) := AddAll(t, workflowId, items, init, rollback);
            && result == Registered
            && (if k in r then Some(r[k]) else None) ==
               if LastRow(workflowId, items, k).Some? then LastRow(workflowId, items, k)
               else if k in t then Some(t[k]) else None
    decreases |items|
  {
    if items != [] {
      assert items[0] in items && forall item :: item in items[1..] ==> item in items;
      StoredAll(Upsert(t, workflowId, items[0]), workflowId, items[1..], init, rollback, k);
    }
  }

  lemma {:induction false} FailureIsReported(t: Table, workflowId: Id, items: seq<Item>, rollback: bool)
    ensures AddAll(t, workflowId, items, false, rollback).1 == Registered <==> AllStored(items)
    ensures !AllStored(items) && rollback ==>
              forall k :: k in AddAll(t, workflowId, items, false, rollback).0 ==>
                AddAll(t, workflowId, items, false, rollback).0[k].workflowId != workflowId
    decreases |items|
  {
    if items != [] {
      assert items == [items[0]] + items[1..];
      FailureIsReported(Upsert(t, workflowId, items[0]), workflowId, items[1..], rollback);
    }
  }

  /** Outside start-up registration is all or nothing: either every webhook was stored, and each
      key holds the row of the last webhook that has it, or, if the rollback succeeds, the table
      holds no row of the workflow. */
  lemma AllOrNothing(t: Table, workflowId: Id, items: seq<Item>)
    ensures var (r, result) := AddAll(t, workflowId, items, false, true);
            && (result == Registered <==> AllStored(items))
            && (result == Registered ==> forall item :: item in items ==>
                  KeyOf(item.data) in r && Some(r[KeyOf(item.data)]) == LastRow(workflowId, items, KeyOf(item.data)))
            && (result != Registered ==> forall k :: k in r ==> r[k].workflowId != workflowId)
  {
    FailureIsReported(t, workflowId, items, true);
    if AllStored(items) {
      forall item | item in items
        ensures var r := AddAll(t, workflowId, items, false, true).0;
                var k := KeyOf(item.data);
                k in r && Some(r[k]) == LastRow(workflowId, items, k)
      {
        StoredAll(t, workflowId, items, false, true, KeyOf(item.data));
        HasLastRow(workflowId, items, item);
      }
    }
  }

  /** Which failure is reported: that of the first webhook whose storing or creation fails, unless it is
      a failed query on start-up. */
  lemma {:induction false} FirstFailureDecides(t: Table, workflowId: Id, items: seq<Item>, init: bool, rollback: bool, i: nat)
    requires i < |items| && items[i].outcome != Stored && !(init && items[i].outcome.query)
    requires forall j :: 0 <= j < i ==> items[j].outcome == Stored || (init && items[j].outcome.query)
    ensures AddAll(t, workflowId, items, init, rollback).1 == if items[i].outcome.query then PathTaken else Failed
    decreases |items|
  {
    if i > 0 {
      FirstFailureDecides(Upsert(t, workflowId, items[0]), workflowId, items[1..], init, rollback, i - 1);
    }
  }

  /** Registration stores each row under its own verb and path. */
  lemma {:induction false} KeepsKeys(t: Table, workflowId: Id, items: seq<Item>, init: bool, rollback: bool)
    requires WellKeyed(t)
    ensures WellKeyed(AddAll(t, workflowId, items, init, rollback).0)
    decreases |items|
  {
    if items != [] {
      UpsertKeepsKeys(t, workflowId, items[0]);
      hide Upsert;
      KeepsKeys(Upsert(t, workflowId, items[0]), workflowId, items[1..], init, rollback);
    }
  }

  lemma UpsertKeepsKeys(t: Table, workflowId: Id, item: Item)
    requires WellKeyed(t)
    ensures WellKeyed(Upsert(t, workflowId, item))
  {
    RowIsOf(workflowId, item.data);
  }

  /** `findStaticWebhook`: a row with the given verb and path. */
  ghost function FindStatic(t: Table, verb: Verb, path: string): (r: Option<Row>)
    ensures r.None? <==> forall k :: k in t ==> t[k].verb != verb || t[k].path != path
    ensures r.Some? ==> r.value.verb == verb && r.value.path == path
  {
    if exists k :: k in t && t[k].verb == verb && t[k].path == path then
      var k :| k in t && t[k].verb == verb && t[k].path == path;
      Some(t[k])
    else None
  }

  predicate SameEndpoint(a: WebhookData, b: WebhookData) {
    a.verb == b.verb && Stripped(a.path) == Stripped(b.path)
  }

  lemma {:induction false} KeepsRow(t: Table, workflowId: Id, items: seq<Item>, init: bool, rollback: bool, d: WebhookData)
    requires forall item :: item in items ==> !Fatal(item, init) && (item.outcome.StoreFails? || !SameEndpoint(item.data, d))
    ensures var (r, result) := AddAll(t, workflowId, items, init, rollback);
            var k := Key(d.verb, Stripped(d.path));
            result == Registered && (k in t <==> k in r) && (k in t ==> r[k] == t[k])
    decreases |items|
  {
    if items != [] {
      assert items[0] in items && forall item :: item in items[1..] ==> item in items;
      KeepsRow(Upsert(t, workflowId, items[0]), workflowId, items[1..], init, rollback, d);
    }
  }

  /** After registration succeeds, also on start-up, each webhook that was stored, and that no later one
      equals in verb and stored path, is what a request with that verb and path finds. */
  lemma {:induction false} RequestFindsWebhook(t: Table, workflowId: Id, items: seq<Item>, init: bool, rollback: bool, i: nat)
    requires WellKeyed(t) && AddAll(t, workflowId, items, init, rollback).1 == Registered
    requires i < |items| && !items[i].outcome.StoreFails?
    requires forall j :: i < j < |items| ==> items[j].outcome.StoreFails? || !SameEndpoint(items[j].data, items[i].data)
    ensures var d := items[i].data;
            var found := FindStatic(AddAll(t, workflowId, items, init, rollback).0, d.verb, Stripped(d.path));
            && found.Some? && found.value.workflowId == workflowId && found.value.node == d.node
            && found.value == RowOf(workflowId, d)
    decreases |items|
  {
    var d, r := items[i].data, AddAll(t, workflowId, items, init, rollback).0;
    UpsertKeepsKeys(t, workflowId, items[0]);
    var t' := Upsert(t, workflowId, items[0]);
    if i > 0 {
      RequestFindsWebhook(t', workflowId, items[1..], init, rollback, i - 1);
    } else {
      SuccessMeansNoneFatal(t, workflowId, items, init, rollback);
      KeepsRow(t', workflowId, items[1..], init, rollback, d);
      KeepsKeys(t, workflowId, items, init, rollback);
      RowIsOf(workflowId, d);
      assert Key(d.verb, Stripped(d.path)) in r;
    }
  }

  lemma {:induction false} SuccessMeansNoneFatal(t: Table, workflowId: Id, items: seq<Item>, init: bool, rollback: bool)
    ensures AddAll(t, workflowId, items, init, rollback).1 == Registered <==> forall item :: item in items ==> !Fatal(item, init)
    decreases |items|
  {
    if items != [] {
      SuccessMeansNoneFatal(Upsert(t, workflowId, items[0]), workflowId, items[1..], init, rollback);
      assert forall item :: item in items <==> item == items[0] || item in items[1..];
    }
  }

  lemma {:induction false} HasLastRow(workflowId: Id, items: seq<Item>, item: Item)
    requires item in items
    ensures LastRow(workflowId, items, KeyOf(item.data)).Some?
  {
    if item != items[0] {
      assert items == [items[0]] + items[1..];
      HasLastRow(workflowId, items[1..], item);
    }
  }

  // ---------- the service ----------

  class WebhookRegistry {
    var table: Table

    constructor ()
      ensures table == map[]
    {
      table := map[];
    }

    /** The outcomes are those of the calls for the webhooks in order. */
    method AddWebhooks(workflowId: Id, items: seq<Item>, init: bool, rollback: bool) returns (result: Result)
      modifies this
      ensures (table, result) == AddAll(old(table), workflowId, items, init, rollback)
      ensures WellKeyed(old(table)) ==> WellKeyed(table)
      ensures result == Registered <==> forall item :: item in items ==> item.outcome == Stored || (init && item.outcome.query)
    {
      SuccessMeansNoneFatal(table, workflowId, items, init, rollback);
      if WellKeyed(table) {
        KeepsKeys(table, workflowId, items, init, rollback);
      }
      for i := 0 to |items|
        invariant AddAll(table, workflowId, items[i..], init, rollback) == AddAll(old(table), workflowId, items, init, rollback)
      {
        assert items[i..][0] == items[i] && items[i..][1..] == items[i + 1..];
        var outcome := items[i].outcome;
        StoreWebhook(workflowId, items[i]);
        if outcome.Stored? || (init && outcome.query) {
          continue;
        }
        if rollback {
          ClearWebhooks(workflowId);
        }
        return if outcome.query then PathTaken else Failed;
      }
      return Registered;
    }

    /** The entity is built and stripped, completed if its path is dynamic, and stored unless
        that fails. */
    method StoreWebhook(workflowId: Id, item: Item)
      modifies this
      ensures table == Upsert(old(table), workflowId, item)
      ensures item.outcome.StoreFails? ==> table == old(table)
      ensures !item.outcome.StoreFails? ==>
                var d := item.data;
                var k := Key(d.verb, Stripped(d.path));
                && table.Keys == old(table).Keys + {k} && (forall other :: other in old(table) && other != k ==> table[other] == old(table)[other])
                && table[k].workflowId == workflowId && table[k].verb == d.verb && table[k].node == d.node && table[k].path == Stripped(d.path)
    {
      var d, path := item.data, item.data.path;
      if path != "" && path[0] == '/' {
        path := path[1..];
      }
      if path != "" && path[|path| - 1] == '/' {
        path := path[..|path| - 1];
      }
      var webhook := Row(workflowId, path, d.verb, d.node, None, None);
      if IsDynamic(d.path) && d.webhookId.Some? && d.webhookId.value != "" {
        webhook := webhook.(webhookId := d.webhookId, pathLength := Some(|Split(path, '/')|));
      }
      if !item.outcome.StoreFails? {
        table := table[Key(d.verb, path) := webhook];
      }
    }

    /** The rows of the workflow are found first and then removed one by one: none of them is left,
        and every other row is as before. */
    method ClearWebhooks(workflowId: Id)
      modifies this
      ensures table == WithoutWorkflow(old(table), workflowId)
      ensures forall k :: k in table <==> k in old(table) && old(table)[k].workflowId != workflowId
      ensures forall k :: k in table ==> table[k] == old(table)[k]
    {
      var todo := set k | k in table && table[k].workflowId == workflowId;
      while todo != {}
        invariant todo <= table.Keys
        invariant forall k :: k in table <==> k in old(table) && (k in todo || old(table)[k].workflowId != workflowId)
        invariant forall k :: k in table ==> table[k] == old(table)[k]
        invariant forall k :: k in todo ==> old(table)[k].workflowId == workflowId
        decreases |todo|
      {
        var k :| k in todo;
        table := table - {k};
        todo := todo - {k};
      }
    }
  }
}
