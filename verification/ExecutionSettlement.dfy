/**
 Who settles what: over every run, the outcome of each promise is the one that the first step to ask
 for a settlement asked for, and the workflow executions cancelled are those that stops reached.
 And what each step does to the entries and to the registry that leads to them.
 */
module ExecutionSettlement {
  import opened Wrappers
  import opened ExecutionProtocol
  import opened ExecutionProperties
  import opened ExecutionShutdown

  /** `id` is registered with the `i`-th entry. */
  predicate LeadsTo(w: World, id: Id, i: nat) {
    id in w.active && w.active[id] == i
  }

  // ---------- what a step asks for ----------

  /** The first pass of shutdown stops the entry. */
  predicate StoppedByPass(w: World, e: Entry, cancelAll: bool) {
    e.response.Some? || (w.regular && cancelAll)
  }

  /** The settlement that a step asks of the post-execution promise of the `i`-th entry. */
  function Asked(w: World, step: Step, i: nat): Option<Outcome>
    requires i < |w.entries|
  {
    var e := w.entries[i];
    match step
    case Finalize(id, run) => if LeadsTo(w, id, i) then Some(Resolved(run)) else None
    case Stop(id) => if LeadsTo(w, id, i) && !e.status.Waiting? then Some(Rejected) else None
    case Shutdown(_, cancelAll) =>
      if LeadsTo(w, e.id, i) && !e.status.Waiting? && StoppedByPass(w, e, cancelAll) then Some(Rejected) else None
    case _ => None
  }

  /** The settlement that a step asks of response promise `p`. */
  ghost function AskedOfResponse(w: World, step: Step, p: nat): Option<Outcome>
    requires Sane(w)
  {
    match step
    case ResolveResponse(id, run) => if HasResponse(w, id, p) then Some(Resolved(run)) else None
    case Stop(id) => if HasResponse(w, id, p) then Some(Rejected) else None
    case Shutdown(_, _) => if exists id :: HasResponse(w, id, p) then Some(Rejected) else None
    case _ => None
  }

  predicate HasResponse(w: World, id: Id, p: nat)
    requires Sane(w)
  {
    id in w.active && Current(w, id).response == Some(p)
  }

  /** The step cancels workflow execution `x`. */
  ghost predicate CancelsAttached(w: World, step: Step, x: nat)
    requires Sane(w)
  {
    match step
    case Stop(id) => StopCancels(w, id, x)
    case Shutdown(_, cancelAll) => exists id :: StopCancels(w, id, x) && StoppedByPass(w, Current(w, id), cancelAll)
    case _ => false
  }

  predicate StopCancels(w: World, id: Id, x: nat)
    requires Sane(w)
  {
    id in w.active && !Current(w, id).status.Waiting? && Current(w, id).attached == Some(x)
  }

  // ---------- a stop ----------

  /** A stop rejects the response promise unless it is settled, and cancels the attached workflow
      execution unless the entry waits; no other is touched. */
  lemma StopReaches(w: World, id: Id)
    requires Sane(w)
    ensures var r := Stopped(w, id);
            && (forall p :: p in r.responses <==> p in w.responses || HasResponse(w, id, p))
            && (forall p :: p in r.responses ==> r.responses[p] == if p in w.responses then w.responses[p] else Rejected)
            && (forall x :: x in r.cancelled <==> x in w.cancelled || StopCancels(w, id, x))
  {
    if id in w.active {
      OneIsSettled(w, Current(w, id).response, Rejected);
    }
    hide SettleResponse, Settle, Sane;
  }

  lemma OneIsSettled(w: World, response: Option<nat>, outcome: Outcome)
    ensures var r := SettleResponse(w, response, outcome);
            && r.cancelled == w.cancelled
            && (forall p :: p in r.responses <==> p in w.responses || response == Some(p))
            && (forall p :: p in r.responses ==> r.responses[p] == if p in w.responses then w.responses[p] else outcome)
  {
  }

  // ---------- one step ----------

  /** The entry after a step that settles nothing. */
  function Changed(w: World, step: Step, i: nat): Entry
    requires i < |w.entries|
  {
    var e := w.entries[i];
    match step
    case SetStatus(id, status) => if LeadsTo(w, id, i) then e.(status := status) else e
    case AttachExecution(id, execution) => if LeadsTo(w, id, i) then e.(attached := Some(execution)) else e
    case AttachResponse(id, promise) => if LeadsTo(w, id, i) then e.(response := Some(promise)) else e
    case Handle(j) => if j == i then e.(handled := true, attached := if e.status.Waiting? then None else e.attached) else e
    case _ => e
  }

  lemma {:induction false} PassOnEntry(w: World, ids: seq<Id>, cancelAll: bool, i: nat)
    requires Sane(w) && i < |w.entries|
    requires forall i, j :: 0 <= i < j < |ids| ==> ids[i] != ids[j]
    requires forall id :: id in ids ==> id in w.active
    ensures var r := PassOverAll(w, ids, cancelAll);
            && |r.entries| == |w.entries|
            && r.entries[i] == if w.entries[i].id in ids && LeadsTo(w, w.entries[i].id, i) then AfterPass(w, w.entries[i], cancelAll)
                               else w.entries[i]
    decreases |ids|
  {
    if ids != [] {
      var first, rest := ids[0], ids[1..];
      var r := PassOver(w, first, cancelAll);
      assert ids == [first] + rest;
      PassOverOthers(w, first, cancelAll);
      PassOverOnEntry(w, first, cancelAll, i);
      SameCancels(w, r, first, cancelAll);
      hide PassOver, AfterPass;
      PassOnEntry(r, rest, cancelAll, i);
    }
  }

  lemma PassOverOnEntry(w: World, id: Id, cancelAll: bool, i: nat)
    requires Sane(w) && id in w.active && i < |w.entries|
    ensures var r := PassOver(w, id, cancelAll);
            && |r.entries| == |w.entries| && r.regular == w.regular
            && r.entries[i] == if LeadsTo(w, id, i) then AfterPass(w, w.entries[i], cancelAll) else w.entries[i]
  {
    StoppedIs(w, id);
    hide Stopped, Settle;
  }

  /** The entry after a step: a pending promise takes the outcome that is asked for. */
  function EntryAfter(w: World, step: Step, i: nat): Entry
    requires i < |w.entries|
  {
    Changed(w, step, i).(outcome := if w.entries[i].outcome.Pending? && Asked(w, step, i).Some? then Asked(w, step, i).value
                                    else w.entries[i].outcome)
  }

  /** What a step makes of an entry: only the step that leads to it changes it, and only in the
      field that the step is about. */
  lemma StepOnEntry(w: World, step: Step, i: nat)
    requires Sane(w) && Possible(w, step) && i < |w.entries|
    ensures i < |Next(w, step).entries| && Next(w, step).entries[i] == EntryAfter(w, step, i)
  {
    hide EntryAfter, Next;
    match step
    case Finalize(_, _) => UpdateStepOnEntry(w, step, i);
    case SetStatus(_, _) => UpdateStepOnEntry(w, step, i);
    case AttachExecution(_, _) => UpdateStepOnEntry(w, step, i);
    case AttachResponse(_, _) => UpdateStepOnEntry(w, step, i);
    case _ => OtherStepOnEntry(w, step, i);
  }

  lemma UpdateStepOnEntry(w: World, step: Step, i: nat)
    requires Sane(w) && Possible(w, step) && i < |w.entries|
    requires step.Finalize? || step.SetStatus? || step.AttachExecution? || step.AttachResponse?
    ensures i < |Next(w, step).entries| && Next(w, step).entries[i] == EntryAfter(w, step, i)
  {
    hide Update;
    match step
    case Finalize(id, run) =>
      if id in w.active { UpdateOnEntry(w, id, Current(w, id).(outcome := Settle(Current(w, id).outcome, Resolved(run))), i); }
    case SetStatus(id, status) =>
      if id in w.active { UpdateOnEntry(w, id, Current(w, id).(status := status), i); }
    case AttachExecution(id, execution) =>
      if id in w.active { UpdateOnEntry(w, id, Current(w, id).(attached := Some(execution)), i); }
    case AttachResponse(id, promise) =>
      if id in w.active { UpdateOnEntry(w, id, Current(w, id).(response := Some(promise)), i); }
  }

  lemma OtherStepOnEntry(w: World, step: Step, i: nat)
    requires Sane(w) && Possible(w, step) && i < |w.entries|
    requires !(step.Finalize? || step.SetStatus? || step.AttachExecution? || step.AttachResponse?)
    ensures i < |Next(w, step).entries| && Next(w, step).entries[i] == EntryAfter(w, step, i)
  {
    hide PassOverAll, Throttled, Handled, Registered, RemovedFromQueue, Stopped, SettleResponse, Plus, Without;
    match step
    case Shutdown(ids, cancelAll) =>
      ShutdownOnEntry(w, ids, cancelAll, i);
    case Stop(id) =>
      StopOnEntry(w, id, i);
    case Handle(j) =>
      HandleOnEntry(w, j, i);
    case Register(k, now) =>
      RegisterOnEntry(w, k, now, i);
    case _ =>
  }

  lemma ShutdownOnEntry(w: World, ids: seq<Id>, cancelAll: bool, i: nat)
    requires Sane(w) && Possible(w, Shutdown(ids, cancelAll)) && i < |w.entries|
    ensures var r := PassOverAll(Disabled(w), ids, cancelAll);
            i < |r.entries| && r.entries[i] == EntryAfter(w, Shutdown(ids, cancelAll), i)
  {
    PassOnEntry(Disabled(w), ids, cancelAll, i);
    AskedByPass(w, ids, cancelAll, i);
    var v := Disabled(w);
    assert v.entries == w.entries && v.active == w.active;
    hide *;
  }

  lemma AskedByPass(w: World, ids: seq<Id>, cancelAll: bool, i: nat)
    requires i < |w.entries| && Possible(w, Shutdown(ids, cancelAll))
    ensures var v, e := Disabled(w), w.entries[i];
            EntryAfter(w, Shutdown(ids, cancelAll), i)
            == if e.id in ids && LeadsTo(v, e.id, i) then AfterPass(v, e, cancelAll) else e
  {
  }

  lemma HandleOnEntry(w: World, j: nat, i: nat)
    requires Sane(w) && Possible(w, Handle(j)) && i < |w.entries|
    ensures i < |Handled(w, j).entries| && Handled(w, j).entries[i] == EntryAfter(w, Handle(j), i)
  {
    hide Released;
  }

  lemma RegisterOnEntry(w: World, k: nat, now: int, i: nat)
    requires Sane(w) && Possible(w, Register(k, now)) && i < |w.entries|
    ensures i < |Registered(w, k, now).entries| && Registered(w, k, now).entries[i] == w.entries[i]
  {
    hide Without;
  }

  lemma UpdateOnEntry(w: World, id: Id, e: Entry, i: nat)
    requires Sane(w) && id in w.active && e.id == id && i < |w.entries|
    ensures |Update(w, id, e).entries| == |w.entries|
    ensures Update(w, id, e).entries[i] == if LeadsTo(w, id, i) then e else w.entries[i]
  {
  }

  lemma StopOnEntry(w: World, id: Id, i: nat)
    requires Sane(w) && i < |w.entries|
    ensures |Stopped(w, id).entries| == |w.entries|
    ensures var e := w.entries[i];
            Stopped(w, id).entries[i]
            == e.(outcome := if e.outcome.Pending? && LeadsTo(w, id, i) && !e.status.Waiting? then Rejected else e.outcome)
  {
    StoppedIs(w, id);
    hide Stopped;
  }

  /** An entry that a step adds is that of the ticket that it takes from `admitted`. */
  lemma StepAddsEntry(w: World, step: Step)
    requires Sane(w) && Possible(w, step)
    ensures |Next(w, step).entries| == |w.entries| + if step.Register? then 1 else 0
    ensures step.Register? ==>
              var t, e := w.control.admitted[step.i], Next(w, step).entries[|w.entries|];
              && e.id == t.id && e.mode == t.mode && e.status == Running && e.outcome == Pending
              && e.attached == None && !e.handled && LeadsTo(Next(w, step), t.id, |w.entries|)
              && (t.id !in w.active ==> e.startedAt == step.now && e.response == None)
              && (t.id in w.active ==> e.startedAt == Current(w, t.id).startedAt && e.response == Current(w, t.id).response)
              && w.control.admitted == Next(w, step).control.admitted[..step.i] + [t] + Next(w, step).control.admitted[step.i..]
  {
    match step
    case Shutdown(ids, cancelAll) =>
      PassIsAside(Disabled(w), ids, cancelAll);
    case Stop(id) =>
      StoppedIs(w, id);
      hide Stopped;
    case _ =>
  }

  /** The step takes `id` out of the registry. */
  predicate Deletes(w: World, step: Step, id: Id)
    requires Sane(w) && Possible(w, step)
  {
    match step
    case Handle(i) => w.entries[i].id == id && !w.entries[i].status.Waiting?
    case Stop(other) => other == id && id in w.active && Current(w, id).status.Waiting?
    case Shutdown(_, cancelAll) =>
      id in w.active && (Current(w, id).status.Waiting?
                         || (Current(w, id).status.New? && !StoppedByPass(w, Current(w, id), cancelAll)))
    case _ => false
  }

  /** A handler deletes the entry of its id unless it waits, a stop that of a waiting one, and the first
      pass those that wait, and the new ones that it does not stop; registration leads the id of its
      ticket to the new entry, and nothing else changes the registry. */
  lemma StepOnRegistry(w: World, step: Step, id: Id)
    requires Sane(w) && Possible(w, step)
    ensures var r := Next(w, step);
            if step.Register? && w.control.admitted[step.i].id == id then LeadsTo(r, id, |w.entries|)
            else
              && (id in r.active <==> id in w.active && !Deletes(w, step, id))
              && (id in r.active ==> r.active[id] == w.active[id])
  {
    hide PassOverAll, Throttled, Released, RemovedFromQueue, SettleResponse, Stopped, Plus, Without, Settle;
    match step
    case Shutdown(ids, cancelAll) =>
      ShutdownOnRegistry(w, ids, cancelAll, id);
    case Stop(other) =>
      StoppedIs(w, other);
    case _ =>
  }

  lemma ShutdownOnRegistry(w: World, ids: seq<Id>, cancelAll: bool, id: Id)
    requires Sane(w) && Possible(w, Shutdown(ids, cancelAll))
    ensures var r := PassOverAll(Disabled(w), ids, cancelAll);
            && (id in r.active <==> id in w.active && !Deletes(w, Shutdown(ids, cancelAll), id))
            && (id in r.active ==> r.active[id] == w.active[id])
  {
    PassShrinks(Disabled(w), ids, cancelAll);
    if id in w.active {
      PassPointwise(Disabled(w), ids, cancelAll, id);
    }
    hide PassOverAll;
  }

  lemma {:induction false} PassOnResponses(w: World, ids: seq<Id>, cancelAll: bool, p: nat)
    requires Sane(w)
    requires forall i, j :: 0 <= i < j < |ids| ==> ids[i] != ids[j]
    requires forall id :: id in ids ==> id in w.active
    ensures var r := PassOverAll(w, ids, cancelAll);
            && (p in r.responses <==> p in w.responses || exists id :: id in ids && HasResponse(w, id, p))
            && (p in r.responses ==> r.responses[p] == if p in w.responses then w.responses[p] else Rejected)
    decreases |ids|
  {
    if ids != [] {
      var first, rest := ids[0], ids[1..];
      var r := PassOver(w, first, cancelAll);
      assert ids == [first] + rest;
      PassOverOthers(w, first, cancelAll);
      PassOverOnResponses(w, first, cancelAll, p);
      hide PassOver;
      PassOnResponses(r, rest, cancelAll, p);
      assert forall id :: id in rest ==> HasResponse(r, id, p) == HasResponse(w, id, p);
      assert forall id :: id in ids <==> id == first || id in rest;
    }
  }

  lemma PassOverOnResponses(w: World, id: Id, cancelAll: bool, p: nat)
    requires Sane(w) && id in w.active
    ensures var r := PassOver(w, id, cancelAll);
            && (p in r.responses <==> p in w.responses || HasResponse(w, id, p))
            && (p in r.responses ==> r.responses[p] == if p in w.responses then w.responses[p] else Rejected)
  {
    StopReaches(w, id);
    hide Stopped;
  }

  lemma {:induction false} PassOnAttached(w: World, ids: seq<Id>, cancelAll: bool, x: nat)
    requires Sane(w)
    requires forall i, j :: 0 <= i < j < |ids| ==> ids[i] != ids[j]
    requires forall id :: id in ids ==> id in w.active
    ensures x in PassOverAll(w, ids, cancelAll).cancelled
       <==> x in w.cancelled || exists id :: id in ids && StopCancels(w, id, x) && StoppedByPass(w, Current(w, id), cancelAll)
    decreases |ids|
  {
    if ids != [] {
      var first, rest := ids[0], ids[1..];
      var r := PassOver(w, first, cancelAll);
      assert ids == [first] + rest;
      PassOverOthers(w, first, cancelAll);
      PassOverOne(w, first, cancelAll);
      PassOverOnAttached(w, first, cancelAll, x);
      hide PassOver, Survives, AfterPass, Cancels;
      PassOnAttached(r, rest, cancelAll, x);
      forall id | id in rest
        ensures StopCancels(r, id, x) == StopCancels(w, id, x) && Current(r, id) == Current(w, id)
      {
      }
      hide StopCancels, Current, Sane;
      assert forall id :: id in ids <==> id == first || id in rest;
    }
  }

  lemma PassOverOnAttached(w: World, id: Id, cancelAll: bool, x: nat)
    requires Sane(w) && id in w.active
    ensures x in PassOver(w, id, cancelAll).cancelled
       <==> x in w.cancelled || (StopCancels(w, id, x) && StoppedByPass(w, Current(w, id), cancelAll))
  {
    StopReaches(w, id);
    hide Stopped;
  }

  /** A response promise takes the outcome that is asked for unless it is settled. */
  lemma StepOnResponse(w: World, step: Step, p: nat)
    requires Sane(w) && Possible(w, step)
    ensures var r := Next(w, step);
            && (p in r.responses <==> p in w.responses || AskedOfResponse(w, step, p).Some?)
            && (p in r.responses ==> r.responses[p] == if p in w.responses then w.responses[p] else AskedOfResponse(w, step, p).value)
  {
    hide PassOverAll, Throttled, Released, RemovedFromQueue, SettleResponse, Stopped, Plus, Without;
    match step
    case Shutdown(ids, cancelAll) =>
      ShutdownOnResponse(w, ids, cancelAll, p);
    case Stop(id) =>
      StopReaches(w, id);
    case ResolveResponse(id, run) =>
      if id in w.active {
        OneIsSettled(w, Current(w, id).response, Resolved(run));
      }
    case _ =>
  }

  lemma ShutdownOnResponse(w: World, ids: seq<Id>, cancelAll: bool, p: nat)
    requires Sane(w) && Possible(w, Shutdown(ids, cancelAll))
    ensures var r := PassOverAll(Disabled(w), ids, cancelAll);
            && (p in r.responses <==> p in w.responses || exists id :: HasResponse(w, id, p))
            && (p in r.responses ==> r.responses[p] == if p in w.responses then w.responses[p] else Rejected)
  {
    var v := Disabled(w);
    PassOnResponses(v, ids, cancelAll, p);
    assert v.responses == w.responses && forall id :: HasResponse(v, id, p) == HasResponse(w, id, p);
    assert forall id :: HasResponse(w, id, p) ==> id in ids;
    hide *;
  }

  lemma StepOnAttached(w: World, step: Step, x: nat)
    requires Sane(w) && Possible(w, step)
    ensures x in Next(w, step).cancelled <==> x in w.cancelled || CancelsAttached(w, step, x)
  {
    hide PassOverAll, Throttled, Released, RemovedFromQueue, Stopped, Plus, Without;
    match step
    case Shutdown(ids, cancelAll) =>
      PassOnAttached(Disabled(w), ids, cancelAll, x);
      assert forall id :: StopCancels(Disabled(w), id, x) == StopCancels(w, id, x);
    case Stop(id) =>
      StopReaches(w, id);
    case _ =>
  }

  // ---------- every run ----------

  /** What the first step of the run that asks for a settlement of the `i`-th entry asks for. */
  function FirstAsked(w: World, steps: seq<Step>, i: nat): Option<Outcome>
    requires Sane(w)
    decreases |steps|
  {
    if steps == [] || !Possible(w, steps[0]) then None
    else if i < |w.entries| && Asked(w, steps[0], i).Some? then Asked(w, steps[0], i)
    else FirstAsked(Next(w, steps[0]), steps[1..], i)
  }

  function OutcomeAt(w: World, i: nat): Outcome {
    if i < |w.entries| then w.entries[i].outcome else Pending
  }

  /** Over every run the outcome of each promise, registered before the run or in it, is what the
      first step to ask for a settlement asked for, and it is pending if none did. */
  lemma {:induction false} OutcomeIsFirstAsked(w: World, steps: seq<Step>, i: nat)
    requires Sane(w) && Run(w, steps).Some?
    ensures OutcomeAt(Run(w, steps).value, i)
         == if OutcomeAt(w, i).Pending? && FirstAsked(w, steps, i).Some? then FirstAsked(w, steps, i).value else OutcomeAt(w, i)
    decreases |steps|
  {
    if steps != [] {
      StepAddsEntry(w, steps[0]);
      if i < |w.entries| {
        StepOnEntry(w, steps[0], i);
        AskedIsSettled(w, steps[0], i);
      }
      hide Next, Asked, Changed;
      OutcomeIsFirstAsked(Next(w, steps[0]), steps[1..], i);
    }
  }

  lemma AskedIsSettled(w: World, step: Step, i: nat)
    requires i < |w.entries|
    ensures Asked(w, step, i).Some? ==> !Asked(w, step, i).value.Pending?
  {
  }

  ghost function FirstAskedOfResponse(w: World, steps: seq<Step>, p: nat): Option<Outcome>
    requires Sane(w)
    decreases |steps|
  {
    if steps == [] || !Possible(w, steps[0]) then None
    else if AskedOfResponse(w, steps[0], p).Some? then AskedOfResponse(w, steps[0], p)
    else FirstAskedOfResponse(Next(w, steps[0]), steps[1..], p)
  }

  function ResponseAt(w: World, p: nat): Option<Outcome> {
    if p in w.responses then Some(w.responses[p]) else None
  }

  /** The same of each response promise. */
  lemma {:induction false} ResponseIsFirstAsked(w: World, steps: seq<Step>, p: nat)
    requires Sane(w) && Run(w, steps).Some?
    ensures ResponseAt(Run(w, steps).value, p)
         == if p in w.responses then ResponseAt(w, p) else FirstAskedOfResponse(w, steps, p)
    decreases |steps|
  {
    if steps != [] {
      StepOnResponse(w, steps[0], p);
      hide Next, AskedOfResponse;
      ResponseIsFirstAsked(Next(w, steps[0]), steps[1..], p);
    }
  }

  ghost predicate EverCancelled(w: World, steps: seq<Step>, x: nat)
    requires Sane(w)
    decreases |steps|
  {
    && steps != [] && Possible(w, steps[0])
    && (CancelsAttached(w, steps[0], x) || EverCancelled(Next(w, steps[0]), steps[1..], x))
  }

  /** A workflow execution is cancelled in a run exactly if some stop, or the first pass of shutdown,
      reached it where it was attached to an entry that did not wait. */
  lemma {:induction false} CancelledIffStopped(w: World, steps: seq<Step>, x: nat)
    requires Sane(w) && Run(w, steps).Some?
    ensures x in Run(w, steps).value.cancelled <==> x in w.cancelled || EverCancelled(w, steps, x)
    decreases |steps|
  {
    if steps != [] {
      StepOnAttached(w, steps[0], x);
      hide Next, CancelsAttached;
      CancelledIffStopped(Next(w, steps[0]), steps[1..], x);
    }
  }

  /** Finalizing a registered execution whose promise is pending resolves it with the run data. */
  lemma FinalizeResolves(w: World, id: Id, run: Option<int>)
    requires Sane(w) && id in w.active
    ensures var r := Next(w, Finalize(id, run));
            && id in r.active && r.active[id] == w.active[id]
            && (Current(w, id).outcome.Pending? ==> Current(r, id).outcome == Resolved(run))
            && (!Current(w, id).outcome.Pending? ==> r == w)
  {
    StepOnEntry(w, Finalize(id, run), w.active[id]);
  }

  /** Stopping one that does not wait rejects it. */
  lemma StopRejects(w: World, id: Id)
    requires Sane(w) && id in w.active && !Current(w, id).status.Waiting?
    ensures var r := Next(w, Stop(id));
            && id in r.active && r.active[id] == w.active[id]
            && Current(r, id).outcome == if Current(w, id).outcome.Pending? then Rejected else Current(w, id).outcome
  {
    StoppedIs(w, id);
  }
}
