/**
 Which entry belongs to which promise, and which promises can never settle.
 */
module ExecutionOwnership {
  import opened Wrappers
  import opened ExecutionProtocol
  import opened ExecutionProperties

  // ---------- ownership ----------

  /** Every promise whose handler has not run is the one stored under its id. */
  ghost predicate Owned(w: World)
    requires Sane(w)
  {
    forall i :: 0 <= i < |w.entries| && !w.entries[i].handled ==> Owns(w, i)
  }

  ghost predicate Owns(w: World, i: nat)
    requires i < |w.entries|
  {
    w.entries[i].id in w.active && w.active[w.entries[i].id] == i
  }

  /** An id is added again only after its earlier handlers ran, and a waiting execution is stopped
      only after its handler. */
  ghost predicate Disciplined(w: World, step: Step)
    requires Sane(w) && Possible(w, step)
  {
    match step
    case Register(i, _) =>
      forall j :: 0 <= j < |w.entries| && w.entries[j].id == w.control.admitted[i].id ==> w.entries[j].handled
    case Stop(id) => id in w.active && Current(w, id).status.Waiting? ==> Current(w, id).handled
    case Shutdown(_, _) => false
    case _ => true
  }

  ghost predicate DisciplinedRun(w: World, steps: seq<Step>)
    requires Sane(w)
    decreases |steps|
  {
    steps != [] && Possible(w, steps[0]) ==> Disciplined(w, steps[0]) && DisciplinedRun(Next(w, steps[0]), steps[1..])
  }

  lemma UpdateKeepsOwned(w: World, id: Id, e: Entry)
    requires Sane(w) && Owned(w) && id in w.active
    requires e.id == id && e.handled == Current(w, id).handled
    ensures Owned(Update(w, id, e))
  {
  }

  lemma StoppedKeepsOwned(w: World, id: Id)
    requires Sane(w) && Owned(w) && Disciplined(w, Stop(id))
    ensures Owned(Stopped(w, id))
  {
    StoppedIs(w, id);
    hide Stopped, Settle;
  }

  lemma RegisterKeepsOwned(w: World, i: nat, now: int)
    requires Sane(w) && Owned(w) && Possible(w, Register(i, now)) && Disciplined(w, Register(i, now))
    ensures Owned(Registered(w, i, now))
  {
    var r := Registered(w, i, now);
    forall j | 0 <= j < |r.entries| && !r.entries[j].handled
      ensures Owns(r, j)
    {
      if j < |w.entries| { assert Owns(w, j); }
    }
  }

  lemma HandleKeepsOwned(w: World, i: nat)
    requires Sane(w) && Owned(w) && Possible(w, Handle(i))
    ensures Owned(Handled(w, i))
  {
    var r := Handled(w, i);
    assert Owns(w, i);
    forall j | 0 <= j < |r.entries| && !r.entries[j].handled
      ensures Owns(r, j)
    {
      assert j != i && Owns(w, j);
    }
  }

  lemma StepKeepsOwned(w: World, step: Step)
    requires Sane(w) && Owned(w) && Possible(w, step) && Disciplined(w, step)
    ensures Owned(Next(w, step))
  {
    match step
    case Register(i, now) =>
      RegisterKeepsOwned(w, i, now);
    case Handle(i) =>
      HandleKeepsOwned(w, i);
    case Stop(id) =>
      StoppedKeepsOwned(w, id);
    case Finalize(id, run) =>
      if id in w.active {
        UpdateKeepsOwned(w, id, Current(w, id).(outcome := Settle(Current(w, id).outcome, Resolved(run))));
      }
    case SetStatus(id, status) =>
      if id in w.active {
        UpdateKeepsOwned(w, id, Current(w, id).(status := status));
      }
    case AttachExecution(id, execution) =>
      if id in w.active {
        UpdateKeepsOwned(w, id, Current(w, id).(attached := Some(execution)));
      }
    case AttachResponse(id, promise) =>
      if id in w.active {
        UpdateKeepsOwned(w, id, Current(w, id).(response := Some(promise)));
      }
    case ResolveResponse(id, run) =>
    case _ =>
  }

  lemma {:induction false} OwnedOnEveryRun(w: World, steps: seq<Step>)
    requires Sane(w) && (Initial(w) || Owned(w)) && DisciplinedRun(w, steps)
    ensures Run(w, steps).Some? ==> Owned(Run(w, steps).value)
    decreases |steps|
  {
    assert Owned(w);
    if steps != [] && Possible(w, steps[0]) {
      StepKeepsOwned(w, steps[0]);
      OwnedOnEveryRun(Next(w, steps[0]), steps[1..]);
    }
  }

  /** In every disciplined run, a settlement handler never deletes the entry of another add. */
  lemma HandlerDeletesItsOwnEntry(w: World, steps: seq<Step>, i: nat)
    requires Sane(w) && Initial(w) && DisciplinedRun(w, steps) && Run(w, steps).Some?
    requires Possible(Run(w, steps).value, Handle(i))
    ensures var r := Run(w, steps).value;
            var id := r.entries[i].id;
            && id in r.active && r.active[id] == i
            && forall other :: other in r.active && other != id ==>
                 other in Next(r, Handle(i)).active && Next(r, Handle(i)).active[other] == r.active[other]
  {
    OwnedOnEveryRun(w, steps);
    assert Owns(Run(w, steps).value, i);
  }

  // ---------- entries whose handler has run ----------

  /** An entry outlives its handler only while waiting. */
  ghost predicate Parked(w: World)
    requires Sane(w)
  {
    forall id :: id in w.active && Current(w, id).handled ==> Current(w, id).status.Waiting?
  }

  /** A status other than waiting is set only before the handler. */
  ghost predicate Timely(w: World, step: Step)
    requires Sane(w)
  {
    step.SetStatus? && step.id in w.active && Current(w, step.id).handled ==> step.status.Waiting?
  }

  ghost predicate TimelyRun(w: World, steps: seq<Step>)
    requires Sane(w)
    decreases |steps|
  {
    steps != [] && Possible(w, steps[0]) ==> Timely(w, steps[0]) && TimelyRun(Next(w, steps[0]), steps[1..])
  }

  lemma HandleKeepsParked(w: World, i: nat)
    requires Sane(w) && Owned(w) && Parked(w) && Possible(w, Handle(i))
    ensures Parked(Handled(w, i))
  {
    hide Released;
    assert Owns(w, i);
  }

  lemma StopKeepsParked(w: World, id: Id)
    requires Sane(w) && Parked(w)
    ensures Parked(Stopped(w, id))
  {
    StoppedIs(w, id);
    hide Stopped, Settle;
  }

  lemma RegisterKeepsParked(w: World, i: nat, now: int)
    requires Sane(w) && Parked(w) && i < |w.control.admitted|
    ensures Parked(Registered(w, i, now))
  {
  }

  lemma StepKeepsParked(w: World, step: Step)
    requires Sane(w) && Owned(w) && Parked(w) && Possible(w, step) && Timely(w, step) && !step.Shutdown?
    ensures Parked(Next(w, step))
  {
    hide Throttled, Released, RemovedFromQueue, Stopped, Handled, Registered, Settle;
    match step
    case Register(i, now) =>
      RegisterKeepsParked(w, i, now);
    case Handle(i) =>
      HandleKeepsParked(w, i);
    case Stop(id) =>
      StopKeepsParked(w, id);
    case _ =>
  }

  /** If statuses are set in time, then in every disciplined run an entry outlives
      its handler only while waiting. */
  lemma {:induction false} ParkedOnEveryRun(w: World, steps: seq<Step>)
    requires Sane(w) && (Initial(w) || (Owned(w) && Parked(w))) && DisciplinedRun(w, steps) && TimelyRun(w, steps)
    ensures Run(w, steps).Some? ==> Owned(Run(w, steps).value) && Parked(Run(w, steps).value)
    decreases |steps|
  {
    assert Owned(w) && Parked(w);
    if steps != [] && Possible(w, steps[0]) {
      StepKeepsOwned(w, steps[0]);
      StepKeepsParked(w, steps[0]);
      ParkedOnEveryRun(Next(w, steps[0]), steps[1..]);
    }
  }

  // ---------- orphans ----------

  /** A pending promise that no id leads to. */
  ghost predicate Orphan(w: World, i: nat) {
    i < |w.entries| && w.entries[i].outcome.Pending? && !w.entries[i].handled && !Owns(w, i)
  }

  lemma {:induction false} PassKeepsOrphan(w: World, ids: seq<Id>, cancelAll: bool, i: nat)
    requires Sane(w) && Orphan(w, i)
    requires forall i, j :: 0 <= i < j < |ids| ==> ids[i] != ids[j]
    requires forall id :: id in ids ==> id in w.active
    ensures Orphan(PassOverAll(w, ids, cancelAll), i)
    decreases |ids|
  {
    if ids != [] {
      hide PassOver, Orphan;
      PassOverOthers(w, ids[0], cancelAll);
      PassOverKeepsOrphan(w, ids[0], cancelAll, i);
      PassKeepsOrphan(PassOver(w, ids[0], cancelAll), ids[1..], cancelAll, i);
    }
  }

  lemma PassOverKeepsOrphan(w: World, id: Id, cancelAll: bool, i: nat)
    requires Sane(w) && id in w.active && Orphan(w, i)
    ensures Orphan(PassOver(w, id, cancelAll), i)
  {
    PassOverKeepsIndices(w, id, cancelAll);
    StoppedIs(w, id);
    hide Stopped, Settle;
  }

  lemma StepKeepsOrphan(w: World, step: Step, i: nat)
    requires Sane(w) && Possible(w, step) && Orphan(w, i)
    ensures Orphan(Next(w, step), i)
  {
    hide Throttled, Released, RemovedFromQueue, PassOverAll, Stopped, Registered, Handled;
    match step
    case Shutdown(ids, cancelAll) =>
      PassKeepsOrphan(Disabled(w), ids, cancelAll, i);
    case Stop(id) =>
      StoppedKeepsOrphan(w, id, i);
    case Register(j, now) =>
      RegisteredKeepsOrphan(w, j, now, i);
    case Handle(j) =>
      HandledKeepsOrphan(w, j, i);
    case _ =>
  }

  lemma StoppedKeepsOrphan(w: World, id: Id, i: nat)
    requires Sane(w) && Orphan(w, i)
    ensures Orphan(Stopped(w, id), i)
  {
    StoppedIs(w, id);
    hide Stopped, Settle;
  }

  lemma RegisteredKeepsOrphan(w: World, j: nat, now: int, i: nat)
    requires Sane(w) && j < |w.control.admitted| && Orphan(w, i)
    ensures Orphan(Registered(w, j, now), i)
  {
  }

  lemma HandledKeepsOrphan(w: World, j: nat, i: nat)
    requires Sane(w) && Possible(w, Handle(j)) && Orphan(w, i)
    ensures Orphan(Handled(w, j), i)
  {
    hide Released;
  }

  /** An orphan is never settled and its handler never runs, in any run: its slot is never released. */
  lemma {:induction false} OrphanForever(w: World, steps: seq<Step>, i: nat)
    requires Sane(w) && Orphan(w, i)
    ensures Run(w, steps).Some? ==> Orphan(Run(w, steps).value, i)
    decreases |steps|
  {
    if steps != [] && Possible(w, steps[0]) {
      StepKeepsOrphan(w, steps[0], i);
      OrphanForever(Next(w, steps[0]), steps[1..], i);
    }
  }

  ghost predicate ReleasedBy(w: World, steps: seq<Step>, i: nat)
    requires Sane(w)
  {
    Run(w, steps).Some? && i < |Run(w, steps).value.entries| && Run(w, steps).value.entries[i].handled
  }

  /** Stopping an execution whose promise is pending lets some run release its slot exactly when
      the execution is not waiting. */
  lemma StopReleasesUnlessWaiting(w: World, id: Id)
    requires Sane(w) && id in w.active
    requires Current(w, id).outcome.Pending? && !Current(w, id).handled
    ensures (exists steps :: ReleasedBy(Stopped(w, id), steps, w.active[id])) <==> !Current(w, id).status.Waiting?
  {
    var i := w.active[id];
    var r := Stopped(w, id);
    if Current(w, id).status.Waiting? {
      assert Orphan(r, i);
      forall steps
        ensures !ReleasedBy(r, steps, i)
      {
        OrphanForever(r, steps, i);
      }
    } else {
      var steps := [Handle(i)];
      assert steps[1..] == [];
      assert Run(r, steps) == Some(Handled(r, i));
      assert ReleasedBy(r, steps, i);
    }
  }

  /** Adding an id again before the handler of its settled promise ran lets that handler delete
      the new entry, whose own promise then never settles, exactly if the old entry is not waiting. */
  lemma EarlyReAddIsOrphaned(w: World, k: nat, now: int, i: nat)
    requires Sane(w) && Possible(w, Register(k, now)) && Possible(w, Handle(i))
    requires w.control.admitted[k].id == w.entries[i].id
    ensures Run(w, [Register(k, now), Handle(i)]).Some?
    ensures Orphan(Run(w, [Register(k, now), Handle(i)]).value, |w.entries|) <==> !w.entries[i].status.Waiting?
  {
    RunTwo(w, Register(k, now), Handle(i));
    hide Released;
  }

  /** Adding an id again while its earlier promise is pending strands that promise at once. */
  lemma PendingReAddIsOrphaned(w: World, k: nat, now: int, j: nat)
    requires Sane(w) && Possible(w, Register(k, now)) && j < |w.entries|
    requires w.control.admitted[k].id == w.entries[j].id
    requires w.entries[j].outcome.Pending? && !w.entries[j].handled
    ensures Orphan(Next(w, Register(k, now)), j)
  {
  }

  lemma RegisterNeedsDiscipline(w: World, i: nat, now: int)
    requires Sane(w) && Owned(w) && Possible(w, Register(i, now))
    ensures Owned(Registered(w, i, now)) <==> Disciplined(w, Register(i, now))
  {
    if Disciplined(w, Register(i, now)) {
      RegisterKeepsOwned(w, i, now);
    } else {
      var j :| 0 <= j < |w.entries| && w.entries[j].id == w.control.admitted[i].id && !w.entries[j].handled;
      assert !Owns(Registered(w, i, now), j);
    }
  }

  lemma StopNeedsDiscipline(w: World, id: Id)
    requires Sane(w) && Owned(w)
    ensures Owned(Stopped(w, id)) <==> Disciplined(w, Stop(id))
  {
    if Disciplined(w, Stop(id)) {
      StoppedKeepsOwned(w, id);
    } else {
      assert !Owns(Stopped(w, id), w.active[id]);
    }
  }

  /** The discipline is exactly what each step needs to keep promises owned. */
  lemma OwnedIffDisciplined(w: World, step: Step)
    requires Sane(w) && Owned(w) && Possible(w, step) && !step.Shutdown?
    ensures Owned(Next(w, step)) <==> Disciplined(w, step)
  {
    if step.Register? {
      RegisterNeedsDiscipline(w, step.i, step.now);
    } else if step.Stop? {
      StopNeedsDiscipline(w, step.id);
    } else {
      StepKeepsOwned(w, step);
    }
  }

  /** So is the timeliness of status changes for entries whose handler has run. */
  lemma ParkedIffTimely(w: World, step: Step)
    requires Sane(w) && Owned(w) && Parked(w) && Possible(w, step) && !step.Shutdown?
    ensures Parked(Next(w, step)) <==> Timely(w, step)
  {
    if Timely(w, step) {
      StepKeepsParked(w, step);
    } else {
      assert Current(Next(w, step), step.id).handled && !Current(Next(w, step), step.id).status.Waiting?;
    }
  }

  // ---------- runs that lead there ----------

  lemma RunTwo(w: World, a: Step, b: Step)
    requires Sane(w) && Possible(w, a) && Possible(Next(w, a), b)
    ensures Run(w, [a, b]) == Some(Next(Next(w, a), b))
  {
    hide Next, Possible;
    var one, two := Next(w, a), Next(Next(w, a), b);
    assert [a, b][1..] == [b] && [b][1..] == [];
    assert Run(two, []) == Some(two);
    assert Run(one, [b]) == Some(two);
  }

  lemma {:induction false} RunConcat(w: World, a: seq<Step>, b: seq<Step>)
    requires Sane(w)
    ensures Run(w, a + b) == if Run(w, a).Some? then Run(Run(w, a).value, b) else None
    decreases |a|
  {
    hide Next, Possible;
    if a == [] {
      assert a + b == b;
    } else {
      assert (a + b)[0] == a[0] && (a + b)[1..] == a[1..] + b;
      if Possible(w, a[0]) {
        RunConcat(Next(w, a[0]), a[1..], b);
      }
    }
  }

  /** The steps that add one execution, and the entry they leave. */
  function AddOne(t: Ticket, now: int): seq<Step> {
    [Throttle(t), Register(0, now)]
  }

  function Fresh(t: Ticket, now: int): Entry {
    Entry(t.id, t.mode, now, Running, Pending, None, None, false)
  }

  lemma OneIsAdded(w: World, t: Ticket, now: int) returns (v: World)
    requires Initial(w) && !Queued(w.control, t.mode)
    ensures Sane(w) && Sane(v) && Run(w, AddOne(t, now)) == Some(v)
    ensures v.active == map[t.id := 0] && v.entries == [Fresh(t, now)] && v.regular == w.regular
  {
    var a := Next(w, Throttle(t));
    assert a.control.admitted == [t] && a.active == map[] && a.entries == [];
    hide Throttled;
    v := Registered(a, 0, now);
    assert v.active == map[t.id := 0] && v.entries == [Fresh(t, now)];
    RunTwo(w, Throttle(t), Register(0, now));
  }

  /** An execution that starts to wait and is stopped before it is finalized loses its slot. */
  lemma WaitingStopIsReached(w: World, t: Ticket, now: int)
    requires Sane(w) && Initial(w) && !Queued(w.control, t.mode)
    ensures var r := Run(w, AddOne(t, now) + [SetStatus(t.id, Waiting), Stop(t.id)]);
            r.Some? && Orphan(r.value, 0)
  {
    var v := OneIsAdded(w, t, now);
    var u := Next(v, SetStatus(t.id, Waiting));
    assert u.entries == [Fresh(t, now).(status := Waiting)] && u.active == v.active;
    RunTwo(v, SetStatus(t.id, Waiting), Stop(t.id));
    RunConcat(w, AddOne(t, now), [SetStatus(t.id, Waiting), Stop(t.id)]);
  }

  /** An execution that waits, was finalized and handled, and is then marked running is left
      registered and handled. */
  lemma LateStatusIsReached(w: World, t: Ticket, now: int) returns (r: World)
    requires Sane(w) && Initial(w) && !Queued(w.control, t.mode)
    ensures Run(w, AddOne(t, now) + ([SetStatus(t.id, Waiting), Finalize(t.id, None)] + [Handle(0), SetStatus(t.id, Running)])) == Some(r)
    ensures Sane(r) && r.active == map[t.id := 0] && Owned(r) && !Parked(r)
    ensures r.entries == [Fresh(t, now).(status := Running, outcome := Resolved(None), handled := true)]
  {
    var v := OneIsAdded(w, t, now);
    var waiting := Next(v, SetStatus(t.id, Waiting));
    assert waiting.entries == [Fresh(t, now).(status := Waiting)] && waiting.active == v.active;
    var done := Next(waiting, Finalize(t.id, None));
    assert done.entries == [Fresh(t, now).(status := Waiting, outcome := Resolved(None))] && done.active == v.active;
    hide Released;
    var handled := Next(done, Handle(0));
    assert handled.entries == [Fresh(t, now).(status := Waiting, outcome := Resolved(None), handled := true)];
    assert handled.active == v.active;
    r := Next(handled, SetStatus(t.id, Running));
    RunTwo(v, SetStatus(t.id, Waiting), Finalize(t.id, None));
    RunTwo(done, Handle(0), SetStatus(t.id, Running));
    var middle, last := [SetStatus(t.id, Waiting), Finalize(t.id, None)], [Handle(0), SetStatus(t.id, Running)];
    RunConcat(v, middle, last);
    RunConcat(w, AddOne(t, now), middle + last);
  }
}
