/**
 How shutdown empties the registry: what its first pass leaves, and what its wait loop waits for.
 */
module ExecutionShutdown {
  import opened Wrappers
  import opened ExecutionProtocol
  import opened ExecutionProperties
  import opened ExecutionOwnership

  // ---------- shutdown: the first pass ----------

  predicate Survives(w: World, e: Entry, cancelAll: bool) {
    if Cancels(w, e, cancelAll) then !e.status.Waiting? else !e.status.Waiting? && !e.status.New?
  }

  function AfterPass(w: World, e: Entry, cancelAll: bool): Entry {
    if Cancels(w, e, cancelAll) && !e.status.Waiting? then e.(outcome := Settle(e.outcome, Rejected)) else e
  }

  lemma PassOverOne(w: World, id: Id, cancelAll: bool)
    requires Sane(w) && id in w.active
    ensures var r := PassOver(w, id, cancelAll);
            && (id in r.active <==> Survives(w, Current(w, id), cancelAll))
            && (id in r.active ==> Current(r, id) == AfterPass(w, Current(w, id), cancelAll))
            && r.regular == w.regular
            && r.active.Keys <= w.active.Keys
  {
    StoppedIs(w, id);
    hide Stopped, Settle;
  }

  /** What visiting `ids` makes of the entry of `id`: the state `r` comes after `w`. */
  ghost predicate Passed(w: World, r: World, ids: seq<Id>, cancelAll: bool, id: Id)
    requires Sane(w) && Sane(r) && id in w.active
  {
    && r.active.Keys <= w.active.Keys && r.regular == w.regular
    && (id in r.active <==> id !in ids || Survives(w, Current(w, id), cancelAll))
    && (id in r.active ==>
          && r.active[id] == w.active[id]
          && Current(r, id) == if id in ids then AfterPass(w, Current(w, id), cancelAll) else Current(w, id))
  }

  lemma PassedOne(w: World, first: Id, rest: seq<Id>, cancelAll: bool, id: Id, last: World)
    requires Sane(w) && Sane(last) && first in w.active && id in w.active && first !in rest
    requires var r := PassOver(w, first, cancelAll);
             && Sane(r) && last.regular == r.regular && last.active.Keys <= r.active.Keys
             && (id in r.active ==> Passed(r, last, rest, cancelAll, id))
    ensures Passed(w, last, [first] + rest, cancelAll, id)
  {
    PassOverOthers(w, first, cancelAll);
    PassOverOne(w, first, cancelAll);
    PassOverKeepsIndices(w, first, cancelAll);
    hide PassOver, Cancels, Survives, AfterPass, Sane;
    assert id in [first] + rest <==> id == first || id in rest;
    SameCancels(w, PassOver(w, first, cancelAll), id, cancelAll);
  }

  lemma SameCancels(w: World, r: World, id: Id, cancelAll: bool)
    requires r.regular == w.regular
    ensures forall e :: Survives(r, e, cancelAll) == Survives(w, e, cancelAll) && AfterPass(r, e, cancelAll) == AfterPass(w, e, cancelAll)
  {
  }

  /** What the loop does to each id, in whatever order it visits them. */
  lemma {:induction false} PassPointwise(w: World, ids: seq<Id>, cancelAll: bool, id: Id)
    requires Sane(w) && id in w.active
    requires forall i, j :: 0 <= i < j < |ids| ==> ids[i] != ids[j]
    requires forall id :: id in ids ==> id in w.active
    ensures Passed(w, PassOverAll(w, ids, cancelAll), ids, cancelAll, id)
    decreases |ids|
  {
    if ids != [] {
      var first, rest := ids[0], ids[1..];
      var r := PassOver(w, first, cancelAll);
      assert ids == [first] + rest;
      hide PassOver, Passed;
      PassOverOthers(w, first, cancelAll);
      PassShrinks(r, rest, cancelAll);
      if id in r.active {
        PassPointwise(r, rest, cancelAll, id);
      }
      PassedOne(w, first, rest, cancelAll, id, PassOverAll(w, ids, cancelAll));
    }
  }

  lemma {:induction false} PassShrinks(w: World, ids: seq<Id>, cancelAll: bool)
    requires Sane(w)
    requires forall i, j :: 0 <= i < j < |ids| ==> ids[i] != ids[j]
    requires forall id :: id in ids ==> id in w.active
    ensures var r := PassOverAll(w, ids, cancelAll); r.active.Keys <= w.active.Keys && r.regular == w.regular
    decreases |ids|
  {
    if ids != [] {
      PassOverOthers(w, ids[0], cancelAll);
      PassOverOne(w, ids[0], cancelAll);
      PassShrinks(PassOver(w, ids[0], cancelAll), ids[1..], cancelAll);
    }
  }

  /** The ids that the first pass cancels, in the order it visits them. */
  function ToCancel(w: World, ids: seq<Id>, cancelAll: bool): (r: seq<Id>)
    requires Sane(w)
    requires forall id :: id in ids ==> id in w.active
  {
    if ids == [] then [] else
      (if Cancels(w, Current(w, ids[0]), cancelAll) then [ids[0]] else []) + ToCancel(w, ids[1..], cancelAll)
  }

  /** `toCancel` lists exactly, and once each, the ids with a response promise, or all of them. */
  lemma {:induction false} ToCancelIsExact(w: World, ids: seq<Id>, cancelAll: bool)
    requires Sane(w) && Lists(ids, w.active)
    ensures var c := ToCancel(w, ids, cancelAll);
            && (forall id :: id in c <==> id in w.active && Cancels(w, Current(w, id), cancelAll))
            && (forall i, j :: 0 <= i < j < |c| ==> c[i] != c[j])
  {
    ToCancelOf(w, ids, cancelAll);
  }

  lemma {:induction false} ToCancelOf(w: World, ids: seq<Id>, cancelAll: bool)
    requires Sane(w)
    requires forall i, j :: 0 <= i < j < |ids| ==> ids[i] != ids[j]
    requires forall id :: id in ids ==> id in w.active
    ensures var c := ToCancel(w, ids, cancelAll);
            && (forall id :: id in c <==> id in ids && Cancels(w, Current(w, id), cancelAll))
            && (forall i, j :: 0 <= i < j < |c| ==> c[i] != c[j])
    decreases |ids|
  {
    if ids != [] {
      ToCancelOf(w, ids[1..], cancelAll);
      assert ids == [ids[0]] + ids[1..];
      assert ids[0] !in ids[1..];
    }
  }

  /** After the first pass every surviving entry is settled already, or neither waiting nor new. */
  lemma SurvivorsAreDone(w: World, ids: seq<Id>, cancelAll: bool, id: Id)
    requires Sane(w) && Possible(w, Shutdown(ids, cancelAll))
    requires id in Next(w, Shutdown(ids, cancelAll)).active
    ensures var e := Current(Next(w, Shutdown(ids, cancelAll)), id);
            && id in w.active
            && !e.status.Waiting?
            && (e.status.New? ==> !e.outcome.Pending?)
            && (Cancels(w, Current(w, id), cancelAll) ==> e.outcome == Settle(Current(w, id).outcome, Rejected))
    ensures !Next(w, Shutdown(ids, cancelAll)).control.enabled
  {
    PassIsAside(Disabled(w), ids, cancelAll);
    PassShrinks(Disabled(w), ids, cancelAll);
    PassPointwise(Disabled(w), ids, cancelAll, id);
  }

  // ---------- shutdown: the wait loop ----------

  /** Every registered entry has a handler still to run, which will delete it. */
  ghost predicate Draining(w: World)
    requires Sane(w)
  {
    forall id :: id in w.active ==> !Current(w, id).handled && !Current(w, id).status.Waiting?
  }

  /** No execution is registered and none starts to wait. */
  predicate Winding(step: Step) {
    !step.Register? && !step.Shutdown? && !(step.SetStatus? && step.status.Waiting?)
  }

  /** The first pass leaves only entries whose handler is still to run exactly if it removes each
      entry whose handler has run. */
  lemma ShutdownDrainsIff(w: World, ids: seq<Id>, cancelAll: bool)
    requires Sane(w) && Possible(w, Shutdown(ids, cancelAll))
    ensures Draining(Next(w, Shutdown(ids, cancelAll)))
       <==> forall id :: id in w.active && Current(w, id).handled ==> !Survives(w, Current(w, id), cancelAll)
  {
    var r := Next(w, Shutdown(ids, cancelAll));
    PassShrinks(Disabled(w), ids, cancelAll);
    forall id | id in w.active
      ensures id in r.active <==> Survives(w, Current(w, id), cancelAll)
      ensures id in r.active ==> Current(r, id).handled == Current(w, id).handled && !Current(r, id).status.Waiting?
    {
      SurvivesShutdown(w, ids, cancelAll, id);
    }
    hide Next, Survives, Sane;
  }

  lemma SurvivesShutdown(w: World, ids: seq<Id>, cancelAll: bool, id: Id)
    requires Sane(w) && Possible(w, Shutdown(ids, cancelAll)) && id in w.active
    ensures var r := Next(w, Shutdown(ids, cancelAll));
            && (id in r.active <==> Survives(w, Current(w, id), cancelAll))
            && (id in r.active ==> Current(r, id).handled == Current(w, id).handled && !Current(r, id).status.Waiting?)
  {
    PassPointwise(Disabled(w), ids, cancelAll, id);
    hide PassOverAll;
  }

  lemma ShutdownDrains(w: World, ids: seq<Id>, cancelAll: bool)
    requires Sane(w) && Parked(w) && Possible(w, Shutdown(ids, cancelAll))
    ensures Draining(Next(w, Shutdown(ids, cancelAll)))
  {
    ShutdownDrainsIff(w, ids, cancelAll);
  }

  /** A registered entry that is not waiting, with no handler of its id still to run. */
  ghost predicate Stuck(w: World, id: Id)
    requires Sane(w)
  {
    && id in w.active && !Current(w, id).status.Waiting?
    && forall i :: 0 <= i < |w.entries| && w.entries[i].id == id ==> w.entries[i].handled
  }

  lemma StepKeepsStuck(w: World, step: Step, id: Id)
    requires Sane(w) && Stuck(w, id) && Possible(w, step) && Winding(step)
    ensures Stuck(Next(w, step), id)
  {
    hide Throttled, Released, RemovedFromQueue, Handled, Stopped, Registered, Settle;
    match step
    case Handle(i) =>
      HandleKeepsStuck(w, i, id);
    case Stop(other) =>
      StopKeepsStuck(w, other, id);
    case _ =>
  }

  lemma HandleKeepsStuck(w: World, i: nat, id: Id)
    requires Sane(w) && Stuck(w, id) && Possible(w, Handle(i))
    ensures Stuck(Handled(w, i), id)
  {
    hide Released;
  }

  lemma StopKeepsStuck(w: World, other: Id, id: Id)
    requires Sane(w) && Stuck(w, id)
    ensures Stuck(Stopped(w, other), id)
  {
    StoppedIsAside(w, other);
    StoppedEvolves(w, other);
    StoppedKeepsStatuses(w, other);
    hide Stopped;
    forall i | 0 <= i < |w.entries| && Stopped(w, other).entries[i].id == id
      ensures Stopped(w, other).entries[i].handled
    {
      assert Evolves(w.entries[i], Stopped(w, other).entries[i]);
    }
  }

  /** Such an entry stays through every run of the wait loop, which then never ends. */
  lemma {:induction false} StuckForever(w: World, steps: seq<Step>, id: Id)
    requires Sane(w) && Stuck(w, id) && Winds(w, steps)
    ensures Stuck(Run(w, steps).value, id)
    decreases |steps|
  {
    if steps != [] {
      StepKeepsStuck(w, steps[0], id);
      assert forall step :: step in steps[1..] ==> step in steps;
      StuckForever(Next(w, steps[0]), steps[1..], id);
    }
  }

  /** Where every promise is owned, the entries that block the first pass from draining are stuck. */
  lemma SurvivingHandledIsStuck(w: World, ids: seq<Id>, cancelAll: bool, id: Id)
    requires Sane(w) && Owned(w) && Possible(w, Shutdown(ids, cancelAll))
    requires id in w.active && Current(w, id).handled && Survives(w, Current(w, id), cancelAll)
    ensures Stuck(Next(w, Shutdown(ids, cancelAll)), id)
  {
    PassIsAside(Disabled(w), ids, cancelAll);
    PassEvolves(Disabled(w), ids, cancelAll);
    PassPointwise(Disabled(w), ids, cancelAll, id);
    var r := Next(w, Shutdown(ids, cancelAll));
    hide Survives, Cancels, AfterPass;
    forall i | 0 <= i < |r.entries| && r.entries[i].id == id
      ensures r.entries[i].handled
    {
      assert Evolves(w.entries[i], r.entries[i]);
    }
  }

  lemma StopDrains(w: World, id: Id)
    requires Sane(w) && Draining(w)
    ensures Draining(Stopped(w, id)) && Stopped(w, id).active == w.active
  {
    StoppedKeepsStatuses(w, id);
    StoppedIsAside(w, id);
    hide Stopped;
  }

  lemma StepDrains(w: World, step: Step)
    requires Sane(w) && Draining(w) && Possible(w, step) && Winding(step)
    ensures Draining(Next(w, step))
    ensures Next(w, step).active.Keys <= w.active.Keys
    ensures step.Handle? && Owns(w, step.i) ==> w.entries[step.i].id !in Next(w, step).active
  {
    hide Throttled, Released, RemovedFromQueue, Handled, Stopped, Settle;
    match step
    case Handle(i) =>
      HandleDrains(w, i);
    case Stop(id) =>
      StopDrains(w, id);
    case _ =>
  }

  lemma HandleDrains(w: World, i: nat)
    requires Sane(w) && Draining(w) && Possible(w, Handle(i))
    ensures Draining(Handled(w, i)) && Handled(w, i).active.Keys <= w.active.Keys
    ensures Owns(w, i) ==> w.entries[i].id !in Handled(w, i).active
  {
    var r := Handled(w, i);
    forall id | id in r.active
      ensures !Current(r, id).handled && !Current(r, id).status.Waiting?
    {
      assert id in w.active;
    }
  }

  /** The steps are possible one after another and none of them starts or parks an execution. */
  ghost predicate Winds(w: World, steps: seq<Step>)
    requires Sane(w)
  {
    Run(w, steps).Some? && forall step :: step in steps ==> Winding(step)
  }

  /** An unhandled entry whose id is registered is the registered one. */
  ghost predicate OwnsRegistered(w: World)
    requires Sane(w)
  {
    forall i :: 0 <= i < |w.entries| && !w.entries[i].handled && w.entries[i].id in w.active ==> Owns(w, i)
  }

  lemma ShutdownOwnsRegistered(w: World, ids: seq<Id>, cancelAll: bool)
    requires Sane(w) && Owned(w) && Possible(w, Shutdown(ids, cancelAll))
    ensures OwnsRegistered(Next(w, Shutdown(ids, cancelAll)))
  {
    PassIsAside(Disabled(w), ids, cancelAll);
    PassEvolves(Disabled(w), ids, cancelAll);
    PassKeepsIndices(Disabled(w), ids, cancelAll);
    var r := Next(w, Shutdown(ids, cancelAll));
    hide Next, PassOverAll;
    forall i | 0 <= i < |r.entries| && !r.entries[i].handled && r.entries[i].id in r.active
      ensures Owns(r, i)
    {
      assert Evolves(w.entries[i], r.entries[i]);
      assert Owns(w, i);
    }
  }

  // ---------- shutdown: an execution stays registered until its handler runs ----------

  /** From `w` on, an execution is registered exactly as long as its handler has not run. */
  ghost predicate Follows(w: World, r: World)
    requires Sane(w) && Sane(r)
  {
    && AllEvolve(w, r) && r.active.Keys <= w.active.Keys
    && (forall id :: id in w.active ==> (id in r.active <==> !r.entries[w.active[id]].handled))
    && (forall id :: id in r.active ==> r.active[id] == w.active[id])
  }

  lemma FollowsTwice(w: World, m: World, r: World)
    requires Sane(w) && Sane(m) && Sane(r) && Follows(w, m) && Follows(m, r)
    ensures Follows(w, r)
  {
    EvolvesTwice(w, m, r);
    forall id | id in w.active
      ensures id in r.active <==> !r.entries[w.active[id]].handled
    {
      assert Evolves(m.entries[w.active[id]], r.entries[w.active[id]]);
    }
  }

  lemma HandleFollows(w: World, i: nat)
    requires Sane(w) && Draining(w) && OwnsRegistered(w) && Possible(w, Handle(i))
    ensures OwnsRegistered(Handled(w, i)) && Follows(w, Handled(w, i))
  {
    hide Released;
    if w.entries[i].id in w.active { assert Owns(w, i); }
    var r := Handled(w, i);
    forall j | 0 <= j < |r.entries| && !r.entries[j].handled && r.entries[j].id in r.active
      ensures Owns(r, j)
    {
      assert j != i && Owns(w, j);
    }
  }

  lemma SameRegistryFollows(w: World, r: World)
    requires Sane(w) && Sane(r) && Draining(w) && OwnsRegistered(w)
    requires r.active == w.active && SameHandlers(w.entries, r.entries) && AllEvolve(w, r)
    ensures OwnsRegistered(r) && Follows(w, r)
  {
    forall i | 0 <= i < |r.entries| && !r.entries[i].handled && r.entries[i].id in r.active
      ensures Owns(r, i)
    {
      assert Evolves(w.entries[i], r.entries[i]) && Owns(w, i);
    }
  }

  /** While nothing waits, only handlers take entries from the registry. */
  lemma StepKeepsRegistry(w: World, step: Step)
    requires Sane(w) && Draining(w) && Possible(w, step) && Winding(step) && !step.Handle?
    ensures Next(w, step).active == w.active && SameHandlers(w.entries, Next(w, step).entries)
  {
    if step.Stop? {
      StoppedKeepsStatuses(w, step.id);
      StoppedIsAside(w, step.id);
      hide Stopped;
    } else {
      OnOthersKeepsRegistry(w, step);
    }
  }

  lemma OnOthersKeepsRegistry(w: World, step: Step)
    requires Sane(w) && Possible(w, step) && Winding(step) && !step.Handle? && !step.Stop?
    ensures Next(w, step).active == w.active && SameHandlers(w.entries, Next(w, step).entries)
  {
    hide Throttled, RemovedFromQueue, Settle;
  }

  lemma StepFollows(w: World, step: Step)
    requires Sane(w) && Draining(w) && OwnsRegistered(w) && Possible(w, step) && Winding(step)
    ensures OwnsRegistered(Next(w, step)) && Follows(w, Next(w, step))
  {
    if step.Handle? {
      HandleFollows(w, step.i);
    } else {
      StepKeepsRegistry(w, step);
      StepEvolves(w, step);
      hide *;
      SameRegistryFollows(w, Next(w, step));
    }
  }

  lemma {:induction false} WindingFollows(w: World, steps: seq<Step>)
    requires Sane(w) && Draining(w) && OwnsRegistered(w) && Winds(w, steps)
    ensures var r := Run(w, steps).value; Draining(r) && OwnsRegistered(r) && Follows(w, r)
    decreases |steps|
  {
    if steps == [] {
      FollowsItself(w);
    } else {
      hide Next, Draining, OwnsRegistered, Follows, Winding;
      assert steps[0] in steps && forall step :: step in steps[1..] ==> step in steps;
      StepDrains(w, steps[0]);
      StepFollows(w, steps[0]);
      WindingFollows(Next(w, steps[0]), steps[1..]);
      FollowsTwice(w, Next(w, steps[0]), Run(w, steps).value);
    }
  }

  lemma FollowsItself(w: World)
    requires Sane(w) && Draining(w)
    ensures Follows(w, w)
  {
    EvolvesByNothing(w);
  }

  /** The registry is empty exactly when the handlers of all executions it held have run. */
  lemma EmptyIffHandled(w: World, r: World)
    requires Sane(w) && Sane(r) && Follows(w, r)
    ensures r.active == map[] <==> forall id :: id in w.active ==> r.entries[w.active[id]].handled
  {
    if r.active != map[] {
      var id :| id in r.active;
      assert id in w.active;
    }
  }

  /** Shutdown, in every disciplined run with timely status changes: after any steps of the wait
      loop, the executions still registered are those that the first pass left and whose handler has
      not run; the loop ends when the last of these handlers has, and not before. */
  lemma ShutdownEndsIff(w: World, steps: seq<Step>, ids: seq<Id>, cancelAll: bool, more: seq<Step>)
    requires Sane(w) && Initial(w) && DisciplinedRun(w, steps) && TimelyRun(w, steps) && Run(w, steps).Some?
    requires Possible(Run(w, steps).value, Shutdown(ids, cancelAll))
    requires Winds(Next(Run(w, steps).value, Shutdown(ids, cancelAll)), more)
    ensures var r := Next(Run(w, steps).value, Shutdown(ids, cancelAll));
            var last := Run(r, more).value;
            && (forall id :: id in r.active ==> r.active[id] < |last.entries|)
            && (forall id :: id in last.active <==> id in r.active && !last.entries[r.active[id]].handled)
            && (last.active == map[] <==> forall id :: id in r.active ==> last.entries[r.active[id]].handled)
  {
    AfterFirstPass(w, steps, ids, cancelAll);
    var r := Next(Run(w, steps).value, Shutdown(ids, cancelAll));
    hide Initial, DisciplinedRun, TimelyRun, Next, Draining, OwnsRegistered, Winds;
    WindingFollows(r, more);
    EmptyIffHandled(r, Run(r, more).value);
  }

  lemma AfterFirstPass(w: World, steps: seq<Step>, ids: seq<Id>, cancelAll: bool)
    requires Sane(w) && Initial(w) && DisciplinedRun(w, steps) && TimelyRun(w, steps) && Run(w, steps).Some?
    requires Possible(Run(w, steps).value, Shutdown(ids, cancelAll))
    ensures var r := Next(Run(w, steps).value, Shutdown(ids, cancelAll)); Draining(r) && OwnsRegistered(r)
  {
    hide Initial, DisciplinedRun, TimelyRun, Next;
    ParkedOnEveryRun(w, steps);
    ShutdownDrains(Run(w, steps).value, ids, cancelAll);
    ShutdownOwnsRegistered(Run(w, steps).value, ids, cancelAll);
  }

  // ---------- shutdown: the turns of the wait loop ----------

  /** Each sleep is any steps that wind down, among them none, one or many handlers. */
  ghost predicate AllWind(w: World, sleeps: seq<seq<Step>>)
    requires Sane(w)
    decreases |sleeps|
  {
    sleeps != [] ==> Winds(w, sleeps[0]) && AllWind(Run(w, sleeps[0]).value, sleeps[1..])
  }

  /** The wait loop, which stops when it sees an empty registry: the state after it, or after the
      last of the sleeps. */
  ghost function AfterTurns(w: World, sleeps: seq<seq<Step>>): (r: World)
    requires Sane(w) && AllWind(w, sleeps)
    ensures Sane(r)
    decreases |sleeps|
  {
    if w.active == map[] || sleeps == [] then w else AfterTurns(Run(w, sleeps[0]).value, sleeps[1..])
  }

  /** The number of turns it takes. */
  ghost function Turns(w: World, sleeps: seq<seq<Step>>): nat
    requires Sane(w) && AllWind(w, sleeps)
    decreases |sleeps|
  {
    if w.active == map[] || sleeps == [] then 0 else 1 + Turns(Run(w, sleeps[0]).value, sleeps[1..])
  }

  /** No execution leaves the registry during the sleep. */
  ghost predicate Idle(w: World, steps: seq<Step>)
    requires Sane(w)
  {
    Run(w, steps).Some? && Run(w, steps).value.active.Keys == w.active.Keys
  }

  /** The number of turns whose sleep is idle. */
  ghost function IdleTurns(w: World, sleeps: seq<seq<Step>>): nat
    requires Sane(w) && AllWind(w, sleeps)
    decreases |sleeps|
  {
    if w.active == map[] || sleeps == [] then 0
    else IdleTurns(Run(w, sleeps[0]).value, sleeps[1..]) + if Idle(w, sleeps[0]) then 1 else 0
  }

  /** A sleep is idle exactly if no handler of a registered execution runs in it. */
  lemma IdleIff(w: World, steps: seq<Step>)
    requires Sane(w) && Draining(w) && OwnsRegistered(w) && Winds(w, steps)
    ensures Follows(w, Run(w, steps).value)
    ensures Idle(w, steps) <==> forall id :: id in w.active ==> !Run(w, steps).value.entries[w.active[id]].handled
  {
    WindingFollows(w, steps);
    hide Run, Draining, OwnsRegistered, AllEvolve;
  }

  /** The wait loop, whatever happens during its sleeps: it ends with an empty registry exactly if
      the handlers of all executions it started with have run, it takes at most one turn for each
      execution beside the idle ones, and it has ended once it slept that often. */
  lemma {:induction false} WaitLoopEnds(w: World, sleeps: seq<seq<Step>>)
    requires Sane(w) && Draining(w) && OwnsRegistered(w) && AllWind(w, sleeps)
    ensures Follows(w, AfterTurns(w, sleeps))
    ensures AfterTurns(w, sleeps).active == map[] <==>
              forall id :: id in w.active ==> AfterTurns(w, sleeps).entries[w.active[id]].handled
    ensures Turns(w, sleeps) <= |w.active.Keys| + IdleTurns(w, sleeps)
    ensures |sleeps| >= |w.active.Keys| + IdleTurns(w, sleeps) ==> AfterTurns(w, sleeps).active == map[]
    decreases |sleeps|
  {
    if w.active == map[] || sleeps == [] {
      FollowsItself(w);
    } else {
      var r := Run(w, sleeps[0]).value;
      WindingFollows(w, sleeps[0]);
      WaitLoopEnds(r, sleeps[1..]);
      FollowsTwice(w, r, AfterTurns(w, sleeps));
      KeysShrink(w, r);
      var id :| id in w.active.Keys;
    }
    hide Draining, OwnsRegistered, Follows, Winds, Run;
    EmptyIffHandled(w, AfterTurns(w, sleeps));
  }

  lemma KeysShrink(w: World, r: World)
    requires Sane(w) && Sane(r) && Follows(w, r)
    ensures |r.active.Keys| <= |w.active.Keys| && (r.active.Keys != w.active.Keys ==> |r.active.Keys| < |w.active.Keys|)
  {
    if r.active.Keys != w.active.Keys {
      FewerKeys(r.active.Keys, w.active.Keys);
    }
  }

  lemma FewerKeys(a: set<Id>, b: set<Id>)
    requires a < b
    ensures |a| < |b|
  {
    assert b == a + (b - a) && b - a != {};
  }

  /** With `n` executions left, at most `n` sleeps are not idle, however many there are. */
  lemma {:induction false} NoMoreSleepsThanExecutions(w: World, sleeps: seq<seq<Step>>)
    requires Sane(w) && Draining(w) && OwnsRegistered(w) && AllWind(w, sleeps)
    ensures BusySleeps(w, sleeps) <= |w.active.Keys|
    decreases |sleeps|
  {
    if sleeps != [] {
      var r := Run(w, sleeps[0]).value;
      WindingFollows(w, sleeps[0]);
      NoMoreSleepsThanExecutions(r, sleeps[1..]);
      KeysShrink(w, r);
    }
    hide Draining, OwnsRegistered, Follows, Winds, Run;
  }

  ghost function BusySleeps(w: World, sleeps: seq<seq<Step>>): nat
    requires Sane(w) && AllWind(w, sleeps)
    decreases |sleeps|
  {
    if sleeps == [] then 0
    else BusySleeps(Run(w, sleeps[0]).value, sleeps[1..]) + if Idle(w, sleeps[0]) then 0 else 1
  }

  /** From a disciplined run to the end of shutdown, turn by turn. */
  lemma ShutdownEndsAfterEveryRun(w: World, steps: seq<Step>, ids: seq<Id>, cancelAll: bool, sleeps: seq<seq<Step>>)
    requires Sane(w) && Initial(w) && DisciplinedRun(w, steps) && TimelyRun(w, steps) && Run(w, steps).Some?
    requires Possible(Run(w, steps).value, Shutdown(ids, cancelAll))
    requires AllWind(Next(Run(w, steps).value, Shutdown(ids, cancelAll)), sleeps)
    ensures var r := Next(Run(w, steps).value, Shutdown(ids, cancelAll));
            var last := AfterTurns(r, sleeps);
            && (forall id :: id in r.active ==> r.active[id] < |last.entries|)
            && (last.active == map[] <==> forall id :: id in r.active ==> last.entries[r.active[id]].handled)
            && Turns(r, sleeps) <= |r.active.Keys| + IdleTurns(r, sleeps)
            && (|sleeps| >= |r.active.Keys| + IdleTurns(r, sleeps) ==> last.active == map[])
  {
    AfterFirstPass(w, steps, ids, cancelAll);
    hide Initial, DisciplinedRun, TimelyRun, Next, Draining, OwnsRegistered, AllWind;
    WaitLoopEnds(Next(Run(w, steps).value, Shutdown(ids, cancelAll)), sleeps);
  }

  // ---------- shutdown: two runs ----------

  /** One idle sleep, and one in which the only handler runs. */
  function IdleThenHandled(): seq<seq<Step>> {
    [[], [Handle(0)]]
  }

  /** A single running execution, cancelled by shutdown: the loop ends in the turn in which the
      handler runs. */
  lemma ShutdownOfOne(w: World, t: Ticket, now: int)
    requires Sane(w) && Initial(w) && w.regular && !Queued(w.control, t.mode)
    ensures Run(w, AddOne(t, now)).Some? && DisciplinedRun(w, AddOne(t, now)) && TimelyRun(w, AddOne(t, now))
    ensures var v := Run(w, AddOne(t, now)).value;
            && Possible(v, Shutdown([t.id], true))
            && var r := Next(v, Shutdown([t.id], true));
               && AllWind(r, IdleThenHandled()) && Turns(r, IdleThenHandled()) == 2
               && AfterTurns(r, IdleThenHandled()).active == map[]
  {
    var v := OneIsAdded(w, t, now);
    AddingOneIsDisciplined(w, t, now);
    hide AddOne, Run, DisciplinedRun, TimelyRun, AllWind, Turns, AfterTurns, Initial;
    OneIsCancelled(v, t.id);
  }

  lemma AddingOneIsDisciplined(w: World, t: Ticket, now: int)
    requires Sane(w) && Initial(w) && !Queued(w.control, t.mode)
    ensures DisciplinedRun(w, AddOne(t, now)) && TimelyRun(w, AddOne(t, now))
  {
    var a := Next(w, Throttle(t));
    var v := Next(a, Register(0, now));
    var steps := AddOne(t, now);
    assert steps[1..] == [Register(0, now)] && steps[1..][1..] == [];
    assert a.entries == [] && a.control.admitted == [t];
    hide Next;
    assert DisciplinedRun(v, []) && TimelyRun(v, []);
    assert DisciplinedRun(a, [Register(0, now)]) && TimelyRun(a, [Register(0, now)]);
  }

  lemma OneIsCancelled(v: World, id: Id)
    requires Sane(v) && v.regular && v.active == map[id := 0] && |v.entries| == 1
    requires v.entries[0].id == id && !v.entries[0].handled && v.entries[0].outcome.Pending? && v.entries[0].status == Running
    ensures Possible(v, Shutdown([id], true))
    ensures var r := Next(v, Shutdown([id], true));
            AllWind(r, IdleThenHandled()) && Turns(r, IdleThenHandled()) == 2 && AfterTurns(r, IdleThenHandled()).active == map[]
  {
    var r := Next(v, Shutdown([id], true));
    assert [id][1..] == [];
    assert r == PassOverAll(PassOver(Disabled(v), id, true), [], true);
    assert r.active == map[id := 0] && |r.entries| == 1 && r.entries[0] == v.entries[0].(outcome := Rejected);
    hide Next, PassOver;
    OneIsHandled(r, id);
  }

  lemma OneIsHandled(r: World, id: Id)
    requires Sane(r) && r.active == map[id := 0] && |r.entries| == 1
    requires r.entries[0].id == id && !r.entries[0].handled && r.entries[0].outcome.Rejected? && r.entries[0].status == Running
    ensures AllWind(r, IdleThenHandled()) && Turns(r, IdleThenHandled()) == 2 && AfterTurns(r, IdleThenHandled()).active == map[]
  {
    hide Released;
    var next := Handled(r, 0);
    assert next.active == map[] && id in r.active;
    var sleeps := IdleThenHandled();
    assert sleeps[0] == [] && sleeps[1..] == [[Handle(0)]] && sleeps[1..][1..] == [] && [Handle(0)][1..] == [];
    assert Run(next, []) == Some(next);
    hide Handled;
    assert Winds(r, []) && Winds(r, [Handle(0)]) && Run(r, []) == Some(r) && Run(r, [Handle(0)]) == Some(next);
    assert AllWind(next, []);
    assert AllWind(r, [[Handle(0)]]);
    assert Turns(r, [[Handle(0)]]) == 1 && AfterTurns(r, [[Handle(0)]]) == next;
  }

  /** An execution that waited, was finalized, handled and then marked running survives the first
      pass, and stays registered whatever happens afterwards. */
  lemma StuckIsReached(w: World, t: Ticket, now: int) returns (r: World)
    requires Sane(w) && Initial(w) && !Queued(w.control, t.mode)
    ensures Run(w, AddOne(t, now) + ([SetStatus(t.id, Waiting), Finalize(t.id, None)] + [Handle(0), SetStatus(t.id, Running)])) == Some(r)
    ensures Sane(r) && Possible(r, Shutdown([t.id], false)) && Stuck(Next(r, Shutdown([t.id], false)), t.id)
  {
    r := LateStatusIsReached(w, t, now);
    assert Lists([t.id], r.active);
    assert Survives(r, Current(r, t.id), false);
    hide Initial, Run, Lists;
    SurvivingHandledIsStuck(r, [t.id], false, t.id);
  }
}
