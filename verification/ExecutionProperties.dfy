/**
 What every run of the registry of active executions keeps: the concurrency slots balance, a
 first settlement is final, start times survive, and the concurrency limit holds.
 */
module ExecutionProperties {
  import opened Wrappers
  import opened ExecutionProtocol

  // ---------- slots balance ----------

  /** The tickets of a mode. */
  function Tickets(ts: seq<Ticket>, m: Mode): nat {
    if ts == [] then 0 else Tickets(ts[1..], m) + if ts[0].mode == m then 1 else 0
  }

  /** The entries of a mode whose handler has run, or has not. */
  function Entries(es: seq<Entry>, m: Mode, handled: bool): nat {
    if es == [] then 0 else
      Entries(es[1..], m, handled) + if es[0].mode == m && es[0].handled == handled then 1 else 0
  }

  lemma {:induction false} TicketsConcat(a: seq<Ticket>, b: seq<Ticket>, m: Mode)
    ensures Tickets(a + b, m) == Tickets(a, m) + Tickets(b, m)
  {
    if a == [] {
      assert a + b == b;
    } else {
      TicketsConcat(a[1..], b, m);
      assert (a + b)[1..] == a[1..] + b;
    }
  }

  lemma TicketsWithout(ts: seq<Ticket>, i: nat, m: Mode)
    requires i < |ts|
    ensures Tickets(ts, m) == Tickets(Without(ts, i), m) + if ts[i].mode == m then 1 else 0
  {
    assert ts == ts[..i] + ([ts[i]] + ts[i + 1..]);
    TicketsConcat(ts[..i], [ts[i]] + ts[i + 1..], m);
    TicketsConcat([ts[i]], ts[i + 1..], m);
    TicketsConcat(ts[..i], ts[i + 1..], m);
  }

  lemma {:induction false} EntriesConcat(a: seq<Entry>, b: seq<Entry>, m: Mode, handled: bool)
    ensures Entries(a + b, m, handled) == Entries(a, m, handled) + Entries(b, m, handled)
  {
    if a == [] {
      assert a + b == b;
    } else {
      EntriesConcat(a[1..], b, m, handled);
      assert (a + b)[1..] == a[1..] + b;
    }
  }

  function One(e: Entry, m: Mode, handled: bool): nat {
    if e.mode == m && e.handled == handled then 1 else 0
  }

  lemma {:induction false} EntriesUpdate(es: seq<Entry>, i: nat, e: Entry, m: Mode, handled: bool)
    requires i < |es|
    ensures Entries(es[i := e], m, handled) + One(es[i], m, handled) == Entries(es, m, handled) + One(e, m, handled)
  {
    if i > 0 {
      EntriesUpdate(es[1..], i - 1, e, m, handled);
      assert es[i := e][1..] == es[1..][i - 1 := e];
    }
  }

  /** For each mode: the completed `throttle` calls and the adds that skip it are released, lost
      to a failed database call, between `throttle` and registration, or registered with a
      handler still to run; and each handler has released exactly once. */
  ghost predicate BalancedAt(w: World, m: Mode) {
    && Count(w.control.passed, m) + Count(w.control.unthrottled, m)
       == Count(w.control.released, m) + Count(w.control.lost, m) + Tickets(w.control.admitted, m) + Entries(w.entries, m, false)
    && Count(w.control.released, m) == Entries(w.entries, m, true)
    && (w.regular ==> Count(w.control.unthrottled, m) == 0)
  }

  ghost predicate Balanced(w: World) {
    forall m :: BalancedAt(w, m)
  }

  /** The rest of concurrency control only moves adds into `admitted`, counting each once. */
  ghost predicate Admits(c: Control, d: Control, m: Mode) {
    && Count(d.passed, m) + Tickets(c.admitted, m) == Count(c.passed, m) + Tickets(d.admitted, m)
    && d.released == c.released && d.lost == c.lost && d.unthrottled == c.unthrottled
  }

  lemma AdmitAdmits(c: Control, t: Ticket, m: Mode)
    ensures Admits(c, Admit(c, t), m)
  {
    TicketsConcat(c.admitted, [t], m);
  }

  lemma ThrottledAdmits(c: Control, t: Ticket, m: Mode)
    ensures Admits(c, Throttled(c, t), m)
  {
    AdmitAdmits(c, t, m);
  }

  lemma FreeSlotAdmits(c: Control, lane: Lane, m: Mode)
    requires lane in c.queues
    ensures Admits(c, FreeSlot(c, lane), m)
  {
    if c.queues[lane].waiting != [] {
      AdmitAdmits(c, c.queues[lane].waiting[0], m);
    }
  }

  lemma RemovedAdmits(c: Control, mode: Mode, id: Id, m: Mode)
    ensures Admits(c, RemovedFromQueue(c, mode, id), m)
  {
    if Queued(c, mode) {
      var lane := LaneOf(mode).value;
      var q := c.queues[lane];
      var i := IndexOf(q.waiting, id);
      if i < |q.waiting| {
        FreeSlotAdmits(c.(queues := c.queues[lane := q.(waiting := Without(q.waiting, i))]), lane, m);
      }
    }
  }

  /** A step that changes no handler flag changes no count. */
  ghost predicate SameHandlers(a: seq<Entry>, b: seq<Entry>) {
    |a| == |b| && forall i :: 0 <= i < |a| ==> a[i].mode == b[i].mode && a[i].handled == b[i].handled
  }

  lemma {:induction false} SameHandlersSameCount(a: seq<Entry>, b: seq<Entry>, m: Mode, handled: bool)
    requires SameHandlers(a, b)
    ensures Entries(a, m, handled) == Entries(b, m, handled)
  {
    if a != [] {
      SameHandlersSameCount(a[1..], b[1..], m, handled);
    }
  }

  /** The steps on registered entries leave concurrency control and the handler flags alone. */
  ghost predicate Aside(w: World, r: World) {
    SameHandlers(w.entries, r.entries) && r.control == w.control && r.regular == w.regular
  }

  lemma AsideKeepsBalance(w: World, r: World, m: Mode)
    requires Aside(w, r) && BalancedAt(w, m)
    ensures BalancedAt(r, m)
  {
    SameHandlersSameCount(w.entries, r.entries, m, true);
    SameHandlersSameCount(w.entries, r.entries, m, false);
  }

  lemma StoppedIsAside(w: World, id: Id)
    requires Sane(w)
    ensures Aside(w, Stopped(w, id))
  {
    StoppedIs(w, id);
    hide Stopped, Settle;
  }

  /** A stop changes no status, and takes an entry from the registry only while it waits. */
  lemma StoppedKeepsStatuses(w: World, id: Id)
    requires Sane(w)
    ensures var r := Stopped(w, id);
            && |r.entries| == |w.entries| && (forall i :: 0 <= i < |w.entries| ==> r.entries[i].status == w.entries[i].status)
            && r.active == if id in w.active && Current(w, id).status.Waiting? then w.active - {id} else w.active
  {
    StoppedIs(w, id);
    hide Stopped, Settle;
  }

  lemma {:induction false} PassIsAside(w: World, ids: seq<Id>, cancelAll: bool)
    requires Sane(w)
    requires forall i, j :: 0 <= i < j < |ids| ==> ids[i] != ids[j]
    requires forall id :: id in ids ==> id in w.active
    ensures Aside(w, PassOverAll(w, ids, cancelAll))
    decreases |ids|
  {
    if ids != [] {
      StoppedIsAside(w, ids[0]);
      PassOverOthers(w, ids[0], cancelAll);
      PassIsAside(PassOver(w, ids[0], cancelAll), ids[1..], cancelAll);
    }
  }

  lemma RegisterKeepsBalance(w: World, i: nat, now: int, m: Mode)
    requires Sane(w) && Possible(w, Register(i, now)) && BalancedAt(w, m)
    ensures BalancedAt(Registered(w, i, now), m)
  {
    TicketsWithout(w.control.admitted, i, m);
    var e := Registered(w, i, now).entries[|w.entries|];
    assert [e][1..] == [] && Entries([e][1..], m, true) == Entries([e][1..], m, false) == 0;
    EntriesConcat(w.entries, [e], m, true);
    EntriesConcat(w.entries, [e], m, false);
  }

  lemma HandleCounts(es: seq<Entry>, i: nat, m: Mode)
    requires i < |es| && !es[i].handled
    ensures var one := if es[i].mode == m then 1 else 0;
            var after := es[i := AfterHandler(es[i])];
            && Entries(after, m, true) == Entries(es, m, true) + one
            && Entries(after, m, false) + one == Entries(es, m, false)
  {
    EntriesUpdate(es, i, AfterHandler(es[i]), m, true);
    EntriesUpdate(es, i, AfterHandler(es[i]), m, false);
  }

  lemma PlusCounts(tally: Tally, mode: Mode, m: Mode)
    ensures Count(Plus(tally, mode), m) == Count(tally, m) + if mode == m then 1 else 0
  {
  }

  lemma HandleKeepsBalance(w: World, i: nat, m: Mode)
    requires Sane(w) && Possible(w, Handle(i)) && BalancedAt(w, m)
    ensures BalancedAt(Handled(w, i), m)
  {
    HandleCounts(w.entries, i, m);
    ReleasedAdmits(w.control, w.entries[i].mode, m);
    PlusCounts(w.control.released, w.entries[i].mode, m);
    hide Released, Entries, Tickets, AfterHandler, Count, Plus, Sane;
  }

  lemma ReleasedAdmits(c: Control, mode: Mode, m: Mode)
    ensures Admits(c.(released := Plus(c.released, mode)), Released(c, mode), m)
  {
    var c' := c.(released := Plus(c.released, mode));
    if Queued(c', mode) {
      FreeSlotAdmits(c', LaneOf(mode).value, m);
    }
  }

  predicate OnRegistered(step: Step) {
    step.Stop? || step.Finalize? || step.SetStatus? || step.AttachExecution? || step.AttachResponse? || step.ResolveResponse?
  }

  lemma OnRegisteredIsAside(w: World, step: Step)
    requires Sane(w) && Possible(w, step) && OnRegistered(step)
    ensures Aside(w, Next(w, step))
  {
    if step.Stop? {
      StoppedIsAside(w, step.id);
    }
  }

  lemma ShutdownKeepsBalance(w: World, ids: seq<Id>, cancelAll: bool, m: Mode)
    requires Sane(w) && Possible(w, Shutdown(ids, cancelAll)) && BalancedAt(w, m)
    ensures BalancedAt(Next(w, Shutdown(ids, cancelAll)), m)
  {
    PassIsAside(Disabled(w), ids, cancelAll);
    AsideKeepsBalance(Disabled(w), PassOverAll(Disabled(w), ids, cancelAll), m);
  }

  lemma StepKeepsBalance(w: World, step: Step, m: Mode)
    requires Sane(w) && Possible(w, step) && BalancedAt(w, m)
    ensures BalancedAt(Next(w, step), m)
  {
    hide Throttled, Released, RemovedFromQueue, PassOverAll, Stopped, Registered, Handled, Entries, Update, SettleResponse, Settle;
    match step
    case Throttle(t) =>
      ThrottledAdmits(w.control, t, m);
    case SkipThrottle(t) =>
      TicketsConcat(w.control.admitted, [t], m);
    case AddFails(i) =>
      TicketsWithout(w.control.admitted, i, m);
    case Register(i, now) =>
      RegisterKeepsBalance(w, i, now, m);
    case Handle(i) =>
      HandleKeepsBalance(w, i, m);
    case RemoveQueued(mode, id) =>
      RemovedAdmits(w.control, mode, id, m);
    case Shutdown(ids, cancelAll) =>
      ShutdownKeepsBalance(w, ids, cancelAll, m);
    case _ =>
      OnRegisteredIsAside(w, step);
      AsideKeepsBalance(w, Next(w, step), m);
  }

  /** Slot conservation over every interleaving. */
  lemma {:induction false} SlotsBalanceOnEveryRun(w: World, steps: seq<Step>)
    requires Sane(w) && (Initial(w) || Balanced(w))
    ensures Run(w, steps).Some? ==> Balanced(Run(w, steps).value)
    decreases |steps|
  {
    if steps != [] && Possible(w, steps[0]) {
      forall m
        ensures BalancedAt(Next(w, steps[0]), m)
      {
        assert BalancedAt(w, m);
        StepKeepsBalance(w, steps[0], m);
      }
      SlotsBalanceOnEveryRun(Next(w, steps[0]), steps[1..]);
    } else {
      assert forall m :: BalancedAt(w, m);
    }
  }

  /** In regular mode, as long as no database call fails: completed `throttle` calls minus
      `release` calls are the adds not yet registered plus the promises not yet handled. */
  lemma SlotsInRegularMode(w: World, steps: seq<Step>, m: Mode)
    requires Sane(w) && Initial(w) && w.regular && Run(w, steps).Some?
    ensures var r := Run(w, steps).value;
            Count(r.control.lost, m) == 0 ==>
              Count(r.control.passed, m) == Count(r.control.released, m) + Tickets(r.control.admitted, m) + Entries(r.entries, m, false)
  {
    SlotsBalanceOnEveryRun(w, steps);
    RegularStaysRegular(w, steps);
    assert BalancedAt(Run(w, steps).value, m);
  }

  lemma {:induction false} RegularStaysRegular(w: World, steps: seq<Step>)
    requires Sane(w)
    ensures Run(w, steps).Some? ==> Run(w, steps).value.regular == w.regular
    decreases |steps|
  {
    if steps != [] && Possible(w, steps[0]) {
      if steps[0].Shutdown? {
        PassIsAside(Disabled(w), steps[0].ids, steps[0].cancelAll);
      } else if OnRegistered(steps[0]) {
        OnRegisteredIsAside(w, steps[0]);
      }
      RegularStaysRegular(Next(w, steps[0]), steps[1..]);
    }
  }

  // ---------- the first settlement is final ----------

  /** What no step takes back from an entry. */
  ghost predicate Evolves(a: Entry, b: Entry) {
    && b.id == a.id && b.mode == a.mode && b.startedAt == a.startedAt
    && (!a.outcome.Pending? ==> b.outcome == a.outcome)
    && (a.handled ==> b.handled)
  }

  ghost predicate AllEvolve(w: World, r: World) {
    |w.entries| <= |r.entries| && forall i :: 0 <= i < |w.entries| ==> Evolves(w.entries[i], r.entries[i])
  }

  lemma {:induction false} PassEvolves(w: World, ids: seq<Id>, cancelAll: bool)
    requires Sane(w)
    requires forall i, j :: 0 <= i < j < |ids| ==> ids[i] != ids[j]
    requires forall id :: id in ids ==> id in w.active
    ensures AllEvolve(w, PassOverAll(w, ids, cancelAll))
    decreases |ids|
  {
    if ids != [] {
      hide PassOver, Evolves;
      PassOverOthers(w, ids[0], cancelAll);
      PassOverEvolves(w, ids[0], cancelAll);
      PassEvolves(PassOver(w, ids[0], cancelAll), ids[1..], cancelAll);
      EvolvesTwice(w, PassOver(w, ids[0], cancelAll), PassOverAll(w, ids, cancelAll));
    } else {
      EvolvesByNothing(w);
    }
  }

  lemma PassOverEvolves(w: World, id: Id, cancelAll: bool)
    requires Sane(w) && id in w.active
    ensures AllEvolve(w, PassOver(w, id, cancelAll))
  {
    StoppedEvolves(w, id);
  }

  lemma EvolvesTwice(a: World, b: World, c: World)
    requires AllEvolve(a, b) && AllEvolve(b, c)
    ensures AllEvolve(a, c)
  {
    forall i | 0 <= i < |a.entries|
      ensures Evolves(a.entries[i], c.entries[i])
    {
      assert Evolves(a.entries[i], b.entries[i]) && Evolves(b.entries[i], c.entries[i]);
    }
  }

  lemma EvolvesByNothing(w: World)
    ensures AllEvolve(w, w)
  {
  }

  lemma UpdateEvolves(w: World, id: Id, e: Entry)
    requires Sane(w) && id in w.active && Evolves(Current(w, id), e)
    ensures AllEvolve(w, Update(w, id, e))
  {
  }

  lemma StoppedEvolves(w: World, id: Id)
    requires Sane(w)
    ensures AllEvolve(w, Stopped(w, id))
  {
    StoppedIs(w, id);
    hide Stopped, Settle;
  }

  lemma StepEvolves(w: World, step: Step)
    requires Sane(w) && Possible(w, step)
    ensures AllEvolve(w, Next(w, step))
  {
    match step
    case Shutdown(ids, cancelAll) =>
      PassEvolves(Disabled(w), ids, cancelAll);
    case Stop(id) =>
      StoppedEvolves(w, id);
    case Finalize(id, run) =>
      if id in w.active {
        UpdateEvolves(w, id, Current(w, id).(outcome := Settle(Current(w, id).outcome, Resolved(run))));
      }
    case SetStatus(id, status) =>
      if id in w.active {
        UpdateEvolves(w, id, Current(w, id).(status := status));
      }
    case AttachExecution(id, execution) =>
      if id in w.active {
        UpdateEvolves(w, id, Current(w, id).(attached := Some(execution)));
      }
    case AttachResponse(id, promise) =>
      if id in w.active {
        UpdateEvolves(w, id, Current(w, id).(response := Some(promise)));
      }
    case _ =>
  }

  /** However often an execution is stopped and finalized, the first settlement of its promise
      stands for the rest of every run, and a handler that has run stays run. */
  lemma {:induction false} FirstSettlementIsFinal(w: World, steps: seq<Step>)
    requires Sane(w)
    ensures Run(w, steps).Some? ==> AllEvolve(w, Run(w, steps).value)
    decreases |steps|
  {
    if steps != [] && Possible(w, steps[0]) {
      StepEvolves(w, steps[0]);
      FirstSettlementIsFinal(Next(w, steps[0]), steps[1..]);
    }
  }

  // ---------- the start time survives waiting and resuming ----------

  ghost predicate RegisteredThroughout(w: World, steps: seq<Step>, id: Id)
    requires Sane(w)
    decreases |steps|
  {
    id in w.active && (steps != [] && Possible(w, steps[0]) ==> RegisteredThroughout(Next(w, steps[0]), steps[1..], id))
  }

  lemma PassOverKeepsIndices(w: World, id: Id, cancelAll: bool)
    requires Sane(w) && id in w.active
    ensures var r := PassOver(w, id, cancelAll);
            forall other :: other in r.active ==> other in w.active && r.active[other] == w.active[other]
  {
    StoppedIs(w, id);
    hide Stopped, Settle;
  }

  lemma {:induction false} PassKeepsIndices(w: World, ids: seq<Id>, cancelAll: bool)
    requires Sane(w)
    requires forall i, j :: 0 <= i < j < |ids| ==> ids[i] != ids[j]
    requires forall id :: id in ids ==> id in w.active
    ensures var r := PassOverAll(w, ids, cancelAll);
            forall id :: id in r.active ==> id in w.active && r.active[id] == w.active[id]
    decreases |ids|
  {
    if ids != [] {
      PassOverOthers(w, ids[0], cancelAll);
      PassOverKeepsIndices(w, ids[0], cancelAll);
      PassKeepsIndices(PassOver(w, ids[0], cancelAll), ids[1..], cancelAll);
    }
  }

  /** Only registration leads an id to another entry. */
  lemma StepKeepsIndices(w: World, step: Step)
    requires Sane(w) && Possible(w, step) && !step.Register?
    ensures var r := Next(w, step);
            forall id :: id in r.active ==> id in w.active && r.active[id] == w.active[id]
  {
    hide Throttled, Released, RemovedFromQueue, PassOverAll, Settle;
    if step.Shutdown? {
      PassKeepsIndices(Disabled(w), step.ids, step.cancelAll);
    }
  }

  lemma StepKeepsStartedAt(w: World, step: Step, id: Id)
    requires Sane(w) && Possible(w, step) && id in w.active && id in Next(w, step).active
    ensures Current(Next(w, step), id).startedAt == Current(w, id).startedAt
  {
    if step.Register? {
      ResumingKeepsStartedAt(w, step.i, step.now, id);
    } else {
      StepEvolves(w, step);
      StepKeepsIndices(w, step);
      hide Next;
      assert Evolves(w.entries[w.active[id]], Next(w, step).entries[w.active[id]]);
    }
  }

  lemma ResumingKeepsStartedAt(w: World, i: nat, now: int, id: Id)
    requires Sane(w) && i < |w.control.admitted| && id in w.active
    ensures Current(Registered(w, i, now), id).startedAt == Current(w, id).startedAt
  {
  }

  /** `startedAt` stays that of the first add through any number of resumptions, as long as the
      id stays registered. */
  lemma {:induction false} StartedAtSurvives(w: World, steps: seq<Step>, id: Id)
    requires Sane(w) && RegisteredThroughout(w, steps, id) && Run(w, steps).Some?
    ensures var r := Run(w, steps).value;
            id in r.active && Current(r, id).startedAt == Current(w, id).startedAt
    decreases |steps|
  {
    if steps != [] {
      StepKeepsStartedAt(w, steps[0], id);
      StartedAtSurvives(Next(w, steps[0]), steps[1..], id);
    }
  }

  // ---------- the concurrency limit ----------

  function InLane(tally: Tally, lane: Lane): nat {
    match lane
    case ProductionLane => Count(tally, Trigger) + Count(tally, Webhook)
    case EvaluationLane => Count(tally, Evaluation)
  }

  /** The adds and executions of a lane that hold a slot. */
  function HeldAt(w: World, m: Mode): nat {
    Count(w.control.lost, m) + Tickets(w.control.admitted, m) + Entries(w.entries, m, false)
  }

  function Held(w: World, lane: Lane): nat {
    match lane
    case ProductionLane => HeldAt(w, Trigger) + HeldAt(w, Webhook)
    case EvaluationLane => HeldAt(w, Evaluation)
  }

  function Deficit(q: Queue): nat {
    if q.capacity < 0 then -q.capacity else 0
  }

  /** The slots handed out and not given back. */
  function InUse(c: Control, lane: Lane): int {
    InLane(c.passed, lane) - InLane(c.released, lane)
  }

  /** Capacity is the limit less the slots in use and the adds that wait; up to `n` more adds
      were admitted than the capacity accounts for. */
  ghost predicate QueueFits(q: Queue, lane: Lane, inUse: int, n: nat) {
    && q.capacity + inUse + |q.waiting| == q.limit
    && |q.waiting| <= Deficit(q) <= |q.waiting| + n
    && forall t :: t in q.waiting ==> LaneOf(t.mode) == Some(lane)
  }

  ghost predicate FitsLane(c: Control, lane: Lane, n: nat)
    requires lane in c.queues
  {
    QueueFits(c.queues[lane], lane, InUse(c, lane), n)
  }

  /** For each lane, how many more adds may hold a slot than its limit. */
  datatype Excess = Excess(production: nat, evaluation: nat) {
    function At(lane: Lane): nat {
      if lane == ProductionLane then production else evaluation
    }
  }

  ghost predicate Fits(c: Control, n: Excess) {
    c.enabled ==> forall lane :: lane in c.queues ==> FitsLane(c, lane, n.At(lane))
  }

  lemma PlusInLane(tally: Tally, m: Mode, lane: Lane)
    ensures InLane(Plus(tally, m), lane) == InLane(tally, lane) + if LaneOf(m) == Some(lane) then 1 else 0
  {
  }

  /** The queue of a lane after `capacity++` and `resolveNext`. */
  function AfterFree(q: Queue): Queue {
    q.(capacity := q.capacity + 1, waiting := if q.waiting == [] then [] else q.waiting[1..])
  }

  lemma FreeSlotEffect(c: Control, lane: Lane, other: Lane)
    requires lane in c.queues && forall t :: t in c.queues[lane].waiting ==> LaneOf(t.mode) == Some(lane)
    ensures var d := FreeSlot(c, lane);
            && d.queues == c.queues[lane := AfterFree(c.queues[lane])] && d.enabled == c.enabled
            && InUse(d, other) == InUse(c, other) + if other == lane && c.queues[lane].waiting != [] then 1 else 0
  {
    var q := c.queues[lane];
    if q.waiting != [] {
      assert q.waiting[0] in q.waiting;
      var c' := c.(queues := c.queues[lane := AfterFree(q)]);
      assert InUse(c', other) == InUse(c, other);
      hide InUse, Admit, LaneOf;
      assert LaneOf(q.waiting[0].mode) == Some(lane) by { assert q.waiting[0] in q.waiting; }
      AdmitEffect(c', q.waiting[0], other);
    }
  }

  /** What a release does to a lane. */
  lemma ReleasedEffect(c: Control, m: Mode, lane: Lane)
    requires c.enabled && lane in c.queues
    requires OwnLanes(c)
    ensures var d := Released(c, m);
            var q := c.queues[lane];
            && d.queues.Keys == c.queues.Keys
            && if LaneOf(m) != Some(lane) then d.queues[lane] == q && InUse(d, lane) == InUse(c, lane)
               else
                 && d.queues[lane] == AfterFree(q)
                 && InUse(d, lane) == InUse(c, lane) - if q.waiting != [] then 0 else 1
  {
    var c' := c.(released := Plus(c.released, m));
    PlusInLane(c.released, m, lane);
    hide Plus, InLane, FreeSlot;
    if Queued(c', m) {
      FreeSlotEffect(c', LaneOf(m).value, lane);
    }
  }

  lemma QueueFreesFits(q: Queue, lane: Lane, inUse: int, n: nat)
    requires QueueFits(q, lane, inUse, n)
    ensures QueueFits(AfterFree(q), lane, inUse - if q.waiting != [] then 0 else 1, n)
  {
    assert forall t :: t in AfterFree(q).waiting ==> t in q.waiting;
  }

  ghost predicate OwnLanes(c: Control) {
    forall l, t :: l in c.queues && t in c.queues[l].waiting ==> LaneOf(t.mode) == Some(l)
  }

  lemma FitsMeansOwnLanes(c: Control, n: Excess)
    requires Fits(c, n) && c.enabled
    ensures OwnLanes(c)
  {
    assert forall l, t :: l in c.queues && t in c.queues[l].waiting ==> FitsLane(c, l, n.At(l));
  }

  lemma ReleasedFits(c: Control, m: Mode, n: Excess)
    requires Fits(c, n)
    ensures Fits(Released(c, m), n)
  {
    if c.enabled {
      FitsMeansOwnLanes(c, n);
      hide Released, LaneOf, AfterFree, QueueFits, InUse;
      forall lane | lane in Released(c, m).queues
        ensures FitsLane(Released(c, m), lane, n.At(lane))
      {
        ReleasedEffect(c, m, lane);
        assert FitsLane(c, lane, n.At(lane));
        QueueFreesFits(c.queues[lane], lane, InUse(c, lane), n.At(lane));
      }
    }
  }

  lemma QueueTakesFits(q: Queue, lane: Lane, inUse: int, n: nat, t: Ticket)
    requires QueueFits(q, lane, inUse, n) && LaneOf(t.mode) == Some(lane)
    ensures q.capacity - 1 < 0 ==>
              QueueFits(q.(capacity := q.capacity - 1, waiting := q.waiting + [t]), lane, inUse, n)
    ensures q.capacity - 1 >= 0 ==> QueueFits(q.(capacity := q.capacity - 1), lane, inUse + 1, n)
  {
    assert forall u :: u in q.waiting + [t] ==> u in q.waiting || u == t;
  }

  lemma AdmitEffect(c: Control, t: Ticket, lane: Lane)
    ensures var d := Admit(c, t);
            && d.queues == c.queues && d.enabled == c.enabled
            && InUse(d, lane) == InUse(c, lane) + if LaneOf(t.mode) == Some(lane) then 1 else 0
  {
    PlusInLane(c.passed, t.mode, lane);
  }

  lemma ThrottledEffect(c: Control, t: Ticket, lane: Lane)
    requires c.enabled && lane in c.queues
    ensures var d := Throttled(c, t);
            var q := c.queues[lane];
            && lane in d.queues
            && if LaneOf(t.mode) != Some(lane) then d.queues[lane] == q && InUse(d, lane) == InUse(c, lane)
               else if q.capacity - 1 < 0 then
                 && d.queues[lane] == q.(capacity := q.capacity - 1, waiting := q.waiting + [t])
                 && InUse(d, lane) == InUse(c, lane)
               else
                 d.queues[lane] == q.(capacity := q.capacity - 1) && InUse(d, lane) == InUse(c, lane) + 1
  {
    if !Queued(c, t.mode) {
      AdmitEffect(c, t, lane);
    } else {
      var mine := LaneOf(t.mode).value;
      var q := c.queues[mine];
      var c' := c.(queues := c.queues[mine := q.(capacity := q.capacity - 1)]);
      assert InUse(c', lane) == InUse(c, lane);
      AdmitEffect(c', t, lane);
    }
  }

  lemma ThrottledFitsLane(c: Control, t: Ticket, lane: Lane, n: nat)
    requires c.enabled && lane in c.queues && FitsLane(c, lane, n)
    ensures lane in Throttled(c, t).queues && FitsLane(Throttled(c, t), lane, n)
  {
    ThrottledEffect(c, t, lane);
    if LaneOf(t.mode) == Some(lane) {
      QueueTakesFits(c.queues[lane], lane, InUse(c, lane), n, t);
    }
  }

  lemma ThrottledFits(c: Control, t: Ticket, n: Excess)
    requires Fits(c, n)
    ensures Fits(Throttled(c, t), n)
  {
    if c.enabled {
      forall lane | lane in c.queues
        ensures FitsLane(Throttled(c, t), lane, n.At(lane))
      {
        ThrottledFitsLane(c, t, lane, n.At(lane));
      }
    }
  }

  /** Taking the `i`-th waiting add out of the queue and then resolving the next one. */
  lemma QueueWithoutFits(q: Queue, lane: Lane, inUse: int, n: nat, i: nat)
    requires QueueFits(q, lane, inUse, n) && i < |q.waiting|
    ensures var rest := q.(waiting := Without(q.waiting, i));
            && (forall t :: t in rest.waiting ==> LaneOf(t.mode) == Some(lane))
            && QueueFits(AfterFree(rest), lane, inUse + if rest.waiting != [] then 1 else 0, if rest.waiting != [] then n + 1 else n)
  {
    assert forall t :: t in Without(q.waiting, i) ==> t in q.waiting;
  }

  /** What stopping the `i`-th waiting add of a lane does to the lanes. */
  lemma RemovedEffect(c: Control, m: Mode, id: Id, lane: Lane)
    requires c.enabled && lane in c.queues
    requires OwnLanes(c)
    ensures var d := RemovedFromQueue(c, m, id);
            var q := c.queues[lane];
            var i := IndexOf(q.waiting, id);
            && lane in d.queues
            && if LaneOf(m) == Some(lane) && i < |q.waiting| then
                 var rest := q.(waiting := Without(q.waiting, i));
                 && d.queues[lane] == AfterFree(rest)
                 && InUse(d, lane) == InUse(c, lane) + if rest.waiting != [] then 1 else 0
               else d.queues[lane] == q && InUse(d, lane) == InUse(c, lane)
  {
    if Queued(c, m) {
      var mine := LaneOf(m).value;
      var i := IndexOf(c.queues[mine].waiting, id);
      if i < |c.queues[mine].waiting| {
        FreeWithoutEffect(c, mine, i, lane);
      }
    }
  }

  lemma FreeWithoutEffect(c: Control, mine: Lane, i: nat, lane: Lane)
    requires mine in c.queues && i < |c.queues[mine].waiting| && lane in c.queues
    requires forall t :: t in c.queues[mine].waiting ==> LaneOf(t.mode) == Some(mine)
    ensures var rest := c.queues[mine].(waiting := Without(c.queues[mine].waiting, i));
            var d := FreeSlot(c.(queues := c.queues[mine := rest]), mine);
            && d.queues == c.queues[mine := AfterFree(rest)]
            && InUse(d, lane) == InUse(c, lane) + if lane == mine && rest.waiting != [] then 1 else 0
  {
    var rest := c.queues[mine].(waiting := Without(c.queues[mine].waiting, i));
    var c' := c.(queues := c.queues[mine := rest]);
    WithoutIsIn(c.queues[mine].waiting, i);
    SameTalliesSameUse(c, c', lane);
    UpdatedTwice(c.queues, mine, rest, AfterFree(rest));
    hide *;
    FreeSlotEffect(c', mine, lane);
  }

  lemma UpdatedTwice(queues: map<Lane, Queue>, lane: Lane, a: Queue, b: Queue)
    ensures queues[lane := a][lane := b] == queues[lane := b] && queues[lane := a][lane] == a
  {
  }

  lemma WithoutIsIn(ts: seq<Ticket>, i: nat)
    requires i < |ts|
    ensures forall t :: t in Without(ts, i) ==> t in ts
  {
  }

  lemma SameTalliesSameUse(c: Control, d: Control, lane: Lane)
    requires c.passed == d.passed && c.released == d.released
    ensures InUse(c, lane) == InUse(d, lane)
  {
  }

  /** Another add waits in the lane from which this one is removed. */
  predicate Overadmits(c: Control, m: Mode, id: Id, lane: Lane) {
    && Queued(c, m) && LaneOf(m) == Some(lane)
    && IndexOf(c.queues[lane].waiting, id) < |c.queues[lane].waiting| && |c.queues[lane].waiting| > 1
  }

  function OneMore(n: Excess, c: Control, m: Mode, id: Id): Excess {
    Excess(n.production + if Overadmits(c, m, id, ProductionLane) then 1 else 0,
           n.evaluation + if Overadmits(c, m, id, EvaluationLane) then 1 else 0)
  }

  lemma RemovedFits(c: Control, m: Mode, id: Id, n: Excess)
    requires Fits(c, n)
    ensures Fits(RemovedFromQueue(c, m, id), OneMore(n, c, m, id))
  {
    if c.enabled {
      RemovalKeepsLanes(c, m, id);
      FitsMeansOwnLanes(c, n);
      forall lane | lane in c.queues
        ensures FitsLane(RemovedFromQueue(c, m, id), lane, OneMore(n, c, m, id).At(lane))
      {
        assert FitsLane(c, lane, n.At(lane));
        RemovedFitsLane(c, m, id, lane, n.At(lane));
      }
    }
  }

  lemma RemovedFitsLane(c: Control, m: Mode, id: Id, lane: Lane, n: nat)
    requires c.enabled && OwnLanes(c) && lane in c.queues && FitsLane(c, lane, n)
    ensures lane in RemovedFromQueue(c, m, id).queues
    ensures FitsLane(RemovedFromQueue(c, m, id), lane, if Overadmits(c, m, id, lane) then n + 1 else n)
  {
    RemovedEffect(c, m, id, lane);
    var q := c.queues[lane];
    var i := IndexOf(q.waiting, id);
    if LaneOf(m) == Some(lane) && i < |q.waiting| {
      QueueWithoutFits(q, lane, InUse(c, lane), n, i);
      assert |Without(q.waiting, i)| == |q.waiting| - 1;
    }
    hide InUse, QueueFits, AfterFree, RemovedFromQueue, OwnLanes;
  }

  lemma RemovalKeepsLanes(c: Control, m: Mode, id: Id)
    ensures RemovedFromQueue(c, m, id).queues.Keys == c.queues.Keys
    ensures RemovedFromQueue(c, m, id).enabled == c.enabled
  {
  }

  function Overadmission(w: World, step: Step, lane: Lane): nat {
    if step.RemoveQueued? && Overadmits(w.control, step.mode, step.id, lane) then 1 else 0
  }

  /** How often a waiting add of the lane was removed while another one waited. */
  function Overadmissions(w: World, steps: seq<Step>, lane: Lane): nat
    requires Sane(w)
    decreases |steps|
  {
    if steps == [] || !Possible(w, steps[0]) then 0
    else Overadmission(w, steps[0], lane) + Overadmissions(Next(w, steps[0]), steps[1..], lane)
  }

  function After(n: Excess, w: World, step: Step): Excess {
    Excess(n.production + Overadmission(w, step, ProductionLane), n.evaluation + Overadmission(w, step, EvaluationLane))
  }

  lemma StepFits(w: World, step: Step, n: Excess)
    requires Sane(w) && Possible(w, step) && Fits(w.control, n)
    ensures Fits(Next(w, step).control, After(n, w, step))
  {
    if step.RemoveQueued? {
      RemovedFits(w.control, step.mode, step.id, n);
    } else {
      OtherStepFits(w, step, n);
    }
  }

  lemma OtherStepFits(w: World, step: Step, n: Excess)
    requires Sane(w) && Possible(w, step) && Fits(w.control, n) && !step.RemoveQueued?
    ensures Fits(Next(w, step).control, n)
  {
    hide Throttled, Released, Fits, Registered, PassOverAll;
    var c, d := w.control, Next(w, step).control;
    match step
    case Throttle(t) =>
      ThrottledFits(c, t, n);
    case Handle(i) =>
      ReleasedFits(c, w.entries[i].mode, n);
    case Shutdown(ids, cancelAll) =>
      PassIsAside(Disabled(w), ids, cancelAll);
      ShutdownFits(w, ids, cancelAll, n);
    case SkipThrottle(t) =>
      SameCountsFit(c, d, n);
    case AddFails(i) =>
      SameCountsFit(c, d, n);
    case Register(i, now) =>
      RegisteredKeepsCounts(w, i, now);
      SameCountsFit(c, d, n);
    case _ =>
      OnRegisteredIsAside(w, step);
  }

  lemma RegisteredKeepsCounts(w: World, i: nat, now: int)
    requires Sane(w) && i < |w.control.admitted|
    ensures var c, d := w.control, Registered(w, i, now).control;
            d.queues == c.queues && d.passed == c.passed && d.released == c.released && d.enabled == c.enabled
  {
  }

  lemma ShutdownFits(w: World, ids: seq<Id>, cancelAll: bool, n: Excess)
    requires Sane(w) && Possible(w, Shutdown(ids, cancelAll))
    ensures Fits(Next(w, Shutdown(ids, cancelAll)).control, n)
  {
    PassIsAside(Disabled(w), ids, cancelAll);
    assert !Next(w, Shutdown(ids, cancelAll)).control.enabled;
  }

  lemma SameCountsFit(c: Control, d: Control, n: Excess)
    requires Fits(c, n)
    requires d.queues == c.queues && d.passed == c.passed && d.released == c.released && d.enabled == c.enabled
    ensures Fits(d, n)
  {
    if d.enabled {
      forall lane | lane in d.queues
        ensures FitsLane(d, lane, n.At(lane))
      {
        assert FitsLane(c, lane, n.At(lane));
      }
    }
  }

  function AfterAll(n: Excess, w: World, steps: seq<Step>): Excess
    requires Sane(w)
  {
    Excess(n.production + Overadmissions(w, steps, ProductionLane), n.evaluation + Overadmissions(w, steps, EvaluationLane))
  }

  lemma {:induction false} RunFits(w: World, steps: seq<Step>, n: Excess)
    requires Sane(w) && Fits(w.control, n)
    ensures Run(w, steps).Some? ==> Fits(Run(w, steps).value.control, AfterAll(n, w, steps))
    decreases |steps|
  {
    hide Fits, Next, Possible, Overadmission;
    if steps != [] && Possible(w, steps[0]) {
      StepFits(w, steps[0], n);
      RunFits(Next(w, steps[0]), steps[1..], After(n, w, steps[0]));
    }
  }

  function NoExcess(): Excess {
    Excess(0, 0)
  }

  lemma InUseIsHeld(w: World, lane: Lane)
    requires Balanced(w) && w.regular
    ensures InUse(w.control, lane) == Held(w, lane)
  {
    assert BalancedAt(w, Trigger) && BalancedAt(w, Webhook) && BalancedAt(w, Evaluation);
  }

  /** While concurrency control is enabled, a lane never holds more slots than its limit plus one
      for each time that one of its waiting adds was removed while another one waited; and an add
      waits only while every slot of its lane is held. */
  lemma LimitHoldsOnEveryRun(w: World, steps: seq<Step>, lane: Lane)
    requires Sane(w) && Initial(w) && Run(w, steps).Some?
    requires Run(w, steps).value.control.enabled && lane in Run(w, steps).value.control.queues
    ensures var r := Run(w, steps).value;
            var q := r.control.queues[lane];
            && Held(r, lane) <= q.limit + Overadmissions(w, steps, lane)
            && (q.waiting != [] ==> Held(r, lane) >= q.limit)
            && (Overadmissions(w, steps, lane) == 0 && q.waiting != [] ==> Held(r, lane) == q.limit)
  {
    var r := Run(w, steps).value;
    InitialFits(w);
    RunFits(w, steps, NoExcess());
    SlotsBalanceOnEveryRun(w, steps);
    InUseIsHeld(r, lane);
    assert FitsLane(r.control, lane, AfterAll(NoExcess(), w, steps).At(lane));
  }

  lemma InitialFits(w: World)
    requires Initial(w)
    ensures Fits(w.control, NoExcess())
  {
    forall lane | lane in w.control.queues
      ensures FitsLane(w.control, lane, 0)
    {
    }
  }

  /** Removing a waiting add raises the slots held by its lane by one if another add waits, which
      is admitted although no slot was given back, and leaves them as they are otherwise. */
  lemma RemovalAdmitsNext(w: World, m: Mode, id: Id)
    requires Sane(w) && w.regular && Balanced(w) && OwnLanes(w.control) && Queued(w.control, m)
    requires exists t :: t in w.control.queues[LaneOf(m).value].waiting && t.id == id
    ensures var lane := LaneOf(m).value;
            Held(Next(w, RemoveQueued(m, id)), lane) == Held(w, lane) + if |w.control.queues[lane].waiting| == 1 then 0 else 1
  {
    var lane := LaneOf(m).value;
    RemovedEffect(w.control, m, id, lane);
    var r := Next(w, RemoveQueued(m, id));
    forall m'
      ensures BalancedAt(r, m')
    {
      assert BalancedAt(w, m');
      StepKeepsBalance(w, RemoveQueued(m, id), m');
    }
    hide Held, InUse, BalancedAt;
    InUseIsHeld(w, lane);
    InUseIsHeld(r, lane);
  }

  /** In every run, stopping a queued execution finds its lane at its limit or beyond, and keeps it
      within the limit exactly if it was at the limit and the stopped one was the only one waiting. */
  lemma RemovalOveradmits(w: World, steps: seq<Step>, m: Mode, id: Id)
    requires Sane(w) && Initial(w) && Run(w, steps).Some? && Queued(Run(w, steps).value.control, m)
    requires exists t :: t in Run(w, steps).value.control.queues[LaneOf(m).value].waiting && t.id == id
    ensures var r := Run(w, steps).value;
            var lane := LaneOf(m).value;
            var q := r.control.queues[lane];
            && Held(r, lane) >= q.limit
            && (Held(Next(r, RemoveQueued(m, id)), lane) <= q.limit <==> Held(r, lane) == q.limit && |q.waiting| == 1)
            && (Held(Next(r, RemoveQueued(m, id)), lane) == Held(r, lane) <==> |q.waiting| == 1)
  {
    var r := Run(w, steps).value;
    LimitHoldsOnEveryRun(w, steps, LaneOf(m).value);
    InitialFits(w);
    RunFits(w, steps, NoExcess());
    FitsMeansOwnLanes(r.control, AfterAll(NoExcess(), w, steps));
    SlotsBalanceOnEveryRun(w, steps);
    hide Held, BalancedAt, Run, Initial, RemovedFromQueue;
    RemovalAdmitsNext(r, m, id);
  }

  lemma ThrottleOfLane(c: Control, t: Ticket, lane: Lane)
    requires c.enabled && lane in c.queues && LaneOf(t.mode) == Some(lane)
    ensures var d := Throttled(c, t);
            && d.enabled && lane in d.queues && d.queues[lane].limit == c.queues[lane].limit
            && d.queues[lane].capacity == c.queues[lane].capacity - 1
            && d.queues[lane].waiting == c.queues[lane].waiting + if c.queues[lane].capacity < 1 then [t] else []
  {
  }

  /** With a limit of one, three adds leave two waiting; removing one of these exceeds the limit. */
  lemma RemovalExceedsLimit(w: World, lane: Lane, a: Ticket, b: Ticket, c: Ticket)
    requires Sane(w) && Initial(w) && w.control.enabled && lane in w.control.queues && w.control.queues[lane].limit == 1
    requires LaneOf(a.mode) == LaneOf(b.mode) == LaneOf(c.mode) == Some(lane)
    ensures var r := Run(w, [Throttle(a), Throttle(b), Throttle(c)]);
            && r.Some? && Queued(r.value.control, b.mode)
            && r.value.control.queues[lane].waiting == [b, c]
            && Held(r.value, lane) == 1 && Held(Next(r.value, RemoveQueued(b.mode, b.id)), lane) == 2
  {
    var steps := [Throttle(a), Throttle(b), Throttle(c)];
    ThrottleOfLane(w.control, a, lane);
    ThrottleOfLane(Throttled(w.control, a), b, lane);
    ThrottleOfLane(Throttled(Throttled(w.control, a), b), c, lane);
    var r := RunOfThree(w, a, b, c);
    hide Throttled, Next, Run, Held, BalancedAt;
    var waiting := r.control.queues[lane].waiting;
    assert waiting == [b, c] && waiting[0] in waiting;
    InitialFits(w);
    RunFits(w, steps, NoExcess());
    NoRemovals(w, steps, lane);
    LimitHoldsOnEveryRun(w, steps, lane);
    FitsMeansOwnLanes(r.control, AfterAll(NoExcess(), w, steps));
    SlotsBalanceOnEveryRun(w, steps);
    RemovalAdmitsNext(r, b.mode, b.id);
  }

  lemma RunOfThree(w: World, a: Ticket, b: Ticket, c: Ticket) returns (r: World)
    requires Sane(w)
    ensures Run(w, [Throttle(a), Throttle(b), Throttle(c)]) == Some(r)
    ensures r == w.(control := Throttled(Throttled(Throttled(w.control, a), b), c))
  {
    hide Throttled;
    var one := Next(w, Throttle(a));
    var two := Next(one, Throttle(b));
    r := Next(two, Throttle(c));
    assert [Throttle(a), Throttle(b), Throttle(c)][1..] == [Throttle(b), Throttle(c)];
    assert [Throttle(b), Throttle(c)][1..] == [Throttle(c)] && [Throttle(c)][1..] == [];
    assert Run(r, []) == Some(r);
    assert Run(two, [Throttle(c)]) == Some(r);
    assert Run(one, [Throttle(b), Throttle(c)]) == Some(r);
  }

  lemma {:induction false} NoRemovals(w: World, steps: seq<Step>, lane: Lane)
    requires Sane(w) && forall step :: step in steps ==> !step.RemoveQueued?
    ensures Overadmissions(w, steps, lane) == 0
    decreases |steps|
  {
    if steps != [] && Possible(w, steps[0]) {
      assert steps[0] in steps && forall step :: step in steps[1..] ==> step in steps;
      NoRemovals(Next(w, steps[0]), steps[1..], lane);
    }
  }
}
