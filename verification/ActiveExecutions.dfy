/**
 The registry itself: a dictionary of shared execution records, updated in place. Each method is
 one piece of code between two `await`s and takes the step of the protocol it is named after.
 */
module ActiveExecutionsService {
  import opened Wrappers
  import opened ExecutionProtocol
  import opened ExecutionShutdown
  import opened ExecutionFairness

  /** The record that `add` creates; the dictionary, its settlement handler and the callers of
      `getExecutionOrFail` share it. */
  class Execution {
    const id: Id
    const mode: Mode
    const startedAt: int
    var status: Status
    var outcome: Outcome
    var response: Option<nat>
    var attached: Option<nat>
    // whether the settlement handler has run
    ghost var handled: bool
    // its position among all the records ever created
    ghost const index: nat

    constructor (id: Id, mode: Mode, startedAt: int, response: Option<nat>, ghost index: nat)
      ensures View() == Entry(id, mode, startedAt, Running, Pending, response, None, false)
      ensures this.id == id && this.index == index
    {
      this.id := id;
      this.mode := mode;
      this.startedAt := startedAt;
      this.status := Running;
      this.outcome := Pending;
      this.response := response;
      this.attached := None;
      this.handled := false;
      this.index := index;
    }

    ghost function View(): Entry
      reads this
    {
      Entry(id, mode, startedAt, status, outcome, response, attached, handled)
    }
  }

  /** `findIndex`; the length of the queue if nothing is found. */
  method FindIndex(waiting: seq<Ticket>, id: Id) returns (index: nat)
    ensures index == IndexOf(waiting, id)
  {
    index := 0;
    while index < |waiting| && waiting[index].id != id
      invariant index <= |waiting|
      invariant IndexOf(waiting, id) == index + IndexOf(waiting[index..], id)
    {
      assert waiting[index..][1..] == waiting[index + 1..];
      index := index + 1;
    }
  }

  class ActiveExecutions {
    const regular: bool
    var activeExecutions: map<Id, Execution>
    var responses: map<nat, Outcome>
    var cancelled: set<nat>
    var control: Control
    // every record ever created, registered or not
    ghost var all: seq<Execution>

    constructor (regular: bool, control: Control)
      requires control.enabled ==> regular
      requires control.admitted == []
      ensures Valid()
      ensures View() == World(regular, [], map[], map[], {}, control)
    {
      this.regular := regular;
      this.activeExecutions := map[];
      this.responses := map[];
      this.cancelled := {};
      this.control := control;
      this.all := [];
    }

    ghost function Entries(): seq<Entry>
      reads this, all
    {
      seq(|all|, i requires 0 <= i < |all| reads this, all => all[i].View())
    }

    ghost function View(): World
      reads this, all
    {
      World(regular, Entries(), map id | id in activeExecutions :: activeExecutions[id].index, responses, cancelled, control)
    }

    ghost predicate Valid()
      reads this, all
      ensures Valid() ==> Sane(View())
    {
      && (forall i :: 0 <= i < |all| ==> all[i].index == i)
      && (forall id :: id in activeExecutions ==> activeExecutions[id] in all && activeExecutions[id].id == id)
      && (control.enabled ==> regular)
    }

    // ---------- concurrency control ----------

    /** `throttle`, and `enqueue` where the mode has a limit: an add beyond the capacity waits. */
    method Throttle(t: Ticket)
      requires Valid()
      modifies this`control
      ensures Valid() && View() == Next(old(View()), Step.Throttle(t))
      ensures Queued(old(control), t.mode) && old(control).queues[LaneOf(t.mode).value].capacity <= 0 ==>
                && control.admitted == old(control).admitted && LaneOf(t.mode).value in control.queues
                && control.queues[LaneOf(t.mode).value].waiting == old(control).queues[LaneOf(t.mode).value].waiting + [t]
      ensures !Queued(old(control), t.mode) || old(control).queues[LaneOf(t.mode).value].capacity > 0 ==>
                control.admitted == old(control).admitted + [t]
    {
      if !control.enabled || LaneOf(t.mode).None? || LaneOf(t.mode).value !in control.queues {
        Resolve(t);
        return;
      }
      var lane := LaneOf(t.mode).value;
      var queue := control.queues[lane];
      queue := queue.(capacity := queue.capacity - 1);
      if queue.capacity < 0 {
        queue := queue.(waiting := queue.waiting + [t]);
        control := control.(queues := control.queues[lane := queue]);
      } else {
        control := control.(queues := control.queues[lane := queue]);
        Resolve(t);
      }
    }

    /** The promise of `throttle` resolves. */
    method Resolve(t: Ticket)
      modifies this`control
      ensures control == Admit(old(control), t)
    {
      control := control.(admitted := control.admitted + [t], passed := Plus(control.passed, t.mode));
    }

    /** A slot is given back, and goes to the add that waits longest, if any. */
    method Dequeue(lane: Lane)
      requires lane in control.queues
      modifies this`control
      ensures control == FreeSlot(old(control), lane) && HandsOver(old(control), control, lane)
    {
      FreeSlotHandsOver(control, lane);
      var queue := control.queues[lane];
      queue := queue.(capacity := queue.capacity + 1);
      if queue.waiting == [] {
        control := control.(queues := control.queues[lane := queue]);
      } else {
        var item := queue.waiting[0];
        queue := queue.(waiting := queue.waiting[1..]);
        control := control.(queues := control.queues[lane := queue]);
        Resolve(item);
      }
    }

    /** `release`: an execution gives its slot back. The add that waits longest gets it. */
    method Release(mode: Mode)
      requires Valid()
      modifies this`control
      ensures Valid() && View() == old(View()).(control := Released(old(control), mode))
      ensures Queued(old(control), mode) ==>
                ServesFirst(old(control), control, LaneOf(mode).value, old(control).queues[LaneOf(mode).value].waiting)
      ensures !Queued(old(control), mode) ==> control.admitted == old(control).admitted && control.queues == old(control).queues
    {
      control := control.(released := Plus(control.released, mode));
      if control.enabled && LaneOf(mode).Some? && LaneOf(mode).value in control.queues {
        Dequeue(LaneOf(mode).value);
      }
    }

    /** `remove`: a queued execution is stopped before it runs, and the first of the others is served. */
    method RemoveQueued(mode: Mode, id: Id)
      requires Valid()
      modifies this`control
      ensures Valid() && View() == Next(old(View()), Step.RemoveQueued(mode, id))
      ensures Queued(old(control), mode) && (exists t :: t in old(control).queues[LaneOf(mode).value].waiting && t.id == id) ==>
                ServesFirst(old(control), control, LaneOf(mode).value,
                            LessFirst(old(control).queues[LaneOf(mode).value].waiting, id))
    {
      ghost var w := View();
      if Queued(control, mode) && exists t :: t in control.queues[LaneOf(mode).value].waiting && t.id == id {
        RemovalServesRest(control, mode, id);
      }
      hide RemovedFromQueue, ServesFirst, LessFirst;
      RemoveFromLane(mode, id);
      assert Entries() == w.entries && View().active == w.active;
    }

    method RemoveFromLane(mode: Mode, id: Id)
      modifies this`control
      ensures control == RemovedFromQueue(old(control), mode, id)
    {
      if !control.enabled || LaneOf(mode).None? || LaneOf(mode).value !in control.queues {
        return;
      }
      var lane := LaneOf(mode).value;
      var index := FindIndex(control.queues[lane].waiting, id);
      hide FreeSlot, IndexOf, HandsOver;
      if index < |control.queues[lane].waiting| {
        CutOut(lane, index);
        Dequeue(lane);
      }
    }

    method CutOut(lane: Lane, index: nat)
      requires lane in control.queues && index < |control.queues[lane].waiting|
      modifies this`control
      ensures var queue := old(control).queues[lane];
              control == old(control).(queues := old(control).queues[lane := queue.(waiting := Without(queue.waiting, index))])
    {
      var queue := control.queues[lane];
      queue := queue.(waiting := queue.waiting[..index] + queue.waiting[index + 1..]);
      control := control.(queues := control.queues[lane := queue]);
    }

    // ---------- adding ----------

    /** A new execution throttles in regular mode only. */
    method BeginNew(t: Ticket)
      requires Valid()
      modifies this`control
      ensures Valid() && View() == Next(old(View()), if regular then Step.Throttle(t) else SkipThrottle(t))
    {
      if regular {
        Throttle(t);
      } else {
        control := control.(admitted := control.admitted + [t], unthrottled := Plus(control.unthrottled, t.mode));
      }
    }

    /** A resumed execution always throttles. */
    method BeginExisting(t: Ticket)
      requires Valid()
      modifies this`control
      ensures Valid() && View() == Next(old(View()), Step.Throttle(t))
    {
      Throttle(t);
    }

    /** The record is stored under its id. */
    method Insert(execution: Execution)
      requires Valid() && execution.index == |all|
      modifies this`activeExecutions, this`all
      ensures Valid() && all == old(all) + [execution] && activeExecutions == old(activeExecutions)[execution.id := execution]
      ensures View() == old(View()).(entries := old(Entries()) + [execution.View()],
                                     active := old(View()).active[execution.id := |old(Entries())|])
    {
      ghost var w := View();
      activeExecutions := activeExecutions[execution.id := execution];
      all := all + [execution];
      assert Entries() == w.entries + [execution.View()];
      assert View().active == w.active[execution.id := |w.entries|];
    }

    /** The entry of `id` goes, its record stays with those who hold it. */
    method Delete(id: Id)
      requires Valid()
      modifies this`activeExecutions
      ensures Valid() && View() == old(View()).(active := old(View()).active - {id})
      ensures activeExecutions == old(activeExecutions) - {id}
    {
      ghost var w := View();
      activeExecutions := activeExecutions - {id};
      assert Entries() == w.entries;
      assert View().active == w.active - {id};
    }

    /** The database call after `throttle` throws: the slot is lost. */
    method FailAdd(i: nat)
      requires Valid() && i < |control.admitted|
      modifies this`control
      ensures Valid() && View() == Next(old(View()), AddFails(i))
    {
      control := control.(admitted := Without(control.admitted, i),
                          lost := Plus(control.lost, control.admitted[i].mode));
    }

    /** The end of `add`, after its last `await`. */
    method FinishAdd(i: nat, now: int) returns (execution: Execution)
      requires Valid() && i < |control.admitted|
      modifies this
      ensures Valid() && View() == Registered(old(View()), i, now)
      ensures all == old(all) + [execution] && fresh(execution)
      ensures var t := old(control).admitted[i];
              && activeExecutions == old(activeExecutions)[t.id := execution] && execution.mode == t.mode
              && execution.status == Running && execution.outcome == Pending
    {
      var t := control.admitted[i];
      var startedAt, response := now, None;
      if t.id in activeExecutions {
        startedAt := activeExecutions[t.id].startedAt;
        response := activeExecutions[t.id].response;
      }
      execution := new Execution(t.id, t.mode, startedAt, response, |all|);
      TakeTicket(i);
      Insert(execution);
    }

    method TakeTicket(i: nat)
      requires Valid() && i < |control.admitted|
      modifies this`control
      ensures Valid()
      ensures View() == old(View()).(control := old(control).(admitted := Without(old(control).admitted, i)))
    {
      control := control.(admitted := Without(control.admitted, i));
    }

    method Disable()
      requires Valid()
      modifies this`control
      ensures Valid() && View() == Disabled(old(View())) && !control.enabled
    {
      if regular {
        control := control.(enabled := false);
      }
    }

    /** The `finally` of the post-execution promise of `execution`. */
    method OnSettled(execution: Execution)
      requires Valid() && execution in all
      requires !execution.outcome.Pending? && !execution.handled
      modifies this, execution
      ensures Valid() && View() == Handled(old(View()), execution.index) && all == old(all)
      ensures activeExecutions == if execution.status == Waiting then old(activeExecutions) else old(activeExecutions) - {execution.id}
    {
      Release(execution.mode);
      MarkHandled(execution);
      if execution.status != Waiting {
        Delete(execution.id);
      }
    }

    method MarkHandled(execution: Execution)
      requires Valid() && execution in all
      modifies execution`attached, execution`handled
      ensures Valid()
      ensures View() == old(View()).(entries := old(Entries())[execution.index := AfterHandler(old(Entries())[execution.index])])
    {
      ghost var entries := Entries();
      if execution.status == Waiting {
        execution.attached := None;
      }
      execution.handled := true;
      assert Entries() == entries[execution.index := execution.View()];
    }

    method StopExecution(id: Id)
      requires Valid()
      modifies this, all
      ensures Valid() && View() == Stopped(old(View()), id) && all == old(all)
      ensures id in old(activeExecutions) ==>
                var execution := old(activeExecutions)[id];
                && (old(execution.status) == Waiting ==> id !in activeExecutions && execution.outcome == old(execution.outcome))
                && (old(execution.status) != Waiting ==>
                      && id in activeExecutions && activeExecutions[id] == execution
                      && execution.outcome == if old(execution.outcome).Pending? then Rejected else old(execution.outcome))
    {
      if id !in activeExecutions {
        return;
      }
      var execution := activeExecutions[id];
      SettleResponsePromise(execution.response, Rejected);
      if execution.status == Waiting {
        Delete(id);
      } else {
        CancelAttached(execution);
        SettlePromise(execution, Rejected);
      }
    }

    method CancelAttached(execution: Execution)
      requires Valid()
      modifies this`cancelled
      ensures Valid()
      ensures View() == if execution.attached.None? then old(View())
                        else old(View()).(cancelled := old(cancelled) + {execution.attached.value})
    {
      if execution.attached.Some? {
        cancelled := cancelled + {execution.attached.value};
      }
    }

    method SettleResponsePromise(response: Option<nat>, outcome: Outcome)
      requires Valid()
      modifies this`responses
      ensures Valid() && View() == SettleResponse(old(View()), response, outcome)
    {
      if response.Some? && response.value !in responses {
        responses := responses[response.value := outcome];
      }
    }

    /** Only the first settlement of the promise counts. */
    method SettlePromise(execution: Execution, outcome: Outcome)
      requires Valid() && execution in all
      modifies execution`outcome
      ensures Valid()
      ensures var e := old(Entries())[execution.index];
              View() == old(View()).(entries := old(Entries())[execution.index := e.(outcome := Settle(e.outcome, outcome))])
    {
      ghost var entries := Entries();
      execution.outcome := Settle(execution.outcome, outcome);
      assert Entries() == entries[execution.index := execution.View()];
    }

    method FinalizeExecution(id: Id, run: Option<int>)
      requires Valid()
      modifies all
      ensures Valid() && View() == Next(old(View()), Finalize(id, run))
      ensures id in activeExecutions ==>
                var execution := activeExecutions[id];
                execution.outcome == if old(execution.outcome).Pending? then Resolved(run) else old(execution.outcome)
      ensures forall execution :: execution in all && execution.id != id ==> execution.outcome == old(execution.outcome)
    {
      if id in activeExecutions {
        SettlePromise(activeExecutions[id], Resolved(run));
      }
    }

    /** `found` is false where the source throws. */
    method SetStatus(id: Id, status: Status) returns (found: bool)
      requires Valid()
      modifies all
      ensures Valid() && View() == Next(old(View()), Step.SetStatus(id, status))
      ensures found == (id in activeExecutions) && (found ==> activeExecutions[id].status == status)
    {
      found := id in activeExecutions;
      if found {
        var execution := activeExecutions[id];
        execution.status := status;
        assert View().entries == old(View()).entries[execution.index := execution.View()];
      }
    }

    method AttachWorkflowExecution(id: Id, workflowExecution: nat) returns (found: bool)
      requires Valid()
      modifies all
      ensures Valid() && View() == Next(old(View()), AttachExecution(id, workflowExecution))
      ensures found == (id in activeExecutions) && (found ==> activeExecutions[id].attached == Some(workflowExecution))
    {
      found := id in activeExecutions;
      if found {
        var execution := activeExecutions[id];
        execution.attached := Some(workflowExecution);
        assert View().entries == old(View()).entries[execution.index := execution.View()];
      }
    }

    method AttachResponsePromise(id: Id, promise: nat) returns (found: bool)
      requires Valid()
      modifies all
      ensures Valid() && View() == Next(old(View()), AttachResponse(id, promise))
      ensures found == (id in activeExecutions) && (found ==> activeExecutions[id].response == Some(promise))
    {
      found := id in activeExecutions;
      if found {
        var execution := activeExecutions[id];
        execution.response := Some(promise);
        assert View().entries == old(View()).entries[execution.index := execution.View()];
      }
    }

    method ResolveResponsePromise(id: Id, run: Option<int>)
      requires Valid()
      modifies this`responses
      ensures Valid() && View() == Next(old(View()), ResolveResponse(id, run))
    {
      if id in activeExecutions {
        SettleResponsePromise(activeExecutions[id].response, Resolved(run));
      }
    }

    /** `ids` lists the keys of the dictionary in its order. The cancelled ids go to `removeAll`, which
        returns at once because concurrency control is disabled by then: `inDatabase`, the
        executions it marks as cancelled, is always empty. */
    method FirstPass(ids: seq<Id>, cancelAll: bool) returns (toCancel: seq<Id>, inDatabase: seq<Id>)
      requires Valid() && Lists(ids, View().active)
      modifies this, all
      ensures Valid() && View() == Next(old(View()), Shutdown(ids, cancelAll)) && all == old(all)
      ensures toCancel == ToCancel(old(View()), ids, cancelAll)
      ensures inDatabase == []
    {
      ghost var w := View();
      Disable();
      SameToCancel(w, View(), ids, cancelAll);
      toCancel := PassLoop(ids, cancelAll);
      inDatabase := if control.enabled then toCancel else [];
    }

    method PassLoop(ids: seq<Id>, cancelAll: bool) returns (toCancel: seq<Id>)
      requires Valid() && Lists(ids, View().active)
      modifies this, all
      ensures Valid() && all == old(all) && control == old(control)
      ensures View() == PassOverAll(old(View()), ids, cancelAll)
      ensures toCancel == ToCancel(old(View()), ids, cancelAll)
    {
      ghost var w := View();
      StartLoop(w, ids, cancelAll);
      toCancel := [];
      for i := 0 to |ids|
        invariant Valid() && all == old(all) && control == old(control)
        invariant InLoop(w, View(), ids, i, cancelAll, toCancel)
      {
        NextTurn(w, View(), ids, i, cancelAll, toCancel);
        var cancelled := PassOverId(ids[i], cancelAll);
        toCancel := toCancel + if cancelled then [ids[i]] else [];
      }
      EndLoop(w, View(), ids, cancelAll, toCancel);
    }

    method PassOverId(id: Id, cancelAll: bool) returns (cancelled: bool)
      requires Valid() && id in View().active
      modifies this, all
      ensures Valid() && all == old(all) && control == old(control)
      ensures View() == PassOver(old(View()), id, cancelAll)
      ensures cancelled == Cancels(old(View()), Current(old(View()), id), cancelAll)
    {
      var execution := activeExecutions[id];
      cancelled := execution.response.Some? || (regular && cancelAll);
      if cancelled {
        StopExecution(id);
      } else if execution.status == Waiting || execution.status == New {
        Delete(id);
      }
    }
  }

  lemma {:induction false} SameToCancel(v: World, r: World, ids: seq<Id>, cancelAll: bool)
    requires Sane(v) && Sane(r) && v.regular == r.regular
    requires forall id :: id in ids ==> id in v.active && id in r.active && Current(v, id) == Current(r, id)
    ensures ToCancel(v, ids, cancelAll) == ToCancel(r, ids, cancelAll)
  {
    if ids != [] {
      SameToCancel(v, r, ids[1..], cancelAll);
    }
  }

  /** The loop of the first pass has visited `ids[..i]`, turning `w` into `v`. */
  ghost predicate InLoop(w: World, v: World, ids: seq<Id>, i: nat, cancelAll: bool, toCancel: seq<Id>)
    requires Sane(w) && Sane(v) && i <= |ids| && Lists(ids, w.active)
  {
    && (forall id :: id in ids[i..] ==> id in v.active)
    && PassOverAll(v, ids[i..], cancelAll) == PassOverAll(w, ids, cancelAll)
    && toCancel + ToCancel(v, ids[i..], cancelAll) == ToCancel(w, ids, cancelAll)
  }

  lemma StartLoop(w: World, ids: seq<Id>, cancelAll: bool)
    requires Sane(w) && Lists(ids, w.active)
    ensures InLoop(w, w, ids, 0, cancelAll, [])
  {
    assert ids[0..] == ids;
  }

  lemma EndLoop(w: World, v: World, ids: seq<Id>, cancelAll: bool, toCancel: seq<Id>)
    requires Sane(w) && Sane(v) && Lists(ids, w.active)
    requires InLoop(w, v, ids, |ids|, cancelAll, toCancel)
    ensures v == PassOverAll(w, ids, cancelAll) && toCancel == ToCancel(w, ids, cancelAll)
  {
    assert ids[|ids|..] == [];
  }

  lemma NextId(v: World, id: Id, rest: seq<Id>, cancelAll: bool)
    requires Sane(v) && id in v.active && id !in rest
    requires forall i, j :: 0 <= i < j < |rest| ==> rest[i] != rest[j]
    requires forall other :: other in rest ==> other in v.active
    ensures var r := PassOver(v, id, cancelAll);
            && (forall other :: other in rest ==> other in r.active)
            && PassOverAll(v, [id] + rest, cancelAll) == PassOverAll(r, rest, cancelAll)
            && ToCancel(v, [id] + rest, cancelAll)
               == (if Cancels(v, Current(v, id), cancelAll) then [id] else []) + ToCancel(r, rest, cancelAll)
  {
    PassOverOthers(v, id, cancelAll);
    PassOverOne(v, id, cancelAll);
    SameToCancel(v, PassOver(v, id, cancelAll), rest, cancelAll);
    assert ([id] + rest)[0] == id && ([id] + rest)[1..] == rest;
  }

  lemma NextTurn(w: World, v: World, ids: seq<Id>, i: nat, cancelAll: bool, toCancel: seq<Id>)
    requires Sane(w) && Sane(v) && i < |ids| && Lists(ids, w.active)
    requires InLoop(w, v, ids, i, cancelAll, toCancel)
    ensures ids[i] in v.active
    ensures var more := if Cancels(v, Current(v, ids[i]), cancelAll) then [ids[i]] else [];
            InLoop(w, PassOver(v, ids[i], cancelAll), ids, i + 1, cancelAll, toCancel + more)
  {
    var id, rest := ids[i], ids[i + 1..];
    assert ids[i..] == [id] + rest;
    assert id in ids[i..] && forall other :: other in rest ==> other in ids[i..];
    NextId(v, id, rest, cancelAll);
    var more := if Cancels(v, Current(v, id), cancelAll) then [id] else [];
    Regroup(toCancel, more, ToCancel(PassOver(v, id, cancelAll), rest, cancelAll));
  }

  lemma Regroup(a: seq<Id>, b: seq<Id>, c: seq<Id>)
    ensures a + (b + c) == (a + b) + c
  {
  }
}
