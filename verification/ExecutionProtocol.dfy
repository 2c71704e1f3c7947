/**
 The registry of active executions as a state machine. Each step is the code between two
 `await`s, so a run is one interleaving of the adds, stops, finalizations, status changes and
 settlement handlers of any number of executions.
 */
module ExecutionProtocol {
  import opened Wrappers

  type Id = string

  datatype Mode = Cli | Error | Integrated | Internal | Manual | Retry | Trigger | Webhook | Evaluation

  datatype Status = New | Running | Waiting | Canceled | Crashed | Failed | Success | Unknown

  /** A deferred promise; the run data of a resolution is opaque. */
  datatype Outcome = Pending | Resolved(run: Option<int>) | Rejected

  /** Only the first settlement of a promise counts. */
  function Settle(old_: Outcome, new_: Outcome): Outcome {
    if old_.Pending? then new_ else old_
  }

  /** The record of one `add`. `attached` is the workflow execution attached to it, and `handled`
      says that its settlement handler has run. */
  datatype Entry = Entry(id: Id, mode: Mode, startedAt: int, status: Status, outcome: Outcome,
                         response: Option<nat>, attached: Option<nat>, handled: bool)

  // ---------- concurrency control ----------

  datatype Lane = ProductionLane | EvaluationLane

  function LaneOf(m: Mode): Option<Lane> {
    match m
    case Trigger | Webhook => Some(ProductionLane)
    case Evaluation => Some(EvaluationLane)
    case _ => None
  }

  /** An `add` that called `throttle`. */
  datatype Ticket = Ticket(id: Id, mode: Mode)

  type Tally = map<Mode, nat>

  function Count(tally: Tally, m: Mode): nat {
    if m in tally then tally[m] else 0
  }

  function Plus(tally: Tally, m: Mode): Tally {
    tally[m := Count(tally, m) + 1]
  }

  datatype Queue = Queue(limit: nat, capacity: int, waiting: seq<Ticket>)

  /** A lane without a limit has no queue. `admitted` are the adds past `throttle` and not yet
      registered; the tallies count, per mode, the completed `throttle` calls, the adds that
      skip `throttle`, the `release` calls, and the adds whose database call failed. */
  datatype Control = Control(enabled: bool, queues: map<Lane, Queue>, admitted: seq<Ticket>,
                             passed: Tally, unthrottled: Tally, released: Tally, lost: Tally)

  predicate Queued(c: Control, m: Mode) {
    c.enabled && LaneOf(m).Some? && LaneOf(m).value in c.queues
  }

  function Admit(c: Control, t: Ticket): Control {
    c.(admitted := c.admitted + [t], passed := Plus(c.passed, t.mode))
  }

  function Throttled(c: Control, t: Ticket): Control {
    if !Queued(c, t.mode) then Admit(c, t) else
      var lane := LaneOf(t.mode).value;
      var q := c.queues[lane];
      if q.capacity - 1 < 0 then
        c.(queues := c.queues[lane := q.(capacity := q.capacity - 1, waiting := q.waiting + [t])])
      else
        Admit(c.(queues := c.queues[lane := q.(capacity := q.capacity - 1)]), t)
  }

  /** A slot is given back, and goes to the add that waits longest, if any. */
  function FreeSlot(c: Control, lane: Lane): Control
    requires lane in c.queues
  {
    var q := c.queues[lane];
    if q.waiting == [] then
      c.(queues := c.queues[lane := q.(capacity := q.capacity + 1)])
    else
      Admit(c.(queues := c.queues[lane := q.(capacity := q.capacity + 1, waiting := q.waiting[1..])]), q.waiting[0])
  }

  function Released(c: Control, m: Mode): (r: Control)
    ensures r.enabled == c.enabled
  {
    var c' := c.(released := Plus(c.released, m));
    if Queued(c', m) then FreeSlot(c', LaneOf(m).value) else c'
  }

  function IndexOf(ts: seq<Ticket>, id: Id): (i: nat)
    ensures i <= |ts| && (i < |ts| ==> ts[i].id == id)
    ensures forall j :: 0 <= j < i ==> ts[j].id != id
  {
    if ts == [] || ts[0].id == id then 0 else 1 + IndexOf(ts[1..], id)
  }

  function Without<T>(s: seq<T>, i: nat): seq<T>
    requires i < |s|
  {
    s[..i] + s[i + 1..]
  }

  function RemovedFromQueue(c: Control, m: Mode, id: Id): Control {
    if !Queued(c, m) then c else
      var lane := LaneOf(m).value;
      var q := c.queues[lane];
      var i := IndexOf(q.waiting, id);
      if i == |q.waiting| then c
      else FreeSlot(c.(queues := c.queues[lane := q.(waiting := Without(q.waiting, i))]), lane)
  }

  // ---------- the registry ----------

  /** `active` maps an id to the index of its entry; `responses` holds the settled response promises,
      and `cancelled` the workflow executions that were cancelled. */
  datatype World = World(regular: bool, entries: seq<Entry>, active: map<Id, nat>,
                         responses: map<nat, Outcome>, cancelled: set<nat>, control: Control)

  datatype Step =
    | Throttle(ticket: Ticket)              // an add calls throttle
    | SkipThrottle(ticket: Ticket)          // a new execution in queue mode does not
    | AddFails(i: nat)                      // the database call after throttle fails
    | Register(i: nat, now: int)            // the rest of add, after its last await
    | Handle(i: nat)                        // the `finally` of a settled post-execution promise
    | Stop(id: Id)
    | Finalize(id: Id, run: Option<int>)
    | SetStatus(id: Id, status: Status)
    | AttachExecution(id: Id, execution: nat)
    | AttachResponse(id: Id, promise: nat)
    | ResolveResponse(id: Id, run: Option<int>)
    | RemoveQueued(mode: Mode, id: Id)      // a queued execution is stopped before it runs
    | Shutdown(ids: seq<Id>, cancelAll: bool)

  predicate Possible(w: World, step: Step) {
    match step
    case SkipThrottle(_) => !w.regular
    case AddFails(i) => i < |w.control.admitted|
    case Register(i, _) => i < |w.control.admitted|
    case Handle(i) => i < |w.entries| && !w.entries[i].outcome.Pending? && !w.entries[i].handled
    case Shutdown(ids, _) => Lists(ids, w.active)
    case _ => true
  }

  predicate Lists(ids: seq<Id>, active: map<Id, nat>) {
    && (forall i, j :: 0 <= i < j < |ids| ==> ids[i] != ids[j])
    && (forall id :: id in ids ==> id in active)
    && (forall id :: id in active ==> id in ids)
  }

  predicate Sane(w: World) {
    && (forall id :: id in w.active ==> w.active[id] < |w.entries| && w.entries[w.active[id]].id == id)
    && (w.control.enabled ==> w.regular)
  }

  function Current(w: World, id: Id): Entry
    requires Sane(w) && id in w.active
  {
    w.entries[w.active[id]]
  }

  function Update(w: World, id: Id, e: Entry): (r: World)
    requires Sane(w) && id in w.active && e.id == id
    ensures Sane(r)
  {
    w.(entries := w.entries[w.active[id] := e])
  }

  function SettleResponse(w: World, response: Option<nat>, outcome: Outcome): (r: World)
    ensures r.entries == w.entries && r.active == w.active && r.control == w.control && r.regular == w.regular
  {
    if response.None? || response.value in w.responses then w
    else w.(responses := w.responses[response.value := outcome])
  }

  function Registered(w: World, i: nat, now: int): (r: World)
    requires Sane(w) && i < |w.control.admitted|
    ensures Sane(r)
  {
    var t := w.control.admitted[i];
    var resuming := t.id in w.active;
    var e := Entry(t.id, t.mode, if resuming then Current(w, t.id).startedAt else now, Running, Pending,
                   if resuming then Current(w, t.id).response else None, None, false);
    w.(entries := w.entries + [e], active := w.active[t.id := |w.entries|],
       control := w.control.(admitted := Without(w.control.admitted, i)))
  }

  function Handled(w: World, i: nat): (r: World)
    requires Sane(w) && i < |w.entries|
    ensures Sane(r)
  {
    var e := w.entries[i];
    w.(control := Released(w.control, e.mode), entries := w.entries[i := AfterHandler(e)],
       active := if e.status.Waiting? then w.active else w.active - {e.id})
  }

  /** A waiting entry stays, without its workflow execution. */
  function AfterHandler(e: Entry): Entry {
    if e.status.Waiting? then e.(attached := None, handled := true) else e.(handled := true)
  }

  function Stopped(w: World, id: Id): (r: World)
    requires Sane(w)
    ensures Sane(r)
  {
    if id !in w.active then w else
      var e := Current(w, id);
      if e.status.Waiting? then SettleResponse(w, e.response, Rejected).(active := w.active - {id})
      else Update(Interrupted(w, e), id, e.(outcome := Settle(e.outcome, Rejected)))
  }

  /** The response promise is rejected and the attached workflow execution cancelled. */
  function Interrupted(w: World, e: Entry): (r: World)
    ensures r.entries == w.entries && r.active == w.active && r.control == w.control && r.regular == w.regular
  {
    var w' := SettleResponse(w, e.response, Rejected);
    if e.attached.Some? then w'.(cancelled := w'.cancelled + {e.attached.value}) else w'
  }

  /** What a stop does to the registry: a waiting entry goes, any other has its promise rejected. */
  lemma StoppedIs(w: World, id: Id)
    requires Sane(w)
    ensures var r := Stopped(w, id);
            && r.control == w.control && r.regular == w.regular
            && if id !in w.active then r == w
               else if Current(w, id).status.Waiting? then r.entries == w.entries && r.active == w.active - {id}
               else
                 && r.entries == w.entries[w.active[id] := Current(w, id).(outcome := Settle(Current(w, id).outcome, Rejected))]
                 && r.active == w.active
  {
    hide Settle, SettleResponse, Interrupted;
  }

  /** Executions with a response promise are cancelled, and all of them on request. */
  predicate Cancels(w: World, e: Entry, cancelAll: bool) {
    e.response.Some? || (w.regular && cancelAll)
  }

  /** One turn of the first loop of `shutdown`. */
  function PassOver(w: World, id: Id, cancelAll: bool): World
    requires Sane(w) && id in w.active
  {
    var e := Current(w, id);
    if Cancels(w, e, cancelAll) then Stopped(w, id)
    else if e.status.Waiting? || e.status.New? then w.(active := w.active - {id})
    else w
  }

  lemma PassOverOthers(w: World, id: Id, cancelAll: bool)
    requires Sane(w) && id in w.active
    ensures Sane(PassOver(w, id, cancelAll))
    ensures forall other :: other in w.active && other != id ==>
              && other in PassOver(w, id, cancelAll).active
              && PassOver(w, id, cancelAll).active[other] == w.active[other]
              && Current(PassOver(w, id, cancelAll), other) == Current(w, other)
  {
    StoppedOthers(w, id);
  }

  lemma StoppedOthers(w: World, id: Id)
    requires Sane(w) && id in w.active
    ensures forall other :: other in w.active && other != id ==>
              && other in Stopped(w, id).active
              && Stopped(w, id).active[other] == w.active[other]
              && Current(Stopped(w, id), other) == Current(w, other)
  {
    StoppedIs(w, id);
    hide Stopped, Settle;
  }

  function PassOverAll(w: World, ids: seq<Id>, cancelAll: bool): (r: World)
    requires Sane(w)
    requires forall i, j :: 0 <= i < j < |ids| ==> ids[i] != ids[j]
    requires forall id :: id in ids ==> id in w.active
    ensures Sane(r)
    decreases |ids|
  {
    if ids == [] then w else
      PassOverOthers(w, ids[0], cancelAll);
      PassOverAll(PassOver(w, ids[0], cancelAll), ids[1..], cancelAll)
  }

  function Disabled(w: World): World {
    if w.regular then w.(control := w.control.(enabled := false)) else w
  }

  function Next(w: World, step: Step): (r: World)
    requires Sane(w) && Possible(w, step)
    ensures Sane(r)
  {
    match step
    case Throttle(t) => w.(control := Throttled(w.control, t))
    case SkipThrottle(t) =>
      w.(control := w.control.(admitted := w.control.admitted + [t], unthrottled := Plus(w.control.unthrottled, t.mode)))
    case AddFails(i) =>
      w.(control := w.control.(admitted := Without(w.control.admitted, i),
                               lost := Plus(w.control.lost, w.control.admitted[i].mode)))
    case Register(i, now) => Registered(w, i, now)
    case Handle(i) => Handled(w, i)
    case Stop(id) => Stopped(w, id)
    case Finalize(id, run) =>
      if id !in w.active then w
      else Update(w, id, Current(w, id).(outcome := Settle(Current(w, id).outcome, Resolved(run))))
    case SetStatus(id, status) =>
      if id !in w.active then w else Update(w, id, Current(w, id).(status := status))
    case AttachExecution(id, execution) =>
      if id !in w.active then w else Update(w, id, Current(w, id).(attached := Some(execution)))
    case AttachResponse(id, promise) =>
      if id !in w.active then w else Update(w, id, Current(w, id).(response := Some(promise)))
    case ResolveResponse(id, run) =>
      if id !in w.active then w else SettleResponse(w, Current(w, id).response, Resolved(run))
    case RemoveQueued(m, id) => w.(control := RemovedFromQueue(w.control, m, id))
    case Shutdown(ids, cancelAll) => PassOverAll(Disabled(w), ids, cancelAll)
  }

  // ---------- runs ----------

  /** The state after a run, or nothing if some step is not possible where it stands. */
  function Run(w: World, steps: seq<Step>): (r: Option<World>)
    requires Sane(w)
    ensures r.Some? ==> Sane(r.value)
    decreases |steps|
  {
    if steps == [] then Some(w)
    else if !Possible(w, steps[0]) then None
    else Run(Next(w, steps[0]), steps[1..])
  }

  predicate Initial(w: World) {
    && w.entries == [] && w.active == map[] && w.cancelled == {} && w.control.admitted == []
    && w.control.passed == w.control.unthrottled == w.control.released == w.control.lost == map[]
    && (w.control.enabled ==> w.regular)
    && (forall lane :: lane in w.control.queues ==>
          var q := w.control.queues[lane]; q.limit > 0 && q.capacity == q.limit && q.waiting == [])
  }
}
