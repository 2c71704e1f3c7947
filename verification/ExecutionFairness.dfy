/**
 The order in which a concurrency lane admits adds: first in, first out, over every run.
 */
module ExecutionFairness {
  import opened Wrappers
  import opened ExecutionProtocol
  import opened ExecutionProperties

  // ---------- one hand-over ----------

  /** The adds that `admitted` gains at its end. */
  function Gained(c: Control, d: Control): seq<Ticket> {
    if |c.admitted| <= |d.admitted| then d.admitted[|c.admitted|..] else []
  }

  /** Of the adds in `waiting` the first one is admitted, if there is one, and the others wait in `lane`. */
  ghost predicate ServesFirst(c: Control, d: Control, lane: Lane, waiting: seq<Ticket>) {
    && c.admitted <= d.admitted && lane in d.queues
    && Gained(c, d) + d.queues[lane].waiting == waiting
    && |Gained(c, d)| == if waiting == [] then 0 else 1
  }

  /** From `c` to `d` one slot of `lane` is given back: nothing changes but the adds that wait there, the
      capacity, and the adds and counts of those admitted. */
  ghost predicate HandsOver(c: Control, d: Control, lane: Lane) {
    && lane in c.queues && d.queues.Keys == c.queues.Keys && ServesFirst(c, d, lane, c.queues[lane].waiting)
    && (forall other :: other in c.queues && other != lane ==> d.queues[other] == c.queues[other])
    && d.queues[lane].limit == c.queues[lane].limit && d.queues[lane].capacity == c.queues[lane].capacity + 1
    && (forall m :: Count(d.passed, m) == Count(c.passed, m) + Tickets(Gained(c, d), m))
    && d.enabled == c.enabled && d.unthrottled == c.unthrottled && d.released == c.released && d.lost == c.lost
  }

  lemma FreeSlotHandsOver(c: Control, lane: Lane)
    requires lane in c.queues
    ensures HandsOver(c, FreeSlot(c, lane), lane)
  {
    var q := c.queues[lane];
    hide Plus, Count, Tickets;
    if q.waiting != [] {
      OneHandsOver(c, lane, q.waiting[0], q.waiting[1..]);
    } else {
      NoneHandsOver(c, lane);
    }
  }

  lemma NoneHandsOver(c: Control, lane: Lane)
    requires lane in c.queues && c.queues[lane].waiting == []
    ensures HandsOver(c, FreeSlot(c, lane), lane)
  {
    var d := FreeSlot(c, lane);
    assert Gained(c, d) == [];
    assert forall m :: Tickets([], m) == 0;
  }

  lemma OneHandsOver(c: Control, lane: Lane, t: Ticket, rest: seq<Ticket>)
    requires lane in c.queues && c.queues[lane].waiting == [t] + rest
    ensures HandsOver(c, FreeSlot(c, lane), lane)
  {
    var q := c.queues[lane];
    var d := FreeSlot(c, lane);
    assert q.waiting[0] == t && q.waiting[1..] == rest;
    assert d == Admit(c.(queues := c.queues[lane := q.(capacity := q.capacity + 1, waiting := rest)]), t);
    hide FreeSlot, Plus, Count, Tickets;
    assert Gained(c, d) == [t];
    CountsOne(c.passed, t);
  }

  lemma CountsOne(tally: Tally, t: Ticket)
    ensures forall m :: Count(Plus(tally, t.mode), m) == Count(tally, m) + Tickets([t], m)
  {
    assert [t][1..] == [];
  }

  /** A release admits the add that waits longest, and the others wait on in their order. */
  lemma ReleaseServesFirst(c: Control, m: Mode, t: Ticket, rest: seq<Ticket>)
    requires Queued(c, m) && c.queues[LaneOf(m).value].waiting == [t] + rest
    ensures var d, lane := Released(c, m), LaneOf(m).value;
            && lane in d.queues && d.admitted == c.admitted + [t] && d.queues[lane].waiting == rest
            && d.queues[lane].capacity == c.queues[lane].capacity + 1
  {
    var c' := c.(released := Plus(c.released, m));
    FreeSlotHandsOver(c', LaneOf(m).value);
    hide FreeSlot;
    var d := Released(c, m);
    assert d.admitted == c.admitted + Gained(c, d);
    assert Gained(c', d) == [([t] + rest)[0]] && d.queues[LaneOf(m).value].waiting == ([t] + rest)[1..];
  }

  /** Where nothing waits, or the mode has no limit, a release admits nothing. */
  lemma ReleaseOfNone(c: Control, m: Mode)
    requires Queued(c, m) ==> c.queues[LaneOf(m).value].waiting == []
    ensures var d := Released(c, m);
            && d.admitted == c.admitted && d.passed == c.passed
            && (Queued(c, m) ==>
                  var q := c.queues[LaneOf(m).value]; d.queues == c.queues[LaneOf(m).value := q.(capacity := q.capacity + 1)])
            && (!Queued(c, m) ==> d.queues == c.queues)
  {
  }

  /** Removing a waiting add takes it out and serves the first of those left, if any. */
  lemma RemovalServesFirst(c: Control, m: Mode, id: Id, before: seq<Ticket>, t: Ticket, after: seq<Ticket>)
    requires Queued(c, m) && c.queues[LaneOf(m).value].waiting == before + [t] + after
    requires t.id == id && forall u :: u in before ==> u.id != id
    ensures var d, lane := RemovedFromQueue(c, m, id), LaneOf(m).value;
            ServesFirst(c, d, lane, before + after) && d.queues[lane].capacity == c.queues[lane].capacity + 1
  {
    var lane := LaneOf(m).value;
    var q := c.queues[lane];
    FoundBehind(before, t, after, id);
    hide IndexOf, Without, FreeSlot;
    var c' := c.(queues := c.queues[lane := q.(waiting := before + after)]);
    FreeSlotHandsOver(c', lane);
    assert c'.admitted == c.admitted;
  }

  lemma FoundBehind(before: seq<Ticket>, t: Ticket, after: seq<Ticket>, id: Id)
    requires t.id == id && forall u :: u in before ==> u.id != id
    ensures var ts := before + [t] + after;
            |before| < |ts| && IndexOf(ts, id) == |before| && Without(ts, |before|) == before + after
  {
    var ts := before + [t] + after;
    assert ts[|before|] == t;
    assert forall j :: 0 <= j < |before| ==> ts[j] == before[j] && before[j] in before;
  }

  lemma RemovalServesRest(c: Control, m: Mode, id: Id)
    requires Queued(c, m) && exists t :: t in c.queues[LaneOf(m).value].waiting && t.id == id
    ensures var lane := LaneOf(m).value;
            ServesFirst(c, RemovedFromQueue(c, m, id), lane, LessFirst(c.queues[lane].waiting, id))
  {
    var waiting := c.queues[LaneOf(m).value].waiting;
    LessFirstIs(waiting, id);
    RemovalOfOne(c, m, id, LaneOf(m).value, IndexOf(waiting, id));
    hide *;
  }

  /** Only an add that waits can be removed. */
  lemma RemovalOfNone(c: Control, m: Mode, id: Id)
    requires Queued(c, m) ==> forall t :: t in c.queues[LaneOf(m).value].waiting ==> t.id != id
    ensures RemovedFromQueue(c, m, id) == c
  {
  }

  /** An add beyond the capacity waits behind the others, any other is admitted at once. */
  lemma ThrottleQueuesLast(c: Control, t: Ticket)
    ensures var d := Throttled(c, t);
            if Queued(c, t.mode) && c.queues[LaneOf(t.mode).value].capacity <= 0 then
              && LaneOf(t.mode).value in d.queues && d.admitted == c.admitted
              && d.queues[LaneOf(t.mode).value].waiting == c.queues[LaneOf(t.mode).value].waiting + [t]
            else
              && d.admitted == c.admitted + [t]
              && forall lane :: lane in c.queues ==> lane in d.queues && d.queues[lane].waiting == c.queues[lane].waiting
  {
  }

  // ---------- first in, first out over every run ----------

  /** The step calls the queue of `lane`. */
  predicate Calls(w: World, step: Step, lane: Lane)
    requires Possible(w, step)
  {
    && w.control.enabled && lane in w.control.queues
    && match step
       case Throttle(t) => LaneOf(t.mode) == Some(lane)
       case Handle(i) => LaneOf(w.entries[i].mode) == Some(lane)
       case RemoveQueued(mode, _) => LaneOf(mode) == Some(lane)
       case _ => false
  }

  /** What happened at a lane: the adds that called `throttle`, less those removed while they waited, and
      the adds that were admitted. */
  datatype Log = Log(arrived: seq<Ticket>, admitted: seq<Ticket>)

  function LessFirst(ts: seq<Ticket>, id: Id): seq<Ticket> {
    if ts == [] then [] else if ts[0].id == id then ts[1..] else [ts[0]] + LessFirst(ts[1..], id)
  }

  /** An add is removed only if it has not been admitted. */
  function Recorded(log: Log, w: World, step: Step, lane: Lane): Log
    requires Sane(w) && Possible(w, step)
  {
    if !Calls(w, step, lane) then log
    else
      Log(if step.Throttle? then log.arrived + [step.ticket]
          else if step.RemoveQueued? && |log.admitted| <= |log.arrived| then
            log.arrived[..|log.admitted|] + LessFirst(log.arrived[|log.admitted|..], step.id)
          else log.arrived,
          log.admitted + Gained(w.control, Next(w, step).control))
  }

  function LogOf(log: Log, w: World, steps: seq<Step>, lane: Lane): Log
    requires Sane(w)
    decreases |steps|
  {
    if steps == [] || !Possible(w, steps[0]) then log
    else LogOf(Recorded(log, w, steps[0], lane), Next(w, steps[0]), steps[1..], lane)
  }

  ghost predicate InOrder(log: Log, c: Control, lane: Lane) {
    lane in c.queues && log.arrived == log.admitted + c.queues[lane].waiting
  }

  lemma {:induction false} LessFirstIs(ts: seq<Ticket>, id: Id)
    ensures LessFirst(ts, id) == if IndexOf(ts, id) == |ts| then ts else Without(ts, IndexOf(ts, id))
  {
    if ts != [] && ts[0].id != id {
      LessFirstIs(ts[1..], id);
      assert IndexOf(ts, id) == 1 + IndexOf(ts[1..], id) && LessFirst(ts, id) == [ts[0]] + LessFirst(ts[1..], id);
      hide IndexOf, LessFirst;
      if IndexOf(ts, id) < |ts| {
        WithoutLater(ts, IndexOf(ts[1..], id));
      }
    }
  }

  lemma WithoutLater(ts: seq<Ticket>, i: nat)
    requires i + 1 < |ts|
    ensures Without(ts, i + 1) == [ts[0]] + Without(ts[1..], i)
  {
  }

  lemma Extends(log: Log, waiting: seq<Ticket>, gained: seq<Ticket>, left: seq<Ticket>)
    requires log.arrived == log.admitted + waiting
    ensures gained + left == waiting ==> log.arrived == (log.admitted + gained) + left
    ensures log.arrived[|log.admitted|..] == waiting && log.arrived[..|log.admitted|] == log.admitted
  {
  }

  lemma ThrottleInOrder(log: Log, w: World, t: Ticket, lane: Lane, n: nat)
    requires Sane(w) && InOrder(log, w.control, lane) && Calls(w, Throttle(t), lane) && FitsLane(w.control, lane, n)
    ensures InOrder(Recorded(log, w, Throttle(t), lane), Next(w, Throttle(t)).control, lane)
  {
    ThrottleQueuesLast(w.control, t);
    var q := w.control.queues[lane];
    hide Throttled;
    if q.capacity <= 0 {
      assert log.arrived + [t] == log.admitted + (q.waiting + [t]);
    } else {
      assert q.waiting == [];
      assert log.arrived + [t] == (log.admitted + [t]) + [];
    }
  }

  lemma HandleInOrder(log: Log, w: World, i: nat, lane: Lane)
    requires Sane(w) && Possible(w, Handle(i)) && InOrder(log, w.control, lane) && Calls(w, Handle(i), lane)
    ensures InOrder(Recorded(log, w, Handle(i), lane), Next(w, Handle(i)).control, lane)
  {
    var c := w.control.(released := Plus(w.control.released, w.entries[i].mode));
    FreeSlotHandsOver(c, lane);
    hide FreeSlot;
    var d := Next(w, Handle(i)).control;
    assert Gained(w.control, d) == Gained(c, d);
    Extends(log, c.queues[lane].waiting, Gained(c, d), d.queues[lane].waiting);
  }

  lemma RemovalInOrder(log: Log, w: World, m: Mode, id: Id, lane: Lane)
    requires Sane(w) && InOrder(log, w.control, lane) && Calls(w, RemoveQueued(m, id), lane)
    ensures InOrder(Recorded(log, w, RemoveQueued(m, id), lane), Next(w, RemoveQueued(m, id)).control, lane)
  {
    var c, waiting := w.control, w.control.queues[lane].waiting;
    var d := RemovedFromQueue(c, m, id);
    Extends(log, waiting, [], waiting);
    LessFirstIs(waiting, id);
    var i := IndexOf(waiting, id);
    if i == |waiting| {
      assert d == c && Gained(c, d) == [];
    } else {
      RemovalOfOne(c, m, id, lane, i);
      hide RemovedFromQueue, Gained, IndexOf;
      var left := Without(waiting, i);
      Extends(Log(log.admitted + left, log.admitted), left, Gained(c, d), d.queues[lane].waiting);
    }
  }

  lemma RemovalOfOne(c: Control, m: Mode, id: Id, lane: Lane, i: nat)
    requires Queued(c, m) && LaneOf(m) == Some(lane) && i < |c.queues[lane].waiting| && i == IndexOf(c.queues[lane].waiting, id)
    ensures ServesFirst(c, RemovedFromQueue(c, m, id), lane, Without(c.queues[lane].waiting, i))
  {
    var waiting := c.queues[lane].waiting;
    hide RemovedFromQueue, ServesFirst;
    assert waiting == waiting[..i] + [waiting[i]] + waiting[i + 1..];
    RemovalServesFirst(c, m, id, waiting[..i], waiting[i], waiting[i + 1..]);
  }

  /** A step that does not call the queue of a lane leaves the adds that wait there alone. */
  lemma OthersKeepWaiting(w: World, step: Step, lane: Lane)
    requires Sane(w) && Possible(w, step) && lane in w.control.queues && !Calls(w, step, lane)
    ensures var d := Next(w, step).control; lane in d.queues && d.queues[lane].waiting == w.control.queues[lane].waiting
  {
    hide PassOverAll, Stopped, Settle, Throttled, Released, RemovedFromQueue, SettleResponse, Plus, Without;
    match step
    case Shutdown(ids, cancelAll) =>
      PassIsAside(Disabled(w), ids, cancelAll);
    case Stop(id) =>
      StoppedIsAside(w, id);
    case Throttle(t) =>
      OtherLaneThrottles(w.control, t, lane);
    case Handle(i) =>
      OtherLaneReleases(w.control, w.entries[i].mode, lane);
    case RemoveQueued(m, id) =>
      OtherLaneRemoves(w.control, m, id, lane);
    case _ =>
  }

  lemma OtherLaneThrottles(c: Control, t: Ticket, lane: Lane)
    requires lane in c.queues && (c.enabled ==> LaneOf(t.mode) != Some(lane))
    ensures lane in Throttled(c, t).queues && Throttled(c, t).queues[lane] == c.queues[lane]
  {
  }

  lemma OtherLaneReleases(c: Control, m: Mode, lane: Lane)
    requires lane in c.queues && (c.enabled ==> LaneOf(m) != Some(lane))
    ensures lane in Released(c, m).queues && Released(c, m).queues[lane] == c.queues[lane]
  {
  }

  lemma OtherLaneRemoves(c: Control, m: Mode, id: Id, lane: Lane)
    requires lane in c.queues && (c.enabled ==> LaneOf(m) != Some(lane))
    ensures lane in RemovedFromQueue(c, m, id).queues && RemovedFromQueue(c, m, id).queues[lane] == c.queues[lane]
  {
  }

  lemma StepInOrder(log: Log, w: World, step: Step, lane: Lane, n: Excess)
    requires Sane(w) && Possible(w, step) && InOrder(log, w.control, lane) && Fits(w.control, n)
    ensures InOrder(Recorded(log, w, step, lane), Next(w, step).control, lane)
  {
    hide Next, InOrder, Recorded;
    if !Calls(w, step, lane) {
      OthersInOrder(log, w, step, lane);
    } else if step.Throttle? {
      assert FitsLane(w.control, lane, n.At(lane));
      ThrottleInOrder(log, w, step.ticket, lane, n.At(lane));
    } else if step.Handle? {
      HandleInOrder(log, w, step.i, lane);
    } else {
      RemovalInOrder(log, w, step.mode, step.id, lane);
    }
  }

  lemma OthersInOrder(log: Log, w: World, step: Step, lane: Lane)
    requires Sane(w) && Possible(w, step) && InOrder(log, w.control, lane) && !Calls(w, step, lane)
    ensures InOrder(Recorded(log, w, step, lane), Next(w, step).control, lane)
  {
    OthersKeepWaiting(w, step, lane);
    hide Next;
  }

  lemma {:induction false} RunInOrder(log: Log, w: World, steps: seq<Step>, lane: Lane, n: Excess)
    requires Sane(w) && InOrder(log, w.control, lane) && Fits(w.control, n)
    ensures Run(w, steps).Some? ==> InOrder(LogOf(log, w, steps, lane), Run(w, steps).value.control, lane)
    decreases |steps|
  {
    hide Next, Possible, Fits, InOrder, Recorded;
    if steps != [] && Possible(w, steps[0]) {
      StepInOrder(log, w, steps[0], lane, n);
      StepFits(w, steps[0], n);
      RunInOrder(Recorded(log, w, steps[0], lane), Next(w, steps[0]), steps[1..], lane, After(n, w, steps[0]));
    }
  }

  /** Over every interleaving, the adds that called `throttle` for a lane, less those removed while they
      waited, are those admitted followed by those that still wait, each once and in order. */
  lemma ServedInOrder(w: World, steps: seq<Step>, lane: Lane)
    requires Sane(w) && Initial(w) && lane in w.control.queues && Run(w, steps).Some?
    ensures var r, log := Run(w, steps).value, LogOf(Log([], []), w, steps, lane);
            lane in r.control.queues && log.arrived == log.admitted + r.control.queues[lane].waiting
  {
    InitialFits(w);
    RunInOrder(Log([], []), w, steps, lane, NoExcess());
  }
}
