/**
 Workflow activation with a retry queue: each queued workflow owns one timer, a failed retry
 doubles the delay up to a day, and start-up activates every workflow stored as active.
 A retry, a call of `add` and one start-up activation are each one atomic step.
 */
module WorkflowActivation {
  import opened Strings
  import opened Wrappers

  type Id = string

  datatype ActivateMode = Init | Create | Update | Activate | Manual | LeadershipChange

  /** A workflow entity as it was read from the database. */
  datatype Workflow = Workflow(id: Id, active: bool, version: int)

  /** What the webhooks, triggers and database calls of one `add` do. A late failure comes after
      the workflow was taken from the queue. */
  datatype Attempt = Succeeds | FailsEarly(message: string) | FailsLate(message: string)

  const INITIAL_TIMEOUT: nat := 1000
  const MAX_TIMEOUT: nat := 24 * 60 * 60 * 1000

  datatype QueuedActivation = QueuedActivation(mode: ActivateMode, lastTimeout: nat, timer: nat, workflow: Workflow)

  /** What the function given to `setTimeout` remembers. */
  datatype Retry = Retry(mode: ActivateMode, workflow: Workflow)

  /** `timers` holds the timers that are neither fired nor cleared. */
  datatype State = State(multiMain: bool, queued: map<Id, QueuedActivation>, timers: map<nat, Retry>, nextTimer: nat,
                         errors: map<Id, string>, activated: set<Id>)

  datatype AddResult = Published | Skipped | Added | Threw(message: string)

  predicate Startup(mode: ActivateMode) {
    mode.Init? || mode.LeadershipChange?
  }

  // ---------- the operations ----------

  /** `removeQueuedWorkflowActivation`. */
  function Dequeued(s: State, id: Id): State {
    if id in s.queued then s.(timers := s.timers - {s.queued[id].timer}, queued := s.queued - {id}) else s
  }

  /** `addQueuedWorkflowActivation`. */
  function Enqueued(s: State, mode: ActivateMode, w: Workflow): State {
    var s' := Dequeued(s, w.id);
    s'.(queued := s'.queued[w.id := QueuedActivation(mode, INITIAL_TIMEOUT, s'.nextTimer, w)],
        timers := s'.timers[s'.nextTimer := Retry(mode, w)], nextTimer := s'.nextTimer + 1)
  }

  const NOT_FOUND := "Failed to find workflow"

  /** `add`; `found` is the workflow passed in, or the one the database returns. */
  function AddedTo(s: State, id: Id, mode: ActivateMode, found: Option<Workflow>, shouldPublish: bool,
                   attempt: Attempt): (State, AddResult) {
    if s.multiMain && shouldPublish then (s, Published)
    else if found.None? then (s.(errors := s.errors[id := NOT_FOUND]), Threw(NOT_FOUND))
    else if Startup(mode) && !found.value.active then (s, Skipped)
    else
      match attempt
      case FailsEarly(message) => (s.(errors := s.errors[id := message]), Threw(message))
      case Succeeds =>
        var s' := Dequeued(s, id);
        (s'.(errors := s'.errors - {id}, activated := s'.activated + {id}), Added)
      case FailsLate(message) =>
        var s' := Dequeued(s, id);
        (s'.(errors := s'.errors[id := message], activated := s'.activated + {id}), Threw(message))
  }

  function NextTimeout(last: nat): nat {
    if last < MAX_TIMEOUT then (if last * 2 < MAX_TIMEOUT then last * 2 else MAX_TIMEOUT) else last
  }

  /** A timer fires: `retryFunction`. A failure that left nothing in the queue makes it throw
      when it reads the queue entry. */
  function Fired(s: State, timer: nat, attempt: Attempt): State
    requires timer in s.timers
  {
    var retry := s.timers[timer];
    var id := retry.workflow.id;
    var (s', result) := AddedTo(s.(timers := s.timers - {timer}), id, retry.mode, Some(retry.workflow), true, attempt);
    if result.Threw? && id in s'.queued then
      var entry := s'.queued[id];
      s'.(queued := s'.queued[id := entry.(lastTimeout := NextTimeout(entry.lastTimeout), timer := s'.nextTimer)],
          timers := s'.timers[s'.nextTimer := retry], nextTimer := s'.nextTimer + 1)
    else s'
  }

  /** `remove`. */
  function Removed(s: State, id: Id): State {
    if s.multiMain then s else
      var s' := Dequeued(s, id);
      s'.(errors := s'.errors - {id}, activated := s'.activated - {id})
  }

  /** `activateWorkflow`; `found` is what the database returns. */
  function StartedUp(s: State, mode: ActivateMode, found: Option<Workflow>, attempt: Attempt): State {
    if found.None? then s else
      var (s', result) := AddedTo(s, found.value.id, mode, found, false, attempt);
      if result.Threw? && !Includes(result.message, "Authorization") then Enqueued(s', Init, found.value) else s'
  }

  // ---------- every queued workflow owns one live timer ----------

  ghost predicate Bijection(s: State) {
    && (forall id :: id in s.queued ==> OwnsTimer(s, id))
    && (forall t :: t in s.timers ==>
          t < s.nextTimer && s.timers[t].workflow.id in s.queued && s.queued[s.timers[t].workflow.id].timer == t)
  }

  ghost predicate OwnsTimer(s: State, id: Id)
    requires id in s.queued
  {
    var e := s.queued[id];
    e.workflow.id == id && e.timer in s.timers && s.timers[e.timer] == Retry(e.mode, e.workflow)
  }

  /** An entry that a retry would skip is never queued, and delays stay in bounds. */
  ghost predicate Sound(s: State) {
    forall id :: id in s.queued ==>
      var e := s.queued[id];
      && (Startup(e.mode) ==> e.workflow.active)
      && INITIAL_TIMEOUT <= e.lastTimeout <= MAX_TIMEOUT
  }

  datatype Step =
    | StartUp(mode: ActivateMode, found: Option<Workflow>, attempt: Attempt)
    | Add(id: Id, mode: ActivateMode, found: Option<Workflow>, shouldPublish: bool, attempt: Attempt)
    | Fire(timer: nat, attempt: Attempt)
    | Remove(id: Id)
    | RemoveAll

  predicate Possible(s: State, step: Step) {
    match step
    case StartUp(mode, _, _) => Startup(mode)
    case Add(id, _, found, _, _) => found.Some? ==> found.value.id == id
    case Fire(timer, _) => timer in s.timers
    case _ => true
  }

  function Next(s: State, step: Step): State
    requires Possible(s, step)
  {
    match step
    case StartUp(mode, found, attempt) => StartedUp(s, mode, found, attempt)
    case Add(id, mode, found, shouldPublish, attempt) => AddedTo(s, id, mode, found, shouldPublish, attempt).0
    case Fire(timer, attempt) => Fired(s, timer, attempt)
    case Remove(id) => Removed(s, id)
    case RemoveAll => s.(queued := map[], timers := s.timers - set id | id in s.queued :: s.queued[id].timer)
  }

  function Run(s: State, steps: seq<Step>): Option<State>
    decreases |steps|
  {
    if steps == [] then Some(s)
    else if !Possible(s, steps[0]) then None
    else Run(Next(s, steps[0]), steps[1..])
  }

  lemma DequeuedKeeps(s: State, id: Id)
    requires Bijection(s) && Sound(s)
    ensures Bijection(Dequeued(s, id)) && Sound(Dequeued(s, id)) && id !in Dequeued(s, id).queued
  {
    var r := Dequeued(s, id);
    forall other | other in r.queued
      ensures OwnsTimer(r, other)
    {
      assert OwnsTimer(s, other);
    }
  }

  lemma EnqueuedKeeps(s: State, mode: ActivateMode, w: Workflow)
    requires Bijection(s) && Sound(s) && (Startup(mode) ==> w.active)
    ensures Bijection(Enqueued(s, mode, w)) && Sound(Enqueued(s, mode, w))
  {
    DequeuedKeeps(s, w.id);
    var s', r := Dequeued(s, w.id), Enqueued(s, mode, w);
    forall other | other in r.queued
      ensures OwnsTimer(r, other)
    {
      if other != w.id { assert OwnsTimer(s', other); }
    }
  }

  lemma AddedKeeps(s: State, id: Id, mode: ActivateMode, found: Option<Workflow>, shouldPublish: bool, attempt: Attempt)
    requires Bijection(s) && Sound(s)
    ensures var r := AddedTo(s, id, mode, found, shouldPublish, attempt).0; Bijection(r) && Sound(r)
  {
    DequeuedKeeps(s, id);
    var d := Dequeued(s, id);
    var r := AddedTo(s, id, mode, found, shouldPublish, attempt).0;
    forall other | other in r.queued
      ensures OwnsTimer(r, other)
    {
      if other in d.queued { assert OwnsTimer(d, other); }
      if other in s.queued { assert OwnsTimer(s, other); }
    }
  }

  /** In single-main mode a firing timer leaves its workflow either out of the queue or with a
      new timer. */
  lemma FiredKeeps(s: State, timer: nat, attempt: Attempt)
    requires Bijection(s) && Sound(s) && timer in s.timers && !s.multiMain
    ensures Bijection(Fired(s, timer, attempt)) && Sound(Fired(s, timer, attempt))
  {
    var id := s.timers[timer].workflow.id;
    assert OwnsTimer(s, id);
    var r := Fired(s, timer, attempt);
    DequeuedKeeps(s, id);
    var d := Dequeued(s, id);
    forall other | other in r.queued
      ensures OwnsTimer(r, other)
    {
      if other in d.queued { assert OwnsTimer(d, other); }
      assert OwnsTimer(s, other);
    }
  }

  lemma StepKeeps(s: State, step: Step)
    requires Bijection(s) && Sound(s) && Possible(s, step) && !s.multiMain
    ensures Bijection(Next(s, step)) && Sound(Next(s, step)) && !Next(s, step).multiMain
  {
    hide Includes;
    match step
    case StartUp(mode, found, attempt) =>
      if found.Some? {
        AddedKeeps(s, found.value.id, mode, found, false, attempt);
        var (s', result) := AddedTo(s, found.value.id, mode, found, false, attempt);
        if result.Threw? { EnqueuedKeeps(s', Init, found.value); }
      }
    case Add(id, mode, found, shouldPublish, attempt) =>
      AddedKeeps(s, id, mode, found, shouldPublish, attempt);
    case Fire(timer, attempt) =>
      FiredKeeps(s, timer, attempt);
    case Remove(id) =>
      DequeuedKeeps(s, id);
      var d, r := Dequeued(s, id), Removed(s, id);
      forall other | other in r.queued
        ensures OwnsTimer(r, other)
      {
        assert OwnsTimer(d, other);
      }
    case RemoveAll =>
  }

  /** Over every single-main run from an empty queue, queued workflows and live timers match. */
  lemma {:induction false} QueueAndTimersMatch(s: State, steps: seq<Step>)
    requires !s.multiMain
    requires (s.queued == map[] && s.timers == map[]) || (Bijection(s) && Sound(s))
    ensures Run(s, steps).Some? ==> Bijection(Run(s, steps).value) && Sound(Run(s, steps).value)
    decreases |steps|
  {
    if steps != [] && Possible(s, steps[0]) {
      StepKeeps(s, steps[0]);
      QueueAndTimersMatch(Next(s, steps[0]), steps[1..]);
    }
  }

  /** A firing timer keeps the match exactly in single-main mode: with several mains the retry
      only publishes a command, and its queue entry keeps a timer that has fired. */
  lemma FiringNeedsSingleMain(s: State, timer: nat, attempt: Attempt)
    requires Bijection(s) && Sound(s) && timer in s.timers
    ensures Bijection(Fired(s, timer, attempt)) <==> !s.multiMain
  {
    if s.multiMain {
      var id := s.timers[timer].workflow.id;
      var r := Fired(s, timer, attempt);
      assert id in r.queued && r.queued[id].timer == timer && timer !in r.timers;
      assert !OwnsTimer(r, id);
    } else {
      FiredKeeps(s, timer, attempt);
    }
  }

  // ---------- what the operations make of one workflow ----------

  /** What a user sees of one workflow: its queue entry without the timer, its error, its activation. */
  datatype Standing = Standing(queued: Option<(ActivateMode, nat, Workflow)>, error: Option<string>, activated: bool)

  function StandingOf(s: State, id: Id): Standing {
    Standing(
      if id in s.queued then Some((s.queued[id].mode, s.queued[id].lastTimeout, s.queued[id].workflow)) else None,
      if id in s.errors then Some(s.errors[id]) else None,
      id in s.activated)
  }

  const GONE := Standing(None, None, false)

  /** No live timer will retry `id`. */
  ghost predicate NoTimerOf(s: State, id: Id) {
    forall t :: t in s.timers ==> s.timers[t].workflow.id != id
  }

  /** From `s` to `r` only workflow `id` and its timers change. */
  ghost predicate OnlyAbout(s: State, r: State, id: Id) {
    && (forall other :: other != id ==> StandingOf(r, other) == StandingOf(s, other))
    && (forall t :: t in s.timers && s.timers[t].workflow.id != id ==> t in r.timers && r.timers[t] == s.timers[t])
    && (forall t :: t in r.timers && r.timers[t].workflow.id != id ==> t in s.timers)
  }

  /** A removal leaves nothing of the workflow, and everything of the others. */
  lemma RemovedIsGone(s: State, id: Id)
    requires Bijection(s) && !s.multiMain
    ensures var r := Removed(s, id);
            StandingOf(r, id) == GONE && NoTimerOf(r, id) && OnlyAbout(s, r, id) && r.multiMain == s.multiMain
  {
    if id in s.queued { assert OwnsTimer(s, id); }
    forall t | t in Removed(s, id).timers
      ensures s.timers[t].workflow.id != id
    {
      assert s.queued[s.timers[t].workflow.id].timer == t;
    }
  }

  /** Several mains leave a removal to the instance that receives the command. */
  lemma RemovalIsPublished(s: State, id: Id)
    requires s.multiMain
    ensures Removed(s, id) == s
  {
  }

  /** What `add` makes of the workflow, by the ways in which it ends. */
  lemma AddedOne(s: State, id: Id, mode: ActivateMode, found: Option<Workflow>, shouldPublish: bool, attempt: Attempt)
    requires Bijection(s)
    ensures var (r, result) := AddedTo(s, id, mode, found, shouldPublish, attempt);
            var before, after := StandingOf(s, id), StandingOf(r, id);
            && OnlyAbout(s, r, id)
            && (result == Published <==> s.multiMain && shouldPublish)
            && (result == Skipped <==> result != Published && found.Some? && Startup(mode) && !found.value.active)
            && (result == Published || result == Skipped ==> r == s)
            && (result == Added ==> attempt == Succeeds && after == Standing(None, None, true) && NoTimerOf(r, id))
            && (result.Threw? ==>
                  && after.error == Some(result.message)
                  && (found.None? ==> result.message == "Failed to find workflow" && after.queued == before.queued && after.activated == before.activated)
                  && (found.Some? && attempt.FailsEarly? ==>
                        result.message == attempt.message && after.queued == before.queued && after.activated == before.activated)
                  && (found.Some? && !attempt.FailsEarly? ==>
                        attempt == FailsLate(result.message) && after.queued == None && after.activated && NoTimerOf(r, id)))
  {
    AddedOnlyAbout(s, id, mode, found, shouldPublish, attempt);
    DequeuedOne(s, id);
    DequeuedWithout(s, id);
    hide Dequeued, Bijection, OnlyAbout;
  }

  lemma AddedOnlyAbout(s: State, id: Id, mode: ActivateMode, found: Option<Workflow>, shouldPublish: bool, attempt: Attempt)
    requires Bijection(s)
    ensures OnlyAbout(s, AddedTo(s, id, mode, found, shouldPublish, attempt).0, id)
  {
    var d, r := Dequeued(s, id), AddedTo(s, id, mode, found, shouldPublish, attempt).0;
    DequeuedOne(s, id);
    DequeuedWithout(s, id);
    SameAboutOthers(s, id);
    hide Dequeued, Bijection, OnlyAbout;
    if found.None? {
      OnlyAboutAfter(s, s, r, id);
    } else if r != s {
      match attempt
      case FailsEarly(message) => OnlyAboutAfter(s, s, r, id);
      case Succeeds => OnlyAboutAfter(s, d, r, id);
      case FailsLate(message) => OnlyAboutAfter(s, d, r, id);
    }
  }

  lemma SameAboutOthers(s: State, id: Id)
    ensures OnlyAbout(s, s, id)
  {
  }

  lemma OnlyAboutAfter(s: State, d: State, r: State, id: Id)
    requires OnlyAbout(s, d, id) && r.queued == d.queued && r.timers == d.timers
    requires forall other :: other != id ==>
               && (other in r.errors <==> other in d.errors) && (other in d.errors ==> r.errors[other] == d.errors[other])
               && (other in r.activated <==> other in d.activated)
    ensures OnlyAbout(s, r, id)
  {
    assert forall other :: other != id ==> StandingOf(r, other) == StandingOf(d, other);
  }

  lemma DequeuedWithout(s: State, id: Id)
    ensures var d := Dequeued(s, id);
            d.errors == s.errors && d.activated == s.activated && d.multiMain == s.multiMain && d.nextTimer == s.nextTimer
  {
  }

  lemma DequeuedOne(s: State, id: Id)
    requires Bijection(s)
    ensures var d := Dequeued(s, id);
            && OnlyAbout(s, d, id) && NoTimerOf(d, id) && id !in d.queued
  {
    if id in s.queued { assert OwnsTimer(s, id); }
    forall t | t in Dequeued(s, id).timers
      ensures s.timers[t].workflow.id != id
    {
      assert s.queued[s.timers[t].workflow.id].timer == t;
    }
  }

  /** What queueing makes of it: exactly one timer will retry it. */
  lemma EnqueuedStands(s: State, mode: ActivateMode, w: Workflow)
    requires Bijection(s)
    ensures var r := Enqueued(s, mode, w);
            && OnlyAbout(s, r, w.id)
            && StandingOf(r, w.id) == StandingOf(s, w.id).(queued := Some((mode, 1000, w)))
            && (forall t :: t in r.timers && r.timers[t].workflow.id == w.id ==> t == s.nextTimer)
            && s.nextTimer in r.timers && r.timers[s.nextTimer] == Retry(mode, w)
  {
    if w.id in s.queued { assert OwnsTimer(s, w.id); }
    forall t | t in Dequeued(s, w.id).timers
      ensures s.timers[t].workflow.id != w.id
    {
      assert s.queued[s.timers[t].workflow.id].timer == t;
    }
  }

  /** A retry ends with the workflow activated or failed late, and out of the queue; or it failed
      early, and then waits for the next delay. */
  lemma FiredOne(s: State, timer: nat, attempt: Attempt)
    requires Bijection(s) && Sound(s) && timer in s.timers && !s.multiMain
    ensures var r, id := Fired(s, timer, attempt), s.timers[timer].workflow.id;
            var (mode, last, w) := StandingOf(s, id).queued.value;
            && OnlyAbout(s, r, id)
            && (attempt.Succeeds? ==> StandingOf(r, id) == Standing(None, None, true) && NoTimerOf(r, id))
            && (attempt.FailsLate? ==> StandingOf(r, id) == Standing(None, Some(attempt.message), true) && NoTimerOf(r, id))
            && (attempt.FailsEarly? ==>
                  StandingOf(r, id) == Standing(Some((mode, NextTimeout(last), w)), Some(attempt.message), id in s.activated))
  {
    var id := s.timers[timer].workflow.id;
    assert OwnsTimer(s, id);
    assert forall t :: t in s.timers && t != timer ==> s.timers[t].workflow.id != id by {
      forall t | t in s.timers && s.timers[t].workflow.id == id
        ensures t == timer
      {
        assert s.queued[s.timers[t].workflow.id].timer == t;
      }
    }
  }

  /** The step may put the workflow into the queue or activate it. */
  predicate Starts(step: Step, id: Id) {
    (step.Add? && step.id == id) || (step.StartUp? && step.found.Some? && step.found.value.id == id)
  }

  lemma StepKeepsGone(s: State, step: Step, id: Id)
    requires Bijection(s) && Sound(s) && !s.multiMain && Possible(s, step) && !Starts(step, id)
    requires StandingOf(s, id) == GONE
    ensures StandingOf(Next(s, step), id) == GONE
  {
    match step
    case StartUp(mode, found, attempt) =>
      if found.Some? {
        StartedUpOne(s, mode, found.value.id, found, attempt, id);
      }
    case Add(other, mode, found, shouldPublish, attempt) =>
      AddedOne(s, other, mode, found, shouldPublish, attempt);
    case Fire(timer, attempt) =>
      FiredOne(s, timer, attempt);
    case Remove(other) =>
      RemovedIsGone(s, other);
    case RemoveAll =>
  }

  lemma GoneHasNoTimer(s: State, id: Id)
    requires Bijection(s) && StandingOf(s, id) == GONE
    ensures NoTimerOf(s, id)
  {
  }

  /** A removed workflow stays removed, and no timer fires for it, until it is added or started up. */
  lemma {:induction false} GoneUntilStarted(s: State, steps: seq<Step>, id: Id)
    requires Bijection(s) && Sound(s) && !s.multiMain && StandingOf(s, id) == GONE
    requires forall step :: step in steps ==> !Starts(step, id)
    ensures Run(s, steps).Some? ==> StandingOf(Run(s, steps).value, id) == GONE && NoTimerOf(Run(s, steps).value, id)
    decreases |steps|
  {
    GoneHasNoTimer(s, id);
    if steps != [] && Possible(s, steps[0]) {
      assert steps[0] in steps && forall step :: step in steps[1..] ==> step in steps;
      StepKeepsGone(s, steps[0], id);
      StepKeeps(s, steps[0]);
      hide *;
      GoneUntilStarted(Next(s, steps[0]), steps[1..], id);
    }
  }

  lemma {:induction false} RunConcat(s: State, a: seq<Step>, b: seq<Step>)
    ensures Run(s, a + b) == if Run(s, a).None? then None else Run(Run(s, a).value, b)
    decreases |a|
  {
    hide Next, Possible;
    if a == [] {
      assert a + b == b;
    } else {
      assert (a + b)[0] == a[0] && (a + b)[1..] == a[1..] + b;
      if Possible(s, a[0]) {
        RunConcat(Next(s, a[0]), a[1..], b);
      }
    }
  }

  /** Over every single-main run from an empty queue: between the removal of a workflow and the next
      time that it is added or started up, it is neither queued nor active, and no timer of it
      is live that could fire. */
  lemma RemovedNeverFires(s: State, before: seq<Step>, id: Id, between: seq<Step>)
    requires !s.multiMain && s.queued == map[] && s.timers == map[]
    requires forall step :: step in between ==> !Starts(step, id)
    requires Run(s, before + ([Remove(id)] + between)).Some?
    ensures var r := Run(s, before + ([Remove(id)] + between)).value; StandingOf(r, id) == GONE && NoTimerOf(r, id)
  {
    RunConcat(s, before, [Remove(id)] + between);
    QueueAndTimersMatch(s, before);
    SingleMainStays(s, before);
    var m := Run(s, before).value;
    assert ([Remove(id)] + between)[1..] == between;
    RemovedIsGone(m, id);
    StepKeeps(m, Remove(id));
    GoneUntilStarted(Removed(m, id), between, id);
  }

  lemma {:induction false} SingleMainStays(s: State, steps: seq<Step>)
    requires !s.multiMain && ((s.queued == map[] && s.timers == map[]) || (Bijection(s) && Sound(s)))
    ensures Run(s, steps).Some? ==> !Run(s, steps).value.multiMain
    decreases |steps|
  {
    if steps != [] && Possible(s, steps[0]) {
      StepKeeps(s, steps[0]);
      hide Next, Possible;
      SingleMainStays(Next(s, steps[0]), steps[1..]);
    }
  }

  // ---------- backoff ----------

  function Pow2(k: nat): nat {
    if k == 0 then 1 else 2 * Pow2(k - 1)
  }

  function Min(a: nat, b: nat): nat {
    if a < b then a else b
  }

  /** The delay after `k` consecutive failed retries. */
  function Backoff(k: nat): nat {
    Min(INITIAL_TIMEOUT * Pow2(k), MAX_TIMEOUT)
  }

  lemma {:induction false} Pow2Grows(a: nat, b: nat)
    requires a <= b
    ensures 1 <= Pow2(a) <= Pow2(b)
  {
    if a < b {
      Pow2Grows(a, b - 1);
    } else if a > 0 {
      Pow2Grows(a - 1, a - 1);
    }
  }

  lemma Pow2AtTheLimit()
    ensures Pow2(16) == 65536 && Pow2(17) == 131072
  {
    assert Pow2(4) == 16;
    assert Pow2(8) == 256;
    assert Pow2(12) == 4096;
  }

  /** Delays start at a second, double, never fall, and stay at a day from the 17th failure on. */
  lemma BackoffShape(k: nat)
    ensures Backoff(0) == 1000
    ensures INITIAL_TIMEOUT <= Backoff(k) <= Backoff(k + 1) <= MAX_TIMEOUT
    ensures Backoff(k) == MAX_TIMEOUT <==> k >= 17
  {
    Pow2Grows(0, k);
    Pow2AtTheLimit();
    if k >= 17 { Pow2Grows(17, k); } else { Pow2Grows(k, 16); }
  }

  lemma NextBackoff(k: nat)
    ensures NextTimeout(Backoff(k)) == Backoff(k + 1)
  {
    Pow2Grows(0, k);
  }

  /** The retries of `id` fail one after another, each with a message. */
  function FailingRetries(s: State, id: Id, messages: seq<string>): (r: State)
    requires id in s.queued && s.queued[id].timer in s.timers
    decreases |messages|
  {
    if messages == [] then s else
      var s' := Fired(s, s.queued[id].timer, FailsEarly(messages[0]));
      if id in s'.queued && s'.queued[id].timer in s'.timers then FailingRetries(s', id, messages[1..]) else s'
  }

  /** After `k` consecutive failures the delay of a queue entry is its closed form. */
  lemma {:induction false} DelayAfterFailures(s: State, id: Id, messages: seq<string>, k: nat)
    requires Bijection(s) && Sound(s) && !s.multiMain && id in s.queued
    requires s.queued[id].lastTimeout == Backoff(k)
    ensures var r := FailingRetries(s, id, messages);
            id in r.queued && r.queued[id].lastTimeout == Backoff(k + |messages|)
            && Bijection(r) && r.queued[id].workflow == s.queued[id].workflow
    decreases |messages|
  {
    if messages != [] {
      assert OwnsTimer(s, id);
      var s' := Fired(s, s.queued[id].timer, FailsEarly(messages[0]));
      FiredKeeps(s, s.queued[id].timer, FailsEarly(messages[0]));
      NextBackoff(k);
      assert OwnsTimer(s', id);
      DelayAfterFailures(s', id, messages[1..], k + 1);
    }
  }

  // ---------- start-up loses nothing ----------

  function Message(attempt: Attempt): string
    requires !attempt.Succeeds?
  {
    match attempt
    case FailsEarly(message) => message
    case FailsLate(message) => message
  }

  predicate RetriesLater(attempt: Attempt) {
    !attempt.Succeeds? && !Includes(Message(attempt), "Authorization")
  }

  /** What start-up makes of the standing of one workflow, given the one before and the workflow
      that the database returns. */
  function Started(before: Standing, found: Option<Workflow>, attempt: Attempt): Standing {
    if found.None? || !found.value.active then before
    else if attempt.Succeeds? then Standing(None, None, true)
    else
      Standing(
        if RetriesLater(attempt) then Some((Init, INITIAL_TIMEOUT, found.value))
        else if attempt.FailsEarly? then before.queued else None,
        Some(Message(attempt)),
        before.activated || attempt.FailsLate?)
  }

  /** The database row of each id, and what its activation will do. */
  type Database = map<Id, Workflow>
  type Attempts = Id -> Attempt

  ghost predicate WellKeyed(db: Database) {
    forall id :: id in db ==> db[id].id == id
  }

  function Lookup(db: Database, id: Id): Option<Workflow> {
    if id in db then Some(db[id]) else None
  }

  /** Activations one after another, in the order in which they happen. */
  function StartedUpAll(s: State, mode: ActivateMode, order: seq<Id>, db: Database, attempts: Attempts): State
    decreases |order|
  {
    if order == [] then s
    else StartedUpAll(StartedUp(s, mode, Lookup(db, order[0]), attempts(order[0])), mode, order[1..], db, attempts)
  }

  lemma EnqueuedOne(s: State, mode: ActivateMode, w: Workflow, other: Id)
    ensures StandingOf(Enqueued(s, mode, w), other)
         == if other == w.id then StandingOf(s, other).(queued := Some((mode, INITIAL_TIMEOUT, w))) else StandingOf(s, other)
  {
  }

  lemma StartedUpOne(s: State, mode: ActivateMode, id: Id, found: Option<Workflow>, attempt: Attempt, other: Id)
    requires Startup(mode) && (found.Some? ==> found.value.id == id)
    ensures StandingOf(StartedUp(s, mode, found, attempt), other)
         == if other == id then Started(StandingOf(s, id), found, attempt) else StandingOf(s, other)
  {
    if found.Some? {
      var s' := AddedTo(s, found.value.id, mode, found, false, attempt).0;
      EnqueuedOne(s', Init, found.value, other);
    }
    hide Includes, Enqueued;
  }

  /** For any distinct ids activated in any order, each ends as if it were the only one. */
  lemma {:induction false} StartUpIsPointwise(s: State, mode: ActivateMode, order: seq<Id>, db: Database, attempts: Attempts, id: Id)
    requires Startup(mode) && WellKeyed(db)
    requires forall i, j :: 0 <= i < j < |order| ==> order[i] != order[j]
    ensures StandingOf(StartedUpAll(s, mode, order, db, attempts), id)
         == if id in order then Started(StandingOf(s, id), Lookup(db, id), attempts(id)) else StandingOf(s, id)
    decreases |order|
  {
    if order != [] {
      var first := order[0];
      StartedUpOne(s, mode, first, Lookup(db, first), attempts(first), id);
      StartUpIsPointwise(StartedUp(s, mode, Lookup(db, first), attempts(first)), mode, order[1..], db, attempts, id);
      assert order == [first] + order[1..] && first !in order[1..];
    }
  }

  /** The order of the activations, and so the size of the batches and the interleaving within
      one, changes nothing about any workflow. */
  lemma StartUpOrderIsIrrelevant(s: State, mode: ActivateMode, a: seq<Id>, b: seq<Id>, db: Database, attempts: Attempts, id: Id)
    requires Startup(mode) && WellKeyed(db)
    requires forall i, j :: 0 <= i < j < |a| ==> a[i] != a[j]
    requires forall i, j :: 0 <= i < j < |b| ==> b[i] != b[j]
    requires forall x :: x in a <==> x in b
    ensures StandingOf(StartedUpAll(s, mode, a, db, attempts), id) == StandingOf(StartedUpAll(s, mode, b, db, attempts), id)
  {
    StartUpIsPointwise(s, mode, a, db, attempts, id);
    StartUpIsPointwise(s, mode, b, db, attempts, id);
  }

  /** From an empty queue, each workflow still active ends either activated, without an error
      and not queued, or failed, with its error, and queued at the initial delay exactly when
      the error is not one of authorization; all others are untouched. */
  lemma StartUpLosesNothing(s: State, mode: ActivateMode, order: seq<Id>, db: Database, attempts: Attempts, id: Id)
    requires Startup(mode) && WellKeyed(db) && s.queued == map[] && id in order
    requires forall i, j :: 0 <= i < j < |order| ==> order[i] != order[j]
    ensures var r := StartedUpAll(s, mode, order, db, attempts);
            if id !in db || !db[id].active then StandingOf(r, id) == StandingOf(s, id)
            else if attempts(id).Succeeds? then id in r.activated && id !in r.errors && id !in r.queued
            else
              && id in r.errors && r.errors[id] == Message(attempts(id))
              && (id in r.queued <==> !Includes(Message(attempts(id)), "Authorization"))
              && (id in r.queued ==> r.queued[id].lastTimeout == INITIAL_TIMEOUT && r.queued[id].workflow == db[id])
  {
    StartUpIsPointwise(s, mode, order, db, attempts, id);
  }

  lemma {:induction false} StartedUpConcat(s: State, mode: ActivateMode, a: seq<Id>, b: seq<Id>, db: Database, attempts: Attempts)
    ensures StartedUpAll(s, mode, a + b, db, attempts)
         == StartedUpAll(StartedUpAll(s, mode, a, db, attempts), mode, b, db, attempts)
    decreases |a|
  {
    hide StartedUp;
    if a == [] {
      assert a + b == b;
    } else {
      StartedUpConcat(StartedUp(s, mode, Lookup(db, a[0]), attempts(a[0])), mode, a[1..], b, db, attempts);
      assert (a + b)[1..] == a[1..] + b;
    }
  }

  // ---------- activations that overlap ----------

  /** What one activation does between two `await`s. */
  datatype Piece =
    | Mark(id: Id)                        // webhooks, triggers and pollers are in place
    | Leave(id: Id)                       // nothing is left in the queue
    | ClearError(id: Id)
    | SetError(id: Id, message: string)
    | Requeue(workflow: Workflow)

  function PieceId(p: Piece): Id {
    if p.Requeue? then p.workflow.id else p.id
  }

  function Apply(s: State, p: Piece): State {
    match p
    case Mark(id) => s.(activated := s.activated + {id})
    case Leave(id) => Dequeued(s, id)
    case ClearError(id) => s.(errors := s.errors - {id})
    case SetError(id, message) => s.(errors := s.errors[id := message])
    case Requeue(w) => Enqueued(s, Init, w)
  }

  function ApplyAll(s: State, schedule: seq<Piece>): State
    decreases |schedule|
  {
    if schedule == [] then s else ApplyAll(Apply(s, schedule[0]), schedule[1..])
  }

  /** The pieces of one start-up activation, in order. */
  function PiecesOf(found: Option<Workflow>, attempt: Attempt): seq<Piece> {
    if found.None? || !found.value.active then []
    else
      var id := found.value.id;
      match attempt
      case Succeeds => [Mark(id), Leave(id), ClearError(id)]
      case FailsEarly(message) => [SetError(id, message)] + Queueing(found.value, message)
      case FailsLate(message) => [Mark(id), Leave(id), SetError(id, message)] + Queueing(found.value, message)
  }

  function Queueing(w: Workflow, message: string): seq<Piece> {
    if Includes(message, "Authorization") then [] else [Requeue(w)]
  }

  /** The pieces of `schedule` that are those of `id`. */
  function Own(schedule: seq<Piece>, id: Id): seq<Piece> {
    if schedule == [] then []
    else (if PieceId(schedule[0]) == id then [schedule[0]] else []) + Own(schedule[1..], id)
  }

  /** What a piece of `id` makes of the standing of `id`. */
  function Stand(before: Standing, p: Piece): Standing {
    match p
    case Mark(_) => before.(activated := true)
    case Leave(_) => before.(queued := None)
    case ClearError(_) => before.(error := None)
    case SetError(_, message) => before.(error := Some(message))
    case Requeue(w) => before.(queued := Some((Init, INITIAL_TIMEOUT, w)))
  }

  function StandAll(before: Standing, pieces: seq<Piece>): Standing
    decreases |pieces|
  {
    if pieces == [] then before else StandAll(Stand(before, pieces[0]), pieces[1..])
  }

  lemma PieceAt(s: State, p: Piece, id: Id)
    ensures StandingOf(Apply(s, p), id) == if PieceId(p) == id then Stand(StandingOf(s, id), p) else StandingOf(s, id)
  {
    if p.Requeue? {
      EnqueuedOne(s, Init, p.workflow, id);
    }
    hide Enqueued;
  }

  /** Of a schedule, each workflow only meets its own pieces. */
  lemma {:induction false} OwnPiecesOnly(s: State, schedule: seq<Piece>, id: Id)
    ensures StandingOf(ApplyAll(s, schedule), id) == StandAll(StandingOf(s, id), Own(schedule, id))
    decreases |schedule|
  {
    if schedule != [] {
      var p, rest := schedule[0], schedule[1..];
      PieceAt(s, p, id);
      OwnPiecesOnly(Apply(s, p), rest, id);
      hide StandingOf, Stand, Apply;
      if PieceId(p) == id {
        assert Own(schedule, id)[0] == p && Own(schedule, id)[1..] == Own(rest, id);
      } else {
        assert Own(schedule, id) == Own(rest, id);
      }
    }
  }

  /** The pieces of one activation do what the activation does. */
  lemma PiecesAreActivation(before: Standing, found: Option<Workflow>, attempt: Attempt)
    ensures StandAll(before, PiecesOf(found, attempt)) == Started(before, found, attempt)
  {
    if found.Some? && found.value.active {
      var id := found.value.id;
      match attempt
      case Succeeds =>
        StandThree(before, Mark(id), Leave(id), ClearError(id));
      case FailsEarly(message) =>
        StandConcat(before, [SetError(id, message)], Queueing(found.value, message));
        StandOne(before, SetError(id, message));
        StandOne(StandAll(before, [SetError(id, message)]), Requeue(found.value));
      case FailsLate(message) =>
        var first := [Mark(id), Leave(id), SetError(id, message)];
        StandConcat(before, first, Queueing(found.value, message));
        StandThree(before, Mark(id), Leave(id), SetError(id, message));
        StandOne(StandAll(before, first), Requeue(found.value));
    }
    hide Includes, StandAll;
  }

  lemma StandOne(before: Standing, p: Piece)
    ensures StandAll(before, [p]) == Stand(before, p)
  {
    assert [p][1..] == [];
  }

  lemma {:induction false} StandConcat(before: Standing, a: seq<Piece>, b: seq<Piece>)
    ensures StandAll(before, a + b) == StandAll(StandAll(before, a), b)
    decreases |a|
  {
    if a == [] {
      assert a + b == b;
    } else {
      StandConcat(Stand(before, a[0]), a[1..], b);
      assert (a + b)[1..] == a[1..] + b;
    }
  }

  lemma StandThree(before: Standing, p: Piece, q: Piece, r: Piece)
    ensures StandAll(before, [p, q, r]) == Stand(Stand(Stand(before, p), q), r)
  {
    assert [p, q, r] == [p] + ([q] + [r]);
    StandConcat(before, [p], [q] + [r]);
    StandConcat(Stand(before, p), [q], [r]);
    StandOne(before, p);
    StandOne(Stand(before, p), q);
    StandOne(Stand(Stand(before, p), q), r);
  }

  /** Activations may overlap in any way: for every interleaving of their pieces, each workflow
      ends as if they had run one after another. */
  lemma StartUpMayOverlap(s: State, mode: ActivateMode, order: seq<Id>, db: Database, attempts: Attempts,
                          schedule: seq<Piece>, id: Id)
    requires Startup(mode) && WellKeyed(db)
    requires forall i, j :: 0 <= i < j < |order| ==> order[i] != order[j]
    requires forall x :: Own(schedule, x) == if x in order then PiecesOf(Lookup(db, x), attempts(x)) else []
    ensures StandingOf(ApplyAll(s, schedule), id) == StandingOf(StartedUpAll(s, mode, order, db, attempts), id)
  {
    OwnPiecesOnly(s, schedule, id);
    StartUpIsPointwise(s, mode, order, db, attempts, id);
    PiecesAreActivation(StandingOf(s, id), Lookup(db, id), attempts(id));
  }

  /** Queue and timers match throughout. */
  lemma {:induction false} OverlapKeepsMatch(s: State, schedule: seq<Piece>)
    requires Bijection(s) && Sound(s)
    requires forall p :: p in schedule && p.Requeue? ==> p.workflow.active
    ensures Bijection(ApplyAll(s, schedule)) && Sound(ApplyAll(s, schedule))
    decreases |schedule|
  {
    if schedule != [] {
      var p := schedule[0];
      assert p in schedule && forall q :: q in schedule[1..] ==> q in schedule;
      PieceKeepsMatch(s, p);
      hide Bijection, Sound, Apply;
      OverlapKeepsMatch(Apply(s, p), schedule[1..]);
    }
  }

  lemma PieceKeepsMatch(s: State, p: Piece)
    requires Bijection(s) && Sound(s) && (p.Requeue? ==> p.workflow.active)
    ensures Bijection(Apply(s, p)) && Sound(Apply(s, p))
  {
    match p
    case Leave(id) =>
      DequeuedKeeps(s, id);
    case Requeue(w) =>
      EnqueuedKeeps(s, Init, w);
    case _ =>
      assert forall id :: id in s.queued ==> OwnsTimer(s, id);
      assert forall id :: id in s.queued ==> OwnsTimer(Apply(s, p), id);
  }

  // ---------- the service ----------

  /** lodash's `chunk`. */
  function Chunk(ids: seq<Id>, size: nat): (r: seq<seq<Id>>)
    requires size >= 1
    ensures Concat(r) == ids
    ensures forall i :: 0 <= i < |r| ==> 1 <= |r[i]| <= size && (i < |r| - 1 ==> |r[i]| == size)
    decreases |ids|
  {
    if ids == [] then []
    else if |ids| <= size then
      assert [ids][1..] == [];
      [ids]
    else
      var rest := Chunk(ids[size..], size);
      assert ([ids[..size]] + rest)[1..] == rest;
      [ids[..size]] + rest
  }

  function Concat(batches: seq<seq<Id>>): seq<Id> {
    if batches == [] then [] else batches[0] + Concat(batches[1..])
  }

  class ActiveWorkflowManager {
    const isMultiMain: bool
    var queuedActivations: map<Id, QueuedActivation>
    var timers: map<nat, Retry>
    var nextTimer: nat
    var activationErrors: map<Id, string>
    var activeWorkflows: set<Id>

    constructor (isMultiMain: bool)
      ensures View() == State(isMultiMain, map[], map[], 0, map[], {})
    {
      this.isMultiMain := isMultiMain;
      queuedActivations, timers, nextTimer := map[], map[], 0;
      activationErrors, activeWorkflows := map[], {};
    }

    function View(): State
      reads this
    {
      State(isMultiMain, queuedActivations, timers, nextTimer, activationErrors, activeWorkflows)
    }

    method SetTimeout(retry: Retry) returns (timer: nat)
      modifies this`timers, this`nextTimer
      ensures timer == old(nextTimer) && nextTimer == old(nextTimer) + 1
      ensures timers == old(timers)[timer := retry]
    {
      timer := nextTimer;
      timers := timers[timer := retry];
      nextTimer := nextTimer + 1;
    }

    method RemoveQueuedWorkflowActivation(id: Id)
      modifies this`timers, this`queuedActivations
      ensures View() == Dequeued(old(View()), id)
    {
      if id in queuedActivations {
        timers := timers - {queuedActivations[id].timer};
        queuedActivations := queuedActivations - {id};
      }
    }

    method AddQueuedWorkflowActivation(mode: ActivateMode, workflow: Workflow)
      modifies this
      ensures View() == Enqueued(old(View()), mode, workflow)
    {
      RemoveQueuedWorkflowActivation(workflow.id);
      var timer := SetTimeout(Retry(mode, workflow));
      queuedActivations := queuedActivations[workflow.id := QueuedActivation(mode, INITIAL_TIMEOUT, timer, workflow)];
    }

    /** Where queue and timers match, no timer is left. */
    method RemoveAllQueuedWorkflowActivations()
      modifies this`timers, this`queuedActivations
      ensures View() == Next(old(View()), RemoveAll)
      ensures queuedActivations == map[] && (old(Bijection(View())) ==> timers == map[])
    {
      var todo := queuedActivations.Keys;
      ghost var s := View();
      while todo != {}
        invariant todo == queuedActivations.Keys
        invariant todo <= s.queued.Keys && forall id :: id in todo ==> queuedActivations[id] == s.queued[id]
        invariant timers == s.timers - set id | id in s.queued && id !in todo :: s.queued[id].timer
      {
        var id :| id in todo;
        RemoveQueuedWorkflowActivation(id);
        todo := todo - {id};
      }
      if Bijection(s) {
        forall t | t in s.timers
          ensures t in set id | id in s.queued :: s.queued[id].timer
        {
          assert s.queued[s.timers[t].workflow.id].timer == t;
        }
      }
    }

    method Add(id: Id, mode: ActivateMode, found: Option<Workflow>, shouldPublish: bool, attempt: Attempt)
        returns (result: AddResult)
      modifies this
      ensures (View(), result) == AddedTo(old(View()), id, mode, found, shouldPublish, attempt)
    {
      if isMultiMain && shouldPublish {
        return Published;
      }
      if found.None? {
        activationErrors := activationErrors[id := NOT_FOUND];
        return Threw(NOT_FOUND);
      }
      if Startup(mode) && !found.value.active {
        return Skipped;
      }
      if attempt.FailsEarly? {
        activationErrors := activationErrors[id := attempt.message];
        return Threw(attempt.message);
      }
      activeWorkflows := activeWorkflows + {id};
      RemoveQueuedWorkflowActivation(id);
      activationErrors := activationErrors - {id};
      if attempt.FailsLate? {
        activationErrors := activationErrors[id := attempt.message];
        assert activationErrors == old(activationErrors)[id := attempt.message];
        return Threw(attempt.message);
      }
      return Added;
    }

    /** `retryFunction`, when its timer fires. In single-main mode the match between queue and
        timers survives; otherwise it does not. */
    method OnTimeout(timer: nat, attempt: Attempt)
      requires timer in timers
      modifies this
      ensures View() == Fired(old(View()), timer, attempt)
      ensures old(Bijection(View()) && Sound(View())) ==> (Bijection(View()) <==> !isMultiMain)
    {
      ghost var s := View();
      var retry := timers[timer];
      var id := retry.workflow.id;
      timers := timers - {timer};
      var result := Add(id, retry.mode, Some(retry.workflow), true, attempt);
      if result.Threw? && id in queuedActivations {
        var entry := queuedActivations[id];
        var lastTimeout := NextTimeout(entry.lastTimeout);
        var next := SetTimeout(retry);
        queuedActivations := queuedActivations[id := entry.(lastTimeout := lastTimeout, timer := next)];
      }
      if Bijection(s) && Sound(s) {
        FiringNeedsSingleMain(s, timer, attempt);
      }
    }

    /** Where queue and timers match, nothing is left of the workflow, and everything of the others. */
    method Remove(id: Id)
      modifies this
      ensures View() == Removed(old(View()), id)
      ensures !isMultiMain && old(Bijection(View())) ==>
                StandingOf(View(), id) == GONE && NoTimerOf(View(), id) && OnlyAbout(old(View()), View(), id)
      ensures isMultiMain ==> View() == old(View())
    {
      if !isMultiMain && Bijection(View()) {
        RemovedIsGone(View(), id);
      }
      if isMultiMain {
        return;
      }
      activationErrors := activationErrors - {id};
      if id in queuedActivations {
        RemoveQueuedWorkflowActivation(id);
      }
      activeWorkflows := activeWorkflows - {id};
    }

    method ActivateWorkflow(mode: ActivateMode, found: Option<Workflow>, attempt: Attempt)
      modifies this
      ensures View() == StartedUp(old(View()), mode, found, attempt)
    {
      if found.None? {
        return;
      }
      var result := Add(found.value.id, mode, found, false, attempt);
      if result.Threw? && !Includes(result.message, "Authorization") {
        AddQueuedWorkflowActivation(Init, found.value);
      }
    }

    /** Batch after batch; the activations of a batch happen in the order of the batch. */
    method AddActiveWorkflows(mode: ActivateMode, ids: seq<Id>, batchSize: nat, db: Database, attempts: Attempts)
      requires batchSize >= 1
      modifies this
      ensures View() == StartedUpAll(old(View()), mode, ids, db, attempts)
    {
      var batches := Chunk(ids, batchSize);
      for i := 0 to |batches|
        invariant StartedUpAll(View(), mode, Concat(batches[i..]), db, attempts)
               == StartedUpAll(old(View()), mode, ids, db, attempts)
      {
        StartedUpConcat(View(), mode, batches[i], Concat(batches[i + 1..]), db, attempts);
        assert batches[i..][0] == batches[i] && batches[i..][1..] == batches[i + 1..];
        hide StartedUp;
        ActivateBatch(mode, batches[i], db, attempts);
      }
    }

    method ActivateBatch(mode: ActivateMode, batch: seq<Id>, db: Database, attempts: Attempts)
      modifies this
      ensures View() == StartedUpAll(old(View()), mode, batch, db, attempts)
    {
      hide StartedUp;
      for i := 0 to |batch|
        invariant StartedUpAll(View(), mode, batch[i..], db, attempts) == StartedUpAll(old(View()), mode, batch, db, attempts)
      {
        assert batch[i..][0] == batch[i] && batch[i..][1..] == batch[i + 1..];
        ActivateWorkflow(mode, Lookup(db, batch[i]), attempts(batch[i]));
      }
    }
  }
}
