// Search admission (src/search_admission.rs): a semaphore of active slots with a first-in first-out
// queue, inside a semaphore bounding active and queued requests together, and the response body that
// keeps an active slot until it has been sent, has failed or is dropped.
module SearchAdmission {
  import opened Wrappers

  type Id = nat

  datatype Limits = Limits(maxActive: nat, maxQueued: nat, waitMillis: nat)

  predicate LimitsValid(limits: Limits) {
    1 <= limits.maxActive <= 8 && limits.maxQueued <= 32 && 1 <= limits.waitMillis <= 2000
  }

  // Requests are numbered as they arrive.  A queued request holds a total permit; a granted one has
  // been handed an active permit but has not resumed; an active one has some clones of its permit; a
  // releasing one has returned its active permit and not yet its total permit.  admitted and
  // released are the history of active permits.
  datatype Gate = Gate(
    limits: Limits, arrivals: Id, freeActive: nat, freeTotal: nat,
    queue: seq<Id>, granted: set<Id>, active: map<Id, nat>, releasing: set<Id>,
    admitted: seq<Id>, released: seq<Id>)

  function Open(limits: Limits): Gate {
    Gate(limits, 0, limits.maxActive, limits.maxActive + limits.maxQueued, [], {}, map[], {}, [], [])
  }

  datatype Arrival = Admitted | Enqueued | Busy

  // try_acquire on the total semaphore, then acquire on the active one.
  function Arrive(gate: Gate): (Gate, Arrival) {
    var id := gate.arrivals;
    if gate.freeTotal == 0 then (gate.(arrivals := id + 1), Busy)
    else if gate.freeActive > 0 then
      (gate.(arrivals := id + 1, freeTotal := gate.freeTotal - 1, freeActive := gate.freeActive - 1,
             active := gate.active[id := 1], admitted := gate.admitted + [id]),
       Admitted)
    else (gate.(arrivals := id + 1, freeTotal := gate.freeTotal - 1, queue := gate.queue + [id]), Enqueued)
  }

  function GrantHead(gate: Gate): Gate
    requires gate.queue != []
  {
    var head := gate.queue[0];
    gate.(queue := gate.queue[1..], granted := gate.granted + {head}, admitted := gate.admitted + [head])
  }

  // A returned active permit goes straight to the head of the queue.
  function ReturnActive(gate: Gate, id: Id): Gate {
    var logged := gate.(released := gate.released + [id]);
    if gate.queue == [] then logged.(freeActive := gate.freeActive + 1) else GrantHead(logged)
  }

  function Without(queue: seq<Id>, id: Id): seq<Id> {
    if queue == [] then []
    else if queue[0] == id then queue[1..]
    else [queue[0]] + Without(queue[1..], id)
  }

  // The wait ran out, or the caller went away, while still queued.
  function LeaveQueue(gate: Gate, id: Id): Gate {
    gate.(queue := Without(gate.queue, id), freeTotal := gate.freeTotal + 1)
  }

  function Resume(gate: Gate, id: Id): Gate {
    gate.(granted := gate.granted - {id}, active := gate.active[id := 1])
  }

  // The caller went away between the grant and its resumption.
  function AbandonGrant(gate: Gate, id: Id): Gate {
    var returned := ReturnActive(gate.(granted := gate.granted - {id}), id);
    returned.(freeTotal := returned.freeTotal + 1)
  }

  function CloneHandle(gate: Gate, id: Id): Gate
    requires id in gate.active
  {
    gate.(active := gate.active[id := gate.active[id] + 1])
  }

  // The last clone returns the active permit first, the total permit after.
  function DropHandle(gate: Gate, id: Id): Gate
    requires id in gate.active && gate.active[id] > 0
  {
    if gate.active[id] > 1 then gate.(active := gate.active[id := gate.active[id] - 1])
    else ReturnActive(gate.(active := gate.active - {id}, releasing := gate.releasing + {id}), id)
  }

  function ReturnTotal(gate: Gate, id: Id): Gate {
    gate.(releasing := gate.releasing - {id}, freeTotal := gate.freeTotal + 1)
  }

  datatype Event =
    | Arriving | TimingOut(id: Id) | Cancelling(id: Id) | Resuming(id: Id)
    | Cloning(id: Id) | Dropping(id: Id) | Releasing(id: Id)

  ghost predicate Step(gate: Gate, event: Event, next: Gate) {
    match event
    case Arriving => next == Arrive(gate).0
    case TimingOut(id) => id in gate.queue && next == LeaveQueue(gate, id)
    case Cancelling(id) =>
      || (id in gate.queue && next == LeaveQueue(gate, id))
      || (id in gate.granted && next == AbandonGrant(gate, id))
    case Resuming(id) => id in gate.granted && next == Resume(gate, id)
    case Cloning(id) => id in gate.active && next == CloneHandle(gate, id)
    case Dropping(id) => id in gate.active && gate.active[id] > 0 && next == DropHandle(gate, id)
    case Releasing(id) => id in gate.releasing && next == ReturnTotal(gate, id)
  }

  ghost predicate Increasing(ids: seq<Id>) {
    forall i, j :: 0 <= i < j < |ids| ==> ids[i] < ids[j]
  }

  // Both semaphores account for every permit, and nobody waits while an active permit is free.
  ghost predicate Conserved(gate: Gate) {
    && gate.freeActive + |gate.granted| + |gate.active| == gate.limits.maxActive
    && gate.freeTotal + |gate.queue| + |gate.granted| + |gate.active| + |gate.releasing| ==
       gate.limits.maxActive + gate.limits.maxQueued
    && (gate.queue != [] ==> gate.freeActive == 0)
    && (forall id :: id in gate.active ==> gate.active[id] > 0)
  }

  // Where each request is: the parts are disjoint and the queue is in arrival order.
  ghost predicate Placed(gate: Gate) {
    && gate.granted !! gate.active.Keys && gate.granted !! gate.releasing && gate.active.Keys !! gate.releasing
    && (forall id :: id in gate.queue ==> id !in gate.granted && id !in gate.active && id !in gate.releasing)
    && (forall id :: id in gate.queue || id in gate.granted || id in gate.active || id in gate.releasing ==> id < gate.arrivals)
    && Increasing(gate.queue)
  }

  // Active permits in the order they were given, and each returned once.
  ghost predicate Traced(gate: Gate) {
    && Increasing(gate.admitted)
    && (forall id, later :: id in gate.admitted && later in gate.queue ==> id < later)
    && (forall id :: id in gate.admitted ==> id < gate.arrivals)
    && (forall i, j :: 0 <= i < j < |gate.released| ==> gate.released[i] != gate.released[j])
    && (forall id :: id in gate.admitted <==> id in gate.granted || id in gate.active || id in gate.released)
    && (forall id :: id in gate.released ==> id !in gate.granted && id !in gate.active)
  }

  ghost predicate Safe(gate: Gate) {
    Conserved(gate) && Placed(gate) && Traced(gate)
  }

  lemma OpenIsSafe(limits: Limits)
    ensures Safe(Open(limits))
  {
  }

  lemma {:induction false} WithoutLess(queue: seq<Id>, id: Id)
    requires id in queue && Increasing(queue)
    ensures |Without(queue, id)| == |queue| - 1
    ensures Increasing(Without(queue, id))
    ensures forall other :: other in Without(queue, id) <==> other in queue && other != id
  {
    if queue[0] == id {
      assert queue == [queue[0]] + queue[1..];
    } else {
      assert Increasing(queue[1..]);
      WithoutLess(queue[1..], id);
      assert queue == [queue[0]] + queue[1..];
      var rest := Without(queue[1..], id);
      assert Without(queue, id) == [queue[0]] + rest;
      forall j | 0 <= j < |rest| ensures queue[0] < rest[j] {
        assert rest[j] in queue[1..];
      }
    }
  }

  lemma GrantHeadPlaced(gate: Gate)
    requires Placed(gate) && gate.queue != []
    ensures Placed(GrantHead(gate))
    ensures |GrantHead(gate).granted| == |gate.granted| + 1
  {
    var head, rest := gate.queue[0], gate.queue[1..];
    assert gate.queue == [head] + rest;
    assert head in gate.queue;
    forall id | id in rest ensures id in gate.queue && head < id {
    }
    forall i, j | 0 <= i < j < |rest| ensures rest[i] < rest[j] {
      assert rest[i] == gate.queue[i + 1] && rest[j] == gate.queue[j + 1];
    }
  }

  lemma GrantHeadTraced(gate: Gate)
    requires Placed(gate) && Traced(gate) && gate.queue != []
    ensures Traced(GrantHead(gate))
  {
    var next, head, rest := GrantHead(gate), gate.queue[0], gate.queue[1..];
    assert gate.queue == [head] + rest;
    assert head in gate.queue;
    forall i, j | 0 <= i < j < |next.admitted| ensures next.admitted[i] < next.admitted[j] {
      assert gate.admitted[i] in gate.admitted;
    }
    forall id, later | id in next.admitted && later in rest ensures id < later {
      assert later in gate.queue;
    }
    assert head !in gate.admitted;
    assert head !in gate.released;
    hide Placed;
  }

  ghost predicate Balanced(gate: Gate) {
    gate.freeActive + |gate.granted| + |gate.active| == gate.limits.maxActive && (gate.queue != [] ==> gate.freeActive == 0)
  }

  // Returning id's active permit, once id has left the holders and before the release is recorded.
  lemma ReturnActiveKeeps(gate: Gate, id: Id)
    requires gate.freeActive + |gate.granted| + |gate.active| + 1 == gate.limits.maxActive
    requires gate.queue != [] ==> gate.freeActive == 0
    requires Placed(gate) && Traced(gate.(released := gate.released + [id]))
    ensures var next := ReturnActive(gate, id);
            && Balanced(next) && Placed(next) && Traced(next)
            && |next.queue| + |next.granted| == |gate.queue| + |gate.granted|
            && next.active == gate.active && next.releasing == gate.releasing
            && next.freeTotal == gate.freeTotal && next.limits == gate.limits
  {
    var logged := gate.(released := gate.released + [id]);
    PlacedIgnoresLog(gate, logged);
    if gate.queue != [] {
      GrantHeadPlaced(logged);
      GrantHeadTraced(logged);
    } else {
      PlacedIgnoresLog(gate, ReturnActive(gate, id));
      TracedIgnoresCount(logged, ReturnActive(gate, id));
    }
    hide Placed, Traced;
  }

  lemma PlacedIgnoresLog(gate: Gate, other: Gate)
    requires Placed(gate)
    requires other == gate.(released := other.released, freeActive := other.freeActive, freeTotal := other.freeTotal)
    ensures Placed(other)
  {
  }

  lemma TracedIgnoresCount(gate: Gate, other: Gate)
    requires Traced(gate) && other == gate.(freeActive := other.freeActive, freeTotal := other.freeTotal)
    ensures Traced(other)
  {
  }

  lemma LeaveQueueIsSafe(gate: Gate, id: Id)
    requires Safe(gate) && id in gate.queue
    ensures Safe(LeaveQueue(gate, id))
  {
    WithoutLess(gate.queue, id);
    hide Increasing;
  }

  // id stops holding; its release is about to be recorded.
  function Leaving(gate: Gate, id: Id, releasing: set<Id>): Gate {
    gate.(granted := gate.granted - {id}, active := gate.active - {id}, releasing := releasing)
  }

  lemma LeavingTraced(gate: Gate, id: Id, releasing: set<Id>)
    requires Placed(gate) && Traced(gate) && (id in gate.granted || id in gate.active)
    ensures var left := Leaving(gate, id, releasing);
            Traced(left.(released := left.released + [id]))
  {
    hide Increasing;
  }

  lemma LeavingPlaced(gate: Gate, id: Id, releasing: set<Id>)
    requires Placed(gate) && (id in gate.granted || id in gate.active)
    requires releasing == gate.releasing || releasing == gate.releasing + {id}
    ensures Placed(Leaving(gate, id, releasing))
  {
    hide Increasing;
  }

  lemma FewerKeys(m: map<Id, nat>, id: Id)
    requires id in m
    ensures |m - {id}| == |m| - 1
  {
    assert (m - {id}).Keys == m.Keys - {id};
    assert |m - {id}| == |(m - {id}).Keys| && |m| == |m.Keys|;
  }

  lemma AbandonReturns(gate: Gate, left: Gate, id: Id)
    requires Placed(gate) && Traced(gate) && id in gate.granted
    requires left == gate.(granted := gate.granted - {id})
    ensures Placed(left) && Traced(left.(released := left.released + [id]))
  {
    assert id !in gate.active;
    assert gate.active - {id} == gate.active;
    LeavingTraced(gate, id, gate.releasing);
    LeavingPlaced(gate, id, gate.releasing);
    hide Traced, Placed;
  }

  lemma AbandonIsSafe(gate: Gate, id: Id)
    requires Safe(gate) && id in gate.granted
    ensures Safe(AbandonGrant(gate, id))
  {
    var left := gate.(granted := gate.granted - {id});
    hide Traced, Placed, ReturnActive;
    AbandonReturns(gate, left, id);
    assert |left.granted| == |gate.granted| - 1;
    ReturnActiveKeeps(left, id);
    var returned, next := ReturnActive(left, id), AbandonGrant(gate, id);
    assert next == returned.(freeTotal := returned.freeTotal + 1);
    PlacedIgnoresLog(returned, next);
    TracedIgnoresCount(returned, next);
  }

  lemma DropReturns(gate: Gate, left: Gate, id: Id)
    requires Placed(gate) && Traced(gate) && id in gate.active
    requires left == gate.(active := gate.active - {id}, releasing := gate.releasing + {id})
    ensures Placed(left) && Traced(left.(released := left.released + [id]))
    ensures |left.releasing| == |gate.releasing| + 1
  {
    assert id !in gate.granted && id !in gate.releasing;
    assert gate.granted - {id} == gate.granted;
    LeavingTraced(gate, id, gate.releasing + {id});
    LeavingPlaced(gate, id, gate.releasing + {id});
    hide Traced, Placed;
  }

  lemma LastDropIsSafe(gate: Gate, id: Id)
    requires Safe(gate) && id in gate.active && gate.active[id] == 1
    ensures Safe(DropHandle(gate, id))
  {
    var left := gate.(active := gate.active - {id}, releasing := gate.releasing + {id});
    hide Traced, Placed, ReturnActive;
    DropReturns(gate, left, id);
    FewerKeys(gate.active, id);
    ReturnActiveKeeps(left, id);
    assert forall other :: other in left.active ==> left.active[other] == gate.active[other];
  }

  lemma DropIsSafe(gate: Gate, id: Id)
    requires Safe(gate) && id in gate.active && gate.active[id] > 0
    ensures Safe(DropHandle(gate, id))
  {
    if gate.active[id] == 1 {
      LastDropIsSafe(gate, id);
    } else {
      HandlesIgnored(gate, DropHandle(gate, id), id);
    }
    hide Safe;
  }

  lemma HandlesIgnored(gate: Gate, next: Gate, id: Id)
    requires Safe(gate) && id in gate.active && id in next.active && next.active[id] > 0
    requires next == gate.(active := gate.active[id := next.active[id]])
    ensures Safe(next)
  {
    hide Increasing;
    assert next.active.Keys == gate.active.Keys;
    assert |next.active| == |next.active.Keys| == |gate.active|;
  }

  lemma MoreKeys(m: map<Id, nat>, id: Id)
    requires id !in m
    ensures |m[id := 1]| == |m| + 1
  {
    assert m[id := 1].Keys == m.Keys + {id};
    assert |m[id := 1]| == |m[id := 1].Keys| && |m| == |m.Keys|;
  }

  lemma FewerIds(ids: set<Id>, id: Id)
    requires id in ids
    ensures |ids - {id}| == |ids| - 1
  {
  }

  lemma ArrivePlaced(gate: Gate)
    requires Placed(gate) && Traced(gate) && (gate.queue != [] ==> gate.freeActive == 0)
    ensures Placed(Arrive(gate).0) && Traced(Arrive(gate).0)
    ensures gate.arrivals !in gate.active
  {
    var next, id := Arrive(gate).0, gate.arrivals;
    if gate.freeTotal > 0 && gate.freeActive > 0 {
      assert forall i :: 0 <= i < |gate.admitted| ==> gate.admitted[i] in gate.admitted;
      assert id !in gate.released;
    } else if gate.freeTotal > 0 {
      assert forall i :: 0 <= i < |gate.queue| ==> gate.queue[i] in gate.queue;
    }
  }

  lemma ArriveIsSafe(gate: Gate)
    requires Safe(gate)
    ensures Safe(Arrive(gate).0)
  {
    ArrivePlaced(gate);
    ArriveConserved(gate);
    hide *;
  }

  lemma ArriveConserved(gate: Gate)
    requires Conserved(gate) && gate.arrivals !in gate.active
    ensures Conserved(Arrive(gate).0)
  {
    MoreKeys(gate.active, gate.arrivals);
    var next := Arrive(gate).0;
    assert next.granted == gate.granted && next.releasing == gate.releasing;
  }

  lemma ResumePlaced(gate: Gate, id: Id)
    requires Placed(gate) && id in gate.granted
    ensures Placed(Resume(gate, id))
    ensures id !in gate.active
  {
    hide Increasing;
  }

  lemma ResumeTraced(gate: Gate, id: Id)
    requires Traced(gate) && id in gate.granted
    ensures Traced(Resume(gate, id))
  {
    hide Increasing;
  }

  lemma ResumeIsSafe(gate: Gate, id: Id)
    requires Safe(gate) && id in gate.granted
    ensures Safe(Resume(gate, id))
  {
    ResumePlaced(gate, id);
    ResumeTraced(gate, id);
    MoreKeys(gate.active, id);
    FewerIds(gate.granted, id);
    hide Placed, Traced;
  }

  lemma StepIsSafe(gate: Gate, event: Event, next: Gate)
    requires Safe(gate) && Step(gate, event, next)
    ensures Safe(next) && next.limits == gate.limits
  {
    match event
    case Arriving => ArriveIsSafe(gate); hide Safe;
    case TimingOut(id) => LeaveQueueIsSafe(gate, id); hide Safe;
    case Cancelling(id) =>
      if next == LeaveQueue(gate, id) && id in gate.queue {
        LeaveQueueIsSafe(gate, id);
      } else {
        AbandonIsSafe(gate, id);
      }
      hide Safe;
    case Resuming(id) => ResumeIsSafe(gate, id); hide Safe;
    case Cloning(id) => HandlesIgnored(gate, next, id); hide Safe;
    case Dropping(id) => DropIsSafe(gate, id); hide Safe;
    case Releasing(id) => FewerIds(gate.releasing, id); hide Increasing;
  }

  ghost predicate Run(limits: Limits, states: seq<Gate>, events: seq<Event>) {
    && |states| == |events| + 1
    && states[0] == Open(limits)
    && forall i, j {:trigger events[i], states[j]} :: 0 <= i < |events| && j == i + 1 ==> Step(states[i], events[i], states[j])
  }

  lemma {:induction false} RunIsSafe(limits: Limits, states: seq<Gate>, events: seq<Event>, i: nat)
    requires Run(limits, states, events) && i < |states|
    ensures Safe(states[i]) && states[i].limits == limits
    decreases i
  {
    if i == 0 {
      OpenIsSafe(limits);
    } else {
      RunIsSafe(limits, states, events, i - 1);
      assert Step(states[i - 1], events[i - 1], states[i]);
      StepIsSafe(states[i - 1], events[i - 1], states[i]);
    }
    hide Safe, Step;
  }

  // However requests arrive, wait, time out, are cancelled and finish: active work stays within its
  // limit, requests wait only while every active permit is out, and the queue stays within its own.
  lemma AdmissionIsBounded(limits: Limits, states: seq<Gate>, events: seq<Event>, i: nat)
    requires Run(limits, states, events) && i < |states|
    ensures var gate := states[i];
            && |gate.granted| + |gate.active| <= limits.maxActive
            && (gate.queue != [] ==> |gate.granted| + |gate.active| == limits.maxActive)
            && |gate.queue| <= limits.maxQueued
  {
    RunIsSafe(limits, states, events, i);
    hide Run, Placed, Traced;
  }

  // Permits are neither lost nor duplicated: when nobody holds or waits, both semaphores are full,
  // and every active permit ever given has been returned exactly once.
  lemma NothingLeaks(limits: Limits, states: seq<Gate>, events: seq<Event>, i: nat)
    requires Run(limits, states, events) && i < |states|
    ensures var gate := states[i];
            && (gate.queue == [] && gate.granted == {} && gate.active == map[] && gate.releasing == {} ==>
                  gate.freeActive == limits.maxActive && gate.freeTotal == limits.maxActive + limits.maxQueued)
            && (forall a, b :: 0 <= a < b < |gate.released| ==> gate.released[a] != gate.released[b])
            && (forall id :: id in gate.released ==> id in gate.admitted)
            && (forall id :: id in gate.admitted && id !in gate.granted && id !in gate.active ==> id in gate.released)
  {
    RunIsSafe(limits, states, events, i);
    hide Run, Placed, Increasing;
  }

  // Active permits are given in order of arrival.
  lemma ServedInArrivalOrder(limits: Limits, states: seq<Gate>, events: seq<Event>, i: nat)
    requires Run(limits, states, events) && i < |states|
    ensures Increasing(states[i].admitted)
    ensures forall id, later :: id in states[i].admitted && later in states[i].queue ==> id < later
  {
    RunIsSafe(limits, states, events, i);
    hide Run, Placed, Conserved, Increasing;
  }

  // Those who hold an active permit, and all whom the total semaphore counts.
  function Working(gate: Gate): nat { |gate.granted| + |gate.active| }
  function Present(gate: Gate): nat { |gate.queue| + Working(gate) + |gate.releasing| }

  // An arrival works at once exactly while fewer than maxActive do, waits exactly while that many do
  // and there is room, is turned away otherwise, and moves nobody else.
  lemma ArrivalDecided(limits: Limits, states: seq<Gate>, events: seq<Event>, i: nat)
    requires Run(limits, states, events) && i < |events| && events[i] == Arriving
    ensures var gate, next, id := states[i], states[i + 1], states[i].arrivals;
            var room := Present(gate) < limits.maxActive + limits.maxQueued;
            && (id in next.active <==> room && Working(gate) < limits.maxActive)
            && (id in next.queue <==> room && Working(gate) == limits.maxActive)
            && next.active == (if id in next.active then gate.active[id := 1] else gate.active)
            && next.queue == (if id in next.queue then gate.queue + [id] else gate.queue)
            && next.granted == gate.granted && next.releasing == gate.releasing
  {
    RunIsSafe(limits, states, events, i);
    assert Step(states[i], events[i], states[i + 1]);
    hide Run, Traced, Increasing;
  }

  // Who waited longest takes the place of one who works no longer.
  ghost predicate PassedOn(gate: Gate, next: Gate, id: Id) {
    && next.queue == (if gate.queue == [] then [] else gate.queue[1..])
    && next.granted == (if gate.queue == [] then gate.granted else gate.granted + {gate.queue[0]}) - {id}
    && next.active == gate.active - {id}
  }

  // One leaves the queue; the others keep their order.
  ghost predicate LeftQueue(gate: Gate, next: Gate, id: Id) {
    && (exists i :: 0 <= i < |gate.queue| && gate.queue[i] == id && next.queue == gate.queue[..i] + gate.queue[i + 1..])
    && next.granted == gate.granted && next.active == gate.active && next.releasing == gate.releasing
  }

  ghost predicate Leaves(gate: Gate, event: Event, next: Gate) {
    match event
    case TimingOut(id) => LeftQueue(gate, next, id)
    case Cancelling(id) =>
      if id in gate.queue then LeftQueue(gate, next, id) else PassedOn(gate, next, id) && next.releasing == gate.releasing
    case Dropping(id) =>
      && id in gate.active
      && if gate.active[id] > 1 then next == gate.(active := gate.active[id := gate.active[id] - 1])
         else PassedOn(gate, next, id) && next.releasing == gate.releasing + {id}
    case _ => true
  }

  lemma {:induction false} WithoutFirst(queue: seq<Id>, id: Id) returns (i: nat)
    requires id in queue
    ensures i < |queue| && queue[i] == id && Without(queue, id) == queue[..i] + queue[i + 1..]
  {
    if queue[0] == id {
      i := 0;
    } else {
      var k := WithoutFirst(queue[1..], id);
      i := k + 1;
      assert queue[..i] == [queue[0]] + queue[1..][..k] && queue[i + 1..] == queue[1..][k + 1..];
    }
  }

  lemma QueueIsLeft(gate: Gate, id: Id)
    requires id in gate.queue
    ensures LeftQueue(gate, LeaveQueue(gate, id), id)
  {
    var k := WithoutFirst(gate.queue, id);
    hide Without;
  }

  lemma GrantIsPassedOn(gate: Gate, id: Id)
    requires Placed(gate) && id in gate.granted
    ensures PassedOn(gate, AbandonGrant(gate, id), id) && AbandonGrant(gate, id).releasing == gate.releasing
  {
    assert id !in gate.active && gate.active - {id} == gate.active;
    assert gate.queue != [] ==> gate.queue[0] in gate.queue;
    hide Placed;
  }

  lemma HandleIsPassedOn(gate: Gate, id: Id)
    requires Placed(gate) && id in gate.active && gate.active[id] == 1
    ensures PassedOn(gate, DropHandle(gate, id), id) && DropHandle(gate, id).releasing == gate.releasing + {id}
  {
    assert gate.queue != [] ==> gate.queue[0] in gate.queue;
    assert gate.granted - {id} == gate.granted;
    hide Placed;
  }

  lemma LeavesRightly(gate: Gate, event: Event, next: Gate)
    requires Safe(gate) && Step(gate, event, next)
    ensures Leaves(gate, event, next)
  {
    hide LeftQueue, PassedOn, LeaveQueue, AbandonGrant, Traced, Increasing, GrantHead, ReturnActive;
    match event
    case TimingOut(id) => QueueIsLeft(gate, id); hide Placed;
    case Cancelling(id) =>
      if id in gate.queue {
        QueueIsLeft(gate, id);
      } else {
        GrantIsPassedOn(gate, id);
        hide Placed;
      }
    case Dropping(id) =>
      if gate.active[id] == 1 {
        HandleIsPassedOn(gate, id);
      }
      hide Placed;
    case _ => hide Placed;
  }

  // A place freed by the last handle or by an abandoned grant passes to whoever waited longest.
  lemma PlaceIsPassedOn(limits: Limits, states: seq<Gate>, events: seq<Event>, i: nat)
    requires Run(limits, states, events) && i < |events|
    ensures Leaves(states[i], events[i], states[i + 1])
  {
    RunIsSafe(limits, states, events, i);
    assert Step(states[i], events[i], states[i + 1]);
    LeavesRightly(states[i], events[i], states[i + 1]);
    hide *;
  }

  // One permit's handles, after so many clones and drops of it.
  ghost predicate Counted(gate: Gate, id: Id, clones: nat, drops: nat) {
    && (id in gate.active ==> gate.active[id] + drops == 1 + clones)
    && (id !in gate.active && id !in gate.released ==> clones == drops == 0)
  }

  lemma ReleasedOnly(gate: Gate, id: Id)
    ensures ReturnActive(gate, id).released == gate.released + [id] && ReturnActive(gate, id).active == gate.active
  {
  }

  lemma StepCounts(gate: Gate, event: Event, next: Gate, id: Id, clones: nat, drops: nat)
    requires Safe(gate) && Step(gate, event, next) && Counted(gate, id, clones, drops)
    ensures Counted(next, id, clones + if event == Cloning(id) then 1 else 0, drops + if event == Dropping(id) then 1 else 0)
  {
    hide Increasing, ReturnActive, Conserved;
    match event
    case Arriving => assert gate.arrivals !in gate.released && gate.arrivals !in gate.active;
    case Cancelling(other) =>
      if other in gate.granted {
        ReleasedOnly(gate.(granted := gate.granted - {other}), other);
      }
      hide Placed, Traced;
    case Dropping(other) =>
      ReleasedOnly(gate.(active := gate.active - {other}, releasing := gate.releasing + {other}), other);
      hide Placed, Traced;
    case _ =>
  }

  // The handles left on a permit are one and those cloned, less those dropped.
  lemma {:induction false} HandlesAreCounted(limits: Limits, states: seq<Gate>, events: seq<Event>, i: nat, id: Id)
    requires Run(limits, states, events) && i < |states|
    ensures Counted(states[i], id, multiset(events[..i])[Cloning(id)], multiset(events[..i])[Dropping(id)])
  {
    if i == 0 {
      assert events[..0] == [];
      hide Step, Safe;
    } else {
      RunIsSafe(limits, states, events, i - 1);
      assert Step(states[i - 1], events[i - 1], states[i]);
      HandlesAreCounted(limits, states, events, i - 1, id);
      hide *;
      OneMore(events, i, Cloning(id));
      OneMore(events, i, Dropping(id));
      StepCounts(states[i - 1], events[i - 1], states[i], id, multiset(events[..i - 1])[Cloning(id)], multiset(events[..i - 1])[Dropping(id)]);
    }
  }

  lemma OneMore(events: seq<Event>, i: nat, event: Event)
    requires 0 < i <= |events|
    ensures multiset(events[..i])[event] == multiset(events[..i - 1])[event] + if events[i - 1] == event then 1 else 0
  {
    assert events[..i] == events[..i - 1] + [events[i - 1]];
  }

  // ---- The gate in place, and the response body that holds a permit ------------------------------------

  class Admission {
    const limits: Limits
    var arrivals: Id
    var freeActive: nat
    var freeTotal: nat
    var queue: seq<Id>
    var granted: set<Id>
    var active: map<Id, nat>
    var releasing: set<Id>
    ghost var admitted: seq<Id>
    ghost var released: seq<Id>

    ghost function Contents(): Gate
      reads this
    {
      Gate(limits, arrivals, freeActive, freeTotal, queue, granted, active, releasing, admitted, released)
    }

    constructor (limits: Limits)
      requires LimitsValid(limits)
      ensures Contents() == Open(limits)
    {
      this.limits := limits;
      arrivals, freeActive, freeTotal := 0, limits.maxActive, limits.maxActive + limits.maxQueued;
      queue, granted, active, releasing, admitted, released := [], {}, map[], {}, [], [];
    }

    method Acquire() returns (id: Id, outcome: Arrival)
      modifies this
      ensures id == old(arrivals) && arrivals == id + 1
      ensures (Contents(), outcome) == Arrive(old(Contents()))
      ensures outcome == Busy <==> old(freeTotal) == 0
      ensures outcome == Admitted <==> old(freeTotal) > 0 && old(freeActive) > 0
      ensures freeTotal == old(freeTotal) - if outcome == Busy then 0 else 1
      ensures freeActive == old(freeActive) - if outcome == Admitted then 1 else 0
      ensures active == if outcome == Admitted then old(active)[id := 1] else old(active)
      ensures queue == if outcome == Enqueued then old(queue) + [id] else old(queue)
      ensures granted == old(granted) && releasing == old(releasing)
    {
      id := arrivals;
      arrivals := arrivals + 1;
      if freeTotal == 0 {
        return id, Busy;
      }
      freeTotal := freeTotal - 1;
      if freeActive > 0 {
        freeActive := freeActive - 1;
        active := active[id := 1];
        admitted := admitted + [id];
        return id, Admitted;
      }
      queue := queue + [id];
      outcome := Enqueued;
    }

    method GiveBackActive(id: Id)
      modifies this
      ensures Contents() == ReturnActive(old(Contents()), id)
    {
      released := released + [id];
      if queue == [] {
        freeActive := freeActive + 1;
      } else {
        granted := granted + {queue[0]};
        admitted := admitted + [queue[0]];
        queue := queue[1..];
      }
    }

    // The acquiring future is dropped: by its timeout while queued, or by its caller at any time.
    method Abandon(id: Id)
      requires id in queue || id in granted
      modifies this
      ensures Contents() == if id in old(queue) then LeaveQueue(old(Contents()), id) else AbandonGrant(old(Contents()), id)
    {
      if id in queue {
        queue := Without(queue, id);
      } else {
        granted := granted - {id};
        GiveBackActive(id);
      }
      freeTotal := freeTotal + 1;
    }

    method Drop(id: Id)
      requires id in active && active[id] > 0
      modifies this
      ensures Contents() == DropHandle(old(Contents()), id)
    {
      if active[id] > 1 {
        active := active[id := active[id] - 1];
      } else {
        active := active - {id};
        releasing := releasing + {id};
        GiveBackActive(id);
      }
    }

    method GiveBackTotal(id: Id)
      requires id in releasing
      modifies this
      ensures Contents() == ReturnTotal(old(Contents()), id)
    {
      releasing := releasing - {id};
      freeTotal := freeTotal + 1;
    }
  }

  datatype Polled = NotReady | Frame | Ended | Failed

  // The body's own state: whether it still has data, and the permit clone it keeps.
  datatype Held = Held(emptied: bool, permit: Option<Id>)

  datatype BodyEvent = Poll(polled: Polled) | DropBody

  function BodyStep(held: Held, event: BodyEvent): Held {
    match event
    case Poll(polled) => if polled.Ended? || polled.Failed? then Held(true, None) else held
    case DropBody => Held(true, None)
  }

  class HeldBody {
    const gate: Admission
    var emptied: bool
    var permit: Option<Id>

    function Contents(): Held
      reads this
    {
      Held(emptied, permit)
    }

    // It may hold a clone only while the gate still counts one.
    predicate Valid()
      reads this, gate
    {
      permit.Some? ==> permit.value in gate.active && gate.active[permit.value] > 0
    }

    constructor (gate: Admission, permit: Option<Id>)
      requires permit.Some? ==> permit.value in gate.active && gate.active[permit.value] > 0
      ensures Valid() && this.gate == gate && Contents() == Held(false, permit)
    {
      this.gate := gate;
      this.emptied, this.permit := false, permit;
    }

    method TakePermit()
      requires Valid()
      modifies this`permit, gate
      ensures permit.None?
      ensures gate.Contents() == if old(permit).Some? then DropHandle(old(gate.Contents()), old(permit).value) else old(gate.Contents())
    {
      if permit.Some? {
        gate.Drop(permit.value);
        permit := None;
      }
    }

    method PollFrame(polled: Polled)
      requires Valid()
      modifies this, gate
      ensures Valid()
      ensures Contents() == BodyStep(old(Contents()), Poll(polled))
      ensures polled == Ended || polled == Failed ==> emptied && permit == None
      ensures polled == NotReady || polled == Frame ==> unchanged(this)
      ensures gate.Contents() ==
              if old(permit).Some? && permit.None? then DropHandle(old(gate.Contents()), old(permit).value) else old(gate.Contents())
    {
      if polled.Ended? || polled.Failed? {
        emptied := true;
        TakePermit();
      }
    }

    method Dispose()
      requires Valid()
      modifies this, gate
      ensures Valid()
      ensures Contents() == BodyStep(old(Contents()), DropBody)
      ensures gate.Contents() ==
              if old(permit).Some? then DropHandle(old(gate.Contents()), old(permit).value) else old(gate.Contents())
    {
      emptied := true;
      TakePermit();
    }
  }

  // How often a body gives its permit back over its life.
  function Drops(held: Held, events: seq<BodyEvent>): nat
    decreases |events|
  {
    if events == [] then 0
    else
      var next := BodyStep(held, events[0]);
      (if held.permit.Some? && next.permit.None? then 1 else 0) + Drops(next, events[1..])
  }

  predicate EndsBody(event: BodyEvent) {
    event.DropBody? || event.polled.Ended? || event.polled.Failed?
  }

  // A permit is given back exactly once, and only if the stream ended, failed or was dropped; polls
  // after that change nothing.
  lemma {:induction false} ReleasedExactlyOnce(held: Held, events: seq<BodyEvent>)
    ensures Drops(held, events) ==
            if held.permit.Some? && exists i :: 0 <= i < |events| && EndsBody(events[i]) then 1 else 0
    decreases |events|
  {
    if events != [] {
      var rest := events[1..];
      ReleasedExactlyOnce(BodyStep(held, events[0]), rest);
      if EndsBody(events[0]) {
        assert EndsBody(events[0]) && 0 < |events|;
      } else {
        assert (exists i :: 0 <= i < |events| && EndsBody(events[i])) <==> (exists i :: 0 <= i < |rest| && EndsBody(rest[i])) by {
          if i :| 0 <= i < |events| && EndsBody(events[i]) {
            assert rest[i - 1] == events[i];
          }
          if i :| 0 <= i < |rest| && EndsBody(rest[i]) {
            assert events[i + 1] == rest[i];
          }
        }
      }
    }
  }
}
