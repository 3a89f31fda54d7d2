/**
 The generation supervisor (`supervise_leader_generations`): one workload per observed lifetime of
 leadership, stopped and joined before another may start.

 A watch channel keeps only its latest value, so what was sent between two looks at it shows up as
 the last of those values; the supervisor's history is the sequence of values it saw.
 */
module Supervisor {
  import opened Wrappers
  import opened Sets

  datatype Event =
    | FollowerCallback
    | Started(generation: nat)
    | Cancelled(generation: nat)
    | Joined(generation: nat)

  /** The supervisor between two looks: the worker it holds, and what it has done so far. */
  datatype Run = Run(worker: Option<nat>, started: nat, events: seq<Event>)

  const FRESH := Run(None, 0, [])

  function Stop(r: Run): Run {
    var told := r.events + [FollowerCallback];
    if r.worker.Some?
    then Run(None, r.started, told + [Cancelled(r.worker.value)] + [Joined(r.worker.value)])
    else Run(None, r.started, told)
  }

  function Look(r: Run, leader: bool): Run {
    if !leader then Stop(r)
    else if r.worker.None? then Run(Some(r.started), r.started + 1, r.events + [Started(r.started)])
    else r
  }

  function Looks(values: seq<bool>): Run {
    if values == [] then FRESH else Look(Looks(values[..|values| - 1]), values[|values| - 1])
  }

  /** The value a watch shows after a batch of sends. */
  function Latest(before: bool, sends: seq<bool>): bool {
    if sends == [] then before else sends[|sends| - 1]
  }

  /** The value of the watch after all the batches. */
  function Current(initial: bool, batches: seq<seq<bool>>): bool {
    if batches == [] then initial else Latest(Current(initial, batches[..|batches| - 1]), batches[|batches| - 1])
  }

  /** What the supervisor sees when the batches arrive between its looks. */
  function Seen(initial: bool, batches: seq<seq<bool>>): seq<bool> {
    if batches == [] then [] else Seen(initial, batches[..|batches| - 1]) + [Current(initial, batches)]
  }

  /** One more look is a look after the others. */
  lemma LooksAppend(values: seq<bool>, value: bool)
    ensures Looks(values + [value]) == Look(Looks(values), value)
  {
    assert (values + [value])[..|values|] == values;
  }

  /** One turn of the loop. */
  lemma SeenStep(initial: bool, batches: seq<seq<bool>>, i: nat)
    requires i < |batches|
    ensures var value := Latest(Current(initial, batches[..i]), batches[i]);
      && Current(initial, batches[..i + 1]) == value
      && Looks(Seen(initial, batches[..i + 1])) == Look(Looks(Seen(initial, batches[..i])), value)
  {
    assert batches[..i + 1][..i] == batches[..i];
    LooksAppend(Seen(initial, batches[..i]), Current(initial, batches[..i + 1]));
  }

  /** The loop, driven by the sends that arrive before each look, until the sender goes away. `parked` is
      what the supervisor held when it last waited for a change. */
  method Supervise(initial: bool, batches: seq<seq<bool>>) returns (events: seq<Event>, parked: Option<nat>)
    requires batches != []
    ensures events == Stop(Looks(Seen(initial, batches))).events
    ensures parked == Looks(Seen(initial, batches)).worker
  {
    var value := initial;
    var worker: Option<nat> := None;
    var started := 0;
    events := [];
    for i := 0 to |batches|
      invariant value == Current(initial, batches[..i])
      invariant Run(worker, started, events) == Looks(Seen(initial, batches[..i]))
    {
      SeenStep(initial, batches, i);
      value := Latest(value, batches[i]);
      if value && worker.None? {
        worker, started, events := Some(started), started + 1, events + [Started(started)];
      } else if !value {
        worker, events := StopWorker(worker, started, events);
      }
    }
    assert batches[..|batches|] == batches;
    parked := worker;
    worker, events := StopWorker(worker, started, events);
  }

  /** The follower callback, then cancellation and join of the worker held, if any. */
  method StopWorker(worker: Option<nat>, started: nat, events: seq<Event>)
      returns (held: Option<nat>, after: seq<Event>)
    ensures Stop(Run(worker, started, events)) == Run(held, started, after)
  {
    held, after := None, events + [FollowerCallback];
    if worker.Some? {
      after := after + [Cancelled(worker.value)];
      after := after + [Joined(worker.value)];
    }
  }

  // ------------------------------------------------------------------- discipline

  /** Generations started and not yet joined. */
  function Live(events: seq<Event>): set<nat> {
    if events == [] then {}
    else
      var before, last := Live(events[..|events| - 1]), events[|events| - 1];
      if last.Started? then before + {last.generation}
      else if last.Joined? then before - {last.generation}
      else before
  }

  /** No generation has started under this number. */
  predicate Unused(events: seq<Event>, generation: nat) {
    forall j :: 0 <= j < |events| && events[j].Started? ==> events[j].generation != generation
  }

  /** What may come after `events`: a start when nothing runs, under a new number; the cancellation of the
      one that runs, right after the follower callback; the join of one just cancelled. */
  predicate MayFollow(events: seq<Event>, e: Event) {
    match e
    case FollowerCallback => true
    case Started(g) => Live(events) == {} && Unused(events, g)
    case Cancelled(g) => events != [] && events[|events| - 1] == FollowerCallback && Live(events) == {g}
    case Joined(g) => events != [] && events[|events| - 1] == Cancelled(g)
  }

  predicate Orderly(events: seq<Event>) {
    forall i: nat :: i < |events| ==> MayFollow(events[..i], events[i])
  }

  predicate StartedBelow(events: seq<Event>, bound: nat) {
    forall i :: 0 <= i < |events| && events[i].Started? ==> events[i].generation < bound
  }

  predicate RunOk(r: Run) {
    && Orderly(r.events)
    && Live(r.events) == (if r.worker.Some? then {r.worker.value} else {})
    && StartedBelow(r.events, r.started)
  }

  /** One more event keeps the order if it may follow. */
  lemma OrderlyAppend(events: seq<Event>, e: Event)
    requires Orderly(events) && MayFollow(events, e)
    ensures Orderly(events + [e])
  {
    var after := events + [e];
    forall i: nat | i < |after| ensures MayFollow(after[..i], after[i]) {
      if i < |events| {
        assert MayFollow(events[..i], events[i]);
        assert after[..i] == events[..i];
      } else {
        assert after[..i] == events;
      }
    }
  }

  lemma LiveAppend(events: seq<Event>, e: Event)
    ensures Live(events + [e]) ==
      if e.Started? then Live(events) + {e.generation}
      else if e.Joined? then Live(events) - {e.generation} else Live(events)
  {
    assert (events + [e])[..|events|] == events;
  }

  /** The three events of a stop, one after the other. */
  lemma TellOk(r: Run)
    requires RunOk(r)
    ensures RunOk(Run(r.worker, r.started, r.events + [FollowerCallback]))
  {
    OrderlyAppend(r.events, FollowerCallback);
    LiveAppend(r.events, FollowerCallback);
  }

  lemma CancelOk(r: Run, g: nat)
    requires RunOk(r) && r.worker == Some(g) && r.events != [] && r.events[|r.events| - 1] == FollowerCallback
    ensures RunOk(Run(r.worker, r.started, r.events + [Cancelled(g)]))
  {
    OrderlyAppend(r.events, Cancelled(g));
    LiveAppend(r.events, Cancelled(g));
  }

  lemma JoinOk(r: Run, g: nat)
    requires RunOk(r) && r.worker == Some(g) && r.events != [] && r.events[|r.events| - 1] == Cancelled(g)
    ensures RunOk(Run(None, r.started, r.events + [Joined(g)]))
  {
    OrderlyAppend(r.events, Joined(g));
    LiveAppend(r.events, Joined(g));
  }

  lemma StopOk(r: Run)
    requires RunOk(r)
    ensures RunOk(Stop(r)) && Stop(r).worker.None?
  {
    var told := r.events + [FollowerCallback];
    TellOk(r);
    if r.worker.Some? {
      var g := r.worker.value;
      CancelOk(Run(r.worker, r.started, told), g);
      JoinOk(Run(r.worker, r.started, told + [Cancelled(g)]), g);
    }
  }

  lemma StartOk(r: Run)
    requires RunOk(r) && r.worker.None?
    ensures RunOk(Run(Some(r.started), r.started + 1, r.events + [Started(r.started)]))
  {
    assert Unused(r.events, r.started);
    OrderlyAppend(r.events, Started(r.started));
    LiveAppend(r.events, Started(r.started));
  }

  lemma LookOk(r: Run, leader: bool)
    requires RunOk(r)
    ensures RunOk(Look(r, leader)) && (Look(r, leader).worker.Some? <==> leader)
  {
    if !leader {
      StopOk(r);
    } else if r.worker.None? {
      StartOk(r);
    }
  }

  lemma {:induction false} LooksOk(values: seq<bool>)
    ensures RunOk(Looks(values))
    ensures values != [] ==> (Looks(values).worker.Some? <==> values[|values| - 1])
  {
    if values != [] {
      LooksOk(values[..|values| - 1]);
      LookOk(Looks(values[..|values| - 1]), values[|values| - 1]);
    }
  }

  lemma {:induction false} OrderlyIsSingle(events: seq<Event>, n: nat)
    requires Orderly(events) && n <= |events|
    ensures |Live(events[..n])| <= 1
  {
    if n > 0 {
      var before := events[..n - 1];
      OrderlyIsSingle(events, n - 1);
      assert MayFollow(before, events[n - 1]);
      assert events[..n] == before + [events[n - 1]];
      LiveAppend(before, events[n - 1]);
      if events[n - 1].Joined? {
        SubsetSize(Live(before) - {events[n - 1].generation}, Live(before));
      }
    }
  }

  /** Supervisor safety for every history of the watch, coalesced or not: at every moment at most one
      generation is live; each is cancelled after the follower callback and joined before the next
      starts; while parked, a worker is held exactly when the value last seen is true; and nothing is
      left when the sender goes away. */
  lemma SupervisionIsSafe(values: seq<bool>, n: nat)
    requires n <= |Stop(Looks(values)).events|
    ensures |Live(Stop(Looks(values)).events[..n])| <= 1
    ensures Orderly(Stop(Looks(values)).events)
    ensures values != [] ==> (Looks(values).worker.Some? <==> values[|values| - 1])
    ensures Live(Looks(values).events) == (if Looks(values).worker.Some? then {Looks(values).worker.value} else {})
    ensures Live(Stop(Looks(values)).events) == {}
  {
    LooksOk(values);
    StopOk(Looks(values));
    OrderlyIsSingle(Stop(Looks(values)).events, n);
  }

  /** The last value seen is the last value sent, if anything was sent. */
  lemma {:induction false} SeesLatest(initial: bool, batches: seq<seq<bool>>)
    ensures |Seen(initial, batches)| == |batches|
    ensures batches != [] && batches[|batches| - 1] != [] ==>
      var batch := batches[|batches| - 1];
      Seen(initial, batches)[|batches| - 1] == batch[|batch| - 1]
  {
    if batches != [] {
      SeesLatest(initial, batches[..|batches| - 1]);
    }
  }

  // ------------------------------------------------------------------- what is done, and how often

  function Callbacks(events: seq<Event>): nat {
    if events == [] then 0
    else Callbacks(events[..|events| - 1]) + (if events[|events| - 1].FollowerCallback? then 1 else 0)
  }

  function Starts(events: seq<Event>): nat {
    if events == [] then 0
    else Starts(events[..|events| - 1]) + (if events[|events| - 1].Started? then 1 else 0)
  }

  lemma CountsAppend(events: seq<Event>, e: Event)
    ensures Callbacks(events + [e]) == Callbacks(events) + (if e.FollowerCallback? then 1 else 0)
    ensures Starts(events + [e]) == Starts(events) + (if e.Started? then 1 else 0)
  {
    assert (events + [e])[..|events|] == events;
  }

  lemma StopCounts(r: Run)
    ensures Callbacks(Stop(r).events) == Callbacks(r.events) + 1 && Starts(Stop(r).events) == Starts(r.events)
  {
    var told := r.events + [FollowerCallback];
    CountsAppend(r.events, FollowerCallback);
    if r.worker.Some? {
      CountsAppend(told, Cancelled(r.worker.value));
      CountsAppend(told + [Cancelled(r.worker.value)], Joined(r.worker.value));
    }
  }

  /** How often the value seen was false. */
  function Falses(values: seq<bool>): nat {
    if values == [] then 0 else Falses(values[..|values| - 1]) + (if values[|values| - 1] then 0 else 1)
  }

  /** How often it turned true. */
  function Rises(values: seq<bool>): nat {
    if values == [] then 0
    else
      var init := values[..|values| - 1];
      Rises(init) + (if values[|values| - 1] && (init == [] || !init[|init| - 1]) then 1 else 0)
  }

  /** The follower callback is made at every look that finds no leadership, worker or not, and once at the end;
      a generation is started exactly when leadership is first seen again. */
  lemma {:induction false} EveryLookActs(values: seq<bool>)
    ensures Callbacks(Looks(values).events) == Falses(values)
    ensures Callbacks(Stop(Looks(values)).events) == Falses(values) + 1
    ensures Starts(Looks(values).events) == Rises(values)
  {
    StopCounts(Looks(values));
    if values != [] {
      var init := values[..|values| - 1];
      EveryLookActs(init);
      LooksOk(init);
      StopCounts(Looks(init));
      CountsAppend(Looks(init).events, Started(Looks(init).started));
    }
  }
}
