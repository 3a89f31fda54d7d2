/**
 The whole election: any number of replicas contending for one Lease under one clock.

 Each replica runs the contender loop: an attempt starts one retry period after the previous one,
 may last at most one retry period, reads the Lease, and writes under the version it read. Reads,
 writes and answers of different replicas interleave freely; an attempt may fail at any moment, its
 write may land after it was given up on or never, and a process may stop and be replaced at any
 time. Timers fire on time: the clock cannot pass an instant at which a replica still has something
 due.
 */
module ElectionSystem {
  import opened Wrappers
  import opened LeaseClaim
  import opened Belief
  import opened Monitor
  import opened ElectionLoop

  /** `ownTimeoutFirst` breaks ties: at one instant, what a leading replica still has to do comes before
      another replica's next attempt. */
  datatype Params = Params(timing: Timing, ownTimeoutFirst: bool)

  datatype Fate = InFlight | Answered(response: Result<Lease, LeaseApiError>)

  /** A write on its way to the API server, kept after it has been answered. */
  datatype Request = Request(owner: string, stamp: int, write: Decision, fate: Fate)

  datatype Progress = Reading | Waiting(request: nat) | Replied(result: ClaimResult)

  datatype Phase = Down | Idle(next: int) | Busy(started: int, progress: Progress)

  /** One process. `outbox` is what the loop has still to do about its latest observation. The last three
      fields are history: when the latest attempt started, the stamp of the latest confirmed claim, and
      how many attempts have started since. */
  datatype Replica = Replica(
    phase: Phase,
    belief: BeliefState,
    monitor: Snapshot,
    watch: bool,
    outbox: seq<Action>,
    lastStart: int,
    stamp: int,
    missed: nat)

  /** A write that took effect, and the version it took effect under (history). */
  datatype Entry = Entry(owner: string, stamp: int, spec: LeaseSpec, request: nat, version: nat)

  datatype State = State(
    now: int,
    store: Store,
    requests: seq<Request>,
    log: seq<Entry>,
    replicas: map<string, Replica>)

  datatype Step =
    | Boot(id: string)
    | Crash(id: string)
    | Start(id: string)
    | Read(id: string)
    | Arrive(request: nat)
    | End(id: string, result: ClaimResult)
    | Deliver(id: string)
    | Other(id: string, call: Call)
    | Tick(to: int)

  /** A process that is not running, as its successor will find itself. Whether it dispatches pods is its
      configuration. */
  function Stopped(id: string, lastStart: int, dispatch: bool): Replica {
    Replica(Down, NO_BELIEF, Apply(NewSnapshot(dispatch), Enable(id)), false, [], lastStart, 0, 0)
  }

  predicate Dispatch(r: Replica) {
    r.monitor.flags.dispatchEnabled
  }

  /** Any Lease may already be there; no process runs yet. */
  predicate Init(s: State) {
    && s.requests == [] && s.log == []
    && (s.store.lease.Some? && s.store.lease.value.resourceVersion.Some? ==>
          s.store.lease.value.resourceVersion.value <= s.store.nextVersion)
    && forall id :: id in s.replicas ==>
         && IsIdentity(id)
         && s.replicas[id].lastStart < s.now
         && s.replicas[id] == Stopped(id, s.replicas[id].lastStart, Dispatch(s.replicas[id]))
  }

  /** Leads in any sense: by its belief, its monitor or its watch. */
  predicate Leads(r: Replica) {
    r.belief.leader || r.monitor.flags.leader || r.watch
  }

  predicate DueNow(p: Params, s: State, r: Replica) {
    r.outbox != [] || (r.phase.Busy? && r.phase.started + p.timing.R() == s.now)
  }

  /** The ways an attempt may end: an error at any time, or the answer it is waiting for. */
  predicate Possible(s: State, id: string, progress: Progress, result: ClaimResult) {
    || result.Err?
    || progress == Replied(result)
    || (&& progress.Waiting? && progress.request < |s.requests|
        && var request := s.requests[progress.request];
           && request.fate.Answered? && !request.write.Done?
           && result == Finish(request.write, id, request.fate.response))
  }

  predicate MayReach(p: Params, r: Replica, to: int) {
    && r.outbox == []
    && (r.phase.Idle? ==> to <= r.phase.next)
    && (r.phase.Busy? ==> to <= r.phase.started + p.timing.R())
  }

  predicate Enabled(p: Params, s: State, step: Step) {
    match step
    case Boot(id) => id in s.replicas && s.replicas[id].phase.Down? && s.replicas[id].lastStart < s.now
    case Crash(id) => id in s.replicas && !s.replicas[id].phase.Down?
    case Start(id) =>
      && id in s.replicas && s.replicas[id].phase == Idle(s.now) && s.replicas[id].outbox == []
      && (p.ownTimeoutFirst ==>
            forall k :: k in s.replicas && k != id && Leads(s.replicas[k]) ==> !DueNow(p, s, s.replicas[k]))
    case Read(id) => id in s.replicas && s.replicas[id].phase.Busy? && s.replicas[id].phase.progress.Reading?
    case Arrive(q) => q < |s.requests| && s.requests[q].fate.InFlight? && !s.requests[q].write.Done?
    case End(id, result) =>
      id in s.replicas && s.replicas[id].phase.Busy? && Possible(s, id, s.replicas[id].phase.progress, result)
    case Deliver(id) => id in s.replicas && s.replicas[id].outbox != []
    case Other(id, call) => id in s.replicas && !s.replicas[id].phase.Down? && OtherTaskCall(call)
    case Tick(to) => s.now < to && forall id :: id in s.replicas ==> MayReach(p, s.replicas[id], to)
  }

  function Put(s: State, id: string, r: Replica): State {
    s.(replicas := s.replicas[id := r])
  }

  function AfterRead(p: Params, s: State, id: string): State
    requires id in s.replicas && s.replicas[id].phase.Busy?
  {
    var r := s.replicas[id];
    var stamp := r.phase.started;
    var decision := Decide(Fetch(s.store), p.timing, id, stamp);
    if decision.Done? then Put(s, id, r.(phase := Busy(stamp, Replied(decision.result))))
    else
      Put(s, id, r.(phase := Busy(stamp, Waiting(|s.requests|))))
        .(requests := s.requests + [Request(id, stamp, decision, InFlight)])
  }

  function AfterArrive(s: State, q: nat): State
    requires q < |s.requests| && !s.requests[q].write.Done?
  {
    var request := s.requests[q];
    var (store, response) := Land(s.store, request.write);
    var entry := Entry(request.owner, request.stamp, SpecOf(request.write.lease), q, store.nextVersion);
    s.(store := store,
       requests := s.requests[q := request.(fate := Answered(response))],
       log := if response.Ok? then s.log + [entry] else s.log)
  }

  /** Observation and the history that goes with it; the next attempt is one period after this one. */
  function AfterEnd(p: Params, s: State, id: string, result: ClaimResult): State
    requires id in s.replicas && s.replicas[id].phase.Busy?
  {
    var r := s.replicas[id];
    var (belief, event) := Observe(r.belief, s.now, p.timing.D(), result);
    var confirmed := result.Ok? && result.value.Holder?;
    Put(s, id, r.(
      phase := Idle(r.phase.started + p.timing.R()),
      belief := belief,
      outbox := Actions(event, belief.transitions),
      stamp := if confirmed then r.phase.started else r.stamp,
      missed := if confirmed then 1 else r.missed + 1))
  }

  function AfterDeliver(s: State, id: string): State
    requires id in s.replicas && s.replicas[id].outbox != []
  {
    var r := s.replicas[id];
    var rest := r.(outbox := r.outbox[1..]);
    match r.outbox[0]
    case Notify(call) => Put(s, id, rest.(monitor := Apply(r.monitor, call)))
    case Send(value) => Put(s, id, rest.(watch := value))
  }

  function AfterStop(s: State, id: string): Replica
    requires id in s.replicas
  {
    Stopped(id, s.replicas[id].lastStart, Dispatch(s.replicas[id]))
  }

  function After(p: Params, s: State, step: Step): State
    requires Enabled(p, s, step)
  {
    match step
    case Boot(id) => Put(s, id, AfterStop(s, id).(phase := Idle(s.now)))
    case Crash(id) => Put(s, id, AfterStop(s, id))
    case Start(id) => Put(s, id, s.replicas[id].(phase := Busy(s.now, Reading), lastStart := s.now))
    case Read(id) => AfterRead(p, s, id)
    case Arrive(q) => AfterArrive(s, q)
    case End(id, result) => AfterEnd(p, s, id, result)
    case Deliver(id) => AfterDeliver(s, id)
    case Other(id, call) => Put(s, id, s.replicas[id].(monitor := Apply(s.replicas[id].monitor, call)))
    case Tick(to) => s.(now := to)
  }

  predicate Valid(p: Params, s: State, steps: seq<Step>)
    decreases |steps|
  {
    steps == [] || (Enabled(p, s, steps[0]) && Valid(p, After(p, s, steps[0]), steps[1..]))
  }

  function Run(p: Params, s: State, steps: seq<Step>): State
    requires Valid(p, s, steps)
    decreases |steps|
  {
    if steps == [] then s else Run(p, After(p, s, steps[0]), steps[1..])
  }

  ghost predicate Reachable(p: Params, s: State) {
    exists s0: State, steps: seq<Step> :: Init(s0) && Valid(p, s0, steps) && Run(p, s0, steps) == s
  }

  lemma {:induction false} RunAppend(p: Params, s: State, steps: seq<Step>, step: Step)
    requires Valid(p, s, steps) && Enabled(p, Run(p, s, steps), step)
    ensures Valid(p, s, steps + [step])
    ensures Run(p, s, steps + [step]) == After(p, Run(p, s, steps), step)
    decreases |steps|
  {
    if steps == [] {
      assert (steps + [step])[1..] == [];
    } else {
      assert (steps + [step])[1..] == steps[1..] + [step];
      RunAppend(p, After(p, s, steps[0]), steps[1..], step);
    }
  }

  lemma ReachNext(p: Params, s: State, step: Step)
    requires Reachable(p, s) && Enabled(p, s, step)
    ensures Reachable(p, After(p, s, step))
  {
    var s0: State, steps: seq<Step> :| Init(s0) && Valid(p, s0, steps) && Run(p, s0, steps) == s;
    RunAppend(p, s0, steps, step);
  }

  lemma ReachInit(p: Params, s: State)
    requires Init(s)
    ensures Reachable(p, s)
  {
    assert Valid(p, s, []);
  }

  // ------------------------------------------------------------------- the claims

  function CeilDiv(a: int, b: int): int
    requires b > 0
  {
    (a + b - 1) / b
  }

  /** The longest a leader can keep believing after the stamp of its latest confirmed claim. */
  function WindowSecs(t: Timing): int
    requires t.retrySecs > 0
  {
    (CeilDiv(t.renewSecs, t.retrySecs) + 2) * t.retrySecs
  }

  /** The condition on the configuration under which at most one replica leads. */
  predicate Safe(p: Params)
    requires p.timing.retrySecs > 0
  {
    || WindowSecs(p.timing) < p.timing.leaseSecs
    || (p.ownTimeoutFirst && WindowSecs(p.timing) <= p.timing.leaseSecs)
  }

  predicate Believes(s: State, id: string) {
    id in s.replicas && s.replicas[id].belief.leader
  }

  /** The replica runs and its traffic gate passes requests. */
  predicate Serves(s: State, id: string) {
    id in s.replicas && !s.replicas[id].phase.Down? && Admits(true, s.replicas[id].monitor)
  }
}
