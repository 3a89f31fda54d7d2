/**
 The contender loop (`run_election_loop`): one observation per attempt, and the monitor calls and
 watch updates it makes.
 */
module ElectionLoop {
  import opened Wrappers
  import opened LeaseClaim
  import opened Belief
  import opened Monitor

  /** Something the loop does to the rest of the process. */
  datatype Action = Notify(call: Call) | Send(value: bool)

  /** The actions one event causes, in order; `transitions` is the belief's count after it. */
  function Actions(event: ElectionEvent, transitions: nat): seq<Action> {
    match event
    case Acquired(n) => [Notify(LeaderAcquired(n)), Send(true)]
    case Renewed(n) => [Notify(LeaderRenewed(n))]
    case Following(holder, n) => [Notify(LeaderFollower(holder, n))]
    case Lost(holder, n) => [Notify(LeaderLost(holder, n)), Send(false)]
    case ConflictSeen(renewal, lost) =>
      [Notify(LeaseConflict)] + (if renewal then [Notify(ApiFailure(true))] else []) + Drop(lost, transitions)
    case Failure(error, renewal, lost) => [Notify(ApiFailure(renewal))] + Drop(lost, transitions)
  }

  function Drop(lost: bool, transitions: nat): seq<Action> {
    if lost then [Notify(LeaderLost(None, transitions)), Send(false)] else []
  }

  /** The calls other tasks of the process make on the monitor (`run_full_resync_loop`,
      `run_leader_routing_loop`, `run_worker_generation`). */
  predicate OtherTaskCall(call: Call) {
    call.Routing? || call.RoutingFailure? || call.MarkUnavailable? || call.Attempt?
  }

  /** Leadership as the monitor will report it once `actions` are done. */
  function LeaderAfter(leader: bool, actions: seq<Action>): bool
    decreases |actions|
  {
    if actions == [] then leader
    else LeaderAfter(if actions[0].Notify? then LeaderAfterCall(leader, actions[0].call) else leader, actions[1..])
  }

  function LeaderAfterCall(leader: bool, call: Call): bool {
    if EpochCall(call) then call.LeaderAcquired? else leader
  }

  /** The watch value once `actions` are done. */
  function WatchAfter(value: bool, actions: seq<Action>): bool
    decreases |actions|
  {
    if actions == [] then value
    else WatchAfter(if actions[0].Send? then actions[0].value else value, actions[1..])
  }

  /** The snapshot once the monitor calls among `actions` are made. */
  function SnapshotAfter(s: Snapshot, actions: seq<Action>): Snapshot
    decreases |actions|
  {
    if actions == [] then s
    else SnapshotAfter(if actions[0].Notify? then Apply(s, actions[0].call) else s, actions[1..])
  }

  lemma {:induction false} AfterConcat(s: Snapshot, b: bool, first: seq<Action>, second: seq<Action>)
    ensures SnapshotAfter(s, first + second) == SnapshotAfter(SnapshotAfter(s, first), second)
    ensures LeaderAfter(b, first + second) == LeaderAfter(LeaderAfter(b, first), second)
    ensures WatchAfter(b, first + second) == WatchAfter(WatchAfter(b, first), second)
    decreases |first|
  {
    if first == [] {
      assert first + second == second;
    } else {
      assert (first + second)[1..] == first[1..] + second;
      var s' := if first[0].Notify? then Apply(s, first[0].call) else s;
      AfterConcat(s', if first[0].Notify? then LeaderAfterCall(b, first[0].call) else b, first[1..], second);
      AfterConcat(s', if first[0].Send? then first[0].value else b, first[1..], second);
    }
  }

  lemma AfterOne(s: Snapshot, b: bool, action: Action)
    ensures SnapshotAfter(s, [action]) == if action.Notify? then Apply(s, action.call) else s
    ensures LeaderAfter(b, [action]) == if action.Notify? then LeaderAfterCall(b, action.call) else b
    ensures WatchAfter(b, [action]) == if action.Send? then action.value else b
  {
    assert [action][1..] == [];
  }

  lemma AfterTwo(s: Snapshot, b: bool, call: Call, value: bool)
    ensures SnapshotAfter(s, [Notify(call), Send(value)]) == Apply(s, call)
    ensures LeaderAfter(b, [Notify(call), Send(value)]) == LeaderAfterCall(b, call)
    ensures WatchAfter(b, [Notify(call), Send(value)]) == value
  {
    assert [Notify(call), Send(value)] == [Notify(call)] + [Send(value)];
    AfterConcat(s, b, [Notify(call)], [Send(value)]);
    AfterOne(s, b, Notify(call));
    AfterOne(Apply(s, call), LeaderAfterCall(b, call), Send(value));
    AfterOne(s, b, Send(value));
  }

  lemma AfterDrop(s: Snapshot, b: bool, lost: bool, n: nat)
    ensures SnapshotAfter(s, Drop(lost, n)) == if lost then Apply(s, LeaderLost(None, n)) else s
    ensures LeaderAfter(b, Drop(lost, n)) == (b && !lost)
    ensures WatchAfter(b, Drop(lost, n)) == (b && !lost)
  {
    AfterTwo(s, b, LeaderLost(None, n), false);
  }

  /** The snapshot each event leads to, spelled out. */
  function EventOutcome(s: Snapshot, event: ElectionEvent, n: nat): Snapshot {
    match event
    case Acquired(k) => Apply(s, LeaderAcquired(k))
    case Renewed(k) => Apply(s, LeaderRenewed(k))
    case Following(holder, k) => Apply(s, LeaderFollower(holder, k))
    case Lost(holder, k) => Apply(s, LeaderLost(holder, k))
    case ConflictSeen(renewal, lost) =>
      var noted := Apply(s, LeaseConflict);
      var failed := if renewal then Apply(noted, ApiFailure(true)) else noted;
      if lost then Apply(failed, LeaderLost(None, n)) else failed
    case Failure(error, renewal, lost) =>
      var failed := Apply(s, ApiFailure(renewal));
      if lost then Apply(failed, LeaderLost(None, n)) else failed
  }

  /** The value `b` each event leads to: set by an acquisition, cleared by a loss, kept otherwise. */
  predicate EventKeeps(b: bool, event: ElectionEvent) {
    event.Acquired? || (b && !event.Lost? && !(event.ConflictSeen? && event.lost) && !(event.Failure? && event.lost))
  }

  lemma AfterActions(s: Snapshot, b: bool, event: ElectionEvent, n: nat)
    ensures SnapshotAfter(s, Actions(event, n)) == EventOutcome(s, event, n)
    ensures LeaderAfter(b, Actions(event, n)) == (EventKeeps(b, event) && !event.Following?)
    ensures WatchAfter(b, Actions(event, n)) == EventKeeps(b, event)
  {
    match event
    case Acquired(k) => AfterTwo(s, b, LeaderAcquired(k), true);
    case Renewed(k) => AfterOne(s, b, Notify(LeaderRenewed(k)));
    case Following(holder, k) => AfterOne(s, b, Notify(LeaderFollower(holder, k)));
    case Lost(holder, k) => AfterTwo(s, b, LeaderLost(holder, k), false);
    case ConflictSeen(renewal, lost) =>
      var noted := Apply(s, LeaseConflict);
      var note, fail := [Notify(LeaseConflict)], if renewal then [Notify(ApiFailure(true))] else [];
      AfterConcat(s, b, note + fail, Drop(lost, n));
      AfterConcat(s, b, note, fail);
      AfterOne(s, b, Notify(LeaseConflict));
      AfterOne(noted, b, Notify(ApiFailure(true)));
      AfterDrop(if renewal then Apply(noted, ApiFailure(true)) else noted, b, lost, n);
    case Failure(error, renewal, lost) =>
      AfterConcat(s, b, [Notify(ApiFailure(renewal))], Drop(lost, n));
      AfterOne(s, b, Notify(ApiFailure(renewal)));
      AfterDrop(Apply(s, ApiFailure(renewal)), b, lost, n);
  }

  /** Whatever the result, the actions bring the monitor and the watch to the new belief. */
  lemma ActionsReachBelief(s: Snapshot, b: BeliefState, now: int, deadline: int, r: ClaimResult)
    ensures var (after, event) := Observe(b, now, deadline, r);
      && LeaderAfter(b.leader, Actions(event, after.transitions)) == after.leader
      && WatchAfter(b.leader, Actions(event, after.transitions)) == after.leader
  {
    var (after, event) := Observe(b, now, deadline, r);
    AfterActions(s, b.leader, event, after.transitions);
  }

  /** ... and so do the monitor calls they make. */
  lemma OutcomeLeader(s: Snapshot, b: BeliefState, now: int, deadline: int, r: ClaimResult)
    requires s.flags.leader == b.leader
    ensures var (after, event) := Observe(b, now, deadline, r);
      EventOutcome(s, event, after.transitions).flags.leader == after.leader == EventKeeps(b.leader, event)
  {
  }

  lemma CallBalanced(s: Snapshot, call: Call)
    requires Balanced(s) && !call.Enable?
    requires call.LeaderAcquired? || call.LeaderFollower? ==> !s.flags.leader
    ensures Balanced(Apply(s, call))
  {
  }

  /** The counters stay balanced. */
  lemma OutcomeBalanced(s: Snapshot, event: ElectionEvent, n: nat)
    requires Balanced(s) && (event.Acquired? || event.Following? ==> !s.flags.leader)
    ensures Balanced(EventOutcome(s, event, n))
  {
    match event
    case Acquired(k) => CallBalanced(s, LeaderAcquired(k));
    case Renewed(k) => CallBalanced(s, LeaderRenewed(k));
    case Following(holder, k) => CallBalanced(s, LeaderFollower(holder, k));
    case Lost(holder, k) => CallBalanced(s, LeaderLost(holder, k));
    case ConflictSeen(renewal, lost) =>
      var noted := Apply(s, LeaseConflict);
      CallBalanced(s, LeaseConflict);
      CallBalanced(noted, ApiFailure(true));
      CallBalanced(if renewal then Apply(noted, ApiFailure(true)) else noted, LeaderLost(None, n));
    case Failure(error, renewal, lost) =>
      CallBalanced(s, ApiFailure(renewal));
      CallBalanced(Apply(s, ApiFailure(renewal)), LeaderLost(None, n));
  }

  // ------------------------------------------------------ what a turn leaves, result by result

  predicate Held(r: ClaimResult) {
    r.Ok? && r.value.Holder?
  }

  /** The leadership of `b` ends with this result. */
  predicate Ends(b: BeliefState, now: int, deadline: int, r: ClaimResult) {
    b.leader && ((r.Ok? && r.value.Follower?) || (r.Err? && !StillFresh(b, now, deadline)))
  }

  /** The snapshot after all calls a result causes. */
  function TurnSnapshot(s: Snapshot, b: BeliefState, now: int, deadline: int, r: ClaimResult): Snapshot {
    SnapshotAfter(s, Actions(Observe(b, now, deadline, r).1, Observe(b, now, deadline, r).0.transitions))
  }

  lemma TurnOutcome(s: Snapshot, b: BeliefState, now: int, deadline: int, r: ClaimResult)
    ensures TurnSnapshot(s, b, now, deadline, r)
      == EventOutcome(s, Observe(b, now, deadline, r).1, Observe(b, now, deadline, r).0.transitions)
  {
    AfterActions(s, b.leader, Observe(b, now, deadline, r).1, Observe(b, now, deadline, r).0.transitions);
  }

  /** What is counted: a conflict with every conflict, a failed renewal with every error of a leader, a failed
      acquisition with every other error but a conflict, an acquisition and a loss with every change. */
  lemma TurnCounts(s: Snapshot, b: BeliefState, now: int, deadline: int, r: ClaimResult)
    requires s.flags.leader == b.leader
    ensures var t, t' := s.tally, TurnSnapshot(s, b, now, deadline, r).tally;
      && t'.conflicts == (if r == Err(Conflict) then Bump(t.conflicts) else t.conflicts)
      && t'.renewFailures == (if b.leader && r.Err? then Bump(t.renewFailures) else t.renewFailures)
      && t'.acquireFailures == (if !b.leader && r.Err? && r.error != Conflict then Bump(t.acquireFailures)
           else t.acquireFailures)
      && t'.acquisitions == (if !b.leader && Held(r) then Bump(t.acquisitions) else t.acquisitions)
      && t'.losses == (if Ends(b, now, deadline, r) then Bump(t.losses) else t.losses)
  {
    TurnOutcome(s, b, now, deadline, r);
    EventExactly(b, now, deadline, r);
  }

  /** What is recorded of the holder, and what is left alone. */
  lemma TurnRecords(s: Snapshot, b: BeliefState, now: int, deadline: int, r: ClaimResult)
    ensures var t, t' := s.tally, TurnSnapshot(s, b, now, deadline, r).tally;
      && t'.observedHolder == (if Held(r) then t.identity else if r.Ok? then r.value.holder
           else if Ends(b, now, deadline, r) then None else t.observedHolder)
      && t'.observedTransitions == (if r.Ok? then r.value.transitions
           else if Ends(b, now, deadline, r) then b.transitions else t.observedTransitions)
      && t'.identity == t.identity && t'.lastResult == t.lastResult && t'.successes == t.successes
      && t'.partials == t.partials && t'.failures == t.failures && t'.routingFailures == t.routingFailures
  {
    TurnOutcome(s, b, now, deadline, r);
    EventExactly(b, now, deadline, r);
  }

  /** The flags are left alone by a renewal and by an error that ends nothing; otherwise nothing is proved any
      more, and leadership is what the result made it. */
  lemma TurnFlags(s: Snapshot, b: BeliefState, now: int, deadline: int, r: ClaimResult)
    requires s.flags.leader == b.leader
    ensures var f, f' := s.flags, TurnSnapshot(s, b, now, deadline, r).flags;
      && ((b.leader && Held(r)) || (r.Err? && !Ends(b, now, deadline, r)) ==> f' == f)
      && (!(b.leader && Held(r)) && (r.Ok? || Ends(b, now, deadline, r)) ==>
            && f'.leader == Held(r) && !f'.leaderReady && !f'.routingReady && !f'.ready && !f'.degraded
            && !f'.startupResyncComplete
            && f'.electionEnabled == f.electionEnabled && f'.dispatchEnabled == f.dispatchEnabled)
  {
    TurnOutcome(s, b, now, deadline, r);
    EventExactly(b, now, deadline, r);
  }

  /** One turn of the loop: what the other tasks did meanwhile, then how the attempt ended. */
  datatype Turn = Turn(others: seq<Call>, now: int, result: ClaimResult)

  /** A watch channel's current value. */
  class Watch {
    var value: bool

    constructor ()
      ensures !value
    {
      value := false;
    }
  }

  predicate Agree(belief: BeliefState, s: Snapshot, watch: bool) {
    belief.leader == s.flags.leader == watch
  }

  /** Acquisitions outnumber losses by one exactly while leading, until a counter saturates. */
  predicate Balanced(s: Snapshot) {
    s.tally.acquisitions < U64_MAX && s.tally.losses < U64_MAX ==>
      s.tally.acquisitions - s.tally.losses == if s.flags.leader then 1 else 0
  }

  /** Calls of the other tasks, made through the monitor's methods. */
  method OtherTasks(monitor: RecoveryMonitor, calls: seq<Call>)
    requires forall c :: c in calls ==> OtherTaskCall(c)
    modifies monitor
    ensures monitor.flags.leader == old(monitor.flags.leader)
    ensures monitor.tally.acquisitions == old(monitor.tally.acquisitions)
    ensures monitor.tally.losses == old(monitor.tally.losses)
    ensures monitor.View() == ApplyAll(old(monitor.View()), calls)
  {
    for i := 0 to |calls|
      invariant monitor.flags.leader == old(monitor.flags.leader)
      invariant monitor.tally.acquisitions == old(monitor.tally.acquisitions)
      invariant monitor.tally.losses == old(monitor.tally.losses)
      invariant monitor.View() == ApplyAll(old(monitor.View()), calls[..i])
    {
      assert calls[..i + 1][..i] == calls[..i];
      assert calls[i] in calls;
      OtherTask(monitor, calls[i]);
    }
    assert calls[..|calls|] == calls;
  }

  method OtherTask(monitor: RecoveryMonitor, call: Call)
    requires OtherTaskCall(call)
    modifies monitor
    ensures monitor.View() == Apply(old(monitor.View()), call)
    ensures monitor.flags.leader == old(monitor.flags.leader)
    ensures monitor.tally.acquisitions == old(monitor.tally.acquisitions)
    ensures monitor.tally.losses == old(monitor.tally.losses)
  {
    if call.Routing? {
      monitor.RecordLeaderRouting(call.published);
    } else if call.RoutingFailure? {
      monitor.RecordLeaderRoutingFailure();
    } else if call.MarkUnavailable? {
      monitor.RecordUnavailable();
    } else {
      monitor.RecordAttempt(call.result, call.repositories);
    }
  }

  /** The calls an event causes on the monitor and the watch. */
  method HandleEvent(monitor: RecoveryMonitor, watch: Watch, event: ElectionEvent, transitions: nat)
    modifies monitor, watch
    ensures monitor.View() == EventOutcome(old(monitor.View()), event, transitions)
    ensures watch.value == EventKeeps(old(watch.value), event)
  {
    match event {
      case Acquired(n) =>
        monitor.RecordLeaderAcquired(n);
        watch.value := true;
      case Renewed(n) =>
        monitor.RecordLeaderRenewed(n);
      case Following(holder, n) =>
        monitor.RecordLeaderFollower(holder, n);
      case Lost(holder, n) =>
        monitor.RecordLeaderLost(holder, n);
        watch.value := false;
      case ConflictSeen(renewal, lost) =>
        monitor.RecordLeaderConflict();
        if renewal {
          monitor.RecordLeaderApiFailure(true);
        }
        if lost {
          monitor.RecordLeaderLost(None, transitions);
          watch.value := false;
        }
      case Failure(error, renewal, lost) =>
        monitor.RecordLeaderApiFailure(renewal);
        if lost {
          monitor.RecordLeaderLost(None, transitions);
          watch.value := false;
        }
    }
  }

  /** The body of the loop after an attempt has ended: observe, then tell the monitor and the watch. */
  method HandleResult(state: ElectionState, monitor: RecoveryMonitor, watch: Watch, t: Timing, now: int, r: ClaimResult)
    requires Agree(state.View(), monitor.View(), watch.value)
    modifies state, monitor, watch
    ensures state.View() == Observe(old(state.View()), now, t.D(), r).0
    ensures Agree(state.View(), monitor.View(), watch.value)
    ensures old(Balanced(monitor.View())) ==> Balanced(monitor.View())
    ensures monitor.View() == SnapshotAfter(old(monitor.View()),
      Actions(Observe(old(state.View()), now, t.D(), r).1, state.transitions))
  {
    OutcomeLeader(monitor.View(), state.View(), now, t.D(), r);
    var event := state.ObserveResult(now, t.D(), r);
    if Balanced(monitor.View()) {
      OutcomeBalanced(monitor.View(), event, state.transitions);
    }
    AfterActions(monitor.View(), watch.value, event, state.transitions);
    HandleEvent(monitor, watch, event, state.transitions);
  }

  /** Any finite run of the loop, started as `spawn_leader_election` starts it: belief, monitor and watch
      agree after every turn, and the counters balance. */
  method RunElectionLoop(t: Timing, id: string, turns: seq<Turn>)
      returns (leader: bool, monitor: RecoveryMonitor, watch: Watch)
    requires forall i, c :: 0 <= i < |turns| && c in turns[i].others ==> OtherTaskCall(c)
    ensures leader == monitor.flags.leader == watch.value
    ensures leader == BeliefAfter(t, turns).leader
    ensures Balanced(monitor.View())
    ensures fresh(monitor) && fresh(watch)
  {
    monitor := new RecoveryMonitor(true);
    monitor.EnableLeaderElection(id);
    watch := new Watch();
    var state := new ElectionState();
    for i := 0 to |turns|
      invariant fresh(monitor) && fresh(watch) && fresh(state)
      invariant state.View() == BeliefAfter(t, turns[..i])
      invariant Agree(state.View(), monitor.View(), watch.value)
      invariant Balanced(monitor.View())
    {
      assert turns[..i + 1][..i] == turns[..i];
      OtherTasks(monitor, turns[i].others);
      HandleResult(state, monitor, watch, t, turns[i].now, turns[i].result);
    }
    assert turns[..|turns|] == turns;
    leader := state.leader;
  }

  function BeliefAfter(t: Timing, turns: seq<Turn>): BeliefState {
    if turns == [] then NO_BELIEF
    else
      var last := turns[|turns| - 1];
      Observe(BeliefAfter(t, turns[..|turns| - 1]), last.now, t.D(), last.result).0
  }
}
