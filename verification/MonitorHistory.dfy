/**
 What the monitor's flags and counters say of a whole history of calls.
 */
module MonitorHistory {
  import opened Wrappers
  import opened Monitor

  /** The latest call of a kind. */
  function Latest(calls: seq<Call>, kind: Call -> bool): (r: Option<Call>)
    ensures r.Some? ==> kind(r.value)
  {
    if calls == [] then None
    else if kind(calls[|calls| - 1]) then Some(calls[|calls| - 1])
    else Latest(calls[..|calls| - 1], kind)
  }

  /** How many calls of a kind there were. */
  function Number(calls: seq<Call>, kind: Call -> bool): nat {
    if calls == [] then 0
    else Number(calls[..|calls| - 1], kind) + (if kind(calls[|calls| - 1]) then 1 else 0)
  }

  /** There was one, and it was a successful resync. */
  predicate Succeeded(call: Option<Call>) {
    call.Some? && call.value.Attempt? && call.value.result == Success
  }

  /** There was one, and it was not. */
  predicate WentBad(call: Option<Call>) {
    call.Some? && !(call.value.Attempt? && call.value.result == Success)
  }

  lemma LatestAppend(calls: seq<Call>, call: Call, kind: Call -> bool)
    ensures Latest(calls + [call], kind) == if kind(call) then Some(call) else Latest(calls, kind)
    ensures Number(calls + [call], kind) == Number(calls, kind) + (if kind(call) then 1 else 0)
  {
    assert (calls + [call])[..|calls|] == calls;
  }

  // ------------------------------------------------------------------ without election

  /** What overturns readiness where there is no election: bad news of recovery, or of routing. */
  function Unsettling(dispatch: bool): Call -> bool {
    (call: Call) => call.Attempt? || (call.MarkUnavailable? && dispatch) || call.RoutingFailure?
  }

  predicate NoEpochCalls(calls: seq<Call>) {
    forall i :: 0 <= i < |calls| ==> !EpochCall(calls[i])
  }

  /** What the flags say of a history without election. */
  predicate PlainFlags(f: Flags, dispatch: bool, calls: seq<Call>) {
    && !f.electionEnabled && !f.leader && f.dispatchEnabled == dispatch
    && (f.ready <==> if Latest(calls, Unsettling(dispatch)).None? then !dispatch
          else Succeeded(Latest(calls, Unsettling(dispatch))))
    && (f.degraded <==> WentBad(Latest(calls, RecoveryCall(dispatch))))
    && (f.startupResyncComplete <==> !dispatch || Number(calls, ResyncSucceeded) > 0)
  }

  lemma PlainFlagsStep(f: Flags, dispatch: bool, calls: seq<Call>, call: Call)
    requires PlainFlags(f, dispatch, calls) && !EpochCall(call)
    ensures PlainFlags(FlagsAfter(f, call), dispatch, calls + [call])
  {
    LatestAppend(calls, call, Unsettling(dispatch));
    LatestAppend(calls, call, RecoveryCall(dispatch));
    LatestAppend(calls, call, ResyncSucceeded);
  }

  lemma {:induction false} PlainHistory(dispatch: bool, calls: seq<Call>)
    requires NoEpochCalls(calls)
    ensures PlainFlags(FlagsAll(NewSnapshot(dispatch).flags, calls), dispatch, calls)
  {
    if calls != [] {
      var n := |calls| - 1;
      PlainHistory(dispatch, calls[..n]);
      PlainFlagsStep(FlagsAll(NewSnapshot(dispatch).flags, calls[..n]), dispatch, calls[..n], calls[n]);
      assert calls[..n] + [calls[n]] == calls;
    }
  }

  /** A monitor that never enabled election: ready exactly when its latest news is a successful resync, or there
      is none and it has nothing to dispatch; degraded exactly when its latest news of recovery is bad; its
      startup complete exactly when it has nothing to dispatch or some resync succeeded. */
  lemma WithoutElection(dispatch: bool, calls: seq<Call>)
    requires NoEpochCalls(calls)
    ensures PlainFlags(ApplyAll(NewSnapshot(dispatch), calls).flags, dispatch, calls)
  {
    PlainHistory(dispatch, calls);
    FlagsOfApplyAll(NewSnapshot(dispatch), calls);
  }

  // --------------------------------------------------------------------- with election

  /** The calls since an epoch last began or ended. */
  function SinceEpoch(calls: seq<Call>): seq<Call> {
    if calls == [] || EpochCall(calls[|calls| - 1]) then []
    else SinceEpoch(calls[..|calls| - 1]) + [calls[|calls| - 1]]
  }

  predicate AttemptCall(call: Call) {
    call.Attempt?
  }

  /** What the flags say of the latest news of recovery, the number of successes, the latest attempt and the
      latest routing call. */
  predicate FlagsSay(f: Flags, recovery: Option<Call>, successes: nat, attempt: Option<Call>, routing: Option<Call>) {
    && (f.degraded <==> WentBad(recovery))
    && (f.startupResyncComplete <==> successes > 0)
    && (f.leaderReady <==> f.leader && Succeeded(attempt))
    && (f.routingReady <==> f.leader && routing.Some? && RoutePublished(routing.value))
  }

  function Newer(call: Call, kind: Call -> bool, before: Option<Call>): Option<Call> {
    if kind(call) then Some(call) else before
  }

  lemma FlagsSayStep(f: Flags, recovery: Option<Call>, n: nat, attempt: Option<Call>, routing: Option<Call>, call: Call)
    requires f.electionEnabled && FlagsSay(f, recovery, n, attempt, routing) && !EpochCall(call)
    ensures FlagsSay(FlagsAfter(f, call), Newer(call, RecoveryCall(f.dispatchEnabled), recovery),
      if ResyncSucceeded(call) then n + 1 else n, Newer(call, AttemptCall, attempt), Newer(call, RoutingCall, routing))
  {
  }

  /** What the flags say of the calls of the current epoch. */
  predicate EpochFlags(f: Flags, dispatch: bool, since: seq<Call>) {
    && f.electionEnabled && f.dispatchEnabled == dispatch
    && FlagsSay(f, Latest(since, RecoveryCall(dispatch)), Number(since, ResyncSucceeded),
         Latest(since, AttemptCall), Latest(since, RoutingCall))
  }

  lemma EpochFlagsStep(f: Flags, dispatch: bool, since: seq<Call>, call: Call)
    requires EpochFlags(f, dispatch, since) && !EpochCall(call)
    ensures EpochFlags(FlagsAfter(f, call), dispatch, since + [call])
  {
    LatestAppend(since, call, RecoveryCall(dispatch));
    LatestAppend(since, call, ResyncSucceeded);
    LatestAppend(since, call, AttemptCall);
    LatestAppend(since, call, RoutingCall);
    FlagsSayStep(f, Latest(since, RecoveryCall(dispatch)), Number(since, ResyncSucceeded),
      Latest(since, AttemptCall), Latest(since, RoutingCall), call);
  }

  lemma EpochBegins(f: Flags, call: Call)
    requires EpochCall(call) && (f.electionEnabled || call.Enable?)
    ensures EpochFlags(FlagsAfter(f, call), f.dispatchEnabled, [])
  {
  }

  /** With election, every flag says exactly what has happened since the epoch began: degraded by the latest
      news of recovery, startup complete by any successful resync, resynced and published by the latest attempt
      and the latest routing call, for a leader only. */
  lemma {:induction false} WithElection(f: Flags, id: string, calls: seq<Call>)
    ensures EpochFlags(FlagsAll(FlagsAfter(f, Enable(id)), calls), f.dispatchEnabled, SinceEpoch(calls))
  {
    if calls == [] {
      EpochBegins(f, Enable(id));
    } else {
      var n := |calls| - 1;
      var before := FlagsAll(FlagsAfter(f, Enable(id)), calls[..n]);
      WithElection(f, id, calls[..n]);
      if EpochCall(calls[n]) {
        EpochBegins(before, calls[n]);
      } else {
        EpochFlagsStep(before, f.dispatchEnabled, SinceEpoch(calls[..n]), calls[n]);
      }
    }
  }

  // ------------------------------------------------------------------------- counters

  /** As far as a 64-bit counter goes. */
  function Counter(start: nat, more: nat): nat {
    if start + more <= 0xffff_ffff_ffff_ffff then start + more else 0xffff_ffff_ffff_ffff
  }

  predicate WithinCounters(t: Tally) {
    && t.successes <= U64_MAX && t.partials <= U64_MAX && t.failures <= U64_MAX
    && t.acquisitions <= U64_MAX && t.renewFailures <= U64_MAX && t.acquireFailures <= U64_MAX
    && t.conflicts <= U64_MAX && t.routingFailures <= U64_MAX && t.losses <= U64_MAX
  }

  function Result(result: Resync): Call -> bool {
    (call: Call) => call.Attempt? && call.result == result
  }

  function Failure(renewal: bool): Call -> bool {
    (call: Call) => call == ApiFailure(renewal)
  }

  predicate Acquisition(call: Call) { call.LeaderAcquired? }
  predicate ConflictCall(call: Call) { call.LeaseConflict? }
  predicate RoutingFailureCall(call: Call) { call.RoutingFailure? }

  /** A counter that moves with every call of a kind. */
  lemma CountOne(start: nat, n: nat, n': nat, calls: seq<Call>, call: Call, kind: Call -> bool)
    requires start <= U64_MAX && n == Counter(start, Number(calls, kind)) && n' == if kind(call) then Bump(n) else n
    ensures n' == Counter(start, Number(calls + [call], kind))
  {
    LatestAppend(calls, call, kind);
  }

  /** The counters of resyncs are the numbers of calls with each result. */
  predicate CountsResyncs(t0: Tally, t: Tally, calls: seq<Call>) {
    && t.successes == Counter(t0.successes, Number(calls, Result(Success)))
    && t.partials == Counter(t0.partials, Number(calls, Result(Partial)))
    && t.failures == Counter(t0.failures, Number(calls, Result(Failed)))
  }

  lemma CountsResyncsStep(t0: Tally, t: Tally, leader: bool, calls: seq<Call>, call: Call)
    requires WithinCounters(t0) && CountsResyncs(t0, t, calls)
    ensures CountsResyncs(t0, TallyAfter(t, leader, call), calls + [call])
  {
    var t' := TallyAfter(t, leader, call);
    CountOne(t0.successes, t.successes, t'.successes, calls, call, Result(Success));
    CountOne(t0.partials, t.partials, t'.partials, calls, call, Result(Partial));
    CountOne(t0.failures, t.failures, t'.failures, calls, call, Result(Failed));
  }

  /** What was last recorded of a resync. */
  predicate LastIs(t0: Tally, t: Tally, last: Option<Call>)
    requires last.Some? ==> last.value.Attempt?
  {
    && (last.Some? ==> t.lastResult == Some(last.value.result) && t.lastRepositoriesEnqueued == last.value.repositories)
    && (last.None? ==> t.lastResult == t0.lastResult && t.lastRepositoriesEnqueued == t0.lastRepositoriesEnqueued)
  }

  lemma LastIsStep(t0: Tally, t: Tally, leader: bool, last: Option<Call>, call: Call)
    requires (last.Some? ==> last.value.Attempt?) && LastIs(t0, t, last)
    ensures LastIs(t0, TallyAfter(t, leader, call), Newer(call, AttemptCall, last))
  {
  }

  predicate RecordsLast(t0: Tally, t: Tally, calls: seq<Call>) {
    LastIs(t0, t, Latest(calls, AttemptCall))
  }

  lemma RecordsLastStep(t0: Tally, t: Tally, leader: bool, calls: seq<Call>, call: Call)
    requires RecordsLast(t0, t, calls)
    ensures RecordsLast(t0, TallyAfter(t, leader, call), calls + [call])
  {
    LatestAppend(calls, call, AttemptCall);
    LastIsStep(t0, t, leader, Latest(calls, AttemptCall), call);
  }

  /** The counters of the election are the numbers of the calls of each kind. */
  predicate CountsElection(t0: Tally, t: Tally, calls: seq<Call>) {
    && t.acquisitions == Counter(t0.acquisitions, Number(calls, Acquisition))
    && t.renewFailures == Counter(t0.renewFailures, Number(calls, Failure(true)))
    && t.acquireFailures == Counter(t0.acquireFailures, Number(calls, Failure(false)))
    && t.conflicts == Counter(t0.conflicts, Number(calls, ConflictCall))
    && t.routingFailures == Counter(t0.routingFailures, Number(calls, RoutingFailureCall))
  }

  lemma CountsElectionStep(t0: Tally, t: Tally, leader: bool, calls: seq<Call>, call: Call)
    requires WithinCounters(t0) && CountsElection(t0, t, calls)
    ensures CountsElection(t0, TallyAfter(t, leader, call), calls + [call])
  {
    var t' := TallyAfter(t, leader, call);
    CountOne(t0.acquisitions, t.acquisitions, t'.acquisitions, calls, call, Acquisition);
    CountOne(t0.renewFailures, t.renewFailures, t'.renewFailures, calls, call, Failure(true));
    CountOne(t0.acquireFailures, t.acquireFailures, t'.acquireFailures, calls, call, Failure(false));
    CountOne(t0.conflicts, t.conflicts, t'.conflicts, calls, call, ConflictCall);
    CountOne(t0.routingFailures, t.routingFailures, t'.routingFailures, calls, call, RoutingFailureCall);
  }

  predicate ObservationCall(call: Call) {
    call.LeaderAcquired? || call.LeaderRenewed? || call.LeaderFollower? || call.LeaderLost?
  }

  /** The holder last observed is the process itself after its own claims, and whoever was named otherwise. */
  predicate RecordsHolder(t0: Tally, t: Tally, calls: seq<Call>) {
    match Latest(calls, ObservationCall)
    case None => t.observedHolder == t0.observedHolder && t.observedTransitions == t0.observedTransitions
    case Some(LeaderAcquired(n)) => t.observedHolder == t0.identity && t.observedTransitions == n
    case Some(LeaderRenewed(n)) => t.observedHolder == t0.identity && t.observedTransitions == n
    case Some(LeaderFollower(holder, n)) => t.observedHolder == holder && t.observedTransitions == n
    case Some(LeaderLost(holder, n)) => t.observedHolder == holder && t.observedTransitions == n
    case Some(_) => false
  }

  lemma RecordsHolderStep(t0: Tally, t: Tally, leader: bool, calls: seq<Call>, call: Call)
    requires RecordsHolder(t0, t, calls) && t.identity == t0.identity && !call.Enable?
    ensures RecordsHolder(t0, TallyAfter(t, leader, call), calls + [call])
    ensures TallyAfter(t, leader, call).identity == t0.identity
  {
    LatestAppend(calls, call, ObservationCall);
  }

  /** The counters and records after any history are those of its calls, saturating. */
  lemma {:induction false} TallyIsHistory(s: Snapshot, calls: seq<Call>)
    requires WithinCounters(s.tally)
    ensures CountsResyncs(s.tally, ApplyAll(s, calls).tally, calls)
    ensures CountsElection(s.tally, ApplyAll(s, calls).tally, calls)
    ensures RecordsLast(s.tally, ApplyAll(s, calls).tally, calls)
  {
    if calls != [] {
      var n := |calls| - 1;
      var before := ApplyAll(s, calls[..n]);
      TallyIsHistory(s, calls[..n]);
      CountsResyncsStep(s.tally, before.tally, before.flags.leader, calls[..n], calls[n]);
      CountsElectionStep(s.tally, before.tally, before.flags.leader, calls[..n], calls[n]);
      RecordsLastStep(s.tally, before.tally, before.flags.leader, calls[..n], calls[n]);
      assert calls[..n] + [calls[n]] == calls;
    }
  }

  /** The holder last observed, once the process has its identity. */
  lemma {:induction false} HolderIsHistory(s: Snapshot, calls: seq<Call>)
    requires forall i :: 0 <= i < |calls| ==> !calls[i].Enable?
    ensures RecordsHolder(s.tally, ApplyAll(s, calls).tally, calls) && ApplyAll(s, calls).tally.identity == s.tally.identity
  {
    if calls != [] {
      var n := |calls| - 1;
      var before := ApplyAll(s, calls[..n]);
      HolderIsHistory(s, calls[..n]);
      RecordsHolderStep(s.tally, before.tally, before.flags.leader, calls[..n], calls[n]);
      assert calls[..n] + [calls[n]] == calls;
    }
  }

  /** How many losses ended a leadership. */
  ghost function Losses(calls: seq<Call>): nat {
    if calls == [] then 0
    else
      var init, last := calls[..|calls| - 1], calls[|calls| - 1];
      Losses(init) + (if last.LeaderLost? && exists a: nat :: HeldSince(init, a) then 1 else 0)
  }

  lemma LeaderIsHeld(s: Snapshot, id: string, calls: seq<Call>)
    ensures ApplyAll(Apply(s, Enable(id)), calls).flags.leader <==> exists a: nat :: HeldSince(calls, a)
  {
    FlagsOfApplyAll(Apply(s, Enable(id)), calls);
    LeaderMeansHeld(s.flags, id, calls);
  }

  lemma LossStep(t: Tally, leader: bool, call: Call)
    ensures TallyAfter(t, leader, call).losses == if call.LeaderLost? && leader then Bump(t.losses) else t.losses
  {
  }

  /** Losses are counted when there was leadership to lose. */
  lemma {:induction false} LossesAreCounted(s: Snapshot, id: string, calls: seq<Call>)
    requires s.tally.losses <= U64_MAX
    ensures ApplyAll(Apply(s, Enable(id)), calls).tally.losses == Counter(s.tally.losses, Losses(calls))
  {
    if calls != [] {
      var n := |calls| - 1;
      var before := ApplyAll(Apply(s, Enable(id)), calls[..n]);
      LossesAreCounted(s, id, calls[..n]);
      LeaderIsHeld(s, id, calls[..n]);
      LossStep(before.tally, before.flags.leader, calls[n]);
    }
  }
}
