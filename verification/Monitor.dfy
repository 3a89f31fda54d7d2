/**
 The shared recovery state (`RecoveryMonitor`) that readiness and the traffic gate read.

 `Apply` is the effect of one call on a snapshot; the class is the locked object whose methods are
 those calls. Wall-clock fields and durations are not kept.
 */
module Monitor {
  import opened Wrappers

  const U64_MAX := 0xffff_ffff_ffff_ffff

  function Bump(n: nat): nat {
    if n >= U64_MAX then U64_MAX else n + 1
  }

  datatype Resync = Success | Partial | Failed

  /** The flags readiness is made of. */
  datatype Flags = Flags(
    dispatchEnabled: bool,
    startupResyncComplete: bool,
    ready: bool,
    degraded: bool,
    electionEnabled: bool,
    leader: bool,
    leaderReady: bool,
    routingReady: bool)

  /** What the monitor has seen and counted; nothing here feeds back into the flags. */
  datatype Tally = Tally(
    successes: nat,
    partials: nat,
    failures: nat,
    lastResult: Option<Resync>,
    lastRepositoriesEnqueued: nat,
    identity: Option<string>,
    observedHolder: Option<string>,
    acquisitions: nat,
    losses: nat,
    renewFailures: nat,
    acquireFailures: nat,
    conflicts: nat,
    routingFailures: nat,
    observedTransitions: nat)

  datatype Snapshot = Snapshot(flags: Flags, tally: Tally)

  function NewSnapshot(dispatchEnabled: bool): Snapshot {
    Snapshot(Flags(dispatchEnabled, !dispatchEnabled, !dispatchEnabled, false, false, false, false, false),
             Tally(0, 0, 0, None, 0, None, None, 0, 0, 0, 0, 0, 0, 0))
  }

  /** One call on the monitor. */
  datatype Call =
    | Enable(id: string)
    | LeaderAcquired(transitions: nat)
    | LeaderRenewed(transitions: nat)
    | LeaderFollower(holder: Option<string>, transitions: nat)
    | LeaderLost(holder: Option<string>, transitions: nat)
    | ApiFailure(renewal: bool)
    | LeaseConflict
    | Routing(published: bool)
    | RoutingFailure
    | MarkUnavailable
    | Attempt(result: Resync, repositories: nat)

  /** Every acquisition and every loss starts from nothing proved. */
  function Cleared(f: Flags, leader: bool): Flags {
    f.(leader := leader, leaderReady := false, routingReady := false, ready := false,
       startupResyncComplete := false, degraded := false)
  }

  function FlagsAfter(f: Flags, call: Call): Flags {
    match call
    case Enable(id) => Cleared(f, false).(electionEnabled := true)
    case LeaderAcquired(n) => Cleared(f, true)
    case LeaderRenewed(n) => f
    case LeaderFollower(holder, n) => Cleared(f, false)
    case LeaderLost(holder, n) => Cleared(f, false)
    case ApiFailure(renewal) => f
    case LeaseConflict => f
    case Routing(published) =>
      var routing := published && f.leader;
      f.(routingReady := routing,
         ready := if f.electionEnabled then f.leader && f.leaderReady && routing && !f.degraded else f.ready)
    case RoutingFailure => f.(routingReady := false, ready := false)
    case MarkUnavailable => if f.dispatchEnabled then f.(ready := false, degraded := true) else f
    case Attempt(Success, n) =>
      var leaderReady := (f.electionEnabled && f.leader) || f.leaderReady;
      f.(startupResyncComplete := true, degraded := false, leaderReady := leaderReady,
         ready := f.electionEnabled ==> f.leader && leaderReady && f.routingReady)
    case Attempt(result, n) =>
      f.(ready := false, degraded := true, leaderReady := f.leaderReady && !f.electionEnabled)
  }

  function TallyAfter(t: Tally, wasLeader: bool, call: Call): Tally {
    match call
    case Enable(id) => t.(identity := Some(id))
    case LeaderAcquired(n) =>
      t.(acquisitions := Bump(t.acquisitions), observedTransitions := n, observedHolder := t.identity)
    case LeaderRenewed(n) => t.(observedTransitions := n, observedHolder := t.identity)
    case LeaderFollower(holder, n) => t.(observedTransitions := n, observedHolder := holder)
    case LeaderLost(holder, n) =>
      t.(losses := if wasLeader then Bump(t.losses) else t.losses,
         observedTransitions := n, observedHolder := holder)
    case ApiFailure(renewal) =>
      if renewal then t.(renewFailures := Bump(t.renewFailures)) else t.(acquireFailures := Bump(t.acquireFailures))
    case LeaseConflict => t.(conflicts := Bump(t.conflicts))
    case Routing(published) => t
    case RoutingFailure => t.(routingFailures := Bump(t.routingFailures))
    case MarkUnavailable => t
    case Attempt(result, n) =>
      var counted := t.(lastResult := Some(result), lastRepositoriesEnqueued := n);
      match result
      case Success => counted.(successes := Bump(t.successes))
      case Partial => counted.(partials := Bump(t.partials))
      case Failed => counted.(failures := Bump(t.failures))
  }

  function Apply(s: Snapshot, call: Call): Snapshot {
    Snapshot(FlagsAfter(s.flags, call), TallyAfter(s.tally, s.flags.leader, call))
  }

  function ApplyAll(s: Snapshot, calls: seq<Call>): Snapshot {
    if calls == [] then s else Apply(ApplyAll(s, calls[..|calls| - 1]), calls[|calls| - 1])
  }

  function FlagsAll(f: Flags, calls: seq<Call>): Flags {
    if calls == [] then f else FlagsAfter(FlagsAll(f, calls[..|calls| - 1]), calls[|calls| - 1])
  }

  /** The flags evolve on their own. */
  lemma {:induction false} FlagsOfApplyAll(s: Snapshot, calls: seq<Call>)
    ensures ApplyAll(s, calls).flags == FlagsAll(s.flags, calls)
  {
    if calls != [] {
      FlagsOfApplyAll(s, calls[..|calls| - 1]);
    }
  }

  /** `require_ready_leader`: an enabled gate passes a request only on a ready snapshot. */
  predicate Admits(gateEnabled: bool, s: Snapshot) {
    !gateEnabled || s.flags.ready
  }

  // ----------------------------------------------------------------- readiness

  /** What an election-enabled monitor keeps: readiness is the conjunction of the four flags, and a
      non-leader has proved nothing. */
  predicate Consistent(f: Flags) {
    && f.electionEnabled
    && (f.ready <==> f.leader && f.leaderReady && f.routingReady && !f.degraded)
    && (!f.leader ==> !f.leaderReady && !f.routingReady)
  }

  lemma StepKeepsConsistent(f: Flags, call: Call)
    requires Consistent(f)
    ensures Consistent(FlagsAfter(f, call)) && FlagsAfter(f, call).dispatchEnabled == f.dispatchEnabled
  {
  }

  lemma {:induction false} CallsKeepConsistent(f: Flags, calls: seq<Call>)
    requires Consistent(f)
    ensures Consistent(FlagsAll(f, calls)) && FlagsAll(f, calls).dispatchEnabled == f.dispatchEnabled
  {
    if calls != [] {
      CallsKeepConsistent(f, calls[..|calls| - 1]);
      StepKeepsConsistent(FlagsAll(f, calls[..|calls| - 1]), calls[|calls| - 1]);
    }
  }

  lemma FlagsConsistent(f: Flags, id: string, calls: seq<Call>)
    ensures Consistent(FlagsAll(FlagsAfter(f, Enable(id)), calls))
    ensures FlagsAll(FlagsAfter(f, Enable(id)), calls).dispatchEnabled == f.dispatchEnabled
  {
    CallsKeepConsistent(FlagsAfter(f, Enable(id)), calls);
  }

  /** Once election is enabled, every state any sequence of calls can reach is consistent. */
  lemma ConsistentAfterEnable(s: Snapshot, id: string, calls: seq<Call>)
    ensures Consistent(ApplyAll(Apply(s, Enable(id)), calls).flags)
  {
    FlagsOfApplyAll(Apply(s, Enable(id)), calls);
    FlagsConsistent(s.flags, id, calls);
  }

  // ------------------------------------------------------------ epoch freshness

  /** The calls that begin or end an epoch of leadership. */
  predicate EpochCall(call: Call) {
    call.Enable? || call.LeaderAcquired? || call.LeaderFollower? || call.LeaderLost?
  }

  /** The calls that say something about recovery; `MarkUnavailable` counts only with dispatch on. */
  function RecoveryCall(dispatchEnabled: bool): Call -> bool {
    (call: Call) => call.Attempt? || (call.MarkUnavailable? && dispatchEnabled)
  }

  predicate ResyncSucceeded(call: Call) {
    call.Attempt? && call.result.Success?
  }

  predicate RoutingCall(call: Call) {
    call.Routing? || call.RoutingFailure?
  }

  predicate RoutePublished(call: Call) {
    call.Routing? && call.published
  }

  /** The latest call of `calls[from..]` satisfying `kind` exists and satisfies `good`. */
  ghost predicate LatestIs(calls: seq<Call>, from: nat, kind: Call -> bool, good: Call -> bool) {
    exists i: nat :: from <= i < |calls| && kind(calls[i]) && good(calls[i])
      && forall j: nat :: i < j < |calls| ==> !kind(calls[j])
  }

  /** Leadership was acquired by call `a` and nothing has ended it since. */
  predicate HeldSince(calls: seq<Call>, a: nat) {
    && a < |calls| && calls[a].LeaderAcquired?
    && forall j: nat :: a < j < |calls| ==> !EpochCall(calls[j])
  }

  ghost predicate Recovered(dispatchEnabled: bool, calls: seq<Call>, a: nat) {
    LatestIs(calls, a, RecoveryCall(dispatchEnabled), ResyncSucceeded)
  }

  ghost predicate Published(calls: seq<Call>, a: nat) {
    LatestIs(calls, a, RoutingCall, RoutePublished)
  }

  ghost predicate FreshEpoch(dispatchEnabled: bool, calls: seq<Call>) {
    exists a: nat :: HeldSince(calls, a) && Recovered(dispatchEnabled, calls, a) && Published(calls, a)
  }

  /** One more call either is the latest of its kind or leaves the latest one in place. */
  lemma LatestStep(calls: seq<Call>, from: nat, kind: Call -> bool, good: Call -> bool)
    requires calls != [] && from < |calls|
    ensures var init, call := calls[..|calls| - 1], calls[|calls| - 1];
      LatestIs(calls, from, kind, good) <==>
        if kind(call) then good(call) else LatestIs(init, from, kind, good)
  {
    var n := |calls| - 1;
    var init, call := calls[..n], calls[n];
    if kind(call) {
      if good(call) {
        assert n < |calls| && kind(calls[n]) && good(calls[n]);
      }
      if LatestIs(calls, from, kind, good) {
        var i: nat :| from <= i < |calls| && kind(calls[i]) && good(calls[i])
          && forall j: nat :: i < j < |calls| ==> !kind(calls[j]);
        assert i >= n;
      }
    } else {
      if LatestIs(init, from, kind, good) {
        var i: nat :| from <= i < |init| && kind(init[i]) && good(init[i])
          && forall j: nat :: i < j < |init| ==> !kind(init[j]);
        forall j: nat | i < j < |calls| ensures !kind(calls[j]) {
          if j < n { assert calls[j] == init[j]; }
        }
        assert kind(calls[i]) && good(calls[i]);
      }
      if LatestIs(calls, from, kind, good) {
        var i: nat :| from <= i < |calls| && kind(calls[i]) && good(calls[i])
          && forall j: nat :: i < j < |calls| ==> !kind(calls[j]);
        forall j: nat | i < j < |init| ensures !kind(init[j]) {
          assert calls[j] == init[j];
        }
        assert kind(init[i]) && good(init[i]);
      }
    }
  }

  /** What one call within an epoch does to the readiness flags. */
  lemma FreshStep(f: Flags, call: Call)
    requires f.electionEnabled && f.leader && !EpochCall(call)
    ensures FlagsAfter(f, call).leader
    ensures FlagsAfter(f, call).leaderReady && !FlagsAfter(f, call).degraded <==>
      if RecoveryCall(f.dispatchEnabled)(call) then ResyncSucceeded(call) else f.leaderReady && !f.degraded
    ensures FlagsAfter(f, call).routingReady <==> if RoutingCall(call) then RoutePublished(call) else f.routingReady
  {
  }

  /** What the three readiness flags remember of the calls since an acquisition at `a`. */
  lemma {:induction false} FlagsSince(f: Flags, id: string, calls: seq<Call>, a: nat)
    requires HeldSince(calls, a)
    ensures var after := FlagsAll(FlagsAfter(f, Enable(id)), calls);
      && after.leader
      && (after.leaderReady && !after.degraded <==> Recovered(f.dispatchEnabled, calls, a))
      && (after.routingReady <==> Published(calls, a))
    decreases |calls|
  {
    var n := |calls| - 1;
    var init := calls[..n];
    FlagsConsistent(f, id, init);
    LatestStep(calls, a, RecoveryCall(f.dispatchEnabled), ResyncSucceeded);
    LatestStep(calls, a, RoutingCall, RoutePublished);
    if a < n {
      HeldStep(calls, a);
      FlagsSince(f, id, init, a);
      FreshStep(FlagsAll(FlagsAfter(f, Enable(id)), init), calls[n]);
    }
  }

  /** The monitor believes in leadership exactly when an acquisition stands unended. */
  lemma {:induction false} LeaderMeansHeld(f: Flags, id: string, calls: seq<Call>)
    ensures FlagsAll(FlagsAfter(f, Enable(id)), calls).leader <==> exists a: nat :: HeldSince(calls, a)
  {
    if calls != [] {
      var n := |calls| - 1;
      LeaderMeansHeld(f, id, calls[..n]);
      LeaderStep(FlagsAll(FlagsAfter(f, Enable(id)), calls[..n]), calls[n]);
      if calls[n].LeaderAcquired? {
        assert HeldSince(calls, n);
      } else {
        forall a: nat ensures HeldSince(calls, a) <==> !EpochCall(calls[n]) && HeldSince(calls[..n], a) {
          HeldStep(calls, a);
        }
      }
    }
  }

  lemma LeaderStep(f: Flags, call: Call)
    ensures FlagsAfter(f, call).leader == (call.LeaderAcquired? || (!EpochCall(call) && f.leader))
  {
  }

  /** One more call starts an epoch, ends it or leaves it. */
  lemma HeldStep(calls: seq<Call>, a: nat)
    requires calls != []
    ensures HeldSince(calls, a) <==>
      if a == |calls| - 1 then calls[a].LeaderAcquired?
      else !EpochCall(calls[|calls| - 1]) && HeldSince(calls[..|calls| - 1], a)
  {
    var n := |calls| - 1;
    var init := calls[..n];
    if a < n && HeldSince(calls, a) {
      assert !EpochCall(calls[n]);
      forall j: nat | a < j < |init| ensures !EpochCall(init[j]) {
        assert calls[j] == init[j];
      }
    }
    if a < n && HeldSince(init, a) && !EpochCall(calls[n]) {
      forall j: nat | a < j < |calls| ensures !EpochCall(calls[j]) {
        if j < n { assert calls[j] == init[j]; }
      }
    }
  }

  /** After election is enabled, readiness says exactly that the current epoch is fresh: an acquisition
      nothing has ended, a successful resync no later bad news has overturned, and a publication no
      later withdrawal or routing failure has undone. */
  lemma ReadyMeansFreshEpoch(s: Snapshot, id: string, calls: seq<Call>)
    ensures ApplyAll(Apply(s, Enable(id)), calls).flags.ready <==> FreshEpoch(s.flags.dispatchEnabled, calls)
  {
    FlagsOfApplyAll(Apply(s, Enable(id)), calls);
    FlagsConsistent(s.flags, id, calls);
    LeaderMeansHeld(s.flags, id, calls);
    forall a: nat | HeldSince(calls, a)
      ensures FlagsAll(FlagsAfter(s.flags, Enable(id)), calls).ready
        <==> Recovered(s.flags.dispatchEnabled, calls, a) && Published(calls, a)
    {
      FlagsSince(s.flags, id, calls, a);
    }
  }

  /** The gate: open to everything where it is off; where it is on, open exactly in a fresh epoch once election is
      enabled. */
  lemma GateExactly(s: Snapshot, id: string, calls: seq<Call>)
    ensures Admits(false, s)
    ensures Admits(true, s) <==> s.flags.ready
    ensures Admits(true, ApplyAll(Apply(s, Enable(id)), calls)) <==> FreshEpoch(s.flags.dispatchEnabled, calls)
  {
    ReadyMeansFreshEpoch(s, id, calls);
  }

  // ------------------------------------------------------------------ the object

  class RecoveryMonitor {
    var flags: Flags
    var tally: Tally

    function View(): Snapshot reads this { Snapshot(flags, tally) }

    constructor (dispatchEnabled: bool)
      ensures View() == NewSnapshot(dispatchEnabled)
    {
      flags, tally := NewSnapshot(dispatchEnabled).flags, NewSnapshot(dispatchEnabled).tally;
    }

    method EnableLeaderElection(id: string)
      modifies this
      ensures View() == Apply(old(View()), Enable(id))
    {
      flags := flags.(electionEnabled := true);
      tally := tally.(identity := Some(id));
      Reset(false);
    }

    method Reset(leader: bool)
      modifies this
      ensures flags == Cleared(old(flags), leader) && tally == old(tally)
    {
      flags := flags.(leader := leader);
      flags := flags.(leaderReady := false);
      flags := flags.(routingReady := false);
      flags := flags.(ready := false);
      flags := flags.(startupResyncComplete := false);
      flags := flags.(degraded := false);
    }

    method RecordLeaderAcquired(transitions: nat)
      modifies this
      ensures View() == Apply(old(View()), LeaderAcquired(transitions))
    {
      Reset(true);
      tally := tally.(acquisitions := Bump(tally.acquisitions));
      tally := tally.(observedTransitions := transitions);
      tally := tally.(observedHolder := tally.identity);
    }

    method RecordLeaderRenewed(transitions: nat)
      modifies this
      ensures View() == Apply(old(View()), LeaderRenewed(transitions))
    {
      tally := tally.(observedTransitions := transitions);
      tally := tally.(observedHolder := tally.identity);
    }

    method RecordLeaderFollower(holder: Option<string>, transitions: nat)
      modifies this
      ensures View() == Apply(old(View()), LeaderFollower(holder, transitions))
    {
      tally := tally.(observedHolder := holder);
      tally := tally.(observedTransitions := transitions);
      Reset(false);
    }

    method RecordLeaderLost(holder: Option<string>, transitions: nat)
      modifies this
      ensures View() == Apply(old(View()), LeaderLost(holder, transitions))
    {
      if flags.leader {
        tally := tally.(losses := Bump(tally.losses));
      }
      tally := tally.(observedHolder := holder);
      tally := tally.(observedTransitions := transitions);
      Reset(false);
    }

    method RecordLeaderApiFailure(renewal: bool)
      modifies this
      ensures View() == Apply(old(View()), ApiFailure(renewal))
    {
      if renewal {
        tally := tally.(renewFailures := Bump(tally.renewFailures));
      } else {
        tally := tally.(acquireFailures := Bump(tally.acquireFailures));
      }
    }

    method RecordLeaderConflict()
      modifies this
      ensures View() == Apply(old(View()), LeaseConflict)
    {
      tally := tally.(conflicts := Bump(tally.conflicts));
    }

    method RecordLeaderRouting(published: bool)
      modifies this
      ensures View() == Apply(old(View()), Routing(published))
    {
      flags := flags.(routingReady := published && flags.leader);
      if flags.electionEnabled {
        flags := flags.(ready :=
          flags.leader && flags.leaderReady && flags.routingReady && !flags.degraded);
      }
    }

    method RecordLeaderRoutingFailure()
      modifies this
      ensures View() == Apply(old(View()), RoutingFailure)
    {
      tally := tally.(routingFailures := Bump(tally.routingFailures));
      flags := flags.(routingReady := false);
      flags := flags.(ready := false);
    }

    method RecordUnavailable()
      modifies this
      ensures View() == Apply(old(View()), MarkUnavailable)
    {
      if flags.dispatchEnabled {
        flags := flags.(ready := false);
        flags := flags.(degraded := true);
      }
    }

    method RecordAttempt(result: Resync, repositories: nat)
      modifies this
      ensures View() == Apply(old(View()), Attempt(result, repositories))
    {
      tally := tally.(lastResult := Some(result));
      tally := tally.(lastRepositoriesEnqueued := repositories);
      match result {
        case Success =>
          tally := tally.(successes := Bump(tally.successes));
          flags := flags.(startupResyncComplete := true);
          flags := flags.(degraded := false);
          if flags.electionEnabled && flags.leader {
            flags := flags.(leaderReady := true);
          }
          flags := flags.(ready := if flags.electionEnabled
            then flags.leader && flags.leaderReady && flags.routingReady else true);
        case Partial =>
          tally := tally.(partials := Bump(tally.partials));
          flags := flags.(ready := false);
          flags := flags.(degraded := true);
          if flags.electionEnabled {
            flags := flags.(leaderReady := false);
          }
        case Failed =>
          tally := tally.(failures := Bump(tally.failures));
          flags := flags.(ready := false);
          flags := flags.(degraded := true);
          if flags.electionEnabled {
            flags := flags.(leaderReady := false);
          }
      }
    }
  }
}
