/**
 What the invariant gives: at most one leader, at most one replica admitting traffic, the belief
 deadline, and the history of the Lease.
 */
module ElectionSafety {
  import opened Wrappers
  import opened LeaseClaim
  import opened ElectionSystem
  import opened ElectionInvariant

  // -------------------------------------------------------------------- exclusion

  /** When the Lease passes from one holder to others, somebody claimed it a whole Lease duration later. */
  lemma {:induction false} Superseded(t: Timing, log: seq<Entry>, n: nat, m: nat) returns (k: nat)
    requires Chained(t, log)
    requires n < m < |log| && log[n].owner != log[m].owner
    ensures n < k <= m && log[k].owner != log[n].owner && log[n].stamp + t.L() <= log[k].stamp
    decreases m - n
  {
    assert Linked(t, log[n], log[n + 1]);
    if log[n + 1].owner != log[n].owner {
      k := n + 1;
    } else {
      k := Superseded(t, log, n + 1, m);
    }
  }

  /** The replica's latest confirmed claim is in the history, and no other has started a Lease duration after
      it. */
  ghost predicate Unchallenged(t: Timing, s: State, id: string) {
    && id in s.replicas && Logged(s, id, s.replicas[id].stamp)
    && forall k :: k in s.replicas && k != id ==> s.replicas[k].lastStart < s.replicas[id].stamp + t.L()
  }

  /** Then no other holder's claim is a Lease duration younger. */
  lemma NoLateClaim(p: Params, s: State, id: string, k: nat)
    requires LogOk(p, s) && RequestsOk(p, s) && Unchallenged(p.timing, s, id)
    requires k < |s.log| && s.log[k].owner != id
    ensures s.log[k].stamp < s.replicas[id].stamp + p.timing.L()
  {
    assert EntryOk(p, s, s.log[k]);
    assert RequestOk(p, s, s.requests[s.log[k].request]);
  }

  /** Nor has any other claimed since. */
  lemma StillHolder(p: Params, s: State, id: string, n: nat, m: nat)
    requires LogOk(p, s) && RequestsOk(p, s) && Unchallenged(p.timing, s, id)
    requires n < m < |s.log| && s.log[n].owner == id && s.log[n].stamp == s.replicas[id].stamp
    ensures s.log[m].owner == id
  {
    if s.log[m].owner != id {
      var k := Superseded(p.timing, s.log, n, m);
      NoLateClaim(p, s, id, k);
    }
  }

  lemma OneUnchallenged(p: Params, s: State, i: string, j: string)
    requires LogOk(p, s) && RequestsOk(p, s) && Unchallenged(p.timing, s, i) && Unchallenged(p.timing, s, j)
    ensures i == j
  {
    var n: nat :| n < |s.log| && s.log[n].owner == i && s.log[n].stamp == s.replicas[i].stamp;
    var m: nat :| m < |s.log| && s.log[m].owner == j && s.log[m].stamp == s.replicas[j].stamp;
    if n < m {
      StillHolder(p, s, i, n, m);
    } else if m < n {
      StillHolder(p, s, j, m, n);
    }
  }

  /** A leader in a safe configuration is unchallenged. */
  lemma LeaderUnchallenged(p: Params, s: State, id: string)
    requires p.timing.retrySecs > 0 && Inv(p, s) && Safe(p) && id in s.replicas && Leads(s.replicas[id])
    ensures Unchallenged(p.timing, s, id)
  {
    assert ReplicaOk(p, s, id, s.replicas[id]);
  }

  lemma OneLead(p: Params, s: State, i: string, j: string)
    requires Ordered(p.timing) && Inv(p, s) && Safe(p)
    requires i in s.replicas && j in s.replicas && Leads(s.replicas[i]) && Leads(s.replicas[j])
    ensures i == j
  {
    LeaderUnchallenged(p, s, i);
    LeaderUnchallenged(p, s, j);
    OneUnchallenged(p, s, i, j);
  }

  /** At most one replica believes it leads, in every reachable state of every safe configuration. */
  lemma MutualExclusion(p: Params, s: State, i: string, j: string)
    requires Ordered(p.timing) && Safe(p) && Reachable(p, s)
    requires Believes(s, i) && Believes(s, j)
    ensures i == j
  {
    ReachableInv(p, s);
    OneLead(p, s, i, j);
  }

  /** At most one replica admits side-effect traffic, under the same condition. */
  lemma GateExclusion(p: Params, s: State, i: string, j: string)
    requires Ordered(p.timing) && Safe(p) && Reachable(p, s)
    requires Serves(s, i) && Serves(s, j)
    ensures i == j
  {
    ReachableInv(p, s);
    assert ReplicaOk(p, s, i, s.replicas[i]) && ReplicaOk(p, s, j, s.replicas[j]);
    OneLead(p, s, i, j);
  }

  // -------------------------------------------------------------- deadline and agreement

  /** A believer's latest confirmed claim, stamped `stamp` and observed at `last`, is recent. */
  lemma BeliefDeadline(p: Params, s: State, id: string)
    requires Ordered(p.timing) && Reachable(p, s) && Believes(s, id)
    ensures var r := s.replicas[id];
      && Logged(s, id, r.stamp)
      && s.now <= r.stamp + WindowSecs(p.timing) * TICKS
      && r.belief.last.Some? && r.stamp <= r.belief.last.value <= s.now
      && s.now < r.belief.last.value + p.timing.D() + 2 * p.timing.R()
  {
    ReachableInv(p, s);
    var r := s.replicas[id];
    assert ReplicaOk(p, s, id, r);
    assert OnGrid(p, s, r) && PhaseOk(p, s, id, r);
  }

  /** Once the loop has said what it has to say, monitor, watch and belief agree, and readiness implies
      all three. */
  lemma Agreement(p: Params, s: State, id: string)
    requires Ordered(p.timing) && Reachable(p, s) && id in s.replicas
    ensures var r := s.replicas[id];
      && (r.outbox == [] ==> r.monitor.flags.leader == r.watch == r.belief.leader)
      && (Serves(s, id) && r.outbox == [] ==> Believes(s, id))
  {
    ReachableInv(p, s);
    assert ReplicaOk(p, s, id, s.replicas[id]);
    assert Coherent(s.replicas[id]);
  }

  // --------------------------------------------------------------------- history

  /** Writes that took effect are strictly ordered, by stamp and by version. */
  lemma {:induction false} LogOrdered(t: Timing, log: seq<Entry>, n: nat, m: nat)
    requires Chained(t, log)
    requires n < m < |log|
    ensures log[n].stamp < log[m].stamp && log[n].version < log[m].version
    decreases m - n
  {
    assert Linked(t, log[n], log[n + 1]);
    if n + 1 < m {
      LogOrdered(t, log, n + 1, m);
    }
  }

  /** The Lease history of every run: claims that took effect come from different requests, take increasing
      versions and carry increasing renew times, the holder changes only over a Lease that has expired by
      the claimant's stamp, and the Lease is what the last of them wrote. */
  lemma LeaseHistory(p: Params, s: State, n: nat, m: nat)
    requires Ordered(p.timing) && Reachable(p, s) && n < m < |s.log|
    ensures s.log[n].stamp < s.log[m].stamp && s.log[n].version < s.log[m].version
    ensures s.log[n].spec.renewTime == Some(s.log[n].stamp) && s.log[m].spec.renewTime == Some(s.log[m].stamp)
    ensures s.log[n].request != s.log[m].request
    ensures m == n + 1 && s.log[m].owner != s.log[n].owner ==> LeaseExpired(s.log[n].spec, s.log[m].stamp)
    ensures s.store.lease == Some(Lease(Some(Last(s.log).version), Some(Last(s.log).spec)))
  {
    ReachableInv(p, s);
    LogOrdered(p.timing, s.log, n, m);
    assert EntryOk(p, s, s.log[n]) && EntryOk(p, s, s.log[m]);
    WrittenHolder(p.timing, s.log[n]);
    if m == n + 1 {
      assert Linked(p.timing, s.log[n], s.log[m]);
    }
  }

  // -------------------------------------------------------- one holder for each version

  /** The write that answered request `q` with success. */
  ghost predicate Receipt(s: State, q: nat)
    requires q < |s.requests|
  {
    s.requests[q].fate.Answered? && s.requests[q].fate.response.Ok? ==>
      exists n: nat :: n < |s.log| && s.log[n].request == q
        && s.requests[q].fate.response.value.resourceVersion == Some(s.log[n].version)
  }

  ghost predicate Receipts(s: State) {
    forall q: nat :: q < |s.requests| ==> Receipt(s, q)
  }

  lemma ReceiptKept(s: State, s': State, q: nat)
    requires q < |s.requests| && q < |s'.requests| && s'.requests[q] == s.requests[q] && s.log <= s'.log
    requires Receipt(s, q)
    ensures Receipt(s', q)
  {
    if s.requests[q].fate.Answered? && s.requests[q].fate.response.Ok? {
      var n: nat :| n < |s.log| && s.log[n].request == q
        && s.requests[q].fate.response.value.resourceVersion == Some(s.log[n].version);
      assert s'.log[n] == s.log[n];
    }
  }

  lemma StepReceipts(p: Params, s: State, step: Step)
    requires Receipts(s) && Enabled(p, s, step)
    ensures Receipts(After(p, s, step))
  {
    var s' := After(p, s, step);
    forall q: nat | q < |s'.requests| ensures Receipt(s', q) {
      if q < |s.requests| && s'.requests[q] == s.requests[q] {
        assert Receipt(s, q);
        ReceiptKept(s, s', q);
      } else if step.Arrive? && |s'.log| > |s.log| {
        assert s'.log[|s.log|].request == q;
      }
    }
  }

  lemma {:induction false} RunReceipts(p: Params, s: State, steps: seq<Step>)
    requires Receipts(s) && Valid(p, s, steps)
    ensures Receipts(Run(p, s, steps))
    decreases |steps|
  {
    if steps != [] {
      StepReceipts(p, s, steps[0]);
      RunReceipts(p, After(p, s, steps[0]), steps[1..]);
    }
  }

  lemma ReachableChained(p: Params, s: State)
    requires Ordered(p.timing) && Reachable(p, s)
    ensures Chained(p.timing, s.log)
  {
    ReachableInv(p, s);
  }

  lemma ReachableReceipts(p: Params, s: State)
    requires Reachable(p, s)
    ensures Receipts(s)
  {
    var s0: State, steps: seq<Step> :| Init(s0) && Valid(p, s0, steps) && Run(p, s0, steps) == s;
    RunReceipts(p, s0, steps);
  }

  lemma VersionsDiffer(t: Timing, log: seq<Entry>, n: nat, m: nat)
    requires Chained(t, log) && n < |log| && m < |log| && log[n].version == log[m].version
    ensures n == m
  {
    if n < m {
      LogOrdered(t, log, n, m);
    } else if m < n {
      LogOrdered(t, log, m, n);
    }
  }

  /** At most one claim is answered with success for each version of the Lease. */
  lemma OneHolderPerVersion(p: Params, s: State, q: nat, k: nat)
    requires Ordered(p.timing) && Reachable(p, s) && q < |s.requests| && k < |s.requests|
    requires s.requests[q].fate.Answered? && s.requests[q].fate.response.Ok?
    requires s.requests[k].fate.Answered? && s.requests[k].fate.response.Ok?
    requires s.requests[q].fate.response.value.resourceVersion == s.requests[k].fate.response.value.resourceVersion
    ensures q == k
  {
    ReachableChained(p, s);
    ReachableReceipts(p, s);
    assert Receipt(s, q) && Receipt(s, k);
    var n: nat :| n < |s.log| && s.log[n].request == q
      && s.requests[q].fate.response.value.resourceVersion == Some(s.log[n].version);
    var m: nat :| m < |s.log| && s.log[m].request == k
      && s.requests[k].fate.response.value.resourceVersion == Some(s.log[m].version);
    VersionsDiffer(p.timing, s.log, n, m);
  }

  /** The version a write names, or the absence of the Lease, is no longer current. */
  predicate Stale(s: State, q: nat)
    requires q < |s.requests| && !s.requests[q].write.Done?
  {
    if s.requests[q].write.Create? then s.store.lease.Some?
    else s.store.lease.None? || s.store.lease.value.resourceVersion != s.requests[q].write.lease.resourceVersion
  }

  /** A stale claimant leaves the Lease as it is and is told so. */
  lemma StaleClaimLeavesLease(p: Params, s: State, q: nat)
    requires Enabled(p, s, Arrive(q)) && Stale(s, q)
    ensures var s' := After(p, s, Arrive(q));
      s'.store == s.store && s'.log == s.log && s'.requests[q].fate.Answered? && s'.requests[q].fate.response.Err?
  {
  }

  /** Any other takes the next version and the Lease, and is told so. */
  lemma CurrentClaimTakesLease(p: Params, s: State, q: nat)
    requires Ordered(p.timing) && Reachable(p, s) && Enabled(p, s, Arrive(q)) && !Stale(s, q)
    ensures var s' := After(p, s, Arrive(q));
      && s'.store.nextVersion == s.store.nextVersion + 1
      && |s'.log| == |s.log| + 1 && s'.log[|s.log|].request == q
      && CurrentHolder(SpecOf(s'.store.lease.value)) == Some(s.requests[q].owner)
      && s'.requests[q].fate.Answered?
      && Finish(s.requests[q].write, s.requests[q].owner, s'.requests[q].fate.response)
         == Ok(Holder(TransitionsOf(s'.store.lease.value)))
  {
    ReachableInv(p, s);
    assert RequestOk(p, s, s.requests[q]);
    ArriveStoreOk(p, s, q);
    var s' := AfterArrive(s, q);
    assert EntryOk(p, s', s'.log[|s.log|]);
    WrittenHolder(p.timing, s'.log[|s.log|]);
  }

  /** How many times the holder changed over the first `n + 1` claims. */
  function HolderChanges(log: seq<Entry>, n: nat): nat
    requires n < |log|
  {
    if n == 0 then 0 else HolderChanges(log, n - 1) + (if log[n].owner != log[n - 1].owner then 1 else 0)
  }

  /** The first claim of the holder of claim `n`'s unbroken hold. */
  function HoldStart(log: seq<Entry>, n: nat): (k: nat)
    requires n < |log|
    ensures k <= n
  {
    if n == 0 || log[n].owner != log[n - 1].owner then n else HoldStart(log, n - 1)
  }

  /** What the first claim of a run writes: a new Lease, or over the one it found. */
  predicate FirstClaim(t: Timing, found: Option<Lease>, e: Entry) {
    e.spec == if found.None? then SpecOf(NewLease(t, e.owner, e.stamp)) else Desired(SpecOf(found.value), t, e.owner, e.stamp)
  }

  /** Until the first claim the Lease is as it was found. */
  predicate Genesis(t: Timing, found: Option<Lease>, s: State) {
    && (s.log == [] ==> s.store.lease == found)
    && (s.log != [] ==> FirstClaim(t, found, s.log[0]))
  }

  lemma {:induction false} RunGenesis(p: Params, found: Option<Lease>, s: State, steps: seq<Step>)
    requires Ordered(p.timing) && Inv(p, s) && Genesis(p.timing, found, s) && Valid(p, s, steps)
    ensures Genesis(p.timing, found, Run(p, s, steps))
    decreases |steps|
  {
    if steps != [] {
      StepInv(p, s, steps[0]);
      StepGenesis(p, found, s, steps[0]);
      RunGenesis(p, found, After(p, s, steps[0]), steps[1..]);
    }
  }

  lemma StepGenesis(p: Params, found: Option<Lease>, s: State, step: Step)
    requires RequestsOk(p, s) && Genesis(p.timing, found, s) && Enabled(p, s, step)
    ensures Genesis(p.timing, found, After(p, s, step))
  {
    if step.Arrive? {
      assert RequestOk(p, s, s.requests[step.request]);
    }
  }

  /** The transition count the first claim started from, and whether it changed the holder found. */
  function FoundCount(found: Option<Lease>): Option<int> {
    if found.None? then Some(0) else SpecOf(found.value).transitions
  }

  function FoundChange(found: Option<Lease>, owner: string): nat {
    if found.None? || CurrentHolder(SpecOf(found.value)) == Some(owner) then 0 else 1
  }

  /** A count increased `changes` times. */
  function Increased(count: Option<int>, changes: nat): Option<int> {
    if changes == 0 then count
    else Some(if count.GetOr(0) + changes < I32_MAX then count.GetOr(0) + changes else I32_MAX)
  }

  /** Claim `n` carries the count found, increased by every change of holder up to it. */
  predicate Counted(found: Option<Lease>, log: seq<Entry>, n: nat)
    requires n < |log|
  {
    log[n].spec.transitions
      == Increased(FoundCount(found), FoundChange(found, log[0].owner) + HolderChanges(log, n))
  }

  lemma IncreasedOnce(count: Option<int>, changes: nat)
    ensures Some(SaturatingInc(Increased(count, changes).GetOr(0))) == Increased(count, changes + 1)
  {
  }

  lemma {:induction false} CountsFrom(t: Timing, found: Option<Lease>, log: seq<Entry>, n: nat)
    requires History(t, found, log) && n < |log|
    ensures Counted(found, log, n)
  {
    if n > 0 {
      CountsFrom(t, found, log, n - 1);
      assert Linked(t, log[n - 1], log[n - 1 + 1]);
      IncreasedOnce(FoundCount(found), FoundChange(found, log[0].owner) + HolderChanges(log, n - 1));
    }
  }

  /** The instant the hold of claim `n` began: kept from the Lease found if it was the same holder's. */
  function AcquiredAt(found: Option<Lease>, log: seq<Entry>, n: nat): int
    requires n < |log|
  {
    var k := HoldStart(log, n);
    if k == 0 && found.Some? && FoundChange(found, log[0].owner) == 0
    then SpecOf(found.value).acquireTime.GetOr(log[0].stamp)
    else log[k].stamp
  }

  lemma {:induction false} AcquiredFrom(t: Timing, found: Option<Lease>, log: seq<Entry>, n: nat)
    requires History(t, found, log) && n < |log|
    ensures log[n].spec.acquireTime == Some(AcquiredAt(found, log, n))
  {
    if n > 0 {
      AcquiredFrom(t, found, log, n - 1);
      assert Linked(t, log[n - 1], log[n - 1 + 1]);
    }
  }

  /** Some run leads from `s0` to `s`. */
  ghost predicate LeadsTo(p: Params, s0: State, s: State) {
    exists steps: seq<Step> :: Valid(p, s0, steps) && Run(p, s0, steps) == s
  }

  /** The claims of a run that found `found`. */
  predicate History(t: Timing, found: Option<Lease>, log: seq<Entry>) {
    Chained(t, log) && (log != [] ==> FirstClaim(t, found, log[0]))
  }

  lemma HistoryFrom(p: Params, s0: State, s: State)
    requires Ordered(p.timing) && Init(s0) && LeadsTo(p, s0, s)
    ensures History(p.timing, s0.store.lease, s.log)
  {
    var steps: seq<Step> :| Valid(p, s0, steps) && Run(p, s0, steps) == s;
    InitInv(p, s0);
    RunInv(p, s0, steps);
    RunGenesis(p, s0.store.lease, s0, steps);
  }

  /** Whatever Lease a run finds, `leaseTransitions` is what it found increased by the number of holder changes
      since, saturating at the largest `i32`; a Lease the run created counts from zero. */
  lemma TransitionsCountHolders(p: Params, s0: State, s: State, n: nat)
    requires Ordered(p.timing) && Init(s0) && LeadsTo(p, s0, s) && n < |s.log|
    ensures Counted(s0.store.lease, s.log, n)
  {
    HistoryFrom(p, s0, s);
    CountsFrom(p.timing, s0.store.lease, s.log, n);
  }

  /** The Lease found, if any, was not acquired after the first claim of the run. */
  predicate FoundInOrder(found: Option<Lease>, log: seq<Entry>) {
    found.Some? && log != [] ==> SpecOf(found.value).acquireTime.GetOr(log[0].stamp) <= log[0].stamp
  }

  /** `acquireTime` is the stamp that began the current hold, or what the Lease found says of a hold that began
      before the run; unless that lies in the future, it changes exactly when the holder does. */
  lemma AcquireTimeFollowsHolder(p: Params, s0: State, s: State, n: nat)
    requires Ordered(p.timing) && Init(s0) && LeadsTo(p, s0, s) && n < |s.log|
    ensures s.log[n].spec.acquireTime == Some(AcquiredAt(s0.store.lease, s.log, n))
    ensures n > 0 && FoundInOrder(s0.store.lease, s.log) ==>
      (s.log[n].spec.acquireTime != s.log[n - 1].spec.acquireTime <==> s.log[n].owner != s.log[n - 1].owner)
  {
    HistoryFrom(p, s0, s);
    AcquiredFrom(p.timing, s0.store.lease, s.log, n);
    if n > 0 {
      AcquiredFrom(p.timing, s0.store.lease, s.log, n - 1);
      AcquiredBefore(p.timing, s0.store.lease, s.log, n);
    }
  }

  /** A change of holder sets a later acquire time. */
  lemma AcquiredBefore(t: Timing, found: Option<Lease>, log: seq<Entry>, n: nat)
    requires History(t, found, log) && 0 < n < |log|
    ensures log[n].owner == log[n - 1].owner ==> AcquiredAt(found, log, n) == AcquiredAt(found, log, n - 1)
    ensures log[n].owner != log[n - 1].owner && FoundInOrder(found, log) ==>
      AcquiredAt(found, log, n - 1) < AcquiredAt(found, log, n)
  {
    var k := HoldStart(log, n - 1);
    if k < n {
      LogOrdered(t, log, k, n);
    }
    if 0 < n {
      LogOrdered(t, log, 0, n);
    }
  }
}
