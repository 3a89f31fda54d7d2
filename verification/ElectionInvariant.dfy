/**
 What every step of the election keeps.
 */
module ElectionInvariant {
  import opened Wrappers
  import opened Text
  import opened LeaseClaim
  import opened Belief
  import opened Monitor
  import opened ElectionLoop
  import opened ElectionSystem

  // ----------------------------------------------------------------- time arithmetic

  function Ceil(t: Timing): int
    requires t.retrySecs > 0
  {
    CeilDiv(t.renewSecs, t.retrySecs)
  }

  function Window(t: Timing): int
    requires t.retrySecs > 0
  {
    WindowSecs(t) * TICKS
  }

  /** `n` retry periods. */
  function Span(t: Timing, n: int): int {
    n * t.R()
  }

  lemma SpanStep(t: Timing, n: int)
    ensures Span(t, n + 1) == Span(t, n) + t.R()
  {
  }

  lemma SpanMonotone(t: Timing, m: int, n: int)
    requires t.retrySecs > 0 && m <= n
    ensures Span(t, m) <= Span(t, n)
  {
    assert m * t.retrySecs <= n * t.retrySecs by {
      assert (n - m) * t.retrySecs >= 0;
      assert (n - m) * t.retrySecs == n * t.retrySecs - m * t.retrySecs;
    }
  }

  lemma CeilBounds(t: Timing)
    requires Ordered(t)
    ensures Span(t, Ceil(t) - 1) < t.D() <= Span(t, Ceil(t))
    ensures Window(t) == Span(t, Ceil(t) + 2)
    ensures Ceil(t) >= 2
  {
    var a, b := t.renewSecs, t.retrySecs;
    var k := CeilDiv(a, b);
    assert a + b - 1 == k * b + (a + b - 1) % b;
    assert (k - 1) * b == k * b - b;
    assert k >= 2 by {
      assert (k - 1) * b > 0;
    }
  }

  /** A failed attempt that has not dropped the belief is early enough for one more after it. */
  lemma MissedBound(t: Timing, missed: int)
    requires Ordered(t) && Span(t, missed) - t.R() < t.D()
    ensures missed <= Ceil(t)
    ensures Span(t, missed + 1) <= Window(t) - t.R()
  {
    CeilBounds(t);
    SpanStep(t, missed - 1);
    if missed - 1 >= Ceil(t) {
      SpanMonotone(t, Ceil(t), missed - 1);
    }
    SpanMonotone(t, missed + 1, Ceil(t) + 1);
    SpanStep(t, Ceil(t) + 1);
  }

  // ------------------------------------------------------------------- the invariant

  function Last(log: seq<Entry>): Entry
    requires log != []
  {
    log[|log| - 1]
  }

  ghost predicate Logged(s: State, id: string, stamp: int) {
    exists n: nat :: n < |s.log| && s.log[n].owner == id && s.log[n].stamp == stamp
  }

  predicate Written(t: Timing, e: Entry) {
    && e.spec.holder == Some(e.owner) && e.spec.renewTime == Some(e.stamp)
    && e.spec.durationSeconds == Some(t.leaseSecs) && e.spec.acquireTime.Some?
  }

  /** How one write that took effect may follow another: the same holder later on, or a new holder after
      the previous Lease ran out. */
  predicate Linked(t: Timing, a: Entry, b: Entry) {
    && a.stamp < b.stamp && a.version < b.version
    && if a.owner == b.owner then
         b.spec.acquireTime == a.spec.acquireTime && b.spec.transitions == a.spec.transitions
       else
         && a.stamp + t.L() <= b.stamp
         && b.spec.acquireTime == Some(b.stamp)
         && b.spec.transitions == Some(SaturatingInc(a.spec.transitions.GetOr(0)))
  }

  predicate Chained(t: Timing, log: seq<Entry>) {
    forall n: nat :: n + 1 < |log| ==> Linked(t, log[n], log[n + 1])
  }

  predicate EntryOk(p: Params, s: State, e: Entry) {
    && IsIdentity(e.owner) && e.request < |s.requests|
    && s.requests[e.request].owner == e.owner && s.requests[e.request].stamp == e.stamp
    && Written(p.timing, e)
  }

  predicate LogOk(p: Params, s: State) {
    && (forall n: nat :: n < |s.log| ==> EntryOk(p, s, s.log[n]))
    && Chained(p.timing, s.log)
  }

  predicate StoreOk(s: State) {
    && (s.store.lease.Some? && s.store.lease.value.resourceVersion.Some? ==>
          s.store.lease.value.resourceVersion.value <= s.store.nextVersion)
    && (s.log != [] ==>
          && s.store.lease.Some?
          && s.store.lease.value.resourceVersion == Some(Last(s.log).version)
          && s.store.lease.value.spec == Some(Last(s.log).spec))
  }

  /** A write under way whose version is still current is the decision its owner would take now. */
  predicate InFlightOk(p: Params, s: State, r: Request) {
    && (r.write.Create? ==> r.write == Create(NewLease(p.timing, r.owner, r.stamp)))
    && (r.write.Replace? ==>
          && r.write.lease.resourceVersion.Some?
          && r.write.lease.resourceVersion.value <= s.store.nextVersion
          && (s.store.lease.Some? && s.store.lease.value.resourceVersion == r.write.lease.resourceVersion ==>
                && Decide(Ok(s.store.lease.value), p.timing, r.owner, r.stamp) == r.write
                && (s.log != [] && Last(s.log).owner == r.owner ==> Last(s.log).stamp < r.stamp)))
  }

  ghost predicate RequestOk(p: Params, s: State, r: Request) {
    && IsIdentity(r.owner) && r.owner in s.replicas && r.stamp <= s.replicas[r.owner].lastStart
    && !r.write.Done?
    && (r.fate.InFlight? ==> InFlightOk(p, s, r))
    && (r.fate.Answered? && r.fate.response.Ok? ==> Logged(s, r.owner, r.stamp))
  }

  ghost predicate RequestsOk(p: Params, s: State) {
    forall q: nat :: q < |s.requests| ==> RequestOk(p, s, s.requests[q])
  }

  /** Attempts stay on their schedule and own their requests. */
  predicate PhaseOk(p: Params, s: State, id: string, r: Replica) {
    && IsIdentity(id) && r.lastStart <= s.now
    && (r.phase.Down? ==> r == Stopped(id, r.lastStart, Dispatch(r)))
    && (r.phase.Idle? ==> s.now <= r.phase.next && r.lastStart < r.phase.next)
    && (r.phase.Busy? ==>
          && r.lastStart == r.phase.started <= s.now <= r.phase.started + p.timing.R()
          && r.outbox == []
          && (r.phase.progress.Reading? ==>
                forall q: nat :: q < |s.requests| && s.requests[q].owner == id ==> s.requests[q].stamp < r.phase.started)
          && (r.phase.progress.Waiting? ==>
                && r.phase.progress.request < |s.requests|
                && s.requests[r.phase.progress.request].owner == id
                && s.requests[r.phase.progress.request].stamp == r.phase.started)
          && (r.phase.progress.Replied? ==>
                !(r.phase.progress.result.Ok? && r.phase.progress.result.value.Holder?)))
  }

  /** Nothing to be delivered says leader without the belief. */
  predicate Harmless(action: Action, leader: bool) {
    match action
    case Notify(call) => !call.Enable? && (call.LeaderAcquired? ==> leader)
    case Send(value) => value ==> leader
  }

  /** The monitor and the watch are the belief, up to what the loop has still to deliver. */
  predicate Coherent(r: Replica) {
    && LeaderAfter(r.monitor.flags.leader, r.outbox) == r.belief.leader
    && WatchAfter(r.watch, r.outbox) == r.belief.leader
    && Consistent(r.monitor.flags)
    && forall n: nat :: n < |r.outbox| ==> Harmless(r.outbox[n], r.belief.leader)
  }

  /** Where a believing replica is on the grid its latest confirmed claim set. */
  predicate OnGrid(p: Params, s: State, r: Replica)
    requires p.timing.retrySecs > 0
  {
    && r.belief.last.Some?
    && r.stamp <= r.belief.last.value <= r.stamp + p.timing.R()
    && r.belief.last.value <= s.now
    && r.missed >= 1
    && Span(p.timing, r.missed) <= Window(p.timing) - p.timing.R()
    && !r.phase.Down?
    && (r.phase.Idle? ==>
          && r.phase.next == r.stamp + Span(p.timing, r.missed)
          && r.phase.next < r.belief.last.value + p.timing.D() + p.timing.R())
    && (r.phase.Busy? ==>
          && r.phase.started == r.stamp + Span(p.timing, r.missed)
          && r.phase.started < r.belief.last.value + p.timing.D() + p.timing.R())
  }

  /** What backs a replica that leads in any sense. */
  ghost predicate LeadOk(p: Params, s: State, id: string, r: Replica)
    requires p.timing.retrySecs > 0
  {
    && (r.belief.leader ==> OnGrid(p, s, r))
    && (Leads(r) ==>
          && Logged(s, id, r.stamp)
          && s.now <= r.stamp + Window(p.timing)
          && (Safe(p) ==> forall k :: k in s.replicas && k != id ==> s.replicas[k].lastStart < r.stamp + p.timing.L()))
  }

  ghost predicate ReplicaOk(p: Params, s: State, id: string, r: Replica)
    requires p.timing.retrySecs > 0
  {
    PhaseOk(p, s, id, r) && Coherent(r) && LeadOk(p, s, id, r)
  }

  ghost predicate Inv(p: Params, s: State)
    requires p.timing.retrySecs > 0
  {
    && StoreOk(s) && LogOk(p, s) && RequestsOk(p, s)
    && forall id :: id in s.replicas ==> ReplicaOk(p, s, id, s.replicas[id])
  }

  // -------------------------------------------------------------- small facts about a claim

  /** The holder of a written specification is its writer. */
  lemma WrittenHolder(t: Timing, e: Entry)
    requires Written(t, e) && IsIdentity(e.owner)
    ensures CurrentHolder(e.spec) == Some(e.owner)
    ensures t.leaseSecs > 0 ==> forall now :: LeaseExpired(e.spec, now) <==> now >= e.stamp + t.L()
  {
    TrimIdentity(e.owner, UnicodeSpace);
  }

  /** A write decided on the current Lease links to the write that put it there. */
  lemma DecisionLinks(p: Params, e: Entry, lease: Lease, write: Decision, e': Entry)
    requires Ordered(p.timing) && IsIdentity(e'.owner) && IsIdentity(e.owner) && Written(p.timing, e)
    requires lease.spec == Some(e.spec)
    requires write.Replace? && Decide(Ok(lease), p.timing, e'.owner, e'.stamp) == write && e'.spec == SpecOf(write.lease)
    requires e.version < e'.version && (e.owner == e'.owner ==> e.stamp < e'.stamp)
    ensures Linked(p.timing, e, e')
  {
    WrittenHolder(p.timing, e);
  }

  lemma DecisionWrites(t: Timing, got: Result<Lease, LeaseApiError>, e: Entry)
    requires var write := Decide(got, t, e.owner, e.stamp); !write.Done? && e.spec == SpecOf(write.lease)
    ensures Written(t, e)
  {
  }

  // ----------------------------------------------------------------------- steps

  /** Facts about replica `k` survive a step that changes only replica `id`. */
  lemma OtherKept(p: Params, s: State, s': State, id: string, k: string)
    requires Ordered(p.timing) && k in s.replicas && ReplicaOk(p, s, k, s.replicas[k])
    requires id in s.replicas && k != id
    requires s'.now == s.now && s'.log == s.log
    requires s.requests <= s'.requests
    requires forall q: nat :: |s.requests| <= q < |s'.requests| ==> s'.requests[q].owner == id
    requires id in s'.replicas && s'.replicas == s.replicas[id := s'.replicas[id]]
    requires Safe(p) && Leads(s.replicas[k]) ==> s'.replicas[id].lastStart < s.replicas[k].stamp + p.timing.L()
    ensures ReplicaOk(p, s', k, s.replicas[k])
  {
    var r := s.replicas[k];
    assert PhaseOk(p, s', k, r);
    assert Logged(s, k, r.stamp) == Logged(s', k, r.stamp);
    if Leads(r) && Safe(p) {
      forall m | m in s'.replicas && m != k
        ensures s'.replicas[m].lastStart < r.stamp + p.timing.L()
      {
        assert m != id ==> s'.replicas[m] == s.replicas[m];
      }
    }
    assert OnGrid(p, s, r) == OnGrid(p, s', r);
  }

  lemma OthersKept(p: Params, s: State, s': State, id: string)
    requires Ordered(p.timing) && forall k :: k in s.replicas ==> ReplicaOk(p, s, k, s.replicas[k])
    requires id in s.replicas
    requires s'.now == s.now && s'.log == s.log
    requires s.requests <= s'.requests
    requires forall q: nat :: |s.requests| <= q < |s'.requests| ==> s'.requests[q].owner == id
    requires id in s'.replicas && s'.replicas == s.replicas[id := s'.replicas[id]]
    requires Safe(p) ==> forall k :: k in s.replicas && k != id && Leads(s.replicas[k]) ==>
        s'.replicas[id].lastStart < s.replicas[k].stamp + p.timing.L()
    ensures forall k :: k in s'.replicas && k != id ==> ReplicaOk(p, s', k, s'.replicas[k])
  {
    forall k | k in s'.replicas && k != id
      ensures ReplicaOk(p, s', k, s'.replicas[k])
    {
      OtherKept(p, s, s', id, k);
    }
  }

  /** Requests survive a step that leaves the store and the log alone and moves no start backwards. */
  lemma RequestsKept(p: Params, s: State, s': State)
    requires RequestsOk(p, s)
    requires s'.store == s.store && s'.log == s.log && s'.requests == s.requests
    requires s'.replicas.Keys == s.replicas.Keys
    requires forall k :: k in s.replicas ==> s.replicas[k].lastStart <= s'.replicas[k].lastStart
    ensures RequestsOk(p, s')
  {
    forall q: nat | q < |s'.requests|
      ensures RequestOk(p, s', s'.requests[q])
    {
      assert RequestOk(p, s, s.requests[q]);
      var r := s.requests[q];
      assert Logged(s, r.owner, r.stamp) == Logged(s', r.owner, r.stamp);
    }
  }

  /** A step that changes only replica `id` keeps the invariant if it keeps that replica's part. */
  lemma OneReplicaStep(p: Params, s: State, s': State, id: string)
    requires Ordered(p.timing) && Inv(p, s)
    requires id in s.replicas && id in s'.replicas
    requires s' == s.(replicas := s.replicas[id := s'.replicas[id]])
    requires s.replicas[id].lastStart <= s'.replicas[id].lastStart
    requires Safe(p) ==> forall k :: k in s.replicas && k != id && Leads(s.replicas[k]) ==>
        s'.replicas[id].lastStart < s.replicas[k].stamp + p.timing.L()
    requires ReplicaOk(p, s', id, s'.replicas[id])
    ensures Inv(p, s')
  {
    RequestsKept(p, s, s');
    OthersKept(p, s, s', id);
    forall n: nat | n < |s'.log| ensures EntryOk(p, s', s'.log[n]) {
      assert EntryOk(p, s, s.log[n]);
    }
  }

  /** A replica's start is earlier than any other leader allows, as long as it does not move. */
  lemma SameStart(p: Params, s: State, id: string)
    requires Ordered(p.timing) && Inv(p, s) && Safe(p) && id in s.replicas
    ensures forall k :: k in s.replicas && k != id && Leads(s.replicas[k]) ==>
        s.replicas[id].lastStart < s.replicas[k].stamp + p.timing.L()
  {
    forall k | k in s.replicas && k != id && Leads(s.replicas[k])
      ensures s.replicas[id].lastStart < s.replicas[k].stamp + p.timing.L()
    {
      assert ReplicaOk(p, s, k, s.replicas[k]);
    }
  }

  /** What backs a lead survives as long as belief, schedule and history stay. */
  lemma LeadKept(p: Params, s: State, s': State, id: string, r: Replica, r': Replica)
    requires p.timing.retrySecs > 0 && LeadOk(p, s, id, r)
    requires s'.now == s.now && s'.log == s.log && s'.replicas.Keys == s.replicas.Keys
    requires forall k :: k in s.replicas && k != id ==> s'.replicas[k] == s.replicas[k]
    requires r'.belief == r.belief && r'.stamp == r.stamp && r'.missed == r.missed
    requires !r'.phase.Down? || !r.belief.leader
    requires r'.phase.Idle? ==> r.phase == r'.phase
    requires r'.phase.Busy? && r.belief.leader ==>
      || (r.phase.Busy? && r.phase.started == r'.phase.started)
      || (r.phase.Idle? && r.phase.next == r'.phase.started)
    requires Leads(r') ==> Leads(r)
    ensures LeadOk(p, s', id, r')
  {
    assert Logged(s, id, r.stamp) == Logged(s', id, r.stamp);
  }

  lemma InitInv(p: Params, s: State)
    requires Ordered(p.timing) && Init(s)
    ensures Inv(p, s)
  {
    forall id | id in s.replicas
      ensures ReplicaOk(p, s, id, s.replicas[id])
    {
      StoppedCoherent(id, s.replicas[id].lastStart, Dispatch(s.replicas[id]));
    }
  }

  lemma StoppedCoherent(id: string, lastStart: int, dispatch: bool)
    ensures Coherent(Stopped(id, lastStart, dispatch)) && Dispatch(Stopped(id, lastStart, dispatch)) == dispatch
    ensures !Leads(Stopped(id, lastStart, dispatch))
  {
    assert Stopped(id, lastStart, dispatch).monitor.flags == FlagsAfter(NewSnapshot(dispatch).flags, Enable(id));
  }

  lemma BootInv(p: Params, s: State, id: string)
    requires Ordered(p.timing) && Inv(p, s) && Enabled(p, s, Boot(id))
    ensures Inv(p, After(p, s, Boot(id)))
  {
    var s' := After(p, s, Boot(id));
    assert ReplicaOk(p, s, id, s.replicas[id]);
    StoppedCoherent(id, s.replicas[id].lastStart, Dispatch(s.replicas[id]));
    assert ReplicaOk(p, s', id, s'.replicas[id]);
    if Safe(p) { SameStart(p, s, id); }
    OneReplicaStep(p, s, s', id);
  }

  lemma CrashInv(p: Params, s: State, id: string)
    requires Ordered(p.timing) && Inv(p, s) && Enabled(p, s, Crash(id))
    ensures Inv(p, After(p, s, Crash(id)))
  {
    var s' := After(p, s, Crash(id));
    assert ReplicaOk(p, s, id, s.replicas[id]);
    StoppedCoherent(id, s.replicas[id].lastStart, Dispatch(s.replicas[id]));
    assert ReplicaOk(p, s', id, s'.replicas[id]);
    if Safe(p) { SameStart(p, s, id); }
    OneReplicaStep(p, s, s', id);
  }

  /** Nobody starts an attempt so late that it could see another leader's Lease as expired. */
  lemma StartIsEarly(p: Params, s: State, id: string, k: string)
    requires Ordered(p.timing) && Inv(p, s) && Enabled(p, s, Start(id)) && Safe(p)
    requires k in s.replicas && k != id && Leads(s.replicas[k])
    ensures s.now < s.replicas[k].stamp + p.timing.L()
  {
    var r := s.replicas[k];
    assert ReplicaOk(p, s, k, r);
    CeilBounds(p.timing);
    if WindowSecs(p.timing) >= p.timing.leaseSecs {
      assert !DueNow(p, s, r);
      assert LeaderAfter(r.monitor.flags.leader, []) == r.monitor.flags.leader;
      assert OnGrid(p, s, r);
      assert PhaseOk(p, s, k, r);
    }
  }

  lemma StartInv(p: Params, s: State, id: string)
    requires Ordered(p.timing) && Inv(p, s) && Enabled(p, s, Start(id))
    ensures Inv(p, After(p, s, Start(id)))
  {
    var s' := After(p, s, Start(id));
    if Safe(p) {
      forall k | k in s.replicas && k != id && Leads(s.replicas[k])
        ensures s.now < s.replicas[k].stamp + p.timing.L()
      {
        StartIsEarly(p, s, id, k);
      }
    }
    assert ReplicaOk(p, s, id, s.replicas[id]);
    StartReplicaOk(p, s, s', id);
    OneReplicaStep(p, s, s', id);
  }

  lemma StartReplicaOk(p: Params, s: State, s': State, id: string)
    requires Ordered(p.timing) && RequestsOk(p, s) && id in s.replicas && ReplicaOk(p, s, id, s.replicas[id])
    requires s.replicas[id].phase == Idle(s.now) && s.replicas[id].outbox == []
    requires s' == Put(s, id, s.replicas[id].(phase := Busy(s.now, Reading), lastStart := s.now))
    ensures ReplicaOk(p, s', id, s'.replicas[id])
  {
    var r, r' := s.replicas[id], s'.replicas[id];
    forall q: nat | q < |s.requests| && s.requests[q].owner == id
      ensures s.requests[q].stamp < s.now
    {
      assert RequestOk(p, s, s.requests[q]);
    }
    assert PhaseOk(p, s', id, r');
    LeadKept(p, s, s', id, r, r');
  }

  /** The request a read sends out is in order. */
  lemma NewRequestOk(p: Params, s: State, id: string)
    requires Ordered(p.timing) && Inv(p, s) && Enabled(p, s, Read(id))
    ensures var stamp := s.replicas[id].phase.started;
      var decision := Decide(Fetch(s.store), p.timing, id, stamp);
      !decision.Done? ==> InFlightOk(p, s, Request(id, stamp, decision, InFlight))
  {
    var r := s.replicas[id];
    assert ReplicaOk(p, s, id, r);
    assert PhaseOk(p, s, id, r);
    if s.log != [] && Last(s.log).owner == id {
      var e := Last(s.log);
      assert EntryOk(p, s, e);
      assert s.requests[e.request].stamp < r.phase.started;
    }
  }

  lemma ReadRequestsOk(p: Params, s: State, s': State, id: string)
    requires LogOk(p, s) && RequestsOk(p, s) && id in s.replicas && s.replicas[id].phase.Busy?
    requires s.replicas[id].lastStart == s.replicas[id].phase.started && IsIdentity(id)
    requires var stamp := s.replicas[id].phase.started;
      var decision := Decide(Fetch(s.store), p.timing, id, stamp);
      !decision.Done? ==> InFlightOk(p, s, Request(id, stamp, decision, InFlight))
    requires s' == AfterRead(p, s, id)
    ensures RequestsOk(p, s') && LogOk(p, s')
  {
    forall q: nat | q < |s'.requests|
      ensures RequestOk(p, s', s'.requests[q])
    {
      var request := s'.requests[q];
      assert Logged(s, request.owner, request.stamp) == Logged(s', request.owner, request.stamp);
      assert InFlightOk(p, s', request) == InFlightOk(p, s, request);
      if q < |s.requests| {
        assert RequestOk(p, s, s.requests[q]);
      }
    }
    forall n: nat | n < |s'.log| ensures EntryOk(p, s', s'.log[n]) {
      assert EntryOk(p, s, s.log[n]);
    }
  }

  /** What the read finds out is not yet ownership. */
  lemma ReadReplicaOk(p: Params, s: State, s': State, id: string)
    requires Ordered(p.timing) && id in s.replicas && ReplicaOk(p, s, id, s.replicas[id])
    requires s.replicas[id].phase.Busy? && s.replicas[id].phase.progress.Reading?
    requires s' == AfterRead(p, s, id)
    ensures ReplicaOk(p, s', id, s'.replicas[id])
  {
    var r, r' := s.replicas[id], s'.replicas[id];
    assert PhaseOk(p, s, id, r);
    assert PhaseOk(p, s', id, r');
    LeadKept(p, s, s', id, r, r');
  }

  lemma ReadInv(p: Params, s: State, id: string)
    requires Ordered(p.timing) && Inv(p, s) && Enabled(p, s, Read(id))
    ensures Inv(p, After(p, s, Read(id)))
  {
    var s' := After(p, s, Read(id));
    assert ReplicaOk(p, s, id, s.replicas[id]);
    NewRequestOk(p, s, id);
    ReadRequestsOk(p, s, s', id);
    ReadReplicaOk(p, s, s', id);
    if Safe(p) { SameStart(p, s, id); }
    OthersKept(p, s, s', id);
  }

  lemma DeliverInv(p: Params, s: State, id: string)
    requires Ordered(p.timing) && Inv(p, s) && Enabled(p, s, Deliver(id))
    ensures Inv(p, After(p, s, Deliver(id)))
  {
    var s' := After(p, s, Deliver(id));
    DeliverReplicaOk(p, s, s', id);
    if Safe(p) { SameStart(p, s, id); }
    OneReplicaStep(p, s, s', id);
  }

  lemma DeliverReplicaOk(p: Params, s: State, s': State, id: string)
    requires Ordered(p.timing) && id in s.replicas && ReplicaOk(p, s, id, s.replicas[id])
    requires s.replicas[id].outbox != [] && s' == AfterDeliver(s, id)
    ensures ReplicaOk(p, s', id, s'.replicas[id])
  {
    var r, r' := s.replicas[id], s'.replicas[id];
    DeliverCoherent(r, r');
    assert PhaseOk(p, s', id, r');
    LeadKept(p, s, s', id, r, r');
  }

  lemma DeliverCoherent(r: Replica, r': Replica)
    requires Coherent(r) && r.outbox != []
    requires r' == var rest := r.(outbox := r.outbox[1..]);
      if r.outbox[0].Notify? then rest.(monitor := Apply(r.monitor, r.outbox[0].call))
      else rest.(watch := r.outbox[0].value)
    ensures Coherent(r') && (Leads(r') ==> Leads(r))
  {
    assert forall n: nat :: n < |r'.outbox| ==> r'.outbox[n] == r.outbox[n + 1];
    if r.outbox[0].Notify? {
      StepKeepsConsistent(r.monitor.flags, r.outbox[0].call);
      assert r'.monitor.flags.leader == LeaderAfterCall(r.monitor.flags.leader, r.outbox[0].call);
    }
  }

  lemma OtherInv(p: Params, s: State, id: string, call: Call)
    requires Ordered(p.timing) && Inv(p, s) && Enabled(p, s, Other(id, call))
    ensures Inv(p, After(p, s, Other(id, call)))
  {
    var s' := After(p, s, Other(id, call));
    assert ReplicaOk(p, s, id, s.replicas[id]);
    OtherReplicaOk(p, s, s', id, call);
    if Safe(p) { SameStart(p, s, id); }
    OneReplicaStep(p, s, s', id);
  }

  lemma OtherReplicaOk(p: Params, s: State, s': State, id: string, call: Call)
    requires Ordered(p.timing) && id in s.replicas && ReplicaOk(p, s, id, s.replicas[id])
    requires !s.replicas[id].phase.Down? && OtherTaskCall(call)
    requires s' == Put(s, id, s.replicas[id].(monitor := Apply(s.replicas[id].monitor, call)))
    ensures ReplicaOk(p, s', id, s'.replicas[id])
  {
    var r, r' := s.replicas[id], s'.replicas[id];
    OtherCoherent(r, call);
    assert PhaseOk(p, s', id, r');
    LeadKept(p, s, s', id, r, r');
  }

  lemma OtherCoherent(r: Replica, call: Call)
    requires Coherent(r) && OtherTaskCall(call)
    ensures var r' := r.(monitor := Apply(r.monitor, call)); Coherent(r') && Leads(r') == Leads(r)
  {
    StepKeepsConsistent(r.monitor.flags, call);
    assert Apply(r.monitor, call).flags.leader == r.monitor.flags.leader;
  }

  lemma TickInv(p: Params, s: State, to: int)
    requires Ordered(p.timing) && Inv(p, s) && Enabled(p, s, Tick(to))
    ensures Inv(p, After(p, s, Tick(to)))
  {
    var s' := After(p, s, Tick(to));
    RequestsKept(p, s, s');
    forall id | id in s'.replicas
      ensures ReplicaOk(p, s', id, s'.replicas[id])
    {
      var r := s.replicas[id];
      assert ReplicaOk(p, s, id, r) && MayReach(p, r, to);
      assert PhaseOk(p, s', id, r);
      if Leads(r) {
        assert LeaderAfter(r.monitor.flags.leader, []) == r.monitor.flags.leader;
        assert OnGrid(p, s, r);
        assert Logged(s, id, r.stamp) == Logged(s', id, r.stamp);
      }
      assert LeadOk(p, s', id, r);
    }
  }

  /** A confirmed claim is a logged one. */
  lemma ConfirmedIsLogged(p: Params, s: State, id: string, result: ClaimResult)
    requires Ordered(p.timing) && Inv(p, s) && Enabled(p, s, End(id, result))
    requires result.Ok? && result.value.Holder?
    ensures Logged(s, id, s.replicas[id].phase.started)
  {
    var r := s.replicas[id];
    assert ReplicaOk(p, s, id, r);
    assert PhaseOk(p, s, id, r);
    assert RequestOk(p, s, s.requests[r.phase.progress.request]);
  }

  /** After an attempt ends, a replica that still believes is on its grid. */
  lemma EndOnGrid(p: Params, s: State, id: string, result: ClaimResult)
    requires Ordered(p.timing) && id in s.replicas && s.replicas[id].phase.Busy?
    requires s.replicas[id].phase.started <= s.now <= s.replicas[id].phase.started + p.timing.R()
    requires s.replicas[id].belief.leader ==> OnGrid(p, s, s.replicas[id])
    ensures var s' := AfterEnd(p, s, id, result);
      s'.replicas[id].belief.leader ==> OnGrid(p, s', s'.replicas[id])
  {
    var r := s.replicas[id];
    CeilBounds(p.timing);
    SpanStep(p.timing, r.missed);
    if result.Ok? {
      SpanMonotone(p.timing, 1, Ceil(p.timing) + 1);
      SpanStep(p.timing, Ceil(p.timing) + 1);
      assert Span(p.timing, 1) == p.timing.R();
    } else if r.belief.leader && !DeadlinePassed(r.belief, s.now, p.timing.D()) {
      MissedBound(p.timing, r.missed);
    }
  }

  lemma ActionsHarmless(event: ElectionEvent, n: nat)
    ensures forall i: nat :: i < |Actions(event, n)| ==> Harmless(Actions(event, n)[i], event.Acquired?)
  {
  }

  lemma EndInv(p: Params, s: State, id: string, result: ClaimResult)
    requires Ordered(p.timing) && Inv(p, s) && Enabled(p, s, End(id, result))
    ensures Inv(p, After(p, s, End(id, result)))
  {
    var s' := After(p, s, End(id, result));
    assert ReplicaOk(p, s, id, s.replicas[id]);
    EndCoherent(p, s, id, result);
    EndPhaseOk(p, s, id, result);
    forall k | k in s.replicas ensures s.replicas[k].lastStart <= s.now {
      assert ReplicaOk(p, s, k, s.replicas[k]);
    }
    if result.Ok? && result.value.Holder? { ConfirmedIsLogged(p, s, id, result); }
    EndLeadOk(p, s, id, result);
    if Safe(p) { SameStart(p, s, id); }
    OneReplicaStep(p, s, s', id);
  }

  /** The loop has everything still to deliver that brings monitor and watch to the new belief. */
  lemma EndCoherent(p: Params, s: State, id: string, result: ClaimResult)
    requires id in s.replicas && s.replicas[id].phase.Busy? && s.replicas[id].outbox == [] && Coherent(s.replicas[id])
    ensures Coherent(AfterEnd(p, s, id, result).replicas[id])
  {
    var r := s.replicas[id];
    var (belief, event) := Observe(r.belief, s.now, p.timing.D(), result);
    ActionsReachBelief(r.monitor, r.belief, s.now, p.timing.D(), result);
    ActionsHarmless(event, belief.transitions);
    assert r.monitor.flags.leader == r.belief.leader == r.watch;
  }

  lemma EndPhaseOk(p: Params, s: State, id: string, result: ClaimResult)
    requires Ordered(p.timing) && id in s.replicas && s.replicas[id].phase.Busy? && PhaseOk(p, s, id, s.replicas[id])
    ensures PhaseOk(p, AfterEnd(p, s, id, result), id, AfterEnd(p, s, id, result).replicas[id])
  {
  }

  lemma EndLeadOk(p: Params, s: State, id: string, result: ClaimResult)
    requires Ordered(p.timing) && id in s.replicas && s.replicas[id].phase.Busy?
    requires ReplicaOk(p, s, id, s.replicas[id])
    requires forall k :: k in s.replicas ==> s.replicas[k].lastStart <= s.now
    requires result.Ok? && result.value.Holder? ==> Logged(s, id, s.replicas[id].phase.started)
    ensures var s' := AfterEnd(p, s, id, result); LeadOk(p, s', id, s'.replicas[id])
  {
    var s' := AfterEnd(p, s, id, result);
    var r, r' := s.replicas[id], s'.replicas[id];
    EndOnGrid(p, s, id, result);
    CeilBounds(p.timing);
    assert Logged(s, id, r'.stamp) == Logged(s', id, r'.stamp);
    if result.Ok? && result.value.Holder? {
      SpanMonotone(p.timing, 1, Ceil(p.timing) + 2);
      assert Span(p.timing, 1) == p.timing.R();
    } else {
      assert r.monitor.flags.leader == r.belief.leader;
      assert Leads(r') ==> Leads(r);
    }
  }

  lemma ArriveStoreOk(p: Params, s: State, q: nat)
    requires Ordered(p.timing) && StoreOk(s) && LogOk(p, s)
    requires q < |s.requests| && s.requests[q].fate.InFlight? && RequestOk(p, s, s.requests[q])
    ensures var s' := AfterArrive(s, q); StoreOk(s') && LogOk(p, s')
  {
    var s' := AfterArrive(s, q);
    var request := s.requests[q];
    forall n: nat | n < |s.log| ensures EntryOk(p, s', s'.log[n]) {
      assert EntryOk(p, s, s.log[n]);
    }
    if |s'.log| > |s.log| {
      var e := Last(s'.log);
      if request.write.Create? {
        assert s.log == [];
      } else {
        DecisionWrites(p.timing, Ok(s.store.lease.value), e);
        if s.log != [] {
          assert EntryOk(p, s, Last(s.log));
          DecisionLinks(p, Last(s.log), s.store.lease.value, request.write, e);
        }
      }
      assert EntryOk(p, s', e);
      assert s'.log == s.log + [e];
      assert s.log != [] ==> Linked(p.timing, Last(s.log), e);
      forall n: nat | n + 1 < |s'.log|
        ensures Linked(p.timing, s'.log[n], s'.log[n + 1])
      {
        if n + 1 < |s.log| { assert Linked(p.timing, s.log[n], s.log[n + 1]); }
      }
    }
  }

  lemma ArriveInv(p: Params, s: State, q: nat)
    requires Ordered(p.timing) && Inv(p, s) && Enabled(p, s, Arrive(q))
    ensures Inv(p, After(p, s, Arrive(q)))
  {
    var s' := After(p, s, Arrive(q));
    assert RequestOk(p, s, s.requests[q]);
    ArriveStoreOk(p, s, q);
    assert s.log <= s'.log;
    forall id: string, stamp: int | Logged(s, id, stamp) ensures Logged(s', id, stamp) {
      var n: nat :| n < |s.log| && s.log[n].owner == id && s.log[n].stamp == stamp;
      assert s'.log[n] == s.log[n];
    }
    forall k: nat | k < |s'.requests|
      ensures RequestOk(p, s', s'.requests[k])
    {
      assert RequestOk(p, s, s.requests[k]);
      ArriveRequestOk(p, s, q, k);
    }
    forall id | id in s'.replicas
      ensures ReplicaOk(p, s', id, s'.replicas[id])
    {
      assert ReplicaOk(p, s, id, s.replicas[id]);
      ArriveReplicaOk(p, s, q, id);
    }
  }

  lemma ArriveReplicaOk(p: Params, s: State, q: nat, id: string)
    requires p.timing.retrySecs > 0 && id in s.replicas && ReplicaOk(p, s, id, s.replicas[id])
    requires q < |s.requests| && !s.requests[q].write.Done?
    requires forall id, stamp :: Logged(s, id, stamp) ==> Logged(AfterArrive(s, q), id, stamp)
    ensures ReplicaOk(p, AfterArrive(s, q), id, s.replicas[id])
  {
    var s' := AfterArrive(s, q);
    var r := s.replicas[id];
    assert PhaseOk(p, s', id, r);
    assert OnGrid(p, s', r) == OnGrid(p, s, r);
  }

  lemma ArriveRequestOk(p: Params, s: State, q: nat, k: nat)
    requires StoreOk(s) && k < |s.requests| && RequestOk(p, s, s.requests[k])
    requires q < |s.requests| && !s.requests[q].write.Done?
    requires forall id, stamp :: Logged(s, id, stamp) ==> Logged(AfterArrive(s, q), id, stamp)
    ensures var s' := AfterArrive(s, q); RequestOk(p, s', s'.requests[k])
  {
    var s' := AfterArrive(s, q);
    if k == q && |s'.log| > |s.log| {
      assert s'.log[|s.log|].owner == s'.requests[k].owner;
      assert Logged(s', s'.requests[k].owner, s'.requests[k].stamp);
    }
  }

  lemma StepInv(p: Params, s: State, step: Step)
    requires Ordered(p.timing) && Inv(p, s) && Enabled(p, s, step)
    ensures Inv(p, After(p, s, step))
  {
    match step
    case Boot(id) => BootInv(p, s, id);
    case Crash(id) => CrashInv(p, s, id);
    case Start(id) => StartInv(p, s, id);
    case Read(id) => ReadInv(p, s, id);
    case Arrive(q) => ArriveInv(p, s, q);
    case End(id, result) => EndInv(p, s, id, result);
    case Deliver(id) => DeliverInv(p, s, id);
    case Other(id, call) => OtherInv(p, s, id, call);
    case Tick(to) => TickInv(p, s, to);
  }

  lemma {:induction false} RunInv(p: Params, s: State, steps: seq<Step>)
    requires Ordered(p.timing) && Inv(p, s) && Valid(p, s, steps)
    ensures Inv(p, Run(p, s, steps))
    decreases |steps|
  {
    if steps != [] {
      StepInv(p, s, steps[0]);
      RunInv(p, After(p, s, steps[0]), steps[1..]);
    }
  }

  lemma ReachableInv(p: Params, s: State)
    requires Ordered(p.timing) && Reachable(p, s)
    ensures Inv(p, s)
  {
    var s0: State, steps: seq<Step> :| Init(s0) && Valid(p, s0, steps) && Run(p, s0, steps) == s;
    InitInv(p, s0);
    RunInv(p, s0, steps);
  }
}
