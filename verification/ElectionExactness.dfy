/**
 The timing condition is exact: whenever it fails, two replicas can lead, and serve, at once.

 The run: "a" creates the Lease and hears of it as late as it may, fails every renewal at once until
 its last attempt, which hangs; "b" starts at the instant the Lease expires and takes it over while
 "a" still waits.
 */
module ElectionExactness {
  import opened Wrappers
  import opened Text
  import opened LeaseClaim
  import opened Belief
  import opened Monitor
  import opened ElectionLoop
  import opened ElectionSystem
  import opened ElectionInvariant
  import opened ElectionSafety

  /** Any two identities will do, with dispatch on or off. */
  datatype Duo = Duo(a: string, b: string, dispatch: bool) {
    predicate Ok() { IsIdentity(a) && IsIdentity(b) && a != b }
  }

  function FirstStore(d: Duo, t: Timing): Store {
    Store(Some(NewLease(t, d.a, 0).(resourceVersion := Some(1))), 1)
  }

  function Opening(d: Duo): State {
    State(0, Store(None, 0), [], [], map[d.a := Stopped(d.a, -1, d.dispatch), d.b := Stopped(d.b, -1, d.dispatch)])
  }

  /** "a" holds the Lease it created at instant 0; "b" has not started. */
  predicate Alone(d: Duo, p: Params, s: State) {
    && d.a != d.b
    && s.store == FirstStore(d, p.timing) && |s.requests| == 1
    && s.replicas.Keys == {d.a, d.b} && s.replicas[d.b] == Stopped(d.b, -1, d.dispatch)
    && var a := s.replicas[d.a];
       && a.belief.leader && a.belief.last == Some(p.timing.R())
       && a.outbox == [] && a.watch && a.monitor.flags.leader && a.monitor.flags.electionEnabled
  }

  /** ... and is about to start its `k`-th attempt since. */
  predicate Holding(d: Duo, p: Params, s: State, k: nat) {
    Alone(d, p, s) && s.now == Span(p.timing, k) && s.replicas[d.a].phase == Idle(s.now)
  }

  /** Replica "a" in its first attempt. */
  function FirstAttempt(d: Duo, progress: Progress): Replica {
    Stopped(d.a, -1, d.dispatch).(phase := Busy(0, progress), lastStart := 0)
  }

  /** "a" is as given, "b" has not started. */
  predicate Cast(d: Duo, s: State, a: Replica) {
    s.replicas.Keys == {d.a, d.b} && s.replicas[d.a] == a && s.replicas[d.b] == Stopped(d.b, -1, d.dispatch)
  }

  lemma Wake(d: Duo, p: Params) returns (s: State)
    requires d.Ok()
    ensures Reachable(p, s) && s.now == 0 && s.store == Store(None, 0) && s.requests == []
    ensures Cast(d, s, Stopped(d.a, -1, d.dispatch).(phase := Idle(0)))
  {
    var s0 := Opening(d);
    assert Init(s0);
    ReachInit(p, s0);
    ReachNext(p, s0, Boot(d.a));
    s := After(p, s0, Boot(d.a));
  }

  lemma Begin(d: Duo, p: Params) returns (s: State)
    requires d.Ok()
    ensures Reachable(p, s) && s.now == 0 && s.store == Store(None, 0) && s.requests == []
    ensures Cast(d, s, FirstAttempt(d, Reading))
  {
    var s0 := Wake(d, p);
    StoppedCoherent(d.b, -1, d.dispatch);
    ReachNext(p, s0, Start(d.a));
    s := After(p, s0, Start(d.a));
  }

  lemma Propose(d: Duo, p: Params) returns (s: State)
    requires d.Ok()
    ensures Reachable(p, s) && s.now == 0 && s.store == Store(None, 0)
    ensures s.requests == [Request(d.a, 0, Decision.Create(NewLease(p.timing, d.a, 0)), InFlight)]
    ensures Cast(d, s, FirstAttempt(d, Waiting(0)))
  {
    var s0 := Begin(d, p);
    ReachNext(p, s0, Read(d.a));
    s := AfterRead(p, s0, d.a);
  }

  lemma Create(d: Duo, p: Params) returns (s: State)
    requires d.Ok()
    ensures Reachable(p, s) && s.now == 0 && s.store == FirstStore(d, p.timing) && |s.requests| == 1
    ensures s.requests[0].fate == Answered(Ok(FirstStore(d, p.timing).lease.value)) && s.requests[0].write.Create?
    ensures Cast(d, s, FirstAttempt(d, Waiting(0)))
  {
    var s0 := Propose(d, p);
    ReachNext(p, s0, Arrive(0));
    s := AfterArrive(s0, 0);
  }

  /** The answer reaches "a" at the last moment. */
  lemma HearLate(d: Duo, p: Params) returns (s: State)
    requires d.Ok()
    requires Ordered(p.timing)
    ensures Reachable(p, s) && s.now == p.timing.R() && s.store == FirstStore(d, p.timing) && |s.requests| == 1
    ensures s.replicas.Keys == {d.a, d.b} && s.replicas[d.b] == Stopped(d.b, -1, d.dispatch)
    ensures var a := s.replicas[d.a];
      && a.phase == Idle(s.now) && a.belief == BeliefState(true, Some(s.now), 0)
      && a.monitor == Stopped(d.a, -1, d.dispatch).monitor
      && a.outbox == [Notify(LeaderAcquired(0)), Send(true)]
  {
    var s0 := WaitLong(d, p);
    assert Finish(s0.requests[0].write, d.a, s0.requests[0].fate.response) == Ok(Holder(0));
    ReachNext(p, s0, End(d.a, Ok(Holder(0))));
    s := AfterEnd(p, s0, d.a, Ok(Holder(0)));
  }

  lemma WaitLong(d: Duo, p: Params) returns (s: State)
    requires d.Ok()
    requires Ordered(p.timing)
    ensures Reachable(p, s) && s.now == p.timing.R() && s.store == FirstStore(d, p.timing) && |s.requests| == 1
    ensures s.requests[0].fate == Answered(Ok(FirstStore(d, p.timing).lease.value)) && s.requests[0].write.Create?
    ensures Cast(d, s, FirstAttempt(d, Waiting(0)))
  {
    var s0 := Create(d, p);
    ReachNext(p, s0, Tick(p.timing.R()));
    s := After(p, s0, Tick(p.timing.R()));
  }

  lemma Acquire(d: Duo, p: Params) returns (s: State)
    requires d.Ok()
    requires Ordered(p.timing)
    ensures Reachable(p, s) && Holding(d, p, s, 1)
  {
    var s0 := HearLate(d, p);
    ReachNext(p, s0, Deliver(d.a));
    var s1 := After(p, s0, Deliver(d.a));
    assert s1.replicas[d.a].outbox == [Send(true)];
    ReachNext(p, s1, Deliver(d.a));
    s := After(p, s1, Deliver(d.a));
  }

  /** One failed renewal, early enough not to cost the belief. */
  lemma Miss(d: Duo, p: Params, s: State, k: nat) returns (s': State)
    requires d.Ok()
    requires Ordered(p.timing) && Reachable(p, s) && Holding(d, p, s, k) && 1 <= k <= Ceil(p.timing)
    ensures Reachable(p, s') && Holding(d, p, s', k + 1)
  {
    CeilBounds(p.timing);
    SpanStep(p.timing, k - 1);
    SpanStep(p.timing, k);
    SpanMonotone(p.timing, k - 1, Ceil(p.timing) - 1);
    SpanMonotone(p.timing, 1, k);
    assert Span(p.timing, 1) == p.timing.R();
    var s1 := StartAlone(d, p, s);
    var s2 := FailQuietly(d, p, s1);
    s' := After(p, s2, Tick(Span(p.timing, k + 1)));
    ReachNext(p, s2, Tick(Span(p.timing, k + 1)));
  }

  lemma FailQuietly(d: Duo, p: Params, s: State) returns (s': State)
    requires d.Ok()
    requires Ordered(p.timing) && Reachable(p, s) && Alone(d, p, s) && s.replicas[d.a].phase.Busy?
    requires p.timing.R() <= s.now < p.timing.R() + p.timing.D()
    ensures Reachable(p, s') && Alone(d, p, s') && s'.now == s.now
    ensures s'.replicas[d.a].phase == Idle(s.replicas[d.a].phase.started + p.timing.R())
  {
    ReachNext(p, s, End(d.a, Err(Transport)));
    var s1 := AfterEnd(p, s, d.a, Err(Transport));
    assert s1.replicas[d.a].outbox == [Notify(ApiFailure(true))];
    ReachNext(p, s1, Deliver(d.a));
    s' := AfterDeliver(s1, d.a);
  }

  lemma StartAlone(d: Duo, p: Params, s: State) returns (s': State)
    requires d.Ok()
    requires Ordered(p.timing) && Reachable(p, s) && Alone(d, p, s) && s.replicas[d.a].phase == Idle(s.now)
    ensures Reachable(p, s') && Alone(d, p, s') && s'.now == s.now
    ensures s'.replicas[d.a].phase == Busy(s.now, Reading)
  {
    StoppedCoherent(d.b, -1, d.dispatch);
    s' := After(p, s, Start(d.a));
    ReachNext(p, s, Start(d.a));
  }

  lemma HoldUntil(d: Duo, p: Params, k: nat) returns (s: State)
    requires d.Ok()
    requires Ordered(p.timing) && 1 <= k <= Ceil(p.timing) + 1
    ensures Reachable(p, s) && Holding(d, p, s, k)
  {
    s := Acquire(d, p);
    for i := 1 to k
      invariant Reachable(p, s) && Holding(d, p, s, i)
    {
      s := Miss(d, p, s, i);
    }
  }

  /** The attempt of "a" that is under way when the Lease expires. */
  lemma {:induction false} LastAttempt(t: Timing, from: nat) returns (k: nat)
    requires Ordered(t) && 1 <= from <= Ceil(t) + 1 && Span(t, from) <= t.L()
    ensures 1 <= k <= Ceil(t) + 1 && Span(t, k) <= t.L()
    ensures k == Ceil(t) + 1 || t.L() < Span(t, k + 1)
    decreases Ceil(t) + 1 - from
  {
    if from == Ceil(t) + 1 || t.L() < Span(t, from + 1) {
      k := from;
    } else {
      k := LastAttempt(t, from + 1);
    }
  }

  /** "a" waits for an answer, up to its own timeout. */
  lemma HangUntil(d: Duo, p: Params, s: State, to: int) returns (s': State)
    requires d.Ok()
    requires Ordered(p.timing) && Reachable(p, s) && Alone(d, p, s) && s.replicas[d.a].phase.Busy?
    requires s.now <= to <= s.replicas[d.a].phase.started + p.timing.R()
    ensures Reachable(p, s') && Alone(d, p, s') && s'.now == to && s'.replicas == s.replicas
  {
    if s.now == to {
      s' := s;
    } else {
      s' := After(p, s, Tick(to));
      ReachNext(p, s, Tick(to));
    }
  }

  /** "a" still believes at the instant its Lease expires, and nothing it must do is due. */
  lemma ReachExpiry(d: Duo, p: Params) returns (s: State)
    requires d.Ok()
    requires Ordered(p.timing) && !Safe(p)
    ensures Reachable(p, s) && Alone(d, p, s) && s.now == p.timing.L()
    ensures s.replicas[d.a].phase.Busy? && (p.ownTimeoutFirst ==> s.now < s.replicas[d.a].phase.started + p.timing.R())
  {
    CeilBounds(p.timing);
    assert Span(p.timing, 1) == p.timing.R();
    var k := LastAttempt(p.timing, 1);
    SpanStep(p.timing, k);
    var s0 := HoldUntil(d, p, k);
    var s1 := StartAlone(d, p, s0);
    s := HangUntil(d, p, s1, p.timing.L());
  }

  /** A step of "b", or of its write, at an instant up to the expiry of the Lease. */
  predicate Onward(d: Duo, p: Params, s: State, step: Step) {
    && s.now <= p.timing.L()
    && (step.Arrive? || ((step.Boot? || step.Start? || step.Read? || step.End? || step.Deliver?) && step.id == d.b))
  }

  /** States from which "b" may go on as it likes. */
  ghost predicate Closed(d: Duo, p: Params, reach: State -> bool) {
    forall s, step :: reach(s) && Onward(d, p, s, step) && Enabled(p, s, step) ==> reach(After(p, s, step))
  }

  lemma ReachableClosed(d: Duo, p: Params)
    ensures Closed(d, p, s => Reachable(p, s))
  {
    forall s, step | Reachable(p, s) && Enabled(p, s, step) ensures Reachable(p, After(p, s, step)) {
      ReachNext(p, s, step);
    }
  }

  /** "a" has nothing to do first. */
  predicate NotDue(d: Duo, p: Params, s: State) {
    d.a in s.replicas && (p.ownTimeoutFirst && Leads(s.replicas[d.a]) ==> !DueNow(p, s, s.replicas[d.a]))
  }

  /** "b" starts at that instant. */
  lemma Intrude(d: Duo, p: Params, reach: State -> bool, s: State) returns (s': State)
    requires d.Ok() && Closed(d, p, reach) && reach(s) && NotDue(d, p, s) && 0 <= s.now <= p.timing.L()
    requires s.replicas.Keys == {d.a, d.b} && s.replicas[d.b] == Stopped(d.b, -1, d.dispatch)
    ensures reach(s') && s'.now == s.now && s'.store == s.store && s'.requests == s.requests
    ensures s'.replicas == s.replicas[d.b := Stopped(d.b, -1, d.dispatch).(phase := Busy(s.now, Reading), lastStart := s.now)]
  {
    var s1 := After(p, s, Boot(d.b));
    assert Onward(d, p, s, Boot(d.b)) && reach(s1);
    assert s1.replicas == s.replicas[d.b := s1.replicas[d.b]];
    assert Onward(d, p, s1, Start(d.b)) && Enabled(p, s1, Start(d.b));
    s' := After(p, s1, Start(d.b));
    assert s'.replicas == s.replicas[d.b := Stopped(d.b, -1, d.dispatch).(phase := Busy(s.now, Reading), lastStart := s.now)];
  }

  /** ... and finds the Lease free for the taking. */
  lemma FindsExpired(d: Duo, p: Params)
    requires d.Ok()
    requires Ordered(p.timing)
    ensures var lease := FirstStore(d, p.timing).lease.value;
      Decide(Ok(lease), p.timing, d.b, p.timing.L())
        == Replace(Lease(Some(1), Some(LeaseSpec(Some(d.b), Some(p.timing.L()), Some(p.timing.L()),
                                                Some(p.timing.leaseSecs), Some(1)))))
  {
    TrimIdentity(d.a, UnicodeSpace);
  }

  lemma TakeOver(d: Duo, p: Params, reach: State -> bool, s: State) returns (s': State)
    requires d.Ok() && Closed(d, p, reach) && reach(s)
    requires Ordered(p.timing) && s.store == FirstStore(d, p.timing) && |s.requests| == 1
    requires s.now == p.timing.L() && d.a in s.replicas && d.b in s.replicas
    requires s.replicas[d.b] == Stopped(d.b, -1, d.dispatch).(phase := Busy(s.now, Reading), lastStart := s.now)
    ensures reach(s') && s'.now == s.now && d.b in s'.replicas && s'.replicas == s.replicas[d.b := s'.replicas[d.b]]
    ensures var b := s'.replicas[d.b];
      && b.phase.Idle? && b.belief.leader && b.monitor == Stopped(d.b, -1, d.dispatch).monitor
      && b.outbox == [Notify(LeaderAcquired(1)), Send(true)]
  {
    FindsExpired(d, p);
    assert Onward(d, p, s, Read(d.b)) && Enabled(p, s, Read(d.b));
    var s1 := After(p, s, Read(d.b));
    assert s1.requests[1].write.lease.resourceVersion == s1.store.lease.value.resourceVersion;
    assert Onward(d, p, s1, Arrive(1)) && Enabled(p, s1, Arrive(1));
    var s2 := After(p, s1, Arrive(1));
    assert s2.requests[1].fate.response.Ok?;
    assert Finish(s2.requests[1].write, d.b, s2.requests[1].fate.response) == Ok(Holder(1));
    assert Onward(d, p, s2, End(d.b, Ok(Holder(1)))) && Enabled(p, s2, End(d.b, Ok(Holder(1))));
    s' := After(p, s2, End(d.b, Ok(Holder(1))));
  }

  /** "b" tells its monitor and its watch. */
  lemma Announce(d: Duo, p: Params, reach: State -> bool, s: State) returns (s': State)
    requires d.Ok() && Closed(d, p, reach) && reach(s) && s.now <= p.timing.L()
    requires d.b in s.replicas && s.replicas[d.b].phase.Idle? && s.replicas[d.b].belief.leader
    requires s.replicas[d.b].monitor == Stopped(d.b, -1, d.dispatch).monitor
    requires s.replicas[d.b].outbox == [Notify(LeaderAcquired(1)), Send(true)]
    ensures reach(s') && s'.now == s.now && d.b in s'.replicas && s'.replicas == s.replicas[d.b := s'.replicas[d.b]]
    ensures s'.replicas[d.b].phase.Idle? && s'.replicas[d.b].belief.leader && s'.replicas[d.b].watch
    ensures s'.replicas[d.b].monitor.flags.leader && s'.replicas[d.b].monitor.flags.electionEnabled
  {
    assert Onward(d, p, s, Deliver(d.b));
    var s1 := After(p, s, Deliver(d.b));
    assert s1.replicas[d.b].outbox == [Send(true)];
    assert Onward(d, p, s1, Deliver(d.b));
    s' := After(p, s1, Deliver(d.b));
    assert s'.replicas == s.replicas[d.b := s'.replicas[d.b]];
  }

  /** All three together: "b" takes the Lease of "a" over the instant it expires. */
  lemma Usurp(d: Duo, p: Params, reach: State -> bool, s: State) returns (s': State)
    requires d.Ok() && Closed(d, p, reach) && reach(s) && NotDue(d, p, s)
    requires Ordered(p.timing) && s.store == FirstStore(d, p.timing) && |s.requests| == 1 && s.now == p.timing.L()
    requires s.replicas.Keys == {d.a, d.b} && s.replicas[d.b] == Stopped(d.b, -1, d.dispatch)
    ensures reach(s') && s'.replicas.Keys == {d.a, d.b} && s'.replicas[d.a] == s.replicas[d.a]
    ensures s'.replicas[d.b].phase.Idle? && s'.replicas[d.b].belief.leader && s'.replicas[d.b].watch
    ensures s'.replicas[d.b].monitor.flags.leader && s'.replicas[d.b].monitor.flags.electionEnabled
  {
    var s1 := Intrude(d, p, reach, s);
    var s2 := TakeOver(d, p, reach, s1);
    s' := Announce(d, p, reach, s2);
  }

  /** A leading replica resynchronises and is published. */
  lemma GetReady(p: Params, s: State, id: string) returns (s': State)
    requires Reachable(p, s) && id in s.replicas && !s.replicas[id].phase.Down?
    requires s.replicas[id].monitor.flags.leader && s.replicas[id].monitor.flags.electionEnabled
    ensures Reachable(p, s') && id in s'.replicas && s'.replicas == s.replicas[id := s'.replicas[id]]
    ensures Serves(s', id) && s'.replicas[id].belief == s.replicas[id].belief && s'.replicas[id].watch == s.replicas[id].watch
  {
    var s1 := After(p, s, Other(id, Attempt(Success, 0)));
    ReachNext(p, s, Other(id, Attempt(Success, 0)));
    s' := After(p, s1, Other(id, Routing(true)));
    ReachNext(p, s1, Other(id, Routing(true)));
  }

  /** Without the condition, two replicas can believe, and serve, at the same instant. */
  lemma TwoLeaders(d: Duo, p: Params) returns (s: State)
    requires d.Ok()
    requires Ordered(p.timing) && !Safe(p)
    ensures Reachable(p, s)
    ensures Believes(s, d.a) && Believes(s, d.b) && Serves(s, d.a) && Serves(s, d.b)
    ensures s.replicas[d.a].watch && s.replicas[d.b].watch
  {
    var s0 := ReachExpiry(d, p);
    ReachableClosed(d, p);
    var s1 := Usurp(d, p, s => Reachable(p, s), s0);
    var s2 := GetReady(p, s1, d.a);
    s := GetReady(p, s2, d.b);
  }

  // --------------------------------------------------------------------- the theorem

  ghost predicate OneBeliever(p: Params) {
    forall s: State, i: string, j: string :: Reachable(p, s) && Believes(s, i) && Believes(s, j) ==> i == j
  }

  ghost predicate OneServer(p: Params) {
    forall s: State, i: string, j: string :: Reachable(p, s) && Serves(s, i) && Serves(s, j) ==> i == j
  }

  /** For every accepted timing, exclusion of belief and exclusion at the gate each hold exactly when the
      belief window fits in the Lease duration. */
  lemma ExclusionIsExact(p: Params)
    requires Ordered(p.timing)
    ensures OneBeliever(p) <==> Safe(p)
    ensures OneServer(p) <==> Safe(p)
  {
    if Safe(p) {
      forall s: State, i: string, j: string | Reachable(p, s) && Believes(s, i) && Believes(s, j) ensures i == j {
        MutualExclusion(p, s, i, j);
      }
      forall s: State, i: string, j: string | Reachable(p, s) && Serves(s, i) && Serves(s, j) ensures i == j {
        GateExclusion(p, s, i, j);
      }
    } else {
      var duo := Duo("a", "b", true);
      assert duo.Ok();
      var s := TwoLeaders(duo, p);
    }
  }

  /** What configuration validation accepts is not enough: the defaults are exclusive only with the tie
      rule, and an accepted configuration with a tighter Lease is not exclusive even then. */
  lemma AcceptedIsNotSafe()
    ensures ValidateTiming(30, 20, 5) == Ok(Timing(30, 20, 5))
    ensures OneServer(Params(Timing(30, 20, 5), true)) && !OneServer(Params(Timing(30, 20, 5), false))
    ensures ValidateTiming(29, 20, 5) == Ok(Timing(29, 20, 5))
    ensures !OneBeliever(Params(Timing(29, 20, 5), true))
  {
    ExclusionIsExact(Params(Timing(30, 20, 5), true));
    ExclusionIsExact(Params(Timing(30, 20, 5), false));
    ExclusionIsExact(Params(Timing(29, 20, 5), true));
    assert CeilDiv(20, 5) == 4;
  }
}
