/**
 The limit on ending generations is exact too: without it two replicas can have live generations at
 once, even where at most one of them ever leads.

 The run: "a" leads as long as it can and loses its watch at the last moment; its generation lives on
 while "a" fails attempt after attempt, until the Lease expires and "b" takes it over and launches its
 own.
 */
module WorkerExactness {
  import opened Wrappers
  import opened LeaseClaim
  import opened Monitor
  import opened ElectionLoop
  import opened ElectionSystem
  import opened ElectionInvariant
  import opened ElectionExactness
  import opened WorkerSystem
  import opened WorkerSafety

  /** Every run of the election is one in which no generation is launched. */
  lemma {:induction false} LiftRun(p: Params, limit: Limit, s: State, steps: seq<Step>)
    requires Valid(p, s, steps) && Arises(p, limit, Full(s, map[]))
    ensures Arises(p, limit, Full(Run(p, s, steps), map[]))
    decreases |steps|
  {
    if steps != [] {
      ArisesNext(p, limit, Full(s, map[]), Elect(steps[0]));
      assert WorkersAfter(Full(s, map[]), steps[0]) == map[];
      LiftRun(p, limit, After(p, s, steps[0]), steps[1..]);
    }
  }

  lemma Lift(p: Params, limit: Limit, s: State)
    requires Reachable(p, s)
    ensures Arises(p, limit, Full(s, map[]))
  {
    var s0: State, steps: seq<Step> :| Init(s0) && Valid(p, s0, steps) && Run(p, s0, steps) == s;
    ArisesOpening(p, limit, Full(s0, map[]));
    LiftRun(p, limit, s0, steps);
  }

  /** Where two replicas can lead at once, both can have generations. */
  lemma TwoGenerationsOfLeaders(d: Duo, p: Params, limit: Limit) returns (f: Full)
    requires d.Ok() && Ordered(p.timing) && !Safe(p)
    ensures Arises(p, limit, f) && d.a in f.workers && d.b in f.workers
  {
    var s := TwoLeaders(d, p);
    Lift(p, limit, s);
    var f0 := Full(s, map[]);
    ArisesNext(p, limit, f0, Launch(d.a));
    var f1 := Moved(p, limit, f0, Launch(d.a));
    ArisesNext(p, limit, f1, Launch(d.b));
    f := Moved(p, limit, f1, Launch(d.b));
  }

  // --------------------------------------------------------------------- the other case

  /** "a" in its last attempt, at the instant it times out. */
  lemma LastMoment(d: Duo, p: Params) returns (s: State)
    requires d.Ok() && Ordered(p.timing)
    ensures Reachable(p, s) && Alone(d, p, s) && s.now == Window(p.timing)
    ensures s.replicas[d.a].phase == Busy(s.now - p.timing.R(), Reading)
  {
    CeilBounds(p.timing);
    SpanStep(p.timing, Ceil(p.timing) + 1);
    var s0 := HoldUntil(d, p, Ceil(p.timing) + 1);
    var s1 := StartAlone(d, p, s0);
    s := HangUntil(d, p, s1, Window(p.timing));
  }

  /** "a" holds the Lease it created but believes no more, and "b" has not started. */
  predicate Beaten(d: Duo, p: Params, s: State) {
    && s.store == FirstStore(d, p.timing) && |s.requests| == 1
    && s.replicas.Keys == {d.a, d.b} && s.replicas[d.b] == Stopped(d.b, -1, d.dispatch)
    && !s.replicas[d.a].belief.leader && s.replicas[d.a].belief.last.None?
  }

  /** ... and leads in no sense, between two attempts. */
  predicate Dethroned(d: Duo, p: Params, s: State) {
    && Beaten(d, p, s) && 0 <= s.now <= p.timing.L()
    && !Leads(s.replicas[d.a]) && s.replicas[d.a].outbox == []
    && s.replicas[d.a].phase.Idle? && s.now <= s.replicas[d.a].phase.next
  }

  function Lingering(d: Duo, p: Params): Workers
    requires p.timing.retrySecs > 0
  {
    map[d.a := Running(Some(Window(p.timing)))]
  }

  /** "a" has given up and has `outbox` still to deliver. */
  predicate Losing(d: Duo, p: Params, s: State, outbox: seq<Action>)
    requires p.timing.retrySecs > 0
  {
    Beaten(d, p, s) && s.now == Window(p.timing) && s.replicas[d.a].phase == Idle(s.now) && s.replicas[d.a].outbox == outbox
  }

  /** The timeout is observed. */
  lemma GiveUp(d: Duo, p: Params, s: State) returns (s': State, n: nat)
    requires d.Ok() && Ordered(p.timing) && Alone(d, p, s) && s.now == Window(p.timing)
    requires s.replicas[d.a].phase == Busy(s.now - p.timing.R(), Reading)
    ensures Enabled(p, s, End(d.a, Err(Transport))) && s' == After(p, s, End(d.a, Err(Transport)))
    ensures Losing(d, p, s', [Notify(ApiFailure(true))] + Drop(true, n))
  {
    CeilBounds(p.timing);
    SpanStep(p.timing, Ceil(p.timing));
    SpanStep(p.timing, Ceil(p.timing) + 1);
    s' := After(p, s, End(d.a, Err(Transport)));
    n := s'.replicas[d.a].belief.transitions;
  }

  /** Telling the monitor leaves the generations alone. */
  lemma TellMonitor(d: Duo, p: Params, limit: Limit, f: Full, call: Call, rest: seq<Action>) returns (s': State)
    requires d.Ok() && p.timing.retrySecs > 0 && Losing(d, p, f.s, [Notify(call)] + rest) && Arises(p, limit, f)
    ensures Arises(p, limit, Full(s', f.workers)) && Losing(d, p, s', rest)
    ensures s'.replicas[d.a].monitor == Apply(f.s.replicas[d.a].monitor, call)
  {
    ArisesNext(p, limit, f, Elect(Deliver(d.a)));
    s' := AfterDeliver(f.s, d.a);
    assert ([Notify(call)] + rest)[1..] == rest;
  }

  lemma WindowIsLater(t: Timing)
    requires Ordered(t)
    ensures Window(t) >= 0
  {
    CeilBounds(t);
    SpanMonotone(t, 0, Ceil(t) + 2);
    assert Span(t, 0) == 0;
  }

  /** The watch turns false under the generation "a" launched. */
  lemma TellWatch(d: Duo, p: Params, limit: Limit, f: Full) returns (s': State)
    requires d.Ok() && Ordered(p.timing) && Window(p.timing) <= p.timing.L()
    requires Losing(d, p, f.s, [Send(false)]) && !f.s.replicas[d.a].monitor.flags.leader
    requires Arises(p, limit, f) && d.a in f.workers && f.workers[d.a] == Running(None)
    ensures Arises(p, limit, Full(s', f.workers[d.a := Running(Some(Window(p.timing)))])) && Dethroned(d, p, s')
  {
    WindowIsLater(p.timing);
    ArisesNext(p, limit, f, Elect(Deliver(d.a)));
    s' := AfterDeliver(f.s, d.a);
  }

  lemma LoseWatch(d: Duo, p: Params, limit: Limit, f: Full, n: nat) returns (s': State)
    requires d.Ok() && Ordered(p.timing) && Window(p.timing) <= p.timing.L()
    requires Losing(d, p, f.s, [Notify(ApiFailure(true))] + Drop(true, n))
    requires Arises(p, limit, f) && d.a in f.workers && f.workers[d.a] == Running(None)
    ensures Arises(p, limit, Full(s', f.workers[d.a := Running(Some(Window(p.timing)))])) && Dethroned(d, p, s')
  {
    var s1 := TellMonitor(d, p, limit, f, ApiFailure(true), Drop(true, n));
    assert [Notify(LeaderLost(None, n))] + [Send(false)] == Drop(true, n);
    var s2 := TellMonitor(d, p, limit, Full(s1, f.workers), LeaderLost(None, n), [Send(false)]);
    s' := TellWatch(d, p, limit, Full(s2, f.workers));
  }

  /** The generation of "a" outlives its leadership. */
  lemma Outlive(d: Duo, p: Params, limit: Limit) returns (s: State)
    requires d.Ok() && Ordered(p.timing) && Window(p.timing) <= p.timing.L()
    ensures Arises(p, limit, Full(s, Lingering(d, p))) && Dethroned(d, p, s)
  {
    var s0 := LastMoment(d, p);
    Lift(p, limit, s0);
    ArisesNext(p, limit, Full(s0, map[]), Launch(d.a));
    var w := map[d.a := Running(None)];
    assert Moved(p, limit, Full(s0, map[]), Launch(d.a)) == Full(s0, w);
    var s1, n := GiveUp(d, p, s0);
    ArisesNext(p, limit, Full(s0, w), Elect(End(d.a, Err(Transport))));
    s := LoseWatch(d, p, limit, Full(s1, w), n);
    assert w[d.a := Running(Some(Window(p.timing)))] == Lingering(d, p);
  }

  // ------------------------------------------------------------------- until the Lease expires

  /** States in which that generation lives on. */
  ghost predicate LivesOn(d: Duo, p: Params, limit: Limit, s: State)
    requires p.timing.retrySecs > 0
  {
    Arises(p, limit, Full(s, Lingering(d, p)))
  }

  /** It may live until the Lease expires, and with the tie rule longer. */
  lemma NotDueBefore(d: Duo, p: Params, limit: Limit)
    requires Ordered(p.timing) && !WorkerSafe(p, limit)
    ensures var due := Due(limit, Running(Some(Window(p.timing))));
      due.Some? ==> p.timing.L() <= due.value && (p.ownTimeoutFirst ==> p.timing.L() < due.value)
  {
  }

  /** "b" is free to go on meanwhile. */
  lemma LivesOnClosed(d: Duo, p: Params, limit: Limit)
    requires d.Ok() && Ordered(p.timing) && !WorkerSafe(p, limit)
    ensures Closed(d, p, s => LivesOn(d, p, limit, s))
  {
    NotDueBefore(d, p, limit);
    forall s, step | LivesOn(d, p, limit, s) && Onward(d, p, s, step) && Enabled(p, s, step)
      ensures LivesOn(d, p, limit, After(p, s, step))
    {
      ArisesNext(p, limit, Full(s, Lingering(d, p)), Elect(step));
    }
  }

  /** A step of "a" or the clock that leaves its generation alone. */
  lemma GoOn(d: Duo, p: Params, limit: Limit, s: State, step: Step)
    requires d.Ok() && Ordered(p.timing) && !WorkerSafe(p, limit) && LivesOn(d, p, limit, s) && Enabled(p, s, step)
    requires step == Start(d.a) || step.End? || (step.Tick? && step.to <= p.timing.L())
      || (step == Deliver(d.a) && s.replicas[d.a].outbox[0].Notify?)
    ensures LivesOn(d, p, limit, After(p, s, step))
  {
    NotDueBefore(d, p, limit);
    ArisesNext(p, limit, Full(s, Lingering(d, p)), Elect(step));
  }

  /** One attempt of "a" that fails at once: it starts, ... */
  lemma TryAgain(d: Duo, p: Params, limit: Limit, s: State) returns (s': State)
    requires d.Ok() && Ordered(p.timing) && !WorkerSafe(p, limit) && LivesOn(d, p, limit, s)
    requires Dethroned(d, p, s) && s.replicas[d.a].phase == Idle(s.now)
    ensures LivesOn(d, p, limit, s') && Beaten(d, p, s') && s'.now == s.now
    ensures var a := s'.replicas[d.a]; a.phase == Busy(s.now, Reading) && !Leads(a) && a.outbox == []
  {
    StoppedCoherent(d.b, -1, d.dispatch);
    GoOn(d, p, limit, s, Start(d.a));
    s' := After(p, s, Start(d.a));
  }

  /** ... ends in an error, ... */
  lemma FailAgain(d: Duo, p: Params, limit: Limit, s: State) returns (s': State)
    requires d.Ok() && Ordered(p.timing) && !WorkerSafe(p, limit) && LivesOn(d, p, limit, s)
    requires Beaten(d, p, s) && s.replicas[d.a].phase == Busy(s.now, Reading) && !Leads(s.replicas[d.a])
    ensures LivesOn(d, p, limit, s') && Beaten(d, p, s') && s'.now == s.now
    ensures var a := s'.replicas[d.a];
      a.phase == Idle(s.now + p.timing.R()) && !Leads(a) && a.outbox == [Notify(ApiFailure(false))]
  {
    GoOn(d, p, limit, s, End(d.a, Err(Transport)));
    s' := AfterEnd(p, s, d.a, Err(Transport));
  }

  /** ... and the monitor is told. */
  lemma NoteFailure(d: Duo, p: Params, limit: Limit, s: State) returns (s': State)
    requires d.Ok() && Ordered(p.timing) && !WorkerSafe(p, limit) && LivesOn(d, p, limit, s)
    requires Beaten(d, p, s) && 0 <= s.now <= p.timing.L() && !Leads(s.replicas[d.a])
    requires s.replicas[d.a].phase == Idle(s.now + p.timing.R()) && s.replicas[d.a].outbox == [Notify(ApiFailure(false))]
    ensures LivesOn(d, p, limit, s') && Dethroned(d, p, s') && s'.now == s.now
    ensures s'.replicas[d.a].phase == Idle(s.now + p.timing.R())
  {
    GoOn(d, p, limit, s, Deliver(d.a));
    s' := AfterDeliver(s, d.a);
  }

  lemma Wait(d: Duo, p: Params, limit: Limit, s: State, to: int) returns (s': State)
    requires d.Ok() && Ordered(p.timing) && !WorkerSafe(p, limit) && LivesOn(d, p, limit, s) && Dethroned(d, p, s)
    requires s.now < to <= p.timing.L() && to <= s.replicas[d.a].phase.next
    ensures LivesOn(d, p, limit, s') && Dethroned(d, p, s') && s'.now == to && s'.replicas == s.replicas
  {
    GoOn(d, p, limit, s, Tick(to));
    s' := After(p, s, Tick(to));
  }

  lemma {:induction false} Linger(d: Duo, p: Params, limit: Limit, s: State) returns (s': State)
    requires d.Ok() && Ordered(p.timing) && !WorkerSafe(p, limit) && LivesOn(d, p, limit, s) && Dethroned(d, p, s)
    ensures LivesOn(d, p, limit, s') && Dethroned(d, p, s') && s'.now == p.timing.L()
    decreases p.timing.L() - s.now, if s.replicas[d.a].phase == Idle(s.now) then 1 else 0
  {
    var next := s.replicas[d.a].phase.next;
    if s.now == p.timing.L() {
      s' := s;
    } else if next == s.now {
      var s1 := TryAgain(d, p, limit, s);
      var s2 := FailAgain(d, p, limit, s1);
      var s3 := NoteFailure(d, p, limit, s2);
      s' := Linger(d, p, limit, s3);
    } else {
      var s1 := Wait(d, p, limit, s, if next < p.timing.L() then next else p.timing.L());
      s' := Linger(d, p, limit, s1);
    }
  }

  /** "b" takes over and launches a generation of its own. */
  lemma TwoGenerations(d: Duo, p: Params, limit: Limit) returns (f: Full)
    requires d.Ok() && Ordered(p.timing) && !WorkerSafe(p, limit)
    ensures Arises(p, limit, f) && d.a in f.workers && d.b in f.workers
  {
    if !Safe(p) {
      f := TwoGenerationsOfLeaders(d, p, limit);
    } else {
      var s0 := Outlive(d, p, limit);
      var s1 := Linger(d, p, limit, s0);
      LivesOnClosed(d, p, limit);
      var s2 := Usurp(d, p, s => LivesOn(d, p, limit, s), s1);
      ArisesNext(p, limit, Full(s2, Lingering(d, p)), Launch(d.b));
      f := Moved(p, limit, Full(s2, Lingering(d, p)), Launch(d.b));
    }
  }

  // --------------------------------------------------------------------- the theorem

  ghost predicate OneGenerationAtATime(p: Params, limit: Limit) {
    forall f: Full, i: string, j: string :: Arises(p, limit, f) && i in f.workers && j in f.workers ==> i == j
  }

  /** For every accepted timing, at most one replica has a live worker generation exactly when generations end
      within what the Lease leaves after the belief window. */
  lemma GenerationsExact(p: Params, limit: Limit)
    requires Ordered(p.timing)
    ensures OneGenerationAtATime(p, limit) <==> WorkerSafe(p, limit)
  {
    if WorkerSafe(p, limit) {
      forall f: Full, i: string, j: string | Arises(p, limit, f) && i in f.workers && j in f.workers ensures i == j {
        OneGeneration(p, limit, f, i, j);
      }
    } else {
      var duo := Duo("a", "b", true);
      assert duo.Ok();
      var f := TwoGenerations(duo, p, limit);
      assert duo.a in f.workers && duo.b in f.workers;
    }
  }

  /** The supervisor waits for a generation as long as it takes, so in no configuration is there at most one at
      a time; the defaults would leave it no time at all. */
  lemma NoLimitIsNotEnough(p: Params, limit: Limit)
    requires Ordered(p.timing)
    ensures !OneGenerationAtATime(p, None)
    ensures p.timing == Timing(30, 20, 5) && OneGenerationAtATime(p, limit) ==> limit == Some(0)
  {
    GenerationsExact(p, None);
    GenerationsExact(p, limit);
    assert CeilDiv(20, 5) == 4;
  }
}
