/**
 At most one replica has a live worker generation, if generations end soon enough.
 */
module WorkerSafety {
  import opened Wrappers
  import opened LeaseClaim
  import opened ElectionLoop
  import opened ElectionSystem
  import opened ElectionInvariant
  import opened ElectionSafety
  import opened WorkerSystem

  /** The claim behind a generation. */
  ghost predicate Backed(p: Params, limit: Limit, s: State, id: string)
    requires p.timing.retrySecs > 0 && id in s.replicas
  {
    Logged(s, id, s.replicas[id].stamp) && (WorkerSafe(p, limit) ==> Unchallenged(p.timing, s, id))
  }

  /** A generation that has lost its watch, since `t`. */
  ghost predicate DrainOk(p: Params, limit: Limit, s: State, id: string, t: int)
    requires p.timing.retrySecs > 0 && id in s.replicas
  {
    && Backed(p, limit, s, id)
    && t <= s.now && t <= s.replicas[id].stamp + Window(p.timing)
    && (limit.Some? ==> s.now <= t + limit.value)
  }

  ghost predicate WorkerOk(p: Params, limit: Limit, f: Full, id: string)
    requires p.timing.retrySecs > 0 && id in f.workers
  {
    && id in f.s.replicas && !f.s.replicas[id].phase.Down?
    && (LostAt(f.workers[id]).None? ==> f.s.replicas[id].watch)
    && (LostAt(f.workers[id]).Some? ==> DrainOk(p, limit, f.s, id, LostAt(f.workers[id]).value))
  }

  ghost predicate FullInv(p: Params, limit: Limit, f: Full)
    requires p.timing.retrySecs > 0
  {
    && Inv(p, f.s)
    && (forall id :: id in f.workers ==> WorkerOk(p, limit, f, id))
  }

  // ------------------------------------------------------------- what a step of the election keeps

  lemma SafeFirst(p: Params, limit: Limit)
    requires p.timing.retrySecs > 0 && WorkerSafe(p, limit)
    ensures Safe(p)
  {
  }

  /** A leader is backed. */
  lemma LeaderBacked(p: Params, limit: Limit, s: State, id: string)
    requires Ordered(p.timing) && Inv(p, s) && id in s.replicas && Leads(s.replicas[id])
    ensures Backed(p, limit, s, id) && s.now <= s.replicas[id].stamp + Window(p.timing)
  {
    assert ReplicaOk(p, s, id, s.replicas[id]);
    if WorkerSafe(p, limit) {
      SafeFirst(p, limit);
      LeaderUnchallenged(p, s, id);
    }
  }

  /** What stands behind a generation, with its watch or without. */
  lemma WorkerBacked(p: Params, limit: Limit, f: Full, id: string)
    requires Ordered(p.timing) && Inv(p, f.s) && id in f.workers && WorkerOk(p, limit, f, id)
    ensures Backed(p, limit, f.s, id)
    ensures LostAt(f.workers[id]).GetOr(f.s.now) <= f.s.now
    ensures LostAt(f.workers[id]).GetOr(f.s.now) <= f.s.replicas[id].stamp + Window(p.timing)
  {
    if LostAt(f.workers[id]).None? {
      LeaderBacked(p, limit, f.s, id);
    }
  }

  /** No other replica starts an attempt while a generation is live. */
  lemma StartIsEarlier(p: Params, limit: Limit, f: Full, id: string, k: string)
    requires Ordered(p.timing) && Inv(p, f.s) && WorkerSafe(p, limit) && id in f.workers && WorkerOk(p, limit, f, id)
    requires Enabled(p, f.s, Start(k)) && InTime(p, limit, f, Start(k)) && id != k
    ensures f.s.now < f.s.replicas[id].stamp + p.timing.L()
  {
    if LostAt(f.workers[id]).Some? {
      assert p.ownTimeoutFirst ==> Due(limit, f.workers[id]) != Some(f.s.now);
    } else {
      SafeFirst(p, limit);
      StartIsEarly(p, f.s, k, id);
    }
  }

  /** Backing survives a step that leaves the claim alone and starts nobody late. */
  lemma BackedKept(p: Params, limit: Limit, s: State, s': State, id: string)
    requires p.timing.retrySecs > 0 && id in s.replicas && Backed(p, limit, s, id)
    requires s.log <= s'.log && s'.replicas.Keys == s.replicas.Keys && s'.replicas[id].stamp == s.replicas[id].stamp
    requires WorkerSafe(p, limit) ==> forall k :: k in s.replicas && k != id ==>
      s'.replicas[k].lastStart == s.replicas[k].lastStart || s'.replicas[k].lastStart < s.replicas[id].stamp + p.timing.L()
    ensures Backed(p, limit, s', id)
  {
    var n: nat :| n < |s.log| && s.log[n].owner == id && s.log[n].stamp == s.replicas[id].stamp;
    assert s'.log[n] == s.log[n];
  }

  /** A start may move, to the present. */
  predicate StartKept(s: State, s': State, step: Step, k: string)
    requires k in s.replicas && k in s'.replicas
  {
    s'.replicas[k].lastStart == s.replicas[k].lastStart || (step == Start(k) && s'.replicas[k].lastStart == s.now)
  }

  /** What a step does to the history and to the starts. */
  lemma StepFrame(p: Params, s: State, step: Step)
    requires Enabled(p, s, step)
    ensures var s' := After(p, s, step);
      && s.log <= s'.log && s'.replicas.Keys == s.replicas.Keys
      && forall k :: k in s.replicas ==> StartKept(s, s', step, k)
  {
  }

  predicate Restarts(step: Step, id: string) {
    step == Boot(id) || step == Crash(id)
  }

  /** A claim is replaced only by a confirmed one. */
  lemma StampFrame(p: Params, s: State, step: Step, id: string)
    requires Enabled(p, s, step) && id in s.replicas && !Restarts(step, id)
    ensures id in After(p, s, step).replicas
    ensures After(p, s, step).replicas[id].belief.leader || After(p, s, step).replicas[id].stamp == s.replicas[id].stamp
  {
  }

  /** A replica with a live generation stays backed. */
  lemma StaysBacked(p: Params, limit: Limit, f: Full, s': State, step: Step, id: string)
    requires Ordered(p.timing) && Inv(p, f.s) && Inv(p, s') && id in f.workers && WorkerOk(p, limit, f, id)
    requires Allowed(p, limit, f, Elect(step)) && s' == After(p, f.s, step) && !Restarts(step, id) && id in s'.replicas
    ensures Backed(p, limit, s', id)
  {
    StepFrame(p, f.s, step);
    StampFrame(p, f.s, step, id);
    WorkerBacked(p, limit, f, id);
    if Leads(s'.replicas[id]) {
      LeaderBacked(p, limit, s', id);
    } else {
      if WorkerSafe(p, limit) && step.Start? && step.id != id {
        StartIsEarlier(p, limit, f, id, step.id);
      }
      forall k | k in f.s.replicas && k != id && WorkerSafe(p, limit)
        ensures s'.replicas[k].lastStart == f.s.replicas[k].lastStart
          || s'.replicas[k].lastStart < f.s.replicas[id].stamp + p.timing.L()
      {
        assert StartKept(f.s, s', step, k);
      }
      BackedKept(p, limit, f.s, s', id);
    }
  }

  // ------------------------------------------------------------------------- the watch

  /** A watch changes by delivery only, unless the process ends. */
  lemma WatchFrame(p: Params, s: State, step: Step, id: string)
    requires Enabled(p, s, step) && id in s.replicas && id in After(p, s, step).replicas
    requires After(p, s, step).replicas[id].watch != s.replicas[id].watch
    ensures Restarts(step, id) || (step == Deliver(id) && s.replicas[id].outbox[0] == Send(!s.replicas[id].watch))
  {
  }

  lemma TickFrame(p: Params, s: State, step: Step, id: string)
    requires Enabled(p, s, step) && id in s.replicas
    ensures !step.Tick? ==> After(p, s, step).now == s.now
    ensures step.Tick? ==> s.replicas[id].outbox == [] && After(p, s, step).replicas == s.replicas
  {
  }

  // -------------------------------------------------------------------- the generations

  /** What is backed stays so, and stays in time. */
  lemma StaysInTime(p: Params, limit: Limit, f: Full, s': State, step: Step, id: string)
    requires Ordered(p.timing) && Inv(p, f.s) && Inv(p, s') && id in f.workers && WorkerOk(p, limit, f, id)
    requires Allowed(p, limit, f, Elect(step)) && s' == After(p, f.s, step) && !Restarts(step, id) && id in s'.replicas
    ensures var t := LostAt(f.workers[id]).GetOr(f.s.now);
      (limit.Some? && step.Tick? ==> step.to <= t + limit.value) ==> DrainOk(p, limit, s', id, t)
  {
    WorkerBacked(p, limit, f, id);
    StaysBacked(p, limit, f, s', step, id);
    StampFrame(p, f.s, step, id);
    TickFrame(p, f.s, step, id);
    if Leads(s'.replicas[id]) {
      LeaderBacked(p, limit, s', id);
    }
  }

  /** What a step of the election does to a generation. */
  lemma WorkerFrame(p: Params, f: Full, step: Step, id: string)
    requires Enabled(p, f.s, step) && id in WorkersAfter(f, step)
    ensures id in f.workers && step != Crash(id)
    ensures WorkersAfter(f, step)[id] == f.workers[id]
      || (step == Deliver(id) && f.s.replicas[id].outbox[0].Send?
          && WorkersAfter(f, step)[id] == Told(f.workers[id], f.s.replicas[id].outbox[0].value, f.s.now))
  {
  }

  lemma StaysUp(p: Params, s: State, step: Step, id: string)
    requires Enabled(p, s, step) && id in s.replicas && !s.replicas[id].phase.Down? && step != Crash(id)
    ensures !Restarts(step, id) && id in After(p, s, step).replicas && !After(p, s, step).replicas[id].phase.Down?
  {
  }

  /** A generation with its watch keeps it, unless the loss is delivered. */
  lemma StepKeepsWatch(p: Params, f: Full, s': State, step: Step, id: string)
    requires Enabled(p, f.s, step) && s' == After(p, f.s, step) && id in f.workers && id in f.s.replicas
    requires f.workers[id] == Running(None) && f.s.replicas[id].watch && !Restarts(step, id) && id in s'.replicas
    requires id in WorkersAfter(f, step) && LostAt(WorkersAfter(f, step)[id]).None?
    ensures s'.replicas[id].watch
  {
    if !s'.replicas[id].watch {
      WatchFrame(p, f.s, step, id);
    }
  }

  /** What becomes of the loss a generation has on record. */
  lemma LossFrame(p: Params, limit: Limit, f: Full, step: Step, id: string)
    requires Allowed(p, limit, f, Elect(step)) && id in WorkersAfter(f, step)
    ensures id in f.workers
    ensures var lost, lost' := LostAt(f.workers[id]), LostAt(WorkersAfter(f, step)[id]);
      lost'.Some? ==>
        && lost'.value == lost.GetOr(f.s.now)
        && (lost.None? ==> !step.Tick?)
        && (lost.Some? && step.Tick? && limit.Some? ==> step.to <= lost.value + limit.value)
    ensures LostAt(WorkersAfter(f, step)[id]).None? && LostAt(f.workers[id]).Some? ==>
      step == Deliver(id) && f.s.replicas[id].outbox != [] && f.s.replicas[id].outbox[0] == Send(true)
  {
    assert Due(limit, f.workers[id]).Some? ==> LostAt(f.workers[id]).Some?;
  }

  lemma StepWorker(p: Params, limit: Limit, f: Full, f': Full, step: Step, id: string)
    requires Ordered(p.timing) && Inv(p, f.s) && Inv(p, f'.s) && id in f.workers && WorkerOk(p, limit, f, id)
    requires Allowed(p, limit, f, Elect(step)) && f' == Moved(p, limit, f, Elect(step)) && id in f'.workers
    ensures WorkerOk(p, limit, f', id)
  {
    WorkerFrame(p, f, step, id);
    StaysUp(p, f.s, step, id);
    LossFrame(p, limit, f, step, id);
    if LostAt(f'.workers[id]).Some? {
      StaysInTime(p, limit, f, f'.s, step, id);
    } else if LostAt(f.workers[id]).None? {
      StepKeepsWatch(p, f, f'.s, step, id);
    }
  }

  // ------------------------------------------------------------------------- every move

  lemma ElectInv(p: Params, limit: Limit, f: Full, step: Step)
    requires Ordered(p.timing) && FullInv(p, limit, f) && Allowed(p, limit, f, Elect(step))
    ensures FullInv(p, limit, Moved(p, limit, f, Elect(step)))
  {
    var f' := Moved(p, limit, f, Elect(step));
    StepInv(p, f.s, step);
    forall id | id in f'.workers ensures WorkerOk(p, limit, f', id) {
      WorkerFrame(p, f, step, id);
      assert WorkerOk(p, limit, f, id);
      StepWorker(p, limit, f, f', step, id);
    }
  }

  /** The supervisor's own moves. */
  lemma SupervisedWorker(p: Params, limit: Limit, f: Full, m: Move, id: string)
    requires p.timing.retrySecs > 0 && Allowed(p, limit, f, m) && !m.Elect? && id in Moved(p, limit, f, m).workers
    requires id in f.s.replicas && !f.s.replicas[id].phase.Down?
    requires id in f.workers ==> WorkerOk(p, limit, f, id)
    ensures WorkerOk(p, limit, Moved(p, limit, f, m), id)
  {
    var f' := Moved(p, limit, f, m);
    assert id in f.workers ==> LostAt(f'.workers[id]) == LostAt(f.workers[id]);
  }

  lemma SupervisorInv(p: Params, limit: Limit, f: Full, m: Move)
    requires p.timing.retrySecs > 0 && FullInv(p, limit, f) && Allowed(p, limit, f, m) && !m.Elect?
    ensures FullInv(p, limit, Moved(p, limit, f, m))
  {
    var f' := Moved(p, limit, f, m);
    forall id | id in f'.workers ensures WorkerOk(p, limit, f', id) {
      if id !in f.workers {
        WatchIsUp(p, f.s, id);
      } else {
        assert WorkerOk(p, limit, f, id);
      }
      SupervisedWorker(p, limit, f, m, id);
    }
  }

  lemma WatchIsUp(p: Params, s: State, id: string)
    requires p.timing.retrySecs > 0 && Inv(p, s) && id in s.replicas && s.replicas[id].watch
    ensures !s.replicas[id].phase.Down?
  {
    assert ReplicaOk(p, s, id, s.replicas[id]);
  }

  lemma {:induction false} MovesInv(p: Params, limit: Limit, f: Full, moves: seq<Move>)
    requires Ordered(p.timing) && FullInv(p, limit, f) && ValidMoves(p, limit, f, moves)
    ensures FullInv(p, limit, RunMoves(p, limit, f, moves))
    decreases |moves|
  {
    if moves != [] {
      if moves[0].Elect? {
        ElectInv(p, limit, f, moves[0].step);
      } else {
        SupervisorInv(p, limit, f, moves[0]);
      }
      MovesInv(p, limit, Moved(p, limit, f, moves[0]), moves[1..]);
    }
  }

  lemma ArisesInv(p: Params, limit: Limit, f: Full)
    requires Ordered(p.timing) && Arises(p, limit, f)
    ensures FullInv(p, limit, f)
  {
    var f0: Full, moves: seq<Move> :|
      AtRest(f0) && ValidMoves(p, limit, f0, moves) && RunMoves(p, limit, f0, moves) == f;
    InitInv(p, f0.s);
    MovesInv(p, limit, f0, moves);
  }

  lemma WorkerUnchallenged(p: Params, limit: Limit, f: Full, id: string)
    requires Ordered(p.timing) && FullInv(p, limit, f) && WorkerSafe(p, limit) && id in f.workers
    ensures Unchallenged(p.timing, f.s, id)
  {
    WorkerBacked(p, limit, f, id);
  }

  /** At most one replica has a live generation, at every moment of every run, if a generation ends within what
      the Lease leaves after the belief window. */
  lemma OneGeneration(p: Params, limit: Limit, f: Full, i: string, j: string)
    requires Ordered(p.timing) && WorkerSafe(p, limit) && Arises(p, limit, f)
    requires i in f.workers && j in f.workers
    ensures i == j
  {
    ArisesInv(p, limit, f);
    WorkerUnchallenged(p, limit, f, i);
    WorkerUnchallenged(p, limit, f, j);
    OneUnchallenged(p, f.s, i, j);
  }
}
