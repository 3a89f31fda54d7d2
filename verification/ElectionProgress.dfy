/**
 What a leader keeps: its claims renew its Lease as long as nobody else has written it, and its belief
 outlives every error before the deadline.
 */
module ElectionProgress {
  import opened Wrappers
  import opened Text
  import opened LeaseClaim
  import opened Belief
  import opened Monitor
  import opened ElectionLoop
  import opened ElectionSystem
  import opened ElectionInvariant
  import opened ElectionSafety

  // ---------------------------------------------------------------- errors before the deadline

  /** From every reachable state, an attempt of a believer that ends in any error before its deadline leaves it
      believing, on the same success; at or after the deadline it does not. */
  lemma ErrorsBeforeDeadline(p: Params, s: State, id: string, error: LeaseApiError)
    requires Ordered(p.timing) && Reachable(p, s) && Believes(s, id) && s.replicas[id].phase.Busy?
    ensures Enabled(p, s, End(id, Err(error)))
    ensures var r, r' := s.replicas[id], After(p, s, End(id, Err(error))).replicas[id];
      && r.belief.last.Some?
      && (r'.belief.leader <==> s.now < r.belief.last.value + p.timing.renewSecs * 1_000_000)
      && (r'.belief.leader ==> r'.belief == r.belief && r'.stamp == r.stamp)
  {
    ReachableInv(p, s);
    assert ReplicaOk(p, s, id, s.replicas[id]);
    BeliefExactly(s.replicas[id].belief, s.now, p.timing.D(), Err(error));
  }

  // ----------------------------------------------------------------------- renewal

  /** The Lease names this replica and has a version. */
  predicate OwnsLease(s: State, id: string) {
    && s.store.lease.Some? && s.store.lease.value.resourceVersion.Some? && s.store.lease.value.spec.Some?
    && HolderText(s.store.lease.value.spec.value) == id
  }

  lemma UnchallengedOwnsLease(p: Params, s: State, id: string)
    requires StoreOk(s) && LogOk(p, s) && RequestsOk(p, s) && Unchallenged(p.timing, s, id)
    ensures OwnsLease(s, id)
  {
    var n: nat :| n < |s.log| && s.log[n].owner == id && s.log[n].stamp == s.replicas[id].stamp;
    if n < |s.log| - 1 {
      StillHolder(p, s, id, n, |s.log| - 1);
    }
    LastOwnerOwns(p, s, id);
  }

  /** In a safe configuration the Lease is its leader's own, in every reachable state: so its next claim
      renews. */
  lemma LeaderOwnsLease(p: Params, s: State, id: string)
    requires Ordered(p.timing) && Safe(p) && Reachable(p, s) && Believes(s, id)
    ensures OwnsLease(s, id)
  {
    ReachableInv(p, s);
    LeaderUnchallenged(p, s, id);
    UnchallengedOwnsLease(p, s, id);
  }

  lemma LastOwnerOwns(p: Params, s: State, id: string)
    requires StoreOk(s) && LogOk(p, s) && s.log != [] && Last(s.log).owner == id
    ensures OwnsLease(s, id)
  {
    assert EntryOk(p, s, Last(s.log));
    TrimIdentity(id, UnicodeSpace);
  }

  /** The replica waits for the answer to request `q` of the attempt it started at `started`. */
  predicate Awaits(s: State, id: string, started: int, q: nat) {
    id in s.replicas && s.replicas[id].phase == Busy(started, Waiting(q)) && q < |s.requests|
  }

  /** Request `q` renews the Lease as it is. */
  predicate Renewing(s: State, id: string, started: int, q: nat) {
    && Awaits(s, id, started, q) && s.requests[q].fate.InFlight? && s.requests[q].owner == id
    && s.requests[q].write.Replace? && OwnsLease(s, id)
    && s.requests[q].write.lease.resourceVersion == s.store.lease.value.resourceVersion
    && s.requests[q].write.lease.spec.Some? && s.requests[q].write.lease.spec.value.holder == Some(id)
    && s.requests[q].write.lease.spec.value.renewTime == Some(started)
  }

  /** Request `q` has renewed it. */
  predicate HasRenewed(s: State, id: string, started: int, q: nat) {
    && Awaits(s, id, started, q) && s.requests[q].fate.Answered? && s.requests[q].fate.response.Ok?
    && s.requests[q].write.Replace?
    && s.requests[q].fate.response.value.spec.Some? && s.requests[q].fate.response.value.spec.value.holder == Some(id)
  }

  /** An attempt that reads its own Lease sets out to renew it. */
  lemma ReadsOwnLease(p: Params, s: State, id: string)
    requires Ordered(p.timing) && id != "" && Enabled(p, s, Read(id)) && OwnsLease(s, id)
    ensures Renewing(After(p, s, Read(id)), id, s.replicas[id].phase.started, |s.requests|)
  {
    ClaimExactly(s.store.lease.value, p.timing, id, s.replicas[id].phase.started);
  }

  /** The write lands, however late, if the Lease is still as it was read. */
  lemma RenewalLands(p: Params, s: State, id: string, started: int, q: nat)
    requires Renewing(s, id, started, q)
    ensures Enabled(p, s, Arrive(q)) && HasRenewed(After(p, s, Arrive(q)), id, started, q)
    ensures After(p, s, Arrive(q)).store.lease.value.spec == s.requests[q].write.lease.spec
  {
  }

  /** What a replica awaits and has been answered stays so until its attempt ends. */
  lemma AnswerStays(p: Params, s: State, step: Step, id: string, started: int, q: nat)
    requires Enabled(p, s, step) && HasRenewed(s, id, started, q)
    requires Awaits(After(p, s, step), id, started, q)
    ensures HasRenewed(After(p, s, step), id, started, q)
  {
  }

  lemma RenewalStays(p: Params, s: State, step: Step, id: string, started: int, q: nat)
    requires Enabled(p, s, step) && Renewing(s, id, started, q)
    requires Awaits(After(p, s, step), id, started, q) && After(p, s, step).store == s.store && step != Arrive(q)
    ensures Renewing(After(p, s, step), id, started, q)
  {
  }

  /** The attempt may then end in ownership, and leaves the replica believing, by the claim of this attempt. */
  lemma RenewalHeard(p: Params, s: State, id: string, started: int, q: nat)
    requires HasRenewed(s, id, started, q)
    ensures var result := Finish(s.requests[q].write, id, s.requests[q].fate.response);
      && Enabled(p, s, End(id, result))
      && var r := After(p, s, End(id, result)).replicas[id];
         r.belief.leader && r.belief.last == Some(s.now) && r.stamp == started && r.phase == Idle(started + p.timing.R())
  {
    AnswersExactly(s.requests[q].write, id, s.requests[q].fate.response);
  }

  // ------------------------------------------------------------- with anything in between

  /** A run from `s` that leaves the replica waiting for request `q` all along, and the Lease alone. */
  predicate Undisturbed(p: Params, s: State, steps: seq<Step>, id: string, started: int, q: nat)
    requires Valid(p, s, steps)
    decreases |steps|
  {
    && Awaits(s, id, started, q)
    && (steps != [] ==>
          && steps[0] != Arrive(q) && After(p, s, steps[0]).store == s.store
          && Undisturbed(p, After(p, s, steps[0]), steps[1..], id, started, q))
  }

  /** A run that leaves the replica waiting; whatever happens to the Lease. */
  predicate Patient(p: Params, s: State, steps: seq<Step>, id: string, started: int, q: nat)
    requires Valid(p, s, steps)
    decreases |steps|
  {
    && Awaits(s, id, started, q)
    && (steps != [] ==> Patient(p, After(p, s, steps[0]), steps[1..], id, started, q))
  }

  lemma {:induction false} StillRenewing(p: Params, s: State, steps: seq<Step>, id: string, started: int, q: nat)
    requires Valid(p, s, steps) && Undisturbed(p, s, steps, id, started, q) && Renewing(s, id, started, q)
    ensures Renewing(Run(p, s, steps), id, started, q)
    decreases |steps|
  {
    if steps != [] {
      RenewalStays(p, s, steps[0], id, started, q);
      StillRenewing(p, After(p, s, steps[0]), steps[1..], id, started, q);
    }
  }

  lemma {:induction false} StillRenewed(p: Params, s: State, steps: seq<Step>, id: string, started: int, q: nat)
    requires Valid(p, s, steps) && Patient(p, s, steps, id, started, q) && HasRenewed(s, id, started, q)
    ensures HasRenewed(Run(p, s, steps), id, started, q)
    decreases |steps|
  {
    if steps != [] {
      AnswerStays(p, s, steps[0], id, started, q);
      StillRenewed(p, After(p, s, steps[0]), steps[1..], id, started, q);
    }
  }

  /** A replica that reads its own Lease renews it: whatever else happens before its write lands, as long as
      nobody writes the Lease, and whatever happens before it hears of it, its attempt can end with it believing
      by this attempt's claim. */
  lemma HolderRenews(p: Params, s: State, id: string, before: seq<Step>, after: seq<Step>)
    requires Ordered(p.timing) && id != "" && Enabled(p, s, Read(id)) && OwnsLease(s, id)
    requires var started, q := s.replicas[id].phase.started, |s.requests|;
      var s1 := After(p, s, Read(id));
      && Valid(p, s1, before) && Undisturbed(p, s1, before, id, started, q)
      && (Enabled(p, Run(p, s1, before), Arrive(q)) ==>
            var s2 := After(p, Run(p, s1, before), Arrive(q));
            Valid(p, s2, after) && Patient(p, s2, after, id, started, q))
    ensures var started, q := s.replicas[id].phase.started, |s.requests|;
      var s1 := Run(p, After(p, s, Read(id)), before);
      && Enabled(p, s1, Arrive(q))
      && var s2 := Run(p, After(p, s1, Arrive(q)), after);
         && HasRenewed(s2, id, started, q)
         && var result := Finish(s2.requests[q].write, id, s2.requests[q].fate.response);
            && Enabled(p, s2, End(id, result))
            && var r := After(p, s2, End(id, result)).replicas[id];
               r.belief.leader && r.belief.last == Some(s2.now) && r.stamp == started
  {
    var started, q := s.replicas[id].phase.started, |s.requests|;
    var s1 := After(p, s, Read(id));
    ReadsOwnLease(p, s, id);
    StillRenewing(p, s1, before, id, started, q);
    RenewalLands(p, Run(p, s1, before), id, started, q);
    var s2 := After(p, Run(p, s1, before), Arrive(q));
    StillRenewed(p, s2, after, id, started, q);
    RenewalHeard(p, Run(p, s2, after), id, started, q);
  }
}
