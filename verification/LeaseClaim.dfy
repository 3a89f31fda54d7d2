/**
 One claim on the shared Lease object (`claim_once`) and the versioned store it runs against.

 A claim reads the Lease, decides on that snapshot what to write, and writes with the version it
 read. `Decide`, `Land` and `Finish` are those three parts; the protocol interleaves them, and
 `ClaimOnce` runs them back to back as the source does.
 */
module LeaseClaim {
  import opened Wrappers
  import opened Text

  // Instants are microseconds, the resolution of a Lease's `MicroTime`.
  const TICKS := 1_000_000
  const I32_MAX := 0x7fff_ffff

  datatype Timing = Timing(leaseSecs: int, renewSecs: int, retrySecs: int) {
    function L(): int { leaseSecs * TICKS }
    function D(): int { renewSecs * TICKS }
    function R(): int { retrySecs * TICKS }
  }

  datatype ConfigError = LeaseOutOfRange | RetryIsZero | RenewIsZero | NotIncreasing

  const MAX_LEASE_DURATION_SECS := 300

  /** The timing checks of `LeaderElectionConfig::from_vars`, in the order they are made. */
  function ValidateTiming(lease: nat, renew: nat, retry: nat): (r: Result<Timing, ConfigError>)
    ensures r.Ok? <==> 1 <= retry < renew < lease && 3 <= lease <= 300
    ensures r.Ok? ==> r.value == Timing(lease, renew, retry)
  {
    if !(3 <= lease <= MAX_LEASE_DURATION_SECS) then Err(LeaseOutOfRange)
    else if retry == 0 then Err(RetryIsZero)
    else if renew == 0 then Err(RenewIsZero)
    else if retry >= renew || renew >= lease then Err(NotIncreasing)
    else Ok(Timing(lease, renew, retry))
  }

  /** What is refused, the first complaint that applies. */
  lemma TimingErrors(lease: nat, renew: nat, retry: nat)
    ensures ValidateTiming(lease, renew, retry) == Err(LeaseOutOfRange) <==> lease < 3 || lease > 300
    ensures ValidateTiming(lease, renew, retry) == Err(RetryIsZero) <==> 3 <= lease <= 300 && retry == 0
    ensures ValidateTiming(lease, renew, retry) == Err(RenewIsZero) <==> 3 <= lease <= 300 && retry > 0 && renew == 0
    ensures ValidateTiming(lease, renew, retry) == Err(NotIncreasing) <==>
      3 <= lease <= 300 && retry > 0 && renew > 0 && (renew <= retry || lease <= renew)
  {
  }

  predicate Ordered(t: Timing) {
    1 <= t.retrySecs < t.renewSecs < t.leaseSecs
  }

  /** Holder identities are DNS names: non-empty and free of blanks at the ends. */
  predicate IsIdentity(id: string) {
    id != "" && Tidy(id, UnicodeSpace)
  }

  datatype LeaseApiError =
    NotFound | AlreadyExists | Conflict | Forbidden | Api | Transport | InvalidObject

  datatype ClaimOutcome =
    | Holder(transitions: nat)
    | Follower(holder: Option<string>, transitions: nat)

  type ClaimResult = Result<ClaimOutcome, LeaseApiError>

  datatype LeaseSpec = LeaseSpec(
    holder: Option<string>,
    acquireTime: Option<int>,
    renewTime: Option<int>,
    durationSeconds: Option<int>,
    transitions: Option<int>)

  datatype Lease = Lease(resourceVersion: Option<nat>, spec: Option<LeaseSpec>)

  const EMPTY_SPEC := LeaseSpec(None, None, None, None, None)

  function SpecOf(lease: Lease): LeaseSpec {
    lease.spec.GetOr(EMPTY_SPEC)
  }

  function CurrentHolder(spec: LeaseSpec): Option<string> {
    if spec.holder.Some? && Trim(spec.holder.value) != "" then Some(Trim(spec.holder.value)) else None
  }

  function TransitionsOf(lease: Lease): nat {
    var n := SpecOf(lease).transitions.GetOr(0);
    if n < 0 then 0 else n
  }

  function SaturatingInc(n: int): int {
    if n >= I32_MAX then I32_MAX else n + 1
  }

  predicate LeaseExpired(spec: LeaseSpec, now: int) {
    if CurrentHolder(spec).None? then true
    else if spec.durationSeconds.None? || spec.durationSeconds.value <= 0 then true
    else
      var base := if spec.renewTime.Some? then spec.renewTime else spec.acquireTime;
      base.None? || now >= base.value + spec.durationSeconds.value * TICKS
  }

  function NewLease(t: Timing, id: string, now: int): Lease {
    Lease(None, Some(LeaseSpec(Some(id), Some(now), Some(now), Some(t.leaseSecs), Some(0))))
  }

  /** The specification a claimant writes over `spec`: renewal keeps the acquisition time and the
      transition count, a takeover restarts the one and bumps the other. */
  function Desired(spec: LeaseSpec, t: Timing, id: string, now: int): LeaseSpec {
    var changed := CurrentHolder(spec) != Some(id);
    LeaseSpec(
      Some(id),
      if changed || spec.acquireTime.None? then Some(now) else spec.acquireTime,
      Some(now),
      Some(t.leaseSecs),
      if changed then Some(SaturatingInc(spec.transitions.GetOr(0))) else spec.transitions)
  }

  /** What a claimant does with the answer to its read. */
  datatype Decision =
    | Done(result: ClaimResult)
    | Create(lease: Lease)
    | Replace(lease: Lease)

  function Decide(got: Result<Lease, LeaseApiError>, t: Timing, id: string, now: int): Decision {
    match got
    case Err(error) => if error.NotFound? then Create(NewLease(t, id, now)) else Done(Err(error))
    case Ok(lease) =>
      var spec := SpecOf(lease);
      if CurrentHolder(spec) != Some(id) && !LeaseExpired(spec, now) then
        Done(Ok(Follower(CurrentHolder(spec), TransitionsOf(lease))))
      else if lease.resourceVersion.None? then Done(Err(InvalidObject))
      else Replace(Lease(lease.resourceVersion, Some(Desired(spec, t, id, now))))
  }

  /** The API server's copy: the Lease, if it exists, and the version counter. */
  datatype Store = Store(lease: Option<Lease>, nextVersion: nat)

  function Fetch(store: Store): Result<Lease, LeaseApiError> {
    if store.lease.None? then Err(NotFound) else Ok(store.lease.value)
  }

  function Save(store: Store, lease: Lease): Store {
    var version := store.nextVersion + 1;
    Store(Some(lease.(resourceVersion := Some(version))), version)
  }

  /** Creation succeeds only on a missing Lease, replacement only on the version it names. */
  function Land(store: Store, write: Decision): (Store, Result<Lease, LeaseApiError>)
    requires !write.Done?
  {
    if write.Create? then
      if store.lease.Some? then (store, Err(AlreadyExists))
      else (Save(store, write.lease), Ok(Save(store, write.lease).lease.value))
    else if store.lease.None? then (store, Err(NotFound))
    else if store.lease.value.resourceVersion != write.lease.resourceVersion then (store, Err(Conflict))
    else (Save(store, write.lease), Ok(Save(store, write.lease).lease.value))
  }

  /** How a claimant reads the answer to its write. */
  function Finish(write: Decision, id: string, response: Result<Lease, LeaseApiError>): ClaimResult
    requires !write.Done?
  {
    match response
    case Ok(lease) =>
      if write.Replace? && SpecOf(lease).holder != Some(id) then Err(InvalidObject)
      else Ok(Holder(TransitionsOf(lease)))
    case Err(error) =>
      if write.Create? && error.AlreadyExists? then Err(Conflict) else Err(error)
  }

  /** The API server as one claimant sees it, with the test double's forced conflict. */
  class LeaseServer {
    var store: Store
    var conflictNextReplace: bool

    constructor (initial: Option<Lease>, version: nat)
      ensures store == Store(initial, version) && !conflictNextReplace
    {
      store := Store(initial, version);
      conflictNextReplace := false;
    }

    method Get() returns (r: Result<Lease, LeaseApiError>)
      ensures r == Fetch(store)
    {
      if store.lease.None? { return Err(NotFound); }
      return Ok(store.lease.value);
    }

    method CreateLease(lease: Lease) returns (r: Result<Lease, LeaseApiError>)
      modifies this`store
      ensures (store, r) == Land(old(store), Create(lease))
    {
      if store.lease.Some? { return Err(AlreadyExists); }
      var version := store.nextVersion + 1;
      var created := lease.(resourceVersion := Some(version));
      store := Store(Some(created), version);
      return Ok(created);
    }

    method ReplaceLease(lease: Lease) returns (r: Result<Lease, LeaseApiError>)
      modifies this
      ensures !conflictNextReplace
      ensures old(conflictNextReplace) ==> store == old(store) && r == Err(Conflict)
      ensures !old(conflictNextReplace) ==> (store, r) == Land(old(store), Replace(lease))
    {
      if conflictNextReplace {
        conflictNextReplace := false;
        return Err(Conflict);
      }
      if store.lease.None? { return Err(NotFound); }
      if store.lease.value.resourceVersion != lease.resourceVersion { return Err(Conflict); }
      var version := store.nextVersion + 1;
      var replaced := lease.(resourceVersion := Some(version));
      store := Store(Some(replaced), version);
      return Ok(replaced);
    }
  }

  /** `claim_once`: read, edit a copy of the specification, write it back under the version read. */
  method ClaimOnce(api: LeaseServer, t: Timing, identity: Option<string>, now: int) returns (r: ClaimResult)
    modifies api
    ensures identity.None? ==> r == Err(InvalidObject) && api.store == old(api.store)
    ensures identity.Some? ==>
      var write := Decide(Fetch(old(api.store)), t, identity.value, now);
      && (write.Done? ==> r == write.result && api.store == old(api.store))
      && (write.Replace? && old(api.conflictNextReplace) ==> r == Err(Conflict) && api.store == old(api.store))
      && (write.Create? || (write.Replace? && !old(api.conflictNextReplace)) ==>
        var landed := Land(old(api.store), write);
        api.store == landed.0 && r == Finish(write, identity.value, landed.1))
  {
    if identity.None? { return Err(InvalidObject); }
    var id := identity.value;
    var got := api.Get();
    if got.Err? {
      if !got.error.NotFound? { return Err(got.error); }
      var created := api.CreateLease(NewLease(t, id, now));
      match created {
        case Ok(lease) => return Ok(Holder(TransitionsOf(lease)));
        case Err(error) =>
          if error.AlreadyExists? || error.Conflict? { return Err(Conflict); }
          return Err(error);
      }
    }
    var lease := got.value;
    var desired := SpecOf(lease);
    var current := CurrentHolder(desired);
    if current != Some(id) && !LeaseExpired(desired, now) {
      return Ok(Follower(current, TransitionsOf(lease)));
    }
    if lease.resourceVersion.None? { return Err(InvalidObject); }
    if current != Some(id) {
      desired := desired.(acquireTime := Some(now));
      desired := desired.(transitions := Some(SaturatingInc(desired.transitions.GetOr(0))));
    } else if desired.acquireTime.None? {
      desired := desired.(acquireTime := Some(now));
    }
    desired := desired.(holder := Some(id));
    desired := desired.(durationSeconds := Some(t.leaseSecs));
    desired := desired.(renewTime := Some(now));
    lease := lease.(spec := Some(desired));
    var replaced := api.ReplaceLease(lease);
    if replaced.Err? { return Err(replaced.error); }
    if SpecOf(replaced.value).holder != Some(id) { return Err(InvalidObject); }
    return Ok(Holder(TransitionsOf(replaced.value)));
  }

  // ------------------------------------------------- what a claim does, field by field

  /** The holder a Lease names, without the blanks around it; nothing if there is none. */
  function HolderText(spec: LeaseSpec): string {
    match spec.holder
    case Some(holder) => Trim(holder)
    case None => ""
  }

  /** Somebody else holds the Lease, for a positive time from its last renewal, or else its acquisition, and
      that time is not over. */
  predicate HeldByOther(spec: LeaseSpec, id: string, now: int) {
    && HolderText(spec) != "" && HolderText(spec) != id
    && spec.durationSeconds.Some? && spec.durationSeconds.value > 0
    && (spec.renewTime.Some? || spec.acquireTime.Some?)
    && now < spec.renewTime.GetOr(spec.acquireTime.GetOr(0)) + spec.durationSeconds.value * 1_000_000
  }

  /** The counter, read as a number that cannot be negative. */
  function CountOf(spec: LeaseSpec): nat {
    match spec.transitions
    case Some(n) => if n > 0 then n else 0
    case None => 0
  }

  /** What a claim writes over `spec`: the holder's own hold goes on, anybody else's begins. */
  predicate Claimed(spec: LeaseSpec, t: Timing, id: string, now: int, written: LeaseSpec) {
    && written.holder == Some(id) && written.renewTime == Some(now) && written.durationSeconds == Some(t.leaseSecs)
    && (HolderText(spec) == id ==>
          && written.transitions == spec.transitions
          && written.acquireTime == (if spec.acquireTime.Some? then spec.acquireTime else Some(now)))
    && (HolderText(spec) != id ==>
          && written.acquireTime == Some(now)
          && written.transitions.Some?
          && (spec.transitions.GetOr(0) < 0x7fff_ffff ==> written.transitions.value == spec.transitions.GetOr(0) + 1)
          && (spec.transitions.GetOr(0) >= 0x7fff_ffff ==> written.transitions.value == 0x7fff_ffff))
  }

  /** On a Lease that is there, a claim follows exactly while somebody else holds it; otherwise it writes
      under the version it read, or errs for want of one. */
  lemma ClaimExactly(lease: Lease, t: Timing, id: string, now: int)
    requires id != ""
    ensures var spec := lease.spec.GetOr(LeaseSpec(None, None, None, None, None));
      var write := Decide(Ok(lease), t, id, now);
      && (HeldByOther(spec, id, now) ==> write == Done(Ok(Follower(Some(HolderText(spec)), CountOf(spec)))))
      && (!HeldByOther(spec, id, now) && lease.resourceVersion.None? ==> write == Done(Err(InvalidObject)))
      && (!HeldByOther(spec, id, now) && lease.resourceVersion.Some? ==>
            && write.Replace? && write.lease.resourceVersion == lease.resourceVersion
            && write.lease.spec.Some? && Claimed(spec, t, id, now, write.lease.spec.value))
  {
  }

  /** Without a Lease a claim creates one; any other failure to read it is the claim's. */
  lemma ClaimWithoutLease(error: LeaseApiError, t: Timing, id: string, now: int)
    ensures var write := Decide(Err(error), t, id, now);
      && (error != NotFound ==> write == Done(Err(error)))
      && (error == NotFound ==> write == Create(Lease(None,
            Some(LeaseSpec(Some(id), Some(now), Some(now), Some(t.leaseSecs), Some(0))))))
  {
  }

  /** A holder's claim on its own Lease renews it, whenever it comes: the claim is reported as held, under the
      next version, with the hold unbroken. */
  lemma OwnClaimRenews(store: Store, t: Timing, id: string, now: int)
    requires store.lease.Some? && store.lease.value.resourceVersion.Some? && store.lease.value.spec.Some?
    requires id != "" && HolderText(store.lease.value.spec.value) == id
    ensures var spec := store.lease.value.spec.value;
      var write := Decide(Fetch(store), t, id, now);
      && write.Replace?
      && var (after, response) := Land(store, write);
         && Finish(write, id, response) == Ok(Holder(CountOf(spec)))
         && after.nextVersion == store.nextVersion + 1
         && after.lease == Some(Lease(Some(store.nextVersion + 1), Some(spec.(
              holder := Some(id), renewTime := Some(now), durationSeconds := Some(t.leaseSecs),
              acquireTime := if spec.acquireTime.Some? then spec.acquireTime else Some(now)))))
  {
  }

  /** A free or expired Lease is taken over. */
  lemma FreeLeaseIsTaken(store: Store, t: Timing, id: string, now: int)
    requires store.lease.Some? && store.lease.value.resourceVersion.Some? && store.lease.value.spec.Some?
    requires id != "" && HolderText(store.lease.value.spec.value) != id
    requires !HeldByOther(store.lease.value.spec.value, id, now)
    ensures var write := Decide(Fetch(store), t, id, now);
      && write.Replace?
      && var (after, response) := Land(store, write);
         && Finish(write, id, response).Ok? && Finish(write, id, response).value.Holder?
         && after.lease.Some? && after.lease.value.resourceVersion == Some(store.nextVersion + 1)
         && after.lease.value.spec.Some?
         && Claimed(store.lease.value.spec.value, t, id, now, after.lease.value.spec.value)
  {
  }

  /** How the answer to a write is reported: success is ownership of what came back, if it names the claimant;
      losing the race to create is a conflict; anything else is passed on. */
  lemma AnswersExactly(write: Decision, id: string, response: Result<Lease, LeaseApiError>)
    requires !write.Done?
    ensures response.Ok? && response.value.spec.Some? && response.value.spec.value.holder == Some(id) ==>
      Finish(write, id, response) == Ok(Holder(CountOf(response.value.spec.value)))
    ensures write.Replace? && response.Ok? && (response.value.spec.None? || response.value.spec.value.holder != Some(id)) ==>
      Finish(write, id, response) == Err(InvalidObject)
    ensures response == Err(AlreadyExists) && write.Create? ==> Finish(write, id, response) == Err(Conflict)
    ensures response.Err? && (write.Replace? || response.error != AlreadyExists) ==>
      Finish(write, id, response) == Err(response.error)
  {
  }
}
