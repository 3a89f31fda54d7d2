/**
 A contender's own view of its leadership (`ElectionState`) and the calls one observation makes on
 the rest of the process.
 */
module Belief {
  import opened Wrappers
  import opened LeaseClaim

  datatype BeliefState = BeliefState(leader: bool, last: Option<int>, transitions: nat)

  const NO_BELIEF := BeliefState(false, None, 0)

  datatype ElectionEvent =
    | Acquired(transitions: nat)
    | Renewed(transitions: nat)
    | Following(holder: Option<string>, transitions: nat)
    | Lost(holder: Option<string>, transitions: nat)
    | ConflictSeen(renewal: bool, lost: bool)
    | Failure(error: LeaseApiError, renewal: bool, lost: bool)

  /** Elapsed time saturates at zero, as `Instant::duration_since` does. */
  function Elapsed(last: int, now: int): nat {
    if now < last then 0 else now - last
  }

  /** The deadline is looked at only when an attempt ends in an error. */
  predicate DeadlinePassed(b: BeliefState, now: int, renewDeadline: int) {
    b.leader && (b.last.None? || Elapsed(b.last.value, now) >= renewDeadline)
  }

  function Observe(b: BeliefState, now: int, renewDeadline: int, r: ClaimResult): (BeliefState, ElectionEvent) {
    match r
    case Ok(Holder(n)) =>
      (BeliefState(true, Some(now), n), if b.leader then Renewed(n) else Acquired(n))
    case Ok(Follower(holder, n)) =>
      (BeliefState(false, None, n), if b.leader then Lost(holder, n) else Following(holder, n))
    case Err(error) =>
      var lost := DeadlinePassed(b, now, renewDeadline);
      (if lost then BeliefState(false, None, b.transitions) else b,
       if error.Conflict? then ConflictSeen(b.leader, lost) else Failure(error, b.leader, lost))
  }

  class ElectionState {
    var leader: bool
    var last: Option<int>
    var transitions: nat

    ghost function View(): BeliefState reads this { BeliefState(leader, last, transitions) }

    constructor ()
      ensures View() == NO_BELIEF
    {
      leader, last, transitions := false, None, 0;
    }

    method ObserveResult(now: int, renewDeadline: int, r: ClaimResult) returns (event: ElectionEvent)
      modifies this
      ensures (View(), event) == Observe(old(View()), now, renewDeadline, r)
    {
      match r {
        case Ok(Holder(n)) =>
          var acquired := !leader;
          leader, last, transitions := true, Some(now), n;
          return if acquired then Acquired(n) else Renewed(n);
        case Ok(Follower(holder, n)) =>
          var lost := leader;
          leader, last, transitions := false, None, n;
          return if lost then Lost(holder, n) else Following(holder, n);
        case Err(error) =>
          var renewal := leader;
          var lost := renewal && (last.None? || Elapsed(last.value, now) >= renewDeadline);
          if lost {
            leader, last := false, None;
          }
          if error.Conflict? {
            return ConflictSeen(renewal, lost);
          }
          return Failure(error, renewal, lost);
      }
    }
  }

  // -------------------------------------------------------------- what ends a belief

  /** The instant up to which a leader's last success carries it. */
  predicate StillFresh(b: BeliefState, now: int, renewDeadline: int) {
    b.last.Some? && renewDeadline > 0 && now < b.last.value + renewDeadline
  }

  /** For every result and every kind of error: a leader goes on after a confirmed claim and after any error
      before its deadline, and after nothing else; nobody else begins but by a confirmed claim. */
  lemma BeliefExactly(b: BeliefState, now: int, renewDeadline: int, r: ClaimResult)
    ensures var after := Observe(b, now, renewDeadline, r).0;
      && (after.leader <==>
            || (r.Ok? && r.value.Holder?)
            || (b.leader && r.Err? && StillFresh(b, now, renewDeadline)))
      && (after.last == if !after.leader && (b.leader || r.Ok?) then None
            else if r.Ok? then Some(now) else b.last)
      && (after.transitions == if r.Ok? then r.value.transitions else b.transitions)
  {
  }

  /** What is reported, result by result: `renewal` says whether it was a leader's attempt, and `lost` whether
      that ended its leadership. */
  lemma EventExactly(b: BeliefState, now: int, renewDeadline: int, r: ClaimResult)
    ensures var event := Observe(b, now, renewDeadline, r).1;
      var lost := b.leader && !StillFresh(b, now, renewDeadline);
      && (r.Ok? && r.value.Holder? ==>
            event == if b.leader then Renewed(r.value.transitions) else Acquired(r.value.transitions))
      && (r.Ok? && r.value.Follower? ==> event == if b.leader
            then Lost(r.value.holder, r.value.transitions) else Following(r.value.holder, r.value.transitions))
      && (r == Err(Conflict) ==> event == ConflictSeen(b.leader, lost))
      && (r.Err? && r.error != Conflict ==> event == Failure(r.error, b.leader, lost))
  {
  }
}
