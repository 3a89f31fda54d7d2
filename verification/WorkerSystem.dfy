/**
 The election together with the worker generations it drives: each replica's supervisor launches a
 generation when its watch says leader, and when the watch says otherwise it cancels the generation and
 waits for it to end.
 */
module WorkerSystem {
  import opened Wrappers
  import opened LeaseClaim
  import opened ElectionLoop
  import opened ElectionSystem

  /** A live generation: `lost` is when the watch turned false while it ran, if it has and the supervisor has
      not looked; then it is stopping. */
  datatype Worker = Running(lost: Option<int>) | Stopping(since: int)

  /** The replicas that have a live generation, and that generation. */
  type Workers = map<string, Worker>

  datatype Full = Full(s: State, workers: Workers)

  datatype Move =
    | Elect(step: Step)
    | Launch(id: string)
    | Notice(id: string)
    | Join(id: string)

  /** The longest a generation may live on after the watch turned false, in microseconds; the supervisor itself
      sets no limit. */
  type Limit = Option<nat>

  function LostAt(w: Worker): Option<int> {
    match w
    case Running(lost) => lost
    case Stopping(since) => Some(since)
  }

  /** The instant by which a generation has to be joined, if there is one. */
  function Due(limit: Limit, w: Worker): Option<int> {
    if limit.Some? && LostAt(w).Some? then Some(LostAt(w).value + limit.value) else None
  }

  /** The clock does not pass the end of a generation that is due, and with the tie rule another replica's
      attempt does not come before it either. */
  predicate InTime(p: Params, limit: Limit, f: Full, step: Step) {
    && (step.Tick? ==> forall id :: id in f.workers && Due(limit, f.workers[id]).Some? ==>
          step.to <= Due(limit, f.workers[id]).value)
    && (step.Start? && p.ownTimeoutFirst ==> forall id :: id in f.workers && id != step.id ==>
          Due(limit, f.workers[id]) != Some(f.s.now))
  }

  predicate Allowed(p: Params, limit: Limit, f: Full, m: Move) {
    match m
    case Elect(step) => Enabled(p, f.s, step) && InTime(p, limit, f, step)
    case Launch(id) => id in f.s.replicas && f.s.replicas[id].watch && id !in f.workers
    case Notice(id) => id in f.workers && f.workers[id].Running? && f.workers[id].lost.Some?
    case Join(id) => id in f.workers && f.workers[id].Stopping?
  }

  /** What a watch update means for a generation that runs: a loss is noted until the supervisor looks, and a
      gain before that undoes it. */
  function Told(w: Worker, value: bool, now: int): Worker {
    match w
    case Running(lost) => Running(if value then None else if lost.Some? then lost else Some(now))
    case Stopping(since) => w
  }

  function WorkersAfter(f: Full, step: Step): Workers {
    match step
    case Crash(id) => f.workers - {id}
    case Deliver(id) =>
      if id in f.workers && id in f.s.replicas && f.s.replicas[id].outbox != [] && f.s.replicas[id].outbox[0].Send?
      then f.workers[id := Told(f.workers[id], f.s.replicas[id].outbox[0].value, f.s.now)]
      else f.workers
    case _ => f.workers
  }

  function Moved(p: Params, limit: Limit, f: Full, m: Move): Full
    requires Allowed(p, limit, f, m)
  {
    match m
    case Elect(step) => Full(After(p, f.s, step), WorkersAfter(f, step))
    case Launch(id) => f.(workers := f.workers[id := Running(None)])
    case Notice(id) => f.(workers := f.workers[id := Stopping(f.workers[id].lost.value)])
    case Join(id) => f.(workers := f.workers - {id})
  }

  predicate ValidMoves(p: Params, limit: Limit, f: Full, moves: seq<Move>)
    decreases |moves|
  {
    moves == [] || (Allowed(p, limit, f, moves[0]) && ValidMoves(p, limit, Moved(p, limit, f, moves[0]), moves[1..]))
  }

  function RunMoves(p: Params, limit: Limit, f: Full, moves: seq<Move>): Full
    requires ValidMoves(p, limit, f, moves)
    decreases |moves|
  {
    if moves == [] then f else RunMoves(p, limit, Moved(p, limit, f, moves[0]), moves[1..])
  }

  predicate AtRest(f: Full) {
    Init(f.s) && f.workers == map[]
  }

  ghost predicate Arises(p: Params, limit: Limit, f: Full) {
    exists f0: Full, moves: seq<Move> ::
      AtRest(f0) && ValidMoves(p, limit, f0, moves) && RunMoves(p, limit, f0, moves) == f
  }

  lemma {:induction false} MovesAppend(p: Params, limit: Limit, f: Full, moves: seq<Move>, m: Move)
    requires ValidMoves(p, limit, f, moves) && Allowed(p, limit, RunMoves(p, limit, f, moves), m)
    ensures ValidMoves(p, limit, f, moves + [m])
    ensures RunMoves(p, limit, f, moves + [m]) == Moved(p, limit, RunMoves(p, limit, f, moves), m)
    decreases |moves|
  {
    if moves == [] {
      assert (moves + [m])[1..] == [];
    } else {
      assert (moves + [m])[1..] == moves[1..] + [m];
      MovesAppend(p, limit, Moved(p, limit, f, moves[0]), moves[1..], m);
    }
  }

  lemma ArisesNext(p: Params, limit: Limit, f: Full, m: Move)
    requires Arises(p, limit, f) && Allowed(p, limit, f, m)
    ensures Arises(p, limit, Moved(p, limit, f, m))
  {
    var f0: Full, moves: seq<Move> :|
      AtRest(f0) && ValidMoves(p, limit, f0, moves) && RunMoves(p, limit, f0, moves) == f;
    MovesAppend(p, limit, f0, moves, m);
  }

  lemma ArisesOpening(p: Params, limit: Limit, f: Full)
    requires AtRest(f)
    ensures Arises(p, limit, f)
  {
    assert ValidMoves(p, limit, f, []);
  }

  /** The condition for at most one live generation in the whole deployment. */
  predicate WorkerSafe(p: Params, limit: Limit)
    requires p.timing.retrySecs > 0
  {
    limit.Some? &&
    var longest := WindowSecs(p.timing) * TICKS + limit.value;
    longest < p.timing.L() || (p.ownTimeoutFirst && longest <= p.timing.L())
  }
}
