/**
 The deterministic id of a sandbox lifecycle event: a name-based UUID over a key of the event's
 action, backend, session and runtime incarnation.
 */
module LifecycleKey {
  import opened Wrappers
  import opened Text

  datatype Action =
    | CreateRequested | Created | CreateFailed
    | DeleteRequested | Deleted | DeleteFailed
    | IdentityBackfilled | IdentityConflict

  function ActionText(a: Action): string {
    match a
    case CreateRequested => "create_requested"
    case Created => "created"
    case CreateFailed => "create_failed"
    case DeleteRequested => "delete_requested"
    case Deleted => "deleted"
    case DeleteFailed => "delete_failed"
    case IdentityBackfilled => "identity_backfilled"
    case IdentityConflict => "identity_conflict"
  }

  datatype Backend = Kubernetes | OpenSandbox

  function BackendText(b: Backend): string {
    match b
    case Kubernetes => "kubernetes"
    case OpenSandbox => "opensandbox"
  }

  const SCHEMA_VERSION := 1
  const NO_RUNTIME_INCARNATION := "pending"
  const ID_LIMIT := 128

  // -------------------------------------------------------------------- instants

  /** A UTC date and time of day; a leap second is second 59 with a second's worth of extra nanoseconds. */
  datatype Instant = Instant(year: int, month: nat, day: nat, hour: nat, minute: nat, second: nat, nanos: nat)

  predicate ValidInstant(t: Instant) {
    && 1 <= t.month <= 12 && 1 <= t.day <= 31 && t.hour < 24 && t.minute < 60 && t.second < 60
    && t.nanos < 2_000_000_000 && (t.nanos >= 1_000_000_000 ==> t.second == 59)
  }

  /** The same instant with everything below the millisecond gone. */
  function ToMillis(t: Instant): Instant {
    t.(nanos := t.nanos / 1_000_000 * 1_000_000)
  }

  function Pow10(k: nat): nat {
    if k == 0 then 1 else 10 * Pow10(k - 1)
  }

  /** The last `width` decimal digits. */
  function Pad(n: nat, width: nat): (s: string)
    ensures |s| == width
  {
    if width == 0 then [] else Pad(n / 10, width - 1) + [DigitChar(n % 10)]
  }

  /** Four digits within the years 0 to 9999, otherwise a sign and at least four digits. */
  function YearText(year: int): string {
    if 0 <= year <= 9999 then FourDigits(year)
    else if year > 9999 then "+" + FourDigits(year)
    else "-" + FourDigits(-year)
  }

  /** At least four digits. */
  function FourDigits(n: nat): string {
    if n <= 9999 then Pad(n, 4) else Decimal(n)
  }

  function DateText(t: Instant): (s: string)
    ensures |s| == 6
  {
    "-" + Pad(t.month, 2) + "-" + Pad(t.day, 2)
  }

  function ClockText(t: Instant): (s: string)
    ensures |s| == 14
  {
    var second := if t.nanos >= 1_000_000_000 then t.second + 1 else t.second;
    "T" + Pad(t.hour, 2) + ":" + Pad(t.minute, 2) + ":" + Pad(second, 2)
      + "." + Pad(t.nanos % 1_000_000_000 / 1_000_000, 3) + "Z"
  }

  /** RFC 3339 in UTC with milliseconds. */
  function Rfc3339(t: Instant): string {
    YearText(t.year) + DateText(t) + ClockText(t)
  }

  // ---------------------------------------------------------------------- records

  datatype Runtime = Runtime(runtimeId: Option<string>, createdAt: Option<Instant>, hint: Option<string>)

  datatype Attribution = Attribution(
    creatorId: Option<int>, creatorLogin: Option<string>,
    triggerAuthorId: Option<int>, triggerAuthorLogin: Option<string>)

  datatype Correlation = Correlation(
    repoFullName: Option<string>, installationId: Option<int>,
    triggerIssue: Option<int>, requestId: Option<string>)

  datatype Reason =
    | Idle | ConfigChanged | TriggerClosed | TerminalCleanup
    | RuntimeNotFound | BackendUnavailable | InvalidMetadata | AttributionConflict

  type Uuid = bv128

  datatype Event = Event(
    eventId: Uuid,
    occurredAt: Instant,
    action: Action,
    session: string,
    backend: Backend,
    runtime: Runtime,
    attribution: Attribution,
    correlation: Correlation,
    reason: Option<Reason>)

  function Handle(r: Runtime): string {
    match r.runtimeId
    case Some(id) => id
    case None => r.hint.GetOr(NO_RUNTIME_INCARNATION)
  }

  function Incarnation(r: Runtime): string {
    match r.createdAt
    case Some(at) => Handle(r) + "@" + Rfc3339(at)
    case None => Handle(r)
  }

  function Key(action: Action, backend: Backend, session: string, runtime: Runtime): string {
    Decimal(SCHEMA_VERSION) + "|"
      + (ActionText(action) + "|" + (BackendText(backend) + "|" + (session + "|" + Incarnation(runtime))))
  }

  const NO_RUNTIME := Runtime(None, None, None)

  /** `v5` is the name-based UUID in the event namespace, section 4.3 of RFC 4122. */
  function NewEvent(v5: string -> Uuid, action: Action, backend: Backend, session: string, now: Instant): Event {
    Event(v5(Key(action, backend, session, NO_RUNTIME)), now, action, session, backend, NO_RUNTIME,
          Attribution(None, None, None, None), Correlation(None, None, None, None), None)
  }

  datatype Builder =
    | WithRuntime(runtime: Runtime)
    | WithAttribution(attribution: Attribution)
    | WithCorrelation(correlation: Correlation)
    | WithReason(reason: Reason)
    | At(instant: Instant)

  function Build(v5: string -> Uuid, e: Event, b: Builder): Event {
    match b
    case WithRuntime(runtime) =>
      e.(eventId := v5(Key(e.action, e.backend, e.session, runtime)), runtime := runtime)
    case WithAttribution(attribution) => e.(attribution := attribution)
    case WithCorrelation(correlation) => e.(correlation := correlation)
    case WithReason(reason) => e.(reason := Some(reason))
    case At(instant) => e.(occurredAt := instant)
  }

  function BuildAll(v5: string -> Uuid, e: Event, bs: seq<Builder>): Event {
    if bs == [] then e else Build(v5, BuildAll(v5, e, bs[..|bs| - 1]), bs[|bs| - 1])
  }

  /** The runtime a sequence of builders leaves. */
  function LastRuntime(bs: seq<Builder>): Runtime {
    if bs == [] then NO_RUNTIME
    else if bs[|bs| - 1].WithRuntime? then bs[|bs| - 1].runtime
    else LastRuntime(bs[..|bs| - 1])
  }

  /** The id is the one derived from the fields as they are. */
  predicate Derived(v5: string -> Uuid, e: Event) {
    e.eventId == v5(Key(e.action, e.backend, e.session, e.runtime))
  }

  /** Same action, backend and session. */
  predicate SameEffect(a: Event, b: Event) {
    a.action == b.action && a.backend == b.backend && a.session == b.session
  }

  lemma BuildKeepsId(v5: string -> Uuid, e: Event, b: Builder)
    requires Derived(v5, e)
    ensures Derived(v5, Build(v5, e, b)) && SameEffect(Build(v5, e, b), e)
    ensures Build(v5, e, b).runtime == if b.WithRuntime? then b.runtime else e.runtime
  {
    if !b.WithRuntime? {
      assert Build(v5, e, b).eventId == e.eventId && Build(v5, e, b).runtime == e.runtime;
    }
  }

  /** Whatever builders are applied in whatever order, the id is the one derived from the fields the event
      has then: what the constructor was given, and the last runtime attached. */
  lemma {:induction false} BuildersKeepId(v5: string -> Uuid, e: Event, bs: seq<Builder>)
    requires Derived(v5, e) && e.runtime == NO_RUNTIME
    ensures Derived(v5, BuildAll(v5, e, bs)) && SameEffect(BuildAll(v5, e, bs), e)
    ensures BuildAll(v5, e, bs).runtime == LastRuntime(bs)
  {
    if bs != [] {
      BuildersKeepId(v5, e, bs[..|bs| - 1]);
      BuildKeepsId(v5, BuildAll(v5, e, bs[..|bs| - 1]), bs[|bs| - 1]);
    }
  }

  lemma NewEventDerived(v5: string -> Uuid, action: Action, backend: Backend, session: string, now: Instant)
    ensures Derived(v5, NewEvent(v5, action, backend, session, now))
    ensures NewEvent(v5, action, backend, session, now).runtime == NO_RUNTIME
  {
  }

  // ------------------------------------------------------------------- validation

  datatype SessionError = Empty | TooLong | BadEnds | BadCharacter

  predicate LowerAlnum(c: char) {
    'a' <= c <= 'z' || '0' <= c <= '9'
  }

  /** `bytes` is the length in bytes, which exceeds the number of characters outside ASCII. */
  function ValidateSession(s: string, bytes: nat): Option<SessionError> {
    if s == [] then Some(Empty)
    else if bytes > ID_LIMIT then Some(TooLong)
    else if !LowerAlnum(s[0]) || !LowerAlnum(s[|s| - 1]) then Some(BadEnds)
    else if !(forall i :: 0 <= i < |s| ==> LowerAlnum(s[i]) || s[i] == '-') then Some(BadCharacter)
    else None
  }

  // ------------------------------------------------------------------ injectivity

  lemma ActionTextInjective(a: Action, b: Action)
    requires ActionText(a) == ActionText(b)
    ensures a == b
  {
    var s := ActionText(a);
    assert |s| == |ActionText(b)|;
    assert s[0] == ActionText(b)[0] && s[6] == ActionText(b)[6] && s[|s| - 1] == ActionText(b)[|s| - 1];
  }

  lemma BackendTextInjective(a: Backend, b: Backend)
    requires BackendText(a) == BackendText(b)
    ensures a == b
  {
    assert BackendText(a)[0] == BackendText(b)[0];
  }

  lemma NoBars(action: Action, backend: Backend, session: string, bytes: nat)
    ensures '|' !in ActionText(action) && '|' !in BackendText(backend)
    ensures ValidateSession(session, bytes).None? ==> '|' !in session
  {
  }

  /** Two events that pass validation have the same key exactly when they agree on action, backend, session
      and incarnation, whatever the runtime handles hold. */
  lemma KeyExactly(a: Event, b: Event, aBytes: nat, bBytes: nat)
    requires ValidateSession(a.session, aBytes).None? && ValidateSession(b.session, bBytes).None?
    ensures Key(a.action, a.backend, a.session, a.runtime) == Key(b.action, b.backend, b.session, b.runtime)
      <==> a.action == b.action && a.backend == b.backend && a.session == b.session
           && Incarnation(a.runtime) == Incarnation(b.runtime)
  {
    if Key(a.action, a.backend, a.session, a.runtime) == Key(b.action, b.backend, b.session, b.runtime) {
      NoBars(a.action, a.backend, a.session, aBytes);
      NoBars(b.action, b.backend, b.session, bBytes);
      var aRest := a.session + "|" + Incarnation(a.runtime);
      var bRest := b.session + "|" + Incarnation(b.runtime);
      var aTail := BackendText(a.backend) + "|" + aRest;
      var bTail := BackendText(b.backend) + "|" + bRest;
      SameTail(Decimal(SCHEMA_VERSION) + "|", ActionText(a.action) + "|" + aTail, ActionText(b.action) + "|" + bTail);
      MarkCuts(ActionText(a.action), aTail, ActionText(b.action), bTail, '|');
      MarkCuts(BackendText(a.backend), aRest, BackendText(b.backend), bRest, '|');
      MarkCuts(a.session, Incarnation(a.runtime), b.session, Incarnation(b.runtime), '|');
      ActionTextInjective(a.action, b.action);
      BackendTextInjective(a.backend, b.backend);
    }
  }

  lemma SameTail(head: string, x: string, y: string)
    requires head + x == head + y
    ensures x == y
  {
    assert (head + x)[|head|..] == x && (head + y)[|head|..] == y;
  }

  // ------------------------------------------------------------- reading instants

  lemma {:induction false} PadInjective(a: nat, b: nat, width: nat)
    requires a < Pow10(width) && b < Pow10(width) && Pad(a, width) == Pad(b, width)
    ensures a == b
  {
    if width > 0 {
      var s := Pad(a, width);
      assert s[..width - 1] == Pad(a / 10, width - 1) == Pad(b / 10, width - 1);
      assert s[width - 1] == DigitChar(a % 10) == DigitChar(b % 10);
      PadInjective(a / 10, b / 10, width - 1);
    }
  }

  lemma {:induction false} PadDigits(n: nat, width: nat)
    ensures forall i :: 0 <= i < width ==> '0' <= Pad(n, width)[i] <= '9'
  {
    if width > 0 {
      PadDigits(n / 10, width - 1);
    }
  }

  lemma {:induction false} DecimalDigits(n: nat)
    ensures forall i :: 0 <= i < |Decimal(n)| ==> '0' <= Decimal(n)[i] <= '9'
  {
    if n >= 10 {
      DecimalDigits(n / 10);
    }
  }

  lemma {:induction false} DecimalLength(n: nat, k: nat)
    requires n >= Pow10(k)
    ensures |Decimal(n)| > k
  {
    DecimalNotEmpty(n);
    if k > 0 {
      PowTen(k);
      DecimalLength(n / 10, k - 1);
    }
  }

  lemma PowTen(k: nat)
    requires k > 0
    ensures Pow10(k) >= 10
  {
  }

  lemma FourDigitsFacts(n: nat)
    ensures |FourDigits(n)| >= 4 && (|FourDigits(n)| > 4 <==> n > 9999)
    ensures forall i :: 0 <= i < |FourDigits(n)| ==> '0' <= FourDigits(n)[i] <= '9'
  {
    if n <= 9999 {
      PadDigits(n, 4);
    } else {
      DecimalDigits(n);
      DecimalLength(n, 4);
    }
  }

  lemma FourDigitsInjective(a: nat, b: nat)
    requires FourDigits(a) == FourDigits(b)
    ensures a == b
  {
    FourDigitsFacts(a);
    FourDigitsFacts(b);
    if a <= 9999 {
      PadInjective(a, b, 4);
    } else {
      DecimalInjective(a, b);
    }
  }

  function Abs(n: int): nat {
    if n < 0 then -n else n
  }

  lemma YearTextInjective(a: int, b: int)
    requires YearText(a) == YearText(b)
    ensures a == b
  {
    FourDigitsFacts(Abs(a));
    FourDigitsFacts(Abs(b));
    assert YearText(a)[0] == YearText(b)[0];
    if 0 <= a <= 9999 {
      FourDigitsInjective(a, b);
    } else {
      assert YearText(a)[1..] == FourDigits(Abs(a)) && YearText(b)[1..] == FourDigits(Abs(b));
      FourDigitsInjective(Abs(a), Abs(b));
    }
  }

  lemma DateTextInjective(a: Instant, b: Instant)
    requires a.month < 100 && a.day < 100 && b.month < 100 && b.day < 100
    requires DateText(a) == DateText(b)
    ensures a.month == b.month && a.day == b.day
  {
    assert Pad(a.month, 2) == DateText(a)[1..3] == DateText(b)[1..3] == Pad(b.month, 2);
    assert Pad(a.day, 2) == DateText(a)[4..6] == DateText(b)[4..6] == Pad(b.day, 2);
    PadInjective(a.month, b.month, 2);
    PadInjective(a.day, b.day, 2);
  }

  /** The second as shown, 60 within a leap second. */
  function ShownSecond(t: Instant): nat {
    if t.nanos >= 1_000_000_000 then t.second + 1 else t.second
  }

  function ShownMillis(t: Instant): nat {
    t.nanos % 1_000_000_000 / 1_000_000
  }

  lemma ClockFields(t: Instant)
    ensures ClockText(t)[1..3] == Pad(t.hour, 2) && ClockText(t)[4..6] == Pad(t.minute, 2)
    ensures ClockText(t)[7..9] == Pad(ShownSecond(t), 2) && ClockText(t)[10..13] == Pad(ShownMillis(t), 3)
  {
  }

  lemma ClockTextInjective(a: Instant, b: Instant)
    requires ValidInstant(a) && ValidInstant(b) && ClockText(a) == ClockText(b)
    ensures a.hour == b.hour && a.minute == b.minute
    ensures ShownSecond(a) == ShownSecond(b) && ShownMillis(a) == ShownMillis(b)
  {
    ClockFields(a);
    ClockFields(b);
    PadInjective(a.hour, b.hour, 2);
    PadInjective(a.minute, b.minute, 2);
    PadInjective(ShownSecond(a), ShownSecond(b), 2);
    PadInjective(ShownMillis(a), ShownMillis(b), 3);
  }

  /** Second and millisecond as shown are those of the instant. */
  lemma ShownExactly(a: Instant, b: Instant)
    requires ValidInstant(a) && ValidInstant(b)
    ensures ShownSecond(a) == ShownSecond(b) && ShownMillis(a) == ShownMillis(b)
      <==> a.second == b.second && a.nanos / 1_000_000 == b.nanos / 1_000_000
  {
    MillisSplit(a);
    MillisSplit(b);
  }

  lemma MillisSplit(t: Instant)
    requires t.nanos < 2_000_000_000
    ensures t.nanos / 1_000_000 == ShownMillis(t) + (if t.nanos >= 1_000_000_000 then 1000 else 0)
    ensures ShownMillis(t) < 1000
  {
  }

  /** Two instants are written alike exactly when they agree to the millisecond. */
  lemma Rfc3339Exactly(a: Instant, b: Instant)
    requires ValidInstant(a) && ValidInstant(b)
    ensures Rfc3339(a) == Rfc3339(b) <==> ToMillis(a) == ToMillis(b)
  {
    ShownExactly(a, b);
    if Rfc3339(a) == Rfc3339(b) {
      Rfc3339Parts(a, b);
      YearTextInjective(a.year, b.year);
      DateTextInjective(a, b);
      ClockTextInjective(a, b);
    }
    if ToMillis(a) == ToMillis(b) {
      SameMillis(a, b);
    }
  }

  lemma SameMillis(a: Instant, b: Instant)
    requires ToMillis(a) == ToMillis(b)
    ensures a.nanos / 1_000_000 == b.nanos / 1_000_000
  {
    assert ToMillis(a).nanos == ToMillis(b).nanos;
  }

  lemma Rfc3339Parts(a: Instant, b: Instant)
    requires Rfc3339(a) == Rfc3339(b)
    ensures YearText(a.year) == YearText(b.year) && DateText(a) == DateText(b) && ClockText(a) == ClockText(b)
  {
    var s := Rfc3339(a);
    var n := |s|;
    assert n >= 20;
    assert s[n - 14..] == ClockText(a) && s[n - 14..] == ClockText(b);
    assert s[n - 20..n - 14] == DateText(a) && s[n - 20..n - 14] == DateText(b);
    assert s[..n - 20] == YearText(a.year) && s[..n - 20] == YearText(b.year);
  }

  lemma Rfc3339HasNoAt(t: Instant)
    ensures '@' !in Rfc3339(t)
  {
    FourDigitsFacts(Abs(t.year));
    assert '@' !in YearText(t.year);
    PadDigits(t.month, 2);
    PadDigits(t.day, 2);
    assert '@' !in DateText(t);
    PadDigits(t.hour, 2);
    PadDigits(t.minute, 2);
    PadDigits(ShownSecond(t), 2);
    PadDigits(ShownMillis(t), 3);
    assert '@' !in ClockText(t);
  }

  // ----------------------------------------------------------------- incarnations

  predicate ValidRuntime(r: Runtime) {
    r.createdAt.Some? ==> ValidInstant(r.createdAt.value)
  }

  /** Same handle, and either no creation instant or the same one to the millisecond. */
  predicate SameRuntime(a: Runtime, b: Runtime) {
    && Handle(a) == Handle(b)
    && (a.createdAt.Some? <==> b.createdAt.Some?)
    && (a.createdAt.Some? ==> ToMillis(a.createdAt.value) == ToMillis(b.createdAt.value))
  }

  /** A runtime without a creation instant whose handle is that of the other with its instant after it. */
  predicate Mimics(bare: Runtime, dated: Runtime) {
    && bare.createdAt.None? && dated.createdAt.Some?
    && Handle(bare) == Handle(dated) + "@" + Rfc3339(dated.createdAt.value)
  }

  predicate Indistinct(a: Runtime, b: Runtime) {
    SameRuntime(a, b) || Mimics(a, b) || Mimics(b, a)
  }

  /** Incarnations tell runtimes apart exactly, whatever the handles hold and for every year, save for a bare
      handle written like a dated one. */
  lemma IncarnationExactly(a: Runtime, b: Runtime)
    requires ValidRuntime(a) && ValidRuntime(b)
    ensures Incarnation(a) == Incarnation(b) <==> Indistinct(a, b)
  {
    if a.createdAt.Some? && b.createdAt.Some? {
      DatedExactly(a, b);
    }
  }

  lemma DatedExactly(a: Runtime, b: Runtime)
    requires ValidRuntime(a) && ValidRuntime(b) && a.createdAt.Some? && b.createdAt.Some?
    ensures Incarnation(a) == Incarnation(b) <==> SameRuntime(a, b)
  {
    var x, y := a.createdAt.value, b.createdAt.value;
    Rfc3339Exactly(x, y);
    if Incarnation(a) == Incarnation(b) {
      Rfc3339HasNoAt(x);
      Rfc3339HasNoAt(y);
      LastMarkCuts(Handle(a), Rfc3339(x), Handle(b), Rfc3339(y), '@');
    }
  }

  /** No other runtime has the incarnation of this one. */
  ghost predicate Unmistakable(a: Runtime) {
    forall b :: ValidRuntime(b) && Incarnation(a) == Incarnation(b) ==> SameRuntime(a, b)
  }

  /** A handle with an instant written after it. */
  ghost predicate EndsInInstant(s: string) {
    exists h, t :: ValidInstant(t) && s == h + "@" + Rfc3339(t)
  }

  /** Without a creation instant a runtime can be mistaken for one that has it exactly when its handle ends in
      an instant written as the key writes it. */
  lemma BareExactly(a: Runtime)
    requires a.createdAt.None?
    ensures Unmistakable(a) <==> !EndsInInstant(Handle(a))
  {
    if EndsInInstant(Handle(a)) {
      var h, t :| ValidInstant(t) && Handle(a) == h + "@" + Rfc3339(t);
      var b := Runtime(Some(h), Some(t), None);
      assert ValidRuntime(b) && Incarnation(a) == Incarnation(b) && !SameRuntime(a, b);
    } else {
      forall b | ValidRuntime(b) && Incarnation(a) == Incarnation(b) ensures SameRuntime(a, b) {
        IncarnationExactly(a, b);
      }
    }
  }

  /** Two runtimes the key does not tell apart. */
  lemma MistakenExample(t: Instant)
    requires ValidInstant(t)
    ensures Incarnation(Runtime(Some("pod@" + Rfc3339(t)), None, None)) == Incarnation(Runtime(Some("pod"), Some(t), None))
  {
  }

  /** The keys of two events that pass validation agree exactly when action, backend and session do and so do
      handle and creation instant, save for a bare handle written like a dated one. */
  lemma KeysTellEventsApart(a: Event, b: Event, aBytes: nat, bBytes: nat)
    requires ValidateSession(a.session, aBytes).None? && ValidateSession(b.session, bBytes).None?
    requires ValidRuntime(a.runtime) && ValidRuntime(b.runtime)
    ensures Key(a.action, a.backend, a.session, a.runtime) == Key(b.action, b.backend, b.session, b.runtime)
      <==> SameEffect(a, b) && Indistinct(a.runtime, b.runtime)
  {
    KeyExactly(a, b, aBytes, bBytes);
    IncarnationExactly(a.runtime, b.runtime);
  }

  // -------------------------------------------------------------- what is written, literally

  /** The backend's own id is the handle wherever there is one; the hint stands in for it, and a fixed word for
      both. */
  lemma HandleExactly(r: Runtime)
    ensures r.runtimeId.Some? ==> Handle(r) == r.runtimeId.value
    ensures r.runtimeId.None? && r.hint.Some? ==> Handle(r) == r.hint.value
    ensures r.runtimeId.None? && r.hint.None? ==> Handle(r) == "pending"
  {
  }

  /** Two runtimes with ids, created at the same instant or at unknown ones, share an incarnation exactly when
      their ids agree, whatever the hints hold. */
  lemma IdsDecide(a: Runtime, b: Runtime)
    requires ValidRuntime(a) && ValidRuntime(b) && a.runtimeId.Some? && b.runtimeId.Some? && a.createdAt == b.createdAt
    ensures Incarnation(a) == Incarnation(b) <==> a.runtimeId == b.runtimeId
  {
    IncarnationExactly(a, b);
  }

  lemma {:induction false} PadReadsBack(n: nat, width: nat)
    requires n < Pow10(width)
    ensures ValueOf(Pad(n, width)) == n
  {
    if width > 0 {
      PadReadsBack(n / 10, width - 1);
      assert Pad(n, width)[..width - 1] == Pad(n / 10, width - 1);
    }
  }

  lemma TwoDigits(n: nat)
    requires n < 100
    ensures ValueOf(Pad(n, 2)) == n
  {
    PadReadsBack(n, 2);
  }

  lemma DateLayout(t: Instant)
    requires ValidInstant(t)
    ensures var s := DateText(t);
      s[0] == '-' && ValueOf(s[1..3]) == t.month && s[3] == '-' && ValueOf(s[4..6]) == t.day
  {
    TwoDigits(t.month);
    TwoDigits(t.day);
    assert DateText(t)[1..3] == Pad(t.month, 2) && DateText(t)[4..6] == Pad(t.day, 2);
  }

  lemma ClockMarks(t: Instant)
    ensures var s := ClockText(t); s[0] == 'T' && s[3] == ':' && s[6] == ':' && s[9] == '.' && s[13] == 'Z'
  {
  }

  lemma ShownValues(t: Instant)
    requires ValidInstant(t)
    ensures ShownSecond(t) == (if t.nanos < 1_000_000_000 then t.second else 60) && ShownSecond(t) < 100
    ensures ShownMillis(t) == (if t.nanos < 1_000_000_000 then t.nanos else t.nanos - 1_000_000_000) / 1_000_000
    ensures ShownMillis(t) < 1000
  {
  }

  lemma ThreeDigits(n: nat)
    requires n < 1000
    ensures ValueOf(Pad(n, 3)) == n
  {
    PadReadsBack(n, 3);
  }

  lemma ClockLayout(t: Instant)
    requires ValidInstant(t)
    ensures var s := ClockText(t);
      && s[0] == 'T' && s[3] == ':' && s[6] == ':' && s[9] == '.' && s[13] == 'Z'
      && ValueOf(s[1..3]) == t.hour && ValueOf(s[4..6]) == t.minute
      && ValueOf(s[7..9]) == (if t.nanos < 1_000_000_000 then t.second else 60)
      && ValueOf(s[10..13]) == (if t.nanos < 1_000_000_000 then t.nanos else t.nanos - 1_000_000_000) / 1_000_000
  {
    ClockMarks(t);
    ClockFields(t);
    ShownValues(t);
    TwoDigits(t.hour);
    TwoDigits(t.minute);
    TwoDigits(ShownSecond(t));
    ThreeDigits(ShownMillis(t));
  }

  /** Within four-digit years an instant is written year-month-dayThour:minute:second.milliseconds, each with its
      full number of digits, and a Z. */
  lemma Rfc3339Layout(t: Instant)
    requires ValidInstant(t) && 0 <= t.year <= 9999
    ensures |Rfc3339(t)| == 24
    ensures ValueOf(Rfc3339(t)[..4]) == t.year && Rfc3339(t)[4..10] == DateText(t) && Rfc3339(t)[10..] == ClockText(t)
  {
    PadReadsBack(t.year, 4);
    assert Rfc3339(t)[..4] == Pad(t.year, 4);
  }

  /** A key, in full. */
  lemma KeyExample()
    ensures Key(Created, Kubernetes, "s1", Runtime(Some("pod"), None, Some("hash"))) == "1|created|kubernetes|s1|pod"
  {
    assert Decimal(1) == "1";
  }

  /** What validation says of a session id: the first of these complaints that applies, or none. */
  lemma SessionExactly(s: string, bytes: nat)
    ensures var ends := s != [] && LowerAlnum(s[0]) && LowerAlnum(s[|s| - 1]);
      var plain := forall i :: 0 <= i < |s| ==> 'a' <= s[i] <= 'z' || '0' <= s[i] <= '9' || s[i] == '-';
      && (ValidateSession(s, bytes) == Some(Empty) <==> s == [])
      && (ValidateSession(s, bytes) == Some(TooLong) <==> s != [] && bytes > 128)
      && (ValidateSession(s, bytes) == Some(BadEnds) <==> s != [] && bytes <= 128 && !ends)
      && (ValidateSession(s, bytes) == Some(BadCharacter) <==> bytes <= 128 && ends && !plain)
      && (ValidateSession(s, bytes) == None <==> bytes <= 128 && ends && plain)
  {
  }

  // --------------------------------------------------------------------- what builders set

  /** The latest builder of a kind. */
  function LatestBuilder(bs: seq<Builder>, kind: Builder -> bool): (r: Option<Builder>)
    ensures r.Some? ==> kind(r.value)
  {
    if bs == [] then None
    else if kind(bs[|bs| - 1]) then Some(bs[|bs| - 1])
    else LatestBuilder(bs[..|bs| - 1], kind)
  }

  predicate SetsAttribution(b: Builder) { b.WithAttribution? }
  predicate SetsCorrelation(b: Builder) { b.WithCorrelation? }
  predicate SetsReason(b: Builder) { b.WithReason? }
  predicate SetsInstant(b: Builder) { b.At? }

  /** Each of the other fields is what the latest builder for it said, or what it was. */
  lemma {:induction false} BuildersSetFields(v5: string -> Uuid, e: Event, bs: seq<Builder>)
    ensures var r := BuildAll(v5, e, bs);
      && r.attribution == (match LatestBuilder(bs, SetsAttribution) case Some(b) => b.attribution case None => e.attribution)
      && r.correlation == (match LatestBuilder(bs, SetsCorrelation) case Some(b) => b.correlation case None => e.correlation)
      && r.reason == (match LatestBuilder(bs, SetsReason) case Some(b) => Some(b.reason) case None => e.reason)
      && r.occurredAt == (match LatestBuilder(bs, SetsInstant) case Some(b) => b.instant case None => e.occurredAt)
  {
    if bs != [] {
      BuildersSetFields(v5, e, bs[..|bs| - 1]);
    }
  }
}
