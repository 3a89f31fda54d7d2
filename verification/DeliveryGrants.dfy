/**
 The cross-repository delivery policy (`DeliveryGrantPolicy`): parsing, lookup, and the value the
 launcher hands to a session's driver, which parses it again.
 */
module DeliveryGrants {
  import opened Wrappers
  import opened Text
  import opened Sorting

  const MAX_GRANTS := 128
  const MAX_POLICY_BYTES := 65_536

  datatype Grant = Grant(lifecycleRepo: string, issue: nat, implementationRepo: string, branch: string)

  /** The library calls whose insides do not matter: JSON both ways, the length of a text in bytes, and the
      branch-name rules. */
  datatype Library = Library(
    decode: string -> Option<seq<Grant>>,
    encode: seq<Grant> -> string,
    bytes: string -> nat,
    branchOk: string -> bool)

  datatype Field = LifecycleRepo | ImplementationRepo

  datatype PolicyError =
    | TooLarge
    | NotGrants
    | TooMany
    | BadRepo(index: nat, field: Field)
    | ZeroIssue(index: nat)
    | BadBranch(index: nat)
    | SameRepo(index: nat)
    | Duplicate(index: nat)
    | EmptySession
    | ForeignGrant(repo: string)

  // ------------------------------------------------------------- repository names

  predicate SegmentChar(c: char) {
    'a' <= c <= 'z' || 'A' <= c <= 'Z' || '0' <= c <= '9' || c == '_' || c == '.' || c == '-'
  }

  predicate Segment(s: string) {
    s != [] && forall i :: 0 <= i < |s| ==> SegmentChar(s[i])
  }

  /** The text cut at every slash. */
  function Segments(s: string): (r: seq<string>)
    ensures r != []
  {
    if s == [] then [[]]
    else
      var rest := Segments(s[1..]);
      if s[0] == '/' then [[]] + rest else [[s[0]] + rest[0]] + rest[1..]
  }

  function NormalizedRepo(value: string): Option<string> {
    var segments := Segments(Trim(value));
    var owner := segments[0];
    var repo := if |segments| > 1 then segments[1] else [];
    if |segments| > 2 || !Segment(owner) || !Segment(repo) then None else Some(owner + "/" + repo)
  }

  /** Exactly one slash, between two segments. */
  predicate IsRepo(s: string) {
    exists cut :: 0 <= cut < |s| && s[cut] == '/' && Segment(s[..cut]) && Segment(s[cut + 1..])
  }

  lemma {:induction false} SegmentsOfPlain(s: string)
    requires forall i :: 0 <= i < |s| ==> s[i] != '/'
    ensures Segments(s) == [s]
  {
    if s != [] {
      SegmentsOfPlain(s[1..]);
      assert [s[0]] + s[1..] == s;
    }
  }

  lemma {:induction false} SegmentsOfPair(owner: string, rest: string)
    requires forall i :: 0 <= i < |owner| ==> owner[i] != '/'
    ensures Segments(owner + "/" + rest) == [owner] + Segments(rest)
  {
    var s := owner + "/" + rest;
    if owner == [] {
      assert s[1..] == rest;
    } else {
      assert s[1..] == owner[1..] + "/" + rest;
      SegmentsOfPair(owner[1..], rest);
      assert [owner[0]] + owner[1..] == owner;
    }
  }

  lemma RestPrepended(s: string)
    requires s != []
    ensures s == [s[0]] + s[1..]
  {
  }

  /** Joining the segments again restores the text. */
  lemma {:induction false} SegmentsRejoin(s: string)
    ensures |Segments(s)| == 1 ==> s == Segments(s)[0]
    ensures |Segments(s)| == 2 ==> s == Segments(s)[0] + "/" + Segments(s)[1]
  {
    if s != [] {
      SegmentsRejoin(s[1..]);
      RestPrepended(s);
    }
  }

  lemma PairIsRepo(owner: string, repo: string)
    requires Segment(owner) && Segment(repo)
    ensures IsRepo(owner + "/" + repo)
  {
    var s := owner + "/" + repo;
    var cut := |owner|;
    assert s[cut] == '/' && s[..cut] == owner && s[cut + 1..] == repo;
  }

  lemma RepoSegments(s: string)
    requires IsRepo(s)
    ensures |Segments(s)| == 2 && Segment(Segments(s)[0]) && Segment(Segments(s)[1])
  {
    var cut :| 0 <= cut < |s| && s[cut] == '/' && Segment(s[..cut]) && Segment(s[cut + 1..]);
    assert s == s[..cut] + "/" + s[cut + 1..];
    SegmentsOfPair(s[..cut], s[cut + 1..]);
    SegmentsOfPlain(s[cut + 1..]);
  }

  /** A name is accepted exactly when it is a repository apart from blanks around it, and then only the
      blanks go. */
  lemma NormalizedExactly(value: string)
    ensures NormalizedRepo(value) == if IsRepo(Trim(value)) then Some(Trim(value)) else None
  {
    var s := Trim(value);
    SegmentsRejoin(s);
    if IsRepo(s) {
      RepoSegments(s);
    } else if NormalizedRepo(value).Some? {
      PairIsRepo(Segments(s)[0], Segments(s)[1]);
    }
  }

  /** Whether a text is a repository does not depend on the case of its letters. */
  lemma RepoIgnoresCase(a: string, b: string)
    requires Lower(a) == Lower(b) && IsRepo(a)
    ensures IsRepo(b)
  {
    LowerAt(a);
    LowerAt(b);
    var cut :| 0 <= cut < |a| && a[cut] == '/' && Segment(a[..cut]) && Segment(a[cut + 1..]);
    forall i | 0 <= i < |b| && i != cut ensures SegmentChar(b[i]) {
      assert LowerChar(a[i]) == LowerChar(b[i]);
      assert SegmentChar(a[i]) by {
        if i < cut { assert a[..cut][i] == a[i]; } else { assert a[cut + 1..][i - cut - 1] == a[i]; }
      }
    }
    assert LowerChar(b[cut]) == LowerChar(a[cut]);
    assert Segment(b[..cut]) && Segment(b[cut + 1..]);
  }

  lemma RepoIsTidy(s: string)
    requires IsRepo(s)
    ensures Trim(s) == s
  {
    var cut :| 0 <= cut < |s| && s[cut] == '/' && Segment(s[..cut]) && Segment(s[cut + 1..]);
    assert s[..cut][0] == s[0] && s[cut + 1..][|s| - cut - 2] == s[|s| - 1];
    TrimIdentity(s, UnicodeSpace);
  }

  // ----------------------------------------------------------------------- parsing

  /** The key under which a lifecycle issue may occur once. */
  function Key(g: Grant): string {
    Lower(g.lifecycleRepo) + "#" + Decimal(g.issue)
  }

  function Checked(lib: Library, g: Grant, index: nat, seen: set<string>): Result<Grant, PolicyError> {
    var lifecycle := NormalizedRepo(g.lifecycleRepo);
    if lifecycle.None? then Err(BadRepo(index, LifecycleRepo))
    else
      var implementation := NormalizedRepo(g.implementationRepo);
      if implementation.None? then Err(BadRepo(index, ImplementationRepo))
      else
        var r := Grant(lifecycle.value, g.issue, implementation.value, Trim(g.branch));
        if r.issue == 0 then Err(ZeroIssue(index))
        else if !lib.branchOk(r.branch) then Err(BadBranch(index))
        else if Lower(r.lifecycleRepo) == Lower(r.implementationRepo) then Err(SameRepo(index))
        else if Key(r) in seen then Err(Duplicate(index))
        else Ok(r)
  }

  /** The first error in order, or every grant normalised; `index` counts the grants before these. */
  function CheckedAll(lib: Library, gs: seq<Grant>, index: nat, seen: set<string>): Result<seq<Grant>, PolicyError> {
    if gs == [] then Ok([])
    else
      var first := Checked(lib, gs[0], index, seen);
      if first.Err? then Err(first.error)
      else Then([first.value], CheckedAll(lib, gs[1..], index + 1, seen + {Key(first.value)}))
  }

  function Then(done: seq<Grant>, rest: Result<seq<Grant>, PolicyError>): Result<seq<Grant>, PolicyError> {
    if rest.Err? then rest else Ok(done + rest.value)
  }

  predicate GrantLe(a: Grant, b: Grant) {
    var x, y := Lower(a.lifecycleRepo), Lower(b.lifecycleRepo);
    if x == y then a.issue <= b.issue else LexLe(x, y)
  }

  function Parsed(lib: Library, raw0: string): Result<seq<Grant>, PolicyError> {
    var raw := Trim(raw0);
    if raw == [] then Ok([])
    else if lib.bytes(raw) > MAX_POLICY_BYTES then Err(TooLarge)
    else if lib.decode(raw).None? then Err(NotGrants)
    else if |lib.decode(raw).value| > MAX_GRANTS then Err(TooMany)
    else
      var checked := CheckedAll(lib, lib.decode(raw).value, 0, {});
      if checked.Err? then checked else Ok(Sort(checked.value, GrantLe))
  }

  lemma ThenThen(a: seq<Grant>, b: seq<Grant>, rest: Result<seq<Grant>, PolicyError>)
    ensures Then(a, Then(b, rest)) == Then(a + b, rest)
  {
    if rest.Ok? {
      assert a + (b + rest.value) == a + b + rest.value;
    }
  }

  /** One turn of the loop. */
  lemma CheckedStep(lib: Library, gs: seq<Grant>, index: nat, done: seq<Grant>, seen: set<string>)
    requires index < |gs|
    ensures var first := Checked(lib, gs[index], index, seen);
      Then(done, CheckedAll(lib, gs[index..], index, seen))
      == if first.Err? then Err(first.error)
         else Then(done + [first.value], CheckedAll(lib, gs[index + 1..], index + 1, seen + {Key(first.value)}))
  {
    var first := Checked(lib, gs[index], index, seen);
    assert gs[index..][1..] == gs[index + 1..];
    if first.Ok? {
      ThenThen(done, [first.value], CheckedAll(lib, gs[index + 1..], index + 1, seen + {Key(first.value)}));
    }
  }

  lemma ThenNothing(r: Result<seq<Grant>, PolicyError>)
    ensures Then([], r) == r
  {
    if r.Ok? {
      assert [] + r.value == r.value;
    }
  }

  /** Where the loop stands: the grants before `index` are normalised, the others as decoded. */
  ghost predicate Progress(lib: Library, decoded: seq<Grant>, grants: seq<Grant>, index: nat, seen: set<string>) {
    && index <= |grants| == |decoded|
    && grants[index..] == decoded[index..]
    && Then(grants[..index], CheckedAll(lib, decoded[index..], index, seen)) == CheckedAll(lib, decoded, 0, {})
  }

  lemma ProgressStart(lib: Library, decoded: seq<Grant>)
    ensures Progress(lib, decoded, decoded, 0, {})
  {
    assert decoded[0..] == decoded;
    ThenNothing(CheckedAll(lib, decoded, 0, {}));
  }

  lemma ProgressStep(lib: Library, decoded: seq<Grant>, grants: seq<Grant>, index: nat, seen: set<string>, g: Grant)
    requires Progress(lib, decoded, grants, index, seen) && index < |grants|
    requires Checked(lib, grants[index], index, seen) == Ok(g)
    ensures Progress(lib, decoded, grants[index := g], index + 1, seen + {Key(g)})
  {
    assert grants[index] == grants[index..][0] == decoded[index];
    CheckedStep(lib, decoded, index, grants[..index], seen);
    assert grants[index := g][..index + 1] == grants[..index] + [g];
    assert grants[index := g][index + 1..] == grants[index..][1..] == decoded[index..][1..] == decoded[index + 1..];
  }

  lemma ProgressError(lib: Library, decoded: seq<Grant>, grants: seq<Grant>, index: nat, seen: set<string>)
    requires Progress(lib, decoded, grants, index, seen) && index < |grants|
    requires Checked(lib, grants[index], index, seen).Err?
    ensures CheckedAll(lib, decoded, 0, {}) == Err(Checked(lib, grants[index], index, seen).error)
  {
    assert grants[index] == grants[index..][0] == decoded[index];
    CheckedStep(lib, decoded, index, grants[..index], seen);
  }

  /** The loop over the decoded grants: each is replaced by its normalised form. */
  method CheckGrants(lib: Library, decoded: seq<Grant>) returns (r: Result<seq<Grant>, PolicyError>)
    ensures r == CheckedAll(lib, decoded, 0, {})
  {
    var grants := decoded;
    var seen: set<string>, index := {}, 0;
    ProgressStart(lib, decoded);
    while index < |grants|
      invariant Progress(lib, decoded, grants, index, seen)
    {
      var checked := Checked(lib, grants[index], index, seen);
      if checked.Err? {
        ProgressError(lib, decoded, grants, index, seen);
        return Err(checked.error);
      }
      ProgressStep(lib, decoded, grants, index, seen, checked.value);
      seen := seen + {Key(checked.value)};
      grants := grants[index := checked.value];
      index := index + 1;
    }
    assert grants[..index] + [] == grants;
    return Ok(grants);
  }

  method Parse(lib: Library, raw0: string) returns (r: Result<seq<Grant>, PolicyError>)
    ensures r == Parsed(lib, raw0)
  {
    var raw := Trim(raw0);
    if raw == [] { return Ok([]); }
    if lib.bytes(raw) > MAX_POLICY_BYTES { return Err(TooLarge); }
    var decoded := lib.decode(raw);
    if decoded.None? { return Err(NotGrants); }
    if |decoded.value| > MAX_GRANTS { return Err(TooMany); }
    r := CheckGrants(lib, decoded.value);
    if r.Ok? {
      r := Ok(Sort(r.value, GrantLe));
    }
  }

  // ----------------------------------------------------------- what is accepted

  /** A grant in order by itself, once the blanks around its names are gone. */
  predicate Admissible(lib: Library, g: Grant) {
    && IsRepo(g.lifecycleRepo) && IsRepo(g.implementationRepo) && Trim(g.branch) == g.branch
    && g.issue >= 1 && lib.branchOk(g.branch) && Lower(g.lifecycleRepo) != Lower(g.implementationRepo)
  }

  function Cleaned(g: Grant): Grant {
    Grant(Trim(g.lifecycleRepo), g.issue, Trim(g.implementationRepo), Trim(g.branch))
  }

  function CleanedAll(gs: seq<Grant>): (r: seq<Grant>)
    ensures |r| == |gs| && forall i :: 0 <= i < |gs| ==> r[i] == Cleaned(gs[i])
  {
    if gs == [] then [] else [Cleaned(gs[0])] + CleanedAll(gs[1..])
  }

  /** Two grants for one lifecycle issue: same repository up to case, same number. */
  predicate SameIssue(a: Grant, b: Grant) {
    Lower(a.lifecycleRepo) == Lower(b.lifecycleRepo) && a.issue == b.issue
  }

  /** A policy: grants in order by themselves, no lifecycle issue twice. */
  predicate Policy(lib: Library, gs: seq<Grant>) {
    && (forall i :: 0 <= i < |gs| ==> Admissible(lib, gs[i]))
    && (forall i, j :: 0 <= i < j < |gs| ==> !SameIssue(gs[i], gs[j]))
  }

  lemma CheckedExactly(lib: Library, g: Grant, index: nat, seen: set<string>)
    ensures Checked(lib, g, index, seen).Ok? <==> Admissible(lib, Cleaned(g)) && Key(Cleaned(g)) !in seen
    ensures Checked(lib, g, index, seen).Ok? ==> Checked(lib, g, index, seen).value == Cleaned(g)
  {
    NormalizedExactly(g.lifecycleRepo);
    NormalizedExactly(g.implementationRepo);
    TrimIdempotent(g.branch);
  }

  /** The keys tell lifecycle issues apart: a repository holds no `#`. */
  lemma KeyIsIssue(a: Grant, b: Grant)
    requires IsRepo(a.lifecycleRepo) && IsRepo(b.lifecycleRepo)
    ensures Key(a) == Key(b) <==> SameIssue(a, b)
  {
    if Key(a) == Key(b) {
      RepoHasNoHash(a.lifecycleRepo);
      RepoHasNoHash(b.lifecycleRepo);
      MarkCuts(Lower(a.lifecycleRepo), Decimal(a.issue), Lower(b.lifecycleRepo), Decimal(b.issue), '#');
      DecimalInjective(a.issue, b.issue);
    }
  }

  lemma RepoHasNoHash(s: string)
    requires IsRepo(s)
    ensures '#' !in Lower(s)
  {
    LowerAt(s);
    var cut :| 0 <= cut < |s| && s[cut] == '/' && Segment(s[..cut]) && Segment(s[cut + 1..]);
    forall i | 0 <= i < |s| ensures s[i] != '#' {
      if i < cut { assert s[..cut][i] == s[i]; }
      if i > cut { assert s[cut + 1..][i - cut - 1] == s[i]; }
    }
  }

  /** None of the grants has a key in `seen`, and none a key of another. */
  predicate FreshKeys(gs: seq<Grant>, seen: set<string>) {
    (forall i :: 0 <= i < |gs| ==> Key(gs[i]) !in seen)
    && (forall i, j :: 0 <= i < j < |gs| ==> Key(gs[i]) != Key(gs[j]))
  }

  predicate AllAdmissible(lib: Library, gs: seq<Grant>) {
    forall i :: 0 <= i < |gs| ==> Admissible(lib, gs[i])
  }

  lemma FreshKeysSplit(g: Grant, gs: seq<Grant>, seen: set<string>)
    ensures FreshKeys([g] + gs, seen) <==> Key(g) !in seen && FreshKeys(gs, seen + {Key(g)})
  {
    var all := [g] + gs;
    if FreshKeys(all, seen) {
      assert Key(all[0]) !in seen;
      forall i | 0 <= i < |gs| ensures Key(gs[i]) !in seen + {Key(g)} {
        assert all[i + 1] == gs[i] && Key(all[0]) != Key(all[i + 1]);
      }
      forall i, j | 0 <= i < j < |gs| ensures Key(gs[i]) != Key(gs[j]) {
        assert all[i + 1] == gs[i] && all[j + 1] == gs[j];
      }
    }
  }

  lemma AllAdmissibleSplit(lib: Library, g: Grant, gs: seq<Grant>)
    ensures AllAdmissible(lib, [g] + gs) <==> Admissible(lib, g) && AllAdmissible(lib, gs)
  {
    var all := [g] + gs;
    if AllAdmissible(lib, all) {
      assert all[0] == g;
      forall i | 0 <= i < |gs| ensures Admissible(lib, gs[i]) {
        assert all[i + 1] == gs[i];
      }
    }
  }

  lemma {:induction false} CheckedAllExactly(lib: Library, gs: seq<Grant>, index: nat, seen: set<string>)
    ensures CheckedAll(lib, gs, index, seen).Ok?
      <==> AllAdmissible(lib, CleanedAll(gs)) && FreshKeys(CleanedAll(gs), seen)
    ensures CheckedAll(lib, gs, index, seen).Ok? ==> CheckedAll(lib, gs, index, seen).value == CleanedAll(gs)
    decreases |gs|
  {
    if gs != [] {
      var g := Cleaned(gs[0]);
      CheckedExactly(lib, gs[0], index, seen);
      CheckedAllExactly(lib, gs[1..], index + 1, seen + {Key(g)});
      FreshKeysSplit(g, CleanedAll(gs[1..]), seen);
      AllAdmissibleSplit(lib, g, CleanedAll(gs[1..]));
    }
  }

  lemma FreshIsPolicy(lib: Library, gs: seq<Grant>)
    ensures AllAdmissible(lib, gs) && FreshKeys(gs, {}) <==> Policy(lib, gs)
  {
    if AllAdmissible(lib, gs) {
      forall i, j | 0 <= i < j < |gs| ensures Key(gs[i]) == Key(gs[j]) <==> SameIssue(gs[i], gs[j]) {
        KeyIsIssue(gs[i], gs[j]);
      }
    }
  }

  /** A text within the size limits that decodes is accepted exactly when its grants, cleaned, form a policy;
      what comes out is that policy in order. */
  lemma ParseExactly(lib: Library, raw: string)
    requires Trim(raw) != [] && lib.bytes(Trim(raw)) <= MAX_POLICY_BYTES
    requires lib.decode(Trim(raw)).Some? && |lib.decode(Trim(raw)).value| <= MAX_GRANTS
    ensures Parsed(lib, raw).Ok? <==> Policy(lib, CleanedAll(lib.decode(Trim(raw)).value))
    ensures Parsed(lib, raw).Ok? ==> Parsed(lib, raw).value == Sort(CleanedAll(lib.decode(Trim(raw)).value), GrantLe)
  {
    var gs := lib.decode(Trim(raw)).value;
    CheckedAllExactly(lib, gs, 0, {});
    FreshIsPolicy(lib, CleanedAll(gs));
  }

  // -------------------------------------------------------------- order and policy

  lemma GrantLeTotal()
    ensures Total(GrantLe)
  {
    forall a, b ensures GrantLe(a, b) || GrantLe(b, a) {
      LexTotal(Lower(a.lifecycleRepo), Lower(b.lifecycleRepo));
    }
    forall a, b, c | GrantLe(a, b) && GrantLe(b, c) ensures GrantLe(a, c) {
      GrantLeTransitive(a, b, c);
    }
  }

  lemma GrantLeTransitive(a: Grant, b: Grant, c: Grant)
    requires GrantLe(a, b) && GrantLe(b, c)
    ensures GrantLe(a, c)
  {
    var x, y, z := Lower(a.lifecycleRepo), Lower(b.lifecycleRepo), Lower(c.lifecycleRepo);
    if x != y && y != z {
      LexTransitive(x, y, z);
      if x == z {
        LexAntisymmetric(x, y);
      }
    }
  }

  /** A rearranged policy is a policy. */
  lemma PolicyPermutes(lib: Library, a: seq<Grant>, b: seq<Grant>)
    requires Policy(lib, a) && multiset(a) == multiset(b)
    ensures Policy(lib, b)
  {
    forall i | 0 <= i < |b| ensures Admissible(lib, b[i]) {
      assert b[i] in multiset(b);
      assert b[i] in a;
    }
    forall i, j | 0 <= i < j < |b| ensures !SameIssue(b[i], b[j]) {
      PairSurvives(a, b, i, j);
    }
  }

  /** What parsing accepts is a policy, in order, of no more than 128 grants: the decoded ones, cleaned. */
  lemma ParsedIsPolicy(lib: Library, raw: string)
    requires Parsed(lib, raw).Ok?
    ensures Policy(lib, Parsed(lib, raw).value) && SortedBy(Parsed(lib, raw).value, GrantLe)
    ensures |Parsed(lib, raw).value| <= MAX_GRANTS
    ensures Trim(raw) != [] ==> multiset(Parsed(lib, raw).value) == multiset(CleanedAll(lib.decode(Trim(raw)).value))
  {
    if Trim(raw) != [] {
      var gs := CleanedAll(lib.decode(Trim(raw)).value);
      ParseExactly(lib, raw);
      GrantLeTotal();
      SortSorts(gs, GrantLe);
      PolicyPermutes(lib, gs, Sort(gs, GrantLe));
    }
  }

  /** Ascending: by repository without regard to case, character by character, then by issue number. */
  ghost predicate Before(a: Grant, b: Grant) {
    var x, y := Lower(a.lifecycleRepo), Lower(b.lifecycleRepo);
    if x == y then a.issue < b.issue else exists k: nat :: FirstDifference(x, y, k)
  }

  lemma ParsedInOrder(lib: Library, raw: string, i: nat, j: nat)
    requires Parsed(lib, raw).Ok? && i < j < |Parsed(lib, raw).value|
    ensures Before(Parsed(lib, raw).value[i], Parsed(lib, raw).value[j])
  {
    var policy := Parsed(lib, raw).value;
    ParsedIsPolicy(lib, raw);
    assert GrantLe(policy[i], policy[j]) && !SameIssue(policy[i], policy[j]);
    LexExactly(Lower(policy[i].lifecycleRepo), Lower(policy[j].lifecycleRepo));
  }

  // ------------------------------------------------------------------------ refusals

  /** A blank text is the empty policy; otherwise the limits and the decoding come first, in this order. */
  lemma ParseRefusals(lib: Library, raw: string)
    ensures var text := Trim(raw);
      && (text == [] ==> Parsed(lib, raw) == Ok([]))
      && (text != [] && lib.bytes(text) > 65_536 ==> Parsed(lib, raw) == Err(TooLarge))
      && (text != [] && lib.bytes(text) <= 65_536 && lib.decode(text).None? ==> Parsed(lib, raw) == Err(NotGrants))
      && (text != [] && lib.bytes(text) <= 65_536 && lib.decode(text).Some? && |lib.decode(text).value| > 128 ==>
            Parsed(lib, raw) == Err(TooMany))
  {
  }

  /** What is wrong with one grant, the first of these that is. */
  lemma CheckedErrors(lib: Library, g: Grant, index: nat, seen: set<string>)
    ensures var c := Cleaned(g);
      var reposOk := IsRepo(c.lifecycleRepo) && IsRepo(c.implementationRepo);
      var fieldsOk := reposOk && c.issue != 0 && lib.branchOk(c.branch);
      var error := Checked(lib, g, index, seen);
      && (error == Err(BadRepo(index, LifecycleRepo)) <==> !IsRepo(c.lifecycleRepo))
      && (error == Err(BadRepo(index, ImplementationRepo)) <==> IsRepo(c.lifecycleRepo) && !IsRepo(c.implementationRepo))
      && (error == Err(ZeroIssue(index)) <==> reposOk && c.issue == 0)
      && (error == Err(BadBranch(index)) <==> reposOk && c.issue != 0 && !lib.branchOk(c.branch))
      && (error == Err(SameRepo(index)) <==> fieldsOk && SameLetters(c.lifecycleRepo, c.implementationRepo))
      && (error == Err(Duplicate(index)) <==>
            fieldsOk && !SameLetters(c.lifecycleRepo, c.implementationRepo) && Key(c) in seen)
  {
    NormalizedExactly(g.lifecycleRepo);
    NormalizedExactly(g.implementationRepo);
    LowerExactly(Trim(g.lifecycleRepo), Trim(g.implementationRepo));
  }

  /** The keys of grants already checked. */
  function KeysOf(gs: seq<Grant>): set<string> {
    set i | 0 <= i < |gs| :: Key(Cleaned(gs[i]))
  }

  /** Grant `i` has error `e`, and the grants before it are in order. */
  predicate IsFirstError(lib: Library, gs: seq<Grant>, index: nat, seen: set<string>, i: nat, e: PolicyError) {
    && i < |gs| && CheckedAll(lib, gs[..i], index, seen).Ok?
    && Checked(lib, gs[i], index + i, seen + KeysOf(gs[..i])) == Err(e)
  }

  lemma PrefixCons(lib: Library, gs: seq<Grant>, index: nat, seen: set<string>, j: nat, key: string)
    requires j < |gs| && Checked(lib, gs[0], index, seen).Ok? && key == Key(Checked(lib, gs[0], index, seen).value)
    requires CheckedAll(lib, gs[1..][..j], index + 1, seen + {key}).Ok?
    ensures CheckedAll(lib, gs[..j + 1], index, seen).Ok?
  {
    assert gs[..j + 1][1..] == gs[1..][..j] && gs[..j + 1][0] == gs[0];
  }

  lemma KeysShift(gs: seq<Grant>, seen: set<string>, j: nat)
    requires j < |gs|
    ensures seen + {Key(Cleaned(gs[0]))} + KeysOf(gs[1..][..j]) == seen + KeysOf(gs[..j + 1])
  {
    KeysCons(gs, j + 1);
  }

  lemma LaterError(lib: Library, gs: seq<Grant>, index: nat, seen: set<string>, j: nat, e: PolicyError)
    requires gs != [] && Checked(lib, gs[0], index, seen) == Ok(Cleaned(gs[0]))
    requires IsFirstError(lib, gs[1..], index + 1, seen + {Key(Cleaned(gs[0]))}, j, e)
    ensures IsFirstError(lib, gs, index, seen, j + 1, e)
  {
    PrefixCons(lib, gs, index, seen, j, Key(Cleaned(gs[0])));
    KeysShift(gs, seen, j);
  }

  /** The error reported is that of the first grant that has one, the others before it being in order. */
  lemma {:induction false} FirstError(lib: Library, gs: seq<Grant>, index: nat, seen: set<string>) returns (i: nat)
    requires CheckedAll(lib, gs, index, seen).Err?
    ensures IsFirstError(lib, gs, index, seen, i, CheckedAll(lib, gs, index, seen).error)
    decreases |gs|
  {
    var first := Checked(lib, gs[0], index, seen);
    if first.Err? {
      i := 0;
      assert seen + KeysOf(gs[..0]) == seen;
    } else {
      CheckedExactly(lib, gs[0], index, seen);
      var j := FirstError(lib, gs[1..], index + 1, seen + {Key(first.value)});
      LaterError(lib, gs, index, seen, j, CheckedAll(lib, gs, index, seen).error);
      i := j + 1;
    }
  }

  lemma KeysCons(gs: seq<Grant>, i: nat)
    requires 0 < i <= |gs|
    ensures KeysOf(gs[..i]) == {Key(Cleaned(gs[0]))} + KeysOf(gs[1..][..i - 1])
  {
    var a, b := gs[..i], gs[1..][..i - 1];
    forall k | k in KeysOf(a) ensures k in {Key(Cleaned(gs[0]))} + KeysOf(b) {
      var n :| 0 <= n < |a| && Key(Cleaned(a[n])) == k;
      if n > 0 { assert b[n - 1] == a[n]; }
    }
    forall k | k in KeysOf(b) ensures k in KeysOf(a) {
      var n :| 0 <= n < |b| && Key(Cleaned(b[n])) == k;
      assert a[n + 1] == b[n];
    }
    assert a[0] == gs[0] && Key(Cleaned(a[0])) in KeysOf(a);
  }

  // ----------------------------------------------------------------------- lookup

  predicate Serves(g: Grant, repo: string) {
    Lower(g.lifecycleRepo) == Lower(repo)
  }

  function ForRepo(policy: seq<Grant>, repo: string): seq<Grant> {
    if policy == [] then []
    else if Serves(policy[0], repo) then [policy[0]] + ForRepo(policy[1..], repo)
    else ForRepo(policy[1..], repo)
  }

  function Find(policy: seq<Grant>, repo: string, issue: nat): Option<Grant> {
    if policy == [] then None
    else if policy[0].issue == issue && Serves(policy[0], repo) then Some(policy[0])
    else Find(policy[1..], repo, issue)
  }

  lemma PolicyTail(lib: Library, policy: seq<Grant>)
    requires Policy(lib, policy) && policy != []
    ensures Policy(lib, policy[1..]) && Admissible(lib, policy[0])
    ensures forall g :: g in policy[1..] ==> !SameIssue(policy[0], g)
  {
  }

  /** The lookup returns the one matching grant, if there is one, and looking only among the repository's
      grants finds the same. */
  lemma {:induction false} FindIsUnique(lib: Library, policy: seq<Grant>, repo: string, issue: nat, g: Grant)
    requires Policy(lib, policy)
    ensures Find(policy, repo, issue) == Some(g) <==> g in policy && g.issue == issue && Serves(g, repo)
    ensures Find(policy, repo, issue) == Find(ForRepo(policy, repo), repo, issue)
  {
    if policy != [] {
      PolicyTail(lib, policy);
      FindIsUnique(lib, policy[1..], repo, issue, g);
      assert policy == [policy[0]] + policy[1..];
      if Serves(policy[0], repo) {
        assert ([policy[0]] + ForRepo(policy[1..], repo))[1..] == ForRepo(policy[1..], repo);
      }
    }
  }

  lemma {:induction false} ForRepoMembers(policy: seq<Grant>, repo: string, g: Grant)
    ensures g in ForRepo(policy, repo) <==> g in policy && Serves(g, repo)
    ensures |ForRepo(policy, repo)| <= |policy|
  {
    if policy != [] {
      ForRepoMembers(policy[1..], repo, g);
      assert policy == [policy[0]] + policy[1..];
    }
  }

  lemma PolicyCons(lib: Library, g: Grant, rest: seq<Grant>)
    requires Admissible(lib, g) && Policy(lib, rest) && forall h :: h in rest ==> !SameIssue(g, h)
    ensures Policy(lib, [g] + rest)
  {
  }

  lemma SortedCons(g: Grant, rest: seq<Grant>)
    requires SortedBy(rest, GrantLe) && forall h :: h in rest ==> GrantLe(g, h)
    ensures SortedBy([g] + rest, GrantLe)
  {
  }

  /** The grants of one repository are a policy, in the order they had. */
  lemma {:induction false} ForRepoIsPolicy(lib: Library, policy: seq<Grant>, repo: string)
    requires Policy(lib, policy) && SortedBy(policy, GrantLe)
    ensures Policy(lib, ForRepo(policy, repo)) && SortedBy(ForRepo(policy, repo), GrantLe)
  {
    if policy != [] {
      var g, rest := policy[0], ForRepo(policy[1..], repo);
      PolicyTail(lib, policy);
      ForRepoIsPolicy(lib, policy[1..], repo);
      forall h | h in rest ensures !SameIssue(g, h) && GrantLe(g, h) {
        ForRepoMembers(policy[1..], repo, h);
      }
      PolicyCons(lib, g, rest);
      SortedCons(g, rest);
    }
  }

  lemma ForRepoServes(policy: seq<Grant>, repo: string)
    ensures forall i :: 0 <= i < |ForRepo(policy, repo)| ==> Serves(ForRepo(policy, repo)[i], repo)
  {
    forall i | 0 <= i < |ForRepo(policy, repo)| ensures Serves(ForRepo(policy, repo)[i], repo) {
      ForRepoMembers(policy, repo, ForRepo(policy, repo)[i]);
    }
  }

  // -------------------------------------------------------- launcher and driver

  function SessionJson(lib: Library, policy: seq<Grant>, repo: string): Option<string> {
    var grants := ForRepo(policy, repo);
    if grants == [] then None else Some(lib.encode(grants))
  }

  /** The first grant that is not for `repo`. */
  function Foreign(grants: seq<Grant>, repo: string): Option<Grant> {
    if grants == [] then None
    else if !Serves(grants[0], repo) then Some(grants[0])
    else Foreign(grants[1..], repo)
  }

  function ParsedSession(lib: Library, raw: Option<string>, repo0: string): Result<seq<Grant>, PolicyError> {
    if raw.None? then Ok([])
    else if Trim(raw.value) == [] then Err(EmptySession)
    else
      var repo := NormalizedRepo(repo0);
      if repo.None? then Err(BadRepo(0, LifecycleRepo))
      else
        var policy := Parsed(lib, raw.value);
        if policy.Err? then policy
        else
          var foreign := Foreign(policy.value, repo.value);
          if foreign.Some? then Err(ForeignGrant(foreign.value.lifecycleRepo)) else policy
  }

  lemma {:induction false} ForeignExactly(grants: seq<Grant>, repo: string)
    ensures Foreign(grants, repo).None? <==> forall i :: 0 <= i < |grants| ==> Serves(grants[i], repo)
  {
    if grants != [] {
      ForeignExactly(grants[1..], repo);
      if !Foreign(grants, repo).None? && Serves(grants[0], repo) {
        var i :| 0 <= i < |grants[1..]| && !Serves(grants[1..][i], repo);
        assert !Serves(grants[i + 1], repo);
      }
    }
  }

  /** What the driver makes of a session value: nothing without one, and otherwise a refusal for each reason in
      this order, or the policy. */
  lemma SessionOutcome(lib: Library, raw: Option<string>, repo: string)
    ensures raw.None? ==> ParsedSession(lib, raw, repo) == Ok([])
    ensures raw.Some? && Trim(raw.value) == [] ==> ParsedSession(lib, raw, repo) == Err(EmptySession)
    ensures raw.Some? && Trim(raw.value) != [] && !IsRepo(Trim(repo)) ==>
      ParsedSession(lib, raw, repo) == Err(BadRepo(0, LifecycleRepo))
    ensures raw.Some? && Trim(raw.value) != [] && IsRepo(Trim(repo)) && Parsed(lib, raw.value).Err? ==>
      ParsedSession(lib, raw, repo) == Parsed(lib, raw.value)
    ensures raw.Some? && Trim(raw.value) != [] && IsRepo(Trim(repo)) && Parsed(lib, raw.value).Ok? ==>
      if forall i :: 0 <= i < |Parsed(lib, raw.value).value| ==>
           SameLetters(Parsed(lib, raw.value).value[i].lifecycleRepo, Trim(repo))
      then ParsedSession(lib, raw, repo) == Parsed(lib, raw.value)
      else ParsedSession(lib, raw, repo).Err? && ParsedSession(lib, raw, repo).error.ForeignGrant?
  {
    NormalizedExactly(repo);
    if raw.Some? && Parsed(lib, raw.value).Ok? {
      var policy := Parsed(lib, raw.value).value;
      ForeignExactly(policy, Trim(repo));
      forall i | 0 <= i < |policy| ensures Serves(policy[i], Trim(repo)) <==> SameLetters(policy[i].lifecycleRepo, Trim(repo)) {
        LowerExactly(policy[i].lifecycleRepo, Trim(repo));
      }
    }
  }

  /** The driver accepts only grants of its own repository. */
  lemma SessionIsScoped(lib: Library, raw: Option<string>, repo: string)
    requires ParsedSession(lib, raw, repo).Ok?
    ensures forall i :: 0 <= i < |ParsedSession(lib, raw, repo).value| ==>
      Serves(ParsedSession(lib, raw, repo).value[i], Trim(repo))
  {
    if raw.Some? {
      NormalizedExactly(repo);
      ForeignExactly(Parsed(lib, raw.value).value, Trim(repo));
    }
  }

  /** JSON both ways: encoding begins and ends with brackets and decodes to what was encoded. */
  ghost predicate Inverse(lib: Library) {
    forall gs :: lib.decode(lib.encode(gs)) == Some(gs) && lib.encode(gs) != [] && Tidy(lib.encode(gs), UnicodeSpace)
  }

  lemma {:induction false} CleanedKeeps(lib: Library, gs: seq<Grant>)
    requires Policy(lib, gs)
    ensures CleanedAll(gs) == gs
  {
    forall i | 0 <= i < |gs| ensures Cleaned(gs[i]) == gs[i] {
      RepoIsTidy(gs[i].lifecycleRepo);
      RepoIsTidy(gs[i].implementationRepo);
    }
  }

  /** An ordered policy, encoded, parses to itself. */
  lemma EncodedParses(lib: Library, gs: seq<Grant>)
    requires Inverse(lib) && Policy(lib, gs) && SortedBy(gs, GrantLe) && |gs| <= MAX_GRANTS
    ensures Parsed(lib, lib.encode(gs)) == if lib.bytes(lib.encode(gs)) <= MAX_POLICY_BYTES then Ok(gs) else Err(TooLarge)
  {
    var raw := lib.encode(gs);
    assert lib.decode(raw) == Some(gs);
    TrimIdentity(raw, UnicodeSpace);
    if lib.bytes(raw) <= MAX_POLICY_BYTES {
      ParseExactly(lib, raw);
      CleanedKeeps(lib, gs);
      SortKeeps(gs, GrantLe);
    }
  }

  /** What the launcher sends for a repository, the driver reads back as exactly that repository's grants in
      the same order, provided the encoded text keeps within the size limit; beyond it the driver refuses. */
  lemma SessionRoundTrip(lib: Library, raw: string, repo: string)
    requires Inverse(lib) && Parsed(lib, raw).Ok?
    ensures var policy := Parsed(lib, raw).value;
      var json := SessionJson(lib, policy, repo);
      ParsedSession(lib, json, repo)
      == if json.Some? && lib.bytes(json.value) > MAX_POLICY_BYTES then Err(TooLarge) else Ok(ForRepo(policy, repo))
  {
    var policy := Parsed(lib, raw).value;
    var grants := ForRepo(policy, repo);
    ParsedIsPolicy(lib, raw);
    if grants != [] {
      ForRepoIsPolicy(lib, policy, repo);
      ForRepoMembers(policy, repo, grants[0]);
      ForRepoServes(policy, repo);
      assert Admissible(lib, grants[0]) && Serves(grants[0], repo);
      RepoIgnoresCase(grants[0].lifecycleRepo, repo);
      RepoIsTidy(repo);
      NormalizedExactly(repo);
      EncodedParses(lib, grants);
      TrimIdentity(lib.encode(grants), UnicodeSpace);
      ForeignExactly(grants, repo);
    }
  }

  // --------------------------------------------------------- a value that grows too large

  /** A grant as encoding writes it, with the names of its fields; no text in it needs escaping. */
  function NamedText(g: Grant): string {
    "{\"lifecycle_repo\":\"" + g.lifecycleRepo + "\",\"lifecycle_issue\":" + Decimal(g.issue)
      + ",\"implementation_repo\":\"" + g.implementationRepo + "\",\"implementation_branch\":\"" + g.branch + "\"}"
  }

  /** A grant as a list of its four values, which decoding accepts as well. */
  function PositionalText(g: Grant): string {
    "[\"" + g.lifecycleRepo + "\"," + Decimal(g.issue)
      + ",\"" + g.implementationRepo + "\",\"" + g.branch + "\"]"
  }

  /** Text that JSON writes as it is, one byte for each character. */
  predicate Plain(s: string) {
    forall i :: 0 <= i < |s| ==> SegmentChar(s[i]) || s[i] == '/'
  }

  predicate PlainGrant(g: Grant) {
    Plain(g.lifecycleRepo) && Plain(g.implementationRepo) && Plain(g.branch)
  }

  /** What the JSON library does with one grant whose texts are plain. */
  ghost predicate Json(lib: Library) {
    forall g :: PlainGrant(g) ==>
      && lib.encode([g]) == "[" + NamedText(g) + "]"
      && lib.bytes(lib.encode([g])) == |NamedText(g)| + 2
      && lib.decode("[" + PositionalText(g) + "]") == Some([g])
      && lib.bytes("[" + PositionalText(g) + "]") == |PositionalText(g)| + 2
  }

  /** The names of the fields take 81 bytes more. */
  lemma NamesCost(g: Grant)
    ensures |NamedText(g)| == |PositionalText(g)| + 81
  {
  }

  function Repeat(c: char, n: nat): (s: string)
    ensures |s| == n && forall i :: 0 <= i < n ==> s[i] == c
  {
    if n == 0 then [] else [c] + Repeat(c, n - 1)
  }

  /** A grant whose implementation repository has a name of `n` characters. */
  function LongGrant(n: nat): Grant {
    Grant("o/r", 1, "a/" + Repeat('b', n), "main")
  }

  lemma LongGrantNames(n: nat)
    requires n > 0
    ensures IsRepo(LongGrant(n).lifecycleRepo) && IsRepo(LongGrant(n).implementationRepo)
  {
    ShortNameOk();
    LongNameOk(Repeat('b', n));
  }

  lemma ShortNameOk()
    ensures IsRepo("o/r")
  {
    var s := "o/r";
    assert s[1] == '/' && s[..1] == "o" && s[2..] == "r";
  }

  lemma LongNameOk(name: string)
    requires Segment(name)
    ensures IsRepo("a/" + name)
  {
    var s := "a/" + name;
    assert s[1] == '/' && s[..1] == "a" && s[2..] == name;
  }

  lemma LongGrantPlain(n: nat)
    ensures PlainGrant(LongGrant(n))
  {
  }

  lemma LongGrantDiffers(n: nat)
    ensures Lower(LongGrant(n).lifecycleRepo) != Lower(LongGrant(n).implementationRepo)
  {
    LowerAt(LongGrant(n).lifecycleRepo);
    LowerAt(LongGrant(n).implementationRepo);
    assert Lower(LongGrant(n).lifecycleRepo)[0] == 'o' && Lower(LongGrant(n).implementationRepo)[0] == 'a';
  }

  lemma LongGrantOk(lib: Library, n: nat)
    requires n > 0 && lib.branchOk("main")
    ensures Policy(lib, [LongGrant(n)]) && CleanedAll([LongGrant(n)]) == [LongGrant(n)]
  {
    LongGrantNames(n);
    LongGrantDiffers(n);
    TrimIdentity("main", UnicodeSpace);
    CleanedKeeps(lib, [LongGrant(n)]);
  }

  lemma LongGrantLength(n: nat)
    ensures |PositionalText(LongGrant(n))| == n + 21
  {
    assert Decimal(1) == "1";
  }

  /** A policy within the limit whose session value is beyond it: the driver refuses what the launcher sends. */
  lemma SessionValueTooLarge(lib: Library)
    requires Inverse(lib) && Json(lib) && lib.branchOk("main")
    ensures var g := LongGrant(MAX_POLICY_BYTES - 23);
      var raw := "[" + PositionalText(g) + "]";
      && lib.bytes(raw) == MAX_POLICY_BYTES && Parsed(lib, raw) == Ok([g])
      && ParsedSession(lib, SessionJson(lib, [g], "o/r"), "o/r") == Err(TooLarge)
  {
    var g := LongGrant(MAX_POLICY_BYTES - 23);
    LongPolicyParses(lib, g);
    assert Serves(g, "o/r");
    assert ForRepo([g], "o/r") == [g];
    NamesCost(g);
    SessionRoundTrip(lib, "[" + PositionalText(g) + "]", "o/r");
  }

  lemma LongPolicyParses(lib: Library, g: Grant)
    requires Json(lib) && lib.branchOk("main") && g == LongGrant(MAX_POLICY_BYTES - 23)
    ensures var raw := "[" + PositionalText(g) + "]";
      lib.bytes(raw) == MAX_POLICY_BYTES && Parsed(lib, raw) == Ok([g]) && PlainGrant(g)
  {
    var raw := "[" + PositionalText(g) + "]";
    LongGrantPlain(MAX_POLICY_BYTES - 23);
    LongGrantOk(lib, MAX_POLICY_BYTES - 23);
    LongGrantLength(MAX_POLICY_BYTES - 23);
    assert raw[0] == '[' && raw[|raw| - 1] == ']';
    TrimIdentity(raw, UnicodeSpace);
    ParseExactly(lib, raw);
    SortKeeps([g], GrantLe);
  }

  // ------------------------------------------------------ implementation repositories

  predicate FoldLe(a: string, b: string) {
    LexLe(Lower(a), Lower(b))
  }

  /** Ascending without regard to case. */
  ghost predicate FoldBefore(a: string, b: string) {
    exists k: nat :: FirstDifference(Lower(a), Lower(b), k)
  }

  /** The first spelling of each implementation repository not yet seen. */
  function FirstSpellings(grants: seq<Grant>, seen: set<string>): seq<string> {
    if grants == [] then []
    else
      var repo := grants[0].implementationRepo;
      if Lower(repo) in seen then FirstSpellings(grants[1..], seen)
      else [repo] + FirstSpellings(grants[1..], seen + {Lower(repo)})
  }

  method ImplementationReposFor(policy: seq<Grant>, repo: string) returns (repos: seq<string>)
    ensures repos == Sort(FirstSpellings(ForRepo(policy, repo), {}), FoldLe)
  {
    var grants := ForRepo(policy, repo);
    var seen: set<string>, i := {}, 0;
    repos := [];
    while i < |grants|
      invariant i <= |grants|
      invariant repos + FirstSpellings(grants[i..], seen) == FirstSpellings(grants, {})
    {
      var folded := Lower(grants[i].implementationRepo);
      assert grants[i..][1..] == grants[i + 1..];
      if folded !in seen {
        seen := seen + {folded};
        repos := repos + [grants[i].implementationRepo];
      }
      i := i + 1;
    }
    assert repos + [] == repos;
    repos := Sort(repos, FoldLe);
  }

  lemma FoldLeTotal()
    ensures Total(FoldLe)
  {
    forall a, b ensures FoldLe(a, b) || FoldLe(b, a) {
      LexTotal(Lower(a), Lower(b));
    }
    forall a, b, c | FoldLe(a, b) && FoldLe(b, c) ensures FoldLe(a, c) {
      LexTransitive(Lower(a), Lower(b), Lower(c));
    }
  }

  /** No repository twice, in whatever case, and none already seen. */
  predicate Distinct(repos: seq<string>, seen: set<string>) {
    && (forall i :: 0 <= i < |repos| ==> Lower(repos[i]) !in seen)
    && (forall i, j :: 0 <= i < j < |repos| ==> Lower(repos[i]) != Lower(repos[j]))
  }

  /** `repo` is how the first grant for it spells it. */
  predicate SpelledAt(repo: string, grants: seq<Grant>, i: nat) {
    && i < |grants| && grants[i].implementationRepo == repo
    && forall j :: 0 <= j < i ==> Lower(grants[j].implementationRepo) != Lower(repo)
  }

  predicate Spelled(repo: string, grants: seq<Grant>) {
    exists i: nat :: i < |grants| && SpelledAt(repo, grants, i)
  }

  predicate Listed(folded: string, repos: seq<string>) {
    exists i :: 0 <= i < |repos| && Lower(repos[i]) == folded
  }

  lemma {:induction false} SpellingsDistinct(grants: seq<Grant>, seen: set<string>)
    ensures Distinct(FirstSpellings(grants, seen), seen)
  {
    if grants != [] {
      var folded := Lower(grants[0].implementationRepo);
      SpellingsDistinct(grants[1..], seen + {folded});
      SpellingsDistinct(grants[1..], seen);
    }
  }

  lemma {:induction false} SpellingsSpelled(grants: seq<Grant>, seen: set<string>, repo: string)
    requires repo in FirstSpellings(grants, seen)
    ensures Spelled(repo, grants) && Lower(repo) !in seen
  {
    var first, rest := grants[0].implementationRepo, grants[1..];
    if Lower(first) in seen || repo in FirstSpellings(rest, seen + {Lower(first)}) {
      SpellingsSpelled(rest, if Lower(first) in seen then seen else seen + {Lower(first)}, repo);
      var i: nat :| i < |rest| && SpelledAt(repo, rest, i);
      LaterSpelling(repo, grants, i);
    } else {
      assert SpelledAt(repo, grants, 0);
    }
  }

  lemma LaterSpelling(repo: string, grants: seq<Grant>, i: nat)
    requires grants != [] && SpelledAt(repo, grants[1..], i) && Lower(grants[0].implementationRepo) != Lower(repo)
    ensures SpelledAt(repo, grants, i + 1)
  {
    forall j | 0 <= j < i + 1 ensures Lower(grants[j].implementationRepo) != Lower(repo) {
      if j > 0 { assert grants[j] == grants[1..][j - 1]; }
    }
  }

  lemma {:induction false} SpellingsListed(grants: seq<Grant>, seen: set<string>, g: Grant)
    requires g in grants && Lower(g.implementationRepo) !in seen
    ensures Listed(Lower(g.implementationRepo), FirstSpellings(grants, seen))
  {
    var first := grants[0].implementationRepo;
    var repos := FirstSpellings(grants, seen);
    if Lower(first) == Lower(g.implementationRepo) {
      assert repos[0] == first;
    } else {
      var k := if Lower(first) in seen then 0 else 1;
      SpellingsListed(grants[1..], if Lower(first) in seen then seen else seen + {Lower(first)}, g);
      var rest := repos[k..];
      var i :| 0 <= i < |rest| && Lower(rest[i]) == Lower(g.implementationRepo);
      assert Lower(repos[i + k]) == Lower(g.implementationRepo);
    }
  }

  lemma DistinctPermutes(a: seq<string>, b: seq<string>)
    requires Distinct(a, {}) && multiset(a) == multiset(b)
    ensures Distinct(b, {})
  {
    forall i, j | 0 <= i < j < |b| ensures Lower(b[i]) != Lower(b[j]) {
      PairSurvives(a, b, i, j);
    }
  }

  /** The list is ordered, names no repository twice in whatever case, and names all and only the
      implementation repositories of the session's grants, each as some grant spells it. */
  lemma ImplementationReposExact(repos: seq<string>, policy: seq<Grant>, repo: string)
    requires repos == Sort(FirstSpellings(ForRepo(policy, repo), {}), FoldLe)
    ensures SortedBy(repos, FoldLe) && Distinct(repos, {})
    ensures forall i, j :: 0 <= i < j < |repos| ==> FoldBefore(repos[i], repos[j])
    ensures forall r :: r in repos ==> Spelled(r, ForRepo(policy, repo))
    ensures forall g :: g in policy && Serves(g, repo) ==> Listed(Lower(g.implementationRepo), repos)
  {
    var grants := ForRepo(policy, repo);
    var spellings := FirstSpellings(grants, {});
    FoldLeTotal();
    SortSorts(spellings, FoldLe);
    SpellingsDistinct(grants, {});
    DistinctPermutes(spellings, repos);
    forall i, j | 0 <= i < j < |repos| ensures FoldBefore(repos[i], repos[j]) {
      LexExactly(Lower(repos[i]), Lower(repos[j]));
    }
    forall r | r in repos ensures Spelled(r, grants) {
      assert r in multiset(repos);
      SpellingsSpelled(grants, {}, r);
    }
    forall g | g in policy && Serves(g, repo) ensures Listed(Lower(g.implementationRepo), repos) {
      ForRepoMembers(policy, repo, g);
      SpellingsListed(grants, {}, g);
      var i :| 0 <= i < |spellings| && Lower(spellings[i]) == Lower(g.implementationRepo);
      assert spellings[i] in multiset(repos);
      var k :| 0 <= k < |repos| && repos[k] == spellings[i];
    }
  }
}
