/**
 Service routing publication: the patch plan (`routing_plan`) and the loop that applies it
 (`LeaderServiceRouter::reconcile`).
 */
module Routing {
  import opened Wrappers

  datatype Pod = Pod(name: Option<string>, serving: Option<string>)

  datatype RoutingError = PodNotFound | Forbidden | Api | Transport | InvalidResponse

  datatype Patch = Patch(pod: string, selected: bool)

  predicate Selected(pod: Pod) {
    pod.serving == Some("true")
  }

  /** The other selected pods, as patches that clear them. */
  function Stale(pods: seq<Pod>, own: string): seq<Patch> {
    if pods == [] then []
    else
      var before, pod := Stale(pods[..|pods| - 1], own), pods[|pods| - 1];
      if pod.name.Some? && pod.name.value != own && Selected(pod) then before + [Patch(pod.name.value, false)]
      else before
  }

  /** Whether this process's own pod is listed and selected. */
  function OwnState(pods: seq<Pod>, own: string): Option<bool> {
    if pods == [] then None
    else
      var pod := pods[|pods| - 1];
      if pod.name == Some(own) then Some(Selected(pod)) else OwnState(pods[..|pods| - 1], own)
  }

  function Plan(pods: seq<Pod>, own: string, publish: bool): Result<seq<Patch>, RoutingError> {
    match OwnState(pods, own)
    case None => if publish then Err(PodNotFound) else Ok([])
    case Some(selected) =>
      if publish then Ok(Stale(pods, own) + if selected then [] else [Patch(own, true)])
      else Ok(if selected then [Patch(own, false)] else [])
  }

  method RoutingPlan(pods: seq<Pod>, ownName: string, publish: bool) returns (r: Result<seq<Patch>, RoutingError>)
    ensures r == Plan(pods, ownName, publish)
  {
    var own: Option<bool> := None;
    var stale: seq<Patch> := [];
    for i := 0 to |pods|
      invariant own == OwnState(pods[..i], ownName)
      invariant stale == if publish then Stale(pods[..i], ownName) else []
    {
      assert pods[..i + 1][..i] == pods[..i];
      if pods[i].name.None? {
        continue;
      }
      var selected := Selected(pods[i]);
      if pods[i].name.value == ownName {
        own := Some(selected);
      } else if publish && selected {
        stale := stale + [Patch(pods[i].name.value, false)];
      }
    }
    assert pods[..|pods|] == pods;
    if publish && own.None? {
      return Err(PodNotFound);
    } else if publish {
      if !own.value {
        stale := stale + [Patch(ownName, true)];
      }
      assert stale + [] == stale;
      return Ok(stale);
    } else if own == Some(true) {
      return Ok([Patch(ownName, false)]);
    } else {
      return Ok([]);
    }
  }

  // ---------------------------------------------------------------- applying patches

  function Value(selected: bool): string {
    if selected then "true" else "false"
  }

  function Patched(pods: seq<Pod>, patch: Patch): (r: seq<Pod>)
    ensures |r| == |pods|
    ensures forall i :: 0 <= i < |pods| ==>
      r[i] == if pods[i].name == Some(patch.pod) then pods[i].(serving := Some(Value(patch.selected))) else pods[i]
  {
    seq(|pods|, i requires 0 <= i < |pods| =>
      if pods[i].name == Some(patch.pod) then pods[i].(serving := Some(Value(patch.selected))) else pods[i])
  }

  function PatchedAll(pods: seq<Pod>, plan: seq<Patch>): (r: seq<Pod>)
    ensures |r| == |pods|
    ensures forall i :: 0 <= i < |pods| ==> r[i].name == pods[i].name
  {
    if plan == [] then pods else Patched(PatchedAll(pods, plan[..|plan| - 1]), plan[|plan| - 1])
  }

  /** The API server's pods. */
  class PodApi {
    var pods: seq<Pod>

    constructor (initial: seq<Pod>)
      ensures pods == initial
    {
      pods := initial;
    }

    method PatchLabel(patch: Patch)
      modifies this
      ensures pods == Patched(old(pods), patch)
    {
      pods := Patched(pods, patch);
    }
  }

  /** How the API answers a patch: an answer that fails, or that does not show the label asked for
      (`InvalidResponse`), may come before or after the patch was applied. */
  datatype Reply = Confirmed | Failed(error: RoutingError, applied: bool)

  /** The first of `n` patches, from `i` on, that is not confirmed. */
  function FirstFailure(replies: nat -> Reply, n: nat, i: nat): (k: nat)
    requires i <= n
    ensures i <= k <= n && (k < n ==> replies(k).Failed?) && forall m :: i <= m < k ==> replies(m).Confirmed?
    decreases n - i
  {
    if i == n || replies(i).Failed? then i else FirstFailure(replies, n, i + 1)
  }

  /** Lists, plans and patches one by one, up to the first failure: of the list (`listing`), of the plan, or of
      a patch (`replies`). */
  method Reconcile(api: PodApi, own: string, publish: bool, listing: Option<RoutingError>, replies: nat -> Reply)
      returns (r: Result<(), RoutingError>)
    modifies api
    ensures listing.Some? ==> r == Err(listing.value) && api.pods == old(api.pods)
    ensures listing.None? && Plan(old(api.pods), own, publish).Err? ==>
      r == Err(Plan(old(api.pods), own, publish).error) && api.pods == old(api.pods)
    ensures listing.None? && Plan(old(api.pods), own, publish).Ok? ==>
      var plan := Plan(old(api.pods), own, publish).value;
      var k := FirstFailure(replies, |plan|, 0);
      && (k == |plan| ==> r == Ok(()) && api.pods == PatchedAll(old(api.pods), plan))
      && (k < |plan| ==>
            && r == Err(replies(k).error)
            && api.pods == PatchedAll(old(api.pods), plan[..if replies(k).applied then k + 1 else k]))
  {
    if listing.Some? { return Err(listing.value); }
    var planned := RoutingPlan(api.pods, own, publish);
    if planned.Err? { return Err(planned.error); }
    var plan := planned.value;
    for i := 0 to |plan|
      invariant FirstFailure(replies, |plan|, i) == FirstFailure(replies, |plan|, 0)
      invariant api.pods == PatchedAll(old(api.pods), plan[..i])
    {
      assert plan[..i + 1][..i] == plan[..i];
      match replies(i) {
        case Confirmed =>
          api.PatchLabel(plan[i]);
        case Failed(error, applied) =>
          if applied {
            api.PatchLabel(plan[i]);
          }
          return Err(error);
      }
    }
    assert plan[..|plan|] == plan;
    return Ok(());
  }

  // ------------------------------------------------------------------- properties

  /** The API server lists pods under distinct names. */
  predicate Listing(pods: seq<Pod>) {
    && (forall i :: 0 <= i < |pods| ==> pods[i].name.Some?)
    && (forall i, j :: 0 <= i < j < |pods| ==> pods[i].name != pods[j].name)
  }

  function Count(pods: seq<Pod>): nat {
    if pods == [] then 0 else Count(pods[..|pods| - 1]) + (if Selected(pods[|pods| - 1]) then 1 else 0)
  }

  /** Some pod of that name is listed. */
  predicate Listed(pods: seq<Pod>, name: string) {
    exists i :: 0 <= i < |pods| && pods[i].name == Some(name)
  }

  predicate OnlyOwnSelected(pods: seq<Pod>, own: string) {
    forall i :: 0 <= i < |pods| && Selected(pods[i]) ==> pods[i].name == Some(own)
  }

  /** `pod` is listed, and selected. */
  predicate ListedSelected(pods: seq<Pod>, pod: string) {
    exists i :: 0 <= i < |pods| && pods[i].name == Some(pod) && Selected(pods[i])
  }

  /** The clearing patches name exactly the other selected pods. */
  lemma {:induction false} StaleExactly(pods: seq<Pod>, own: string, patch: Patch)
    ensures patch in Stale(pods, own) <==> !patch.selected && patch.pod != own && ListedSelected(pods, patch.pod)
  {
    if pods != [] {
      var init, last := pods[..|pods| - 1], pods[|pods| - 1];
      StaleExactly(init, own, patch);
      if ListedSelected(init, patch.pod) {
        var i :| 0 <= i < |init| && init[i].name == Some(patch.pod) && Selected(init[i]);
        assert pods[i] == init[i];
      }
      if last.name == Some(patch.pod) && Selected(last) {
        assert pods[|pods| - 1] == last;
      } else if ListedSelected(pods, patch.pod) {
        var i :| 0 <= i < |pods| && pods[i].name == Some(patch.pod) && Selected(pods[i]);
        assert init[i] == pods[i];
      }
    }
  }

  lemma StaleNames(pods: seq<Pod>, own: string)
    ensures forall k :: 0 <= k < |Stale(pods, own)| ==>
      !Stale(pods, own)[k].selected && Stale(pods, own)[k].pod != own
    ensures forall i :: 0 <= i < |pods| && pods[i].name.Some? && pods[i].name.value != own && Selected(pods[i]) ==>
      Patch(pods[i].name.value, false) in Stale(pods, own)
  {
    forall k | 0 <= k < |Stale(pods, own)|
      ensures !Stale(pods, own)[k].selected && Stale(pods, own)[k].pod != own
    {
      StaleExactly(pods, own, Stale(pods, own)[k]);
    }
    forall i | 0 <= i < |pods| && pods[i].name.Some? && pods[i].name.value != own && Selected(pods[i])
      ensures Patch(pods[i].name.value, false) in Stale(pods, own)
    {
      StaleExactly(pods, own, Patch(pods[i].name.value, false));
    }
  }

  lemma {:induction false} OwnIsListed(pods: seq<Pod>, own: string)
    requires Listing(pods)
    ensures OwnState(pods, own).Some? <==> Listed(pods, own)
    ensures forall i :: 0 <= i < |pods| && pods[i].name == Some(own) ==> OwnState(pods, own) == Some(Selected(pods[i]))
  {
    if pods != [] {
      var init := pods[..|pods| - 1];
      OwnIsListed(init, own);
      assert forall i :: 0 <= i < |init| ==> init[i] == pods[i];
    }
  }

  /** The own pod is found in any list that has it. */
  lemma {:induction false} OwnIsFound(pods: seq<Pod>, own: string)
    ensures OwnState(pods, own).Some? <==> Listed(pods, own)
  {
    if pods != [] {
      var init, last := pods[..|pods| - 1], pods[|pods| - 1];
      OwnIsFound(init, own);
      if last.name == Some(own) {
        assert pods[|pods| - 1].name == Some(own);
      } else if Listed(init, own) {
        var i :| 0 <= i < |init| && init[i].name == Some(own);
        assert pods[i] == init[i];
      }
    }
  }

  /** In any list: publication has a plan exactly if the own pod is listed and fails otherwise for want of it,
      whatever the other pods are; withdrawal always has one. */
  lemma PlanExists(pods: seq<Pod>, own: string)
    ensures Listed(pods, own) ==> Plan(pods, own, true).Ok?
    ensures !Listed(pods, own) ==> Plan(pods, own, true) == Err(PodNotFound)
    ensures Plan(pods, own, false).Ok?
  {
    OwnIsFound(pods, own);
  }

  /** Withdrawal clears the own pod exactly if it is listed and selected. */
  lemma WithdrawalPlan(pods: seq<Pod>, own: string)
    requires Listing(pods)
    ensures Plan(pods, own, false) == Ok(if ListedSelected(pods, own) then [Patch(own, false)] else [])
  {
    OwnIsListed(pods, own);
    if ListedSelected(pods, own) {
      var i :| 0 <= i < |pods| && pods[i].name == Some(own) && Selected(pods[i]);
      assert OwnState(pods, own) == Some(Selected(pods[i]));
    } else if Listed(pods, own) {
      var i :| 0 <= i < |pods| && pods[i].name == Some(own);
      assert OwnState(pods, own) == Some(Selected(pods[i]));
    }
  }

  /** Clearing patches: a pod is selected afterwards exactly when it was and no patch names it. */
  lemma {:induction false} Clearing(pods: seq<Pod>, plan: seq<Patch>, i: nat)
    requires i < |pods| && pods[i].name.Some? && forall k :: 0 <= k < |plan| ==> !plan[k].selected
    ensures Selected(PatchedAll(pods, plan)[i]) <==>
      Selected(pods[i]) && Patch(pods[i].name.value, false) !in plan
  {
    if plan != [] {
      var init, last := plan[..|plan| - 1], plan[|plan| - 1];
      Clearing(pods, init, i);
      assert plan == init + [last];
      assert last == Patch(last.pod, false);
    }
  }

  lemma {:induction false} CountMonotone(a: seq<Pod>, b: seq<Pod>)
    requires |a| == |b| && forall i :: 0 <= i < |a| && Selected(b[i]) ==> Selected(a[i])
    ensures Count(b) <= Count(a)
  {
    if a != [] {
      CountMonotone(a[..|a| - 1], b[..|b| - 1]);
    }
  }

  lemma {:induction false} CountNone(pods: seq<Pod>)
    requires forall i :: 0 <= i < |pods| ==> !Selected(pods[i])
    ensures Count(pods) == 0
  {
    if pods != [] {
      CountNone(pods[..|pods| - 1]);
    }
  }

  /** With distinct names, selecting only one name selects at most one pod. */
  lemma {:induction false} CountOwn(pods: seq<Pod>, own: string)
    requires Listing(pods) && OnlyOwnSelected(pods, own)
    ensures Count(pods) <= 1
  {
    if pods != [] {
      var init := pods[..|pods| - 1];
      assert forall i :: 0 <= i < |init| ==> init[i] == pods[i];
      if Selected(pods[|pods| - 1]) {
        CountNone(init);
      } else {
        CountOwn(init, own);
      }
    }
  }

  /** The state of the pods after any prefix of the clearing part of a plan, and after all of it. */
  lemma StalePrefix(pods: seq<Pod>, own: string, k: nat)
    requires Listing(pods) && k <= |Stale(pods, own)|
    ensures var now := PatchedAll(pods, Stale(pods, own)[..k]);
      && Count(now) <= Count(pods)
      && (k == |Stale(pods, own)| ==> OnlyOwnSelected(now, own))
      && forall i :: 0 <= i < |pods| && pods[i].name == Some(own) ==> Selected(now[i]) == Selected(pods[i])
  {
    var stale := Stale(pods, own);
    var now := PatchedAll(pods, stale[..k]);
    StaleNames(pods, own);
    forall i | 0 <= i < |pods|
      ensures Selected(now[i]) <==> Selected(pods[i]) && Patch(pods[i].name.value, false) !in stale[..k]
    {
      Clearing(pods, stale[..k], i);
    }
    CountMonotone(pods, now);
    assert stale[..|stale|] == stale;
  }

  lemma PublicationSteps(pods: seq<Pod>, own: string, k: nat)
    requires Listing(pods) && Plan(pods, own, true).Ok? && k <= |Plan(pods, own, true).value|
    ensures var plan := Plan(pods, own, true).value;
      var now := PatchedAll(pods, plan[..k]);
      && Count(now) <= (if Count(pods) > 1 then Count(pods) else 1)
      && (k < |plan| && plan[k].selected ==> plan[k].pod == own && Count(now) == 0)
      && (k == |plan| ==> forall i :: 0 <= i < |pods| ==> (Selected(now[i]) <==> now[i].name == Some(own)))
  {
    var plan := Plan(pods, own, true).value;
    var stale := Stale(pods, own);
    StaleNames(pods, own);
    OwnIsListed(pods, own);
    if k <= |stale| {
      assert plan[..k] == stale[..k];
      StalePrefix(pods, own, k);
      if k == |stale| {
        var now := PatchedAll(pods, plan[..k]);
        ListingKept(pods, plan[..k]);
        CountOwn(now, own);
        if k < |plan| { CountNone(now); }
      }
    } else {
      StalePrefix(pods, own, |stale|);
      assert plan[..k] == plan && plan[..|plan| - 1] == stale;
      var now := PatchedAll(pods, plan);
      ListingKept(pods, plan);
      assert stale[..|stale|] == stale;
      assert OnlyOwnSelected(now, own);
      CountOwn(now, own);
    }
  }

  /** Publication of a listed pod, patch by patch: the number of selected pods never exceeds what it was, or
      one; own is selected only when nothing else is; and the whole plan leaves exactly own selected. */
  lemma PublicationIsSafe(pods: seq<Pod>, own: string, k: nat)
    requires Listing(pods) && Listed(pods, own)
    ensures Plan(pods, own, true).Ok?
    ensures var plan := Plan(pods, own, true).value;
      k <= |plan| ==>
        var now := PatchedAll(pods, plan[..k]);
        && Count(now) <= (if Count(pods) > 1 then Count(pods) else 1)
        && (k < |plan| && plan[k].selected ==> plan[k].pod == own && Count(now) == 0)
        && (k == |plan| ==> forall i :: 0 <= i < |pods| ==> (Selected(now[i]) <==> now[i].name == Some(own)))
  {
    PlanExists(pods, own);
    if k <= |Plan(pods, own, true).value| {
      PublicationSteps(pods, own, k);
    }
  }

  lemma ListingKept(pods: seq<Pod>, plan: seq<Patch>)
    requires Listing(pods)
    ensures Listing(PatchedAll(pods, plan))
  {
  }

  lemma OwnIndex(pods: seq<Pod>, own: string) returns (i: nat)
    requires Listing(pods) && OwnState(pods, own).Some?
    ensures i < |pods| && pods[i].name == Some(own)
  {
    OwnIsListed(pods, own);
    i :| 0 <= i < |pods| && pods[i].name == Some(own);
  }

  /** Where exactly own is selected there is nothing to do. */
  lemma NothingToDo(pods: seq<Pod>, own: string, i: nat)
    requires Listing(pods) && OnlyOwnSelected(pods, own)
    requires i < |pods| && pods[i].name == Some(own) && Selected(pods[i])
    ensures Plan(pods, own, true) == Ok([])
  {
    OwnIsListed(pods, own);
    NothingStale(pods, own);
    assert Stale(pods, own) + [] == [];
  }

  /** Publication converges: planning again over its own result finds nothing to do. */
  lemma PublicationConverges(pods: seq<Pod>, own: string)
    requires Listing(pods) && Listed(pods, own)
    ensures Plan(pods, own, true).Ok?
    ensures Plan(PatchedAll(pods, Plan(pods, own, true).value), own, true) == Ok([])
  {
    PlanExists(pods, own);
    var plan := Plan(pods, own, true).value;
    var i := OwnIndex(pods, own);
    PublicationSteps(pods, own, |plan|);
    assert plan[..|plan|] == plan;
    ListingKept(pods, plan);
    NothingToDo(PatchedAll(pods, plan), own, i);
  }

  lemma {:induction false} NothingStale(pods: seq<Pod>, own: string)
    requires OnlyOwnSelected(pods, own)
    ensures Stale(pods, own) == []
  {
    if pods != [] {
      var init := pods[..|pods| - 1];
      assert forall i :: 0 <= i < |init| ==> init[i] == pods[i];
      NothingStale(init, own);
    }
  }

  /** Withdrawal touches only the process's own pod and leaves it unselected. */
  lemma WithdrawalIsLocal(pods: seq<Pod>, own: string, k: nat)
    requires Listing(pods)
    ensures Plan(pods, own, false).Ok?
    ensures var plan := Plan(pods, own, false).value;
      k <= |plan| ==>
        var now := PatchedAll(pods, plan[..k]);
        && (forall i :: 0 <= i < |pods| && pods[i].name != Some(own) ==> now[i] == pods[i])
        && (k == |plan| ==> forall i :: 0 <= i < |pods| && pods[i].name == Some(own) ==> !Selected(now[i]))
  {
    WithdrawalPlan(pods, own);
    OwnIsListed(pods, own);
    var plan := Plan(pods, own, false).value;
    if k == 0 {
      assert plan[..k] == [];
    } else if k == |plan| {
      assert plan[..k] == plan && plan[..|plan| - 1] == [];
    }
  }
}
