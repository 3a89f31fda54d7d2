/**
 The depth-counting splitter under the alert-expression evaluator (`split_top_level`,
 `balanced_wrapper?`).
 */
module AlertSplit {

  function Delta(c: char): int {
    if c == '(' then 1 else if c == ')' then -1 else 0
  }

  predicate NoParens(text: string) {
    forall i :: 0 <= i < |text| ==> text[i] != '(' && text[i] != ')'
  }

  function Prepend(current: string, parts: seq<string>): seq<string>
    requires parts != []
  {
    [current + parts[0]] + parts[1..]
  }

  /** The parts of `text`, read from parenthesis depth `depth`, between top-level needles. */
  function Split(text: string, needle: string, depth: int): (parts: seq<string>)
    requires needle != []
    ensures parts != []
    decreases |text|
  {
    if text == [] then [[]]
    else
      var d := depth + Delta(text[0]);
      if d == 0 && needle <= text then [[]] + Split(text[|needle|..], needle, d)
      else Prepend([text[0]], Split(text[1..], needle, d))
  }

  /** A keyword as the splitter looks for it. */
  function Needle(keyword: string): string {
    " " + keyword + " "
  }

  lemma PrependPrepend(a: string, b: string, parts: seq<string>)
    requires parts != []
    ensures Prepend(a, Prepend(b, parts)) == Prepend(a + b, parts)
  {
    assert a + (b + parts[0]) == a + b + parts[0];
  }

  lemma PrependEmpty(current: string, parts: seq<string>)
    requires parts != []
    ensures Prepend([], parts) == parts
    ensures Prepend(current, [[]] + parts) == [current] + parts
    ensures Prepend(current, [[]]) == [current]
  {
    assert [] + parts[0] == parts[0];
    assert ([[]] + parts)[0] == [] && ([[]] + parts)[1..] == parts;
    assert current + [] == current;
  }

  /** One move of the splitter, seen from position `index` of the whole text. */
  lemma SplitAt(text: string, index: nat, needle: string, depth: int)
    requires needle != [] && index < |text|
    ensures var d := depth + Delta(text[index]);
      if d == 0 && needle <= text[index..]
      then index + |needle| <= |text|
        && Split(text[index..], needle, depth) == [[]] + Split(text[index + |needle|..], needle, d)
      else Split(text[index..], needle, depth) == Prepend([text[index]], Split(text[index + 1..], needle, d))
  {
    var tail := text[index..];
    assert tail[1..] == text[index + 1..];
    if needle <= tail {
      assert tail[|needle|..] == text[index + |needle|..];
    }
  }

  lemma CutMove(parts: seq<string>, current: string, rest: seq<string>)
    requires rest != []
    ensures parts + Prepend(current, [[]] + rest) == parts + [current] + Prepend([], rest)
  {
    PrependEmpty(current, rest);
    assert parts + ([current] + rest) == parts + [current] + rest;
  }

  method SplitTopLevel(text: string, keyword: string) returns (parts: seq<string>)
    ensures parts == Split(text, Needle(keyword), 0)
  {
    var depth := 0;
    var index := 0;
    parts := [];
    var current := "";
    var needle := Needle(keyword);
    ghost var whole := Split(text, needle, 0);
    ghost var rest := whole;
    PrependEmpty("", whole);
    assert text[0..] == text;
    while index < |text|
      invariant 0 <= index <= |text|
      invariant rest == Split(text[index..], needle, depth)
      invariant parts + Prepend(current, rest) == whole
    {
      SplitAt(text, index, needle, depth);
      var c := text[index];
      if c == '(' { depth := depth + 1; }
      if c == ')' { depth := depth - 1; }
      if depth == 0 && needle <= text[index..] {
        rest := Split(text[index + |needle|..], needle, depth);
        CutMove(parts, current, rest);
        parts := parts + [current];
        current := "";
        index := index + |needle|;
        continue;
      }
      rest := Split(text[index + 1..], needle, depth);
      PrependPrepend(current, [c], rest);
      current := current + [c];
      index := index + 1;
    }
    assert text[index..] == [];
    PrependEmpty(current, [[]]);
    parts := parts + [current];
  }

  /** Whether the parenthesis that opens first closes last, reading from depth `depth`. */
  predicate Wrapped(text: string, depth: int) {
    if text == [] then false
    else
      var d := depth + Delta(text[0]);
      if d == 0 then |text| == 1 else Wrapped(text[1..], d)
  }

  method BalancedWrapper(text: string) returns (r: bool)
    ensures r == Wrapped(text, 0)
  {
    var depth := 0;
    for index := 0 to |text|
      invariant Wrapped(text[index..], depth) == Wrapped(text, 0)
    {
      assert text[index..][1..] == text[index + 1..];
      if text[index] == '(' { depth := depth + 1; }
      if text[index] == ')' { depth := depth - 1; }
      if depth == 0 {
        return index == |text| - 1;
      }
    }
    assert text[|text|..] == [];
    return false;
  }

  // ------------------------------------------------------------- any text at all

  function Join(parts: seq<string>, needle: string): string
    requires parts != []
  {
    if |parts| == 1 then parts[0] else parts[0] + needle + Join(parts[1..], needle)
  }

  lemma JoinPrepend(current: string, parts: seq<string>, needle: string)
    requires parts != []
    ensures Join(Prepend(current, parts), needle) == current + Join(parts, needle)
  {
    var p := Prepend(current, parts);
    assert p[1..] == parts[1..];
    if |parts| > 1 {
      assert current + parts[0] + needle + Join(parts[1..], needle)
        == current + (parts[0] + needle + Join(parts[1..], needle));
    }
  }

  lemma JoinCut(parts: seq<string>, needle: string)
    requires parts != []
    ensures Join([[]] + parts, needle) == needle + Join(parts, needle)
  {
    assert ([[]] + parts)[1..] == parts;
    assert [] + needle == needle;
  }

  lemma PrefixAndRest(needle: string, text: string)
    requires needle <= text
    ensures needle + text[|needle|..] == text
  {
  }

  /** Putting the needle back between the parts restores the text. */
  lemma {:induction false} SplitRejoins(text: string, needle: string, depth: int)
    requires needle != []
    ensures Join(Split(text, needle, depth), needle) == text
    decreases |text|
  {
    if text != [] {
      var d := depth + Delta(text[0]);
      if d == 0 && needle <= text {
        SplitRejoins(text[|needle|..], needle, d);
        JoinCut(Split(text[|needle|..], needle, d), needle);
        PrefixAndRest(needle, text);
      } else {
        SplitRejoins(text[1..], needle, d);
        JoinPrepend([text[0]], Split(text[1..], needle, d), needle);
        PrefixAndRest([text[0]], text);
      }
    }
  }

  /** Parenthesis depth before position `i`. */
  function DepthAt(text: string, i: nat): int
    requires i <= |text|
  {
    if i == 0 then 0 else DepthAt(text, i - 1) + Delta(text[i - 1])
  }

  /** A depth-zero occurrence of the needle. */
  predicate Occurs(text: string, needle: string, p: nat) {
    p + |needle| <= |text| && text[p..p + |needle|] == needle && DepthAt(text, p) == 0
  }

  /** The leftmost hits from `i` on that are at least `width` apart. */
  function Greedy(hit: nat -> bool, width: nat, end: nat, i: nat): seq<nat>
    requires width > 0
    decreases end - i
  {
    if i >= end then []
    else if hit(i) then [i] + Greedy(hit, width, end, i + width)
    else Greedy(hit, width, end, i + 1)
  }

  predicate AllHits(hit: nat -> bool, found: seq<nat>, from: nat, end: nat) {
    forall k :: 0 <= k < |found| ==> from <= found[k] < end && hit(found[k])
  }

  predicate Spaced(found: seq<nat>, width: nat) {
    forall j, k :: 0 <= j < k < |found| ==> found[j] + width <= found[k]
  }

  lemma {:induction false} GreedyHits(hit: nat -> bool, width: nat, end: nat, i: nat)
    requires width > 0
    ensures AllHits(hit, Greedy(hit, width, end, i), i, end)
    ensures Spaced(Greedy(hit, width, end, i), width)
    decreases end - i
  {
    if i < end {
      if hit(i) {
        GreedyHits(hit, width, end, i + width);
        HitsCons(hit, width, end, i, Greedy(hit, width, end, i + width));
      } else {
        GreedyHits(hit, width, end, i + 1);
      }
    }
  }

  lemma HitsCons(hit: nat -> bool, width: nat, end: nat, i: nat, rest: seq<nat>)
    requires AllHits(hit, rest, i + width, end) && Spaced(rest, width) && i < end && hit(i)
    ensures AllHits(hit, [i] + rest, i, end) && Spaced([i] + rest, width)
  {
  }

  lemma {:induction false} GreedyCovers(hit: nat -> bool, width: nat, end: nat, i: nat, p: nat) returns (k: nat)
    requires width > 0 && i <= p < end && hit(p)
    ensures k < |Greedy(hit, width, end, i)|
    ensures Greedy(hit, width, end, i)[k] <= p < Greedy(hit, width, end, i)[k] + width
    decreases end - i
  {
    if hit(i) {
      if p < i + width {
        k := 0;
      } else {
        var j := GreedyCovers(hit, width, end, i + width, p);
        k := j + 1;
      }
    } else {
      k := GreedyCovers(hit, width, end, i + 1, p);
    }
  }

  function Occurrences(text: string, needle: string): nat -> bool {
    (p: nat) => Occurs(text, needle, p)
  }

  /** Where the splitter cuts from position `i` on. */
  function Cuts(text: string, needle: string, i: nat): seq<nat>
    requires needle != []
  {
    Greedy(Occurrences(text, needle), |needle|, |text|, i)
  }

  /** The depth is the same on both sides of a needle. */
  lemma {:induction false} DepthFlat(text: string, i: nat, n: nat)
    requires i + n <= |text| && NoParens(text[i..i + n])
    ensures DepthAt(text, i + n) == DepthAt(text, i)
  {
    if n > 0 {
      assert text[i..i + n - 1] == text[i..i + n][..n - 1];
      assert text[i + n - 1] == text[i..i + n][n - 1];
      DepthFlat(text, i, n - 1);
    }
  }

  /** What the splitter tests at a position is whether the needle occurs there. */
  lemma OccursHere(text: string, needle: string, i: nat)
    requires needle != [] && NoParens(needle) && i < |text|
    ensures Occurs(text, needle, i) <==> DepthAt(text, i) + Delta(text[i]) == 0 && needle <= text[i..]
  {
    if needle <= text[i..] {
      assert text[i..i + |needle|] == text[i..][..|needle|] == needle;
      assert text[i] == needle[0];
    } else if i + |needle| <= |text| {
      assert text[i..i + |needle|] == text[i..][..|needle|];
    }
  }

  /** One move of the splitter, at an occurrence and elsewhere. */
  lemma SplitMoveCut(text: string, needle: string, i: nat)
    requires needle != [] && NoParens(needle) && i < |text| && Occurs(text, needle, i)
    ensures Split(text[i..], needle, DepthAt(text, i))
      == [[]] + Split(text[i + |needle|..], needle, DepthAt(text, i + |needle|))
  {
    OccursHere(text, needle, i);
    SplitAt(text, i, needle, DepthAt(text, i));
    DepthFlat(text, i, |needle|);
  }

  lemma SplitMovePass(text: string, needle: string, i: nat)
    requires needle != [] && NoParens(needle) && i < |text| && !Occurs(text, needle, i)
    ensures Split(text[i..], needle, DepthAt(text, i))
      == Prepend([text[i]], Split(text[i + 1..], needle, DepthAt(text, i + 1)))
  {
    OccursHere(text, needle, i);
    SplitAt(text, i, needle, DepthAt(text, i));
  }

  /** The stretches of text between `cuts`, from `i` on. */
  function Between(text: string, cuts: seq<nat>, width: nat, i: nat): seq<string> {
    if cuts == [] then [Slice(text, i, |text|)]
    else [Slice(text, i, cuts[0])] + Between(text, cuts[1..], width, cuts[0] + width)
  }

  function Slice(text: string, i: nat, j: nat): string {
    if i <= j <= |text| then text[i..j] else []
  }

  /** Putting one more character before the first cut. */
  lemma BetweenPrepend(text: string, cuts: seq<nat>, width: nat, i: nat)
    requires i < |text| && (cuts != [] ==> i < cuts[0] <= |text|)
    ensures Between(text, cuts, width, i) != [] && Between(text, cuts, width, i + 1) != []
    ensures Between(text, cuts, width, i) == Prepend([text[i]], Between(text, cuts, width, i + 1))
  {
    var stop := if cuts == [] then |text| else cuts[0];
    assert Slice(text, i, stop) == [text[i]] + Slice(text, i + 1, stop);
  }

  /** A cut right here. */
  lemma BetweenCut(text: string, cuts: seq<nat>, width: nat, i: nat)
    requires i <= |text|
    ensures Between(text, [i] + cuts, width, i) == [[]] + Between(text, cuts, width, i + width)
  {
    assert ([i] + cuts)[1..] == cuts;
    assert Slice(text, i, i) == [];
  }

  /** What is to be shown of the rest of the text from `i` on. */
  predicate PartsLieBetween(text: string, needle: string, i: nat)
    requires needle != [] && i <= |text|
  {
    Split(text[i..], needle, DepthAt(text, i)) == Between(text, Cuts(text, needle, i), |needle|, i)
  }

  lemma PartsAtEnd(text: string, needle: string)
    requires needle != []
    ensures PartsLieBetween(text, needle, |text|)
  {
    assert Slice(text, |text|, |text|) == [];
  }

  lemma PartsAtCut(text: string, needle: string, i: nat)
    requires needle != [] && NoParens(needle) && i < |text| && Occurs(text, needle, i)
    requires PartsLieBetween(text, needle, i + |needle|)
    ensures PartsLieBetween(text, needle, i)
  {
    SplitMoveCut(text, needle, i);
    BetweenCut(text, Cuts(text, needle, i + |needle|), |needle|, i);
  }

  lemma PartsInside(text: string, needle: string, i: nat)
    requires needle != [] && NoParens(needle) && i < |text| && !Occurs(text, needle, i)
    requires PartsLieBetween(text, needle, i + 1)
    ensures PartsLieBetween(text, needle, i)
  {
    SplitMovePass(text, needle, i);
    GreedyHits(Occurrences(text, needle), |needle|, |text|, i + 1);
    BetweenPrepend(text, Cuts(text, needle, i + 1), |needle|, i);
  }

  /** The parts are the stretches of text between the cuts. */
  lemma {:induction false} PartsBetweenCuts(text: string, needle: string, i: nat)
    requires needle != [] && NoParens(needle) && i <= |text|
    ensures PartsLieBetween(text, needle, i)
    decreases |text| - i
  {
    if i == |text| {
      PartsAtEnd(text, needle);
    } else if Occurs(text, needle, i) {
      PartsBetweenCuts(text, needle, i + |needle|);
      PartsAtCut(text, needle, i);
    } else {
      PartsBetweenCuts(text, needle, i + 1);
      PartsInside(text, needle, i);
    }
  }

  /** The splitter on any text: rejoining restores it, the parts lie between the cuts, and the cuts are
      exactly the leftmost non-overlapping depth-zero occurrences of the needle. */
  lemma SplitIsExact(text: string, needle: string)
    requires needle != [] && NoParens(needle)
    ensures Join(Split(text, needle, 0), needle) == text
    ensures Split(text, needle, 0) == Between(text, Cuts(text, needle, 0), |needle|, 0)
    ensures AllHits(Occurrences(text, needle), Cuts(text, needle, 0), 0, |text|)
    ensures Spaced(Cuts(text, needle, 0), |needle|)
    ensures forall p: nat :: Occurs(text, needle, p) ==> Covered(p, Cuts(text, needle, 0), |needle|)
  {
    SplitRejoins(text, needle, 0);
    assert text[0..] == text;
    PartsBetweenCuts(text, needle, 0);
    GreedyHits(Occurrences(text, needle), |needle|, |text|, 0);
    forall p: nat | Occurs(text, needle, p)
      ensures Covered(p, Cuts(text, needle, 0), |needle|)
    {
      var k := GreedyCovers(Occurrences(text, needle), |needle|, |text|, 0, p);
    }
  }

  /** Position `p` is at a cut or inside its needle. */
  predicate Covered(p: nat, cuts: seq<nat>, width: nat) {
    exists k :: 0 <= k < |cuts| && cuts[k] <= p < cuts[k] + width
  }

  /** No part is longer than all of them joined, and with several each is shorter. */
  lemma {:induction false} JoinIsLonger(parts: seq<string>, needle: string, i: nat)
    requires i < |parts| && needle != []
    ensures |parts[i]| <= |Join(parts, needle)| && (|parts| > 1 ==> |parts[i]| < |Join(parts, needle)|)
    decreases |parts|
  {
    if i > 0 {
      JoinIsLonger(parts[1..], needle, i - 1);
    }
  }

  /** With a cut, every part is shorter than the text: the evaluator's recursion ends. */
  lemma PartsAreShorter(text: string, needle: string, depth: int)
    requires needle != []
    ensures forall part :: part in Split(text, needle, depth) ==>
      |part| <= |text| && (|Split(text, needle, depth)| > 1 ==> |part| < |text|)
  {
    var parts := Split(text, needle, depth);
    SplitRejoins(text, needle, depth);
    forall part | part in parts ensures |part| <= |text| && (|parts| > 1 ==> |part| < |text|) {
      var i :| 0 <= i < |parts| && parts[i] == part;
      JoinIsLonger(parts, needle, i);
    }
  }
}
