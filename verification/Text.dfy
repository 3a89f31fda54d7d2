/** String helpers standing for the library calls the sources make (`str::trim`,
    `String#strip`, `to_ascii_lowercase`). */
module Text {

  /** Drops the longest prefix whose characters all satisfy `space`. */
  function TrimStart(s: string, space: char -> bool): string {
    if s == [] || !space(s[0]) then s else TrimStart(s[1..], space)
  }

  /** Drops the longest suffix whose characters all satisfy `space`. */
  function TrimEnd(s: string, space: char -> bool): string {
    if s == [] || !space(s[|s| - 1]) then s else TrimEnd(s[..|s| - 1], space)
  }

  function TrimBy(s: string, space: char -> bool): string {
    TrimEnd(TrimStart(s, space), space)
  }

  /** No blank at either end. */
  predicate Tidy(s: string, space: char -> bool) {
    s != [] ==> !space(s[0]) && !space(s[|s| - 1])
  }

  /** Unicode `White_Space`, which `str::trim` removes. */
  predicate UnicodeSpace(c: char) {
    var n := c as int;
    || 9 <= n <= 13 || n == 32 || n == 0x85 || n == 0xA0 || n == 0x1680
    || 0x2000 <= n <= 0x200A || n == 0x2028 || n == 0x2029 || n == 0x202F
    || n == 0x205F || n == 0x3000
  }

  function Trim(s: string): string {
    TrimBy(s, UnicodeSpace)
  }

  /** A tidy text is already trimmed. */
  lemma TrimIdentity(s: string, space: char -> bool)
    requires Tidy(s, space)
    ensures TrimBy(s, space) == s
  {
  }

  lemma {:induction false} TrimStartTidy(s: string, space: char -> bool)
    ensures var r := TrimStart(s, space);
      |r| <= |s| && r == s[|s| - |r|..] && (r != [] ==> !space(r[0]))
  {
    if s != [] && space(s[0]) {
      TrimStartTidy(s[1..], space);
    }
  }

  lemma {:induction false} TrimEndTidy(s: string, space: char -> bool)
    ensures var r := TrimEnd(s, space);
      |r| <= |s| && r == s[..|r|] && (r != [] ==> !space(r[|r| - 1]))
  {
    if s != [] && space(s[|s| - 1]) {
      TrimEndTidy(s[..|s| - 1], space);
    }
  }

  /** Trimming leaves a tidy part of the text. */
  lemma TrimTidy(s: string, space: char -> bool)
    ensures Tidy(TrimBy(s, space), space)
    ensures |TrimBy(s, space)| <= |s|
  {
    TrimStartTidy(s, space);
    TrimEndTidy(TrimStart(s, space), space);
  }

  /** Trimming twice is trimming once. */
  lemma TrimIdempotent(s: string)
    ensures Trim(Trim(s)) == Trim(s)
  {
    TrimTidy(s, UnicodeSpace);
    TrimIdentity(Trim(s), UnicodeSpace);
  }

  // ------------------------------------------------------------------- ASCII case

  function LowerChar(c: char): char {
    if 'A' <= c <= 'Z' then (c as int + 32) as char else c
  }

  function Lower(s: string): string {
    if s == [] then [] else [LowerChar(s[0])] + Lower(s[1..])
  }

  lemma {:induction false} LowerAt(s: string)
    ensures |Lower(s)| == |s| && forall i :: 0 <= i < |s| ==> Lower(s)[i] == LowerChar(s[i])
  {
    if s != [] {
      LowerAt(s[1..]);
    }
  }

  // ------------------------------------------------------------ lexicographic order

  predicate LexLe(a: string, b: string) {
    if a == [] then true
    else if b == [] then false
    else if a[0] != b[0] then a[0] < b[0]
    else LexLe(a[1..], b[1..])
  }

  lemma {:induction false} LexTotal(a: string, b: string)
    ensures LexLe(a, b) || LexLe(b, a)
  {
    if a != [] && b != [] {
      LexTotal(a[1..], b[1..]);
    }
  }

  lemma {:induction false} LexTransitive(a: string, b: string, c: string)
    requires LexLe(a, b) && LexLe(b, c)
    ensures LexLe(a, c)
  {
    if a != [] && a[0] == b[0] == c[0] {
      LexTransitive(a[1..], b[1..], c[1..]);
    }
  }

  lemma {:induction false} LexAntisymmetric(a: string, b: string)
    requires LexLe(a, b) && LexLe(b, a)
    ensures a == b
  {
    if a != [] {
      LexAntisymmetric(a[1..], b[1..]);
    }
  }

  // --------------------------------------------------------------------- numbers

  function DigitChar(d: nat): char
    requires d < 10
  {
    ('0' as int + d) as char
  }

  function Decimal(n: nat): string {
    if n < 10 then [DigitChar(n)] else Decimal(n / 10) + [DigitChar(n % 10)]
  }

  lemma DecimalNotEmpty(n: nat)
    ensures |Decimal(n)| >= 1 && (n >= 10 ==> |Decimal(n)| >= 2)
  {
  }

  lemma {:induction false} DecimalInjective(a: nat, b: nat)
    requires Decimal(a) == Decimal(b)
    ensures a == b
  {
    DecimalNotEmpty(a);
    DecimalNotEmpty(b);
    var s := Decimal(a);
    if a >= 10 {
      DecimalNotEmpty(a / 10);
      DecimalNotEmpty(b / 10);
      assert b >= 10;
      assert s[..|s| - 1] == Decimal(a / 10) == Decimal(b / 10);
      assert s[|s| - 1] == DigitChar(a % 10) == DigitChar(b % 10);
      DecimalInjective(a / 10, b / 10);
    }
  }

  /** A separator that occurs in neither left part cuts both texts at the same place. */
  lemma {:induction false} MarkCuts(a: string, x: string, b: string, y: string, mark: char)
    requires a + [mark] + x == b + [mark] + y && mark !in a && mark !in b
    ensures a == b && x == y
  {
    var s := a + [mark] + x;
    assert s[|a|] == mark && (b + [mark] + y)[|b|] == mark;
    assert |a| == |b|;
    assert a == s[..|a|] && b == (b + [mark] + y)[..|b|];
    assert x == s[|a| + 1..] && y == (b + [mark] + y)[|b| + 1..];
  }

  /** A separator that occurs in neither right part likewise. */
  lemma LastMarkCuts(a: string, x: string, b: string, y: string, mark: char)
    requires a + [mark] + x == b + [mark] + y && mark !in x && mark !in y
    ensures a == b && x == y
  {
    var s, t := a + [mark] + x, b + [mark] + y;
    assert s[|a|] == mark && t[|b|] == mark;
    assert forall i :: |a| < i < |s| ==> s[i] == x[i - |a| - 1];
    assert forall i :: |b| < i < |t| ==> t[i] == y[i - |b| - 1];
    assert |a| == |b|;
    assert a == s[..|a|] && b == t[..|b|];
    assert x == s[|a| + 1..] && y == t[|b| + 1..];
  }

  // ------------------------------------------------------------ what these functions mean

  predicate AllSpace(s: string, space: char -> bool) {
    forall i :: 0 <= i < |s| ==> space(s[i])
  }

  lemma {:induction false} TrimStartDrops(s: string, space: char -> bool)
    ensures var r := TrimStart(s, space);
      |r| <= |s| && s == s[..|s| - |r|] + r && AllSpace(s[..|s| - |r|], space) && (r != [] ==> !space(r[0]))
  {
    if s != [] && space(s[0]) {
      TrimStartDrops(s[1..], space);
      var n := |s| - |TrimStart(s, space)|;
      assert s[..n] == [s[0]] + s[1..][..n - 1];
    }
  }

  lemma {:induction false} TrimEndDrops(s: string, space: char -> bool)
    ensures var r := TrimEnd(s, space);
      |r| <= |s| && s == r + s[|r|..] && AllSpace(s[|r|..], space) && (r != [] ==> !space(r[|r| - 1]))
  {
    if s != [] && space(s[|s| - 1]) {
      var init := s[..|s| - 1];
      TrimEndDrops(init, space);
      var n := |TrimEnd(s, space)|;
      assert s[n..] == init[n..] + [s[|s| - 1]];
    }
  }

  /** Trimming removes blanks at both ends, all of them, and nothing else. */
  lemma TrimExactly(s: string, space: char -> bool) returns (before: string, after: string)
    ensures s == before + TrimBy(s, space) + after
    ensures AllSpace(before, space) && AllSpace(after, space) && Tidy(TrimBy(s, space), space)
  {
    TrimTidy(s, space);
    TrimStartDrops(s, space);
    var r := TrimStart(s, space);
    TrimEndDrops(r, space);
    before, after := s[..|s| - |r|], r[|TrimEnd(r, space)|..];
    Regroup(before, TrimEnd(r, space), after);
  }

  /** The same character, or the same letter of the alphabet in the other case. */
  predicate SameLetter(c: char, d: char) {
    || c == d
    || ('a' <= c <= 'z' && c as int - 'a' as int == d as int - 'A' as int)
    || ('a' <= d <= 'z' && d as int - 'a' as int == c as int - 'A' as int)
  }

  lemma LowerCharExactly(c: char, d: char)
    ensures LowerChar(c) == LowerChar(d) <==> SameLetter(c, d)
  {
    LowerCharCode(c);
    LowerCharCode(d);
  }

  lemma LowerCharCode(c: char)
    ensures LowerChar(c) as int == if 'A' <= c <= 'Z' then c as int + 32 else c as int
  {
  }

  predicate SameLetters(a: string, b: string) {
    |a| == |b| && forall i :: 0 <= i < |a| ==> SameLetter(a[i], b[i])
  }

  lemma SameLettersCons(a: string, b: string)
    requires a != [] && b != []
    ensures SameLetters(a, b) <==> SameLetter(a[0], b[0]) && SameLetters(a[1..], b[1..])
  {
    if SameLetter(a[0], b[0]) && SameLetters(a[1..], b[1..]) {
      forall i | 0 <= i < |a| ensures SameLetter(a[i], b[i]) {
        if i > 0 { assert a[i] == a[1..][i - 1] && b[i] == b[1..][i - 1]; }
      }
    }
  }

  /** Two texts are equal up to case exactly if they are so letter by letter. */
  lemma {:induction false} LowerExactly(a: string, b: string)
    ensures Lower(a) == Lower(b) <==> SameLetters(a, b)
  {
    LowerAt(a);
    LowerAt(b);
    if a != [] && b != [] {
      LowerExactly(a[1..], b[1..]);
      LowerCharExactly(a[0], b[0]);
      SameLettersCons(a, b);
      LowerCons(a, b);
    }
  }

  lemma LowerCons(a: string, b: string)
    requires a != [] && b != []
    ensures Lower(a) == Lower(b) <==> LowerChar(a[0]) == LowerChar(b[0]) && Lower(a[1..]) == Lower(b[1..])
  {
    if Lower(a) == Lower(b) {
      assert Lower(a)[0] == Lower(b)[0] && Lower(a)[1..] == Lower(b)[1..];
      assert Lower(a)[1..] == Lower(a[1..]) && Lower(b)[1..] == Lower(b[1..]);
    }
  }

  /** They agree up to `k`, where the first ends or has the smaller character. */
  predicate FirstDifference(a: string, b: string, k: nat) {
    && k <= |a| && k <= |b| && a[..k] == b[..k]
    && (k == |a| || (k < |a| && k < |b| && a[k] < b[k]))
  }

  /** Ascending order: equal so far, and then shorter or smaller. */
  lemma {:induction false} LexExactly(a: string, b: string)
    ensures LexLe(a, b) <==> exists k: nat :: FirstDifference(a, b, k)
  {
    if a == [] {
      assert FirstDifference(a, b, 0);
    } else if b != [] {
      LexExactly(a[1..], b[1..]);
      if a[0] < b[0] {
        assert FirstDifference(a, b, 0);
      } else if a[0] == b[0] {
        LexTail(a, b);
      } else {
        forall k: nat ensures !FirstDifference(a, b, k) {
          if k > 0 && k <= |a| && k <= |b| {
            assert a[..k][0] == a[0] && b[..k][0] == b[0];
          }
        }
      }
    }
  }

  lemma LexTail(a: string, b: string)
    requires a != [] && b != [] && a[0] == b[0]
    ensures (exists k: nat :: FirstDifference(a, b, k)) <==> exists k: nat :: FirstDifference(a[1..], b[1..], k)
  {
    if k: nat :| FirstDifference(a, b, k) {
      if k > 0 {
        assert a[1..][..k - 1] == a[..k][1..] && b[1..][..k - 1] == b[..k][1..];
        assert FirstDifference(a[1..], b[1..], k - 1);
      }
    }
    if k: nat :| FirstDifference(a[1..], b[1..], k) {
      assert a[..k + 1] == [a[0]] + a[1..][..k] && b[..k + 1] == [b[0]] + b[1..][..k];
      assert FirstDifference(a, b, k + 1);
    }
  }

  /** The number a text of decimal digits stands for. */
  function ValueOf(s: string): int {
    if s == [] then 0 else 10 * ValueOf(s[..|s| - 1]) + (s[|s| - 1] as int - '0' as int)
  }

  /** Writing a number and reading it gives the number. */
  lemma {:induction false} DecimalReadsBack(n: nat)
    ensures ValueOf(Decimal(n)) == n
  {
    var s := Decimal(n);
    if n < 10 {
      assert s[..0] == [];
    } else {
      DecimalReadsBack(n / 10);
      assert s[..|s| - 1] == Decimal(n / 10);
    }
  }

  lemma {:induction false} TrimStartPadded(before: string, s: string, space: char -> bool)
    requires AllSpace(before, space)
    ensures TrimStart(before + s, space) == TrimStart(s, space)
  {
    if before == [] {
      assert before + s == s;
    } else {
      assert (before + s)[1..] == before[1..] + s;
      TrimStartPadded(before[1..], s, space);
    }
  }

  lemma {:induction false} TrimEndPadded(s: string, after: string, space: char -> bool)
    requires AllSpace(after, space)
    ensures TrimEnd(s + after, space) == TrimEnd(s, space)
  {
    if after == [] {
      assert s + after == s;
    } else {
      var n := |after| - 1;
      assert (s + after)[..|s| + n] == s + after[..n];
      assert (s + after)[|s| + n] == after[n];
      TrimEndPadded(s, after[..n], space);
    }
  }

  lemma {:induction false} TrimStartKeepsEnd(s: string, after: string, space: char -> bool)
    requires AllSpace(after, space)
    ensures TrimEnd(TrimStart(s + after, space), space) == TrimEnd(TrimStart(s, space), space)
  {
    if s == [] {
      assert s + after == after;
      TrimStartPadded(after, [], space);
      assert after + [] == after;
    } else if space(s[0]) {
      assert (s + after)[1..] == s[1..] + after && (s + after)[0] == s[0];
      TrimStartKeepsEnd(s[1..], after, space);
    } else {
      assert (s + after)[0] == s[0];
      TrimEndPadded(s, after, space);
    }
  }

  lemma Regroup(a: string, b: string, c: string)
    ensures a + b + c == a + (b + c)
  {
  }

  /** Blanks around a text make no difference to its trimmed form. */
  lemma TrimPadded(before: string, s: string, after: string, space: char -> bool)
    requires AllSpace(before, space) && AllSpace(after, space)
    ensures TrimBy(before + s + after, space) == TrimBy(s, space)
  {
    Regroup(before, s, after);
    TrimStartPadded(before, s + after, space);
    TrimStartKeepsEnd(s, after, space);
  }

  /** Blanks, tabs, line ends, no-break and ideographic spaces. */
  predicate CommonSpace(s: string) {
    forall i :: 0 <= i < |s| ==>
      || s[i] == ' ' || s[i] == '\t' || s[i] == '\n' || s[i] == '\r'
      || s[i] as int == 0x0B || s[i] as int == 0x0C || s[i] as int == 0xA0 || s[i] as int == 0x3000
  }

  /** They are all trimmed, and no printable ASCII character is. */
  lemma TrimmedSpace(before: string, s: string, after: string)
    requires CommonSpace(before) && CommonSpace(after)
    requires s != [] ==> '!' <= s[0] <= '~' && '!' <= s[|s| - 1] <= '~'
    ensures Trim(before + s + after) == s
  {
    TrimPadded(before, s, after, UnicodeSpace);
    TrimIdentity(s, UnicodeSpace);
  }
}
