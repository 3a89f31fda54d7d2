/**
 Evaluating the text of an expression is evaluating the expression.
 */
module AlertAgreement {
  import opened Wrappers
  import opened Text
  import opened AlertSplit
  import opened AlertEval
  import opened AlertSyntax
  import opened AlertWords
  import opened AlertFactors

  // ----------------------------------------------------------------------- terms

  lemma NotKeyword(w: string)
    requires FactorEnd(w)
    ensures w != "/" && w != "-" && w != "or" && w != "and"
  {
  }

  lemma KeywordsAreWords()
    ensures Keyword("/") && Keyword("-") && Keyword("or") && Keyword("and")
    ensures Word("/") && Word("-") && Word("or") && Word("and")
  {
    FlowPlain("/", 0, 0);
    FlowPlain("-", 0, 0);
    FlowPlain("or", 0, 0);
    FlowPlain("and", 0, 0);
  }

  /** Texts that peel to the same evaluate to the same. */
  lemma SamePeeled(env: Env, a: string, b: string)
    requires StripParens(Strip(a)) == StripParens(Strip(b))
    ensures EvaluateTerm(env, a) == EvaluateTerm(env, b)
  {
  }

  /** Parentheses around a term change nothing. */
  lemma ParenPeels(env: Env, ws: seq<string>)
    requires ws != [] && AllWords(ws)
    ensures EvaluateTerm(env, "(" + Join(ws, " ") + ")") == EvaluateTerm(env, Join(ws, " "))
  {
    var body := Join(ws, " ");
    var text := "(" + body + ")";
    JoinEnds(ws);
    FlowJoin(ws);
    WrappedExactly(body, []);
    assert text + [] == text;
    assert text[1..|text| - 1] == body;
    TrimIdentity(text, RubySpace);
    SamePeeled(env, text, body);
  }

  /** One word that is no parenthesised term is a factor. */
  lemma PlainWord(env: Env, w: string)
    requires Word(w) && FactorEnd(w) && w[0] != '('
    ensures EvaluateTerm(env, w) == EvaluateFactor(env, w)
  {
    KeywordsAreWords();
    NotKeyword(w);
    TrimIdentity(w, RubySpace);
    assert StripParens(w) == w;
    assert Join([w], " ") == w;
    SplitNone([w], "/");
    SplitNone([w], "-");
  }

  /** Something after a first word keeps the text from being peeled. */
  lemma WordsNotPeeled(w: string, rest: seq<string>)
    requires Word(w) && rest != []
    ensures StripParens(Join([w] + rest, " ")) == Join([w] + rest, " ")
  {
    var tail := " " + Join(rest, " ");
    JoinTwo(w, rest, " ");
    assert w + " " + Join(rest, " ") == w + tail;
    var text := w + tail;
    if "(" <= text {
      assert w[0] == text[0] == '(';
      assert text[1..] == w[1..] + tail;
      WrappedStops(w[1..], tail, 1);
    }
  }

  /** Two words around an operator are not peeled, and are split at the operator. */
  lemma BinaryWords(env: Env, l: string, division: bool, r: string)
    requires Word(l) && Word(r) && FactorEnd(l) && FactorEnd(r)
    ensures EvaluateTerm(env, Join([l, if division then "/" else "-", r], " "))
      == Arithmetic(division, EvaluateTerm(env, l), EvaluateTerm(env, r))
  {
    var op := if division then "/" else "-";
    var ws := [l, op, r];
    KeywordsAreWords();
    NotKeyword(l);
    NotKeyword(r);
    JoinEnds(ws);
    assert ws == [l] + [op, r];
    WordsNotPeeled(l, [op, r]);
    BinarySplit(l, op, r);
    if !division {
      SplitNone(ws, "/");
    }
  }

  lemma BinarySplit(l: string, op: string, r: string)
    requires Word(l) && Word(r) && Word(op) && Keyword(op) && op != l && op != r
    ensures Split(Join([l, op, r], " "), Needle(op), 0) == [l, r]
  {
    assert [l] + [op] + [r] == [l, op, r];
    assert Join([l], " ") == l && Join([r], " ") == r;
    SplitFirst([l], [r], op);
    SplitNone([r], op);
  }

  lemma FactorAgrees(env: Env, f: Factor)
    requires FactorOk(env, f)
    ensures EvaluateTerm(env, FactorText(f)) == Value(DenoteFactor(env, f))
    decreases f, 0
  {
    FactorWord(env, f);
    if f.Paren? {
      TermWordsOk(env, f.term);
      ParenPeels(env, TermWords(f.term));
      TermAgrees(env, f.term);
    } else {
      PlainStart(env, f);
      PlainWord(env, FactorText(f));
      PlainFactorReadBack(env, f);
    }
  }

  lemma PlainStart(env: Env, f: Factor)
    requires FactorOk(env, f) && !f.Paren?
    ensures FactorText(f) != [] && FactorText(f)[0] != '('
  {
    match f
    case Time =>
    case Number(literal) => assert NumberChar(literal[0]);
    case Absent(s) =>
    case Aggregated(max, i) =>
  }

  lemma TermAgrees(env: Env, t: Term)
    requires TermOk(env, t)
    ensures EvaluateTerm(env, TermText(t)) == Value(DenoteTerm(env, t))
    decreases t, 1
  {
    if t.Single? {
      SingleText(t.factor);
      FactorAgrees(env, t.factor);
    } else {
      FactorAgrees(env, t.left);
      FactorAgrees(env, t.right);
      BinaryTerm(env, t.left, t.division, t.right);
      ArithmeticMeans(env, t.left, t.division, t.right);
    }
  }

  lemma SingleText(f: Factor)
    ensures TermText(Single(f)) == FactorText(f)
  {
  }

  lemma ArithmeticMeans(env: Env, l: Factor, division: bool, r: Factor)
    requires FactorOk(env, l) && FactorOk(env, r)
    ensures Arithmetic(division, Value(DenoteFactor(env, l)), Value(DenoteFactor(env, r)))
      == Value(DenoteTerm(env, Binary(l, division, r)))
  {
  }

  lemma BinaryTerm(env: Env, l: Factor, division: bool, r: Factor)
    requires FactorOk(env, l) && FactorOk(env, r)
    ensures EvaluateTerm(env, TermText(Binary(l, division, r)))
      == Arithmetic(division, EvaluateTerm(env, FactorText(l)), EvaluateTerm(env, FactorText(r)))
  {
    FactorWord(env, l);
    FactorWord(env, r);
    BinaryWords(env, FactorText(l), division, FactorText(r));
  }

  // ----------------------------------------------------------------- comparisons

  predicate CmpChar(c: char) {
    c == '<' || c == '>' || c == '='
  }

  predicate ClosesAfter(t: string, p: int) {
    exists q :: p < q < |t| && 0 <= q && t[q] == ')'
  }

  /** Comparison signs occur only where a parenthesis still closes, and the text is one line. */
  predicate Calm(t: string) {
    (forall p :: 0 <= p < |t| && CmpChar(t[p]) ==> ClosesAfter(t, p))
    && forall p :: 0 <= p < |t| ==> t[p] != '\n'
  }

  lemma CalmConcat(a: string, b: string)
    requires Calm(a) && Calm(b)
    ensures Calm(a + b)
  {
    var t := a + b;
    forall p | 0 <= p < |t| && CmpChar(t[p]) ensures ClosesAfter(t, p) {
      if p < |a| {
        var q :| p < q < |a| && 0 <= q && a[q] == ')';
        assert t[q] == ')';
      } else {
        assert b[p - |a|] == t[p];
        var q :| p - |a| < q < |b| && 0 <= q && b[q] == ')';
        assert t[q + |a|] == ')';
      }
    }
  }

  lemma CalmClosed(t: string)
    requires t != [] && t[|t| - 1] == ')' && forall p :: 0 <= p < |t| ==> t[p] != '\n'
    ensures Calm(t)
  {
    forall p | 0 <= p < |t| && CmpChar(t[p]) ensures ClosesAfter(t, p) {
      assert p < |t| - 1;
    }
  }

  predicate OneLine(s: string) {
    forall p :: 0 <= p < |s| ==> s[p] != '\n'
  }

  lemma CallCalm(head: string, body: string)
    requires OneLine(head) && OneLine(body)
    ensures Calm(head + body + ")")
  {
    CalmClosed(head + body + ")");
  }

  lemma NumberCalm(env: Env, literal: string)
    requires LiteralOk(env, literal)
    ensures Calm(literal)
  {
    LiteralIsNumber(env, literal);
    assert forall p :: 0 <= p < |literal| ==> NumberChar(literal[p]);
  }

  lemma FactorCalm(env: Env, f: Factor)
    requires FactorOk(env, f)
    ensures Calm(FactorText(f))
    decreases f, 0
  {
    match f
    case Time => CalmClosed("time()");
    case Number(literal) => NumberCalm(env, literal);
    case Absent(s) =>
      SelectorQuiet(s);
      CallCalm("absent(", SelectorText(s));
    case Aggregated(max, i) =>
      InnerOneLine(i);
      CallCalm(if max then "max(" else "sum(", InnerText(i));
    case Paren(t) =>
      TermCalm(env, t);
      CallCalm("(", TermText(t));
  }

  lemma OneLineConcat(a: string, b: string)
    requires OneLine(a) && OneLine(b)
    ensures OneLine(a + b)
  {
  }

  lemma InnerOneLine(i: Inner)
    requires InnerOk(i)
    ensures OneLine(InnerText(i))
  {
    var selector := SelectorText(i.selector);
    SelectorQuiet(i.selector);
    if i.Increase? {
      DigitsAreDigits(i.count);
      UnitIsUnit(i.unit);
      OneLineConcat("increase(", selector);
      OneLineConcat("increase(" + selector, "[");
      OneLineConcat("increase(" + selector + "[", i.count);
      OneLineConcat("increase(" + selector + "[" + i.count, [i.unit]);
      OneLineConcat("increase(" + selector + "[" + i.count + [i.unit], "])");
    }
  }

  lemma TermCalm(env: Env, t: Term)
    requires TermOk(env, t)
    ensures Calm(TermText(t))
    decreases t, 1
  {
    match t
    case Single(f) => FactorCalm(env, f);
    case Binary(l, division, r) =>
      FactorCalm(env, l);
      FactorCalm(env, r);
      var op := if division then "/" else "-";
      assert Calm(" " + op + " ");
      CalmConcat(FactorText(l), " " + op + " ");
      CalmConcat(FactorText(l) + (" " + op + " "), FactorText(r));
      JoinThree(FactorText(l), op, FactorText(r));
  }

  lemma JoinThree(a: string, b: string, c: string)
    ensures Join([a, b, c], " ") == a + (" " + b + " ") + c
  {
    assert [a, b, c][1..] == [b, c] && [b, c][1..] == [c];
    assert Join([b, c], " ") == b + " " + c;
    assert a + " " + (b + " " + c) == a + (" " + b + " ") + c;
  }

  lemma {:induction false} TrimStartKeeps(s: string, space: char -> bool, i: nat)
    requires i < |s| && !space(s[i])
    ensures s[i] in TrimStart(s, space)
  {
    if i > 0 && space(s[0]) {
      TrimStartKeeps(s[1..], space, i - 1);
    }
  }

  lemma {:induction false} TrimEndKeeps(s: string, space: char -> bool, i: nat)
    requires i < |s| && !space(s[i])
    ensures s[i] in TrimEnd(s, space)
  {
    if i < |s| - 1 && space(s[|s| - 1]) {
      TrimEndKeeps(s[..|s| - 1], space, i);
    }
  }

  /** A text with a closing parenthesis is not just a number. */
  lemma CloseIsNoNumber(s: string, i: nat)
    requires i < |s| && s[i] == ')'
    ensures NumberOnly(s).None?
  {
    TrimStartKeeps(s, RegexSpace, i);
    var t := TrimStart(s, RegexSpace);
    var j :| 0 <= j < |t| && t[j] == ')';
    TrimEndKeeps(t, RegexSpace, j);
    var u := TrimEnd(t, RegexSpace);
    var k :| 0 <= k < |u| && u[k] == ')';
    assert !NumberChar(u[k]);
  }

  /** Inside a calm text no comparison is found. */
  lemma CalmNoCmp(t: string, rest: string, p: nat, cmp: Cmp)
    requires Calm(t) && p < |t|
    ensures !CmpAt((t + rest)[p..], cmp)
  {
    var s := (t + rest)[p..];
    var op := CmpText(cmp);
    if op <= s {
      assert s[0] == t[p] == op[0];
      var q :| p < q < |t| && 0 <= q && t[q] == ')';
      assert s[q - p] == ')';
      assert |op| == 2 ==> s[1] == op[1] == '=';
      assert s[|op|..][q - p - |op|] == ')';
      CloseIsNoNumber(s[|op|..], q - p - |op|);
    }
  }

  /** The search passes over positions where nothing is found. */
  lemma {:induction false} FindSkips(text: string, i: nat, j: nat)
    requires i <= j <= |text|
    requires forall p, cmp :: i <= p < j ==> !CmpAt(text[p..], cmp)
    requires forall p :: i <= p < j ==> text[p] != '\n'
    ensures FindComparison(text, i) == FindComparison(text, j)
    decreases j - i
  {
    if i < j {
      assert !CmpAt(text[i..], Ge) && !CmpAt(text[i..], Le) && !CmpAt(text[i..], Eq);
      assert !CmpAt(text[i..], Gt) && !CmpAt(text[i..], Lt);
      FindSkips(text, i + 1, j);
    }
  }

  lemma NoComparison(t: string)
    requires Calm(t)
    ensures FindComparison(t, 0).None?
  {
    forall p, cmp | 0 <= p < |t| ensures !CmpAt(t[p..], cmp) {
      CalmNoCmp(t, [], p, cmp);
      assert t + [] == t;
    }
    FindSkips(t, 0, |t|);
  }

  /** The operator is found where it is, if only a number and blanks follow. */
  lemma CmpHere(cmp: Cmp, rest: string, bound: string)
    requires rest != [] && rest[0] != '=' && NumberOnly(rest) == Some(bound)
    ensures var s := CmpText(cmp) + rest;
      && CmpAt(s, cmp) && s[|CmpText(cmp)|..] == rest && forall other :: CmpAt(s, other) ==> other == cmp
  {
    var s := CmpText(cmp) + rest;
    assert s[|CmpText(cmp)|..] == rest;
    forall other | CmpAt(s, other) ensures other == cmp {
      OnlyCmp(cmp, rest, other);
    }
  }

  lemma OnlyCmp(cmp: Cmp, rest: string, other: Cmp)
    requires rest != [] && rest[0] != '=' && CmpAt(CmpText(cmp) + rest, other)
    ensures other == cmp
  {
    var s := CmpText(cmp) + rest;
    assert s[|CmpText(cmp)|] == rest[0];
    assert s[0] == CmpText(cmp)[0] == CmpText(other)[0];
    if |CmpText(other)| == 2 { assert s[1] == '='; }
    if |CmpText(cmp)| == 2 && |CmpText(other)| == 1 {
      assert s[1] == '=';
      EqualsIsNoNumber(s[1..]);
    }
  }

  lemma EqualsIsNoNumber(s: string)
    requires s != [] && s[0] == '='
    ensures NumberOnly(s).None?
  {
    assert TrimStart(s, RegexSpace) == s;
    TrimEndKeeps(s, RegexSpace, 0);
    var t := TrimEnd(s, RegexSpace);
    var k :| 0 <= k < |t| && t[k] == '=';
    assert !NumberChar(t[k]);
  }

  /** Nothing is found before the operator. */
  lemma SearchReaches(t: string, s: string)
    requires Calm(t)
    ensures FindComparison(t + s, 0) == FindComparison(t + s, |t|)
  {
    forall p, c | 0 <= p < |t| ensures !CmpAt((t + s)[p..], c) {
      CalmNoCmp(t, s, p, c);
    }
    FindSkips(t + s, 0, |t|);
  }

  /** The search at a position where one operator matches. */
  lemma FindsOnly(text: string, i: nat, cmp: Cmp)
    requires i < |text| && CmpAt(text[i..], cmp) && forall other :: CmpAt(text[i..], other) ==> other == cmp
    ensures FindComparison(text, i)
      == Some(Comparison(text[..i], cmp, NumberOnly(text[i..][|CmpText(cmp)|..]).value))
  {
    assert |CmpText(cmp)| == if cmp.Gt? || cmp.Lt? then 1 else 2;
    assert forall other :: CmpAt(text[i..], other) <==> other == cmp;
  }

  /** The search at the operator. */
  lemma FoundHere(before: string, cmp: Cmp, rest: string, bound: string)
    requires rest != [] && rest[0] != '=' && NumberOnly(rest) == Some(bound)
    ensures FindComparison(before + (CmpText(cmp) + rest), |before|) == Some(Comparison(before, cmp, bound))
  {
    var s := CmpText(cmp) + rest;
    var text := before + s;
    assert text[|before|..] == s && text[..|before|] == before;
    CmpHere(cmp, rest, bound);
    FindsOnly(text, |before|, cmp);
  }

  /** Whatever signs the text before it holds in its selectors, the comparison found is the one written. */
  lemma ComparisonFound(t: string, cmp: Cmp, rest: string, bound: string)
    requires Calm(t) && rest != [] && rest[0] != '=' && NumberOnly(rest) == Some(bound)
    ensures FindComparison(t + (CmpText(cmp) + rest), 0) == Some(Comparison(t, cmp, bound))
  {
    SearchReaches(t, CmpText(cmp) + rest);
    FoundHere(t, cmp, rest, bound);
  }

  predicate Blank(s: string) {
    forall i :: 0 <= i < |s| ==> s[i] == ' ' || s[i] == '\t' || s[i] == '\n' || s[i] == '\r'
  }

  /** A number with blanks around it. */
  lemma NumberBetweenBlanks(before: string, bound: string, after: string)
    requires Blank(before) && Blank(after) && AllNumber(bound)
    ensures NumberOnly(before + bound + after) == Some(bound)
    ensures before + bound + after != [] && (before + bound + after)[0] != '='
  {
    assert NumberChar(bound[0]) && NumberChar(bound[|bound| - 1]);
    TrimPadded(before, bound, after, RegexSpace);
    TrimIdentity(bound, RegexSpace);
    assert (before + bound + after)[0] == if before == [] then bound[0] else before[0];
  }

  // -------------------------------------------------------------------- operands

  lemma {:induction false} JoinAppend(a: seq<string>, b: seq<string>)
    requires a != [] && b != []
    ensures Join(a + b, " ") == Join(a, " ") + " " + Join(b, " ")
  {
    if |a| == 1 {
      assert a + b == [a[0]] + b;
      JoinTwo(a[0], b, " ");
    } else {
      assert a + b == [a[0]] + (a[1..] + b);
      JoinTwo(a[0], a[1..] + b, " ");
      JoinAppend(a[1..], b);
      assert a[0] + " " + (Join(a[1..], " ") + " " + Join(b, " "))
        == a[0] + " " + Join(a[1..], " ") + " " + Join(b, " ");
    }
  }

  function OperandText(o: Operand): string {
    Join(OperandWords(o), " ")
  }

  /** A comparison, written out. */
  lemma ComparedText(t: Term, sign: string, bound: string)
    ensures OperandText(Compared(t, sign, bound)) == TermText(t) + " " + (sign + " " + bound)
  {
    var tail := [sign, bound];
    JoinAppend(TermWords(t), tail);
    assert tail[1..] == [bound];
    assert Join(tail, " ") == sign + " " + bound;
  }

  /** The operator a sign is read as. */
  function CmpOf(sign: string): Cmp {
    if sign == ">" then Gt else if sign == "<" then Lt else if sign == ">=" then Ge else if sign == "<=" then Le else Eq
  }

  /** Each sign is read as the relation it writes. */
  lemma SignsAreRead(x: real, sign: string, n: real)
    requires SignOk(sign)
    ensures CmpText(CmpOf(sign)) == sign && (Compare(CmpOf(sign), x, n) <==> Holds(x, sign, n))
  {
  }

  /** A text, a sign and a number are evaluated as such. */
  lemma ComparedString(env: Env, text: string, sign: string, rest: string, bound: string)
    requires Calm(text) && SignOk(sign) && rest != [] && rest[0] != '=' && NumberOnly(rest) == Some(bound)
    ensures EvaluateOperand(env, text + (sign + rest))
      == Filter(env, EvaluateTerm(env, Strip(text)), CmpOf(sign), bound)
  {
    SignsAreRead(0.0, sign, 0.0);
    ComparisonFound(text, CmpOf(sign), rest, bound);
  }

  /** Blanks after a term do not matter to it. */
  lemma TermThenBlanks(env: Env, t: Term, b: string)
    requires TermOk(env, t) && Blank(b) && OneLine(b)
    ensures Calm(TermText(t) + b) && Strip(TermText(t) + b) == TermText(t)
  {
    TermWordsOk(env, t);
    TermCalm(env, t);
    CalmConcat(TermText(t), b);
    JoinEnds(TermWords(t));
    StripBlanksAfter(TermText(t), b);
  }

  lemma StripBlanksAfter(text: string, b: string)
    requires Blank(b)
    ensures Strip(text + b) == Strip(text)
  {
    TrimPadded([], text, b, RubySpace);
    assert [] + text + b == text + b;
  }

  /** A comparison is evaluated on its term, whatever blanks stand around the sign and the number; before the
      sign they are on one line. */
  lemma ComparedOn(env: Env, t: Term, b1: string, sign: string, b2: string, bound: string, b3: string)
    requires TermOk(env, t) && AllNumber(bound) && SignOk(sign)
    requires Blank(b1) && OneLine(b1) && Blank(b2) && Blank(b3)
    ensures EvaluateOperand(env, TermText(t) + b1 + (sign + (b2 + bound + b3)))
      == Filter(env, EvaluateTerm(env, TermText(t)), CmpOf(sign), bound)
  {
    TermThenBlanks(env, t, b1);
    NumberBetweenBlanks(b2, bound, b3);
    ComparedString(env, TermText(t) + b1, sign, b2 + bound + b3, bound);
  }

  lemma BlankAfter(sign: string, bound: string)
    ensures sign + " " + bound == sign + (" " + bound)
  {
  }

  lemma FilterMeans(env: Env, left: Option<real>, sign: string, bound: string)
    requires SignOk(sign) && env.float(bound).Some?
    ensures Filter(env, Value(left), CmpOf(sign), bound)
      == Value(if left.Some? && !Holds(left.value, sign, env.float(bound).value) then None else left)
  {
    if left.Some? {
      SignsAreRead(left.value, sign, env.float(bound).value);
    }
  }

  lemma OperandAgreesOn(env: Env, o: Operand)
    requires OperandOk(env, o)
    ensures EvaluateOperand(env, OperandText(o)) == Value(DenoteOperand(env, o))
  {
    TermAgrees(env, o.term);
    if o.Bare? {
      TermCalm(env, o.term);
      NoComparison(TermText(o.term));
    } else {
      LiteralIsNumber(env, o.bound);
      ComparedText(o.term, o.sign, o.bound);
      assert " " + o.bound + [] == " " + o.bound;
      BlankAfter(o.sign, o.bound);
      ComparedOn(env, o.term, " ", o.sign, " ", o.bound, []);
      FilterMeans(env, DenoteTerm(env, o.term), o.sign, o.bound);
    }
  }

  lemma TermHasNoKeywords(env: Env, t: Term)
    requires TermOk(env, t)
    ensures "or" !in TermWords(t) && "and" !in TermWords(t)
  {
    TermWordsOk(env, t);
    NotKeyword(TermWords(t)[0]);
    NotKeyword(TermWords(t)[|TermWords(t)| - 1]);
  }

  lemma ComparisonWords(env: Env, sign: string, bound: string)
    requires LiteralOk(env, bound) && SignOk(sign)
    ensures Word(sign) && Word(bound) && sign != "or" && sign != "and" && bound != "or" && bound != "and"
  {
    LiteralIsNumber(env, bound);
    FlowPlain(sign, 0, 0);
    FlowPlain(bound, 0, 0);
    NotKeyword(bound);
  }

  lemma TwoMoreWords(ws: seq<string>, a: string, b: string)
    requires AllWords(ws) && Word(a) && Word(b)
    requires "or" !in ws && "and" !in ws && a != "or" && a != "and" && b != "or" && b != "and"
    ensures AllWords(ws + [a, b]) && "or" !in ws + [a, b] && "and" !in ws + [a, b]
  {
  }

  lemma OperandWordsOk(env: Env, o: Operand)
    requires OperandOk(env, o)
    ensures AllWords(OperandWords(o)) && "or" !in OperandWords(o) && "and" !in OperandWords(o)
  {
    TermWordsOk(env, o.term);
    TermHasNoKeywords(env, o.term);
    if o.Compared? {
      ComparisonWords(env, o.sign, o.bound);
      TwoMoreWords(TermWords(o.term), o.sign, o.bound);
    }
  }

  /** A single operand goes straight to comparison. */
  lemma OperandAgrees(env: Env, o: Operand)
    requires OperandOk(env, o)
    ensures Evaluate(env, OperandText(o)) == Value(DenoteOperand(env, o))
  {
    var ws := OperandWords(o);
    OperandWordsOk(env, o);
    KeywordsAreWords();
    JoinEnds(ws);
    SplitNone(ws, "or");
    SplitNone(ws, "and");
    OperandAgreesOn(env, o);
  }

  // ------------------------------------------------------------ groups, expressions

  lemma EvaluateAllAgrees(env: Env, parts: seq<string>, values: seq<Outcome>, bound: nat)
    requires forall part :: part in parts ==> |part| < bound
    requires |parts| == |values| && forall i :: 0 <= i < |parts| ==> Evaluate(env, parts[i]) == values[i]
    ensures EvaluateAll(env, parts, bound) == values
  {
  }

  function OperandTexts(g: seq<Operand>): (r: seq<string>)
    ensures |r| == |g| && forall i :: 0 <= i < |g| ==> r[i] == OperandText(g[i])
  {
    if g == [] then [] else [OperandText(g[0])] + OperandTexts(g[1..])
  }

  ghost function OperandValues(env: Env, g: seq<Operand>): (r: seq<Outcome>)
    requires forall i :: 0 <= i < |g| ==> OperandOk(env, g[i])
    ensures |r| == |g| && forall i :: 0 <= i < |g| ==> r[i] == Value(DenoteOperand(env, g[i]))
  {
    seq(|g|, i requires 0 <= i < |g| => Value(DenoteOperand(env, g[i])))
  }

  /** The text of a group is made of words without `or`, and splits into the texts of its operands. */
  ghost predicate SplitsIntoOperands(g: seq<Operand>) {
    && g != [] && AllWords(GroupWords(g)) && "or" !in GroupWords(g)
    && Split(Join(GroupWords(g), " "), Needle("and"), 0) == OperandTexts(g)
  }

  predicate PlainOperand(o: Operand) {
    AllWords(OperandWords(o)) && "or" !in OperandWords(o) && "and" !in OperandWords(o)
  }

  lemma OneOperandSplits(g: seq<Operand>)
    requires |g| == 1 && PlainOperand(g[0])
    ensures SplitsIntoOperands(g)
  {
    KeywordsAreWords();
    SplitNone(OperandWords(g[0]), "and");
    assert OperandTexts(g) == [OperandText(g[0])];
  }

  /** The first `and` cuts off the first operand. */
  lemma MoreOperandsSplit(g: seq<Operand>)
    requires |g| > 1 && PlainOperand(g[0]) && SplitsIntoOperands(g[1..])
    ensures SplitsIntoOperands(g)
  {
    KeywordsAreWords();
    SplitFirst(OperandWords(g[0]), GroupWords(g[1..]), "and");
    assert OperandTexts(g) == [OperandText(g[0])] + OperandTexts(g[1..]);
  }

  lemma {:induction false} GroupWordsOk(env: Env, g: seq<Operand>)
    requires GroupOk(env, g)
    ensures SplitsIntoOperands(g)
  {
    OperandWordsOk(env, g[0]);
    if |g| == 1 {
      OneOperandSplits(g);
    } else {
      GroupWordsOk(env, g[1..]);
      MoreOperandsSplit(g);
    }
  }

  lemma CombineValues(env: Env, g: seq<Operand>)
    requires GroupOk(env, g)
    ensures CombineAnd(OperandValues(env, g)) == Value(DenoteGroup(env, g))
  {
    var values := OperandValues(env, g);
    if !(forall i :: 0 <= i < |g| ==> DenoteOperand(env, g[i]).Some?) {
      var i :| 0 <= i < |g| && DenoteOperand(env, g[i]).None?;
      assert values[i] == Value(None);
    }
  }

  function GroupText(g: seq<Operand>): string
    requires g != []
  {
    Join(GroupWords(g), " ")
  }

  lemma SeveralOperands(env: Env, g: seq<Operand>)
    requires GroupOk(env, g) && |g| > 1
    ensures Evaluate(env, GroupText(g)) == CombineAnd(OperandValues(env, g))
  {
    var text := GroupText(g);
    GroupWordsOk(env, g);
    KeywordsAreWords();
    JoinEnds(GroupWords(g));
    SplitNone(GroupWords(g), "or");
    forall i | 0 <= i < |g| ensures Evaluate(env, OperandTexts(g)[i]) == OperandValues(env, g)[i] {
      OperandAgrees(env, g[i]);
    }
    PartsAreShorter(text, Needle("and"), 0);
    EvaluateAllAgrees(env, OperandTexts(g), OperandValues(env, g), |text|);
  }

  lemma GroupAgrees(env: Env, g: seq<Operand>)
    requires GroupOk(env, g)
    ensures Evaluate(env, GroupText(g)) == Value(DenoteGroup(env, g))
  {
    if |g| == 1 {
      OperandAgrees(env, g[0]);
    } else {
      SeveralOperands(env, g);
      CombineValues(env, g);
    }
  }

  function GroupTexts(e: Expr): (r: seq<string>)
    requires forall i :: 0 <= i < |e| ==> e[i] != []
    ensures |r| == |e| && forall i :: 0 <= i < |e| ==> r[i] == GroupText(e[i])
  {
    if e == [] then [] else [GroupText(e[0])] + GroupTexts(e[1..])
  }

  ghost function GroupValues(env: Env, e: Expr): (r: seq<Outcome>)
    requires forall i :: 0 <= i < |e| ==> GroupOk(env, e[i])
    ensures |r| == |e| && forall i :: 0 <= i < |e| ==> r[i] == Value(DenoteGroup(env, e[i]))
  {
    seq(|e|, i requires 0 <= i < |e| => Value(DenoteGroup(env, e[i])))
  }

  lemma ExprTail(env: Env, e: Expr)
    requires ExprOk(env, e) && |e| > 1
    ensures ExprOk(env, e[1..])
  {
  }

  lemma ExprShaped(env: Env, e: Expr)
    requires ExprOk(env, e)
    ensures Shaped(e) && GroupOk(env, e[0])
  {
    assert forall i :: 0 <= i < |e| ==> GroupOk(env, e[i]);
  }

  /** The text of an expression is made of words, and splits into the texts of its groups. */
  ghost predicate SplitsIntoGroups(e: Expr) {
    Shaped(e) && AllWords(ExprWords(e)) && Split(ExprText(e), Needle("or"), 0) == GroupTexts(e)
  }

  predicate PlainGroup(g: seq<Operand>) {
    g != [] && AllWords(GroupWords(g)) && "or" !in GroupWords(g)
  }

  lemma OneGroupSplits(e: Expr)
    requires |e| == 1 && PlainGroup(e[0])
    ensures SplitsIntoGroups(e)
  {
    KeywordsAreWords();
    SplitNone(GroupWords(e[0]), "or");
    assert GroupTexts(e) == [GroupText(e[0])];
  }

  /** The first `or` cuts off the first group. */
  lemma MoreGroupsSplit(e: Expr)
    requires |e| > 1 && PlainGroup(e[0]) && SplitsIntoGroups(e[1..])
    ensures SplitsIntoGroups(e)
  {
    KeywordsAreWords();
    assert Shaped(e) by {
      forall i | 0 <= i < |e| ensures e[i] != [] {
        if i > 0 { assert e[i] == e[1..][i - 1]; }
      }
    }
    SplitFirst(GroupWords(e[0]), ExprWords(e[1..]), "or");
    assert GroupTexts(e) == [GroupText(e[0])] + GroupTexts(e[1..]);
  }

  lemma {:induction false} ExprWordsOk(env: Env, e: Expr)
    requires ExprOk(env, e)
    ensures SplitsIntoGroups(e)
  {
    ExprShaped(env, e);
    GroupWordsOk(env, e[0]);
    if |e| == 1 {
      OneGroupSplits(e);
    } else {
      ExprTail(env, e);
      ExprWordsOk(env, e[1..]);
      MoreGroupsSplit(e);
    }
  }

  lemma {:induction false} FirstGroup(env: Env, e: Expr)
    requires ExprOk(env, e)
    ensures FirstValue(GroupValues(env, e)) == Value(DenoteExpr(env, e))
  {
    var values := GroupValues(env, e);
    if |e| == 1 {
      assert values[1..] == [];
    } else {
      FirstGroup(env, e[1..]);
      assert values[1..] == GroupValues(env, e[1..]);
    }
  }

  /** For every expression of the grammar, over any samples, evaluating its text gives its meaning: `and`
      binds tighter than `or`, `or` takes the first non-empty side, `and` keeps its first value when no
      side is empty, comparisons filter, and division by zero is empty. */
  lemma EvaluationAgrees(env: Env, e: Expr)
    requires ExprOk(env, e)
    ensures Shaped(e) && Evaluate(env, ExprText(e)) == Value(DenoteExpr(env, e))
  {
    ExprShaped(env, e);
    if |e| == 1 {
      GroupAgrees(env, e[0]);
    } else {
      SeveralGroups(env, e);
      FirstGroup(env, e);
      assert Raised !in GroupValues(env, e);
    }
  }

  lemma SeveralGroups(env: Env, e: Expr)
    requires ExprOk(env, e) && Shaped(e) && |e| > 1
    ensures Evaluate(env, ExprText(e)) == FirstNonEmpty(GroupValues(env, e))
  {
    var text := ExprText(e);
    ExprWordsOk(env, e);
    JoinEnds(ExprWords(e));
    forall i | 0 <= i < |e| ensures Evaluate(env, GroupTexts(e)[i]) == GroupValues(env, e)[i] {
      assert GroupOk(env, e[i]);
      GroupAgrees(env, e[i]);
    }
    PartsAreShorter(text, Needle("or"), 0);
    EvaluateAllAgrees(env, GroupTexts(e), GroupValues(env, e), |text|);
  }

  // ------------------------------------------------------------------ on the text itself

  lemma SignText(t: Term, sign: string, bound: string)
    ensures OperandText(Compared(t, sign, bound)) == TermText(t) + (" " + sign + " ") + bound
  {
    ComparedText(t, sign, bound);
    assert TermText(t) + " " + (sign + " " + bound) == TermText(t) + (" " + sign + " ") + bound;
  }

  lemma ComparisonMeans(env: Env, t: Term, sign: string, bound: string, x: real, n: real)
    requires TermOk(env, t) && SignOk(sign) && LiteralOk(env, bound)
    requires DenoteTerm(env, t) == Some(x) && env.float(bound) == Some(n)
    ensures Evaluate(env, TermText(t) + (" " + sign + " ") + bound) == Value(if Holds(x, sign, n) then Some(x) else None)
  {
    SignText(t, sign, bound);
    OperandAgrees(env, Compared(t, sign, bound));
  }

  /** A term that means `x`, compared with `n`: it stays exactly if the relation written holds. */
  lemma ComparisonsFilter(env: Env, t: Term, bound: string, x: real, n: real)
    requires TermOk(env, t) && LiteralOk(env, bound) && DenoteTerm(env, t) == Some(x) && env.float(bound) == Some(n)
    ensures Evaluate(env, TermText(t) + " > " + bound) == Value(if x > n then Some(x) else None)
    ensures Evaluate(env, TermText(t) + " < " + bound) == Value(if x < n then Some(x) else None)
    ensures Evaluate(env, TermText(t) + " >= " + bound) == Value(if x >= n then Some(x) else None)
    ensures Evaluate(env, TermText(t) + " <= " + bound) == Value(if x <= n then Some(x) else None)
    ensures Evaluate(env, TermText(t) + " == " + bound) == Value(if x == n then Some(x) else None)
  {
    assert " " + ">" + " " == " > " && " " + "<" + " " == " < " && " " + "==" + " " == " == ";
    assert " " + ">=" + " " == " >= " && " " + "<=" + " " == " <= ";
    ComparisonMeans(env, t, ">", bound, x, n);
    ComparisonMeans(env, t, "<", bound, x, n);
    ComparisonMeans(env, t, ">=", bound, x, n);
    ComparisonMeans(env, t, "<=", bound, x, n);
    ComparisonMeans(env, t, "==", bound, x, n);
  }

  /** ... however it is spaced. */
  lemma SpacingIsFree(env: Env, t: Term, b1: string, sign: string, b2: string, bound: string, b3: string)
    requires TermOk(env, t) && SignOk(sign) && LiteralOk(env, bound)
    requires Blank(b1) && OneLine(b1) && Blank(b2) && Blank(b3)
    ensures EvaluateOperand(env, TermText(t) + b1 + (sign + (b2 + bound + b3)))
      == Value(DenoteOperand(env, Compared(t, sign, bound)))
  {
    LiteralIsNumber(env, bound);
    ComparedOn(env, t, b1, sign, b2, bound, b3);
    TermAgrees(env, t);
    FilterMeans(env, DenoteTerm(env, t), sign, bound);
  }

  lemma SameCut(env: Env, a: string, b: string)
    requires CutOf(a) == CutOf(b)
    ensures Evaluate(env, a) == Evaluate(env, b)
  {
    CutShrinks(a);
    CutShrinks(b);
    if !CutOf(a).Operand? {
      assert EvaluateAll(env, CutOf(a).parts, |a|) == EvaluateAll(env, CutOf(a).parts, |b|);
    }
  }

  /** Spaces, tabs and line ends around an expression make no difference. */
  lemma BlanksAround(env: Env, before: string, text: string, after: string)
    requires Blank(before) && Blank(after)
    ensures Evaluate(env, before + text + after) == Evaluate(env, text)
  {
    TrimPadded(before, text, after, RubySpace);
    SameCut(env, before + text + after, text);
  }
}
