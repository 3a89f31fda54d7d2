/**
 When evaluation raises, for every text: the evaluator looks at some fragments of the text and not at
 others, and it raises exactly when one it looks at is unsupported or a bound it compares with is
 unreadable. The documentation promises an error for everything outside the grammar; the families
 below are outside it and evaluate all the same.
 */
module AlertErrors {
  import opened Wrappers
  import opened Text
  import opened AlertSplit
  import opened AlertEval
  import opened AlertSyntax
  import opened AlertWords
  import opened AlertFactors
  import opened AlertAgreement

  // --------------------------------------------------------- what is looked at, of any text

  /** The factors a term is evaluated by: those of the first two parts of the first operator that splits
      it, or else the term without its parentheses. */
  function Fragments(text0: string): seq<string>
    decreases |text0|
  {
    ShapeShrinks(text0);
    match ShapeOf(text0)
    case Plain(text) => [text]
    case shape => Fragments(shape.left) + Fragments(shape.right)
  }

  /** The operands an expression is evaluated by: all those between `or` and `and`. */
  function Operands(expression: string): seq<string>
    decreases |expression|, 1, 0
  {
    CutShrinks(expression);
    match CutOf(expression)
    case Operand(text) => [text]
    case cut => OperandsOfAll(cut.parts, |expression|)
  }

  function OperandsOfAll(parts: seq<string>, bound: nat): seq<string>
    requires forall part :: part in parts ==> |part| < bound
    decreases bound, 0, |parts|
  {
    if parts == [] then [] else Operands(parts[0]) + OperandsOfAll(parts[1..], bound)
  }

  /** The term of an operand: what stands before its comparison, or all of it. */
  function TermOf(operand: string): string {
    var found := FindComparison(operand, 0);
    if found.None? then operand else Strip(found.value.left)
  }

  function BoundOf(operand: string): Option<string> {
    var found := FindComparison(operand, 0);
    if found.None? then None else Some(found.value.bound)
  }

  // ------------------------------------------------------------------ what is supported

  /** A range over `selector`, such as `increase(m{a="b"}[5m])`. */
  predicate Range(text: string, selector: string, count: string, unit: char) {
    DigitsOk(count) && DurationUnit(unit) && text == "increase(" + selector + "[" + count + [unit] + "])"
  }

  /** A range without a selector, such as `increase([5m])`. */
  ghost predicate BareRange(text: string) {
    exists count, unit :: Range(text, [], count, unit)
  }

  /** Something to select from. */
  ghost predicate InnerSupported(inner: string) {
    Strip(inner) != [] && !BareRange(Strip(inner))
  }

  ghost predicate Call(text: string, head: string, body: string) {
    text == head + body + ")"
  }

  /** The clock, a number, `absent` of anything at all, or an aggregate of something. */
  ghost predicate Supported(env: Env, text: string) {
    || text == "time()"
    || (AllNumber(text) && env.float(text).Some?)
    || SupportedCall(text)
  }

  lemma CallBodyExactly(text: string, head: string, body: string)
    ensures CallBody(text, head) == Some(body) <==> Call(text, head, body)
  {
    if Call(text, head, body) {
      CallReadBack(head, body);
    }
  }

  lemma NotACall(text: string, head: string, body: string)
    requires text != [] && head != [] && text[0] != head[0]
    ensures !Call(text, head, body)
  {
    assert (head + body + ")")[0] == head[0];
  }

  /** A selector is refused only if it is empty: nothing written inside one ever raises. */
  lemma SelectorsNeverRaise(env: Env, text: string)
    ensures ParseSelector(text).None? <==> text == []
    ensures SelectSamples(env, text).None? <==> text == []
  {
  }

  lemma {:induction false} DigitsBefore(s: string, end: nat)
    requires end <= |s|
    ensures forall i :: DigitsFrom(s, end) <= i < end ==> Digit(s[i])
    ensures DigitsFrom(s, end) > 0 ==> !Digit(s[DigitsFrom(s, end) - 1])
    decreases end
  {
    if end > 0 && Digit(s[end - 1]) {
      DigitsBefore(s, end - 1);
    }
  }

  /** What stands before a duration, put back together. */
  lemma DurationParts(s: string) returns (count: string, unit: char)
    requires BeforeDuration(s).Some?
    ensures DigitsOk(count) && DurationUnit(unit) && s == BeforeDuration(s).value + "[" + count + [unit] + "])"
  {
    var n := |s|;
    var start := DigitsFrom(s, n - 3);
    DigitsBefore(s, n - 3);
    count, unit := s[start..n - 3], s[n - 3];
    assert s[start - 1] == '[' && s[n - 2] == ']' && s[n - 1] == ')';
    CutAt(s, start - 1, start, n - 3);
  }

  lemma CutAt(s: string, a: nat, b: nat, c: nat)
    requires a + 1 == b <= c && c + 3 == |s|
    ensures s == s[..a] + [s[a]] + s[b..c] + [s[c]] + [s[c + 1], s[c + 2]]
  {
  }

  /** The selector of a text read as a range. */
  lemma RangeSelector(text: string) returns (selector: string)
    requires "increase(" <= text && BeforeDuration(text).Some? && |BeforeDuration(text).value| >= |"increase("|
    ensures BeforeDuration(text).value == "increase(" + selector
    ensures selector == BeforeDuration(text).value[|"increase("|..]
  {
    var before := BeforeDuration(text).value;
    selector := before[|"increase("|..];
    assert before[..|"increase("|] == text[..|"increase("|] == "increase(";
  }

  /** Read as a range with nothing selected exactly if it is a bare range. */
  lemma BareRangeExactly(text: string)
    ensures "increase(" <= text && BeforeDuration(text) == Some("increase(") <==> BareRange(text)
  {
    if "increase(" <= text && BeforeDuration(text) == Some("increase(") {
      var count, unit := DurationParts(text);
      assert "increase(" + [] + "[" + count + [unit] + "])" == text;
      assert Range(text, [], count, unit);
    }
    if BareRange(text) {
      var count, unit :| Range(text, [], count, unit);
      assert "increase(" + [] == "increase(";
      DurationReadBack("increase(", count, unit);
      assert text[..|"increase("|] == "increase(";
    }
  }

  lemma InnerRaises(env: Env, inner: string)
    ensures InnerValues(env, inner).None? <==> !InnerSupported(inner)
  {
    var text := Strip(inner);
    var before := BeforeDuration(text);
    BareRangeExactly(text);
    if "increase(" <= text && before.Some? && |before.value| >= |"increase("| {
      var selector := RangeSelector(text);
      SelectorsNeverRaise(env, selector);
      assert selector == [] <==> before.value == "increase(";
    } else {
      SelectorsNeverRaise(env, text);
    }
  }

  // ------------------------------------------------------------------------ factors

  lemma AbsentRaises(env: Env, text: string)
    requires CallBody(text, "absent(").Some?
    ensures SelectSamples(env, CallBody(text, "absent(").value).None? <==>
      !exists body :: Call(text, "absent(", body) && body != []
  {
    var body := CallBody(text, "absent(").value;
    CallBodyExactly(text, "absent(", body);
    SelectorsNeverRaise(env, body);
    forall other | Call(text, "absent(", other) ensures other == body {
      CallBodyExactly(text, "absent(", other);
    }
  }

  /** An aggregate under either name. */
  ghost predicate AggregateCall(text: string, body: string) {
    Call(text, "max(", body) || Call(text, "sum(", body)
  }

  lemma AggregateBody(text: string, body: string)
    ensures AggregateCall(text, body) <==> CallBody(text, "max(") == Some(body) || CallBody(text, "sum(") == Some(body)
    ensures CallBody(text, "max(").None? || CallBody(text, "sum(").None?
  {
    CallBodyExactly(text, "max(", body);
    CallBodyExactly(text, "sum(", body);
    assert "max(" <= text ==> text[0] == "max("[0];
    assert "sum(" <= text ==> text[0] == "sum("[0];
  }

  lemma AggregateRaises(env: Env, text: string, body: string)
    requires AggregateCall(text, body)
    ensures InnerValues(env, body).None? <==> !exists other :: AggregateCall(text, other) && InnerSupported(other)
  {
    InnerRaises(env, body);
    AggregateBody(text, body);
    forall other | AggregateCall(text, other) ensures other == body {
      AggregateBody(text, other);
    }
  }

  /** A text with the first character of a number or of `time()` is no call. */
  lemma NoCalls(text: string)
    requires text != [] && text[0] != 'a' && text[0] != 'm' && text[0] != 's'
    ensures forall body :: !Call(text, "absent(", body) && !AggregateCall(text, body)
  {
    forall body ensures !Call(text, "absent(", body) && !AggregateCall(text, body) {
      if Call(text, "absent(", body) { NotACall(text, "absent(", body); }
      if Call(text, "max(", body) { NotACall(text, "max(", body); }
      if Call(text, "sum(", body) { NotACall(text, "sum(", body); }
    }
  }

  lemma FactorRaises(env: Env, text0: string)
    ensures EvaluateFactor(env, text0).Raised? <==> !Supported(env, Strip(text0))
  {
    var text := Strip(text0);
    TrimTidy(text0, RubySpace);
    TrimIdentity(text, RubySpace);
    if text == "time()" {
    } else if AllNumber(text) {
      assert NumberChar(text[0]);
      NoCalls(text);
    } else {
      CallRaises(env, text);
    }
  }

  /** The calls a factor may be. */
  ghost predicate SupportedCall(text: string) {
    || (exists body :: Call(text, "absent(", body) && body != [])
    || (exists body :: AggregateCall(text, body) && InnerSupported(body))
  }

  lemma CallRaises(env: Env, text: string)
    requires text != "time()" && !AllNumber(text) && Strip(text) == text
    ensures EvaluateFactor(env, text).Raised? <==> !SupportedCall(text)
  {
    if CallBody(text, "absent(").Some? {
      AbsentRaises(env, text);
      assert text[0] == 'a';
      NoAggregate(text);
    } else {
      forall body ensures !Call(text, "absent(", body) { CallBodyExactly(text, "absent(", body); }
      AggregateOnly(env, text);
    }
  }

  lemma NoAggregate(text: string)
    requires text != [] && text[0] == 'a'
    ensures forall body :: !AggregateCall(text, body)
  {
    forall body ensures !AggregateCall(text, body) {
      if Call(text, "max(", body) { NotACall(text, "max(", body); }
      if Call(text, "sum(", body) { NotACall(text, "sum(", body); }
    }
  }

  lemma AggregateOnly(env: Env, text: string)
    requires text != "time()" && !AllNumber(text) && Strip(text) == text && CallBody(text, "absent(").None?
    ensures EvaluateFactor(env, text).Raised? <==> !exists body :: AggregateCall(text, body) && InnerSupported(body)
  {
    var max := CallBody(text, "max(");
    var call := if max.Some? then max else CallBody(text, "sum(");
    if call.Some? {
      AggregateBody(text, call.value);
      AggregateRaises(env, text, call.value);
    } else {
      forall body ensures !AggregateCall(text, body) { AggregateBody(text, body); }
    }
  }

  // ------------------------------------------------------------------- terms and expressions

  ghost predicate SomeUnsupported(env: Env, fragments: seq<string>) {
    exists i :: 0 <= i < |fragments| && !Supported(env, Strip(fragments[i]))
  }

  lemma UnsupportedConcat(env: Env, a: seq<string>, b: seq<string>)
    ensures SomeUnsupported(env, a + b) <==> SomeUnsupported(env, a) || SomeUnsupported(env, b)
  {
    if SomeUnsupported(env, a) {
      var i :| 0 <= i < |a| && !Supported(env, Strip(a[i]));
      assert (a + b)[i] == a[i];
    }
    if SomeUnsupported(env, b) {
      var i :| 0 <= i < |b| && !Supported(env, Strip(b[i]));
      assert (a + b)[|a| + i] == b[i];
    }
  }

  /** A term raises exactly when a fragment it is evaluated by is unsupported. */
  lemma {:induction false} TermRaises(env: Env, text0: string)
    ensures EvaluateTerm(env, text0).Raised? <==> SomeUnsupported(env, Fragments(text0))
    decreases |text0|
  {
    var shape := ShapeOf(text0);
    ShapeShrinks(text0);
    if shape.Plain? {
      FactorRaises(env, shape.text);
      assert Fragments(text0)[0] == shape.text;
    } else {
      TermRaises(env, shape.left);
      TermRaises(env, shape.right);
      UnsupportedConcat(env, Fragments(shape.left), Fragments(shape.right));
    }
  }

  /** A comparison with an unreadable bound, reached because its left side is not empty. */
  predicate UnreadableBound(env: Env, operand: string) {
    && BoundOf(operand).Some? && env.float(BoundOf(operand).value).None?
    && EvaluateTerm(env, TermOf(operand)).Value? && EvaluateTerm(env, TermOf(operand)).sample.Some?
  }

  ghost predicate OperandFails(env: Env, operand: string) {
    SomeUnsupported(env, Fragments(TermOf(operand))) || UnreadableBound(env, operand)
  }

  lemma OperandRaises(env: Env, operand: string)
    ensures EvaluateOperand(env, operand).Raised? <==> OperandFails(env, operand)
  {
    TermRaises(env, TermOf(operand));
  }

  ghost predicate SomeFails(env: Env, operands: seq<string>) {
    exists i :: 0 <= i < |operands| && OperandFails(env, operands[i])
  }

  lemma FailsConcat(env: Env, a: seq<string>, b: seq<string>)
    ensures SomeFails(env, a + b) <==> SomeFails(env, a) || SomeFails(env, b)
  {
    if SomeFails(env, a) {
      var i :| 0 <= i < |a| && OperandFails(env, a[i]);
      assert (a + b)[i] == a[i];
    }
    if SomeFails(env, b) {
      var i :| 0 <= i < |b| && OperandFails(env, b[i]);
      assert (a + b)[|a| + i] == b[i];
    }
  }

  /** For every text and all samples: evaluation raises if and only if some operand between `or` and `and`
      has an unsupported fragment among those its term is evaluated by, or compares a non-empty term with
      an unreadable bound. */
  lemma {:induction false} RaisesExactly(env: Env, expression: string)
    ensures Evaluate(env, expression).Raised? <==> SomeFails(env, Operands(expression))
    decreases |expression|, 1
  {
    var cut := CutOf(expression);
    CutShrinks(expression);
    if cut.Operand? {
      OperandRaises(env, cut.text);
      assert Operands(expression)[0] == cut.text;
    } else {
      var values := EvaluateAll(env, cut.parts, |expression|);
      PartsRaise(env, cut.parts, |expression|);
      FirstNonEmptyRaises(values);
    }
  }

  lemma {:induction false} FirstNonEmptyRaises(values: seq<Outcome>)
    ensures FirstNonEmpty(values).Raised? <==> Raised in values
  {
    if Raised !in values {
      FirstValueIsOne(values);
    }
  }

  lemma {:induction false} FirstValueIsOne(values: seq<Outcome>)
    ensures FirstValue(values) == Value(None) || FirstValue(values) in values
  {
    if values != [] && values[0] == Value(None) {
      FirstValueIsOne(values[1..]);
    }
  }

  ghost predicate SomePartFails(env: Env, parts: seq<string>) {
    exists i :: 0 <= i < |parts| && SomeFails(env, Operands(parts[i]))
  }

  lemma SomePartSplits(env: Env, parts: seq<string>)
    requires parts != []
    ensures SomePartFails(env, parts) <==> SomeFails(env, Operands(parts[0])) || SomePartFails(env, parts[1..])
  {
    var rest := parts[1..];
    if SomePartFails(env, rest) {
      var i :| 0 <= i < |rest| && SomeFails(env, Operands(rest[i]));
      assert SomeFails(env, Operands(parts[i + 1]));
    }
    if SomePartFails(env, parts) && !SomeFails(env, Operands(parts[0])) {
      var i :| 0 <= i < |parts| && SomeFails(env, Operands(parts[i]));
      assert rest[i - 1] == parts[i];
    }
  }

  lemma {:induction false} PartsFail(env: Env, parts: seq<string>, bound: nat)
    requires forall part :: part in parts ==> |part| < bound
    ensures SomeFails(env, OperandsOfAll(parts, bound)) <==> SomePartFails(env, parts)
    decreases |parts|
  {
    if parts != [] {
      PartsFail(env, parts[1..], bound);
      FailsConcat(env, Operands(parts[0]), OperandsOfAll(parts[1..], bound));
      SomePartSplits(env, parts);
    }
  }

  lemma PartsRaise(env: Env, parts: seq<string>, bound: nat)
    requires forall part :: part in parts ==> |part| < bound
    ensures Raised in EvaluateAll(env, parts, bound) <==> SomeFails(env, OperandsOfAll(parts, bound))
    decreases bound, 0
  {
    var values := EvaluateAll(env, parts, bound);
    PartsFail(env, parts, bound);
    forall i | 0 <= i < |parts| ensures values[i].Raised? <==> SomeFails(env, Operands(parts[i])) {
      RaisesExactly(env, parts[i]);
    }
  }

  // ------------------------------------------- outside the grammar, and yet not an error

  predicate Operator(op: string) {
    op == "/" || op == "-"
  }

  /** Words around an operator: `a` and `b` without the operator or a division, and whatever comes after a
      second operator. */
  predicate Chain(op: string, a: seq<string>, b: seq<string>, more: seq<string>) {
    && Operator(op) && a != [] && b != [] && AllWords(a) && AllWords(b) && AllWords(more)
    && op !in a && op !in b && "/" !in a && "/" !in b && (op == "-" ==> "/" !in more)
    && (more != [] ==> |more| > 1 && more[0] == op)
  }

  lemma ChainSplit(op: string, a: seq<string>, b: seq<string>, more: seq<string>)
    requires Chain(op, a, b, more)
    ensures var parts := Split(Join(a + [op] + (b + more), " "), Needle(op), 0);
      |parts| >= 2 && parts[0] == Join(a, " ") && parts[1] == Join(b, " ")
  {
    KeywordsAreWords();
    SplitFirst(a, b + more, op);
    if more == [] {
      assert b + more == b;
      SplitNone(b, op);
    } else {
      assert b + more == b + [op] + more[1..];
      SplitFirst(b, more[1..], op);
    }
  }

  /** The first two operands of the operator that splits a term decide alone: a third and later ones, which
      the grammar does not allow, count for nothing, right or wrong. */
  lemma OnlyTwoOperandsCount(env: Env, op: string, a: seq<string>, b: seq<string>, more: seq<string>)
    requires Chain(op, a, b, more)
    ensures EvaluateTerm(env, Join(a + [op] + (b + more), " "))
      == Arithmetic(op == "/", EvaluateTerm(env, Join(a, " ")), EvaluateTerm(env, Join(b, " ")))
  {
    var ws := a + [op] + (b + more);
    KeywordsAreWords();
    assert AllWords(ws);
    JoinEnds(ws);
    assert ws == [a[0]] + ws[1..] && ws[1..] != [];
    WordsNotPeeled(a[0], ws[1..]);
    ChainSplit(op, a, b, more);
    if op == "-" {
      SplitNone(ws, "/");
    }
  }

  /** Words without a keyword or a comparison go straight to arithmetic. */
  lemma WordsAreTerm(env: Env, ws: seq<string>)
    requires ws != [] && AllWords(ws) && "or" !in ws && "and" !in ws && Calm(Join(ws, " "))
    ensures Evaluate(env, Join(ws, " ")) == EvaluateTerm(env, Join(ws, " "))
  {
    KeywordsAreWords();
    JoinEnds(ws);
    SplitNone(ws, "or");
    SplitNone(ws, "and");
    NoComparison(Join(ws, " "));
  }

  lemma WordIsFactor(env: Env, w: string)
    requires Word(w) && FactorEnd(w) && Calm(w) && w[0] != '('
    ensures Evaluate(env, w) == EvaluateFactor(env, w)
  {
    assert Join([w], " ") == w;
    NotKeyword(w);
    WordsAreTerm(env, [w]);
    PlainWord(env, w);
  }

  /** Whatever stands inside `absent(...)`, short of parentheses and line breaks, evaluates. */
  lemma AnythingInAbsent(env: Env, body: string)
    requires body != [] && Quiet(body)
    ensures Evaluate(env, "absent(" + body + ")").Value?
  {
    var text := "absent(" + body + ")";
    Heads();
    FlowPlain(body, 1, 0);
    CallWord("absent(", body);
    CalmClosed(text);
    WordIsFactor(env, text);
    FactorRaises(env, text);
    TrimIdentity(text, RubySpace);
    assert Call(text, "absent(", body);
  }

  // -------------------------------------------------------------- unknown matchers

  /** With at most one quotation mark left there is no matcher. */
  predicate OneQuote(s: string) {
    forall i, j :: 0 <= i < j < |s| ==> !(s[i] == '"' && s[j] == '"')
  }

  lemma {:induction false} ToQuoteFinds(s: string)
    ensures ToQuote(s).Some? ==> '"' in s
  {
    if s != [] && s[0] != '"' {
      ToQuoteFinds(s[1..]);
    }
  }

  lemma QuotedIsTwo(s: string)
    requires Quoted(s).Some?
    ensures !OneQuote(s)
  {
    ToQuoteFinds(s[1..]);
    var k :| 0 <= k < |s[1..]| && s[1..][k] == '"';
    assert s[0] == '"' && s[k + 1] == '"';
  }

  lemma EndOfOneQuote(t: string, s: string)
    requires Ends(t, s) && OneQuote(s)
    ensures OneQuote(t)
  {
    var n := |s| - |t|;
    forall i, j | 0 <= i < j < |t| ensures !(t[i] == '"' && t[j] == '"') {
      assert t[i] == s[n + i] && t[j] == s[n + j];
    }
  }

  lemma NoMatcher(s: string)
    requires OneQuote(s)
    ensures MatcherAt(s).None?
  {
    var operator := OperatorPart(s);
    OperatorPartEnds(s);
    EndOfOneQuote(operator, s);
    if "=" <= operator {
      ValuePartEnds(operator);
      EndOfOneQuote(ValuePart(operator), operator);
      if Quoted(ValuePart(operator)).Some? {
        QuotedIsTwo(ValuePart(operator));
      }
    }
  }

  lemma {:induction false} ScanNothing(s: string)
    requires OneQuote(s)
    ensures Scan(s) == []
  {
    if s != [] {
      NoMatcher(s);
      EndOfOneQuote(s[1..], s);
      ScanNothing(s[1..]);
    }
  }

  /** No label starts here. */
  lemma ScanSkips(c: char, rest: string)
    requires !Letter(c) && !Digit(c)
    ensures Scan([c] + rest) == Scan(rest)
  {
    var s := [c] + rest;
    assert TakeLabel(s) == [] && s[1..] == rest;
  }

  /** Something other than an equals sign after a label: no matcher, at any of its letters. */
  lemma {:induction false} ScanSkipsLabel(name: string, c: char, rest: string)
    requires forall i :: 0 <= i < |name| ==> Letter(name[i]) || Digit(name[i])
    requires !Letter(c) && !Digit(c) && !RegexSpace(c) && c != '='
    ensures Scan(name + ([c] + rest)) == Scan([c] + rest)
  {
    if name == [] {
      assert name + ([c] + rest) == [c] + rest;
    } else {
      var s := name + ([c] + rest);
      TakeLabelAll(name, [c] + rest);
      assert s[|name|..] == [c] + rest;
      assert TrimStart([c] + rest, RegexSpace) == [c] + rest;
      assert !("=" <= [c] + rest);
      assert MatcherAt(s).None?;
      assert s[1..] == name[1..] + ([c] + rest);
      ScanSkipsLabel(name[1..], c, rest);
    }
  }

  /** Text of a matcher with an operator the grammar does not have. */
  function Negated(name: string, value: string): string {
    name + ("!" + ("=" + ("\"" + (value + "\""))))
  }

  lemma ScanNegated(name: string, value: string)
    requires LabelOk(name) && ValueOk(value)
    ensures Scan(Negated(name, value)) == []
  {
    var quoted := "\"" + (value + "\"");
    ScanSkipsLabel(name, '!', "=" + quoted);
    ScanSkips('!', "=" + quoted);
    ScanSkips('=', quoted);
    ScanSkips('"', value + "\"");
    assert OneQuote(value + "\"") by {
      forall i | 0 <= i < |value| ensures (value + "\"")[i] != '"' {
        assert (value + "\"")[i] == value[i];
      }
    }
    ScanNothing(value + "\"");
  }

  /** A matcher with `!=` is dropped in silence: the selector matches as if it were not there. */
  lemma UnknownMatcherDropped(metric: string, name: string, value: string)
    requires MetricOk(metric) && LabelOk(name) && ValueOk(value)
    ensures ParseSelector(metric + ("{" + (Negated(name, value) + "}"))) == Some(Selection(metric, []))
  {
    var body := Negated(name, value);
    var text := metric + ("{" + (body + "}"));
    MetricTidy(metric);
    BeforeBraceAll(metric, body + "}");
    assert text[|metric| + 1..] == body + "}";
    DropBraceBack(body);
    ScanNegated(name, value);
  }

  // ------------------------------------------------------------------ an example

  lemma UnknownFactor(env: Env, text: string)
    requires Word(text) && 'b' <= text[0] <= 'd'
    ensures EvaluateFactor(env, text) == Raised
  {
    TrimIdentity(text, RubySpace);
    assert !NumberChar(text[0]);
    OtherCall(text, "absent(");
    OtherCall(text, "max(");
    OtherCall(text, "sum(");
  }

  lemma ThirdPlaceCalm(l: string, m: string, w: string)
    requires Calm(l) && Calm(m) && Calm(w)
    ensures Calm(Join([l, "-", m, "-", w], " "))
  {
    var op := " " + "-" + " ";
    assert Calm(op);
    CalmConcat(l, op);
    CalmConcat(m, op);
    CalmConcat(m + op, w);
    CalmConcat(l + op, m + op + w);
    assert [l, "-", m, "-", w] == [l, "-"] + [m, "-", w];
    JoinAppend([l, "-"], [m, "-", w]);
    JoinThree(m, "-", w);
    JoinTwo(l, ["-"], " ");
    assert [l] + ["-"] == [l, "-"] && Join(["-"], " ") == "-";
    assert l + " " + "-" + " " == l + op;
  }

  /** The third place of a subtraction, as a term ... */
  lemma ThirdPlaceTerm(env: Env, l: string, m: string, w: string)
    requires Word(l) && Word(m) && Word(w) && FactorEnd(l) && FactorEnd(m) && FactorEnd(w)
    ensures EvaluateTerm(env, Join([l, "-", m, "-", w], " "))
      == Arithmetic(false, EvaluateTerm(env, l), EvaluateTerm(env, m))
  {
    KeywordsAreWords();
    NotKeyword(l);
    NotKeyword(m);
    NotKeyword(w);
    assert [l, "-", m, "-", w] == [l] + ["-"] + ([m] + ["-", w]);
    assert Join([l], " ") == l && Join([m], " ") == m;
    OnlyTwoOperandsCount(env, "-", [l], [m], ["-", w]);
  }

  /** ... and in an expression. */
  lemma ThirdPlace(env: Env, l: string, m: string, w: string)
    requires Word(l) && Word(m) && Word(w) && FactorEnd(l) && FactorEnd(m) && FactorEnd(w)
    requires Calm(l) && Calm(m) && Calm(w)
    ensures Evaluate(env, Join([l, "-", m, "-", w], " "))
      == Arithmetic(false, EvaluateTerm(env, l), EvaluateTerm(env, m))
  {
    KeywordsAreWords();
    NotKeyword(l);
    NotKeyword(m);
    NotKeyword(w);
    ThirdPlaceCalm(l, m, w);
    WordsAreTerm(env, [l, "-", m, "-", w]);
    ThirdPlaceTerm(env, l, m, w);
  }

  /** `bogus()` is a word like any other. */
  lemma BogusWord()
    ensures Word("bogus()") && FactorEnd("bogus()") && Calm("bogus()")
  {
    assert Flow([], 1, 1, 0);
    CallWord("bogus(", []);
    assert "bogus(" + [] + ")" == "bogus()";
    CalmClosed("bogus()");
  }

  lemma TimeWord(env: Env)
    ensures Word("time()") && FactorEnd("time()") && Calm("time()")
    ensures EvaluateTerm(env, "time()") == Value(Some(env.now))
  {
    FactorWord(env, Time);
    FactorCalm(env, Time);
    FactorAgrees(env, Time);
  }

  /** A fragment that is an error by itself passes unnoticed in third place. */
  lemma NonsensePasses(env: Env)
    ensures Evaluate(env, "bogus()") == Raised
    ensures Evaluate(env, Join(["time()", "-", "time()", "-", "bogus()"], " ")) == Value(Some(0.0))
  {
    BogusWord();
    WordIsFactor(env, "bogus()");
    UnknownFactor(env, "bogus()");
    TimeWord(env);
    ThirdPlace(env, "time()", "time()", "bogus()");
  }
}
