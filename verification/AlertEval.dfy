/**
 The alert-expression evaluator: recursion over text for the documented PromQL subset. An empty
 vector is `None`; a one-element vector is `Some`. Values are reals.
 */
module AlertEval {
  import opened Wrappers
  import opened Text
  import opened AlertSplit

  datatype Sample = Sample(metric: string, labels: map<string, string>, value: real, increase: real)

  /** What evaluation depends on besides the text: the samples, the clock, and the two library calls whose
      insides do not matter here, `Float(...)` and a regular expression matched against a whole string. */
  datatype Env = Env(
    samples: seq<Sample>,
    now: real,
    float: string -> Option<real>,
    fullMatch: (string, string) -> bool)

  datatype Outcome = Raised | Value(sample: Option<real>)

  // ------------------------------------------------------------------ characters

  /** What `String#strip` removes. */
  predicate RubySpace(c: char) {
    c as int == 0 || 9 <= c as int <= 13 || c == ' '
  }

  /** `\s` in a regular expression. */
  predicate RegexSpace(c: char) {
    9 <= c as int <= 13 || c == ' '
  }

  function Strip(s: string): string {
    TrimBy(s, RubySpace)
  }

  predicate Digit(c: char) {
    '0' <= c <= '9'
  }

  predicate Letter(c: char) {
    'a' <= c <= 'z' || 'A' <= c <= 'Z' || c == '_'
  }

  /** `[0-9.eE+-]`. */
  predicate NumberChar(c: char) {
    Digit(c) || c == '.' || c == 'e' || c == 'E' || c == '+' || c == '-'
  }

  predicate AllNumber(s: string) {
    s != [] && forall i :: 0 <= i < |s| ==> NumberChar(s[i])
  }

  // ------------------------------------------------------------------- selectors

  datatype Matcher = Matcher(name: string, regex: bool, value: string)

  function TakeLabel(s: string): string {
    if s != [] && (Letter(s[0]) || Digit(s[0])) then [s[0]] + TakeLabel(s[1..]) else []
  }

  /** The text up to the next quotation mark, if there is one. */
  function ToQuote(s: string): Option<string> {
    if s == [] then None
    else if s[0] == '"' then Some([])
    else
      var rest := ToQuote(s[1..]);
      if rest.None? then None else Some([s[0]] + rest.value)
  }

  lemma {:induction false} TakeLabelPrefix(s: string)
    ensures |TakeLabel(s)| <= |s| && TakeLabel(s) == s[..|TakeLabel(s)|]
  {
    if s != [] && (Letter(s[0]) || Digit(s[0])) {
      TakeLabelPrefix(s[1..]);
    }
  }

  lemma {:induction false} ToQuoteShorter(s: string)
    ensures ToQuote(s).Some? ==> |ToQuote(s).value| < |s|
  {
    if s != [] && s[0] != '"' {
      ToQuoteShorter(s[1..]);
    }
  }

  /** A matcher and the text after it. */
  datatype Found = Found(matcher: Matcher, rest: string)

  /** What follows the label at the head of `s` and the blanks after it. */
  function OperatorPart(s: string): string {
    TakeLabelPrefix(s);
    TrimStart(s[|TakeLabel(s)|..], RegexSpace)
  }

  /** What follows the operator and the blanks after it. */
  function ValuePart(s: string): string
    requires "=" <= s
  {
    TrimStart(s[if "=~" <= s then 2 else 1..], RegexSpace)
  }

  /** The text between the quotation mark at the head of `s` and the next. */
  function Quoted(s: string): Option<string> {
    if s == [] || s[0] != '"' then None else ToQuote(s[1..])
  }

  lemma QuotedShorter(s: string)
    ensures Quoted(s).Some? ==> |Quoted(s).value| + 2 <= |s|
  {
    if s != [] {
      ToQuoteShorter(s[1..]);
    }
  }

  /** The regular expression `LABEL \s* (=~|=) \s* "VALUE"` at the head of `s`. */
  function MatcherAt(s: string): Option<Found> {
    var name := TakeLabel(s);
    var operator := OperatorPart(s);
    if name == [] || Digit(name[0]) || !("=" <= operator) then None
    else
      var rest := ValuePart(operator);
      var value := Quoted(rest);
      QuotedShorter(rest);
      if value.None? then None
      else Some(Found(Matcher(name, "=~" <= operator, value.value), rest[|value.value| + 2..]))
  }

  /** `t` is the end of `s`. */
  predicate Ends(t: string, s: string) {
    |t| <= |s| && t == s[|s| - |t|..]
  }

  lemma EndsEnds(a: string, b: string, c: string)
    requires Ends(a, b) && Ends(b, c)
    ensures Ends(a, c)
  {
  }

  lemma OperatorPartEnds(s: string)
    ensures Ends(OperatorPart(s), s)
  {
    TakeLabelPrefix(s);
    TrimStartTidy(s[|TakeLabel(s)|..], RegexSpace);
    EndsEnds(OperatorPart(s), s[|TakeLabel(s)|..], s);
  }

  lemma ValuePartEnds(s: string)
    requires "=" <= s
    ensures Ends(ValuePart(s), s) && |ValuePart(s)| < |s|
  {
    var n := if "=~" <= s then 2 else 1;
    TrimStartTidy(s[n..], RegexSpace);
    EndsEnds(ValuePart(s), s[n..], s);
  }

  lemma MatcherShrinks(s: string)
    ensures MatcherAt(s).Some? ==> |MatcherAt(s).value.rest| < |s|
  {
    OperatorPartEnds(s);
    if "=" <= OperatorPart(s) {
      ValuePartEnds(OperatorPart(s));
      QuotedShorter(ValuePart(OperatorPart(s)));
    }
  }

  /** Every match, left to right, as `String#scan` finds them. */
  function Scan(s: string): seq<Matcher>
    decreases |s|
  {
    if s == [] then []
    else
      MatcherShrinks(s);
      var found := MatcherAt(s);
      if found.Some? then [found.value.matcher] + Scan(found.value.rest) else Scan(s[1..])
  }

  function BeforeBrace(s: string): string {
    if s == [] || s[0] == '{' then [] else [s[0]] + BeforeBrace(s[1..])
  }

  /** Drops a final brace and the blanks after it. */
  function DropBrace(s: string): string {
    var t := TrimEnd(s, RegexSpace);
    if t != [] && t[|t| - 1] == '}' then t[..|t| - 1] else s
  }

  datatype Selection = Selection(metric: string, matchers: seq<Matcher>)

  /** `parse_selector`; splitting an empty text yields no name at all. */
  function ParseSelector(text: string): Option<Selection> {
    if text == [] then None
    else
      var name := BeforeBrace(text);
      var matchers := if |name| < |text| then Scan(DropBrace(text[|name| + 1..])) else [];
      Some(Selection(Strip(name), matchers))
  }

  predicate MatcherHolds(env: Env, labels: map<string, string>, m: Matcher) {
    var actual := if m.name in labels then labels[m.name] else "";
    if m.regex then env.fullMatch(m.value, actual) else actual == m.value
  }

  predicate SampleMatches(env: Env, sample: Sample, selection: Selection) {
    sample.metric == selection.metric
    && forall i :: 0 <= i < |selection.matchers| ==> MatcherHolds(env, sample.labels, selection.matchers[i])
  }

  function Select(env: Env, samples: seq<Sample>, selection: Selection): seq<Sample> {
    if samples == [] then []
    else if SampleMatches(env, samples[0], selection) then [samples[0]] + Select(env, samples[1..], selection)
    else Select(env, samples[1..], selection)
  }

  function SelectSamples(env: Env, text: string): Option<seq<Sample>> {
    var selection := ParseSelector(text);
    if selection.None? then None else Some(Select(env, env.samples, selection.value))
  }

  // --------------------------------------------------------------------- factors

  /** Start of the run of digits that ends just before `end`. */
  function DigitsFrom(s: string, end: nat): (start: nat)
    requires end <= |s|
    ensures start <= end
  {
    if end > 0 && Digit(s[end - 1]) then DigitsFrom(s, end - 1) else end
  }

  predicate DurationUnit(c: char) {
    c == 's' || c == 'm' || c == 'h' || c == 'd' || c == 'w'
  }

  /** What stands before a final `[5m])`, if the text ends like that. */
  function BeforeDuration(s: string): Option<string> {
    var n := |s|;
    if n < 5 || s[n - 1] != ')' || s[n - 2] != ']' || !DurationUnit(s[n - 3]) then None
    else
      var start := DigitsFrom(s, n - 3);
      if start == n - 3 || start == 0 || s[start - 1] != '[' then None else Some(s[..start - 1])
  }

  /** The argument of a call written `head` ... `)`. */
  function CallBody(text: string, head: string): Option<string> {
    if |head| < |text| && head <= text && text[|text| - 1] == ')' then Some(text[|head|..|text| - 1]) else None
  }

  function Values(samples: seq<Sample>, increase: bool): seq<real> {
    if samples == [] then []
    else [if increase then samples[0].increase else samples[0].value] + Values(samples[1..], increase)
  }

  function InnerValues(env: Env, text0: string): Option<seq<real>> {
    var text := Strip(text0);
    var before := BeforeDuration(text);
    var increase := "increase(" <= text && before.Some? && |before.value| >= |"increase("|;
    var samples := SelectSamples(env, if increase then before.value[|"increase("|..] else text);
    if samples.None? then None else Some(Values(samples.value, increase))
  }

  function Max(values: seq<real>): real
    requires values != []
  {
    if |values| == 1 then values[0]
    else
      var rest := Max(values[1..]);
      if values[0] >= rest then values[0] else rest
  }

  function Sum(values: seq<real>): real {
    if values == [] then 0.0 else values[0] + Sum(values[1..])
  }

  function Aggregate(max: bool, values: seq<real>): Option<real> {
    if values == [] then None else Some(if max then Max(values) else Sum(values))
  }

  function EvaluateFactor(env: Env, text0: string): Outcome {
    var text := Strip(text0);
    if text == "time()" then Value(Some(env.now))
    else if AllNumber(text) then
      var number := env.float(text);
      if number.None? then Raised else Value(number)
    else if CallBody(text, "absent(").Some? then
      var samples := SelectSamples(env, CallBody(text, "absent(").value);
      if samples.None? then Raised else Value(if samples.value == [] then Some(1.0) else None)
    else if CallBody(text, "max(").Some? || CallBody(text, "sum(").Some? then
      var max := CallBody(text, "max(").Some?;
      var values := InnerValues(env, CallBody(text, if max then "max(" else "sum(").value);
      if values.None? then Raised else Value(Aggregate(max, values.value))
    else Raised
  }

  // ----------------------------------------------------------------------- terms

  /** Peels parentheses that wrap the whole text. */
  function StripParens(text: string): string
    decreases |text|
  {
    if "(" <= text && Wrapped(text, 0) && |text| >= 2 then
      TrimTidy(text[1..|text| - 1], RubySpace);
      StripParens(Strip(text[1..|text| - 1]))
    else text
  }

  lemma {:induction false} StripParensShrinks(text: string)
    ensures |StripParens(text)| <= |text|
    decreases |text|
  {
    if "(" <= text && Wrapped(text, 0) && |text| >= 2 {
      TrimTidy(text[1..|text| - 1], RubySpace);
      StripParensShrinks(Strip(text[1..|text| - 1]));
    }
  }

  /** An opening parenthesis alone wraps nothing. */
  lemma WrappedIsLong(text: string)
    requires "(" <= text && Wrapped(text, 0)
    ensures |text| >= 2
  {
  }

  method PeelParens(text0: string) returns (text: string)
    ensures text == StripParens(text0)
  {
    text := text0;
    var wrapped := BalancedWrapper(text);
    while "(" <= text && wrapped
      invariant StripParens(text) == StripParens(text0)
      invariant wrapped == Wrapped(text, 0)
      decreases |text|
    {
      WrappedIsLong(text);
      TrimTidy(text[1..|text| - 1], RubySpace);
      text := Strip(text[1..|text| - 1]);
      wrapped := BalancedWrapper(text);
    }
  }

  function Arithmetic(division: bool, left: Outcome, right: Outcome): Outcome {
    if left.Raised? || right.Raised? then Raised
    else if left.sample.None? || right.sample.None? then Value(None)
    else if division then
      Value(if right.sample.value == 0.0 then None else Some(left.sample.value / right.sample.value))
    else Value(Some(left.sample.value - right.sample.value))
  }

  /** How a term is taken apart. */
  datatype TermShape = Quotient(left: string, right: string) | Difference(left: string, right: string) | Plain(text: string)

  /** Division is looked for before subtraction; parts after the second are not looked at. */
  function ShapeOf(text0: string): TermShape {
    var text := StripParens(Strip(text0));
    var quotients := Split(text, Needle("/"), 0);
    if |quotients| >= 2 then Quotient(quotients[0], quotients[1])
    else
      var differences := Split(text, Needle("-"), 0);
      if |differences| >= 2 then Difference(differences[0], differences[1]) else Plain(text)
  }

  lemma ShapeShrinks(text0: string)
    ensures !ShapeOf(text0).Plain? ==> |ShapeOf(text0).left| < |text0| && |ShapeOf(text0).right| < |text0|
  {
    var text := StripParens(Strip(text0));
    TrimTidy(text0, RubySpace);
    StripParensShrinks(Strip(text0));
    PartsAreShorter(text, Needle("/"), 0);
    PartsAreShorter(text, Needle("-"), 0);
  }

  function EvaluateTerm(env: Env, text0: string): Outcome
    decreases |text0|
  {
    ShapeShrinks(text0);
    match ShapeOf(text0)
    case Quotient(left, right) => Arithmetic(true, EvaluateTerm(env, left), EvaluateTerm(env, right))
    case Difference(left, right) => Arithmetic(false, EvaluateTerm(env, left), EvaluateTerm(env, right))
    case Plain(text) => EvaluateFactor(env, text)
  }

  // -------------------------------------------------------------------- operands

  datatype Cmp = Gt | Lt | Ge | Le | Eq

  function CmpText(cmp: Cmp): string {
    match cmp
    case Gt => ">"
    case Lt => "<"
    case Ge => ">="
    case Le => "<="
    case Eq => "=="
  }

  predicate Compare(cmp: Cmp, left: real, bound: real) {
    match cmp
    case Gt => left > bound
    case Lt => left < bound
    case Ge => left >= bound
    case Le => left <= bound
    case Eq => left == bound
  }

  /** The number that is all of `s` but blanks. */
  function NumberOnly(s: string): Option<string> {
    var t := TrimBy(s, RegexSpace);
    if AllNumber(t) then Some(t) else None
  }

  predicate CmpAt(s: string, cmp: Cmp) {
    CmpText(cmp) <= s && NumberOnly(s[|CmpText(cmp)|..]).Some?
  }

  datatype Comparison = Comparison(left: string, cmp: Cmp, bound: string)

  /** The leftmost operator that only a number follows, longer operators first; what precedes it lies on
      one line. */
  function FindComparison(text: string, i: nat): Option<Comparison>
    requires i <= |text|
    decreases |text| - i
  {
    if i == |text| then None
    else
      var s := text[i..];
      if CmpAt(s, Ge) then Some(Comparison(text[..i], Ge, NumberOnly(s[2..]).value))
      else if CmpAt(s, Le) then Some(Comparison(text[..i], Le, NumberOnly(s[2..]).value))
      else if CmpAt(s, Eq) then Some(Comparison(text[..i], Eq, NumberOnly(s[2..]).value))
      else if CmpAt(s, Gt) then Some(Comparison(text[..i], Gt, NumberOnly(s[1..]).value))
      else if CmpAt(s, Lt) then Some(Comparison(text[..i], Lt, NumberOnly(s[1..]).value))
      else if text[i] == '\n' then None
      else FindComparison(text, i + 1)
  }

  function Filter(env: Env, left: Outcome, cmp: Cmp, bound: string): Outcome {
    if left.Raised? then Raised
    else if left.sample.None? then Value(None)
    else
      var number := env.float(bound);
      if number.None? then Raised
      else Value(if Compare(cmp, left.sample.value, number.value) then left.sample else None)
  }

  function EvaluateOperand(env: Env, text: string): Outcome {
    var found := FindComparison(text, 0);
    if found.None? then EvaluateTerm(env, text)
    else Filter(env, EvaluateTerm(env, Strip(found.value.left)), found.value.cmp, found.value.bound)
  }

  // ----------------------------------------------------------------- expressions

  /** The first non-empty value; any part that raises raises. */
  function FirstNonEmpty(values: seq<Outcome>): Outcome {
    if Raised in values then Raised else FirstValue(values)
  }

  function FirstValue(values: seq<Outcome>): Outcome {
    if values == [] then Value(None)
    else if values[0] != Value(None) then values[0]
    else FirstValue(values[1..])
  }

  /** The first value if none is empty. */
  function CombineAnd(values: seq<Outcome>): Outcome
    requires values != []
  {
    if Raised in values then Raised
    else if Value(None) in values then Value(None)
    else values[0]
  }

  /** How an expression is taken apart: at every `or`, without one at every `and`. */
  datatype ExprShape = Ors(parts: seq<string>) | Ands(parts: seq<string>) | Operand(text: string)

  function CutOf(expression: string): ExprShape {
    var text := Strip(expression);
    var ors := Split(text, Needle("or"), 0);
    if |ors| >= 2 then Ors(ors)
    else
      var ands := Split(text, Needle("and"), 0);
      if |ands| >= 2 then Ands(ands) else Operand(text)
  }

  lemma CutShrinks(expression: string)
    ensures !CutOf(expression).Operand? ==>
      CutOf(expression).parts != [] && forall part :: part in CutOf(expression).parts ==> |part| < |expression|
  {
    var text := Strip(expression);
    TrimTidy(expression, RubySpace);
    PartsAreShorter(text, Needle("or"), 0);
    PartsAreShorter(text, Needle("and"), 0);
  }

  function Evaluate(env: Env, expression: string): Outcome
    decreases |expression|, 1
  {
    CutShrinks(expression);
    match CutOf(expression)
    case Ors(parts) => FirstNonEmpty(EvaluateAll(env, parts, |expression|))
    case Ands(parts) => CombineAnd(EvaluateAll(env, parts, |expression|))
    case Operand(text) => EvaluateOperand(env, text)
  }

  function EvaluateAll(env: Env, parts: seq<string>, bound: nat): (values: seq<Outcome>)
    requires forall part :: part in parts ==> |part| < bound
    ensures |values| == |parts|
    decreases bound, 0
  {
    seq(|parts|, i requires 0 <= i < |parts| => Evaluate(env, parts[i]))
  }
}
