/**
 The documented expression grammar as data: its text, and what it means. Parenthesised terms, which
 the evaluator also accepts, are included.
 */
module AlertSyntax {
  import opened Wrappers
  import opened AlertSplit
  import opened AlertEval

  datatype Inner = Instant(selector: Selection) | Increase(selector: Selection, count: string, unit: char)

  datatype Factor =
    | Time
    | Number(literal: string)
    | Absent(selector: Selection)
    | Aggregated(max: bool, inner: Inner)
    | Paren(term: Term)

  datatype Term = Single(factor: Factor) | Binary(left: Factor, division: bool, right: Factor)

  /** A comparison is written with its sign. */
  datatype Operand = Bare(term: Term) | Compared(term: Term, sign: string, bound: string)

  /** Operands joined by `and` form a group; groups are joined by `or`. */
  type Expr = seq<seq<Operand>>

  // ------------------------------------------------------------------------ text

  function MatcherText(m: Matcher): string {
    m.name + (if m.regex then "=~" else "=") + "\"" + m.value + "\""
  }

  function MatchersText(ms: seq<Matcher>): string {
    if ms == [] then ""
    else if |ms| == 1 then MatcherText(ms[0])
    else MatcherText(ms[0]) + "," + MatchersText(ms[1..])
  }

  function SelectorText(s: Selection): string {
    s.metric + "{" + MatchersText(s.matchers) + "}"
  }

  function InnerText(i: Inner): string {
    match i
    case Instant(s) => SelectorText(s)
    case Increase(s, count, unit) => "increase(" + SelectorText(s) + "[" + count + [unit] + "])"
  }

  function FactorText(f: Factor): string
    decreases f, 0
  {
    match f
    case Time => "time()"
    case Number(literal) => literal
    case Absent(s) => "absent(" + SelectorText(s) + ")"
    case Aggregated(max, i) => (if max then "max(" else "sum(") + InnerText(i) + ")"
    case Paren(t) => "(" + TermText(t) + ")"
  }

  function TermWords(t: Term): (ws: seq<string>)
    ensures ws != []
    decreases t, 1
  {
    match t
    case Single(f) => [FactorText(f)]
    case Binary(l, division, r) => [FactorText(l), if division then "/" else "-", FactorText(r)]
  }

  function TermText(t: Term): string
    decreases t, 2
  {
    Join(TermWords(t), " ")
  }

  function OperandWords(o: Operand): (ws: seq<string>)
    ensures ws != []
  {
    match o
    case Bare(t) => TermWords(t)
    case Compared(t, sign, bound) => TermWords(t) + [sign, bound]
  }

  function GroupWords(g: seq<Operand>): (ws: seq<string>)
    requires g != []
    ensures ws != []
  {
    if |g| == 1 then OperandWords(g[0]) else OperandWords(g[0]) + ["and"] + GroupWords(g[1..])
  }

  predicate Shaped(e: Expr) {
    e != [] && forall i :: 0 <= i < |e| ==> e[i] != []
  }

  function ExprWords(e: Expr): (ws: seq<string>)
    requires Shaped(e)
    ensures ws != []
  {
    if |e| == 1 then GroupWords(e[0]) else GroupWords(e[0]) + ["or"] + ExprWords(e[1..])
  }

  /** The text of an expression: its words with single blanks between them. */
  function ExprText(e: Expr): string
    requires Shaped(e)
  {
    Join(ExprWords(e), " ")
  }

  // ---------------------------------------------------------------- lexical rules

  predicate NameChar(c: char) {
    'a' <= c <= 'z' || 'A' <= c <= 'Z' || c == '_'
  }

  predicate Numeral(c: char) {
    c in "0123456789"
  }

  predicate MetricOk(s: string) {
    s != [] && forall i :: 0 <= i < |s| ==> NameChar(s[i]) || Numeral(s[i]) || s[i] == ':'
  }

  predicate LabelOk(s: string) {
    s != [] && NameChar(s[0]) && forall i :: 0 <= i < |s| ==> NameChar(s[i]) || Numeral(s[i])
  }

  /** Label values hold no quotation marks, parentheses or line breaks. */
  predicate ValueOk(s: string) {
    forall i :: 0 <= i < |s| ==> s[i] != '"' && s[i] != '(' && s[i] != ')' && s[i] != '\n'
  }

  predicate SelectionOk(s: Selection) {
    MetricOk(s.metric)
    && forall i :: 0 <= i < |s.matchers| ==> LabelOk(s.matchers[i].name) && ValueOk(s.matchers[i].value)
  }

  predicate DigitsOk(s: string) {
    s != [] && forall i :: 0 <= i < |s| ==> Numeral(s[i])
  }

  predicate UnitOk(c: char) {
    c in "smhdw"
  }

  predicate InnerOk(i: Inner) {
    SelectionOk(i.selector) && (i.Increase? ==> DigitsOk(i.count) && UnitOk(i.unit))
  }

  /** A number as `Float` reads it; numbers end in a digit. */
  predicate LiteralOk(env: Env, s: string) {
    && s != [] && (forall i :: 0 <= i < |s| ==> Numeral(s[i]) || s[i] in ".eE+-")
    && Numeral(s[|s| - 1]) && env.float(s).Some?
  }

  predicate SignOk(sign: string) {
    sign == ">" || sign == "<" || sign == ">=" || sign == "<=" || sign == "=="
  }

  predicate FactorOk(env: Env, f: Factor) {
    match f
    case Time => true
    case Number(literal) => LiteralOk(env, literal)
    case Absent(s) => SelectionOk(s)
    case Aggregated(max, i) => InnerOk(i)
    case Paren(t) => TermOk(env, t)
  }

  predicate TermOk(env: Env, t: Term) {
    match t
    case Single(f) => FactorOk(env, f)
    case Binary(l, division, r) => FactorOk(env, l) && FactorOk(env, r)
  }

  predicate OperandOk(env: Env, o: Operand) {
    TermOk(env, o.term) && (o.Compared? ==> SignOk(o.sign) && LiteralOk(env, o.bound))
  }

  predicate GroupOk(env: Env, g: seq<Operand>) {
    g != [] && forall i :: 0 <= i < |g| ==> OperandOk(env, g[i])
  }

  predicate ExprOk(env: Env, e: Expr) {
    e != [] && forall i :: 0 <= i < |e| ==> GroupOk(env, e[i])
  }

  // --------------------------------------------------------------------- meaning

  /** The label of a sample; one it does not have reads as the empty text. */
  function LabelOf(sample: Sample, name: string): string {
    if name in sample.labels then sample.labels[name] else ""
  }

  /** A sample of that metric whose labels meet every matcher. */
  predicate Meets(env: Env, sample: Sample, s: Selection) {
    && sample.metric == s.metric
    && forall i :: 0 <= i < |s.matchers| ==>
         if s.matchers[i].regex then env.fullMatch(s.matchers[i].value, LabelOf(sample, s.matchers[i].name))
         else LabelOf(sample, s.matchers[i].name) == s.matchers[i].value
  }

  /** What is measured: the values of the samples that meet the selector, or their increases, in order. */
  function Measured(env: Env, samples: seq<Sample>, i: Inner): seq<real> {
    if samples == [] then []
    else
      var before, last := Measured(env, samples[..|samples| - 1], i), samples[|samples| - 1];
      if !Meets(env, last, i.selector) then before
      else before + [if i.Increase? then last.increase else last.value]
  }

  predicate Present(env: Env, s: Selection) {
    exists k :: 0 <= k < |env.samples| && Meets(env, env.samples[k], s)
  }

  ghost predicate IsGreatest(values: seq<real>, m: real) {
    m in values && forall v :: v in values ==> v <= m
  }

  lemma {:induction false} SomeGreatest(values: seq<real>)
    requires values != []
    ensures exists m :: IsGreatest(values, m)
  {
    if |values| == 1 {
      assert IsGreatest(values, values[0]);
    } else {
      SomeGreatest(values[1..]);
      var m :| IsGreatest(values[1..], m);
      assert values == [values[0]] + values[1..];
      assert IsGreatest(values, if values[0] >= m then values[0] else m);
    }
  }

  ghost function Greatest(values: seq<real>): (m: real)
    requires values != []
    ensures IsGreatest(values, m)
  {
    SomeGreatest(values);
    var m :| IsGreatest(values, m);
    m
  }

  function Total(values: seq<real>): real {
    if values == [] then 0.0 else Total(values[..|values| - 1]) + values[|values| - 1]
  }

  ghost function DenoteFactor(env: Env, f: Factor): Option<real>
    requires FactorOk(env, f)
  {
    match f
    case Time => Some(env.now)
    case Number(literal) => env.float(literal)
    case Absent(s) => if Present(env, s) then None else Some(1.0)
    case Aggregated(max, i) =>
      var values := Measured(env, env.samples, i);
      if values == [] then None else Some(if max then Greatest(values) else Total(values))
    case Paren(t) => DenoteTerm(env, t)
  }

  /** Subtraction and division of one-element vectors; dividing by zero leaves nothing. */
  ghost function DenoteTerm(env: Env, t: Term): Option<real>
    requires TermOk(env, t)
  {
    match t
    case Single(f) => DenoteFactor(env, f)
    case Binary(l, division, r) =>
      match (DenoteFactor(env, l), DenoteFactor(env, r))
      case (Some(x), Some(y)) => if !division then Some(x - y) else if y == 0.0 then None else Some(x / y)
      case (_, _) => None
  }

  /** What a sign asks of the two numbers it is written between. */
  predicate Holds(x: real, sign: string, n: real) {
    || (sign == ">" && x > n)
    || (sign == "<" && x < n)
    || (sign == ">=" && x >= n)
    || (sign == "<=" && x <= n)
    || (sign == "==" && x == n)
  }

  /** A comparison keeps or drops the value it compares. */
  ghost function DenoteOperand(env: Env, o: Operand): Option<real>
    requires OperandOk(env, o)
  {
    var left := DenoteTerm(env, o.term);
    if o.Compared? && left.Some? && !Holds(left.value, o.sign, env.float(o.bound).value) then None else left
  }

  /** `and` keeps the first value if every other side is non-empty. */
  ghost function DenoteGroup(env: Env, g: seq<Operand>): Option<real>
    requires GroupOk(env, g)
  {
    if forall i :: 0 <= i < |g| ==> DenoteOperand(env, g[i]).Some? then DenoteOperand(env, g[0]) else None
  }

  /** `or` takes the first group that is non-empty. */
  ghost function DenoteExpr(env: Env, e: Expr): Option<real>
    requires ExprOk(env, e)
  {
    var first := DenoteGroup(env, e[0]);
    if first.Some? || |e| == 1 then first else DenoteExpr(env, e[1..])
  }
}
