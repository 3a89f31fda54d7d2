/**
 Factors of the grammar read back from their text.
 */
module AlertFactors {
  import opened Wrappers
  import opened Text
  import opened AlertSplit
  import opened AlertEval
  import opened AlertSyntax
  import opened AlertWords

  // ------------------------------------------------------------- the evaluator's alphabet

  lemma NumeralIsDigit(c: char)
    ensures Numeral(c) <==> Digit(c)
  {
    if Digit(c) {
      assert "0123456789"[c as int - '0' as int] == c;
    }
  }

  lemma DigitsAreDigits(s: string)
    ensures DigitsOk(s) <==> s != [] && forall i :: 0 <= i < |s| ==> Digit(s[i])
  {
    forall i | 0 <= i < |s| ensures Numeral(s[i]) <==> Digit(s[i]) {
      NumeralIsDigit(s[i]);
    }
  }

  lemma UnitIsUnit(c: char)
    ensures UnitOk(c) <==> DurationUnit(c)
  {
    assert "smhdw"[0] == 's' && "smhdw"[1] == 'm' && "smhdw"[2] == 'h' && "smhdw"[3] == 'd' && "smhdw"[4] == 'w';
  }

  lemma LabelChars(s: string)
    requires LabelOk(s)
    ensures Letter(s[0]) && forall i :: 0 <= i < |s| ==> Letter(s[i]) || Digit(s[i])
  {
    forall i | 0 <= i < |s| ensures Letter(s[i]) || Digit(s[i]) {
      NumeralIsDigit(s[i]);
    }
  }

  lemma NumberIsNumber(c: char)
    ensures Numeral(c) || c in ".eE+-" <==> NumberChar(c)
  {
    NumeralIsDigit(c);
    var s := ".eE+-";
    assert s[0] == '.' && s[1] == 'e' && s[2] == 'E' && s[3] == '+' && s[4] == '-';
  }

  lemma LiteralIsNumber(env: Env, s: string)
    requires LiteralOk(env, s)
    ensures AllNumber(s) && Digit(s[|s| - 1])
  {
    NumeralIsDigit(s[|s| - 1]);
    forall i | 0 <= i < |s| ensures NumberChar(s[i]) {
      NumberIsNumber(s[i]);
    }
  }

  // -------------------------------------------------------------------------- samples

  lemma MatchesMeets(env: Env, sample: Sample, s: Selection)
    ensures SampleMatches(env, sample, s) <==> Meets(env, sample, s)
  {
    forall i | 0 <= i < |s.matchers|
      ensures MatcherHolds(env, sample.labels, s.matchers[i]) <==>
        if s.matchers[i].regex then env.fullMatch(s.matchers[i].value, LabelOf(sample, s.matchers[i].name))
        else LabelOf(sample, s.matchers[i].name) == s.matchers[i].value
    {
    }
  }

  lemma {:induction false} SelectAppend(env: Env, samples: seq<Sample>, last: Sample, s: Selection)
    ensures Select(env, samples + [last], s)
      == Select(env, samples, s) + (if Meets(env, last, s) then [last] else [])
  {
    var all := samples + [last];
    MatchesMeets(env, all[0], s);
    if samples == [] {
      assert all[1..] == [];
    } else {
      assert all[1..] == samples[1..] + [last] && all[0] == samples[0];
      SelectAppend(env, samples[1..], last, s);
    }
  }

  lemma {:induction false} ValuesAppend(samples: seq<Sample>, last: Sample, increase: bool)
    ensures Values(samples + [last], increase)
      == Values(samples, increase) + [if increase then last.increase else last.value]
  {
    var all := samples + [last];
    if samples == [] {
      assert all[1..] == [];
    } else {
      assert all[1..] == samples[1..] + [last];
      ValuesAppend(samples[1..], last, increase);
    }
  }

  /** What is selected are exactly the samples that meet the selector. */
  lemma {:induction false} SelectExactly(env: Env, samples: seq<Sample>, s: Selection, sample: Sample)
    ensures sample in Select(env, samples, s) <==> sample in samples && Meets(env, sample, s)
  {
    if samples != [] {
      MatchesMeets(env, samples[0], s);
      SelectExactly(env, samples[1..], s, sample);
      assert samples == [samples[0]] + samples[1..];
    }
  }

  /** The values of what is selected, in order, are what is measured. */
  lemma {:induction false} ValuesMeasured(env: Env, samples: seq<Sample>, i: Inner)
    ensures Values(Select(env, samples, i.selector), i.Increase?) == Measured(env, samples, i)
  {
    if samples != [] {
      var init, last := samples[..|samples| - 1], samples[|samples| - 1];
      ValuesMeasured(env, init, i);
      assert samples == init + [last];
      SelectAppend(env, init, last, i.selector);
      if Meets(env, last, i.selector) {
        ValuesAppend(Select(env, init, i.selector), last, i.Increase?);
      } else {
        assert Select(env, init, i.selector) + [] == Select(env, init, i.selector);
      }
    }
  }

  lemma NothingSelected(env: Env, s: Selection)
    ensures Select(env, env.samples, s) == [] <==> !Present(env, s)
  {
    var chosen := Select(env, env.samples, s);
    if chosen != [] {
      SelectExactly(env, env.samples, s, chosen[0]);
      var k :| 0 <= k < |env.samples| && env.samples[k] == chosen[0];
      assert Meets(env, env.samples[k], s);
    }
    if Present(env, s) {
      var k :| 0 <= k < |env.samples| && Meets(env, env.samples[k], s);
      SelectExactly(env, env.samples, s, env.samples[k]);
    }
  }

  /** The maximum is one of the values and no value exceeds it. */
  lemma {:induction false} MaxIsGreatest(values: seq<real>)
    requires values != []
    ensures IsGreatest(values, Max(values)) && Max(values) == Greatest(values)
  {
    if |values| > 1 {
      MaxIsGreatest(values[1..]);
      assert values == [values[0]] + values[1..];
    }
    GreatestIsOne(values, Max(values));
  }

  lemma GreatestIsOne(values: seq<real>, m: real)
    requires values != [] && IsGreatest(values, m)
    ensures m == Greatest(values)
  {
  }

  /** Sums add up over concatenation. */
  lemma {:induction false} SumAppend(a: seq<real>, b: seq<real>)
    ensures Sum(a + b) == Sum(a) + Sum(b)
  {
    if a == [] {
      assert a + b == b;
    } else {
      assert (a + b)[1..] == a[1..] + b;
      SumAppend(a[1..], b);
    }
  }

  lemma {:induction false} SumIsTotal(values: seq<real>)
    ensures Sum(values) == Total(values)
  {
    if values != [] {
      var init, last := values[..|values| - 1], values[|values| - 1];
      SumIsTotal(init);
      assert values == init + [last];
      SumAppend(init, [last]);
      assert [last][1..] == [];
    }
  }

  /** The aggregates mean the greatest value and the total. */
  lemma AggregateMeans(max: bool, values: seq<real>)
    ensures values == [] ==> Aggregate(max, values) == None
    ensures values != [] ==> Aggregate(max, values) == Some(if max then Greatest(values) else Total(values))
  {
    SumIsTotal(values);
    if values != [] {
      MaxIsGreatest(values);
    }
  }

  // ------------------------------------------------------------------- selectors

  lemma {:induction false} TakeLabelAll(name: string, tail: string)
    requires forall i :: 0 <= i < |name| ==> Letter(name[i]) || Digit(name[i])
    requires tail == [] || !(Letter(tail[0]) || Digit(tail[0]))
    ensures TakeLabel(name + tail) == name
  {
    if name == [] {
      assert name + tail == tail;
    } else {
      assert (name + tail)[1..] == name[1..] + tail;
      TakeLabelAll(name[1..], tail);
    }
  }

  lemma {:induction false} ToQuoteAll(value: string, tail: string)
    requires ValueOk(value)
    ensures ToQuote(value + ("\"" + tail)) == Some(value)
  {
    if value == [] {
      assert value + ("\"" + tail) == "\"" + tail;
    } else {
      assert (value + ("\"" + tail))[1..] == value[1..] + ("\"" + tail);
      ToQuoteAll(value[1..], tail);
      assert [value[0]] + value[1..] == value;
    }
  }

  function OperatorText(regex: bool): string {
    if regex then "=~" else "="
  }

  /** The text of a matcher with blanks before and after its operator, and what follows it. */
  function SpacedMatcher(m: Matcher, b1: string, b2: string, tail: string): string {
    m.name + (b1 + (OperatorText(m.regex) + (b2 + ("\"" + (m.value + ("\"" + tail))))))
  }

  lemma MatcherTextParts(m: Matcher, tail: string)
    ensures MatcherText(m) + tail == SpacedMatcher(m, [], [], tail)
  {
  }

  lemma QuotedValue(value: string, tail: string)
    requires ValueOk(value)
    ensures var s := "\"" + (value + ("\"" + tail)); Quoted(s) == Some(value) && s[|value| + 2..] == tail
  {
    var s := "\"" + (value + ("\"" + tail));
    assert s[1..] == value + ("\"" + tail);
    ToQuoteAll(value, tail);
  }

  lemma ValueAfterOperator(regex: bool, b2: string, quoted: string)
    requires AllSpace(b2, RegexSpace) && quoted != [] && quoted[0] == '"'
    ensures var s := OperatorText(regex) + (b2 + quoted);
      "=" <= s && ("=~" <= s <==> regex) && ValuePart(s) == quoted
  {
    var s := OperatorText(regex) + (b2 + quoted);
    var n := |OperatorText(regex)|;
    assert s[n..] == b2 + quoted;
    if !regex { assert s[1] == (b2 + quoted)[0] && s[1] != '~'; }
    TrimStartPadded(b2, quoted, RegexSpace);
  }

  lemma OperatorAfterName(name: string, b1: string, rest: string)
    requires LabelOk(name) && AllSpace(b1, RegexSpace) && rest != [] && rest[0] == '='
    ensures TakeLabel(name + (b1 + rest)) == name && OperatorPart(name + (b1 + rest)) == rest
  {
    LabelChars(name);
    TakeLabelAll(name, b1 + rest);
    assert (name + (b1 + rest))[|name|..] == b1 + rest;
    TrimStartPadded(b1, rest, RegexSpace);
  }

  /** A written matcher is recognised, whatever blanks stand around its operator and whatever follows it. */
  lemma SpacedReadBack(m: Matcher, b1: string, b2: string, tail: string)
    requires LabelOk(m.name) && ValueOk(m.value) && AllSpace(b1, RegexSpace) && AllSpace(b2, RegexSpace)
    ensures MatcherAt(SpacedMatcher(m, b1, b2, tail)) == Some(Found(m, tail))
  {
    var quoted := "\"" + (m.value + ("\"" + tail));
    QuotedValue(m.value, tail);
    ValueAfterOperator(m.regex, b2, quoted);
    OperatorAfterName(m.name, b1, OperatorText(m.regex) + (b2 + quoted));
    LabelChars(m.name);
  }

  /** A printed matcher is recognised, whatever follows it. */
  lemma MatcherReadBack(m: Matcher, tail: string)
    requires LabelOk(m.name) && ValueOk(m.value)
    ensures MatcherAt(MatcherText(m) + tail) == Some(Found(m, tail))
  {
    MatcherTextParts(m, tail);
    SpacedReadBack(m, [], [], tail);
  }

  lemma ScanCons(m: Matcher, tail: string)
    requires LabelOk(m.name) && ValueOk(m.value)
    ensures Scan(MatcherText(m) + tail) == [m] + Scan(tail)
  {
    MatcherReadBack(m, tail);
    assert MatcherText(m) + tail != [] by { assert |m.name| > 0; }
  }

  lemma ScanComma(tail: string)
    ensures Scan("," + tail) == Scan(tail)
  {
    var s := "," + tail;
    assert s[1..] == tail && TakeLabel(s) == [];
  }

  lemma {:induction false} ScanReadBack(ms: seq<Matcher>)
    requires forall i :: 0 <= i < |ms| ==> LabelOk(ms[i].name) && ValueOk(ms[i].value)
    ensures Scan(MatchersText(ms)) == ms
  {
    if |ms| == 1 {
      assert MatcherText(ms[0]) + [] == MatcherText(ms[0]);
      ScanCons(ms[0], []);
      assert ms == [ms[0]] + [];
    } else if |ms| > 1 {
      var text := MatchersText(ms[1..]);
      assert MatcherText(ms[0]) + "," + text == MatcherText(ms[0]) + ("," + text);
      ScanCons(ms[0], "," + text);
      ScanComma(text);
      ScanReadBack(ms[1..]);
      assert ms == [ms[0]] + ms[1..];
    }
  }

  lemma {:induction false} BeforeBraceAll(name: string, rest: string)
    requires forall i :: 0 <= i < |name| ==> name[i] != '{'
    ensures BeforeBrace(name + ("{" + rest)) == name
  {
    if name == [] {
      assert name + ("{" + rest) == "{" + rest;
    } else {
      assert (name + ("{" + rest))[1..] == name[1..] + ("{" + rest);
      BeforeBraceAll(name[1..], rest);
    }
  }

  lemma DropBraceBack(body: string)
    ensures DropBrace(body + "}") == body
  {
    assert TrimEnd(body + "}", RegexSpace) == body + "}";
    assert (body + "}")[..|body|] == body;
  }

  lemma MetricTidy(metric: string)
    requires MetricOk(metric)
    ensures Strip(metric) == metric && forall i :: 0 <= i < |metric| ==> metric[i] != '{'
  {
    TrimIdentity(metric, RubySpace);
  }

  /** A printed selector parses to itself. */
  lemma SelectorReadBack(s: Selection)
    requires SelectionOk(s)
    ensures ParseSelector(SelectorText(s)) == Some(s)
  {
    var body := MatchersText(s.matchers);
    var text := SelectorText(s);
    assert text == s.metric + ("{" + (body + "}"));
    MetricTidy(s.metric);
    BeforeBraceAll(s.metric, body + "}");
    assert text[|s.metric| + 1..] == body + "}";
    DropBraceBack(body);
    ScanReadBack(s.matchers);
  }

  /** Selectors hold no parentheses and no line breaks. */
  predicate Quiet(s: string) {
    forall i :: 0 <= i < |s| ==> s[i] != '(' && s[i] != ')' && s[i] != '\n'
  }

  lemma {:induction false} MatchersQuiet(ms: seq<Matcher>)
    requires forall i :: 0 <= i < |ms| ==> LabelOk(ms[i].name) && ValueOk(ms[i].value)
    ensures Quiet(MatchersText(ms))
  {
    if ms != [] {
      assert Quiet(MatcherText(ms[0]));
      MatchersQuiet(ms[1..]);
    }
  }

  lemma SelectorQuiet(s: Selection)
    requires SelectionOk(s)
    ensures Quiet(SelectorText(s)) && SelectorText(s) != [] && SelectorText(s)[|SelectorText(s)| - 1] == '}'
    ensures !RubySpace(SelectorText(s)[0])
  {
    MatchersQuiet(s.matchers);
    assert SelectorText(s)[0] == s.metric[0];
  }

  // ---------------------------------------------------------------------- inner

  lemma {:induction false} DigitsRun(s: string, start: nat, end: nat)
    requires 0 < start <= end <= |s| && !Digit(s[start - 1]) && forall i :: start <= i < end ==> Digit(s[i])
    ensures DigitsFrom(s, end) == start
    decreases end - start
  {
    if start < end {
      DigitsRun(s, start, end - 1);
    }
  }

  lemma DurationReadBack(before: string, count: string, unit: char)
    requires DigitsOk(count) && DurationUnit(unit)
    ensures BeforeDuration(before + "[" + count + [unit] + "])") == Some(before)
  {
    var s := before + "[" + count + [unit] + "])";
    var start := |before| + 1;
    var n := |s|;
    assert n == start + |count| + 3;
    assert s[n - 1] == ')' && s[n - 2] == ']' && s[n - 3] == unit;
    assert s[start - 1] == '[';
    forall i | start <= i < n - 3 ensures Digit(s[i]) {
      assert s[i] == count[i - start];
    }
    DigitsRun(s, start, n - 3);
    assert s[..|before|] == before;
  }

  /** A selector by itself selects. */
  lemma InstantSelects(env: Env, s: Selection)
    requires SelectionOk(s)
    ensures InnerValues(env, SelectorText(s)) == Some(Values(Select(env, env.samples, s), false))
  {
    SelectorReadBack(s);
    SelectorQuiet(s);
    TrimIdentity(SelectorText(s), RubySpace);
  }

  /** The text of a range, taken apart as the evaluator does. */
  lemma RangeText(selector: string, count: string, unit: char)
    requires DigitsOk(count) && UnitOk(unit)
    ensures var text := "increase(" + selector + "[" + count + [unit] + "])";
      && Strip(text) == text && "increase(" <= text
      && BeforeDuration(text) == Some("increase(" + selector) && ("increase(" + selector)[|"increase("|..] == selector
  {
    var before := "increase(" + selector;
    var text := before + "[" + count + [unit] + "])";
    assert text[0] == 'i' && text[|text| - 1] == ')';
    TrimIdentity(text, RubySpace);
    DurationReadBack(before, count, unit);
    assert text[..|"increase("|] == "increase(";
  }

  lemma RangeSelects(env: Env, s: Selection, count: string, unit: char)
    requires SelectionOk(s) && DigitsOk(count) && UnitOk(unit)
    ensures InnerValues(env, "increase(" + SelectorText(s) + "[" + count + [unit] + "])")
      == Some(Values(Select(env, env.samples, s), true))
  {
    RangeText(SelectorText(s), count, unit);
    SelectorReadBack(s);
  }

  lemma InnerReadBack(env: Env, i: Inner)
    requires InnerOk(i)
    ensures InnerValues(env, InnerText(i)) == Some(Measured(env, env.samples, i))
  {
    ValuesMeasured(env, env.samples, i);
    match i
    case Instant(s) => InstantSelects(env, s);
    case Increase(s, count, unit) => RangeSelects(env, s, count, unit);
  }

  /** The argument of a printed call. */
  lemma CallReadBack(head: string, body: string)
    ensures CallBody(head + body + ")", head) == Some(body)
  {
    var text := head + body + ")";
    assert text[|head|..|text| - 1] == body;
  }

  /** A call under one name is not a call under another. */
  lemma OtherCall(text: string, head: string)
    requires text != [] && head != [] && text[0] != head[0]
    ensures CallBody(text, head).None?
  {
  }

  /** A call is neither the clock nor a number. */
  lemma CallIsCall(head: string, body: string)
    requires head == "absent(" || head == "max(" || head == "sum("
    ensures var text := head + body + ")";
      text != [] && text[0] == head[0] && Strip(text) == text && text != "time()" && !AllNumber(text)
  {
    var text := head + body + ")";
    assert text[0] == head[0] && text[|text| - 1] == ')';
    TrimIdentity(text, RubySpace);
    assert !NumberChar(text[0]);
  }

  lemma AbsentEvaluates(env: Env, body: string)
    requires SelectSamples(env, body).Some?
    ensures EvaluateFactor(env, "absent(" + body + ")")
      == Value(if SelectSamples(env, body).value == [] then Some(1.0) else None)
  {
    CallIsCall("absent(", body);
    CallReadBack("absent(", body);
  }

  lemma AggregateEvaluates(env: Env, max: bool, body: string)
    requires InnerValues(env, body).Some?
    ensures EvaluateFactor(env, (if max then "max(" else "sum(") + body + ")")
      == Value(Aggregate(max, InnerValues(env, body).value))
  {
    var head := if max then "max(" else "sum(";
    var text := head + body + ")";
    CallIsCall(head, body);
    CallReadBack(head, body);
    OtherCall(text, "absent(");
    OtherCall(text, if max then "sum(" else "max(");
  }

  lemma AbsentReadBack(env: Env, s: Selection)
    requires SelectionOk(s)
    ensures EvaluateFactor(env, FactorText(Absent(s))) == Value(DenoteFactor(env, Absent(s)))
  {
    SelectorReadBack(s);
    AbsentEvaluates(env, SelectorText(s));
    NothingSelected(env, s);
  }

  lemma AggregatedReadBack(env: Env, max: bool, i: Inner)
    requires InnerOk(i)
    ensures EvaluateFactor(env, FactorText(Aggregated(max, i))) == Value(DenoteFactor(env, Aggregated(max, i)))
  {
    InnerReadBack(env, i);
    AggregateEvaluates(env, max, InnerText(i));
    AggregateMeans(max, Measured(env, env.samples, i));
  }

  lemma NumberReadBack(env: Env, literal: string)
    requires LiteralOk(env, literal)
    ensures EvaluateFactor(env, literal) == Value(env.float(literal))
  {
    LiteralIsNumber(env, literal);
    assert NumberChar(literal[0]) && Tidy(literal, RubySpace);
    TrimIdentity(literal, RubySpace);
    assert literal != "time()" by { assert "time()"[0] == 't'; }
  }

  /** A factor other than a parenthesised term, read back. */
  lemma PlainFactorReadBack(env: Env, f: Factor)
    requires FactorOk(env, f) && !f.Paren?
    ensures EvaluateFactor(env, FactorText(f)) == Value(DenoteFactor(env, f))
  {
    match f
    case Time => TrimIdentity("time()", RubySpace);
    case Number(literal) => NumberReadBack(env, literal);
    case Absent(s) => AbsentReadBack(env, s);
    case Aggregated(max, i) => AggregatedReadBack(env, max, i);
  }

  // ---------------------------------------------------------------- factors as words

  lemma SelectorFlow(s: Selection)
    requires SelectionOk(s)
    ensures Flow(SelectorText(s), 1, 1, 0)
  {
    SelectorQuiet(s);
    FlowPlain(SelectorText(s), 1, 0);
  }

  lemma RangeFlow(s: Selection, count: string, unit: char)
    requires SelectionOk(s) && DigitsOk(count) && DurationUnit(unit)
    ensures Flow(SelectorText(s) + "[" + count + [unit] + "]", 1, 1, 0)
  {
    SelectorQuiet(s);
    FlowPlain(SelectorText(s) + "[" + count + [unit] + "]", 1, 0);
  }

  lemma CallInside(head: string, body: string)
    requires Head(head) && Flow(body, 1, 1, 0)
    ensures Flow(head + body + ")", 1, 1, 0)
  {
    FlowCall(head, body);
    FlowDeeper(head + body + ")", 0, 0, 0);
    FlowLower(head + body + ")", 1, 1, 1, 0);
  }

  lemma IncreaseText(s: string, count: string, unit: char)
    ensures "increase(" + s + "[" + count + [unit] + "])" == "increase(" + (s + "[" + count + [unit] + "]") + ")"
  {
  }

  lemma InnerFlow(i: Inner)
    requires InnerOk(i)
    ensures Flow(InnerText(i), 1, 1, 0)
  {
    if i.Instant? {
      SelectorFlow(i.selector);
    } else {
      RangeFlow(i.selector, i.count, i.unit);
      Heads();
      CallInside("increase(", SelectorText(i.selector) + "[" + i.count + [i.unit] + "]");
      IncreaseText(SelectorText(i.selector), i.count, i.unit);
    }
  }

  /** The last character of a factor: a closing parenthesis or a digit. */
  predicate FactorEnd(w: string) {
    w != [] && (w[|w| - 1] == ')' || Digit(w[|w| - 1]))
  }

  /** A call is one word. */
  lemma CallWord(head: string, body: string)
    requires Head(head) && Flow(body, 1, 1, 0) && !RubySpace(head[0])
    ensures Word(head + body + ")") && FactorEnd(head + body + ")")
  {
    FlowCall(head, body);
    assert (head + body + ")")[0] == head[0];
  }

  lemma NumberWord(env: Env, literal: string)
    requires LiteralOk(env, literal)
    ensures Word(literal) && FactorEnd(literal)
  {
    LiteralIsNumber(env, literal);
    assert forall i :: 0 <= i < |literal| ==> NumberChar(literal[i]);
    FlowPlain(literal, 0, 0);
  }

  /** Every factor is one word, and none that could be mistaken for a keyword. */
  lemma FactorWord(env: Env, f: Factor)
    requires FactorOk(env, f)
    ensures Word(FactorText(f)) && FactorEnd(FactorText(f))
    decreases f, 0
  {
    Heads();
    match f
    case Time =>
      CallWord("time(", []);
      assert "time(" + [] + ")" == "time()";
    case Number(literal) => NumberWord(env, literal);
    case Absent(s) =>
      SelectorFlow(s);
      CallWord("absent(", SelectorText(s));
    case Aggregated(max, i) =>
      InnerFlow(i);
      CallWord(if max then "max(" else "sum(", InnerText(i));
    case Paren(t) =>
      TermWordsOk(env, t);
      ParenWord(TermWords(t));
  }

  lemma ParenWord(ws: seq<string>)
    requires ws != [] && AllWords(ws)
    ensures Word("(" + Join(ws, " ") + ")")
  {
    FlowJoin(ws);
    FlowLower(Join(ws, " "), 1, 1, 1, 0);
    Heads();
    CallWord("(", Join(ws, " "));
  }

  lemma TermWordsOk(env: Env, t: Term)
    requires TermOk(env, t)
    ensures AllWords(TermWords(t)) && FactorEnd(TermWords(t)[0]) && FactorEnd(TermWords(t)[|TermWords(t)| - 1])
    decreases t, 1
  {
    match t
    case Single(f) => FactorWord(env, f);
    case Binary(l, division, r) =>
      FactorWord(env, l);
      FactorWord(env, r);
      FlowPlain("/", 0, 0);
      FlowPlain("-", 0, 0);
  }
}
