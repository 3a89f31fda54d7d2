/**
 Splitting a text made of words: a keyword cuts exactly where it is a word.
 */
module AlertWords {
  import opened Text
  import opened AlertSplit
  import opened AlertEval

  /** Reading `w` takes the depth from `d` to `e` without going below `floor`, and meets blanks only inside
      parentheses. */
  predicate Flow(w: string, d: int, e: int, floor: int) {
    if w == [] then d == e
    else
      var d1 := d + Delta(w[0]);
      d1 >= floor && (w[0] == ' ' ==> d1 > 0) && Flow(w[1..], d1, e, floor)
  }

  lemma {:induction false} FlowConcat(a: string, b: string, d: int, m: int, e: int, floor: int)
    requires Flow(a, d, m, floor) && Flow(b, m, e, floor)
    ensures Flow(a + b, d, e, floor)
  {
    if a == [] {
      assert a + b == b;
    } else {
      assert (a + b)[1..] == a[1..] + b;
      FlowConcat(a[1..], b, d + Delta(a[0]), m, e, floor);
    }
  }

  /** Text without parentheses stays where it is. */
  lemma {:induction false} FlowPlain(w: string, d: int, floor: int)
    requires NoParens(w) && floor <= d && (d > 0 || forall i :: 0 <= i < |w| ==> w[i] != ' ')
    ensures Flow(w, d, d, floor)
  {
    if w != [] {
      FlowPlain(w[1..], d, floor);
    }
  }

  /** The same text one level deeper. */
  lemma {:induction false} FlowDeeper(w: string, d: int, e: int, floor: int)
    requires Flow(w, d, e, floor)
    ensures Flow(w, d + 1, e + 1, floor + 1)
  {
    if w != [] {
      FlowDeeper(w[1..], d + Delta(w[0]), e, floor);
    }
  }

  /** The floor may be lowered. */
  lemma {:induction false} FlowLower(w: string, d: int, e: int, floor: int, lower: int)
    requires Flow(w, d, e, floor) && lower <= floor
    ensures Flow(w, d, e, lower)
  {
    if w != [] {
      FlowLower(w[1..], d + Delta(w[0]), e, floor, lower);
    }
  }

  /** A name and an opening parenthesis. */
  predicate Head(head: string) {
    && head != [] && head[|head| - 1] == '(' && NoParens(head[..|head| - 1])
    && forall i :: 0 <= i < |head| ==> head[i] != ' '
  }

  lemma Heads()
    ensures Head("(") && Head("time(") && Head("absent(") && Head("max(") && Head("sum(") && Head("increase(")
  {
  }

  /** A head, a body inside its parenthesis, and the closing one. */
  lemma FlowCall(head: string, body: string)
    requires Head(head)
    requires Flow(body, 1, 1, 0)
    ensures Flow(head + body + ")", 0, 0, 0)
  {
    var name := head[..|head| - 1];
    FlowPlain(name, 0, 0);
    assert "("[1..] == [] && ")"[1..] == [];
    assert Flow("(", 0, 1, 0) && Flow(")", 1, 0, 0);
    FlowConcat(name, "(", 0, 0, 1, 0);
    assert name + "(" == head;
    FlowConcat(head, body, 0, 1, 1, 0);
    FlowConcat(head + body, ")", 0, 1, 0, 0);
  }

  // ------------------------------------------------------------- wrapping parentheses

  lemma {:induction false} WrappedGo(body: string, tail: string, d: int, e: int)
    requires Flow(body, d, e, 1)
    ensures Wrapped(body + tail, d) == Wrapped(tail, e)
  {
    if body == [] {
      assert body + tail == tail;
    } else {
      assert (body + tail)[1..] == body[1..] + tail;
      WrappedGo(body[1..], tail, d + Delta(body[0]), e);
    }
  }

  /** A parenthesised body wraps exactly when nothing follows it. */
  lemma WrappedExactly(body: string, tail: string)
    requires Flow(body, 1, 1, 1)
    ensures Wrapped("(" + body + ")" + tail, 0) <==> tail == []
  {
    var text := "(" + body + ")" + tail;
    assert text[1..] == body + (")" + tail);
    WrappedGo(body, ")" + tail, 1, 1);
    assert (")" + tail)[0] == ')';
  }

  /** A word's parentheses close before what follows it, so they do not wrap both. */
  lemma {:induction false} WrappedStops(w: string, tail: string, d: int)
    requires Flow(w, d, 0, 0) && d > 0 && tail != []
    ensures !Wrapped(w + tail, d)
  {
    if w != [] {
      var text := w + tail;
      assert text[0] == w[0] && text[1..] == w[1..] + tail;
      if d + Delta(w[0]) > 0 {
        WrappedStops(w[1..], tail, d + Delta(w[0]));
      }
    }
  }

  // ------------------------------------------------------------------------ words

  /** A non-empty text that a blank can only end. */
  predicate Word(w: string) {
    w != [] && Flow(w, 0, 0, 0) && Tidy(w, RubySpace)
  }

  predicate AllWords(ws: seq<string>) {
    forall i :: 0 <= i < |ws| ==> Word(ws[i])
  }

  predicate Keyword(kw: string) {
    kw != [] && NoParens(kw) && forall i :: 0 <= i < |kw| ==> kw[i] != ' '
  }

  /** The splitter passes over a word. */
  lemma {:induction false} SplitOver(w: string, rest: string, needle: string, d: int)
    requires Flow(w, d, 0, 0) && needle != [] && needle[0] == ' '
    ensures Split(w + rest, needle, d) == Prepend(w, Split(rest, needle, 0))
  {
    if w == [] {
      assert w + rest == rest;
      PrependEmpty(w, Split(rest, needle, 0));
    } else {
      var text := w + rest;
      assert text[1..] == w[1..] + rest && text[0] == w[0];
      SplitOver(w[1..], rest, needle, d + Delta(w[0]));
      PrependPrepend([w[0]], w[1..], Split(rest, needle, 0));
      assert [w[0]] + w[1..] == w;
    }
  }

  /** Inside a word, plain text is never followed by a blank. */
  lemma {:induction false} NoBlankAfterPlain(w: string, n: nat)
    requires Flow(w, 0, 0, 0) && n < |w| && NoParens(w[..n])
    ensures w[n] != ' '
  {
    if n > 0 {
      assert w[0] == w[..n][0];
      assert w[1..][..n - 1] == w[..n][1..];
      NoBlankAfterPlain(w[1..], n - 1);
    }
  }

  /** The needle character by character. */
  lemma NeedleChars(kw: string, text: string)
    requires Needle(kw) <= text
    ensures |kw| + 2 <= |text| && text[0] == ' ' && text[|kw| + 1] == ' ' && text[1..|kw| + 1] == kw
  {
    var needle := Needle(kw);
    assert |needle| == |kw| + 2;
    assert needle[1..|kw| + 1] == kw;
    assert text[..|needle|] == needle;
    assert text[1..|kw| + 1] == text[..|needle|][1..|kw| + 1];
  }

  lemma NeedleAhead(w: string, tail: string, kw: string)
    requires Word(w) && Keyword(kw) && (tail != [] ==> tail[0] == ' ')
    requires Needle(kw) <= " " + (w + tail)
    ensures w == kw && tail != []
  {
    var rest := w + tail;
    NeedleChars(kw, " " + rest);
    assert (" " + rest)[1..|kw| + 1] == rest[..|kw|];
    assert rest[..|kw|] == kw && rest[|kw|] == ' ';
    if |w| > |kw| {
      assert w[..|kw|] == kw;
      NoBlankAfterPlain(w, |kw|);
    } else {
      assert rest[..|w|] == w;
    }
  }

  lemma NeedleThen(kw: string, after: string)
    ensures " " + (kw + (" " + after)) == Needle(kw) + after
    ensures Needle(kw) <= Needle(kw) + after && (Needle(kw) + after)[|Needle(kw)|..] == after
  {
  }

  /** What follows the first word. */
  function Tail(ws: seq<string>): string
    requires ws != []
  {
    if |ws| == 1 then [] else " " + Join(ws[1..], " ")
  }

  lemma JoinTail(ws: seq<string>)
    requires ws != []
    ensures Join(ws, " ") == ws[0] + Tail(ws)
  {
    if |ws| > 1 {
      assert ws[0] + " " + Join(ws[1..], " ") == ws[0] + (" " + Join(ws[1..], " "));
    }
  }

  /** At a blank between words, the needle starts exactly if the next word is the keyword and is not the
      last one. */
  lemma NeedleAtWord(ws: seq<string>, kw: string)
    requires ws != [] && Word(ws[0]) && Keyword(kw)
    ensures Needle(kw) <= " " + Join(ws, " ") <==> |ws| > 1 && ws[0] == kw
    ensures |ws| > 1 && ws[0] == kw ==> " " + Join(ws, " ") == Needle(kw) + Join(ws[1..], " ")
  {
    JoinTail(ws);
    if Needle(kw) <= " " + Join(ws, " ") {
      NeedleAhead(ws[0], Tail(ws), kw);
    }
    if |ws| > 1 && ws[0] == kw {
      NeedleThen(kw, Join(ws[1..], " "));
    }
  }

  lemma JoinTwo(w: string, rest: seq<string>, needle: string)
    requires rest != []
    ensures Join([w] + rest, needle) == w + needle + Join(rest, needle)
  {
    assert ([w] + rest)[1..] == rest;
  }

  /** The splitter at a blank. */
  lemma SplitBlank(rest: string, needle: string)
    requires needle != []
    ensures needle <= " " + rest ==>
      Split(" " + rest, needle, 0) == [[]] + Split((" " + rest)[|needle|..], needle, 0)
    ensures !(needle <= " " + rest) ==> Split(" " + rest, needle, 0) == Prepend(" ", Split(rest, needle, 0))
  {
    assert (" " + rest)[1..] == rest;
  }

  /** A word, then a blank that starts no needle. */
  lemma SplitPlainBlank(w: string, text: string, kw: string)
    requires Flow(w, 0, 0, 0) && !(Needle(kw) <= " " + text)
    ensures Split(w + " " + text, Needle(kw), 0) == Prepend(w + " ", Split(text, Needle(kw), 0))
  {
    var needle := Needle(kw);
    assert w + " " + text == w + (" " + text);
    SplitOver(w, " " + text, needle, 0);
    SplitBlank(text, needle);
    PrependPrepend(w, " ", Split(text, needle, 0));
  }

  /** A needle right away. */
  lemma SplitHead(after: string, kw: string)
    ensures Split(Needle(kw) + after, Needle(kw), 0) == [[]] + Split(after, Needle(kw), 0)
  {
    NeedleThen(kw, after);
    SplitBlank(kw + (" " + after), Needle(kw));
  }

  /** A word, then a needle. */
  lemma SplitNeedle(w: string, after: string, kw: string)
    requires Flow(w, 0, 0, 0)
    ensures Split(w + (Needle(kw) + after), Needle(kw), 0) == [w] + Split(after, Needle(kw), 0)
  {
    var needle := Needle(kw);
    SplitOver(w, needle + after, needle, 0);
    SplitHead(after, kw);
    PrependEmpty(w, Split(after, needle, 0));
  }

  lemma BlankBefore(w: string, text: string)
    ensures w + " " + text == w + (" " + text)
  {
  }

  /** The splitter at a word followed by the keyword ... */
  lemma SplitAtKeyword(w: string, rest: seq<string>, kw: string)
    requires Word(w) && |rest| > 1 && Word(rest[0]) && Keyword(kw) && rest[0] == kw
    ensures Split(Join([w] + rest, " "), Needle(kw), 0) == [w] + Split(Join(rest[1..], " "), Needle(kw), 0)
  {
    JoinTwo(w, rest, " ");
    BlankBefore(w, Join(rest, " "));
    NeedleAtWord(rest, kw);
    SplitNeedle(w, Join(rest[1..], " "), kw);
  }

  /** ... and by another word. */
  lemma SplitAtOther(w: string, rest: seq<string>, kw: string)
    requires Word(w) && rest != [] && Word(rest[0]) && Keyword(kw) && !(rest[0] == kw && |rest| > 1)
    ensures Split(Join([w] + rest, " "), Needle(kw), 0) == Prepend(w + " ", Split(Join(rest, " "), Needle(kw), 0))
  {
    JoinTwo(w, rest, " ");
    NeedleAtWord(rest, kw);
    SplitPlainBlank(w, Join(rest, " "), kw);
  }

  /** Without the keyword among the words, one part. */
  lemma {:induction false} SplitNone(ws: seq<string>, kw: string)
    requires ws != [] && AllWords(ws) && Keyword(kw) && kw !in ws
    ensures Split(Join(ws, " "), Needle(kw), 0) == [Join(ws, " ")]
  {
    assert Word(ws[0]);
    if |ws| == 1 {
      SplitOver(ws[0], [], Needle(kw), 0);
      assert ws[0] + [] == ws[0];
      PrependEmpty(ws[0], [[]]);
    } else {
      var rest := ws[1..];
      assert ws == [ws[0]] + rest;
      SplitNone(rest, kw);
      SplitAtOther(ws[0], rest, kw);
      assert Prepend(ws[0] + " ", [Join(rest, " ")]) == [ws[0] + " " + Join(rest, " ")];
    }
  }

  /** Up to the first keyword, one part; then the rest. */
  lemma {:induction false} SplitFirst(a: seq<string>, b: seq<string>, kw: string)
    requires a != [] && b != [] && AllWords(a) && AllWords(b) && Keyword(kw) && Word(kw) && kw !in a
    ensures Split(Join(a + [kw] + b, " "), Needle(kw), 0) == [Join(a, " ")] + Split(Join(b, " "), Needle(kw), 0)
  {
    var rest := a[1..] + [kw] + b;
    assert a + [kw] + b == [a[0]] + rest;
    assert Word(a[0]) && AllWords(rest);
    if |a| == 1 {
      assert rest == [kw] + b && rest[1..] == b;
      SplitAtKeyword(a[0], rest, kw);
    } else {
      SplitAtOther(a[0], rest, kw);
      SplitFirst(a[1..], b, kw);
      assert a == [a[0]] + a[1..];
      JoinTwo(a[0], a[1..], " ");
      assert rest[0] == a[1] != kw;
      var parts := Split(Join(b, " "), Needle(kw), 0);
      assert Prepend(a[0] + " ", [Join(a[1..], " ")] + parts) == [a[0] + " " + Join(a[1..], " ")] + parts;
    }
  }

  /** Joined words begin with the first and end with the last. */
  lemma {:induction false} JoinEnds(ws: seq<string>)
    requires ws != [] && AllWords(ws)
    ensures var text := Join(ws, " ");
      text != [] && text[0] == ws[0][0] && text[|text| - 1] == ws[|ws| - 1][|ws[|ws| - 1]| - 1]
    ensures Strip(Join(ws, " ")) == Join(ws, " ")
  {
    assert Word(ws[0]) && Word(ws[|ws| - 1]);
    if |ws| > 1 {
      JoinEnds(ws[1..]);
    }
    TrimIdentity(Join(ws, " "), RubySpace);
  }

  /** Joined words, inside parentheses. */
  lemma {:induction false} FlowJoin(ws: seq<string>)
    requires ws != [] && AllWords(ws)
    ensures Flow(Join(ws, " "), 1, 1, 1)
  {
    assert Word(ws[0]);
    FlowDeeper(ws[0], 0, 0, 0);
    if |ws| > 1 {
      FlowJoin(ws[1..]);
      assert " "[1..] == [];
      assert Flow(" ", 1, 1, 1);
      FlowConcat(ws[0], " ", 1, 1, 1, 1);
      FlowConcat(ws[0] + " ", Join(ws[1..], " "), 1, 1, 1, 1);
    }
  }
}
