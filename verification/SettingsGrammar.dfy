/** What the settings reader's grammar takes in: gaps, strings and depth, said of the characters themselves. */
module SettingsGrammar {
  import opened Options
  import opened SettingsSyntax
  import opened SettingsTree
  import opened SettingsRedaction

  // ---- gaps ----

  lemma {:induction false} LineEndsAt(line: string, rest: string)
    requires '\n' !in line && rest != "" && rest[0] == '\n'
    ensures LineEnd(line + rest) == |line|
    decreases |line|
  {
    if line == "" {
      assert line + rest == rest;
    } else {
      LineEndsAt(line[1..], rest);
      assert (line + rest)[1..] == line[1..] + rest;
    }
  }

  /** Nowhere in a comment's body, not even over its end, does a comment end. */
  predicate NoEndIn(body: string) {
    forall i :: 0 <= i < |body| ==> !(body[i] == '*' && (body + "*/")[i + 1] == '/')
  }

  lemma {:induction false} BlockEndsAt(body: string, rest: string)
    requires NoEndIn(body)
    ensures var t := body + "*/" + rest; BlockClosed(t) && BlockEnd(t) == |body| + 2
    decreases |body|
  {
    var t := body + "*/" + rest;
    if body == "" {
      assert t[0] == '*' && t[1] == '/';
    } else {
      var tail := body[1..];
      forall i | 0 <= i < |tail| ensures !(tail[i] == '*' && (tail + "*/")[i + 1] == '/') {
        assert tail[i] == body[i + 1] && (tail + "*/")[i + 1] == (body + "*/")[i + 2];
      }
      BlockEndsAt(tail, rest);
      assert t[1..] == tail + "*/" + rest;
      assert t[0] == body[0] && t[1] == (body + "*/")[1];
    }
  }

  /**
   * Gaps are made of spaces, tabs and line breaks, line comments up to their
   * line break, and block comments up to their end.
   */
  lemma GapsAre(g: string)
    requires ClosedGap(g)
    ensures ClosedGap("")
    ensures forall c :: c in " \t\n\r" ==> ClosedGap([c] + g)
    ensures g != "" && g[0] == '\n' ==> forall line :: '\n' !in line ==> ClosedGap("//" + line + g)
    ensures forall body :: NoEndIn(body) ==> ClosedGap("/*" + body + "*/" + g)
  {
    forall c | c in " \t\n\r" ensures ClosedGap([c] + g) {
      assert ([c] + g)[1..] == g;
    }
    if g != "" && g[0] == '\n' {
      forall line | '\n' !in line ensures ClosedGap("//" + line + g) {
        LineGap(line, g);
      }
    }
    forall body | NoEndIn(body) ensures ClosedGap("/*" + body + "*/" + g) {
      BlockGap(body, g);
    }
  }

  lemma LineGap(line: string, g: string)
    requires ClosedGap(g) && g != "" && g[0] == '\n' && '\n' !in line
    ensures ClosedGap("//" + line + g)
  {
    hide LineEnd;
    var t := "//" + line + g;
    assert t == ("//" + line) + g;
    LineEndsAt("//" + line, g);
    assert t[LineEnd(t)..] == g;
  }

  lemma BlockGap(body: string, g: string)
    requires ClosedGap(g) && NoEndIn(body)
    ensures ClosedGap("/*" + body + "*/" + g)
  {
    hide BlockEnd, BlockClosed, NoEndIn;
    var t := "/*" + body + "*/" + g;
    assert t[2..] == body + "*/" + g;
    BlockEndsAt(body, g);
    assert t[2 + BlockEnd(t[2..])..] == g;
  }

  // ---- strings ----

  /** A string's inside: characters but quotes, and any character after a backslash. */
  predicate Escaped(body: string)
    decreases |body|
  {
    body == "" || (if body[0] == '\\' then |body| >= 2 && Escaped(body[2..]) else body[0] != '"' && Escaped(body[1..]))
  }

  lemma {:induction false} BodyEnds(body: string)
    ensures StringBody(body + "\"") == Some(|body| + 1) <==> Escaped(body)
    decreases |body|
  {
    var t := body + "\"";
    if body == "" {
      assert t[0] == '"';
    } else if body[0] == '\\' {
      if |body| >= 2 {
        BodyEnds(body[2..]);
        assert t[2..] == body[2..] + "\"";
      } else {
        assert t[2..] == "";
      }
    } else if body[0] != '"' {
      BodyEnds(body[1..]);
      assert t[1..] == body[1..] + "\"";
    }
  }

  /** A string is a quote, such an inside, and a quote. */
  lemma StringsAre(body: string)
    ensures ClosedString("\"" + body + "\"") <==> Escaped(body)
  {
    hide StringBody, Escaped;
    var s := "\"" + body + "\"";
    assert s[1..] == body + "\"";
    BodyEnds(body);
  }

  // ---- depth ----

  /** Lists in lists. */
  function Nested(n: nat): Value {
    if n == 0 then VWord("null") else VArray([Elem("", Nested(n - 1), "")], NoComma)
  }

  /** Nesting is read to a depth of 128 and no deeper. */
  lemma {:induction false} NestingLimit(d: Decoder, n: nat, depth: nat)
    ensures WellFormed(d, Nested(n), depth) <==> n == 0 || depth + n <= 128
    decreases n
  {
    if n > 0 {
      NestingLimit(d, n - 1, depth + 1);
      var elems := [Elem("", Nested(n - 1), "")];
      assert elems[1..] == [] && Nested(n) == VArray(elems, NoComma);
      assert GoodElems(d, elems[1..], depth + 1);
      assert GoodElem(d, elems[0], depth + 1) <==> WellFormed(d, Nested(n - 1), depth + 1);
      assert WellFormed(d, Nested(n), depth) <==> depth < MAX_DEPTH && GoodElem(d, elems[0], depth + 1);
    }
  }

  // ---- what stays before a closing brace ----

  lemma {:induction false} LastBreakIs(t: string)
    ensures var b := LastBreak(t);
            if b.Some? then '\n' !in t[b.value + 1..] else '\n' !in t
    decreases |t|
  {
    if t != "" && t[|t| - 1] != '\n' {
      var init := t[..|t| - 1];
      LastBreakIs(init);
      assert t == init + [t[|t| - 1]];
      var b := LastBreak(t);
      if b.Some? {
        assert t[b.value + 1..] == init[b.value + 1..] + [t[|t| - 1]];
      }
    }
  }

  /**
   * After the last field is taken out, of what follows it only a line break
   * and the white space after it stay, and no comment does.
   */
  lemma TailKeeps(tail: string)
    ensures var kept := tail[TailCut(tail)..];
            && Blank(kept)
            && (kept != "" ==> kept[0] == '\n' && '\n' !in kept[1..])
            && (kept == "" <==> forall n :: 0 <= n < |tail| && tail[n] == '\n' ==> !Blank(tail[n..]))
  {
    LastBreakIs(tail);
    var b := LastBreak(tail);
    var kept := tail[TailCut(tail)..];
    if b.Some? {
      assert tail[b.value..][1..] == tail[b.value + 1..];
      assert forall i :: b.value < i < |tail| ==> tail[i] == tail[b.value + 1..][i - b.value - 1];
      forall n | 0 <= n < |tail| && tail[n] == '\n' && Blank(tail[n..]) ensures Blank(tail[b.value..]) {
        assert n <= b.value;
        assert tail[b.value..] == tail[n..][b.value - n..];
      }
      if kept != "" {
        assert tail[b.value] == '\n';
      }
    }
  }
}
