/**
 * A Windows command line built from an argument list, and the Microsoft C
 * runtime's rules for taking it apart again.
 */
module Quoting {

  predicate IsBlank(c: char) {
    c == ' ' || c == '\t'
  }

  function Slashes(n: nat): (r: string)
    ensures |r| == n
  {
    if n == 0 then "" else "\\" + Slashes(n - 1)
  }

  predicate NeedsQuotes(a: string) {
    a == "" || ' ' in a || '\t' in a
  }

  /** What follows the opening quote, if any, with `k` backslashes held back. */
  function Body(s: string, k: nat, quoted: bool): string {
    if s == "" then
      if quoted then Slashes(2 * k) + "\"" else Slashes(k)
    else if s[0] == '\\' then Body(s[1..], k + 1, quoted)
    else if s[0] == '"' then Slashes(2 * k) + "\\\"" + Body(s[1..], 0, quoted)
    else Slashes(k) + [s[0]] + Body(s[1..], 0, quoted)
  }

  function Quote(a: string): string {
    (if NeedsQuotes(a) then "\"" else "") + Body(a, 0, NeedsQuotes(a))
  }

  function CommandLine(argv: seq<string>): string {
    if argv == [] then ""
    else if |argv| == 1 then Quote(argv[0])
    else Quote(argv[0]) + " " + CommandLine(argv[1..])
  }

  // ---- the runtime's side ----

  /**
   * One argument, with `k` backslashes just read: the argument, and the text
   * left. Backslashes count only before a quote: an even number stands for
   * half as many and a delimiter, an odd number for half as many and a quote.
   * Inside quotes, a doubled quote is a quote.
   */
  function ParseArg(t: string, inQuotes: bool, k: nat): (r: (string, string))
    ensures |r.1| <= |t|
    ensures t != "" && !IsBlank(t[0]) ==> |r.1| < |t|
    decreases |t|
  {
    if t == "" then (Slashes(k), "")
    else if t[0] == '\\' then ParseArg(t[1..], inQuotes, k + 1)
    else if t[0] == '"' then
      if k % 2 == 1 then
        var r := ParseArg(t[1..], inQuotes, 0);
        (Slashes(k / 2) + "\"" + r.0, r.1)
      else if inQuotes && |t| > 1 && t[1] == '"' then
        var r := ParseArg(t[2..], inQuotes, 0);
        (Slashes(k / 2) + "\"" + r.0, r.1)
      else
        var r := ParseArg(t[1..], !inQuotes, 0);
        (Slashes(k / 2) + r.0, r.1)
    else if !inQuotes && IsBlank(t[0]) then (Slashes(k), t)
    else
      var r := ParseArg(t[1..], inQuotes, 0);
      (Slashes(k) + [t[0]] + r.0, r.1)
  }

  function ParseArgs(t: string): seq<string>
    decreases |t|
  {
    if t == "" then []
    else if IsBlank(t[0]) then ParseArgs(t[1..])
    else
      var r := ParseArg(t, false, 0);
      [r.0] + ParseArgs(r.1)
  }

  // ---- the round trip ----

  lemma {:induction false} SlashesAdd(a: nat, b: nat)
    ensures Slashes(a) + Slashes(b) == Slashes(a + b)
  {
    if a == 0 {
      assert Slashes(0) + Slashes(b) == Slashes(b);
    } else {
      SlashesAdd(a - 1, b);
      assert Slashes(a) + Slashes(b) == "\\" + (Slashes(a - 1) + Slashes(b));
    }
  }

  lemma {:induction false} ParseSlashes(n: nat, t: string, q: bool, k: nat)
    ensures ParseArg(Slashes(n) + t, q, k) == ParseArg(t, q, k + n)
  {
    if n == 0 {
      assert Slashes(0) + t == t;
    } else {
      var u := Slashes(n) + t;
      assert u[0] == '\\' && u[1..] == Slashes(n - 1) + t;
      ParseSlashes(n - 1, t, q, k + 1);
    }
  }

  /** What may follow an argument: nothing, or a separator. */
  ghost predicate Ends(tail: string) {
    tail == "" || IsBlank(tail[0])
  }

  lemma ParseTail(tail: string)
    requires Ends(tail)
    ensures ParseArg(tail, false, 0) == ("", tail)
  { }

  lemma ParseEscapedQuote(k: nat, more: string, q: bool)
    ensures var r := ParseArg(more, q, 0);
            ParseArg(Slashes(2 * k) + "\\\"" + more, q, 0) == (Slashes(k) + "\"" + r.0, r.1)
  {
    var t := "\"" + more;
    SlashesAdd(2 * k, 1);
    assert Slashes(1) == "\\";
    assert Slashes(2 * k) + "\\\"" + more == Slashes(2 * k + 1) + t;
    ParseSlashes(2 * k + 1, t, q, 0);
    assert t[1..] == more;
  }

  lemma ParsePlain(k: nat, c: char, more: string, q: bool)
    requires c != '\\' && c != '"' && (!q ==> !IsBlank(c))
    ensures var r := ParseArg(more, q, 0);
            ParseArg(Slashes(k) + [c] + more, q, 0) == (Slashes(k) + [c] + r.0, r.1)
  {
    var t := [c] + more;
    assert Slashes(k) + [c] + more == Slashes(k) + t;
    ParseSlashes(k, t, q, 0);
    assert t[1..] == more;
  }

  lemma ParseEnd(k: nat, quoted: bool, tail: string)
    requires Ends(tail)
    ensures ParseArg(Body("", k, quoted) + tail, quoted, 0) == (Slashes(k), tail)
  {
    if quoted {
      var t := "\"" + tail;
      assert Body("", k, quoted) + tail == Slashes(2 * k) + t;
      ParseSlashes(2 * k, t, true, 0);
      assert t[1..] == tail;
      ParseTail(tail);
      assert Slashes(k) + "" == Slashes(k);
    } else {
      ParseSlashes(k, tail, false, 0);
    }
  }

  lemma Assoc(a: string, b: string, c: string)
    ensures (a + b) + c == a + (b + c)
  { }

  lemma BodyQuoteStep(s: string, k: nat, quoted: bool, tail: string)
    requires s != "" && s[0] == '"'
    requires ParseArg(Body(s[1..], 0, quoted) + tail, quoted, 0) == (s[1..], tail)
    ensures ParseArg(Body(s, k, quoted) + tail, quoted, 0) == (Slashes(k) + s, tail)
  {
    hide ParseArg;
    var body := Body(s[1..], 0, quoted);
    ParseEscapedQuote(k, body + tail, quoted);
    Assoc(Slashes(2 * k) + "\\\"", body, tail);
    Assoc(Slashes(k), "\"", s[1..]);
    assert "\"" + s[1..] == s;
  }

  lemma BodyPlainStep(s: string, k: nat, quoted: bool, tail: string)
    requires s != "" && s[0] != '\\' && s[0] != '"' && (!quoted ==> !IsBlank(s[0]))
    requires ParseArg(Body(s[1..], 0, quoted) + tail, quoted, 0) == (s[1..], tail)
    ensures ParseArg(Body(s, k, quoted) + tail, quoted, 0) == (Slashes(k) + s, tail)
  {
    hide ParseArg;
    var body := Body(s[1..], 0, quoted);
    ParsePlain(k, s[0], body + tail, quoted);
    Assoc(Slashes(k) + [s[0]], body, tail);
    Assoc(Slashes(k), [s[0]], s[1..]);
    assert [s[0]] + s[1..] == s;
  }

  lemma {:induction false} ParseBody(s: string, k: nat, quoted: bool, tail: string)
    requires Ends(tail)
    requires !quoted ==> forall c :: c in s ==> !IsBlank(c)
    ensures ParseArg(Body(s, k, quoted) + tail, quoted, 0) == (Slashes(k) + s, tail)
    decreases |s|
  {
    hide ParseArg;
    if s == "" {
      ParseEnd(k, quoted, tail);
      assert Slashes(k) + s == Slashes(k);
    } else if s[0] == '\\' {
      ParseBody(s[1..], k + 1, quoted, tail);
      SlashesAdd(k, 1);
      assert Slashes(1) == "\\";
      assert Slashes(k) + "\\" + s[1..] == Slashes(k) + s;
    } else {
      hide Body;
      ParseBody(s[1..], 0, quoted, tail);
      assert Slashes(0) + s[1..] == s[1..];
      if s[0] == '"' {
        BodyQuoteStep(s, k, quoted, tail);
      } else {
        BodyPlainStep(s, k, quoted, tail);
      }
    }
  }

  lemma ParseQuoted(a: string, tail: string)
    requires Ends(tail)
    ensures ParseArg(Quote(a) + tail, false, 0) == (a, tail)
  {
    ParseBody(a, 0, NeedsQuotes(a), tail);
    var body := Body(a, 0, NeedsQuotes(a)) + tail;
    assert Slashes(0) + a == a;
    if NeedsQuotes(a) {
      var t := "\"" + body;
      assert Quote(a) + tail == t;
      assert t[1..] == body;
    } else {
      assert Quote(a) + tail == body;
    }
  }

  lemma {:induction false} BodyStart(s: string, k: nat, quoted: bool)
    requires s != "" || k > 0 || quoted
    requires !quoted ==> forall c :: c in s ==> !IsBlank(c)
    requires k == 0 && quoted ==> s == ""
    ensures Body(s, k, quoted) != "" && !IsBlank(Body(s, k, quoted)[0])
    decreases |s|
  {
    if s != "" && s[0] == '\\' {
      BodyStart(s[1..], k + 1, quoted);
    }
  }

  lemma QuoteStart(a: string)
    ensures Quote(a) != "" && !IsBlank(Quote(a)[0])
  {
    if !NeedsQuotes(a) {
      BodyStart(a, 0, false);
    }
  }

  /** The runtime gives back exactly the arguments, whatever they hold. */
  lemma {:induction false} RoundTrip(argv: seq<string>)
    ensures ParseArgs(CommandLine(argv)) == argv
  {
    if argv != [] {
      var a := argv[0];
      QuoteStart(a);
      assert argv == [a] + argv[1..];
      if |argv| == 1 {
        assert Quote(a) + "" == Quote(a);
        ParseQuoted(a, "");
        assert ParseArgs("") == [];
      } else {
        var rest := CommandLine(argv[1..]);
        var tail := " " + rest;
        var line := CommandLine(argv);
        assert line == Quote(a) + tail;
        ParseQuoted(a, tail);
        assert ParseArgs(line) == [a] + ParseArgs(tail);
        assert tail[1..] == rest;
        RoundTrip(argv[1..]);
      }
    }
  }

  // ---- the program's own name ----

  /** The first argument is read without backslash rules: quotes only switch whether a blank ends it. */
  function ParseProgram(t: string, inQuotes: bool): (string, string) {
    if t == "" then ("", "")
    else if t[0] == '"' then ParseProgram(t[1..], !inQuotes)
    else if !inQuotes && IsBlank(t[0]) then ("", t)
    else
      var r := ParseProgram(t[1..], inQuotes);
      ([t[0]] + r.0, r.1)
  }

  function ParseCommandLine(t: string): seq<string> {
    var r := ParseProgram(t, false);
    [r.0] + ParseArgs(r.1)
  }

  /** A program name that survives: no quote in it, and no backslash before a closing quote. */
  predicate SafeProgram(a: string) {
    '"' !in a && (NeedsQuotes(a) && a != "" ==> a[|a| - 1] != '\\')
  }

  lemma {:induction false} ProgramSlashes(n: nat, t: string, q: bool)
    ensures ParseProgram(Slashes(n) + t, q) == (Slashes(n) + ParseProgram(t, q).0, ParseProgram(t, q).1)
  {
    hide ParseProgram;
    if n == 0 {
      assert Slashes(0) + t == t;
      assert Slashes(0) + ParseProgram(t, q).0 == ParseProgram(t, q).0;
    } else {
      var u := Slashes(n) + t;
      assert u[0] == '\\' && u[1..] == Slashes(n - 1) + t;
      ProgramSlashes(n - 1, t, q);
      OneSlash(Slashes(n - 1) + t, q);
      assert "\\" + u[1..] == u;
      assert "\\" + (Slashes(n - 1) + ParseProgram(t, q).0) == Slashes(n) + ParseProgram(t, q).0;
    }
  }

  lemma OneSlash(t: string, q: bool)
    ensures ParseProgram("\\" + t, q) == ("\\" + ParseProgram(t, q).0, ParseProgram(t, q).1)
  {
    assert ("\\" + t)[1..] == t;
  }

  lemma {:induction false} ProgramHasNoQuote(t: string, q: bool)
    ensures '"' !in ParseProgram(t, q).0
  {
    if t != "" {
      ProgramHasNoQuote(t[1..], q);
      ProgramHasNoQuote(t[1..], !q);
    }
  }

  /** What a quote-free name comes back as: itself, with any backslashes at a closing quote doubled. */
  lemma {:induction false} ProgramBody(s: string, k: nat, quoted: bool, tail: string)
    requires Ends(tail) && '"' !in s
    requires !quoted ==> forall c :: c in s ==> !IsBlank(c)
    ensures var r := ParseProgram(Body(s, k, quoted) + tail, quoted);
            r.1 == tail && (r.0 == Slashes(k) + s <==> !quoted || Trailing(s, k) == 0)
    ensures quoted ==> |ParseProgram(Body(s, k, quoted) + tail, quoted).0| == k + |s| + Trailing(s, k)
    decreases |s|
  {
    if s == "" {
      assert Slashes(k) + s == Slashes(k);
      if quoted {
        var t := "\"" + tail;
        assert Body(s, k, quoted) + tail == Slashes(2 * k) + t;
        ProgramSlashes(2 * k, t, true);
        assert t[1..] == tail;
        assert ParseProgram(tail, false) == ("", tail);
      } else {
        ProgramSlashes(k, tail, false);
        assert ParseProgram(tail, false) == ("", tail);
      }
    } else {
      var rest := s[1..];
      assert s == [s[0]] + rest;
      if s[0] == '\\' {
        ProgramBody(rest, k + 1, quoted, tail);
        SlashesAdd(k, 1);
        assert Slashes(1) == "\\";
        assert Slashes(k + 1) + rest == Slashes(k) + s;
      } else {
        var more := Body(rest, 0, quoted) + tail;
        var t := [s[0]] + more;
        ProgramBody(rest, 0, quoted, tail);
        Assoc(Slashes(k) + [s[0]], Body(rest, 0, quoted), tail);
        Assoc(Slashes(k), [s[0]], more);
        ProgramSlashes(k, t, quoted);
        assert t[1..] == more;
        var got := ParseProgram(more, quoted).0;
        assert Slashes(0) + rest == rest;
        if got != rest && quoted {
          assert |got| > |rest|;
        }
      }
    }
  }

  /** How many backslashes end the name, with `k` just before it. */
  function Trailing(s: string, k: nat): nat {
    if s == "" then k
    else if s[0] == '\\' then Trailing(s[1..], k + 1)
    else Trailing(s[1..], 0)
  }

  lemma {:induction false} TrailingIs(s: string, k: nat)
    ensures Trailing(s, k) == 0 <==> (if s == "" then k == 0 else s[|s| - 1] != '\\')
    decreases |s|
  {
    if s != "" {
      TrailingIs(s[1..], if s[0] == '\\' then k + 1 else 0);
    }
  }

  lemma ProgramOpens(body: string)
    ensures ParseProgram("\"" + body, false) == ParseProgram(body, true)
  {
    assert ("\"" + body)[1..] == body;
  }

  lemma ProgramName(a: string, tail: string)
    requires Ends(tail)
    ensures ParseProgram(Quote(a) + tail, false) == (a, tail) <==> SafeProgram(a)
    ensures SafeProgram(a) || ParseProgram(Quote(a) + tail, false).0 != a
  {
    hide ParseProgram, Body;
    var line := Quote(a) + tail;
    if '"' in a {
      ProgramHasNoQuote(line, false);
    } else {
      var q := NeedsQuotes(a);
      var body := Body(a, 0, q) + tail;
      ProgramBody(a, 0, q, tail);
      TrailingIs(a, 0);
      assert Slashes(0) + a == a;
      if q {
        Assoc("\"", Body(a, 0, q), tail);
        ProgramOpens(body);
      } else {
        assert "" + Body(a, 0, q) == Body(a, 0, q);
      }
    }
  }

  lemma Rest(argv: seq<string>) returns (tail: string)
    requires argv != []
    ensures Ends(tail) && CommandLine(argv) == Quote(argv[0]) + tail && ParseArgs(tail) == argv[1..]
  {
    hide ParseArg, Quote;
    RoundTrip(argv[1..]);
    if |argv| == 1 {
      tail := "";
      assert Quote(argv[0]) + tail == Quote(argv[0]);
      assert ParseArgs(tail) == [];
    } else {
      var line := CommandLine(argv[1..]);
      tail := " " + line;
      assert Quote(argv[0]) + " " + line == Quote(argv[0]) + tail;
      assert tail[1..] == line;
    }
  }

  /** With the program's name read by its own rule, the round trip holds exactly for a safe name. */
  lemma ProgramRoundTrip(argv: seq<string>)
    requires argv != []
    ensures ParseCommandLine(CommandLine(argv)) == argv <==> SafeProgram(argv[0])
  {
    hide ParseProgram, ParseArgs, Quote, CommandLine;
    var tail := Rest(argv);
    ProgramName(argv[0], tail);
    assert argv == [argv[0]] + argv[1..];
    var got := ParseCommandLine(CommandLine(argv));
    assert got[0] == ParseProgram(CommandLine(argv), false).0;
  }

  /** A program name with a quote in it, or a quoted one that ends in a backslash, is not read back. */
  lemma UnsafeNamesAreLost()
    ensures ParseCommandLine(CommandLine(["a\"b"])) != ["a\"b"]
    ensures ParseCommandLine(CommandLine(["a b\\"])) != ["a b\\"]
  {
    hide ParseCommandLine, CommandLine;
    ProgramRoundTrip(["a\"b"]);
    ProgramRoundTrip(["a b\\"]);
    assert "a\"b"[1] == '"' && "a b\\"[1] == ' ' && "a b\\"[3] == '\\';
  }

  // ---- the printer as written ----

  method Repeat(n: nat) returns (r: string)
    ensures r == Slashes(n)
  {
    r := "";
    for i := 0 to n
      invariant r == Slashes(i)
    {
      SlashesAdd(1, i);
      SlashesAdd(i, 1);
      assert Slashes(1) == "\\";
      r := r + "\\";
    }
  }

  /** One argument, built a character at a time with a count of backslashes held back. */
  method QuoteArgument(a: string) returns (quoted: string)
    ensures quoted == Quote(a)
  {
    var needQuote := a == "" || ' ' in a || '\t' in a;
    quoted := if needQuote then "\"" else "";
    var backslashes := 0;
    for i := 0 to |a|
      invariant quoted + Body(a[i..], backslashes, needQuote) == Quote(a)
    {
      var c := a[i];
      assert a[i..][0] == c && a[i..][1..] == a[i + 1..];
      if c == '\\' {
        backslashes := backslashes + 1;
      } else if c == '"' {
        var s := Repeat(backslashes * 2);
        quoted := quoted + (s + "\\\"");
        backslashes := 0;
      } else {
        var s := Repeat(backslashes);
        quoted := quoted + (s + [c]);
        backslashes := 0;
      }
    }
    var s := Repeat(backslashes);
    SlashesAdd(backslashes, backslashes);
    quoted := quoted + s;
    if needQuote {
      quoted := quoted + (s + "\"");
    }
  }
}
