/**
 * The concrete syntax of a mod's settings file: JSON (RFC 8259) as SMAPI
 * reads it, with comments and trailing commas. A file is read into a value
 * that remembers every character of its own text.
 */
module SettingsSyntax {
  import opened Options

  // ---- gaps: what stands between tokens ----

  predicate IsSpace(c: char) {
    c == ' ' || c == '\t' || c == '\n' || c == '\r'
  }

  /** How far the first line break is, or the whole text. */
  function LineEnd(t: string): (n: nat)
    ensures n <= |t|
  {
    if t == "" || t[0] == '\n' then 0 else 1 + LineEnd(t[1..])
  }

  predicate BlockClosed(t: string) {
    |t| >= 2 && ((t[0] == '*' && t[1] == '/') || BlockClosed(t[1..]))
  }

  /** How far a block comment's body and its end reach, or the whole text. */
  function BlockEnd(t: string): (n: nat)
    ensures n <= |t|
  {
    if |t| < 2 then |t|
    else if t[0] == '*' && t[1] == '/' then 2
    else 1 + BlockEnd(t[1..])
  }

  predicate StartsLine(t: string) {
    |t| >= 2 && t[0] == '/' && t[1] == '/'
  }

  predicate StartsBlock(t: string) {
    |t| >= 2 && t[0] == '/' && t[1] == '*'
  }

  /** How many characters a gap at the front of `t` takes. */
  function SpaceLen(t: string): (n: nat)
    ensures n <= |t|
    decreases |t|
  {
    if t == "" then 0
    else if IsSpace(t[0]) then 1 + SpaceLen(t[1..])
    else if StartsLine(t) then LineEnd(t) + SpaceLen(t[LineEnd(t)..])
    else if StartsBlock(t) then 2 + BlockEnd(t[2..]) + SpaceLen(t[2 + BlockEnd(t[2..])..])
    else 0
  }

  /** A gap whose comments all end within it. */
  predicate ClosedGap(g: string)
    decreases |g|
  {
    g == ""
    || (IsSpace(g[0]) && ClosedGap(g[1..]))
    || (StartsLine(g) && LineEnd(g) < |g| && ClosedGap(g[LineEnd(g)..]))
    || (StartsBlock(g) && BlockClosed(g[2..]) && ClosedGap(g[2 + BlockEnd(g[2..])..]))
  }

  /** A gap cannot reach into what follows. */
  predicate Stops(rest: string) {
    rest == "" || (!IsSpace(rest[0]) && rest[0] != '/')
  }

  lemma {:induction false} LineEndAppend(g: string, rest: string)
    requires LineEnd(g) < |g|
    ensures LineEnd(g + rest) == LineEnd(g)
  {
    if g[0] != '\n' {
      LineEndAppend(g[1..], rest);
      assert (g + rest)[1..] == g[1..] + rest;
    }
  }

  lemma {:induction false} LineEndTake(t: string, m: nat)
    requires LineEnd(t) < m <= |t|
    ensures LineEnd(t[..m]) == LineEnd(t)
  {
    if t[0] != '\n' {
      LineEndTake(t[1..], m - 1);
      assert t[..m][1..] == t[1..][..m - 1];
    }
  }

  lemma {:induction false} LineEndAt(t: string)
    ensures LineEnd(t) < |t| ==> t[LineEnd(t)] == '\n'
    ensures forall i :: 0 <= i < LineEnd(t) ==> t[i] != '\n'
  {
    if t != "" && t[0] != '\n' {
      LineEndAt(t[1..]);
      forall i | 0 <= i < LineEnd(t) ensures t[i] != '\n' {
        if i > 0 {
          assert t[i] == t[1..][i - 1];
        }
      }
    }
  }

  lemma {:induction false} BlockAppend(g: string, rest: string)
    requires BlockClosed(g)
    ensures BlockClosed(g + rest) && BlockEnd(g + rest) == BlockEnd(g)
  {
    var t := g + rest;
    assert t[0] == g[0] && t[1] == g[1];
    if !(g[0] == '*' && g[1] == '/') {
      BlockAppend(g[1..], rest);
      assert t[1..] == g[1..] + rest;
    }
  }

  lemma {:induction false} BlockTake(t: string, m: nat)
    requires BlockClosed(t) && BlockEnd(t) <= m <= |t|
    ensures BlockClosed(t[..m]) && BlockEnd(t[..m]) == BlockEnd(t)
  {
    if !(t[0] == '*' && t[1] == '/') {
      BlockTake(t[1..], m - 1);
      assert t[..m][1..] == t[1..][..m - 1];
    }
  }

  lemma {:induction false} BlockOpen(t: string)
    ensures !BlockClosed(t) ==> BlockEnd(t) == |t|
    ensures BlockClosed(t) ==> BlockEnd(t) >= 2 && t[BlockEnd(t) - 1] == '/'
  {
    if |t| >= 2 && !(t[0] == '*' && t[1] == '/') {
      BlockOpen(t[1..]);
    }
  }

  /** A closed gap is read whole, and no further. */
  lemma {:induction false} SpaceAppend(g: string, rest: string)
    requires ClosedGap(g) && Stops(rest)
    ensures SpaceLen(g + rest) == |g|
    decreases |g|, 1
  {
    if g == "" {
      assert g + rest == rest;
    } else if IsSpace(g[0]) {
      hide StartsLine, StartsBlock, LineEnd, BlockEnd;
      assert (g + rest)[1..] == g[1..] + rest;
      SpaceAppend(g[1..], rest);
    } else if StartsLine(g) {
      LineEndAppend(g, rest);
      SpaceAppendAfter(g, LineEnd(g), rest);
    } else {
      assert (g + rest)[2..] == g[2..] + rest;
      BlockAppend(g[2..], rest);
      SpaceAppendAfter(g, 2 + BlockEnd(g[2..]), rest);
    }
  }

  lemma {:induction false} SpaceAppendAfter(g: string, n: nat, rest: string)
    requires 0 < n <= |g| && ClosedGap(g[n..]) && Stops(rest)
    ensures (g + rest)[n..] == g[n..] + rest && SpaceLen(g[n..] + rest) == |g| - n
    decreases |g|, 0
  {
    hide *;
    SpaceAppend(g[n..], rest);
  }

  lemma LineTake(t: string, n: nat)
    requires StartsLine(t) && LineEnd(t) < n <= |t| && ClosedGap(t[LineEnd(t)..][..n - LineEnd(t)])
    ensures ClosedGap(t[..n])
  {
    var m := LineEnd(t);
    LineEndAt(t);
    LineEndTake(t, n);
    assert t[..n][m..] == t[m..][..n - m];
    assert StartsLine(t[..n]);
  }

  lemma BlockGapTake(t: string, n: nat)
    requires StartsBlock(t) && BlockClosed(t[2..]) && 2 + BlockEnd(t[2..]) <= n <= |t|
    requires ClosedGap(t[2 + BlockEnd(t[2..])..][..n - 2 - BlockEnd(t[2..])])
    ensures ClosedGap(t[..n])
  {
    var m := 2 + BlockEnd(t[2..]);
    BlockTake(t[2..], n - 2);
    assert t[..n][2..] == t[2..][..n - 2];
    assert t[..n][m..] == t[m..][..n - m];
    assert StartsBlock(t[..n]);
  }

  /** What a gap takes, when anything follows it, is a closed gap. */
  lemma {:induction false} SpaceTake(t: string)
    requires SpaceLen(t) < |t|
    ensures ClosedGap(t[..SpaceLen(t)]) && !IsSpace(t[SpaceLen(t)])
    decreases |t|
  {
    var n := SpaceLen(t);
    if IsSpace(t[0]) {
      hide StartsLine, StartsBlock, LineEnd, BlockEnd;
      SpaceTake(t[1..]);
      assert t[..n][1..] == t[1..][..n - 1];
    } else if StartsLine(t) {
      hide ClosedGap;
      var m := LineEnd(t);
      SpaceTake(t[m..]);
      LineEndAt(t);
      assert IsSpace(t[m..][0]);
      LineTake(t, n);
    } else if StartsBlock(t) {
      hide ClosedGap;
      SpaceTake(t[2 + BlockEnd(t[2..])..]);
      BlockOpen(t[2..]);
      BlockGapTake(t, n);
    }
  }

  predicate AllSpace(t: string) {
    forall c :: c in t ==> IsSpace(c)
  }

  lemma {:induction false} AllSpaceIsGap(t: string)
    requires AllSpace(t)
    ensures ClosedGap(t)
    decreases |t|
  {
    if t != "" {
      assert t[0] in t;
      AllSpaceIsGap(t[1..]);
    }
  }

  lemma {:induction false} NoSlashIsSpace(g: string)
    requires ClosedGap(g) && '/' !in g
    ensures AllSpace(g)
    decreases |g|
  {
    if g != "" {
      assert g[0] in g;
      NoSlashIsSpace(g[1..]);
      assert g == [g[0]] + g[1..];
    }
  }

  lemma SlashIn(g: string, k: nat, i: nat)
    requires k <= |g| && i < |g| && g[i] == '/'
    ensures k <= i ==> '/' in g[k..]
  {
    if k <= i {
      assert g[i] == g[k..][i - k];
    }
  }

  /** From a line break on, a gap without a slash is only spaces: no comment reaches into it. */
  lemma {:induction false} TailIsSpace(g: string, k: nat)
    requires ClosedGap(g) && k < |g| && g[k] == '\n' && '/' !in g[k..]
    ensures AllSpace(g[k..])
    decreases |g|
  {
    if k == 0 {
      assert g[0..] == g;
      NoSlashIsSpace(g);
    } else if IsSpace(g[0]) {
      assert g[k..] == g[1..][k - 1..];
      TailIsSpace(g[1..], k - 1);
    } else if StartsLine(g) {
      var m := LineEnd(g);
      LineEndAt(g);
      assert k >= m;
      assert g[k..] == g[m..][k - m..];
      TailIsSpace(g[m..], k - m);
    } else {
      var m := 2 + BlockEnd(g[2..]);
      BlockOpen(g[2..]);
      assert g[m - 1] == g[2..][m - 3];
      SlashIn(g, k, m - 1);
      assert g[k..] == g[m..][k - m..];
      TailIsSpace(g[m..], k - m);
    }
  }

  // ---- strings and numbers ----

  /** How far a string's body and closing quote reach. */
  function StringBody(t: string): (r: Option<nat>)
    ensures r.Some? ==> 1 <= r.value <= |t|
    decreases |t|
  {
    if t == "" then None
    else if t[0] == '"' then Some(1)
    else
      var skip := if t[0] == '\\' then 2 else 1;
      if |t| < skip then None
      else
        var r := StringBody(t[skip..]);
        if r.Some? then Some(skip + r.value) else None
  }

  /** A whole string token, quotes and all. */
  predicate ClosedString(s: string) {
    |s| >= 2 && s[0] == '"' && StringBody(s[1..]) == Some(|s| - 1)
  }

  lemma {:induction false} StringAppend(s: string, rest: string)
    requires StringBody(s).Some?
    ensures StringBody(s + rest) == StringBody(s)
    decreases |s|
  {
    if s[0] != '"' {
      var skip := if s[0] == '\\' then 2 else 1;
      StringAppend(s[skip..], rest);
      assert (s + rest)[skip..] == s[skip..] + rest;
    }
  }

  lemma {:induction false} StringTake(t: string)
    requires StringBody(t).Some?
    ensures StringBody(t[..StringBody(t).value]) == StringBody(t)
    decreases |t|
  {
    var n := StringBody(t).value;
    if t[0] != '"' {
      var skip := if t[0] == '\\' then 2 else 1;
      StringTake(t[skip..]);
      assert t[..n][skip..] == t[skip..][..n - skip];
    }
  }

  predicate IsNumberChar(c: char) {
    c == '-' || c == '+' || c == '.' || c == 'e' || c == 'E' || '0' <= c <= '9'
  }

  function NumberLen(t: string): (n: nat)
    ensures n <= |t|
  {
    if t == "" || !IsNumberChar(t[0]) then 0 else 1 + NumberLen(t[1..])
  }

  predicate AllNumber(s: string) {
    forall c :: c in s ==> IsNumberChar(c)
  }

  predicate NumberStops(rest: string) {
    rest == "" || !IsNumberChar(rest[0])
  }

  lemma {:induction false} NumberAppend(s: string, rest: string)
    requires AllNumber(s) && NumberStops(rest)
    ensures NumberLen(s + rest) == |s|
  {
    if s == "" {
      assert s + rest == rest;
    } else {
      assert s[0] in s;
      assert (s + rest)[1..] == s[1..] + rest;
      NumberAppend(s[1..], rest);
    }
  }

  lemma {:induction false} NumberTake(t: string)
    ensures AllNumber(t[..NumberLen(t)])
    ensures NumberStops(t[NumberLen(t)..])
  {
    if t != "" && IsNumberChar(t[0]) {
      NumberTake(t[1..]);
      var n := NumberLen(t);
      assert t[..n] == [t[0]] + t[1..][..n - 1];
      assert t[n..] == t[1..][n - 1..];
    }
  }

  // ---- values ----

  const MAX_DEPTH := 128

  /** How string and number tokens are decoded. */
  datatype Decoder = Decoder(decode: string -> Option<string>, isNumber: string -> bool)

  /** The two facts about the decoder that matter: an empty text is one, an empty number is none. */
  ghost predicate Sane(d: Decoder) {
    d.decode("\"\"") == Some("") && !d.isNumber("")
  }

  datatype Trail = NoComma | Comma(gap: string)

  /** A value with every character of its text. */
  datatype Value =
    | VObject(fields: seq<Field>, trail: Trail)
    | VArray(elems: seq<Elem>, trail: Trail)
    | VText(raw: string)
    | VWord(word: string)
    | VNumber(raw: string)

  datatype Field = Field(g0: string, key: string, g1: string, g2: string, value: Value, g3: string)

  datatype Elem = Elem(g0: string, value: Value, g1: string)

  /** The value's text, with `k` after it. */
  function Print(v: Value, k: string): string
    decreases v, 0
  {
    match v
    case VObject(fields, trail) => "{" + PrintFields(fields, trail, k)
    case VArray(elems, trail) => "[" + PrintElems(elems, trail, k)
    case VText(raw) => raw + k
    case VWord(word) => word + k
    case VNumber(raw) => raw + k
  }

  function PrintField(f: Field, k: string): string
    decreases f, 1
  {
    f.g0 + (f.key + (f.g1 + (":" + (f.g2 + Print(f.value, f.g3 + k)))))
  }

  function PrintTrail(trail: Trail, k: string): string {
    match trail
    case NoComma => k
    case Comma(gap) => gap + k
  }

  /** The fields with the commas between them and the closing brace. */
  function PrintFields(fields: seq<Field>, trail: Trail, k: string): string
    decreases fields, 2
  {
    if fields == [] then PrintTrail(trail, "}" + k)
    else PrintField(fields[0],
                    if |fields| == 1 && trail.NoComma? then "}" + k
                    else "," + PrintFields(fields[1..], trail, k))
  }

  function PrintElem(e: Elem, k: string): string
    decreases e, 1
  {
    e.g0 + Print(e.value, e.g1 + k)
  }

  function PrintElems(elems: seq<Elem>, trail: Trail, k: string): string
    decreases elems, 2
  {
    if elems == [] then PrintTrail(trail, "]" + k)
    else PrintElem(elems[0],
                   if |elems| == 1 && trail.NoComma? then "]" + k
                   else "," + PrintElems(elems[1..], trail, k))
  }

  // ---- which values a reader can have read ----

  predicate IsWord(w: string) {
    w == "true" || w == "false" || w == "null"
  }

  predicate GoodTrail(trail: Trail, empty: bool) {
    if trail.NoComma? then !empty else ClosedGap(trail.gap)
  }

  /** A value that stands on its own below `depth` open objects and lists. */
  predicate WellFormed(d: Decoder, v: Value, depth: nat)
    decreases v, 0
  {
    match v
    case VObject(fields, trail) =>
      depth < MAX_DEPTH && GoodTrail(trail, fields == []) && GoodFields(d, fields, depth + 1)
    case VArray(elems, trail) =>
      depth < MAX_DEPTH && GoodTrail(trail, elems == []) && GoodElems(d, elems, depth + 1)
    case VText(raw) => ClosedString(raw) && d.decode(raw).Some?
    case VWord(word) => IsWord(word)
    case VNumber(raw) => raw != "" && AllNumber(raw) && d.isNumber(raw)
  }

  predicate GoodField(d: Decoder, f: Field, depth: nat)
    decreases f, 1
  {
    && ClosedGap(f.g0) && ClosedGap(f.g1) && ClosedGap(f.g2) && ClosedGap(f.g3)
    && ClosedString(f.key) && d.decode(f.key).Some?
    && WellFormed(d, f.value, depth)
  }

  predicate GoodFields(d: Decoder, fields: seq<Field>, depth: nat)
    decreases fields, 2
  {
    fields != [] ==> GoodField(d, fields[0], depth) && GoodFields(d, fields[1..], depth)
  }

  predicate GoodElem(d: Decoder, e: Elem, depth: nat)
    decreases e, 1
  {
    ClosedGap(e.g0) && ClosedGap(e.g1) && WellFormed(d, e.value, depth)
  }

  predicate GoodElems(d: Decoder, elems: seq<Elem>, depth: nat)
    decreases elems, 2
  {
    elems != [] ==> GoodElem(d, elems[0], depth) && GoodElems(d, elems[1..], depth)
  }

  // ---- reading ----

  datatype Read<T> = Read(got: T, rest: string)

  /** The rest of the text after a gap. */
  function AfterSpace(t: string): (r: string)
    ensures |r| <= |t|
  {
    t[SpaceLen(t)..]
  }

  function GapOf(t: string): string {
    t[..SpaceLen(t)]
  }

  /** A string token at the front of the text. */
  function ReadString(d: Decoder, t: string): (r: Option<Read<string>>)
    ensures r.Some? ==> |r.value.rest| < |t|
  {
    if t == "" || t[0] != '"' then None
    else
      var n := StringBody(t[1..]);
      if n.None? then None
      else
        var raw := t[..1 + n.value];
        if d.decode(raw).Some? then Some(Read(raw, t[1 + n.value..])) else None
  }

  function ReadValue(d: Decoder, t: string, depth: nat): (r: Option<Read<Value>>)
    ensures r.Some? ==> |r.value.rest| <= |t|
    ensures r.Some? && Sane(d) ==> |r.value.rest| < |t|
    decreases |t|, 1
  {
    if t == "" then None
    else if t[0] == '{' then
      if depth >= MAX_DEPTH then None
      else
        var r := ReadFields(d, t[1..], depth + 1);
        if r.None? then None else Some(Read(VObject(r.value.got.0, r.value.got.1), r.value.rest))
    else if t[0] == '[' then
      if depth >= MAX_DEPTH then None
      else
        var r := ReadElems(d, t[1..], depth + 1);
        if r.None? then None else Some(Read(VArray(r.value.got.0, r.value.got.1), r.value.rest))
    else if t[0] == '"' then
      var r := ReadString(d, t);
      if r.None? then None else Some(Read(VText(r.value.got), r.value.rest))
    else if "true" <= t then Some(Read(VWord("true"), t[4..]))
    else if "false" <= t then Some(Read(VWord("false"), t[5..]))
    else if "null" <= t then Some(Read(VWord("null"), t[4..]))
    else
      var n := NumberLen(t);
      if d.isNumber(t[..n]) then Some(Read(VNumber(t[..n]), t[n..])) else None
  }

  /** One member and the gap after it. */
  function ReadField(d: Decoder, t: string, depth: nat): (r: Option<Read<Field>>)
    ensures r.Some? ==> |r.value.rest| <= |t|
    decreases |t|, 2
  {
    var key := ReadString(d, AfterSpace(t));
    if key.None? then None
    else
      var t2 := AfterSpace(key.value.rest);
      if t2 == "" || t2[0] != ':' then None
      else
        var value := ReadValue(d, AfterSpace(t2[1..]), depth);
        if value.None? then None
        else
          Some(Read(Field(GapOf(t), key.value.got, GapOf(key.value.rest), GapOf(t2[1..]),
                          value.value.got, GapOf(value.value.rest)),
                    AfterSpace(value.value.rest)))
  }

  /** The members of an object, from just after its brace or a comma to just after its closing brace. */
  function ReadFields(d: Decoder, t: string, depth: nat): (r: Option<Read<(seq<Field>, Trail)>>)
    ensures r.Some? ==> |r.value.rest| <= |t|
    decreases |t|, 3
  {
    var t1 := AfterSpace(t);
    if t1 == "" then None
    else if t1[0] == '}' then Some(Read(([], Comma(GapOf(t))), t1[1..]))
    else
      var f := ReadField(d, t, depth);
      if f.None? || f.value.rest == "" then None
      else if f.value.rest[0] == '}' then Some(Read(([f.value.got], NoComma), f.value.rest[1..]))
      else if f.value.rest[0] == ',' then
        var more := ReadFields(d, f.value.rest[1..], depth);
        if more.None? then None
        else Some(Read(([f.value.got] + more.value.got.0, more.value.got.1), more.value.rest))
      else None
  }

  /** One list item and the gap after it. */
  function ReadElem(d: Decoder, t: string, depth: nat): (r: Option<Read<Elem>>)
    ensures r.Some? ==> |r.value.rest| <= |t|
    decreases |t|, 2
  {
    var value := ReadValue(d, AfterSpace(t), depth);
    if value.None? then None
    else Some(Read(Elem(GapOf(t), value.value.got, GapOf(value.value.rest)), AfterSpace(value.value.rest)))
  }

  function ReadElems(d: Decoder, t: string, depth: nat): (r: Option<Read<(seq<Elem>, Trail)>>)
    ensures r.Some? ==> |r.value.rest| <= |t|
    decreases |t|, 3
  {
    var t1 := AfterSpace(t);
    if t1 == "" then None
    else if t1[0] == ']' then Some(Read(([], Comma(GapOf(t))), t1[1..]))
    else
      var e := ReadElem(d, t, depth);
      if e.None? || e.value.rest == "" then None
      else if e.value.rest[0] == ']' then Some(Read(([e.value.got], NoComma), e.value.rest[1..]))
      else if e.value.rest[0] == ',' then
        var more := ReadElems(d, e.value.rest[1..], depth);
        if more.None? then None
        else Some(Read(([e.value.got] + more.value.got.0, more.value.got.1), more.value.rest))
      else None
  }

  const BOM: char := '\U{feff}'

  /** A whole file: perhaps a byte-order mark, a gap, one value and a last gap. */
  datatype Document = Document(bom: string, lead: string, value: Value, tail: string)

  function PrintDocument(doc: Document): string {
    doc.bom + (doc.lead + Print(doc.value, doc.tail))
  }

  function ReadDocument(d: Decoder, text: string): Option<Document> {
    var b := if text != "" && text[0] == BOM then 1 else 0;
    var t := AfterSpace(text[b..]);
    var value := ReadValue(d, t, 0);
    if value.None? then None
    else if AfterSpace(value.value.rest) != "" then None
    else Some(Document(text[..b], GapOf(text[b..]), value.value.got, value.value.rest))
  }

  predicate GoodDocument(d: Decoder, doc: Document) {
    && (doc.bom == "" || doc.bom == [BOM])
    && ClosedGap(doc.lead) && WellFormed(d, doc.value, 0) && AfterSpace(doc.tail) == ""
  }
}
