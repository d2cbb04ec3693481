/** The spliced text is the text of the redacted value. */
module SettingsRewrite {
  import opened SettingsSyntax
  import opened SettingsReading
  import opened SettingsTree
  import opened SettingsRedaction

  // ---- cutting printed text ----

  lemma DropLeft(a: string, b: string, n: nat)
    requires n <= |b|
    ensures |a| + n <= |a + b| && (a + b)[|a| + n..] == b[n..]
  { }

  lemma {:induction false} PrintDrop(v: Value, k: string)
    ensures Len(v) <= |Print(v, k)| && Print(v, k)[Len(v)..] == k
    ensures Print(v, k) == Print(v, "") + k
    decreases v, 0
  {
    PrintLen(v, k);
    match v
    case VObject(fields, trail) =>
      PrintFieldsDrop(fields, trail, k);
      PrintFieldsLen(fields, trail, "");
      assert "{" + (PrintFields(fields, trail, "") + k) == ("{" + PrintFields(fields, trail, "")) + k;
    case VArray(elems, trail) =>
      PrintElemsDrop(elems, trail, k);
      assert "[" + (PrintElems(elems, trail, "") + k) == ("[" + PrintElems(elems, trail, "")) + k;
    case VText(raw) => assert raw + k == (raw + "") + k;
    case VWord(word) => assert word + k == (word + "") + k;
    case VNumber(raw) => assert raw + k == (raw + "") + k;
    PrintLen(v, "");
    assert (Print(v, "") + k)[|Print(v, "")|..] == k;
  }

  /** What stands between a member's start and its value. */
  function KeyPart(f: Field): string {
    f.key + (f.g1 + (":" + f.g2))
  }

  /** A member's text from its key on. */
  function KeyText(f: Field, k: string): string {
    f.key + (f.g1 + (":" + (f.g2 + Print(f.value, f.g3 + k))))
  }

  lemma KeyTextSplits(f: Field, k: string)
    ensures KeyText(f, k) == KeyPart(f) + Print(f.value, f.g3 + k)
    ensures |KeyPart(f)| == ValueOffset(f) - |f.g0|
    ensures PrintField(f, k) == f.g0 + KeyText(f, k)
  {
    hide Print;
  }

  lemma {:induction false} PrintFieldDrop(f: Field, k: string)
    ensures PrintField(f, k) == PrintField(f, "") + k && |PrintField(f, "")| == LenField(f)
    decreases f, 1
  {
    PrintDrop(f.value, f.g3 + k);
    PrintDrop(f.value, f.g3);
    PrintLen(f.value, f.g3);
    assert f.g3 + "" == f.g3;
    KeyTextSplits(f, k);
    KeyTextSplits(f, "");
    hide Print, KeyText, PrintField;
    var v := Print(f.value, "");
    assert KeyPart(f) + (v + (f.g3 + k)) == (KeyPart(f) + (v + f.g3)) + k;
    assert f.g0 + (KeyText(f, "") + k) == (f.g0 + KeyText(f, "")) + k;
  }

  lemma {:induction false} PrintFieldsDrop(fields: seq<Field>, trail: Trail, k: string)
    ensures PrintFields(fields, trail, k) == PrintFields(fields, trail, "") + k
    decreases fields, 2
  {
    if fields == [] {
      assert "}" + "" == "}";
      assert PrintTrail(trail, "}" + k) == PrintTrail(trail, "}" + "") + k;
    } else {
      var end := AfterFirstField(fields, trail, k);
      var end0 := AfterFirstField(fields, trail, "");
      if !(|fields| == 1 && trail.NoComma?) {
        PrintFieldsDrop(fields[1..], trail, k);
      }
      assert end == end0 + k;
      PrintFieldDrop(fields[0], end);
      PrintFieldDrop(fields[0], end0);
      assert PrintField(fields[0], "") + (end0 + k) == (PrintField(fields[0], "") + end0) + k;
    }
  }

  lemma ElemTextDrop(e: Elem, end0: string, k: string)
    requires Print(e.value, e.g1 + (end0 + k)) == Print(e.value, "") + (e.g1 + (end0 + k))
    requires Print(e.value, e.g1 + end0) == Print(e.value, "") + (e.g1 + end0)
    ensures e.g0 + Print(e.value, e.g1 + (end0 + k)) == (e.g0 + Print(e.value, e.g1 + end0)) + k
  {
    hide Print;
    var v := Print(e.value, "");
    assert e.g0 + (v + (e.g1 + (end0 + k))) == (e.g0 + (v + (e.g1 + end0))) + k;
  }

  lemma ElemEndDrop(elems: seq<Elem>, trail: Trail, k: string)
    requires elems != []
    requires !(|elems| == 1 && trail.NoComma?) ==>
             PrintElems(elems[1..], trail, k) == PrintElems(elems[1..], trail, "") + k
    ensures AfterFirstElem(elems, trail, k) == AfterFirstElem(elems, trail, "") + k
  {
    hide PrintElems;
    var p := PrintElems(elems[1..], trail, "");
    assert "," + (p + k) == ("," + p) + k;
    assert "]" + k == ("]" + "") + k;
  }

  lemma NoElemsDrop(trail: Trail, k: string)
    ensures PrintElems([], trail, k) == PrintElems([], trail, "") + k
  {
    assert PrintTrail(trail, "]" + k) == PrintTrail(trail, "]" + "") + k;
  }

  lemma {:induction false} PrintElemsDrop(elems: seq<Elem>, trail: Trail, k: string)
    ensures PrintElems(elems, trail, k) == PrintElems(elems, trail, "") + k
    decreases elems, 2
  {
    hide *;
    if elems == [] {
      NoElemsDrop(trail, k);
    } else {
      var e := elems[0];
      var end0 := AfterFirstElem(elems, trail, "");
      if !(|elems| == 1 && trail.NoComma?) {
        PrintElemsDrop(elems[1..], trail, k);
      }
      ElemEndDrop(elems, trail, k);
      PrintDrop(e.value, e.g1 + (end0 + k));
      PrintDrop(e.value, e.g1 + end0);
      ElemTextDrop(e, end0, k);
      ElemsText(elems, trail, k);
      ElemsText(elems, trail, "");
    }
  }

  /** The text from the `m`th member on. */
  lemma {:induction false} DropFields(fields: seq<Field>, trail: Trail, k: string, m: nat)
    requires m < |fields|
    ensures FieldOffset(fields, m) <= |PrintFields(fields, trail, k)|
    ensures PrintFields(fields, trail, k)[FieldOffset(fields, m)..] == PrintFields(fields[m..], trail, k)
    decreases m
  {
    if m == 0 {
      assert fields[0..] == fields;
    } else {
      var end := AfterFirstField(fields, trail, k);
      var rest := PrintFields(fields[1..], trail, k);
      DropFields(fields[1..], trail, k, m - 1);
      PrintFieldDrop(fields[0], end);
      hide PrintFields, PrintField;
      DropLeft(PrintField(fields[0], ""), end, 1 + FieldOffset(fields[1..], m - 1));
      DropLeft(",", rest, FieldOffset(fields[1..], m - 1));
      assert fields[1..][m - 1..] == fields[m..];
    }
  }

  lemma ValueToEnd(f: Field, end: string)
    ensures ValueOffset(f) + Len(f.value) <= |PrintField(f, end)|
    ensures PrintField(f, end)[ValueOffset(f) + Len(f.value)..] == f.g3 + end
  {
    KeyTextSplits(f, end);
    PrintDrop(f.value, f.g3 + end);
    hide Print, KeyPart, KeyText, PrintField, Len;
    DropLeft(KeyPart(f), Print(f.value, f.g3 + end), Len(f.value));
    DropLeft(f.g0, KeyText(f, end), |KeyPart(f)| + Len(f.value));
  }

  lemma DropToLastTail(f: Field, trail: Trail, k: string)
    ensures TailStart([f]) <= |PrintFields([f], trail, k)|
    ensures PrintFields([f], trail, k)[TailStart([f])..] == TailOf([f], trail) + ("}" + k)
    ensures TailStart([f]) + |TailOf([f], trail)| + 1 == LenFields([f], trail)
  {
    var end := AfterFirstField([f], trail, k);
    assert [f][1..] == [];
    ValueToEnd(f, end);
    hide PrintField, Len;
    if trail.Comma? {
      assert end == "," + (trail.gap + ("}" + k));
      assert f.g3 + end == (f.g3 + ("," + trail.gap)) + ("}" + k);
    } else {
      assert f.g3 + "" == f.g3;
    }
  }

  lemma DropToTailStep(f: Field, first: string, rest: string, body: string, n: nat, tail: string)
    requires first == PrintField(f, "") + ("," + rest) && body == rest && n <= |body| && body[n..] == tail
    ensures LenField(f) + 1 + n <= |first| && first[LenField(f) + 1 + n..] == tail
  {
    PrintFieldDrop(f, "");
    hide PrintField;
    DropLeft(PrintField(f, ""), "," + rest, 1 + n);
    DropLeft(",", rest, n);
  }

  /** The text from the end of the last value on. */
  lemma {:induction false} DropToTail(fields: seq<Field>, trail: Trail, k: string)
    requires fields != []
    ensures TailStart(fields) <= |PrintFields(fields, trail, k)|
    ensures PrintFields(fields, trail, k)[TailStart(fields)..] == TailOf(fields, trail) + ("}" + k)
    ensures TailStart(fields) + |TailOf(fields, trail)| + 1 == LenFields(fields, trail)
    decreases |fields|
  {
    hide PrintField, LenField, TailOf, Len;
    if |fields| == 1 {
      assert fields == [fields[0]];
      DropToLastTail(fields[0], trail, k);
    } else {
      var f := fields[0];
      var rest := PrintFields(fields[1..], trail, k);
      DropToTail(fields[1..], trail, k);
      TailOfRest(fields, trail);
      PrintFieldDrop(f, "," + rest);
      DropToTailStep(f, PrintFields(fields, trail, k), rest, rest, TailStart(fields[1..]),
                     TailOf(fields[1..], trail) + ("}" + k));
    }
  }

  lemma TailOfRest(fields: seq<Field>, trail: Trail)
    requires |fields| > 1
    ensures TailOf(fields[1..], trail) == TailOf(fields, trail)
  { }

  // ---- making the edits ----

  /** With no edit in it, a value stays as it is. */
  lemma KeepValue(v: Value, at: nat, k: string, es: seq<Edit>, out: string)
    requires Rewrites(k, at + Len(v), es, out)
    ensures Rewrites(Print(v, k), at, es, Print(v, out))
  {
    hide Rewrites, Print;
    PrintDrop(v, k);
    PrintDrop(v, out);
    PrintLen(v, "");
    Keep(Print(v, ""), k, at, es, out);
  }

  lemma {:induction false} FieldOffsetGrows(fields: seq<Field>, m: nat)
    requires 0 < m <= |fields|
    ensures FieldOffset(fields, m) >= LenField(fields[0]) + 1 > |fields[0].g0|
  { }

  lemma DropSum(t: string, a: string, body: string, n: nat, g: string, key: string)
    requires t == a + body && |a| <= n <= |t| && t[n..] == g + key
    ensures n + |g| - |a| <= |body| && body[n + |g| - |a|..] == key
  {
    assert t[n..][|g|..] == t[n + |g|..];
    assert t[n + |g|..] == body[n + |g| - |a|..];
  }

  lemma FirstText(fields: seq<Field>, trail: Trail, k: string)
    requires fields != []
    ensures PrintFields(fields, trail, k) == fields[0].g0 + KeyText(fields[0], AfterFirstField(fields, trail, k))
  {
    KeyTextSplits(fields[0], AfterFirstField(fields, trail, k));
  }

  /** Fields taken out up to the `m`th leave the first gap and then the `m`th's text from its key. */
  lemma RewriteRun(fields: seq<Field>, trail: Trail, m: nat, at: nat, k: string, es: seq<Edit>, out: string)
    requires m < |fields|
    requires Rewrites(KeyText(fields[m], AfterFirstField(fields[m..], trail, k)),
                      at + FieldOffset(fields, m) + |fields[m].g0|, es, out)
    ensures Rewrites(PrintFields(fields, trail, k), at, RunEdit(fields, m, at) + es, fields[0].g0 + out)
  {
    hide Rewrites, PrintFields, KeyText, AfterFirstField;
    var t := PrintFields(fields, trail, k);
    var f := fields[m];
    var key := KeyText(f, AfterFirstField(fields[m..], trail, k));
    var g0 := fields[0].g0;
    var body := KeyText(fields[0], AfterFirstField(fields, trail, k));
    FirstText(fields, trail, k);
    FirstText(fields[m..], trail, k);
    DropFields(fields, trail, k, m);
    if m == 0 {
      assert RunEdit(fields, m, at) + es == es;
      assert fields[0..] == fields;
      Keep(g0, body, at, es, out);
    } else {
      FieldOffsetGrows(fields, m);
      var n := FieldOffset(fields, m) + |f.g0| - |g0|;
      DropSum(t, g0, body, FieldOffset(fields, m), f.g0, key);
      Cut(body, at + |g0|, n, "", es, out);
      assert "" + out == out;
      Keep(g0, body, at, RunEdit(fields, m, at) + es, out);
    }
  }

  /** An object that loses every field is left empty. */
  lemma RewriteAllGone(fields: seq<Field>, trail: Trail, at: nat, k: string, es: seq<Edit>, out: string)
    requires fields != []
    requires Rewrites(k, at + Len(VObject(fields, trail)), es, out)
    ensures Rewrites(Print(VObject(fields, trail), k), at,
                     [Edit(at + 1, at + Len(VObject(fields, trail)) - 1, "")] + es,
                     Print(VObject([], Comma("")), out))
  {
    hide Rewrites, PrintFields, TailOf;
    var body := PrintFields(fields, trail, k);
    var n := LenFields(fields, trail) - 1;
    var tail := TailOf(fields, trail);
    DropToTail(fields, trail, k);
    PrintFieldsLen(fields, trail, k);
    assert body[n..] == body[TailStart(fields)..][|tail|..];
    assert body[n..] == "}" + k;
    assert n > 0;
    Keep("}", k, at + 1 + n, es, out);
    Cut(body, at + 1, n, "", es, "}" + out);
    assert "" + ("}" + out) == "}" + out;
    Keep("{", body, at, [Edit(at + 1, at + 1 + n, "")] + es, "}" + out);
    PrintEmptyObject(out);
  }

  lemma PrintEmptyObject(k: string)
    ensures Print(VObject([], Comma("")), k) == "{" + ("}" + k)
  {
    assert "" + ("}" + k) == "}" + k;
  }

  /** What comes after the field that stays, in the redacted text. */
  function EndAfter(r: Rules, d: Decoder, keep: bool, rest: seq<Field>, trail: Trail, k: string): string {
    if rest == [] then if trail.NoComma? then "}" + k else "," + PrintFields([], trail, k)
    else if RunLen(r, d, keep, rest) == |rest| then "}" + k
    else
      var p := RedactFields(r, d, keep, rest, trail);
      "," + PrintFields(p.0, p.1, k)
  }

  function GapAfter(r: Rules, d: Decoder, keep: bool, g3: string, rest: seq<Field>, trail: Trail): string {
    if rest != [] && RunLen(r, d, keep, rest) == |rest| then TailOf(rest, trail)[TailCut(TailOf(rest, trail))..] else g3
  }

  /** How long the text after a field's value is, up to and with the closing brace. */
  function LenAfter(g3: string, rest: seq<Field>, trail: Trail): nat {
    |g3| + 1 + (if rest == [] && trail.NoComma? then 0 else LenFields(rest, trail))
  }

  /** The text after a field's value. */
  function TextAfter(g3: string, rest: seq<Field>, trail: Trail, k: string): string {
    g3 + (if rest == [] && trail.NoComma? then "}" + k else "," + PrintFields(rest, trail, k))
  }

  /** A run at the end takes its commas, and comments after it, with it. */
  lemma RewriteTail(g3: string, rest: seq<Field>, trail: Trail, at: nat, k: string, es: seq<Edit>, out: string)
    requires rest != [] && Rewrites(k, at + LenAfter(g3, rest, trail), es, out)
    ensures var tail := TailOf(rest, trail);
            Rewrites(TextAfter(g3, rest, trail, k), at,
                     [Edit(at, at + |g3| + 1 + TailStart(rest) + TailCut(tail), "")] + es,
                     tail[TailCut(tail)..] + ("}" + out))
  {
    hide Rewrites, PrintFields, TailCut, TailOf;
    var tail := TailOf(rest, trail);
    var body := PrintFields(rest, trail, k);
    var cut := TailCut(tail);
    var n := |g3| + 1 + TailStart(rest) + cut;
    DropToTail(rest, trail, k);
    assert body[TailStart(rest)..][cut..] == body[TailStart(rest) + cut..];
    assert (tail + ("}" + k))[cut..] == tail[cut..] + ("}" + k);
    DropLeft(",", body, TailStart(rest) + cut);
    DropLeft(g3, "," + body, 1 + TailStart(rest) + cut);
    Keep("}", k, at + n + |tail| - cut, es, out);
    Keep(tail[cut..], "}" + k, at + n, es, "}" + out);
    var all := tail[cut..] + ("}" + out);
    Cut(g3 + ("," + body), at, n, "", es, all);
    assert "" + all == all;
  }

  lemma RewriteTrail(trail: Trail, close: string, at: nat, k: string, es: seq<Edit>, out: string)
    requires Rewrites(k, at + TrailLen(trail) + |close|, es, out)
    ensures Rewrites(PrintTrail(trail, close + k), at, es, PrintTrail(trail, close + out))
  {
    hide Rewrites;
    Keep(close, k, at + TrailLen(trail), es, out);
    if trail.Comma? {
      Keep(trail.gap, close + k, at, es, close + out);
    }
  }

  lemma RewriteClose(g3: string, trail: Trail, at: nat, k: string, es: seq<Edit>, out: string)
    requires Rewrites(k, at + LenAfter(g3, [], trail), es, out)
    ensures Rewrites(TextAfter(g3, [], trail, k), at, es, TextAfter(g3, [], trail, out))
  {
    hide Rewrites;
    if trail.NoComma? {
      Keep("}", k, at + |g3|, es, out);
      Keep(g3, "}" + k, at, es, "}" + out);
    } else {
      RewriteTrail(trail, "}", at + |g3| + 1, k, es, out);
      Keep(",", PrintTrail(trail, "}" + k), at + |g3|, es, PrintTrail(trail, "}" + out));
      Keep(g3, "," + PrintTrail(trail, "}" + k), at, es, "," + PrintTrail(trail, "}" + out));
    }
  }

  lemma {:induction false} LenSplit(fields: seq<Field>, trail: Trail, m: nat)
    requires m < |fields|
    ensures LenFields(fields, trail) ==
            FieldOffset(fields, m) + ValueOffset(fields[m]) + Len(fields[m].value) +
                LenAfter(fields[m].g3, fields[m + 1..], trail)
    decreases m
  {
    hide Len;
    if m > 0 {
      LenSplit(fields[1..], trail, m - 1);
      assert fields[1..][m..] == fields[m + 1..];
    }
  }

  lemma EndIs(fields: seq<Field>, trail: Trail, m: nat, k: string)
    requires m < |fields|
    ensures fields[m].g3 + AfterFirstField(fields[m..], trail, k) == TextAfter(fields[m].g3, fields[m + 1..], trail, k)
  {
    assert fields[m..][1..] == fields[m + 1..];
  }

  lemma {:induction false} GoodFieldsAt(d: Decoder, fields: seq<Field>, depth: nat, m: nat)
    requires GoodFields(d, fields, depth) && m < |fields|
    ensures GoodField(d, fields[m], depth) && GoodFields(d, fields[m + 1..], depth)
    decreases m
  {
    hide GoodField;
    if m > 0 {
      GoodFieldsAt(d, fields[1..], depth, m - 1);
      assert fields[1..][m..] == fields[m + 1..];
    }
  }

  /** The field that stays, with the first field's gap and what is left of the gap after it. */
  function KeptField(r: Rules, d: Decoder, keep: bool, fields: seq<Field>, trail: Trail): Field
    requires RunLen(r, d, keep, fields) < |fields|
  {
    var m := RunLen(r, d, keep, fields);
    fields[m].(g0 := fields[0].g0, value := RedactKept(r, d, keep, fields[m]),
               g3 := GapAfter(r, d, keep, fields[m].g3, fields[m + 1..], trail))
  }

  /** The redacted fields are the field that stays and the rest, redacted. */
  lemma RedactedAre(r: Rules, d: Decoder, keep: bool, fields: seq<Field>, trail: Trail)
    requires RunLen(r, d, keep, fields) < |fields|
    ensures var rest := fields[RunLen(r, d, keep, fields) + 1..];
            var p := RedactFields(r, d, keep, fields, trail);
            && p.0 != [] && p.0[0] == KeptField(r, d, keep, fields, trail)
            && (if rest == [] then p.0[1..] == [] && p.1 == trail
                else if RunLen(r, d, keep, rest) == |rest| then p.0[1..] == [] && p.1 == NoComma
                else (p.0[1..], p.1) == RedactFields(r, d, keep, rest, trail))
  {
    hide RedactKept, TailOf, TailCut, GoneF, RunLen;
  }

  lemma EndIsRedacted(r: Rules, d: Decoder, keep: bool, fields: seq<Field>, trail: Trail, k: string)
    requires RunLen(r, d, keep, fields) < |fields|
    ensures var p := RedactFields(r, d, keep, fields, trail);
            p.0 != [] && AfterFirstField(p.0, p.1, k) ==
                EndAfter(r, d, keep, fields[RunLen(r, d, keep, fields) + 1..], trail, k)
  {
    hide RedactFields, RunLen, KeptField, PrintFields;
    RedactedAre(r, d, keep, fields, trail);
    var rest := fields[RunLen(r, d, keep, fields) + 1..];
    if rest != [] && RunLen(r, d, keep, rest) < |rest| {
      RedactedAre(r, d, keep, rest, trail);
    }
  }

  /** The redacted fields print as the first gap, the field that stays, and what comes after it. */
  lemma PrintRedacted(r: Rules, d: Decoder, keep: bool, fields: seq<Field>, trail: Trail, k: string)
    requires RunLen(r, d, keep, fields) < |fields|
    ensures var m := RunLen(r, d, keep, fields);
            var f := fields[m];
            var rest := fields[m + 1..];
            var p := RedactFields(r, d, keep, fields, trail);
            PrintFields(p.0, p.1, k) ==
            fields[0].g0 + (KeyPart(f) + Print(RedactKept(r, d, keep, f),
                                               GapAfter(r, d, keep, f.g3, rest, trail) +
                                                   EndAfter(r, d, keep, rest, trail, k)))
  {
    hide RedactFields, RunLen, RedactKept, GapAfter, EndAfter, PrintFields, Print;
    var p := RedactFields(r, d, keep, fields, trail);
    RedactedAre(r, d, keep, fields, trail);
    EndIsRedacted(r, d, keep, fields, trail, k);
    FirstText(p.0, p.1, k);
    KeyTextSplits(KeptField(r, d, keep, fields, trail), AfterFirstField(p.0, p.1, k));
  }

  lemma FieldsEditsAre(r: Rules, d: Decoder, keep: bool, fields: seq<Field>, trail: Trail, at: nat, es: seq<Edit>)
    requires RunLen(r, d, keep, fields) < |fields|
    ensures var m := RunLen(r, d, keep, fields);
            var f := fields[m];
            var v := at + FieldOffset(fields, m) + ValueOffset(f);
            FieldsEdits(r, d, keep, fields, trail, at) + es ==
            RunEdit(fields, m, at) + (KeptEdits(r, d, keep, f, v) +
                                      (EditsAfter(r, d, keep, f.g3, fields[m + 1..], trail, v + Len(f.value)) + es))
  {
    hide RunLen, KeptEdits, EditsAfter, RunEdit, Len, FieldOffset;
    var m := RunLen(r, d, keep, fields);
    var f := fields[m];
    var v := at + FieldOffset(fields, m) + ValueOffset(f);
    SeqAssoc(RunEdit(fields, m, at), KeptEdits(r, d, keep, f, v),
             EditsAfter(r, d, keep, f.g3, fields[m + 1..], trail, v + Len(f.value)), es);
  }

  lemma SeqAssoc<T>(a: seq<T>, b: seq<T>, c: seq<T>, e: seq<T>)
    ensures (a + (b + c)) + e == a + (b + (c + e))
  { }

  lemma RewriteObject(r: Rules, d: Decoder, keep: bool, fields: seq<Field>, trail: Trail, at: nat, k: string,
                      es: seq<Edit>, out: string)
    requires fields == [] || RunLen(r, d, keep, fields) != |fields|
    requires var p := RedactFields(r, d, keep, fields, trail);
             Rewrites(PrintFields(fields, trail, k), at + 1, FieldsEdits(r, d, keep, fields, trail, at + 1) + es,
                      PrintFields(p.0, p.1, out))
    ensures var v := VObject(fields, trail);
            Rewrites(Print(v, k), at, ValueEdits(r, d, keep, v, at) + es, Print(RedactValue(r, d, keep, v), out))
  {
    hide Rewrites, PrintFields, FieldsEdits, RedactFields, RunLen;
    var p := RedactFields(r, d, keep, fields, trail);
    Keep("{", PrintFields(fields, trail, k), at, FieldsEdits(r, d, keep, fields, trail, at + 1) + es,
         PrintFields(p.0, p.1, out));
  }

  lemma RewriteArray(r: Rules, d: Decoder, keep: bool, elems: seq<Elem>, trail: Trail, at: nat, k: string,
                     es: seq<Edit>, out: string)
    requires Rewrites(PrintElems(elems, trail, k), at + 1, ElemsEdits(r, d, keep, elems, at + 1) + es,
                      PrintElems(RedactElems(r, d, keep, elems), trail, out))
    ensures var v := VArray(elems, trail);
            Rewrites(Print(v, k), at, ValueEdits(r, d, keep, v, at) + es, Print(RedactValue(r, d, keep, v), out))
  {
    hide Rewrites, PrintElems, ElemsEdits, RedactElems;
    Keep("[", PrintElems(elems, trail, k), at, ElemsEdits(r, d, keep, elems, at + 1) + es,
         PrintElems(RedactElems(r, d, keep, elems), trail, out));
  }

  lemma RewriteGone(r: Rules, d: Decoder, keep: bool, fields: seq<Field>, trail: Trail, at: nat, k: string,
                    es: seq<Edit>, out: string)
    requires fields != [] && RunLen(r, d, keep, fields) == |fields|
    requires Rewrites(k, at + Len(VObject(fields, trail)), es, out)
    ensures var v := VObject(fields, trail);
            Rewrites(Print(v, k), at, ValueEdits(r, d, keep, v, at) + es, Print(RedactValue(r, d, keep, v), out))
  {
    hide Rewrites, Print, Len, RunLen, FieldsEdits, RedactFields;
    RewriteAllGone(fields, trail, at, k, es, out);
  }

  lemma RewriteLeaf(r: Rules, d: Decoder, keep: bool, v: Value, at: nat, k: string, es: seq<Edit>, out: string)
    requires !v.VObject? && !v.VArray? && Rewrites(k, at + Len(v), es, out)
    ensures Rewrites(Print(v, k), at, ValueEdits(r, d, keep, v, at) + es, Print(RedactValue(r, d, keep, v), out))
  {
    hide Rewrites, Print, Len;
    assert ValueEdits(r, d, keep, v, at) + es == es;
    KeepValue(v, at, k, es, out);
  }

  lemma Inside(d: Decoder, v: Value, depth: nat)
    requires WellFormed(d, v, depth)
    ensures v.VObject? ==> GoodFields(d, v.fields, depth + 1) && Len(v) == 1 + LenFields(v.fields, v.trail)
    ensures v.VArray? ==> GoodElems(d, v.elems, depth + 1) && Len(v) == 1 + LenElems(v.elems, v.trail)
  {
    hide GoodFields, GoodElems, LenFields, LenElems;
  }

  lemma {:induction false} RewriteValue(r: Rules, d: Decoder, keep: bool, v: Value, depth: nat, at: nat, k: string,
                                        es: seq<Edit>, out: string)
    requires WellFormed(d, v, depth) && Rewrites(k, at + Len(v), es, out)
    ensures Rewrites(Print(v, k), at, ValueEdits(r, d, keep, v, at) + es, Print(RedactValue(r, d, keep, v), out))
    decreases v, 0
  {
    hide *;
    Inside(d, v, depth);
    match v
    case VObject(fields, trail) =>
      RunFits(r, d, keep, fields);
      if fields != [] && RunLen(r, d, keep, fields) == |fields| {
        RewriteGone(r, d, keep, fields, trail, at, k, es, out);
      } else {
        RewriteFields(r, d, keep, fields, trail, depth + 1, at + 1, k, es, out);
        RewriteObject(r, d, keep, fields, trail, at, k, es, out);
      }
    case VArray(elems, trail) =>
      RewriteElems(r, d, keep, elems, trail, depth + 1, at + 1, k, es, out);
      RewriteArray(r, d, keep, elems, trail, at, k, es, out);
    case VText(_) => RewriteLeaf(r, d, keep, v, at, k, es, out);
    case VWord(_) => RewriteLeaf(r, d, keep, v, at, k, es, out);
    case VNumber(_) => RewriteLeaf(r, d, keep, v, at, k, es, out);
  }

  lemma RunFits(r: Rules, d: Decoder, keep: bool, fields: seq<Field>)
    ensures RunLen(r, d, keep, fields) <= |fields|
  { }

  lemma {:induction false} RewriteKeptValue(r: Rules, d: Decoder, keep: bool, f: Field, depth: nat, v: nat, k: string,
                                            es: seq<Edit>, out: string)
    requires WellFormed(d, f.value, depth) && Rewrites(k, v + Len(f.value), es, out)
    ensures Rewrites(Print(f.value, k), v, KeptEdits(r, d, keep, f, v) + es, Print(RedactKept(r, d, keep, f), out))
    decreases f, 1
  {
    hide Rewrites, Print, ValueEdits, RedactValue, FateF, WellFormed;
    if FateF(r, d, f).Inside? {
      RewriteValue(r, d, keep, f.value, depth, v, k, es, out);
    } else {
      assert KeptEdits(r, d, keep, f, v) + es == es;
      KeepValue(f.value, v, k, es, out);
    }
  }

  lemma {:induction false} RewriteAfter(r: Rules, d: Decoder, keep: bool, g3: string, rest: seq<Field>, trail: Trail,
                                        depth: nat, at: nat, k: string, es: seq<Edit>, out: string)
    requires GoodFields(d, rest, depth) && Rewrites(k, at + LenAfter(g3, rest, trail), es, out)
    ensures Rewrites(TextAfter(g3, rest, trail, k), at, EditsAfter(r, d, keep, g3, rest, trail, at) + es,
                     GapAfter(r, d, keep, g3, rest, trail) + EndAfter(r, d, keep, rest, trail, out))
    decreases rest, 3
  {
    hide Rewrites, PrintFields, RedactFields, FieldsEdits, GoodFields;
    var all := EditsAfter(r, d, keep, g3, rest, trail, at) + es;
    if rest == [] {
      assert all == es;
      RewriteClose(g3, trail, at, k, es, out);
    } else if RunLen(r, d, keep, rest) == |rest| {
      RewriteTail(g3, rest, trail, at, k, es, out);
    } else {
      var p := RedactFields(r, d, keep, rest, trail);
      RewriteFields(r, d, keep, rest, trail, depth, at + |g3| + 1, k, es, out);
      Keep(",", PrintFields(rest, trail, k), at + |g3|, all, PrintFields(p.0, p.1, out));
      Keep(g3, "," + PrintFields(rest, trail, k), at, all, "," + PrintFields(p.0, p.1, out));
    }
  }

  /** The fields rewritten, given the value that stays and what follows it. */
  lemma RewriteFieldsStep(r: Rules, d: Decoder, keep: bool, fields: seq<Field>, trail: Trail, at: nat, k: string,
                          after: seq<Edit>, out: string, outAfter: string)
    requires RunLen(r, d, keep, fields) < |fields|
    requires var m := RunLen(r, d, keep, fields);
             var f := fields[m];
             var v := at + FieldOffset(fields, m) + ValueOffset(f);
             && outAfter == GapAfter(r, d, keep, f.g3, fields[m + 1..], trail) +
                 EndAfter(r, d, keep, fields[m + 1..], trail, out)
             && Rewrites(Print(f.value, f.g3 + AfterFirstField(fields[m..], trail, k)), v,
                         KeptEdits(r, d, keep, f, v) + after,
                         Print(RedactKept(r, d, keep, f), outAfter))
    ensures var m := RunLen(r, d, keep, fields);
            var v := at + FieldOffset(fields, m) + ValueOffset(fields[m]);
            var p := RedactFields(r, d, keep, fields, trail);
            Rewrites(PrintFields(fields, trail, k), at,
                     RunEdit(fields, m, at) + (KeptEdits(r, d, keep, fields[m], v) + after), PrintFields(p.0, p.1, out))
  {
    hide Rewrites, KeptEdits, GapAfter, EndAfter, RunEdit, RedactKept, Print, KeyPart, KeyText, AfterFirstField,
         PrintFields, RedactFields, RunLen;
    var m := RunLen(r, d, keep, fields);
    var f := fields[m];
    var key := at + FieldOffset(fields, m) + |f.g0|;
    var v := at + FieldOffset(fields, m) + ValueOffset(f);
    var end := AfterFirstField(fields[m..], trail, k);
    var all := KeptEdits(r, d, keep, f, v) + after;
    KeyTextSplits(f, end);
    Keep(KeyPart(f), Print(f.value, f.g3 + end), key, all, Print(RedactKept(r, d, keep, f), outAfter));
    RewriteRun(fields, trail, m, at, k, all, KeyPart(f) + Print(RedactKept(r, d, keep, f), outAfter));
    PrintRedacted(r, d, keep, fields, trail, out);
  }

  lemma NoFields(r: Rules, d: Decoder, keep: bool, trail: Trail, at: nat, k: string)
    ensures RedactFields(r, d, keep, [], trail) == ([], trail) && FieldsEdits(r, d, keep, [], trail, at) == []
    ensures PrintFields([], trail, k) == PrintTrail(trail, "}" + k) && LenFields([], trail) == TrailLen(trail) + 1
  { }

  lemma RewriteNoFields(r: Rules, d: Decoder, keep: bool, trail: Trail, at: nat, k: string, es: seq<Edit>, out: string)
    requires Rewrites(k, at + LenFields([], trail), es, out)
    ensures var p := RedactFields(r, d, keep, [], trail);
            Rewrites(PrintFields([], trail, k), at, FieldsEdits(r, d, keep, [], trail, at) + es,
                     PrintFields(p.0, p.1, out))
  {
    hide *;
    NoFields(r, d, keep, trail, at, k);
    NoFields(r, d, keep, trail, at, out);
    RewriteTrail(trail, "}", at, k, es, out);
    assert [] + es == es;
  }

  lemma {:induction false} RewriteSomeFields(r: Rules, d: Decoder, keep: bool, fields: seq<Field>, trail: Trail,
                                             depth: nat, at: nat, k: string, es: seq<Edit>, out: string)
    requires GoodFields(d, fields, depth) && RunLen(r, d, keep, fields) < |fields|
    requires Rewrites(k, at + LenFields(fields, trail), es, out)
    ensures var p := RedactFields(r, d, keep, fields, trail);
            Rewrites(PrintFields(fields, trail, k), at, FieldsEdits(r, d, keep, fields, trail, at) + es,
                     PrintFields(p.0, p.1, out))
    decreases fields, 1
  {
    hide *;
    var m := RunLen(r, d, keep, fields);
    var f := fields[m];
    var rest := fields[m + 1..];
    var v := at + FieldOffset(fields, m) + ValueOffset(f);
    LenSplit(fields, trail, m);
    GoodFieldsAt(d, fields, depth, m);
    RewriteAfter(r, d, keep, f.g3, rest, trail, depth, v + Len(f.value), k, es, out);
    EndIs(fields, trail, m, k);
    var after := EditsAfter(r, d, keep, f.g3, rest, trail, v + Len(f.value)) + es;
    var outAfter := GapAfter(r, d, keep, f.g3, rest, trail) + EndAfter(r, d, keep, rest, trail, out);
    GoodValue(d, f, depth);
    RewriteKeptValue(r, d, keep, f, depth, v, f.g3 + AfterFirstField(fields[m..], trail, k), after, outAfter);
    RewriteFieldsStep(r, d, keep, fields, trail, at, k, after, out, outAfter);
    FieldsEditsAre(r, d, keep, fields, trail, at, es);
  }

  lemma GoodValue(d: Decoder, f: Field, depth: nat)
    requires GoodField(d, f, depth)
    ensures WellFormed(d, f.value, depth)
  { }

  lemma {:induction false} RewriteFields(r: Rules, d: Decoder, keep: bool, fields: seq<Field>, trail: Trail,
                                         depth: nat, at: nat, k: string, es: seq<Edit>, out: string)
    requires GoodFields(d, fields, depth) && (fields != [] ==> RunLen(r, d, keep, fields) < |fields|)
    requires Rewrites(k, at + LenFields(fields, trail), es, out)
    ensures var p := RedactFields(r, d, keep, fields, trail);
            Rewrites(PrintFields(fields, trail, k), at, FieldsEdits(r, d, keep, fields, trail, at) + es,
                     PrintFields(p.0, p.1, out))
    decreases fields, 2
  {
    hide *;
    if fields == [] {
      RewriteNoFields(r, d, keep, trail, at, k, es, out);
    } else {
      RewriteSomeFields(r, d, keep, fields, trail, depth, at, k, es, out);
    }
  }

  // ---- lists ----

  function OwnEdits(r: Rules, d: Decoder, keep: bool, v: Value, at: nat): seq<Edit> {
    if PrivateElem(r, d, keep, v) then [Edit(at, at + Len(v), EMPTY_TEXT)] else ValueEdits(r, d, keep, v, at)
  }

  function OwnValue(r: Rules, d: Decoder, keep: bool, v: Value): Value {
    if PrivateElem(r, d, keep, v) then VText(EMPTY_TEXT) else RedactValue(r, d, keep, v)
  }

  lemma {:induction false} RewriteElem(r: Rules, d: Decoder, keep: bool, v: Value, depth: nat, at: nat, k: string,
                                       es: seq<Edit>, out: string)
    requires WellFormed(d, v, depth) && Rewrites(k, at + Len(v), es, out)
    ensures Rewrites(Print(v, k), at, OwnEdits(r, d, keep, v, at) + es, Print(OwnValue(r, d, keep, v), out))
    decreases v, 1
  {
    hide Rewrites, ValueEdits, RedactValue;
    if PrivateElem(r, d, keep, v) {
      PrintDrop(v, k);
      Cut(Print(v, k), at, Len(v), EMPTY_TEXT, es, out);
    } else {
      hide Print, WellFormed;
      RewriteValue(r, d, keep, v, depth, at, k, es, out);
    }
  }

  lemma {:induction false} RewriteElemsRest(r: Rules, d: Decoder, keep: bool, elems: seq<Elem>, trail: Trail,
                                            depth: nat, next: nat, k: string, es: seq<Edit>, out: string)
    requires elems != [] && GoodElems(d, elems, depth)
    requires Rewrites(k, next + 1 + (if |elems| == 1 && trail.NoComma? then 0 else LenElems(elems[1..], trail)), es,
                      out)
    ensures Rewrites(AfterFirstElem(elems, trail, k), next, ElemsEdits(r, d, keep, elems[1..], next + 1) + es,
                     AfterFirstElem(RedactElems(r, d, keep, elems), trail, out))
    decreases elems, 1
  {
    hide Rewrites, PrintElems, GoodElem, PrivateElem, RedactValue;
    var all := ElemsEdits(r, d, keep, elems[1..], next + 1) + es;
    assert RedactElems(r, d, keep, elems)[1..] == RedactElems(r, d, keep, elems[1..]);
    if |elems| == 1 && trail.NoComma? {
      assert elems[1..] == [];
      assert all == es;
      Keep("]", k, next, es, out);
    } else {
      hide ElemsEdits, RedactElems;
      RewriteElems(r, d, keep, elems[1..], trail, depth, next + 1, k, es, out);
      Keep(",", PrintElems(elems[1..], trail, k), next, all,
           PrintElems(RedactElems(r, d, keep, elems[1..]), trail, out));
    }
  }

  lemma ElemsEditsAre(r: Rules, d: Decoder, keep: bool, elems: seq<Elem>, at: nat, es: seq<Edit>)
    requires elems != []
    ensures var e := elems[0];
            ElemsEdits(r, d, keep, elems, at) + es ==
            OwnEdits(r, d, keep, e.value, at + |e.g0|) + (ElemsEdits(r, d, keep, elems[1..], at + LenElem(e) + 1) + es)
    ensures RedactElems(r, d, keep, elems) != []
    ensures RedactElems(r, d, keep, elems)[0] == elems[0].(value := OwnValue(r, d, keep, elems[0].value))
  {
    hide ValueEdits, RedactValue, PrivateElem, Len;
    var e := elems[0];
    var a, b := OwnEdits(r, d, keep, e.value, at + |e.g0|), ElemsEdits(r, d, keep, elems[1..], at + LenElem(e) + 1);
    assert ElemsEdits(r, d, keep, elems, at) == a + b;
    assert (a + b) + es == a + (b + es);
  }

  lemma RewriteElemsStep(r: Rules, d: Decoder, keep: bool, elems: seq<Elem>, trail: Trail, at: nat, k: string,
                         more: seq<Edit>, out: string)
    requires elems != [] && RedactElems(r, d, keep, elems) != []
    requires RedactElems(r, d, keep, elems)[0] == elems[0].(value := OwnValue(r, d, keep, elems[0].value))
    requires var e := elems[0];
             var start := at + |e.g0|;
             Rewrites(Print(e.value, e.g1 + AfterFirstElem(elems, trail, k)), start,
                      OwnEdits(r, d, keep, e.value, start) + more,
                      Print(OwnValue(r, d, keep, e.value),
                            e.g1 + AfterFirstElem(RedactElems(r, d, keep, elems), trail, out)))
    ensures Rewrites(PrintElems(elems, trail, k), at, OwnEdits(r, d, keep, elems[0].value, at + |elems[0].g0|) + more,
                     PrintElems(RedactElems(r, d, keep, elems), trail, out))
  {
    hide Rewrites, Print, OwnEdits, OwnValue, PrintElems, RedactElems, AfterFirstElem;
    var e := elems[0];
    Keep(e.g0, Print(e.value, e.g1 + AfterFirstElem(elems, trail, k)), at,
         OwnEdits(r, d, keep, e.value, at + |e.g0|) + more,
         Print(OwnValue(r, d, keep, e.value), e.g1 + AfterFirstElem(RedactElems(r, d, keep, elems), trail, out)));
    ElemsText(elems, trail, k);
    ElemsText(RedactElems(r, d, keep, elems), trail, out);
  }

  lemma RewriteNoElems(r: Rules, d: Decoder, keep: bool, trail: Trail, at: nat, k: string, es: seq<Edit>, out: string)
    requires Rewrites(k, at + LenElems([], trail), es, out)
    ensures Rewrites(PrintElems([], trail, k), at, ElemsEdits(r, d, keep, [], at) + es,
                     PrintElems(RedactElems(r, d, keep, []), trail, out))
  {
    hide Rewrites;
    RewriteTrail(trail, "]", at, k, es, out);
    assert ElemsEdits(r, d, keep, [], at) + es == es;
  }

  lemma LenElemsSplit(elems: seq<Elem>, trail: Trail)
    requires elems != []
    ensures LenElems(elems, trail) ==
            |elems[0].g0| + Len(elems[0].value) + |elems[0].g1| + 1 +
                (if |elems| == 1 && trail.NoComma? then 0 else LenElems(elems[1..], trail))
    ensures LenElem(elems[0]) == |elems[0].g0| + Len(elems[0].value) + |elems[0].g1|
  { }

  lemma GoodFirst(d: Decoder, elems: seq<Elem>, depth: nat)
    requires elems != [] && GoodElems(d, elems, depth)
    ensures WellFormed(d, elems[0].value, depth)
  { }

  lemma {:induction false} RewriteElems(r: Rules, d: Decoder, keep: bool, elems: seq<Elem>, trail: Trail, depth: nat,
                                        at: nat, k: string, es: seq<Edit>, out: string)
    requires GoodElems(d, elems, depth) && Rewrites(k, at + LenElems(elems, trail), es, out)
    ensures Rewrites(PrintElems(elems, trail, k), at, ElemsEdits(r, d, keep, elems, at) + es,
                     PrintElems(RedactElems(r, d, keep, elems), trail, out))
    decreases elems, 2
  {
    hide *;
    if elems == [] {
      RewriteNoElems(r, d, keep, trail, at, k, es, out);
    } else {
      var e := elems[0];
      var more := ElemsEdits(r, d, keep, elems[1..], at + LenElem(e) + 1) + es;
      var end := AfterFirstElem(elems, trail, k);
      var start := at + |e.g0|;
      LenElemsSplit(elems, trail);
      GoodFirst(d, elems, depth);
      RewriteElemsRest(r, d, keep, elems, trail, depth, at + LenElem(e), k, es, out);
      ElemsEditsAre(r, d, keep, elems, at, es);
      var outEnd := AfterFirstElem(RedactElems(r, d, keep, elems), trail, out);
      Keep(e.g1, end, start + Len(e.value), more, outEnd);
      RewriteElem(r, d, keep, e.value, depth, start, e.g1 + end, more, e.g1 + outEnd);
      RewriteElemsStep(r, d, keep, elems, trail, at, k, more, out);
    }
  }

  lemma ElemsText(elems: seq<Elem>, trail: Trail, k: string)
    requires elems != []
    ensures PrintElems(elems, trail, k) == elems[0].g0 +
            Print(elems[0].value, elems[0].g1 + AfterFirstElem(elems, trail, k))
  { }
}
