/**
 * Taking private fields out of a settings file by editing its own text, and
 * what the edited text then reads as.
 */
module SettingsRedaction {
  import opened Options
  import opened SettingsSyntax
  import opened SettingsTree

  // ---- edits ----

  /** Replace the text from `from` up to `to`. */
  datatype Edit = Edit(from: nat, to: nat, with: string)

  /** The edits lie one after another inside the `n` characters at `at`. */
  ghost predicate InOrder(es: seq<Edit>, at: nat, n: nat)
    decreases |es|
  {
    es != [] ==>
      at <= es[0].from && es[0].from < es[0].to <= at + n && InOrder(es[1..], es[0].to, at + n - es[0].to)
  }

  /** The text at `at` with every edit made at once. */
  ghost function Rewrite(t: string, at: nat, es: seq<Edit>): string
    requires InOrder(es, at, |t|)
    decreases |es|
  {
    if es == [] then t
    else t[..es[0].from - at] + es[0].with + Rewrite(t[es[0].to - at..], es[0].to, es[1..])
  }

  /** Making the edits in the text at `at` gives `out`. */
  ghost predicate Rewrites(t: string, at: nat, es: seq<Edit>, out: string) {
    InOrder(es, at, |t|) && Rewrite(t, at, es) == out
  }

  /** Text before the first edit is kept. */
  lemma Keep(a: string, t: string, at: nat, es: seq<Edit>, out: string)
    requires Rewrites(t, at + |a|, es, out)
    ensures Rewrites(a + t, at, es, a + out)
  {
    if es != [] {
      var e := es[0];
      assert (a + t)[..e.from - at] == a + t[..e.from - at - |a|];
      assert (a + t)[e.to - at..] == t[e.to - at - |a|..];
    }
  }

  /** An edit at the very front replaces what it covers. */
  lemma Cut(t: string, at: nat, n: nat, with: string, es: seq<Edit>, out: string)
    requires 0 < n <= |t| && Rewrites(t[n..], at + n, es, out)
    ensures Rewrites(t, at, [Edit(at, at + n, with)] + es, with + out)
  {
    var all := [Edit(at, at + n, with)] + es;
    assert all[1..] == es;
    assert t[..0] + with == with;
  }

  // ---- where the runs of fields taken out are ----

  predicate GoneF(r: Rules, d: Decoder, keep: bool, f: Field) {
    IsGone(FateF(r, d, f), keep)
  }

  /** How many fields at the front go. */
  function RunLen(r: Rules, d: Decoder, keep: bool, fields: seq<Field>): (n: nat)
    ensures n <= |fields|
  {
    if fields == [] || !GoneF(r, d, keep, fields[0]) then 0 else 1 + RunLen(r, d, keep, fields[1..])
  }

  lemma {:induction false} RunLenIs(r: Rules, d: Decoder, keep: bool, fields: seq<Field>)
    ensures var n := RunLen(r, d, keep, fields);
            && (forall i :: 0 <= i < n ==> GoneF(r, d, keep, fields[i]))
            && (n < |fields| ==> !GoneF(r, d, keep, fields[n]))
  {
    hide GoneF;
    if fields != [] && GoneF(r, d, keep, fields[0]) {
      RunLenIs(r, d, keep, fields[1..]);
    }
  }

  /** Where the last line break is, if there is one. */
  function LastBreak(t: string): (r: Option<nat>)
    ensures r.Some? ==> r.value < |t| && t[r.value] == '\n'
  {
    if t == "" then None
    else if t[|t| - 1] == '\n' then Some(|t| - 1)
    else LastBreak(t[..|t| - 1])
  }

  /** How much of the text between the last field taken out and the closing brace goes with it. */
  function TailCut(tail: string): (n: nat)
    ensures n <= |tail|
  {
    var b := LastBreak(tail);
    if b.Some? && Blank(tail[b.value..]) then b.value else |tail|
  }

  /** The text between the last value and the closing brace. */
  function TailOf(fields: seq<Field>, trail: Trail): string
    requires fields != []
  {
    fields[|fields| - 1].g3 + (if trail.Comma? then "," + trail.gap else "")
  }

  /** How far into the text of some fields that tail begins. */
  function TailStart(fields: seq<Field>): nat
    requires fields != []
  {
    if |fields| == 1 then ValueOffset(fields[0]) + Len(fields[0].value)
    else LenField(fields[0]) + 1 + TailStart(fields[1..])
  }

  /** The text value that takes a private one's place. */
  const EMPTY_TEXT := "\"\""

  predicate PrivateElem(r: Rules, d: Decoder, keep: bool, v: Value) {
    v.VText? && r.isPrivate(Decoded(d, v.raw)) && !keep
  }

  // ---- the redacted value, and the edits that make it, in text order ----

  function RedactValue(r: Rules, d: Decoder, keep: bool, v: Value): Value
    decreases v, 0
  {
    match v
    case VObject(fields, trail) =>
      if fields != [] && RunLen(r, d, keep, fields) == |fields| then VObject([], Comma(""))
      else
        var p := RedactFields(r, d, keep, fields, trail);
        VObject(p.0, p.1)
    case VArray(elems, trail) => VArray(RedactElems(r, d, keep, elems), trail)
    case _ => v
  }

  function RedactKept(r: Rules, d: Decoder, keep: bool, f: Field): Value
    decreases f, 1
  {
    if FateF(r, d, f).Inside? then RedactValue(r, d, keep, f.value) else f.value
  }

  /** The fields left, each run gone with the separator after it, a run at the end with the one before. */
  function RedactFields(r: Rules, d: Decoder, keep: bool, fields: seq<Field>, trail: Trail): (p: (seq<Field>, Trail))
    decreases fields, 2
  {
    var m := RunLen(r, d, keep, fields);
    if m == |fields| then ([], trail)
    else
      var f := fields[m].(g0 := fields[0].g0, value := RedactKept(r, d, keep, fields[m]));
      var rest := fields[m + 1..];
      if rest == [] then ([f], trail)
      else if RunLen(r, d, keep, rest) == |rest| then
        var tail := TailOf(rest, trail);
        ([f.(g3 := tail[TailCut(tail)..])], NoComma)
      else
        var p := RedactFields(r, d, keep, rest, trail);
        ([f] + p.0, p.1)
  }

  function RedactElems(r: Rules, d: Decoder, keep: bool, elems: seq<Elem>): (p: seq<Elem>)
    ensures |p| == |elems|
    decreases elems, 2
  {
    if elems == [] then []
    else
      var e := elems[0];
      var value := if PrivateElem(r, d, keep, e.value) then VText(EMPTY_TEXT) else RedactValue(r, d, keep, e.value);
      [e.(value := value)] + RedactElems(r, d, keep, elems[1..])
  }

  /** Where the `m`th of some fields begins. */
  function FieldOffset(fields: seq<Field>, m: nat): nat
    requires m <= |fields|
  {
    if m == 0 then 0 else LenField(fields[0]) + 1 + FieldOffset(fields[1..], m - 1)
  }

  function ValueEdits(r: Rules, d: Decoder, keep: bool, v: Value, at: nat): seq<Edit>
    decreases v, 0
  {
    match v
    case VObject(fields, trail) =>
      if fields != [] && RunLen(r, d, keep, fields) == |fields| then [Edit(at + 1, at + Len(v) - 1, "")]
      else FieldsEdits(r, d, keep, fields, trail, at + 1)
    case VArray(elems, trail) => ElemsEdits(r, d, keep, elems, at + 1)
    case _ => []
  }

  function KeptEdits(r: Rules, d: Decoder, keep: bool, f: Field, at: nat): seq<Edit>
    decreases f, 1
  {
    if FateF(r, d, f).Inside? then ValueEdits(r, d, keep, f.value, at) else []
  }

  /** The edit of a run of fields before the `m`th, if there is one. */
  function RunEdit(fields: seq<Field>, m: nat, at: nat): seq<Edit>
    requires m < |fields|
  {
    if m == 0 then []
    else [Edit(at + |fields[0].g0|, at + FieldOffset(fields, m) + |fields[m].g0|, "")]
  }

  /** The edits after a field that stays; its value ends at `at`, before the gap `g3`. */
  function EditsAfter(r: Rules, d: Decoder, keep: bool, g3: string, rest: seq<Field>, trail: Trail, at: nat): seq<Edit>
    decreases rest, 3
  {
    if rest == [] then []
    else if RunLen(r, d, keep, rest) == |rest| then
      [Edit(at, at + |g3| + 1 + TailStart(rest) + TailCut(TailOf(rest, trail)), "")]
    else FieldsEdits(r, d, keep, rest, trail, at + |g3| + 1)
  }

  function FieldsEdits(r: Rules, d: Decoder, keep: bool, fields: seq<Field>, trail: Trail, at: nat): seq<Edit>
    decreases fields, 2
  {
    var m := RunLen(r, d, keep, fields);
    if m == |fields| then []
    else
      var f := fields[m];
      var v := at + FieldOffset(fields, m) + ValueOffset(f);
      RunEdit(fields, m, at)
      + (KeptEdits(r, d, keep, f, v) + EditsAfter(r, d, keep, f.g3, fields[m + 1..], trail, v + Len(f.value)))
  }

  function ElemsEdits(r: Rules, d: Decoder, keep: bool, elems: seq<Elem>, at: nat): seq<Edit>
    decreases elems, 2
  {
    if elems == [] then []
    else
      var e := elems[0];
      var start := at + |e.g0|;
      (if PrivateElem(r, d, keep, e.value) then [Edit(start, start + Len(e.value), EMPTY_TEXT)]
       else ValueEdits(r, d, keep, e.value, start))
      + ElemsEdits(r, d, keep, elems[1..], at + LenElem(e) + 1)
  }
}
