/**
 * The walk over the reader's tree: what it names, and the edits it pushes in
 * its own order, which sorted are the edits in text order.
 */
module SettingsWalk {
  import opened Texts
  import opened SettingsSyntax
  import opened SettingsReading
  import opened SettingsTree
  import opened SettingsRedaction
  import opened SettingsRewrite

  datatype Found = Found(path: string, blocked: bool)

  datatype Walked = Walked(found: seq<Found>, edits: seq<Edit>)

  function Append(a: Walked, b: Walked): Walked {
    Walked(a.found + b.found, a.edits + b.edits)
  }

  function MemberPath(path: string, key: string): string {
    if path == "" then key else path + "." + key
  }

  function ItemPath(path: string, index: nat): string {
    path + "[" + Decimal(index) + "]"
  }

  predicate Gone(r: Rules, keep: bool, m: Member) {
    IsGone(FateOf(r, m.key, m.value), keep)
  }

  /** How many members at the front go. */
  function Leading(r: Rules, keep: bool, members: seq<Member>): (n: nat)
    ensures n <= |members|
  {
    if members == [] || !Gone(r, keep, members[0]) then 0 else 1 + Leading(r, keep, members[1..])
  }

  function Slice(text: string, from: nat, to: nat): string {
    if from <= to <= |text| then text[from..to] else ""
  }

  /** One edit for each run of members taken out; the member before has its value end at `end`. */
  function Runs(r: Rules, keep: bool, text: string, close: nat, members: seq<Member>, end: nat): seq<Edit>
    decreases |members|
  {
    if members == [] then []
    else
      var m := Leading(r, keep, members);
      if m == 0 then Runs(r, keep, text, close, members[1..], members[0].end)
      else if m < |members| then
        [Edit(members[0].start, members[m].start, "")] + Runs(r, keep, text, close, members[m..], end)
      else
        var last := members[m - 1].end;
        [Edit(end, last + TailCut(Slice(text, last, close)), "")]
  }

  function ObjectEdits(r: Rules, keep: bool, text: string, open: nat, close: nat, members: seq<Member>): seq<Edit> {
    if members != [] && Leading(r, keep, members) == |members| then [Edit(open + 1, close, "")]
    else Runs(r, keep, text, close, members, open + 1)
  }

  /** What is found worth taking out, and the text to change. */
  function Walk(r: Rules, keep: bool, text: string, node: Node, path: string): Walked
    decreases node
  {
    match node
    case Object(open, close, members) =>
      Append(WalkMembers(r, keep, text, members, path), Walked([], ObjectEdits(r, keep, text, open, close, members)))
    case Array(items) => WalkItems(r, keep, text, items, path, 0)
    case _ => Walked([], [])
  }

  function WalkMember(r: Rules, keep: bool, text: string, m: Member, path: string): Walked
    decreases m
  {
    var here := MemberPath(path, m.key);
    match FateOf(r, m.key, m.value)
    case Blocked => Walked([Found(here, true)], [])
    case Flagged => Walked([Found(here, false)], [])
    case Kept => Walked([], [])
    case Inside => Walk(r, keep, text, m.value, here)
  }

  function WalkMembers(r: Rules, keep: bool, text: string, members: seq<Member>, path: string): Walked
    decreases members
  {
    if members == [] then Walked([], [])
    else Append(WalkMember(r, keep, text, members[0], path), WalkMembers(r, keep, text, members[1..], path))
  }

  function WalkItem(r: Rules, keep: bool, text: string, item: Item, here: string): Walked
    decreases item
  {
    if item.value.Text? then
      if r.isPrivate(item.value.text) then
        Walked([Found(here, false)], if keep then [] else [Edit(item.start, item.end, EMPTY_TEXT)])
      else Walked([], [])
    else Walk(r, keep, text, item.value, here)
  }

  function WalkItems(r: Rules, keep: bool, text: string, items: seq<Item>, path: string, index: nat): Walked
    decreases items
  {
    if items == [] then Walked([], [])
    else
      Append(WalkItem(r, keep, text, items[0], ItemPath(path, index)),
             WalkItems(r, keep, text, items[1..], path, index + 1))
  }

  // ---- the walk finds the edits in text order, up to order ----

  lemma {:induction false} LeadingIs(r: Rules, d: Decoder, keep: bool, fields: seq<Field>, at: nat)
    ensures Leading(r, keep, LocateFields(d, fields, at)) == RunLen(r, d, keep, fields)
  {
    hide FateOf, FateF;
    if fields != [] {
      FateSame(r, d, fields[0], at);
      LeadingIs(r, d, keep, fields[1..], at + LenField(fields[0]) + 1);
    }
  }

  /** Where the `m`th member is. */
  lemma {:induction false} LocateFrom(d: Decoder, fields: seq<Field>, at: nat, m: nat)
    requires m <= |fields|
    ensures LocateFields(d, fields, at)[m..] == LocateFields(d, fields[m..], at + FieldOffset(fields, m))
    ensures m < |fields| ==> LocateFields(d, fields, at)[m] == LocateField(d, fields[m], at + FieldOffset(fields, m))
    decreases m
  {
    hide LocateField, LenField, LocateFields, FieldOffset;
    LocateFirst(d, fields, at);
    OffsetFrom(fields, m);
    if m == 0 {
      assert fields[0..] == fields;
      assert LocateFields(d, fields, at)[0..] == LocateFields(d, fields, at);
    } else {
      LocateFrom(d, fields[1..], at + LenField(fields[0]) + 1, m - 1);
      assert fields[1..][m - 1..] == fields[m..];
      assert LocateFields(d, fields, at)[m..] == LocateFields(d, fields, at)[1..][m - 1..];
    }
  }

  lemma LocateFirst(d: Decoder, fields: seq<Field>, at: nat)
    ensures |LocateFields(d, fields, at)| == |fields|
    ensures fields != [] ==>
              && LocateFields(d, fields, at)[0] == LocateField(d, fields[0], at)
              && LocateFields(d, fields, at)[1..] == LocateFields(d, fields[1..], at + LenField(fields[0]) + 1)
  {
    hide LocateField, LenField;
  }

  lemma OffsetFrom(fields: seq<Field>, m: nat)
    requires m <= |fields|
    ensures FieldOffset(fields, 0) == 0
    ensures m > 0 ==> FieldOffset(fields, m) == LenField(fields[0]) + 1 + FieldOffset(fields[1..], m - 1)
  {
    hide LenField;
  }

  /** Where the last member's value ends. */
  lemma {:induction false} LastEnd(d: Decoder, fields: seq<Field>, at: nat)
    requires fields != []
    ensures LocateFields(d, fields, at)[|fields| - 1].end == at + TailStart(fields)
    decreases |fields|
  {
    hide Locate, LenField, Len;
    if |fields| > 1 {
      LastEnd(d, fields[1..], at + LenField(fields[0]) + 1);
      assert LocateFields(d, fields, at)[|fields| - 1] == LocateFields(d, fields, at)[1..][|fields| - 2];
    }
  }

  /** The edits inside the fields that stay, in their order. */
  function InnerEdits(r: Rules, d: Decoder, keep: bool, fields: seq<Field>, at: nat): seq<Edit> {
    if fields == [] then []
    else
      (if GoneF(r, d, keep, fields[0]) then [] else KeptEdits(r, d, keep, fields[0], at + ValueOffset(fields[0])))
      + InnerEdits(r, d, keep, fields[1..], at + LenField(fields[0]) + 1)
  }

  /** The text around some fields: it reads them from `at` on, and their closing brace is at `close`. */
  ghost predicate TextHas(text: string, at: nat, fields: seq<Field>, trail: Trail, close: nat) {
    && at <= |text| && close + 1 == at + LenFields(fields, trail) <= |text|
    && exists k :: text[at..] == PrintFields(fields, trail, k)
  }

  /** The text between the last value and the brace is what the tail was printed from. */
  lemma SliceIsTail(text: string, at: nat, fields: seq<Field>, trail: Trail, close: nat)
    requires fields != [] && TextHas(text, at, fields, trail, close)
    ensures Slice(text, at + TailStart(fields), close) == TailOf(fields, trail)
  {
    hide PrintFields, LenFields;
    var k :| text[at..] == PrintFields(fields, trail, k);
    DropToTail(fields, trail, k);
    var tail := TailOf(fields, trail);
    var from := at + TailStart(fields);
    assert text[from..] == text[at..][TailStart(fields)..];
    assert text[from..close] == text[from..][..|tail|];
  }

  lemma SuffixOf(text: string, at: nat, n: nat)
    requires at + n <= |text|
    ensures text[at + n..] == text[at..][n..]
  { }

  /** So does the text from a later field on. */
  lemma TextFrom(text: string, at: nat, fields: seq<Field>, trail: Trail, close: nat, m: nat)
    requires m < |fields| && TextHas(text, at, fields, trail, close)
    ensures TextHas(text, at + FieldOffset(fields, m), fields[m..], trail, close)
  {
    hide PrintFields, FieldOffset, LenFields;
    var k :| text[at..] == PrintFields(fields, trail, k);
    DropFields(fields, trail, k, m);
    LenFrom(fields, trail, m);
    SuffixOf(text, at, FieldOffset(fields, m));
  }

  lemma {:induction false} LenFrom(fields: seq<Field>, trail: Trail, m: nat)
    requires m < |fields|
    ensures LenFields(fields, trail) == FieldOffset(fields, m) + LenFields(fields[m..], trail)
    decreases m
  {
    hide LenField;
    if m == 0 {
      assert fields[0..] == fields;
    } else {
      LenFrom(fields[1..], trail, m - 1);
      assert fields[1..][m - 1..] == fields[m..];
    }
  }

  /** Past a field that stays, the runs are those of the rest. */
  lemma RunsPastKept(r: Rules, d: Decoder, keep: bool, text: string, close: nat, fields: seq<Field>, at: nat, end: nat)
    requires fields != [] && RunLen(r, d, keep, fields) == 0
    ensures Runs(r, keep, text, close, LocateFields(d, fields, at), end) ==
            Runs(r, keep, text, close, LocateFields(d, fields[1..], at + LenField(fields[0]) + 1),
                 at + ValueOffset(fields[0]) + Len(fields[0].value))
  {
    hide Locate, RunLen, Leading, LenField, Len;
    LeadingIs(r, d, keep, fields, at);
    assert LocateFields(d, fields, at)[1..] == LocateFields(d, fields[1..], at + LenField(fields[0]) + 1);
  }

  /** A run with a field after it is one edit. */
  lemma RunsPastRun(r: Rules, d: Decoder, keep: bool, text: string, close: nat, fields: seq<Field>, at: nat, end: nat)
    requires 0 < RunLen(r, d, keep, fields) < |fields|
    ensures var m := RunLen(r, d, keep, fields);
            Runs(r, keep, text, close, LocateFields(d, fields, at), end) ==
            RunEdit(fields, m, at) + Runs(r, keep, text, close,
                                          LocateFields(d, fields[m..], at + FieldOffset(fields, m)), end)
  {
    hide Locate, RunLen, Leading, LenField, FieldOffset, LocateFields, Runs, Gone;
    var m := RunLen(r, d, keep, fields);
    LeadingIs(r, d, keep, fields, at);
    LocateFrom(d, fields, at, m);
    FirstLocated(d, fields, at);
    RunsFirst(r, keep, text, close, LocateFields(d, fields, at), end);
  }

  lemma RunsFirst(r: Rules, keep: bool, text: string, close: nat, members: seq<Member>, end: nat)
    requires 0 < Leading(r, keep, members) < |members|
    ensures var m := Leading(r, keep, members);
            Runs(r, keep, text, close, members, end) ==
            [Edit(members[0].start, members[m].start, "")] + Runs(r, keep, text, close, members[m..], end)
  {
    hide Leading;
  }

  lemma FirstLocated(d: Decoder, fields: seq<Field>, at: nat)
    requires fields != []
    ensures LocateFields(d, fields, at) != [] && LocateFields(d, fields, at)[0] == LocateField(d, fields[0], at)
  { }

  /** A run at the end is one edit from the end of the value before it. */
  lemma RunsAtEnd(r: Rules, d: Decoder, keep: bool, text: string, close: nat, fields: seq<Field>, trail: Trail,
                  at: nat, end: nat)
    requires fields != [] && RunLen(r, d, keep, fields) == |fields|
    requires TextHas(text, at, fields, trail, close)
    ensures Runs(r, keep, text, close, LocateFields(d, fields, at), end) ==
            [Edit(end, at + TailStart(fields) + TailCut(TailOf(fields, trail)), "")]
  {
    hide Locate, RunLen, Leading, LenField, LocateFields, TailCut, TailOf, Slice, TextHas;
    LeadingIs(r, d, keep, fields, at);
    LastEnd(d, fields, at);
    SliceIsTail(text, at, fields, trail, close);
  }

  lemma RunsOfNone(r: Rules, keep: bool, text: string, close: nat, d: Decoder, at: nat, end: nat)
    ensures Runs(r, keep, text, close, LocateFields(d, [], at), end) == []
  { }

  lemma {:induction false} RunLenDrop(r: Rules, d: Decoder, keep: bool, fields: seq<Field>)
    requires RunLen(r, d, keep, fields) < |fields|
    ensures RunLen(r, d, keep, fields[RunLen(r, d, keep, fields)..]) == 0
  {
    hide GoneF;
    RunLenIs(r, d, keep, fields);
  }

  /** Fields that go have nothing inside. */
  lemma {:induction false} InnerPastRun(r: Rules, d: Decoder, keep: bool, fields: seq<Field>, at: nat, m: nat)
    requires m == RunLen(r, d, keep, fields)
    ensures InnerEdits(r, d, keep, fields, at) == InnerEdits(r, d, keep, fields[m..], at + FieldOffset(fields, m))
    decreases |fields|
  {
    hide GoneF, KeptEdits, LenField;
    if m == 0 {
      assert fields[0..] == fields;
    } else {
      InnerPastRun(r, d, keep, fields[1..], at + LenField(fields[0]) + 1, m - 1);
      assert fields[1..][m - 1..] == fields[m..];
    }
  }

  lemma InnerFirst(r: Rules, d: Decoder, keep: bool, fields: seq<Field>, at: nat)
    requires fields != [] && RunLen(r, d, keep, fields) == 0
    ensures InnerEdits(r, d, keep, fields, at) ==
            KeptEdits(r, d, keep, fields[0], at + ValueOffset(fields[0])) +
                InnerEdits(r, d, keep, fields[1..], at + LenField(fields[0]) + 1)
  {
    hide GoneF, KeptEdits, LenField;
  }

  lemma InnerAllGone(r: Rules, d: Decoder, keep: bool, fields: seq<Field>, at: nat)
    requires RunLen(r, d, keep, fields) == |fields|
    ensures InnerEdits(r, d, keep, fields, at) == []
  {
    InnerPastRun(r, d, keep, fields, at, |fields|);
    assert fields[|fields|..] == [];
  }

  /** Up to and with the first field that stays, the inner edits and the runs are known. */
  lemma BothToKept(r: Rules, d: Decoder, keep: bool, text: string, close: nat, fields: seq<Field>, at: nat, end: nat)
    requires RunLen(r, d, keep, fields) < |fields|
    ensures var m := RunLen(r, d, keep, fields);
            var f := fields[m];
            var rest := fields[m + 1..];
            var v := at + FieldOffset(fields, m) + ValueOffset(f);
            var next := v + Len(f.value) + |f.g3| + 1;
            && InnerEdits(r, d, keep, fields, at) == KeptEdits(r, d, keep, f, v) + InnerEdits(r, d, keep, rest, next)
            && Runs(r, keep, text, close, LocateFields(d, fields, at), end) ==
               RunEdit(fields, m, at) + Runs(r, keep, text, close, LocateFields(d, rest, next), v + Len(f.value))
  {
    hide *;
    var m := RunLen(r, d, keep, fields);
    var start := at + FieldOffset(fields, m);
    var from := fields[m..];
    assert from[0] == fields[m] && from[1..] == fields[m + 1..];
    RunsToKept(r, d, keep, text, close, fields, at, end);
    InnerPastRun(r, d, keep, fields, at, m);
    RunLenDrop(r, d, keep, fields);
    InnerFirst(r, d, keep, from, start);
    RunsPastKept(r, d, keep, text, close, from, start, end);
    FieldLen(fields[m]);
  }

  /** The edits in text order are the inner edits and the runs. */
  lemma {:induction false} FieldsEditsAreBoth(r: Rules, d: Decoder, keep: bool, text: string, close: nat,
                                              fields: seq<Field>, trail: Trail, at: nat, end: nat)
    requires RunLen(r, d, keep, fields) < |fields| && TextHas(text, at, fields, trail, close)
    ensures multiset(FieldsEdits(r, d, keep, fields, trail, at)) ==
            multiset(InnerEdits(r, d, keep, fields, at)) +
                multiset(Runs(r, keep, text, close, LocateFields(d, fields, at), end))
    decreases |fields|, 1
  {
    hide *;
    var m := RunLen(r, d, keep, fields);
    var f := fields[m];
    var v := at + FieldOffset(fields, m) + ValueOffset(f);
    var here := v + Len(f.value);
    var next := here + |f.g3| + 1;
    BothToKept(r, d, keep, text, close, fields, at, end);
    AfterKept(r, d, keep, text, close, fields, trail, at);
    FieldsEditsSplit(r, d, keep, fields, trail, at);
    Mix(RunEdit(fields, m, at), KeptEdits(r, d, keep, f, v),
        EditsAfter(r, d, keep, f.g3, fields[m + 1..], trail, here),
        InnerEdits(r, d, keep, fields[m + 1..], next),
        Runs(r, keep, text, close, LocateFields(d, fields[m + 1..], next), here));
  }

  lemma FieldLen(f: Field)
    ensures LenField(f) == ValueOffset(f) + Len(f.value) + |f.g3|
  { }

  lemma Mix<T>(a: seq<T>, b: seq<T>, c: seq<T>, x: seq<T>, y: seq<T>)
    requires multiset(c) == multiset(x) + multiset(y)
    ensures multiset(a + (b + c)) == multiset(b + x) + multiset(a + y)
  { }

  lemma FieldsEditsSplit(r: Rules, d: Decoder, keep: bool, fields: seq<Field>, trail: Trail, at: nat)
    requires RunLen(r, d, keep, fields) < |fields|
    ensures var m := RunLen(r, d, keep, fields);
            var f := fields[m];
            var v := at + FieldOffset(fields, m) + ValueOffset(f);
            FieldsEdits(r, d, keep, fields, trail, at) ==
            RunEdit(fields, m, at) + (KeptEdits(r, d, keep, f, v) +
                                      EditsAfter(r, d, keep, f.g3, fields[m + 1..], trail, v + Len(f.value)))
  {
    hide RunLen, KeptEdits, EditsAfter, RunEdit, Len, FieldOffset;
  }

  lemma RunsToKept(r: Rules, d: Decoder, keep: bool, text: string, close: nat, fields: seq<Field>, at: nat, end: nat)
    requires RunLen(r, d, keep, fields) < |fields|
    ensures var m := RunLen(r, d, keep, fields);
            Runs(r, keep, text, close, LocateFields(d, fields, at), end) ==
            RunEdit(fields, m, at) + Runs(r, keep, text, close,
                                          LocateFields(d, fields[m..], at + FieldOffset(fields, m)), end)
  {
    hide Runs, LocateFields, RunLen;
    if RunLen(r, d, keep, fields) == 0 {
      assert fields[0..] == fields;
    } else {
      RunsPastRun(r, d, keep, text, close, fields, at, end);
    }
  }

  lemma EditsAfterCases(r: Rules, d: Decoder, keep: bool, g3: string, rest: seq<Field>, trail: Trail, at: nat)
    ensures rest == [] ==> EditsAfter(r, d, keep, g3, rest, trail, at) == []
    ensures rest != [] && RunLen(r, d, keep, rest) == |rest| ==>
              EditsAfter(r, d, keep, g3, rest, trail, at) ==
              [Edit(at, at + |g3| + 1 + TailStart(rest) + TailCut(TailOf(rest, trail)), "")]
    ensures RunLen(r, d, keep, rest) < |rest| ==>
              EditsAfter(r, d, keep, g3, rest, trail, at) == FieldsEdits(r, d, keep, rest, trail, at + |g3| + 1)
  {
    hide RunLen, TailCut, TailOf, FieldsEdits;
  }

  lemma InnerNone(r: Rules, d: Decoder, keep: bool, at: nat)
    ensures InnerEdits(r, d, keep, [], at) == []
  { }

  lemma {:induction false} AfterKept(r: Rules, d: Decoder, keep: bool, text: string, close: nat, fields: seq<Field>,
                                     trail: Trail, at: nat)
    requires RunLen(r, d, keep, fields) < |fields| && TextHas(text, at, fields, trail, close)
    ensures var m := RunLen(r, d, keep, fields);
            var f := fields[m];
            var rest := fields[m + 1..];
            var here := at + FieldOffset(fields, m) + ValueOffset(f) + Len(f.value);
            var next := here + |f.g3| + 1;
            multiset(EditsAfter(r, d, keep, f.g3, rest, trail, here)) ==
            multiset(InnerEdits(r, d, keep, rest, next)) +
                multiset(Runs(r, keep, text, close, LocateFields(d, rest, next), here))
    decreases |fields|, 0
  {
    hide *;
    var m := RunLen(r, d, keep, fields);
    OffsetNext(fields, m);
    if m + 1 < |fields| {
      TextFrom(text, at, fields, trail, close, m + 1);
    }
    var f := fields[m];
    AfterIsBoth(r, d, keep, text, close, f.g3, fields[m + 1..], trail,
                at + FieldOffset(fields, m) + ValueOffset(f) + Len(f.value));
  }

  /** What follows a kept field, which ends at `here`. */
  lemma {:induction false} AfterIsBoth(r: Rules, d: Decoder, keep: bool, text: string, close: nat, g3: string,
                                       rest: seq<Field>, trail: Trail, here: nat)
    requires rest != [] ==> TextHas(text, here + |g3| + 1, rest, trail, close)
    ensures var next := here + |g3| + 1;
            multiset(EditsAfter(r, d, keep, g3, rest, trail, here)) ==
            multiset(InnerEdits(r, d, keep, rest, next)) +
                multiset(Runs(r, keep, text, close, LocateFields(d, rest, next), here))
    decreases |rest|, 2
  {
    hide *;
    var next := here + |g3| + 1;
    EditsAfterCases(r, d, keep, g3, rest, trail, here);
    if rest == [] {
      RunsOfNone(r, keep, text, close, d, next, here);
      InnerNone(r, d, keep, next);
    } else if RunLen(r, d, keep, rest) == |rest| {
      InnerAllGone(r, d, keep, rest, next);
      RunsAtEnd(r, d, keep, text, close, rest, trail, next, here);
    } else {
      FieldsEditsAreBoth(r, d, keep, text, close, rest, trail, next, here);
    }
  }

  lemma {:induction false} OffsetNext(fields: seq<Field>, m: nat)
    requires m < |fields|
    ensures FieldOffset(fields, m + 1) == FieldOffset(fields, m) + ValueOffset(fields[m]) + Len(fields[m].value) +
            |fields[m].g3| + 1
    decreases m
  {
    hide Len;
    if m > 0 {
      OffsetNext(fields[1..], m - 1);
    }
  }

  // ---- the whole walk ----

  /** The text holds this value's text from `at` on. */
  ghost predicate TextAt(text: string, at: nat, v: Value) {
    at <= |text| && exists k :: text[at..] == Print(v, k)
  }

  lemma InsideObject(text: string, at: nat, fields: seq<Field>, trail: Trail)
    requires TextAt(text, at, VObject(fields, trail))
    ensures TextHas(text, at + 1, fields, trail, at + Len(VObject(fields, trail)) - 1)
  {
    var v := VObject(fields, trail);
    var k :| text[at..] == Print(v, k);
    PrintLen(v, k);
    hide PrintFields;
    assert text[at + 1..] == text[at..][1..];
    assert text[at + 1..] == PrintFields(fields, trail, k);
  }

  lemma InsideField(text: string, at: nat, fields: seq<Field>, trail: Trail, close: nat)
    requires fields != [] && TextHas(text, at, fields, trail, close)
    ensures TextAt(text, at + ValueOffset(fields[0]), fields[0].value)
  {
    hide PrintFields, LenFields, Print;
    var f := fields[0];
    var k :| text[at..] == PrintFields(fields, trail, k);
    FirstText(fields, trail, k);
    var end := AfterFirstField(fields, trail, k);
    KeyTextSplits(f, end);
    DropLeft(KeyPart(f), Print(f.value, f.g3 + end), 0);
    DropLeft(f.g0, KeyText(f, end), |KeyPart(f)|);
    SuffixOf(text, at, ValueOffset(f));
    assert Print(f.value, f.g3 + end)[0..] == Print(f.value, f.g3 + end);
  }

  lemma InsideRest(text: string, at: nat, fields: seq<Field>, trail: Trail, close: nat)
    requires |fields| > 1 && TextHas(text, at, fields, trail, close)
    ensures TextHas(text, at + LenField(fields[0]) + 1, fields[1..], trail, close)
  {
    hide TextHas, LenField;
    TextFrom(text, at, fields, trail, close, 1);
    assert FieldOffset(fields[1..], 0) == 0;
  }

  ghost predicate ItemsAt(text: string, at: nat, elems: seq<Elem>, trail: Trail) {
    at <= |text| && exists k :: text[at..] == PrintElems(elems, trail, k)
  }

  lemma InsideArray(text: string, at: nat, elems: seq<Elem>, trail: Trail)
    requires TextAt(text, at, VArray(elems, trail))
    ensures ItemsAt(text, at + 1, elems, trail)
  {
    var k :| text[at..] == Print(VArray(elems, trail), k);
    hide PrintElems;
    assert text[at + 1..] == text[at..][1..];
    assert text[at + 1..] == PrintElems(elems, trail, k);
  }

  lemma ElemTextAt(text: string, at: nat, elems: seq<Elem>, trail: Trail, k: string)
    requires elems != [] && at <= |text| && text[at..] == PrintElems(elems, trail, k)
    ensures var e := elems[0];
            var end := AfterFirstElem(elems, trail, k);
            && at + LenElem(e) <= |text|
            && text[at + |e.g0|..] == Print(e.value, e.g1 + end)
            && text[at + LenElem(e)..] == end
  {
    hide PrintElems, Print, AfterFirstElem;
    var e := elems[0];
    ElemsText(elems, trail, k);
    var end := AfterFirstElem(elems, trail, k);
    var value := Print(e.value, e.g1 + end);
    PrintDrop(e.value, e.g1 + end);
    assert value[0..] == value;
    DropLeft(e.g0, value, 0);
    SuffixOf(text, at, |e.g0|);
    SuffixOf(text, at + |e.g0|, Len(e.value));
    SuffixOf(text, at + |e.g0| + Len(e.value), |e.g1|);
  }

  lemma InsideElem(text: string, at: nat, elems: seq<Elem>, trail: Trail)
    requires elems != [] && ItemsAt(text, at, elems, trail)
    ensures TextAt(text, at + |elems[0].g0|, elems[0].value)
    ensures |elems| > 1 ==> ItemsAt(text, at + LenElem(elems[0]) + 1, elems[1..], trail)
  {
    hide PrintElems, Print;
    var k :| text[at..] == PrintElems(elems, trail, k);
    ElemTextAt(text, at, elems, trail, k);
    if |elems| > 1 {
      SuffixOf(text, at + LenElem(elems[0]), 1);
      var rest := PrintElems(elems[1..], trail, k);
      assert ("," + rest)[1..] == rest;
      assert text[at + LenElem(elems[0]) + 1..] == rest;
    }
  }

  lemma ObjectLen(fields: seq<Field>, trail: Trail)
    ensures Len(VObject(fields, trail)) >= 1
  { }

  lemma ObjectEditsCases(r: Rules, d: Decoder, keep: bool, text: string, fields: seq<Field>, trail: Trail, at: nat)
    ensures var v := VObject(fields, trail);
            var own := ObjectEdits(r, keep, text, at, at + Len(v) - 1, LocateFields(d, fields, at + 1));
            && (fields != [] && RunLen(r, d, keep, fields) == |fields| ==>
                  own == [Edit(at + 1, at + Len(v) - 1, "")] && ValueEdits(r, d, keep, v, at) == own)
            && (fields == [] || RunLen(r, d, keep, fields) < |fields| ==>
                  && own == Runs(r, keep, text, at + Len(v) - 1, LocateFields(d, fields, at + 1), at + 1)
                  && ValueEdits(r, d, keep, v, at) == FieldsEdits(r, d, keep, fields, trail, at + 1))
  {
    hide Runs, FieldsEdits, Leading, RunLen, Len, Locate;
    LeadingIs(r, d, keep, fields, at + 1);
  }

  /** In an object, the inner edits and the runs are its edits. */
  lemma ObjectFindsEdits(r: Rules, d: Decoder, keep: bool, text: string, fields: seq<Field>, trail: Trail, at: nat)
    requires TextAt(text, at, VObject(fields, trail))
    ensures var v := VObject(fields, trail);
            multiset(InnerEdits(r, d, keep, fields, at + 1))
            + multiset(ObjectEdits(r, keep, text, at, at + Len(v) - 1, LocateFields(d, fields, at + 1))) ==
            multiset(ValueEdits(r, d, keep, v, at))
  {
    hide *;
    ObjectLen(fields, trail);
    var close := at + Len(VObject(fields, trail)) - 1;
    InsideObject(text, at, fields, trail);
    ObjectEditsCases(r, d, keep, text, fields, trail, at);
    if fields == [] {
      NoFieldsNoEdits(r, d, keep, text, trail, close, at + 1);
    } else if RunLen(r, d, keep, fields) == |fields| {
      InnerAllGone(r, d, keep, fields, at + 1);
    } else {
      FieldsEditsAreBoth(r, d, keep, text, close, fields, trail, at + 1, at + 1);
    }
  }

  /** The walk pushes exactly the edits of the redacted value. */
  lemma {:induction false} WalkFindsEdits(r: Rules, d: Decoder, keep: bool, text: string, v: Value, at: nat,
                                          path: string)
    requires TextAt(text, at, v)
    ensures multiset(Walk(r, keep, text, Locate(d, v, at), path).edits) == multiset(ValueEdits(r, d, keep, v, at))
    decreases v, 0
  {
    hide *;
    match v
    case VObject(fields, trail) =>
      ObjectLen(fields, trail);
      InsideObject(text, at, fields, trail);
      MembersFindEdits(r, d, keep, text, fields, trail, at + Len(v) - 1, at + 1, path);
      ObjectFindsEdits(r, d, keep, text, fields, trail, at);
      WalkObject(r, d, keep, text, fields, trail, at, path);
    case VArray(elems, trail) =>
      InsideArray(text, at, elems, trail);
      ItemsFindEdits(r, d, keep, text, elems, trail, at + 1, path, 0);
      WalkArray(r, d, keep, text, elems, trail, at, path);
    case VWord(_) => WalkScalar(r, d, keep, text, v, at, path);
    case VText(_) => WalkScalar(r, d, keep, text, v, at, path);
    case VNumber(_) => WalkScalar(r, d, keep, text, v, at, path);
  }

  lemma WalkObject(r: Rules, d: Decoder, keep: bool, text: string, fields: seq<Field>, trail: Trail, at: nat,
                   path: string)
    ensures var v := VObject(fields, trail);
            Len(v) >= 1 &&
            Walk(r, keep, text, Locate(d, v, at), path).edits ==
            WalkMembers(r, keep, text, LocateFields(d, fields, at + 1), path).edits
            + ObjectEdits(r, keep, text, at, at + Len(v) - 1, LocateFields(d, fields, at + 1))
  {
    hide WalkMembers, ObjectEdits, LocateFields;
  }

  lemma WalkArray(r: Rules, d: Decoder, keep: bool, text: string, elems: seq<Elem>, trail: Trail, at: nat, path: string)
    ensures var v := VArray(elems, trail);
            && Walk(r, keep, text, Locate(d, v, at), path) ==
                WalkItems(r, keep, text, LocateElems(d, elems, at + 1), path, 0)
            && ValueEdits(r, d, keep, v, at) == ElemsEdits(r, d, keep, elems, at + 1)
  {
    hide WalkItems, LocateElems, ElemsEdits;
  }

  lemma WalkScalar(r: Rules, d: Decoder, keep: bool, text: string, v: Value, at: nat, path: string)
    requires !v.VObject? && !v.VArray?
    ensures Walk(r, keep, text, Locate(d, v, at), path).edits == [] == ValueEdits(r, d, keep, v, at)
  { }

  lemma NoFieldsNoEdits(r: Rules, d: Decoder, keep: bool, text: string, trail: Trail, close: nat, at: nat)
    ensures LocateFields(d, [], at) == [] && Runs(r, keep, text, close, [], at) == []
    ensures InnerEdits(r, d, keep, [], at) == [] && FieldsEdits(r, d, keep, [], trail, at) == []
  { }

  lemma {:induction false} MembersFindEdits(r: Rules, d: Decoder, keep: bool, text: string, fields: seq<Field>,
                                            trail: Trail, close: nat, at: nat, path: string)
    requires fields != [] ==> TextHas(text, at, fields, trail, close)
    ensures multiset(WalkMembers(r, keep, text, LocateFields(d, fields, at), path).edits) ==
            multiset(InnerEdits(r, d, keep, fields, at))
    decreases fields, 2
  {
    hide TextHas, WalkMember, LocateField, KeptEdits, GoneF, Len;
    if fields != [] {
      var next := at + LenField(fields[0]) + 1;
      InsideField(text, at, fields, trail, close);
      MemberFindsEdits(r, d, keep, text, fields[0], at, path);
      if |fields| > 1 {
        InsideRest(text, at, fields, trail, close);
      }
      MembersFindEdits(r, d, keep, text, fields[1..], trail, close, next, path);
      hide WalkMembers, InnerEdits, LocateFields, Append;
      WalkMembersSplit(r, d, keep, text, fields, at, path);
      InnerSplit(r, d, keep, fields, at);
    }
  }

  lemma WalkMembersSplit(r: Rules, d: Decoder, keep: bool, text: string, fields: seq<Field>, at: nat, path: string)
    requires fields != []
    ensures WalkMembers(r, keep, text, LocateFields(d, fields, at), path).edits ==
            WalkMember(r, keep, text, LocateField(d, fields[0], at), path).edits
            + WalkMembers(r, keep, text, LocateFields(d, fields[1..], at + LenField(fields[0]) + 1), path).edits
  {
    hide WalkMember, LocateField, LenField;
    assert LocateFields(d, fields, at)[1..] == LocateFields(d, fields[1..], at + LenField(fields[0]) + 1);
  }

  /** What is inside one field, if it stays. */
  function OwnInner(r: Rules, d: Decoder, keep: bool, f: Field, at: nat): seq<Edit> {
    if GoneF(r, d, keep, f) then [] else KeptEdits(r, d, keep, f, at + ValueOffset(f))
  }

  lemma InnerSplit(r: Rules, d: Decoder, keep: bool, fields: seq<Field>, at: nat)
    requires fields != []
    ensures InnerEdits(r, d, keep, fields, at) ==
            OwnInner(r, d, keep, fields[0], at) + InnerEdits(r, d, keep, fields[1..], at + LenField(fields[0]) + 1)
  { }

  lemma {:induction false} MemberFindsEdits(r: Rules, d: Decoder, keep: bool, text: string, f: Field, at: nat,
                                            path: string)
    requires TextAt(text, at + ValueOffset(f), f.value)
    ensures multiset(WalkMember(r, keep, text, LocateField(d, f, at), path).edits) ==
            multiset(OwnInner(r, d, keep, f, at))
    decreases f, 1
  {
    hide TextAt, Walk, FateOf, FateF, Locate, ValueEdits;
    FateSame(r, d, f, at);
    if FateF(r, d, f).Inside? {
      var m := LocateField(d, f, at);
      WalkFindsEdits(r, d, keep, text, f.value, at + ValueOffset(f), MemberPath(path, m.key));
    }
  }

  lemma {:induction false} ItemFindsEdits(r: Rules, d: Decoder, keep: bool, text: string, e: Elem, at: nat,
                                          here: string)
    requires TextAt(text, at + |e.g0|, e.value)
    ensures multiset(WalkItem(r, keep, text, LocateElem(d, e, at), here).edits) ==
            multiset(OwnEdits(r, d, keep, e.value, at + |e.g0|))
    decreases e, 1
  {
    hide TextAt, Walk, ValueEdits;
    if !e.value.VText? {
      WalkFindsEdits(r, d, keep, text, e.value, at + |e.g0|, here);
    } else {
      TextHasNoEdits(r, d, keep, e.value, at + |e.g0|);
    }
  }

  lemma TextHasNoEdits(r: Rules, d: Decoder, keep: bool, v: Value, at: nat)
    requires v.VText?
    ensures ValueEdits(r, d, keep, v, at) == []
  { }

  lemma WalkItemsSplit(r: Rules, d: Decoder, keep: bool, text: string, elems: seq<Elem>, at: nat, path: string,
                       index: nat)
    requires elems != []
    ensures WalkItems(r, keep, text, LocateElems(d, elems, at), path, index).edits ==
            WalkItem(r, keep, text, LocateElem(d, elems[0], at), ItemPath(path, index)).edits
            + WalkItems(r, keep, text, LocateElems(d, elems[1..], at + LenElem(elems[0]) + 1), path, index + 1).edits
  {
    hide WalkItem, LocateElem, LenElem, ItemPath;
    assert LocateElems(d, elems, at)[1..] == LocateElems(d, elems[1..], at + LenElem(elems[0]) + 1);
  }

  lemma ElemsEditsSplit(r: Rules, d: Decoder, keep: bool, elems: seq<Elem>, at: nat)
    requires elems != []
    ensures ElemsEdits(r, d, keep, elems, at) ==
            OwnEdits(r, d, keep, elems[0].value, at + |elems[0].g0|) +
                ElemsEdits(r, d, keep, elems[1..], at + LenElem(elems[0]) + 1)
  {
    hide PrivateElem, ValueEdits;
  }

  lemma {:induction false} ItemsFindEdits(r: Rules, d: Decoder, keep: bool, text: string, elems: seq<Elem>,
                                          trail: Trail, at: nat, path: string, index: nat)
    requires elems != [] ==> ItemsAt(text, at, elems, trail)
    ensures multiset(WalkItems(r, keep, text, LocateElems(d, elems, at), path, index).edits) ==
            multiset(ElemsEdits(r, d, keep, elems, at))
    decreases elems, 2
  {
    hide ItemsAt, WalkItem, LocateElem, OwnEdits, LenElem, ItemPath;
    if elems != [] {
      hide ElemsEdits, WalkItems, LocateElems;
      InsideElem(text, at, elems, trail);
      ItemFindsEdits(r, d, keep, text, elems[0], at, ItemPath(path, index));
      ItemsFindEdits(r, d, keep, text, elems[1..], trail, at + LenElem(elems[0]) + 1, path, index + 1);
      WalkItemsSplit(r, d, keep, text, elems, at, path, index);
      ElemsEditsSplit(r, d, keep, elems, at);
    }
  }

  // ---- what is named does not depend on what is kept ----

  lemma {:induction false} FoundSame(r: Rules, text: string, node: Node, path: string)
    ensures Walk(r, true, text, node, path).found == Walk(r, false, text, node, path).found
    decreases node
  {
    match node
    case Object(open, close, members) =>
      MembersFoundSame(r, text, members, path);
      hide WalkMembers;
      var a, b := WalkMembers(r, true, text, members, path).found, WalkMembers(r, false, text, members, path).found;
      assert a + [] == a && b + [] == b;
    case Array(items) => ItemsFoundSame(r, text, items, path, 0);
    case _ =>
  }

  lemma {:induction false} MembersFoundSame(r: Rules, text: string, members: seq<Member>, path: string)
    ensures WalkMembers(r, true, text, members, path).found == WalkMembers(r, false, text, members, path).found
    decreases members
  {
    hide Walk, FateOf;
    if members != [] {
      var m := members[0];
      if FateOf(r, m.key, m.value).Inside? {
        FoundSame(r, text, m.value, MemberPath(path, m.key));
      }
      MembersFoundSame(r, text, members[1..], path);
    }
  }

  lemma {:induction false} ItemFoundSame(r: Rules, text: string, item: Item, here: string)
    ensures WalkItem(r, true, text, item, here).found == WalkItem(r, false, text, item, here).found
    decreases item
  {
    hide Walk;
    if !item.value.Text? {
      FoundSame(r, text, item.value, here);
    }
  }

  lemma {:induction false} ItemsFoundSame(r: Rules, text: string, items: seq<Item>, path: string, index: nat)
    ensures WalkItems(r, true, text, items, path, index).found == WalkItems(r, false, text, items, path, index).found
    decreases items
  {
    hide WalkItem;
    if items != [] {
      ItemFoundSame(r, text, items[0], ItemPath(path, index));
      ItemsFoundSame(r, text, items[1..], path, index + 1);
    }
  }
}
