/** What redaction leaves: still well formed, exactly the pruned tree, nothing private in it. */
module SettingsPrune {
  import opened SettingsSyntax
  import opened SettingsTree
  import opened SettingsRedaction

  // ---- the redacted value is well formed ----

  lemma SuffixMember(t: string, k: nat, i: nat)
    requires k <= |t| && i < |t|
    ensures k <= i ==> t[i] in t[k..]
  {
    if k <= i {
      assert t[k..][i - k] == t[i];
    }
  }

  lemma BlankHasNone(t: string)
    requires Blank(t)
    ensures '/' !in t && ',' !in t
  { }

  /** What is kept before the closing brace is a line break and spaces, or nothing. */
  lemma TailGap(g3: string, trail: Trail)
    requires ClosedGap(g3) && (trail.Comma? ==> ClosedGap(trail.gap))
    ensures var tail := g3 + (if trail.Comma? then "," + trail.gap else "");
            ClosedGap(tail[TailCut(tail)..])
  {
    var tail := g3 + (if trail.Comma? then "," + trail.gap else "");
    var cut := TailCut(tail);
    hide ClosedGap;
    if cut == |tail| {
      AllSpaceIsGap(tail[cut..]);
    } else {
      BlankHasNone(tail[cut..]);
      if trail.Comma? {
        SuffixMember(tail, cut, |g3|);
        assert tail[cut..] == trail.gap[cut - |g3| - 1..];
        TailIsSpace(trail.gap, cut - |g3| - 1);
      } else {
        assert tail == g3;
        TailIsSpace(g3, cut);
      }
      AllSpaceIsGap(tail[cut..]);
    }
  }

  lemma {:induction false} GoodLast(d: Decoder, fields: seq<Field>, depth: nat)
    requires fields != [] && GoodFields(d, fields, depth)
    ensures ClosedGap(fields[|fields| - 1].g3)
    decreases |fields|
  {
    hide ClosedGap, WellFormed;
    if |fields| > 1 {
      GoodLast(d, fields[1..], depth);
      assert fields[1..][|fields| - 2] == fields[|fields| - 1];
    }
  }

  lemma {:induction false} GoodFieldsFrom(d: Decoder, fields: seq<Field>, depth: nat, m: nat)
    requires GoodFields(d, fields, depth) && m < |fields|
    ensures GoodField(d, fields[0], depth) && GoodField(d, fields[m], depth) && GoodFields(d, fields[m + 1..], depth)
    decreases m
  {
    hide GoodField;
    if m > 0 {
      GoodFieldsFrom(d, fields[1..], depth, m - 1);
      assert fields[1..][m..] == fields[m + 1..];
    }
  }

  lemma {:induction false} RedactedGood(r: Rules, d: Decoder, keep: bool, v: Value, depth: nat)
    requires Sane(d) && WellFormed(d, v, depth)
    ensures WellFormed(d, RedactValue(r, d, keep, v), depth)
    decreases v, 0
  {
    match v
    case VObject(fields, trail) =>
      if fields != [] && RunLen(r, d, keep, fields) == |fields| {
      } else {
        RedactedFieldsGood(r, d, keep, fields, trail, depth + 1);
      }
    case VArray(elems, trail) => RedactedElemsGood(r, d, keep, elems, depth + 1);
    case _ =>
  }

  lemma KeptGood(d: Decoder, fields: seq<Field>, m: nat, value: Value, g3: string, depth: nat)
    requires m < |fields| && GoodFields(d, fields, depth) && WellFormed(d, value, depth) && ClosedGap(g3)
    ensures GoodField(d, fields[m].(g0 := fields[0].g0, value := value, g3 := g3), depth)
  {
    hide ClosedGap, WellFormed;
    GoodFieldsFrom(d, fields, depth, m);
  }

  lemma GoodCons(d: Decoder, f: Field, rest: seq<Field>, depth: nat)
    requires GoodField(d, f, depth) && GoodFields(d, rest, depth)
    ensures GoodFields(d, [f] + rest, depth)
  {
    hide GoodField;
    assert ([f] + rest)[1..] == rest;
  }

  lemma {:induction false} RedactedFieldsGood(r: Rules, d: Decoder, keep: bool, fields: seq<Field>, trail: Trail,
                                              depth: nat)
    requires Sane(d) && GoodFields(d, fields, depth) && GoodTrail(trail, fields == [])
    requires fields != [] ==> RunLen(r, d, keep, fields) < |fields|
    ensures var p := RedactFields(r, d, keep, fields, trail);
            GoodFields(d, p.0, depth) && GoodTrail(p.1, p.0 == [])
    decreases fields, 2
  {
    hide GoodField, ClosedGap, WellFormed, TailCut, GoneF, RunLen, RedactKept;
    if fields != [] {
      var m := RunLen(r, d, keep, fields);
      var rest := fields[m + 1..];
      GoodFieldsFrom(d, fields, depth, m);
      RedactedKeptGood(r, d, keep, fields[m], depth);
      var value := RedactKept(r, d, keep, fields[m]);
      GoodGap(d, fields[m], depth);
      if rest == [] {
        KeptGood(d, fields, m, value, fields[m].g3, depth);
        GoodCons(d, fields[m].(g0 := fields[0].g0, value := value), [], depth);
      } else if RunLen(r, d, keep, rest) == |rest| {
        GoodLast(d, rest, depth);
        TailGap(rest[|rest| - 1].g3, trail);
        var tail := TailOf(rest, trail);
        KeptGood(d, fields, m, value, tail[TailCut(tail)..], depth);
        GoodCons(d, fields[m].(g0 := fields[0].g0, value := value, g3 := tail[TailCut(tail)..]), [], depth);
      } else {
        RedactedFieldsGood(r, d, keep, rest, trail, depth);
        KeptGood(d, fields, m, value, fields[m].g3, depth);
        GoodCons(d, fields[m].(g0 := fields[0].g0, value := value), RedactFields(r, d, keep, rest, trail).0, depth);
      }
    }
  }

  lemma GoodGap(d: Decoder, f: Field, depth: nat)
    requires GoodField(d, f, depth)
    ensures ClosedGap(f.g3)
  { }

  lemma {:induction false} RedactedKeptGood(r: Rules, d: Decoder, keep: bool, f: Field, depth: nat)
    requires Sane(d) && GoodField(d, f, depth)
    ensures WellFormed(d, RedactKept(r, d, keep, f), depth)
    decreases f, 1
  {
    if FateF(r, d, f).Inside? {
      RedactedGood(r, d, keep, f.value, depth);
    }
  }

  lemma {:induction false} RedactedElemsGood(r: Rules, d: Decoder, keep: bool, elems: seq<Elem>, depth: nat)
    requires Sane(d) && GoodElems(d, elems, depth)
    ensures GoodElems(d, RedactElems(r, d, keep, elems), depth)
    decreases elems, 2
  {
    if elems != [] {
      var e := elems[0];
      EmptyTextGood(d, depth);
      RedactedGood(r, d, keep, e.value, depth);
      RedactedElemsGood(r, d, keep, elems[1..], depth);
      hide WellFormed, RedactValue, ClosedGap, PrivateElem;
      assert RedactElems(r, d, keep, elems)[1..] == RedactElems(r, d, keep, elems[1..]);
    }
  }

  lemma EmptyTextGood(d: Decoder, depth: nat)
    requires Sane(d)
    ensures WellFormed(d, VText(EMPTY_TEXT), depth)
  {
    assert EMPTY_TEXT[1..] == "\"";
  }

  // ---- the pruned tree ----

  /** The tree with the fields taken out, and private list texts emptied. */
  function Prune(r: Rules, keep: bool, t: Tree): Tree
    decreases t, 0
  {
    match t
    case TObject(members) => TObject(PruneMembers(r, keep, members))
    case TArray(items) => TArray(PruneItems(r, keep, items))
    case _ => t
  }

  function PruneMember(r: Rules, keep: bool, m: TMember): TMember
    decreases m, 1
  {
    if FateT(r, m).Inside? then TMember(m.key, Prune(r, keep, m.value)) else m
  }

  function PruneMembers(r: Rules, keep: bool, members: seq<TMember>): seq<TMember>
    decreases members, 2
  {
    if members == [] then []
    else
      var rest := PruneMembers(r, keep, members[1..]);
      if IsGone(FateT(r, members[0]), keep) then rest else [PruneMember(r, keep, members[0])] + rest
  }

  predicate PrivateItem(r: Rules, keep: bool, t: Tree) {
    t.TText? && r.isPrivate(t.text) && !keep
  }

  function PruneItems(r: Rules, keep: bool, items: seq<Tree>): seq<Tree>
    decreases items, 2
  {
    if items == [] then []
    else
      [if PrivateItem(r, keep, items[0]) then TText("") else Prune(r, keep, items[0])]
      + PruneItems(r, keep, items[1..])
  }

  /** Redacting the text's value prunes what it means. */
  lemma {:induction false} RedactMeans(r: Rules, d: Decoder, keep: bool, v: Value)
    requires Sane(d)
    ensures Meaning(d, RedactValue(r, d, keep, v)) == Prune(r, keep, Meaning(d, v))
    decreases v, 0
  {
    match v
    case VObject(fields, trail) =>
      if fields != [] && RunLen(r, d, keep, fields) == |fields| {
        AllGonePrunes(r, d, keep, fields);
      } else {
        RedactFieldsMeans(r, d, keep, fields, trail);
      }
    case VArray(elems, trail) => RedactElemsMeans(r, d, keep, elems);
    case _ =>
  }

  lemma MeaningCons(d: Decoder, f: Field, rest: seq<Field>)
    ensures FieldsMeaning(d, [f] + rest) == [FieldMeaning(d, f)] + FieldsMeaning(d, rest)
  {
    assert ([f] + rest)[1..] == rest;
  }

  lemma {:induction false} AllGonePrunes(r: Rules, d: Decoder, keep: bool, fields: seq<Field>)
    requires RunLen(r, d, keep, fields) == |fields|
    ensures PruneMembers(r, keep, FieldsMeaning(d, fields)) == []
  {
    if fields != [] {
      AllGonePrunes(r, d, keep, fields[1..]);
    }
  }

  /** Fields that go at the front leave no member. */
  lemma {:induction false} RunPrunes(r: Rules, d: Decoder, keep: bool, fields: seq<Field>)
    requires RunLen(r, d, keep, fields) < |fields|
    ensures var m := RunLen(r, d, keep, fields);
            PruneMembers(r, keep, FieldsMeaning(d, fields)) ==
            [PruneMember(r, keep, FieldMeaning(d, fields[m]))] +
                PruneMembers(r, keep, FieldsMeaning(d, fields[m + 1..]))
    decreases |fields|
  {
    hide FateT, PruneMember, FieldMeaning;
    var m := RunLen(r, d, keep, fields);
    if m > 0 {
      RunPrunes(r, d, keep, fields[1..]);
      assert fields[1..][m - 1] == fields[m];
      assert fields[1..][m..] == fields[m + 1..];
    }
  }

  lemma {:induction false} KeptMeans(r: Rules, d: Decoder, keep: bool, f: Field)
    requires Sane(d)
    ensures TMember(Decoded(d, f.key), Meaning(d, RedactKept(r, d, keep, f))) ==
            PruneMember(r, keep, FieldMeaning(d, f))
    decreases f, 1
  {
    if FateF(r, d, f).Inside? {
      RedactMeans(r, d, keep, f.value);
    }
  }

  lemma {:induction false} RedactFieldsMeans(r: Rules, d: Decoder, keep: bool, fields: seq<Field>, trail: Trail)
    requires Sane(d) && (fields != [] ==> RunLen(r, d, keep, fields) < |fields|)
    ensures FieldsMeaning(d, RedactFields(r, d, keep, fields, trail).0) ==
            PruneMembers(r, keep, FieldsMeaning(d, fields))
    decreases fields, 2
  {
    hide *;
    RedactFieldsParts(r, d, keep, fields, trail);
    NothingPruned(r, d, keep);
    if fields != [] {
      var m := RunLen(r, d, keep, fields);
      var rest := fields[m + 1..];
      RunPrunes(r, d, keep, fields);
      KeptMeans(r, d, keep, fields[m]);
      if rest != [] {
        if RunLen(r, d, keep, rest) == |rest| {
          AllGonePrunes(r, d, keep, rest);
        } else {
          RedactFieldsMeans(r, d, keep, rest, trail);
        }
      }
    }
  }

  /** What the redacted fields mean: the first kept one's meaning, then that of the rest. */
  lemma RedactFieldsParts(r: Rules, d: Decoder, keep: bool, fields: seq<Field>, trail: Trail)
    requires fields != [] ==> RunLen(r, d, keep, fields) < |fields|
    ensures fields == [] ==> FieldsMeaning(d, RedactFields(r, d, keep, fields, trail).0) == FieldsMeaning(d, [])
    ensures fields != [] ==>
              var f := fields[RunLen(r, d, keep, fields)];
              var rest := fields[RunLen(r, d, keep, fields) + 1..];
              FieldsMeaning(d, RedactFields(r, d, keep, fields, trail).0) ==
              [TMember(Decoded(d, f.key), Meaning(d, RedactKept(r, d, keep, f)))]
              + FieldsMeaning(d, if rest == [] || RunLen(r, d, keep, rest) == |rest| then []
                                 else RedactFields(r, d, keep, rest, trail).0)
  {
    hide Meaning, RedactKept, RunLen, TailOf, TailCut, FieldsMeaning, FieldMeaning;
    if fields != [] {
      var f := fields[RunLen(r, d, keep, fields)];
      var p := RedactFields(r, d, keep, fields, trail).0;
      MeaningCons(d, p[0], p[1..]);
      assert p == [p[0]] + p[1..];
      MeaningOfKept(d, p[0], f, RedactKept(r, d, keep, f));
    }
  }

  lemma NothingPruned(r: Rules, d: Decoder, keep: bool)
    ensures PruneMembers(r, keep, FieldsMeaning(d, [])) == [] == FieldsMeaning(d, [])
  { }

  lemma MeaningOfKept(d: Decoder, g: Field, f: Field, value: Value)
    requires g.key == f.key && g.value == value
    ensures FieldMeaning(d, g) == TMember(Decoded(d, f.key), Meaning(d, value))
  { }

  lemma {:induction false} RedactElemsMeans(r: Rules, d: Decoder, keep: bool, elems: seq<Elem>)
    requires Sane(d)
    ensures ElemsMeaning(d, RedactElems(r, d, keep, elems)) == PruneItems(r, keep, ElemsMeaning(d, elems))
    decreases elems, 2
  {
    if elems != [] {
      RedactMeans(r, d, keep, elems[0].value);
      RedactElemsMeans(r, d, keep, elems[1..]);
      hide RedactValue, Prune;
      assert RedactElems(r, d, keep, elems)[1..] == RedactElems(r, d, keep, elems[1..]);
      assert Decoded(d, EMPTY_TEXT) == "";
    }
  }

  // ---- nothing private is left ----

  /**
   * No field is one that is never shared, at any depth; unless flags are kept, no field is flagged and no text
   * private.
   */
  ghost predicate Clean(r: Rules, keep: bool, t: Tree)
    decreases t, 0
  {
    match t
    case TObject(members) => forall m :: m in members ==> CleanMember(r, keep, m)
    case TArray(items) => forall i :: i in items ==> !PrivateItem(r, keep, i) && Clean(r, keep, i)
    case _ => true
  }

  ghost predicate CleanMember(r: Rules, keep: bool, m: TMember)
    decreases m, 1
  {
    !NeverSharedT(r, m) && (!keep ==> FateT(r, m) != Flagged && (m.value.TText? ==> !r.isPrivate(m.value.text)))
    && Clean(r, keep, m.value)
  }

  /** Pruning never makes a value hold something. */
  lemma {:induction false} PruneHolds(r: Rules, keep: bool, t: Tree, hotkey: bool)
    requires HoldsT(r, Prune(r, keep, t), hotkey)
    ensures HoldsT(r, t, hotkey)
    decreases t, 0
  {
    match t
    case TObject(members) => PruneMembersHold(r, keep, members, hotkey);
    case TArray(items) => PruneItemsHold(r, keep, items, hotkey);
    case _ =>
  }

  lemma {:induction false} PruneMembersHold(r: Rules, keep: bool, members: seq<TMember>, hotkey: bool)
    requires exists m :: m in PruneMembers(r, keep, members) && HoldsT(r, m.value, hotkey)
    ensures exists m :: m in members && HoldsT(r, m.value, hotkey)
    decreases members, 2
  {
    hide FateT;
    var out := PruneMembers(r, keep, members);
    var m :| m in out && HoldsT(r, m.value, hotkey);
    var rest := PruneMembers(r, keep, members[1..]);
    if m in rest {
      PruneMembersHold(r, keep, members[1..], hotkey);
      var x :| x in members[1..] && HoldsT(r, x.value, hotkey);
      assert x in members;
    } else {
      assert m == PruneMember(r, keep, members[0]);
      if FateT(r, members[0]).Inside? {
        PruneHolds(r, keep, members[0].value, hotkey);
      }
      assert members[0] in members;
    }
  }

  lemma {:induction false} PruneItemsHold(r: Rules, keep: bool, items: seq<Tree>, hotkey: bool)
    requires exists i :: i in PruneItems(r, keep, items) && HoldsT(r, i, hotkey)
    ensures exists i :: i in items && HoldsT(r, i, hotkey)
    decreases items, 2
  {
    var out := PruneItems(r, keep, items);
    var i :| i in out && HoldsT(r, i, hotkey);
    var rest := PruneItems(r, keep, items[1..]);
    if i in rest {
      PruneItemsHold(r, keep, items[1..], hotkey);
      var x :| x in items[1..] && HoldsT(r, x, hotkey);
      assert x in items;
    } else {
      assert i == out[0];
      if !PrivateItem(r, keep, items[0]) {
        PruneHolds(r, keep, items[0], hotkey);
      }
      assert items[0] in items;
    }
  }

  lemma {:induction false} PruneClean(r: Rules, keep: bool, t: Tree)
    requires !r.isPrivate("")
    ensures Clean(r, keep, Prune(r, keep, t))
    decreases t, 0
  {
    match t
    case TObject(members) => PruneMembersClean(r, keep, members);
    case TArray(items) => PruneItemsClean(r, keep, items);
    case _ =>
  }

  lemma {:induction false} PruneMemberClean(r: Rules, keep: bool, m: TMember)
    requires !r.isPrivate("") && !IsGone(FateT(r, m), keep)
    ensures CleanMember(r, keep, PruneMember(r, keep, m))
    decreases m, 1
  {
    hide HasBlockedName, HotkeyName, Secretish, Blank, Normalise;
    var p := PruneMember(r, keep, m);
    if FateT(r, m).Inside? {
      PruneClean(r, keep, m.value);
      var hotkey := HotkeyName(Normalise(r, m.key));
      if HoldsT(r, p.value, hotkey) {
        PruneHolds(r, keep, m.value, hotkey);
      }
      hide HoldsT;
      assert !m.value.TText? && !p.value.TText?;
    }
  }

  lemma {:induction false} PruneMembersClean(r: Rules, keep: bool, members: seq<TMember>)
    requires !r.isPrivate("")
    ensures forall m :: m in PruneMembers(r, keep, members) ==> CleanMember(r, keep, m)
    decreases members, 2
  {
    hide CleanMember, PruneMember, FateT;
    if members != [] {
      PruneMembersClean(r, keep, members[1..]);
      if !IsGone(FateT(r, members[0]), keep) {
        PruneMemberClean(r, keep, members[0]);
      }
    }
  }

  lemma {:induction false} PruneItemsClean(r: Rules, keep: bool, items: seq<Tree>)
    requires !r.isPrivate("")
    ensures forall i :: i in PruneItems(r, keep, items) ==> !PrivateItem(r, keep, i) && Clean(r, keep, i)
    decreases items, 2
  {
    if items != [] {
      PruneItemsClean(r, keep, items[1..]);
      PruneClean(r, keep, items[0]);
    }
  }

  // ---- a clean file is left alone ----

  lemma CleanFieldStays(r: Rules, d: Decoder, keep: bool, f: Field)
    requires CleanMember(r, keep, FieldMeaning(d, f))
    ensures !GoneF(r, d, keep, f)
  {
    hide HasBlockedName, HotkeyName, Secretish, Blank, Normalise, HoldsT, Clean;
  }

  lemma {:induction false} CleanStays(r: Rules, d: Decoder, keep: bool, v: Value, at: nat)
    requires Clean(r, keep, Meaning(d, v))
    ensures ValueEdits(r, d, keep, v, at) == [] && RedactValue(r, d, keep, v) == v
    decreases v, 0
  {
    match v
    case VObject(fields, trail) =>
      FieldsMembers(d, fields);
      forall f | f in fields ensures CleanMember(r, keep, FieldMeaning(d, f)) {
        assert FieldMeaning(d, f) in FieldsMeaning(d, fields);
      }
      if fields != [] {
        assert fields[0] in fields;
        CleanFieldStays(r, d, keep, fields[0]);
      }
      CleanFieldsStay(r, d, keep, fields, trail, at + 1);
    case VArray(elems, trail) =>
      ElemsMembers(d, elems);
      forall e | e in elems
        ensures !PrivateItem(r, keep, Meaning(d, e.value)) && Clean(r, keep, Meaning(d, e.value))
      {
        assert Meaning(d, e.value) in ElemsMeaning(d, elems);
      }
      CleanElemsStay(r, d, keep, elems, at + 1);
    case _ =>
  }

  lemma {:induction false} FieldsMembers(d: Decoder, fields: seq<Field>)
    ensures forall f :: f in fields ==> FieldMeaning(d, f) in FieldsMeaning(d, fields)
  {
    hide FieldMeaning;
    if fields != [] {
      FieldsMembers(d, fields[1..]);
      assert fields == [fields[0]] + fields[1..];
    }
  }

  lemma {:induction false} ElemsMembers(d: Decoder, elems: seq<Elem>)
    ensures forall e :: e in elems ==> Meaning(d, e.value) in ElemsMeaning(d, elems)
  {
    hide Meaning;
    if elems != [] {
      ElemsMembers(d, elems[1..]);
      assert elems == [elems[0]] + elems[1..];
    }
  }

  lemma NoEditsStep(r: Rules, d: Decoder, keep: bool, fields: seq<Field>, trail: Trail, at: nat)
    requires fields != [] && RunLen(r, d, keep, fields) == 0
    requires KeptEdits(r, d, keep, fields[0], at + ValueOffset(fields[0])) == []
    requires |fields| > 1 ==> RunLen(r, d, keep, fields[1..]) == 0
    requires FieldsEdits(r, d, keep, fields[1..], trail, at + LenField(fields[0]) + 1) == []
    ensures FieldsEdits(r, d, keep, fields, trail, at) == []
  {
    hide RunLen, KeptEdits, TailOf, TailCut, Len, ValueOffset;
    var f := fields[0];
    var v := at + FieldOffset(fields, 0) + ValueOffset(f);
    assert v + Len(f.value) + |f.g3| + 1 == at + LenField(f) + 1;
    assert EditsAfter(r, d, keep, f.g3, fields[0 + 1..], trail, v + Len(f.value)) == [];
  }

  lemma NoChangeStep(r: Rules, d: Decoder, keep: bool, fields: seq<Field>, trail: Trail)
    requires fields != [] && RunLen(r, d, keep, fields) == 0
    requires RedactKept(r, d, keep, fields[0]) == fields[0].value
    requires |fields| > 1 ==> RunLen(r, d, keep, fields[1..]) == 0
    requires RedactFields(r, d, keep, fields[1..], trail) == (fields[1..], trail)
    ensures RedactFields(r, d, keep, fields, trail) == (fields, trail)
  {
    hide RunLen, RedactKept, TailOf, TailCut;
    var f := fields[0];
    assert fields == [f] + fields[1..];
    assert fields[0].(g0 := fields[0].g0, value := RedactKept(r, d, keep, fields[0])) == f;
    assert fields[0 + 1..] == fields[1..];
    if |fields| == 1 {
      assert fields == [f];
      assert fields[1..] == [];
    } else {
      assert fields[1..] != [];
      assert RedactFields(r, d, keep, fields, trail) == ([f] + fields[1..], trail);
    }
  }

  lemma NoRun(r: Rules, d: Decoder, keep: bool, fields: seq<Field>)
    requires fields != [] && CleanMember(r, keep, FieldMeaning(d, fields[0]))
    ensures RunLen(r, d, keep, fields) == 0
  {
    hide CleanMember, GoneF;
    CleanFieldStays(r, d, keep, fields[0]);
  }

  lemma CleanFieldsStep(r: Rules, d: Decoder, keep: bool, fields: seq<Field>, trail: Trail, at: nat)
    requires fields != [] && forall f :: f in fields ==> CleanMember(r, keep, FieldMeaning(d, f))
    requires KeptEdits(r, d, keep, fields[0], at + ValueOffset(fields[0])) == []
    requires RedactKept(r, d, keep, fields[0]) == fields[0].value
    requires FieldsEdits(r, d, keep, fields[1..], trail, at + LenField(fields[0]) + 1) == []
    requires RedactFields(r, d, keep, fields[1..], trail) == (fields[1..], trail)
    ensures FieldsEdits(r, d, keep, fields, trail, at) == []
    ensures RedactFields(r, d, keep, fields, trail) == (fields, trail)
  {
    hide *;
    NoRun(r, d, keep, fields);
    if |fields| > 1 {
      assert fields[1] in fields;
      NoRun(r, d, keep, fields[1..]);
    }
    NoEditsStep(r, d, keep, fields, trail, at);
    NoChangeStep(r, d, keep, fields, trail);
  }

  lemma NoFieldsStay(r: Rules, d: Decoder, keep: bool, trail: Trail, at: nat)
    ensures FieldsEdits(r, d, keep, [], trail, at) == []
    ensures RedactFields(r, d, keep, [], trail) == ([], trail)
  { }

  lemma {:induction false} CleanFieldsStay(r: Rules, d: Decoder, keep: bool, fields: seq<Field>, trail: Trail, at: nat)
    requires forall f :: f in fields ==> CleanMember(r, keep, FieldMeaning(d, f))
    ensures FieldsEdits(r, d, keep, fields, trail, at) == []
    ensures RedactFields(r, d, keep, fields, trail) == (fields, trail)
    decreases fields, 2
  {
    hide *;
    if fields == [] {
      NoFieldsStay(r, d, keep, trail, at);
    } else {
      var f := fields[0];
      assert f in fields;
      CleanKeptStays(r, d, keep, f, at + ValueOffset(f));
      assert forall g :: g in fields[1..] ==> g in fields;
      CleanFieldsStay(r, d, keep, fields[1..], trail, at + LenField(f) + 1);
      CleanFieldsStep(r, d, keep, fields, trail, at);
    }
  }

  lemma {:induction false} CleanKeptStays(r: Rules, d: Decoder, keep: bool, f: Field, at: nat)
    requires CleanMember(r, keep, FieldMeaning(d, f))
    ensures KeptEdits(r, d, keep, f, at) == [] && RedactKept(r, d, keep, f) == f.value
    decreases f, 1
  {
    hide FateF;
    if FateF(r, d, f).Inside? {
      CleanStays(r, d, keep, f.value, at);
    }
  }

  lemma NotPrivate(r: Rules, d: Decoder, keep: bool, v: Value)
    requires !PrivateItem(r, keep, Meaning(d, v))
    ensures !PrivateElem(r, d, keep, v)
  { }

  lemma ElemsStayStep(r: Rules, d: Decoder, keep: bool, elems: seq<Elem>, at: nat)
    requires elems != [] && !PrivateElem(r, d, keep, elems[0].value)
    requires ValueEdits(r, d, keep, elems[0].value, at + |elems[0].g0|) == []
    requires RedactValue(r, d, keep, elems[0].value) == elems[0].value
    requires ElemsEdits(r, d, keep, elems[1..], at + LenElem(elems[0]) + 1) == []
    requires RedactElems(r, d, keep, elems[1..]) == elems[1..]
    ensures ElemsEdits(r, d, keep, elems, at) == [] && RedactElems(r, d, keep, elems) == elems
  {
    hide PrivateElem, ValueEdits, RedactValue, Len;
    var e := elems[0];
    assert e.(value := e.value) == e;
    assert elems == [e] + elems[1..];
  }

  lemma {:induction false} CleanElemsStay(r: Rules, d: Decoder, keep: bool, elems: seq<Elem>, at: nat)
    requires forall e :: e in elems ==>
             !PrivateItem(r, keep, Meaning(d, e.value)) && Clean(r, keep, Meaning(d, e.value))
    ensures ElemsEdits(r, d, keep, elems, at) == [] && RedactElems(r, d, keep, elems) == elems
    decreases elems, 2
  {
    hide Clean, Meaning, ValueEdits, RedactValue, Len, PrivateItem, PrivateElem;
    if elems != [] {
      hide *;
      var e := elems[0];
      assert e in elems;
      assert forall x :: x in elems[1..] ==> x in elems;
      CleanStays(r, d, keep, e.value, at + |e.g0|);
      CleanElemsStay(r, d, keep, elems[1..], at + LenElem(e) + 1);
      NotPrivate(r, d, keep, e.value);
      ElemsStayStep(r, d, keep, elems, at);
    }
  }
}
