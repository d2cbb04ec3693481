/**
 * The settings reader as the program runs it: a cursor that moves over the
 * text, building the tree of positions as it goes.
 */
module SettingsScan {
  import opened Options
  import opened SettingsSyntax
  import opened SettingsTree
  import opened SettingsRedaction
  import opened SettingsRedact

  lemma DropDrop(t: string, a: nat, b: nat)
    requires a + b <= |t|
    ensures t[a..][b..] == t[a + b..]
  { }

  lemma DropTake(t: string, a: nat, b: nat)
    requires a + b <= |t|
    ensures t[a..][..b] == t[a..a + b]
  { }

  lemma AtFront(t: string, a: nat)
    requires a < |t|
    ensures t[a..] != "" && t[a..][0] == t[a] && t[a..][1..] == t[a + 1..]
  { }

  // ---- a list read member by member ----

  /** How the whole list follows from what is read so far and what is still to come. */
  ghost predicate Continues<T>(whole: Option<Read<(seq<T>, Trail)>>, done: seq<T>,
                               more: Option<Read<(seq<T>, Trail)>>) {
    if more.None? then whole.None?
    else whole == Some(Read((done + more.value.got.0, more.value.got.1), more.value.rest))
  }

  lemma ContinuesAfter<T>(whole: Option<Read<(seq<T>, Trail)>>, done: seq<T>, x: T,
                          here: Option<Read<(seq<T>, Trail)>>, more: Option<Read<(seq<T>, Trail)>>)
    requires Continues(whole, done, here)
    requires here == if more.None? then None else Some(Read(([x] + more.value.got.0, more.value.got.1),
                                                            more.value.rest))
    ensures Continues(whole, done + [x], more)
  {
    if more.Some? {
      assert done + ([x] + more.value.got.0) == (done + [x]) + more.value.got.0;
    }
  }

  lemma ContinuesAll<T>(whole: Option<Read<(seq<T>, Trail)>>, done: seq<T>, last: seq<T>, trail: Trail, rest: string,
                        here: Option<Read<(seq<T>, Trail)>>)
    requires Continues(whole, done, here) && here == Some(Read((last, trail), rest))
    ensures whole == Some(Read((done + last, trail), rest))
  { }

  /** What the reader makes of the members from `t` on, by what stands there. */
  lemma FieldsHere(d: Decoder, t: string, depth: nat)
    ensures var t1 := AfterSpace(t);
            var f := ReadField(d, t, depth);
            && (t1 == "" ==> ReadFields(d, t, depth).None?)
            && (t1 != "" && t1[0] == '}' ==> ReadFields(d, t, depth) == Some(Read(([], Comma(GapOf(t))), t1[1..])))
            && (t1 != "" && t1[0] != '"' ==> f.None?)
            && (t1 != "" && t1[0] != '}' ==>
                  && (f.None? || f.value.rest == "" || f.value.rest[0] !in [',', '}'] ==> ReadFields(d, t, depth).None?)
                  && (f.Some? && f.value.rest != "" && f.value.rest[0] == '}' ==>
                        ReadFields(d, t, depth) == Some(Read(([f.value.got], NoComma), f.value.rest[1..])))
                  && (f.Some? && f.value.rest != "" && f.value.rest[0] == ',' ==>
                        var more := ReadFields(d, f.value.rest[1..], depth);
                        ReadFields(d, t, depth) ==
                          if more.None? then None
                          else Some(Read(([f.value.got] + more.value.got.0, more.value.got.1), more.value.rest))))
  {
    hide ReadValue, AfterSpace, GapOf;
  }

  lemma ElemsHere(d: Decoder, t: string, depth: nat)
    ensures var t1 := AfterSpace(t);
            var e := ReadElem(d, t, depth);
            && (t1 == "" ==> ReadElems(d, t, depth).None?)
            && (t1 != "" && t1[0] == ']' ==> ReadElems(d, t, depth) == Some(Read(([], Comma(GapOf(t))), t1[1..])))
            && (t1 != "" && t1[0] != ']' ==>
                  && (e.None? || e.value.rest == "" || e.value.rest[0] !in [',', ']'] ==> ReadElems(d, t, depth).None?)
                  && (e.Some? && e.value.rest != "" && e.value.rest[0] == ']' ==>
                        ReadElems(d, t, depth) == Some(Read(([e.value.got], NoComma), e.value.rest[1..])))
                  && (e.Some? && e.value.rest != "" && e.value.rest[0] == ',' ==>
                        var more := ReadElems(d, e.value.rest[1..], depth);
                        ReadElems(d, t, depth) ==
                          if more.None? then None
                          else Some(Read(([e.value.got] + more.value.got.0, more.value.got.1), more.value.rest))))
  {
    hide ReadValue, AfterSpace, GapOf;
  }

  /** One more member moves the positions on by its own text and a comma. */
  lemma {:induction false} OneMoreField(d: Decoder, done: seq<Field>, f: Field, at: nat)
    ensures FieldOffset(done + [f], |done| + 1) == FieldOffset(done, |done|) + LenField(f) + 1
    ensures LocateFields(d, done + [f], at) == LocateFields(d, done, at) +
            [LocateField(d, f, at + FieldOffset(done, |done|))]
    decreases |done|
  {
    hide LenField, LocateField;
    if done == [] {
      assert done + [f] == [f];
      assert [f][1..] == [];
    } else {
      assert (done + [f])[1..] == done[1..] + [f];
      OneMoreField(d, done[1..], f, at + LenField(done[0]) + 1);
    }
  }

  lemma {:induction false} FieldsClose(done: seq<Field>, gap: string)
    ensures LenFields(done, Comma(gap)) == FieldOffset(done, |done|) + |gap| + 1
    decreases |done|
  {
    hide LenField;
    if done != [] {
      FieldsClose(done[1..], gap);
    }
  }

  lemma {:induction false} FieldsCloseBare(done: seq<Field>, f: Field)
    ensures LenFields(done + [f], NoComma) == FieldOffset(done, |done|) + LenField(f) + 1
    decreases |done|
  {
    hide LenField;
    if done != [] {
      assert (done + [f])[1..] == done[1..] + [f];
      FieldsCloseBare(done[1..], f);
    }
  }

  function ElemOffset(elems: seq<Elem>): nat {
    if elems == [] then 0 else LenElem(elems[0]) + 1 + ElemOffset(elems[1..])
  }

  lemma {:induction false} OneMoreElem(d: Decoder, done: seq<Elem>, e: Elem, at: nat)
    ensures ElemOffset(done + [e]) == ElemOffset(done) + LenElem(e) + 1
    ensures LocateElems(d, done + [e], at) == LocateElems(d, done, at) + [LocateElem(d, e, at + ElemOffset(done))]
    decreases |done|
  {
    hide LenElem, LocateElem;
    if done == [] {
      assert done + [e] == [e];
      assert [e][1..] == [];
    } else {
      assert (done + [e])[1..] == done[1..] + [e];
      OneMoreElem(d, done[1..], e, at + LenElem(done[0]) + 1);
    }
  }

  lemma {:induction false} ElemsClose(done: seq<Elem>, gap: string)
    ensures LenElems(done, Comma(gap)) == ElemOffset(done) + |gap| + 1
    decreases |done|
  {
    hide LenElem;
    if done != [] {
      ElemsClose(done[1..], gap);
    }
  }

  lemma {:induction false} ElemsCloseBare(done: seq<Elem>, e: Elem)
    ensures LenElems(done + [e], NoComma) == ElemOffset(done) + LenElem(e) + 1
    decreases |done|
  {
    hide LenElem;
    if done != [] {
      assert (done + [e])[1..] == done[1..] + [e];
      ElemsCloseBare(done[1..], e);
    }
  }

  // ---- where a reader that has come to `i` stands ----

  /** A value read from `start` on, with the cursor just after it. */
  ghost predicate ReadsValue(d: Decoder, text: string, start: nat, depth: nat, i: nat, r: Option<Node>)
    requires start <= |text|
  {
    var f := ReadValue(d, text[start..], depth);
    if f.None? then r.None?
    else && i <= |text| && i == start + Len(f.value.got) && text[i..] == f.value.rest
         && r == Some(Locate(d, f.value.got, start))
  }

  /** A member read from `at` on, gap and all, with the cursor just after its value. */
  ghost predicate ReadsMember(d: Decoder, text: string, at: nat, depth: nat, i: nat, r: Option<Member>)
    requires at <= |text|
  {
    var f := ReadField(d, text[at..], depth);
    if f.None? then r.None?
    else && i <= |text| && i == at + ValueOffset(f.value.got) + Len(f.value.got.value)
         && GapOf(text[i..]) == f.value.got.g3 && AfterSpace(text[i..]) == f.value.rest
         && r == Some(LocateField(d, f.value.got, at))
  }

  /** Inside the object opened at `open`, between two members. */
  ghost predicate MidObject(d: Decoder, text: string, open: nat, depth: nat, i: nat, done: seq<Field>,
                            members: seq<Member>) {
    && open < i <= |text|
    && i == open + 1 + FieldOffset(done, |done|) && members == LocateFields(d, done, open + 1)
    && Continues(ReadFields(d, text[open + 1..], depth), done, ReadFields(d, text[i..], depth))
  }

  /** At the closing brace of the object opened at `open`. */
  ghost predicate EndObject(d: Decoder, text: string, open: nat, depth: nat, close: nat, done: seq<Field>,
                            trail: Trail, members: seq<Member>) {
    && open < close < |text| && close == open + LenFields(done, trail) && members == LocateFields(d, done, open + 1)
    && ReadFields(d, text[open + 1..], depth) == Some(Read((done, trail), text[close + 1..]))
  }

  lemma MidClosed(d: Decoder, text: string, open: nat, depth: nat, at: nat, i: nat, done: seq<Field>,
                  members: seq<Member>)
    requires MidObject(d, text, open, depth, at, done, members)
    requires i < |text| && i == at + SpaceLen(text[at..]) && text[i] == '}' && text[i..] == AfterSpace(text[at..])
    ensures EndObject(d, text, open, depth, i, done, Comma(GapOf(text[at..])), members)
  {
    hide ReadFields, ReadField, LocateFields, LenFields, FieldOffset, AfterSpace, SpaceLen;
    FieldsHere(d, text[at..], depth);
    AtFront(text, i);
    var gap := GapOf(text[at..]);
    FieldsClose(done, gap);
    ContinuesAll(ReadFields(d, text[open + 1..], depth), done, [], Comma(gap), text[i + 1..],
                 ReadFields(d, text[at..], depth));
    assert done + [] == done;
  }

  lemma MidComma(d: Decoder, text: string, open: nat, depth: nat, at: nat, i: nat, done: seq<Field>,
                 members: seq<Member>)
    requires MidObject(d, text, open, depth, at, done, members) && ReadField(d, text[at..], depth).Some?
    requires AfterSpace(text[at..]) != "" && AfterSpace(text[at..])[0] != '}'
    requires var f := ReadField(d, text[at..], depth).value;
             i < |text| && i == at + LenField(f.got) && text[i..] == f.rest
    ensures var f := ReadField(d, text[at..], depth).value.got;
            && (text[i] == ',' ==>
                MidObject(d, text, open, depth, i + 1, done + [f], members + [LocateField(d, f, at)]))
            && (text[i] == '}' ==>
                EndObject(d, text, open, depth, i, done + [f], NoComma, members + [LocateField(d, f, at)]))
            && (text[i] !in [',', '}'] ==> ReadFields(d, text[open + 1..], depth).None?)
  {
    hide ReadFields, ReadField, LocateFields, LenFields, FieldOffset, AfterSpace, LocateField, LenField;
    var f := ReadField(d, text[at..], depth).value.got;
    var whole, here := ReadFields(d, text[open + 1..], depth), ReadFields(d, text[at..], depth);
    FieldsHere(d, text[at..], depth);
    AtFront(text, i);
    OneMoreField(d, done, f, open + 1);
    if text[i] == ',' {
      ContinuesAfter(whole, done, f, here, ReadFields(d, text[i + 1..], depth));
    } else if text[i] == '}' {
      FieldsCloseBare(done, f);
      ContinuesAll(whole, done, [f], NoComma, text[i + 1..], here);
    }
  }

  lemma MidStuck(d: Decoder, text: string, open: nat, depth: nat, at: nat, done: seq<Field>, members: seq<Member>)
    requires MidObject(d, text, open, depth, at, done, members)
    ensures var t1 := AfterSpace(text[at..]);
            var f := ReadField(d, text[at..], depth);
            && (t1 == "" ==> ReadFields(d, text[open + 1..], depth).None?)
            && (t1 != "" && t1[0] != '}' && (f.None? || f.value.rest == "") ==>
                ReadFields(d, text[open + 1..], depth).None?)
            && (t1 != "" && t1[0] !in ['}', '"'] ==> ReadFields(d, text[open + 1..], depth).None?)
  {
    hide ReadFields, ReadField, LocateFields, LenFields, FieldOffset, AfterSpace, GapOf;
    FieldsHere(d, text[at..], depth);
  }

  /** What the character after a gap says of the object read so far. */
  lemma MidGap(d: Decoder, text: string, open: nat, depth: nat, at: nat, i: nat, done: seq<Field>, members: seq<Member>)
    requires MidObject(d, text, open, depth, at, done, members)
    requires at <= i <= |text| && i == at + SpaceLen(text[at..]) && text[i..] == AfterSpace(text[at..])
    ensures var stuck := ReadFields(d, text[open + 1..], depth).None?;
            if i == |text| then stuck
            else if text[i] == '}' then EndObject(d, text, open, depth, i, done, Comma(GapOf(text[at..])), members)
            else if text[i] != '"' then stuck
            else
              && AfterSpace(text[at..]) != "" && AfterSpace(text[at..])[0] != '}'
              && (ReadField(d, text[at..], depth).None? || ReadField(d, text[at..], depth).value.rest == "" ==> stuck)
  {
    hide *;
    MidStuck(d, text, open, depth, at, done, members);
    if i < |text| {
      AtFront(text, i);
      if text[i] == '}' {
        MidClosed(d, text, open, depth, at, i, done, members);
      }
    }
  }

  lemma ObjectRead(d: Decoder, text: string, open: nat, depth: nat)
    requires open < |text| && text[open] == '{' && depth < MAX_DEPTH
    ensures var f := ReadFields(d, text[open + 1..], depth + 1);
            ReadValue(d, text[open..], depth) ==
              if f.None? then None else Some(Read(VObject(f.value.got.0, f.value.got.1), f.value.rest))
  {
    hide ReadFields;
    AtFront(text, open);
  }

  lemma ObjectDone(d: Decoder, text: string, open: nat, depth: nat, close: nat, done: seq<Field>, trail: Trail,
                   members: seq<Member>)
    requires open < |text| && text[open] == '{' && depth < MAX_DEPTH
    requires EndObject(d, text, open, depth + 1, close, done, trail, members)
    ensures ReadsValue(d, text, open, depth, close + 1, Some(Object(open, close, members)))
  {
    hide ReadFields, ReadValue, LenFields, LocateFields;
    ObjectRead(d, text, open, depth);
  }

  lemma FieldRead(d: Decoder, t: string, depth: nat)
    ensures var key := ReadString(d, AfterSpace(t));
            if key.None? then ReadField(d, t, depth).None?
            else
              var t2 := AfterSpace(key.value.rest);
              if t2 == "" || t2[0] != ':' then ReadField(d, t, depth).None?
              else
                var value := ReadValue(d, AfterSpace(t2[1..]), depth);
                if value.None? then ReadField(d, t, depth).None?
                else
                  ReadField(d, t, depth) ==
                    Some(Read(Field(GapOf(t), key.value.got, GapOf(key.value.rest), GapOf(t2[1..]), value.value.got,
                                    GapOf(value.value.rest)),
                              AfterSpace(value.value.rest)))
  {
    hide ReadString, ReadValue, AfterSpace, GapOf;
  }

  lemma MemberDone(d: Decoder, text: string, at: nat, depth: nat, start: nat, key: nat, colon: nat, v: nat, i: nat,
                   node: Node)
    requires at <= start <= key <= colon < v <= |text|
    requires start == at + SpaceLen(text[at..]) && text[start..] == AfterSpace(text[at..])
    requires var k := ReadString(d, text[start..]);
             k.Some? && key == start + |k.value.got| && text[key..] == k.value.rest
    requires colon == key + SpaceLen(text[key..]) && text[colon..] == AfterSpace(text[key..]) && text[colon] == ':'
    requires v == colon + 1 + SpaceLen(text[colon + 1..]) && text[v..] == AfterSpace(text[colon + 1..])
    requires ReadsValue(d, text, v, depth, i, Some(node))
    ensures ReadsMember(d, text, at, depth, i,
                        Some(Member(Decoded(d, ReadString(d, text[start..]).value.got), start, i, node)))
  {
    hide ReadString, ReadValue, ReadField, Locate, SpaceLen, AfterSpace, Len;
    FieldRead(d, text[at..], depth);
    AtFront(text, colon);
  }

  lemma NoValue(d: Decoder, text: string, at: nat, depth: nat, i: nat)
    requires at <= |text|
    ensures ReadValue(d, text[at..], depth).None? <==> ReadsValue(d, text, at, depth, i, None)
  { }

  // The same for lists.

  ghost predicate MidArray(d: Decoder, text: string, open: nat, depth: nat, i: nat, done: seq<Elem>, items: seq<Item>) {
    && open < i <= |text|
    && i == open + 1 + ElemOffset(done) && items == LocateElems(d, done, open + 1)
    && Continues(ReadElems(d, text[open + 1..], depth), done, ReadElems(d, text[i..], depth))
  }

  ghost predicate EndArray(d: Decoder, text: string, open: nat, depth: nat, close: nat, done: seq<Elem>, trail: Trail,
                           items: seq<Item>) {
    && open < close < |text| && close == open + LenElems(done, trail) && items == LocateElems(d, done, open + 1)
    && ReadElems(d, text[open + 1..], depth) == Some(Read((done, trail), text[close + 1..]))
  }

  /** An item read from `at` on, gap and all, with the cursor just after its value. */
  ghost predicate ReadsItem(d: Decoder, text: string, at: nat, depth: nat, i: nat, r: Option<Item>)
    requires at <= |text|
  {
    var e := ReadElem(d, text[at..], depth);
    if e.None? then r.None?
    else && i <= |text| && i == at + |e.value.got.g0| + Len(e.value.got.value)
         && GapOf(text[i..]) == e.value.got.g1 && AfterSpace(text[i..]) == e.value.rest
         && r == Some(LocateElem(d, e.value.got, at))
  }

  lemma ItemDone(d: Decoder, text: string, at: nat, depth: nat, v: nat, i: nat, node: Option<Node>)
    requires at <= v <= |text| && v == at + SpaceLen(text[at..]) && text[v..] == AfterSpace(text[at..])
    requires ReadsValue(d, text, v, depth, i, node)
    ensures ReadsItem(d, text, at, depth, i, if node.None? then None else Some(Item(v, i, node.value)))
  {
    hide ReadValue, Locate, SpaceLen, AfterSpace, Len;
  }

  lemma MidArrayClosed(d: Decoder, text: string, open: nat, depth: nat, at: nat, i: nat, done: seq<Elem>,
                       items: seq<Item>)
    requires MidArray(d, text, open, depth, at, done, items)
    requires i < |text| && i == at + SpaceLen(text[at..]) && text[i] == ']' && text[i..] == AfterSpace(text[at..])
    ensures EndArray(d, text, open, depth, i, done, Comma(GapOf(text[at..])), items)
  {
    hide ReadElems, ReadElem, LocateElems, LenElems, ElemOffset, AfterSpace, SpaceLen;
    ElemsHere(d, text[at..], depth);
    AtFront(text, i);
    var gap := GapOf(text[at..]);
    ElemsClose(done, gap);
    ContinuesAll(ReadElems(d, text[open + 1..], depth), done, [], Comma(gap), text[i + 1..],
                 ReadElems(d, text[at..], depth));
    assert done + [] == done;
  }

  lemma MidArrayComma(d: Decoder, text: string, open: nat, depth: nat, at: nat, i: nat, done: seq<Elem>,
                      items: seq<Item>)
    requires MidArray(d, text, open, depth, at, done, items) && ReadElem(d, text[at..], depth).Some?
    requires AfterSpace(text[at..]) != "" && AfterSpace(text[at..])[0] != ']'
    requires var e := ReadElem(d, text[at..], depth).value;
             i < |text| && i == at + LenElem(e.got) && text[i..] == e.rest
    ensures var e := ReadElem(d, text[at..], depth).value.got;
            && (text[i] == ',' ==> MidArray(d, text, open, depth, i + 1, done + [e], items + [LocateElem(d, e, at)]))
            && (text[i] == ']' ==>
                EndArray(d, text, open, depth, i, done + [e], NoComma, items + [LocateElem(d, e, at)]))
            && (text[i] !in [',', ']'] ==> ReadElems(d, text[open + 1..], depth).None?)
  {
    hide ReadElems, ReadElem, LocateElems, LenElems, ElemOffset, AfterSpace, LocateElem, LenElem;
    var e := ReadElem(d, text[at..], depth).value.got;
    var whole, here := ReadElems(d, text[open + 1..], depth), ReadElems(d, text[at..], depth);
    ElemsHere(d, text[at..], depth);
    AtFront(text, i);
    OneMoreElem(d, done, e, open + 1);
    if text[i] == ',' {
      ContinuesAfter(whole, done, e, here, ReadElems(d, text[i + 1..], depth));
    } else if text[i] == ']' {
      ElemsCloseBare(done, e);
      ContinuesAll(whole, done, [e], NoComma, text[i + 1..], here);
    }
  }

  lemma MidArrayStuck(d: Decoder, text: string, open: nat, depth: nat, at: nat, done: seq<Elem>, items: seq<Item>)
    requires MidArray(d, text, open, depth, at, done, items)
    ensures var t1 := AfterSpace(text[at..]);
            var e := ReadElem(d, text[at..], depth);
            && (t1 == "" ==> ReadElems(d, text[open + 1..], depth).None?)
            && (t1 != "" && t1[0] != ']' && (e.None? || e.value.rest == "") ==>
                ReadElems(d, text[open + 1..], depth).None?)
  {
    hide ReadElems, ReadElem, LocateElems, LenElems, ElemOffset, AfterSpace, GapOf;
    ElemsHere(d, text[at..], depth);
  }

  lemma ArrayRead(d: Decoder, text: string, open: nat, depth: nat)
    requires open < |text| && text[open] == '[' && depth < MAX_DEPTH
    ensures var e := ReadElems(d, text[open + 1..], depth + 1);
            ReadValue(d, text[open..], depth) ==
              if e.None? then None else Some(Read(VArray(e.value.got.0, e.value.got.1), e.value.rest))
  {
    hide ReadElems;
    AtFront(text, open);
  }

  lemma ArrayDone(d: Decoder, text: string, open: nat, depth: nat, close: nat, done: seq<Elem>, trail: Trail,
                  items: seq<Item>)
    requires open < |text| && text[open] == '[' && depth < MAX_DEPTH
    requires EndArray(d, text, open, depth + 1, close, done, trail, items)
    ensures ReadsValue(d, text, open, depth, close + 1, Some(Array(items)))
  {
    hide ReadElems, ReadValue, LenElems, LocateElems;
    ArrayRead(d, text, open, depth);
  }

  lemma NoObject(d: Decoder, text: string, open: nat, depth: nat)
    requires open < |text| && text[open] == '{' && depth < MAX_DEPTH
    ensures ReadFields(d, text[open + 1..], depth + 1).None? ==>
            forall i: nat :: ReadsValue(d, text, open, depth, i, None)
  {
    hide ReadFields, ReadValue;
    ObjectRead(d, text, open, depth);
  }

  lemma NoArray(d: Decoder, text: string, open: nat, depth: nat)
    requires open < |text| && text[open] == '[' && depth < MAX_DEPTH
    ensures ReadElems(d, text[open + 1..], depth + 1).None? ==>
            forall i: nat :: ReadsValue(d, text, open, depth, i, None)
  {
    hide ReadElems, ReadValue;
    ArrayRead(d, text, open, depth);
  }

  lemma MidObjectFirst(d: Decoder, text: string, open: nat, depth: nat)
    requires open < |text|
    ensures MidObject(d, text, open, depth, open + 1, [], [])
  {
    var whole := ReadFields(d, text[open + 1..], depth);
    if whole.Some? {
      assert [] + whole.value.got.0 == whole.value.got.0;
    }
  }

  lemma MidArrayFirst(d: Decoder, text: string, open: nat, depth: nat)
    requires open < |text|
    ensures MidArray(d, text, open, depth, open + 1, [], [])
  {
    var whole := ReadElems(d, text[open + 1..], depth);
    if whole.Some? {
      assert [] + whole.value.got.0 == whole.value.got.0;
    }
  }

  lemma MemberIs(d: Decoder, text: string, at: nat, depth: nat, i: nat, r: Option<Member>)
    requires at <= |text| && ReadsMember(d, text, at, depth, i, r)
    ensures var f := ReadField(d, text[at..], depth);
            && (r.None? <==> f.None?)
            && (r.Some? ==>
                i <= |text| && r.value == LocateField(d, f.value.got, at) && AfterSpace(text[i..]) == f.value.rest
                            && i + SpaceLen(text[i..]) == at + LenField(f.value.got))
  {
    hide ReadField, LocateField, AfterSpace, SpaceLen;
  }

  lemma ItemIs(d: Decoder, text: string, at: nat, depth: nat, i: nat, r: Option<Item>)
    requires at <= |text| && ReadsItem(d, text, at, depth, i, r)
    ensures var e := ReadElem(d, text[at..], depth);
            && (r.None? <==> e.None?)
            && (r.Some? ==>
                i <= |text| && r.value == LocateElem(d, e.value.got, at) && AfterSpace(text[i..]) == e.value.rest
                            && i + SpaceLen(text[i..]) == at + LenElem(e.value.got))
  {
    hide ReadElem, LocateElem, AfterSpace, SpaceLen;
  }

  lemma EmptyGap(t: string)
    ensures |AfterSpace(t)| == |t| - SpaceLen(t)
  { }

  lemma WordRead(d: Decoder, text: string, start: nat, depth: nat)
    requires start < |text| && text[start] !in ['{', '[', '"']
    ensures var t := text[start..];
            if "true" <= t then start + 4 <= |text| && ReadsValue(d, text, start, depth, start + 4, Some(Bool))
            else if "false" <= t then start + 5 <= |text| && ReadsValue(d, text, start, depth, start + 5, Some(Bool))
            else if "null" <= t then start + 4 <= |text| && ReadsValue(d, text, start, depth, start + 4, Some(Null))
            else
              var n := NumberLen(t);
              ReadsValue(d, text, start, depth, start + n, if d.isNumber(t[..n]) then Some(Number) else None)
  {
    hide NumberLen;
    AtFront(text, start);
    var t := text[start..];
    if "true" <= t || ("null" <= t && !("false" <= t)) {
      DropDrop(text, start, 4);
    } else if "false" <= t {
      DropDrop(text, start, 5);
    } else {
      NumberWithin(t);
      DropDrop(text, start, NumberLen(t));
    }
  }

  lemma NumberWithin(t: string)
    ensures NumberLen(t) <= |t|
  { }

  lemma NumberStep(t: string)
    ensures t != "" && IsNumberChar(t[0]) ==> NumberLen(t) == 1 + NumberLen(t[1..])
    ensures t == "" || !IsNumberChar(t[0]) ==> NumberLen(t) == 0
  { }

  lemma NumberMore(text: string, start: nat, i: nat)
    requires start <= i <= |text|
    ensures NumberLen(text[start..]) == i - start + NumberLen(text[i..]) ==>
              if i < |text| && IsNumberChar(text[i]) then
                  NumberLen(text[start..]) == i + 1 - start + NumberLen(text[i + 1..])
              else NumberLen(text[start..]) == i - start
    ensures text[start..][..i - start] == text[start..i]
  {
    hide NumberLen, IsNumberChar;
    NumberStep(text[i..]);
    if i < |text| {
      AtFront(text, i);
    }
    DropTake(text, start, i - start);
  }

  lemma TextRead(d: Decoder, text: string, start: nat, depth: nat, i: nat, r: Option<string>)
    requires start < |text| && text[start] == '"'
    requires var f := ReadString(d, text[start..]);
             if f.None? then r.None?
             else && i <= |text| && i == start + |f.value.got| && text[i..] == f.value.rest
                  && r == Some(Decoded(d, f.value.got))
    ensures ReadsValue(d, text, start, depth, i, if r.None? then None else Some(Text(r.value)))
  {
    hide ReadString;
    AtFront(text, start);
  }

  lemma NothingRead(d: Decoder, text: string, start: nat, depth: nat)
    requires start <= |text|
    ensures start == |text| || (text[start] in ['{', '['] && depth >= MAX_DEPTH) ==>
            ReadsValue(d, text, start, depth, start, None)
  {
    if start < |text| {
      AtFront(text, start);
    }
  }

  lemma TreeRead(d: Decoder, text: string, b: nat, start: nat, end: nat, node: Option<Node>)
    requires b == (if text != "" && text[0] == BOM then 1 else 0) && b <= |text|
    requires b <= start <= |text| && start == b + SpaceLen(text[b..]) && text[start..] == AfterSpace(text[b..])
    requires ReadsValue(d, text, start, 0, end, node)
    ensures node.None? ==> ReadTree(d, text).None?
    ensures node.Some? ==> end <= |text| && ReadTree(d, text) == if AfterSpace(text[end..]) == "" then node else None
  {
    hide ReadValue, Locate, SpaceLen, AfterSpace, Len;
  }

  // ---- the cursor ----

  lemma ReadStringIs(d: Decoder, t: string)
    requires t != "" && t[0] == '"'
    ensures var n := StringBody(t[1..]);
            ReadString(d, t) ==
              if n.None? || d.decode(t[..1 + n.value]).None? then None
                  else Some(Read(t[..1 + n.value], t[1 + n.value..]))
  { }

  /** The string that begins at `start`, once its closing quote is found or missed. */
  lemma StringRead(d: Decoder, text: string, start: nat)
    requires start < |text| && text[start] == '"'
    ensures var n := StringBody(text[start + 1..]);
            var f := ReadString(d, text[start..]);
            && (n.None? ==> f.None?)
            && (n.Some? && start + 1 + n.value <= |text| ==>
                  var end := start + 1 + n.value;
                  if d.decode(text[start..end]).None? then f.None?
                  else
                    && f == Some(Read(text[start..end], text[end..]))
                    && d.decode(text[start..end]) == Some(Decoded(d, text[start..end])))
  {
    hide StringBody, ReadString;
    AtFront(text, start);
    ReadStringIs(d, text[start..]);
    var n := StringBody(text[start + 1..]);
    if n.Some? && start + 1 + n.value <= |text| {
      DropTake(text, start, 1 + n.value);
      DropDrop(text, start, 1 + n.value);
    }
  }

  lemma GapStep(t: string)
    ensures t != "" && IsSpace(t[0]) ==> SpaceLen(t) == 1 + SpaceLen(t[1..])
    ensures (t == "" || !IsSpace(t[0])) && StartsLine(t) ==>
            0 < LineEnd(t) <= |t| && SpaceLen(t) == LineEnd(t) + SpaceLen(t[LineEnd(t)..])
    ensures (t == "" || !IsSpace(t[0])) && !StartsLine(t) && StartsBlock(t) ==>
              |t| >= 2 && SpaceLen(t) == 2 + BlockEnd(t[2..]) + SpaceLen(t[2 + BlockEnd(t[2..])..])
    ensures (t == "" || !IsSpace(t[0])) && !StartsLine(t) && !StartsBlock(t) ==> SpaceLen(t) == 0
  { }

  lemma GapMore(text: string, i: nat)
    requires i <= |text|
    ensures var here := SpaceLen(text[i..]);
            if i < |text| && IsSpace(text[i]) then here == 1 + SpaceLen(text[i + 1..])
            else if StartsLine(text[i..]) then
              var n := LineEnd(text[i..]); 0 < n && i + n <= |text| && here == n + SpaceLen(text[i + n..])
            else if StartsBlock(text[i..]) then
              i + 2 <= |text|
              && var n := 2 + BlockEnd(text[i + 2..]); i + n <= |text| && here == n + SpaceLen(text[i + n..])
            else here == 0
  {
    hide SpaceLen, LineEnd, BlockEnd, IsSpace, StartsLine, StartsBlock;
    GapStep(text[i..]);
    if i < |text| {
      AtFront(text, i);
    }
    if i < |text| && IsSpace(text[i]) {
    } else if StartsLine(text[i..]) {
      DropDrop(text, i, LineEnd(text[i..]));
    } else if StartsBlock(text[i..]) {
      DropDrop(text, i, 2);
      DropDrop(text, i, 2 + BlockEnd(text[i + 2..]));
    }
  }

  lemma GapEnds(text: string, start: nat, i: nat)
    requires start <= i <= |text| && SpaceLen(text[start..]) == i - start
    ensures text[i..] == AfterSpace(text[start..]) && text[start..i] == GapOf(text[start..])
  {
    hide SpaceLen;
    DropDrop(text, start, i - start);
    DropTake(text, start, i - start);
  }

  /** A length counted from `past` characters earlier. */
  function Shifted(n: Option<nat>, past: nat): Option<nat> {
    if n.None? then None else Some(past + n.value)
  }

  lemma StringStep(t: string)
    ensures t == "" ==> StringBody(t).None?
    ensures t != "" && t[0] == '"' ==> StringBody(t) == Some(1)
    ensures t != "" && t[0] == '\\' ==> StringBody(t) == if |t| < 2 then None else Shifted(StringBody(t[2..]), 2)
    ensures t != "" && t[0] != '"' && t[0] != '\\' ==> StringBody(t) == Shifted(StringBody(t[1..]), 1)
  { }

  class Scan {
    const text: string
    const d: Decoder
    var i: nat
    /** Objects and lists open around the current position. */
    var depth: nat

    constructor (d: Decoder, text: string)
      ensures this.d == d && this.text == text && depth == 0
      ensures i == if text != "" && text[0] == BOM then 1 else 0
    {
      this.d, this.text := d, text;
      i := if text != "" && text[0] == BOM then 1 else 0;
      depth := 0;
    }

    method Space()
      requires i <= |text|
      modifies this`i
      ensures i == old(i) + SpaceLen(text[old(i)..]) <= |text|
      ensures text[i..] == AfterSpace(text[old(i)..]) && text[old(i)..i] == GapOf(text[old(i)..])
    {
      hide *;
      ghost var start := i;
      while true
        invariant start <= i <= |text|
        invariant SpaceLen(text[start..]) == i - start + SpaceLen(text[i..])
        decreases |text| - i
      {
        GapMore(text, i);
        if i < |text| && IsSpace(text[i]) {
          i := i + 1;
        } else if StartsLine(text[i..]) {
          i := i + LineEnd(text[i..]);
        } else if StartsBlock(text[i..]) {
          i := i + 2 + BlockEnd(text[i + 2..]);
        } else {
          break;
        }
      }
      GapEnds(text, start, i);
    }

    /** To just after the closing quote, or past the end of a text that has none. */
    method ToClosingQuote() returns (closed: bool)
      requires i < |text|
      modifies this`i
      ensures closed <==> StringBody(text[old(i) + 1..]).Some?
      ensures closed ==> i == old(i) + 1 + StringBody(text[old(i) + 1..]).value <= |text|
    {
      hide StringBody;
      ghost var body := StringBody(text[i + 1..]);
      ghost var start := i + 1;
      i := i + 1;
      while true
        invariant start <= i
        invariant i > |text| ==> body.None?
        invariant i <= |text| ==> body == Shifted(StringBody(text[i..]), i - start)
        decreases |text| + 1 - i
      {
        if i <= |text| {
          StringStep(text[i..]);
        }
        if i >= |text| {
          return false;
        }
        AtFront(text, i);
        if text[i] == '\\' {
          if i + 2 <= |text| {
            DropDrop(text, i, 2);
          }
          i := i + 2;
        } else if text[i] == '"' {
          i := i + 1;
          return true;
        } else {
          i := i + 1;
        }
      }
    }

    method String() returns (r: Option<string>)
      requires i < |text| && text[i] == '"'
      modifies this`i
      ensures var f := ReadString(d, text[old(i)..]);
              if f.None? then r.None?
              else && i <= |text| && i == old(i) + |f.value.got| && text[i..] == f.value.rest
                   && r == Some(Decoded(d, f.value.got))
    {
      hide *;
      var start := i;
      StringRead(d, text, start);
      var closed := ToClosingQuote();
      if !closed {
        return None;
      }
      r := d.decode(text[start..i]);
    }

    /** One member and the gap after it; the gap before it begins at `at`. */
    method MemberHere(ghost at: nat) returns (r: Option<Member>)
      requires at <= i < |text| && i == at + SpaceLen(text[at..]) && text[i..] == AfterSpace(text[at..])
      requires text[i] == '"'
      modifies this
      ensures depth == old(depth)
      ensures var f := ReadField(d, text[at..], old(depth));
              if f.None? then r.None?
              else && i <= |text| && i == at + LenField(f.value.got) && text[i..] == f.value.rest
                   && r == Some(LocateField(d, f.value.got, at))
      decreases |text| - i, 2
    {
      hide *;
      var start := i;
      ghost var t := text[at..];
      FieldRead(d, t, depth);
      var key := String();
      ghost var keyEnd := i;
      if key.None? {
        return None;
      }
      Space();
      ghost var colon := i;
      if i >= |text| || text[i] != ':' {
        return None;
      }
      AtFront(text, i);
      i := i + 1;
      Space();
      ghost var v := i;
      var value := Value();
      if value.None? {
        NoValue(d, text, v, depth, i);
        return None;
      }
      r := Some(Member(key.value, start, i, value.value));
      MemberDone(d, text, at, depth, start, keyEnd, colon, v, i, value.value);
      MemberIs(d, text, at, depth, i, r);
      Space();
    }

    /** An object's members, from its opening brace to just after its closing one. */
    method ObjectHere() returns (r: Option<Node>)
      requires i < |text| && text[i] == '{' && 0 < depth <= MAX_DEPTH
      modifies this
      ensures depth == old(depth)
      ensures ReadsValue(d, text, old(i), old(depth) - 1, i, r)
      decreases |text| - i, 0
    {
      hide *;
      var open := i;
      i := i + 1;
      var members: seq<Member> := [];
      ghost var done: seq<Field> := [];
      ghost var trail := NoComma;
      MidObjectFirst(d, text, open, depth);
      NoObject(d, text, open, depth - 1);
      while true
        invariant depth == old(depth)
        invariant MidObject(d, text, open, depth, i, done, members)
        invariant open < i <= |text|
        decreases |text| - i
      {
        ghost var at := i;
        Space();
        MidGap(d, text, open, depth, at, i, done, members);
        if i >= |text| {
          return None;
        }
        if text[i] == '}' {
          trail := Comma(GapOf(text[at..]));
          break;
        }
        if text[i] != '"' {
          return None;
        }
        var member := MemberHere(at);
        if member.None? || i >= |text| {
          return None;
        }
        MidComma(d, text, open, depth, at, i, done, members);
        members := members + [member.value];
        done := done + [ReadField(d, text[at..], depth).value.got];
        if text[i] == ',' {
          i := i + 1;
        } else if text[i] == '}' {
          break;
        } else {
          return None;
        }
      }
      var close := i;
      i := i + 1;
      ObjectDone(d, text, open, depth - 1, close, done, trail, members);
      r := Some(Object(open, close, members));
    }

    /** One item and the gap after it; the gap before it begins at `at`. */
    method ItemHere(ghost at: nat) returns (r: Option<Item>)
      requires at <= i < |text| && i == at + SpaceLen(text[at..]) && text[i..] == AfterSpace(text[at..])
      modifies this
      ensures depth == old(depth)
      ensures var e := ReadElem(d, text[at..], old(depth));
              if e.None? then r.None?
              else && i <= |text| && i == at + LenElem(e.value.got) && text[i..] == e.value.rest
                   && r == Some(LocateElem(d, e.value.got, at))
      decreases |text| - i, 3
    {
      hide *;
      var start := i;
      var value := Value();
      r := if value.None? then None else Some(Item(start, i, value.value));
      ItemDone(d, text, at, depth, start, i, value);
      ItemIs(d, text, at, depth, i, r);
      if r.Some? {
        Space();
      }
    }

    /** A list's items, from its opening bracket to just after its closing one. */
    method ArrayHere() returns (r: Option<Node>)
      requires i < |text| && text[i] == '[' && 0 < depth <= MAX_DEPTH
      modifies this
      ensures depth == old(depth)
      ensures ReadsValue(d, text, old(i), old(depth) - 1, i, r)
      decreases |text| - i, 0
    {
      hide *;
      ghost var open := i;
      i := i + 1;
      var items: seq<Item> := [];
      ghost var done: seq<Elem> := [];
      ghost var trail := NoComma;
      MidArrayFirst(d, text, open, depth);
      NoArray(d, text, open, depth - 1);
      while true
        invariant depth == old(depth)
        invariant MidArray(d, text, open, depth, i, done, items)
        invariant open < i <= |text|
        decreases |text| - i
      {
        ghost var at := i;
        MidArrayStuck(d, text, open, depth, at, done, items);
        EmptyGap(text[at..]);
        Space();
        if i >= |text| {
          return None;
        }
        AtFront(text, i);
        if text[i] == ']' {
          trail := Comma(GapOf(text[at..]));
          MidArrayClosed(d, text, open, depth, at, i, done, items);
          break;
        }
        var item := ItemHere(at);
        if item.None? || i >= |text| {
          return None;
        }
        MidArrayComma(d, text, open, depth, at, i, done, items);
        items := items + [item.value];
        done := done + [ReadElem(d, text[at..], depth).value.got];
        if text[i] == ',' {
          i := i + 1;
        } else if text[i] == ']' {
          break;
        } else {
          return None;
        }
      }
      ArrayDone(d, text, open, depth - 1, i, done, trail, items);
      i := i + 1;
      r := Some(Array(items));
    }

    /** A word or a number. */
    method WordHere() returns (r: Option<Node>)
      requires i < |text| && text[i] !in ['{', '[', '"']
      modifies this`i
      ensures ReadsValue(d, text, old(i), depth, i, r)
    {
      hide *;
      var start := i;
      WordRead(d, text, start, depth);
      if "true" <= text[i..] {
        i := i + 4;
        return Some(Bool);
      }
      if "false" <= text[i..] {
        i := i + 5;
        return Some(Bool);
      }
      if "null" <= text[i..] {
        i := i + 4;
        return Some(Null);
      }
      while i < |text| && IsNumberChar(text[i])
        invariant start <= i <= |text|
        invariant NumberLen(text[start..]) == i - start + NumberLen(text[i..])
        decreases |text| - i
      {
        NumberMore(text, start, i);
        i := i + 1;
      }
      NumberMore(text, start, i);
      r := if d.isNumber(text[start..i]) then Some(Number) else None;
    }

    method ValueHere() returns (r: Option<Node>)
      requires i < |text| && (text[i] in ['{', '['] ==> 0 < depth <= MAX_DEPTH)
      modifies this
      ensures depth == old(depth)
      ensures ReadsValue(d, text, old(i), if text[old(i)] in ['{', '['] then old(depth) - 1 else old(depth), i, r)
      decreases |text| - i, 1
    {
      hide *;
      if text[i] == '{' {
        r := ObjectHere();
      } else if text[i] == '[' {
        r := ArrayHere();
      } else if text[i] == '"' {
        var start := i;
        var got := String();
        TextRead(d, text, start, depth, i, got);
        r := if got.None? then None else Some(Text(got.value));
      } else {
        r := WordHere();
      }
    }

    /** One value, refusing to nest deeper than the limit. */
    method Value() returns (r: Option<Node>)
      requires i <= |text|
      modifies this
      ensures depth == old(depth)
      ensures ReadsValue(d, text, old(i), old(depth), i, r)
      decreases |text| - i, 2
    {
      hide *;
      NothingRead(d, text, i, depth);
      if i >= |text| {
        return None;
      }
      var nests := text[i] in ['{', '['];
      if nests {
        if depth >= MAX_DEPTH {
          return None;
        }
        depth := depth + 1;
      }
      r := ValueHere();
      if nests {
        depth := depth - 1;
      }
    }
  }

  /** The whole text as one value with nothing but gaps around it. */
  method ReadWhole(d: Decoder, text: string) returns (r: Option<Node>)
    ensures r == ReadTree(d, text)
  {
    hide *;
    var scan := new Scan(d, text);
    ghost var b := scan.i;
    scan.Space();
    ghost var start := scan.i;
    var node := scan.Value();
    ghost var end := scan.i;
    TreeRead(d, text, b, start, end, node);
    if node.None? {
      return None;
    }
    scan.Space();
    EmptyGap(text[end..]);
    r := if scan.i == |text| then node else None;
  }
}
