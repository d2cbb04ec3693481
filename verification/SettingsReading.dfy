/** Reading and printing settings text undo each other. */
module SettingsReading {
  import opened Options
  import opened SettingsSyntax

  // ---- tokens ----

  lemma ReadGap(g: string, rest: string)
    requires ClosedGap(g) && Stops(rest)
    ensures AfterSpace(g + rest) == rest && GapOf(g + rest) == g
  {
    SpaceAppend(g, rest);
  }

  lemma GapSplits(t: string)
    requires AfterSpace(t) != ""
    ensures ClosedGap(GapOf(t)) && t == GapOf(t) + AfterSpace(t) && !IsSpace(AfterSpace(t)[0])
  {
    SpaceTake(t);
  }

  lemma ReadStringToken(d: Decoder, s: string, rest: string)
    requires ClosedString(s) && d.decode(s).Some?
    ensures ReadString(d, s + rest) == Some(Read(s, rest))
  {
    var t := s + rest;
    assert t[1..] == s[1..] + rest;
    StringAppend(s[1..], rest);
    assert t[..|s|] == s && t[|s|..] == rest;
  }

  lemma StringSplits(d: Decoder, t: string)
    requires ReadString(d, t).Some?
    ensures var r := ReadString(d, t).value;
            t == r.got + r.rest && ClosedString(r.got) && d.decode(r.got).Some?
  {
    var n := StringBody(t[1..]).value;
    StringTake(t[1..]);
    assert t[..1 + n][1..] == t[1..][..n];
    assert t == t[..1 + n] + t[1 + n..];
  }

  // ---- what is printed is read back ----

  lemma ValueStarts(d: Decoder, v: Value, depth: nat, k: string)
    requires WellFormed(d, v, depth)
    ensures Print(v, k) != "" && Stops(Print(v, k)) && Print(v, k)[0] != ']'
  {
    if v.VNumber? {
      assert v.raw[0] in v.raw;
    }
  }

  lemma GapEndsNumber(g: string, k: string)
    requires ClosedGap(g) && NumberStops(k)
    ensures NumberStops(g + k)
  {
    if g == "" {
      assert g + k == k;
    }
  }

  lemma ReadNumberToken(d: Decoder, raw: string, depth: nat, k: string)
    requires WellFormed(d, VNumber(raw), depth) && NumberStops(k)
    ensures ReadValue(d, raw + k, depth) == Some(Read(VNumber(raw), k))
  {
    var t := raw + k;
    NumberAppend(raw, k);
    assert IsNumberChar(raw[0]) by {
      assert raw[0] in raw;
    }
    assert t[0] == raw[0];
    assert t[..|raw|] == raw && t[|raw|..] == k;
    assert !("true" <= t) && !("false" <= t) && !("null" <= t);
  }

  lemma ReadWordToken(d: Decoder, word: string, depth: nat, k: string)
    requires IsWord(word)
    ensures ReadValue(d, word + k, depth) == Some(Read(VWord(word), k))
  {
    var t := word + k;
    assert word <= t && t[|word|..] == k;
    assert t[0] == word[0];
  }

  lemma {:induction false} ReadPrinted(d: Decoder, v: Value, depth: nat, k: string)
    requires Sane(d) && WellFormed(d, v, depth) && NumberStops(k)
    ensures ReadValue(d, Print(v, k), depth) == Some(Read(v, k))
    decreases v, 0
  {
    var t := Print(v, k);
    match v
    case VObject(fields, trail) =>
      ReadPrintedFields(d, fields, trail, depth + 1, k);
      assert t[1..] == PrintFields(fields, trail, k);
    case VArray(elems, trail) =>
      ReadPrintedElems(d, elems, trail, depth + 1, k);
      assert t[1..] == PrintElems(elems, trail, k);
    case VText(raw) => ReadStringToken(d, raw, k);
    case VWord(word) => ReadWordToken(d, word, depth, k);
    case VNumber(raw) => ReadNumberToken(d, raw, depth, k);
  }

  /** What comes after a member's or an item's last gap. */
  ghost predicate Punctuated(k: string) {
    k != "" && (k[0] == '}' || k[0] == ']' || k[0] == ',')
  }

  /** A member is read piece by piece: key, colon and value, each after its gap. */
  lemma ReadFieldBy(d: Decoder, t: string, depth: nat, key: string, afterKey: string, afterColon: string, v: Value,
                    afterValue: string)
    requires ReadString(d, AfterSpace(t)) == Some(Read(key, afterKey))
    requires AfterSpace(afterKey) == ":" + afterColon
    requires ReadValue(d, AfterSpace(afterColon), depth) == Some(Read(v, afterValue))
    ensures ReadField(d, t, depth) ==
            Some(Read(Field(GapOf(t), key, GapOf(afterKey), GapOf(afterColon), v, GapOf(afterValue)),
                      AfterSpace(afterValue)))
  {
    hide ReadValue, ReadString, AfterSpace, GapOf;
    assert (":" + afterColon)[1..] == afterColon;
  }

  lemma FieldPrinted(f: Field, k: string)
    ensures PrintField(f, k) == f.g0 + (f.key + (f.g1 + (":" + (f.g2 + Print(f.value, f.g3 + k)))))
  { }

  lemma GoodParts(d: Decoder, f: Field, depth: nat)
    requires GoodField(d, f, depth)
    ensures ClosedGap(f.g0) && ClosedGap(f.g1) && ClosedGap(f.g2) && ClosedGap(f.g3)
    ensures ClosedString(f.key) && d.decode(f.key).Some? && WellFormed(d, f.value, depth)
    ensures forall k :: (f.key + k)[0] == '"' && Stops(f.key + k) && Stops(":" + k)
  { }

  lemma PunctuatedStops(k: string)
    requires Punctuated(k)
    ensures Stops(k)
  { }

  /** A member is read up to what ends it. */
  lemma ReadPrintedField(d: Decoder, f: Field, depth: nat, k: string)
    requires Sane(d) && GoodField(d, f, depth) && Punctuated(k)
    requires ReadValue(d, Print(f.value, f.g3 + k), depth) == Some(Read(f.value, f.g3 + k))
    ensures var t := PrintField(f, k);
            && AfterSpace(t) != "" && AfterSpace(t)[0] == '"'
            && ReadField(d, t, depth) == Some(Read(f, k))
  {
    hide *;
    var value := Print(f.value, f.g3 + k);
    var afterColon := f.g2 + value;
    var afterKey := f.g1 + (":" + afterColon);
    GoodParts(d, f, depth);
    FieldPrinted(f, k);
    ValueStarts(d, f.value, depth, f.g3 + k);
    PunctuatedStops(k);
    ReadGap(f.g0, f.key + afterKey);
    ReadStringToken(d, f.key, afterKey);
    ReadGap(f.g1, ":" + afterColon);
    ReadGap(f.g2, value);
    ReadGap(f.g3, k);
    ReadFieldBy(d, PrintField(f, k), depth, f.key, afterKey, afterColon, f.value, f.g3 + k);
  }

  lemma ReadPrintedElem(d: Decoder, e: Elem, depth: nat, k: string)
    requires Sane(d) && GoodElem(d, e, depth) && Punctuated(k)
    requires ReadValue(d, Print(e.value, e.g1 + k), depth) == Some(Read(e.value, e.g1 + k))
    ensures var t := PrintElem(e, k);
            && AfterSpace(t) != "" && AfterSpace(t)[0] != ']'
            && ReadElem(d, t, depth) == Some(Read(e, k))
  {
    hide ReadValue, Print;
    ValueStarts(d, e.value, depth, e.g1 + k);
    ReadGap(e.g0, Print(e.value, e.g1 + k));
    ReadGap(e.g1, k);
  }

  lemma ReadPrintedTrail(d: Decoder, trail: Trail, depth: nat, k: string)
    requires trail.Comma? && ClosedGap(trail.gap)
    ensures ReadFields(d, PrintFields([], trail, k), depth) == Some(Read(([], trail), k))
    ensures ReadElems(d, PrintElems([], trail, k), depth) == Some(Read(([], trail), k))
  {
    ReadGap(trail.gap, "}" + k);
    ReadGap(trail.gap, "]" + k);
    assert ("}" + k)[1..] == k && ("]" + k)[1..] == k;
  }

  /** What follows the first of some members. */
  function AfterFirstField(fields: seq<Field>, trail: Trail, k: string): string
    requires fields != []
  {
    if |fields| == 1 && trail.NoComma? then "}" + k else "," + PrintFields(fields[1..], trail, k)
  }

  function AfterFirstElem(elems: seq<Elem>, trail: Trail, k: string): string
    requires elems != []
  {
    if |elems| == 1 && trail.NoComma? then "]" + k else "," + PrintElems(elems[1..], trail, k)
  }

  lemma ReadFieldsStep(d: Decoder, fields: seq<Field>, trail: Trail, depth: nat, k: string)
    requires fields != []
    requires ReadField(d, PrintFields(fields, trail, k), depth) ==
             Some(Read(fields[0], AfterFirstField(fields, trail, k)))
    requires AfterSpace(PrintFields(fields, trail, k)) != "" && AfterSpace(PrintFields(fields, trail, k))[0] == '"'
    requires (|fields| == 1 && trail.NoComma?) || ReadFields(d, PrintFields(fields[1..], trail, k), depth) ==
             Some(Read((fields[1..], trail), k))
    ensures ReadFields(d, PrintFields(fields, trail, k), depth) == Some(Read((fields, trail), k))
  {
    hide ReadField, PrintFields, AfterSpace, GapOf;
    var end := AfterFirstField(fields, trail, k);
    assert fields == [fields[0]] + fields[1..];
    if |fields| == 1 && trail.NoComma? {
      assert end[1..] == k;
      assert fields == [fields[0]];
    } else {
      assert end[1..] == PrintFields(fields[1..], trail, k);
    }
  }

  lemma ReadElemsStep(d: Decoder, elems: seq<Elem>, trail: Trail, depth: nat, k: string)
    requires elems != []
    requires ReadElem(d, PrintElems(elems, trail, k), depth) == Some(Read(elems[0], AfterFirstElem(elems, trail, k)))
    requires AfterSpace(PrintElems(elems, trail, k)) != "" && AfterSpace(PrintElems(elems, trail, k))[0] != ']'
    requires (|elems| == 1 && trail.NoComma?) || ReadElems(d, PrintElems(elems[1..], trail, k), depth) ==
             Some(Read((elems[1..], trail), k))
    ensures ReadElems(d, PrintElems(elems, trail, k), depth) == Some(Read((elems, trail), k))
  {
    hide ReadElem, PrintElems, AfterSpace, GapOf;
    var end := AfterFirstElem(elems, trail, k);
    assert elems == [elems[0]] + elems[1..];
    if |elems| == 1 && trail.NoComma? {
      assert end[1..] == k;
      assert elems == [elems[0]];
    } else {
      assert end[1..] == PrintElems(elems[1..], trail, k);
    }
  }

  lemma {:induction false} ReadPrintedFields(d: Decoder, fields: seq<Field>, trail: Trail, depth: nat, k: string)
    requires Sane(d) && GoodFields(d, fields, depth) && GoodTrail(trail, fields == []) && NumberStops(k)
    ensures ReadFields(d, PrintFields(fields, trail, k), depth) == Some(Read((fields, trail), k))
    decreases fields, 1
  {
    hide ReadFields, ReadField, ReadValue, Print, ClosedGap, WellFormed;
    if fields == [] {
      ReadPrintedTrail(d, trail, depth, k);
    } else {
      var end := AfterFirstField(fields, trail, k);
      GapEndsNumber(fields[0].g3, end);
      ReadPrinted(d, fields[0].value, depth, fields[0].g3 + end);
      ReadPrintedField(d, fields[0], depth, end);
      if |fields| > 1 || trail.Comma? {
        ReadPrintedFields(d, fields[1..], trail, depth, k);
      }
      ReadFieldsStep(d, fields, trail, depth, k);
    }
  }

  lemma {:induction false} ReadPrintedElems(d: Decoder, elems: seq<Elem>, trail: Trail, depth: nat, k: string)
    requires Sane(d) && GoodElems(d, elems, depth) && GoodTrail(trail, elems == []) && NumberStops(k)
    ensures ReadElems(d, PrintElems(elems, trail, k), depth) == Some(Read((elems, trail), k))
    decreases elems, 1
  {
    hide ReadElems, ReadElem, ReadValue, Print, ClosedGap, WellFormed;
    if elems == [] {
      ReadPrintedTrail(d, trail, depth, k);
    } else {
      var end := AfterFirstElem(elems, trail, k);
      GapEndsNumber(elems[0].g1, end);
      ReadPrinted(d, elems[0].value, depth, elems[0].g1 + end);
      ReadPrintedElem(d, elems[0], depth, end);
      if |elems| > 1 || trail.Comma? {
        ReadPrintedElems(d, elems[1..], trail, depth, k);
      }
      ReadElemsStep(d, elems, trail, depth, k);
    }
  }

  // ---- what is read is what was printed ----

  lemma NumberSplits(d: Decoder, t: string)
    requires Sane(d) && d.isNumber(t[..NumberLen(t)])
    ensures var raw := t[..NumberLen(t)]; t == raw + t[NumberLen(t)..] && raw != "" && AllNumber(raw)
  {
    NumberTake(t);
  }

  lemma WordIsPrinted(d: Decoder, t: string, depth: nat)
    requires Sane(d) && ReadValue(d, t, depth).Some? && t[0] !in ['{', '[']
    ensures var r := ReadValue(d, t, depth).value;
            t == Print(r.got, r.rest) && WellFormed(d, r.got, depth)
  {
    hide ReadString, ClosedString, AllNumber;
    if t[0] == '"' {
      StringSplits(d, t);
    } else if "true" <= t {
      assert t == "true" + t[4..];
    } else if "false" <= t {
      assert t == "false" + t[5..];
    } else if "null" <= t {
      assert t == "null" + t[4..];
    } else {
      NumberSplits(d, t);
    }
  }

  lemma {:induction false} ReadIsPrinted(d: Decoder, t: string, depth: nat)
    requires Sane(d) && ReadValue(d, t, depth).Some?
    ensures var r := ReadValue(d, t, depth).value;
            t == Print(r.got, r.rest) && WellFormed(d, r.got, depth)
    decreases |t|, 1
  {
    hide ReadString, ReadFields, ReadElems, ClosedString, GoodFields, GoodElems, PrintFields, PrintElems, AllNumber;
    if t[0] == '{' {
      ReadFieldsIsPrinted(d, t[1..], depth + 1);
      Front(t, '{');
    } else if t[0] == '[' {
      ReadElemsIsPrinted(d, t[1..], depth + 1);
      Front(t, '[');
    } else {
      WordIsPrinted(d, t, depth);
    }
  }

  lemma Front(t: string, c: char)
    requires t != "" && t[0] == c
    ensures t == [c] + t[1..]
  { }

  lemma {:induction false} ReadFieldIsPrinted(d: Decoder, t: string, depth: nat)
    requires Sane(d) && ReadField(d, t, depth).Some? && ReadField(d, t, depth).value.rest != ""
    ensures var r := ReadField(d, t, depth).value;
            t == PrintField(r.got, r.rest) && GoodField(d, r.got, depth)
    decreases |t|, 2
  {
    hide ClosedGap, Print, WellFormed, ReadValue, ReadString, AfterSpace, GapOf, ClosedString;
    GapSplits(t);
    var key := ReadString(d, AfterSpace(t)).value;
    StringSplits(d, AfterSpace(t));
    GapSplits(key.rest);
    var t2 := AfterSpace(key.rest);
    Front(t2, ':');
    GapSplits(t2[1..]);
    var t3 := AfterSpace(t2[1..]);
    ReadIsPrinted(d, t3, depth);
    GapSplits(ReadValue(d, t3, depth).value.rest);
  }

  lemma {:induction false} ReadFieldsIsPrinted(d: Decoder, t: string, depth: nat)
    requires Sane(d) && ReadFields(d, t, depth).Some?
    ensures var r := ReadFields(d, t, depth).value;
            && t == PrintFields(r.got.0, r.got.1, r.rest)
            && GoodFields(d, r.got.0, depth) && GoodTrail(r.got.1, r.got.0 == [])
    decreases |t|, 3
  {
    hide ClosedGap, PrintField, GoodField, ReadField, AfterSpace, GapOf;
    GapSplits(t);
    var t1 := AfterSpace(t);
    if t1[0] == '}' {
      Front(t1, '}');
    } else {
      var f := ReadField(d, t, depth).value;
      ReadFieldIsPrinted(d, t, depth);
      Front(f.rest, f.rest[0]);
      if f.rest[0] == ',' {
        ReadFieldsIsPrinted(d, f.rest[1..], depth);
        var more := ReadFields(d, f.rest[1..], depth).value;
        assert ([f.got] + more.got.0)[1..] == more.got.0;
      }
    }
  }

  lemma {:induction false} ReadElemIsPrinted(d: Decoder, t: string, depth: nat)
    requires Sane(d) && ReadElem(d, t, depth).Some? && ReadElem(d, t, depth).value.rest != ""
    ensures var r := ReadElem(d, t, depth).value;
            t == PrintElem(r.got, r.rest) && GoodElem(d, r.got, depth)
    decreases |t|, 2
  {
    hide ClosedGap, Print, WellFormed, ReadValue, AfterSpace, GapOf;
    assert AfterSpace(t) != "" by {
      assert ReadValue(d, "", depth).None?;
    }
    GapSplits(t);
    ReadIsPrinted(d, AfterSpace(t), depth);
    GapSplits(ReadValue(d, AfterSpace(t), depth).value.rest);
  }

  lemma {:induction false} ReadElemsIsPrinted(d: Decoder, t: string, depth: nat)
    requires Sane(d) && ReadElems(d, t, depth).Some?
    ensures var r := ReadElems(d, t, depth).value;
            && t == PrintElems(r.got.0, r.got.1, r.rest)
            && GoodElems(d, r.got.0, depth) && GoodTrail(r.got.1, r.got.0 == [])
    decreases |t|, 3
  {
    hide ClosedGap, PrintElem, GoodElem, ReadElem, AfterSpace, GapOf;
    GapSplits(t);
    var t1 := AfterSpace(t);
    if t1[0] == ']' {
      Front(t1, ']');
    } else {
      var e := ReadElem(d, t, depth).value;
      ReadElemIsPrinted(d, t, depth);
      Front(e.rest, e.rest[0]);
      if e.rest[0] == ',' {
        ReadElemsIsPrinted(d, e.rest[1..], depth);
        var more := ReadElems(d, e.rest[1..], depth).value;
        assert ([e.got] + more.got.0)[1..] == more.got.0;
      }
    }
  }

  lemma ReadDocumentSplits(d: Decoder, text: string)
    requires Sane(d) && ReadDocument(d, text).Some?
    ensures var doc := ReadDocument(d, text).value; text == PrintDocument(doc) && GoodDocument(d, doc)
  {
    hide ReadValue, Print, WellFormed, ClosedGap;
    var b := if text != "" && text[0] == BOM then 1 else 0;
    var t := AfterSpace(text[b..]);
    assert t != "" by {
      EmptyReadsNothing(d);
    }
    GapSplits(text[b..]);
    ReadIsPrinted(d, t, 0);
    assert text == text[..b] + text[b..];
    assert b == 1 ==> text[..b] == [BOM];
  }

  lemma EmptyReadsNothing(d: Decoder)
    ensures ReadValue(d, "", 0).None?
  { }

  /** A text reads as a document exactly when it is that document's text, well formed. */
  lemma ReadingInvertsPrinting(d: Decoder, text: string, doc: Document)
    requires Sane(d)
    ensures ReadDocument(d, text) == Some(doc) <==> text == PrintDocument(doc) && GoodDocument(d, doc)
  {
    hide ReadDocument, PrintDocument, GoodDocument;
    if ReadDocument(d, text) == Some(doc) {
      ReadDocumentSplits(d, text);
    }
    if text == PrintDocument(doc) && GoodDocument(d, doc) {
      ReadGoodDocument(d, doc);
    }
  }

  lemma ReadGoodDocument(d: Decoder, doc: Document)
    requires Sane(d) && GoodDocument(d, doc)
    ensures ReadDocument(d, PrintDocument(doc)) == Some(doc)
  {
    hide AfterSpace, GapOf, ReadValue, Print, WellFormed, ClosedGap;
    var text := doc.lead + Print(doc.value, doc.tail);
    ReadGoodText(d, doc);
    NoMarkInside(d, doc.value, doc.tail);
    if doc.lead != "" {
      NoMarkInGap(doc.lead);
    }
    var t := PrintDocument(doc);
    assert t == doc.bom + text;
    assert t[|doc.bom|..] == text && t[..|doc.bom|] == doc.bom;
    assert text[0] == (if doc.lead == "" then Print(doc.value, doc.tail)[0] else doc.lead[0]);
  }

  lemma ReadGoodText(d: Decoder, doc: Document)
    requires Sane(d) && GoodDocument(d, doc)
    ensures var text := doc.lead + Print(doc.value, doc.tail);
            && GapOf(text) == doc.lead
            && ReadValue(d, AfterSpace(text), 0) == Some(Read(doc.value, doc.tail))
  {
    hide AfterSpace, GapOf, ReadValue, Print, WellFormed, ClosedGap;
    ValueStarts(d, doc.value, 0, doc.tail);
    ReadGap(doc.lead, Print(doc.value, doc.tail));
    TailStops(doc.tail);
    ReadPrinted(d, doc.value, 0, doc.tail);
  }

  lemma TailStops(tail: string)
    requires AfterSpace(tail) == ""
    ensures NumberStops(tail)
  {
    assert tail == "" || SpaceLen(tail) > 0;
  }

  lemma NoMarkInGap(g: string)
    requires ClosedGap(g) && g != ""
    ensures g[0] != BOM
  { }

  lemma NoMarkInside(d: Decoder, v: Value, k: string)
    requires WellFormed(d, v, 0)
    ensures Print(v, k) != "" && Print(v, k)[0] != BOM
  {
    if v.VNumber? {
      assert v.raw[0] in v.raw;
    }
  }
}
