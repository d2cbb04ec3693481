/** Redacting a whole settings file, and what reading the result gives. */
module SettingsRedact {
  import opened Options
  import opened SettingsSyntax
  import opened SettingsReading
  import opened SettingsTree
  import opened SettingsRedaction
  import opened SettingsRewrite
  import opened SettingsPrune
  import opened SettingsWalk

  // ---- sorting and splicing ----

  function InsertDesc(e: Edit, es: seq<Edit>): seq<Edit> {
    if es == [] then [e]
    else if e.from >= es[0].from then [e] + es
    else [es[0]] + InsertDesc(e, es[1..])
  }

  /** The edits by their starts, last first. */
  function SortDesc(es: seq<Edit>): seq<Edit> {
    if es == [] then [] else InsertDesc(es[0], SortDesc(es[1..]))
  }

  predicate Desc(es: seq<Edit>) {
    forall i, j :: 0 <= i < j < |es| ==> es[i].from >= es[j].from
  }

  lemma {:induction false} InsertDescPermutes(e: Edit, es: seq<Edit>)
    ensures multiset(InsertDesc(e, es)) == multiset(es) + multiset{e}
  {
    if es != [] {
      assert es == [es[0]] + es[1..];
      InsertDescPermutes(e, es[1..]);
    }
  }

  lemma {:induction false} InsertDescMembers(e: Edit, es: seq<Edit>, x: Edit)
    ensures x in InsertDesc(e, es) <==> x == e || x in es
  {
    if es != [] {
      assert es == [es[0]] + es[1..];
      InsertDescMembers(e, es[1..], x);
    }
  }

  lemma {:induction false} InsertDescFacts(e: Edit, es: seq<Edit>)
    requires Desc(es)
    ensures Desc(InsertDesc(e, es)) && multiset(InsertDesc(e, es)) == multiset(es) + multiset{e}
  {
    InsertDescPermutes(e, es);
    if es != [] && e.from < es[0].from {
      var rest := InsertDesc(e, es[1..]);
      InsertDescFacts(e, es[1..]);
      forall j | 0 <= j < |rest| ensures es[0].from >= rest[j].from {
        InsertDescMembers(e, es[1..], rest[j]);
      }
    }
  }

  lemma {:induction false} SortDescFacts(es: seq<Edit>)
    ensures Desc(SortDesc(es)) && multiset(SortDesc(es)) == multiset(es)
  {
    if es != [] {
      assert es == [es[0]] + es[1..];
      SortDescFacts(es[1..]);
      InsertDescFacts(es[0], SortDesc(es[1..]));
    }
  }

  function Reversed(es: seq<Edit>): (r: seq<Edit>)
    ensures |r| == |es|
  {
    if es == [] then [] else Reversed(es[1..]) + [es[0]]
  }

  lemma {:induction false} ReversedMultiset(es: seq<Edit>)
    ensures multiset(Reversed(es)) == multiset(es)
  {
    if es != [] {
      assert es == [es[0]] + es[1..];
      ReversedMultiset(es[1..]);
    }
  }

  lemma {:induction false} InOrderStarts(es: seq<Edit>, at: nat, n: nat)
    requires InOrder(es, at, n)
    ensures forall i :: 0 <= i < |es| ==> es[i].from >= at
    ensures forall i, j :: 0 <= i < j < |es| ==> es[i].from < es[j].from
    decreases |es|
  {
    if es != [] {
      InOrderStarts(es[1..], es[0].to, at + n - es[0].to);
      assert forall i :: 0 < i < |es| ==> es[i] == es[1..][i - 1];
    }
  }

  /** Edits in text order, reversed, start ever earlier. */
  lemma {:induction false} ReversedStarts(es: seq<Edit>)
    requires forall i, j :: 0 <= i < j < |es| ==> es[i].from < es[j].from
    ensures forall i, j :: 0 <= i < j < |es| ==> Reversed(es)[i].from > Reversed(es)[j].from
  {
    if es != [] {
      ReversedStarts(es[1..]);
      var r := Reversed(es[1..]);
      forall i | 0 <= i < |r| ensures r[i].from > es[0].from {
        ReversedMultiset(es[1..]);
        assert r[i] in multiset(r);
        assert r[i] in es[1..];
      }
    }
  }

  lemma FirstSame(a: seq<Edit>, b: seq<Edit>)
    requires b != [] && multiset(a) == multiset(b) && Desc(a)
    requires forall i, j :: 0 <= i < j < |b| ==> b[i].from > b[j].from
    ensures a != [] && a[0] == b[0]
  {
    assert b[0] in multiset(a);
    assert b[0] in a;
    var j :| 0 <= j < |a| && a[j] == b[0];
    assert a[0] in multiset(b);
    assert a[0] in b;
    var i :| 0 <= i < |b| && b[i] == a[0];
    assert a[0].from >= a[j].from;
    assert b[i].from >= b[0].from;
  }

  lemma TailMultiset<T>(a: seq<T>)
    requires a != []
    ensures multiset(a[1..]) == multiset(a) - multiset{a[0]}
  {
    assert a == [a[0]] + a[1..];
  }

  /** Sorting by start has one outcome when no two edits start together. */
  lemma {:induction false} SortedOnce(a: seq<Edit>, b: seq<Edit>)
    requires multiset(a) == multiset(b) && Desc(a)
    requires forall i, j :: 0 <= i < j < |b| ==> b[i].from > b[j].from
    ensures a == b
    decreases |b|
  {
    if b == [] {
      assert |a| == |multiset(a)| == 0;
    } else {
      FirstSame(a, b);
      TailMultiset(a);
      TailMultiset(b);
      assert Desc(a[1..]);
      SortedOnce(a[1..], b[1..]);
      assert a == [a[0]] + a[1..] && b == [b[0]] + b[1..];
    }
  }

  /** One replacement in place. */
  function Replace(t: string, e: Edit): string
    requires e.from <= e.to <= |t|
  {
    t[..e.from] + e.with + t[e.to..]
  }

  predicate CanSplice(t: string, es: seq<Edit>)
    decreases |es|
  {
    es != [] ==> es[0].from <= es[0].to <= |t| && CanSplice(Replace(t, es[0]), es[1..])
  }

  /** The replacements made one after another. */
  function Splice(t: string, es: seq<Edit>): string
    requires CanSplice(t, es)
    decreases |es|
  {
    if es == [] then t else Splice(Replace(t, es[0]), es[1..])
  }

  lemma {:induction false} InOrderWithin(es: seq<Edit>, at: nat, n: nat)
    requires InOrder(es, at, n)
    ensures forall e :: e in es ==> at <= e.from < e.to <= at + n
    decreases |es|
  {
    if es != [] {
      InOrderWithin(es[1..], es[0].to, at + n - es[0].to);
      assert es == [es[0]] + es[1..];
    }
  }

  lemma {:induction false} InOrderMore(es: seq<Edit>, at: nat, n: nat, more: nat)
    requires InOrder(es, at, n) && n <= more
    ensures InOrder(es, at, more)
    decreases |es|
  {
    if es != [] {
      InOrderMore(es[1..], es[0].to, at + n - es[0].to, at + more - es[0].to);
    }
  }

  lemma {:induction false} InOrderInit(es: seq<Edit>, last: Edit, at: nat, n: nat)
    requires InOrder(es + [last], at, n)
    ensures at <= last.from < last.to <= at + n && InOrder(es, at, last.from - at)
    decreases |es|
  {
    if es != [] {
      assert (es + [last])[1..] == es[1..] + [last];
      InOrderInit(es[1..], last, es[0].to, at + n - es[0].to);
    }
  }

  /** The text at `at` with one edit made. */
  function ReplaceAt(t: string, at: nat, e: Edit): string
    requires at <= e.from <= e.to <= at + |t|
  {
    t[..e.from - at] + e.with + t[e.to - at..]
  }

  lemma ReplaceLater(t: string, at: nat, cut: nat, e: Edit)
    requires at <= cut <= e.from <= e.to <= at + |t|
    ensures |ReplaceAt(t, at, e)| >= cut - at
    ensures ReplaceAt(t, at, e)[cut - at..] == ReplaceAt(t[cut - at..], cut, e)
    ensures forall k :: 0 <= k <= cut - at ==> ReplaceAt(t, at, e)[..k] == t[..k]
  {
    var u := t[cut - at..];
    assert t[..e.from - at][cut - at..] == u[..e.from - cut];
    assert u[e.to - cut..] == t[e.to - at..];
    assert ReplaceAt(t, at, e) == t[..e.from - at] + (e.with + t[e.to - at..]);
  }

  lemma RewriteFirst(t: string, at: nat, es: seq<Edit>)
    requires es != [] && InOrder(es, at, |t|)
    ensures Rewrite(t, at, es) == t[..es[0].from - at] + es[0].with + Rewrite(t[es[0].to - at..], es[0].to, es[1..])
  { }

  /** What `LastFirst` says of the edits after the first gives what it says of all of them. */
  lemma LastFirstStep(t: string, at: nat, e: Edit, rest: seq<Edit>, last: Edit)
    requires InOrder([e] + rest + [last], at, |t|)
    requires at <= e.from < e.to <= last.from < last.to <= at + |t|
    requires InOrder(rest + [last], e.to, at + |t| - e.to)
    requires InOrder([e] + rest, at, |ReplaceAt(t, at, last)|)
    requires InOrder(rest, e.to, |ReplaceAt(t[e.to - at..], e.to, last)|)
    requires Rewrite(t[e.to - at..], e.to, rest + [last]) == Rewrite(ReplaceAt(t[e.to - at..], e.to, last), e.to, rest)
    ensures Rewrite(t, at, [e] + rest + [last]) == Rewrite(ReplaceAt(t, at, last), at, [e] + rest)
  {
    hide Rewrite, ReplaceAt, InOrder;
    var u := ReplaceAt(t, at, last);
    var all, init := [e] + rest + [last], [e] + rest;
    assert all[1..] == rest + [last] && all[0] == e;
    assert init[1..] == rest && init[0] == e;
    ReplaceLater(t, at, e.to, last);
    assert u[..e.from - at] == t[..e.from - at];
    assert u[e.to - at..] == ReplaceAt(t[e.to - at..], e.to, last);
    RewriteFirst(t, at, all);
    RewriteFirst(u, at, init);
  }

  /** Making the last edit first leaves the others as they were. */
  lemma {:induction false} LastFirst(t: string, at: nat, es: seq<Edit>, last: Edit)
    requires InOrder(es + [last], at, |t|)
    ensures at <= last.from < last.to <= at + |t|
    ensures InOrder(es, at, |ReplaceAt(t, at, last)|)
    ensures Rewrite(t, at, es + [last]) == Rewrite(ReplaceAt(t, at, last), at, es)
    decreases |es|
  {
    InOrderInit(es, last, at, |t|);
    if es == [] {
      LastAlone(t, at, es, last);
    } else {
      hide Rewrite, ReplaceAt, InOrder;
      var e, rest := es[0], es[1..];
      assert es == [e] + rest;
      InOrderFirst(es + [last], at, |t|);
      assert (es + [last])[1..] == rest + [last] && (es + [last])[0] == e;
      InOrderInit(rest, last, e.to, at + |t| - e.to);
      ReplaceLater(t, at, e.to, last);
      ReplaceLater(t, at, last.from, last);
      InOrderMore(es, at, last.from - at, |ReplaceAt(t, at, last)|);
      LastFirst(t[e.to - at..], e.to, rest, last);
      LastFirstStep(t, at, e, rest, last);
    }
  }

  lemma LastAlone(t: string, at: nat, es: seq<Edit>, last: Edit)
    requires es == [] && at <= last.from < last.to <= at + |t|
    ensures InOrder(es + [last], at, |t|)
    ensures Rewrite(t, at, es + [last]) == Rewrite(ReplaceAt(t, at, last), at, es)
  {
    assert es + [last] == [last] && [last][1..] == [];
  }

  lemma InOrderFirst(es: seq<Edit>, at: nat, n: nat)
    requires es != [] && InOrder(es, at, n)
    ensures at <= es[0].from < es[0].to <= at + n && InOrder(es[1..], es[0].to, at + n - es[0].to)
  { }

  /** Splicing from the back makes every edit as if at once. */
  lemma {:induction false} SpliceIsRewrite(t: string, es: seq<Edit>)
    requires InOrder(es, 0, |t|)
    ensures CanSplice(t, Reversed(es)) && Splice(t, Reversed(es)) == Rewrite(t, 0, es)
    decreases |es|
  {
    if es != [] {
      var init, last := es[..|es| - 1], es[|es| - 1];
      assert es == init + [last];
      LastFirst(t, 0, init, last);
      ReversedLast(init, last);
      var u := Replace(t, last);
      assert u == ReplaceAt(t, 0, last);
      SpliceIsRewrite(u, init);
      assert Reversed(es)[1..] == Reversed(init);
    }
  }

  lemma {:induction false} ReversedLast(init: seq<Edit>, last: Edit)
    ensures Reversed(init + [last]) == [last] + Reversed(init)
  {
    if init == [] {
      assert init + [last] == [last];
      assert [last][1..] == [];
    } else {
      ReversedLast(init[1..], last);
      assert (init + [last])[1..] == init[1..] + [last];
    }
  }

  // ---- the whole redaction ----

  datatype Problem = NotJson | NotAnObject

  datatype Redaction = Redaction(text: string, blocked: seq<string>, removed: seq<string>)

  datatype Outcome = Redacted(result: Redaction) | Refused(problem: Problem)

  /** Where a document's value begins. */
  function ValueAt(doc: Document): nat {
    |doc.bom| + |doc.lead|
  }

  /** The reader's tree of a text. */
  function ReadTree(d: Decoder, text: string): Option<Node> {
    var doc := ReadDocument(d, text);
    if doc.None? then None else Some(Locate(d, doc.value.value, ValueAt(doc.value)))
  }

  function JsonProblem(d: Decoder, text: string): Option<Problem> {
    var tree := ReadTree(d, text);
    if tree.None? then Some(NotJson)
    else if tree.value.Object? then None
    else Some(NotAnObject)
  }

  /** Each path once, in the order found. */
  function PushOnce(list: seq<string>, path: string): seq<string> {
    if path in list then list else list + [path]
  }

  function Listed(found: seq<Found>, blocked: bool, list: seq<string>): seq<string>
    decreases |found|
  {
    if found == [] then list
    else Listed(found[1..], blocked, if found[0].blocked == blocked then PushOnce(list, found[0].path) else list)
  }

  function RedactSettings(r: Rules, d: Decoder, keep: bool, text: string): Outcome {
    var problem := JsonProblem(d, text);
    if problem.Some? then Refused(problem.value)
    else
      var w := Walk(r, keep, text, ReadTree(d, text).value, "");
      var es := SortDesc(w.edits);
      Redacted(Redaction(if CanSplice(text, es) then Splice(text, es) else text,
                         Listed(w.found, true, []), if keep then [] else Listed(w.found, false, [])))
  }

  lemma DocumentTextAt(d: Decoder, text: string, doc: Document)
    requires Sane(d) && ReadDocument(d, text) == Some(doc)
    ensures TextAt(text, ValueAt(doc), doc.value)
    ensures text == (doc.bom + doc.lead) + Print(doc.value, doc.tail)
  {
    hide Print, ReadDocument, GoodDocument;
    ReadingInvertsPrinting(d, text, doc);
    var p := Print(doc.value, doc.tail);
    assert doc.bom + (doc.lead + p) == (doc.bom + doc.lead) + p;
    assert text[ValueAt(doc)..] == p;
  }

  /** All edits lie one after another, so no two overlap, and their simultaneous result is the redacted value's text. */
  lemma EditsInOrder(r: Rules, d: Decoder, keep: bool, text: string, doc: Document)
    requires Sane(d) && ReadDocument(d, text) == Some(doc)
    ensures Rewrites(text, 0, ValueEdits(r, d, keep, doc.value, ValueAt(doc)),
                     PrintDocument(doc.(value := RedactValue(r, d, keep, doc.value))))
  {
    hide Print, ReadDocument, Rewrites, WellFormed, ValueEdits, RedactValue;
    ReadingInvertsPrinting(d, text, doc);
    DocumentTextAt(d, text, doc);
    var v := doc.value;
    var at := ValueAt(doc);
    var es := ValueEdits(r, d, keep, v, at);
    NoEdits(doc.tail, at + Len(v));
    RewriteValue(r, d, keep, v, 0, at, doc.tail, [], doc.tail);
    assert es + [] == es;
    var out := Print(RedactValue(r, d, keep, v), doc.tail);
    Keep(doc.bom + doc.lead, Print(v, doc.tail), 0, es, out);
    assert doc.bom + (doc.lead + out) == (doc.bom + doc.lead) + out;
  }

  lemma NoEdits(t: string, at: nat)
    ensures Rewrites(t, at, [], t)
  { }

  /** The edits the walk pushes, sorted, are the edits in text order from the back. */
  lemma SortedWalk(r: Rules, d: Decoder, keep: bool, text: string, doc: Document)
    requires Sane(d) && ReadDocument(d, text) == Some(doc)
    ensures var at := ValueAt(doc);
            SortDesc(Walk(r, keep, text, Locate(d, doc.value, at), "").edits) ==
                Reversed(ValueEdits(r, d, keep, doc.value, at))
  {
    hide ReadDocument, ValueEdits, Walk, RedactValue, PrintDocument;
    var at := ValueAt(doc);
    var es := ValueEdits(r, d, keep, doc.value, at);
    var walked := Walk(r, keep, text, Locate(d, doc.value, at), "").edits;
    DocumentTextAt(d, text, doc);
    WalkFindsEdits(r, d, keep, text, doc.value, at, "");
    EditsInOrder(r, d, keep, text, doc);
    InOrderStarts(es, 0, |text|);
    ReversedStarts(es);
    ReversedMultiset(es);
    SortDescFacts(walked);
    SortedOnce(SortDesc(walked), Reversed(es));
  }

  /** The redacted text is the redacted document's text: what lies outside the edits survives in order. */
  lemma RedactedText(r: Rules, d: Decoder, keep: bool, text: string, doc: Document)
    requires Sane(d) && ReadDocument(d, text) == Some(doc) && doc.value.VObject?
    ensures var out := RedactSettings(r, d, keep, text);
            out.Redacted? && out.result.text == PrintDocument(doc.(value := RedactValue(r, d, keep, doc.value)))
  {
    hide ReadDocument, ValueEdits, Walk, RedactValue, PrintDocument, SortDesc;
    var es := ValueEdits(r, d, keep, doc.value, ValueAt(doc));
    EditsInOrder(r, d, keep, text, doc);
    SortedWalk(r, d, keep, text, doc);
    SpliceIsRewrite(text, es);
  }

  /**
   * Reading the redacted text succeeds and gives exactly the tree with the
   * chosen fields taken out, however the file is laid out.
   */
  lemma RedactedReadsAsPruned(r: Rules, d: Decoder, keep: bool, text: string, doc: Document)
    requires Sane(d) && ReadDocument(d, text) == Some(doc) && doc.value.VObject?
    ensures var out := RedactSettings(r, d, keep, text);
            && out.Redacted?
            && ReadDocument(d, out.result.text) == Some(doc.(value := RedactValue(r, d, keep, doc.value)))
            && Meaning(d, RedactValue(r, d, keep, doc.value)) == Prune(r, keep, Meaning(d, doc.value))
  {
    hide ReadDocument, RedactValue, PrintDocument, RedactSettings, WellFormed, Meaning, Prune;
    RedactedText(r, d, keep, text, doc);
    ReadingInvertsPrinting(d, text, doc);
    RedactedGood(r, d, keep, doc.value, 0);
    RedactMeans(r, d, keep, doc.value);
    var redacted := doc.(value := RedactValue(r, d, keep, doc.value));
    ReadingInvertsPrinting(d, PrintDocument(redacted), redacted);
  }

  /** A file is shared only if it reads as an object; the reason for refusing is the reader's. */
  lemma RefusedExactly(r: Rules, d: Decoder, keep: bool, text: string)
    requires Sane(d)
    ensures var out := RedactSettings(r, d, keep, text);
            && (out == Refused(NotJson) <==> forall doc :: text == PrintDocument(doc) ==> !GoodDocument(d, doc))
            && (out == Refused(NotAnObject) <==>
                  exists doc :: text == PrintDocument(doc) && GoodDocument(d, doc) && !doc.value.VObject?)
  {
    hide ReadDocument, PrintDocument, Walk, SortDesc, GoodDocument;
    forall doc
      ensures ReadDocument(d, text) == Some(doc) <==> text == PrintDocument(doc) && GoodDocument(d, doc)
    {
      ReadingInvertsPrinting(d, text, doc);
    }
    var got := ReadDocument(d, text);
    if got.Some? {
      assert text == PrintDocument(got.value) && GoodDocument(d, got.value);
    }
  }

  // ---- nothing private is left, and redacting again changes nothing ----

  lemma RedactedIsClean(r: Rules, d: Decoder, keep: bool, text: string, doc: Document)
    requires Sane(d) && !r.isPrivate("") && ReadDocument(d, text) == Some(doc) && doc.value.VObject?
    ensures var out := RedactSettings(r, d, keep, text);
            && out.Redacted? && ReadDocument(d, out.result.text).Some?
            && Clean(r, keep, Meaning(d, ReadDocument(d, out.result.text).value.value))
  {
    hide ReadDocument, RedactValue, RedactSettings, Clean, Meaning, Prune;
    RedactedReadsAsPruned(r, d, keep, text, doc);
    PruneClean(r, keep, Meaning(d, doc.value));
  }

  /** What a clean file's walk names: nothing blocked, and without kept flags nothing at all. */
  ghost predicate NothingToTake(found: seq<Found>, keep: bool) {
    forall f :: f in found ==> !f.blocked && keep
  }

  lemma {:induction false} CleanFindsNothing(r: Rules, d: Decoder, keep: bool, text: string, v: Value, at: nat,
                                             path: string)
    requires Clean(r, keep, Meaning(d, v))
    ensures NothingToTake(Walk(r, keep, text, Locate(d, v, at), path).found, keep)
    decreases v, 0
  {
    match v
    case VObject(fields, trail) =>
      FieldsMembers(d, fields);
      hide CleanMember, FieldMeaning, WalkMembers, ObjectEdits, LocateFields;
      assert forall f :: f in fields ==> CleanMember(r, keep, FieldMeaning(d, f));
      CleanMembersFindNothing(r, d, keep, text, fields, at + 1, path);
    case VArray(elems, trail) =>
      ElemsMembers(d, elems);
      hide WalkItems, LocateElems;
      forall e | e in elems
        ensures !PrivateItem(r, keep, Meaning(d, e.value)) && Clean(r, keep, Meaning(d, e.value))
      {
        assert Meaning(d, e.value) in ElemsMeaning(d, elems);
      }
      hide Meaning, Clean, PrivateItem;
      CleanItemsFindNothing(r, d, keep, text, elems, at + 1, path, 0);
    case VWord(_) =>
    case VText(_) =>
    case VNumber(_) =>
  }

  lemma {:induction false} CleanMemberFindsNothing(r: Rules, d: Decoder, keep: bool, text: string, f: Field, at: nat,
                                                   path: string)
    requires CleanMember(r, keep, FieldMeaning(d, f))
    ensures NothingToTake(WalkMember(r, keep, text, LocateField(d, f, at), path).found, keep)
    decreases f, 1
  {
    hide Walk, Locate, Meaning, Clean, FateOf, HoldsT, Secretish, HasBlockedName, HotkeyName, Normalise, Blank;
    var m := LocateField(d, f, at);
    FateSame(r, d, f, at);
    if FateF(r, d, f).Inside? {
      CleanFindsNothing(r, d, keep, text, f.value, at + ValueOffset(f), MemberPath(path, m.key));
    }
  }

  lemma {:induction false} CleanMembersFindNothing(r: Rules, d: Decoder, keep: bool, text: string, fields: seq<Field>,
                                                   at: nat, path: string)
    requires forall f :: f in fields ==> CleanMember(r, keep, FieldMeaning(d, f))
    ensures NothingToTake(WalkMembers(r, keep, text, LocateFields(d, fields, at), path).found, keep)
    decreases fields, 2
  {
    hide CleanMember, FieldMeaning, WalkMember, LocateField, LenField;
    if fields != [] {
      assert fields[0] in fields;
      assert forall f :: f in fields[1..] ==> f in fields;
      CleanMemberFindsNothing(r, d, keep, text, fields[0], at, path);
      CleanMembersFindNothing(r, d, keep, text, fields[1..], at + LenField(fields[0]) + 1, path);
      assert LocateFields(d, fields, at)[1..] == LocateFields(d, fields[1..], at + LenField(fields[0]) + 1);
    }
  }

  lemma {:induction false} CleanItemFindsNothing(r: Rules, d: Decoder, keep: bool, text: string, e: Elem, at: nat,
                                                 here: string)
    requires !PrivateItem(r, keep, Meaning(d, e.value)) && Clean(r, keep, Meaning(d, e.value))
    ensures NothingToTake(WalkItem(r, keep, text, LocateElem(d, e, at), here).found, keep)
    decreases e, 1
  {
    hide Walk, Clean;
    if !e.value.VText? {
      CleanFindsNothing(r, d, keep, text, e.value, at + |e.g0|, here);
    }
  }

  lemma {:induction false} CleanItemsFindNothing(r: Rules, d: Decoder, keep: bool, text: string, elems: seq<Elem>,
                                                 at: nat, path: string, index: nat)
    requires forall e :: e in elems ==>
             !PrivateItem(r, keep, Meaning(d, e.value)) && Clean(r, keep, Meaning(d, e.value))
    ensures NothingToTake(WalkItems(r, keep, text, LocateElems(d, elems, at), path, index).found, keep)
    decreases elems, 2
  {
    hide Meaning, Clean, PrivateItem, WalkItem, LocateElem, LenElem, ItemPath;
    if elems != [] {
      assert elems[0] in elems;
      assert forall e :: e in elems[1..] ==> e in elems;
      CleanItemFindsNothing(r, d, keep, text, elems[0], at, ItemPath(path, index));
      CleanItemsFindNothing(r, d, keep, text, elems[1..], at + LenElem(elems[0]) + 1, path, index + 1);
      assert LocateElems(d, elems, at)[1..] == LocateElems(d, elems[1..], at + LenElem(elems[0]) + 1);
    }
  }

  lemma {:induction false} ListsNothing(found: seq<Found>, keep: bool)
    requires NothingToTake(found, keep)
    ensures Listed(found, true, []) == [] && (!keep ==> Listed(found, false, []) == [])
    decreases |found|
  {
    if found != [] {
      assert found[0] in found;
      assert forall f :: f in found[1..] ==> f in found;
      ListsNothing(found[1..], keep);
    }
  }

  /** A clean file comes back character for character, with nothing listed. */
  lemma CleanIsUnchanged(r: Rules, d: Decoder, keep: bool, text: string, doc: Document)
    requires Sane(d) && ReadDocument(d, text) == Some(doc) && doc.value.VObject?
    requires Clean(r, keep, Meaning(d, doc.value))
    ensures RedactSettings(r, d, keep, text) == Redacted(Redaction(text, [], []))
  {
    hide ReadDocument, RedactValue, PrintDocument, Walk, Clean, Meaning, SortDesc, CanSplice, Listed;
    CleanStays(r, d, keep, doc.value, 0);
    RedactedText(r, d, keep, text, doc);
    ReadingInvertsPrinting(d, text, doc);
    CleanFindsNothing(r, d, keep, text, doc.value, ValueAt(doc), "");
    ListsNothing(Walk(r, keep, text, Locate(d, doc.value, ValueAt(doc)), "").found, keep);
  }

  /** Redacting the redacted text again changes no character and takes nothing out. */
  lemma RedactTwice(r: Rules, d: Decoder, keep: bool, text: string)
    requires Sane(d) && !r.isPrivate("") && RedactSettings(r, d, keep, text).Redacted?
    ensures var once := RedactSettings(r, d, keep, text).result.text;
            RedactSettings(r, d, keep, once) == Redacted(Redaction(once, [], []))
  {
    hide ReadDocument, RedactValue, Walk, Clean, Meaning, SortDesc, CanSplice, Listed, Prune;
    var doc := ReadDocument(d, text).value;
    assert doc.value.VObject? by {
      ObjectNode(d, doc.value, ValueAt(doc));
    }
    RedactedReadsAsPruned(r, d, keep, text, doc);
    RedactedIsClean(r, d, keep, text, doc);
    RedactedObject(r, d, keep, doc.value);
    var once := RedactSettings(r, d, keep, text).result.text;
    CleanIsUnchanged(r, d, keep, once, ReadDocument(d, once).value);
  }

  lemma ObjectNode(d: Decoder, v: Value, at: nat)
    ensures Locate(d, v, at).Object? <==> v.VObject?
  { }

  lemma RedactedObject(r: Rules, d: Decoder, keep: bool, v: Value)
    ensures RedactValue(r, d, keep, v).VObject? <==> v.VObject?
  { }

  /** The fields never shared are the same list whatever the user keeps. */
  lemma BlockedSameEitherWay(r: Rules, d: Decoder, text: string)
    requires RedactSettings(r, d, true, text).Redacted?
    ensures RedactSettings(r, d, false, text).Redacted?
    ensures RedactSettings(r, d, true, text).result.blocked == RedactSettings(r, d, false, text).result.blocked
    ensures RedactSettings(r, d, true, text).result.removed == []
  {
    hide ReadTree, Walk, SortDesc, CanSplice, Listed;
    FoundSame(r, text, ReadTree(d, text).value, "");
  }
}
