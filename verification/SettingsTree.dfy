/**
 * A settings file as the redaction sees it: a tree of positions in its own
 * text, what the tree means, and which fields are taken out.
 */
module SettingsTree {
  import opened SettingsSyntax
  import opened Texts

  // ---- the reader's tree ----

  datatype Node =
    | Object(open: nat, close: nat, members: seq<Member>)
    | Array(items: seq<Item>)
    | Text(text: string)
    | Number
    | Bool
    | Null

  datatype Member = Member(key: string, start: nat, end: nat, value: Node)

  datatype Item = Item(start: nat, end: nat, value: Node)

  function TrailLen(trail: Trail): nat {
    if trail.Comma? then |trail.gap| else 0
  }

  /** How long a value's text is. */
  function Len(v: Value): (n: nat)
    decreases v, 0
  {
    match v
    case VObject(fields, trail) => 1 + LenFields(fields, trail)
    case VArray(elems, trail) => 1 + LenElems(elems, trail)
    case VText(raw) => |raw|
    case VWord(word) => |word|
    case VNumber(raw) => |raw|
  }

  /** How far a member's value begins after its gap. */
  function ValueOffset(f: Field): nat {
    |f.g0| + |f.key| + |f.g1| + 1 + |f.g2|
  }

  function LenField(f: Field): nat
    decreases f, 1
  {
    ValueOffset(f) + Len(f.value) + |f.g3|
  }

  function LenFields(fields: seq<Field>, trail: Trail): (n: nat)
    ensures n >= 1
    decreases fields, 2
  {
    if fields == [] then TrailLen(trail) + 1
    else LenField(fields[0]) + 1 + (if |fields| == 1 && trail.NoComma? then 0 else LenFields(fields[1..], trail))
  }

  function LenElem(e: Elem): nat
    decreases e, 1
  {
    |e.g0| + Len(e.value) + |e.g1|
  }

  function LenElems(elems: seq<Elem>, trail: Trail): (n: nat)
    ensures n >= 1
    decreases elems, 2
  {
    if elems == [] then TrailLen(trail) + 1
    else LenElem(elems[0]) + 1 + (if |elems| == 1 && trail.NoComma? then 0 else LenElems(elems[1..], trail))
  }

  lemma {:induction false} PrintLen(v: Value, k: string)
    ensures |Print(v, k)| == Len(v) + |k|
    decreases v, 0
  {
    match v
    case VObject(fields, trail) => PrintFieldsLen(fields, trail, k);
    case VArray(elems, trail) => PrintElemsLen(elems, trail, k);
    case _ =>
  }

  lemma {:induction false} PrintFieldsLen(fields: seq<Field>, trail: Trail, k: string)
    ensures |PrintFields(fields, trail, k)| == LenFields(fields, trail) + |k|
    decreases fields, 2
  {
    if fields != [] {
      var f := fields[0];
      var end := if |fields| == 1 && trail.NoComma? then "}" + k else "," + PrintFields(fields[1..], trail, k);
      PrintLen(f.value, f.g3 + end);
      if !(|fields| == 1 && trail.NoComma?) {
        PrintFieldsLen(fields[1..], trail, k);
      }
    }
  }

  lemma {:induction false} PrintElemsLen(elems: seq<Elem>, trail: Trail, k: string)
    ensures |PrintElems(elems, trail, k)| == LenElems(elems, trail) + |k|
    decreases elems, 2
  {
    if elems != [] {
      var e := elems[0];
      var end := if |elems| == 1 && trail.NoComma? then "]" + k else "," + PrintElems(elems[1..], trail, k);
      PrintLen(e.value, e.g1 + end);
      if !(|elems| == 1 && trail.NoComma?) {
        PrintElemsLen(elems[1..], trail, k);
      }
    }
  }

  function Decoded(d: Decoder, raw: string): string {
    var r := d.decode(raw);
    if r.Some? then r.value else ""
  }

  function WordNode(word: string): Node {
    if word == "null" then Null else Bool
  }

  /** The reader's tree for a value whose text begins at `at`. */
  function Locate(d: Decoder, v: Value, at: nat): Node
    decreases v, 0
  {
    match v
    case VObject(fields, trail) => Object(at, at + Len(v) - 1, LocateFields(d, fields, at + 1))
    case VArray(elems, trail) => Array(LocateElems(d, elems, at + 1))
    case VText(raw) => Text(Decoded(d, raw))
    case VWord(word) => WordNode(word)
    case VNumber(raw) => Number
  }

  function LocateField(d: Decoder, f: Field, at: nat): Member
    decreases f, 1
  {
    Member(Decoded(d, f.key), at + |f.g0|, at + ValueOffset(f) + Len(f.value),
           Locate(d, f.value, at + ValueOffset(f)))
  }

  function LocateFields(d: Decoder, fields: seq<Field>, at: nat): (r: seq<Member>)
    ensures |r| == |fields|
    decreases fields, 2
  {
    if fields == [] then []
    else [LocateField(d, fields[0], at)] + LocateFields(d, fields[1..], at + LenField(fields[0]) + 1)
  }

  function LocateElem(d: Decoder, e: Elem, at: nat): Item
    decreases e, 1
  {
    Item(at + |e.g0|, at + |e.g0| + Len(e.value), Locate(d, e.value, at + |e.g0|))
  }

  function LocateElems(d: Decoder, elems: seq<Elem>, at: nat): (r: seq<Item>)
    ensures |r| == |elems|
    decreases elems, 2
  {
    if elems == [] then []
    else [LocateElem(d, elems[0], at)] + LocateElems(d, elems[1..], at + LenElem(elems[0]) + 1)
  }

  // ---- what a tree means ----

  /** A settings tree without its layout: members in order, texts decoded, literals as written. */
  datatype Tree =
    | TObject(members: seq<TMember>)
    | TArray(items: seq<Tree>)
    | TText(text: string)
    | TWord(word: string)
    | TNumber(raw: string)

  datatype TMember = TMember(key: string, value: Tree)

  function Meaning(d: Decoder, v: Value): Tree
    decreases v, 0
  {
    match v
    case VObject(fields, trail) => TObject(FieldsMeaning(d, fields))
    case VArray(elems, trail) => TArray(ElemsMeaning(d, elems))
    case VText(raw) => TText(Decoded(d, raw))
    case VWord(word) => TWord(word)
    case VNumber(raw) => TNumber(raw)
  }

  function FieldMeaning(d: Decoder, f: Field): TMember
    decreases f, 1
  {
    TMember(Decoded(d, f.key), Meaning(d, f.value))
  }

  function FieldsMeaning(d: Decoder, fields: seq<Field>): (r: seq<TMember>)
    ensures |r| == |fields|
    decreases fields, 2
  {
    if fields == [] then [] else [FieldMeaning(d, fields[0])] + FieldsMeaning(d, fields[1..])
  }

  function ElemsMeaning(d: Decoder, elems: seq<Elem>): (r: seq<Tree>)
    ensures |r| == |elems|
    decreases elems, 2
  {
    if elems == [] then [] else [Meaning(d, elems[0].value)] + ElemsMeaning(d, elems[1..])
  }

  // ---- which fields are taken out ----

  /** Lower-casing, and the two text heuristics. */
  datatype Rules = Rules(lower: string -> string, isKeybind: string -> bool, isPrivate: string -> bool)

  const SECRET_WORDS := ["apikey", "api_key", "token", "password", "passwd", "secret", "auth", "cookie", "session"]
  const BLOCKED_ENDINGS := ["apikey", "authkey", "accesskey", "privatekey", "token", "password", "passwd", "secret"]

  function Plain(s: string): string {
    if s == "" then ""
    else if s[0] == '-' || s[0] == '_' || s[0] == ' ' then Plain(s[1..])
    else [s[0]] + Plain(s[1..])
  }

  function Normalise(r: Rules, key: string): string {
    Plain(r.lower(key))
  }

  predicate Contains(s: string, w: string) {
    w <= s || (s != "" && Contains(s[1..], w))
  }

  /** Unicode white space. */
  predicate IsWhite(c: char) {
    || '\U{9}' <= c <= '\U{D}' || c == ' ' || c == '\U{85}' || c == '\U{A0}' || c == '\U{1680}'
    || '\U{2000}' <= c <= '\U{200A}' || c == '\U{2028}' || c == '\U{2029}' || c == '\U{202F}'
    || c == '\U{205F}' || c == '\U{3000}'
  }

  predicate Blank(t: string) {
    forall c :: c in t ==> IsWhite(c)
  }

  predicate HasBlockedName(k: string) {
    exists w :: w in BLOCKED_ENDINGS && EndsWith(k, w)
  }

  predicate HotkeyName(k: string) {
    EndsWith(k, "key") || EndsWith(k, "secret")
  }

  /** Something under a blocked name that is not a switch, nothing, or a hotkey. */
  predicate Holds(r: Rules, v: Node, hotkey: bool)
    decreases v
  {
    match v
    case Text(t) => !Blank(t) && !(hotkey && r.isKeybind(t))
    case Number => true
    case Bool | Null => false
    case Object(_, _, members) => exists m :: m in members && Holds(r, m.value, hotkey)
    case Array(items) => exists i :: i in items && Holds(r, i.value, hotkey)
  }

  predicate NeverShared(r: Rules, k: string, v: Node) {
    HasBlockedName(k) && Holds(r, v, HotkeyName(k))
  }

  predicate Secretish(r: Rules, k: string) {
    exists w :: w in SECRET_WORDS && Contains(k, Normalise(r, w))
  }

  /** What becomes of a member. */
  datatype Fate =
    | Blocked  // always taken out
    | Flagged  // taken out unless the user keeps flagged fields
    | Kept
    | Inside   // kept; what is in it is looked at

  function FateOf(r: Rules, key: string, v: Node): Fate {
    var k := Normalise(r, key);
    if NeverShared(r, k, v) then Blocked
    else if Secretish(r, k) && v.Text? && !Blank(v.text) && !r.isKeybind(v.text) then Flagged
    else if v.Text? then if r.isPrivate(v.text) then Flagged else Kept
    else Inside
  }

  predicate IsGone(fate: Fate, keep: bool) {
    fate.Blocked? || (fate.Flagged? && !keep)
  }

  // The same decisions on what a tree means.

  predicate HoldsT(r: Rules, v: Tree, hotkey: bool)
    decreases v
  {
    match v
    case TText(t) => !Blank(t) && !(hotkey && r.isKeybind(t))
    case TNumber(_) => true
    case TWord(_) => false
    case TObject(members) => exists m :: m in members && HoldsT(r, m.value, hotkey)
    case TArray(items) => exists i :: i in items && HoldsT(r, i, hotkey)
  }

  predicate NeverSharedT(r: Rules, m: TMember) {
    var k := Normalise(r, m.key);
    HasBlockedName(k) && HoldsT(r, m.value, HotkeyName(k))
  }

  function FateT(r: Rules, m: TMember): Fate {
    var k := Normalise(r, m.key);
    if NeverSharedT(r, m) then Blocked
    else if Secretish(r, k) && m.value.TText? && !Blank(m.value.text) && !r.isKeybind(m.value.text) then Flagged
    else if m.value.TText? then if r.isPrivate(m.value.text) then Flagged else Kept
    else Inside
  }

  function FateF(r: Rules, d: Decoder, f: Field): Fate {
    FateT(r, FieldMeaning(d, f))
  }

  lemma {:induction false} HoldsSame(r: Rules, d: Decoder, v: Value, at: nat, hotkey: bool)
    ensures Holds(r, Locate(d, v, at), hotkey) == HoldsT(r, Meaning(d, v), hotkey)
    decreases v, 0
  {
    match v
    case VObject(fields, trail) => HoldsSameFields(r, d, fields, at + 1, hotkey);
    case VArray(elems, trail) => HoldsSameElems(r, d, elems, at + 1, hotkey);
    case _ =>
  }

  lemma {:induction false} HoldsSameFields(r: Rules, d: Decoder, fields: seq<Field>, at: nat, hotkey: bool)
    ensures (exists m :: m in LocateFields(d, fields, at) && Holds(r, m.value, hotkey)) <==>
            (exists m :: m in FieldsMeaning(d, fields) && HoldsT(r, m.value, hotkey))
    decreases fields, 2
  {
    if fields != [] {
      var next := at + LenField(fields[0]) + 1;
      HoldsSame(r, d, fields[0].value, at + ValueOffset(fields[0]), hotkey);
      HoldsSameFields(r, d, fields[1..], next, hotkey);
      var a, b := LocateFields(d, fields, at), FieldsMeaning(d, fields);
      assert a[0] in a && b[0] in b;
      assert forall m :: m in a <==> m == a[0] || m in LocateFields(d, fields[1..], next);
      assert forall m :: m in b <==> m == b[0] || m in FieldsMeaning(d, fields[1..]);
    }
  }

  lemma {:induction false} HoldsSameElems(r: Rules, d: Decoder, elems: seq<Elem>, at: nat, hotkey: bool)
    ensures (exists i :: i in LocateElems(d, elems, at) && Holds(r, i.value, hotkey)) <==>
            (exists i :: i in ElemsMeaning(d, elems) && HoldsT(r, i, hotkey))
    decreases elems, 2
  {
    if elems != [] {
      var next := at + LenElem(elems[0]) + 1;
      HoldsSame(r, d, elems[0].value, at + |elems[0].g0|, hotkey);
      HoldsSameElems(r, d, elems[1..], next, hotkey);
      var a, b := LocateElems(d, elems, at), ElemsMeaning(d, elems);
      assert a[0] in a && b[0] in b;
      assert forall m :: m in a <==> m == a[0] || m in LocateElems(d, elems[1..], next);
      assert forall m :: m in b <==> m == b[0] || m in ElemsMeaning(d, elems[1..]);
    }
  }

  lemma FateSame(r: Rules, d: Decoder, f: Field, at: nat)
    ensures var m := LocateField(d, f, at); FateOf(r, m.key, m.value) == FateF(r, d, f)
  {
    hide HasBlockedName, HotkeyName, Secretish, Blank, Normalise, Holds, HoldsT;
    var m := LocateField(d, f, at);
    HoldsSame(r, d, f.value, at + ValueOffset(f), HotkeyName(Normalise(r, m.key)));
  }
}
