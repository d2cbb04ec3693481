/**
 * Which settings are taken out, said of the file's contents alone: what is
 * never shared, what is flagged, where each stands, and that exactly those are
 * gone from what is shared and named in its lists.
 */
module SettingsSecrets {
  import opened Options
  import opened Texts
  import opened SettingsSyntax
  import opened SettingsTree
  import opened SettingsRedaction
  import opened SettingsPrune
  import opened SettingsWalk
  import opened SettingsRedact

  // ---- names and texts ----

  const WHITE: string :=
    "\U{9}\U{A}\U{B}\U{C}\U{D} \U{85}\U{A0}\U{1680}\U{2000}\U{2001}\U{2002}\U{2003}\U{2004}\U{2005}"
    + "\U{2006}\U{2007}\U{2008}\U{2009}\U{200A}\U{2028}\U{2029}\U{202F}\U{205F}\U{3000}"

  /** White space is these characters and no other. */
  lemma WhiteIs(c: char)
    ensures IsWhite(c) <==> c in WHITE
  {
    assert WHITE[0] == '\U{9}' && WHITE[1] == '\U{A}' && WHITE[2] == '\U{B}' && WHITE[3] == '\U{C}' &&
           WHITE[4] == '\U{D}';
    assert WHITE[5] == ' ' && WHITE[6] == '\U{85}' && WHITE[7] == '\U{A0}' && WHITE[8] == '\U{1680}';
    assert WHITE[9] == '\U{2000}' && WHITE[10] == '\U{2001}' && WHITE[11] == '\U{2002}' && WHITE[12] == '\U{2003}';
    assert WHITE[13] == '\U{2004}' && WHITE[14] == '\U{2005}' && WHITE[15] == '\U{2006}' && WHITE[16] == '\U{2007}';
    assert WHITE[17] == '\U{2008}' && WHITE[18] == '\U{2009}' && WHITE[19] == '\U{200A}' && WHITE[20] == '\U{2028}';
    assert WHITE[21] == '\U{2029}' && WHITE[22] == '\U{202F}' && WHITE[23] == '\U{205F}' && WHITE[24] == '\U{3000}';
  }

  lemma PlainOne(c: char)
    ensures Plain([c]) == if c == '-' || c == '_' || c == ' ' then [] else [c]
  {
    assert [c][1..] == [];
  }

  /** Normalising a name drops its hyphens, underscores and spaces and keeps every other character in its place. */
  lemma {:induction false} PlainIs(a: string, b: string, c: char)
    ensures Plain(a + [c] + b) == Plain(a) + (if c == '-' || c == '_' || c == ' ' then [] else [c]) + Plain(b)
  {
    PlainOne(c);
    PlainJoins(a + [c], b);
    PlainJoins(a, [c]);
  }

  lemma {:induction false} PlainJoins(a: string, b: string)
    ensures Plain(a + b) == Plain(a) + Plain(b)
    decreases |a|
  {
    if a == [] {
      assert a + b == b;
    } else {
      PlainJoins(a[1..], b);
      assert (a + b)[1..] == a[1..] + b;
    }
  }

  /** Looking for a word anywhere in a name finds it exactly where it is. */
  lemma {:induction false} ContainsIs(s: string, w: string)
    ensures Contains(s, w) <==> exists i :: 0 <= i <= |s| && w <= s[i..]
    decreases |s|
  {
    assert s[0..] == s;
    if s != "" {
      ContainsIs(s[1..], w);
      forall i | 1 <= i <= |s| ensures s[i..] == s[1..][i - 1..] { }
      if i :| 0 <= i <= |s[1..]| && w <= s[1..][i..] {
        assert w <= s[i + 1..];
      }
      if i :| 0 <= i <= |s| && w <= s[i..] {
        assert i > 0 ==> w <= s[1..][i - 1..];
      }
    }
  }

  predicate PasswordName(k: string) {
    EndsWith(k, "password") || EndsWith(k, "passwd") || EndsWith(k, "token")
  }

  predicate KeyName(k: string) {
    || EndsWith(k, "apikey") || EndsWith(k, "authkey") || EndsWith(k, "accesskey") || EndsWith(k, "privatekey")
    || EndsWith(k, "secret")
  }

  /** One of the words that make a text worth flagging is somewhere in the name. */
  ghost predicate AccountName(r: Rules, k: string) {
    exists w, i ::
      && w in ["apikey", "api_key", "token", "password", "passwd", "secret", "auth", "cookie", "session"]
      && 0 <= i <= |k| && Normalise(r, w) <= k[i..]
  }

  // ---- what a value holds, at any depth ----

  /** A value is another, or somewhere in it. */
  ghost predicate Inside(x: Tree, t: Tree)
    decreases t
  {
    || x == t
    || match t
       case TObject(members) => exists m :: m in members && Inside(x, m.value)
       case TArray(items) => exists i :: i in items && Inside(x, i)
       case _ => false
  }

  ghost predicate MemberInside(m: TMember, t: Tree)
    decreases t
  {
    match t
    case TObject(members) => exists n :: n in members && (n == m || MemberInside(m, n.value))
    case TArray(items) => exists i :: i in items && MemberInside(m, i)
    case _ => false
  }

  /** A number, or a text with something in it to see. */
  ghost predicate Tells(x: Tree) {
    x.TNumber? || (x.TText? && exists c :: c in x.text && c !in WHITE)
  }

  predicate KeyBinding(r: Rules, x: Tree) {
    x.TText? && r.isKeybind(x.text)
  }

  /**
   * Never shared: anything told under a password's or token's name, and
   * anything but key bindings under a key's or secret's.
   */
  ghost predicate Secret(r: Rules, m: TMember) {
    var k := Normalise(r, m.key);
    exists x :: Inside(x, m.value) && Tells(x) && (PasswordName(k) || (KeyName(k) && !KeyBinding(r, x)))
  }

  /** Left out unless the user keeps it: a private text, or a text that is no key binding under an account's name. */
  ghost predicate Account(r: Rules, m: TMember) {
    && !Secret(r, m) && m.value.TText?
    && (r.isPrivate(m.value.text)
        || (AccountName(r, Normalise(r, m.key)) && Tells(m.value) && !KeyBinding(r, m.value)))
  }

  lemma BlankIs(t: string)
    ensures Blank(t) <==> !Tells(TText(t))
  {
    forall c ensures IsWhite(c) <==> c in WHITE {
      WhiteIs(c);
    }
  }

  lemma SuffixOf(k: string, a: string, b: string)
    requires EndsWith(k, a) && EndsWith(a, b)
    ensures EndsWith(k, b)
  {
    assert k[|k| - |b|..] == k[|k| - |a|..][|a| - |b|..] == a[|a| - |b|..];
  }

  /** The two kinds of names are the blocked names, told apart by what may be a hotkey. */
  lemma NamesAre(k: string)
    ensures HasBlockedName(k) <==> PasswordName(k) || KeyName(k)
    ensures PasswordName(k) ==> !HotkeyName(k)
    ensures KeyName(k) ==> HotkeyName(k)
  {
    hide EndsWith;
    BlockedNamesAre(k);
    PasswordIsNoHotkey(k);
    KeyIsHotkey(k);
  }

  lemma BlockedNamesAre(k: string)
    ensures HasBlockedName(k) <==> PasswordName(k) || KeyName(k)
  {
    hide EndsWith;
    var all := BLOCKED_ENDINGS;
    assert all[0] == "apikey" && all[1] == "authkey" && all[2] == "accesskey" && all[3] == "privatekey";
    assert all[4] == "token" && all[5] == "password" && all[6] == "passwd" && all[7] == "secret";
    forall w | w in all && EndsWith(k, w) ensures PasswordName(k) || KeyName(k) {
      var i :| 0 <= i < |all| && all[i] == w;
      assert i < 8;
    }
  }

  lemma PasswordIsNoHotkey(k: string)
    ensures PasswordName(k) ==> !HotkeyName(k)
  {
    if PasswordName(k) && HotkeyName(k) {
      assert k[|k| - 1] == 'd' || k[|k| - 1] == 'n' by {
        LastIs(k, "password");
        LastIs(k, "passwd");
        LastIs(k, "token");
      }
      assert k[|k| - 1] == 'y' || k[|k| - 1] == 't' by {
        LastIs(k, "key");
        LastIs(k, "secret");
      }
      assert false;
    }
  }

  lemma LastIs(k: string, w: string)
    requires w != ""
    ensures EndsWith(k, w) ==> k != "" && k[|k| - 1] == w[|w| - 1]
  {
    if EndsWith(k, w) {
      assert k[|k| - |w|..][|w| - 1] == w[|w| - 1];
    }
  }

  lemma KeyEndings()
    ensures EndsWith("apikey", "key") && EndsWith("authkey", "key")
    ensures EndsWith("accesskey", "key") && EndsWith("privatekey", "key")
  { }

  lemma KeyIsHotkey(k: string)
    ensures KeyName(k) ==> HotkeyName(k)
  {
    hide EndsWith;
    KeyEndings();
    if EndsWith(k, "apikey") {
      SuffixOf(k, "apikey", "key");
    } else if EndsWith(k, "authkey") {
      SuffixOf(k, "authkey", "key");
    } else if EndsWith(k, "accesskey") {
      SuffixOf(k, "accesskey", "key");
    } else if EndsWith(k, "privatekey") {
      SuffixOf(k, "privatekey", "key");
    }
  }

  /** What counts under a blocked name is something told at some depth that is not a hotkey there. */
  lemma {:induction false} HoldsIs(r: Rules, t: Tree, hotkey: bool)
    ensures HoldsT(r, t, hotkey) <==> exists x :: Inside(x, t) && Tells(x) && !(hotkey && KeyBinding(r, x))
    decreases t
  {
    hide Tells;
    match t
    case TText(text) =>
      BlankIs(text);
      assert Inside(t, t);
    case TNumber(_) =>
      NumberTells(t);
      assert Inside(t, t);
    case TWord(_) => NumberTells(t);
    case TObject(members) =>
      NumberTells(t);
      forall m | m in members
        ensures HoldsT(r, m.value, hotkey) <==>
                exists x :: Inside(x, m.value) && Tells(x) && !(hotkey && KeyBinding(r, x))
      {
        HoldsIs(r, m.value, hotkey);
      }
      InsideObject(members);
    case TArray(items) =>
      NumberTells(t);
      forall i | i in items
        ensures HoldsT(r, i, hotkey) <==> exists x :: Inside(x, i) && Tells(x) && !(hotkey && KeyBinding(r, x))
      {
        HoldsIs(r, i, hotkey);
      }
      InsideArray(items);
  }

  lemma InsideObject(members: seq<TMember>)
    ensures forall m, x :: m in members && Inside(x, m.value) ==> Inside(x, TObject(members))
  { }

  lemma InsideArray(items: seq<Tree>)
    ensures forall i, x :: i in items && Inside(x, i) ==> Inside(x, TArray(items))
  { }

  lemma NumberTells(t: Tree)
    ensures t.TNumber? ==> Tells(t)
    ensures !t.TNumber? && !t.TText? ==> !Tells(t)
  { }

  /** The fields never shared are exactly the secrets. */
  lemma SecretIs(r: Rules, m: TMember)
    ensures NeverSharedT(r, m) <==> Secret(r, m)
  {
    hide Inside, Tells, HoldsT, HasBlockedName, PasswordName, KeyName, HotkeyName, Normalise;
    var k := Normalise(r, m.key);
    NamesAre(k);
    HoldsIs(r, m.value, HotkeyName(k));
  }

  lemma AccountNameIs(r: Rules, k: string)
    ensures Secretish(r, k) <==> AccountName(r, k)
  {
    hide Normalise, Contains;
    forall w ensures Contains(k, Normalise(r, w)) <==> exists i :: 0 <= i <= |k| && Normalise(r, w) <= k[i..] {
      ContainsIs(k, Normalise(r, w));
    }
  }

  /** What becomes of a member, by what it is. */
  lemma FateIs(r: Rules, m: TMember)
    ensures FateT(r, m).Blocked? <==> Secret(r, m)
    ensures FateT(r, m).Flagged? <==> Account(r, m)
    ensures FateT(r, m).Inside? <==> !Secret(r, m) && !m.value.TText?
  {
    hide Secret, Secretish, AccountName, NeverSharedT, Normalise, Blank, Tells;
    SecretIs(r, m);
    AccountNameIs(r, Normalise(r, m.key));
    if m.value.TText? {
      BlankIs(m.value.text);
    }
  }

  // ---- what is taken out ----

  predicate PrivateText(r: Rules, t: Tree) {
    t.TText? && r.isPrivate(t.text)
  }

  ghost predicate TakenOut(r: Rules, keep: bool, m: TMember) {
    Secret(r, m) || (!keep && Account(r, m))
  }

  /** The members that stay, with what is in them redacted in turn. */
  ghost function Staying(r: Rules, keep: bool, members: seq<TMember>): seq<TMember> {
    if members == [] then []
    else
      var rest := Staying(r, keep, members[1..]);
      if TakenOut(r, keep, members[0]) then rest
      else [TMember(members[0].key, Prune(r, keep, members[0].value))] + rest
  }

  /** Pruning takes out exactly those members, and empties exactly the private texts in lists. */
  lemma {:induction false} PruneTakesOut(r: Rules, keep: bool, t: Tree)
    ensures t.TObject? ==> Prune(r, keep, t) == TObject(Staying(r, keep, t.members))
    ensures t.TArray? ==>
              var p := Prune(r, keep, t);
              && p.TArray? && |p.items| == |t.items|
              && forall i :: 0 <= i < |t.items| ==>
                   p.items[i] == if !keep && PrivateText(r, t.items[i]) then TText("") else Prune(r, keep, t.items[i])
    ensures !t.TObject? && !t.TArray? ==> Prune(r, keep, t) == t
  {
    hide Secret, Account;
    match t
    case TObject(members) => MembersStay(r, keep, members);
    case TArray(items) => ItemsEmptied(r, keep, items);
    case _ =>
  }

  lemma {:induction false} MembersStay(r: Rules, keep: bool, members: seq<TMember>)
    ensures PruneMembers(r, keep, members) == Staying(r, keep, members)
  {
    hide Secret, Account, FateT, Prune;
    if members != [] {
      MembersStay(r, keep, members[1..]);
      FateIs(r, members[0]);
      TextStays(r, keep, members[0].value);
    }
  }

  lemma TextStays(r: Rules, keep: bool, t: Tree)
    ensures t.TText? ==> Prune(r, keep, t) == t
  { }

  lemma {:induction false} ItemsEmptied(r: Rules, keep: bool, items: seq<Tree>)
    ensures var p := PruneItems(r, keep, items);
            && |p| == |items|
            && forall i :: 0 <= i < |items| ==>
                 p[i] == if !keep && PrivateText(r, items[i]) then TText("") else Prune(r, keep, items[i])
  {
    hide Prune;
    if items != [] {
      ItemsEmptied(r, keep, items[1..]);
    }
  }

  // ---- no secret is left ----

  lemma {:induction false} PrunedHasNoSecret(r: Rules, keep: bool, t: Tree, m: TMember)
    requires MemberInside(m, Prune(r, keep, t))
    ensures !NeverSharedT(r, m) && (!keep ==> !FateT(r, m).Flagged?)
    decreases t, 0
  {
    hide NeverSharedT, FateT;
    match t
    case TObject(members) =>
      var n :| n in PruneMembers(r, keep, members) && (n == m || MemberInside(m, n.value));
      PrunedMembersHaveNone(r, keep, members, n, m);
    case TArray(items) =>
      var i :| i in PruneItems(r, keep, items) && MemberInside(m, i);
      PrunedItemsHaveNone(r, keep, items, i, m);
    case _ =>
  }

  lemma {:induction false} PrunedMembersHaveNone(r: Rules, keep: bool, members: seq<TMember>, n: TMember, m: TMember)
    requires n in PruneMembers(r, keep, members) && (n == m || MemberInside(m, n.value))
    ensures !NeverSharedT(r, m) && (!keep ==> !FateT(r, m).Flagged?)
    decreases members, 2
  {
    hide NeverSharedT, FateT, PruneMember, MemberInside;
    if n in PruneMembers(r, keep, members[1..]) {
      PrunedMembersHaveNone(r, keep, members[1..], n, m);
    } else {
      assert n == PruneMember(r, keep, members[0]) && !IsGone(FateT(r, members[0]), keep);
      PrunedMemberHasNone(r, keep, members[0], m);
    }
  }

  lemma {:induction false} PrunedMemberHasNone(r: Rules, keep: bool, n: TMember, m: TMember)
    requires !IsGone(FateT(r, n), keep)
    requires var p := PruneMember(r, keep, n); p == m || MemberInside(m, p.value)
    ensures !NeverSharedT(r, m) && (!keep ==> !FateT(r, m).Flagged?)
    decreases n, 1
  {
    hide HoldsT, Blank, Secretish, HasBlockedName, HotkeyName, Normalise;
    if FateT(r, n).Inside? {
      if MemberInside(m, Prune(r, keep, n.value)) {
        PrunedHasNoSecret(r, keep, n.value, m);
      } else {
        var hotkey := HotkeyName(Normalise(r, n.key));
        if HoldsT(r, m.value, hotkey) {
          PruneHolds(r, keep, n.value, hotkey);
        }
      }
    }
  }

  lemma {:induction false} PrunedItemsHaveNone(r: Rules, keep: bool, items: seq<Tree>, i: Tree, m: TMember)
    requires i in PruneItems(r, keep, items) && MemberInside(m, i)
    ensures !NeverSharedT(r, m) && (!keep ==> !FateT(r, m).Flagged?)
    decreases items, 2
  {
    hide NeverSharedT, FateT;
    if i in PruneItems(r, keep, items[1..]) {
      PrunedItemsHaveNone(r, keep, items[1..], i, m);
    } else {
      assert !PrivateItem(r, keep, items[0]) && i == Prune(r, keep, items[0]);
      PrunedHasNoSecret(r, keep, items[0], m);
    }
  }

  /** Nothing told stands under a password's or token's name, and nothing but key bindings under a key's or secret's. */
  ghost predicate TellsNoSecret(r: Rules, m: TMember) {
    var k := Normalise(r, m.key);
    forall x :: Inside(x, m.value) && Tells(x) ==> !PasswordName(k) && (KeyName(k) ==> KeyBinding(r, x))
  }

  /**
   * In what is shared that is so at every depth, whatever the user keeps; and, unless kept, no account text is there.
   */
  lemma NoSecretIsShared(r: Rules, d: Decoder, keep: bool, text: string, doc: Document)
    requires Sane(d) && ReadDocument(d, text) == Some(doc) && doc.value.VObject?
    ensures var out := RedactSettings(r, d, keep, text);
            && out.Redacted? && ReadDocument(d, out.result.text).Some?
            && var shared := Meaning(d, ReadDocument(d, out.result.text).value.value);
               forall m :: MemberInside(m, shared) ==> TellsNoSecret(r, m) && (!keep ==> !Account(r, m))
  {
    hide ReadDocument, RedactValue, RedactSettings, Meaning, Prune, MemberInside, Account, TellsNoSecret;
    RedactedReadsAsPruned(r, d, keep, text, doc);
    forall m | MemberInside(m, Prune(r, keep, Meaning(d, doc.value)))
      ensures TellsNoSecret(r, m) && (!keep ==> !Account(r, m))
    {
      PrunedHasNoSecret(r, keep, Meaning(d, doc.value), m);
      FateIs(r, m);
      SecretIs(r, m);
      NotSecretTellsNone(r, m);
    }
  }

  lemma NotSecretTellsNone(r: Rules, m: TMember)
    ensures Secret(r, m) <==> !TellsNoSecret(r, m)
  {
    hide Normalise, PasswordName, KeyName, Tells, KeyBinding;
  }

  // ---- what is listed ----

  /** What the walk comes to: a member of an object, or a text in a list. */
  datatype Thing = InObject(m: TMember) | InList(text: string)

  /** It stands at a path, outside everything that is never shared. */
  ghost predicate StandsAt(r: Rules, t: Tree, base: string, path: string, x: Thing)
    decreases t, 0
  {
    match t
    case TObject(members) => exists n :: n in members && FieldAt(r, n, MemberPath(base, n.key), path, x)
    case TArray(items) =>
      exists i :: 0 <= i < |items| && ItemAt(r, items[i], ItemPath(base, i), path, x)
    case _ => false
  }

  ghost predicate FieldAt(r: Rules, n: TMember, here: string, path: string, x: Thing)
    decreases n, 1
  {
    (path == here && x == InObject(n)) || (!Secret(r, n) && StandsAt(r, n.value, here, path, x))
  }

  ghost predicate ItemAt(r: Rules, t: Tree, here: string, path: string, x: Thing)
    decreases t, 1
  {
    (path == here && t.TText? && x == InList(t.text)) || StandsAt(r, t, here, path, x)
  }

  /** A member never shared is named as blocked, a flagged one or a private list text as flagged. */
  ghost predicate NamedAs(r: Rules, x: Thing, blocked: bool) {
    match x
    case InObject(m) => if blocked then Secret(r, m) else Account(r, m)
    case InList(text) => !blocked && r.isPrivate(text)
  }

  /** What the walk names, on what the file means. */
  function Finds(r: Rules, t: Tree, path: string): seq<Found>
    decreases t, 0
  {
    match t
    case TObject(members) => FindsMembers(r, members, path)
    case TArray(items) => FindsItems(r, items, path, 0)
    case _ => []
  }

  function FindsMember(r: Rules, m: TMember, here: string): seq<Found>
    decreases m, 1
  {
    match FateT(r, m)
    case Blocked => [Found(here, true)]
    case Flagged => [Found(here, false)]
    case Kept => []
    case Inside => Finds(r, m.value, here)
  }

  function FindsMembers(r: Rules, members: seq<TMember>, path: string): seq<Found>
    decreases members, 2
  {
    if members == [] then []
    else FindsMember(r, members[0], MemberPath(path, members[0].key)) + FindsMembers(r, members[1..], path)
  }

  function FindsItem(r: Rules, t: Tree, here: string): seq<Found>
    decreases t, 1
  {
    if t.TText? then if r.isPrivate(t.text) then [Found(here, false)] else []
    else Finds(r, t, here)
  }

  function FindsItems(r: Rules, items: seq<Tree>, path: string, index: nat): seq<Found>
    decreases items, 2
  {
    if items == [] then []
    else FindsItem(r, items[0], ItemPath(path, index)) + FindsItems(r, items[1..], path, index + 1)
  }

  lemma {:induction false} WalkFinds(r: Rules, d: Decoder, keep: bool, text: string, v: Value, at: nat, path: string)
    ensures Walk(r, keep, text, Locate(d, v, at), path).found == Finds(r, Meaning(d, v), path)
    decreases v, 0
  {
    hide ObjectEdits, WalkMembers, WalkItems, FindsMembers, FindsItems, LocateFields, LocateElems, FieldsMeaning,
         ElemsMeaning;
    match v
    case VObject(fields, trail) => WalkFindsFields(r, d, keep, text, fields, at + 1, path);
    case VArray(elems, trail) => WalkFindsElems(r, d, keep, text, elems, at + 1, path, 0);
    case _ =>
  }

  lemma {:induction false} WalkFindsField(r: Rules, d: Decoder, keep: bool, text: string, f: Field, at: nat,
                                          path: string)
    ensures WalkMember(r, keep, text, LocateField(d, f, at), path).found ==
            FindsMember(r, FieldMeaning(d, f), MemberPath(path, Decoded(d, f.key)))
    decreases f, 1
  {
    hide Walk, Locate, Meaning, Finds, FateOf, FateT;
    var m := LocateField(d, f, at);
    FateSame(r, d, f, at);
    if FateF(r, d, f).Inside? {
      WalkFinds(r, d, keep, text, f.value, at + ValueOffset(f), MemberPath(path, m.key));
    }
  }

  lemma {:induction false} WalkFindsFields(r: Rules, d: Decoder, keep: bool, text: string, fields: seq<Field>, at: nat,
                                           path: string)
    ensures WalkMembers(r, keep, text, LocateFields(d, fields, at), path).found ==
            FindsMembers(r, FieldsMeaning(d, fields), path)
    decreases fields, 2
  {
    hide WalkMember, FindsMember, LocateField, LenField, FieldMeaning;
    if fields != [] {
      var next := at + LenField(fields[0]) + 1;
      WalkFindsField(r, d, keep, text, fields[0], at, path);
      WalkFindsFields(r, d, keep, text, fields[1..], next, path);
      KeyMeant(d, fields[0]);
      assert LocateFields(d, fields, at)[1..] == LocateFields(d, fields[1..], next);
      assert FieldsMeaning(d, fields)[1..] == FieldsMeaning(d, fields[1..]);
    }
  }

  lemma KeyMeant(d: Decoder, f: Field)
    ensures FieldMeaning(d, f).key == Decoded(d, f.key)
  { }

  lemma {:induction false} WalkFindsElem(r: Rules, d: Decoder, keep: bool, text: string, e: Elem, at: nat, here: string)
    ensures WalkItem(r, keep, text, LocateElem(d, e, at), here).found == FindsItem(r, Meaning(d, e.value), here)
    decreases e, 1
  {
    hide Walk, Finds;
    if !e.value.VText? {
      WalkFinds(r, d, keep, text, e.value, at + |e.g0|, here);
    }
  }

  lemma {:induction false} WalkFindsElems(r: Rules, d: Decoder, keep: bool, text: string, elems: seq<Elem>, at: nat,
                                          path: string, index: nat)
    ensures WalkItems(r, keep, text, LocateElems(d, elems, at), path, index).found ==
            FindsItems(r, ElemsMeaning(d, elems), path, index)
    decreases elems, 2
  {
    hide WalkItem, FindsItem, LocateElem, LenElem, Meaning, ItemPath;
    if elems != [] {
      var next := at + LenElem(elems[0]) + 1;
      WalkFindsElem(r, d, keep, text, elems[0], at, ItemPath(path, index));
      WalkFindsElems(r, d, keep, text, elems[1..], next, path, index + 1);
      assert LocateElems(d, elems, at)[1..] == LocateElems(d, elems[1..], next);
      assert ElemsMeaning(d, elems)[1..] == ElemsMeaning(d, elems[1..]);
    }
  }

  /** What is named is exactly what stands where it is said to. */
  ghost predicate Names(r: Rules, found: seq<Found>, t: Tree, base: string) {
    forall f :: f in found <==> exists x :: StandsAt(r, t, base, f.path, x) && NamedAs(r, x, f.blocked)
  }

  lemma {:induction false} FindsNames(r: Rules, t: Tree, base: string)
    ensures Names(r, Finds(r, t, base), t, base)
    decreases t, 0
  {
    hide NamedAs, FindsMembers, FindsItems, FieldAt, ItemAt;
    match t
    case TObject(members) => FindsMembersAre(r, members, base);
    case TArray(items) =>
      FindsItemsAre(r, items, base, 0);
      assert forall i: nat :: ItemPath(base, 0 + i) == ItemPath(base, i);
    case _ =>
  }

  lemma AccountIsText(r: Rules, m: TMember)
    ensures Account(r, m) ==> !Secret(r, m) && m.value.TText?
  { }

  /** What stands at a member's own place or within it. */
  lemma FieldAtIs(r: Rules, m: TMember, here: string, path: string, x: Thing)
    ensures FieldAt(r, m, here, path, x) <==>
            (path == here && x == InObject(m)) || (!Secret(r, m) && StandsAt(r, m.value, here, path, x))
    ensures m.value.TText? ==> !StandsAt(r, m.value, here, path, x)
  { }

  ghost predicate FieldNamed(r: Rules, m: TMember, here: string, f: Found) {
    exists x :: FieldAt(r, m, here, f.path, x) && NamedAs(r, x, f.blocked)
  }

  ghost predicate ItemNamed(r: Rules, t: Tree, here: string, f: Found) {
    exists x :: ItemAt(r, t, here, f.path, x) && NamedAs(r, x, f.blocked)
  }

  lemma {:induction false} FindsMemberIs(r: Rules, m: TMember, here: string)
    ensures forall f :: f in FindsMember(r, m, here) <==> FieldNamed(r, m, here, f)
    decreases m, 1
  {
    hide Secret, Account, FateT, Finds, FieldAt, StandsAt;
    FateIs(r, m);
    AccountIsText(r, m);
    if FateT(r, m).Inside? {
      FindsNames(r, m.value, here);
    }
    forall f ensures f in FindsMember(r, m, here) <==> FieldNamed(r, m, here, f) {
      FieldAtIs(r, m, here, f.path, InObject(m));
      if x :| FieldAt(r, m, here, f.path, x) && NamedAs(r, x, f.blocked) {
        FieldAtIs(r, m, here, f.path, x);
        assert f == Found(f.path, f.blocked);
      }
      if FateT(r, m).Inside? {
        if f in FindsMember(r, m, here) {
          var x :| StandsAt(r, m.value, here, f.path, x) && NamedAs(r, x, f.blocked);
          FieldAtIs(r, m, here, f.path, x);
        }
      } else if f in FindsMember(r, m, here) {
        assert NamedAs(r, InObject(m), f.blocked);
      }
    }
  }

  lemma {:induction false} FindsMembersAre(r: Rules, members: seq<TMember>, base: string)
    ensures forall f :: f in FindsMembers(r, members, base) <==>
              exists n :: n in members && FieldNamed(r, n, MemberPath(base, n.key), f)
    decreases members, 2
  {
    hide FindsMember, FieldNamed;
    if members != [] {
      var first, rest := members[0], members[1..];
      FindsMemberIs(r, first, MemberPath(base, first.key));
      FindsMembersAre(r, rest, base);
      assert forall n :: n in members <==> n == first || n in rest;
    }
  }

  lemma TextAtIs(r: Rules, t: Tree, here: string, path: string, x: Thing)
    requires t.TText?
    ensures ItemAt(r, t, here, path, x) <==> path == here && x == InList(t.text)
  { }

  lemma {:induction false} FindsItemIs(r: Rules, t: Tree, here: string)
    ensures forall f :: f in FindsItem(r, t, here) <==> ItemNamed(r, t, here, f)
    decreases t, 1
  {
    hide Finds, StandsAt;
    if t.TText? {
      forall f ensures f in FindsItem(r, t, here) <==> ItemNamed(r, t, here, f) {
        TextAtIs(r, t, here, f.path, InList(t.text));
        if x :| ItemAt(r, t, here, f.path, x) && NamedAs(r, x, f.blocked) {
          TextAtIs(r, t, here, f.path, x);
          assert f == Found(here, false);
        }
        if f in FindsItem(r, t, here) {
          assert NamedAs(r, InList(t.text), f.blocked);
        }
      }
    } else {
      hide NamedAs;
      FindsNames(r, t, here);
    }
  }

  lemma {:induction false} FindsItemsAre(r: Rules, items: seq<Tree>, base: string, index: nat)
    ensures forall f :: f in FindsItems(r, items, base, index) <==>
              exists i :: 0 <= i < |items| && ItemNamed(r, items[i], ItemPath(base, index + i), f)
    decreases items, 2
  {
    hide FindsItem, ItemNamed, ItemPath;
    if items != [] {
      var rest := items[1..];
      FindsItemIs(r, items[0], ItemPath(base, index));
      FindsItemsAre(r, rest, base, index + 1);
      forall f
        ensures (exists i :: 0 <= i < |items| && ItemNamed(r, items[i], ItemPath(base, index + i), f)) <==>
                ItemNamed(r, items[0], ItemPath(base, index), f) ||
                exists i :: 0 <= i < |rest| && ItemNamed(r, rest[i], ItemPath(base, index + 1 + i), f)
      {
        ItemsShift(r, items, base, index, f);
      }
    }
  }

  /** Of some items one is named: the first, or one of the rest. */
  lemma ItemsShift(r: Rules, items: seq<Tree>, base: string, index: nat, f: Found)
    requires items != []
    ensures (exists i :: 0 <= i < |items| && ItemNamed(r, items[i], ItemPath(base, index + i), f)) <==>
            ItemNamed(r, items[0], ItemPath(base, index), f) ||
            exists i :: 0 <= i < |items[1..]| && ItemNamed(r, items[1..][i], ItemPath(base, index + 1 + i), f)
  {
    hide ItemNamed, ItemPath;
    var rest := items[1..];
    if i :| 0 <= i < |items| && ItemNamed(r, items[i], ItemPath(base, index + i), f) {
      if i > 0 {
        assert rest[i - 1] == items[i] && index + 1 + (i - 1) == index + i;
      }
    }
    if i :| 0 <= i < |rest| && ItemNamed(r, rest[i], ItemPath(base, index + 1 + i), f) {
      assert items[i + 1] == rest[i] && index + (i + 1) == index + 1 + i;
      assert ItemNamed(r, items[i + 1], ItemPath(base, index + (i + 1)), f);
    }
    assert index + 0 == index;
    assert ItemNamed(r, items[0], ItemPath(base, index), f) ==> ItemNamed(r, items[0], ItemPath(base, index + 0), f);
  }

  lemma {:induction false} ListedAre(found: seq<Found>, blocked: bool, list: seq<string>)
    ensures forall p :: p in Listed(found, blocked, list) <==> p in list || Found(p, blocked) in found
    decreases |found|
  {
    if found != [] {
      var next := if found[0].blocked == blocked then PushOnce(list, found[0].path) else list;
      ListedAre(found[1..], blocked, next);
      assert found == [found[0]] + found[1..];
    }
  }

  /**
   * A path is listed as blocked exactly when a member that is never shared
   * stands there, and as removed, unless flags are kept, exactly when a flagged
   * member or a private list text does.
   */
  lemma ListsAre(r: Rules, d: Decoder, keep: bool, text: string, doc: Document)
    requires ReadDocument(d, text) == Some(doc) && doc.value.VObject?
    ensures var out := RedactSettings(r, d, keep, text);
            var t := Meaning(d, doc.value);
            && out.Redacted?
            && (forall p :: p in out.result.blocked <==> exists m :: StandsAt(r, t, "", p, InObject(m)) && Secret(r, m))
            && (keep ==> out.result.removed == [])
            && (!keep ==> forall p :: p in out.result.removed <==>
                            exists x :: StandsAt(r, t, "", p, x) && NamedAs(r, x, false))
  {
    hide ReadDocument, Walk, SortDesc, CanSplice, Splice, Meaning, Secret, Account, Listed, StandsAt, Finds;
    var t := Meaning(d, doc.value);
    ObjectNode(d, doc.value, ValueAt(doc));
    WalkFinds(r, d, keep, text, doc.value, ValueAt(doc), "");
    FindsNames(r, t, "");
    var found := Finds(r, t, "");
    ListedAre(found, true, []);
    ListedAre(found, false, []);
    var out := RedactSettings(r, d, keep, text);
    forall p
      ensures Found(p, true) in found <==> exists m :: StandsAt(r, t, "", p, InObject(m)) && Secret(r, m)
      ensures Found(p, false) in found <==> exists x :: StandsAt(r, t, "", p, x) && NamedAs(r, x, false)
    {
      if x :| StandsAt(r, t, "", p, x) && NamedAs(r, x, true) {
        assert x == InObject(x.m);
      }
      if m :| StandsAt(r, t, "", p, InObject(m)) && Secret(r, m) {
        assert NamedAs(r, InObject(m), true);
      }
      assert Found(p, true).path == p && Found(p, false).path == p;
    }
  }
}
