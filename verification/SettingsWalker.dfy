/**
 * The walk and the redaction as the program runs them: a growing list of
 * finds and edits, runs of neighbouring fields gathered by index, and a text
 * spliced from the back.
 */
module SettingsWalker {
  import opened SettingsSyntax
  import opened SettingsTree
  import opened SettingsRedaction
  import opened SettingsWalk
  import opened SettingsRedact
  import opened SettingsScan

  // ---- runs of members taken out, by index ----

  /** The indices from `k` on of the members taken out. */
  function GoneFrom(r: Rules, keep: bool, members: seq<Member>, k: nat): (gone: seq<nat>)
    ensures forall i :: 0 <= i < |gone| ==> k <= gone[i] < |members|
    decreases |members| - k
  {
    if k >= |members| then []
    else if Gone(r, keep, members[k]) then [k] + GoneFrom(r, keep, members, k + 1)
    else GoneFrom(r, keep, members, k + 1)
  }

  /** Where the value before the `k`th member ends, or where the first member's text begins. */
  function EndBefore(members: seq<Member>, k: nat, open: nat): nat
    requires k <= |members|
  {
    if k == 0 then open + 1 else members[k - 1].end
  }

  lemma {:induction false} GoneSize(r: Rules, keep: bool, members: seq<Member>, k: nat)
    requires k <= |members|
    ensures |GoneFrom(r, keep, members, k)| <= |members| - k
    ensures |GoneFrom(r, keep, members, k)| == |members| - k <==> Leading(r, keep, members[k..]) == |members| - k
    decreases |members| - k
  {
    hide Gone;
    if k < |members| {
      GoneSize(r, keep, members, k + 1);
      assert members[k..][1..] == members[k + 1..];
    }
  }

  lemma RunsKept(r: Rules, keep: bool, text: string, open: nat, close: nat, members: seq<Member>, p: nat)
    requires p < |members| && !Gone(r, keep, members[p])
    ensures Runs(r, keep, text, close, members[p..], EndBefore(members, p, open)) ==
            Runs(r, keep, text, close, members[p + 1..], EndBefore(members, p + 1, open))
  {
    hide Gone;
    assert members[p..][1..] == members[p + 1..];
  }

  /** Members that stay add no edit. */
  lemma {:induction false} SkipKept(r: Rules, keep: bool, text: string, open: nat, close: nat, members: seq<Member>,
                                    p: nat)
    requires p <= |members|
    ensures var gone := GoneFrom(r, keep, members, p);
            Runs(r, keep, text, close, members[p..], EndBefore(members, p, open)) ==
              if gone == [] then [] else Runs(r, keep, text, close, members[gone[0]..],
                                              EndBefore(members, gone[0], open))
    ensures var gone := GoneFrom(r, keep, members, p);
            gone != [] ==> Gone(r, keep, members[gone[0]]) && gone[1..] == GoneFrom(r, keep, members, gone[0] + 1)
    decreases |members| - p
  {
    hide Gone, Runs, EndBefore;
    if p == |members| {
      assert members[p..] == [];
      NoRuns(r, keep, text, close, EndBefore(members, p, open));
    } else if !Gone(r, keep, members[p]) {
      RunsKept(r, keep, text, open, close, members, p);
      SkipKept(r, keep, text, open, close, members, p + 1);
    }
  }

  lemma NoRuns(r: Rules, keep: bool, text: string, close: nat, e: nat)
    ensures Runs(r, keep, text, close, [], e) == []
  { }

  /** The members from `first` to `last` all go. */
  ghost predicate IsRun(r: Rules, keep: bool, members: seq<Member>, first: nat, last: nat) {
    first <= last < |members| && forall j :: first <= j <= last ==> Gone(r, keep, members[j])
  }

  lemma RunGrows(r: Rules, keep: bool, members: seq<Member>, first: nat, last: nat)
    requires first < |members| && Gone(r, keep, members[first])
    ensures IsRun(r, keep, members, first, first)
    ensures IsRun(r, keep, members, first, last) && last + 1 < |members| && Gone(r, keep, members[last + 1]) ==>
              IsRun(r, keep, members, first, last + 1)
    ensures IsRun(r, keep, members, first, last) ==> first <= last < |members|
  {
    hide Gone;
  }

  /** A run has come as far as `gone[end]`, and the rest of `gone` is what is taken out after it. */
  ghost predicate RunEnds(r: Rules, keep: bool, members: seq<Member>, gone: seq<nat>, first: nat, end: nat) {
    && end < |gone| && gone[end] < |members| && IsRun(r, keep, members, first, gone[end])
    && gone[end + 1..] == GoneFrom(r, keep, members, gone[end] + 1)
  }

  lemma RunStep(r: Rules, keep: bool, members: seq<Member>, gone: seq<nat>, first: nat, end: nat)
    requires first < |members| && Gone(r, keep, members[first]) && end < |gone|
    ensures gone[end] == first && gone[end + 1..] == GoneFrom(r, keep, members, first + 1) ==>
              RunEnds(r, keep, members, gone, first, end)
    ensures RunEnds(r, keep, members, gone, first, end) ==>
              if end + 1 < |gone| && gone[end + 1] == gone[end] + 1 then RunEnds(r, keep, members, gone, first, end + 1)
              else gone[end] + 1 < |members| ==> !Gone(r, keep, members[gone[end] + 1])
    ensures RunEnds(r, keep, members, gone, first, end) ==>
              && gone[end] < |members| && IsRun(r, keep, members, first, gone[end])
              && gone[end + 1..] == GoneFrom(r, keep, members, gone[end] + 1)
  {
    hide IsRun, Gone, GoneFrom;
    RunGrows(r, keep, members, first, gone[end]);
    if RunEnds(r, keep, members, gone, first, end) {
      GoneRest(r, keep, members, gone, end + 1, gone[end] + 1);
    }
  }

  /** The front run's length from its first member, its last, and a member after it that stays. */
  lemma {:induction false} LeadingTo(r: Rules, keep: bool, members: seq<Member>, first: nat, last: nat)
    requires IsRun(r, keep, members, first, last)
    requires last + 1 < |members| ==> !Gone(r, keep, members[last + 1])
    ensures Leading(r, keep, members[first..]) == last + 1 - first
    decreases last - first
  {
    hide Gone;
    assert members[first..][1..] == members[first + 1..];
    if first < last {
      LeadingTo(r, keep, members, first + 1, last);
    }
  }

  /** The edit for the run from `first` to `last`. */
  function OneRun(text: string, close: nat, members: seq<Member>, first: nat, last: nat, e: nat): Edit
    requires first <= last < |members|
  {
    if last + 1 < |members| then Edit(members[first].start, members[last + 1].start, "")
    else Edit(e, members[last].end + TailCut(Slice(text, members[last].end, close)), "")
  }

  lemma RunBounds(r: Rules, keep: bool, members: seq<Member>, first: nat, last: nat)
    requires IsRun(r, keep, members, first, last)
    ensures first <= last < |members|
  { }

  lemma RunsFromRun(r: Rules, keep: bool, text: string, close: nat, members: seq<Member>, first: nat, last: nat, e: nat)
    requires IsRun(r, keep, members, first, last)
    requires last + 1 < |members| ==> !Gone(r, keep, members[last + 1])
    ensures Runs(r, keep, text, close, members[first..], e) ==
            [OneRun(text, close, members, first, last, e)] + Runs(r, keep, text, close, members[last + 1..], e)
  {
    hide Gone, TailCut, Slice;
    LeadingTo(r, keep, members, first, last);
    var m := last + 1 - first;
    assert members[first..][m..] == members[last + 1..];
    assert members[first..][m - 1] == members[last];
    if last + 1 < |members| {
      assert members[first..][m] == members[last + 1];
    }
  }

  /** After a run, the end of the value before it no longer matters. */
  lemma RunsEndFree(r: Rules, keep: bool, text: string, close: nat, members: seq<Member>, e: nat, e2: nat)
    requires members == [] || !Gone(r, keep, members[0])
    ensures Runs(r, keep, text, close, members, e) == Runs(r, keep, text, close, members, e2)
  { }

  lemma GoneNext(r: Rules, keep: bool, members: seq<Member>, k: nat)
    requires k < |members|
    ensures var gone := GoneFrom(r, keep, members, k);
            && (gone != [] && gone[0] == k ==>
                Gone(r, keep, members[k]) && gone[1..] == GoneFrom(r, keep, members, k + 1))
            && (gone == [] || gone[0] != k ==> !Gone(r, keep, members[k]))
  {
    hide Gone;
  }

  /** Whether the run goes on past its members so far. */
  lemma GoneRest(r: Rules, keep: bool, members: seq<Member>, gone: seq<nat>, e: nat, k: nat)
    requires e <= |gone| && gone[e..] == GoneFrom(r, keep, members, k)
    ensures if e < |gone| && gone[e] == k then
              k < |members| && Gone(r, keep, members[k]) && gone[e + 1..] == GoneFrom(r, keep, members, k + 1)
            else k < |members| ==> !Gone(r, keep, members[k])
  {
    hide Gone;
    GoneIndex(r, keep, members, k);
    if k < |members| {
      GoneNext(r, keep, members, k);
    }
    if e < |gone| {
      assert gone[e..][0] == gone[e] && gone[e..][1..] == gone[e + 1..];
    }
  }

  lemma AllGone(r: Rules, keep: bool, members: seq<Member>)
    requires forall j :: 0 <= j < |members| ==> Gone(r, keep, members[j])
    ensures |GoneFrom(r, keep, members, 0)| == |members|
  {
    hide Gone;
    if members != [] {
      GoneSize(r, keep, members, 0);
      LeadingTo(r, keep, members, 0, |members| - 1);
    }
  }

  lemma EndBeforeFirst(members: seq<Member>, open: nat)
    ensures EndBefore(members, 0, open) == open + 1
  { }

  lemma NotEvery(r: Rules, keep: bool, members: seq<Member>, first: nat, last: nat)
    requires IsRun(r, keep, members, first, last)
    requires |GoneFrom(r, keep, members, 0)| < |members|
    ensures last + 1 == |members| ==> first > 0
  {
    hide Gone, GoneFrom;
    if first == 0 && last + 1 == |members| {
      AllGone(r, keep, members);
    }
  }

  lemma FirstGone(r: Rules, keep: bool, text: string, open: nat, close: nat, members: seq<Member>, gone: seq<nat>,
                  run: nat, next: nat)
    requires run < |gone| && next <= |members| && gone[run..] == GoneFrom(r, keep, members, next)
    ensures var first := gone[run];
            && first < |members| && Gone(r, keep, members[first]) &&
                gone[run + 1..] == GoneFrom(r, keep, members, first + 1)
            && Runs(r, keep, text, close, members[next..], EndBefore(members, next, open)) ==
               Runs(r, keep, text, close, members[first..], EndBefore(members, first, open))
  {
    hide *;
    GoneIndex(r, keep, members, next);
    assert gone[run..][0] == gone[run] && gone[run..][1..] == gone[run + 1..];
    SkipKept(r, keep, text, open, close, members, next);
  }

  lemma RunDone(r: Rules, keep: bool, text: string, open: nat, close: nat, members: seq<Member>, first: nat,
                last: nat, edits: seq<Edit>)
    requires IsRun(r, keep, members, first, last)
    requires last + 1 < |members| ==> !Gone(r, keep, members[last + 1])
    requires last + 1 == |members| ==> first > 0
    ensures var edit := if last + 1 < |members| then Edit(members[first].start, members[last + 1].start, "")
                        else Edit(members[first - 1].end,
                                  members[last].end + TailCut(Slice(text, members[last].end, close)), "");
            edits + Runs(r, keep, text, close, members[first..], EndBefore(members, first, open)) ==
            (edits + [edit]) + Runs(r, keep, text, close, members[last + 1..], EndBefore(members, last + 1, open))
  {
    hide Gone, Runs, TailCut, Slice;
    var e := EndBefore(members, first, open);
    var rest := Runs(r, keep, text, close, members[last + 1..], e);
    RunsFromRun(r, keep, text, close, members, first, last, e);
    RunsEndFree(r, keep, text, close, members[last + 1..], e, EndBefore(members, last + 1, open));
    var edit := OneRun(text, close, members, first, last, e);
    assert edits + ([edit] + rest) == (edits + [edit]) + rest;
  }

  lemma AppendAssoc(a: Walked, b: Walked, c: Walked)
    ensures Append(a, Append(b, c)) == Append(Append(a, b), c)
  { }

  lemma AppendNothing(a: Walked)
    ensures Append(a, Walked([], [])) == a
  { }

  lemma WalkMembersStep(r: Rules, keep: bool, text: string, members: seq<Member>, path: string, k: nat)
    requires k <= |members|
    ensures WalkMembers(r, keep, text, members[k..], path) ==
            if k == |members| then Walked([], [])
            else Append(WalkMember(r, keep, text, members[k], path), WalkMembers(r, keep, text, members[k + 1..], path))
  {
    hide WalkMember, Append;
    if k < |members| {
      assert members[k..][1..] == members[k + 1..];
    }
  }

  lemma WalkItemsStep(r: Rules, keep: bool, text: string, items: seq<Item>, path: string, k: nat)
    requires k <= |items|
    ensures WalkItems(r, keep, text, items[k..], path, k) ==
            if k == |items| then Walked([], [])
            else Append(WalkItem(r, keep, text, items[k], ItemPath(path, k)),
                        WalkItems(r, keep, text, items[k + 1..], path, k + 1))
  {
    hide WalkItem, ItemPath, Append;
    if k < |items| {
      assert items[k..][1..] == items[k + 1..];
    }
  }

  lemma GoneStep(r: Rules, keep: bool, members: seq<Member>, k: nat, gone: seq<nat>, goes: bool)
    requires k < |members| && goes == Gone(r, keep, members[k])
    requires gone + GoneFrom(r, keep, members, k) == GoneFrom(r, keep, members, 0)
    ensures (if goes then gone + [k] else gone) + GoneFrom(r, keep, members, k + 1) == GoneFrom(r, keep, members, 0)
  {
    hide Gone;
  }

  lemma NoMoreGone(r: Rules, keep: bool, members: seq<Member>)
    ensures GoneFrom(r, keep, members, |members|) == []
  { }

  /** Which edit an object itself adds, by how many of its members go. */
  lemma ObjectEditsByCount(r: Rules, keep: bool, text: string, open: nat, close: nat, members: seq<Member>)
    ensures var gone := GoneFrom(r, keep, members, 0);
            && |gone| <= |members|
            && ObjectEdits(r, keep, text, open, close, members) ==
                 if gone == [] then []
                 else if |gone| == |members| then [Edit(open + 1, close, "")]
                 else Runs(r, keep, text, close, members, open + 1)
  {
    hide Gone, Runs;
    assert members[0..] == members;
    GoneSize(r, keep, members, 0);
    SkipKept(r, keep, text, open, close, members, 0);
  }

  lemma GoneIndex(r: Rules, keep: bool, members: seq<Member>, k: nat)
    ensures var gone := GoneFrom(r, keep, members, k);
            forall i :: 0 <= i < |gone| ==> k <= gone[i] < |members|
  { }

  class Walker {
    const rules: Rules
    const keep: bool
    const text: string
    var found: seq<Found>
    var edits: seq<Edit>

    constructor (rules: Rules, keep: bool, text: string)
      ensures this.rules == rules && this.keep == keep && this.text == text && found == [] && edits == []
    {
      this.rules, this.keep, this.text := rules, keep, text;
      found, edits := [], [];
    }

    /** Where in `gone` the run of neighbouring indices that begins at `run` ends. */
    method EndOfRun(members: seq<Member>, gone: seq<nat>, run: nat) returns (end: nat)
      requires run < |gone| && gone[run] < |members| && Gone(rules, keep, members[gone[run]])
      requires gone[run + 1..] == GoneFrom(rules, keep, members, gone[run] + 1)
      ensures run <= end < |gone| && gone[end] < |members| && IsRun(rules, keep, members, gone[run], gone[end])
      ensures gone[end] + 1 < |members| ==> !Gone(rules, keep, members[gone[end] + 1])
      ensures gone[end + 1..] == GoneFrom(rules, keep, members, gone[end] + 1)
    {
      hide *;
      var first := gone[run];
      var last := first;
      end := run;
      RunGrows(rules, keep, members, first, last);
      RunStep(rules, keep, members, gone, first, run);
      while end + 1 < |gone| && gone[end + 1] == last + 1
        invariant run <= end < |gone| && last == gone[end]
        invariant RunEnds(rules, keep, members, gone, first, end)
        decreases |gone| - end
      {
        RunStep(rules, keep, members, gone, first, end);
        end := end + 1;
        last := last + 1;
      }
      RunStep(rules, keep, members, gone, first, end);
    }

    /** One edit for each run of neighbouring indices in `gone`. */
    method PushRuns(open: nat, close: nat, members: seq<Member>, gone: seq<nat>)
      requires gone == GoneFrom(rules, keep, members, 0) && |gone| < |members|
      modifies this`edits
      ensures edits == old(edits) + Runs(rules, keep, text, close, members, open + 1)
    {
      hide *;
      ghost var all := edits + Runs(rules, keep, text, close, members, open + 1);
      ghost var next: nat := 0;
      assert gone[0..] == gone && members[0..] == members;
      EndBeforeFirst(members, open);
      var run := 0;
      while run < |gone|
        invariant run <= |gone| && next <= |members|
        invariant gone[run..] == GoneFrom(rules, keep, members, next)
        invariant edits + Runs(rules, keep, text, close, members[next..], EndBefore(members, next, open)) == all
      {
        var first := gone[run];
        FirstGone(rules, keep, text, open, close, members, gone, run, next);
        run := EndOfRun(members, gone, run);
        var last := gone[run];
        RunBounds(rules, keep, members, first, last);
        NotEvery(rules, keep, members, first, last);
        RunDone(rules, keep, text, open, close, members, first, last, edits);
        if last + 1 < |members| {
          edits := edits + [Edit(members[first].start, members[last + 1].start, "")];
        } else {
          var tail := TailCut(Slice(text, members[last].end, close));
          edits := edits + [Edit(members[first - 1].end, members[last].end + tail, "")];
        }
        next := last + 1;
        run := run + 1;
      }
      SkipKept(rules, keep, text, open, close, members, next);
    }

    ghost function Seen(): Walked
      reads this
    {
      Walked(found, edits)
    }

    /** What becomes of one member: named if it is worth taking out, looked into if it is not a text. */
    method VisitMember(member: Member, path: string) returns (goes: bool)
      modifies this
      ensures goes == Gone(rules, keep, member)
      ensures Seen() == Append(old(Seen()), WalkMember(rules, keep, text, member, path))
      decreases member, 0
    {
      hide Walk, NeverShared, Secretish, Blank, Normalise, MemberPath;
      var here := MemberPath(path, member.key);
      var k := Normalise(rules, member.key);
      if NeverShared(rules, k, member.value) {
        found := found + [Found(here, true)];
        return true;
      }
      if Secretish(rules, k) && member.value.Text? && !Blank(member.value.text) && !rules.isKeybind(member.value.text) {
        found := found + [Found(here, false)];
        return !keep;
      }
      if member.value.Text? {
        if rules.isPrivate(member.value.text) {
          found := found + [Found(here, false)];
          return !keep;
        }
        return false;
      }
      WalkTree(member.value, here);
      return false;
    }

    /** The indices of the members taken out. */
    method VisitMembers(members: seq<Member>, path: string) returns (gone: seq<nat>)
      modifies this
      ensures gone == GoneFrom(rules, keep, members, 0)
      ensures Seen() == Append(old(Seen()), WalkMembers(rules, keep, text, members, path))
      decreases members, 1
    {
      hide *;
      gone := [];
      var index := 0;
      assert members[0..] == members;
      while index < |members|
        invariant index <= |members|
        invariant gone + GoneFrom(rules, keep, members, index) == GoneFrom(rules, keep, members, 0)
        invariant Append(old(Seen()), WalkMembers(rules, keep, text, members, path)) ==
                  Append(Seen(), WalkMembers(rules, keep, text, members[index..], path))
      {
        WalkMembersStep(rules, keep, text, members, path, index);
        AppendAssoc(Seen(), WalkMember(rules, keep, text, members[index], path),
                    WalkMembers(rules, keep, text, members[index + 1..], path));
        var goes := VisitMember(members[index], path);
        GoneStep(rules, keep, members, index, gone, goes);
        if goes {
          gone := gone + [index];
        }
        index := index + 1;
      }
      NoMoreGone(rules, keep, members);
      WalkMembersStep(rules, keep, text, members, path, index);
      AppendNothing(Seen());
    }

    method VisitItems(items: seq<Item>, path: string)
      modifies this
      ensures Seen() == Append(old(Seen()), WalkItems(rules, keep, text, items, path, 0))
      decreases items, 1
    {
      hide *;
      var index := 0;
      assert items[0..] == items;
      while index < |items|
        invariant index <= |items|
        invariant Append(old(Seen()), WalkItems(rules, keep, text, items, path, 0)) ==
                  Append(Seen(), WalkItems(rules, keep, text, items[index..], path, index))
      {
        var here := ItemPath(path, index);
        WalkItemsStep(rules, keep, text, items, path, index);
        AppendAssoc(Seen(), WalkItem(rules, keep, text, items[index], here),
                    WalkItems(rules, keep, text, items[index + 1..], path, index + 1));
        VisitItem(items[index], here);
        index := index + 1;
      }
      WalkItemsStep(rules, keep, text, items, path, index);
      AppendNothing(Seen());
    }

    /** One list item: a private text is emptied, anything else is looked into. */
    method VisitItem(item: Item, here: string)
      modifies this
      ensures Seen() == Append(old(Seen()), WalkItem(rules, keep, text, item, here))
      decreases item, 0
    {
      hide Walk;
      if item.value.Text? {
        if rules.isPrivate(item.value.text) {
          found := found + [Found(here, false)];
          if !keep {
            edits := edits + [Edit(item.start, item.end, EMPTY_TEXT)];
          }
        }
        return;
      }
      WalkTree(item.value, here);
    }

    method WalkTree(node: Node, path: string)
      modifies this
      ensures Seen() == Append(old(Seen()), Walk(rules, keep, text, node, path))
      decreases node, 2
    {
      hide WalkMembers, WalkItems, ObjectEdits, GoneFrom, Runs;
      match node
      case Object(open, close, members) =>
        var gone := VisitMembers(members, path);
        ObjectEditsByCount(rules, keep, text, open, close, members);
        if gone == [] {
          return;
        }
        if |gone| == |members| {
          edits := edits + [Edit(open + 1, close, "")];
          return;
        }
        PushRuns(open, close, members, gone);
      case Array(items) => VisitItems(items, path);
      case _ =>
    }
  }

  // ---- the splice ----

  /** The replacements made one after another in one text. */
  method SpliceAll(text: string, edits: seq<Edit>) returns (out: string)
    requires CanSplice(text, edits)
    ensures out == Splice(text, edits)
  {
    hide Replace;
    out := text;
    var k := 0;
    assert edits[0..] == edits;
    while k < |edits|
      invariant k <= |edits|
      invariant CanSplice(out, edits[k..]) && Splice(out, edits[k..]) == Splice(text, edits)
    {
      assert edits[k..][0] == edits[k] && edits[k..][1..] == edits[k + 1..];
      out := Replace(out, edits[k]);
      k := k + 1;
    }
  }

  /** The paths found, each once: those never shared, and those taken out. */
  method ListFound(found: seq<Found>, keep: bool) returns (blocked: seq<string>, removed: seq<string>)
    ensures blocked == Listed(found, true, [])
    ensures removed == if keep then [] else Listed(found, false, [])
  {
    blocked, removed := [], [];
    var k := 0;
    assert found[0..] == found;
    while k < |found|
      invariant k <= |found|
      invariant Listed(found[k..], true, blocked) == Listed(found, true, [])
      invariant if keep then removed == [] else Listed(found[k..], false, removed) == Listed(found, false, [])
    {
      assert found[k..][0] == found[k] && found[k..][1..] == found[k + 1..];
      var f := found[k];
      if f.blocked {
        blocked := PushOnce(blocked, f.path);
      } else if !keep {
        removed := PushOnce(removed, f.path);
      }
      k := k + 1;
    }
  }

  /** A settings file as it will be shared; no replacement falls outside the text it is made in. */
  method Redact(rules: Rules, d: Decoder, keep: bool, text: string) returns (out: Outcome)
    requires Sane(d)
    ensures out == RedactSettings(rules, d, keep, text)
  {
    hide ReadTree, RedactSettings, Walk, SortDesc, CanSplice, Splice, Listed, Append;
    var tree := ReadWhole(d, text);
    RedactCases(rules, d, keep, text);
    if tree.None? {
      return Refused(NotJson);
    }
    if !tree.value.Object? {
      return Refused(NotAnObject);
    }
    var walker := new Walker(rules, keep, text);
    walker.WalkTree(tree.value, "");
    NothingAppend(Walk(rules, keep, text, tree.value, ""));
    var blocked, removed := ListFound(walker.found, keep);
    var spliced := SpliceAll(text, SortDesc(walker.edits));
    out := Redacted(Redaction(spliced, blocked, removed));
  }

  lemma NothingAppend(a: Walked)
    ensures Append(Walked([], []), a) == a
  { }

  lemma RedactCases(r: Rules, d: Decoder, keep: bool, text: string)
    requires Sane(d)
    ensures var tree := ReadTree(d, text);
            var out := RedactSettings(r, d, keep, text);
            if tree.None? then out == Refused(NotJson)
            else if !tree.value.Object? then out == Refused(NotAnObject)
            else
              var w := Walk(r, keep, text, tree.value, "");
              var es := SortDesc(w.edits);
              && CanSplice(text, es)
              && out == Redacted(Redaction(Splice(text, es), Listed(w.found, true, []), if keep then []
                                           else Listed(w.found, false, [])))
  {
    hide ReadDocument, Walk, SortDesc, CanSplice, Splice, Listed, Locate, ValueEdits, Print, PrintDocument, RedactValue;
    var doc := ReadDocument(d, text);
    if doc.Some? {
      SortedWalk(r, d, keep, text, doc.value);
      EditsInOrder(r, d, keep, text, doc.value);
      SpliceIsRewrite(text, ValueEdits(r, d, keep, doc.value.value, ValueAt(doc.value)));
    }
  }
}
