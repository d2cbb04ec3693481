/**
 * Moving a mod's folder when any step may fail or stop part-way: which copy
 * is complete at every moment, and what putting it back gives.
 */
module Moves {
  import opened Disks

  // ---- what a stretch of history keeps to ----

  datatype Rule =
    | Moving(start: Snap, from: Place, to: Place, temp: Place)
    | Keeping(files: Folder)
    | Adding(there: Folder)

  ghost predicate Obeys(rule: Rule, t: Snap) {
    match rule
    case Moving(s, from, to, temp) => Between(s, from, to, temp, t)
    case Keeping(files) => Safe(files, t)
    case Adding(there) => Sub(there, Base(t, Live))
  }

  /** While a folder is moved, one of the two places holds every file of it, and neither holds anything else of it. */
  ghost predicate Between(s: Snap, from: Place, to: Place, temp: Place, t: Snap) {
    && from in s
    && (from in t ==> Sub(t[from], s[from]))
    && (to in t ==> Sub(t[to], s[from]) || (to in s && t[to] == s[to]))
    && ((from in t && t[from] == s[from]) || (to in t && t[to] == s[from]))
    && (to in s && s[to] != map[] ==> to in t && t[to] == s[to])
    && t - {from, to, temp} == s - {from, to, temp}
  }

  /** What the live folder and the one set aside hold is the original's, and one of them holds all of it. */
  ghost predicate Safe(files: Folder, t: Snap) {
    && (Live in t ==> Sub(t[Live], files))
    && (Aside in t ==> Sub(t[Aside], files))
    && ((Live in t && t[Live] == files) || (Aside in t && t[Aside] == files))
  }

  // ---- one more file copied ----

  /** `copied` is the files of `files` but those still to do. */
  ghost predicate PartCopied(files: Folder, copied: Folder, todo: set<string>) {
    todo <= files.Keys && copied.Keys == files.Keys - todo && Sub(copied, files)
  }

  lemma CopyOne(files: Folder, copied: Folder, todo: set<string>, p: string)
    requires PartCopied(files, copied, todo) && p in todo
    ensures p in files && PartCopied(files, copied[p := files[p]], todo - {p})
  { }

  lemma AllCopied(files: Folder, copied: Folder)
    ensures PartCopied(files, copied, {}) ==> copied == files
    ensures PartCopied(files, map[], files.Keys)
  { }

  /** `there` is `base` with those of `files` that were missing, but those still to do. */
  ghost predicate PartFilled(base: Folder, files: Folder, there: Folder, todo: set<string>) {
    Sub(base, there) && Sub(there, files + base) && todo <= files.Keys && files.Keys - todo <= there.Keys
  }

  lemma FillOne(base: Folder, files: Folder, there: Folder, todo: set<string>, p: string)
    requires PartFilled(base, files, there, todo) && p in todo
    ensures p in files && PartFilled(base, files, if p in there then there else there[p := files[p]], todo - {p})
  { }

  lemma AllFilled(base: Folder, files: Folder, there: Folder)
    ensures PartFilled(base, files, there, {}) ==> there == files + base && files.Keys <= there.Keys
    ensures PartFilled(base, files, base, files.Keys)
  {
    if PartFilled(base, files, there, {}) {
      assert there.Keys == (files + base).Keys;
    }
  }

  lemma FillingState(start: Snap, place: Place, files: Folder, there: Folder, todo: set<string>)
    requires PartFilled(Base(start, place), files, there, todo)
    ensures During(Filling(start, place, files), start[place := there]) && During(Filling(start, place, files), start)
  { }

  lemma CopyingState(start: Snap, place: Place, copied: Folder)
    ensures During(Writing(start, place), start[place := copied]) && During(Writing(start, place), start)
  { }

  // ---- the parts of a move keep to its rule ----

  ghost predicate Apart(s: Snap, from: Place, to: Place, temp: Place) {
    from in s && temp !in s && from != to && temp != from && temp != to
  }

  lemma MoveStarts(s: Snap, from: Place, to: Place, temp: Place)
    requires Apart(s, from, to, temp)
    ensures Obeys(Moving(s, from, to, temp), s)
    ensures Base(s, to) == map[] ==> Obeys(Moving(s, from, to, temp), (s - {from})[to := s[from]])
  { }

  lemma CopyMoves(s: Snap, from: Place, to: Place, temp: Place, t: Snap)
    requires Apart(s, from, to, temp) && During(Writing(s, temp), t)
    ensures Obeys(Moving(s, from, to, temp), t) && from in t && t[from] == s[from]
  { }

  lemma DropCopyMoves(s: Snap, from: Place, to: Place, temp: Place, mid: Snap, t: Snap)
    requires Apart(s, from, to, temp) && During(Writing(s, temp), mid) && During(Removing(mid, temp), t)
    ensures Obeys(Moving(s, from, to, temp), t) && from in t && t[from] == s[from]
  { }

  lemma PromoteMoves(s: Snap, from: Place, to: Place, temp: Place)
    requires Apart(s, from, to, temp) && Base(s, to) == map[]
    ensures var copied := s[temp := s[from]];
            && (copied - {temp})[to := copied[temp]] == s[to := s[from]]
            && Obeys(Moving(s, from, to, temp), s[to := s[from]])
  {
    var copied := s[temp := s[from]];
    assert copied - {temp} == s;
  }

  lemma DeleteMoves(s: Snap, from: Place, to: Place, temp: Place, t: Snap)
    requires Apart(s, from, to, temp) && Base(s, to) == map[] && During(Removing(s[to := s[from]], from), t)
    ensures Obeys(Moving(s, from, to, temp), t) && to in t && t[to] == s[from] && Sub(Base(t, from), s[from])
  { }

  lemma UndoMoves(s: Snap, from: Place, to: Place, temp: Place, mid: Snap, t: Snap)
    requires Apart(s, from, to, temp) && Base(s, to) == map[] && During(Removing(s[to := s[from]], from), mid)
    requires to in mid && mid[to] == s[from] && During(Filling(mid, from, s[from]), t)
    ensures Obeys(Moving(s, from, to, temp), t) && to in t && t[to] == s[from]
  {
    DeleteMoves(s, from, to, temp, mid);
    FillsUp(s[from], Base(mid, from));
  }

  lemma FillsUp(files: Folder, part: Folder)
    requires Sub(part, files)
    ensures files + part == files
  { }

  lemma DropTargetMoves(s: Snap, from: Place, to: Place, temp: Place, mid: Snap, t: Snap)
    requires Apart(s, from, to, temp) && Base(s, to) == map[]
    requires Obeys(Moving(s, from, to, temp), mid) && from in mid && mid[from] == s[from] && to in mid
    requires mid[to] == s[from]
    requires During(Removing(mid, to), t)
    ensures Obeys(Moving(s, from, to, temp), t) && from in t && t[from] == s[from]
  { }

  // The stretches of history those parts add.

  lemma CopySince(before: seq<Snap>, mid: seq<Snap>, after: seq<Snap>, s: Snap, from: Place, to: Place, temp: Place)
    requires Apart(s, from, to, temp) && Since(before, mid, Moving(s, from, to, temp), Obeys)
    requires Went(mid, after, Writing(s, temp))
    ensures Since(before, after, Moving(s, from, to, temp), Obeys)
  {
    hide Obeys, Since, During, Went;
    forall t | During(Writing(s, temp), t) ensures Obeys(Moving(s, from, to, temp), t) {
      CopyMoves(s, from, to, temp, t);
    }
    SinceThen(before, mid, after, Moving(s, from, to, temp), Writing(s, temp), Obeys);
  }

  lemma DropCopySince(before: seq<Snap>, mid: seq<Snap>, after: seq<Snap>, s: Snap, from: Place, to: Place,
                      temp: Place, copied: Snap)
    requires Apart(s, from, to, temp) && Since(before, mid, Moving(s, from, to, temp), Obeys)
    requires Went(mid, after, Removing(copied, temp))
    requires During(Writing(s, temp), copied)
    ensures Since(before, after, Moving(s, from, to, temp), Obeys)
  {
    hide Obeys, Since, During, Went;
    forall t | During(Removing(copied, temp), t) ensures Obeys(Moving(s, from, to, temp), t) {
      DropCopyMoves(s, from, to, temp, copied, t);
    }
    SinceThen(before, mid, after, Moving(s, from, to, temp), Removing(copied, temp), Obeys);
  }

  lemma DeleteSince(before: seq<Snap>, mid: seq<Snap>, after: seq<Snap>, s: Snap, from: Place, to: Place, temp: Place)
    requires Apart(s, from, to, temp) && Since(before, mid, Moving(s, from, to, temp), Obeys)
    requires Went(mid, after, Removing(s[to := s[from]], from))
    requires Base(s, to) == map[]
    ensures Since(before, after, Moving(s, from, to, temp), Obeys)
  {
    hide Obeys, Since, During, Went;
    forall t | During(Removing(s[to := s[from]], from), t) ensures Obeys(Moving(s, from, to, temp), t) {
      DeleteMoves(s, from, to, temp, t);
    }
    SinceThen(before, mid, after, Moving(s, from, to, temp), Removing(s[to := s[from]], from), Obeys);
  }

  lemma UndoSince(before: seq<Snap>, mid: seq<Snap>, after: seq<Snap>, s: Snap, from: Place, to: Place, temp: Place,
                  left: Snap)
    requires Apart(s, from, to, temp) && Since(before, mid, Moving(s, from, to, temp), Obeys)
    requires Went(mid, after, Filling(left, from, s[from]))
    requires Base(s, to) == map[] && During(Removing(s[to := s[from]], from), left) && to in left && left[to] == s[from]
    ensures Since(before, after, Moving(s, from, to, temp), Obeys)
  {
    hide Obeys, Since, During, Went;
    forall t | During(Filling(left, from, s[from]), t) ensures Obeys(Moving(s, from, to, temp), t) {
      UndoMoves(s, from, to, temp, left, t);
    }
    SinceThen(before, mid, after, Moving(s, from, to, temp), Filling(left, from, s[from]), Obeys);
  }

  lemma DropTargetSince(before: seq<Snap>, mid: seq<Snap>, after: seq<Snap>, s: Snap, from: Place, to: Place,
                        temp: Place, undone: Snap)
    requires Apart(s, from, to, temp) && Since(before, mid, Moving(s, from, to, temp), Obeys)
    requires Went(mid, after, Removing(undone, to))
    requires Base(s, to) == map[] && Obeys(Moving(s, from, to, temp), undone)
    requires from in undone && undone[from] == s[from] && to in undone && undone[to] == s[from]
    ensures Since(before, after, Moving(s, from, to, temp), Obeys)
  {
    hide Obeys, Since, During, Went;
    forall t | During(Removing(undone, to), t) ensures Obeys(Moving(s, from, to, temp), t) {
      DropTargetMoves(s, from, to, temp, undone, t);
    }
    SinceThen(before, mid, after, Moving(s, from, to, temp), Removing(undone, to), Obeys);
  }

  // ---- what setting a folder aside and putting it back keep ----

  /** Moving between the live folder and the one set aside loses nothing, whatever a move before it left there. */
  lemma MoveKeeps(files: Folder, s: Snap, from: Place, to: Place, temp: Place, t: Snap)
    requires {from, to} == {Live, Aside} && temp.Temp? && Safe(files, s) && Between(s, from, to, temp, t)
    ensures Safe(files, t)
  {
    if s[from] != files {
      assert s[to] != map[];
    }
  }

  lemma MoveKeepsSince(before: seq<Snap>, after: seq<Snap>, files: Folder, s: Snap, from: Place, to: Place, temp: Place)
    requires {from, to} == {Live, Aside} && temp.Temp? && Safe(files, s)
    requires Since(before, after, Moving(s, from, to, temp), Obeys)
    ensures Since(before, after, Keeping(files), Obeys)
  {
    forall i | |before| <= i < |after| ensures Obeys(Keeping(files), after[i]) {
      assert Obeys(Moving(s, from, to, temp), after[i]);
      MoveKeeps(files, s, from, to, temp, after[i]);
    }
  }

  /** A live folder that is partly emptied and filled from the copy set aside is the original again. */
  lemma FillIsWhole(files: Folder, s: Snap)
    requires Safe(files, s) && Aside in s
    ensures s[Aside] + Base(s, Live) == files
  {
    var all := s[Aside] + Base(s, Live);
    forall p ensures p in all <==> p in files { }
    forall p | p in all ensures all[p] == files[p] { }
  }

  /**
   * Whatever state a stopped move left, each way a restore can go gives the
   * original: filling in, moving the copy back, or leaving the live folder be.
   */
  lemma StoppedMoveCanBeRestored(files: Folder, s: Snap)
    requires Safe(files, s)
    ensures Live in s && Aside in s ==> s[Aside] + s[Live] == files
    ensures Live !in s ==> Aside in s && s[Aside] == files
    ensures Aside !in s ==> Live in s && s[Live] == files
  {
    if Aside in s {
      FillIsWhole(files, s);
    }
  }

  lemma FillKeeps(files: Folder, s: Snap, t: Snap)
    requires Safe(files, s) && Aside in s && During(Filling(s, Live, s[Aside]), t)
    ensures Safe(files, t) && Obeys(Adding(Base(s, Live)), t) && Aside in t && t[Aside] == s[Aside]
  {
    FillIsWhole(files, s);
    if t != s && s[Aside] != files {
      SubBoth(t[Live], files);
    }
  }

  lemma SubBoth(a: Folder, b: Folder)
    requires Sub(a, b) && Sub(b, a)
    ensures a == b
  { }

  lemma FillAdds(s: Snap, extra: Folder, t: Snap)
    requires During(Filling(s, Live, extra), t)
    ensures Obeys(Adding(Base(s, Live)), t)
  { }

  lemma DropAsideKeeps(files: Folder, s: Snap, t: Snap)
    requires Live in s && s[Live] == files && Safe(files, s) && During(Removing(s, Aside), t)
    ensures Safe(files, t) && Live in t && t[Live] == files
  { }

  lemma DropAsideAdds(there: Folder, s: Snap, t: Snap)
    requires Obeys(Adding(there), s) && During(Removing(s, Aside), t)
    ensures Obeys(Adding(there), t) && Base(t, Live) == Base(s, Live) && (Live in t <==> Live in s)
  { }

  lemma MovingIs(s: Snap, from: Place, to: Place, temp: Place, t: Snap)
    ensures Obeys(Moving(s, from, to, temp), t) <==> Between(s, from, to, temp, t)
  { }

  lemma SafeOnlyLive(files: Folder, s: Snap)
    ensures Safe(files, s) && Aside !in s ==> Live in s && s[Live] == files
  { }

  lemma SafeOnlyAside(files: Folder, s: Snap)
    ensures Safe(files, s) && Live !in s ==> Aside in s && s[Aside] == files
  { }

  lemma NothingToAdd(before: seq<Snap>, after: seq<Snap>, rule: Rule, last: Rule)
    requires rule == Adding(map[]) && Since(before, after, last, Obeys)
    ensures Since(before, after, rule, Obeys)
  { }

  lemma FillSince(before: seq<Snap>, after: seq<Snap>, files: Folder, s: Snap, t: Snap)
    requires Aside in s && Live in s && Went(before, after, Filling(s, Live, s[Aside]))
    requires During(Filling(s, Live, s[Aside]), t)
    ensures Since(before, after, Adding(s[Live]), Obeys) && Obeys(Adding(s[Live]), t)
    ensures Safe(files, s) ==>
            Since(before, after, Keeping(files), Obeys) && Safe(files, t) && s[Aside] + s[Live] == files
  {
    hide Obeys, Safe, During;
    FillAdds(s, s[Aside], t);
    forall i | |before| <= i < |after| ensures Obeys(Adding(s[Live]), after[i]) {
      FillAdds(s, s[Aside], after[i]);
    }
    if Safe(files, s) {
      FillIsWhole(files, s);
      FillKeeps(files, s, t);
      forall i | |before| <= i < |after| ensures Obeys(Keeping(files), after[i]) {
        FillKeeps(files, s, after[i]);
        SafeIs(files, after[i]);
      }
    }
  }

  lemma SafeIs(files: Folder, t: Snap)
    ensures Obeys(Keeping(files), t) <==> Safe(files, t)
  { }

  lemma DropAsideSince(before: seq<Snap>, mid: seq<Snap>, after: seq<Snap>, files: Folder, start: Snap, s: Snap,
                       t: Snap)
    requires Live in start && Live in s && Obeys(Adding(start[Live]), s)
    requires Since(before, mid, Adding(start[Live]), Obeys) && Went(mid, after, Removing(s, Aside))
    requires During(Removing(s, Aside), t)
    requires Safe(files, start) ==> Since(before, mid, Keeping(files), Obeys) && Safe(files, s) && s[Live] == files
    ensures Since(before, after, Adding(start[Live]), Obeys) && Live in t && t[Live] == s[Live]
    ensures Safe(files, start) ==> Since(before, after, Keeping(files), Obeys) && Safe(files, t)
  {
    hide Obeys, Safe, Since, During, Went;
    DropAsideAdds(start[Live], s, t);
    LiveIs(s);
    LiveIs(t);
    forall u | During(Removing(s, Aside), u) ensures Obeys(Adding(start[Live]), u) {
      DropAsideAdds(start[Live], s, u);
    }
    SinceThen(before, mid, after, Adding(start[Live]), Removing(s, Aside), Obeys);
    if Safe(files, start) {
      DropAsideKeeps(files, s, t);
      forall u | During(Removing(s, Aside), u) ensures Obeys(Keeping(files), u) {
        DropAsideKeeps(files, s, u);
        SafeIs(files, u);
      }
      SinceThen(before, mid, after, Keeping(files), Removing(s, Aside), Obeys);
    }
  }

  lemma LiveIs(s: Snap)
    ensures Live in s ==> Base(s, Live) == s[Live]
  { }

  /** There is something to set aside and nothing in its way, or it is aside already. */
  predicate CanSetAside(s: Snap) {
    if Live in s then Base(s, Aside) == map[] else Aside in s
  }

  /**
   * Where a move that could not rename can be stopped while it deletes: with
   * the copy made and part of the original left, which can then not be set
   * aside by running it again.
   */
  lemma StopLeavesBoth()
    ensures var files: Folder := map["a" := "1", "b" := "2"];
            var start: Snap := map[Live := files];
            var stopped: Snap := map[Live := map["b" := "2"], Aside := files];
            && During(Removing(start[Aside := files], Live), stopped)
            && Obeys(Moving(start, Live, Aside, Temp(0)), stopped)
            && Safe(files, stopped) && !CanSetAside(stopped)
  {
    var files: Folder := map["a" := "1", "b" := "2"];
    var start: Snap := map[Live := files];
    var stopped: Snap := map[Live := map["b" := "2"], Aside := files];
    assert stopped == start[Aside := files][Live := stopped[Live]];
    DeleteMoves(start, Live, Aside, Temp(0), stopped);
    MoveKeeps(files, start, Live, Aside, Temp(0), stopped);
    assert "a" in Base(stopped, Aside);
  }

  datatype MoveResult =
    | Done
    | NotDone    // nothing was moved
    | LeftSplit  // the copy is complete, the original may not be
    | Refused    // stopped before anything was touched

  /** Copies a folder file by file to a place where there is none. */
  method CopyTree(disk: Disk, from: Place, to: Place) returns (ok: bool)
    requires disk.Valid() && from in disk.now && to !in disk.now && from != to
    modifies disk
    ensures disk.Valid() && Went(old(disk.history), disk.history, Writing(old(disk.now), to))
    ensures During(Writing(old(disk.now), to), disk.now)
    ensures ok ==> disk.now == old(disk.now)[to := old(disk.now)[from]]
    ensures disk.failures == old(disk.failures) + if ok then 0 else 1
  {
    hide During, Went, PartCopied;
    var start, files := disk.now, disk.now[from];
    ghost var part := Writing(start, to);
    WentNowhere(disk.history, part);
    var copied: Folder := map[];
    CopyingState(start, to, copied);
    var fails := disk.MayFail();
    if fails {
      return false;
    }
    disk.Step(start[to := copied], old(disk.history), part);
    var todo := files.Keys;
    AllCopied(files, copied);
    while todo != {}
      invariant disk.Valid() && Went(old(disk.history), disk.history, part)
      invariant disk.now == start[to := copied] && PartCopied(files, copied, todo)
      invariant disk.failures == old(disk.failures)
      decreases |todo|
    {
      CopyingState(start, to, copied);
      var stops := disk.MayFail();
      if stops {
        return false;
      }
      var p :| p in todo;
      CopyOne(files, copied, todo, p);
      copied := copied[p := files[p]];
      CopyingState(start, to, copied);
      disk.Step(start[to := copied], old(disk.history), part);
      todo := todo - {p};
    }
    AllCopied(files, copied);
    CopyingState(start, to, copied);
    return true;
  }

  lemma WithOriginal(start: Snap, copy: Place, original: Place, there: Folder)
    requires copy in start && copy != original
    ensures start[original := there][copy] == start[copy] && start[original := there][original] == there
    ensures original in start ==> start[original := Base(start, original)] == start
  { }

  lemma FillStep(start: Snap, place: Place, files: Folder, there: Folder, todo: set<string>, p: string)
    requires PartFilled(Base(start, place), files, there, todo) && p in todo
    ensures p in files
    ensures var more := if p in there then there else there[p := files[p]];
            && PartFilled(Base(start, place), files, more, todo - {p})
            && During(Filling(start, place, files), start[place := more])
  {
    hide *;
    FillOne(Base(start, place), files, there, todo, p);
    FillingState(start, place, files, if p in there then there else there[p := files[p]], todo - {p});
  }

  lemma FillStarts(start: Snap, copy: Place, original: Place)
    requires copy in start && copy != original
    ensures var there := Base(start, original);
            && PartFilled(there, start[copy], there, start[copy].Keys)
            && During(Filling(start, original, start[copy]), start)
            && During(Filling(start, original, start[copy]), start[original := there])
            && (original in start ==> start[original := there] == start)
  {
    hide PartFilled, During, Base;
    var there := Base(start, original);
    AllFilled(there, start[copy], there);
    FillingState(start, original, start[copy], there, start[copy].Keys);
    WithOriginal(start, copy, original, there);
  }

  /** Copies file by file into `original` what `copy` has and it has not. */
  method Fill(disk: Disk, copy: Place, original: Place) returns (ok: bool)
    requires disk.Valid() && copy in disk.now && copy != original
    modifies disk
    ensures disk.Valid() && Went(old(disk.history), disk.history, Filling(old(disk.now), original, old(disk.now)[copy]))
    ensures During(Filling(old(disk.now), original, old(disk.now)[copy]), disk.now)
    ensures ok ==> disk.now == old(disk.now)[original := old(disk.now)[copy] + Base(old(disk.now), original)]
    ensures disk.failures == old(disk.failures) + if ok then 0 else 1
  {
    hide *;
    var start, files := disk.now, disk.now[copy];
    var there := Base(start, original);
    ghost var base, part := there, Filling(start, original, files);
    WentNowhere(disk.history, part);
    FillStarts(start, copy, original);
    var fails := disk.MayFail();
    if fails {
      return false;
    }
    if original !in disk.now {
      disk.Step(start[original := there], old(disk.history), part);
    }
    var todo := files.Keys;
    while todo != {}
      invariant disk.Valid() && Went(old(disk.history), disk.history, part) && During(part, disk.now)
      invariant disk.now == start[original := there] && PartFilled(base, files, there, todo)
      invariant disk.failures == old(disk.failures)
      decreases |todo|
    {
      var stops := disk.MayFail();
      if stops {
        return false;
      }
      var p :| p in todo;
      FillStep(start, original, files, there, todo, p);
      todo := todo - {p};
      if p !in there {
        there := there[p := files[p]];
        disk.Step(start[original := there], old(disk.history), part);
      }
    }
    AllFilled(base, files, there);
    return true;
  }

  /** Copies back every file of `copy` missing from `original`, then looks whether any is still missing. */
  method RestoreFromCopy(disk: Disk, copy: Place, original: Place) returns (ok: bool)
    requires disk.Valid() && copy in disk.now && copy != original
    modifies disk
    ensures disk.Valid() && Went(old(disk.history), disk.history, Filling(old(disk.now), original, old(disk.now)[copy]))
    ensures During(Filling(old(disk.now), original, old(disk.now)[copy]), disk.now)
    ensures ok ==> disk.now == old(disk.now)[original := old(disk.now)[copy] + Base(old(disk.now), original)]
    ensures disk.failures == old(disk.failures) + if ok then 0 else 1
  {
    hide During, Went, Base;
    ghost var start := disk.now;
    var filled := Fill(disk, copy, original);
    if !filled {
      return false;
    }
    WithOriginal(start, copy, original, start[copy] + Base(start, original));
    var unread := disk.MayFail();
    if unread {
      return false;
    }
    return disk.now[copy].Keys <= disk.now[original].Keys;
  }

  /** Renames, or else copies, promotes the copy and deletes the original, undoing that if it cannot be finished. */
  method AtomicMove(disk: Disk, from: Place, to: Place, temp: Place) returns (r: MoveResult)
    requires disk.Valid() && Apart(disk.now, from, to, temp)
    modifies disk
    ensures disk.Valid() && Since(old(disk.history), disk.history, Moving(old(disk.now), from, to, temp), Obeys)
    ensures Obeys(Moving(old(disk.now), from, to, temp), disk.now)
    ensures r in {Done, NotDone, LeftSplit} && (Base(old(disk.now), to) != map[] ==> r == NotDone)
    ensures r == Done ==> from !in disk.now && to in disk.now && disk.now[to] == old(disk.now)[from]
    ensures r == NotDone ==> from in disk.now && disk.now[from] == old(disk.now)[from]
    ensures r == LeftSplit ==> to in disk.now && disk.now[to] == old(disk.now)[from]
    ensures disk.failures == old(disk.failures) ==> (r == Done <==> Base(old(disk.now), to) == map[])
    ensures r == NotDone && Base(old(disk.now), to) == map[] ==> disk.failures >= old(disk.failures) + 2
    ensures r == LeftSplit ==> disk.failures >= old(disk.failures) + 3
    ensures r == NotDone && Base(old(disk.now), to) == map[] && disk.failures == old(disk.failures) + 2 ==>
              Base(disk.now, to) == map[] && disk.now - {to} == old(disk.now) - {to}
    ensures r == NotDone && Base(old(disk.now), to) != map[] && disk.failures == old(disk.failures) ==>
              disk.now == old(disk.now)
    ensures disk.failures >= old(disk.failures)
  {
    hide Since, Obeys, During, Went;
    ghost var rule, before := Moving(disk.now, from, to, temp), disk.history;
    ghost var start, files := disk.now, disk.now[from];
    SinceNone(disk.history, rule, Obeys);
    MoveStarts(start, from, to, temp);
    var renamed := disk.Rename(from, to);
    if renamed {
      SinceOne(before, before, rule, disk.now, Obeys);
      return Done;
    }

    ghost var mid := disk.history;
    var copied := CopyTree(disk, from, temp);
    ghost var withCopy := disk.now;
    CopySince(before, mid, disk.history, start, from, to, temp);
    CopyMoves(start, from, to, temp, disk.now);
    if !copied {
      DropCopy(disk, temp, before, start, from, to);
      return NotDone;
    }
    if Base(start, to) == map[] {
      PromoteMoves(start, from, to, temp);
    }
    mid := disk.history;
    var promoted := disk.Rename(temp, to);
    if !promoted {
      DropCopy(disk, temp, before, start, from, to);
      return NotDone;
    }

    SinceOne(before, mid, rule, disk.now, Obeys);
    r := FinishMove(disk, before, start, from, to, temp);
  }

  /** With the copy in place, deletes the original, or undoes the move if it cannot be deleted completely. */
  method FinishMove(disk: Disk, ghost before: seq<Snap>, ghost start: Snap, from: Place, to: Place, ghost temp: Place)
    returns (r: MoveResult)
    requires disk.Valid() && Apart(start, from, to, temp) && Base(start, to) == map[]
    requires disk.now == start[to := start[from]] && Since(before, disk.history, Moving(start, from, to, temp), Obeys)
    modifies disk
    ensures disk.Valid() && Since(before, disk.history, Moving(start, from, to, temp), Obeys)
    ensures Obeys(Moving(start, from, to, temp), disk.now) && r in {Done, NotDone, LeftSplit}
    ensures r == Done ==> from !in disk.now && to in disk.now && disk.now[to] == start[from]
    ensures r == NotDone ==> from in disk.now && disk.now[from] == start[from]
    ensures r == LeftSplit ==> to in disk.now && disk.now[to] == start[from]
    ensures disk.failures == old(disk.failures) ==> r == Done
    ensures r == NotDone ==> disk.failures >= old(disk.failures) + 1
    ensures r == NotDone && disk.failures == old(disk.failures) + 1 ==>
              Base(disk.now, to) == map[] && disk.now - {to} == start - {to}
    ensures r == LeftSplit ==> disk.failures >= old(disk.failures) + 2
    ensures disk.failures >= old(disk.failures)
  {
    hide Since, Obeys, During, Went;
    ghost var files, mid := start[from], disk.history;
    var deleted := disk.RemoveAll(from);
    DeleteSince(before, mid, disk.history, start, from, to, temp);
    DeleteMoves(start, from, to, temp, disk.now);
    if deleted && from !in disk.now && to in disk.now {
      return Done;
    }

    // The original could not be removed completely, so the move is undone.
    ghost var left := disk.now;
    mid := disk.history;
    var restored := RestoreFromCopy(disk, to, from);
    UndoSince(before, mid, disk.history, start, from, to, temp, left);
    UndoMoves(start, from, to, temp, left, disk.now);
    if !restored {
      return LeftSplit;
    }
    FillsUp(files, Base(left, from));
    ghost var undone := disk.now;
    mid := disk.history;
    var _ := disk.RemoveAll(to);
    DropTargetSince(before, mid, disk.history, start, from, to, temp, undone);
    DropTargetMoves(start, from, to, temp, undone, disk.now);
    UndoneIs(start, from, to, left);
    return NotDone;
  }

  /** With the original completed again and the copy dropped, nothing is different. */
  lemma UndoneIs(start: Snap, from: Place, to: Place, left: Snap)
    requires from in start && from != to && During(Removing(start[to := start[from]], from), left)
    ensures var undone := left[from := start[from]];
            Base(undone - {to}, to) == map[] && (undone - {to}) - {to} == start - {to}
  {
    var undone := left[from := start[from]];
    assert (undone - {to}) - {to} == undone - {to};
  }

  lemma CopyGone(start: Snap, temp: Place, copied: Snap)
    requires temp !in start && During(Writing(start, temp), copied)
    ensures copied - {temp} == start
  { }

  /** The unpromoted copy is dropped, as far as it can be. */
  method DropCopy(disk: Disk, temp: Place, ghost before: seq<Snap>, ghost start: Snap, ghost from: Place,
                  ghost to: Place)
    requires disk.Valid() && Apart(start, from, to, temp) && During(Writing(start, temp), disk.now)
    requires Since(before, disk.history, Moving(start, from, to, temp), Obeys)
    modifies disk
    ensures disk.Valid() && Since(before, disk.history, Moving(start, from, to, temp), Obeys)
    ensures Obeys(Moving(start, from, to, temp), disk.now)
    ensures from in disk.now && disk.now[from] == start[from] && disk.failures >= old(disk.failures)
    ensures disk.failures == old(disk.failures) ==> disk.now == start
  {
    hide Since, Obeys, During, Went;
    ghost var mid, copied := disk.history, disk.now;
    var _ := disk.RemoveAll(temp);
    DropCopySince(before, mid, disk.history, start, from, to, temp, copied);
    DropCopyMoves(start, from, to, temp, copied, disk.now);
    CopyGone(start, temp, copied);
  }

  /** Moves a folder unless there is already one where it would go. */
  method MoveDeployment(disk: Disk, from: Place, to: Place, temp: Place) returns (r: MoveResult)
    requires disk.Valid() && from != to && temp !in disk.now && temp != from && temp != to
    modifies disk
    ensures disk.Valid()
    ensures from !in old(disk.now) || to in old(disk.now) ==>
              && disk.now == old(disk.now) && disk.history == old(disk.history)
              && (r == Done <==> from !in old(disk.now) && to in old(disk.now))
    ensures r == Refused ==> disk.now == old(disk.now) && disk.history == old(disk.history)
    ensures from in old(disk.now) && to !in old(disk.now) ==>
              && Since(old(disk.history), disk.history, Moving(old(disk.now), from, to, temp), Obeys)
              && Obeys(Moving(old(disk.now), from, to, temp), disk.now)
              && (r == Done ==> from !in disk.now && to in disk.now && disk.now[to] == old(disk.now)[from])
              && (r == NotDone ==> from in disk.now && disk.now[from] == old(disk.now)[from])
              && (r == LeftSplit ==> to in disk.now && disk.now[to] == old(disk.now)[from])
              && (disk.failures == old(disk.failures) ==> r == Done)
  {
    hide Since, Obeys, During, Went;
    if from !in disk.now {
      return if to in disk.now then Done else Refused;
    }
    if to in disk.now {
      return Refused;
    }
    SinceNone(disk.history, Moving(disk.now, from, to, temp), Obeys);
    MoveStarts(disk.now, from, to, temp);
    var noParent := disk.MayFail();
    if noParent {
      return Refused;
    }
    r := AtomicMove(disk, from, to, temp);
  }

  /**
   * Sets the live folder aside; a stop at any step leaves the live folder or
   * the one set aside complete. A folder with files already set aside is never
   * replaced, so after a stop that left files on both sides running this again
   * never finishes it; putting the folder back does.
   */
  method Quarantine(disk: Disk, temp: Place, ghost files: Folder) returns (r: MoveResult)
    requires disk.Valid() && temp.Temp? && temp !in disk.now
    modifies disk
    ensures disk.Valid()
    ensures Safe(files, old(disk.now)) ==>
            Since(old(disk.history), disk.history, Keeping(files), Obeys) && Safe(files, disk.now)
    ensures r == Done ==> Aside in disk.now && Live !in disk.now
    ensures r == Done && Live in old(disk.now) ==> disk.now[Aside] == old(disk.now)[Live]
    ensures r == NotDone ==> Live in disk.now && Live in old(disk.now) && disk.now[Live] == old(disk.now)[Live]
    ensures r == Refused ==> disk.now == old(disk.now) && disk.history == old(disk.history)
    ensures Live in old(disk.now) && Base(old(disk.now), Aside) != map[] ==> r == NotDone || r == Refused
    ensures disk.failures == old(disk.failures) ==> (r == Done <==> CanSetAside(old(disk.now)))
  {
    hide Since, Obeys, Safe, Between, During, Went;
    SinceNone(disk.history, Keeping(files), Obeys);
    var noFolder := disk.MayFail();
    if noFolder {
      return Refused;
    }
    if Live !in disk.now {
      return if Aside in disk.now then Done else Refused;
    }
    r := AtomicMove(disk, Live, Aside, temp);
    if Safe(files, old(disk.now)) {
      MoveKeepsSince(old(disk.history), disk.history, files, old(disk.now), Live, Aside, temp);
      MovingIs(old(disk.now), Live, Aside, temp, disk.now);
      MoveKeeps(files, old(disk.now), Live, Aside, temp, disk.now);
    }
  }

  /**
   * Puts the folder set aside back. From whatever state a stopped move left,
   * a restore that succeeds gives the original, and nothing still in the live
   * folder is overwritten at any step.
   */
  method RestoreQuarantined(disk: Disk, temp: Place, ghost files: Folder) returns (r: MoveResult)
    requires disk.Valid() && temp.Temp? && temp !in disk.now
    modifies disk
    ensures disk.Valid()
    ensures Since(old(disk.history), disk.history, Adding(Base(old(disk.now), Live)), Obeys)
    ensures Safe(files, old(disk.now)) ==>
            Since(old(disk.history), disk.history, Keeping(files), Obeys) && Safe(files, disk.now)
    ensures Safe(files, old(disk.now)) && r == Done ==> Live in disk.now && disk.now[Live] == files
    ensures r == Done ==> Live in disk.now
    ensures r == Done && Live in old(disk.now) && Aside in old(disk.now) ==>
            disk.now[Live] == old(disk.now)[Aside] + old(disk.now)[Live]
    ensures disk.failures == old(disk.failures) ==> (r == Done <==> Live in old(disk.now) || Aside in old(disk.now))
    ensures disk.failures == old(disk.failures) && r == Done ==> Aside !in disk.now
    ensures r == Refused ==> disk.now == old(disk.now) && disk.history == old(disk.history)
  {
    hide Since, Obeys, Safe, Between, During, Went;
    ghost var start, before := disk.now, disk.history;
    SinceNone(disk.history, Keeping(files), Obeys);
    SinceNone(disk.history, Adding(Base(disk.now, Live)), Obeys);
    if Aside in disk.now {
      var noParent := disk.MayFail();
      if noParent {
        return Refused;
      }
      if Live in disk.now {
        r := FillFromAside(disk, files);
      } else {
        r := AtomicMove(disk, Aside, Live, temp);
        NothingToAdd(before, disk.history, Adding(Base(start, Live)), Moving(start, Aside, Live, temp));
        if Safe(files, start) {
          MoveKeepsSince(before, disk.history, files, start, Aside, Live, temp);
          MovingIs(start, Aside, Live, temp, disk.now);
          MoveKeeps(files, start, Aside, Live, temp, disk.now);
          SafeOnlyAside(files, start);
        }
      }
    } else {
      SafeOnlyLive(files, disk.now);
      return if Live in disk.now then Done else Refused;
    }
  }

  method FillFromAside(disk: Disk, ghost files: Folder) returns (r: MoveResult)
    requires disk.Valid() && Aside in disk.now && Live in disk.now
    modifies disk
    ensures disk.Valid() && r in {Done, LeftSplit}
    ensures Since(old(disk.history), disk.history, Adding(old(disk.now)[Live]), Obeys)
    ensures Safe(files, old(disk.now)) ==>
            Since(old(disk.history), disk.history, Keeping(files), Obeys) && Safe(files, disk.now)
    ensures r == Done ==> Live in disk.now && disk.now[Live] == old(disk.now)[Aside] + old(disk.now)[Live]
    ensures Safe(files, old(disk.now)) && r == Done ==> disk.now[Live] == files
    ensures disk.failures == old(disk.failures) ==> r == Done && Aside !in disk.now
  {
    hide Since, Obeys, Safe, During, Went;
    ghost var start, before := disk.now, disk.history;
    var filled := RestoreFromCopy(disk, Aside, Live);
    FillSince(before, disk.history, files, start, disk.now);
    if !filled {
      return LeftSplit;
    }
    ghost var mid, whole := disk.history, disk.now;
    var _ := disk.RemoveAll(Aside);
    DropAsideSince(before, mid, disk.history, files, start, whole, disk.now);
    return Done;
  }
}
