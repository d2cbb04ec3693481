/**
 * Verified copies of a game save: taking one, and putting one back without
 * ever losing the save that was there, even when a copy writes wrong bytes.
 */
module Saves {
  import opened Options
  import opened Disks
  import opened Texts

  /** The file that records a backup's checksums; never one of the save's own. */
  const CHECKSUMS := ".smm-backup-checksums.json"
  const PART := ".part"

  /** Each file's size and hash, by its path. */
  type Checksums = map<string, (nat, string)>

  /** How files are hashed, and how a record of checksums is written and read. */
  datatype Codec = Codec(hash: string -> string, write: Checksums -> string, read: string -> Option<Checksums>)

  ghost predicate Injective(c: Codec) {
    forall a, b :: c.hash(a) == c.hash(b) ==> a == b
  }

  ghost predicate ReadsBack(c: Codec) {
    forall sums :: c.read(c.write(sums)) == Some(sums)
  }

  /** The save's own files. */
  function Own(f: Folder): Folder {
    f - {CHECKSUMS}
  }

  function SumsOf(c: Codec, f: Folder): Checksums {
    map p | p in f :: (|f[p]|, c.hash(f[p]))
  }

  lemma SumsTell(c: Codec, a: Folder, b: Folder)
    requires Injective(c)
    ensures SumsOf(c, a) == SumsOf(c, b) <==> a == b
  {
    if SumsOf(c, a) == SumsOf(c, b) {
      assert a.Keys == SumsOf(c, a).Keys == SumsOf(c, b).Keys == b.Keys;
      forall p | p in a ensures p in b && a[p] == b[p] {
        assert SumsOf(c, a)[p] == SumsOf(c, b)[p];
      }
    }
  }

  function Entry(sums: Checksums, p: string): Option<(nat, string)> {
    if p in sums then Some(sums[p]) else None
  }

  /** The paths that differ between what was recorded and what is there. */
  function Mismatches(expected: Checksums, found: Checksums): set<string> {
    set p | p in expected.Keys + found.Keys && Entry(expected, p) != Entry(found, p)
  }

  lemma NoMismatch(expected: Checksums, found: Checksums)
    ensures Mismatches(expected, found) == {} <==> expected == found
  {
    if Mismatches(expected, found) == {} {
      forall p ensures p in expected <==> p in found {
        assert p in expected.Keys + found.Keys ==> p !in Mismatches(expected, found);
      }
      forall p | p in expected ensures expected[p] == found[p] {
        assert p !in Mismatches(expected, found);
      }
    }
  }

  predicate Finished(place: Place) {
    place.Backup? && !EndsWith(place.name, PART)
  }

  /** A backup or save name is a plain folder name. */
  predicate ValidId(id: string) {
    id != "" && id != "." && id != ".." && '/' !in id && '\\' !in id && id[0] != '.'
  }

  /** The folders a path leads through. */
  function Steps(path: string): (r: seq<string>)
    ensures r != []
  {
    if path == "" then [""]
    else
      var rest := Steps(path[1..]);
      if path[0] == '/' || path[0] == '\\' then [""] + rest
      else [[path[0]] + rest[0]] + rest[1..]
  }

  /** A valid id leads to one folder, right below, and neither back up nor to a hidden one. */
  lemma {:induction false} ValidIdIsOneStep(id: string)
    ensures ValidId(id) <==> Steps(id) == [id] && id != "" && id[0] != '.'
  {
    OneStep(id);
  }

  lemma {:induction false} OneStep(path: string)
    ensures Steps(path) == [path] <==> '/' !in path && '\\' !in path
  {
    if path != "" {
      var c, rest := path[0], Steps(path[1..]);
      OneStep(path[1..]);
      assert path == [c] + path[1..];
      if c != '/' && c != '\\' {
        assert Steps(path) == [[c] + rest[0]] + rest[1..];
        if Steps(path) == [path] {
          assert Steps(path)[0] == path && |Steps(path)| == 1;
          assert rest[1..] == [] && [c] + rest[0] == path;
          assert rest[0] == ([c] + rest[0])[1..] == path[1..];
          assert rest == [path[1..]];
        }
      }
    }
  }

  // ---- what is listed ----

  /** The files a listing of a place gives; in the live save it passes over what it cannot read. */
  function Listed(s: Snap, place: Place, unread: set<string>): Folder {
    if place == Live then Own(Base(s, place)) - unread else Own(Base(s, place))
  }

  /** Listing the live save passes over none of its files. */
  predicate AllListed(s: Snap, unread: set<string>) {
    Own(Base(s, Live)).Keys !! unread
  }

  lemma ListedIsAll(s: Snap, unread: set<string>)
    ensures Listed(s, Live, unread) == Own(Base(s, Live)) <==> AllListed(s, unread)
  {
    var own := Own(Base(s, Live));
    assert forall p :: p in own - unread <==> p in own && p !in unread;
    if forall p :: p in own ==> p !in unread {
      assert own - unread == own;
    }
  }

  // ---- what a stretch of history keeps to ----

  datatype Rule =
    | BackingUp(codec: Codec, start: Snap, unread: set<string>)
    | Restoring(codec: Codec, start: Snap, unread: set<string>)

  ghost predicate Obeys(rule: Rule, t: Snap) {
    match rule
    case BackingUp(c, s, unread) => Keeps(s, t) && NewAreWhole(c, s, unread, t)
    case Restoring(c, s, unread) => KeepsBackups(s, t) && NothingLost(s, unread, t) && NewAreWhole(c, s, unread, t)
  }

  /** Everything there was is there unchanged. */
  ghost predicate Keeps(s: Snap, t: Snap) {
    forall place :: place in s ==> place in t && t[place] == s[place]
  }

  ghost predicate SameBackups(s: Snap, t: Snap) {
    forall place: Place :: place.Backup? ==> (place in s <==> place in t) && (place in s ==> t[place] == s[place])
  }

  ghost predicate KeepsBackups(s: Snap, t: Snap) {
    forall place: Place :: place.Backup? && place in s ==> place in t && t[place] == s[place]
  }

  /** A folder holds exactly the files of the live save that are listed: all of them, if none is passed over. */
  ghost predicate HoldsSave(s: Snap, unread: set<string>, f: Folder) {
    Own(f) == Listed(s, Live, unread) && (Own(f) == Own(Base(s, Live)) <==> AllListed(s, unread))
  }

  ghost predicate BackedUp(s: Snap, unread: set<string>, t: Snap) {
    exists place :: Finished(place) && place in t && HoldsSave(s, unread, t[place])
  }

  /** A finished backup there was not before holds the save and records its checksums: none is ever part-written. */
  ghost predicate NewAreWhole(c: Codec, s: Snap, unread: set<string>, t: Snap) {
    forall place :: Finished(place) && place in t && place !in s ==>
        HoldsSave(s, unread, t[place]) && Records(c, t[place])
  }

  /** The live save is untouched, or a finished backup holds it. */
  ghost predicate NothingLost(s: Snap, unread: set<string>, t: Snap) {
    (Live in s ==> Live in t && t[Live] == s[Live]) || BackedUp(s, unread, t)
  }

  // ---- the name of a new backup ----

  /** The `k`th name tried. */
  function Stamp(base: string, k: nat): string {
    if k < 2 then base else base + "-" + Decimal(k)
  }

  lemma StampIsFinished(base: string, k: nat)
    requires !EndsWith(base, PART)
    ensures !EndsWith(Stamp(base, k), PART)
  {
    if k >= 2 {
      LastDigit(k);
      var s := Stamp(base, k);
      assert s[|s| - 1] == Decimal(k)[|Decimal(k)| - 1];
      if |s| >= |PART| {
        assert s[|s| - |PART|..][|PART| - 1] == s[|s| - 1];
      }
    }
  }

  lemma PartIsPart(s: string)
    ensures EndsWith(s + PART, PART)
  { }

  lemma StampsDiffer(base: string, j: nat, k: nat)
    requires 1 <= j && 1 <= k
    ensures Stamp(base, j) == Stamp(base, k) ==> j == k
    ensures Stamp(base, j) + PART == Stamp(base, k) + PART ==> j == k
  {
    var a, b, n := Stamp(base, j), Stamp(base, k), |base| + 1;
    assert (a + PART)[..|a|] == a && (b + PART)[..|b|] == b;
    if j >= 2 && k >= 2 {
      assert a[n..] == Decimal(j) && b[n..] == Decimal(k);
      DecimalsDiffer(j, k);
    }
  }

  /** The folders the first names would take. */
  ghost predicate Tried(base: string, k: nat, place: Place) {
    exists j :: 1 <= j < k && (place == Backup(Stamp(base, j)) || place == Backup(Stamp(base, j) + PART))
  }

  lemma NotTried(base: string, k: nat)
    requires 1 <= k && !EndsWith(base, PART)
    ensures !Tried(base, k, Backup(Stamp(base, k))) && !Tried(base, k, Backup(Stamp(base, k) + PART))
  {
    StampIsFinished(base, k);
    PartIsPart(Stamp(base, k));
    forall j | 1 <= j < k
      ensures Stamp(base, j) != Stamp(base, k) && Stamp(base, j) + PART != Stamp(base, k) + PART
      ensures Stamp(base, j) != Stamp(base, k) + PART && Stamp(base, j) + PART != Stamp(base, k)
    {
      StampIsFinished(base, j);
      PartIsPart(Stamp(base, j));
      StampsDiffer(base, j, k);
    }
  }

  lemma NextStamp(base: string, n: nat)
    ensures Stamp(base, 1) == base
    ensures n >= 2 ==> Stamp(base, n) == base + "-" + Decimal(n)
  { }

  /** A name that is taken is one not tried before. */
  lemma TriedMore(base: string, k: nat, tried: set<Place>, taken: Place)
    requires 1 <= k && !EndsWith(base, PART) && forall place :: place in tried ==> Tried(base, k, place)
    requires taken == Backup(Stamp(base, k)) || taken == Backup(Stamp(base, k) + PART)
    ensures taken !in tried && forall place :: place in tried + {taken} ==> Tried(base, k + 1, place)
  {
    hide Stamp, EndsWith;
    NotTried(base, k);
    forall place | place in tried ensures Tried(base, k + 1, place) {
      assert Tried(base, k, place);
      var j :| 1 <= j < k && (place == Backup(Stamp(base, j)) || place == Backup(Stamp(base, j) + PART));
    }
    assert Tried(base, k + 1, taken);
  }

  /** A name no backup has, finished or not. */
  method FreshStamp(disk: Disk, base: string) returns (stamp: string)
    requires !EndsWith(base, PART)
    ensures Backup(stamp) !in disk.now && Backup(stamp + PART) !in disk.now && !EndsWith(stamp, PART)
  {
    hide Stamp, Tried, EndsWith;
    stamp := base;
    var n := 2;
    ghost var tried: set<Place> := {};
    NextStamp(base, 1);
    while Backup(stamp) in disk.now || Backup(stamp + PART) in disk.now
      invariant n >= 2 && stamp == Stamp(base, n - 1)
      invariant tried <= disk.now.Keys && forall place :: place in tried ==> Tried(base, n - 1, place)
      decreases |disk.now.Keys - tried|
    {
      ghost var taken := if Backup(stamp) in disk.now then Backup(stamp) else Backup(stamp + PART);
      TriedMore(base, n - 1, tried, taken);
      Fewer(disk.now.Keys, tried, taken);
      tried := tried + {taken};
      NextStamp(base, n);
      stamp := base + "-" + Decimal(n);
      n := n + 1;
    }
    StampIsFinished(base, n - 1);
  }

  lemma Fewer(all: set<Place>, tried: set<Place>, taken: Place)
    requires taken in all && taken !in tried
    ensures |all - (tried + {taken})| < |all - tried|
  {
    assert all - tried == (all - (tried + {taken})) + {taken};
  }

  // ---- backups that record their checksums ----

  ghost predicate Records(c: Codec, f: Folder) {
    CHECKSUMS in f && f[CHECKSUMS] == c.write(SumsOf(c, Own(f)))
  }

  datatype Verdict =
    | Unrecorded
    | Verified(sums: Checksums)
    | Damaged
    | Unreadable  // the files could not be read at all

  /** A folder's own record, if it has one, is read and is that of its files. */
  predicate Intact(c: Codec, f: Folder) {
    CHECKSUMS in f ==> c.read(f[CHECKSUMS]) == Some(SumsOf(c, Own(f)))
  }

  /** Files under the record made for `f` pass exactly when they are the files of `f`. */
  lemma OnlyTheSamePass(c: Codec, f: Folder, g: Folder)
    requires Injective(c) && ReadsBack(c) && Records(c, f)
    requires CHECKSUMS in g && g[CHECKSUMS] == f[CHECKSUMS]
    ensures Intact(c, g) <==> Own(g) == Own(f)
  {
    SumsTell(c, Own(f), Own(g));
  }

  lemma RecordIsNotOwn(f: Folder, record: string)
    ensures Own(f[CHECKSUMS := record]) == Own(f)
  { }

  // ---- reading, copying and checking ----

  ghost predicate PartSummed(c: Codec, files: Folder, sums: Checksums, todo: set<string>) {
    todo <= files.Keys && sums.Keys == files.Keys - todo && forall p :: p in sums ==>
        sums[p] == (|files[p]|, c.hash(files[p]))
  }

  lemma SumOne(c: Codec, files: Folder, sums: Checksums, todo: set<string>, p: string)
    requires PartSummed(c, files, sums, todo) && p in todo
    ensures p in files && PartSummed(c, files, sums[p := (|files[p]|, c.hash(files[p]))], todo - {p})
  { }

  lemma AllSummed(c: Codec, files: Folder, sums: Checksums)
    ensures PartSummed(c, files, map[], files.Keys)
    ensures PartSummed(c, files, sums, {}) ==> sums == SumsOf(c, files)
  { }

  /** The checksums of what is listed at a place. */
  method ReadSums(disk: Disk, c: Codec, place: Place, unread: set<string>) returns (r: Option<Checksums>)
    modifies disk`failures
    ensures r.Some? ==> r.value == SumsOf(c, Listed(disk.now, place, unread))
    ensures disk.failures == old(disk.failures) + if r.Some? then 0 else 1
  {
    hide PartSummed, SumsOf, Listed;
    var files := Listed(disk.now, place, unread);
    var sums: Checksums := map[];
    var todo := files.Keys;
    AllSummed(c, files, sums);
    while todo != {}
      invariant PartSummed(c, files, sums, todo) && disk.failures == old(disk.failures)
      decreases |todo|
    {
      var fails := disk.MayFail();
      if fails {
        return None;
      }
      var p :| p in todo;
      SumOne(c, files, sums, todo, p);
      sums := sums[p := (|files[p]|, c.hash(files[p]))];
      todo := todo - {p};
    }
    AllSummed(c, files, sums);
    return Some(sums);
  }

  /** `copied` is `base` with the files of `files` but those still to do over it. */
  ghost predicate PartOver(base: Folder, files: Folder, copied: Folder, todo: set<string>) {
    && todo <= files.Keys && copied.Keys == base.Keys + (files.Keys - todo)
    && forall p :: p in copied ==> copied[p] == if p in files && p !in todo then files[p] else base[p]
  }

  lemma OverOne(base: Folder, files: Folder, copied: Folder, todo: set<string>, p: string)
    requires PartOver(base, files, copied, todo) && p in todo
    ensures p in files && PartOver(base, files, copied[p := files[p]], todo - {p})
  { }

  lemma AllOver(base: Folder, files: Folder, copied: Folder)
    ensures PartOver(base, files, base, files.Keys)
    ensures PartOver(base, files, copied, {}) ==> copied == base + files
  { }

  /** Copies files one by one; any of them may fail, or arrive with other content. */
  method CopyFiles(disk: Disk, files: Folder, to: Place) returns (ok: bool)
    requires disk.Valid()
    modifies disk
    ensures disk.Valid() && Went(old(disk.history), disk.history, Writing(old(disk.now), to))
    ensures During(Writing(old(disk.now), to), disk.now)
    ensures disk.failures >= old(disk.failures)
    ensures disk.failures == old(disk.failures) ==>
              && ok
              && disk.now == if files == map[] then old(disk.now)
                             else old(disk.now)[to := Base(old(disk.now), to) + files]
  {
    hide Went, PartOver;
    ghost var part := Writing(disk.now, to);
    WentNowhere(disk.history, part);
    var start, base := disk.now, Base(disk.now, to);
    var copied := base;
    var todo := files.Keys;
    AllOver(base, files, copied);
    while todo != {}
      invariant disk.Valid() && Went(old(disk.history), disk.history, part) && During(part, disk.now)
      invariant todo <= files.Keys && disk.failures >= old(disk.failures)
      invariant disk.now == if todo == files.Keys then start else start[to := copied]
      invariant disk.failures == old(disk.failures) ==> PartOver(base, files, copied, todo)
      decreases |todo|
    {
      var fails := disk.MayFail();
      if fails {
        return false;
      }
      var p :| p in todo;
      var arrived: string := *;
      if arrived != files[p] {
        disk.failures := disk.failures + 1;
      }
      if disk.failures == old(disk.failures) {
        OverOne(base, files, copied, todo, p);
      }
      copied := copied[p := arrived];
      disk.Step(start[to := copied], old(disk.history), part);
      todo := todo - {p};
    }
    AllOver(base, files, copied);
    return true;
  }

  method VerifyBackup(disk: Disk, c: Codec, backup: Place) returns (r: Verdict)
    requires backup.Backup? && backup in disk.now
    modifies disk`failures
    ensures r.Verified? ==>
              CHECKSUMS in disk.now[backup] && c.read(disk.now[backup][CHECKSUMS]) == Some(r.sums)
              && r.sums == SumsOf(c, Own(disk.now[backup]))
    ensures r.Unrecorded? ==> CHECKSUMS !in disk.now[backup]
    ensures r.Damaged? ==>
              CHECKSUMS in disk.now[backup]
              && c.read(disk.now[backup][CHECKSUMS]) != Some(SumsOf(c, Own(disk.now[backup])))
    ensures disk.failures == old(disk.failures) + if r == Unreadable then 1 else 0
  {
    var folder := disk.now[backup];
    var fails := disk.MayFail();
    if fails {
      return Unreadable;
    }
    if CHECKSUMS !in folder {
      return Unrecorded;
    }
    var expected := c.read(folder[CHECKSUMS]);
    if expected.None? {
      return Damaged;
    }
    var found := ReadSums(disk, c, backup, {});
    if found.None? {
      return Unreadable;
    }
    NoMismatch(expected.value, found.value);
    if Mismatches(expected.value, found.value) != {} {
      return Damaged;
    }
    return Verified(expected.value);
  }

  // ---- taking a backup ----

  lemma WritingKeeps(c: Codec, unread: set<string>, s: Snap, place: Place, t: Snap)
    requires place !in s && !Finished(place) && During(Writing(s, place), t)
    ensures Obeys(BackingUp(c, s, unread), t)
  { }

  lemma DroppingKeeps(c: Codec, unread: set<string>, s: Snap, place: Place, mid: Snap, t: Snap)
    requires place !in s && !Finished(place) && During(Writing(s, place), mid) && During(Removing(mid, place), t)
    ensures Obeys(BackingUp(c, s, unread), t)
  { }

  lemma WritingSince(c: Codec, unread: set<string>, before: seq<Snap>, after: seq<Snap>, s: Snap, place: Place)
    requires place !in s && !Finished(place) && Went(before, after, Writing(s, place))
    ensures Since(before, after, BackingUp(c, s, unread), Obeys)
  {
    hide During, Obeys;
    forall i | |before| <= i < |after| ensures Obeys(BackingUp(c, s, unread), after[i]) {
      WritingKeeps(c, unread, s, place, after[i]);
    }
  }

  lemma DroppingSince(c: Codec, unread: set<string>, before: seq<Snap>, mid: seq<Snap>, after: seq<Snap>, s: Snap,
                      place: Place, left: Snap)
    requires place !in s && !Finished(place) && During(Writing(s, place), left)
    requires Since(before, mid, BackingUp(c, s, unread), Obeys) && Went(mid, after, Removing(left, place))
    ensures Since(before, after, BackingUp(c, s, unread), Obeys)
  {
    hide During, Obeys, Since, Went;
    forall t | During(Removing(left, place), t) ensures Obeys(BackingUp(c, s, unread), t) {
      DroppingKeeps(c, unread, s, place, left, t);
    }
    SinceThen(before, mid, after, BackingUp(c, s, unread), Removing(left, place), Obeys);
  }

  /** The unfinished backup is dropped, as far as it can be. */
  method DropPart(disk: Disk, ghost c: Codec, ghost unread: set<string>, part: Place, ghost before: seq<Snap>,
                  ghost start: Snap)
    requires disk.Valid() && part !in start && !Finished(part) && During(Writing(start, part), disk.now)
    requires Since(before, disk.history, BackingUp(c, start, unread), Obeys)
    modifies disk
    ensures disk.Valid() && Since(before, disk.history, BackingUp(c, start, unread), Obeys)
    ensures Obeys(BackingUp(c, start, unread), disk.now)
    ensures disk.failures >= old(disk.failures)
  {
    hide During, Obeys, Since, Went;
    ghost var mid, left := disk.history, disk.now;
    var _ := disk.RemoveAll(part);
    DroppingSince(c, unread, before, mid, disk.history, start, part, left);
    DroppingKeeps(c, unread, start, part, left, disk.now);
  }

  lemma NewFolder(c: Codec, unread: set<string>, s: Snap, place: Place, f: Folder)
    requires place !in s
    ensures During(Writing(s, place), s[place := f]) && s[place := f] - {place} == s
    ensures Obeys(BackingUp(c, s, unread), s)
    ensures !Finished(place) || (HoldsSave(s, unread, f) && Records(c, f)) ==>
            Obeys(BackingUp(c, s, unread), s[place := f])
  { }

  /** What is listed of the live save is listed again of a copy of it. */
  lemma NewPlace(s: Snap, place: Place, f: Folder)
    requires place !in s && place.Backup?
    ensures Base(s, place) + f == f
    ensures CHECKSUMS !in f ==> Listed(s[place := f], place, {}) == f
    ensures Listed(s, place, {}) == map[]
  {
    assert CHECKSUMS !in f ==> f - {CHECKSUMS} == f;
  }

  lemma NoRecordListed(s: Snap, place: Place, unread: set<string>)
    ensures CHECKSUMS !in Listed(s, place, unread)
  { }

  lemma WrittenFolder(s: Snap, place: Place, t: Snap)
    requires place !in s && During(Writing(s, place), t) && place in t
    ensures t == s[place := t[place]]
  { }

  /**
   * A new finished backup that holds exactly what is listed of the live save,
   * or nothing but an unfinished folder; everything there was stays as it was.
   */
  method CopyToBackup(disk: Disk, c: Codec, unread: set<string>, base: string) returns (r: Option<string>)
    requires disk.Valid() && Live in disk.now && Injective(c) && !EndsWith(base, PART)
    modifies disk
    ensures disk.Valid() && Since(old(disk.history), disk.history, BackingUp(c, old(disk.now), unread), Obeys)
    ensures Obeys(BackingUp(c, old(disk.now), unread), disk.now)
    ensures r.Some? ==>
              var kept := Backup(r.value);
              && Finished(kept) && kept !in old(disk.now) && kept in disk.now
              && disk.now == old(disk.now)[kept := disk.now[kept]]
              && HoldsSave(old(disk.now), unread, disk.now[kept]) && Records(c, disk.now[kept])
    ensures disk.failures >= old(disk.failures)
    ensures disk.failures == old(disk.failures) ==> (r.Some? <==> Listed(old(disk.now), Live, unread) != map[])
  {
    hide During, Obeys, Since, Went, SumsOf, Own, AllListed;
    ghost var start, before := disk.now, disk.history;
    var stamp := FreshStamp(disk, base);
    var target, partial := Backup(stamp), Backup(stamp + PART);
    PartIsPart(stamp);
    SinceNone(before, BackingUp(c, start, unread), Obeys);
    NewFolder(c, unread, start, partial, map[]);
    var noSpace := disk.MayFail();
    if noSpace {
      return None;
    }
    var expected := ReadSums(disk, c, Live, unread);
    if expected.None? {
      return None;
    }
    var copied := CopyFiles(disk, Listed(disk.now, Live, unread), partial);
    WritingSince(c, unread, before, disk.history, start, partial);
    NoRecordListed(start, Live, unread);
    NewPlace(start, partial, Listed(start, Live, unread));
    var found := ReadSums(disk, c, partial, {});
    if !copied || found.None? {
      DropPart(disk, c, unread, partial, before, start);
      return None;
    }
    NoMismatch(expected.value, found.value);
    if Mismatches(expected.value, found.value) != {} {
      DropPart(disk, c, unread, partial, before, start);
      return None;
    }
    SumsTell(c, Listed(start, Live, unread), Listed(disk.now, partial, {}));
    var recorded := WriteRecord(disk, c, unread, expected.value, partial, before, start);
    if !recorded {
      DropPart(disk, c, unread, partial, before, start);
      return None;
    }
    ghost var mid, f := disk.history, disk.now[partial];
    ListedIsAll(start, unread);
    NewFolder(c, unread, start, partial, f);
    NewFolder(c, unread, start, target, f);
    var finished := disk.Rename(partial, target);
    if !finished {
      return None;
    }
    SinceOne(before, mid, BackingUp(c, start, unread), disk.now, Obeys);
    return Some(stamp);
  }

  /** Writes the record into the unfinished backup; a failure may leave anything as the record. */
  method WriteRecord(disk: Disk, c: Codec, ghost unread: set<string>, sums: Checksums, partial: Place,
                     ghost before: seq<Snap>,
                     ghost start: Snap) returns (ok: bool)
    requires disk.Valid() && partial.Backup? && !Finished(partial) && partial !in start
    requires During(Writing(start, partial), disk.now)
    requires Since(before, disk.history, BackingUp(c, start, unread), Obeys)
    requires sums == SumsOf(c, Own(Base(disk.now, partial)))
    modifies disk
    ensures disk.Valid() && Since(before, disk.history, BackingUp(c, start, unread), Obeys)
    ensures During(Writing(start, partial), disk.now)
    ensures disk.failures >= old(disk.failures)
    ensures disk.failures == old(disk.failures) ==> (ok <==> partial in old(disk.now))
    ensures ok ==> && partial in disk.now && disk.now == start[partial := disk.now[partial]]
                   && Own(disk.now[partial]) == old(Own(Base(disk.now, partial))) && Records(c, disk.now[partial])
  {
    hide During, Obeys, Since, Went, SumsOf, Own;
    if partial !in disk.now {
      return false;
    }
    WrittenFolder(start, partial, disk.now);
    ghost var mid := disk.history;
    var folder := disk.now[partial];
    var fails := disk.MayFail();
    var leaves: bool := *;
    if fails && !leaves {
      return false;
    }
    var record: string := *;
    record := if fails then record else c.write(sums);
    RecordIsNotOwn(folder, record);
    NewFolder(c, unread, start, partial, folder[CHECKSUMS := record]);
    SinceOne(before, mid, BackingUp(c, start, unread), start[partial := folder[CHECKSUMS := record]], Obeys);
    assert disk.now[partial := folder[CHECKSUMS := record]] == start[partial := folder[CHECKSUMS := record]];
    disk.Become(disk.now[partial := folder[CHECKSUMS := record]]);
    return !fails;
  }

  // ---- putting a backup back ----

  /** What the live save held is in a finished backup, and every backup there was is still there. */
  ghost predicate Saved(c: Codec, s: Snap, unread: set<string>, t: Snap) {
    KeepsBackups(s, t) && NewAreWhole(c, s, unread, t) && (Live in s ==> BackedUp(s, unread, t))
  }

  lemma SavedObeys(c: Codec, s: Snap, unread: set<string>, t: Snap)
    requires Saved(c, s, unread, t)
    ensures Obeys(Restoring(c, s, unread), t)
  { }

  lemma BackingUpObeys(c: Codec, s: Snap, unread: set<string>, t: Snap)
    requires Obeys(BackingUp(c, s, unread), t)
    ensures Obeys(Restoring(c, s, unread), t)
  { }

  lemma BackingUpSince(c: Codec, before: seq<Snap>, after: seq<Snap>, s: Snap, unread: set<string>)
    requires Since(before, after, BackingUp(c, s, unread), Obeys)
    ensures Since(before, after, Restoring(c, s, unread), Obeys)
  {
    hide Obeys;
    forall i | |before| <= i < |after| ensures Obeys(Restoring(c, s, unread), after[i]) {
      BackingUpObeys(c, s, unread, after[i]);
    }
  }

  lemma StillBackedUp(c: Codec, s: Snap, unread: set<string>, mid: Snap, t: Snap)
    requires Saved(c, s, unread, mid) && SameBackups(mid, t)
    ensures Saved(c, s, unread, t)
  {
    if Live in s {
      var place :| Finished(place) && place in mid && HoldsSave(s, unread, mid[place]);
      assert place in t && t[place] == mid[place];
    }
  }

  /** Nothing done to the live save or to the folder beside it touches a backup. */
  lemma PartKeepsBackups(part: Part, t: Snap)
    requires During(part, t) && !part.place.Backup?
    ensures SameBackups(part.start, t) && SameBut(part.start, t, part.place)
  { }

  ghost predicate SameBut(s: Snap, t: Snap, place: Place) {
    forall other :: other != place ==> (other in s <==> other in t) && (other in s ==> t[other] == s[other])
  }

  lemma UnchangedObeys(c: Codec, s: Snap, unread: set<string>)
    ensures Obeys(BackingUp(c, s, unread), s) && Obeys(Restoring(c, s, unread), s)
  { }

  lemma BackingUpIs(c: Codec, unread: set<string>, s: Snap, t: Snap)
    requires Obeys(BackingUp(c, s, unread), t)
    ensures KeepsBackups(s, t) && (Live in s ==> Live in t && t[Live] == s[Live])
  { }

  /** With the live save in a new finished backup, it can be let go. */
  lemma BackupSaves(c: Codec, s: Snap, unread: set<string>, t: Snap, kept: Place)
    requires Obeys(BackingUp(c, s, unread), t)
    requires Live in s ==> Finished(kept) && kept in t && HoldsSave(s, unread, t[kept])
    ensures Saved(c, s, unread, t)
  { }

  lemma PartSince(c: Codec, before: seq<Snap>, mid: seq<Snap>, after: seq<Snap>, s: Snap, unread: set<string>,
                  part: Part)
    requires Since(before, mid, Restoring(c, s, unread), Obeys) && Saved(c, s, unread, part.start)
    requires Went(mid, after, part)
    requires !part.place.Backup?
    ensures Since(before, after, Restoring(c, s, unread), Obeys)
  {
    hide During, Obeys, Saved, Since, Went, KeepsBackups, SameBackups;
    forall t | During(part, t) ensures Obeys(Restoring(c, s, unread), t) {
      PartKeepsBackups(part, t);
      StillBackedUp(c, s, unread, part.start, t);
      SavedObeys(c, s, unread, t);
    }
    SinceThen(before, mid, after, Restoring(c, s, unread), part, Obeys);
  }

  /** The copy beside the live save takes its place. */
  function Placed(s: Snap): Snap
    requires Incoming in s
  {
    (s - {Incoming})[Live := s[Incoming]]
  }

  lemma PlacedSaves(c: Codec, s: Snap, unread: set<string>, t: Snap)
    requires Saved(c, s, unread, t) && Incoming in t
    ensures Saved(c, s, unread, Placed(t))
  {
    StillBackedUp(c, s, unread, t, Placed(t));
  }

  /** However much of the live save was removed before, the copy in its place is all that is different. */
  lemma ClearedPlaces(s: Snap, cleared: Snap)
    requires SameBut(s, cleared, Live) && Incoming in cleared
    ensures Incoming in s && Placed(cleared) == Placed(s)
  { }

  /** Everything as it was but for the backup of the live save, and the copy in its place. */
  ghost predicate Exchanged(s: Snap, t: Snap, kept: Option<string>) {
    && Live in t && (kept.Some? ==> Backup(kept.value) in t)
    && t == ((if kept.Some? then s[Backup(kept.value) := t[Backup(kept.value)]] else s) - {Incoming})[Live := t[Live]]
  }

  lemma ExchangedIs(s: Snap, backedUp: Snap, broughtIn: Snap, kept: Option<string>)
    requires kept.Some? ==>
             Backup(kept.value) in backedUp && backedUp == s[Backup(kept.value) := backedUp[Backup(kept.value)]]
    requires kept.None? ==> backedUp == s
    requires SameBut(backedUp, broughtIn, Incoming) && Incoming in broughtIn
    ensures Exchanged(s, Placed(broughtIn), kept) && Placed(broughtIn)[Live] == Base(broughtIn, Incoming)
    ensures kept.Some? ==>
              var place := Backup(kept.value); place in Placed(broughtIn) && Placed(broughtIn)[place] == backedUp[place]
  {
    var t := Placed(broughtIn);
    assert kept.Some? ==> Backup(kept.value) in t && t[Backup(kept.value)] == backedUp[Backup(kept.value)];
    assert t - {Live} == backedUp - {Incoming} - {Live};
  }

  datatype RestoreResult =
    | NotABackup
    | Missing
    | Changed       // the backup is not what was recorded
    | NotRead
    | NotBackedUp   // the live save could not be backed up first
    | NotCopied
    | NotMatched    // the copy did not arrive as the backup is
    | NotReplaced   // the live save could not be removed
    | NotPlaced     // the copy could not be put in its place
    | Restored(kept: Option<string>)

  /** The results that come before the live save is touched. */
  predicate Untouched(r: RestoreResult) {
    !r.NotReplaced? && !r.NotPlaced? && !r.Restored?
  }

  lemma NoRecordOwn(f: Folder)
    ensures Own(Own(f)) == Own(f)
  { }

  lemma NewIncoming(s: Snap, f: Folder)
    ensures Incoming !in s ==>
              && Base(s, Incoming) + f == f && Base(s[Incoming := f], Incoming) == f
              && Listed(s[Incoming := f], Incoming, {}) == Own(f)
              && Listed(s, Incoming, {}) == Own(Base(s, Incoming)) == map[]
  { }

  /** Copies a backup's files beside the live save, over whatever could not be cleared away there. */
  method CopyIn(disk: Disk, ghost c: Codec, ghost unread: set<string>, files: Folder, ghost before: seq<Snap>,
                ghost start: Snap) returns (ok: bool)
    requires disk.Valid() && Own(files) == files
    requires Saved(c, start, unread, disk.now) && Since(before, disk.history, Restoring(c, start, unread), Obeys)
    modifies disk
    ensures disk.Valid() && Saved(c, start, unread, disk.now)
    ensures Since(before, disk.history, Restoring(c, start, unread), Obeys)
    ensures SameBut(old(disk.now), disk.now, Incoming)
    ensures disk.failures >= old(disk.failures)
    ensures disk.failures == old(disk.failures) ==>
              ok && (Incoming in disk.now <==> files != map[]) && Own(Base(disk.now, Incoming)) == files
  {
    hide During, Obeys, Since, Went, Own, Saved, KeepsBackups, SameBackups;
    Clear(disk, c, unread, before, start);
    ghost var mid, cleared := disk.history, disk.now;
    NewIncoming(cleared, files);
    ok := CopyFiles(disk, files, Incoming);
    PartKeepsBackups(Writing(cleared, Incoming), disk.now);
    StillBackedUp(c, start, unread, cleared, disk.now);
    PartSince(c, before, mid, disk.history, start, unread, Writing(cleared, Incoming));
  }

  lemma BackupElsewhere(s: Snap, t: Snap, backup: Place)
    requires backup.Backup? && backup in s && SameBut(s, t, Incoming)
    ensures backup in t && t[backup] == s[backup]
    ensures Listed(t, backup, {}) == Own(s[backup]) && Listed(t, Incoming, {}) == Own(Base(t, Incoming))
  { }

  lemma SameButTwice(s: Snap, t: Snap, u: Snap, place: Place)
    requires SameBut(s, t, place) && SameBut(t, u, place)
    ensures SameBut(s, u, place)
  { }

  /** Copies a backup beside the live save and checks that it arrived as it is. */
  method BringIn(disk: Disk, c: Codec, unread: set<string>, backup: Place, recorded: Option<Checksums>,
                 ghost before: seq<Snap>, ghost start: Snap) returns (problem: Option<RestoreResult>)
    requires disk.Valid() && Injective(c) && backup.Backup? && backup in disk.now
    requires Saved(c, start, unread, disk.now) && Since(before, disk.history, Restoring(c, start, unread), Obeys)
    requires recorded.Some? ==> recorded.value == SumsOf(c, Own(disk.now[backup]))
    modifies disk
    ensures disk.Valid() && Saved(c, start, unread, disk.now)
    ensures Since(before, disk.history, Restoring(c, start, unread), Obeys)
    ensures SameBut(old(disk.now), disk.now, Incoming)
    ensures problem in {None, Some(NotCopied), Some(NotMatched)}
    ensures problem.None? ==> Own(Base(disk.now, Incoming)) == Own(old(disk.now)[backup])
    ensures disk.failures >= old(disk.failures)
    ensures disk.failures == old(disk.failures) ==>
              problem.None? && (Incoming in disk.now <==> Own(old(disk.now)[backup]) != map[])
    ensures problem.Some? && disk.failures == old(disk.failures) + 1 ==> Incoming !in disk.now
  {
    hide *;
    var files := Own(disk.now[backup]);
    NoRecordOwn(disk.now[backup]);
    var copied := CopyIn(disk, c, unread, files, before, start);
    ghost var broughtIn := disk.now;
    BackupElsewhere(old(disk.now), disk.now, backup);
    SumsTell(c, files, Own(Base(disk.now, Incoming)));
    var expected := recorded;
    if expected.None? {
      expected := ReadSums(disk, c, backup, {});
    }
    var found := ReadSums(disk, c, Incoming, {});
    if !copied || expected.None? || found.None? {
      Clear(disk, c, unread, before, start);
      SameButTwice(old(disk.now), broughtIn, disk.now, Incoming);
      return Some(NotCopied);
    }
    NoMismatch(expected.value, found.value);
    if Mismatches(expected.value, found.value) != {} {
      Clear(disk, c, unread, before, start);
      SameButTwice(old(disk.now), broughtIn, disk.now, Incoming);
      return Some(NotMatched);
    }
    return None;
  }

  /** The folder beside the live save is dropped, as far as it can be. */
  method Clear(disk: Disk, ghost c: Codec, ghost unread: set<string>, ghost before: seq<Snap>, ghost start: Snap)
    requires disk.Valid() && Saved(c, start, unread, disk.now)
    requires Since(before, disk.history, Restoring(c, start, unread), Obeys)
    modifies disk
    ensures disk.Valid() && Saved(c, start, unread, disk.now)
    ensures Since(before, disk.history, Restoring(c, start, unread), Obeys)
    ensures SameBut(old(disk.now), disk.now, Incoming)
    ensures disk.failures >= old(disk.failures)
    ensures disk.failures == old(disk.failures) ==> Incoming !in disk.now
  {
    hide During, Obeys, Since, Went, Saved, KeepsBackups, SameBackups, SameBut;
    ghost var mid, now := disk.history, disk.now;
    var _ := disk.RemoveAll(Incoming);
    PartKeepsBackups(Removing(now, Incoming), disk.now);
    StillBackedUp(c, start, unread, now, disk.now);
    PartSince(c, before, mid, disk.history, start, unread, Removing(now, Incoming));
  }

  /** The live save makes way for the copy. */
  method Replace(disk: Disk, ghost c: Codec, ghost unread: set<string>, ghost before: seq<Snap>,
                 ghost start: Snap) returns (problem: Option<RestoreResult>)
    requires disk.Valid() && Saved(c, start, unread, disk.now)
    requires Since(before, disk.history, Restoring(c, start, unread), Obeys)
    modifies disk
    ensures disk.Valid() && Saved(c, start, unread, disk.now)
    ensures Since(before, disk.history, Restoring(c, start, unread), Obeys)
    ensures problem in {None, Some(NotReplaced), Some(NotPlaced)}
    ensures problem.None? ==> Incoming in old(disk.now) && disk.now == Placed(old(disk.now))
    ensures disk.failures >= old(disk.failures)
    ensures disk.failures == old(disk.failures) ==> (problem.None? <==> Incoming in old(disk.now))
    ensures disk.failures == old(disk.failures) && problem.Some? ==> problem == Some(NotPlaced) && Live !in disk.now
  {
    hide During, Obeys, Since, Went, Saved, KeepsBackups, SameBackups, SameBut;
    ghost var mid, now := disk.history, disk.now;
    if Live in disk.now {
      var removed := disk.RemoveAll(Live);
      PartKeepsBackups(Removing(now, Live), disk.now);
      StillBackedUp(c, start, unread, now, disk.now);
      PartSince(c, before, mid, disk.history, start, unread, Removing(now, Live));
      if !removed {
        return Some(NotReplaced);
      }
    }
    if Incoming !in disk.now {
      return Some(NotPlaced);
    }
    mid := disk.history;
    ghost var cleared := disk.now;
    PlacedSaves(c, start, unread, disk.now);
    var placed := disk.Rename(Incoming, Live);
    if !placed {
      return Some(NotPlaced);
    }
    ClearedPlaces(now, cleared);
    SavedObeys(c, start, unread, disk.now);
    SinceOne(before, mid, Restoring(c, start, unread), disk.now, Obeys);
    return None;
  }

  /** What there is to restore, and a live save that can be backed up first. */
  predicate CanRestore(c: Codec, s: Snap, unread: set<string>, stamp: string) {
    && ValidId(stamp) && Finished(Backup(stamp)) && Backup(stamp) in s
    && Intact(c, s[Backup(stamp)])
    && (Live in s ==> Listed(s, Live, unread) != map[])
  }

  /**
   * Puts a backup back. At every step the live save is untouched or a finished
   * backup holds it; a backup that fails its own record changes nothing; a
   * restore that succeeds leaves the live save with exactly the backup's files.
   */
  method Restore(disk: Disk, c: Codec, unread: set<string>, stamp: string, base: string) returns (r: RestoreResult)
    requires disk.Valid() && Injective(c) && !EndsWith(base, PART)
    modifies disk
    ensures disk.Valid() && Since(old(disk.history), disk.history, Restoring(c, old(disk.now), unread), Obeys)
    ensures Obeys(Restoring(c, old(disk.now), unread), disk.now)
    ensures r.NotABackup? <==> !ValidId(stamp) || !Finished(Backup(stamp))
    ensures !r.NotABackup? ==> (r.Missing? <==> Backup(stamp) !in old(disk.now))
    ensures !r.NotABackup? && !r.Missing? ==>
              var f := old(disk.now)[Backup(stamp)];
              && (r.Restored? ==> CHECKSUMS !in f || c.read(f[CHECKSUMS]) == Some(SumsOf(c, Own(f))))
              && (CHECKSUMS in f && c.read(f[CHECKSUMS]) != Some(SumsOf(c, Own(f))) ==>
                    r.Changed? || (r.NotRead? && disk.failures > old(disk.failures)))
              && (r.Changed? ==> CHECKSUMS in f && c.read(f[CHECKSUMS]) != Some(SumsOf(c, Own(f))))
    ensures r.NotABackup? || r.Missing? || r.Changed? || r.NotRead? ==>
            disk.now == old(disk.now) && disk.history == old(disk.history)
    ensures Untouched(r) && Live in old(disk.now) ==> Live in disk.now && disk.now[Live] == old(disk.now)[Live]
    ensures r.Restored? ==>
              && Exchanged(old(disk.now), disk.now, r.kept) && Backup(stamp) in old(disk.now)
              && Own(disk.now[Live]) == Own(old(disk.now)[Backup(stamp)])
              && (r.kept.Some? <==> Live in old(disk.now))
              && (r.kept.Some? ==>
                    && Finished(Backup(r.kept.value)) && Backup(r.kept.value) !in old(disk.now)
                    && HoldsSave(old(disk.now), unread, disk.now[Backup(r.kept.value)]))
    ensures disk.failures >= old(disk.failures)
    ensures disk.failures == old(disk.failures) ==>
              (r.Restored? <==>
               CanRestore(c, old(disk.now), unread, stamp) && Own(old(disk.now)[Backup(stamp)]) != map[])
    ensures (r.NotCopied? || r.NotMatched?) && disk.failures == old(disk.failures) + 1 ==> Incoming !in disk.now
    ensures disk.failures == old(disk.failures) && CanRestore(c, old(disk.now), unread, stamp) && !r.Restored? ==>
              r.NotPlaced? && Live !in disk.now
  {
    hide During, Obeys, Since, Went, SumsOf, Own, Exchanged, HoldsSave;
    SinceNone(disk.history, Restoring(c, disk.now, unread), Obeys);
    UnchangedObeys(c, disk.now, unread);
    if !ValidId(stamp) || EndsWith(stamp, PART) {
      return NotABackup;
    }
    var backup := Backup(stamp);
    if backup !in disk.now {
      return Missing;
    }
    var verdict := VerifyBackup(disk, c, backup);
    if verdict.Damaged? {
      return Changed;
    }
    if verdict.Unreadable? {
      return NotRead;
    }
    r := Exchange(disk, c, unread, backup, if verdict.Verified? then Some(verdict.sums) else None, base);
  }

  lemma BackupMade(c: Codec, s: Snap, unread: set<string>, t: Snap, before: seq<Snap>, after: seq<Snap>,
                   kept: Option<string>)
    requires Live !in s ==> t == s && after == before && kept.None?
    requires Live in s ==> Obeys(BackingUp(c, s, unread), t) && Since(before, after, BackingUp(c, s, unread), Obeys)
    requires kept.Some? ==>
               var place := Backup(kept.value);
               Finished(place) && place in t && HoldsSave(s, unread, t[place])
    ensures Since(before, after, Restoring(c, s, unread), Obeys) && Obeys(Restoring(c, s, unread), t)
    ensures Live in s ==> Live in t && t[Live] == s[Live]
    ensures forall place: Place :: place.Backup? && place in s ==> place in t && t[place] == s[place]
    ensures kept.Some? || Live !in s ==> Saved(c, s, unread, t)
  {
    hide Since, Obeys, HoldsSave;
    UnchangedObeys(c, s, unread);
    if Live in s {
      BackingUpSince(c, before, after, s, unread);
      BackingUpObeys(c, s, unread, t);
    } else {
      SinceNone(before, Restoring(c, s, unread), Obeys);
    }
    BackingUpIs(c, unread, s, t);
    if kept.Some? || Live !in s {
      BackupSaves(c, s, unread, t, if kept.Some? then Backup(kept.value) else Live);
    }
  }

  lemma StillThere(s: Snap, t: Snap, place: Place)
    requires SameBut(s, t, Incoming) && place != Incoming && place in s
    ensures place in t && t[place] == s[place]
  { }

  /** Backs the live save up, if there is one, and puts a backup that is not damaged in its place. */
  method Exchange(disk: Disk, c: Codec, unread: set<string>, backup: Place, recorded: Option<Checksums>, base: string)
    returns (r: RestoreResult)
    requires disk.Valid() && Injective(c) && !EndsWith(base, PART) && backup.Backup? && backup in disk.now
    requires recorded.Some? ==> recorded.value == SumsOf(c, Own(disk.now[backup]))
    modifies disk
    ensures disk.Valid() && Since(old(disk.history), disk.history, Restoring(c, old(disk.now), unread), Obeys)
    ensures Obeys(Restoring(c, old(disk.now), unread), disk.now)
    ensures !r.NotABackup? && !r.Missing? && !r.Changed? && !r.NotRead? && disk.failures >= old(disk.failures)
    ensures Untouched(r) && Live in old(disk.now) ==> Live in disk.now && disk.now[Live] == old(disk.now)[Live]
    ensures r.Restored? ==>
              && Exchanged(old(disk.now), disk.now, r.kept)
              && Own(disk.now[Live]) == Own(old(disk.now)[backup])
              && (r.kept.Some? <==> Live in old(disk.now))
              && (r.kept.Some? ==>
                    && Finished(Backup(r.kept.value)) && Backup(r.kept.value) !in old(disk.now)
                    && HoldsSave(old(disk.now), unread, disk.now[Backup(r.kept.value)]))
    ensures (r.NotCopied? || r.NotMatched?) && disk.failures == old(disk.failures) + 1 ==> Incoming !in disk.now
    ensures disk.failures == old(disk.failures) ==>
              && (r.NotBackedUp? <==> Live in old(disk.now) && Listed(old(disk.now), Live, unread) == map[])
              && (!r.NotBackedUp? ==> (r.Restored? <==> Own(old(disk.now)[backup]) != map[]))
              && (!r.NotBackedUp? && !r.Restored? ==> r.NotPlaced? && Live !in disk.now)
  {
    hide During, Obeys, Since, Went, SumsOf, Own, Saved, KeepsBackups, SameBackups, SameBut, Exchanged, HoldsSave,
         Placed;
    ghost var start, before := disk.now, disk.history;
    var kept := None;
    if Live in disk.now {
      kept := CopyToBackup(disk, c, unread, base);
      if kept.None? {
        BackupMade(c, start, unread, disk.now, before, disk.history, kept);
        return NotBackedUp;
      }
    }
    ghost var backedUp := disk.now;
    BackupMade(c, start, unread, disk.now, before, disk.history, kept);
    var problem := BringIn(disk, c, unread, backup, recorded, before, start);
    ghost var broughtIn := disk.now;
    SavedObeys(c, start, unread, disk.now);
    if Live in start {
      StillThere(backedUp, broughtIn, Live);
    }
    if problem.Some? {
      return problem.value;
    }
    problem := Replace(disk, c, unread, before, start);
    SavedObeys(c, start, unread, disk.now);
    if problem.Some? {
      return problem.value;
    }
    ExchangedIs(start, backedUp, broughtIn, kept);
    return Restored(kept);
  }

  // ---- where a restore does not do what is asked, although nothing fails ----

  const OLD: Place := Backup("old")

  lemma OldIsFinished()
    ensures ValidId("old") && Finished(OLD)
  { }

  lemma ListedLive(s: Snap, unread: set<string>)
    ensures Live in s ==> Listed(s, Live, unread) == s[Live] - {CHECKSUMS} - unread
  { }

  /** A file the listing of the live save passed over is in no folder after a restore that succeeds. */
  method UnreadFileIsLost(c: Codec, base: string) returns (disk: Disk, r: RestoreResult)
    requires Injective(c) && !EndsWith(base, PART)
    ensures disk.failures == 0 ==> r.Restored?
    ensures r.Restored? ==> forall place :: place in disk.now ==>
            "seen" in disk.now[place] && "unseen" !in disk.now[place]
  {
    hide During, Obeys, Since, Injective;
    disk := new Disk(map[Live := map["seen" := "new", "unseen" := "new"], OLD := map["seen" := "old"]]);
    ghost var start := disk.now;
    OldIsFinished();
    ListedLive(start, {"unseen"});
    assert "seen" in Listed(start, Live, {"unseen"}) && "seen" in Own(start[OLD]);
    r := Restore(disk, c, {"unseen"}, "old", base);
    if r.Restored? {
      ExchangedPlaces(start, disk.now, r.kept);
      assert "seen" in Own(disk.now[Live]) && "unseen" !in Own(disk.now[Live]);
    }
  }

  lemma ExchangedPlaces(s: Snap, t: Snap, kept: Option<string>)
    requires Exchanged(s, t, kept)
    ensures forall place :: place in t ==>
              place == Live || (kept.Some? && place == Backup(kept.value)) || (place in s && t[place] == s[place])
  { }

  /** Restoring a backup without files removes the live save and puts nothing in its place. */
  method EmptyBackupRemovesSave(c: Codec, base: string) returns (disk: Disk, r: RestoreResult)
    requires Injective(c) && !EndsWith(base, PART)
    ensures disk.failures == 0 ==> r.NotPlaced? && Live !in disk.now
  {
    hide During, Obeys, Since, Injective;
    disk := new Disk(map[Live := map["seen" := "new"], OLD := map[]]);
    OldIsFinished();
    ListedLive(disk.now, {});
    assert "seen" in Listed(disk.now, Live, {}) && Own(disk.now[OLD]) == map[];
    r := Restore(disk, c, {}, "old", base);
  }

  /** A live save without files can be neither backed up nor replaced by a backup. */
  method EmptySaveStays(c: Codec, base: string) returns (disk: Disk, backup: Option<string>, r: RestoreResult)
    requires Injective(c) && !EndsWith(base, PART)
    ensures disk.failures == 0 ==> backup.None? && !r.Restored?
  {
    hide During, Obeys, Since, Injective;
    disk := new Disk(map[Live := map[], OLD := map["seen" := "old"]]);
    ghost var start := disk.now;
    ListedLive(start, {});
    assert Listed(start, Live, {}) == map[];
    backup := CopyToBackup(disk, c, {}, base);
    BackingUpIs(c, {}, start, disk.now);
    ListedLive(disk.now, {});
    assert Listed(disk.now, Live, {}) == map[];
    r := Restore(disk, c, {}, "old", base);
  }
}
