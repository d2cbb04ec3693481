/**
 * Folders on a disk, where any step may fail and anything that touches many
 * files may stop after any of them.
 *
 * A folder is its files by relative path, and writing one file is one step.
 */
module Disks {
  type Folder = map<string, string>

  /** Where a mod's folder can be, and where a save and its backups can. */
  datatype Place =
    | Live
    | Aside
    | Disabled
    | Temp(id: nat)
    | Incoming
    | Backup(name: string)

  /** The folders there are at one moment. */
  type Snap = map<Place, Folder>

  /** Every file of `a` is in `b` with the same content. */
  ghost predicate Sub(a: Folder, b: Folder) {
    forall p :: p in a ==> p in b && b[p] == a[p]
  }

  /** What is at a place, or an empty folder. */
  function Base(s: Snap, place: Place): Folder {
    if place in s then s[place] else map[]
  }

  /** What an operation on many files does to the state it starts from. */
  datatype Part =
    | Removing(start: Snap, place: Place)
    | Writing(start: Snap, place: Place)
    | Filling(start: Snap, place: Place, extra: Folder)

  /** One state between the start of an operation and its end. */
  ghost predicate During(part: Part, t: Snap) {
    match part
    case Removing(s, place) =>
      t == s || t == s - {place} || (place in s && place in t && t == s[place := t[place]] && Sub(t[place], s[place]))
    case Writing(s, place) => t == s || (place in t && t == s[place := t[place]])
    case Filling(s, place, extra) =>
      t == s || (place in t && t == s[place := t[place]] && Sub(Base(s, place), t[place]) &&
                 Sub(t[place], extra + Base(s, place)))
  }

  /** The history only grew, by states of one operation. */
  ghost predicate Went(before: seq<Snap>, after: seq<Snap>, part: Part) {
    && |before| <= |after| && after[..|before|] == before
    && forall i :: |before| <= i < |after| ==> During(part, after[i])
  }

  lemma WentNowhere(h: seq<Snap>, part: Part)
    ensures Went(h, h, part)
  { }

  lemma WentOn(before: seq<Snap>, h: seq<Snap>, part: Part, t: Snap)
    requires Went(before, h, part) && During(part, t)
    ensures Went(before, h + [t], part)
  {
    hide During;
  }

  /** The history only grew, by states that keep to a rule. */
  ghost predicate Since<R(!new)>(before: seq<Snap>, after: seq<Snap>, rule: R, obeys: (R, Snap) -> bool) {
    && |before| <= |after| && after[..|before|] == before
    && forall i :: |before| <= i < |after| ==> obeys(rule, after[i])
  }

  lemma SinceNone<R(!new)>(h: seq<Snap>, rule: R, obeys: (R, Snap) -> bool)
    ensures Since(h, h, rule, obeys)
  { }

  lemma SinceOne<R(!new)>(before: seq<Snap>, h: seq<Snap>, rule: R, t: Snap, obeys: (R, Snap) -> bool)
    requires Since(before, h, rule, obeys) && obeys(rule, t)
    ensures Since(before, h + [t], rule, obeys)
  { }

  lemma SinceThen<R(!new)>(before: seq<Snap>, mid: seq<Snap>, after: seq<Snap>, rule: R, last: Part,
                           obeys: (R, Snap) -> bool)
    requires Since(before, mid, rule, obeys) && Went(mid, after, last)
    requires forall t :: During(last, t) ==> obeys(rule, t)
    ensures Since(before, after, rule, obeys)
  {
    hide During;
    forall i | |before| <= i < |after| ensures obeys(rule, after[i]) {
      if i < |mid| {
        assert after[..|mid|][i] == after[i];
      }
    }
    assert after[..|before|] == after[..|mid|][..|before|];
  }

  lemma RemovingState(start: Snap, place: Place, left: Folder)
    requires place in start && Sub(left, start[place])
    ensures During(Removing(start, place), start[place := left])
    ensures During(Removing(start, place), start) && During(Removing(start, place), start - {place})
    ensures forall p :: p in left ==> Sub(left - {p}, start[place])
  { }

  lemma WholePlace(start: Snap, place: Place)
    ensures place in start ==> start == start[place := start[place]] && Sub(start[place], start[place])
    ensures place !in start ==> start - {place} == start && During(Removing(start, place), start)
  { }

  class Disk {
    var now: Snap
    /** Every state the disk has been in, the present one last. */
    ghost var history: seq<Snap>
    /** How often a step has failed, stopped short or written something wrong, but not was refused for what is there. */
    ghost var failures: nat

    ghost predicate Valid()
      reads this`now, this`history
    {
      history != [] && history[|history| - 1] == now
    }

    constructor (start: Snap)
      ensures Valid() && now == start && history == [start] && failures == 0
    {
      now, history, failures := start, [start], 0;
    }

    /** Anything may fail. */
    method MayFail() returns (fails: bool)
      modifies this`failures
      ensures failures == old(failures) + if fails then 1 else 0
    {
      fails := *;
      failures := failures + if fails then 1 else 0;
    }

    method Become(s: Snap)
      modifies this`now, this`history
      ensures Valid() && now == s && history == old(history) + [s]
    {
      now := s;
      history := history + [s];
    }

    /** One more state of an operation. */
    method Step(s: Snap, ghost before: seq<Snap>, ghost part: Part)
      requires Went(before, history, part) && During(part, s)
      modifies this`now, this`history
      ensures Valid() && now == s && Went(before, history, part)
    {
      WentOn(before, history, part, s);
      Become(s);
    }

    /** Moves a whole folder in one step, or nothing; a folder with files in it is never replaced. */
    method Rename(from: Place, to: Place) returns (ok: bool)
      requires Valid() && from in now && from != to
      modifies this
      ensures Valid()
      ensures ok ==> && Base(old(now), to) == map[] && now == (old(now) - {from})[to := old(now)[from]]
                     && history == old(history) + [now]
      ensures !ok ==> now == old(now) && history == old(history)
      ensures failures == old(failures) + if ok || Base(old(now), to) != map[] then 0 else 1
    {
      if to in now && now[to] != map[] {
        return false;
      }
      var fails := MayFail();
      if fails {
        return false;
      }
      Become((now - {from})[to := now[from]]);
      return true;
    }

    /** Deletes a folder file by file; it may stop anywhere, and what it then reports says nothing of how far it got. */
    method RemoveAll(place: Place) returns (ok: bool)
      requires Valid()
      modifies this
      ensures Valid() && Went(old(history), history, Removing(old(now), place))
      ensures During(Removing(old(now), place), now)
      ensures failures == old(failures) && place in old(now) ==> ok
      ensures failures == old(failures) ==> now == old(now) - {place}
      ensures failures >= old(failures)
    {
      hide Went, During, Sub;
      var start := now;
      ghost var part := Removing(start, place);
      WentNowhere(history, part);
      WholePlace(start, place);
      if place !in now {
        ok := *;
        return;
      }
      var left := now[place];
      RemovingState(start, place, left);
      while left != map[]
        invariant Valid() && Went(old(history), history, part) && failures == old(failures)
        invariant now == start[place := left] && Sub(left, start[place]) && During(part, now)
        decreases |left|
      {
        var stops := MayFail();
        if stops {
          ok := *;
          return;
        }
        var p :| p in left;
        RemovingState(start, place, left);
        left := left - {p};
        RemovingState(start, place, left);
        Step(start[place := left], old(history), part);
      }
      var stops := MayFail();
      var gone: bool := *;
      ok := *;
      if !stops || gone {
        RemovingState(start, place, map[]);
        Step(start - {place}, old(history), part);
      }
      ok := ok || !stops;
    }
  }
}
