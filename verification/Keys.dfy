/** Unit keys and the ways the search orders them. */
module Keys {

  /** The keys held by a list. */
  function Elems(s: seq<string>): set<string> {
    set k | k in s
  }

  predicate NoDup(s: seq<string>) {
    forall i, j :: 0 <= i < j < |s| ==> s[i] != s[j]
  }

  lemma ElemsCons(x: string, s: seq<string>)
    ensures Elems([x] + s) == {x} + Elems(s)
    ensures NoDup([x] + s) <==> x !in s && NoDup(s)
  {
    var t := [x] + s;
    forall k ensures k in t <==> k == x || k in s {
      if k in s {
        var i :| 0 <= i < |s| && s[i] == k;
        assert t[i + 1] == k;
      }
    }
    if NoDup(t) {
      forall i | 0 <= i < |s| ensures s[i] != x {
        assert t[0] != t[i + 1];
      }
      forall i, j | 0 <= i < j < |s| ensures s[i] != s[j] {
        assert t[i + 1] != t[j + 1];
      }
    }
  }

  /** String order: by code point, which is the order of the UTF-8 bytes. */
  predicate Le(a: string, b: string) {
    a == [] || (b != [] && (a[0] < b[0] || (a[0] == b[0] && Le(a[1..], b[1..]))))
  }

  lemma LeTotal(a: string, b: string)
    ensures Le(a, b) || Le(b, a)
  {
    if a != [] && b != [] {
      LeTotal(a[1..], b[1..]);
    }
  }

  lemma {:induction false} LeAntisymmetric(a: string, b: string)
    requires Le(a, b) && Le(b, a)
    ensures a == b
  {
    if a != [] {
      LeAntisymmetric(a[1..], b[1..]);
      assert a == [a[0]] + a[1..] && b == [b[0]] + b[1..];
    }
  }

  lemma {:induction false} LeTransitive(a: string, b: string, c: string)
    requires Le(a, b) && Le(b, c)
    ensures Le(a, c)
  {
    if a != [] && a[0] == b[0] == c[0] {
      LeTransitive(a[1..], b[1..], c[1..]);
    }
  }

  /** The order of `(size, key)` pairs. */
  predicate RankLe(rank: string -> nat, a: string, b: string) {
    rank(a) < rank(b) || (rank(a) == rank(b) && Le(a, b))
  }

  ghost predicate RankSorted(rank: string -> nat, s: seq<string>) {
    forall i, j :: 0 <= i < j < |s| ==> RankLe(rank, s[i], s[j])
  }

  lemma RankLeTransitive(rank: string -> nat, a: string, b: string, c: string)
    requires RankLe(rank, a, b) && RankLe(rank, b, c)
    ensures RankLe(rank, a, c)
  {
    if rank(a) == rank(b) == rank(c) {
      LeTransitive(a, b, c);
    }
  }

  function Insert(rank: string -> nat, k: string, s: seq<string>): seq<string> {
    if s == [] then [k]
    else if RankLe(rank, k, s[0]) then [k] + s
    else [s[0]] + Insert(rank, k, s[1..])
  }

  /** The list in ascending `(rank, key)` order. */
  function SortBy(rank: string -> nat, s: seq<string>): seq<string> {
    if s == [] then [] else Insert(rank, s[0], SortBy(rank, s[1..]))
  }

  lemma {:induction false} InsertPermutes(rank: string -> nat, k: string, s: seq<string>)
    ensures multiset(Insert(rank, k, s)) == multiset(s) + multiset{k}
  {
    if s != [] {
      assert s == [s[0]] + s[1..];
      InsertPermutes(rank, k, s[1..]);
    }
  }

  lemma {:induction false} SortByPermutes(rank: string -> nat, s: seq<string>)
    ensures multiset(SortBy(rank, s)) == multiset(s)
  {
    if s != [] {
      assert s == [s[0]] + s[1..];
      SortByPermutes(rank, s[1..]);
      InsertPermutes(rank, s[0], SortBy(rank, s[1..]));
    }
  }

  lemma MultisetMembers(r: seq<string>, s: seq<string>)
    requires multiset(r) == multiset(s)
    ensures |r| == |s| && Elems(r) == Elems(s)
  {
    assert |multiset(r)| == |r| && |multiset(s)| == |s|;
    forall k ensures k in r <==> k in s {
      assert k in multiset(r) <==> k in multiset(s);
    }
  }

  lemma {:induction false} InsertSorted(rank: string -> nat, k: string, s: seq<string>)
    requires RankSorted(rank, s)
    ensures RankSorted(rank, Insert(rank, k, s))
  {
    var r := Insert(rank, k, s);
    if s != [] {
      if RankLe(rank, k, s[0]) {
        forall j | 0 < j < |s| ensures RankLe(rank, k, s[j]) {
          RankLeTransitive(rank, k, s[0], s[j]);
        }
      } else {
        LeTotal(k, s[0]);
        InsertSorted(rank, k, s[1..]);
        var rest := Insert(rank, k, s[1..]);
        assert r == [s[0]] + rest;
        hide Insert;
        InsertPermutes(rank, k, s[1..]);
        forall j | 0 <= j < |rest| ensures RankLe(rank, s[0], rest[j]) {
          assert rest[j] in multiset(rest);
          if rest[j] != k {
            assert rest[j] in s[1..];
          }
        }
      }
    }
  }

  lemma {:induction false} SortBySorted(rank: string -> nat, s: seq<string>)
    ensures RankSorted(rank, SortBy(rank, s))
    ensures |SortBy(rank, s)| == |s| && Elems(SortBy(rank, s)) == Elems(s)
    ensures NoDup(s) ==> NoDup(SortBy(rank, s))
  {
    if s != [] {
      SortBySorted(rank, s[1..]);
      InsertSorted(rank, s[0], SortBy(rank, s[1..]));
    }
    SortByPermutes(rank, s);
    MultisetMembers(SortBy(rank, s), s);
    if NoDup(s) {
      SameSizeNoDup(s, SortBy(rank, s));
    }
  }

  lemma {:induction false} ElemsSize(s: seq<string>)
    ensures |Elems(s)| <= |s|
    ensures |Elems(s)| == |s| <==> NoDup(s)
  {
    if s == [] {
      assert Elems(s) == {};
    } else {
      ElemsSize(s[1..]);
      assert s == [s[0]] + s[1..];
      ElemsCons(s[0], s[1..]);
      if s[0] in s[1..] {
        assert Elems(s) == Elems(s[1..]);
      }
    }
  }

  lemma SameSizeNoDup(s: seq<string>, r: seq<string>)
    requires NoDup(s) && |r| == |s| && Elems(r) == Elems(s)
    ensures NoDup(r)
  {
    ElemsSize(s);
    ElemsSize(r);
  }

  /** Plain `sort`. */
  function Sort(s: seq<string>): seq<string> {
    SortBy(_ => 0, s)
  }

  lemma SortFacts(s: seq<string>)
    ensures |Sort(s)| == |s| && Elems(Sort(s)) == Elems(s)
    ensures NoDup(s) ==> NoDup(Sort(s))
  {
    SortBySorted(_ => 0, s);
  }

  lemma {:induction false} MinExists(s: set<string>)
    requires s != {}
    ensures exists m :: m in s && forall k :: k in s ==> Le(m, k)
  {
    var x :| x in s;
    LeTotal(x, x);
    if s != {x} {
      MinExists(s - {x});
      var m :| m in s - {x} && forall k :: k in s - {x} ==> Le(m, k);
      LeTotal(x, m);
      if Le(x, m) {
        forall k | k in s ensures Le(x, k) {
          if k != x {
            LeTransitive(x, m, k);
          }
        }
      } else {
        forall k | k in s ensures Le(m, k) { }
      }
    }
  }

  lemma MinUnique(s: set<string>)
    ensures forall a, b :: a in s && b in s && Le(a, b) && Le(b, a) ==> a == b
  {
    forall a, b | a in s && b in s && Le(a, b) && Le(b, a) ensures a == b {
      LeAntisymmetric(a, b);
    }
  }

  /** A set of keys as an ascending list. */
  function SortedSet(s: set<string>): (r: seq<string>)
    ensures Elems(r) == s
    ensures NoDup(r)
  {
    if s == {} then []
    else
      MinExists(s);
      MinUnique(s);
      var m :| m in s && forall k :: k in s ==> Le(m, k);
      var rest := SortedSet(s - {m});
      assert m !in Elems(rest);
      ElemsCons(m, rest);
      [m] + rest
  }

  /** `retain` the keys in `t`. */
  function Within(s: seq<string>, t: set<string>): (r: seq<string>)
    ensures Elems(r) == Elems(s) * t
    ensures |r| <= |s|
    ensures NoDup(s) ==> NoDup(r)
  {
    if s == [] then []
    else
      var rest := Within(s[1..], t);
      assert s == [s[0]] + s[1..];
      ElemsCons(s[0], s[1..]);
      assert s[0] in rest ==> s[0] in Elems(rest);
      ElemsCons(s[0], rest);
      if s[0] in t then [s[0]] + rest else rest
  }

  /** `retain` the keys not in `t`. */
  function Without(s: seq<string>, t: set<string>): (r: seq<string>)
    ensures Elems(r) == Elems(s) - t
    ensures |r| <= |s|
    ensures NoDup(s) ==> NoDup(r)
  {
    if s == [] then []
    else
      var rest := Without(s[1..], t);
      assert s == [s[0]] + s[1..];
      ElemsCons(s[0], s[1..]);
      assert s[0] in rest ==> s[0] in Elems(rest);
      ElemsCons(s[0], rest);
      if s[0] in t then rest else [s[0]] + rest
  }

  /** Pushes each of `keys` that is neither in `skip` nor already in `s`. */
  function AddMissing(s: seq<string>, keys: seq<string>, skip: set<string>): (r: seq<string>)
    ensures Elems(r) == Elems(s) + (Elems(keys) - skip)
    ensures NoDup(s) ==> NoDup(r)
    decreases |keys|
  {
    if keys == [] then s
    else
      assert keys == [keys[0]] + keys[1..];
      if keys[0] in skip || keys[0] in s then AddMissing(s, keys[1..], skip)
      else AddMissing(s + [keys[0]], keys[1..], skip)
  }

  lemma {:induction false} AddNothing(s: seq<string>, keys: seq<string>, skip: set<string>)
    requires Elems(keys) <= Elems(s) + skip
    ensures AddMissing(s, keys, skip) == s
    decreases |keys|
  {
    if keys != [] {
      assert keys[0] in Elems(keys);
      assert Elems(keys[1..]) <= Elems(keys);
      AddNothing(s, keys[1..], skip);
    }
  }

  /** The pieces of `s` between separators, as Rust's `split`. */
  function Split(s: string, sep: char): (r: seq<string>)
    ensures |r| >= 1
  {
    if s == [] then [[]]
    else if s[0] == sep then [[]] + Split(s[1..], sep)
    else
      var rest := Split(s[1..], sep);
      [[s[0]] + rest[0]] + rest[1..]
  }

  function Join(parts: seq<string>, sep: char): string {
    if parts == [] then []
    else if |parts| == 1 then parts[0]
    else parts[0] + [sep] + Join(parts[1..], sep)
  }

  lemma {:induction false} SplitAtom(s: string, sep: char)
    requires sep !in s
    ensures Split(s, sep) == [s]
  {
    if s != [] {
      SplitAtom(s[1..], sep);
      assert s == [s[0]] + s[1..];
    }
  }

  lemma {:induction false} SplitPrefix(a: string, b: string, sep: char)
    requires sep !in a
    ensures Split(a + [sep] + b, sep) == [a] + Split(b, sep)
  {
    var t := a + [sep] + b;
    if a == [] {
      assert t == [sep] + b;
      assert t[1..] == b;
    } else {
      SplitPrefix(a[1..], b, sep);
      assert t[1..] == a[1..] + [sep] + b;
      assert a == [a[0]] + a[1..];
      assert t[0] == a[0];
      assert a[0] in a;
    }
  }

  /** Splitting undoes joining when no part holds the separator. */
  lemma {:induction false} SplitJoin(parts: seq<string>, sep: char)
    requires parts != []
    requires forall p :: p in parts ==> sep !in p
    ensures Split(Join(parts, sep), sep) == parts
  {
    assert parts[0] in parts;
    if |parts| == 1 {
      SplitAtom(parts[0], sep);
    } else {
      SplitJoin(parts[1..], sep);
      SplitPrefix(parts[0], Join(parts[1..], sep), sep);
    }
  }
}
