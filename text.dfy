/** String helpers with Python's meaning: ASCII case mapping, prefix and substring tests,
    code-point ordering of strings, `sep.join(parts)` and a stable sort by a string key. */
module Text {

  function UpperChar(c: char): char
  {
    if 'a' <= c <= 'z' then (c as int - 32) as char else c
  }

  function LowerChar(c: char): char
  {
    if 'A' <= c <= 'Z' then (c as int + 32) as char else c
  }

  /** `s.upper()` on ASCII letters; other characters are left as they are. */
  function Upper(s: string): (r: string)
    ensures |r| == |s|
    ensures forall k :: 0 <= k < |s| ==> r[k] == UpperChar(s[k])
  {
    seq(|s|, k requires 0 <= k < |s| => UpperChar(s[k]))
  }

  /** `s.lower()` on ASCII letters. */
  function Lower(s: string): (r: string)
    ensures |r| == |s|
    ensures forall k :: 0 <= k < |s| ==> r[k] == LowerChar(s[k])
  {
    seq(|s|, k requires 0 <= k < |s| => LowerChar(s[k]))
  }

  predicate StartsWith(s: string, prefix: string)
  {
    |prefix| <= |s| && s[..|prefix|] == prefix
  }

  /** `sub in s` for strings: `sub` occurs somewhere in `s`. */
  predicate Contains(s: string, sub: string)
    decreases |s|
  {
    StartsWith(s, sub) || (s != [] && Contains(s[1..], sub))
  }

  /** Python's `a <= b` on strings: code point by code point, a proper prefix first. */
  predicate LexLe(a: string, b: string)
    decreases |a|
  {
    if a == [] then true
    else if b == [] then false
    else if a[0] != b[0] then a[0] < b[0]
    else LexLe(a[1..], b[1..])
  }

  lemma {:induction false} LexLeTotal(a: string, b: string)
    ensures LexLe(a, b) || LexLe(b, a)
    decreases |a|
  {
    if a != [] && b != [] && a[0] == b[0] {
      LexLeTotal(a[1..], b[1..]);
    }
  }

  lemma {:induction false} LexLeAntisymmetric(a: string, b: string)
    requires LexLe(a, b) && LexLe(b, a)
    ensures a == b
    decreases |a|
  {
    if a != [] {
      LexLeAntisymmetric(a[1..], b[1..]);
      assert a == [a[0]] + a[1..] && b == [b[0]] + b[1..];
    }
  }

  lemma {:induction false} LexLeTransitive(a: string, b: string, c: string)
    requires LexLe(a, b) && LexLe(b, c)
    ensures LexLe(a, c)
    decreases |a|
  {
    if a != [] && b != [] && c != [] && a[0] == b[0] && b[0] == c[0] {
      LexLeTransitive(a[1..], b[1..], c[1..]);
    }
  }

  /** `sep.join(parts)`. */
  function Join(sep: string, parts: seq<string>): (r: string)
    ensures parts == [] ==> r == ""
    ensures |parts| == 1 ==> r == parts[0]
    decreases |parts|
  {
    if parts == [] then ""
    else if |parts| == 1 then parts[0]
    else parts[0] + sep + Join(sep, parts[1..])
  }

  /** Joining two or more non-empty-separated parts gives a string longer than every part,
      so the joined string never equals one of the parts. */
  lemma {:induction false} JoinLongerThanParts(sep: string, parts: seq<string>, k: nat)
    requires |sep| > 0 && |parts| >= 2 && k < |parts|
    ensures |Join(sep, parts)| > |parts[k]|
    decreases |parts|
  {
    if |parts| > 2 && k > 0 {
      JoinLongerThanParts(sep, parts[1..], k - 1);
    }
  }

  predicate SortedBy<T>(s: seq<T>, key: T -> string)
  {
    forall i, j :: 0 <= i < j < |s| ==> LexLe(key(s[i]), key(s[j]))
  }

  /** Places `x` before the first element whose key is not smaller, after all smaller ones. */
  function InsertBy<T>(x: T, s: seq<T>, key: T -> string): (r: seq<T>)
    requires SortedBy(s, key)
    ensures SortedBy(r, key)
    ensures multiset(r) == multiset(s) + multiset{x}
    decreases |s|
  {
    if s == [] then [x]
    else
      SortedSplit(s, key);
      if LexLe(key(x), key(s[0])) then
        BelowHead(x, s, key);
        SortedCons(x, s, key);
        [x] + s
      else
        var tail := InsertBy(x, s[1..], key);
        LexLeTotal(key(x), key(s[0]));
        BoundKept(s[0], x, s[1..], tail, key);
        SortedCons(s[0], tail, key);
        assert s == [s[0]] + s[1..];
        [s[0]] + tail
  }

  /** A sorted sequence is its least element followed by a sorted rest. */
  lemma SortedSplit<T>(s: seq<T>, key: T -> string)
    requires SortedBy(s, key) && s != []
    ensures SortedBy(s[1..], key)
    ensures forall j :: 0 <= j < |s[1..]| ==> LexLe(key(s[0]), key(s[1..][j]))
  {
    forall j | 0 <= j < |s[1..]| ensures LexLe(key(s[0]), key(s[1..][j])) {
      assert s[1..][j] == s[j + 1];
    }
  }

  /** An element no greater than the head of a sorted sequence is no greater than any of it. */
  lemma BelowHead<T>(x: T, s: seq<T>, key: T -> string)
    requires SortedBy(s, key) && s != [] && LexLe(key(x), key(s[0]))
    ensures forall j :: 0 <= j < |s| ==> LexLe(key(x), key(s[j]))
  {
    forall j | 0 < j < |s| ensures LexLe(key(x), key(s[j])) {
      LexLeTransitive(key(x), key(s[0]), key(s[j]));
    }
  }

  /** Putting an element no greater than any of a sorted sequence in front keeps it sorted. */
  lemma SortedCons<T>(y: T, t: seq<T>, key: T -> string)
    requires SortedBy(t, key) && forall j :: 0 <= j < |t| ==> LexLe(key(y), key(t[j]))
    ensures SortedBy([y] + t, key)
  {
    var r := [y] + t;
    forall i, j | 0 <= i < j < |r| ensures LexLe(key(r[i]), key(r[j])) {
      assert r[j] == t[j - 1];
      if i > 0 {
        assert r[i] == t[i - 1];
      }
    }
  }

  /** A lower bound of `x` and of every element of `s1` bounds every element of a permutation of
      `s1` with `x` added. */
  lemma BoundKept<T>(y: T, x: T, s1: seq<T>, tail: seq<T>, key: T -> string)
    requires multiset(tail) == multiset(s1) + multiset{x}
    requires LexLe(key(y), key(x)) && forall j :: 0 <= j < |s1| ==> LexLe(key(y), key(s1[j]))
    ensures forall j :: 0 <= j < |tail| ==> LexLe(key(y), key(tail[j]))
  {
    forall j | 0 <= j < |tail| ensures LexLe(key(y), key(tail[j])) {
      assert tail[j] in multiset(tail);
      if tail[j] != x {
        assert tail[j] in multiset(s1);
        var m :| 0 <= m < |s1| && s1[m] == tail[j];
      }
    }
  }

  /** Python's `sorted(s, key=key)`: the elements of `s`, ordered by key, by insertion. */
  function SortBy<T>(s: seq<T>, key: T -> string): (r: seq<T>)
    ensures SortedBy(r, key)
    ensures multiset(r) == multiset(s)
    ensures |r| == |s|
    decreases |s|
  {
    if s == [] then []
    else
      assert s == [s[0]] + s[1..];
      InsertBy(s[0], SortBy(s[1..], key), key)
  }

  predicate NoDuplicates<T(==)>(s: seq<T>)
  {
    forall i, j :: 0 <= i < j < |s| ==> s[i] != s[j]
  }

  /** A sequence has no duplicates exactly when no element occurs twice in its multiset. */
  lemma {:induction false} NoDuplicatesMultiset<T>(s: seq<T>)
    ensures NoDuplicates(s) <==> forall x :: multiset(s)[x] <= 1
    decreases |s|
  {
    if s != [] {
      var t := s[1..];
      assert s == [s[0]] + t;
      NoDuplicatesMultiset(t);
      if NoDuplicates(s) {
        assert s[0] !in t;
        assert NoDuplicates(t) by {
          forall i, j | 0 <= i < j < |t| ensures t[i] != t[j] {
            assert s[i + 1] == t[i] && s[j + 1] == t[j];
          }
        }
      } else {
        var i, j :| 0 <= i < j < |s| && s[i] == s[j];
        if i == 0 {
          assert s[j] == t[j - 1];
          assert multiset(s)[s[0]] >= 2;
        } else {
          assert t[i - 1] == t[j - 1];
          assert !NoDuplicates(t);
          var x :| multiset(t)[x] > 1;
          assert multiset(s)[x] >= multiset(t)[x];
        }
      }
    }
  }

  /** Sorting keeps a duplicate-free sequence duplicate-free. */
  lemma SortByNoDuplicates<T>(s: seq<T>, key: T -> string)
    requires NoDuplicates(s)
    ensures NoDuplicates(SortBy(s, key))
  {
    NoDuplicatesMultiset(s);
    NoDuplicatesMultiset(SortBy(s, key));
  }

  /** Two duplicate-free sequences with no element in common append to a duplicate-free one. */
  lemma NoDuplicatesAppend<T>(a: seq<T>, b: seq<T>)
    requires NoDuplicates(a) && NoDuplicates(b)
    requires forall x :: x in a ==> x !in b
    ensures NoDuplicates(a + b)
  {
    forall i, j | 0 <= i < j < |a + b| ensures (a + b)[i] != (a + b)[j] {
      if j < |a| {
        assert a[i] != a[j];
      } else if i >= |a| {
        assert b[i - |a|] != b[j - |a|];
      } else {
        assert a[i] in a && (a + b)[i] == a[i] && (a + b)[j] == b[j - |a|];
      }
    }
  }

  /** `r` is `s` with some of its elements left out: the last element of `s` either ends `r`
      or is one of those left out. */
  predicate Subsequence<T(==)>(r: seq<T>, s: seq<T>)
    decreases |s|
  {
    if s == [] then r == []
    else
      (r != [] && r[|r| - 1] == s[|s| - 1] && Subsequence(r[..|r| - 1], s[..|s| - 1]))
      || Subsequence(r, s[..|s| - 1])
  }

  /** A list comprehension with a condition: the elements that satisfy `keep`, in order. */
  function Filter<T(!new)>(s: seq<T>, keep: T -> bool): (r: seq<T>)
    ensures |r| <= |s|
    ensures forall x :: x in r <==> x in s && keep(x)
    decreases |s|
  {
    if s == [] then []
    else
      var rest := Filter(s[..|s| - 1], keep);
      assert s == s[..|s| - 1] + [s[|s| - 1]];
      if keep(s[|s| - 1]) then rest + [s[|s| - 1]] else rest
  }

  /** The comprehension keeps the kept elements in their order in `s`, each as often as `s`
      holds it, and no other element. */
  lemma {:induction false} FilterKeepsOrder<T(!new)>(s: seq<T>, keep: T -> bool)
    ensures Subsequence(Filter(s, keep), s)
    ensures forall x :: multiset(Filter(s, keep))[x] == if keep(x) then multiset(s)[x] else 0
    decreases |s|
  {
    if s != [] {
      var init, last := s[..|s| - 1], s[|s| - 1];
      var rest := Filter(init, keep);
      FilterKeepsOrder(init, keep);
      assert s == init + [last];
      assert multiset(s) == multiset(init) + multiset{last};
      if keep(last) {
        var r := rest + [last];
        assert r[..|r| - 1] == rest;
        assert multiset(r) == multiset(rest) + multiset{last};
      }
    }
  }

  /** The comprehension distributes over concatenation. */
  lemma {:induction false} FilterAppend<T(!new)>(a: seq<T>, b: seq<T>, keep: T -> bool)
    ensures Filter(a + b, keep) == Filter(a, keep) + Filter(b, keep)
    decreases |b|
  {
    if b != [] {
      var b0 := b[..|b| - 1];
      FilterAppend(a, b0, keep);
      assert (a + b)[..|a + b| - 1] == a + b0 && (a + b)[|a + b| - 1] == b[|b| - 1];
    } else {
      assert a + b == a;
    }
  }

  /** Two conditions that agree everywhere keep the same elements. */
  lemma {:induction false} FilterSame<T(!new)>(s: seq<T>, p: T -> bool, q: T -> bool)
    requires forall x :: p(x) == q(x)
    ensures Filter(s, p) == Filter(s, q)
    decreases |s|
  {
    if s != [] {
      FilterSame(s[..|s| - 1], p, q);
    }
  }

  /** A condition every element meets keeps the whole sequence. */
  lemma {:induction false} FilterAll<T(!new)>(s: seq<T>, keep: T -> bool)
    requires forall x :: x in s ==> keep(x)
    ensures Filter(s, keep) == s
    decreases |s|
  {
    if s != [] {
      var init := s[..|s| - 1];
      assert forall x :: x in init ==> x in s;
      FilterAll(init, keep);
      assert s == init + [s[|s| - 1]];
    }
  }

  /** Filtering twice keeps what both conditions keep. */
  lemma {:induction false} FilterFilter<T(!new)>(s: seq<T>, p: T -> bool, q: T -> bool, pq: T -> bool)
    requires forall x :: pq(x) == (p(x) && q(x))
    ensures Filter(Filter(s, p), q) == Filter(s, pq)
    decreases |s|
  {
    if s != [] {
      var init, last := s[..|s| - 1], s[|s| - 1];
      FilterFilter(init, p, q, pq);
      if p(last) {
        FilterAppend(Filter(init, p), [last], q);
        assert [last][..0] == [];
      }
    }
  }

  /** The elements of `s`, each once, in order of first appearance: what a Python set keeps. */
  function Dedup<T(==,!new)>(s: seq<T>): (r: seq<T>)
    ensures NoDuplicates(r)
    ensures forall x :: x in r <==> x in s
    decreases |s|
  {
    if s == [] then []
    else
      var rest := Dedup(s[..|s| - 1]);
      assert s == s[..|s| - 1] + [s[|s| - 1]];
      if s[|s| - 1] in rest then rest else rest + [s[|s| - 1]]
  }

  /** `[f(x) for x in s]`. */
  function MapSeq<T, U>(s: seq<T>, f: T -> U): (r: seq<U>)
    ensures |r| == |s| && forall i :: 0 <= i < |s| ==> r[i] == f(s[i])
  {
    seq(|s|, i requires 0 <= i < |s| => f(s[i]))
  }

  lemma MapSeqAppend<T, U>(a: seq<T>, b: seq<T>, f: T -> U)
    ensures MapSeq(a + b, f) == MapSeq(a, f) + MapSeq(b, f)
  {
  }

  /** Filtering one element at the front: it is kept or it is not, then the rest. */
  lemma FilterCons<T(!new)>(x: T, s: seq<T>, keep: T -> bool)
    ensures Filter([x] + s, keep) == (if keep(x) then [x] else []) + Filter(s, keep)
  {
    FilterAppend([x], s, keep);
    assert [x][..0] == [];
  }

  /** A list comprehension `[f(x) for x in s if keep(x)]`. */
  function FilterMap<T(!new), U>(s: seq<T>, keep: T -> bool, f: T -> U): (r: seq<U>)
    ensures |r| <= |s|
    decreases |s|
  {
    if s == [] then []
    else
      var rest := FilterMap(s[..|s| - 1], keep, f);
      if keep(s[|s| - 1]) then rest + [f(s[|s| - 1])] else rest
  }

  /** The comprehension is `f` of the kept elements, in their order, repeats included. */
  lemma {:induction false} FilterMapIsMapOfFilter<T(!new), U>(s: seq<T>, keep: T -> bool, f: T -> U)
    ensures FilterMap(s, keep, f) == MapSeq(Filter(s, keep), f)
    decreases |s|
  {
    if s != [] {
      var init, last := s[..|s| - 1], s[|s| - 1];
      FilterMapIsMapOfFilter(init, keep, f);
      if keep(last) {
        assert Filter(s, keep) == Filter(init, keep) + [last];
        MapSeqAppend(Filter(init, keep), [last], f);
      }
    }
  }

  lemma {:induction false} FilterMapMembers<T(!new), U>(s: seq<T>, keep: T -> bool, f: T -> U, y: U)
    ensures y in FilterMap(s, keep, f) <==> exists i :: 0 <= i < |s| && keep(s[i]) && y == f(s[i])
    decreases |s|
  {
    if s != [] {
      var init := s[..|s| - 1];
      FilterMapMembers(init, keep, f, y);
      assert forall i :: 0 <= i < |init| ==> init[i] == s[i];
    }
  }
}
