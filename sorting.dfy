/**
 * The orderings and list slices the pages and routes use: code-point string order
 * (the default `Array.prototype.sort`, MongoDB's `sort({ name: 1 })` without a
 * collation, and `localeCompare` on digit-and-dash keys), stable insertion sorts
 * (ECMAScript's `sort` is stable), and `slice(0, n)` / `slice(-n)`.
 */
module Sorting {

  /** Code-point (lexicographic) order on strings; JavaScript compares UTF-16 code units, which orders characters above U+FFFF differently. */
  predicate StrLe(a: string, b: string) {
    a == [] || (b != [] && (a[0] < b[0] || (a[0] == b[0] && StrLe(a[1..], b[1..]))))
  }

  lemma {:induction false} StrLeTotal(a: string, b: string)
    ensures StrLe(a, b) || StrLe(b, a)
  {
    if a != [] && b != [] && a[0] == b[0] {
      StrLeTotal(a[1..], b[1..]);
    }
  }

  lemma {:induction false} StrLeTransitive(a: string, b: string, c: string)
    requires StrLe(a, b) && StrLe(b, c)
    ensures StrLe(a, c)
  {
    if a != [] && b != [] && c != [] && a[0] == b[0] == c[0] {
      StrLeTransitive(a[1..], b[1..], c[1..]);
    }
  }

  lemma {:induction false} StrLeAntisymmetric(a: string, b: string)
    requires StrLe(a, b) && StrLe(b, a)
    ensures a == b
  {
    if a != [] && b != [] {
      StrLeAntisymmetric(a[1..], b[1..]);
      assert a == [a[0]] + a[1..] && b == [b[0]] + b[1..];
    }
  }

  predicate NonIncreasing<T>(s: seq<T>, key: T -> int) {
    forall i, j :: 0 <= i < j < |s| ==> key(s[i]) >= key(s[j])
  }

  predicate AscendingBy<T>(s: seq<T>, key: T -> string) {
    forall i, j :: 0 <= i < j < |s| ==> StrLe(key(s[i]), key(s[j]))
  }

  /** Sum of `key` over a sequence. */
  function SumBy<T>(s: seq<T>, key: T -> int): int {
    if s == [] then 0 else key(s[0]) + SumBy(s[1..], key)
  }

  lemma {:induction false} SumBySnoc<T>(s: seq<T>, x: T, key: T -> int)
    ensures SumBy(s + [x], key) == SumBy(s, key) + key(x)
  {
    if s != [] {
      assert (s + [x])[1..] == s[1..] + [x];
      SumBySnoc(s[1..], x, key);
    }
  }

  lemma {:induction false} SumByAppend<T>(s: seq<T>, t: seq<T>, key: T -> int)
    ensures SumBy(s + t, key) == SumBy(s, key) + SumBy(t, key)
  {
    if s == [] {
      assert s + t == t;
    } else {
      assert (s + t)[1..] == s[1..] + t;
      SumByAppend(s[1..], t, key);
    }
  }

  /** Inserts `x` after every element whose key is at least its own, so equal keys keep their order. */
  function InsertDesc<T>(x: T, s: seq<T>, key: T -> int): (r: seq<T>)
    ensures |r| == |s| + 1
    ensures multiset(r) == multiset(s) + multiset{x}
  {
    if s == [] then [x]
    else if key(s[0]) >= key(x) then
      assert s == [s[0]] + s[1..];
      [s[0]] + InsertDesc(x, s[1..], key)
    else
      [x] + s
  }

  lemma {:induction false} InsertDescSum<T>(x: T, s: seq<T>, key: T -> int)
    ensures SumBy(InsertDesc(x, s, key), key) == SumBy(s, key) + key(x)
  {
    if s != [] && key(s[0]) >= key(x) {
      InsertDescSum(x, s[1..], key);
    }
  }

  lemma {:induction false} InsertDescSorted<T>(x: T, s: seq<T>, key: T -> int)
    requires NonIncreasing(s, key)
    ensures NonIncreasing(InsertDesc(x, s, key), key)
  {
    if s != [] && key(s[0]) >= key(x) {
      var t := InsertDesc(x, s[1..], key);
      InsertDescSorted(x, s[1..], key);
      forall i | 0 <= i < |t|
        ensures key(s[0]) >= key(t[i])
      {
        assert t[i] in multiset(t);
        if t[i] != x {
          assert t[i] in multiset(s[1..]);
          var j :| 0 <= j < |s[1..]| && s[1..][j] == t[i];
          assert s[j + 1] == t[i];
        }
      }
    }
  }

  lemma SnocParts<T>(s: seq<T>)
    requires s != []
    ensures s == s[..|s| - 1] + [s[|s| - 1]]
    ensures multiset(s) == multiset(s[..|s| - 1]) + multiset{s[|s| - 1]}
  {
    assert s == s[..|s| - 1] + [s[|s| - 1]];
  }

  /** Stable sort by `key`, largest first: `sort((a, b) => key(b) - key(a))`. */
  function SortDesc<T>(s: seq<T>, key: T -> int): (r: seq<T>)
    ensures |r| == |s|
    ensures multiset(r) == multiset(s)
    ensures SumBy(r, key) == SumBy(s, key)
    ensures NonIncreasing(r, key)
  {
    if s == [] then []
    else
      var n := |s| - 1;
      var t := SortDesc(s[..n], key);
      SnocParts(s);
      SumBySnoc(s[..n], s[n], key);
      InsertDescSum(s[n], t, key);
      InsertDescSorted(s[n], t, key);
      InsertDesc(s[n], t, key)
  }

  /** Inserts `x` after every element whose key does not exceed its own. */
  function InsertAsc<T>(x: T, s: seq<T>, key: T -> string): (r: seq<T>)
    ensures |r| == |s| + 1
    ensures multiset(r) == multiset(s) + multiset{x}
  {
    if s == [] then [x]
    else if StrLe(key(s[0]), key(x)) then
      assert s == [s[0]] + s[1..];
      [s[0]] + InsertAsc(x, s[1..], key)
    else
      [x] + s
  }

  lemma {:induction false} InsertAscSorted<T>(x: T, s: seq<T>, key: T -> string)
    requires AscendingBy(s, key)
    ensures AscendingBy(InsertAsc(x, s, key), key)
  {
    if s == [] {
    } else if StrLe(key(s[0]), key(x)) {
      var t := InsertAsc(x, s[1..], key);
      InsertAscSorted(x, s[1..], key);
      forall i | 0 <= i < |t|
        ensures StrLe(key(s[0]), key(t[i]))
      {
        assert t[i] in multiset(t);
        if t[i] != x {
          assert t[i] in multiset(s[1..]);
          var j :| 0 <= j < |s[1..]| && s[1..][j] == t[i];
          assert s[j + 1] == t[i];
        }
      }
      assert InsertAsc(x, s, key) == [s[0]] + t;
    } else {
      StrLeTotal(key(s[0]), key(x));
      forall j | 0 < j < |s|
        ensures StrLe(key(x), key(s[j]))
      {
        StrLeTransitive(key(x), key(s[0]), key(s[j]));
      }
    }
  }

  /** No element repeats: pairwise different positions hold different values. */
  predicate NoRepeats<T(==)>(s: seq<T>) {
    forall i, j :: 0 <= i < j < |s| ==> s[i] != s[j]
  }

  lemma {:induction false} AtMostOnce<T>(s: seq<T>, x: T)
    requires NoRepeats(s)
    ensures multiset(s)[x] <= 1
  {
    if s != [] {
      assert s == [s[0]] + s[1..];
      AtMostOnce(s[1..], x);
      if x == s[0] {
        assert x !in s[1..];
      }
    }
  }

  lemma TwiceIfRepeated<T>(s: seq<T>, i: nat, j: nat)
    requires i < j < |s| && s[i] == s[j]
    ensures multiset(s)[s[i]] >= 2
  {
    var x := s[i];
    assert s == s[..j] + [s[j]] + s[j + 1..];
    assert x in s[..j];
  }

  /** A rearrangement of a sequence without repeats has none either. */
  lemma PermutationNoRepeats<T>(s: seq<T>, r: seq<T>)
    requires NoRepeats(s) && multiset(r) == multiset(s)
    ensures NoRepeats(r)
  {
    forall i, j | 0 <= i < j < |r|
      ensures r[i] != r[j]
    {
      if r[i] == r[j] {
        TwiceIfRepeated(r, i, j);
        AtMostOnce(s, r[i]);
      }
    }
  }

  /** Stable sort by a string key, smallest first: `sort((a, b) => key(a).localeCompare(key(b)))`. */
  function SortAsc<T>(s: seq<T>, key: T -> string): (r: seq<T>)
    ensures |r| == |s|
    ensures multiset(r) == multiset(s)
    ensures AscendingBy(r, key)
  {
    if s == [] then []
    else
      var n := |s| - 1;
      SnocParts(s);
      InsertAscSorted(s[n], SortAsc(s[..n], key), key);
      InsertAsc(s[n], SortAsc(s[..n], key), key)
  }

  function Identity(s: string): string { s }

  /** Ascending with no value twice. */
  predicate StrictlyAscending(s: seq<string>) {
    forall i, j :: 0 <= i < j < |s| ==> StrLe(s[i], s[j]) && s[i] != s[j]
  }

  /** Sorting values that do not repeat gives a strictly ascending list of the same values. */
  lemma SortNoRepeats(d: seq<string>)
    requires NoRepeats(d)
    ensures StrictlyAscending(SortAsc(d, Identity))
    ensures forall v :: v in SortAsc(d, Identity) <==> v in d
  {
    var r := SortAsc(d, Identity);
    assert forall v :: v in r <==> v in multiset(d);
    PermutationNoRepeats(d, r);
  }

  lemma NoMembersEmpty<T>(s: seq<T>)
    ensures (forall v :: v !in s) ==> s == []
  {
    if s != [] {
      assert s[0] in s;
    }
  }

  /** A strictly ascending list is determined by its members. */
  lemma {:induction false} StrictlyAscendingUnique(a: seq<string>, b: seq<string>)
    requires StrictlyAscending(a) && StrictlyAscending(b)
    requires forall v :: v in a <==> v in b
    ensures a == b
  {
    if a == [] {
      NoMembersEmpty(b);
    } else {
      assert a[0] in b;
      assert b != [] && b[0] in a;
      var i :| 0 <= i < |b| && b[i] == a[0];
      var j :| 0 <= j < |a| && a[j] == b[0];
      assert a[0] == b[0] by {
        if i > 0 && j > 0 {
          StrLeAntisymmetric(a[0], b[0]);
        }
      }
      forall v
        ensures v in a[1..] <==> v in b[1..]
      {
        if v in a[1..] {
          var k :| 1 <= k < |a| && a[k] == v;
          assert v in b;
          assert v != b[0];
        }
        if v in b[1..] {
          var k :| 1 <= k < |b| && b[k] == v;
          assert v in a;
          assert v != a[0];
        }
      }
      StrictlyAscendingUnique(a[1..], b[1..]);
      assert a == [a[0]] + a[1..] && b == [b[0]] + b[1..];
    }
  }

  /** In an ascending list, a key found only before position `m` sorts before every key from `m` on. */
  lemma LeftOutSortsFirst<T>(s: seq<T>, m: nat, key: T -> string, k: string, i: nat)
    requires AscendingBy(s, key) && m + i < |s|
    requires exists p :: 0 <= p < |s| && key(s[p]) == k
    requires forall j :: m <= j < |s| ==> key(s[j]) != k
    ensures StrLe(k, key(s[m + i]))
  {
    var p :| 0 <= p < |s| && key(s[p]) == k;
  }

  /** `slice(0, n)`. */
  function Take<T>(s: seq<T>, n: nat): (r: seq<T>)
    ensures |r| <= n && |r| <= |s|
    ensures |r| == n || |r| == |s|
    ensures r == s[..|r|]
  {
    if |s| <= n then s else s[..n]
  }

  /** `slice(-n)` for a positive `n`; for 0 it gives `[]`, while `slice(-0)` is the whole list. */
  function TakeLast<T>(s: seq<T>, n: nat): (r: seq<T>)
    ensures |r| <= n && |r| <= |s|
    ensures |r| == n || |r| == |s|
    ensures r == s[|s| - |r|..]
  {
    if |s| <= n then s else s[|s| - n..]
  }
}
