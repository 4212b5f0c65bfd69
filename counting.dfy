/**
 * The grouping idiom shared by the reports and analytics pages:
 *
 *   const counts = {}; items.forEach(x => { counts[k(x)] = (counts[k(x)] || 0) + 1 });
 *   Object.entries(counts).map(...).sort((a, b) => b.count - a.count)
 *
 * `CountKeys` is the `forEach` that fills the dictionary; `Tally` is its value read
 * back with `Object.entries` (keys in order of first insertion); `GroupCounts` adds
 * the sort by count, largest first.
 */
module Counting {
  import opened Sorting

  datatype Entry = Entry(key: string, count: nat)

  function CountOf(e: Entry): int { e.count }

  function KeyOf(e: Entry): string { e.key }

  /** Number of occurrences of `k` in `keys`. */
  function Occ(keys: seq<string>, k: string): nat {
    if keys == [] then 0
    else Occ(keys[..|keys| - 1], k) + (if keys[|keys| - 1] == k then 1 else 0)
  }

  lemma {:induction false} OccAbsent(keys: seq<string>, k: string)
    requires k !in keys
    ensures Occ(keys, k) == 0
  {
    if keys != [] {
      assert keys[..|keys| - 1] <= keys;
      OccAbsent(keys[..|keys| - 1], k);
    }
  }

  lemma {:induction false} OccPresent(keys: seq<string>, k: string)
    requires k in keys
    ensures Occ(keys, k) >= 1
  {
    var n := |keys| - 1;
    if keys[n] != k {
      assert keys == keys[..n] + [keys[n]];
      OccPresent(keys[..n], k);
    }
  }

  lemma {:induction false} OccPresentInverse(keys: seq<string>, k: string)
    requires Occ(keys, k) >= 1
    ensures k in keys
  {
    if k !in keys {
      OccAbsent(keys, k);
    }
  }

  /** The keys in order of first occurrence, each once. */
  function Distinct(keys: seq<string>): (d: seq<string>)
    ensures forall i, j :: 0 <= i < j < |d| ==> d[i] != d[j]
    ensures forall k :: k in d <==> k in keys
  {
    if keys == [] then []
    else
      var n := |keys| - 1;
      assert keys == keys[..n] + [keys[n]];
      var d := Distinct(keys[..n]);
      if keys[n] in d then d else d + [keys[n]]
  }

  function EntriesFor(d: seq<string>, keys: seq<string>): (r: seq<Entry>)
    ensures |r| == |d|
    ensures forall i :: 0 <= i < |d| ==> r[i] == Entry(d[i], Occ(keys, d[i]))
  {
    if d == [] then [] else [Entry(d[0], Occ(keys, d[0]))] + EntriesFor(d[1..], keys)
  }

  /** The dictionary of counts as `Object.entries` lists it. */
  function Tally(keys: seq<string>): seq<Entry> {
    EntriesFor(Distinct(keys), keys)
  }

  /** The `forEach` that fills the `counts` dictionary, one key at a time. */
  method CountKeys(keys: seq<string>) returns (entries: seq<Entry>)
    ensures entries == Tally(keys)
  {
    var counts: map<string, nat> := map[];
    var order: seq<string> := [];
    for i := 0 to |keys|
      invariant order == Distinct(keys[..i])
      invariant forall k :: k in counts <==> k in order
      invariant forall k :: k in counts ==> counts[k] == Occ(keys[..i], k)
    {
      var k := keys[i];
      assert keys[..i + 1][..i] == keys[..i];
      if k in counts {
        counts := counts[k := counts[k] + 1];
      } else {
        OccAbsent(keys[..i], k);
        counts := counts[k := 1];
        order := order + [k];
      }
    }
    assert keys[..|keys|] == keys;
    entries := seq(|order|, j requires 0 <= j < |order| => Entry(order[j], counts[order[j]]));
  }

  lemma {:induction false} EntriesForSnoc(d: seq<string>, x: string, keys: seq<string>)
    ensures EntriesFor(d + [x], keys) == EntriesFor(d, keys) + [Entry(x, Occ(keys, x))]
  {
  }

  lemma {:induction false} EntriesForGrow(d: seq<string>, keys: seq<string>, k: string)
    requires forall i, j :: 0 <= i < j < |d| ==> d[i] != d[j]
    ensures SumBy(EntriesFor(d, keys + [k]), CountOf)
         == SumBy(EntriesFor(d, keys), CountOf) + (if k in d then 1 else 0)
  {
    if d != [] {
      assert (keys + [k])[..|keys|] == keys;
      EntriesForGrow(d[1..], keys, k);
      assert EntriesFor(d, keys + [k])[1..] == EntriesFor(d[1..], keys + [k]);
      assert EntriesFor(d, keys)[1..] == EntriesFor(d[1..], keys);
      assert k in d <==> k == d[0] || k in d[1..];
      assert k == d[0] ==> k !in d[1..];
    }
  }

  /** Every key is counted once: the counts add up to the number of keys. */
  lemma {:induction false} TallySum(keys: seq<string>)
    ensures SumBy(Tally(keys), CountOf) == |keys|
  {
    if keys != [] {
      var n := |keys| - 1;
      var pre := keys[..n];
      var k := keys[n];
      assert keys == pre + [k];
      TallySum(pre);
      var d := Distinct(pre);
      EntriesForGrow(d, pre, k);
      if k !in d {
        OccAbsent(pre, k);
        EntriesForSnoc(d, k, keys);
        SumBySnoc(EntriesFor(d, keys), Entry(k, Occ(keys, k)), CountOf);
      }
    }
  }

  predicate DistinctKeys(es: seq<Entry>) {
    forall i, j :: 0 <= i < j < |es| ==> es[i].key != es[j].key
  }

  /** `Object.entries(counts).sort((a, b) => b.count - a.count)`. */
  function GroupCounts(keys: seq<string>): seq<Entry> {
    SortDesc(Tally(keys), CountOf)
  }

  /** Any rearrangement of the tally: each entry counts the occurrences of its key. */
  lemma {:induction false} PermutedTallyEntries(keys: seq<string>, r: seq<Entry>)
    requires multiset(r) == multiset(Tally(keys))
    ensures forall i :: 0 <= i < |r| ==> r[i].count == Occ(keys, r[i].key) >= 1 && r[i].key in keys
  {
    var t := Tally(keys);
    var d := Distinct(keys);
    forall i | 0 <= i < |r|
      ensures r[i].count == Occ(keys, r[i].key) >= 1 && r[i].key in keys
    {
      assert r[i] in multiset(t);
      var j :| 0 <= j < |t| && t[j] == r[i];
      OccPresent(keys, d[j]);
    }
  }

  /** Any rearrangement of the tally has an entry for every key. */
  lemma {:induction false} PermutedTallyCover(keys: seq<string>, r: seq<Entry>)
    requires multiset(r) == multiset(Tally(keys))
    ensures forall k :: k in keys ==> exists i :: 0 <= i < |r| && r[i].key == k
  {
    var t := Tally(keys);
    var d := Distinct(keys);
    forall k | k in keys
      ensures exists i :: 0 <= i < |r| && r[i].key == k
    {
      var j :| 0 <= j < |d| && d[j] == k;
      assert t[j] in multiset(r);
      var i :| 0 <= i < |r| && r[i] == t[j];
    }
  }

  /** Any rearrangement of the tally lists each key once. */
  lemma {:induction false} PermutedTallyDistinct(keys: seq<string>, r: seq<Entry>)
    requires multiset(r) == multiset(Tally(keys))
    ensures DistinctKeys(r)
  {
    var t := Tally(keys);
    PermutedTallyEntries(keys, r);
    forall i, j | 0 <= i < j < |r|
      ensures r[i].key != r[j].key
    {
      if r[i].key == r[j].key {
        assert r[i] == r[j];
        TwiceIfRepeated(r, i, j);
        AtMostOnce(t, r[i]);
      }
    }
  }

  /**
   * What a grouped count promises: counts are non-increasing, each entry's count is
   * the number of occurrences of its key, every key appears exactly once, and the
   * counts add up to the number of keys.
   */
  lemma GroupCountsFacts(keys: seq<string>)
    ensures NonIncreasing(GroupCounts(keys), CountOf)
    ensures SumBy(GroupCounts(keys), CountOf) == |keys|
    ensures DistinctKeys(GroupCounts(keys))
    ensures forall i :: 0 <= i < |GroupCounts(keys)| ==>
      GroupCounts(keys)[i].count == Occ(keys, GroupCounts(keys)[i].key) >= 1 && GroupCounts(keys)[i].key in keys
    ensures forall k :: k in keys ==> exists i :: 0 <= i < |GroupCounts(keys)| && GroupCounts(keys)[i].key == k
  {
    TallySum(keys);
    PermutedTallyEntries(keys, GroupCounts(keys));
    PermutedTallyCover(keys, GroupCounts(keys));
    PermutedTallyDistinct(keys, GroupCounts(keys));
  }

  /** The `n` largest groups: `slice(0, n)` of a grouped count. */
  function TopCounts(keys: seq<string>, n: nat): seq<Entry> {
    Take(GroupCounts(keys), n)
  }

  /**
   * The first `n` entries of a grouped count: at most `n` of them, still in
   * non-increasing order, each with the occurrence count of its key.
   */
  lemma TopCountsFacts(keys: seq<string>, n: nat)
    ensures |TopCounts(keys, n)| <= n
    ensures NonIncreasing(TopCounts(keys, n), CountOf)
    ensures DistinctKeys(TopCounts(keys, n))
    ensures forall i :: 0 <= i < |TopCounts(keys, n)| ==>
      TopCounts(keys, n)[i].count == Occ(keys, TopCounts(keys, n)[i].key) >= 1
  {
    GroupCountsFacts(keys);
  }

  /** No key left out of the first `n` groups occurs more often than any key kept. */
  lemma TopCountsAreLargest(keys: seq<string>, n: nat, k: string, i: nat)
    requires k in keys && i < |TopCounts(keys, n)|
    requires forall j :: 0 <= j < |TopCounts(keys, n)| ==> TopCounts(keys, n)[j].key != k
    ensures Occ(keys, k) <= TopCounts(keys, n)[i].count
  {
    var r := GroupCounts(keys);
    var t := TopCounts(keys, n);
    PermutedTallyCover(keys, r);
    PermutedTallyEntries(keys, r);
    var m :| 0 <= m < |r| && r[m].key == k;
    assert r[m].count == Occ(keys, k);
    forall j | 0 <= j < |t|
      ensures r[j].key != k
    {
      assert t[j] == r[j];
    }
    assert i < |t| <= m;
    assert CountOf(r[i]) >= CountOf(r[m]);
  }

  /**
   * `Object.entries(counts).sort((a, b) => a.key.localeCompare(b.key)).slice(-n)`:
   * the groups with the `n` largest keys, smallest key first.
   */
  function LatestCounts(keys: seq<string>, n: nat): seq<Entry> {
    TakeLast(SortAsc(Tally(keys), KeyOf), n)
  }

  /** The tail of a rearranged tally keeps its order and its entries' facts. */
  lemma TallySuffixFacts(keys: seq<string>, s: seq<Entry>, r: seq<Entry>)
    requires multiset(s) == multiset(Tally(keys)) && AscendingBy(s, KeyOf)
    requires |r| <= |s| && r == s[|s| - |r|..]
    ensures AscendingBy(r, KeyOf)
    ensures DistinctKeys(r)
    ensures forall i :: 0 <= i < |r| ==> r[i].count == Occ(keys, r[i].key) >= 1 && r[i].key in keys
  {
    var m := |s| - |r|;
    PermutedTallyEntries(keys, s);
    PermutedTallyDistinct(keys, s);
    assert forall i :: 0 <= i < |r| ==> r[i] == s[m + i];
  }

  /** At most `n` groups, keys ascending and each once, each with the occurrence count of its key. */
  lemma LatestCountsFacts(keys: seq<string>, n: nat)
    ensures var r := LatestCounts(keys, n);
      && |r| <= n
      && AscendingBy(r, KeyOf)
      && DistinctKeys(r)
      && (forall i :: 0 <= i < |r| ==> r[i].count == Occ(keys, r[i].key) >= 1 && r[i].key in keys)
  {
    TallySuffixFacts(keys, SortAsc(Tally(keys), KeyOf), LatestCounts(keys, n));
  }

  lemma KeptSuffixIsLatest(keys: seq<string>, s: seq<Entry>, r: seq<Entry>, k: string, i: nat)
    requires multiset(s) == multiset(Tally(keys)) && AscendingBy(s, KeyOf)
    requires |r| <= |s| && r == s[|s| - |r|..]
    requires k in keys && i < |r|
    requires forall j :: 0 <= j < |r| ==> r[j].key != k
    ensures StrLe(k, r[i].key)
  {
    var m := |s| - |r|;
    PermutedTallyCover(keys, s);
    forall j | m <= j < |s|
      ensures KeyOf(s[j]) != k
    {
      assert s[j] == r[j - m];
    }
    var p :| 0 <= p < |s| && s[p].key == k;
    assert KeyOf(s[p]) == k;
    LeftOutSortsFirst(s, m, KeyOf, k, i);
    assert r[i] == s[m + i];
  }

  /** Every key left out of the last `n` groups sorts before every key kept. */
  lemma LatestCountsAreLatest(keys: seq<string>, n: nat, k: string, i: nat)
    requires k in keys && i < |LatestCounts(keys, n)|
    requires forall j :: 0 <= j < |LatestCounts(keys, n)| ==> LatestCounts(keys, n)[j].key != k
    ensures StrLe(k, LatestCounts(keys, n)[i].key)
  {
    KeptSuffixIsLatest(keys, SortAsc(Tally(keys), KeyOf), LatestCounts(keys, n), k, i);
  }
}
