// Ranking: the sort-value computation, the ascending sort and the top-20 slice that
// drawLottery and verifyLottery in app/compute/lottery.ts (and drawLottery in
// lottery.js) each write inline.
module Ranking {
  import opened LotteryTypes

  /** Number of winners kept by `.slice(0, 20)`. */
  const WinnerCount: nat := 20

  /** `finalResults`: each commitment mixed with the block hash. */
  function SortValues(h: Hashing, hashes: seq<PlayerHash>, blockHash: Word256): (entries: seq<Winner>)
    ensures |entries| == |hashes|
    ensures forall i :: 0 <= i < |hashes| ==>
      entries[i] == Winner(hashes[i].name, h.mix(hashes[i].hash, blockHash))
  {
    seq(|hashes|, i requires 0 <= i < |hashes| => Winner(hashes[i].name, h.mix(hashes[i].hash, blockHash)))
  }

  predicate Ascending(s: seq<Winner>)
  {
    forall i, j :: 0 <= i < j < |s| ==> s[i].sortValue <= s[j].sortValue
  }

  predicate StrictlyAscending(s: seq<Winner>)
  {
    forall i, j :: 0 <= i < j < |s| ==> s[i].sortValue < s[j].sortValue
  }

  /**
   * Inserts x into s from the right: x moves left past every entry whose sort value
   * is greater than its own (the comparator `a < b ? -1 : 1` puts x after an equal entry).
   */
  function Insert(s: seq<Winner>, x: Winner): seq<Winner>
  {
    if s == [] || !(x.sortValue < s[|s| - 1].sortValue) then s + [x]
    else Insert(s[..|s| - 1], x) + [s[|s| - 1]]
  }

  /**
   * The one concrete sort the model fixes for `.sort((a, b) => a.sortValue < b.sortValue ? -1 : 1)`:
   * insertion sort, inserting the entries in roster order.
   */
  function SortEntries(s: seq<Winner>): seq<Winner>
  {
    if s == [] then [] else Insert(SortEntries(s[..|s| - 1]), s[|s| - 1])
  }

  /** `.sort(...).slice(0, 20)`. */
  function TopK(s: seq<Winner>): seq<Winner>
  {
    var sorted := SortEntries(s);
    SortEntriesFacts(s);
    sorted[..Min(WinnerCount, |s|)]
  }

  function WinnerNames(ws: seq<Winner>): (names: seq<string>)
    ensures |names| == |ws|
    ensures forall i :: 0 <= i < |ws| ==> names[i] == ws[i].name
  {
    seq(|ws|, i requires 0 <= i < |ws| => ws[i].name)
  }

  /** The winner list both the draw and the verifier compute. */
  function RankWinners(h: Hashing, hashes: seq<PlayerHash>, blockHash: Word256): seq<string>
  {
    WinnerNames(TopK(SortValues(h, hashes, blockHash)))
  }

  /** No entry of t has a sort value above v. */
  predicate AtMost(t: seq<Winner>, v: Word256)
  {
    forall k :: 0 <= k < |t| ==> t[k].sortValue <= v
  }

  lemma AppendAscending(t: seq<Winner>, y: Winner)
    requires Ascending(t) && AtMost(t, y.sortValue)
    ensures Ascending(t + [y])
  {
  }

  lemma {:induction false} InsertMultiset(s: seq<Winner>, x: Winner)
    ensures |Insert(s, x)| == |s| + 1
    ensures multiset(Insert(s, x)) == multiset(s) + multiset{x}
  {
    if s == [] || !(x.sortValue < s[|s| - 1].sortValue) {
    } else {
      var init, last := s[..|s| - 1], s[|s| - 1];
      assert s == init + [last];
      InsertMultiset(init, x);
    }
  }

  lemma {:induction false} InsertFacts(s: seq<Winner>, x: Winner)
    requires Ascending(s)
    ensures |Insert(s, x)| == |s| + 1
    ensures multiset(Insert(s, x)) == multiset(s) + multiset{x}
    ensures Ascending(Insert(s, x))
  {
    InsertMultiset(s, x);
    if s == [] || !(x.sortValue < s[|s| - 1].sortValue) {
      assert AtMost(s, x.sortValue);
      AppendAscending(s, x);
    } else {
      var init, last := s[..|s| - 1], s[|s| - 1];
      assert s == init + [last];
      InsertFacts(init, x);
      var t := Insert(init, x);
      assert AtMost(init, last.sortValue);
      MembersAtMost(init, x, t, last.sortValue);
      AppendAscending(t, last);
    }
  }

  lemma MembersAtMost(init: seq<Winner>, x: Winner, t: seq<Winner>, v: Word256)
    requires AtMost(init, v) && x.sortValue <= v
    requires multiset(t) == multiset(init) + multiset{x}
    ensures AtMost(t, v)
  {
    forall k | 0 <= k < |t| ensures t[k].sortValue <= v {
      assert t[k] in multiset(t);
      if t[k] != x {
        assert t[k] in multiset(init);
        assert t[k] in init;
      }
    }
  }

  lemma {:induction false} SortEntriesFacts(s: seq<Winner>)
    ensures |SortEntries(s)| == |s|
    ensures multiset(SortEntries(s)) == multiset(s)
    ensures Ascending(SortEntries(s))
  {
    if s != [] {
      var init := s[..|s| - 1];
      SortEntriesFacts(init);
      InsertFacts(SortEntries(init), s[|s| - 1]);
      assert s == init + [s[|s| - 1]];
    }
  }

  /**
   * The selection the draw makes: min(20, n) entries, in ascending sort value, each
   * taken from the entries no more often than it occurs there, and no entry left out
   * has a smaller sort value than any entry selected.
   */
  lemma TopKSelects(s: seq<Winner>)
    ensures var top := TopK(s);
      |top| == Min(WinnerCount, |s|) &&
      Ascending(top) &&
      multiset(top) <= multiset(s) &&
      (forall w, x :: w in top && x in multiset(s) - multiset(top) ==> w.sortValue <= x.sortValue)
  {
    var sorted := SortEntries(s);
    SortEntriesFacts(s);
    var k := Min(WinnerCount, |s|);
    assert TopK(s) == sorted[..k];
    PrefixParts(sorted, k);
    PrefixBelowSuffix(sorted, k);
  }

  /** A prefix of an ascending sequence is ascending, and its entries are part of the whole. */
  lemma PrefixParts(sorted: seq<Winner>, k: nat)
    requires Ascending(sorted) && k <= |sorted|
    ensures Ascending(sorted[..k])
    ensures multiset(sorted[..k]) <= multiset(sorted)
    ensures multiset(sorted) - multiset(sorted[..k]) == multiset(sorted[k..])
  {
    var top, rest := sorted[..k], sorted[k..];
    assert sorted == top + rest;
    assert multiset(sorted) == multiset(top) + multiset(rest);
    forall z ensures (multiset(sorted) - multiset(top))[z] == multiset(rest)[z] {
      assert multiset(sorted)[z] == multiset(top)[z] + multiset(rest)[z];
    }
  }

  lemma PrefixBelowSuffix(sorted: seq<Winner>, k: nat)
    requires Ascending(sorted) && k <= |sorted|
    ensures forall w, x :: w in sorted[..k] && x in multiset(sorted[k..]) ==> w.sortValue <= x.sortValue
  {
    forall w, x | w in sorted[..k] && x in multiset(sorted[k..])
      ensures w.sortValue <= x.sortValue
    {
      var i :| 0 <= i < k && sorted[..k][i] == w;
      assert x in sorted[k..];
      var m :| 0 <= m < |sorted| - k && sorted[k..][m] == x;
      assert sorted[i] == w && sorted[k + m] == x;
    }
  }

  /** A roster of at most 20 entries: every entry wins, each exactly as often as it occurs. */
  lemma SmallRosterAllWin(s: seq<Winner>)
    requires |s| <= WinnerCount
    ensures multiset(TopK(s)) == multiset(s)
  {
    SortEntriesFacts(s);
    assert SortEntries(s)[..|s|] == SortEntries(s);
  }

  /**
   * Two ascending sequences holding the same entries are equal when one of them has no
   * tie: the order of equal sort values is the only freedom a sort has.
   */
  lemma {:induction false} AscendingPermutationUnique(t: seq<Winner>, u: seq<Winner>)
    requires Ascending(t) && StrictlyAscending(u)
    requires multiset(t) == multiset(u)
    ensures t == u
  {
    if t != [] {
      assert |t| == |multiset(t)| == |u|;
      HeadIsLeast(t, u[0]);
      HeadIsLeast(u, t[0]);
      HeadIsUnique(u, t[0]);
      assert t == [t[0]] + t[1..] && u == [u[0]] + u[1..];
      assert multiset(t) == multiset{t[0]} + multiset(t[1..]);
      assert multiset(u) == multiset{u[0]} + multiset(u[1..]);
      forall z ensures multiset(t[1..])[z] == multiset(u[1..])[z] {
        assert multiset(t)[z] == multiset(u)[z];
      }
      assert multiset(t[1..]) == multiset(u[1..]);
      AscendingPermutationUnique(t[1..], u[1..]);
    }
  }

  lemma HeadIsLeast(t: seq<Winner>, x: Winner)
    requires Ascending(t) && x in multiset(t)
    ensures t[0].sortValue <= x.sortValue
  {
    assert x in t;
    var i :| 0 <= i < |t| && t[i] == x;
  }

  lemma HeadIsUnique(u: seq<Winner>, x: Winner)
    requires StrictlyAscending(u) && x in multiset(u) && x.sortValue <= u[0].sortValue
    ensures x == u[0]
  {
    assert x in u;
    var i :| 0 <= i < |u| && u[i] == x;
    assert i == 0;
  }

  /**
   * When no two entries share a sort value, every ascending reordering of the entries,
   * whichever sort algorithm produced it, is exactly the model's order, so the draw's
   * winners do not depend on how the engine's sort treats ties.
   */
  lemma TieFreeSortIsUnique(s: seq<Winner>, t: seq<Winner>)
    requires StrictlyAscending(SortEntries(s))
    requires Ascending(t) && multiset(t) == multiset(s)
    ensures t == SortEntries(s)
  {
    SortEntriesFacts(s);
    AscendingPermutationUnique(t, SortEntries(s));
  }

  /**
   * Insert places x just after the last entry it does not move past: j is where it
   * lands when every entry from j on has a greater sort value and the one before j
   * (if any) does not.
   */
  lemma {:induction false} InsertAt(s: seq<Winner>, x: Winner, j: nat)
    requires j <= |s|
    requires j == 0 || !(x.sortValue < s[j - 1].sortValue)
    requires forall k :: j <= k < |s| ==> x.sortValue < s[k].sortValue
    ensures Insert(s, x) == s[..j] + [x] + s[j..]
    decreases |s| - j
  {
    if j == |s| {
      assert s[..j] == s && s[j..] == [];
    } else {
      var init := s[..|s| - 1];
      assert init[..j] == s[..j];
      if j > 0 {
        assert init[j - 1] == s[j - 1];
      }
      InsertAt(init, x, j);
      assert s[j..] == init[j..] + [s[|s| - 1]];
    }
  }

  /**
   * One step of the in-place sort: a[i] moves left into the sorted prefix a[..i].
   */
  method InsertInPlace(a: array<Winner>, i: nat)
    requires i < a.Length
    modifies a
    ensures a[..i + 1] == Insert(old(a[..i]), old(a[i]))
    ensures a[i + 1..] == old(a[i + 1..])
  {
    ghost var sorted := a[..i];
    var x := a[i];
    var j := i;
    while j > 0 && x.sortValue < a[j - 1].sortValue
      invariant 0 <= j <= i
      invariant forall k :: 0 <= k < j ==> a[k] == sorted[k]
      invariant forall k :: j < k <= i ==> a[k] == sorted[k - 1]
      invariant forall k :: j <= k < i ==> x.sortValue < sorted[k].sortValue
      invariant forall k :: i < k < a.Length ==> a[k] == old(a[k])
    {
      a[j] := a[j - 1];
      j := j - 1;
    }
    a[j] := x;
    InsertAt(sorted, x, j);
    ghost var expected := sorted[..j] + [x] + sorted[j..];
    forall k | 0 <= k <= i ensures a[k] == expected[k] {
      if k < j {
        assert expected[k] == sorted[k];
      } else if k == j {
        assert expected[k] == x;
      } else {
        assert expected[k] == sorted[k - 1];
      }
    }
    assert a[..i + 1] == expected;
  }

  /**
   * `finalResults.sort(...)` in place: the array ends up holding SortEntries of what it
   * held before.
   */
  method SortBySortValue(a: array<Winner>)
    modifies a
    ensures a[..] == SortEntries(old(a[..]))
  {
    ghost var input := a[..];
    var i := 0;
    while i < a.Length
      invariant 0 <= i <= a.Length
      invariant a[..i] == SortEntries(input[..i])
      invariant a[i..] == input[i..]
    {
      ghost var prefix := a[..i];
      assert a[i] == input[i];
      assert a[i + 1..] == input[i + 1..];
      InsertInPlace(a, i);
      assert a[..i + 1] == Insert(prefix, input[i]);
      assert input[..i + 1][..i] == input[..i];
      assert SortEntries(input[..i + 1]) == Insert(SortEntries(input[..i]), input[i]);
      i := i + 1;
    }
    assert input[..a.Length] == input;
  }
}
