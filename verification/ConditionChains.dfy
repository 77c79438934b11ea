/**
 The order in which chained conditions are evaluated: `sortConditionEntries` and
 `gatherChain`. Entries are identified by their position in the list, since two
 entries may be equal as values.
 */
module ConditionChains {
  import opened Conditions

  /** `p` leads from an unchained entry along `from` links. */
  ghost predicate IsPath(entries: seq<Entry>, p: seq<nat>) {
    && p != []
    && (forall k :: 0 <= k < |p| ==> p[k] < |entries|)
    && entries[p[0]].from == ""
    && forall k :: 0 < k < |p| ==> Links(entries[p[k - 1]], entries[p[k]])
  }

  /** `gatherChain`'s test. */
  predicate Links(producer: Entry, consumer: Entry) {
    producer.alias == consumer.from && producer.alias != ""
  }

  function Last(p: seq<nat>): nat
    requires p != []
  {
    p[|p| - 1]
  }

  /** The `from` links of the entry lead back to an unchained entry. */
  ghost predicate ReachesStart(entries: seq<Entry>, i: nat) {
    exists p :: IsPath(entries, p) && Last(p) == i
  }

  /** With unique aliases an entry has at most one path, even when the links have cycles. */
  lemma {:induction false} PathIsUnique(entries: seq<Entry>, p: seq<nat>, q: seq<nat>)
    requires UniqueAliases(entries) && IsPath(entries, p) && IsPath(entries, q) && Last(p) == Last(q)
    ensures p == q
    decreases |p|
  {
    assert |p| > 1 ==> Links(entries[p[|p| - 2]], entries[p[|p| - 1]]);
    assert |q| > 1 ==> Links(entries[q[|q| - 2]], entries[q[|q| - 1]]);
    if |p| > 1 && |q| > 1 {
      var p', q' := p[..|p| - 1], q[..|q| - 1];
      PathIsUnique(entries, p', q');
      assert p == p' + [Last(p)] && q == q' + [Last(q)];
    }
  }

  lemma PrefixIsPath(entries: seq<Entry>, p: seq<nat>, n: nat)
    requires IsPath(entries, p) && 0 < n <= |p|
    ensures IsPath(entries, p[..n]) && Last(p[..n]) == p[n - 1]
  {
  }

  ghost function Below(n: nat): (below: set<nat>)
    ensures forall i: nat :: i in below <==> i < n
    ensures |below| == n
  {
    if n == 0 then {} else Below(n - 1) + {n - 1}
  }

  lemma DistinctIsShort(p: seq<nat>, n: nat)
    requires forall k :: 0 <= k < |p| ==> p[k] < n
    requires forall k, l :: 0 <= k < l < |p| ==> p[k] != p[l]
    ensures |p| <= n
  {
    SizeOfValues(p);
    SubsetSize(set k | 0 <= k < |p| :: p[k], Below(n));
  }

  lemma {:induction false} SizeOfValues(p: seq<nat>)
    requires forall k, l :: 0 <= k < l < |p| ==> p[k] != p[l]
    ensures |set k | 0 <= k < |p| :: p[k]| == |p|
  {
    if p != [] {
      var q := p[..|p| - 1];
      SizeOfValues(q);
      assert (set k | 0 <= k < |p| :: p[k]) == (set k | 0 <= k < |q| :: q[k]) + {Last(p)};
    }
  }

  lemma SubsetSize<T>(a: set<T>, b: set<T>)
    requires a <= b
    ensures |a| <= |b|
  {
    assert b == a + (b - a);
  }

  /** A path never comes back to an entry, so it is no longer than the list: the recursion ends. */
  lemma PathIsShort(entries: seq<Entry>, p: seq<nat>)
    requires UniqueAliases(entries) && IsPath(entries, p)
    ensures |p| <= |entries|
  {
    forall k, l | 0 <= k < l < |p|
      ensures p[k] != p[l]
    {
      PrefixIsPath(entries, p, k + 1);
      PrefixIsPath(entries, p, l + 1);
      if p[k] == p[l] {
        PathIsUnique(entries, p[..k + 1], p[..l + 1]);
      }
    }
    DistinctIsShort(p, |entries|);
  }

  /**
   The uniqueness of aliases, which the parser checks and the engine does not, is what
   ends the recursion: without it, as in this list, there are paths of every length.
   */
  lemma WithoutUniqueAliasesPathsAreUnbounded(c: Conditional, n: nat) returns (entries: seq<Entry>, p: seq<nat>)
    ensures !UniqueAliases(entries) && IsPath(entries, p) && |p| == n + 1
  {
    entries := [Entry("", "a", false, false, c), Entry("a", "a", false, false, c)];
    assert entries[0].alias == entries[1].alias;
    p := [0] + seq(n, _ => 1);
  }

  lemma ExtendedPath(entries: seq<Entry>, p: seq<nat>, d: nat)
    requires UniqueAliases(entries) && IsPath(entries, p) && d < |entries| && Links(entries[Last(p)], entries[d])
    ensures IsPath(entries, p + [d]) && Last(p + [d]) == d && |p| < |entries|
  {
    PathIsShort(entries, p + [d]);
  }

  /** The positions that `gatherChain` lists for the entry at the end of `p`. */
  ghost function Gathered(entries: seq<Entry>, p: seq<nat>): seq<nat>
    requires UniqueAliases(entries) && IsPath(entries, p)
    decreases |entries| - |p|, |entries| + 1
  {
    [Last(p)] + GatheredFrom(entries, p, 0)
  }

  /** Its loop, from entry `d` on. */
  ghost function GatheredFrom(entries: seq<Entry>, p: seq<nat>, d: nat): seq<nat>
    requires UniqueAliases(entries) && IsPath(entries, p) && d <= |entries|
    decreases |entries| - |p|, |entries| - d
  {
    if d == |entries| then []
    else if Links(entries[Last(p)], entries[d]) then
      ExtendedPath(entries, p, d);
      Gathered(entries, p + [d]) + GatheredFrom(entries, p, d + 1)
    else GatheredFrom(entries, p, d + 1)
  }

  lemma StartIsPath(entries: seq<Entry>, d: nat)
    requires d < |entries| && entries[d].from == ""
    ensures IsPath(entries, [d]) && Last([d]) == d
  {
  }

  /** The positions that `sortConditionEntries` lists, from entry `d` on. */
  ghost function SortedFrom(entries: seq<Entry>, d: nat): seq<nat>
    requires UniqueAliases(entries) && d <= |entries|
    decreases |entries| - d
  {
    if d == |entries| then []
    else if entries[d].from == "" then
      StartIsPath(entries, d);
      Gathered(entries, [d]) + SortedFrom(entries, d + 1)
    else SortedFrom(entries, d + 1)
  }

  ghost function Sorted(entries: seq<Entry>): seq<nat>
    requires UniqueAliases(entries)
  {
    SortedFrom(entries, 0)
  }

  ghost predicate InRange(s: seq<nat>, n: nat) {
    forall k :: 0 <= k < |s| ==> s[k] < n
  }

  ghost function Pick(entries: seq<Entry>, s: seq<nat>): (picked: seq<Entry>)
    requires InRange(s, |entries|)
  {
    seq(|s|, k requires 0 <= k < |s| => entries[s[k]])
  }

  // ----- what is listed -----

  /** Every listed position has a path that goes through `p`. */
  lemma {:induction false} GatheredReaches(entries: seq<Entry>, p: seq<nat>, i: nat) returns (q: seq<nat>)
    requires UniqueAliases(entries) && IsPath(entries, p) && i in Gathered(entries, p)
    ensures IsPath(entries, q) && Last(q) == i && p <= q
    decreases |entries| - |p|, |entries| + 1
  {
    if i == Last(p) {
      q := p;
    } else {
      q := GatheredFromReaches(entries, p, 0, i);
      assert p <= q;
    }
  }

  lemma {:induction false} GatheredFromReaches(entries: seq<Entry>, p: seq<nat>, d: nat, i: nat) returns (q: seq<nat>)
    requires UniqueAliases(entries) && IsPath(entries, p) && d <= |entries| && i in GatheredFrom(entries, p, d)
    ensures IsPath(entries, q) && Last(q) == i && p < q && d <= q[|p|]
    decreases |entries| - |p|, |entries| - d
  {
    if Links(entries[Last(p)], entries[d]) {
      ExtendedPath(entries, p, d);
      if i in Gathered(entries, p + [d]) {
        q := GatheredReaches(entries, p + [d], i);
        assert q[|p|] == (p + [d])[|p|];
      } else {
        q := GatheredFromReaches(entries, p, d + 1, i);
      }
    } else {
      q := GatheredFromReaches(entries, p, d + 1, i);
    }
  }

  /** Every path through `p` ends in a listed position. */
  lemma {:induction false} GatheredContains(entries: seq<Entry>, p: seq<nat>, q: seq<nat>)
    requires UniqueAliases(entries) && IsPath(entries, p) && IsPath(entries, q) && p <= q
    ensures Last(q) in Gathered(entries, p)
    decreases |entries| - |p|, |entries| + 1
  {
    if |p| == |q| {
      assert p == q;
    } else {
      assert Links(entries[q[|p| - 1]], entries[q[|p|]]);
      GatheredFromContains(entries, p, 0, q);
    }
  }

  lemma {:induction false} GatheredFromContains(entries: seq<Entry>, p: seq<nat>, d: nat, q: seq<nat>)
    requires UniqueAliases(entries) && IsPath(entries, p) && IsPath(entries, q) && p < q && d <= q[|p|]
    ensures Last(q) in GatheredFrom(entries, p, d)
    decreases |entries| - |p|, |entries| - d
  {
    assert Links(entries[q[|p| - 1]], entries[q[|p|]]);
    if d == q[|p|] {
      ExtendedPath(entries, p, d);
      assert p + [d] <= q;
      GatheredContains(entries, p + [d], q);
    } else {
      GatheredFromContains(entries, p, d + 1, q);
      if Links(entries[Last(p)], entries[d]) {
        ExtendedPath(entries, p, d);
      }
    }
  }

  lemma {:induction false} SortedFromReaches(entries: seq<Entry>, d: nat, i: nat) returns (q: seq<nat>)
    requires UniqueAliases(entries) && d <= |entries| && i in SortedFrom(entries, d)
    ensures IsPath(entries, q) && Last(q) == i && d <= q[0]
    decreases |entries| - d
  {
    if entries[d].from == "" {
      StartIsPath(entries, d);
      if i in Gathered(entries, [d]) {
        q := GatheredReaches(entries, [d], i);
        assert q[0] == [d][0];
      } else {
        q := SortedFromReaches(entries, d + 1, i);
      }
    } else {
      q := SortedFromReaches(entries, d + 1, i);
    }
  }

  lemma {:induction false} SortedFromContains(entries: seq<Entry>, d: nat, q: seq<nat>)
    requires UniqueAliases(entries) && d <= |entries| && IsPath(entries, q) && d <= q[0]
    ensures Last(q) in SortedFrom(entries, d)
    decreases |entries| - d
  {
    if d == q[0] {
      StartIsPath(entries, d);
      assert [d] <= q;
      GatheredContains(entries, [d], q);
    } else {
      SortedFromContains(entries, d + 1, q);
      if entries[d].from == "" {
        StartIsPath(entries, d);
      }
    }
  }

  /** The sorted list holds exactly the entries whose `from` links lead back to an unchained entry. */
  lemma SortedHoldsWhatReachesStart(entries: seq<Entry>, i: nat)
    requires UniqueAliases(entries)
    ensures i in Sorted(entries) <==> ReachesStart(entries, i)
  {
    if i in Sorted(entries) {
      var q := SortedFromReaches(entries, 0, i);
    }
    if ReachesStart(entries, i) {
      var q :| IsPath(entries, q) && Last(q) == i;
      SortedFromContains(entries, 0, q);
    }
  }

  lemma SortedInRange(entries: seq<Entry>)
    requires UniqueAliases(entries)
    ensures InRange(Sorted(entries), |entries|)
  {
    var s := Sorted(entries);
    forall k | 0 <= k < |s|
      ensures s[k] < |entries|
    {
      var q := SortedFromReaches(entries, 0, s[k]);
    }
  }

  // ----- once each -----

  ghost predicate NoDuplicates(s: seq<nat>) {
    forall k, l :: 0 <= k < l < |s| ==> s[k] != s[l]
  }

  lemma AppendNoDuplicates(a: seq<nat>, b: seq<nat>)
    requires NoDuplicates(a) && NoDuplicates(b) && forall i :: i in a ==> i !in b
    ensures NoDuplicates(a + b)
  {
    var s := a + b;
    forall k, l | 0 <= k < l < |s|
      ensures s[k] != s[l]
    {
      if k < |a| <= l {
        assert s[k] in a && s[l] in b;
      }
    }
  }

  lemma {:induction false} GatheredOnce(entries: seq<Entry>, p: seq<nat>)
    requires UniqueAliases(entries) && IsPath(entries, p)
    ensures NoDuplicates(Gathered(entries, p))
    decreases |entries| - |p|, |entries| + 1
  {
    GatheredFromOnce(entries, p, 0);
    if Last(p) in GatheredFrom(entries, p, 0) {
      var q := GatheredFromReaches(entries, p, 0, Last(p));
      PathIsUnique(entries, p, q);
    }
    AppendNoDuplicates([Last(p)], GatheredFrom(entries, p, 0));
  }

  lemma {:induction false} GatheredFromOnce(entries: seq<Entry>, p: seq<nat>, d: nat)
    requires UniqueAliases(entries) && IsPath(entries, p) && d <= |entries|
    ensures NoDuplicates(GatheredFrom(entries, p, d))
    decreases |entries| - |p|, |entries| - d
  {
    if d < |entries| {
      GatheredFromOnce(entries, p, d + 1);
      if Links(entries[Last(p)], entries[d]) {
        ExtendedPath(entries, p, d);
        var a, b := Gathered(entries, p + [d]), GatheredFrom(entries, p, d + 1);
        GatheredOnce(entries, p + [d]);
        forall i | i in a
          ensures i !in b
        {
          var q := GatheredReaches(entries, p + [d], i);
          assert q[|p|] == (p + [d])[|p|];
          if i in b {
            var q' := GatheredFromReaches(entries, p, d + 1, i);
            PathIsUnique(entries, q, q');
          }
        }
        AppendNoDuplicates(a, b);
      }
    }
  }

  lemma {:induction false} SortedFromOnce(entries: seq<Entry>, d: nat)
    requires UniqueAliases(entries) && d <= |entries|
    ensures NoDuplicates(SortedFrom(entries, d))
    decreases |entries| - d
  {
    if d < |entries| {
      SortedFromOnce(entries, d + 1);
      if entries[d].from == "" {
        StartIsPath(entries, d);
        var a, b := Gathered(entries, [d]), SortedFrom(entries, d + 1);
        GatheredOnce(entries, [d]);
        forall i | i in a
          ensures i !in b
        {
          var q := GatheredReaches(entries, [d], i);
          assert q[0] == [d][0];
          if i in b {
            var q' := SortedFromReaches(entries, d + 1, i);
            PathIsUnique(entries, q, q');
          }
        }
        AppendNoDuplicates(a, b);
      }
    }
  }

  /** The sorted list holds no entry twice. */
  lemma SortedOnce(entries: seq<Entry>)
    requires UniqueAliases(entries)
    ensures NoDuplicates(Sorted(entries))
  {
    SortedFromOnce(entries, 0);
  }

  // ----- producers first -----

  /** Every chained entry of `s` comes after the entry it takes its input from. */
  ghost predicate ProducersFirst(entries: seq<Entry>, s: seq<nat>)
    requires InRange(s, |entries|)
  {
    forall k :: 0 <= k < |s| && entries[s[k]].from != "" ==>
        exists j :: 0 <= j < k && Links(entries[s[j]], entries[s[k]])
  }

  /** The same, for the part of a chain that comes after `producer`. */
  ghost predicate ProducersFirstAfter(entries: seq<Entry>, producer: nat, s: seq<nat>) {
    && producer < |entries|
    && InRange(s, |entries|)
    && forall k :: 0 <= k < |s| && entries[s[k]].from != "" ==>
         || Links(entries[producer], entries[s[k]])
         || exists j :: 0 <= j < k && Links(entries[s[j]], entries[s[k]])
  }

  lemma AppendProducersFirstAfter(entries: seq<Entry>, producer: nat, a: seq<nat>, b: seq<nat>)
    requires ProducersFirstAfter(entries, producer, a) && ProducersFirstAfter(entries, producer, b)
    ensures ProducersFirstAfter(entries, producer, a + b)
  {
    var s := a + b;
    forall k | 0 <= k < |s| && entries[s[k]].from != ""
      ensures Links(entries[producer], entries[s[k]]) || exists j :: 0 <= j < k && Links(entries[s[j]], entries[s[k]])
    {
      if k < |a| {
        assert s[k] == a[k];
        if !Links(entries[producer], entries[s[k]]) {
          var j :| 0 <= j < k && Links(entries[a[j]], entries[a[k]]);
          assert s[j] == a[j];
        }
      } else {
        assert s[k] == b[k - |a|];
        if !Links(entries[producer], entries[s[k]]) {
          var j :| 0 <= j < k - |a| && Links(entries[b[j]], entries[b[k - |a|]]);
          assert s[|a| + j] == b[j];
        }
      }
    }
  }

  lemma {:induction false} GatheredInOrder(entries: seq<Entry>, p: seq<nat>)
    requires UniqueAliases(entries) && IsPath(entries, p)
    ensures InRange(Gathered(entries, p), |entries|)
    ensures ProducersFirstAfter(entries, if |p| > 1 then p[|p| - 2] else Last(p), Gathered(entries, p))
    decreases |entries| - |p|, |entries| + 1
  {
    GatheredFromInOrder(entries, p, 0);
    var b := GatheredFrom(entries, p, 0);
    var s := Gathered(entries, p);
    forall k | 0 < k < |s| && entries[s[k]].from != ""
      ensures exists j :: 0 <= j < k && Links(entries[s[j]], entries[s[k]])
    {
      assert s[k] == b[k - 1];
      if Links(entries[Last(p)], entries[b[k - 1]]) {
        assert Links(entries[s[0]], entries[s[k]]);
      } else {
        var j :| 0 <= j < k - 1 && Links(entries[b[j]], entries[b[k - 1]]);
        assert s[j + 1] == b[j];
      }
    }
    if |p| > 1 {
      assert Links(entries[p[|p| - 2]], entries[p[|p| - 1]]);
    }
  }

  lemma {:induction false} GatheredFromInOrder(entries: seq<Entry>, p: seq<nat>, d: nat)
    requires UniqueAliases(entries) && IsPath(entries, p) && d <= |entries|
    ensures ProducersFirstAfter(entries, Last(p), GatheredFrom(entries, p, d))
    decreases |entries| - |p|, |entries| - d
  {
    if d < |entries| {
      GatheredFromInOrder(entries, p, d + 1);
      if Links(entries[Last(p)], entries[d]) {
        ExtendedPath(entries, p, d);
        GatheredInOrder(entries, p + [d]);
        assert (p + [d])[|p| - 1] == Last(p);
        AppendProducersFirstAfter(entries, Last(p), Gathered(entries, p + [d]), GatheredFrom(entries, p, d + 1));
      }
    }
  }

  lemma AppendProducersFirst(entries: seq<Entry>, a: seq<nat>, b: seq<nat>)
    requires InRange(a, |entries|) && InRange(b, |entries|)
    requires ProducersFirst(entries, a) && ProducersFirst(entries, b)
    ensures ProducersFirst(entries, a + b)
  {
    var s := a + b;
    forall k | 0 <= k < |s| && entries[s[k]].from != ""
      ensures exists j :: 0 <= j < k && Links(entries[s[j]], entries[s[k]])
    {
      if k < |a| {
        var j :| 0 <= j < k && Links(entries[a[j]], entries[a[k]]);
        assert s[j] == a[j];
      } else {
        var j :| 0 <= j < k - |a| && Links(entries[b[j]], entries[b[k - |a|]]);
        assert s[|a| + j] == b[j];
      }
    }
  }

  lemma GatheredStartInOrder(entries: seq<Entry>, d: nat)
    requires UniqueAliases(entries) && d < |entries| && entries[d].from == ""
    ensures IsPath(entries, [d]) && InRange(Gathered(entries, [d]), |entries|)
    ensures ProducersFirst(entries, Gathered(entries, [d]))
  {
    StartIsPath(entries, d);
    GatheredInOrder(entries, [d]);
    var s := Gathered(entries, [d]);
    forall k | 0 <= k < |s| && entries[s[k]].from != ""
      ensures exists j :: 0 <= j < k && Links(entries[s[j]], entries[s[k]])
    {
      if Links(entries[d], entries[s[k]]) {
        assert k > 0 && Links(entries[s[0]], entries[s[k]]);
      }
    }
  }

  lemma {:induction false} SortedFromInOrder(entries: seq<Entry>, d: nat)
    requires UniqueAliases(entries) && d <= |entries|
    ensures InRange(SortedFrom(entries, d), |entries|) && ProducersFirst(entries, SortedFrom(entries, d))
    decreases |entries| - d
  {
    if d < |entries| {
      SortedFromInOrder(entries, d + 1);
      if entries[d].from == "" {
        GatheredStartInOrder(entries, d);
        AppendProducersFirst(entries, Gathered(entries, [d]), SortedFrom(entries, d + 1));
      }
    }
  }

  /** In the sorted list every producer comes before its consumers. */
  lemma SortedInOrder(entries: seq<Entry>)
    requires UniqueAliases(entries)
    ensures InRange(Sorted(entries), |entries|) && ProducersFirst(entries, Sorted(entries))
  {
    SortedFromInOrder(entries, 0);
  }

  // ----- nothing is lost when every link resolves -----

  ghost function Occurrences(entries: seq<Entry>, s: seq<nat>, e: Entry): set<nat>
    requires InRange(s, |entries|)
  {
    set i | i in s && entries[i] == e
  }

  lemma OccurrencesStep(entries: seq<Entry>, s: seq<nat>, e: Entry)
    requires InRange(s, |entries|) && NoDuplicates(s) && s != []
    ensures
      var init, last := s[..|s| - 1], s[|s| - 1];
      |Occurrences(entries, s, e)| == |Occurrences(entries, init, e)| + (if entries[last] == e then 1 else 0)
  {
    var init, last := s[..|s| - 1], s[|s| - 1];
    assert forall i :: i in s <==> i in init || i == last;
    assert Occurrences(entries, s, e) == Occurrences(entries, init, e) + (if entries[last] == e then {last} else {});
  }

  lemma {:induction false} CountPicked(entries: seq<Entry>, s: seq<nat>, e: Entry)
    requires InRange(s, |entries|) && NoDuplicates(s)
    ensures multiset(Pick(entries, s))[e] == |Occurrences(entries, s, e)|
    decreases |s|
  {
    if s != [] {
      var init, last := s[..|s| - 1], s[|s| - 1];
      CountPicked(entries, init, e);
      assert Pick(entries, s) == Pick(entries, init) + [entries[last]];
      OccurrencesStep(entries, s, e);
    }
  }

  ghost function Positions(n: nat): seq<nat> {
    seq(n, k requires 0 <= k < n => k)
  }

  lemma PickAll(entries: seq<Entry>)
    ensures InRange(Positions(|entries|), |entries|) && NoDuplicates(Positions(|entries|))
    ensures Pick(entries, Positions(|entries|)) == entries
    ensures forall i: nat :: i in Positions(|entries|) <==> i < |entries|
  {
    forall i: nat | i < |entries|
      ensures i in Positions(|entries|)
    {
      assert Positions(|entries|)[i] == i;
    }
  }

  lemma SameMembersSamePicked(entries: seq<Entry>, s: seq<nat>)
    requires InRange(s, |entries|) && NoDuplicates(s)
    requires forall i: nat :: i < |entries| ==> i in s
    ensures multiset(Pick(entries, s)) == multiset(entries)
  {
    PickAll(entries);
    var all := Positions(|entries|);
    assert forall i: nat :: i in s <==> i in all;
    forall e
      ensures multiset(Pick(entries, s))[e] == multiset(entries)[e]
    {
      CountPicked(entries, s, e);
      CountPicked(entries, all, e);
      assert Occurrences(entries, s, e) == Occurrences(entries, all, e);
    }
  }

  /**
   Sorting permutes the list exactly when every entry's links lead back to an unchained
   entry; otherwise the entries that do not are left out and the result is shorter.
   */
  lemma SortedIsPermutation(entries: seq<Entry>)
    requires UniqueAliases(entries)
    ensures InRange(Sorted(entries), |entries|)
    ensures multiset(Pick(entries, Sorted(entries))) == multiset(entries)
            <==> forall i: nat :: i < |entries| ==> ReachesStart(entries, i)
  {
    SortedInRange(entries);
    SortedOnce(entries);
    var s := Sorted(entries);
    if forall i: nat :: i < |entries| ==> ReachesStart(entries, i) {
      forall i: nat | i < |entries|
        ensures i in s
      {
        SortedHoldsWhatReachesStart(entries, i);
      }
      SameMembersSamePicked(entries, s);
    } else {
      var i: nat :| i < |entries| && !ReachesStart(entries, i);
      SortedHoldsWhatReachesStart(entries, i);
      assert NoDuplicates(s + [i]);
      DistinctIsShort(s + [i], |entries|);
      assert |Pick(entries, s)| < |entries|;
      assert |multiset(Pick(entries, s))| == |Pick(entries, s)| && |multiset(entries)| == |entries|;
    }
  }

  // ----- the code -----

  /** `gatherChain(start, entries)`; `p` is the chain of calls that led here. */
  method GatherChain(start: Entry, entries: seq<Entry>, ghost p: seq<nat>) returns (chain: seq<Entry>)
    requires UniqueAliases(entries) && IsPath(entries, p) && start == entries[Last(p)]
    ensures InRange(Gathered(entries, p), |entries|)
    ensures chain == Pick(entries, Gathered(entries, p))
    decreases |entries| - |p|
  {
    GatheredInOrder(entries, p);
    chain := [start];
    ghost var done := [Last(p)];
    for d := 0 to |entries|
      invariant InRange(done, |entries|) && chain == Pick(entries, done)
      invariant Gathered(entries, p) == done + GatheredFrom(entries, p, d)
    {
      if start.alias == entries[d].from && start.alias != "" {
        ExtendedPath(entries, p, d);
        var more := GatherChain(entries[d], entries, p + [d]);
        chain := chain + more;
        done := done + Gathered(entries, p + [d]);
      }
    }
  }

  /** `sortConditionEntries` */
  method SortConditionEntries(entries: seq<Entry>) returns (sorted: seq<Entry>)
    requires UniqueAliases(entries)
    ensures InRange(Sorted(entries), |entries|)
    ensures sorted == Pick(entries, Sorted(entries))
  {
    SortedInRange(entries);
    sorted := [];
    ghost var done := [];
    for d := 0 to |entries|
      invariant InRange(done, |entries|) && sorted == Pick(entries, done)
      invariant Sorted(entries) == done + SortedFrom(entries, d)
    {
      if entries[d].from == "" {
        StartIsPath(entries, d);
        var more := GatherChain(entries[d], entries, [d]);
        sorted := sorted + more;
        done := done + Gathered(entries, [d]);
      }
    }
  }
}
