/**
 The sorted order of chained conditions, told without the functions that compute it: an
 entry is listed when its `from` leads back to an unchained one, and the entries come in
 the lexicographic order of their chains.
 */
module ConditionOrder {
  import opened Conditions
  import opened ConditionChains

  /** An entry is reached when it is unchained, or when the entry whose `as` is its `from` is. */
  lemma ReachedIff(entries: seq<Entry>, i: nat)
    requires i < |entries|
    ensures ReachesStart(entries, i) <==>
      || entries[i].from == ""
      || exists j: nat :: j < |entries| && entries[j].alias == entries[i].from && ReachesStart(entries, j)
  {
    if ReachesStart(entries, i) && entries[i].from != "" {
      var p :| IsPath(entries, p) && Last(p) == i;
      assert |p| > 1;
      var q := p[..|p| - 1];
      PrefixIsPath(entries, p, |p| - 1);
      assert entries[Last(q)].alias == entries[i].from;
    }
    if entries[i].from == "" {
      assert IsPath(entries, [i]) && Last([i]) == i;
    } else if j: nat :| j < |entries| && entries[j].alias == entries[i].from && ReachesStart(entries, j) {
      var q :| IsPath(entries, q) && Last(q) == j;
      assert IsPath(entries, q + [i]) && Last(q + [i]) == i;
    }
  }

  /** `p` comes before `q`: it is the beginning of it, or is smaller where they first differ. */
  ghost predicate Precedes(p: seq<nat>, q: seq<nat>) {
    p < q || exists k :: 0 <= k < |p| && k < |q| && p[..k] == q[..k] && p[k] < q[k]
  }

  /** The positions of `s` in the order of their chains. */
  ghost predicate InChainOrder(entries: seq<Entry>, s: seq<nat>) {
    forall k, l, p, q {:trigger s[k], s[l], IsPath(entries, p), IsPath(entries, q)} ::
      0 <= k < l < |s| && IsPath(entries, p) && IsPath(entries, q) && Last(p) == s[k] && Last(q) == s[l] ==>
          Precedes(p, q)
  }

  /** Every chain to a position of `s` goes through `p` and then has an entry from `d` on. */
  ghost predicate Through(entries: seq<Entry>, p: seq<nat>, d: nat, s: seq<nat>) {
    forall q {:trigger IsPath(entries, q)} :: IsPath(entries, q) && Last(q) in s ==> p < q && d <= q[|p|]
  }

  lemma AppendInChainOrder(entries: seq<Entry>, prefix: seq<nat>, d: nat, a: seq<nat>, b: seq<nat>)
    requires InChainOrder(entries, a) && InChainOrder(entries, b)
    requires forall q {:trigger IsPath(entries, q)} :: IsPath(entries, q) && Last(q) in a ==> prefix + [d] <= q
    requires Through(entries, prefix, d + 1, b)
    ensures InChainOrder(entries, a + b)
  {
    var s := a + b;
    forall k, l, p, q {:trigger s[k], s[l], IsPath(entries, p), IsPath(entries, q)} |
      0 <= k < l < |s| && IsPath(entries, p) && IsPath(entries, q) && Last(p) == s[k] && Last(q) == s[l]
      ensures Precedes(p, q)
    {
      if k < |a| <= l {
        assert s[k] in a && s[l] in b;
        assert p[|prefix|] == (prefix + [d])[|prefix|] && p[..|prefix|] == prefix == q[..|prefix|];
      } else if l < |a| {
        assert s[k] == a[k] && s[l] == a[l];
      } else {
        assert s[k] == b[k - |a|] && s[l] == b[l - |a|];
      }
    }
  }

  lemma GatheredGoThrough(entries: seq<Entry>, p: seq<nat>)
    requires UniqueAliases(entries) && IsPath(entries, p)
    ensures forall q {:trigger IsPath(entries, q)} :: IsPath(entries, q) && Last(q) in Gathered(entries, p) ==> p <= q
  {
    forall q {:trigger IsPath(entries, q)} | IsPath(entries, q) && Last(q) in Gathered(entries, p)
      ensures p <= q
    {
      var r := GatheredReaches(entries, p, Last(q));
      PathIsUnique(entries, q, r);
    }
  }

  lemma GatheredFromGoThrough(entries: seq<Entry>, p: seq<nat>, d: nat)
    requires UniqueAliases(entries) && IsPath(entries, p) && d <= |entries|
    ensures Through(entries, p, d, GatheredFrom(entries, p, d))
  {
    forall q {:trigger IsPath(entries, q)} | IsPath(entries, q) && Last(q) in GatheredFrom(entries, p, d)
      ensures p < q && d <= q[|p|]
    {
      var r := GatheredFromReaches(entries, p, d, Last(q));
      PathIsUnique(entries, q, r);
    }
  }

  lemma SortedFromGoThrough(entries: seq<Entry>, d: nat)
    requires UniqueAliases(entries) && d <= |entries|
    ensures Through(entries, [], d, SortedFrom(entries, d))
  {
    forall q {:trigger IsPath(entries, q)} | IsPath(entries, q) && Last(q) in SortedFrom(entries, d)
      ensures [] < q && d <= q[0]
    {
      var r := SortedFromReaches(entries, d, Last(q));
      PathIsUnique(entries, q, r);
    }
  }

  lemma {:induction false} GatheredInChainOrder(entries: seq<Entry>, p: seq<nat>)
    requires UniqueAliases(entries) && IsPath(entries, p)
    ensures InChainOrder(entries, Gathered(entries, p))
    decreases |entries| - |p|, |entries| + 1
  {
    GatheredFromInChainOrder(entries, p, 0);
    GatheredFromGoThrough(entries, p, 0);
    FirstInChainOrder(entries, p, GatheredFrom(entries, p, 0));
  }

  lemma FirstInChainOrder(entries: seq<Entry>, p: seq<nat>, rest: seq<nat>)
    requires UniqueAliases(entries) && IsPath(entries, p)
    requires InChainOrder(entries, rest) && Through(entries, p, 0, rest)
    ensures InChainOrder(entries, [Last(p)] + rest)
  {
    var s := [Last(p)] + rest;
    forall k, l, q, r {:trigger s[k], s[l], IsPath(entries, q), IsPath(entries, r)} |
      0 <= k < l < |s| && IsPath(entries, q) && IsPath(entries, r) && Last(q) == s[k] && Last(r) == s[l]
      ensures Precedes(q, r)
    {
      assert s[l] == rest[l - 1];
      if k == 0 {
        PathIsUnique(entries, p, q);
      } else {
        assert s[k] == rest[k - 1];
      }
    }
  }

  lemma {:induction false} GatheredFromInChainOrder(entries: seq<Entry>, p: seq<nat>, d: nat)
    requires UniqueAliases(entries) && IsPath(entries, p) && d <= |entries|
    ensures InChainOrder(entries, GatheredFrom(entries, p, d))
    decreases |entries| - |p|, |entries| - d
  {
    if d < |entries| {
      GatheredFromInChainOrder(entries, p, d + 1);
      if Links(entries[Last(p)], entries[d]) {
        ExtendedPath(entries, p, d);
        GatheredInChainOrder(entries, p + [d]);
        GatheredGoThrough(entries, p + [d]);
        GatheredFromGoThrough(entries, p, d + 1);
        AppendInChainOrder(entries, p, d, Gathered(entries, p + [d]), GatheredFrom(entries, p, d + 1));
      }
    }
  }

  lemma {:induction false} SortedFromInChainOrder(entries: seq<Entry>, d: nat)
    requires UniqueAliases(entries) && d <= |entries|
    ensures InChainOrder(entries, SortedFrom(entries, d))
    decreases |entries| - d
  {
    if d < |entries| {
      SortedFromInChainOrder(entries, d + 1);
      if entries[d].from == "" {
        StartIsPath(entries, d);
        GatheredInChainOrder(entries, [d]);
        GatheredGoThrough(entries, [d]);
        SortedFromGoThrough(entries, d + 1);
        assert [] + [d] == [d];
        AppendInChainOrder(entries, [], d, Gathered(entries, [d]), SortedFrom(entries, d + 1));
      }
    }
  }

  /**
   The sorted list is in the lexicographic order of the chains: unchained entries in the
   order of the list, and each followed by what takes its output, again in list order.
   */
  lemma SortedInChainOrder(entries: seq<Entry>, k: nat, l: nat, p: seq<nat>, q: seq<nat>)
    requires UniqueAliases(entries) && k < l < |Sorted(entries)|
    requires IsPath(entries, p) && Last(p) == Sorted(entries)[k] && IsPath(entries, q) && Last(q) == Sorted(entries)[l]
    ensures Precedes(p, q)
  {
    SortedFromInChainOrder(entries, 0);
  }
}
