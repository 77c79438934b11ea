/** Sums of natural numbers, for counting arguments. */
module Sums {

  ghost function Sum(ranks: seq<nat>): nat {
    if ranks == [] then 0 else ranks[0] + Sum(ranks[1..])
  }

  lemma {:induction false} SumUpdate(ranks: seq<nat>, k: nat, v: nat)
    requires k < |ranks|
    ensures Sum(ranks[k := v]) == Sum(ranks) - ranks[k] + v
  {
    if k == 0 {
      assert ranks[0 := v][1..] == ranks[1..];
    } else {
      assert ranks[k := v][1..] == ranks[1..][k - 1 := v];
      SumUpdate(ranks[1..], k - 1, v);
    }
  }

  lemma {:induction false} SumAppend(ranks: seq<nat>, v: nat)
    ensures Sum(ranks + [v]) == Sum(ranks) + v
  {
    if ranks == [] {
      assert ranks + [v] == [v];
    } else {
      assert (ranks + [v])[1..] == ranks[1..] + [v];
      SumAppend(ranks[1..], v);
    }
  }

  function One(b: bool): nat {
    if b then 1 else 0
  }

  /** The sum of `f` over the elements. */
  function Total<T>(s: seq<T>, f: T -> nat): nat {
    if s == [] then 0 else f(s[0]) + Total(s[1..], f)
  }

  lemma {:induction false} TotalUpdate<T>(s: seq<T>, k: nat, x: T, f: T -> nat)
    requires k < |s|
    ensures Total(s[k := x], f) + f(s[k]) == Total(s, f) + f(x)
  {
    if k == 0 {
      assert s[0 := x][1..] == s[1..];
    } else {
      assert s[k := x][1..] == s[1..][k - 1 := x];
      TotalUpdate(s[1..], k - 1, x, f);
    }
  }

  lemma {:induction false} TotalAppend<T>(s: seq<T>, x: T, f: T -> nat)
    ensures Total(s + [x], f) == Total(s, f) + f(x)
  {
    if s == [] {
      assert s + [x] == [x];
    } else {
      assert (s + [x])[1..] == s[1..] + [x];
      TotalAppend(s[1..], x, f);
    }
  }

  lemma {:induction false} TotalPositive<T>(s: seq<T>, f: T -> nat) returns (k: nat)
    requires Total(s, f) > 0
    ensures k < |s| && f(s[k]) > 0
  {
    k := 0;
    if f(s[0]) == 0 {
      var j := TotalPositive(s[1..], f);
      k := j + 1;
    }
  }

  lemma {:induction false} TotalAtLeast<T>(s: seq<T>, k: nat, f: T -> nat)
    requires k < |s|
    ensures f(s[k]) <= Total(s, f)
  {
    if k > 0 {
      TotalAtLeast(s[1..], k - 1, f);
    }
  }

  lemma {:induction false} TotalZero<T>(s: seq<T>, f: T -> nat)
    requires forall k :: 0 <= k < |s| ==> f(s[k]) == 0
    ensures Total(s, f) == 0
  {
    if s != [] {
      forall k | 0 <= k < |s[1..]|
        ensures f(s[1..][k]) == 0
      {
        assert s[1..][k] == s[k + 1];
      }
      TotalZero(s[1..], f);
    }
  }

  function Count<T(==)>(s: seq<T>, x: T): nat {
    if s == [] then 0 else One(s[0] == x) + Count(s[1..], x)
  }

  lemma {:induction false} CountAppend<T>(s: seq<T>, y: T, x: T)
    ensures Count(s + [y], x) == Count(s, x) + One(y == x)
  {
    if s != [] {
      CountAppend(s[1..], y, x);
      assert (s + [y])[1..] == s[1..] + [y];
    } else {
      assert s + [y] == [y] && [y][1..] == [];
    }
  }

  lemma {:induction false} CountedIsMember<T>(s: seq<T>, x: T)
    ensures Count(s, x) > 0 <==> x in s
  {
    if s != [] {
      CountedIsMember(s[1..], x);
    }
  }
}
