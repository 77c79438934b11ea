/** The span id generator: a 64-bit counter with a random odd increment, which skips zero. */
module SpanIds {
  import opened Words
  import opened Wrappers

  predicate IsWord(x: int) {
    0 <= x < TwoTo64
  }

  /** The value that the `k`-th `atomic.AddUint64` returns. */
  function Value(start: nat, inc: nat, k: nat): nat {
    (start + k * inc) % TwoTo64
  }

  predicate Odd(x: int) {
    x % 2 == 1
  }

  // ----- an odd increment meets every value once -----

  lemma HalfIsMultiple(d: nat, inc: nat, p: nat, t: nat)
    requires Odd(inc) && d * inc == t * (2 * p)
    ensures d % 2 == 0 && d / 2 * inc == t * p
  {
    var h := inc / 2;
    assert d * inc == 2 * (d * h) + d by { assert inc == 2 * h + 1; }
    Regroup(2, t, p);
    assert t * (2 * p) == 2 * (t * p);
    var e := d / 2;
    assert d == 2 * e;
    Regroup(2, e, inc);
  }

  /** An odd factor can be cancelled modulo a power of two. */
  lemma {:induction false} OddCancels(d: nat, inc: nat, k: nat, t: nat)
    requires Odd(inc) && d * inc == t * Pow2(k)
    ensures d % Pow2(k) == 0
    decreases k
  {
    if k > 0 {
      HalfIsMultiple(d, inc, Pow2(k - 1), t);
      OddCancels(d / 2, inc, k - 1, t);
      var q := d / 2 / Pow2(k - 1);
      Divide(d / 2, Pow2(k - 1));
      Regroup(2, q, Pow2(k - 1));
      assert d == q * Pow2(k);
      QuotientIs(d, Pow2(k), q, 0);
    }
  }

  /** Equal values are a multiple of 2^64 steps apart. */
  lemma EqualValuesAreFarApart(start: nat, inc: nat, i: nat, j: nat)
    requires Odd(inc) && i <= j && Value(start, inc, i) == Value(start, inc, j)
    ensures (j - i) % TwoTo64 == 0
  {
    var a, b := start + i * inc, start + j * inc;
    Divide(a, TwoTo64);
    Divide(b, TwoTo64);
    assert j * inc == i * inc + (j - i) * inc;
    var t := b / TwoTo64 - a / TwoTo64;
    assert (j - i) * inc == t * TwoTo64;
    SixtyFourBits();
    Monotone(i, j, inc);
    assert t >= 0;
    OddCancels(j - i, inc, 64, t);
  }

  /** With an even increment, the values repeat after half the range. */
  lemma EvenIncrementRepeats(start: nat, inc: nat, i: nat)
    requires !Odd(inc)
    ensures Value(start, inc, i + TwoTo64 / 2) == Value(start, inc, i)
  {
    var h := inc / 2;
    assert inc == 2 * h;
    assert (i + TwoTo64 / 2) * inc == i * inc + TwoTo64 / 2 * inc;
    assert TwoTo64 / 2 * inc == h * TwoTo64;
    AddMultiple(start + i * inc, h);
  }

  lemma AddMultiple(x: nat, t: nat)
    ensures (x + t * TwoTo64) % TwoTo64 == x % TwoTo64
  {
    Divide(x, TwoTo64);
    QuotientIs(x + t * TwoTo64, TwoTo64, x / TwoTo64 + t, x % TwoTo64);
  }

  /** Any 2^64 successive values are pairwise distinct exactly when the increment is odd. */
  lemma DistinctIffOdd(start: nat, inc: nat)
    ensures Odd(inc) <==>
              forall i: nat, j: nat :: i < j < TwoTo64 ==> Value(start, inc, i) != Value(start, inc, j)
  {
    if Odd(inc) {
      forall i: nat, j: nat | i < j < TwoTo64
        ensures Value(start, inc, i) != Value(start, inc, j)
      {
        if Value(start, inc, i) == Value(start, inc, j) {
          EqualValuesAreFarApart(start, inc, i, j);
        }
      }
    } else {
      EvenIncrementRepeats(start, inc, 0);
      var half: nat := TwoTo64 / 2;
      assert Value(start, inc, 0) == Value(start, inc, half);
    }
  }

  // ----- the ids -----

  /** How many additions the first `n` ids take: one for each, and one more where the value is zero. */
  function Additions(start: nat, inc: nat, n: nat): nat {
    if n == 0 then 0
    else
      var k := Additions(start, inc, n - 1) + 1;
      if Value(start, inc, k) != 0 then k else k + 1
  }

  /** The `n`-th id, counted from one. */
  function Id(start: nat, inc: nat, n: nat): nat {
    Value(start, inc, Additions(start, inc, n))
  }

  lemma NextValue(start: nat, inc: nat, k: nat)
    ensures Value(start, inc, k + 1) == (Value(start, inc, k) + inc) % TwoTo64
  {
    var x := start + k * inc;
    OneMore(k, inc);
    Divide(x, TwoTo64);
    AddMultiple(x % TwoTo64 + inc, x / TwoTo64);
  }

  /** After a zero comes the increment itself, so no id takes more than two additions or is zero. */
  lemma IdIsNotZero(start: nat, inc: nat, n: nat)
    requires n > 0 && IsWord(inc) && Odd(inc)
    ensures 0 < Id(start, inc, n) < TwoTo64
  {
    var k := Additions(start, inc, n - 1) + 1;
    if Value(start, inc, k) == 0 {
      NextValue(start, inc, k);
    }
  }

  lemma {:induction false} AdditionsGrow(start: nat, inc: nat, m: nat, n: nat)
    requires m <= n
    ensures Additions(start, inc, m) + (n - m) <= Additions(start, inc, n)
    decreases n
  {
    if m < n {
      AdditionsGrow(start, inc, m, n - 1);
    }
  }

  /** Fewer than 2^64 ids meet the value zero at most once. */
  lemma {:induction false} FewAdditions(start: nat, inc: nat, n: nat) returns (zero: nat)
    requires Odd(inc) && n < TwoTo64
    ensures Additions(start, inc, n) <= n + 1
    ensures Additions(start, inc, n) == n + 1 ==> 0 < zero <= n + 1 && Value(start, inc, zero) == 0
    ensures Additions(start, inc, n) >= n
  {
    zero := 0;
    if n > 0 {
      zero := FewAdditions(start, inc, n - 1);
      var k := Additions(start, inc, n - 1) + 1;
      if Value(start, inc, k) == 0 {
        if k == n + 1 {
          EqualValuesAreFarApart(start, inc, zero, k);
        }
        zero := k;
      }
    }
  }

  /** The first 2^64-1 ids are pairwise distinct. */
  lemma IdsAreDistinct(start: nat, inc: nat, m: nat, n: nat)
    requires IsWord(inc) && Odd(inc) && 0 < m < n < TwoTo64
    ensures Id(start, inc, m) != Id(start, inc, n)
  {
    var j, k := Additions(start, inc, m), Additions(start, inc, n);
    AdditionsGrow(start, inc, m, n);
    var zero := FewAdditions(start, inc, n);
    var zero' := FewAdditions(start, inc, m);
    if Id(start, inc, m) == Id(start, inc, n) {
      EqualValuesAreFarApart(start, inc, j, k);
    }
  }

  /** No longer list of ids can be: there are only 2^64-1 values besides zero, so the next one is a repetition. */
  lemma ThenTheyRepeat(start: nat, inc: nat)
    requires IsWord(start) && IsWord(inc) && Odd(inc)
    ensures Value(start, inc, TwoTo64) == Value(start, inc, 0)
    ensures forall k: nat :: Value(start, inc, k + TwoTo64) == Value(start, inc, k)
  {
    forall k: nat
      ensures Value(start, inc, k + TwoTo64) == Value(start, inc, k)
    {
      assert (k + TwoTo64) * inc == k * inc + inc * TwoTo64;
      AddMultiple(start + k * inc, inc);
    }
    assert Value(start, inc, 0 + TwoTo64) == Value(start, inc, 0);
  }

  /** Before the generator is seeded every addition gives zero: `newSpanID` would never return. */
  lemma UnseededGivesZero(k: nat)
    ensures Value(0, 0, k) == 0
  {
  }

  function AddUint64(x: nat, y: nat): (z: nat)
    ensures IsWord(z)
  {
    (x + y) % TwoTo64
  }

  function NextID(next: nat, inc: nat): nat {
    if AddUint64(next, inc) != 0 then AddUint64(next, inc) else AddUint64(AddUint64(next, inc), inc)
  }

  /** The next id is the sum modulo 2^64, or the increment itself where that would be zero. */
  lemma NextIDIs(next: nat, inc: nat)
    requires IsWord(next) && IsWord(inc)
    ensures NextID(next, inc) ==
      if next + inc == TwoTo64 || next + inc == 0 then inc
      else if next + inc < TwoTo64 then next + inc
      else next + inc - TwoTo64
  {
  }

  lemma IdStep(start: nat, inc: nat, n: nat)
    ensures Id(start, inc, n + 1) == NextID(Id(start, inc, n), inc)
  {
    var k := Additions(start, inc, n);
    NextValue(start, inc, k);
    NextValue(start, inc, k + 1);
  }

  // ----- the code -----

  datatype SpanContext = SpanContext(traceID: nat, spanID: nat)

  /** The package's generator variables; `issued` counts the ids, from `start` on. */
  class Generator {
    var seeded: bool
    var nextSpanID: nat
    var spanIDInc: nat
    ghost var start: nat
    ghost var issued: nat

    constructor ()
      ensures Valid() && !seeded && issued == 0
    {
      seeded, nextSpanID, spanIDInc, start, issued := false, 0, 0, 0, 0;
    }

    ghost predicate Valid()
      reads this
    {
      && IsWord(nextSpanID) && IsWord(spanIDInc)
      && (seeded ==> Odd(spanIDInc) && nextSpanID == Id(start, spanIDInc, issued))
      && (!seeded ==> nextSpanID == 0 && spanIDInc == 0 && issued == 0)
    }

    /** `initGenerator`, with the random words that it reads. */
    method InitGenerator(next: nat, inc: nat)
      requires Valid() && !seeded && IsWord(next) && IsWord(inc)
      modifies this
      ensures Valid() && seeded && issued == 0 && start == next && nextSpanID == next
      ensures spanIDInc == if Odd(inc) then inc else inc + 1
    {
      nextSpanID := next;
      spanIDInc := BitOr(inc, 1);
      OrWithOne(inc);
      seeded := true;
      start := next;
      assert start + 0 * spanIDInc == next;
    }

    /** `newTraceID`, as far as it concerns the span ids. */
    method NewTraceID(next: nat, inc: nat)
      requires Valid() && IsWord(next) && IsWord(inc)
      modifies this
      ensures Valid() && seeded && issued == old(issued)
      ensures old(seeded) ==> unchanged(this)
    {
      if !seeded {
        InitGenerator(next, inc);
      }
    }

    /** The loop of `newSpanID`: the second addition, if there is one, does not give zero. */
    method AddUntilNonZero() returns (id: nat)
      requires NextID(nextSpanID, spanIDInc) != 0
      modifies this`nextSpanID
      ensures id == nextSpanID == NextID(old(nextSpanID), spanIDInc)
    {
      ghost var next, tries := nextSpanID, 0;
      id := 0;
      while id == 0
        invariant 0 <= tries <= 2
        invariant tries == 0 ==> id == 0 && nextSpanID == next
        invariant tries == 1 ==> id == nextSpanID == AddUint64(next, spanIDInc)
        invariant tries == 2 ==> id == nextSpanID == NextID(next, spanIDInc)
        invariant tries > 0 && id != 0 ==> id == NextID(next, spanIDInc)
        decreases 2 - tries
      {
        nextSpanID := AddUint64(nextSpanID, spanIDInc);
        id := nextSpanID;
        tries := tries + 1;
      }
    }

    /** `newSpanID` */
    method NewSpanID() returns (id: nat)
      requires Valid() && seeded
      modifies this`nextSpanID, this`issued
      ensures Valid() && issued == old(issued) + 1
      ensures id == Id(start, spanIDInc, issued) && 0 < id < TwoTo64
    {
      IdStep(start, spanIDInc, issued);
      IdIsNotZero(start, spanIDInc, issued + 1);
      id := AddUntilNonZero();
      issued := issued + 1;
    }
  }

  /** `Spans`: the spans of the contexts that it has returned, in order. */
  class Exporter {
    const generator: Generator
    var contexts: seq<Option<SpanContext>>

    ghost predicate Valid()
      reads this, generator
    {
      && generator.Valid()
      && forall c <- contexts :: c.Some? ==> generator.seeded && c.value.spanID != 0
    }

    constructor (generator: Generator)
      requires generator.Valid()
      ensures Valid() && this.generator == generator && contexts == [None]
    {
      this.generator := generator;
      contexts := [None];
    }

    /** A start event in context `c`: by then the generator is always seeded, and so `NewSpanID` returns. */
    method Start(c: nat, traceID: nat, next: nat, inc: nat) returns (span: SpanContext, parentID: nat)
      requires Valid() && c < |contexts| && IsWord(next) && IsWord(inc)
      modifies this, generator
      ensures Valid() && generator.seeded && generator.issued == old(generator.issued) + 1
      ensures contexts == old(contexts) + [Some(span)]
      ensures span.spanID == Id(generator.start, generator.spanIDInc, generator.issued)
      ensures
        match old(contexts)[c]
        case Some(parent) => span.traceID == parent.traceID && parentID == parent.spanID
        case None => span.traceID == traceID && parentID == 0
      ensures old(generator.seeded) ==>
        generator.start == old(generator.start) && generator.spanIDInc == old(generator.spanIDInc)
    {
      assert contexts[c] in contexts;
      var trace;
      match contexts[c] {
        case Some(parent) =>
          trace := parent.traceID;
          parentID := parent.spanID;
        case None =>
          generator.NewTraceID(next, inc);
          trace := traceID;
          parentID := 0;
      }
      var spanID := generator.NewSpanID();
      span := SpanContext(trace, spanID);
      contexts := contexts + [Some(span)];
    }

    /** A detach event. */
    method Detach(c: nat)
      requires Valid() && c < |contexts|
      modifies this
      ensures Valid() && contexts == old(contexts) + [None]
    {
      contexts := contexts + [None];
    }
  }
}
