/**
 * Generating one assembler per combination of units, and counting them
 * (proteas/combinations.py).
 *
 * `itertools.combinations(units, k)` is modelled by `IndexCombos`: the
 * k-element position lists in lexicographic order. Each generated assembler
 * holds the base units and then the chosen units, in input order.
 */
module Combinations {
  import opened Wrappers
  import opened Unit
  import opened Assembler

  // -------------------------------------------------------------------
  // Binomial coefficients and their sums (`math.comb`, `count_combinations`).

  /** C(n, k) by Pascal's rule; 0 when k > n. */
  function Binom(n: nat, k: nat): nat
    decreases n, k
  {
    if k == 0 then 1 else if n == 0 then 0 else Binom(n - 1, k - 1) + Binom(n - 1, k)
  }

  /** `comb(n, 0) == comb(n, n) == 1` and `comb(n, 1) == n`. */
  lemma {:induction false} BinomEdges(n: nat)
    ensures Binom(n, 0) == 1 && Binom(n, n) == 1 && Binom(n, 1) == n
    decreases n
  {
    if n > 0 {
      BinomEdges(n - 1);
      BinomBeyond(n - 1, n);
    }
  }

  lemma {:induction false} BinomBeyond(n: nat, k: nat)
    requires k > n
    ensures Binom(n, k) == 0
    decreases n
  {
    if n > 0 {
      BinomBeyond(n - 1, k - 1);
      BinomBeyond(n - 1, k);
    }
  }

  /** C(n, lo) + C(n, lo + 1) + ... + C(n, hi); 0 for an empty range. */
  function SumBinom(n: nat, lo: nat, hi: int): nat
    decreases hi - lo
  {
    if hi < lo then 0 else Binom(n, lo) + SumBinom(n, lo + 1, hi)
  }

  lemma {:induction false} SumBinomBeyond(n: nat, lo: nat, hi: int)
    requires lo > n
    ensures SumBinom(n, lo, hi) == 0
    decreases hi - lo
  {
    if hi >= lo {
      BinomBeyond(n, lo);
      SumBinomBeyond(n, lo + 1, hi);
    }
  }

  /** Sizes above n add nothing, so summing up to any hi >= n is summing up to n. */
  lemma {:induction false} SumBinomClamped(n: nat, lo: nat, hi: int)
    requires hi >= n
    ensures SumBinom(n, lo, hi) == SumBinom(n, lo, n)
    decreases hi - lo
  {
    if lo > n {
      SumBinomBeyond(n, lo, hi);
      SumBinomBeyond(n, lo, n);
    } else {
      SumBinomClamped(n, lo + 1, hi);
    }
  }

  datatype CountError = NegativeArgument  // `math.comb` on a negative n or k

  /** Adding the next size at the top of the range. */
  lemma {:induction false} SumBinomSnoc(n: nat, lo: nat, hi: nat)
    requires lo <= hi
    ensures SumBinom(n, lo, hi) == SumBinom(n, lo, hi - 1) + Binom(n, hi)
    decreases hi - lo
  {
    if lo < hi {
      SumBinomSnoc(n, lo + 1, hi);
    }
  }

  /**
   * What `count_combinations(n, min_size, max_size)` returns: the sum of
   * C(n, k) for k from min_size to max_size (default n). As in Python, an
   * empty range gives 0 without evaluating any C(n, k), and a negative n or k
   * inside the range fails.
   */
  function CombinationCount(n: int, minSize: int, maxSize: Option<int>): (r: Result<nat, CountError>)
    ensures r.Err? <==> minSize <= maxSize.GetOr(n) && (n < 0 || minSize < 0)
    ensures minSize > maxSize.GetOr(n) ==> r == Ok(0)
  {
    var hi := maxSize.GetOr(n);
    if minSize > hi then Ok(0)
    else if n < 0 || minSize < 0 then Err(NegativeArgument)
    else Ok(SumBinom(n, minSize, hi))
  }

  /** `count_combinations`: add up C(n, size) size by size. */
  method CountCombinations(n: int, minSize: int := 1, maxSize: Option<int> := None) returns (r: Result<nat, CountError>)
    ensures r == CombinationCount(n, minSize, maxSize)
  {
    var hi := maxSize.GetOr(n);
    var total: nat := 0;
    var size := minSize;
    while size <= hi
      invariant size == minSize || minSize < size <= hi + 1
      invariant size == minSize ==> total == 0
      invariant size > minSize ==> n >= 0 && minSize >= 0 && total == SumBinom(n, minSize, size - 1)
      decreases hi - size
    {
      if n < 0 || size < 0 {
        return Err(NegativeArgument);
      }
      if size > minSize {
        SumBinomSnoc(n, minSize, size);
      }
      total := total + Binom(n, size);
      size := size + 1;
    }
    return Ok(total);
  }

  // -------------------------------------------------------------------
  // The order of `itertools.combinations`, on positions.

  function Prepend(x: nat, cs: seq<seq<nat>>): (r: seq<seq<nat>>)
    ensures |r| == |cs|
    ensures forall i :: 0 <= i < |cs| ==> r[i] == [x] + cs[i]
  {
    seq(|cs|, i requires 0 <= i < |cs| => [x] + cs[i])
  }

  /** The k-element position lists drawn from [start, n), in lexicographic order. */
  function IndexCombos(start: nat, n: nat, k: nat): seq<seq<nat>>
    decreases n - start, k
  {
    if k == 0 then [[]]
    else if start >= n then []
    else Prepend(start, IndexCombos(start + 1, n, k - 1)) + IndexCombos(start + 1, n, k)
  }

  predicate StrictlyIncreasing(c: seq<nat>) {
    forall i, j :: 0 <= i < j < |c| ==> c[i] < c[j]
  }

  /** A k-combination of positions in [lo, n): strictly increasing, each in range. */
  predicate ComboOf(c: seq<nat>, lo: nat, n: nat, k: nat) {
    |c| == k && StrictlyIncreasing(c) && forall i :: 0 <= i < |c| ==> lo <= c[i] < n
  }

  /** Lexicographic order on position lists. */
  predicate LexLess(a: seq<nat>, b: seq<nat>)
    decreases |a|
  {
    a != [] && b != [] && (a[0] < b[0] || (a[0] == b[0] && LexLess(a[1..], b[1..])))
  }

  lemma {:induction false} LexLessIrreflexive(a: seq<nat>)
    ensures !LexLess(a, a)
    decreases |a|
  {
    if a != [] {
      LexLessIrreflexive(a[1..]);
    }
  }

  /** There are C(n - start, k) of them. */
  lemma {:induction false} IndexCombosCount(start: nat, n: nat, k: nat)
    requires start <= n
    ensures |IndexCombos(start, n, k)| == Binom(n - start, k)
    decreases n - start, k
  {
    if k > 0 && start < n {
      IndexCombosCount(start + 1, n, k - 1);
      IndexCombosCount(start + 1, n, k);
    }
  }

  /** Each one is a k-combination of [start, n). */
  lemma {:induction false} IndexCombosShape(start: nat, n: nat, k: nat)
    ensures forall i :: 0 <= i < |IndexCombos(start, n, k)| ==> ComboOf(IndexCombos(start, n, k)[i], start, n, k)
    decreases n - start, k
  {
    if k > 0 && start < n {
      IndexCombosShape(start + 1, n, k - 1);
      IndexCombosShape(start + 1, n, k);
      var with := IndexCombos(start + 1, n, k - 1);
      var without := IndexCombos(start + 1, n, k);
      var all := IndexCombos(start, n, k);
      assert all == Prepend(start, with) + without;
      forall i | 0 <= i < |all| ensures ComboOf(all[i], start, n, k) {
        if i < |with| {
          var c := with[i];
          assert all[i] == [start] + c;
          assert ComboOf(c, start + 1, n, k - 1);
          forall x, y | 0 <= x < y < |all[i]| ensures all[i][x] < all[i][y] {
            if x > 0 {
              assert all[i][x] == c[x - 1];
            }
            assert all[i][y] == c[y - 1];
          }
        } else {
          assert all[i] == without[i - |with|];
        }
      }
    }
  }

  /** A combination starting at `start` continues with a combination of the rest. */
  lemma ComboTail(c: seq<nat>, start: nat, n: nat, k: nat)
    requires ComboOf(c, start, n, k) && k > 0 && c[0] == start
    ensures ComboOf(c[1..], start + 1, n, k - 1)
  {
    var rest := c[1..];
    forall i | 0 <= i < |rest| ensures start + 1 <= rest[i] < n {
      assert rest[i] == c[i + 1];
    }
    forall i, j | 0 <= i < j < |rest| ensures rest[i] < rest[j] {
      assert rest[i] == c[i + 1] && rest[j] == c[j + 1];
    }
  }

  /** A combination not using `start` is a combination of [start + 1, n). */
  lemma ComboRaise(c: seq<nat>, start: nat, n: nat, k: nat)
    requires ComboOf(c, start, n, k) && k > 0 && c[0] != start
    ensures ComboOf(c, start + 1, n, k)
  {
    forall i | 0 <= i < |c| ensures start + 1 <= c[i] {
      if i > 0 {
        assert c[0] < c[i];
      }
    }
  }

  lemma PrependMember(x: nat, cs: seq<seq<nat>>, c: seq<nat>)
    requires c in cs
    ensures [x] + c in Prepend(x, cs)
  {
    var i :| 0 <= i < |cs| && cs[i] == c;
    assert Prepend(x, cs)[i] == [x] + c;
  }

  /** Every k-combination of [start, n) is among them: nothing is missed. */
  lemma {:induction false} IndexCombosComplete(start: nat, n: nat, k: nat, c: seq<nat>)
    requires ComboOf(c, start, n, k)
    ensures c in IndexCombos(start, n, k)
    decreases n - start, k
  {
    if k == 0 {
      assert c == [];
    } else {
      assert start <= c[0] < n;
      if c[0] == start {
        ComboTail(c, start, n, k);
        IndexCombosComplete(start + 1, n, k - 1, c[1..]);
        PrependMember(start, IndexCombos(start + 1, n, k - 1), c[1..]);
        assert [start] + c[1..] == c;
      } else {
        ComboRaise(c, start, n, k);
        IndexCombosComplete(start + 1, n, k, c);
      }
    }
  }

  /** They come in strictly increasing lexicographic order, so no combination repeats. */
  lemma {:induction false} IndexCombosLexOrdered(start: nat, n: nat, k: nat)
    ensures forall i, j :: 0 <= i < j < |IndexCombos(start, n, k)| ==>
      LexLess(IndexCombos(start, n, k)[i], IndexCombos(start, n, k)[j])
    decreases n - start, k
  {
    if k > 0 && start < n {
      IndexCombosLexOrdered(start + 1, n, k - 1);
      IndexCombosLexOrdered(start + 1, n, k);
      IndexCombosShape(start + 1, n, k);
      var with := IndexCombos(start + 1, n, k - 1);
      var without := IndexCombos(start + 1, n, k);
      var pre := Prepend(start, with);
      var all := pre + without;
      forall i, j | 0 <= i < j < |all| ensures LexLess(all[i], all[j]) {
        if j < |pre| {
          assert all[i] == [start] + with[i] && all[j] == [start] + with[j];
          assert all[i][1..] == with[i] && all[j][1..] == with[j];
          assert LexLess(with[i], with[j]);
        } else if i < |pre| {
          var c := without[j - |pre|];
          assert all[j] == c;
          assert ComboOf(c, start + 1, n, k);
          assert c[0] > start;
          assert all[i] == [start] + with[i];
          assert all[i][0] == start;
          assert LexLess(all[i], all[j]);
        } else {
          assert all[i] == without[i - |pre|] && all[j] == without[j - |pre|];
        }
      }
    }
  }

  lemma IndexCombosDistinct(start: nat, n: nat, k: nat, i: nat, j: nat)
    requires i < j < |IndexCombos(start, n, k)|
    ensures IndexCombos(start, n, k)[i] != IndexCombos(start, n, k)[j]
  {
    IndexCombosLexOrdered(start, n, k);
    LexLessIrreflexive(IndexCombos(start, n, k)[i]);
  }

  /** Shorter lists first, equal lengths lexicographically. */
  predicate SizeLexLess(a: seq<nat>, b: seq<nat>) {
    |a| < |b| || (|a| == |b| && LexLess(a, b))
  }

  /** All position lists with sizes lo, lo + 1, ..., hi, by size and then lexicographically. */
  function SizedCombos(n: nat, lo: nat, hi: int): seq<seq<nat>>
    decreases hi - lo
  {
    if hi < lo then [] else IndexCombos(0, n, lo) + SizedCombos(n, lo + 1, hi)
  }

  /** Appending the next size at the end. */
  lemma {:induction false} SizedCombosSnoc(n: nat, lo: nat, hi: nat)
    requires lo <= hi
    ensures SizedCombos(n, lo, hi) == SizedCombos(n, lo, hi - 1) + IndexCombos(0, n, hi)
    decreases hi - lo
  {
    if lo < hi {
      SizedCombosSnoc(n, lo + 1, hi);
    }
  }

  /** There are exactly as many as `count_combinations` counts. */
  lemma {:induction false} SizedCombosCount(n: nat, lo: nat, hi: int)
    ensures |SizedCombos(n, lo, hi)| == SumBinom(n, lo, hi)
    decreases hi - lo
  {
    if hi >= lo {
      IndexCombosCount(0, n, lo);
      SizedCombosCount(n, lo + 1, hi);
    }
  }

  /** Each has a size in [lo, hi], sizes never decrease, and equal sizes are in lexicographic order. */
  lemma {:induction false} SizedCombosOrdered(n: nat, lo: nat, hi: int)
    ensures forall i :: 0 <= i < |SizedCombos(n, lo, hi)| ==>
      lo <= |SizedCombos(n, lo, hi)[i]| <= hi && ComboOf(SizedCombos(n, lo, hi)[i], 0, n, |SizedCombos(n, lo, hi)[i]|)
    ensures forall i, j :: 0 <= i < j < |SizedCombos(n, lo, hi)| ==>
      SizeLexLess(SizedCombos(n, lo, hi)[i], SizedCombos(n, lo, hi)[j])
    decreases hi - lo
  {
    if hi >= lo {
      SizedCombosOrdered(n, lo + 1, hi);
      IndexCombosShape(0, n, lo);
      IndexCombosLexOrdered(0, n, lo);
      var now := IndexCombos(0, n, lo);
      var later := SizedCombos(n, lo + 1, hi);
      var cs := now + later;
      forall i | 0 <= i < |cs| ensures lo <= |cs[i]| <= hi && ComboOf(cs[i], 0, n, |cs[i]|) {
        if i < |now| {
          assert cs[i] == now[i];
          assert ComboOf(now[i], 0, n, lo);
        } else {
          assert cs[i] == later[i - |now|];
          assert lo + 1 <= |later[i - |now|]| <= hi;
          assert ComboOf(later[i - |now|], 0, n, |later[i - |now|]|);
        }
      }
      forall i, j | 0 <= i < j < |cs| ensures SizeLexLess(cs[i], cs[j]) {
        if j < |now| {
          assert cs[i] == now[i] && cs[j] == now[j];
        } else if i < |now| {
          assert cs[i] == now[i] && cs[j] == later[j - |now|];
        } else {
          assert cs[i] == later[i - |now|] && cs[j] == later[j - |now|];
        }
      }
    }
  }

  /** No position list occurs twice across all the sizes. */
  lemma SizedCombosDistinct(n: nat, lo: nat, hi: int, i: nat, j: nat)
    requires i < j < |SizedCombos(n, lo, hi)|
    ensures SizedCombos(n, lo, hi)[i] != SizedCombos(n, lo, hi)[j]
  {
    SizedCombosOrdered(n, lo, hi);
    LexLessIrreflexive(SizedCombos(n, lo, hi)[i]);
  }

  // -------------------------------------------------------------------
  // Validation of the size bounds.

  datatype GenerateError =
    | MinSizeBelowOne         // "min_size must be at least 1"
    | MinSizeAboveMaxSize     // "min_size cannot be greater than max_size"

  /**
   * The size range `generate_combinations` enumerates: max_size defaults to
   * the number of units and is clamped to it; min_size below 1, or above the
   * clamped max_size, is an error.
   */
  function Bounds(n: nat, minSize: int, maxSize: Option<int>): (r: Result<(nat, nat), GenerateError>)
    ensures r == Err(MinSizeBelowOne) <==> minSize < 1
    ensures r == Err(MinSizeAboveMaxSize) <==> 1 <= minSize && (minSize > maxSize.GetOr(n) || minSize > n)
    ensures r.Ok? ==> r.value.0 == minSize && 1 <= r.value.0 <= r.value.1 <= n
    ensures r.Ok? ==> r.value.1 == if maxSize.GetOr(n) > n then n else maxSize.GetOr(n)
  {
    var hi := maxSize.GetOr(n);
    if minSize < 1 then Err(MinSizeBelowOne)
    else
      var clamped := if hi > n then n else hi;
      if minSize > clamped then Err(MinSizeAboveMaxSize)
      else Ok((minSize, clamped))
  }

  /** For bounds the generator accepts, the count is the number of combinations it enumerates. */
  lemma CountMatchesGenerated(n: nat, minSize: int, maxSize: Option<int>)
    requires Bounds(n, minSize, maxSize).Ok?
    ensures var (lo, hi) := Bounds(n, minSize, maxSize).value;
      CombinationCount(n, minSize, maxSize) == Ok(|SizedCombos(n, lo, hi)|)
  {
    var (lo, hi) := Bounds(n, minSize, maxSize).value;
    SizedCombosCount(n, lo, hi);
    if maxSize.GetOr(n) > n {
      SumBinomClamped(n, lo, maxSize.GetOr(n));
    }
  }

  // -------------------------------------------------------------------
  // Generation.

  /** The units at the given positions, in that order. */
  function Select(units: seq<PromptTemplateUnit>, positions: seq<nat>): (r: seq<PromptTemplateUnit>)
    requires forall i :: 0 <= i < |positions| ==> positions[i] < |units|
    ensures |r| == |positions|
    ensures forall i :: 0 <= i < |positions| ==> r[i] == units[positions[i]]
  {
    seq(|positions|, i requires 0 <= i < |positions| => units[positions[i]])
  }

  /** `tuple(unit.name for unit in combo)`. */
  function NamesOf(us: seq<PromptTemplateUnit>): (names: seq<string>)
    ensures |names| == |us|
    ensures forall i :: 0 <= i < |us| ==> names[i] == us[i].name
  {
    seq(|us|, i requires 0 <= i < |us| => us[i].name)
  }

  /** One yielded pair: the combination's names and its assembler. */
  datatype Combination = Combination(names: seq<string>, assembler: Proteas)

  /** The pair built for the given positions: base units first, then the chosen units. */
  ghost predicate Built(c: Combination, units: seq<PromptTemplateUnit>, base: seq<PromptTemplateUnit>,
                        positions: seq<nat>, separator: string)
    reads c.assembler
  {
    && (forall i :: 0 <= i < |positions| ==> positions[i] < |units|)
    && c.names == NamesOf(Select(units, positions))
    && c.assembler.Valid()
    && c.assembler.separator == separator
    && c.assembler.entries == Numbered(0, base + Select(units, positions))
    && c.assembler.counter == |base| + |positions|
  }

  /** A fresh assembler holding `base` and then `chosen` (the body of the generator's loop). */
  method BuildAssembler(base: seq<PromptTemplateUnit>, chosen: seq<PromptTemplateUnit>, separator: string)
    returns (p: Proteas)
    ensures fresh(p) && p.Valid() && p.separator == separator
    ensures p.entries == Numbered(0, base + chosen) && p.counter == |base| + |chosen|
  {
    p := new Proteas(separator);
    var i := 0;
    while i < |base|
      invariant 0 <= i <= |base|
      invariant p.Valid() && p.entries == Numbered(0, base[..i]) && p.counter == i
      modifies p
    {
      var _ := p.Add(base[i]);
      assert Numbered(0, base[..i + 1]) == Numbered(0, base[..i]) + [Entry(i, base[i])];
      i := i + 1;
    }
    assert base[..i] == base;
    var j := 0;
    while j < |chosen|
      invariant 0 <= j <= |chosen|
      invariant p.Valid() && p.entries == Numbered(0, base + chosen[..j]) && p.counter == |base| + j
      modifies p
    {
      var _ := p.Add(chosen[j]);
      assert base + chosen[..j + 1] == (base + chosen[..j]) + [chosen[j]];
      assert Numbered(0, base + chosen[..j + 1]) == Numbered(0, base + chosen[..j]) + [Entry(|base| + j, chosen[j])];
      j := j + 1;
    }
    assert chosen[..j] == chosen;
  }

  /** The pairs for all combinations of one size, in `itertools.combinations` order (the inner loop). */
  method BuildSize(units: seq<PromptTemplateUnit>, base: seq<PromptTemplateUnit>, size: nat, separator: string)
    returns (batch: seq<Combination>)
    ensures |batch| == |IndexCombos(0, |units|, size)|
    ensures forall k :: 0 <= k < |batch| ==> Built(batch[k], units, base, IndexCombos(0, |units|, size)[k], separator)
    ensures forall k :: 0 <= k < |batch| ==> fresh(batch[k].assembler)
    ensures forall a, b :: 0 <= a < b < |batch| ==> batch[a].assembler != batch[b].assembler
  {
    var combos := IndexCombos(0, |units|, size);
    IndexCombosShape(0, |units|, size);
    batch := [];
    var j := 0;
    while j < |combos|
      invariant 0 <= j <= |combos|
      invariant |batch| == j
      invariant forall k :: 0 <= k < j ==> Built(batch[k], units, base, combos[k], separator)
      invariant forall k :: 0 <= k < j ==> fresh(batch[k].assembler)
      invariant forall a, b :: 0 <= a < b < j ==> batch[a].assembler != batch[b].assembler
    {
      assert ComboOf(combos[j], 0, |units|, size);
      var chosen := Select(units, combos[j]);
      var p := BuildAssembler(base, chosen, separator);
      batch := batch + [Combination(NamesOf(chosen), p)];
      j := j + 1;
    }
  }

  /** The pairs for all sizes from lo to hi, smaller sizes first (the outer loop). */
  method Enumerate(units: seq<PromptTemplateUnit>, base: seq<PromptTemplateUnit>, lo: nat, hi: nat, separator: string)
    returns (out: seq<Combination>)
    requires lo <= hi + 1
    ensures |out| == |SizedCombos(|units|, lo, hi)|
    ensures forall k :: 0 <= k < |out| ==> Built(out[k], units, base, SizedCombos(|units|, lo, hi)[k], separator)
    ensures forall k :: 0 <= k < |out| ==> fresh(out[k].assembler)
    ensures forall j, k :: 0 <= j < k < |out| ==> out[j].assembler != out[k].assembler
  {
    ghost var n := |units|;
    out := [];
    var size := lo;
    while size <= hi
      invariant lo <= size <= hi + 1
      invariant |out| == |SizedCombos(n, lo, size - 1)|
      invariant forall k :: 0 <= k < |out| ==> Built(out[k], units, base, SizedCombos(n, lo, size - 1)[k], separator)
      invariant forall k :: 0 <= k < |out| ==> fresh(out[k].assembler)
      invariant forall j, k :: 0 <= j < k < |out| ==> out[j].assembler != out[k].assembler
    {
      ghost var done := SizedCombos(n, lo, size - 1);
      var batch := BuildSize(units, base, size, separator);
      SizedCombosSnoc(n, lo, size);
      ghost var combos := IndexCombos(0, n, size);
      assert SizedCombos(n, lo, size) == done + combos;
      ghost var prev := out;
      out := out + batch;
      assert forall k :: 0 <= k < |prev| ==> out[k] == prev[k];
      assert forall k :: |prev| <= k < |out| ==> out[k] == batch[k - |prev|];
      size := size + 1;
    }
  }

  /**
   * `generate_combinations(units, min_size, max_size, base_units, separator)`:
   * one fresh assembler per combination, sizes ascending, each size in
   * `itertools.combinations` order, or the error the bounds raise.
   */
  method GenerateCombinations(units: seq<PromptTemplateUnit>, minSize: int := 1, maxSize: Option<int> := None,
                              baseUnits: Option<seq<PromptTemplateUnit>> := None, separator: string := "\n\n")
    returns (r: Result<seq<Combination>, GenerateError>)
    ensures Bounds(|units|, minSize, maxSize).Err? ==> r == Err(Bounds(|units|, minSize, maxSize).error)
    ensures Bounds(|units|, minSize, maxSize).Ok? ==> r.Ok?
    ensures r.Ok? ==> (Bounds(|units|, minSize, maxSize).Ok? &&
      var (lo, hi) := Bounds(|units|, minSize, maxSize).value;
      var spec := SizedCombos(|units|, lo, hi);
      && |r.value| == |spec|
      && (forall k :: 0 <= k < |spec| ==> Built(r.value[k], units, baseUnits.GetOr([]), spec[k], separator))
      && (forall k :: 0 <= k < |spec| ==> fresh(r.value[k].assembler))
      && (forall j, k :: 0 <= j < k < |spec| ==> r.value[j].assembler != r.value[k].assembler))
  {
    var bounds := Bounds(|units|, minSize, maxSize);
    if bounds.Err? {
      return Err(bounds.error);
    }
    var out := Enumerate(units, baseUnits.GetOr([]), bounds.value.0, bounds.value.1, separator);
    r := Ok(out);
  }
}
