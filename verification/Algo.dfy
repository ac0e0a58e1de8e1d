/**
 TWAP and VWAP slicing: how a parent quantity is split, and how the slices' fills are aggregated.
 */
module Algo {
  import opened Exchange
  import opened Sums

  /** Multiplication under a name, so that proofs can treat it as a black box. */
  function Times(x: real, y: real): real {
    x * y
  }

  lemma TimesAdds(x: real, y: real, c: real)
    ensures Times(x + y, c) == Times(x, c) + Times(y, c)
  {}

  lemma TimesSign(x: real, c: real)
    ensures x >= 0.0 && c >= 0.0 ==> Times(x, c) >= 0.0
    ensures x >= 0.0 && c <= 0.0 ==> Times(x, c) <= 0.0
    ensures x < 0.0 && c > 0.0 ==> Times(x, c) < 0.0
  {}

  function Scale(s: seq<real>, c: real): seq<real> {
    seq(|s|, i requires 0 <= i < |s| => Times(s[i], c))
  }

  lemma {:induction false} SumScale(s: seq<real>, c: real)
    ensures Sum(Scale(s, c)) == Times(Sum(s), c)
  {
    if s != [] {
      hide Times;
      var n := |s| - 1;
      assert Scale(s, c)[..n] == Scale(s[..n], c);
      SumScale(s[..n], c);
      TimesAdds(Sum(s[..n]), s[n], c);
    }
  }

  // ------------------------------------------------------------- volume weights

  /** Weights divided by their total. */
  function Normalised(w: seq<real>): seq<real>
    requires w == [] || Sum(w) != 0.0
  {
    if w == [] then [] else Scale(w, 1.0 / Sum(w))
  }

  lemma NormalisedSumsToOne(w: seq<real>)
    requires Sum(w) != 0.0
    ensures Sum(Normalised(w)) == 1.0
  {
    SumScale(w, 1.0 / Sum(w));
  }

  /** Normalising twice is normalising once: orders that share one weight array get the same proportions. */
  lemma NormaliseIdempotent(w: seq<real>)
    requires Sum(w) != 0.0
    ensures Sum(Normalised(w)) != 0.0 && Normalised(Normalised(w)) == Normalised(w)
  {
    NormalisedSumsToOne(w);
    var v := Normalised(w);
    assert 1.0 / Sum(v) == 1.0;
    forall i | 0 <= i < |v|
      ensures Normalised(v)[i] == v[i]
    {
      assert Times(v[i], 1.0) == v[i];
    }
  }

  /**
   The two loops that normalise the caller's weights in place.  Over a zero total the quotients are not
   numbers, and nothing is said of the array.
   */
  method Normalise(w: array<real>) returns (finite: bool)
    modifies w
    ensures finite <==> old(w.Length == 0 || Sum(w[..]) != 0.0)
    ensures finite ==> w[..] == Normalised(old(w[..]))
    ensures finite ==> forall k :: 0 <= k < w.Length ==> w[k] == old(w[k]) / old(Sum(w[..]))
  {
    var total := 0.0;
    for i := 0 to w.Length
      invariant total == Sum(w[..i]) && w[..] == old(w[..])
    {
      SumPrefix(w[..], i);
      assert w[..][..i] == w[..i] && w[..][..i + 1] == w[..i + 1];
      total := total + w[i];
    }
    assert w[..w.Length] == w[..];
    ghost var was := w[..];
    assert total == Sum(was);
    finite := w.Length == 0 || total != 0.0;
    if !finite || w.Length == 0 {
      return;
    }
    hide Sum;
    for i := 0 to w.Length
      invariant total == Sum(was) && was == old(w[..])
      invariant forall k :: 0 <= k < w.Length ==> w[k] == if k < i then was[k] / total else was[k]
    {
      w[i] := w[i] / total;
    }
    QuotientsAreNormalised(was, w[..]);
  }

  lemma QuotientsAreNormalised(w: seq<real>, v: seq<real>)
    requires w != [] && Sum(w) != 0.0 && |v| == |w|
    requires forall k :: 0 <= k < |w| ==> v[k] == w[k] / Sum(w)
    ensures v == Normalised(w)
  {
    hide Sum, Times;
    forall k | 0 <= k < |w|
      ensures v[k] == Normalised(w)[k]
    {
      DivideIsTimes(w[k], Sum(w));
    }
  }

  /** A normalised weight is its share of the total. */
  lemma NormalisedAt(w: seq<real>, k: nat)
    requires k < |w| && Sum(w) != 0.0
    ensures |Normalised(w)| == |w| && Normalised(w)[k] * Sum(w) == w[k]
  {
    hide Times, Sum;
    DivideIsTimes(w[k], Sum(w));
  }

  lemma DivideIsTimes(x: real, t: real)
    requires t != 0.0
    ensures x / t == Times(x, 1.0 / t) && Times(x, 1.0 / t) * t == x
  {
    assert x == (x * (1.0 / t)) * t;
  }

  /** Distance from the centre, 1 at both edges. */
  function FromCentre(n: nat, i: nat): real
    requires n != 1 && i < n
  {
    var mid := (n - 1) as real / 2.0;
    (if i as real >= mid then i as real - mid else mid - i as real) / mid
  }

  function Profile(n: nat): seq<real>
    requires n != 1
  {
    seq(n, i requires 0 <= i < n => 0.5 + 0.5 * FromCentre(n, i))
  }

  /** The default U-shaped volume curve; the weight of a single slice is zero over zero, not a number. */
  method DefaultVwapProfile(n: nat) returns (w: array<real>, finite: bool)
    ensures fresh(w) && w.Length == n && (finite <==> n != 1)
    ensures finite ==> w[..] == Profile(n)
    ensures forall i :: n >= 2 && 0 <= 2 * i <= n - 1 ==>
                          w[i] == 1.0 - i as real / (n - 1) as real && w[n - 1 - i] == w[i]
  {
    w := new real[n];
    finite := n != 1;
    if !finite {
      return;
    }
    var mid := (n - 1) as real / 2.0;
    for i := 0 to n
      invariant forall k :: 0 <= k < i ==> w[k] == 0.5 + 0.5 * FromCentre(n, k)
    {
      var dist := (if i as real >= mid then i as real - mid else mid - i as real) / mid;
      w[i] := 0.5 + 0.5 * dist;
    }
    forall i | n >= 2 && 0 <= 2 * i <= n - 1
      ensures w[i] == 1.0 - i as real / (n - 1) as real && w[n - 1 - i] == w[i]
    {
      ProfileIs(n, i);
      assert w[..][i] == Profile(n)[i] && w[..][n - 1 - i] == Profile(n)[n - 1 - i];
    }
  }

  /** From 1 at either edge the weights fall by equal steps of 1 / (n - 1) to the centre. */
  lemma ProfileIs(n: nat, i: nat)
    requires 2 <= n && 2 * i <= n - 1
    ensures Profile(n)[i] == 1.0 - i as real / (n - 1) as real
    ensures Profile(n)[n - 1 - i] == Profile(n)[i]
  {
    hide FromCentre;
    FromCentreIsRatio(n, i);
    FromCentreIsRatio(n, n - 1 - i);
    var m, r, x := (n - 1) as real, Ratio(Gap(n, i), n - 1), i as real / (n - 1) as real;
    assert Gap(n, i) as real == m - 2.0 * i as real;
    assert x * m == i as real && r * m == m - 2.0 * i as real;
    SameOver(0.5 + 0.5 * r, 1.0 - x, m);
  }

  lemma SameOver(x: real, y: real, m: real)
    requires m != 0.0 && x * m == y * m
    ensures x == y
  {
    assert (x - y) * m == 0.0;
  }

  function Ratio(a: int, m: int): real
    requires m > 0
  {
    a as real / m as real
  }

  lemma RatioMonotone(a: int, b: int, m: int)
    requires m > 0 && a <= b
    ensures Ratio(a, m) <= Ratio(b, m)
  {
    assert Ratio(a, m) * m as real == a as real && Ratio(b, m) * m as real == b as real;
  }

  lemma RatioEnds(m: int)
    requires m > 0
    ensures Ratio(0, m) == 0.0 && Ratio(m, m) == 1.0
  {}

  /** How far slot `i` is from the centre, counted in half slots. */
  function Gap(n: nat, i: nat): int {
    if 2 * i >= n - 1 then 2 * i - (n - 1) else n - 1 - 2 * i
  }

  lemma FromCentreIsRatio(n: nat, i: nat)
    requires 2 <= n && i < n
    ensures FromCentre(n, i) == Ratio(Gap(n, i), n - 1)
  {
    var m := (n - 1) as real;
    var mid := m / 2.0;
    var d := if i as real >= mid then i as real - mid else mid - i as real;
    assert d * 2.0 == Gap(n, i) as real;
    assert (d / mid) * m == d * 2.0 by {
      assert (d / mid) * mid == d;
    }
    assert Ratio(Gap(n, i), n - 1) * m == Gap(n, i) as real;
  }

  lemma ProfileRange(n: nat, i: nat)
    requires 2 <= n && i < n
    ensures 0.5 <= Profile(n)[i] <= 1.0
  {
    hide FromCentre, Ratio;
    FromCentreIsRatio(n, i);
    RatioEnds(n - 1);
    RatioMonotone(0, Gap(n, i), n - 1);
    RatioMonotone(Gap(n, i), n - 1, n - 1);
  }

  /**
   The profile is a palindrome that falls from 1 at the edges to the centre in steps of 1 / (n - 1); so
   its values lie in [0.5, 1], and no default slice is more than twice another.
   */
  lemma ProfileShape(n: nat, i: nat, j: nat)
    requires 2 <= n && i <= j < n
    ensures 2 * (i + 1) <= n - 1 ==> Profile(n)[i] - Profile(n)[i + 1] == 1.0 / (n - 1) as real
    ensures n % 2 == 1 ==> Profile(n)[n / 2] == 0.5
    ensures Profile(n)[0] == Profile(n)[n - 1] == 1.0
    ensures Profile(n)[i] == Profile(n)[n - 1 - i]
    ensures 0.5 <= Profile(n)[i] <= 1.0
    ensures 2 * j <= n - 1 ==> Profile(n)[i] >= Profile(n)[j]
    ensures 2 * i >= n - 1 ==> Profile(n)[i] <= Profile(n)[j]
    ensures Profile(n)[i] <= 2.0 * Profile(n)[j] && Profile(n)[j] <= 2.0 * Profile(n)[i]
  {
    hide FromCentre, Ratio;
    ProfileRange(n, i);
    ProfileRange(n, j);
    FromCentreIsRatio(n, 0);
    FromCentreIsRatio(n, n - 1);
    FromCentreIsRatio(n, i);
    FromCentreIsRatio(n, n - 1 - i);
    FromCentreIsRatio(n, j);
    RatioEnds(n - 1);
    if 2 * j <= n - 1 {
      RatioMonotone(Gap(n, j), Gap(n, i), n - 1);
    }
    if 2 * i >= n - 1 {
      RatioMonotone(Gap(n, i), Gap(n, j), n - 1);
    }
    ProfileSteps(n, i);
  }

  lemma ProfileSteps(n: nat, i: nat)
    requires 2 <= n && i < n
    ensures 2 * (i + 1) <= n - 1 ==> Profile(n)[i] - Profile(n)[i + 1] == 1.0 / (n - 1) as real
    ensures n % 2 == 1 ==> Profile(n)[n / 2] == 0.5
  {
    hide Profile;
    var m := (n - 1) as real;
    if 2 * (i + 1) <= n - 1 {
      ProfileIs(n, i);
      ProfileIs(n, i + 1);
      assert (i + 1) as real / m == i as real / m + 1.0 / m;
    }
    if n % 2 == 1 {
      ProfileIs(n, n / 2);
      assert 2.0 * (n / 2) as real == m;
    }
  }

  // -------------------------------------------------------------------- slicing

  datatype Algorithm = Twap | Vwap | OtherAlgorithm(name: string)

  /** `weights` is None when no profile was configured. */
  datatype Config = Config(algorithm: Algorithm, slices: int, weights: Option<seq<real>>)

  function SliceCount(cfg: Config): nat {
    if cfg.slices < 1 then 5 else cfg.slices
  }

  /** The weights a VWAP run uses: the configured ones if there is one per slice, else the default curve. */
  function Weights(cfg: Config): seq<real>
    requires Sound(cfg)
  {
    if cfg.weights.Some? && |cfg.weights.value| == SliceCount(cfg) then cfg.weights.value else Profile(SliceCount(cfg))
  }

  /** Configurations whose arithmetic stays finite and whose weights are volumes. */
  ghost predicate Sound(cfg: Config) {
    if cfg.weights.Some? && |cfg.weights.value| == SliceCount(cfg)
    then NonNegative(cfg.weights.value) && Sum(cfg.weights.value) > 0.0
    else SliceCount(cfg) >= 2
  }

  /** Slice quantities of a parent of quantity `q`; None for an unknown algorithm. */
  function Quantities(cfg: Config, q: real): (r: Option<seq<real>>)
    requires cfg.algorithm.Vwap? ==> Sound(cfg)
  {
    match cfg.algorithm
    case Twap => Some(seq(SliceCount(cfg), _ => q / SliceCount(cfg) as real))
    case Vwap =>
      var w := Weights(cfg);
      WeightsSound(cfg);
      Some(seq(|w|, i requires 0 <= i < |w| => Times(Normalised(w)[i], q)))
    case OtherAlgorithm(_) => None
  }

  lemma {:induction false} SumPositive(s: seq<real>)
    requires s != [] && forall i :: 0 <= i < |s| ==> s[i] >= 0.5
    ensures Sum(s) > 0.0
  {
    var n := |s| - 1;
    if n == 0 {
      assert s[..0] == [];
    } else {
      SumPositive(s[..n]);
    }
  }

  lemma WeightsSound(cfg: Config)
    requires Sound(cfg)
    ensures |Weights(cfg)| == SliceCount(cfg) && NonNegative(Weights(cfg)) && Sum(Weights(cfg)) > 0.0
  {
    if !(cfg.weights.Some? && |cfg.weights.value| == SliceCount(cfg)) {
      var n := SliceCount(cfg);
      forall i | 0 <= i < n
        ensures Profile(n)[i] >= 0.5
      {
        ProfileRange(n, i);
      }
      SumPositive(Profile(n));
    }
  }

  lemma {:induction false} SumConstant(s: seq<real>, c: real)
    requires forall i :: 0 <= i < |s| ==> s[i] == c
    ensures Sum(s) == c * |s| as real
  {
    if s != [] {
      SumConstant(s[..|s| - 1], c);
    }
  }

  lemma NormalisedNonNegative(w: seq<real>)
    requires NonNegative(w) && Sum(w) > 0.0
    ensures NonNegative(Normalised(w))
  {
    var c := 1.0 / Sum(w);
    assert c > 0.0;
    forall i | 0 <= i < |w|
      ensures Normalised(w)[i] >= 0.0
    {
      TimesSign(w[i], c);
    }
  }

  lemma NormalisedLength(w: seq<real>)
    requires Sum(w) != 0.0
    ensures |Normalised(w)| == |w|
  {}

  ghost predicate SlicesOf(cfg: Config) {
    cfg.algorithm.Twap? || (cfg.algorithm.Vwap? && Sound(cfg))
  }

  lemma TwapConserves(cfg: Config, q: real)
    requires cfg.algorithm.Twap?
    ensures var s := Quantities(cfg, q).value;
            Sum(s) == q && (q >= 0.0 ==> NonNegative(s)) && (q <= 0.0 ==> forall i :: 0 <= i < |s| ==> s[i] <= 0.0)
  {
    var s := Quantities(cfg, q).value;
    var n := SliceCount(cfg) as real;
    SumConstant(s, q / n);
    assert q / n * n == q;
  }

  lemma VwapConserves(cfg: Config, q: real)
    requires cfg.algorithm.Vwap? && Sound(cfg)
    ensures var s := Quantities(cfg, q).value;
            Sum(s) == q && (q >= 0.0 ==> NonNegative(s)) && (q <= 0.0 ==> forall i :: 0 <= i < |s| ==> s[i] <= 0.0)
  {
    assert Times(1.0, q) == q;
    hide Times, Normalised, Weights;
    WeightsSound(cfg);
    var w := Weights(cfg);
    NormalisedSumsToOne(w);
    NormalisedNonNegative(w);
    assert |Normalised(w)| == |w| by {
      NormalisedLength(w);
    }
    var s := Quantities(cfg, q).value;
    SumScale(Normalised(w), q);
    assert s == Scale(Normalised(w), q);
    forall i | 0 <= i < |s|
      ensures q >= 0.0 ==> s[i] >= 0.0
      ensures q <= 0.0 ==> s[i] <= 0.0
    {
      TimesSign(Normalised(w)[i], q);
    }
  }

  /**
   Slicing conserves quantity: the slices of any parent add up to it exactly, and for a
   non-negative parent every prefix, and every single slice, stays within it.
   */
  lemma SlicingConserves(cfg: Config, q: real, k: nat)
    requires SlicesOf(cfg) && k <= SliceCount(cfg)
    ensures Quantities(cfg, q).Some? && |Quantities(cfg, q).value| == SliceCount(cfg)
    ensures var s := Quantities(cfg, q).value;
            && Sum(s) == q
            && (q >= 0.0 ==> NonNegative(s) && Sum(s[..k]) <= q && forall i :: 0 <= i < k ==> s[i] <= q)
            && (q <= 0.0 ==> forall i :: 0 <= i < |s| ==> s[i] <= 0.0)
  {
    if cfg.algorithm.Twap? {
      TwapConserves(cfg, q);
    } else {
      WeightsSound(cfg);
      VwapConserves(cfg, q);
    }
    if q >= 0.0 {
      PrefixSumBounded(Quantities(cfg, q).value, k);
    }
  }

  /** TWAP: the configured number of slices, or five, all alike. */
  lemma TwapSlicesAre(cfg: Config, q: real, i: nat)
    requires cfg.algorithm.Twap? && i < |Quantities(cfg, q).value|
    ensures var n := if cfg.slices < 1 then 5 else cfg.slices;
            |Quantities(cfg, q).value| == n && Quantities(cfg, q).value[i] * n as real == q
  {
    var n := (if cfg.slices < 1 then 5 else cfg.slices) as real;
    assert (q / n) * n == q;
  }

  /** VWAP: the parent in proportion to the configured weights if there is one per slice, else to the default curve. */
  lemma VwapSlicesAre(cfg: Config, q: real, i: nat)
    requires cfg.algorithm.Vwap? && Sound(cfg) && i < |Quantities(cfg, q).value|
    ensures var n := if cfg.slices < 1 then 5 else cfg.slices;
            var configured := cfg.weights.Some? && |cfg.weights.value| == n;
            var w := if configured then cfg.weights.value else Profile(n);
            && |w| == |Quantities(cfg, q).value| == n
            && Quantities(cfg, q).value[i] * Sum(w) == q * w[i]
  {
    hide Sum, Profile, Quantities;
    VwapShare(cfg, q, i);
  }

  lemma VwapShare(cfg: Config, q: real, i: nat)
    requires cfg.algorithm.Vwap? && Sound(cfg) && i < |Quantities(cfg, q).value|
    ensures |Weights(cfg)| == |Quantities(cfg, q).value| == SliceCount(cfg)
    ensures Quantities(cfg, q).value[i] * Sum(Weights(cfg)) == q * Weights(cfg)[i]
  {
    hide *;
    VwapAt(cfg, q, i);
    ShareOfWeights(Weights(cfg), i, q);
  }

  lemma ShareOfWeights(w: seq<real>, i: nat, q: real)
    requires i < |w| && Sum(w) != 0.0
    ensures |Normalised(w)| == |w| && Times(Normalised(w)[i], q) * Sum(w) == q * w[i]
  {
    hide *;
    NormalisedAt(w, i);
    ShareOf(Normalised(w)[i], w[i], Sum(w), q);
  }

  lemma VwapAt(cfg: Config, q: real, i: nat)
    requires cfg.algorithm.Vwap? && Sound(cfg) && i < |Quantities(cfg, q).value|
    ensures var w := Weights(cfg);
            && Sum(w) != 0.0 && |Normalised(w)| == |w| == |Quantities(cfg, q).value| == SliceCount(cfg)
            && Quantities(cfg, q).value[i] == Times(Normalised(w)[i], q)
  {
    hide Weights, Times, Sum;
    WeightsSound(cfg);
    NormalisedLength(Weights(cfg));
  }

  lemma ShareOf(x: real, w: real, t: real, q: real)
    requires x * t == w
    ensures Times(x, q) * t == q * w
  {
    assert (x * q) * t == (x * t) * q;
  }

  // ---------------------------------------------------------- executing the slices

  datatype Result = Result(fills: seq<Fill>, totalQty: real, avgPrice: real, totalCost: real,
                           executed: nat, failed: nat)

  function Qtys(fills: seq<Fill>): seq<real> {
    seq(|fills|, i requires 0 <= i < |fills| => fills[i].quantity)
  }

  function Notionals(fills: seq<Fill>): seq<real> {
    seq(|fills|, i requires 0 <= i < |fills| => Times(fills[i].price, fills[i].quantity))
  }

  function Costs(fills: seq<Fill>): seq<real> {
    seq(|fills|, i requires 0 <= i < |fills| => fills[i].cost)
  }

  /** Fills of the first `k` slices: what the exchange answered, where a slice was sent and accepted. */
  function FillsOf(qtys: seq<real>, answers: seq<Option<Fill>>, k: nat): seq<Fill>
    requires k <= |qtys| == |answers|
  {
    if k == 0 then []
    else
      FillsOf(qtys, answers, k - 1)
      + if qtys[k - 1] > 0.0 && answers[k - 1].Some? then [answers[k - 1].value] else []
  }

  function Failures(qtys: seq<real>, answers: seq<Option<Fill>>, k: nat): nat
    requires k <= |qtys| == |answers|
  {
    if k == 0 then 0
    else Failures(qtys, answers, k - 1) + if qtys[k - 1] > 0.0 && answers[k - 1].None? then 1 else 0
  }

  /** Slices not sent because their quantity was not positive. */
  function Skips(qtys: seq<real>, k: nat): nat
    requires k <= |qtys|
  {
    if k == 0 then 0 else Skips(qtys, k - 1) + if qtys[k - 1] > 0.0 then 0 else 1
  }

  lemma AppendSums(fills: seq<Fill>, f: Fill)
    ensures Sum(Qtys(fills + [f])) == Sum(Qtys(fills)) + f.quantity
    ensures Sum(Costs(fills + [f])) == Sum(Costs(fills)) + f.cost
    ensures Sum(Notionals(fills + [f])) == Sum(Notionals(fills)) + Times(f.price, f.quantity)
  {
    hide Times;
    var all := fills + [f];
    assert Qtys(all)[..|fills|] == Qtys(fills);
    assert Costs(all)[..|fills|] == Costs(fills);
    assert Notionals(all)[..|fills|] == Notionals(fills);
  }

  /** The fills' volume-weighted price; zero when nothing was filled. */
  function MeanPrice(fills: seq<Fill>): real {
    var q := Sum(Qtys(fills));
    if q > 0.0 then Sum(Notionals(fills)) / q else 0.0
  }

  /** The one fill the gateway publishes for an algorithmic order: the last slice's, with the totals put in. */
  function Aggregate(fills: seq<Fill>): Option<Fill> {
    if fills == [] then None
    else Some(fills[|fills| - 1].(quantity := Sum(Qtys(fills)), price := MeanPrice(fills)))
  }

  /**
   The slice loop.  `answers` are the exchange's replies, one per slice (None is an error);
   the context is cancelled before slice `stop` (never, if `stop` is the slice count or 0).
   */
  method ExecuteSlices(qtys: seq<real>, answers: seq<Option<Fill>>, stop: nat) returns (r: Result, cancelled: bool)
    requires |answers| == |qtys| && stop <= |qtys|
    ensures cancelled == (0 < stop < |qtys|)
    ensures var k := if cancelled then stop else |qtys|;
            && r.fills == FillsOf(qtys, answers, k)
            && r.totalQty == Sum(Qtys(r.fills)) && r.totalCost == Sum(Costs(r.fills))
            && r.executed == |r.fills| && r.failed == Failures(qtys, answers, k)
            && r.executed + r.failed + Skips(qtys, k) == k
    ensures r.avgPrice == if cancelled then 0.0 else MeanPrice(r.fills)
  {
    r := Result([], 0.0, 0.0, 0.0, 0, 0);
    cancelled := false;
    for i := 0 to |qtys|
      invariant i > 0 ==> !(0 < stop < i)
      invariant !cancelled && r.fills == FillsOf(qtys, answers, i) && r.avgPrice == 0.0
      invariant r.totalQty == Sum(Qtys(r.fills)) && r.totalCost == Sum(Costs(r.fills))
      invariant r.executed == |r.fills| && r.failed == Failures(qtys, answers, i)
      invariant r.executed + r.failed + Skips(qtys, i) == i
    {
      if 0 < i == stop {
        cancelled := true;
        return;
      }
      if qtys[i] > 0.0 {
        if answers[i].None? {
          r := r.(failed := r.failed + 1);
        } else {
          var f := answers[i].value;
          AppendSums(r.fills, f);
          r := r.(fills := r.fills + [f], totalQty := r.totalQty + f.quantity,
                  totalCost := r.totalCost + f.cost, executed := r.executed + 1);
        }
      }
    }
    if r.totalQty > 0.0 {
      var notional := 0.0;
      for i := 0 to |r.fills|
        invariant notional == Sum(Notionals(r.fills)[..i])
      {
        SumPrefix(Notionals(r.fills), i);
        notional := notional + Times(r.fills[i].price, r.fills[i].quantity);
      }
      assert Notionals(r.fills)[..|r.fills|] == Notionals(r.fills);
      r := r.(avgPrice := notional / r.totalQty);
    }
  }

  lemma {:induction false} NotionalBetween(fills: seq<Fill>, lo: real, hi: real)
    requires forall f :: f in fills ==> f.quantity >= 0.0 && (f.quantity > 0.0 ==> lo <= f.price <= hi)
    ensures Times(Sum(Qtys(fills)), lo) <= Sum(Notionals(fills)) <= Times(Sum(Qtys(fills)), hi)
  {
    hide Times;
    if fills == [] {
      TimesZero(lo);
      TimesZero(hi);
    }
    if fills != [] {
      var n := |fills| - 1;
      var f := fills[n];
      NotionalBetween(fills[..n], lo, hi);
      assert fills == fills[..n] + [f];
      AppendSums(fills[..n], f);
      ProductBetween(f.quantity, f.price, lo, hi);
      TimesAdds(Sum(Qtys(fills[..n])), f.quantity, lo);
      TimesAdds(Sum(Qtys(fills[..n])), f.quantity, hi);
    }
  }

  lemma ProductBetween(q: real, p: real, lo: real, hi: real)
    requires q >= 0.0 && (q > 0.0 ==> lo <= p <= hi)
    ensures Times(q, lo) <= Times(p, q) <= Times(q, hi)
  {
    if q > 0.0 {
      TimesSign(p - lo, q);
      TimesSign(hi - p, q);
      assert Times(p - lo, q) == Times(p, q) - Times(q, lo);
      assert Times(hi - p, q) == Times(q, hi) - Times(p, q);
    }
  }

  lemma TimesZero(c: real)
    ensures Times(0.0, c) == 0.0
  {}

  lemma MeanBetween(q: real, p: real, lo: real, hi: real)
    requires q > 0.0 && Times(q, lo) <= Times(p, q) <= Times(q, hi)
    ensures lo <= p <= hi
  {
    TimesSign(p - lo, q);
    TimesSign(hi - p, q);
    assert Times(p - lo, q) == Times(p, q) - Times(q, lo);
    assert Times(hi - p, q) == Times(q, hi) - Times(p, q);
  }

  /**
   Aggregation preserves value: the published fill carries the slices' total quantity and total
   notional, at a price between the cheapest and the dearest fill that moved any quantity.
   */
  lemma AggregatePreservesValue(fills: seq<Fill>, lo: real, hi: real)
    requires Sum(Qtys(fills)) > 0.0
    requires forall f :: f in fills ==> f.quantity >= 0.0 && (f.quantity > 0.0 ==> lo <= f.price <= hi)
    ensures Aggregate(fills).Some?
    ensures var f := Aggregate(fills).value;
            && f.quantity == Sum(Qtys(fills))
            && Times(f.price, f.quantity) == Sum(Notionals(fills))
            && lo <= f.price <= hi
  {
    var q, n := Sum(Qtys(fills)), Sum(Notionals(fills));
    assert Times(n / q, q) == n;
    hide Times;
    NotionalBetween(fills, lo, hi);
    MeanBetween(q, n / q, lo, hi);
  }

  /**
   The cost is the last slice's alone: it is the slices' total exactly when the others' costs add up
   to nothing.
   */
  lemma AggregateCostIsTotalIff(fills: seq<Fill>)
    requires fills != []
    ensures Aggregate(fills).value.cost == Sum(Costs(fills)) <==> Sum(Costs(fills[..|fills| - 1])) == 0.0
  {
    var n := |fills| - 1;
    assert fills == fills[..n] + [fills[n]];
    AppendSums(fills[..n], fills[n]);
  }
}
