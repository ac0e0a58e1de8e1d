/**
 The token bucket that throttles submissions.  The bucket refills lazily, whenever it is checked;
 `Exact` gives the stored token count a meaning that does not mention refilling at all.
 Time is in integer nanoseconds, tokens are reals.
 */
module Limiter {
  import opened Exchange

  datatype Bucket = Bucket(rps: real, tokens: real, last: int)

  /** One look at the bucket: when, and whether a token was handed out. */
  datatype Check = Check(at: int, granted: bool)

  /** Tokens that drip in over `ns` nanoseconds. */
  function Accrued(rps: real, ns: int): real {
    rps * (ns as real / 1_000_000_000.0)
  }

  function Fresh(rps: real, now: int): Bucket {
    Bucket(rps, rps, now)
  }

  /** The token count after the lazy refill at `now`, before any token is taken. */
  function Refilled(b: Bucket, now: int): real {
    var t := b.tokens + Accrued(b.rps, now - b.last);
    if t > b.rps then b.rps else t
  }

  predicate Grants(b: Bucket, now: int) {
    Refilled(b, now) >= 1.0
  }

  function Take(b: Bucket, now: int): Bucket {
    Bucket(b.rps, Refilled(b, now) - (if Grants(b, now) then 1.0 else 0.0), now)
  }

  /** Conversion to whole nanoseconds drops the fraction, towards zero. */
  function Truncated(x: real): int {
    if x >= 0.0 then x.Floor else -(-x).Floor
  }

  /** How long a refused caller sleeps: the exact wait, truncated; with a zero rate it is no number. */
  function WaitTime(b: Bucket): Option<int> {
    if b.rps == 0.0 then None else Some(Truncated((1.0 - b.tokens) / b.rps * 1_000_000_000.0))
  }

  function TakeAll(b: Bucket, times: seq<int>): (r: Bucket)
    ensures r.rps == b.rps
  {
    if times == [] then b else Take(TakeAll(b, times[..|times| - 1]), times[|times| - 1])
  }

  /** Round `k` was refused and asked for the given sleep. */
  predicate RefusedRound(b: Bucket, wakes: seq<int>, k: nat, sleep: Option<int>)
    requires k < |wakes|
  {
    && !Grants(TakeAll(b, wakes[..k]), wakes[k])
    && sleep == WaitTime(TakeAll(b, wakes[..k + 1]))
  }

  class TokenBucketLimiter {
    var capacity: real
    var tokens: real
    var refillRate: real
    var lastRefill: int

    ghost predicate Valid()
      reads this
    {
      capacity == refillRate
    }

    function State(): Bucket
      reads this
    {
      Bucket(refillRate, tokens, lastRefill)
    }

    constructor (rps: real, now: int)
      ensures Valid() && State() == Fresh(rps, now)
      ensures tokens == capacity == refillRate == rps && lastRefill == now
    {
      capacity, tokens, refillRate, lastRefill := rps, rps, rps, now;
    }

    /** One locked round: refill for the seconds elapsed, cap, and take a token if there is one. */
    method TryTake(now: int) returns (granted: bool)
      requires Valid()
      modifies this
      ensures Valid() && State() == Take(old(State()), now)
      ensures granted == Grants(old(State()), now)
      ensures lastRefill == now && refillRate == old(refillRate)
      ensures var dripped := old(tokens) + (now - old(lastRefill)) as real / 1_000_000_000.0 * refillRate;
              var full := if dripped > capacity then capacity else dripped;
              granted == (full >= 1.0) && tokens == if granted then full - 1.0 else full
    {
      var elapsed := (now - lastRefill) as real / 1_000_000_000.0;
      lastRefill := now;
      tokens := tokens + elapsed * refillRate;
      if tokens > capacity {
        tokens := capacity;
      }
      granted := tokens >= 1.0;
      if granted {
        tokens := tokens - 1.0;
      }
    }

    /**
     `wakes` are the clock readings of the successive rounds; the context is cancelled during the
     sleep that follows the last one.  Every round but the last was refused, the answer is the
     last round's, and each refused round asked to sleep for `WaitTime`.
     */
    method Wait(wakes: seq<int>) returns (ok: bool, rounds: nat, sleeps: seq<Option<int>>)
      requires Valid()
      modifies this
      ensures Valid() && refillRate == old(refillRate)
      ensures rounds <= |wakes|
      ensures State() == TakeAll(old(State()), wakes[..rounds])
      ensures ok ==> rounds > 0 && Grants(TakeAll(old(State()), wakes[..rounds - 1]), wakes[rounds - 1])
      ensures !ok ==> rounds == |wakes|
      ensures |sleeps| == if ok then rounds - 1 else rounds
      ensures forall k :: 0 <= k < |sleeps| ==> RefusedRound(old(State()), wakes, k, sleeps[k])
    {
      ok, rounds, sleeps := false, 0, [];
      while rounds < |wakes|
        invariant rounds <= |wakes| && |sleeps| == rounds && !ok
        invariant Valid() && refillRate == old(refillRate)
        invariant State() == TakeAll(old(State()), wakes[..rounds])
        invariant forall k :: 0 <= k < |sleeps| ==> RefusedRound(old(State()), wakes, k, sleeps[k])
      {
        ok := TryTake(wakes[rounds]);
        assert wakes[..rounds + 1][..rounds] == wakes[..rounds];
        rounds := rounds + 1;
        if ok {
          return;
        }
        assert RefusedRound(old(State()), wakes, rounds - 1, WaitTime(State()));
        sleeps := sleeps + [WaitTime(State())];
      }
      assert wakes[..rounds] == wakes;
    }
  }

  // ---------------------------------------------------------------- histories

  /** A history starts with a dummy entry for construction; every later entry is a check. */
  function Replay(rps: real, h: seq<Check>): Bucket
    requires h != []
  {
    var n := |h| - 1;
    if n == 0 then Fresh(rps, h[0].at) else Take(Replay(rps, h[..n]), h[n].at)
  }

  /** The recorded answers are the bucket's own, at non-decreasing times. */
  predicate Honest(rps: real, h: seq<Check>)
    requires h != []
  {
    var n := |h| - 1;
    if n == 0 then !h[0].granted
    else
      && Honest(rps, h[..n])
      && h[n - 1].at <= h[n].at
      && h[n].granted == Grants(Replay(rps, h[..n]), h[n].at)
  }

  function Count(h: seq<Check>): nat {
    if h == [] then 0 else Count(h[..|h| - 1]) + if h[|h| - 1].granted then 1 else 0
  }

  /** The part of a window's budget that is left: `rps * (1 + T)` less the grants since point `j`. */
  function Allowance(rps: real, h: seq<Check>, j: nat): real
    requires j < |h|
  {
    rps + Accrued(rps, h[|h| - 1].at - h[j].at) - Count(h[j..]) as real
  }

  lemma AccruedAdds(rps: real, a: int, b: int)
    ensures Accrued(rps, a + b) == Accrued(rps, a) + Accrued(rps, b)
  {
    assert (a + b) as real / 1_000_000_000.0 == a as real / 1_000_000_000.0 + b as real / 1_000_000_000.0;
  }

  lemma AccruedZero(rps: real)
    ensures Accrued(rps, 0) == 0.0
  {}

  lemma AccruedMonotone(rps: real, a: int, b: int)
    requires rps >= 0.0 && a <= b
    ensures Accrued(rps, a) <= Accrued(rps, b)
  {
    AccruedAdds(rps, a, b - a);
    var d := (b - a) as real / 1_000_000_000.0;
    assert d >= 0.0 && rps * d >= 0.0;
  }

  lemma CountSnoc(h: seq<Check>, j: nat, c: Check)
    requires j <= |h|
    ensures Count((h + [c])[j..]) == Count(h[j..]) + if c.granted then 1 else 0
  {
    var s := (h + [c])[j..];
    assert s[..|s| - 1] == h[j..] && s[|s| - 1] == c;
  }

  /** One more check shifts every window's allowance by the drip less the grant. */
  lemma AllowanceSnoc(rps: real, h: seq<Check>, c: Check, j: nat)
    requires j < |h|
    ensures Allowance(rps, h + [c], j)
         == Allowance(rps, h, j) + Accrued(rps, c.at - h[|h| - 1].at) - if c.granted then 1.0 else 0.0
  {
    hide Accrued;
    CountSnoc(h, j, c);
    AccruedAdds(rps, h[|h| - 1].at - h[j].at, c.at - h[|h| - 1].at);
  }

  /** The stored token count is the least allowance over all windows ending now. */
  lemma {:induction false} ExactAllowance(rps: real, h: seq<Check>)
    requires h != [] && Honest(rps, h)
    ensures forall j :: 0 <= j < |h| ==> Replay(rps, h).tokens <= Allowance(rps, h, j)
    ensures exists j :: 0 <= j < |h| && Replay(rps, h).tokens == Allowance(rps, h, j)
    ensures Replay(rps, h).last == h[|h| - 1].at && Replay(rps, h).rps == rps
  {
    hide Accrued;
    AccruedZero(rps);
    var n := |h| - 1;
    var c := h[n];
    if n == 0 {
      assert h[0..] == [c] && c.granted == false && Count([]) == 0;
      assert Replay(rps, h).tokens == Allowance(rps, h, 0);
    } else {
      var g := h[..n];
      ExactAllowance(rps, g);
      assert h == g + [c];
      forall j | 0 <= j < n
        ensures Allowance(rps, h, j)
             == Allowance(rps, g, j) + Accrued(rps, c.at - g[n - 1].at) - if c.granted then 1.0 else 0.0
      {
        AllowanceSnoc(rps, g, c, j);
      }
      CountSnoc(g, n, c);
      assert g[n..] == [] && Allowance(rps, h, n) == rps - if c.granted then 1.0 else 0.0;
      var k :| 0 <= k < n && Replay(rps, g).tokens == Allowance(rps, g, k);
      var t := Replay(rps, h).tokens;
      assert t == Allowance(rps, h, n) || t == Allowance(rps, h, k);
    }
  }

  /** One more grant at `now` keeps the window that began at point `j` within `rps * (1 + T)`. */
  predicate RoomSince(rps: real, h: seq<Check>, j: nat, now: int)
    requires j < |h|
  {
    Count(h[j..]) as real + 1.0 <= rps + Accrued(rps, now - h[j].at)
  }

  /** The declarative reading of the limit: would one more grant keep every window within it? */
  ghost predicate RoomInEveryWindow(rps: real, h: seq<Check>, now: int) {
    1.0 <= rps && forall j :: 0 <= j < |h| ==> RoomSince(rps, h, j, now)
  }

  lemma RoomIsAllowance(rps: real, h: seq<Check>, j: nat, now: int)
    requires j < |h|
    ensures RoomSince(rps, h, j, now) <==> Allowance(rps, h, j) + Accrued(rps, now - h[|h| - 1].at) >= 1.0
  {
    hide Accrued;
    AccruedAdds(rps, h[|h| - 1].at - h[j].at, now - h[|h| - 1].at);
  }

  /** A request is granted exactly when every window still has room for it. */
  lemma GrantedIffAllowed(rps: real, h: seq<Check>, now: int)
    requires h != [] && Honest(rps, h) && h[|h| - 1].at <= now
    ensures Grants(Replay(rps, h), now) <==> RoomInEveryWindow(rps, h, now)
  {
    hide Accrued, Allowance, RoomSince;
    ExactAllowance(rps, h);
    forall j | 0 <= j < |h|
      ensures RoomSince(rps, h, j, now) <==> Allowance(rps, h, j) + Accrued(rps, now - h[|h| - 1].at) >= 1.0
    {
      RoomIsAllowance(rps, h, j, now);
    }
    var k :| 0 <= k < |h| && Replay(rps, h).tokens == Allowance(rps, h, k);
    RoomIsAllowance(rps, h, k, now);
  }

  lemma {:induction false} TokensStayNonNegative(rps: real, h: seq<Check>)
    requires rps >= 0.0 && h != [] && Honest(rps, h)
    ensures 0.0 <= Replay(rps, h).tokens <= rps
  {
    hide Accrued;
    AccruedZero(rps);
    var n := |h| - 1;
    if n > 0 {
      TokensStayNonNegative(rps, h[..n]);
      ExactAllowance(rps, h[..n]);
      AccruedMonotone(rps, 0, h[n].at - h[n - 1].at);
    }
  }

  // ------------------------------------------------------- the advertised limit

  predicate StretchObeys(rps: real, h: seq<Check>, j: nat, k: nat)
    requires j <= k < |h|
  {
    Count(h[j..k + 1]) as real <= rps + Accrued(rps, h[k].at - h[j].at)
  }

  /** Every stretch of a schedule, end points included, keeps to `rps * (1 + T)` grants. */
  ghost predicate Obeys(rps: real, h: seq<Check>) {
    forall j: nat, k: nat :: j <= k < |h| ==> StretchObeys(rps, h, j, k)
  }

  lemma {:induction false} PrefixHonest(rps: real, h: seq<Check>, k: nat)
    requires 0 < k <= |h| && Honest(rps, h)
    ensures Honest(rps, h[..k])
  {
    if k == |h| {
      assert h[..k] == h;
    } else {
      PrefixHonest(rps, h[..|h| - 1], k);
      assert h[..|h| - 1][..k] == h[..k];
    }
  }

  lemma LimiterStretchObeys(rps: real, h: seq<Check>, j: nat, k: nat)
    requires rps >= 0.0 && j <= k < |h| && Honest(rps, h)
    ensures StretchObeys(rps, h, j, k)
  {
    hide Accrued;
    var g := h[..k + 1];
    PrefixHonest(rps, h, k + 1);
    ExactAllowance(rps, g);
    TokensStayNonNegative(rps, g);
    assert g[j..] == h[j..k + 1] && Allowance(rps, g, j) >= 0.0;
  }

  lemma EveryStretchObeys(rps: real, h: seq<Check>)
    requires rps >= 0.0 && h != [] && Honest(rps, h)
    ensures Obeys(rps, h)
  {
    forall j: nat, k: nat | j <= k < |h|
      ensures StretchObeys(rps, h, j, k)
    {
      LimiterStretchObeys(rps, h, j, k);
    }
  }

  predicate SameTimes(g: seq<Check>, h: seq<Check>) {
    |g| == |h| && forall i :: 0 <= i < |g| ==> g[i].at == h[i].at
  }

  lemma {:induction false} CountSplit(h: seq<Check>, j: nat)
    requires j <= |h|
    ensures Count(h) == Count(h[..j]) + Count(h[j..])
  {
    if j == |h| {
      assert h[..j] == h && h[j..] == [];
    } else {
      var n := |h| - 1;
      CountSplit(h[..n], j);
      assert h[..n][..j] == h[..j] && h[..n][j..] == h[j..n];
      assert h[j..][..n - j] == h[j..n] && h[j..][n - j] == h[n];
    }
  }

  lemma PrefixObeys(rps: real, g: seq<Check>, m: nat)
    requires m <= |g| && Obeys(rps, g)
    ensures Obeys(rps, g[..m])
  {
    hide Accrued;
    forall j: nat, k: nat | j <= k < m
      ensures StretchObeys(rps, g[..m], j, k)
    {
      assert StretchObeys(rps, g, j, k);
      assert g[..m][j..k + 1] == g[j..k + 1];
    }
  }

  /** Where the bucket refuses, it has already given out as much since some point as anyone may. */
  lemma RefusalIsForced(rps: real, h: seq<Check>, g: seq<Check>) returns (j: nat)
    requires |h| > 1 && Honest(rps, h) && !h[|h| - 1].granted
    requires SameTimes(g, h) && g[|h| - 1].granted && Obeys(rps, g)
    ensures j < |h| - 1 && Count(g[j..]) <= Count(h[..|h| - 1][j..])
  {
    hide Accrued;
    var n := |h| - 1;
    GrantedIffAllowed(rps, h[..n], h[n].at);
    assert StretchObeys(rps, g, n, n);
    assert g[n..n + 1] == [g[n]] && [g[n]][..0] == [] && Count([g[n]]) == 1;
    AccruedZero(rps);
    j :| 0 <= j < n && !RoomSince(rps, h[..n], j, h[n].at);
    assert StretchObeys(rps, g, j, n);
    assert g[j..n + 1] == g[j..];
  }

  /**
   The limiter is optimal: at the same request times, no schedule that keeps to the advertised
   limit has handed out more tokens by any point.
   */
  lemma {:induction false} LimiterIsOptimal(rps: real, h: seq<Check>, g: seq<Check>)
    requires h != [] && Honest(rps, h)
    requires SameTimes(g, h) && !g[0].granted && Obeys(rps, g)
    ensures Count(g) <= Count(h)
    decreases |h|
  {
    hide Accrued;
    var n := |h| - 1;
    if n == 0 {
      assert g[..0] == [] && h[..0] == [];
    } else {
      PrefixObeys(rps, g, n);
      LimiterIsOptimal(rps, h[..n], g[..n]);
      if g[n].granted && !h[n].granted {
        var j := RefusalIsForced(rps, h, g);
        CountSplit(g, j);
        CountSplit(h[..n], j);
        assert h[..n][..j] == h[..j];
        if j == 0 {
          assert g[..j] == [] && h[..j] == [];
        } else {
          PrefixHonest(rps, h, j);
          PrefixObeys(rps, g, j);
          LimiterIsOptimal(rps, h[..j], g[..j]);
        }
      }
    }
  }

  /** Grants whose check fell inside the closed time window. */
  function CountIn(h: seq<Check>, from: int, to: int): nat {
    if h == [] then 0
    else
      var c := h[|h| - 1];
      CountIn(h[..|h| - 1], from, to) + if c.granted && from <= c.at <= to then 1 else 0
  }

  lemma {:induction false} TimesOrdered(rps: real, h: seq<Check>, i: nat, j: nat)
    requires i <= j < |h| && Honest(rps, h)
    ensures h[i].at <= h[j].at
  {
    if i < j {
      PrefixHonest(rps, h, j + 1);
      PrefixHonest(rps, h, j);
      TimesOrdered(rps, h, i, j - 1);
    }
  }

  lemma {:induction false} CountInIsStretch(rps: real, h: seq<Check>, from: int, to: int) returns (j: nat)
    requires h != [] && Honest(rps, h) && h[|h| - 1].at <= to
    ensures j <= |h| && CountIn(h, from, to) == Count(h[j..])
    ensures j < |h| ==> from <= h[j].at
    ensures j == |h| ==> h[|h| - 1].at < from
  {
    var n := |h| - 1;
    if n == 0 {
      j := if from <= h[0].at then 0 else 1;
      assert h[..0] == [] && h[0..] == h && h[1..] == [];
    } else {
      j := CountInIsStretch(rps, h[..n], from, to);
      assert h == h[..n] + [h[n]];
      if j == n && h[n].at < from {
        j := n + 1;
        assert h[..n][n..] == [] && h[n + 1..] == [];
      } else {
        CountSnoc(h[..n], j, h[n]);
        assert from <= h[n].at by {
          if j < n {
            TimesOrdered(rps, h, j, n);
          }
        }
      }
    }
  }

  /** Any window of length T holds at most `rps * (1 + T)` grants. */
  lemma {:induction false} WindowAccrued(rps: real, h: seq<Check>, from: int, to: int)
    requires rps >= 0.0 && h != [] && Honest(rps, h) && from <= to
    ensures CountIn(h, from, to) as real <= rps + Accrued(rps, to - from)
  {
    hide Accrued;
    var n := |h| - 1;
    AccruedZero(rps);
    AccruedMonotone(rps, 0, to - from);
    if h[n].at > to {
      if n == 0 {
        assert h[..0] == [];
      } else {
        WindowAccrued(rps, h[..n], from, to);
      }
    } else {
      var j := CountInIsStretch(rps, h, from, to);
      if j == |h| {
        assert h[j..] == [];
      } else {
        LimiterStretchObeys(rps, h, j, n);
        assert h[j..n + 1] == h[j..];
        AccruedMonotone(rps, h[n].at - h[j].at, to - from);
      }
    }
  }

  // --------------------------------------------------------- the same, written out

  /** A second brings `rps` tokens. */
  lemma BudgetIs(rps: real, ns: int)
    ensures rps + Accrued(rps, ns) == rps * (1.0 + ns as real / 1_000_000_000.0)
  {}

  /**
   The stored token count is the least, over all windows that end now, of `rps * (1 + T)` less the
   grants in the window.
   */
  lemma {:induction false} Exact(rps: real, h: seq<Check>)
    requires h != [] && Honest(rps, h)
    ensures var t, now := Replay(rps, h).tokens, h[|h| - 1].at;
            && (forall j :: 0 <= j < |h| ==>
                              t <= rps * (1.0 + (now - h[j].at) as real / 1_000_000_000.0) - Count(h[j..]) as real)
            && (exists j :: 0 <= j < |h|
                         && t == rps * (1.0 + (now - h[j].at) as real / 1_000_000_000.0) - Count(h[j..]) as real)
    ensures Replay(rps, h).last == h[|h| - 1].at && Replay(rps, h).rps == rps
  {
    hide Accrued, Count, Replay, Honest;
    ExactAllowance(rps, h);
    var now := h[|h| - 1].at;
    forall j | 0 <= j < |h|
      ensures Allowance(rps, h, j) == rps * (1.0 + (now - h[j].at) as real / 1_000_000_000.0) - Count(h[j..]) as real
    {
      BudgetIs(rps, now - h[j].at);
    }
  }

  /** A request is granted exactly when one more grant keeps every window within `rps * (1 + T)`. */
  lemma GrantedIffRoom(rps: real, h: seq<Check>, now: int)
    requires h != [] && Honest(rps, h) && h[|h| - 1].at <= now
    ensures Grants(Replay(rps, h), now)
       <==> && 1.0 <= rps
            && forall j :: 0 <= j < |h| ==>
                             Count(h[j..]) as real + 1.0 <= rps * (1.0 + (now - h[j].at) as real / 1_000_000_000.0)
  {
    hide Accrued, Count, Replay, Honest, Grants;
    GrantedIffAllowed(rps, h, now);
    forall j | 0 <= j < |h|
      ensures RoomSince(rps, h, j, now)
         <==> Count(h[j..]) as real + 1.0 <= rps * (1.0 + (now - h[j].at) as real / 1_000_000_000.0)
    {
      BudgetIs(rps, now - h[j].at);
    }
  }

  /** Every stretch of every history keeps to `rps * (1 + T)` grants. */
  lemma LimiterObeys(rps: real, h: seq<Check>, j: nat, k: nat)
    requires rps >= 0.0 && j <= k < |h| && Honest(rps, h)
    ensures Count(h[j..k + 1]) as real <= rps * (1.0 + (h[k].at - h[j].at) as real / 1_000_000_000.0)
  {
    hide Accrued;
    LimiterStretchObeys(rps, h, j, k);
    BudgetIs(rps, h[k].at - h[j].at);
  }

  /** Any window of length T holds at most `rps * (1 + T)` grants. */
  lemma WindowBound(rps: real, h: seq<Check>, from: int, to: int)
    requires rps >= 0.0 && h != [] && Honest(rps, h) && from <= to
    ensures CountIn(h, from, to) as real <= rps * (1.0 + (to - from) as real / 1_000_000_000.0)
  {
    hide Accrued, CountIn, Honest;
    WindowAccrued(rps, h, from, to);
    BudgetIs(rps, to - from);
  }

  /** When a bucket next grants: exactly once the seconds since it was last looked at have dripped what it lacks. */
  lemma GrantsExactlyWhen(b: Bucket, now: int)
    requires b.rps >= 1.0
    ensures Grants(b, now) <==> b.rps * (now - b.last) as real >= 1_000_000_000.0 * (1.0 - b.tokens)
  {
    var x := b.rps * (now - b.last) as real;
    assert Accrued(b.rps, now - b.last) * 1_000_000_000.0 == x;
  }

  /** The sleep of a refused caller is the wait that remains, truncated: not longer, and less than 1 ns short. */
  lemma SleepIsWhatRemains(b: Bucket)
    requires b.rps >= 1.0 && b.tokens < 1.0
    ensures var w := WaitTime(b);
            && w.Some? && w.value >= 0
            && b.rps * w.value as real <= 1_000_000_000.0 * (1.0 - b.tokens) < b.rps * (w.value + 1) as real
  {
    var d := 1.0 - b.tokens;
    var x := d / b.rps * 1_000_000_000.0;
    Remaining(d, b.rps, x);
    var w := WaitTime(b).value;
    assert w as real <= x < (w + 1) as real;
    Stretched(w as real, x, b.rps);
    Stretched(x, (w + 1) as real, b.rps);
  }

  lemma Remaining(d: real, rps: real, x: real)
    requires d > 0.0 && rps >= 1.0 && x == d / rps * 1_000_000_000.0
    ensures x >= 0.0 && rps * x == 1_000_000_000.0 * d
  {
    var y := d / rps;
    assert y * rps == d;
    if y < 0.0 {
      Stretched(y, 0.0, rps);
    }
  }

  lemma Stretched(x: real, y: real, r: real)
    requires r > 0.0
    ensures x <= y ==> r * x <= r * y
    ensures x < y ==> r * x < r * y
  {
    if x < y {
      assert r * (y - x) > 0.0;
    }
  }

  // --------------------------------------------------------------- progress

  /** A bucket smaller than one token never grants, whatever was asked of it before. */
  lemma SubUnitRateNeverGrants(b: Bucket, times: seq<int>, now: int)
    requires b.rps < 1.0
    ensures !Grants(TakeAll(b, times), now)
  {}

  /**
   The truncated sleep can wake a waiter up to one nanosecond early, but never twice: a lone
   waiter that sleeps at least the computed wait is granted no later than its third check.
   */
  lemma GrantedByThirdCheck(b: Bucket, t1: int, t2: int, t3: int)
    requires b.rps >= 1.0 && !Grants(b, t1)
    requires t2 >= t1 + 1 && t2 >= t1 + WaitTime(Take(b, t1)).value
    requires t3 >= t2 + 1
    ensures Grants(Take(b, t1), t2) || Grants(Take(Take(b, t1), t2), t3)
  {
    var b1 := Take(b, t1);
    var w := WaitTime(b1).value;
    var exact := (1.0 - b1.tokens) / b.rps * 1_000_000_000.0;
    assert exact < (w + 1) as real;
    var d := 1.0 - b1.tokens;
    assert b.rps * (exact / 1_000_000_000.0) == d by {
      assert exact / 1_000_000_000.0 == d / b.rps;
    }
    var slack := (w + 1) as real / 1_000_000_000.0 - exact / 1_000_000_000.0;
    assert slack > 0.0 && b.rps * slack > 0.0;
    assert Accrued(b.rps, w + 1) == d + b.rps * slack;
    AccruedMonotone(b.rps, w + 1, (t2 - t1) + 1);
    AccruedMonotone(b.rps, 1, t3 - t2);
    AccruedMonotone(b.rps, 0, t3 - t2);
    AccruedAdds(b.rps, t2 - t1, 1);
  }
}
