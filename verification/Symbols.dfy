/** Instrument names: canonical BASE-USD on one side, exchange BASEUSDT on the other. */
module Symbols {
  import opened Text

  function DropDashes(s: string): string {
    if s == [] then []
    else DropDashes(s[..|s| - 1]) + if s[|s| - 1] == '-' then [] else [s[|s| - 1]]
  }

  predicate EndsWith(s: string, t: string) {
    |t| <= |s| && s[|s| - |t|..] == t
  }

  function ToExchange(instrument: string): string {
    var s := Upper(DropDashes(instrument));
    if EndsWith(s, "USD") then s + "T" else s
  }

  function ToDownstream(symbol: string): string {
    if EndsWith(symbol, "USDT") then symbol[..|symbol| - 4] + "-USD"
    else if EndsWith(symbol, "BUSD") then symbol[..|symbol| - 4] + "-USD"
    else symbol
  }

  /** Upper case and dash-free, the alphabet of exchange symbols. */
  predicate Plain(s: string) {
    forall i :: 0 <= i < |s| ==> s[i] != '-' && !('a' <= s[i] <= 'z')
  }

  lemma {:induction false} DropDashesNoDash(s: string)
    ensures NoDash(DropDashes(s))
  {
    if s != [] {
      DropDashesNoDash(s[..|s| - 1]);
    }
  }

  lemma {:induction false} DropDashesPlain(s: string)
    requires NoDash(s)
    ensures DropDashes(s) == s
  {
    if s != [] {
      DropDashesPlain(s[..|s| - 1]);
    }
  }

  lemma {:induction false} DropDashesConcat(a: string, b: string)
    ensures DropDashes(a + b) == DropDashes(a) + DropDashes(b)
  {
    if b == [] {
      assert a + b == a;
    } else {
      var n := |b| - 1;
      assert (a + b)[..|a + b| - 1] == a + b[..n];
      DropDashesConcat(a, b[..n]);
    }
  }

  lemma UpperPlain(s: string)
    requires Plain(s)
    ensures Upper(s) == s
  {}

  lemma ToExchangePlain(x: string)
    ensures Plain(ToExchange(x))
  {
    DropDashesNoDash(x);
  }

  lemma LastCharDiffers(s: string, t: string)
    requires s != [] && t != [] && s[|s| - 1] != t[|t| - 1]
    ensures !EndsWith(s, t)
  {
    if |t| <= |s| {
      assert s[|s| - |t|..][|t| - 1] == s[|s| - 1];
    }
  }

  lemma BusdEndsInUsd(s: string)
    requires EndsWith(s, "BUSD")
    ensures EndsWith(s, "USD")
  {
    assert s[|s| - 3..] == s[|s| - 4..][1..] == "USD";
  }

  /** The result never ends in USD, so the BUSD branch of the way back is dead on it. */
  lemma ToExchangeNeverEndsInUsd(x: string)
    ensures !EndsWith(ToExchange(x), "USD") && !EndsWith(ToExchange(x), "BUSD")
  {
    var s := Upper(DropDashes(x));
    var r := ToExchange(x);
    if EndsWith(s, "USD") {
      LastCharDiffers(r, "USD");
      LastCharDiffers(r, "BUSD");
    } else if EndsWith(r, "BUSD") {
      BusdEndsInUsd(r);
    }
  }

  lemma ToExchangeFixed(s: string)
    requires Plain(s) && !EndsWith(s, "USD")
    ensures ToExchange(s) == s
  {
    DropDashesPlain(s);
    UpperPlain(s);
  }

  lemma ToExchangeIdempotent(x: string)
    ensures ToExchange(ToExchange(x)) == ToExchange(x)
  {
    ToExchangePlain(x);
    ToExchangeNeverEndsInUsd(x);
    ToExchangeFixed(ToExchange(x));
  }

  lemma DropDashesUsd()
    ensures DropDashes("-USD") == "USD"
  {
    LoneDash();
    hide DropDashes;
    DropDashesConcat("-", "USD");
    assert "-" + "USD" == "-USD";
    DropDashesPlain("USD");
    assert [] + "USD" == "USD";
  }

  lemma LoneDash()
    ensures DropDashes("-") == []
  {
    assert "-"[..0] == [];
  }

  /** A plain base quoted in USD becomes its USDT symbol. */
  lemma UsdPair(base: string)
    requires Plain(base)
    ensures ToExchange(base + "-USD") == base + "USDT"
  {
    hide DropDashes, Upper;
    DropDashesConcat(base, "-USD");
    DropDashesPlain(base);
    DropDashesUsd();
    var s := base + "USD";
    UpperPlain(s);
    assert s[|s| - 3..] == "USD";
    assert s + "T" == base + "USDT";
  }

  /** Going downstream and back loses nothing on what the exchange was given. */
  lemma DownstreamAndBack(x: string)
    ensures ToExchange(ToDownstream(ToExchange(x))) == ToExchange(x)
  {
    var e := ToExchange(x);
    ToExchangePlain(x);
    ToExchangeNeverEndsInUsd(x);
    if EndsWith(e, "USDT") {
      var base := e[..|e| - 4];
      UsdPair(base);
      assert e == base + "USDT";
    } else {
      ToExchangeFixed(e);
    }
  }

  /** Every upper-case dash-free base quoted in USD survives the round trip. */
  lemma UsdPairRoundTrip(base: string)
    requires Plain(base)
    ensures ToDownstream(ToExchange(base + "-USD")) == base + "-USD"
  {
    UsdPair(base);
    var e := base + "USDT";
    assert e[|e| - 4..] == "USDT" && e[..|e| - 4] == base;
  }

  /** Dashes and case do not matter to the exchange's symbol. */
  lemma DashesAndCaseDoNotMatter(a: string, b: string)
    ensures ToExchange(a + "-" + b) == ToExchange(a + b)
    ensures ToExchange(Upper(a)) == ToExchange(a)
  {
    assert DropDashes("-") == [] by {
      assert "-"[..0] == [];
    }
    hide DropDashes, Upper, EndsWith;
    DropDashesConcat(a + "-", b);
    DropDashesConcat(a, "-");
    DropDashesConcat(a, b);
    assert DropDashes(a) + [] == DropDashes(a);
    UpperDropsAlike(a);
  }

  /** And nothing else is changed but a final USD. */
  lemma PlainSymbolIs(a: string)
    requires Plain(a)
    ensures ToExchange(a) == if EndsWith(a, "USD") then a + "T" else a
  {
    hide DropDashes, Upper, EndsWith;
    DropDashesPlain(a);
    UpperPlain(a);
  }

  lemma {:induction false} UpperDropsAlike(s: string)
    ensures Upper(DropDashes(Upper(s))) == Upper(DropDashes(s))
  {
    if s != [] {
      var n := |s| - 1;
      UpperDropsAlike(s[..n]);
      assert Upper(s)[..n] == Upper(s[..n]);
      assert (Upper(s)[n] == '-') == (s[n] == '-') && UpperChar(Upper(s)[n]) == UpperChar(s[n]);
    }
  }

  /** A USDT or BUSD symbol becomes its base quoted in USD, any other stays as it is. */
  lemma DownstreamSymbolIs(base: string, other: string)
    ensures ToDownstream(base + "USDT") == base + "-USD" && ToDownstream(base + "BUSD") == base + "-USD"
    ensures !EndsWith(other, "USDT") && !EndsWith(other, "BUSD") ==> ToDownstream(other) == other
  {
    var t, b := base + "USDT", base + "BUSD";
    assert t[|t| - 4..] == "USDT" && t[..|t| - 4] == base;
    assert b[|b| - 4..] == "BUSD" && b[..|b| - 4] == base;
    LastCharDiffers(b, "USDT");
  }
}
