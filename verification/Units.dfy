/** Decimal amounts (exchange-dashboard/src/format.ts, `parseUnits` and
    `formatUnits`): raw integers and their spelling with a decimal point. */
module Units {
  import opened Chars
  import opened Strike
  import MoveTypes

  datatype Parsed = Amount(raw: nat) | Malformed | TooManyPlaces

  predicate Digit(c: char) { '0' <= c <= '9' }
  predicate AllDigits(s: string) { forall i :: 0 <= i < |s| ==> Digit(s[i]) }

  /** `BigInt` of a run of digits; the empty run counts as zero. */
  function Value(s: string): nat
    requires AllDigits(s)
  {
    if s == "" then 0 else Value(s[..|s| - 1]) * 10 + (s[|s| - 1] - '0') as nat
  }

  /** `toString` of a non-negative integer. */
  function Digits(n: nat): (r: string)
    ensures r != "" && AllDigits(r)
  {
    if n < 10 then ['0' + n as char] else Digits(n / 10) + ['0' + (n % 10) as char]
  }

  /** `bigint` quotient and remainder of non-negative numbers. */
  function Div(a: nat, b: nat): nat
    requires b > 0
  {
    DivNat(a, b);
    a / b
  }
  function Mod(a: nat, b: nat): nat
    requires b > 0
  {
    a % b
  }

  lemma DivNat(a: int, b: int)
    requires a >= 0 && b > 0
    ensures a / b >= 0
  {
  }

  lemma DivMod(a: nat, b: nat)
    requires b > 0
    ensures a == Times(Div(a, b), b) + Mod(a, b) && Mod(a, b) < b
  {
  }

  lemma PartsUnique(w: nat, f: nat, b: nat)
    requires f < b
    ensures Div(Times(w, b) + f, b) == w && Mod(Times(w, b) + f, b) == f
  {
    var a := Times(w, b) + f;
    DivMod(a, b);
    hide Div, Mod;
    var q := Div(a, b);
    assert (w - q) * b == w * b - q * b && (q - w) * b == q * b - w * b;
    if q < w { MulLe(1, w - q, b); }
    if w < q { MulLe(1, q - w, b); }
  }

  lemma SmallParts(f: nat, b: nat)
    requires f < b
    ensures Div(f, b) == 0 && Mod(f, b) == f
  {
    PartsUnique(0, f, b);
  }

  /** Multiplication as an opaque step for the longer proofs. */
  function Times(a: nat, b: nat): nat { a * b }

  function PadEnd(s: string, d: nat): string { if |s| < d then s + Zeros(d - |s|) else s }
  function PadStart(s: string, d: nat): string { if |s| < d then Zeros(d - |s|) + s else s }

  function StripZeros(s: string): (r: string)
    ensures r <= s
  {
    if s != "" && s[|s| - 1] == '0' then StripZeros(s[..|s| - 1]) else s
  }

  /** Index of the first point, or the length. */
  function Point(s: string): (i: nat)
    ensures i <= |s| && (i < |s| ==> s[i] == '.') && forall k :: 0 <= k < i ==> s[k] != '.'
  {
    if s == "" || s[0] == '.' then 0 else 1 + Point(s[1..])
  }

  function Whole(s: string): string { s[..Point(s)] }
  function Frac(s: string): string { if Point(s) < |s| then s[Point(s) + 1..] else "" }

  lemma PadEndDigits(s: string, d: nat)
    requires AllDigits(s)
    ensures AllDigits(PadEnd(s, d))
  {
  }

  function Parse(input: string, d: nat): Parsed {
    var s := MoveTypes.Trim(input);
    var whole, frac := Whole(s), Frac(s);
    if !AllDigits(whole) || !AllDigits(frac) || s == "" || s == "." then Malformed
    else if |frac| > d then TooManyPlaces
    else
      PadEndDigits(frac, d);
      Amount(Value(whole) * Pow10(d) + Value(PadEnd(frac, d)))
  }

  function Format(raw: nat, d: nat): string {
    var frac := StripZeros(PadStart(Digits(Mod(raw, Pow10(d))), d));
    if frac != "" then Digits(Div(raw, Pow10(d))) + "." + frac else Digits(Div(raw, Pow10(d)))
  }

  // ----- digit strings -----

  lemma {:induction false} ValueConcat(a: string, b: string)
    requires AllDigits(a) && AllDigits(b)
    ensures Value(a + b) == Times(Value(a), Pow10(|b|)) + Value(b)
  {
    if b == "" {
      assert a + b == a;
    } else {
      var b' := b[..|b| - 1];
      assert (a + b)[..|a + b| - 1] == a + b';
      ValueConcat(a, b');
      assert Pow10(|b|) == 10 * Pow10(|b'|) && b == b' + [b[|b| - 1]];
      Shift(Value(a), Pow10(|b'|), Value(b'));
    }
  }

  lemma Shift(a: nat, p: nat, b: nat)
    ensures (a * p + b) * 10 == a * (10 * p) + b * 10
  {
  }

  lemma {:induction false} ValueBound(s: string)
    requires AllDigits(s)
    ensures Value(s) < Pow10(|s|)
  {
    if s != "" { ValueBound(s[..|s| - 1]); }
  }

  lemma {:induction false} ZerosValue(n: nat)
    ensures AllDigits(Zeros(n)) && Value(Zeros(n)) == 0
  {
    if n > 0 {
      assert Zeros(n)[..n - 1] == Zeros(n - 1);
      ZerosValue(n - 1);
    }
  }

  lemma {:induction false} DigitsValue(n: nat)
    ensures Value(Digits(n)) == n
  {
    if n >= 10 {
      DigitsValue(n / 10);
      assert Digits(n)[..|Digits(n)| - 1] == Digits(n / 10);
    } else {
      assert Digits(n)[..0] == "";
    }
  }

  /** No spelling of an integer is shorter than `Digits`. */
  lemma {:induction false} DigitsShortest(w: string)
    requires AllDigits(w) && w != ""
    ensures |Digits(Value(w))| <= |w|
  {
    if |w| == 1 {
      assert w[..0] == "";
    } else {
      DigitsShortest(w[..|w| - 1]);
    }
  }

  lemma {:induction false} DigitsFit(n: nat, d: nat)
    requires n < Pow10(d) && d > 0
    ensures |Digits(n)| <= d
  {
    if n >= 10 {
      assert Pow10(d) == 10 * Pow10(d - 1);
      assert d > 1;
      DigitsFit(n / 10, d - 1);
    }
  }

  /** Digit strings of one length are equal when their values are. */
  lemma {:induction false} ValueInjective(a: string, b: string)
    requires AllDigits(a) && AllDigits(b) && |a| == |b| && Value(a) == Value(b)
    ensures a == b
  {
    if a != "" {
      var n := |a| - 1;
      ValueInjective(a[..n], b[..n]);
      assert a == a[..n] + [a[n]] && b == b[..n] + [b[n]];
    }
  }

  lemma {:induction false} StripShape(s: string)
    ensures s == StripZeros(s) + Zeros(|s| - |StripZeros(s)|)
    ensures StripZeros(s) != "" ==> StripZeros(s)[|StripZeros(s)| - 1] != '0'
  {
    if s != "" && s[|s| - 1] == '0' {
      StripShape(s[..|s| - 1]);
      assert s == s[..|s| - 1] + ['0'];
    }
  }

  lemma StripNonzero(p: string)
    requires AllDigits(p) && Value(p) > 0
    ensures StripZeros(p) != ""
  {
    StripShape(p);
    ZerosValue(|p|);
    assert "" + Zeros(|p|) == Zeros(|p|);
  }

  /** The fixed-width fraction digits of an amount. */
  lemma FractionDigits(m: nat, d: nat)
    requires m < Pow10(d) && d > 0
    ensures |Digits(m)| <= d
    ensures var p := PadStart(Digits(m), d); |p| == d && AllDigits(p) && Value(p) == m
  {
    hide *;
    DigitsFit(m, d);
    DigitsValue(m);
    var z := Zeros(d - |Digits(m)|);
    PadStartIs(Digits(m), d);
    ZerosValue(d - |Digits(m)|);
    ValueConcat(z, Digits(m));
    TimesZero(Pow10(|Digits(m)|));
  }

  lemma PadStartIs(s: string, d: nat)
    requires AllDigits(s) && |s| <= d
    ensures PadStart(s, d) == Zeros(d - |s|) + s && AllDigits(PadStart(s, d))
  {
    if |s| == d { assert Zeros(0) + s == s; }
  }

  lemma TimesZero(a: nat)
    ensures Times(0, a) == 0
  {
  }

  lemma SplitPoint(w: string, f: string)
    requires AllDigits(w) && AllDigits(f)
    ensures Whole(w) == w && Frac(w) == ""
    ensures Whole(w + "." + f) == w && Frac(w + "." + f) == f
  {
    assert Point(w) == |w| && w[..|w|] == w;
    var s := w + "." + f;
    assert s[|w|] == '.' && Point(s) == |w|;
    assert s[..|w|] == w && s[|w| + 1..] == f;
  }

  /** What the accepted text `s` (after trimming) is, read declaratively. */
  ghost predicate Spells(s: string, w: string, f: string) {
    AllDigits(w) && AllDigits(f) && (w != "" || f != "") && ((f == "" && s == w) || s == w + "." + f)
  }

  lemma SpellsDigits(s: string, w: string, f: string)
    requires Spells(s, w, f)
    ensures AllDigits(w) && AllDigits(f) && AllDigits(w + f)
  {
  }

  lemma NoTrim(s: string)
    requires forall i :: 0 <= i < |s| ==> Digit(s[i]) || s[i] == '.'
    ensures MoveTypes.Trim(s) == s
  {
    MoveTypes.TrimOfPlain(s);
  }

  lemma SpelledNoTrim(s: string, w: string, f: string)
    requires Spells(s, w, f)
    ensures MoveTypes.Trim(s) == s
  {
    NoTrim(s);
  }

  /** The accepted strings are exactly digits with at most one point, at least one digit
      and no more than `d` digits after the point. */
  lemma AcceptedIff(input: string, d: nat)
    ensures Parse(input, d).Amount? <==>
            exists w, f :: Spells(MoveTypes.Trim(input), w, f) && |f| <= d
  {
    var s := MoveTypes.Trim(input);
    if Parse(input, d).Amount? {
      if Point(s) < |s| {
        assert s == Whole(s) + "." + Frac(s);
      } else {
        assert s == Whole(s);
      }
      assert Spells(s, Whole(s), Frac(s));
    }
    if w, f :| Spells(s, w, f) && |f| <= d {
      SplitPoint(w, f);
      assert w == "" && s == w + "." + f ==> |s| == 1 + |f|;
    }
  }

  /** The amount, in terms of the digits on either side of the point. */
  lemma ParseSpelled(input: string, w: string, f: string, d: nat)
    requires Spells(MoveTypes.Trim(input), w, f) && |f| <= d && AllDigits(PadEnd(f, d))
    ensures Parse(input, d) == Amount(Times(Value(w), Pow10(d)) + Value(PadEnd(f, d)))
  {
    SplitPoint(w, f);
    AcceptedIff(input, d);
    hide *;
  }

  /** The parsed amount is the exact decimal value, `Value(w + f) / 10^|f|`, times `10^d`. */
  lemma ParsedExactly(input: string, w: string, f: string, d: nat)
    requires Spells(MoveTypes.Trim(input), w, f) && |f| <= d
    ensures Parse(input, d).Amount? && AllDigits(w + f)
    ensures Parse(input, d).raw * Pow10(|f|) == Value(w + f) * Pow10(d)
  {
    hide *;
    SpellsDigits(MoveTypes.Trim(input), w, f);
    ValueConcat(w, f);
    PaddedValue(f, d);
    ParseSpelled(input, w, f, d);
    Pow10Split(|f|, d - |f|);
    Distribute(Value(w), Value(f), Pow10(|f|), Pow10(d - |f|), Parse(input, d).raw, Value(w + f), Pow10(d));
  }

  lemma Distribute(w: nat, f: nat, p: nat, q: nat, raw: nat, both: nat, pq: nat)
    requires pq == Times(p, q) && raw == Times(w, pq) + Times(f, q) && both == Times(w, p) + f
    ensures raw * p == both * pq
  {
    assert (w * (p * q) + f * q) * p == (w * p + f) * (p * q);
  }

  lemma Pow10Split(a: nat, b: nat)
    ensures Pow10(a + b) == Times(Pow10(a), Pow10(b))
  {
    Pow10Sum(a, b);
  }

  lemma PowZero(d: nat)
    ensures Pow10(d) > 1 ==> d > 0
  {
  }

  lemma PaddedValue(f: string, d: nat)
    requires AllDigits(f) && |f| <= d
    ensures AllDigits(PadEnd(f, d)) && |PadEnd(f, d)| == d
    ensures Value(PadEnd(f, d)) == Times(Value(f), Pow10(d - |f|))
  {
    if |f| < d {
      ZerosValue(d - |f|);
      ValueConcat(f, Zeros(d - |f|));
    }
  }

  // ----- round trip -----

  /** The digits printed after the point: the fraction, without its trailing zeros. */
  function Places(raw: nat, d: nat): string { StripZeros(PadStart(Digits(Mod(raw, Pow10(d))), d)) }

  lemma PlacesPad(raw: nat, d: nat)
    ensures |Places(raw, d)| <= d && AllDigits(Places(raw, d)) && AllDigits(PadEnd(Places(raw, d), d))
    ensures Value(PadEnd(Places(raw, d), d)) == Mod(raw, Pow10(d))
    ensures d > 0 ==> PadEnd(Places(raw, d), d) == PadStart(Digits(Mod(raw, Pow10(d))), d)
  {
    DivMod(raw, Pow10(d));
    hide Mod, Div;
    if d > 0 { StrippedPads(Mod(raw, Pow10(d)), d); } else { NoPlaces(Mod(raw, Pow10(d)), d); }
  }

  /** Trailing zeros that were stripped come back as padding. */
  lemma StrippedPads(m: nat, d: nat)
    requires m < Pow10(d) && d > 0
    ensures var p := PadStart(Digits(m), d);
            |StripZeros(p)| <= d && AllDigits(StripZeros(p)) && AllDigits(p) && PadEnd(StripZeros(p), d) == p
            && Value(p) == m
  {
    hide Value, Pow10, PadStart, Digits;
    FractionDigits(m, d);
    StripShape(PadStart(Digits(m), d));
  }

  lemma NoPlaces(m: nat, d: nat)
    requires m < Pow10(d) && d == 0
    ensures StripZeros(PadStart(Digits(m), d)) == "" && m == 0
  {
    assert PadStart(Digits(m), d) == "0";
    StripShortest("0", 0);
  }

  /** How the formatted text is put together. */
  lemma FormatSpells(raw: nat, d: nat)
    ensures Spells(Format(raw, d), Digits(Div(raw, Pow10(d))), Places(raw, d))
    ensures |Format(raw, d)| == |Digits(Div(raw, Pow10(d)))| + if Places(raw, d) == "" then 0 else 1 + |Places(raw, d)|
  {
    PlacesPad(raw, d);
  }

  /** Parsing what was printed gives the amount back. */
  lemma ParseFormat(raw: nat, d: nat)
    ensures Parse(Format(raw, d), d) == Amount(raw)
  {
    hide *;
    FormatSpells(raw, d);
    SpelledNoTrim(Format(raw, d), Digits(Div(raw, Pow10(d))), Places(raw, d));
    PlacesPad(raw, d);
    DivMod(raw, Pow10(d));
    DigitsValue(Div(raw, Pow10(d)));
    ParseSpelled(Format(raw, d), Digits(Div(raw, Pow10(d))), Places(raw, d), d);
  }

  // ----- shortest spelling -----

  lemma {:induction false} StripShortest(p: string, n: nat)
    requires n <= |p| && forall i :: n <= i < |p| ==> p[i] == '0'
    ensures |StripZeros(p)| <= n
  {
    if n < |p| { StripShortest(p[..|p| - 1], n); }
  }

  /** No digits for the same fraction are fewer than those printed. */
  lemma PlacesShortest(f: string, raw: nat, d: nat)
    requires AllDigits(f) && |f| <= d && AllDigits(PadEnd(f, d)) && Value(PadEnd(f, d)) == Mod(raw, Pow10(d))
    ensures |Places(raw, d)| <= |f|
  {
    hide Div, Mod, Pow10, Value;
    PlacesPad(raw, d);
    if d > 0 {
      DivMod(raw, Pow10(d));
      FractionDigits(Mod(raw, Pow10(d)), d);
      ValueInjective(PadEnd(f, d), PadStart(Digits(Mod(raw, Pow10(d))), d));
      StripShortest(PadEnd(f, d), |f|);
    }
  }

  /** Every spelling of an amount has at least the digits that `Format` prints. */
  lemma SpellingParts(input: string, raw: nat, d: nat)
    requires Parse(input, d) == Amount(raw)
    ensures var s := MoveTypes.Trim(input);
            && (Whole(s) != "" ==> |Digits(Div(raw, Pow10(d)))| <= |Whole(s)|) && |Places(raw, d)| <= |Frac(s)|
            && (Whole(s) == "" ==> raw < Pow10(d))
  {
    hide *;
    var s := MoveTypes.Trim(input);
    var w, f := Whole(s), Frac(s);
    ParsedParts(input, raw, d);
    PartsUnique(Value(w), Value(PadEnd(f, d)), Pow10(d));
    if w != "" { DigitsShortest(w); }
    PlacesShortest(f, raw, d);
  }

  lemma ParsedParts(input: string, raw: nat, d: nat)
    requires Parse(input, d) == Amount(raw)
    ensures var s := MoveTypes.Trim(input); var w, f := Whole(s), Frac(s);
            && AllDigits(w) && AllDigits(f) && |f| <= d && AllDigits(PadEnd(f, d))
            && raw == Times(Value(w), Pow10(d)) + Value(PadEnd(f, d)) && Value(PadEnd(f, d)) < Pow10(d)
            && (w == "" ==> raw < Pow10(d))
  {
    var s := MoveTypes.Trim(input);
    var w, f := Whole(s), Frac(s);
    PaddedValue(f, d);
    ValueBound(PadEnd(f, d));
    assert Times(0, Pow10(d)) == 0;
  }

  lemma {:induction false} TrimShortens(s: string)
    ensures |MoveTypes.Trim(s)| <= |s|
  {
    TrimLeftShortens(s);
    TrimRightShortens(MoveTypes.TrimLeft(s));
  }
  lemma TrimLeftShortens(s: string)
    ensures |MoveTypes.TrimLeft(s)| <= |s|
  {
    if s != "" { TrimLeftShortens(s[1..]); }
  }
  lemma TrimRightShortens(s: string)
    ensures |MoveTypes.TrimRight(s)| <= |s|
  {
    if s != "" { TrimRightShortens(s[..|s| - 1]); }
  }

  /** Formatting is the shortest spelling among those with a digit before the point,
      and never more than one character longer than any spelling. */
  lemma NearlyShortest(input: string, raw: nat, d: nat)
    requires Parse(input, d) == Amount(raw)
    ensures |Format(raw, d)| <= |input| + 1
    ensures raw == 0 || raw >= Pow10(d) || Whole(MoveTypes.Trim(input)) != "" ==> |Format(raw, d)| <= |input|
  {
    hide Div, Mod, Pow10;
    var s := MoveTypes.Trim(input);
    TrimShortens(input);
    SpellingParts(input, raw, d);
    FormatSpells(raw, d);
    assert |s| == |Whole(s)| + if Point(s) < |s| then 1 + |Frac(s)| else 0;
    if raw < Pow10(d) {
      SmallParts(raw, Pow10(d));
      assert |Digits(0)| == 1;
    }
    if raw == 0 {
      ZeroFormat(d);
    }
  }

  lemma ZeroFormat(d: nat)
    ensures Format(0, d) == "0"
  {
    var p := PadStart(Digits(0), d);
    SmallParts(0, Pow10(d));
    hide Div, Mod, Pow10;
    assert Digits(0) == "0" && Mod(0, Pow10(d)) == 0 && Div(0, Pow10(d)) == 0;
    assert forall i :: 0 <= i < |p| ==> p[i] == '0';
    StripShortest(p, 0);
  }

  /** Below one whole unit the leading zero can be dropped: the printed text is then not shortest. */
  lemma LeadingZeroIsDispensable(raw: nat, d: nat) returns (t: string)
    requires 0 < raw < Pow10(d)
    ensures Parse(t, d) == Amount(raw) && |t| == |Format(raw, d)| - 1
  {
    hide Div, Mod, Pow10, PadEnd, PadStart;
    var f := Places(raw, d);
    SmallParts(raw, Pow10(d));
    PowZero(d);
    FormatSpells(raw, d);
    FractionDigits(raw, d);
    PlacesPad(raw, d);
    StripNonzero(PadStart(Digits(raw), d));
    t := "" + "." + f;
    NoTrim(t);
    SplitPoint("", f);
    assert Spells(t, "", f);
    AcceptedIff(t, d);
  }

  /** Formatting gives a shortest spelling exactly for zero and for amounts of at least one unit. */
  lemma ShortestIff(raw: nat, d: nat)
    ensures (forall t :: Parse(t, d) == Amount(raw) ==> |Format(raw, d)| <= |t|) <==> raw == 0 || raw >= Pow10(d)
  {
    if raw == 0 || raw >= Pow10(d) {
      forall t | Parse(t, d) == Amount(raw)
        ensures |Format(raw, d)| <= |t|
      {
        NearlyShortest(t, raw, d);
      }
    } else {
      var t := LeadingZeroIsDispensable(raw, d);
    }
  }
}
