/** Numbers and the hexadecimal digits that spell them. */
module HexNumbers {
  import opened Chars

  predicate HexDigit(c: char) { '0' <= c <= '9' || 'a' <= c <= 'f' || 'A' <= c <= 'F' }

  predicate AllHex(s: string) { forall i :: 0 <= i < |s| ==> HexDigit(s[i]) }

  function DigitValue(c: char): (v: nat)
    requires HexDigit(c)
    ensures v < 16
  {
    if c <= '9' then (c - '0') as nat else if c <= 'F' then (c - 'A') as nat + 10 else (c - 'a') as nat + 10
  }

  /** The number that hexadecimal digits spell, the last one counting ones. */
  function HexValue(s: string): nat
    requires AllHex(s)
  {
    if s == "" then 0 else 16 * HexValue(s[..|s| - 1]) + DigitValue(s[|s| - 1])
  }

  /** The lower-case digit for a value. */
  function DigitOf(v: nat): (c: char)
    requires v < 16
    ensures HexDigit(c) && Lower(c) == c && DigitValue(c) == v
  {
    if v < 10 then '0' + v as char else 'a' + (v - 10) as char
  }

  function Pow16(w: nat): (r: nat)
    ensures r > 0
  {
    if w == 0 then 1 else 16 * Pow16(w - 1)
  }

  /** The lower-case digits of `n`, `width` of them. */
  function Hex(n: nat, width: nat): (s: string)
    requires n < Pow16(width)
    ensures |s| == width && AllHex(s)
  {
    if width == 0 then "" else Hex(n / 16, width - 1) + [DigitOf(n % 16)]
  }

  lemma {:induction false} HexIsLower(n: nat, width: nat)
    requires n < Pow16(width)
    ensures LowerAll(Hex(n, width)) == Hex(n, width)
  {
    if width > 0 {
      HexIsLower(n / 16, width - 1);
      var h := Hex(n / 16, width - 1);
      assert forall i :: 0 <= i < |h| ==> Lower(h[i]) == LowerAll(h)[i];
    }
  }

  lemma {:induction false} HexValueBound(s: string)
    requires AllHex(s)
    ensures HexValue(s) < Pow16(|s|)
  {
    if s != "" { HexValueBound(s[..|s| - 1]); }
  }

  /** The digits of a number spell it. */
  lemma {:induction false} ValueOfHex(n: nat, width: nat)
    requires n < Pow16(width)
    ensures HexValue(Hex(n, width)) == n
  {
    if width > 0 {
      ValueOfHex(n / 16, width - 1);
      var h := Hex(n / 16, width - 1);
      assert (h + [DigitOf(n % 16)])[..width - 1] == h;
    }
  }

  /** Lower-case digits are the digits of the number they spell. */
  lemma {:induction false} HexOfValue(s: string)
    requires AllHex(s) && LowerAll(s) == s
    ensures HexValue(s) < Pow16(|s|) && Hex(HexValue(s), |s|) == s
  {
    HexValueBound(s);
    if s != "" {
      var t, c := s[..|s| - 1], s[|s| - 1];
      LowerParts(s);
      HexOfValue(t);
      assert s == t + [c];
      DigitOfValue(c);
      LastDigit(HexValue(t), DigitValue(c));
      hide HexValue, DigitValue, DigitOf;
    }
  }

  lemma LastDigit(v: nat, d: nat)
    requires d < 16
    ensures (16 * v + d) / 16 == v && (16 * v + d) % 16 == d
  {
  }

  lemma {:induction false} Pow16Grows(v: nat, w: nat)
    requires v <= w
    ensures Pow16(v) <= Pow16(w)
    decreases w - v
  {
    if v < w { Pow16Grows(v + 1, w); }
  }

  lemma LowerParts(s: string)
    requires s != "" && LowerAll(s) == s
    ensures LowerAll(s[..|s| - 1]) == s[..|s| - 1] && Lower(s[|s| - 1]) == s[|s| - 1]
  {
    assert forall i :: 0 <= i < |s| ==> Lower(s[i]) == LowerAll(s)[i];
  }

  lemma DigitOfValue(c: char)
    requires HexDigit(c) && Lower(c) == c
    ensures DigitOf(DigitValue(c)) == c
  {
  }

  /** Upper and lower case spell the same number. */
  lemma {:induction false} LowerValue(s: string)
    requires AllHex(s)
    ensures AllHex(LowerAll(s)) && HexValue(LowerAll(s)) == HexValue(s)
  {
    if s != "" {
      var t, c := s[..|s| - 1], s[|s| - 1];
      LowerValue(t);
      assert LowerAll(s)[..|s| - 1] == LowerAll(t);
      assert DigitValue(Lower(c)) == DigitValue(c);
    }
  }

  /** Leading zeros change nothing. */
  lemma {:induction false} PaddedValue(k: nat, s: string)
    requires AllHex(s)
    ensures AllHex(Zeros(k) + s) && HexValue(Zeros(k) + s) == HexValue(s)
    decreases k + |s|
  {
    var p := Zeros(k) + s;
    if s != "" {
      PaddedValue(k, s[..|s| - 1]);
      assert p[..|p| - 1] == Zeros(k) + s[..|s| - 1];
    } else if k > 0 {
      PaddedValue(k - 1, s);
      assert p[..|p| - 1] == Zeros(k - 1) + s;
    }
  }

  /** Lower case and leading zeros turn digits into the digits, `width` of them, of the number they spell. */
  lemma PaddedDigits(s: string, width: nat)
    requires AllHex(s) && |s| <= width
    ensures var p := Zeros(width - |s|) + LowerAll(s);
            HexValue(s) < Pow16(width) && Hex(HexValue(s), width) == p
  {
    hide HexValue, Hex, Pow16, AllHex;
    var p := Zeros(width - |s|) + LowerAll(s);
    LowerValue(s);
    PaddedValue(width - |s|, LowerAll(s));
    assert LowerAll(p) == p by { PaddedIsLower(width - |s|, s); }
    HexOfValue(p);
  }

  lemma PaddedIsLower(k: nat, s: string)
    ensures var p := Zeros(k) + LowerAll(s); LowerAll(p) == p
  {
  }
}
