/**
 The numbers of the search indexes.  A float64 is represented by the shortest decimal that
 denotes it, which is what `strconv.FormatFloat(v, 'f', -1, 64)` prints; distinct finite
 floats have distinct shortest decimals in the same order.
 */
module Decimals {
  import opened Strings
  import opened Options

  predicate Digits(s: string) { forall i :: 0 <= i < |s| ==> '0' <= s[i] <= '9' }

  /** `fraction` holds the digits after the point; negative zero is a value of its own. */
  datatype Decimal = Decimal(negative: bool, whole: nat, fraction: string) {
    predicate Valid() { Digits(fraction) }

    /** The number denoted; comparisons are made on it. */
    function Value(): real
      requires Valid()
    {
      var m := whole as real + FractionValue(fraction);
      if negative then -m else m
    }
  }

  function FractionValue(f: string): real
    requires Digits(f)
  {
    if f == [] then 0.0 else (DigitValue(f[0]) as real + FractionValue(f[1..])) / 10.0
  }

  function DigitValue(c: char): nat
    requires '0' <= c <= '9'
  {
    c as int - '0' as int
  }

  function DigitChar(d: nat): (c: char)
    requires d < 10
    ensures '0' <= c <= '9' && DigitValue(c) == d
  {
    ('0' as int + d) as char
  }

  function NatText(n: nat): (s: string)
    ensures s != [] && Digits(s)
  {
    if n < 10 then [DigitChar(n)] else NatText(n / 10) + [DigitChar(n % 10)]
  }

  function NatValue(s: string): nat
    requires Digits(s)
  {
    if s == [] then 0 else NatValue(s[..|s| - 1]) * 10 + DigitValue(s[|s| - 1])
  }

  function Print(d: Decimal): string {
    (if d.negative then "-" else "") + NatText(d.whole) + (if d.fraction == "" then "" else "." + d.fraction)
  }

  function IntText(n: int): string { if n < 0 then "-" + NatText(-n) else NatText(n) }

  /** `strconv.ParseFloat` on the notation that `Print` writes. */
  function Parse(s: string): (r: Option<Decimal>)
    ensures r.Some? ==> r.value.Valid()
  {
    if s != [] && s[0] == '-' then ParseUnsigned(true, s[1..]) else ParseUnsigned(false, s)
  }

  function ParseUnsigned(negative: bool, s: string): (r: Option<Decimal>)
    ensures r.Some? ==> r.value.Valid()
  {
    var parts := Split(s, ".");
    if parts[0] == [] || !Digits(parts[0]) then None
    else if |parts| == 1 then Some(Decimal(negative, NatValue(parts[0]), ""))
    else if |parts| == 2 && parts[1] != [] && Digits(parts[1]) then Some(Decimal(negative, NatValue(parts[0]), parts[1]))
    else None
  }

  lemma {:induction false} NatRoundTrip(n: nat)
    ensures NatValue(NatText(n)) == n
  {
    if n >= 10 {
      NatRoundTrip(n / 10);
      assert NatText(n)[..|NatText(n)| - 1] == NatText(n / 10);
    }
  }

  lemma ParseWhole(negative: bool, n: nat)
    ensures ParseUnsigned(negative, NatText(n)) == Some(Decimal(negative, n, ""))
  {
    NatRoundTrip(n);
    NoSplit(NatText(n), '.');
  }

  lemma ParsePoint(negative: bool, n: nat, f: string)
    requires f != "" && Digits(f)
    ensures ParseUnsigned(negative, NatText(n) + "." + f) == Some(Decimal(negative, n, f))
  {
    var w := NatText(n);
    NatRoundTrip(n);
    IndexChar(w, '.', f);
    SplitAt(w, ".", f);
    NoSplit(f, '.');
    assert Split(w + "." + f, ".") == [w, f];
  }

  lemma ParseSign(negative: bool, body: string)
    requires body != [] && body[0] != '-'
    ensures Parse((if negative then "-" else "") + body) == ParseUnsigned(negative, body)
  {
    assert ("-" + body)[1..] == body && "" + body == body;
  }

  /** Parsing undoes printing. */
  lemma PrintParse(d: Decimal)
    requires d.Valid()
    ensures Parse(Print(d)) == Some(d)
  {
    hide Parse, ParseUnsigned, NatText;
    var w := NatText(d.whole);
    var body := w + (if d.fraction == "" then "" else "." + d.fraction);
    ParseSign(d.negative, body);
    assert Print(d) == (if d.negative then "-" else "") + body;
    if d.fraction == "" {
      assert body == w;
      ParseWhole(d.negative, d.whole);
    } else {
      assert body == w + "." + d.fraction;
      ParsePoint(d.negative, d.whole, d.fraction);
    }
  }

  /** A printed number is free of every character the index members use as punctuation. */
  lemma PrintChars(d: Decimal, c: char)
    requires d.Valid() && c !in "-." && !('0' <= c <= '9')
    ensures c !in Print(d)
  {
  }

  // ---------------------------------------------------------------- order by digits

  lemma {:induction false} FractionRange(f: string)
    requires Digits(f)
    ensures 0.0 <= FractionValue(f) < 1.0
  {
    if f != [] { FractionRange(f[1..]); }
  }

  /** The order of two fractions, digit by digit; missing digits are zeros. */
  predicate FractionBelow(f: string, g: string)
    decreases |g|
  {
    if g == [] then false
    else if f == [] then g[0] != '0' || FractionBelow([], g[1..])
    else if f[0] != g[0] then f[0] < g[0]
    else FractionBelow(f[1..], g[1..])
  }

  lemma {:induction false} FractionOrder(f: string, g: string)
    requires Digits(f) && Digits(g)
    ensures FractionValue(f) < FractionValue(g) <==> FractionBelow(f, g)
    decreases |g|
  {
    FractionRange(f);
    FractionRange(g);
    if g != [] {
      FractionRange(g[1..]);
      if f == [] {
        FractionOrder([], g[1..]);
      } else {
        FractionRange(f[1..]);
        FractionOrder(f[1..], g[1..]);
      }
    }
  }

  /** The order of two numbers without their signs. */
  predicate SizeBelow(a: Decimal, b: Decimal) {
    a.whole < b.whole || (a.whole == b.whole && FractionBelow(a.fraction, b.fraction))
  }

  predicate IsZero(a: Decimal) { a.whole == 0 && forall i :: 0 <= i < |a.fraction| ==> a.fraction[i] == '0' }

  /** The order of two numbers, from signs and digits alone. */
  predicate Less(a: Decimal, b: Decimal) {
    if a.negative then if b.negative then SizeBelow(b, a) else !IsZero(a) || !IsZero(b)
    else !b.negative && SizeBelow(a, b)
  }

  lemma {:induction false} FractionZero(f: string)
    requires Digits(f)
    ensures FractionValue(f) == 0.0 <==> forall i :: 0 <= i < |f| ==> f[i] == '0'
  {
    if f != [] {
      FractionRange(f[1..]);
      FractionZero(f[1..]);
      assert forall i :: 0 < i < |f| ==> f[i] == f[1..][i - 1];
    }
  }

  /** The values of two numbers are ordered as their digits are. */
  lemma ValueOrder(a: Decimal, b: Decimal)
    requires a.Valid() && b.Valid()
    ensures a.Value() < b.Value() <==> Less(a, b)
  {
    FractionRange(a.fraction);
    FractionRange(b.fraction);
    FractionOrder(a.fraction, b.fraction);
    FractionOrder(b.fraction, a.fraction);
    FractionZero(a.fraction);
    FractionZero(b.fraction);
  }

  /** An integer is printed as the number it is. */
  lemma IntTextParses(n: int)
    ensures Parse(IntText(n)).Some? && Parse(IntText(n)).value.Value() == n as real
  {
    var m := if n < 0 then -n else n;
    ParseSign(n < 0, NatText(m));
    ParseWhole(n < 0, m);
    assert IntText(n) == (if n < 0 then "-" else "") + NatText(m);
  }

  /** Moves the point n places to the right. */
  function Up(d: nat, n: nat): nat { if n == 0 then d else 10 * Up(d, n - 1) }

  function Scaled(x: real, n: nat): real { if n == 0 then x else 10.0 * Scaled(x, n - 1) }

  lemma {:induction false} ScaledSum(x: real, y: real, n: nat)
    ensures Scaled(x + y, n) == Scaled(x, n) + Scaled(y, n)
  {
    if n > 0 { ScaledSum(x, y, n - 1); }
  }

  lemma {:induction false} ScaledTenth(x: real, n: nat)
    ensures Scaled(x / 10.0, n + 1) == Scaled(x, n)
  {
    if n > 0 { ScaledTenth(x, n - 1); }
  }

  lemma {:induction false} ScaledUp(d: nat, n: nat)
    ensures Scaled(d as real, n) == Up(d, n) as real
  {
    if n > 0 { ScaledUp(d, n - 1); }
  }

  /** The first digit counts for all the places behind it. */
  lemma {:induction false} NatHead(s: string)
    requires Digits(s) && s != []
    ensures NatValue(s) == Up(DigitValue(s[0]), |s| - 1) + NatValue(s[1..])
    decreases |s|
  {
    if |s| == 1 {
      assert s[..0] == [];
    } else {
      var n := |s| - 1;
      var t := s[1..];
      NatHead(s[..n]);
      assert s[..n][1..] == t[..n - 1] && t[n - 1] == s[n] && s[..n][0] == s[0];
    }
  }

  /** A fraction of n digits is their number, with the point moved n places. */
  lemma {:induction false} FractionDigits(f: string)
    requires Digits(f)
    ensures Scaled(FractionValue(f), |f|) == NatValue(f) as real
  {
    if f != [] {
      var n, d, r := |f| - 1, DigitValue(f[0]), FractionValue(f[1..]);
      FractionDigits(f[1..]);
      NatHead(f);
      ScaledTenth(d as real + r, n);
      ScaledSum(d as real, r, n);
      ScaledUp(d, n);
    }
  }
}
