/** Reading a display price such as "$24.99" as a number, as the cart total
    does: delete every character outside `0-9 . -`, then `parseFloat`; and
    `Math.round` for the amount sent to the payment backend. A `None` value
    stands for JavaScript's NaN. Arithmetic is exact (reals), not binary64. */
module Price {
  import opened Wrappers
  import opened Text
  import Seqs

  /** The characters `replace(/[^0-9.-]+/g, '')` keeps. */
  predicate IsPriceChar(c: char) { IsDigit(c) || c == '.' || c == '-' }

  predicate AllPriceChars(s: string) { forall i :: 0 <= i < |s| ==> IsPriceChar(s[i]) }

  /** `price.replace(/[^0-9.-]+/g, '')`: exactly the price characters, in order. */
  function StripPrice(s: string): (r: string)
    ensures AllPriceChars(r)
    ensures Seqs.IsSubsequence(r, s)
    ensures forall i :: 0 <= i < |s| && IsPriceChar(s[i]) ==> s[i] in r
    ensures AllPriceChars(s) ==> r == s
    ensures (forall i :: 0 <= i < |s| ==> !IsPriceChar(s[i])) ==> r == []
  {
    Seqs.Filter(s, IsPriceChar)
  }

  /** Stripping is idempotent. */
  lemma StripPriceIdempotent(s: string)
    ensures StripPrice(StripPrice(s)) == StripPrice(s)
  {
  }

  /** Stripping works piecewise, so every deleted character is deleted wherever it stands. */
  lemma StripPriceAppend(a: string, b: string)
    ensures StripPrice(a + b) == StripPrice(a) + StripPrice(b)
  {
    Seqs.FilterAppend(a, b, IsPriceChar);
  }

  /** A currency label in front of the amount is dropped whole. */
  lemma StripPriceDropsLabel(s: string, tag: string, amount: string)
    requires forall i :: 0 <= i < |tag| ==> !IsPriceChar(tag[i])
    requires AllPriceChars(amount)
    requires s == tag + amount
    ensures StripPrice(s) == amount
  {
    StripPriceAppend(tag, amount);
  }

  /** A label in front and a separator between two groups of digits are
      both dropped: the groups are joined. */
  lemma StripPriceDropsSeparator(s: string, tag: string, a: string, sep: string, b: string)
    requires forall i :: 0 <= i < |tag| ==> !IsPriceChar(tag[i])
    requires forall i :: 0 <= i < |sep| ==> !IsPriceChar(sep[i])
    requires AllPriceChars(a) && AllPriceChars(b)
    requires s == tag + (a + (sep + b))
    ensures StripPrice(s) == a + b
  {
    StripPriceDropsLabel(sep + b, sep, b);
    StripPriceAppend(a, sep + b);
    StripPriceAppend(tag, a + (sep + b));
  }

  // ---------------------------------------------------------------- parseFloat

  predicate Negative(s: string) { |s| > 0 && s[0] == '-' }

  function Unsigned(s: string): string { if Negative(s) then s[1..] else s }

  /** A decimal literal can start here: a digit, or a point followed by a digit. */
  predicate StartsNumeric(b: string) {
    || (|b| > 0 && IsDigit(b[0]))
    || (|b| > 1 && b[0] == '.' && IsDigit(b[1]))
  }

  /** The length of the longest prefix of `s` made of digits. */
  function DigitRun(s: string): (n: nat)
    ensures n <= |s|
    ensures AllDigits(s[..n])
    ensures n < |s| ==> !IsDigit(s[n])
    decreases |s|
  {
    if |s| > 0 && IsDigit(s[0]) then
      var n := 1 + DigitRun(s[1..]);
      assert s[..n] == [s[0]] + s[1..][..n - 1];
      n
    else 0
  }

  /** The value of the digits after a decimal point: "25" is 0.25. */
  function FractionValue(fs: string): (v: real)
    requires AllDigits(fs)
    ensures 0.0 <= v < 1.0
    decreases |fs|
  {
    if |fs| == 0 then 0.0
    else (DigitValue(fs[0]) as real + FractionValue(fs[1..])) / 10.0
  }

  /** The value of the decimal numeral `ints.fracs`. */
  function DecimalValue(ints: string, fracs: string): real
    requires AllDigits(ints) && AllDigits(fracs)
  {
    DigitsValue(ints) as real + FractionValue(fracs)
  }

  /** The digits after a leading decimal point of `rest`, if it has one. */
  function FractionDigits(rest: string): (fs: string)
    ensures AllDigits(fs)
  {
    if |rest| > 0 && rest[0] == '.' then rest[1..][..DigitRun(rest[1..])] else ""
  }

  /** The magnitude `parseFloat` reads from the front of an unsigned string:
      the longest prefix of the form `digits [. digits]` or `. digits`. */
  function ParseUnsigned(b: string): (r: Option<real>)
    ensures r.None? <==> !StartsNumeric(b)
    ensures r.Some? ==> r.value >= 0.0
  {
    var n := DigitRun(b);
    var fracs := FractionDigits(b[n..]);
    assert n == 0 ==> b[n..] == b;
    if n == 0 && |fracs| == 0 then None
    else Some(DigitsValue(b[..n]) as real + FractionValue(fracs))
  }

  /** `parseFloat` on a string that holds only price characters (the only
      strings the cart passes it): an optional '-' and the longest numeric
      prefix after it; the rest is ignored. No numeric prefix gives NaN
      (`None`). */
  function ParseNumber(s: string): (r: Option<real>)
    requires AllPriceChars(s)
    ensures r.None? <==> !StartsNumeric(Unsigned(s))
    ensures r.Some? && !Negative(s) ==> r.value >= 0.0
  {
    match ParseUnsigned(Unsigned(s))
    case None => None
    case Some(m) => Some(if Negative(s) then -m else m)
  }

  lemma {:induction false} DigitRunAppend(ds: string, t: string)
    requires AllDigits(ds)
    requires |t| == 0 || !IsDigit(t[0])
    ensures DigitRun(ds + t) == |ds|
    decreases |ds|
  {
    if |ds| > 0 {
      assert (ds + t)[1..] == ds[1..] + t;
      DigitRunAppend(ds[1..], t);
    } else {
      assert ds + t == t;
    }
  }

  function SignText(neg: bool): string { if neg then "-" else "" }

  /** The value a sign gives a magnitude. */
  function Signed(neg: bool, v: real): real { if neg then -v else v }

  lemma AllPriceCharsAppend(a: string, b: string)
    requires AllPriceChars(a) && AllPriceChars(b)
    ensures AllPriceChars(a + b)
  {
    forall i | 0 <= i < |a + b| ensures IsPriceChar((a + b)[i]) {
      if i >= |a| { assert (a + b)[i] == b[i - |a|]; }
    }
  }

  lemma UnsignedOfSigned(neg: bool, b: string)
    requires |b| == 0 || b[0] != '-'
    ensures Negative(SignText(neg) + b) == neg && Unsigned(SignText(neg) + b) == b
  {
    if neg { assert ("-" + b)[1..] == b; }
  }

  /** The fraction digits `FractionDigits` reads after a point are exactly
      those up to the first non-digit. */
  lemma FractionDigitsOf(rest: string, fracs: string, tail: string)
    requires AllDigits(fracs)
    requires |tail| == 0 || !IsDigit(tail[0])
    requires rest == "." + fracs + tail
    ensures FractionDigits(rest) == fracs
  {
    assert rest[1..] == fracs + tail;
    DigitRunAppend(fracs, tail);
    assert (fracs + tail)[..|fracs|] == fracs;
  }

  /** `parseFloat`'s reading from the positions of its integer and fraction parts. */
  lemma ParseUnsignedParts(b: string, ints: string, fracs: string)
    requires AllDigits(ints) && AllDigits(fracs)
    requires |ints| + |fracs| > 0
    requires DigitRun(b) == |ints| && b[..|ints|] == ints
    requires FractionDigits(b[|ints|..]) == fracs
    ensures ParseUnsigned(b) == Some(DigitsValue(ints) as real + FractionValue(fracs))
  {
  }

  /** `ints.fracs` followed by anything that does not continue the number
      has the exact decimal value. */
  lemma ParseUnsignedDecimal(b: string, ints: string, fracs: string, tail: string)
    requires AllDigits(ints) && AllDigits(fracs)
    requires |ints| + |fracs| > 0
    requires |tail| == 0 || !IsDigit(tail[0])
    requires b == ints + ("." + fracs + tail)
    ensures ParseUnsigned(b) == Some(DigitsValue(ints) as real + FractionValue(fracs))
  {
    var rest := "." + fracs + tail;
    FractionDigitsOf(rest, fracs, tail);
    DigitRunAppend(ints, rest);
    assert b[|ints|..] == rest;
    assert b[..|ints|] == ints;
    ParseUnsignedParts(b, ints, fracs);
  }

  /** A non-empty digit string followed by neither a digit nor a point reads as an integer. */
  lemma ParseUnsignedInteger(b: string, ints: string, tail: string)
    requires AllDigits(ints) && |ints| > 0
    requires |tail| == 0 || (!IsDigit(tail[0]) && tail[0] != '.')
    requires b == ints + tail
    ensures ParseUnsigned(b) == Some(DigitsValue(ints) as real)
  {
    DigitRunAppend(ints, tail);
    assert b[|ints|..] == tail;
    assert b[..|ints|] == ints;
    assert FractionDigits(tail) == "";
    assert FractionValue("") == 0.0;
  }

  /** The sign in front of an unsigned numeral negates what it reads. */
  lemma ParseSigned(s: string, neg: bool, b: string, v: real)
    requires AllPriceChars(s)
    requires |b| == 0 || b[0] != '-'
    requires s == SignText(neg) + b
    requires ParseUnsigned(b) == Some(v)
    ensures ParseNumber(s) == Some(Signed(neg, v))
  {
    UnsignedOfSigned(neg, b);
  }

  lemma DecimalBody(b: string, ints: string, fracs: string, tail: string)
    requires AllDigits(ints) && AllDigits(fracs) && AllPriceChars(tail)
    requires b == ints + ("." + fracs + tail)
    ensures AllPriceChars(b) && (|b| == 0 || b[0] != '-')
  {
    var rest := "." + fracs + tail;
    AllPriceCharsAppend(".", fracs);
    AllPriceCharsAppend("." + fracs, tail);
    AllPriceCharsAppend(ints, rest);
    assert b[0] == if |ints| > 0 then ints[0] else '.';
  }

  /** A well-formed decimal `[-]ints.fracs` followed by anything that does
      not continue the number parses to its exact value. */
  lemma ParseDecimal(s: string, neg: bool, ints: string, fracs: string, tail: string)
    requires AllDigits(ints) && AllDigits(fracs) && AllPriceChars(tail)
    requires |ints| + |fracs| > 0
    requires |tail| == 0 || !IsDigit(tail[0])
    requires s == SignText(neg) + (ints + ("." + fracs + tail))
    ensures AllPriceChars(s)
    ensures ParseNumber(s) == Some(Signed(neg, DecimalValue(ints, fracs)))
  {
    var b := ints + ("." + fracs + tail);
    var v := DecimalValue(ints, fracs);
    assert AllPriceChars(b) && (|b| == 0 || b[0] != '-') && ParseUnsigned(b) == Some(v) by {
      DecimalBody(b, ints, fracs, tail);
      ParseUnsignedDecimal(b, ints, fracs, tail);
    }
    AllPriceCharsAppend(SignText(neg), b);
    ParseSigned(s, neg, b, v);
  }

  /** A digit string `[-]ints` followed by something that is neither a digit
      nor a point parses to the integer it denotes. */
  lemma ParseInteger(s: string, neg: bool, ints: string, tail: string)
    requires AllDigits(ints) && AllPriceChars(tail)
    requires |ints| > 0
    requires |tail| == 0 || (!IsDigit(tail[0]) && tail[0] != '.')
    requires s == SignText(neg) + (ints + tail)
    ensures AllPriceChars(s)
    ensures ParseNumber(s) == Some(Signed(neg, DigitsValue(ints) as real))
  {
    var b := ints + tail;
    AllPriceCharsAppend(ints, tail);
    AllPriceCharsAppend(SignText(neg), b);
    ParseUnsignedInteger(b, ints, tail);
    ParseSigned(s, neg, b, DigitsValue(ints) as real);
  }

  /** Reading back a printed integer, as `parseFloat(String(n))` does, gives `n`. */
  lemma ParsePrintedInteger(n: int)
    ensures AllPriceChars(IntToString(n))
    ensures ParseNumber(IntToString(n)) == Some(n as real)
  {
    var m: nat := if n < 0 then -n else n;
    ParseInteger(IntToString(n), n < 0, NatToString(m), "");
    NatToStringValue(m);
  }

  /** The price a display string denotes, NaN (`None`) when it has no numeric part. */
  function UnitPrice(display: string): (r: Option<real>)
    ensures r.None? <==> !StartsNumeric(Unsigned(StripPrice(display)))
    ensures r.Some? && !Negative(StripPrice(display)) ==> r.value >= 0.0
  {
    ParseNumber(StripPrice(display))
  }

  // ---------------------------------------------------------------- Math.round

  /** `Math.round(x)`: the nearest integer, halves rounded up. */
  function MathRound(x: real): (r: int)
    ensures x - 0.5 < r as real <= x + 0.5
  {
    (x + 0.5).Floor
  }

  /** `Math.round` of a possibly NaN number; NaN stays NaN. */
  function RoundAmount(t: Option<real>): (r: Option<int>)
    ensures r.Some? <==> t.Some?
    ensures t.Some? ==> t.value - 0.5 < r.value as real <= t.value + 0.5
  {
    match t
    case None => None
    case Some(x) => Some(MathRound(x))
  }

  // ---------------------------------------------------------------- examples

  lemma DigitsValueExamples()
    ensures DigitsValue("24") == 24
    ensures DigitsValue("1500") == 1500
  {
    assert "24"[..1] == "2" && "2"[..0] == "";
    assert "1500"[..3] == "150" && "150"[..2] == "15" && "15"[..1] == "1" && "1"[..0] == "";
  }

  lemma FractionValueExample()
    ensures FractionValue("99") == 0.99
  {
    assert "99"[1..] == "9" && "9"[1..] == "";
  }

  lemma StripDollars(display: string)
    requires display == "$24.99"
    ensures StripPrice(display) == "24.99"
  {
    StripPriceDropsLabel(display, "$", "24.99");
  }

  lemma ParseDollars(amount: string)
    requires amount == "24.99"
    ensures ParseNumber(amount) == Some(24.99)
  {
    DigitsValueExamples();
    FractionValueExample();
    ParseDecimal(amount, false, "24", "99", "");
  }

  /** The grid's "$24.99" costs 24.99. */
  lemma UnitPriceDollars(display: string)
    requires display == "$24.99"
    ensures UnitPrice(display) == Some(24.99)
  {
    StripDollars(display);
    ParseDollars(StripPrice(display));
  }

  lemma StripThousands(display: string)
    requires display == "XAF 1,500"
    ensures StripPrice(display) == "1500"
  {
    var tag, a, sep, b := "XAF ", "1", ",", "500";
    assert a + b == "1500";
    assert display == tag + (a + (sep + b));
    StripPriceDropsSeparator(display, tag, a, sep, b);
  }

  lemma ParseThousands(amount: string)
    requires amount == "1500"
    ensures ParseNumber(amount) == Some(1500.0)
  {
    DigitsValueExamples();
    ParseInteger(amount, false, "1500", "");
  }

  /** The thousands separator is deleted, not read as a decimal point: "XAF 1,500" costs 1500. */
  lemma UnitPriceThousands(display: string)
    requires display == "XAF 1,500"
    ensures UnitPrice(display) == Some(1500.0)
  {
    StripThousands(display);
    ParseThousands(StripPrice(display));
  }
}
