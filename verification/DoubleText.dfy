/**
 * The text of a double as it goes on the wire, and a reader for decimal text to judge it by: the
 * text of every finite double reads back as that double.
 */
module DoubleText {
  import opened Options
  import opened Powers
  import opened Decimal
  import opened Binary64
  import DigitGen
  import CachedPowers
  import Grisu
  import opened Words

  // ---- reading decimal text --------------------------------------------------------------------

  /** `mantissa * 10^exponent`, with a sign. */
  datatype Number = Number(negative: bool, mantissa: nat, exponent: int)

  datatype Scan = Scan(mantissa: nat, places: nat, rest: string)

  /** Digits and at most one point, from the left; `places` counts the digits after the point. */
  function ScanDigits(s: string, acc: nat, places: nat, point: bool): Scan {
    if s == "" then Scan(acc, places, "")
    else if IsDigit(s[0]) then
      ScanDigits(s[1..], 10 * acc + DigitValue(s[0]), if point then places + 1 else places, point)
    else if s[0] == '.' && !point then ScanDigits(s[1..], acc, places, true)
    else Scan(acc, places, s)
  }

  /** Nothing, or `e`, a sign and digits. */
  function ReadExponent(s: string): Option<int> {
    if s == "" then Some(0)
    else if |s| > 2 && s[0] == 'e' && s[1] in "+-" && AllDigits(s[2..]) then
      Some(if s[1] == '-' then 0 - Value(s[2..]) else Value(s[2..]))
    else None
  }

  function ReadDecimal(s: string): Option<Number> {
    var negative := s != "" && s[0] == '-';
    var body := if negative then s[1..] else s;
    if body == "" || !IsDigit(body[0]) then None
    else
      var scan := ScanDigits(body, 0, 0, false);
      match ReadExponent(scan.rest)
      case None => None
      case Some(e) => Some(Number(negative, scan.mantissa, e - scan.places))
  }

  /** A run of digits extends the number read so far, here spelled `prefix`. */
  lemma {:induction false} ScanRun(prefix: string, ds: string, rest: string, places: nat, point: bool)
    requires AllDigits(prefix) && AllDigits(ds)
    ensures ScanDigits(ds + rest, Value(prefix), places, point) ==
      ScanDigits(rest, Value(prefix + ds), if point then places + |ds| else places, point)
    decreases |ds|
  {
    if |ds| == 0 {
      assert ds + rest == rest && prefix + ds == prefix;
    } else {
      var c, tail := ds[0], ds[1..];
      assert (ds + rest)[0] == c && (ds + rest)[1..] == tail + rest;
      ValueAppend(prefix, c);
      ScanRun(prefix + [c], tail, rest, if point then places + 1 else places, point);
      assert prefix + [c] + tail == prefix + ds;
    }
  }

  /** A sign in front is all that changes. */
  lemma ReadSigned(negative: bool, body: string, scan: Scan, e: int)
    requires body != "" && IsDigit(body[0])
    requires ScanDigits(body, 0, 0, false) == scan && ReadExponent(scan.rest) == Some(e)
    ensures ReadDecimal(Sign(negative) + body) == Some(Number(negative, scan.mantissa, e - scan.places))
  {
    if negative {
      assert ("-" + body)[1..] == body;
    } else {
      assert "" + body == body;
    }
  }

  // ---- the three layouts -----------------------------------------------------------------------

  function Zeros(n: nat): string {
    seq(n, _ => '0')
  }

  /** `e`, a sign, and the exponent without padding. */
  function Suffix(e: int): string {
    "e" + (if e < 0 then "-" else "+") + Numeral(DigitGen.Abs(e))
  }

  function Sign(negative: bool): string {
    if negative then "-" else ""
  }

  datatype Shape = Plain | Small | Fixed | Exponential

  /** Which layout `n` digits times `10^k` get: plain while short, fixed point near one, else scientific. */
  function ShapeOf(n: nat, k: int): Shape {
    var magnitude := DigitGen.Abs(k + n - 1);
    if k >= 0 && magnitude < n + 7 then Plain
    else if k < 0 && (k > -7 || magnitude < 4) then (if n + k <= 0 then Small else Fixed)
    else Exponential
  }

  function Layout(negative: bool, ds: string, k: int): string
    requires |ds| > 0
  {
    Sign(negative) +
    match ShapeOf(|ds|, k)
    case Plain => ds + Zeros(k)
    case Small => "0" + ("." + (Zeros(-(|ds| + k)) + ds))
    case Fixed => ds[..|ds| + k] + ("." + ds[|ds| + k..])
    case Exponential => ScientificBody(ds, k + |ds| - 1)
  }

  function ScientificBody(ds: string, e: int): string
    requires |ds| > 0
  {
    if |ds| > 1 then [ds[0]] + ("." + (ds[1..] + Suffix(e))) else ds + Suffix(e)
  }

  lemma {:induction false} ZerosValue(n: nat)
    ensures AllDigits(Zeros(n)) && Value(Zeros(n)) == 0
  {
    if n > 0 {
      ZerosValue(n - 1);
      assert Zeros(n)[..n - 1] == Zeros(n - 1);
    }
  }

  /** Reads as `mantissa * 10^exponent`, which equals `n * 10^k`. */
  ghost predicate Denotes(s: string, negative: bool, n: nat, k: int) {
    match ReadDecimal(s)
    case None => false
    case Some(x) => x.negative == negative && Scientific(x.mantissa, x.exponent) == Scientific(n, k)
  }

  lemma DigitsScan(ds: string, rest: string)
    requires AllDigits(ds) && Stops(rest)
    ensures ScanDigits(ds + rest, 0, 0, false) == Scan(Value(ds), 0, rest)
  {
    ScanRun("", ds, rest, 0, false);
    assert "" + ds == ds;
  }

  lemma PlainReads(negative: bool, ds: string, k: nat)
    requires |ds| > 0 && AllDigits(ds)
    ensures ReadDecimal(Sign(negative) + (ds + Zeros(k))) == Some(Number(negative, Value(ds) * Pow10(k), 0))
  {
    var body := ds + Zeros(k);
    ZerosValue(k);
    ValueConcat(ds, Zeros(k));
    DigitsScan(body, "");
    assert body + "" == body;
    ReadSigned(negative, body, Scan(Value(body), 0, ""), 0);
  }

  lemma ScaleOut(n: nat, k: nat)
    ensures Scientific(n * Pow10(k), 0) == Scientific(n, k)
  {
    R10Nat(k);
    ScaleProduct(n, Pow10(k), R10(k), R10(0));
  }

  lemma ScaleProduct(n: nat, p: nat, ten: real, unit: real)
    requires ten == p as real && unit == 1.0
    ensures (n * p) as real * unit == n as real * ten
  {
    ProductReal(n, p);
  }

  /** `rest` is not scanned past. */
  predicate Stops(rest: string) {
    rest == "" || (!IsDigit(rest[0]) && rest[0] != '.')
  }

  lemma PointScan(a: string, b: string, rest: string)
    requires AllDigits(a) && AllDigits(b) && Stops(rest)
    ensures AllDigits(a + b) && ScanDigits(a + ("." + (b + rest)), 0, 0, false) == Scan(Value(a + b), |b|, rest)
  {
    var tail := b + rest;
    ScanRun("", a, "." + tail, 0, false);
    assert "" + a == a;
    assert ("." + tail)[1..] == tail;
    ScanRun(a, b, rest, 0, true);
  }

  lemma PointReads(negative: bool, a: string, b: string, rest: string, e: int)
    requires |a| > 0 && AllDigits(a) && AllDigits(b) && Stops(rest) && ReadExponent(rest) == Some(e)
    ensures AllDigits(a + b)
    ensures ReadDecimal(Sign(negative) + (a + ("." + (b + rest)))) == Some(Number(negative, Value(a + b), e - |b|))
  {
    PointScan(a, b, rest);
    ReadSigned(negative, a + ("." + (b + rest)), Scan(Value(a + b), |b|, rest), e);
  }

  lemma LeadingZeros(ds: string, zeros: nat)
    requires AllDigits(ds)
    ensures AllDigits("0" + (Zeros(zeros) + ds)) && Value("0" + (Zeros(zeros) + ds)) == Value(ds)
  {
    assert "0" + (Zeros(zeros) + ds) == Zeros(zeros + 1) + ds;
    ZerosValue(zeros + 1);
    ValueConcat(Zeros(zeros + 1), ds);
  }

  lemma FixedReads(negative: bool, a: string, b: string)
    requires |a| > 0 && AllDigits(a) && AllDigits(b)
    ensures AllDigits(a + b)
    ensures ReadDecimal(Sign(negative) + (a + ("." + b))) == Some(Number(negative, Value(a + b), 0 - |b|))
  {
    PointReads(negative, a, b, "", 0);
    assert b + "" == b;
  }

  lemma SmallReads(negative: bool, ds: string, run: string, zeros: nat)
    requires |ds| > 0 && AllDigits(ds) && run == Zeros(zeros) + ds
    ensures ReadDecimal(Sign(negative) + ("0" + ("." + run))) == Some(Number(negative, Value(ds), 0 - |run|))
  {
    ZerosValue(zeros);
    FixedReads(negative, "0", run);
    LeadingZeros(ds, zeros);
  }

  lemma SuffixReads(e: int)
    ensures ReadExponent(Suffix(e)) == Some(e) && Stops(Suffix(e))
  {
    NumeralValue(DigitGen.Abs(e));
    assert Suffix(e)[2..] == Numeral(DigitGen.Abs(e));
  }

  lemma ScientificReads(negative: bool, ds: string, e: int)
    requires |ds| > 0 && AllDigits(ds)
    ensures ReadDecimal(Sign(negative) + ScientificBody(ds, e)) == Some(Number(negative, Value(ds), e - (|ds| - 1)))
  {
    if |ds| > 1 {
      ScientificPoint(negative, ds, e);
    } else {
      ScientificDigit(negative, ds, e);
    }
  }

  lemma ScientificPoint(negative: bool, ds: string, e: int)
    requires |ds| > 1 && AllDigits(ds)
    ensures ReadDecimal(Sign(negative) + ScientificBody(ds, e)) == Some(Number(negative, Value(ds), e - (|ds| - 1)))
  {
    SuffixReads(e);
    assert [ds[0]] + ds[1..] == ds;
    PointAfterFirst(negative, ds, [ds[0]], ds[1..], Suffix(e), e);
  }

  lemma PointAfterFirst(negative: bool, ds: string, a: string, b: string, suffix: string, e: int)
    requires |a| == 1 && AllDigits(a) && AllDigits(b) && a + b == ds && AllDigits(ds)
    requires Stops(suffix) && ReadExponent(suffix) == Some(e)
    ensures ReadDecimal(Sign(negative) + (a + ("." + (b + suffix)))) == Some(Number(negative, Value(ds), e - (|ds| - 1)))
  {
    PointReads(negative, a, b, suffix, e);
  }

  lemma ScientificDigit(negative: bool, ds: string, e: int)
    requires |ds| == 1 && AllDigits(ds)
    ensures ReadDecimal(Sign(negative) + ScientificBody(ds, e)) == Some(Number(negative, Value(ds), e))
  {
    SuffixReads(e);
    DigitsScan(ds, Suffix(e));
    ReadSigned(negative, ds + Suffix(e), Scan(Value(ds), 0, Suffix(e)), e);
  }

  /** What each layout reads as. */
  function LayoutNumber(negative: bool, ds: string, k: int): Number
    requires AllDigits(ds)
  {
    if ShapeOf(|ds|, k).Plain? then Number(negative, Value(ds) * Pow10(k), 0) else Number(negative, Value(ds), k)
  }

  lemma LayoutReads(negative: bool, ds: string, k: int)
    requires |ds| > 0 && AllDigits(ds)
    ensures ReadDecimal(Layout(negative, ds, k)) == Some(LayoutNumber(negative, ds, k))
  {
    match ShapeOf(|ds|, k)
    case Plain => PlainReads(negative, ds, k);
    case Small => SmallLayoutReads(negative, ds, k);
    case Fixed => FixedLayoutReads(negative, ds, k);
    case Exponential => ScientificReads(negative, ds, k + |ds| - 1);
  }

  lemma SmallLayoutReads(negative: bool, ds: string, k: int)
    requires |ds| > 0 && AllDigits(ds) && ShapeOf(|ds|, k).Small?
    ensures ReadDecimal(Layout(negative, ds, k)) == Some(LayoutNumber(negative, ds, k))
  {
    SmallReads(negative, ds, Zeros(-(|ds| + k)) + ds, -(|ds| + k));
  }

  lemma FixedLayoutReads(negative: bool, ds: string, k: int)
    requires |ds| > 0 && AllDigits(ds) && ShapeOf(|ds|, k).Fixed?
    ensures ReadDecimal(Layout(negative, ds, k)) == Some(LayoutNumber(negative, ds, k))
  {
    assert ds[..|ds| + k] + ds[|ds| + k..] == ds;
    FixedReads(negative, ds[..|ds| + k], ds[|ds| + k..]);
  }

  /** Whatever the layout, the text denotes exactly the digits times `10^k`. */
  lemma LayoutDenotes(negative: bool, ds: string, k: int)
    requires |ds| > 0 && AllDigits(ds)
    ensures Denotes(Layout(negative, ds, k), negative, Value(ds), k)
  {
    LayoutReads(negative, ds, k);
    if ShapeOf(|ds|, k).Plain? {
      ScaleOut(Value(ds), k);
    }
  }

  /** A sign, 18 digits and 7 zeros are the longest case. */
  lemma LayoutLength(negative: bool, ds: string, k: int)
    requires 0 < |ds| <= 18 && DigitGen.Abs(k + |ds| - 1) < 10000
    ensures |Layout(negative, ds, k)| <= 26
  {
    assert Pow10(4) == 10000;
    NumeralLength(DigitGen.Abs(k + |ds| - 1), 4);
  }

  // ---- what the characters show ----------------------------------------------------------------

  /**
   * The form of a text of `n` digits times `10^k`, on its characters. Up to seven zeros are added to
   * digits without a fraction. A point without an exponent stands before the last `-k` digits, if there
   * are at most six of those or the number is between 0.0001 and 10000. Everything else has one digit
   * before the point and an exponent with a sign and no leading zero.
   */
  predicate Form(text: string, negative: bool, n: nat, k: int) {
    var start := if negative then 1 else 0;
    var e := k + n - 1;
    var whole := k >= 0 && -(n + 7) < e < n + 7;
    var pointed := k < 0 && (k > -7 || -4 < e < 4);
    && |text| > start && (negative <==> text[0] == '-')
    && ('e' in text <==> !whole && !pointed)
    && ('.' in text && 'e' !in text <==> pointed)
    && (whole ==> AllDigits(text[start..]) && |text| - start == n + k)
    && (pointed ==> |text| + k - 1 >= start && text[|text| + k - 1] == '.')
    && (!whole && !pointed ==> Exponent(text[start..], n, e))
  }

  /** A digit, the point and the others if there are any, `e`, the sign and the exponent. */
  predicate Exponent(body: string, n: nat, e: int) {
    var at := if n > 1 then n + 1 else 1;
    && |body| > at + 2 && (n > 1 <==> body[1] == '.')
    && body[at] == 'e' && body[at + 1] == (if e < 0 then '-' else '+')
    && Decimal.Canonical(body[at + 2..]) && Value(body[at + 2..]) == if e < 0 then -e else e
  }

  lemma NoMarksInDigits(s: string)
    requires AllDigits(s)
    ensures 'e' !in s && '.' !in s && '-' !in s
  {
  }

  /** A sign changes nothing else. */
  lemma SignedText(negative: bool, body: string)
    requires body != "" && IsDigit(body[0])
    ensures var text, start := Sign(negative) + body, if negative then 1 else 0;
      && |text| == start + |body| && text[start..] == body && (negative <==> text[0] == '-')
      && ('e' in text <==> 'e' in body) && ('.' in text <==> '.' in body)
  {
    if negative {
      assert ("-" + body)[1..] == body;
    } else {
      assert "" + body == body;
    }
  }

  lemma PlainForm(negative: bool, ds: string, k: nat)
    requires |ds| > 0 && AllDigits(ds) && ShapeOf(|ds|, k).Plain?
    ensures Form(Layout(negative, ds, k), negative, |ds|, k)
  {
    var body := ds + Zeros(k);
    ZerosValue(k);
    NoMarksInDigits(body);
    SignedText(negative, body);
  }

  /** Digits around a point: `b` behind it. */
  lemma PointedForm(negative: bool, a: string, b: string, n: nat, k: int)
    requires |a| > 0 && AllDigits(a) && AllDigits(b) && |b| == -k && k < 0
    requires k > -7 || -4 < k + n - 1 < 4
    ensures Form(Sign(negative) + (a + ("." + b)), negative, n, k)
  {
    NoMarksInDigits(a);
    NoMarksInDigits(b);
    var body := a + ("." + b);
    assert body[|a|] == '.';
    SignedText(negative, body);
  }

  lemma SuffixForm(e: int)
    ensures var s := Suffix(e);
      && |s| > 2 && s[0] == 'e' && s[1] == (if e < 0 then '-' else '+')
      && Decimal.Canonical(s[2..]) && Value(s[2..]) == if e < 0 then -e else e
  {
    NumeralValue(DigitGen.Abs(e));
    assert Suffix(e)[2..] == Numeral(DigitGen.Abs(e));
  }

  lemma ExponentForm(ds: string, e: int)
    requires |ds| > 0 && AllDigits(ds)
    ensures Exponent(ScientificBody(ds, e), |ds|, e) && IsDigit(ScientificBody(ds, e)[0]) && 'e' in ScientificBody(ds, e)
  {
    var body, suffix := ScientificBody(ds, e), Suffix(e);
    SuffixForm(e);
    if |ds| > 1 {
      assert body[|ds| + 1..] == suffix;
      assert body[|ds| + 3..] == suffix[2..];
    } else {
      assert body[1..] == suffix;
      assert body[3..] == suffix[2..];
    }
  }

  lemma ScientificForm(negative: bool, ds: string, k: int)
    requires |ds| > 0 && AllDigits(ds) && ShapeOf(|ds|, k).Exponential?
    ensures Form(Layout(negative, ds, k), negative, |ds|, k)
  {
    var e := k + |ds| - 1;
    ExponentForm(ds, e);
    ExponentIsForm(negative, ScientificBody(ds, e), |ds|, k);
  }

  lemma ExponentIsForm(negative: bool, body: string, n: nat, k: int)
    requires body != "" && IsDigit(body[0]) && 'e' in body && Exponent(body, n, k + n - 1)
    requires ShapeOf(n, k).Exponential?
    ensures Form(Sign(negative) + body, negative, n, k)
  {
    SignedText(negative, body);
  }

  /** The characters of every layout. */
  lemma LayoutForm(negative: bool, ds: string, k: int)
    requires |ds| > 0 && AllDigits(ds)
    ensures Form(Layout(negative, ds, k), negative, |ds|, k)
  {
    match ShapeOf(|ds|, k)
    case Plain => PlainForm(negative, ds, k);
    case Small =>
      ZerosValue(-(|ds| + k));
      PointedForm(negative, "0", Zeros(-(|ds| + k)) + ds, |ds|, k);
    case Fixed => PointedForm(negative, ds[..|ds| + k], ds[|ds| + k..], |ds|, k);
    case Exponential => ScientificForm(negative, ds, k);
  }

  // ---- writing the text into the caller's buffer -----------------------------------------------

  /** Appends `s` at `q`. */
  method Put(out: array<char>, q: nat, s: string) returns (q': nat)
    requires q + |s| <= out.Length
    modifies out
    ensures q' == q + |s| && out[..q'] == old(out[..q]) + s
  {
    var i := 0;
    while i < |s|
      invariant i <= |s| && out[..q + i] == old(out[..q]) + s[..i]
    {
      out[q + i] := s[i];
      i := i + 1;
      assert out[..q + i] == out[..q + i - 1] + [s[i - 1]];
    }
    q' := q + |s|;
  }

  function Reverse(s: string): string {
    seq(|s|, i requires 0 <= i < |s| => s[|s| - 1 - i])
  }

  lemma TwentyDigits(value: nat)
    requires value < TWO_64
    ensures |Numeral(value)| <= 20
  {
    DigitGen.SeventeenDigits();
    Pow10Add(17, 3);
    assert Pow10(3) == 1000;
    NumeralLength(value, 20);
  }

  /** The decimal digits of `value`: collected backwards, then copied out in order. */
  method U64Digits(out: array<char>, q: nat, value: nat) returns (q': nat)
    requires value < TWO_64 && q + |Numeral(value)| <= out.Length
    modifies out
    ensures q' == q + |Numeral(value)| && out[..q'] == old(out[..q]) + Numeral(value)
  {
    TwentyDigits(value);
    var scratch := new char[20];
    var n, v := 0, value;
    assert Reverse(scratch[..0]) == "" && Numeral(v) + "" == Numeral(v);
    while true
      invariant n <= 19 && out[..] == old(out[..]) && fresh(scratch)
      invariant Numeral(value) == Numeral(v) + Reverse(scratch[..n])
      decreases v
    {
      ghost var s := scratch[..n];
      var d := DigitChar(v % 10);
      scratch[n] := d;
      n := n + 1;
      assert scratch[..n] == s + [d] && Reverse(s + [d]) == [d] + Reverse(s);
      var next := v / 10;
      if next == 0 {
        break;
      }
      assert Numeral(next) + [d] + Reverse(s) == Numeral(next) + ([d] + Reverse(s));
      v := next;
      assert |Numeral(v)| >= 1;
    }
    assert Numeral(value) == Reverse(scratch[..n]);
    q' := Put(out, q, Reverse(scratch[..n]));
  }

  /** Renders the digits in whichever layout applies. */
  method WriteLayout(out: array<char>, digits: array<char>, count: nat, k: int, negative: bool) returns (q: nat)
    requires out != digits && 1 <= count <= 18 && count <= digits.Length && out.Length >= 40
    requires DigitGen.Abs(k + count - 1) < 1000
    modifies out
    ensures q <= 26 && out[..q] == Layout(negative, digits[..count], k)
    ensures AllDigits(digits[..count]) ==> Form(out[..q], negative, count, k)
  {
    q := WriteParts(out, digits, count, k, negative);
    if AllDigits(digits[..count]) {
      LayoutForm(negative, digits[..count], k);
    }
  }

  method WriteParts(out: array<char>, digits: array<char>, count: nat, k: int, negative: bool) returns (q: nat)
    requires out != digits && 1 <= count <= 18 && count <= digits.Length && out.Length >= 40
    requires DigitGen.Abs(k + count - 1) < 1000
    modifies out
    ensures q <= 26 && out[..q] == Layout(negative, digits[..count], k)
  {
    ghost var ds := digits[..count];
    LayoutLength(negative, ds, k);
    var decimalExponent := k + count - 1;
    var magnitude := if decimalExponent < 0 then -decimalExponent else decimalExponent;
    q := 0;
    if negative {
      q := Put(out, q, "-");
    }
    assert out[..q] == Sign(negative);
    if k >= 0 && magnitude < count + 7 {
      q := Put(out, q, digits[..count]);
      q := Put(out, q, Zeros(k));
      Regroup(Sign(negative), ds, Zeros(k));
    } else if k < 0 && (k > -7 || magnitude < 4) {
      q := WriteFixed(out, q, digits, count, k, negative);
    } else {
      q := WriteScientific(out, q, digits, count, decimalExponent, negative);
    }
  }

  method WriteFixed(out: array<char>, start: nat, digits: array<char>, count: nat, k: int, negative: bool) returns (q: nat)
    requires out != digits && 1 <= count <= 18 && count <= digits.Length && out.Length >= 40
    requires start <= out.Length && out[..start] == Sign(negative)
    requires ShapeOf(count, k) in {Small, Fixed}
    modifies out
    ensures q <= 26 && out[..q] == Layout(negative, digits[..count], k)
  {
    ghost var ds := digits[..count];
    ghost var sign := Sign(negative);
    q := start;
    var offset := count + k;
    if offset <= 0 {
      q := Put(out, q, "0");
      q := Put(out, q, ".");
      q := Put(out, q, Zeros(-offset));
      q := Put(out, q, digits[..count]);
      Join(sign + "0", ".", Zeros(-offset), ds);
      Regroup(sign, "0", "." + (Zeros(-offset) + ds));
    } else {
      q := Put(out, q, digits[..offset]);
      q := Put(out, q, ".");
      q := Put(out, q, digits[offset..count]);
      assert digits[..offset] == ds[..offset] && digits[offset..count] == ds[offset..];
      Join(sign, ds[..offset], ".", ds[offset..]);
    }
  }

  lemma Join(s: string, a: string, b: string, c: string)
    ensures s + a + b + c == s + (a + (b + c))
  {
  }

  method WriteSuffix(out: array<char>, start: nat, e: int) returns (q: nat)
    requires DigitGen.Abs(e) < 1000 && start + 5 <= out.Length
    modifies out
    ensures q <= start + 5 && out[..q] == old(out[..start]) + Suffix(e)
  {
    var magnitude := DigitGen.Abs(e);
    assert Pow10(3) == 1000;
    NumeralLength(magnitude, 3);
    var sign := if e < 0 then "-" else "+";
    q := Put(out, start, "e");
    q := Put(out, q, sign);
    q := U64Digits(out, q, magnitude);
    Join(old(out[..start]), "e", sign, Numeral(magnitude));
    assert "e" + sign + Numeral(magnitude) == "e" + (sign + Numeral(magnitude));
  }

  method WriteScientific(out: array<char>, start: nat, digits: array<char>, count: nat, e: int, negative: bool) returns (q: nat)
    requires out != digits && 1 <= count <= 18 && count <= digits.Length && out.Length >= 40
    requires start <= out.Length && out[..start] == Sign(negative) && DigitGen.Abs(e) < 1000
    modifies out
    ensures q <= 26 && out[..q] == Sign(negative) + ScientificBody(digits[..count], e)
  {
    ghost var ds := digits[..count];
    ghost var sign := Sign(negative);
    q := Put(out, start, [digits[0]]);
    if count > 1 {
      q := Put(out, q, ".");
      q := Put(out, q, digits[1..count]);
      assert digits[1..count] == ds[1..];
      q := WriteSuffix(out, q, e);
      Join(sign + [ds[0]], ".", ds[1..], Suffix(e));
      Regroup(sign, [ds[0]], "." + (ds[1..] + Suffix(e)));
    } else {
      assert ds == [ds[0]];
      q := WriteSuffix(out, q, e);
      Regroup(sign, ds, Suffix(e));
    }
  }

  lemma Regroup(a: string, b: string, c: string)
    ensures a + b + c == a + (b + c)
  {
  }

  // ---- the whole printer -----------------------------------------------------------------------

  const INTEGRAL_BOUND: nat := 4611686018427387904

  /** `|value| <= 2^62`. */
  predicate WithinIntegralBound(m: Magnitude) {
    if m.e >= 0 then m.f * Pow2(m.e) <= INTEGRAL_BOUND else m.f <= INTEGRAL_BOUND * Pow2(-m.e)
  }

  /** The conversion to an integer, which drops the fraction. */
  function Truncated(m: Magnitude): nat {
    if m.e >= 0 then m.f * Pow2(m.e) else Pow2Monotone(0, -m.e); Quotient(m.f, Pow2(-m.e))
  }

  function Quotient(f: nat, p: nat): nat
    requires p > 0
  {
    f / p
  }

  /** Nothing was dropped. A truncated magnitude with a fraction is below 2^53, so it converts back exactly. */
  predicate IsIntegral(m: Magnitude) {
    m.e >= 0 || (Pow2Monotone(0, -m.e); m.f % Pow2(-m.e) == 0)
  }

  lemma IntegralExact(m: Magnitude)
    requires IsIntegral(m)
    ensures Exact(m) == Truncated(m) as real
  {
    var unit := R2(m.e);
    var v := ExactValue(m, unit);
    if m.e >= 0 {
      R2Nat(m.e);
      ProductReal(m.f, Pow2(m.e));
    } else {
      var p := Pow2(-m.e);
      R2Inverse(-m.e, unit, p);
      DivideExact(m.f, p, m.f / p, unit);
    }
  }

  lemma DivideExact(f: nat, p: nat, g: nat, unit: real)
    requires p > 0 && f % p == 0 && g == f / p && unit * p as real == 1.0
    ensures f as real * unit == g as real
  {
    assert f == g * p;
    ProductReal(g, p);
    assert (g as real * p as real) * unit == g as real * (unit * p as real);
  }

  /** The two tests, on the value itself: a whole number of at most 2^62. */
  predicate WholeAndSmall(v: real) { v == v.Floor as real && v <= 4611686018427387904.0 }

  lemma TestsMean(m: Magnitude)
    ensures WithinIntegralBound(m) && IsIntegral(m) <==> WholeAndSmall(Exact(m))
    ensures IsIntegral(m) ==> Exact(m).Floor == Truncated(m)
  {
    var unit := R2(m.e);
    var v := ExactValue(m, unit);
    R2Pos(m.e);
    if IsIntegral(m) {
      IntegralExact(m);
    }
    if m.e < 0 {
      var p := Pow2(-m.e);
      Pow2Monotone(0, -m.e);
      R2Inverse(-m.e, unit, p);
      BoundScaled(m.f, p, unit, v);
      WholeDivides(m.f, p, unit, v);
    }
  }

  lemma BoundScaled(f: nat, p: nat, unit: real, v: real)
    requires p > 0 && unit > 0.0 && unit * p as real == 1.0 && v == f as real * unit
    ensures f <= INTEGRAL_BOUND * p <==> v <= 4611686018427387904.0
  {
    assert v * p as real == f as real * (unit * p as real);
    assert f as real == v * p as real;
    if v <= 4611686018427387904.0 {
      RMulLessEq(p as real, v, 4611686018427387904.0);
    } else {
      RMulLess(p as real, 4611686018427387904.0, v);
    }
  }

  lemma WholeDivides(f: nat, p: nat, unit: real, v: real)
    requires p > 0 && unit * p as real == 1.0 && v == f as real * unit
    ensures v == v.Floor as real ==> f % p == 0
  {
    assert v * p as real == f as real * (unit * p as real);
    if v == v.Floor as real {
      var g := v.Floor;
      assert (g * p) as real == g as real * p as real;
      assert f == g * p;
      MultipleRest(f, g, p);
    }
  }

  lemma MultipleRest(f: nat, g: int, p: nat)
    requires p > 0 && f == g * p
    ensures f % p == 0
  {
    var q := f / p;
    assert f == q * p + f % p;
    var d := g - q;
    assert d * p == f % p;
    if d > 0 {
      MulLessEq(p, 1, d);
    } else if d < 0 {
      MulLessEq(p, 1, -d);
    }
  }

  lemma ExactRounds(m: Magnitude)
    requires Binary64.Canonical(m)
    ensures RoundsTo(Exact(m), m)
  {
    var unit := R2(m.e);
    var v := ExactValue(m, unit);
    R2Pos(m.e);
    assert Surrounds(m, v, unit) by {
      RMulLess(unit, m.f as real - LowerPart(m), m.f as real);
      RMulLess(unit, m.f as real, m.f as real + 0.5);
    }
    InsideRounds(v, m, unit);
  }

  /** The text reads back as the double: same sign, and a number nearer to it than to any other. */
  ghost predicate ReadsBack(s: string, bits: nat) {
    match ReadDecimal(s)
    case None => false
    case Some(x) => x.negative == SignBit(bits) && RoundsTo(Scientific(x.mantissa, x.exponent), Decode(bits))
  }

  lemma NumeralReads(negative: bool, n: nat)
    ensures ReadDecimal(Sign(negative) + Numeral(n)) == Some(Number(negative, n, 0))
  {
    NumeralValue(n);
    DigitsScan(Numeral(n), "");
    assert Numeral(n) + "" == Numeral(n);
    ReadSigned(negative, Numeral(n), Scan(n, 0, ""), 0);
  }

  lemma IntegralReadsBack(bits: nat)
    requires IsFinite(bits) && IsIntegral(Decode(bits))
    ensures ReadsBack(Sign(SignBit(bits)) + Numeral(Truncated(Decode(bits))), bits)
  {
    var m := Decode(bits);
    DecodeCanonical(bits);
    NumeralReads(SignBit(bits), Truncated(m));
    IntegralExact(m);
    ExactRounds(m);
    assert Scientific(Truncated(m), 0) == Truncated(m) as real;
  }

  lemma LayoutReadsBack(bits: nat, ds: string, n: nat, k: int)
    requires |ds| > 0 && DigitGen.Digits(ds, n) && RoundsTo(Scientific(n, k), Decode(bits))
    ensures ReadsBack(Layout(SignBit(bits), ds, k), bits)
  {
    LayoutDenotes(SignBit(bits), ds, k);
  }

  lemma TensValid()
    ensures DigitGen.ValidTens(DigitGen.KTENS)
  {
    DigitGen.SeventeenDigits();
    assert Pow10(5) == 100000;
    assert Pow10(10) == 10000000000 by { Pow10Add(5, 5); }
    assert Pow10(15) == 1000000000000000 by { Pow10Add(5, 10); }
    assert Pow10(19) == 100 * Pow10(17);
  }

  lemma BoundDigits(n: nat)
    requires n <= INTEGRAL_BOUND
    ensures |Numeral(n)| <= 19
  {
    TensValid();
    assert DigitGen.KTENS[0] == Pow10(19);
    NumeralLength(n, 19);
  }

  lemma ZeroText(bits: nat, s: string)
    requires IsZero(bits) && s == if SignBit(bits) then "-0" else "0"
    ensures IsIntegral(Decode(bits)) && s == Sign(SignBit(bits)) + Numeral(Truncated(Decode(bits)))
    ensures ReadsBack(s, bits)
  {
    Pow2Monotone(0, 1074);
    assert Truncated(Decode(bits)) == 0;
    assert Numeral(0) == "0";
    IntegralReadsBack(bits);
  }

  lemma BoundTruncated(m: Magnitude)
    requires WithinIntegralBound(m) && IsIntegral(m)
    ensures Truncated(m) <= INTEGRAL_BOUND && |Numeral(Truncated(m))| <= 19
  {
    if m.e < 0 {
      var p := Pow2(-m.e);
      Pow2Monotone(0, -m.e);
      QuotientAtMost(m.f, p, INTEGRAL_BOUND);
    }
    BoundDigits(Truncated(m));
  }

  lemma QuotientAtMost(f: nat, p: nat, b: nat)
    requires p > 0 && f <= b * p
    ensures f / p <= b
  {
    var g := f / p;
    assert g * p <= f;
    if g > b {
      MulLessEq(p, b + 1, g);
    }
  }

  /**
   * The canonical text of any double. For a finite one, what it wrote reads back as that double,
   * and it never writes more than 26 characters.
   */
  method RedisDoubleText(out: array<char>, bits: nat) returns (n: nat, ghost how: Option<Spelling>)
    requires bits < TWO_64 && out.Length >= 40
    modifies out
    ensures n <= 26
    ensures IsNaN(bits) ==> out[..n] == "nan"
    ensures IsInfinite(bits) ==> out[..n] == Sign(SignBit(bits)) + "inf"
    ensures IsFinite(bits) ==> ReadsBack(out[..n], bits)
    ensures IsFinite(bits) && WholeAndSmall(Exact(Decode(bits))) ==>
              Exact(Decode(bits)).Floor >= 0 && out[..n] == Sign(SignBit(bits)) + Numeral(Exact(Decode(bits)).Floor)
    ensures IsFinite(bits) && !WholeAndSmall(Exact(Decode(bits))) ==>
              how.Some? && Printed(out[..n], bits, how.value)
  {
    how := None;
    if IsNaN(bits) {
      n := Put(out, 0, "nan");
      return;
    }
    if IsInfinite(bits) {
      n := Put(out, 0, if SignBit(bits) then "-inf" else "inf");
      return;
    }
    var m := Decode(bits);
    TestsMean(m);
    if IsZero(bits) {
      n := Put(out, 0, if SignBit(bits) then "-0" else "0");
      ZeroText(bits, out[..n]);
      return;
    }
    if WithinIntegralBound(m) && IsIntegral(m) {
      BoundTruncated(m);
      n := 0;
      if SignBit(bits) {
        n := Put(out, n, "-");
      }
      assert out[..n] == Sign(SignBit(bits));
      n := U64Digits(out, n, Truncated(m));
      IntegralReadsBack(bits);
      return;
    }
    ghost var spelling;
    n, spelling := ShortestText(out, bits);
    how := Some(spelling);
  }

  /** Digits, their power of ten, and the scaling they were found with. */
  datatype Spelling = Spelling(ds: string, k: int, scaling: Grisu.Scaling)

  /** The text spells the digits the generator has to choose, in the form they have to get. */
  ghost predicate Printed(text: string, bits: nat, how: Spelling) {
    && how.ds != "" && AllDigits(how.ds) && Form(text, SignBit(bits), |how.ds|, how.k)
    && Denotes(text, SignBit(bits), Value(how.ds), how.k)
    && Grisu.ClosestInside(Value(how.ds), how.k, Decode(bits), how.scaling)
    && Grisu.TakesLeast(CachedPowers.KPOW10, how.scaling.upper.e, how.scaling.row)
  }

  method ShortestText(out: array<char>, bits: nat) returns (n: nat, ghost how: Spelling)
    requires bits < TWO_64 && out.Length >= 40 && IsFinite(bits) && !IsZero(bits)
    modifies out
    ensures n <= 26 && ReadsBack(out[..n], bits) && Printed(out[..n], bits, how)
  {
    CachedPowers.TableIsValid();
    TensValid();
    var digits := new char[24];
    var count, k, value, scaling := Grisu.Grisu2Digits(CachedPowers.KPOW10, DigitGen.KTENS, bits, digits);
    ghost var ds := digits[..count];
    n := WriteLayout(out, digits, count, k, SignBit(bits));
    LayoutReadsBack(bits, ds, value, k);
    LayoutDenotes(SignBit(bits), ds, k);
    how := Spelling(ds, k, scaling);
  }
}
