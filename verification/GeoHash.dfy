/**
 * Geohash scores: 26 bits of longitude and 26 bits of latitude, interleaved. Coordinates are exact
 * reals; rounding is not modelled. Bits that cannot overlap are joined by addition.
 */
module GeoHash {
  const LATITUDE_MAX: real := 85.05112878
  const AXIS_BITS: nat := 26
  const AXIS_CELLS: nat := 0x400_0000
  const SCORES: nat := 0x10_0000_0000_0000

  // ---- interleaving ----------------------------------------------------------------------------------

  /** The bits of `v` moved to the even positions. */
  function Spread(v: nat): nat {
    if v == 0 then 0 else v % 2 + 4 * Spread(v / 2)
  }

  /** The even bits of `h`, moved together. */
  function Evens(h: nat): nat {
    if h == 0 then 0 else h % 2 + 2 * Evens(h / 4)
  }

  function Odds(h: nat): nat { Evens(h / 2) }

  function Interleave(x: nat, y: nat): nat { 2 * Spread(x) + Spread(y) }

  /** Splits a score into its two lowest bits and the rest. */
  lemma LowBits(h: nat, odd: nat, even: nat, rest: nat)
    requires h == 4 * rest + 2 * odd + even && odd < 2 && even < 2
    ensures h / 4 == rest && h % 2 == even && h / 2 == 2 * rest + odd && h / 2 % 2 == odd && h / 2 / 4 == rest / 2
  {
    Halve(h, 2 * rest + odd, even);
    Halve(2 * rest + odd, rest, odd);
  }

  lemma Halve(v: nat, half: nat, bit: nat)
    requires v == 2 * half + bit && bit < 2
    ensures v / 2 == half && v % 2 == bit && v / 4 == half / 2
  {
  }

  lemma Parts(h: nat) returns (odd: nat, even: nat, rest: nat)
    ensures h == 4 * rest + 2 * odd + even && odd < 2 && even < 2
  {
    odd, even, rest := h / 2 % 2, h % 2, h / 2 / 2;
  }

  lemma InterleaveStep(x: nat, y: nat, odd: nat, even: nat)
    requires odd < 2 && even < 2
    ensures Interleave(2 * x + odd, 2 * y + even) == 4 * Interleave(x, y) + 2 * odd + even
  {
    Halve(2 * x + odd, x, odd);
    Halve(2 * y + even, y, even);
  }

  lemma EvensStep(odd: nat, even: nat, rest: nat)
    requires odd < 2 && even < 2
    ensures Evens(4 * rest + 2 * odd + even) == 2 * Evens(rest) + even
    ensures Odds(4 * rest + 2 * odd + even) == 2 * Odds(rest) + odd
  {
    LowBits(4 * rest + 2 * odd + even, odd, even, rest);
  }

  lemma {:induction false} Separates(x: nat, y: nat)
    ensures Odds(Interleave(x, y)) == x && Evens(Interleave(x, y)) == y
    decreases x + y
  {
    if x == 0 && y == 0 {
      assert Interleave(0, 0) == 0;
    } else {
      var a, odd := Split(x);
      var b, even := Split(y);
      Separates(a, b);
      SeparatesNext(a, b, odd, even);
    }
  }

  lemma Split(v: nat) returns (half: nat, bit: nat)
    ensures v == 2 * half + bit && bit < 2
  {
    half, bit := v / 2, v % 2;
  }

  lemma SeparatesNext(x: nat, y: nat, odd: nat, even: nat)
    requires odd < 2 && even < 2 && Odds(Interleave(x, y)) == x && Evens(Interleave(x, y)) == y
    ensures Odds(Interleave(2 * x + odd, 2 * y + even)) == 2 * x + odd
    ensures Evens(Interleave(2 * x + odd, 2 * y + even)) == 2 * y + even
  {
    InterleaveStep(x, y, odd, even);
    EvensStep(odd, even, Interleave(x, y));
  }

  lemma {:induction false} Interleaves(h: nat)
    ensures Interleave(Odds(h), Evens(h)) == h
  {
    if h != 0 {
      var odd, even, rest := Parts(h);
      Interleaves(rest);
      EvensStep(odd, even, rest);
      InterleaveStep(Odds(rest), Evens(rest), odd, even);
    }
  }

  // ---- shifts ----------------------------------------------------------------------------------------

  function ShiftLeft(v: nat, n: nat): nat { if n == 0 then v else 2 * ShiftLeft(v, n - 1) }

  function ShiftRight(v: nat, n: nat): nat { if n == 0 then v else ShiftRight(v / 2, n - 1) }

  /** Shifts by two bits for each step, one of each coordinate. */
  function ShiftScoreLeft(v: nat, n: nat): nat { if n == 0 then v else 4 * ShiftScoreLeft(v, n - 1) }

  function ShiftScoreRight(v: nat, n: nat): nat { if n == 0 then v else ShiftScoreRight(v / 4, n - 1) }

  lemma {:induction false} HighBits(h: nat, n: nat)
    ensures ShiftRight(Odds(h), n) == Odds(ShiftScoreRight(h, n))
    ensures ShiftRight(Evens(h), n) == Evens(ShiftScoreRight(h, n))
  {
    if n != 0 {
      var odd, even, rest := Parts(h);
      LowBits(h, odd, even, rest);
      EvensStep(odd, even, rest);
      Halve(Odds(h), Odds(rest), odd);
      Halve(Evens(h), Evens(rest), even);
      HighBits(rest, n - 1);
    }
  }

  lemma {:induction false} InterleaveShifted(x: nat, y: nat, n: nat)
    ensures Interleave(ShiftLeft(x, n), ShiftLeft(y, n)) == ShiftScoreLeft(Interleave(x, y), n)
  {
    if n != 0 {
      InterleaveShifted(x, y, n - 1);
      InterleaveStep(ShiftLeft(x, n - 1), ShiftLeft(y, n - 1), 0, 0);
    }
  }

  lemma {:induction false} ScoreWidth(g: nat, n: nat)
    ensures ShiftScoreLeft(g + 1, n) == ShiftScoreLeft(g, n) + ShiftScoreLeft(1, n)
  {
    if n != 0 {
      ScoreWidth(g, n - 1);
    }
  }

  /** A block of scores with the same high bits. */
  lemma {:induction false} ScoreBlock(h: nat, g: nat, n: nat)
    ensures ShiftScoreLeft(g, n) <= h < ShiftScoreLeft(g + 1, n) <==> ShiftScoreRight(h, n) == g
  {
    if n != 0 {
      ScoreBlock(h / 4, g, n - 1);
    }
  }

  /** The scores of one cell are one aligned interval. */
  lemma CellIsInterval(h: nat, x: nat, y: nat, n: nat)
    ensures var first := Interleave(ShiftLeft(x, n), ShiftLeft(y, n));
      first <= h <= first + ShiftScoreLeft(1, n) - 1
      <==> ShiftRight(Odds(h), n) == x && ShiftRight(Evens(h), n) == y
  {
    var g := Interleave(x, y);
    InterleaveShifted(x, y, n);
    ScoreWidth(g, n);
    ScoreBlock(h, g, n);
    HighBits(h, n);
    Separates(x, y);
    Interleaves(ShiftScoreRight(h, n));
  }

  /** Bit `2 * n` of a score is bit `n` of the latitude, the bit above it bit `n` of the longitude. */
  lemma ScoreBits(x: nat, y: nat, n: nat)
    ensures ShiftScoreRight(Interleave(x, y), n) % 2 == ShiftRight(y, n) % 2
    ensures ShiftScoreRight(Interleave(x, y), n) / 2 % 2 == ShiftRight(x, n) % 2
  {
    HighBits(Interleave(x, y), n);
    Separates(x, y);
    LowestBits(ShiftScoreRight(Interleave(x, y), n), ShiftRight(x, n), ShiftRight(y, n));
  }

  lemma LowestBits(h: nat, x: nat, y: nat)
    requires Odds(h) == x && Evens(h) == y
    ensures h % 2 == y % 2 && h / 2 % 2 == x % 2
  {
    var odd, even, rest := Parts(h);
    LowBits(h, odd, even, rest);
    EvensStep(odd, even, rest);
    Halve(x, Odds(rest), odd);
    Halve(y, Evens(rest), even);
  }

  // ---- ranges ----------------------------------------------------------------------------------------

  lemma {:induction false} ShiftBelow(v: nat, n: nat, k: nat)
    requires v < ShiftLeft(1, n + k)
    ensures ShiftRight(v, n) < ShiftLeft(1, k)
  {
    if n != 0 {
      ShiftBelow(v / 2, n - 1, k);
    }
  }

  lemma {:induction false} SpreadBelow(v: nat, n: nat)
    requires v < ShiftLeft(1, n)
    ensures 3 * Spread(v) < ShiftScoreLeft(1, n)
  {
    if n == 0 {
      assert v == 0;
    } else {
      SpreadBelow(v / 2, n - 1);
    }
  }

  lemma {:induction false} EvensBelow(h: nat, n: nat)
    requires h < ShiftScoreLeft(1, n)
    ensures Evens(h) < ShiftLeft(1, n) && Odds(h) < ShiftLeft(1, n)
  {
    if n == 0 {
      assert h == 0;
    } else {
      var odd, even, rest := Parts(h);
      EvensStep(odd, even, rest);
      EvensBelow(rest, n - 1);
    }
  }

  lemma Sizes()
    ensures ShiftLeft(1, AXIS_BITS) == AXIS_CELLS && ShiftScoreLeft(1, AXIS_BITS) == SCORES
  {
    assert ShiftLeft(1, 13) == 0x2000;
    assert ShiftScoreLeft(1, 13) == 0x400_0000;
  }

  // ---- the bit loops -----------------------------------------------------------------------------------

  lemma {:induction false} ShiftRightNext(v: nat, n: nat)
    ensures ShiftRight(v, n + 1) == ShiftRight(v, n) / 2
  {
    if n != 0 {
      ShiftRightNext(v / 2, n - 1);
    }
  }

  lemma {:induction false} ShiftScoreRightNext(v: nat, n: nat)
    ensures ShiftScoreRight(v, n + 1) == ShiftScoreRight(v, n) / 4
  {
    if n != 0 {
      ShiftScoreRightNext(v / 4, n - 1);
    }
  }

  lemma {:induction false} ShiftLeftAdd(a: nat, b: nat, n: nat)
    ensures ShiftLeft(2 * a + b, n) == ShiftLeft(a, n + 1) + ShiftLeft(b, n)
  {
    if n != 0 {
      ShiftLeftAdd(a, b, n - 1);
    }
  }

  lemma SpreadStep(v: nat, bit: nat)
    requires bit < 2
    ensures Spread(2 * v + bit) == 4 * Spread(v) + bit
  {
    Halve(2 * v + bit, v, bit);
  }

  /** `v & 1`. */
  function LowBit(v: nat): nat { v % 2 }

  lemma SpreadNext(value: nat, bit: nat)
    ensures Spread(ShiftRight(value, bit)) == 4 * Spread(ShiftRight(value, bit + 1)) + LowBit(ShiftRight(value, bit))
  {
    ShiftRightNext(value, bit);
    SpreadStep(ShiftRight(value, bit) / 2, ShiftRight(value, bit) % 2);
  }

  /** Spreads the 26 bits of a coordinate, highest bit first. */
  method Spread26(value: nat) returns (result: nat)
    requires value < AXIS_CELLS
    ensures result == Spread(value)
  {
    result := 0;
    Sizes();
    ShiftBelow(value, AXIS_BITS, 0);
    var bit: nat := AXIS_BITS;
    while bit != 0
      invariant bit <= AXIS_BITS && result == Spread(ShiftRight(value, bit))
    {
      bit := bit - 1;
      SpreadNext(value, bit);
      result := 4 * result + LowBit(ShiftRight(value, bit));
    }
  }

  /** Takes a score apart into its 26-bit coordinates, lowest bits first. */
  method Separate(hash: nat) returns (lon: nat, lat: nat)
    requires hash < SCORES
    ensures lon == Odds(hash) && lat == Evens(hash) && lon < AXIS_CELLS && lat < AXIS_CELLS
  {
    lon, lat := 0, 0;
    var bit: nat := 0;
    while bit < AXIS_BITS
      invariant bit <= AXIS_BITS
      invariant Odds(hash) == lon + ShiftLeft(Odds(ShiftScoreRight(hash, bit)), bit)
      invariant Evens(hash) == lat + ShiftLeft(Evens(ShiftScoreRight(hash, bit)), bit)
    {
      var left := ShiftScoreRight(hash, bit);
      SeparateStep(hash, bit);
      lat := lat + ShiftLeft(LowBit(left), bit);
      lon := lon + ShiftLeft(LowBit(left / 2), bit);
      bit := bit + 1;
    }
    SeparateEnd(hash);
  }

  lemma SeparateEnd(hash: nat)
    requires hash < SCORES
    ensures ShiftScoreRight(hash, AXIS_BITS) == 0 && ShiftLeft(0, AXIS_BITS) == 0
    ensures Odds(hash) < AXIS_CELLS && Evens(hash) < AXIS_CELLS
  {
    Sizes();
    EvensBelow(hash, AXIS_BITS);
    ScoreEnds(hash, AXIS_BITS);
    ScoreZero(AXIS_BITS);
  }

  lemma ScoreEnds(h: nat, n: nat)
    requires h < ShiftScoreLeft(1, n)
    ensures ShiftScoreRight(h, n) == 0
  {
    ScoreBlock(h, 0, n);
    ScoreZero(n);
  }

  lemma {:induction false} ScoreZero(n: nat)
    ensures ShiftScoreLeft(0, n) == 0 && ShiftLeft(0, n) == 0
  {
    if n != 0 {
      ScoreZero(n - 1);
    }
  }

  lemma SeparateStep(hash: nat, bit: nat)
    ensures var left, rest := ShiftScoreRight(hash, bit), ShiftScoreRight(hash, bit + 1);
      && ShiftLeft(Odds(left), bit) == ShiftLeft(Odds(rest), bit + 1) + ShiftLeft(LowBit(left / 2), bit)
      && ShiftLeft(Evens(left), bit) == ShiftLeft(Evens(rest), bit + 1) + ShiftLeft(LowBit(left), bit)
  {
    var left := ShiftScoreRight(hash, bit);
    var odd, even, rest := Parts(left);
    LowBits(left, odd, even, rest);
    ShiftScoreRightNext(hash, bit);
    EvensStep(odd, even, rest);
    ShiftLeftAdd(Odds(rest), odd, bit);
    ShiftLeftAdd(Evens(rest), even, bit);
  }

  // ---- coordinates -------------------------------------------------------------------------------------

  predicate ValidCoordinates(lon: real, lat: real) {
    -180.0 <= lon <= 180.0 && -LATITUDE_MAX <= lat <= LATITUDE_MAX
  }

  /** A coordinate in units of the smallest cell. */
  function ScaleLon(lon: real): real { (lon + 180.0) / 360.0 * AXIS_CELLS as real }

  function ScaleLat(lat: real): real { (lat + LATITUDE_MAX) / (2.0 * LATITUDE_MAX) * AXIS_CELLS as real }

  /** The smallest cell; the far edge of the axis belongs to the last one. */
  function Cell(scaled: real): nat
    requires scaled >= 0.0
  {
    var capped := if scaled < (AXIS_CELLS - 1) as real then scaled else (AXIS_CELLS - 1) as real;
    capped.Floor
  }

  lemma ScaleRange(lon: real, lat: real)
    requires ValidCoordinates(lon, lat)
    ensures 0.0 <= ScaleLon(lon) <= AXIS_CELLS as real && 0.0 <= ScaleLat(lat) <= AXIS_CELLS as real
  {
  }

  lemma CellRange(scaled: real)
    requires 0.0 <= scaled <= AXIS_CELLS as real
    ensures Cell(scaled) < AXIS_CELLS
    ensures Cell(scaled) as real <= scaled && (scaled < AXIS_CELLS as real ==> scaled < Cell(scaled) as real + 1.0)
    ensures scaled == AXIS_CELLS as real ==> Cell(scaled) == AXIS_CELLS - 1
  {
  }

  function EncodeSpec(lon: real, lat: real): nat
    requires ValidCoordinates(lon, lat)
  {
    ScaleRange(lon, lat);
    Interleave(Cell(ScaleLon(lon)), Cell(ScaleLat(lat)))
  }

  /** A coordinate is in one of the 2^26 equal parts of its axis, which starts at `low`; the far end in the last. */
  predicate InCell(coordinate: real, cell: nat, low: real, span: real) {
    && cell < 67108864 && low + cell as real * span / 67108864.0 <= coordinate
    && (coordinate < low + (cell + 1) as real * span / 67108864.0 || (coordinate == low + span && cell == 67108863))
  }

  /** A score names the cells of both coordinates. */
  lemma EncodedCells(lon: real, lat: real)
    requires ValidCoordinates(lon, lat)
    ensures InCell(lon, Odds(EncodeSpec(lon, lat)), -180.0, 360.0)
    ensures InCell(lat, Evens(EncodeSpec(lon, lat)), -85.05112878, 170.10225756)
  {
    ScaleRange(lon, lat);
    CellRange(ScaleLon(lon));
    CellRange(ScaleLat(lat));
    Separates(Cell(ScaleLon(lon)), Cell(ScaleLat(lat)));
  }

  method Encode(lon: real, lat: real) returns (hash: nat)
    requires ValidCoordinates(lon, lat)
    ensures hash == EncodeSpec(lon, lat) && hash < SCORES
  {
    ScaleRange(lon, lat);
    var x, y := Cell(ScaleLon(lon)), Cell(ScaleLat(lat));
    CellRange(ScaleLon(lon));
    CellRange(ScaleLat(lat));
    Sizes();
    SpreadBelow(x, AXIS_BITS);
    SpreadBelow(y, AXIS_BITS);
    var high := Spread26(x);
    var low := Spread26(y);
    hash := 2 * high + low;
  }

  /** The middle of a cell. */
  function MiddleLon(x: nat): real {
    var low := -180.0 + x as real * 360.0 / AXIS_CELLS as real;
    var high := -180.0 + (x + 1) as real * 360.0 / AXIS_CELLS as real;
    (low + high) * 0.5
  }

  function MiddleLat(y: nat): real {
    var low := -LATITUDE_MAX + y as real * (2.0 * LATITUDE_MAX) / AXIS_CELLS as real;
    var high := -LATITUDE_MAX + (y + 1) as real * (2.0 * LATITUDE_MAX) / AXIS_CELLS as real;
    (low + high) * 0.5
  }

  method Decode(hash: nat) returns (lon: real, lat: real)
    requires hash < SCORES
    ensures lon == MiddleLon(Odds(hash)) && lat == MiddleLat(Evens(hash))
    ensures ValidCoordinates(lon, lat) && EncodeSpec(lon, lat) == hash
  {
    var x, y := Separate(hash);
    lon, lat := MiddleLon(x), MiddleLat(y);
    EncodeDecoded(hash);
  }

  lemma ScaledMiddle(x: nat)
    ensures ScaleLon(MiddleLon(x)) == x as real + 0.5 && ScaleLat(MiddleLat(x)) == x as real + 0.5
    ensures x < AXIS_CELLS ==> ValidCoordinates(MiddleLon(x), MiddleLat(x))
  {
  }

  lemma MiddleEncodes(x: nat, y: nat)
    requires x < AXIS_CELLS && y < AXIS_CELLS
    ensures ValidCoordinates(MiddleLon(x), MiddleLat(y)) && EncodeSpec(MiddleLon(x), MiddleLat(y)) == Interleave(x, y)
  {
    ScaledMiddle(x);
    ScaledMiddle(y);
  }

  /** Every score is the score of its own coordinates. */
  lemma EncodeDecoded(hash: nat)
    requires hash < SCORES
    ensures var lon, lat := MiddleLon(Odds(hash)), MiddleLat(Evens(hash));
      ValidCoordinates(lon, lat) && EncodeSpec(lon, lat) == hash
  {
    Sizes();
    EvensBelow(hash, AXIS_BITS);
    MiddleEncodes(Odds(hash), Evens(hash));
    Interleaves(hash);
  }
}
