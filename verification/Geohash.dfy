/** Geohash cells over the reals: the interval-halving encoder against a decoder. */
module Geohash {
  import opened Basics

  const GEOHASH_ALPHABET: string := "0123456789bcdefghjkmnpqrstuvwxyz"

  datatype Cell = Cell(latLo: real, latHi: real, lonLo: real, lonHi: real)

  const WORLD: Cell := Cell(-90.0, 90.0, -180.0, 180.0)

  /** Bit `n` of a code halves the longitudes when `n` is even, the latitudes when it is odd. */
  function Halve(c: Cell, n: nat, upper: bool): Cell {
    if n % 2 == 0 then
      var mid := (c.lonLo + c.lonHi) / 2.0;
      if upper then c.(lonLo := mid) else c.(lonHi := mid)
    else
      var mid := (c.latLo + c.latHi) / 2.0;
      if upper then c.(latLo := mid) else c.(latHi := mid)
  }

  /** The cell a string of bits selects. */
  function CellOf(bits: seq<bool>): Cell
    decreases |bits|
  {
    if bits == [] then WORLD else Halve(CellOf(bits[..|bits| - 1]), |bits| - 1, bits[|bits| - 1])
  }

  /** A cell holds its lower bounds but not its upper ones; the outermost cells are open ended. */
  predicate Inside(c: Cell, lat: real, lon: real) {
    && (c.latLo <= lat || c.latLo == WORLD.latLo) && (lat < c.latHi || c.latHi == WORLD.latHi)
    && (c.lonLo <= lon || c.lonLo == WORLD.lonLo) && (lon < c.lonHi || c.lonHi == WORLD.lonHi)
  }

  predicate Proper(c: Cell) {
    WORLD.latLo <= c.latLo < c.latHi <= WORLD.latHi && WORLD.lonLo <= c.lonLo < c.lonHi <= WORLD.lonHi
  }

  /** The encoder's choice at bit `n`. */
  predicate UpperHalf(c: Cell, n: nat, lat: real, lon: real) {
    if n % 2 == 0 then lon >= (c.lonLo + c.lonHi) / 2.0 else lat >= (c.latLo + c.latHi) / 2.0
  }

  /** The encoder's first `n` choices. */
  function Path(lat: real, lon: real, n: nat): (bits: seq<bool>)
    ensures |bits| == n
    decreases n
  {
    if n == 0 then []
    else
      var before := Path(lat, lon, n - 1);
      before + [UpperHalf(CellOf(before), n - 1, lat, lon)]
  }

  function Power2(n: nat): nat { if n == 0 then 1 else 2 * Power2(n - 1) }

  /** Bits as a number, most significant first. */
  function Value(bits: seq<bool>): (v: nat)
    ensures v < Power2(|bits|)
    decreases |bits|
  {
    if bits == [] then 0 else 2 * Value(bits[..|bits| - 1]) + if bits[|bits| - 1] then 1 else 0
  }

  function LowBits(v: nat, n: nat): (bits: seq<bool>)
    ensures |bits| == n
  {
    if n == 0 then [] else LowBits(v / 2, n - 1) + [v % 2 == 1]
  }

  /** An alphabet: 32 letters, all different. */
  predicate IsAlphabet(a: string) {
    |a| == 32 && forall i, j | 0 <= i < j < |a| :: a[i] != a[j]
  }

  function Digit(c: char, a: string): nat {
    if a == "" || a[0] == c then 0 else 1 + Digit(c, a[1..])
  }

  /** Five bits to a letter. */
  function Letters(a: string, bits: seq<bool>): string
    requires |a| == 32
    decreases |bits|
  {
    if |bits| < 5 then ""
    else
      var last := bits[|bits| - 5..];
      Letters(a, bits[..|bits| - 5]) + [Letter(a, last)]
  }

  function Letter(a: string, five: seq<bool>): char
    requires |a| == 32 && |five| == 5
  {
    assert Power2(3) == 8 && Power2(5) == 32;
    a[Value(five)]
  }

  function BitsOf(a: string, code: string): seq<bool>
    decreases |code|
  {
    if code == "" then [] else BitsOf(a, code[..|code| - 1]) + LowBits(Digit(code[|code| - 1], a), 5)
  }

  /** The decoder. */
  function Decode(a: string, code: string): Cell { CellOf(BitsOf(a, code)) }

  function Code(a: string, lat: real, lon: real, precision: nat): string
    requires |a| == 32
  {
    Letters(a, Path(lat, lon, 5 * precision))
  }

  method EncodeGeohash(alphabet: string, lat: real, lon: real, precision: int) returns (geohash: string)
    requires |alphabet| == 32
    ensures geohash == Code(alphabet, lat, lon, Max(0, precision))
  {
    var latLo, latHi, lonLo, lonHi := -90.0, 90.0, -180.0, 180.0;
    geohash := "";
    var bits, bit, evenBit := 0, 0, true;
    ghost var path: seq<bool> := [];
    while |geohash| < precision
      invariant |geohash| <= Max(0, precision) && 0 <= bit < 5 && (|geohash| >= precision ==> bit == 0)
      invariant Running(alphabet, lat, lon, path, geohash, bits, bit, evenBit, Cell(latLo, latHi, lonLo, lonHi))
      decreases precision - |geohash|, 5 - bit
    {
      ghost var cell := Cell(latLo, latHi, lonLo, lonHi);
      var half;
      if evenBit {
        half, lonLo, lonHi := HalveInterval(lon, lonLo, lonHi);
      } else {
        half, latLo, latHi := HalveInterval(lat, latLo, latHi);
      }
      AnotherBit(alphabet, lat, lon, path, geohash, bits, bit, evenBit, cell, half, Cell(latLo, latHi, lonLo, lonHi));
      bits, path := 2 * bits + if half then 1 else 0, path + [half];
      evenBit := !evenBit;
      bit := bit + 1;
      if bit == 5 {
        AnotherLetter(alphabet, lat, lon, path, geohash, bits, evenBit, Cell(latLo, latHi, lonLo, lonHi));
        geohash := geohash + [alphabet[bits]];
        bits, bit := 0, 0;
      }
    }
    Whole(alphabet, lat, lon, path, geohash, bits);
  }

  lemma Whole(a: string, lat: real, lon: real, path: seq<bool>, geohash: string, bits: int)
    requires Encoded(a, lat, lon, path, geohash, bits) && |path| == 5 * |geohash|
    ensures geohash == Code(a, lat, lon, |geohash|)
  {
    assert path[..5 * |geohash|] == path;
  }

  /** One comparison with the middle of an interval. */
  method HalveInterval(x: real, lo: real, hi: real) returns (upper: bool, lo': real, hi': real)
    ensures upper == (x >= (lo + hi) / 2.0)
    ensures if upper then lo' == (lo + hi) / 2.0 && hi' == hi else lo' == lo && hi' == (lo + hi) / 2.0
  {
    var mid := (lo + hi) / 2.0;
    if x >= mid { return true, mid, hi; }
    return false, lo, mid;
  }

  /** The letters so far encode the whole groups of the path, and `bits` the group begun. */
  ghost predicate Encoded(a: string, lat: real, lon: real, path: seq<bool>, geohash: string, bits: int) {
    && |a| == 32
    && path == Path(lat, lon, |path|)
    && 5 * |geohash| <= |path|
    && geohash == Letters(a, path[..5 * |geohash|])
    && bits == Value(path[5 * |geohash|..])
  }

  /** Where the loop stands after `bit` bits of the next letter. */
  ghost predicate Running(a: string, lat: real, lon: real, path: seq<bool>, geohash: string, bits: int, bit: int, evenBit: bool, cell: Cell) {
    && Encoded(a, lat, lon, path, geohash, bits) && |path| == 5 * |geohash| + bit
    && evenBit == (|path| % 2 == 0) && cell == CellOf(path)
  }

  lemma AnotherBit(a: string, lat: real, lon: real, path: seq<bool>, geohash: string, bits: int, bit: int, evenBit: bool,
                   cell: Cell, half: bool, cell': Cell)
    requires Running(a, lat, lon, path, geohash, bits, bit, evenBit, cell)
    requires half == if evenBit then lon >= (cell.lonLo + cell.lonHi) / 2.0 else lat >= (cell.latLo + cell.latHi) / 2.0
    requires cell' == if evenBit
                      then (var mid := (cell.lonLo + cell.lonHi) / 2.0; if half then cell.(lonLo := mid) else cell.(lonHi := mid))
                      else (var mid := (cell.latLo + cell.latHi) / 2.0; if half then cell.(latLo := mid) else cell.(latHi := mid))
    ensures Running(a, lat, lon, path + [half], geohash, 2 * bits + if half then 1 else 0, bit + 1, !evenBit, cell')
  {
    assert half == UpperHalf(cell, |path|, lat, lon) && cell' == Halve(cell, |path|, half);
    AnotherEncoded(a, lat, lon, path, geohash, bits, half);
    NextChoice(path, half);
    Parity(|path|);
    assert |path + [half]| == |path| + 1;
  }

  lemma AnotherEncoded(a: string, lat: real, lon: real, path: seq<bool>, geohash: string, bits: int, half: bool)
    requires Encoded(a, lat, lon, path, geohash, bits) && half == UpperHalf(CellOf(path), |path|, lat, lon)
    ensures Encoded(a, lat, lon, path + [half], geohash, 2 * bits + if half then 1 else 0)
  {
    NextPath(lat, lon, |path|);
    NextValue(path, 5 * |geohash|, half);
  }

  lemma Parity(n: nat)
    ensures ((n + 1) % 2 == 0) == !(n % 2 == 0)
  {
  }

  lemma NextPath(lat: real, lon: real, n: nat)
    ensures var path := Path(lat, lon, n);
            Path(lat, lon, n + 1) == path + [UpperHalf(CellOf(path), n, lat, lon)]
  {
  }

  lemma NextChoice(path: seq<bool>, upper: bool)
    ensures CellOf(path + [upper]) == Halve(CellOf(path), |path|, upper)
  {
    assert (path + [upper])[..|path|] == path;
  }

  lemma NextValue(path: seq<bool>, from: nat, upper: bool)
    requires from <= |path|
    ensures (path + [upper])[..from] == path[..from]
    ensures Value((path + [upper])[from..]) == 2 * Value(path[from..]) + if upper then 1 else 0
  {
    var group := path[from..];
    assert (path + [upper])[from..] == group + [upper];
    assert (group + [upper])[..|group|] == group;
  }

  lemma AnotherLetter(a: string, lat: real, lon: real, path: seq<bool>, geohash: string, bits: int, evenBit: bool, cell: Cell)
    requires Running(a, lat, lon, path, geohash, bits, 5, evenBit, cell)
    ensures 0 <= bits < 32
    ensures Running(a, lat, lon, path, geohash + [a[bits]], 0, 0, evenBit, cell)
  {
    var from := 5 * |geohash|;
    NextLetter(a, path[..from], path[from..]);
    assert path == path[..from] + path[from..] && path[..from + 5] == path && path[from + 5..] == [];
  }

  lemma NextLetter(a: string, done: seq<bool>, group: seq<bool>)
    requires |a| == 32 && |group| == 5
    ensures Value(group) < 32
    ensures Letters(a, done + group) == Letters(a, done) + [a[Value(group)]]
  {
    assert Power2(3) == 8 && Power2(5) == 32;
    assert (done + group)[..|done|] == done && (done + group)[|done|..] == group;
  }

  lemma {:induction false} CellsAreProper(bits: seq<bool>)
    ensures Proper(CellOf(bits))
    decreases |bits|
  {
    if bits != [] { CellsAreProper(bits[..|bits| - 1]); }
  }

  lemma HalveIsInside(c: Cell, n: nat, upper: bool, lat: real, lon: real)
    requires Proper(c)
    ensures Inside(Halve(c, n, upper), lat, lon) <==> Inside(c, lat, lon) && upper == UpperHalf(c, n, lat, lon)
  {
  }

  /** A point lies in the cell of exactly one string of bits of each length. */
  lemma {:induction false} OnlyOnePath(bits: seq<bool>, lat: real, lon: real)
    ensures Inside(CellOf(bits), lat, lon) <==> bits == Path(lat, lon, |bits|)
    decreases |bits|
  {
    if bits != [] {
      var init, last := bits[..|bits| - 1], bits[|bits| - 1];
      OnlyOnePath(init, lat, lon);
      CellsAreProper(init);
      HalveIsInside(CellOf(init), |init|, last, lat, lon);
      assert bits == init + [last];
      NextPath(lat, lon, |init|);
      SameSnoc(init, last, Path(lat, lon, |init|), UpperHalf(CellOf(Path(lat, lon, |init|)), |init|, lat, lon));
    }
  }

  lemma SameSnoc(a: seq<bool>, x: bool, b: seq<bool>, y: bool)
    requires |a| == |b|
    ensures a + [x] == b + [y] <==> a == b && x == y
  {
    assert (a + [x])[..|a|] == a && (b + [y])[..|a|] == b;
    assert (a + [x])[|a|] == x && (b + [y])[|a|] == y;
  }

  /** `x / 2^k`. */
  function Halved(x: real, k: nat): real { if k == 0 then x else Halved(x, k - 1) / 2.0 }

  lemma {:induction false} CellSize(bits: seq<bool>)
    ensures var c := CellOf(bits);
            && c.lonHi - c.lonLo == Halved(360.0, (|bits| + 1) / 2)
            && c.latHi - c.latLo == Halved(180.0, |bits| / 2)
    decreases |bits|
  {
    if bits != [] { CellSize(bits[..|bits| - 1]); }
  }

  lemma {:induction false} BitsOfValue(bits: seq<bool>)
    ensures LowBits(Value(bits), |bits|) == bits
    decreases |bits|
  {
    if bits != [] {
      BitsOfValue(bits[..|bits| - 1]);
      assert bits == bits[..|bits| - 1] + [bits[|bits| - 1]];
    }
  }

  lemma {:induction false} ValueOfBits(v: nat, n: nat)
    requires v < Power2(n)
    ensures Value(LowBits(v, n)) == v
    decreases n
  {
    if n > 0 {
      ValueOfBits(v / 2, n - 1);
      assert LowBits(v, n)[..n - 1] == LowBits(v / 2, n - 1);
    }
  }

  lemma {:induction false} DigitOfLetter(a: string, v: nat)
    requires v < |a| && forall i, j | 0 <= i < j < |a| :: a[i] != a[j]
    ensures Digit(a[v], a) == v
    decreases v
  {
    if v > 0 { DigitOfLetter(a[1..], v - 1); }
  }

  lemma {:induction false} LetterOfDigit(a: string, c: char)
    requires c in a
    ensures Digit(c, a) < |a| && a[Digit(c, a)] == c
    decreases |a|
  {
    if a[0] != c { LetterOfDigit(a[1..], c); }
  }

  lemma LetterRoundTrip(a: string, group: seq<bool>)
    requires IsAlphabet(a) && |group| == 5
    ensures Value(group) < 32 && a[Value(group)] in a
    ensures LowBits(Digit(a[Value(group)], a), 5) == group
  {
    assert Power2(3) == 8 && Power2(5) == 32;
    DigitOfLetter(a, Value(group));
    BitsOfValue(group);
  }

  lemma BitsOfSnoc(a: string, code: string, c: char)
    ensures BitsOf(a, code + [c]) == BitsOf(a, code) + LowBits(Digit(c, a), 5)
  {
    assert (code + [c])[..|code|] == code;
  }

  /** Decoding undoes encoding on whole groups of five bits. */
  lemma {:induction false} BitsOfLetters(a: string, bits: seq<bool>, n: nat)
    requires IsAlphabet(a) && |bits| == 5 * n
    ensures |Letters(a, bits)| == n && BitsOf(a, Letters(a, bits)) == bits
    ensures forall c | c in Letters(a, bits) :: c in a
    decreases n
  {
    if n > 0 {
      var init, last := bits[..|bits| - 5], bits[|bits| - 5..];
      assert bits == init + last;
      BitsOfLetters(a, init, n - 1);
      NextLetter(a, init, last);
      LetterRoundTrip(a, last);
      BitsOfSnoc(a, Letters(a, init), a[Value(last)]);
    }
  }

  lemma LettersOfSnoc(a: string, init: string, c: char)
    requires IsAlphabet(a) && c in a && Letters(a, BitsOf(a, init)) == init
    ensures Letters(a, BitsOf(a, init + [c])) == init + [c]
  {
    LetterOfDigit(a, c);
    assert Power2(3) == 8 && Power2(5) == 32;
    ValueOfBits(Digit(c, a), 5);
    BitsOfSnoc(a, init, c);
    NextLetter(a, BitsOf(a, init), LowBits(Digit(c, a), 5));
  }

  lemma {:induction false} LettersOfBits(a: string, code: string)
    requires IsAlphabet(a) && forall c | c in code :: c in a
    ensures |BitsOf(a, code)| == 5 * |code| && Letters(a, BitsOf(a, code)) == code
    decreases |code|
  {
    if code != "" {
      var init, c := code[..|code| - 1], code[|code| - 1];
      assert code == init + [c];
      LettersOfBits(a, init);
      LettersOfSnoc(a, init, c);
    }
  }

  /** A point lies in the cell of exactly one code of each length, the one the encoder returns. */
  lemma OnlyOneCode(a: string, code: string, lat: real, lon: real)
    requires IsAlphabet(a) && forall c | c in code :: c in a
    ensures Inside(Decode(a, code), lat, lon) <==> code == Code(a, lat, lon, |code|)
  {
    var bits := BitsOf(a, code);
    LettersOfBits(a, code);
    OnlyOnePath(bits, lat, lon);
    BitsOfLetters(a, Path(lat, lon, |bits|), |code|);
  }

  /** The cell of the encoder's code holds the point and has the stated size, at every precision. */
  lemma CodeIsACell(a: string, lat: real, lon: real, precision: nat)
    requires IsAlphabet(a)
    ensures var c := Decode(a, Code(a, lat, lon, precision));
            && Inside(c, lat, lon)
            && c.lonHi - c.lonLo == Halved(360.0, (5 * precision + 1) / 2)
            && c.latHi - c.latLo == Halved(180.0, 5 * precision / 2)
  {
    var path := Path(lat, lon, 5 * precision);
    BitsOfLetters(a, path, precision);
    OnlyOnePath(path, lat, lon);
    CellSize(path);
  }

  /** For points on the map the open ends do not matter: the cell's bounds enclose the point. */
  lemma OnTheMap(c: Cell, lat: real, lon: real)
    requires Proper(c) && Inside(c, lat, lon) && -90.0 <= lat <= 90.0 && -180.0 <= lon <= 180.0
    ensures c.latLo <= lat <= c.latHi && c.lonLo <= lon <= c.lonHi
    ensures lat == c.latHi ==> lat == 90.0
    ensures lon == c.lonHi ==> lon == 180.0
  {
  }

  /** Two points share a code exactly when they share the cell. */
  lemma SameCodeSameCell(a: string, lat1: real, lon1: real, lat2: real, lon2: real, precision: nat)
    requires IsAlphabet(a)
    ensures Code(a, lat1, lon1, precision) == Code(a, lat2, lon2, precision)
            <==> Inside(Decode(a, Code(a, lat1, lon1, precision)), lat2, lon2)
  {
    BitsOfLetters(a, Path(lat1, lon1, 5 * precision), precision);
    OnlyOneCode(a, Code(a, lat1, lon1, precision), lat2, lon2);
  }

  /** A longer code extends a shorter one. */
  lemma {:induction false} LongerCodesExtend(a: string, lat: real, lon: real, short: nat, long: nat)
    requires |a| == 32 && short <= long
    ensures Code(a, lat, lon, short) <= Code(a, lat, lon, long)
    decreases long
  {
    if short < long {
      LongerCodesExtend(a, lat, lon, short, long - 1);
      var path, from := Path(lat, lon, 5 * long), 5 * (long - 1);
      PathExtends(lat, lon, from, 5 * long);
      NextLetter(a, path[..from], path[from..]);
      assert path == path[..from] + path[from..];
    }
  }

  lemma {:induction false} PathExtends(lat: real, lon: real, short: nat, long: nat)
    requires short <= long
    ensures Path(lat, lon, long)[..short] == Path(lat, lon, short)
    decreases long
  {
    if short < long { PathExtends(lat, lon, short, long - 1); }
  }

  /** The digits, then the lower-case letters without a, i, l and o. */
  function LetterAt(i: nat): char
    requires i < 32
  {
    if i < 10 then '0' + i as char
    else if i < 17 then 'b' + (i - 10) as char
    else if i < 19 then 'j' + (i - 17) as char
    else if i < 21 then 'm' + (i - 19) as char
    else 'p' + (i - 21) as char
  }

  lemma TheLetters(i: nat)
    requires i < 32
    ensures GEOHASH_ALPHABET[i] == LetterAt(i)
  {
  }

  /** The alphabet in use has 32 letters, all different. */
  lemma TheAlphabet()
    ensures IsAlphabet(GEOHASH_ALPHABET)
  {
    forall i, j | 0 <= i < j < 32 ensures GEOHASH_ALPHABET[i] != GEOHASH_ALPHABET[j] {
      TheLetters(i);
      TheLetters(j);
      assert LetterAt(i) < LetterAt(j);
    }
  }
}
