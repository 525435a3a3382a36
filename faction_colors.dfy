/** Colours and their CSS hex form (src/constants/faction_colors.py).
    Components are Python ints with no range check; `as_hex` looks up the
    nibbles `c >> 4` and `c & 0xF` of every component in `string.hexdigits`,
    keeps or cuts the alpha pair, and upper-cases the result. */
module FactionColors {
  import opened Wrappers
  import opened Python

  datatype Color = Color(r: int, g: int, b: int, a: int)

  /** `color(r, g, b, a=255)`. */
  function MakeColor(r: int, g: int, b: int, a: int := 255): (c: Color)
    ensures c.r == r && c.g == g && c.b == b && c.a == a
  {
    Color(r, g, b, a)
  }

  /** `as_ints`. */
  function AsInts(c: Color): (t: (int, int, int, int))
    ensures MakeColor(t.0, t.1, t.2, t.3) == c
  {
    (c.r, c.g, c.b, c.a)
  }

  /** Python's `string.hexdigits`. */
  const HEXDIGITS: string := "0123456789abcdefABCDEF"


  /** `str.upper` on the ASCII letters. */
  function Upper(c: char): (u: char)
    ensures 'a' <= c <= 'z' ==> u as int == c as int - 32
    ensures !('a' <= c <= 'z') ==> u == c
  {
    if 'a' <= c <= 'z' then (c as int - 32) as char else c
  }

  function UpperString(s: string): (u: string)
    ensures |u| == |s| && forall i :: 0 <= i < |s| ==> u[i] == Upper(s[i])
  {
    seq(|s|, i requires 0 <= i < |s| => Upper(s[i]))
  }

  /** The value of a hexadecimal digit of either case, -1 for other
      characters. */
  function HexValue(c: char): int {
    if '0' <= c <= '9' then c as int - '0' as int
    else if 'A' <= c <= 'F' then c as int - 'A' as int + 10
    else if 'a' <= c <= 'f' then c as int - 'a' as int + 10
    else -1
  }

  /** The upper-case digit of a nibble. */
  function DigitChar(n: int): (ch: char)
    requires 0 <= n < 16
    ensures IsUpperHexDigit(ch) && HexValue(ch) == n
  {
    match n
      case 0 => '0' case 1 => '1' case 2 => '2' case 3 => '3'
      case 4 => '4' case 5 => '5' case 6 => '6' case 7 => '7'
      case 8 => '8' case 9 => '9' case 10 => 'A' case 11 => 'B'
      case 12 => 'C' case 13 => 'D' case 14 => 'E' case 15 => 'F'
  }

  predicate IsUpperHexDigit(ch: char) {
    '0' <= ch <= '9' || 'A' <= ch <= 'F'
  }

  /** The eight nibble indices of `as_hex`, in output order: `c >> 4` is
      floor division by 16 and `c & 0xF` the non-negative remainder, which
      are Dafny's `/` and `%` for the divisor 16, negatives included. */
  function Nibbles(c: Color): seq<int> {
    [c.r / 16, c.r % 16, c.g / 16, c.g % 16, c.b / 16, c.b % 16, c.a / 16, c.a % 16]
  }

  /** The lookups of the f-string: IndexError (None) as soon as one index
      is out of range, otherwise one digit per index. */
  function Lookups(ns: seq<int>): (r: Option<string>)
    ensures r.Some? <==> forall i :: 0 <= i < |ns| ==> -|HEXDIGITS| <= ns[i] < |HEXDIGITS|
    ensures r.Some? ==> |r.value| == |ns|
    ensures r.Some? ==> forall i :: 0 <= i < |ns| ==> Some(r.value[i]) == PyIndex(HEXDIGITS, ns[i])
  {
    if forall i :: 0 <= i < |ns| ==> PyIndex(HEXDIGITS, ns[i]).Some? then
      Some(seq(|ns|, i requires 0 <= i < |ns| && PyIndex(HEXDIGITS, ns[i]).Some? => PyIndex(HEXDIGITS, ns[i]).value))
    else
      None
  }

  datatype ColorError = IndexError

  /** `as_hex`: "#", the eight digits and a space, cut by `[:-1]` with alpha
      and by `[:-3]` without, then upper-cased.  Every nibble is looked up
      whether or not the alpha pair is kept. */
  function AsHex(c: Color, alpha: bool): (r: Result<string, ColorError>)
    ensures r.Ok? ==> |r.value| == (if alpha then 9 else 7) && r.value[0] == '#'
  {
    match Lookups(Nibbles(c))
      case None => Err(IndexError)
      case Some(digits) =>
        var full := "#" + digits + " ";
        Ok(UpperString(if alpha then full[..|full| - 1] else full[..|full| - 3]))
  }

  /** The component range whose nibbles index `hexdigits` without error. */
  predicate Encodable(x: int) {
    -352 <= x < 352
  }

  predicate InByteRange(x: int) {
    0 <= x < 256
  }

  /** The three faction colours, alpha 255. */
  const VS: Color := MakeColor(68, 14, 98)
  const NC: Color := MakeColor(0, 75, 128)
  const TR: Color := MakeColor(158, 11, 15)

  // ---------------------------------------------------------------------
  // Lemmas
  // ---------------------------------------------------------------------

  /** Upper-casing a digit of `hexdigits` below 16 gives the upper-case
      digit of the same value. */
  lemma UpperDigit(n: int)
    requires 0 <= n < 16
    ensures Upper(HEXDIGITS[n]) == DigitChar(n)
  {
  }

  /** `as_hex` raises exactly when some component, the alpha included even
      when it is cut off, lies outside -352 .. 351; so whether it raises
      does not depend on `alpha`. */
  lemma {:induction false} AsHexFails(c: Color, alpha: bool)
    ensures AsHex(c, alpha).Err? <==>
            !(Encodable(c.r) && Encodable(c.g) && Encodable(c.b) && Encodable(c.a))
  {
    var ns := Nibbles(c);
    if Encodable(c.r) && Encodable(c.g) && Encodable(c.b) && Encodable(c.a) {
      forall i | 0 <= i < |ns| ensures -|HEXDIGITS| <= ns[i] < |HEXDIGITS| {
      }
    } else if !Encodable(c.r) {
      assert !(-|HEXDIGITS| <= ns[0] < |HEXDIGITS|);
    } else if !Encodable(c.g) {
      assert !(-|HEXDIGITS| <= ns[2] < |HEXDIGITS|);
    } else if !Encodable(c.b) {
      assert !(-|HEXDIGITS| <= ns[4] < |HEXDIGITS|);
    } else {
      assert !(-|HEXDIGITS| <= ns[6] < |HEXDIGITS|);
    }
  }

  /** The shape of `as_hex` whenever it succeeds, one position at a time:
      '#' first, then position i is the upper-cased lookup of nibble i - 1. */
  lemma {:induction false} AsHexAt(c: Color, alpha: bool, i: int)
    requires Encodable(c.r) && Encodable(c.g) && Encodable(c.b) && Encodable(c.a)
    requires 0 <= i < (if alpha then 9 else 7)
    ensures AsHex(c, alpha).Ok? && |AsHex(c, alpha).value| == (if alpha then 9 else 7)
    ensures i == 0 ==> AsHex(c, alpha).value[i] == '#'
    ensures i > 0 ==> PyIndex(HEXDIGITS, Nibbles(c)[i - 1]).Some? &&
                      AsHex(c, alpha).value[i] == Upper(PyIndex(HEXDIGITS, Nibbles(c)[i - 1]).value)
  {
    AsHexFails(c, alpha);
    var digits := Lookups(Nibbles(c)).value;
    var full := "#" + digits + " ";
    if i > 0 {
      assert full[i] == digits[i - 1];
      assert Some(digits[i - 1]) == PyIndex(HEXDIGITS, Nibbles(c)[i - 1]);
    }
  }

  /** Every nibble of a byte colour is a digit value. */
  lemma NibblesOfBytes(c: Color)
    requires InByteRange(c.r) && InByteRange(c.g) && InByteRange(c.b) && InByteRange(c.a)
    ensures |Nibbles(c)| == 8 && forall j :: 0 <= j < 8 ==> 0 <= Nibbles(c)[j] < 16
  {
  }

  /** For byte components position i > 0 is the upper-case digit of nibble
      i - 1. */
  lemma {:induction false} AsHexOfBytesAt(c: Color, alpha: bool, i: int)
    requires InByteRange(c.r) && InByteRange(c.g) && InByteRange(c.b) && InByteRange(c.a)
    requires 0 < i < (if alpha then 9 else 7)
    ensures AsHex(c, alpha).Ok? && |AsHex(c, alpha).value| == (if alpha then 9 else 7)
    ensures 0 <= Nibbles(c)[i - 1] < 16 && AsHex(c, alpha).value[i] == DigitChar(Nibbles(c)[i - 1])
  {
    NibblesOfBytes(c);
    var n := Nibbles(c)[i - 1];
    AsHexAt(c, alpha, i);
    UpperDigit(n);
  }

  /** For byte components, `as_hex` is "#RRGGBBAA" with alpha and "#RRGGBB"
      without, every digit pair reading back as its component, and only '#'
      and upper-case hex digits appear. */
  lemma {:induction false} AsHexOfBytes(c: Color, alpha: bool)
    requires InByteRange(c.r) && InByteRange(c.g) && InByteRange(c.b) && InByteRange(c.a)
    ensures AsHex(c, alpha).Ok?
    ensures var s := AsHex(c, alpha).value;
            && |s| == (if alpha then 9 else 7)
            && s[0] == '#'
            && (forall i :: 1 <= i < |s| ==> IsUpperHexDigit(s[i]))
            && 16 * HexValue(s[1]) + HexValue(s[2]) == c.r
            && 16 * HexValue(s[3]) + HexValue(s[4]) == c.g
            && 16 * HexValue(s[5]) + HexValue(s[6]) == c.b
            && (alpha ==> 16 * HexValue(s[7]) + HexValue(s[8]) == c.a)
  {
    AsHexAt(c, alpha, 0);
    var s := AsHex(c, alpha).value;
    forall i | 1 <= i < |s| ensures IsUpperHexDigit(s[i]) {
      AsHexOfBytesAt(c, alpha, i);
    }
    AsHexOfBytesAt(c, alpha, 1);
    AsHexOfBytesAt(c, alpha, 2);
    AsHexOfBytesAt(c, alpha, 3);
    AsHexOfBytesAt(c, alpha, 4);
    AsHexOfBytesAt(c, alpha, 5);
    AsHexOfBytesAt(c, alpha, 6);
    if alpha {
      AsHexOfBytesAt(c, alpha, 7);
      AsHexOfBytesAt(c, alpha, 8);
    }
  }

  /** Without alpha the text is the alpha form minus its last two digits. */
  lemma {:induction false} AsHexPrefix(c: Color)
    ensures AsHex(c, true).Ok? <==> AsHex(c, false).Ok?
    ensures AsHex(c, true).Ok? ==> |AsHex(c, true).value| == 9 && |AsHex(c, false).value| == 7
    ensures AsHex(c, true).Ok? ==> AsHex(c, false).value == AsHex(c, true).value[..7]
  {
    AsHexFails(c, true);
    AsHexFails(c, false);
    if AsHex(c, true).Ok? {
      AsHexAt(c, true, 0);
      AsHexAt(c, false, 0);
    }
  }

  /** The CSS colour `as_hex` gives without alpha, spelled out. */
  lemma {:induction false} CssColor(c: Color)
    requires InByteRange(c.r) && InByteRange(c.g) && InByteRange(c.b) && InByteRange(c.a)
    ensures AsHex(c, false) ==
            Ok(['#', DigitChar(c.r / 16), DigitChar(c.r % 16), DigitChar(c.g / 16),
                DigitChar(c.g % 16), DigitChar(c.b / 16), DigitChar(c.b % 16)])
  {
    AsHexAt(c, false, 0);
    AsHexOfBytesAt(c, false, 1);
    AsHexOfBytesAt(c, false, 2);
    AsHexOfBytesAt(c, false, 3);
    AsHexOfBytesAt(c, false, 4);
    AsHexOfBytesAt(c, false, 5);
    AsHexOfBytesAt(c, false, 6);
    var s := AsHex(c, false).value;
    assert s == [s[0], s[1], s[2], s[3], s[4], s[5], s[6]];
  }

  /** The faction colours in CSS form: VS purple, NC blue, TR red. */
  lemma VsHex()
    ensures AsHex(VS, false) == Ok("#440E62")
  {
    assert VS == Color(68, 14, 98, 255);
    CssColor(Color(68, 14, 98, 255));
    assert AsHex(VS, false) == Ok(['#', DigitChar(4), DigitChar(4), DigitChar(0), DigitChar(14), DigitChar(6), DigitChar(2)]);
  }

  lemma NcHex()
    ensures AsHex(NC, false) == Ok("#004B80")
  {
    assert NC == Color(0, 75, 128, 255);
    CssColor(Color(0, 75, 128, 255));
    assert AsHex(NC, false) == Ok(['#', DigitChar(0), DigitChar(0), DigitChar(4), DigitChar(11), DigitChar(8), DigitChar(0)]);
  }

  lemma TrHex()
    ensures AsHex(TR, false) == Ok("#9E0B0F")
  {
    assert TR == Color(158, 11, 15, 255);
    CssColor(Color(158, 11, 15, 255));
    assert AsHex(TR, false) == Ok(['#', DigitChar(9), DigitChar(14), DigitChar(0), DigitChar(11), DigitChar(0), DigitChar(15)]);
  }

  /** The value a digit pair of `as_hex` reads back as, for a component
      that does not raise: the high nibble indexes `hexdigits` (negative
      ones from the end), and the upper-cased letters at 16 .. 21 read as
      10 .. 15. */
  function ReadBack(x: int): int
    requires Encodable(x)
  {
    var k := x / 16;
    var high := if k >= 16 then k - 6 else if k >= 0 then k else if k >= -6 then 16 + k else 22 + k;
    16 * high + x % 16
  }

  /** The digit a nibble index in -22 .. 21 produces, read as a value. */
  lemma DigitValue(k: int)
    requires -22 <= k < 22
    ensures var v := HexValue(Upper(PyIndex(HEXDIGITS, k).value));
            v == if k >= 16 then k - 6 else if k >= 0 then k else if k >= -6 then 16 + k else 22 + k
  {
    var j := if k >= 0 then k else 22 + k;
    assert PyIndex(HEXDIGITS, k).value == HEXDIGITS[j];
    if j < 16 {
      UpperDigit(j);
    } else {
      assert HEXDIGITS[16..] == "ABCDEF";
      assert HEXDIGITS[j] == "ABCDEF"[j - 16];
    }
  }

  /** Component j of a colour, in the order of `as_hex`. */
  function Component(c: Color, j: int): int
    requires 0 <= j < 4
  {
    [c.r, c.g, c.b, c.a][j]
  }

  /** Whatever `as_hex` returns reads back, digit pair j by digit pair j,
      as ReadBack of component j. */
  lemma {:induction false} AsHexReadsBack(c: Color, alpha: bool, j: int)
    requires Encodable(c.r) && Encodable(c.g) && Encodable(c.b) && Encodable(c.a)
    requires 0 <= j < (if alpha then 4 else 3)
    ensures AsHex(c, alpha).Ok? && |AsHex(c, alpha).value| == (if alpha then 9 else 7)
    ensures 16 * HexValue(AsHex(c, alpha).value[2 * j + 1]) + HexValue(AsHex(c, alpha).value[2 * j + 2]) ==
            ReadBack(Component(c, j))
  {
    var x := Component(c, j);
    assert Nibbles(c)[2 * j] == x / 16 && Nibbles(c)[2 * j + 1] == x % 16;
    AsHexAt(c, alpha, 2 * j + 1);
    AsHexAt(c, alpha, 2 * j + 2);
    DigitValue(x / 16);
    DigitValue(x % 16);
  }

  /** A component reads back as itself exactly when it is a byte: 256 .. 351
      read back 96 less, -96 .. -1 as 256 more, and -352 .. -97 as 352
      more. */
  lemma ReadBackExact(x: int)
    requires Encodable(x)
    ensures ReadBack(x) == x <==> InByteRange(x)
    ensures 256 <= x ==> ReadBack(x) == x - 96
    ensures -96 <= x < 0 ==> ReadBack(x) == x + 256
    ensures x < -96 ==> ReadBack(x) == x + 352
  {
  }

  /** A colour built without alpha is opaque. */
  lemma DefaultAlpha(r: int, g: int, b: int)
    ensures AsInts(MakeColor(r, g, b)) == (r, g, b, 255)
  {
  }
}
