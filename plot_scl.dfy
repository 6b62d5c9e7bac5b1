/** Rendering the Sentinel-2 Level-2A scene classification layer (SCL) as an
    RGB image (plot_SCL.py): the twelve scene classes with their names and
    hexadecimal colours, the parsing of those colours, the per-class pixel
    counts, and the painting of an image buffer class by class. */
module PlotScl {
  import opened Common

  /** An SCL raster value: the layer is read as unsigned 8-bit integers. */
  newtype Byte = x: int | 0 <= x < 256

  datatype Rgb = Rgb(red: int, green: int, blue: int)

  predicate IsByteRgb(c: Rgb) {
    0 <= c.red < 256 && 0 <= c.green < 256 && 0 <= c.blue < 256
  }

  // ---------------------------------------------------------------------------
  // hex_to_rgb

  /** str.lstrip(c): s without its leading run of c. */
  function LStrip(s: string, c: char): (r: string)
    ensures |r| <= |s| && r == s[|s| - |r|..]
    ensures forall i :: 0 <= i < |s| - |r| ==> s[i] == c
    ensures |r| > 0 ==> r[0] != c
  {
    if |s| > 0 && s[0] == c then LStrip(s[1..], c) else s
  }

  /** The characters Python counts as whitespace and int() strips: space,
      tab to carriage return, the file, group, record and unit separators,
      and the Unicode spaces and line and paragraph separators. */
  predicate IsSpace(c: char) {
    var u := c as int;
    || u == 0x20 || 0x09 <= u <= 0x0d || 0x1c <= u <= 0x1f || u == 0x85 || u == 0xa0 || u == 0x1680
    || 0x2000 <= u <= 0x200a || u == 0x2028 || u == 0x2029 || u == 0x202f || u == 0x205f || u == 0x3000
  }

  function StripLeft(s: string): (r: string)
    ensures (forall i :: 0 <= i < |s| ==> !IsSpace(s[i])) ==> r == s
  {
    if |s| > 0 && IsSpace(s[0]) then StripLeft(s[1..]) else s
  }

  function StripRight(s: string): (r: string)
    ensures (forall i :: 0 <= i < |s| ==> !IsSpace(s[i])) ==> r == s
  {
    if |s| > 0 && IsSpace(s[|s| - 1]) then StripRight(s[..|s| - 1]) else s
  }

  /** The value of one hexadecimal digit, either case. */
  function HexDigit(c: char): (d: Option<nat>)
    ensures d.Some? ==> d.value < 16
    ensures d.Some? ==> !IsSpace(c) && c != '+' && c != '-' && c != '#'
  {
    if '0' <= c <= '9' then Some(c as int - '0' as int)
    else if 'a' <= c <= 'f' then Some(c as int - 'a' as int + 10)
    else if 'A' <= c <= 'F' then Some(c as int - 'A' as int + 10)
    else None
  }

  predicate AllHex(s: string) {
    forall i :: 0 <= i < |s| ==> HexDigit(s[i]).Some?
  }

  function Pow16(n: nat): (p: nat)
    ensures p >= 1
  {
    if n == 0 then 1 else 16 * Pow16(n - 1)
  }

  /** The number a string of hexadecimal digits denotes, most significant first. */
  function HexValue(s: string): (v: nat)
    requires AllHex(s)
    ensures v < Pow16(|s|)
  {
    if |s| == 0 then 0 else 16 * HexValue(s[..|s| - 1]) + HexDigit(s[|s| - 1]).value
  }

  /** The value of a string of hexadecimal digits, or None if some
      character is not one. */
  function ParseDigits(s: string): (v: Option<nat>)
    ensures v.Some? <==> AllHex(s)
    ensures v.Some? ==> v.value == HexValue(s)
  {
    if |s| == 0 then Some(0)
    else match (ParseDigits(s[..|s| - 1]), HexDigit(s[|s| - 1]))
      case (Some(high), Some(low)) => Some(16 * high + low)
      case _ => None
  }

  /** int(s, 16): surrounding whitespace is ignored, an optional sign is
      allowed, and at least one hexadecimal digit must follow; anything else
      is a ValueError. */
  function HexField(s: string): (r: Result<int>)
    ensures |s| > 0 && AllHex(s) ==> r == Success(HexValue(s))
    ensures s == [] ==> r == Failure(HexFormatError)
    ensures r.Failure? ==> r.error == HexFormatError
  {
    var t := StripRight(StripLeft(s));
    var negative := |t| > 0 && t[0] == '-';
    var digits := if |t| > 0 && (t[0] == '+' || t[0] == '-') then t[1..] else t;
    match ParseDigits(digits)
    case None => Failure(HexFormatError)
    case Some(v) =>
      if |digits| == 0 then Failure(HexFormatError)
      else Success(if negative then -(v as int) else v)
  }

  /** The generator of hex_to_rgb: int(s[i:i+2], 16) for each start i, in
      order; the first field that does not parse raises. */
  function Fields(s: string, starts: seq<nat>): (r: Result<seq<int>>)
    ensures r.Success? ==> |r.value| == |starts|
    ensures r.Failure? ==> r.error == HexFormatError
  {
    if |starts| == 0 then Success([])
    else
      match HexField(Slice(s, starts[0], starts[0] + 2))
      case Failure(e) => Failure(e)
      case Success(v) =>
        match Fields(s, starts[1..])
        case Failure(e) => Failure(e)
        case Success(rest) => Success([v] + rest)
  }

  /** The colour hex_to_rgb reads once the '#'s are gone: characters 0-1,
      2-3 and 4-5 as base-16 integers. */
  function DigitsToRgb(s: string): (r: Result<Rgb>)
    ensures r.Failure? ==> r.error == HexFormatError
  {
    match Fields(s, [0, 2, 4])
    case Failure(e) => Failure(e)
    case Success(v) => Success(Rgb(v[0], v[1], v[2]))
  }

  /** hex_to_rgb: leading '#' characters are dropped, one at a time, and
      the rest is read by DigitsToRgb. */
  function HexToRgb(hx: string): (r: Result<Rgb>)
    ensures r.Failure? ==> r.error == HexFormatError
  {
    if |hx| > 0 && hx[0] == '#' then HexToRgb(hx[1..]) else DigitsToRgb(hx)
  }

  /** hex_to_rgb reads the string lstrip('#') leaves. */
  lemma {:induction false} HexToRgbStrips(hx: string)
    ensures HexToRgb(hx) == DigitsToRgb(LStrip(hx, '#'))
  {
    if |hx| > 0 && hx[0] == '#' {
      HexToRgbStrips(hx[1..]);
    }
  }

  /** Fewer than five characters after the '#'s leave a component empty. */
  lemma ShortHexFails(hx: string)
    requires |LStrip(hx, '#')| <= 4
    ensures HexToRgb(hx) == Failure(HexFormatError)
  {
    HexToRgbStrips(hx);
    var s := LStrip(hx, '#');
    assert Slice(s, 4, 6) == [];
    FieldsStep(s, [4]);
    FieldsStep(s, [2, 4]);
    FieldsStep(s, [0, 2, 4]);
  }

  /** One step of the generator: the first field, then the others. */
  lemma FieldsStep(s: string, starts: seq<nat>)
    requires |starts| > 0
    ensures var first, rest := HexField(Slice(s, starts[0], starts[0] + 2)), Fields(s, starts[1..]);
            Fields(s, starts) == if first.Success? && rest.Success? then Success([first.value] + rest.value)
                                 else Failure(HexFormatError)
  {
  }

  /** The colour of the digits is the triple of their three fields when all
      three parse. */
  lemma DigitsOfFields(s: string, a: string, b: string, c: string)
    requires a == Slice(s, 0, 2) && b == Slice(s, 2, 4) && c == Slice(s, 4, 6)
    requires HexField(a).Success? && HexField(b).Success? && HexField(c).Success?
    ensures DigitsToRgb(s) == Success(Rgb(HexField(a).value, HexField(b).value, HexField(c).value))
  {
    assert [0, 2, 4][1..] == [2, 4] && [2, 4][1..] == [4] && [4][1..] == [];
    FieldsStep(s, [4]);
    FieldsStep(s, [2, 4]);
    FieldsStep(s, [0, 2, 4]);
    assert Fields(s, [0, 2, 4]) == Success([HexField(a).value] + ([HexField(b).value] + ([HexField(c).value] + [])));
  }

  /** The three fields of six hexadecimal digits are bytes. */
  lemma SixDigitFields(s: string)
    requires |s| >= 6 && AllHex(s[0..2]) && AllHex(s[2..4]) && AllHex(s[4..6])
    ensures var a, b, c := Slice(s, 0, 2), Slice(s, 2, 4), Slice(s, 4, 6);
            && a == s[0..2] && b == s[2..4] && c == s[4..6]
            && HexField(a) == Success(HexValue(a)) && HexField(b) == Success(HexValue(b)) && HexField(c) == Success(HexValue(c))
            && HexValue(a) < 256 && HexValue(b) < 256 && HexValue(c) < 256
  {
    var a, b, c := Slice(s, 0, 2), Slice(s, 2, 4), Slice(s, 4, 6);
    ByteField(a);
    ByteField(b);
    ByteField(c);
  }

  /** Six hexadecimal digits after the '#'s are read as three bytes. */
  lemma HexDigitsParse(hx: string)
    requires var s := LStrip(hx, '#'); |s| >= 6 && AllHex(s[0..2]) && AllHex(s[2..4]) && AllHex(s[4..6])
    ensures var s := LStrip(hx, '#');
            && HexToRgb(hx) == Success(Rgb(HexValue(s[0..2]), HexValue(s[2..4]), HexValue(s[4..6])))
            && HexValue(s[0..2]) < 256 && HexValue(s[2..4]) < 256 && HexValue(s[4..6]) < 256
  {
    var s := LStrip(hx, '#');
    SixDigitFields(s);
    DigitsOfFields(s, Slice(s, 0, 2), Slice(s, 2, 4), Slice(s, 4, 6));
    HexToRgbStrips(hx);
  }

  /** Two hexadecimal digits are read as a byte. */
  lemma ByteField(x: string)
    requires |x| == 2 && AllHex(x)
    ensures HexField(x) == Success(HexValue(x)) && HexValue(x) < 256
  {
    assert Pow16(2) == 256;
  }

  /** The lower-case spelling of a hexadecimal digit. */
  function HexChar(d: nat): (ch: char)
    requires d < 16
    ensures HexDigit(ch) == Some(d)
    ensures '0' <= ch <= '9' || 'a' <= ch <= 'f'
  {
    if d < 10 then ('0' as int + d) as char else ('a' as int + d - 10) as char
  }

  /** The value of two hexadecimal digits. */
  lemma HexValue2(a: char, b: char)
    requires HexDigit(a).Some? && HexDigit(b).Some?
    ensures AllHex([a, b]) && HexValue([a, b]) == 16 * HexDigit(a).value + HexDigit(b).value
  {
    assert [a, b][..1] == [a];
    assert [a][..0] == [];
  }

  /** Two lower-case hexadecimal digits of a byte. */
  function Hex2(n: int): (s: string)
    requires 0 <= n < 256
    ensures |s| == 2 && AllHex(s) && HexValue(s) == n
  {
    HexValue2(HexChar(n / 16), HexChar(n % 16));
    [HexChar(n / 16), HexChar(n % 16)]
  }

  /** The "#rrggbb" spelling of a colour, as the class table writes it. */
  function FormatHex(c: Rgb): (s: string)
    requires IsByteRgb(c)
    ensures |s| == 7 && s[0] == '#' && AllHex(s[1..])
  {
    "#" + Hex2(c.red) + Hex2(c.green) + Hex2(c.blue)
  }

  /** Parsing the spelling of a colour gives the colour back. */
  lemma ParseFormatHex(c: Rgb)
    requires IsByteRgb(c)
    ensures HexToRgb(FormatHex(c)) == Success(c)
  {
    var s := FormatHex(c)[1..];
    assert LStrip(FormatHex(c), '#') == s;
    assert s[0..2] == Hex2(c.red) && s[2..4] == Hex2(c.green) && s[4..6] == Hex2(c.blue);
    HexDigitsParse(FormatHex(c));
  }

  /** A lower-case digit is the spelling of its value. */
  lemma LowerDigit(ch: char)
    requires '0' <= ch <= '9' || 'a' <= ch <= 'f'
    ensures HexChar(HexDigit(ch).value) == ch
  {
  }

  /** Two lower-case digits are the spelling of their value. */
  lemma Hex2OfValue(x: string)
    requires |x| == 2 && forall i :: 0 <= i < 2 ==> '0' <= x[i] <= '9' || 'a' <= x[i] <= 'f'
    ensures AllHex(x) && HexValue(x) < 256 && Hex2(HexValue(x)) == x
  {
    LowerDigit(x[0]);
    LowerDigit(x[1]);
    HexValue2(x[0], x[1]);
    assert x == [x[0], x[1]];
    var d0, d1 := HexDigit(x[0]).value, HexDigit(x[1]).value;
    assert (16 * d0 + d1) / 16 == d0 && (16 * d0 + d1) % 16 == d1;
  }

  /** A lower-case "#rrggbb" spelling is the spelling of the colour of its
      three digit pairs. */
  lemma SpellingOfPairs(hx: string)
    requires |hx| == 7 && hx[0] == '#'
    requires forall i :: 1 <= i < 7 ==> '0' <= hx[i] <= '9' || 'a' <= hx[i] <= 'f'
    ensures AllHex(hx[1..])
    ensures var c := Rgb(HexValue(hx[1..3]), HexValue(hx[3..5]), HexValue(hx[5..7]));
            IsByteRgb(c) && FormatHex(c) == hx
  {
    var x, y, z := hx[1..3], hx[3..5], hx[5..7];
    Hex2OfValue(x);
    Hex2OfValue(y);
    Hex2OfValue(z);
    assert hx == "#" + x + y + z;
    forall i | 1 <= i < 7
      ensures HexDigit(hx[i]).Some?
    {
      LowerDigit(hx[i]);
    }
  }

  /** Lower-case "#rrggbb" spellings are exactly the spellings of colours. */
  lemma FormatParseHex(hx: string)
    requires |hx| == 7 && hx[0] == '#'
    requires forall i :: 1 <= i < 7 ==> '0' <= hx[i] <= '9' || 'a' <= hx[i] <= 'f'
    ensures HexToRgb(hx).Success? && IsByteRgb(HexToRgb(hx).value)
    ensures FormatHex(HexToRgb(hx).value) == hx
  {
    SpellingOfPairs(hx);
    var c := Rgb(HexValue(hx[1..3]), HexValue(hx[3..5]), HexValue(hx[5..7]));
    PairsSpell(hx, c);
    SpelledColour(hx, c);
  }

  /** The digit pairs of a lower-case spelling have the values of its colour. */
  lemma PairsSpell(hx: string, c: Rgb)
    requires |hx| == 7 && hx[0] == '#' && AllHex(hx[1..])
    requires c == Rgb(HexValue(hx[1..3]), HexValue(hx[3..5]), HexValue(hx[5..7]))
    ensures Spells(hx, c)
  {
    assert hx[1..3] == [hx[1], hx[2]] && hx[3..5] == [hx[3], hx[4]] && hx[5..7] == [hx[5], hx[6]];
    assert hx[1] == hx[1..][0] && hx[2] == hx[1..][1] && hx[3] == hx[1..][2];
    assert hx[4] == hx[1..][3] && hx[5] == hx[1..][4] && hx[6] == hx[1..][5];
    HexValue2(hx[1], hx[2]);
    HexValue2(hx[3], hx[4]);
    HexValue2(hx[5], hx[6]);
  }

  /** hex_to_rgb reads only what follows the leading '#'s. */
  lemma HexToRgbOfStripped(hx1: string, hx2: string)
    requires LStrip(hx1, '#') == LStrip(hx2, '#')
    ensures HexToRgb(hx1) == HexToRgb(hx2)
  {
    HexToRgbStrips(hx1);
    HexToRgbStrips(hx2);
  }

  /** The water colour of the table, with one '#' or two. */
  lemma HexToRgbExamples()
    ensures HexToRgb("#1500cd") == Success(Rgb(21, 0, 205))
    ensures HexToRgb("##1500cd") == Success(Rgb(21, 0, 205))
  {
    assert Spells("#1500cd", Rgb(21, 0, 205));
    SpelledColour("#1500cd", Rgb(21, 0, 205));
    assert "##1500cd"[1..] == "#1500cd";
  }

  /** A colour cut short after four digits is a ValueError. */
  lemma HexToRgbShortExample()
    ensures HexToRgb("#1500") == Failure(HexFormatError)
  {
    assert LStrip("#1500", '#') == "1500";
    ShortHexFails("#1500");
  }

  // ---------------------------------------------------------------------------
  // The class table

  /** One scene class; rgb is added once its colour has been parsed. */
  datatype SclClass = SclClass(name: string, color: string, rgb: Option<Rgb>)

  /** The class codes in the table's own order. */
  const SclCodes: seq<int> := [0, 1, 2, 3, 4, 5, 6, 7, 8, 9, 10, 11]

  /** The entry of the class table for one code from 0 to 11. */
  function ClassOf(code: int): SclClass
    requires 0 <= code < 12
  {
    if code == 0 then SclClass("NO_DATA", "#000000", None)
    else if code == 1 then SclClass("SATURATED_OR_DEFECTIVE", "#fb0c00", None)
    else if code == 2 then SclClass("DARK_AREA_PIXELS", "#3e3e3e", None)
    else if code == 3 then SclClass("CLOUD_SHADOWS", "#843900", None)
    else if code == 4 then SclClass("VEGETATION", "#29ff00", None)
    else if code == 5 then SclClass("NOT_VEGETATED", "#feff00", None)
    else if code == 6 then SclClass("WATER", "#1500cd", None)
    else if code == 7 then SclClass("UNCLASSIFIED", "#767271", None)
    else if code == 8 then SclClass("CLOUD_MEDIUM_PROBABILITY", "#afacab", None)
    else if code == 9 then SclClass("CLOUD_HIGH_PROBABILITY", "#d1cfcf", None)
    else if code == 10 then SclClass("THIN_CIRRUS", "#2ccdff", None)
    else SclClass("SNOW", "#fd66ff", None)
  }

  /** The Level-2A scene classification classes, keyed by code. */
  const SclClasses: map<int, SclClass> := map code | 0 <= code < 12 :: ClassOf(code)

  /** The RGB colour of one class. */
  function PaletteOf(code: int): Rgb
    requires 0 <= code < 12
  {
    if code == 0 then Rgb(0, 0, 0)
    else if code == 1 then Rgb(251, 12, 0)
    else if code == 2 then Rgb(62, 62, 62)
    else if code == 3 then Rgb(132, 57, 0)
    else if code == 4 then Rgb(41, 255, 0)
    else if code == 5 then Rgb(254, 255, 0)
    else if code == 6 then Rgb(21, 0, 205)
    else if code == 7 then Rgb(118, 114, 113)
    else if code == 8 then Rgb(175, 172, 171)
    else if code == 9 then Rgb(209, 207, 207)
    else if code == 10 then Rgb(44, 205, 255)
    else Rgb(253, 102, 255)
  }

  /** The colours of the classes as RGB triples. */
  const Palette: map<int, Rgb> := map code | 0 <= code < 12 :: PaletteOf(code)

  /** The table lists codes 0 to 11 once each, and code 6 is water. */
  lemma ClassTableCodes()
    ensures forall c :: c in SclClasses <==> 0 <= c < 12
    ensures forall c :: c in SclClasses <==> c in SclCodes
    ensures forall i, j :: 0 <= i < j < |SclCodes| ==> SclCodes[i] != SclCodes[j]
    ensures SclClasses[6].name == "WATER"
  {
  }

  /** The value of a pair of hexadecimal digits. */
  function PairValue(x: char, y: char): Option<int> {
    match (HexDigit(x), HexDigit(y))
    case (Some(hi), Some(lo)) => Some(16 * hi + lo)
    case _ => None
  }

  /** h is "#" followed by the three digit pairs of c. */
  predicate Spells(h: string, c: Rgb) {
    |h| == 7 && h[0] == '#' && PairValue(h[1], h[2]) == Some(c.red)
    && PairValue(h[3], h[4]) == Some(c.green) && PairValue(h[5], h[6]) == Some(c.blue)
  }

  /** A spelled colour is read back as that colour. */
  lemma SpelledColour(h: string, c: Rgb)
    requires Spells(h, c)
    ensures IsByteRgb(c) && HexToRgb(h) == Success(c)
  {
    var s := h[1..];
    SpelledPairs(h, c);
    assert LStrip(h, '#') == s by {
      assert LStrip(s, '#') == s;
    }
    HexDigitsParse(h);
  }

  /** The digit pairs after the '#' of a spelling and their values. */
  lemma SpelledPairs(h: string, c: Rgb)
    requires Spells(h, c)
    ensures var s := h[1..];
            && |s| == 6 && s[0] != '#'
            && AllHex(s[0..2]) && AllHex(s[2..4]) && AllHex(s[4..6])
            && HexValue(s[0..2]) == c.red && HexValue(s[2..4]) == c.green && HexValue(s[4..6]) == c.blue
  {
    var s := h[1..];
    HexValue2(h[1], h[2]);
    HexValue2(h[3], h[4]);
    HexValue2(h[5], h[6]);
    assert s[0..2] == [h[1], h[2]] && s[2..4] == [h[3], h[4]] && s[4..6] == [h[5], h[6]];
  }

  /** The colour of one class spells its palette entry. */
  lemma PaletteSpelling(c: int)
    requires c in SclClasses
    ensures c in Palette && Spells(SclClasses[c].color, Palette[c])
  {
    if c < 6 {
      LowSpellings(c);
    } else {
      HighSpellings(c);
    }
  }

  lemma LowSpellings(c: int)
    requires 0 <= c < 6
    ensures Spells(ClassOf(c).color, PaletteOf(c))
  {
    if c == 0 {
      assert Spells("#000000", Rgb(0, 0, 0));
    } else if c == 1 {
      assert Spells("#fb0c00", Rgb(251, 12, 0));
    } else if c == 2 {
      assert Spells("#3e3e3e", Rgb(62, 62, 62));
    } else if c == 3 {
      assert Spells("#843900", Rgb(132, 57, 0));
    } else if c == 4 {
      assert Spells("#29ff00", Rgb(41, 255, 0));
    } else if c == 5 {
      assert Spells("#feff00", Rgb(254, 255, 0));
    }
  }

  lemma HighSpellings(c: int)
    requires 6 <= c < 12
    ensures Spells(ClassOf(c).color, PaletteOf(c))
  {
    if c == 6 {
      assert Spells("#1500cd", Rgb(21, 0, 205));
    } else if c == 7 {
      assert Spells("#767271", Rgb(118, 114, 113));
    } else if c == 8 {
      assert Spells("#afacab", Rgb(175, 172, 171));
    } else if c == 9 {
      assert Spells("#d1cfcf", Rgb(209, 207, 207));
    } else if c == 10 {
      assert Spells("#2ccdff", Rgb(44, 205, 255));
    } else if c == 11 {
      assert Spells("#fd66ff", Rgb(253, 102, 255));
    }
  }

  /** Every colour of the table parses to the palette entry of its class. */
  lemma TableColours()
    ensures forall c :: c in SclClasses ==> c in Palette && IsByteRgb(Palette[c])
    ensures forall c :: c in SclClasses ==> HexToRgb(SclClasses[c].color) == Success(Palette[c])
  {
    forall c | c in SclClasses
      ensures c in Palette && IsByteRgb(Palette[c]) && HexToRgb(SclClasses[c].color) == Success(Palette[c])
    {
      PaletteSpelling(c);
      SpelledColour(SclClasses[c].color, Palette[c]);
    }
  }

  /** The position of the first code from i on whose colour `parse` rejects,
      or |codes|. */
  function FirstBadColour(classes: map<int, SclClass>, codes: seq<int>, i: nat, parse: string -> Result<Rgb>): (n: nat)
    requires i <= |codes| && forall k :: 0 <= k < |codes| ==> codes[k] in classes
    ensures i <= n <= |codes|
    ensures forall k :: i <= k < n ==> parse(classes[codes[k]].color).Success?
    ensures n < |codes| ==> parse(classes[codes[n]].color).Failure?
    decreases |codes| - i
  {
    if i == |codes| || parse(classes[codes[i]].color).Failure? then i
    else FirstBadColour(classes, codes, i + 1, parse)
  }

  /** The table after the parsed colour of the first n codes has been added. */
  function ColourPrefix(classes: map<int, SclClass>, codes: seq<int>, n: nat, parse: string -> Result<Rgb>): (t: map<int, SclClass>)
    requires n <= |codes| && forall k :: 0 <= k < |codes| ==> codes[k] in classes
    requires forall k :: 0 <= k < n ==> parse(classes[codes[k]].color).Success?
  {
    if n == 0 then classes
    else
      var t := ColourPrefix(classes, codes, n - 1, parse);
      var c := codes[n - 1];
      t[c := classes[c].(rgb := Some(parse(classes[c].color).value))]
  }

  /** Adding colours keeps every class, name and colour, gives each of the
      first n codes its parsed colour, and leaves the other classes as they
      were. */
  lemma {:induction false} ColourPrefixAt(classes: map<int, SclClass>, codes: seq<int>, n: nat, parse: string -> Result<Rgb>, c: int)
    requires n <= |codes| && forall k :: 0 <= k < |codes| ==> codes[k] in classes
    requires forall k :: 0 <= k < n ==> parse(classes[codes[k]].color).Success?
    ensures ColourPrefix(classes, codes, n, parse).Keys == classes.Keys
    ensures c in classes ==>
              var e := ColourPrefix(classes, codes, n, parse)[c];
              && e.name == classes[c].name && e.color == classes[c].color
              && e.rgb == (if c in codes[..n] then Some(parse(classes[c].color).value) else classes[c].rgb)
    decreases n
  {
    if n > 0 {
      ColourPrefixAt(classes, codes, n - 1, parse, c);
      assert codes[..n] == codes[..n - 1] + [codes[n - 1]];
    }
  }

  /** One step of the colour loop: a colour that parses moves on to the
      next code, one that does not is the first bad one. */
  lemma ColourStep(classes: map<int, SclClass>, codes: seq<int>, i: nat, parse: string -> Result<Rgb>, parsed: Result<Rgb>)
    requires i < |codes| && forall k :: 0 <= k < |codes| ==> codes[k] in classes
    requires forall k :: 0 <= k < i ==> parse(classes[codes[k]].color).Success?
    requires parsed == parse(classes[codes[i]].color)
    ensures parsed.Failure? ==> FirstBadColour(classes, codes, i, parse) == i
    ensures parsed.Success? ==>
              && FirstBadColour(classes, codes, i, parse) == FirstBadColour(classes, codes, i + 1, parse)
              && ColourPrefix(classes, codes, i + 1, parse)
                   == ColourPrefix(classes, codes, i, parse)[codes[i] := classes[codes[i]].(rgb := Some(parsed.value))]
  {
  }

  /** The class table of plot_SCL, which the colour loop updates in place. */
  class ClassTable {
    var classes: map<int, SclClass>
    const codes: seq<int>

    predicate Valid()
      reads this
    {
      forall k :: 0 <= k < |codes| ==> codes[k] in classes
    }

    constructor ()
      ensures classes == SclClasses && codes == SclCodes && Valid()
    {
      classes := SclClasses;
      codes := SclCodes;
    }

    /** The loop that adds rgb_color to each class in table order, with the
        colour parser `parse` (hex_to_rgb in plot_SCL); a colour that does
        not parse stops it with the parser's error, after the classes before
        it have been coloured. */
    method AddRgbColours(parse: string -> Result<Rgb>) returns (err: Option<Error>)
      requires Valid()
      modifies this
      ensures Valid()
      ensures var n := FirstBadColour(old(classes), codes, 0, parse);
              && classes == ColourPrefix(old(classes), codes, n, parse)
              && (err.None? <==> n == |codes|)
              && (err.Some? ==> n < |codes| && err.value == parse(old(classes)[codes[n]].color).error)
    {
      ghost var original := classes;
      var i := 0;
      while i < |codes|
        invariant 0 <= i <= FirstBadColour(original, codes, 0, parse)
        invariant FirstBadColour(original, codes, 0, parse) == FirstBadColour(original, codes, i, parse)
        invariant classes == ColourPrefix(original, codes, i, parse)
        invariant Valid()
      {
        var c := codes[i];
        ColourPrefixAt(original, codes, i, parse, c);
        var parsed := parse(classes[c].color);
        ColourStep(original, codes, i, parse, parsed);
        if parsed.Failure? {
          return Some(parsed.error);
        }
        classes := classes[c := classes[c].(rgb := Some(parsed.value))];
        i := i + 1;
      }
      return None;
    }
  }

  /** When every colour from i on parses, none is bad. */
  lemma {:induction false} NoBadColour(classes: map<int, SclClass>, codes: seq<int>, i: nat, parse: string -> Result<Rgb>)
    requires i <= |codes| && forall k :: 0 <= k < |codes| ==> codes[k] in classes
    requires forall k :: i <= k < |codes| ==> parse(classes[codes[k]].color).Success?
    ensures FirstBadColour(classes, codes, i, parse) == |codes|
    decreases |codes| - i
  {
    if i < |codes| {
      NoBadColour(classes, codes, i + 1, parse);
    }
  }

  /** Once every colour has parsed, each listed class carries its parsed
      colour. */
  lemma FullPrefix(classes: map<int, SclClass>, codes: seq<int>, parse: string -> Result<Rgb>, c: int)
    requires forall k :: 0 <= k < |codes| ==> codes[k] in classes && parse(classes[codes[k]].color).Success?
    requires c in classes && c in codes
    ensures c in ColourPrefix(classes, codes, |codes|, parse)
    ensures ColourPrefix(classes, codes, |codes|, parse)[c]
              == classes[c].(rgb := Some(parse(classes[c].color).value))
  {
    ColourPrefixAt(classes, codes, |codes|, parse, c);
    assert codes[..|codes|] == codes;
  }

  /** Every colour of the table plot_SCL builds parses. */
  lemma DefaultParses(classes: map<int, SclClass>, codes: seq<int>)
    requires classes == SclClasses && codes == SclCodes
    ensures forall k :: 0 <= k < |codes| ==> codes[k] in classes && HexToRgb(classes[codes[k]].color).Success?
    ensures forall c :: c in classes ==> c in codes && HexToRgb(classes[c].color) == Success(Palette[c])
  {
    ClassTableCodes();
    TableColours();
  }

  /** In the table plot_SCL builds, every colour parses and every class gets
      its palette colour. */
  lemma DefaultColours(classes: map<int, SclClass>, codes: seq<int>)
    requires classes == SclClasses && codes == SclCodes
    ensures forall k :: 0 <= k < |codes| ==> codes[k] in classes
    ensures FirstBadColour(classes, codes, 0, HexToRgb) == |codes|
    ensures var t := ColourPrefix(classes, codes, |codes|, HexToRgb);
            && t.Keys == classes.Keys
            && forall c :: c in t ==> t[c] == classes[c].(rgb := Some(Palette[c]))
  {
    DefaultParses(classes, codes);
    NoBadColour(classes, codes, 0, HexToRgb);
    var t := ColourPrefix(classes, codes, |codes|, HexToRgb);
    ColourPrefixAt(classes, codes, |codes|, HexToRgb, 0);
    forall c | c in t
      ensures t[c] == classes[c].(rgb := Some(Palette[c]))
    {
      FullPrefix(classes, codes, HexToRgb, c);
    }
  }

  // ---------------------------------------------------------------------------
  // Per-class counts

  /** The number of values below v. */
  function Below(s: seq<Byte>, v: int): (n: nat)
    ensures n <= |s|
  {
    if |s| == 0 then 0 else (if (s[|s| - 1] as int) < v then 1 else 0) + Below(s[..|s| - 1], v)
  }

  lemma {:induction false} BelowStep(s: seq<Byte>, v: Byte)
    ensures Below(s, v as int + 1) == Below(s, v as int) + Count(s, v)
    decreases |s|
  {
    if |s| > 0 {
      BelowStep(s[..|s| - 1], v);
    }
  }

  lemma {:induction false} BelowBounds(s: seq<Byte>)
    ensures Below(s, 0) == 0 && Below(s, 256) == |s|
    decreases |s|
  {
    if |s| > 0 {
      BelowBounds(s[..|s| - 1]);
    }
  }

  /** np.unique(..., return_counts=True) from code `from` up: the values
      present, in increasing order, with their counts. */
  function Histogram(s: seq<Byte>, from: nat): (h: seq<(Byte, nat)>)
    requires from <= 256
    ensures forall i :: 0 <= i < |h| ==> from <= h[i].0 as int && h[i].1 == Count(s, h[i].0) && h[i].1 > 0
    ensures forall i, j :: 0 <= i < j < |h| ==> h[i].0 < h[j].0
    decreases 256 - from
  {
    if from == 256 then []
    else
      var v := from as Byte;
      var rest := Histogram(s, from + 1);
      CountBound(s, v);
      if Count(s, v) > 0 then [(v, Count(s, v))] + rest else rest
  }

  /** Every value from code `from` up has its line in the histogram. */
  lemma {:induction false} HistogramCovers(s: seq<Byte>, from: nat, k: nat)
    requires from <= 256 && k < |s| && from <= s[k] as int
    ensures exists i :: 0 <= i < |Histogram(s, from)| && Histogram(s, from)[i].0 == s[k]
    decreases 256 - from
  {
    var v := from as Byte;
    var h := Histogram(s, from);
    CountBound(s, v);
    if s[k] == v {
      assert h[0].0 == s[k];
    } else {
      HistogramCovers(s, from + 1, k);
      var rest := Histogram(s, from + 1);
      var i :| 0 <= i < |rest| && rest[i].0 == s[k];
      if Count(s, v) > 0 {
        assert h[i + 1].0 == s[k];
      } else {
        assert h[i].0 == s[k];
      }
    }
  }

  function SumCounts(h: seq<(Byte, nat)>): nat {
    if |h| == 0 then 0 else h[0].1 + SumCounts(h[1..])
  }

  /** The counts from code `from` up add up to the values from there up. */
  lemma {:induction false} HistogramSum(s: seq<Byte>, from: nat)
    requires from <= 256
    ensures SumCounts(Histogram(s, from)) == |s| - Below(s, from)
    decreases 256 - from
  {
    if from == 256 {
      BelowBounds(s);
    } else {
      HistogramSum(s, from + 1);
      BelowStep(s, from as Byte);
      var v := from as Byte;
      if Count(s, v) > 0 {
        var h := Histogram(s, from);
        assert h[1..] == Histogram(s, from + 1);
      }
    }
  }

  /** One report line: code, class name, pixel count. */
  datatype ReportLine = ReportLine(code: Byte, name: string, count: nat)

  /** The lines of a histogram; a code missing from the table is a KeyError. */
  function ReportLines(h: seq<(Byte, nat)>, classes: map<int, SclClass>): (r: Result<seq<ReportLine>>)
    ensures r.Success? <==> forall i :: 0 <= i < |h| ==> h[i].0 as int in classes
    ensures r.Failure? ==> exists i :: 0 <= i < |h| && h[i].0 as int !in classes && r.error == UnknownSclCode(h[i].0 as int)
    ensures r.Success? ==> |r.value| == |h| && forall i :: 0 <= i < |h| ==>
              r.value[i] == ReportLine(h[i].0, classes[h[i].0 as int].name, h[i].1)
  {
    if |h| == 0 then Success([])
    else if h[0].0 as int !in classes then Failure(UnknownSclCode(h[0].0 as int))
    else
      match ReportLines(h[1..], classes)
      case Failure(e) => Failure(e)
      case Success(rest) => Success([ReportLine(h[0].0, classes[h[0].0 as int].name, h[0].1)] + rest)
  }

  function SumLines(lines: seq<ReportLine>): nat {
    if |lines| == 0 then 0 else lines[0].count + SumLines(lines[1..])
  }

  /** The per-class report of plot_SCL: the lines of np.unique's codes and
      counts, looked up in the class table. */
  function SclReport(scl: Grid<Byte>, classes: map<int, SclClass>): Result<seq<ReportLine>> {
    ReportLines(Histogram(Ravel(scl), 0), classes)
  }

  /** The report has one line per code present, in increasing code order,
      with the class name and the number of pixels of that code. */
  lemma ReportLinesCounted(scl: Grid<Byte>, classes: map<int, SclClass>)
    requires SclReport(scl, classes).Success?
    ensures var lines := SclReport(scl, classes).value;
            && (forall i :: 0 <= i < |lines| ==>
                  && lines[i].count == Count(Ravel(scl), lines[i].code) > 0
                  && lines[i].name == classes[lines[i].code as int].name)
            && (forall i, j :: 0 <= i < j < |lines| ==> lines[i].code < lines[j].code)
            && (forall k :: 0 <= k < |Ravel(scl)| ==> exists i :: 0 <= i < |lines| && lines[i].code == Ravel(scl)[k])
  {
    var flat := Ravel(scl);
    var h := Histogram(flat, 0);
    forall k | 0 <= k < |flat|
      ensures exists i :: 0 <= i < |h| && h[i].0 == flat[k]
    {
      HistogramCovers(flat, 0, k);
    }
  }

  /** The report succeeds exactly when every code of the raster is in the
      table. */
  lemma ReportSucceeds(scl: Grid<Byte>, classes: map<int, SclClass>)
    ensures SclReport(scl, classes).Success? <==> forall k :: 0 <= k < |Ravel(scl)| ==> Ravel(scl)[k] as int in classes
  {
    var flat := Ravel(scl);
    var h := Histogram(flat, 0);
    if ReportLines(h, classes).Success? {
      forall k | 0 <= k < |flat|
        ensures flat[k] as int in classes
      {
        HistogramCovers(flat, 0, k);
        var i :| 0 <= i < |h| && h[i].0 == flat[k];
      }
    } else {
      ReportKeyError(scl, classes);
    }
  }

  /** A failed report is the KeyError of a code of the raster that is not in
      the table. */
  lemma ReportKeyError(scl: Grid<Byte>, classes: map<int, SclClass>)
    requires SclReport(scl, classes).Failure?
    ensures exists k :: 0 <= k < |Ravel(scl)| && Ravel(scl)[k] as int !in classes
                        && SclReport(scl, classes).error == UnknownSclCode(Ravel(scl)[k] as int)
  {
    var flat := Ravel(scl);
    var h := Histogram(flat, 0);
    var r := ReportLines(h, classes);
    var i :| 0 <= i < |h| && h[i].0 as int !in classes && r.error == UnknownSclCode(h[i].0 as int);
    CountBound(flat, h[i].0);
    var k :| 0 <= k < |flat| && flat[k] == h[i].0;
  }

  lemma {:induction false} SumLinesOfHistogram(h: seq<(Byte, nat)>, classes: map<int, SclClass>)
    requires ReportLines(h, classes).Success?
    ensures SumLines(ReportLines(h, classes).value) == SumCounts(h)
    decreases |h|
  {
    if |h| > 0 {
      SumLinesOfHistogram(h[1..], classes);
    }
  }

  /** The counts of a report add up to the number of pixels. */
  lemma ReportCountsSum(scl: Grid<Byte>, nx: nat, ny: nat, classes: map<int, SclClass>)
    requires IsGrid(scl, nx, ny) && SclReport(scl, classes).Success?
    ensures SumLines(SclReport(scl, classes).value) == nx * ny
  {
    var flat := Ravel(scl);
    SumLinesOfHistogram(Histogram(flat, 0), classes);
    HistogramSum(flat, 0);
    BelowBounds(flat);
    RavelLength(scl, nx, ny);
  }

  // ---------------------------------------------------------------------------
  // Painting

  /** The colour a pixel of code v gets once the classes `codes` have been
      painted: its class colour if its code is among them, black otherwise. */
  function Painted(v: Byte, codes: seq<int>, palette: map<int, Rgb>): (c: Rgb)
    requires forall k :: 0 <= k < |codes| ==> codes[k] in palette
  {
    if v as int in codes then palette[v as int] else Rgb(0, 0, 0)
  }

  /** The three channels of pixel (x, y) of an image buffer. */
  function Pixel(img: array3<int>, x: nat, y: nat): Rgb
    requires x < img.Length0 && y < img.Length1 && img.Length2 == 3
    reads img
  {
    Rgb(img[x, y, 0], img[x, y, 1], img[x, y, 2])
  }

  /** Every pixel of the buffer has the colour Painted gives its code. */
  ghost predicate PaintedImage(img: array3<int>, scl: Grid<Byte>, n: nat, codes: seq<int>, palette: map<int, Rgb>)
    requires IsGrid(scl, n, n) && img.Length0 == n && img.Length1 == n && img.Length2 == 3
    requires forall k :: 0 <= k < |codes| ==> codes[k] in palette
    reads img
  {
    forall x, y :: 0 <= x < n && 0 <= y < n ==> Pixel(img, x, y) == Painted(scl[x][y], codes, palette)
  }

  /** The fill: a black (ny, nx, 3) byte buffer, then, class by class, every
      pixel whose code is that class gets the class colour.  The buffer is
      indexed with the (nx, ny) selection, which numpy refuses unless the
      raster is square. */
  method Paint(scl: Grid<Byte>, nx: nat, ny: nat, codes: seq<int>, palette: map<int, Rgb>)
    returns (err: Option<Error>, img: array3<int>)
    requires IsGrid(scl, nx, ny)
    requires forall k :: 0 <= k < |codes| ==> codes[k] in palette && IsByteRgb(palette[codes[k]])
    ensures fresh(img) && img.Length0 == ny && img.Length1 == nx && img.Length2 == 3
    ensures err.Some? <==> nx != ny && |codes| > 0
    ensures err.Some? ==> err.value == IndexError
    ensures err.None? && nx == ny ==> PaintedImage(img, scl, nx, codes, palette)
  {
    img := new int[ny, nx, 3]((_, _, _) => 0);
    if nx != ny {
      if |codes| > 0 {
        return Some(IndexError), img;
      }
      return None, img;
    }
    var n := nx;
    for i := 0 to |codes|
      invariant PaintedImage(img, scl, n, codes[..i], palette)
    {
      var c := codes[i];
      var colour := palette[c];
      PaintClass(img, scl, n, codes[..i], c, palette);
      assert codes[..i + 1] == codes[..i] + [c];
    }
    assert codes[..|codes|] == codes;
    return None, img;
  }

  /** One class of the fill: every pixel of code c gets the colour of c. */
  method PaintClass(img: array3<int>, scl: Grid<Byte>, n: nat, done: seq<int>, c: int, palette: map<int, Rgb>)
    requires IsGrid(scl, n, n) && img.Length0 == n && img.Length1 == n && img.Length2 == 3
    requires forall k :: 0 <= k < |done| ==> done[k] in palette
    requires c in palette
    requires PaintedImage(img, scl, n, done, palette)
    modifies img
    ensures PaintedImage(img, scl, n, done + [c], palette)
  {
    var colour := palette[c];
    for x := 0 to n
      invariant forall p, q :: 0 <= p < n && 0 <= q < n ==>
                  Pixel(img, p, q) == Painted(scl[p][q], if p < x then done + [c] else done, palette)
    {
      for y := 0 to n
        invariant forall p, q :: 0 <= p < n && 0 <= q < n ==>
                    Pixel(img, p, q) == Painted(scl[p][q], if p < x || (p == x && q < y) then done + [c] else done, palette)
      {
        if scl[x][y] as int == c {
          img[x, y, 0] := colour.red;
          img[x, y, 1] := colour.green;
          img[x, y, 2] := colour.blue;
        }
      }
    }
  }

  /** What plot_SCL computes: the class report and, when the image is shown
      or saved, the painted buffer. */
  datatype PlotOutput = PlotOutput(report: seq<ReportLine>, image: Option<array3<int>>)

  /** plot_SCL on a loaded SCL raster: colour the table, report the size
      together with the minimum and maximum code (which numpy refuses for an
      empty raster), report the counts, paint the image if it is shown or
      saved. */
  method PlotSclLayer(scl: Grid<Byte>, showImage: bool, savePng: bool) returns (r: Result<PlotOutput>)
    requires IsGrid(scl, |scl|, Cols(scl))
    ensures |scl| * Cols(scl) == 0 ==> r == Failure(EmptyReduction)
    ensures |scl| * Cols(scl) > 0 && SclReport(scl, SclClasses).Failure? ==>
              r == Failure(SclReport(scl, SclClasses).error)
    ensures |scl| * Cols(scl) > 0 && SclReport(scl, SclClasses).Success? && r.Failure? ==> r.error == IndexError
    ensures |scl| * Cols(scl) > 0 && SclReport(scl, SclClasses).Success? ==>
              (r.Success? <==> !(showImage || savePng) || |scl| == Cols(scl))
    ensures r.Success? ==> r.value.report == SclReport(scl, SclClasses).value
                           && (r.value.image.Some? <==> showImage || savePng)
    ensures r.Success? && r.value.image.Some? ==>
              var img := r.value.image.value;
              && fresh(img) && img.Length0 == |scl| && img.Length1 == |scl| && img.Length2 == 3
              && Cols(scl) == |scl|
              && forall x, y :: 0 <= x < |scl| && 0 <= y < |scl| ==> Pixel(img, x, y) == ClassColour(scl[x][y])
  {
    var table := NewColouredTable();
    var palette := map c | c in table.classes :: table.classes[c].rgb.value;
    TablePalette(table.classes, palette);
    if |scl| * Cols(scl) == 0 {
      return Failure(EmptyReduction);
    }
    var report := SclReport(scl, table.classes);
    ReportTableNames(scl, table.classes, SclClasses);
    if report.Failure? {
      return Failure(report.error);
    }
    if !(showImage || savePng) {
      return Success(PlotOutput(report.value, None));
    }
    PaletteCovers(table.codes);
    var err, img := Paint(scl, |scl|, Cols(scl), table.codes, palette);
    if err.Some? {
      return Failure(err.value);
    }
    LayerImage(img, scl, |scl|);
    return Success(PlotOutput(report.value, Some(img)));
  }

  /** The colour of a pixel of the rendered layer: its class colour, or black
      for a code outside the table. */
  function ClassColour(v: Byte): (c: Rgb)
    ensures 0 <= v as int < 12 ==> c == PaletteOf(v as int)
    ensures 12 <= v as int ==> c == Rgb(0, 0, 0)
  {
    if v as int in Palette then Palette[v as int] else Rgb(0, 0, 0)
  }

  /** The buffer painted with every class of the table shows each pixel in
      its class colour. */
  lemma LayerImage(img: array3<int>, scl: Grid<Byte>, n: nat)
    requires IsGrid(scl, n, n) && img.Length0 == n && img.Length1 == n && img.Length2 == 3
    requires forall k :: 0 <= k < |SclCodes| ==> SclCodes[k] in Palette
    requires PaintedImage(img, scl, n, SclCodes, Palette)
    ensures forall x, y :: 0 <= x < n && 0 <= y < n ==> Pixel(img, x, y) == ClassColour(scl[x][y])
  {
    ClassTableCodes();
  }

  /** The class table of plot_SCL after its colour loop: no colour fails to
      parse, so every class has its palette colour and nothing else changes. */
  method NewColouredTable() returns (table: ClassTable)
    ensures fresh(table) && table.codes == SclCodes && table.Valid()
    ensures table.classes.Keys == SclClasses.Keys
    ensures forall c :: c in table.classes ==> table.classes[c] == SclClasses[c].(rgb := Some(Palette[c]))
  {
    table := new ClassTable();
    var colourErr := table.AddRgbColours(HexToRgb);
    DefaultColours(SclClasses, SclCodes);
    assert colourErr.None?;
  }

  /** The rgb colours of the coloured table are the palette. */
  lemma TablePalette(classes: map<int, SclClass>, palette: map<int, Rgb>)
    requires classes.Keys == SclClasses.Keys
    requires forall c :: c in classes ==> classes[c] == SclClasses[c].(rgb := Some(Palette[c]))
    requires palette == map c | c in classes :: classes[c].rgb.value
    ensures palette == Palette
  {
    ClassTableCodes();
  }

  /** Every class code has a byte colour in the palette. */
  lemma PaletteCovers(codes: seq<int>)
    requires codes == SclCodes
    ensures forall k :: 0 <= k < |codes| ==> codes[k] in Palette && IsByteRgb(Palette[codes[k]])
  {
  }

  /** The report reads only the keys and names of the table. */
  lemma ReportTableNames(scl: Grid<Byte>, t1: map<int, SclClass>, t2: map<int, SclClass>)
    requires t1.Keys == t2.Keys && forall c :: c in t1 ==> t1[c].name == t2[c].name
    ensures SclReport(scl, t1) == SclReport(scl, t2)
  {
    var h := Histogram(Ravel(scl), 0);
    SameLines(h, t1, t2);
  }

  lemma {:induction false} SameLines(h: seq<(Byte, nat)>, t1: map<int, SclClass>, t2: map<int, SclClass>)
    requires t1.Keys == t2.Keys && forall c :: c in t1 ==> t1[c].name == t2[c].name
    ensures ReportLines(h, t1) == ReportLines(h, t2)
    decreases |h|
  {
    if |h| > 0 {
      SameLines(h[1..], t1, t2);
    }
  }
}
