// Burned-in caption styling: the editor's default style, the "reset to
// default" button and the hex-to-rgba conversion used for the caption
// background colour.

module Style {
  import opened JsString

  /** The caption style settings the user can change in the style panel. */
  datatype CaptionStyle = CaptionStyle(
    color: string,
    strokeColor: string,
    shadowColor: string,
    bgColor: string,
    bgOpacity: real,
    shadowBlur: real,
    sizeScale: real,
    fontWeight: int,
    fontFamily: string)

  /** The first entry of the font menu, the initial font family. */
  const DefaultFontFamily: string := "\"Inter\", \"Microsoft YaHei\", sans-serif"

  /** The style the editor starts with. */
  function Default(): CaptionStyle {
    CaptionStyle("#ffffff", "#000000", "#000000", "#000000", 0.5, 8.0, 1.0, 700, DefaultFontFamily)
  }

  /** The reset button: every setting back to its initial value except the
      background colour and the font family, which it does not touch. */
  function Reset(s: CaptionStyle): (r: CaptionStyle)
    ensures r.bgColor == s.bgColor && r.fontFamily == s.fontFamily
    ensures r.(bgColor := Default().bgColor, fontFamily := Default().fontFamily) == Default()
  {
    Default().(bgColor := s.bgColor, fontFamily := s.fontFamily)
  }

  /** Resetting twice is resetting once. */
  lemma ResetIdempotent(s: CaptionStyle)
    ensures Reset(Reset(s)) == Reset(s)
  {
  }

  /** A reset brings back the initial style exactly when the background
      colour and the font family already have their initial values. */
  lemma ResetRestoresDefaultIff(s: CaptionStyle)
    ensures Reset(s) == Default() <==>
      s.bgColor == Default().bgColor && s.fontFamily == Default().fontFamily
  {
    if Reset(s) == Default() {
      assert Reset(s).bgColor == Default().bgColor;
      assert Reset(s).fontFamily == Default().fontFamily;
    }
  }

  /** Colour components as `parseInt` reads them, and the opacity. */
  datatype Rgba = Rgba(r: JsInt, g: JsInt, b: JsInt, alpha: real)

  /** `hexToRgba`: characters 1-2, 3-4 and 5-6 of the string are read as
      base-16 numbers. */
  function HexToRgba(hex: string, opacity: real): Rgba
  {
    Rgba(ParseIntHex(Slice(hex, 1, 3)), ParseIntHex(Slice(hex, 3, 5)), ParseIntHex(Slice(hex, 5, 7)), opacity)
  }

  /** Lower-case hexadecimal digit of a value below 16. */
  function HexDigit(d: nat): (c: char)
    requires d < 16
    ensures IsHexDigit(c) && HexDigitValue(c) == d
  {
    if d < 10 then ('0' as int + d) as char else ('a' as int + d - 10) as char
  }

  /** Two-digit hexadecimal rendering of a byte value. */
  function HexByte(v: nat): (r: string)
    requires v < 256
    ensures |r| == 2
  {
    [HexDigit(v / 16), HexDigit(v % 16)]
  }

  /** The `#rrggbb` form a colour picker produces. */
  function ColorHex(r: nat, g: nat, b: nat): (s: string)
    requires r < 256 && g < 256 && b < 256
    ensures |s| == 7 && s[0] == '#'
  {
    "#" + HexByte(r) + HexByte(g) + HexByte(b)
  }

  /** `parseInt(_, 16)` reads a two-digit rendering back as its value. */
  lemma {:induction false} ParseHexByte(v: nat)
    requires v < 256
    ensures ParseIntHex(HexByte(v)) == Int(v)
  {
    var s := HexByte(v);
    assert !IsWhitespace(s[0]);
    assert TrimStart(s) == s;
    assert s[1] != 'x' && s[1] != 'X';
    assert HexRun(s[1..]) == 1;
    assert HexRun(s) == 2;
    assert s[..2] == s;
    assert s[..1][..0] == [];
    assert HexValue(s[..1]) == v / 16;
    assert HexValue(s) == 16 * (v / 16) + v % 16;
  }

  /** A colour picked as `#rrggbb` converts to exactly its components. */
  lemma {:induction false} HexToRgbaRoundTrip(r: nat, g: nat, b: nat, opacity: real)
    requires r < 256 && g < 256 && b < 256
    ensures HexToRgba(ColorHex(r, g, b), opacity) == Rgba(Int(r), Int(g), Int(b), opacity)
  {
    var s := ColorHex(r, g, b);
    assert Slice(s, 1, 3) == HexByte(r);
    assert Slice(s, 3, 5) == HexByte(g);
    assert Slice(s, 5, 7) == HexByte(b);
    ParseHexByte(r);
    ParseHexByte(g);
    ParseHexByte(b);
  }

  /** A three-digit shorthand such as `#fff` has no characters 5-6, so its
      blue component is NaN. */
  lemma ShortHexBlueIsNaN(hex: string, opacity: real)
    requires |hex| <= 5
    ensures HexToRgba(hex, opacity).b == NaN
  {
    assert Slice(hex, 5, 7) == [];
    assert HexRun([]) == 0;
  }
}
