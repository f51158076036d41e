/**
 * The `fill` attribute of a polygon: the texture's mean colour written as
 * `#rrggbb` in lowercase hex, or white when the texture has no colour.
 */
module Fill {
  import opened Wrappers
  import opened Colors

  predicate IsLowerHexDigit(c: char)
  {
    '0' <= c <= '9' || 'a' <= c <= 'f'
  }

  function HexDigit(d: int): (c: char)
    requires 0 <= d < 16
    ensures IsLowerHexDigit(c)
  {
    if d < 10 then ('0' as int + d) as char else ('a' as int + d - 10) as char
  }

  function DigitValue(c: char): (d: int)
    requires IsLowerHexDigit(c)
    ensures 0 <= d < 16
    ensures HexDigit(d) == c
  {
    if c <= '9' then c as int - '0' as int else c as int - 'a' as int + 10
  }

  /** The `{:02x}` format of a byte: two lowercase digits, zero-padded, most significant first. */
  function Hex2(n: Byte): (s: string)
    ensures |s| == 2 && IsLowerHexDigit(s[0]) && IsLowerHexDigit(s[1])
    ensures 16 * DigitValue(s[0]) + DigitValue(s[1]) == n
  {
    [HexDigit(n / 16), HexDigit(n % 16)]
  }

  /** The colour drawn for a texture: its table entry, or white when it has none. */
  function ColorOf(table: map<string, Rgb>, name: string): Rgb
  {
    if name in table then table[name] else White
  }

  /** A well-formed fill: '#' and six lowercase hex digits. */
  predicate IsHexFill(s: string)
  {
    |s| == 7 && s[0] == '#' && forall k :: 1 <= k < 7 ==> IsLowerHexDigit(s[k])
  }

  /** Reads a byte back from two hex digits. */
  function ParseHex2(hi: char, lo: char): Byte
    requires IsLowerHexDigit(hi) && IsLowerHexDigit(lo)
  {
    16 * DigitValue(hi) + DigitValue(lo)
  }

  /** Reads a colour back from a fill string. */
  function ParseFill(s: string): Option<Rgb>
  {
    if IsHexFill(s) then
      Some(Rgb(ParseHex2(s[1], s[2]), ParseHex2(s[3], s[4]), ParseHex2(s[5], s[6])))
    else None
  }

  /**
   * The fill of texture `name`: always '#' and six lowercase hex digits,
   * and reading it back gives the texture's colour (white when absent).
   */
  function FillColor(table: map<string, Rgb>, name: string): (s: string)
    ensures IsHexFill(s)
    ensures ParseFill(s) == Some(ColorOf(table, name))
  {
    var c := ColorOf(table, name);
    var s := "#" + Hex2(c.r) + Hex2(c.g) + Hex2(c.b);
    assert s[1..3] == Hex2(c.r) && s[3..5] == Hex2(c.g) && s[5..7] == Hex2(c.b);
    s
  }

  /** Two colours with the same fill are the same colour. */
  lemma FillInjective(table1: map<string, Rgb>, name1: string, table2: map<string, Rgb>, name2: string)
    requires FillColor(table1, name1) == FillColor(table2, name2)
    ensures ColorOf(table1, name1) == ColorOf(table2, name2)
  {
    assert ParseFill(FillColor(table1, name1)) == Some(ColorOf(table1, name1));
  }

  /** A texture missing from the table is filled white. */
  lemma MissingTextureIsWhite(table: map<string, Rgb>, name: string)
    requires name !in table
    ensures FillColor(table, name) == "#ffffff"
  {
    assert Hex2(255) == "ff";
  }

  /** The colour (10, 20, 30) is written "#0a141e". */
  lemma FillExample()
    ensures FillColor(map["metal" := Rgb(10, 20, 30)], "metal") == "#0a141e"
  {
    assert Hex2(10) == "0a";
    assert Hex2(20) == "14";
    assert Hex2(30) == "1e";
  }
}
