/**
 * `getCountryFlag`: a country code becomes an emoji flag by moving every
 * upper-cased UTF-16 code unit by 127397, which takes 'A'..'Z' to the
 * Regional Indicator Symbols U+1F1E6..U+1F1FF; a pair of them is an emoji
 * flag sequence (definition ED-14 of Unicode Technical Standard #51). A falsy
 * code gives a globe instead; the globe differs between the variants.
 */
module Flag {
  import opened Wrappers
  import opened Text

  const RegionalOffset: int := 127397
  /** The first and last Regional Indicator Symbols, for 'A' and 'Z'. */
  const IndicatorA: int := 0x1F1E6
  const IndicatorZ: int := 0x1F1FF

  /** U+1F30D, the globe of the hover and inline variants. */
  const EarthGlobe: string := "\U{1F30D}"
  /** U+1F310, the globe of the selection variant. */
  const MeridianGlobe: string := "\U{1F310}"

  predicate IsAsciiUpper(c: char) { 'A' <= c <= 'Z' }
  predicate IsAsciiLower(c: char) { 'a' <= c <= 'z' }

  /** `toUpperCase` on one character, for the ASCII letters. */
  function AsciiUpper(c: char): (u: char)
    ensures IsAsciiLower(c) ==> IsAsciiUpper(u) && u as int == c as int - 32
    ensures !IsAsciiLower(c) ==> u == c
  {
    if IsAsciiLower(c) then (c as int - 32) as char else c
  }

  function Upper(s: string): (r: string)
    ensures |r| == |s| && forall i :: 0 <= i < |s| ==> r[i] == AsciiUpper(s[i])
  {
    seq(|s|, i requires 0 <= i < |s| => AsciiUpper(s[i]))
  }

  /** The UTF-16 code units of c: itself, or a surrogate pair above U+FFFF. */
  function CodeUnits(c: char): (us: seq<int>)
    ensures 1 <= |us| <= 2 && forall i :: 0 <= i < |us| ==> 0 <= us[i] <= 0xFFFF
    ensures |us| == 1 <==> c as int <= 0xFFFF
    ensures c as int <= 0xFFFF ==> us == [c as int]
  {
    if c as int <= 0xFFFF then [c as int]
    else
      var v := c as int - 0x10000;
      [0xD800 + v / 0x400, 0xDC00 + v % 0x400]
  }

  /** `s.split('')` mapped to `charCodeAt`: the UTF-16 code units of s. */
  function Units(s: string): (us: seq<int>)
    ensures forall i :: 0 <= i < |us| ==> 0 <= us[i] <= 0xFFFF
    ensures |us| >= |s|
  {
    if s == [] then [] else CodeUnits(s[0]) + Units(s[1..])
  }

  /** Characters inside the Basic Multilingual Plane are one code unit each. */
  lemma {:induction false} UnitsOfBmp(s: string)
    requires forall i :: 0 <= i < |s| ==> s[i] as int <= 0xFFFF
    ensures |Units(s)| == |s| && forall i :: 0 <= i < |s| ==> Units(s)[i] == s[i] as int
  {
    if s != [] {
      UnitsOfBmp(s[1..]);
      assert Units(s) == [s[0] as int] + Units(s[1..]);
    }
  }

  /** `String.fromCodePoint(...)` of the moved code units. */
  function Indicators(units: seq<int>): (flag: string)
    requires forall i :: 0 <= i < |units| ==> 0 <= units[i] <= 0xFFFF
    ensures |flag| == |units|
    ensures forall i :: 0 <= i < |units| ==> flag[i] as int == RegionalOffset + units[i]
  {
    seq(|units|, i requires 0 <= i < |units| => (RegionalOffset + units[i]) as char)
  }

  /** `getCountryFlag(code)`; `globe` is the variant's glyph for a falsy code. */
  function CountryFlag(code: Field, globe: string): (flag: string)
    ensures !Truthy(code) ==> flag == globe
  {
    if Truthy(code) then Indicators(Units(Upper(code.value))) else globe
  }

  /** Moving back by 127397 recovers the upper-cased code unit by unit. */
  lemma FlagRoundTrip(code: Field, globe: string)
    requires Truthy(code)
    ensures var flag := CountryFlag(code, globe);
            seq(|flag|, i requires 0 <= i < |flag| => flag[i] as int - RegionalOffset) == Units(Upper(code.value))
  {
  }

  /**
   * A code of ASCII letters, in either case, becomes one Regional Indicator
   * Symbol per letter, the n-th letter of the alphabet giving the n-th symbol.
   */
  lemma {:induction false} LettersGiveIndicators(code: string, globe: string)
    requires code != []
    requires forall i :: 0 <= i < |code| ==> IsAsciiUpper(code[i]) || IsAsciiLower(code[i])
    ensures var flag := CountryFlag(Some(code), globe);
            |flag| == |code| &&
            forall i :: 0 <= i < |code| ==>
              IndicatorA <= flag[i] as int <= IndicatorZ &&
              flag[i] as int == IndicatorA + (AsciiUpper(code[i]) as int - 'A' as int)
  {
    var up := Upper(code);
    UnitsOfBmp(up);
  }

  /** Letter case does not matter. */
  lemma CaseInsensitive(a: string, b: string, globe: string)
    requires |a| == |b| && forall i :: 0 <= i < |a| ==> AsciiUpper(a[i]) == AsciiUpper(b[i])
    ensures CountryFlag(Some(a), globe) == CountryFlag(Some(b), globe)
  {
    assert Upper(a) == Upper(b);
  }

  /** "US" is the flag sequence U+1F1FA U+1F1F8. */
  lemma UnitedStates(globe: string)
    ensures CountryFlag(Some("US"), globe) == "\U{1F1FA}\U{1F1F8}"
  {
    var flag := CountryFlag(Some("US"), globe);
    LettersGiveIndicators("US", globe);
    assert flag[0] as int == 0x1F1FA && flag[1] as int == 0x1F1F8;
  }
}
