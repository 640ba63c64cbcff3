/** Colour-string parsing of the bundled chart library (the `color` helper of
    chart.js): `#rrggbb` and `#rgb` hex strings, the CSS named-colour table, and the
    order in which `getRgba` tries named, hex, rgb() and hsl() forms. The regular
    expressions behind rgb()/hsl() parsing are not part of this model: those two
    parsers are parameters. */
module ChartColor {
  import opened Wrappers

  /** A colour as `[r, g, b, a]`. */
  datatype Rgba = Rgba(r: int, g: int, b: int, a: real)

  /** Opaque black, the fallback of `getRgba`. */
  const OpaqueBlack: Rgba := Rgba(0, 0, 0, 1.0)

  /** Every channel is a byte and alpha is 1. */
  predicate IsOpaqueByteColour(c: Rgba) {
    0 <= c.r <= 255 && 0 <= c.g <= 255 && 0 <= c.b <= 255 && c.a == 1.0
  }

  // ---------------------------------------------------------------------------
  // Hex strings
  // ---------------------------------------------------------------------------

  /** A character of the class `[a-fA-F0-9]`. */
  predicate IsHexDigit(c: char) {
    '0' <= c <= '9' || 'a' <= c <= 'f' || 'A' <= c <= 'F'
  }

  /** The value `parseInt(c, 16)` gives a hex digit. */
  function HexDigitValue(c: char): (v: int)
    requires IsHexDigit(c)
    ensures 0 <= v < 16
  {
    if '0' <= c <= '9' then c as int - '0' as int
    else if 'a' <= c <= 'f' then c as int - 'a' as int + 10
    else c as int - 'A' as int + 10
  }

  /** The value `parseInt` base 16 gives a two-digit string. */
  function HexPair(hi: char, lo: char): (v: int)
    requires IsHexDigit(hi) && IsHexDigit(lo)
    ensures 0 <= v <= 255
  {
    16 * HexDigitValue(hi) + HexDigitValue(lo)
  }

  /** The whole string matches `^#[a-fA-F0-9]{6}$`. */
  predicate MatchesHex6(s: string) {
    |s| == 7 && s[0] == '#' && forall k :: 1 <= k < 7 ==> IsHexDigit(s[k])
  }

  /** The whole string matches `^#[a-fA-F0-9]{3}$`. */
  predicate MatchesHex3(s: string) {
    |s| == 4 && s[0] == '#' && forall k :: 1 <= k < 4 ==> IsHexDigit(s[k])
  }

  /** `parseHex`: six digits give three two-digit channels, three digits give each
      digit doubled, anything else gives null. Alpha is always 1. */
  function ParseHex(value: string): (rgba: Option<Rgba>)
    ensures rgba.Some? <==> MatchesHex6(value) || MatchesHex3(value)
    ensures rgba.Some? ==> IsOpaqueByteColour(rgba.value)
  {
    if MatchesHex6(value) then
      Some(Rgba(HexPair(value[1], value[2]), HexPair(value[3], value[4]), HexPair(value[5], value[6]), 1.0))
    else if MatchesHex3(value) then
      Some(Rgba(HexPair(value[1], value[1]), HexPair(value[2], value[2]), HexPair(value[3], value[3]), 1.0))
    else None
  }

  /** The lower-case hex digit of a value below 16. */
  function ToHexDigit(v: int): (c: char)
    requires 0 <= v < 16
    ensures IsHexDigit(c) && HexDigitValue(c) == v
  {
    if v < 10 then ('0' as int + v) as char else ('a' as int + v - 10) as char
  }

  /** The `#rrggbb` spelling of an opaque byte colour. */
  function ToHex6(c: Rgba): (s: string)
    requires IsOpaqueByteColour(c)
    ensures MatchesHex6(s)
  {
    ['#', ToHexDigit(c.r / 16), ToHexDigit(c.r % 16), ToHexDigit(c.g / 16), ToHexDigit(c.g % 16),
     ToHexDigit(c.b / 16), ToHexDigit(c.b % 16)]
  }

  /** Parsing the six-digit spelling gives the colour back. */
  lemma HexRoundTrip(c: Rgba)
    requires IsOpaqueByteColour(c)
    ensures ParseHex(ToHex6(c)) == Some(c)
  {
    var s := ToHex6(c);
    assert HexPair(s[1], s[2]) == 16 * (c.r / 16) + c.r % 16;
    assert HexPair(s[3], s[4]) == 16 * (c.g / 16) + c.g % 16;
    assert HexPair(s[5], s[6]) == 16 * (c.b / 16) + c.b % 16;
  }

  /** Parsing a six-digit string and spelling the result gives the string in lower case. */
  lemma Hex6SpellingRoundTrip(s: string)
    requires MatchesHex6(s)
    ensures ToHex6(ParseHex(s).value) == AsciiLower(s)
  {
    var c := ParseHex(s).value;
    var t := ToHex6(c);
    forall k | 1 <= k < 7
      ensures t[k] == LowerChar(s[k])
    {
      var pairs := [(c.r, s[1], s[2]), (c.g, s[3], s[4]), (c.b, s[5], s[6])];
      var p := pairs[(k - 1) / 2];
      DigitsOfPair(p.1, p.2);
    }
  }

  /** The two digits of a parsed pair are recovered, in lower case, by `/ 16` and `% 16`. */
  lemma DigitsOfPair(hi: char, lo: char)
    requires IsHexDigit(hi) && IsHexDigit(lo)
    ensures ToHexDigit(HexPair(hi, lo) / 16) == LowerChar(hi)
    ensures ToHexDigit(HexPair(hi, lo) % 16) == LowerChar(lo)
  {
  }

  /** A three-digit colour is its six-digit spelling with every digit doubled,
      and each channel is 17 times its digit. */
  lemma Hex3IsDoubledHex6(s: string)
    requires MatchesHex3(s)
    ensures ParseHex(s) == ParseHex(['#', s[1], s[1], s[2], s[2], s[3], s[3]])
    ensures ParseHex(s).value.r == 17 * HexDigitValue(s[1])
    ensures ParseHex(s).value.g == 17 * HexDigitValue(s[2])
    ensures ParseHex(s).value.b == 17 * HexDigitValue(s[3])
  {
    var t := ['#', s[1], s[1], s[2], s[2], s[3], s[3]];
    assert MatchesHex6(t);
  }

  // ---------------------------------------------------------------------------
  // Named colours
  // ---------------------------------------------------------------------------

  /** `String.prototype.toLowerCase` on one ASCII letter; other characters are kept. */
  function LowerChar(c: char): (l: char)
    ensures 'A' <= c <= 'Z' ==> l as int == c as int + 32
    ensures !('A' <= c <= 'Z') ==> l == c
  {
    if 'A' <= c <= 'Z' then (c as int + 32) as char else c
  }

  /** Lower-cases every ASCII letter of the string. */
  function AsciiLower(s: string): (t: string)
    ensures |t| == |s|
    ensures forall k :: 0 <= k < |s| ==> t[k] == LowerChar(s[k])
  {
    seq(|s|, k requires 0 <= k < |s| => LowerChar(s[k]))
  }

  /** Case does not matter to the hex parser. */
  lemma ParseHexIgnoresCase(s: string)
    ensures ParseHex(AsciiLower(s)) == ParseHex(s)
  {
    var t := AsciiLower(s);
    forall k | 0 <= k < |s| && IsHexDigit(s[k])
      ensures IsHexDigit(t[k]) && HexDigitValue(t[k]) == HexDigitValue(s[k])
    {
    }
    forall k | 0 <= k < |s| && IsHexDigit(t[k])
      ensures IsHexDigit(s[k])
    {
    }
  }

  /** `namedColors`: the CSS colour keywords, plus `transparent`, whose eight-digit
      value no hex form accepts. The table is written in alphabetical parts, each with a
      lemma saying which initials its names have. */
  const NamedColors: map<string, string> :=
    NamedColorsAB + NamedColorsC + NamedColorsD + NamedColorsFG + NamedColorsHK + NamedColorsL + NamedColorsM + NamedColorsNO + NamedColorsPR + NamedColorsS + NamedColorsTY

  const NamedColorsAB: map<string, string> := map[
    "aliceblue" := "#f0f8ff", "antiquewhite" := "#faebd7", "aqua" := "#00ffff",
    "aquamarine" := "#7fffd4", "azure" := "#f0ffff", "beige" := "#f5f5dc", "bisque" := "#ffe4c4",
    "black" := "#000000", "blanchedalmond" := "#ffebcd", "blue" := "#0000ff",
    "blueviolet" := "#8a2be2", "brown" := "#a52a2a", "burlywood" := "#deb887"
  ]

  lemma NamedColorsABInitials(v: string)
    requires |v| > 0 ==> v[0] !in "ab"
    ensures v !in NamedColorsAB
  {
  }

  const NamedColorsC: map<string, string> := map[
    "cadetblue" := "#5f9ea0", "chartreuse" := "#7fff00", "chocolate" := "#d2691e",
    "coral" := "#ff7f50", "cornflowerblue" := "#6495ed", "cornsilk" := "#fff8dc",
    "crimson" := "#dc143c", "cyan" := "#00ffff"
  ]

  lemma NamedColorsCInitials(v: string)
    requires |v| > 0 ==> v[0] !in "c"
    ensures v !in NamedColorsC
  {
  }

  const NamedColorsD: map<string, string> := map[
    "darkblue" := "#00008b", "darkcyan" := "#008b8b", "darkgoldenrod" := "#b8860b",
    "darkgray" := "#a9a9a9", "darkgreen" := "#006400", "darkgrey" := "#a9a9a9",
    "darkkhaki" := "#bdb76b", "darkmagenta" := "#8b008b", "darkolivegreen" := "#556b2f",
    "darkorange" := "#ff8c00", "darkorchid" := "#9932cc", "darkred" := "#8b0000",
    "darksalmon" := "#e9967a", "darkseagreen" := "#8fbc8f", "darkslateblue" := "#483d8b",
    "darkslategray" := "#2f4f4f", "darkslategrey" := "#2f4f4f", "darkturquoise" := "#00ced1",
    "darkviolet" := "#9400d3", "deeppink" := "#ff1493", "deepskyblue" := "#00bfff",
    "dimgray" := "#696969", "dimgrey" := "#696969", "dodgerblue" := "#1e90ff"
  ]

  lemma NamedColorsDInitials(v: string)
    requires |v| > 0 ==> v[0] !in "d"
    ensures v !in NamedColorsD
  {
  }

  const NamedColorsFG: map<string, string> := map[
    "firebrick" := "#b22222", "floralwhite" := "#fffaf0", "forestgreen" := "#228b22",
    "fuchsia" := "#ff00ff", "gainsboro" := "#dcdcdc", "ghostwhite" := "#f8f8ff",
    "gold" := "#ffd700", "goldenrod" := "#daa520", "gray" := "#808080", "green" := "#008000",
    "greenyellow" := "#adff2f", "grey" := "#808080"
  ]

  lemma NamedColorsFGInitials(v: string)
    requires |v| > 0 ==> v[0] !in "fg"
    ensures v !in NamedColorsFG
  {
  }

  const NamedColorsHK: map<string, string> := map[
    "honeydew" := "#f0fff0", "hotpink" := "#ff69b4", "indianred" := "#cd5c5c",
    "indigo" := "#4b0082", "ivory" := "#fffff0", "khaki" := "#f0e68c"
  ]

  lemma NamedColorsHKInitials(v: string)
    requires |v| > 0 ==> v[0] !in "hik"
    ensures v !in NamedColorsHK
  {
  }

  const NamedColorsL: map<string, string> := map[
    "lavender" := "#e6e6fa", "lavenderblush" := "#fff0f5", "lawngreen" := "#7cfc00",
    "lemonchiffon" := "#fffacd", "lightblue" := "#add8e6", "lightcoral" := "#f08080",
    "lightcyan" := "#e0ffff", "lightgoldenrodyellow" := "#fafad2", "lightgray" := "#d3d3d3",
    "lightgreen" := "#90ee90", "lightgrey" := "#d3d3d3", "lightpink" := "#ffb6c1",
    "lightsalmon" := "#ffa07a", "lightseagreen" := "#20b2aa", "lightskyblue" := "#87cefa",
    "lightslategray" := "#778899", "lightslategrey" := "#778899", "lightsteelblue" := "#b0c4de",
    "lightyellow" := "#ffffe0", "lime" := "#00ff00", "limegreen" := "#32cd32",
    "linen" := "#faf0e6"
  ]

  lemma NamedColorsLInitials(v: string)
    requires |v| > 0 ==> v[0] !in "l"
    ensures v !in NamedColorsL
  {
  }

  const NamedColorsM: map<string, string> := map[
    "magenta" := "#ff00ff", "maroon" := "#800000", "mediumaquamarine" := "#66cdaa",
    "mediumblue" := "#0000cd", "mediumorchid" := "#ba55d3", "mediumpurple" := "#9370db",
    "mediumseagreen" := "#3cb371", "mediumslateblue" := "#7b68ee",
    "mediumspringgreen" := "#00fa9a", "mediumturquoise" := "#48d1cc",
    "mediumvioletred" := "#c71585", "midnightblue" := "#191970", "mintcream" := "#f5fffa",
    "mistyrose" := "#ffe4e1", "moccasin" := "#ffe4b4"
  ]

  lemma NamedColorsMInitials(v: string)
    requires |v| > 0 ==> v[0] !in "m"
    ensures v !in NamedColorsM
  {
  }

  const NamedColorsNO: map<string, string> := map[
    "navajowhite" := "#ffdead", "navy" := "#000080", "oldlace" := "#fdf5e6", "olive" := "#808000",
    "olivedrab" := "#6b8e23", "orange" := "#ffa500", "orangered" := "#ff4500",
    "orchid" := "#da70d6"
  ]

  lemma NamedColorsNOInitials(v: string)
    requires |v| > 0 ==> v[0] !in "no"
    ensures v !in NamedColorsNO
  {
  }

  const NamedColorsPR: map<string, string> := map[
    "palegoldenrod" := "#eee8aa", "palegreen" := "#98fb98", "paleturquoise" := "#afeeee",
    "palevioletred" := "#db7093", "papayawhip" := "#ffefd5", "peachpuff" := "#ffdab9",
    "peru" := "#cd853f", "pink" := "#ffc0cb", "plum" := "#dda0dd", "powderblue" := "#b0e0e6",
    "purple" := "#800080", "rebeccapurple" := "#663399", "red" := "#ff0000",
    "rosybrown" := "#bc8f8f", "royalblue" := "#4169e1"
  ]

  lemma NamedColorsPRInitials(v: string)
    requires |v| > 0 ==> v[0] !in "pr"
    ensures v !in NamedColorsPR
  {
  }

  const NamedColorsS: map<string, string> := map[
    "saddlebrown" := "#8b4513", "salmon" := "#fa8072", "sandybrown" := "#f4a460",
    "seagreen" := "#2e8b57", "seashell" := "#fff5ee", "sienna" := "#a0522d", "silver" := "#c0c0c0",
    "skyblue" := "#87ceeb", "slateblue" := "#6a5acd", "slategray" := "#708090",
    "slategrey" := "#708090", "snow" := "#fffafa", "springgreen" := "#00ff7f",
    "steelblue" := "#4682b4"
  ]

  lemma NamedColorsSInitials(v: string)
    requires |v| > 0 ==> v[0] !in "s"
    ensures v !in NamedColorsS
  {
  }

  const NamedColorsTY: map<string, string> := map[
    "tan" := "#d2b48c", "teal" := "#008080", "thistle" := "#d8bfd8", "tomato" := "#ff6347",
    "turquoise" := "#40e0d0", "violet" := "#ee82ee", "wheat" := "#f5deb3", "white" := "#ffffff",
    "whitesmoke" := "#f5f5f5", "yellow" := "#ffff00", "yellowgreen" := "#9acd32",
    "transparent" := "#00000000"
  ]

  lemma NamedColorsTYInitials(v: string)
    requires |v| > 0 ==> v[0] !in "tvwy"
    ensures v !in NamedColorsTY
  {
  }

  /** No colour name starts with `#`. */
  lemma NoNameStartsWithHash(v: string)
    requires |v| > 0 && v[0] == '#'
    ensures v !in NamedColors
  {
    NamedColorsABInitials(v);
    NamedColorsCInitials(v);
    NamedColorsDInitials(v);
    NamedColorsFGInitials(v);
    NamedColorsHKInitials(v);
    NamedColorsLInitials(v);
    NamedColorsMInitials(v);
    NamedColorsNOInitials(v);
    NamedColorsPRInitials(v);
    NamedColorsSInitials(v);
    NamedColorsTYInitials(v);
  }

  /** `parseNamedColor`: looks the lower-cased string up and parses the entry as hex. */
  function ParseNamedColor(value: string): (rgba: Option<Rgba>)
    ensures rgba.Some? ==> AsciiLower(value) in NamedColors && rgba == ParseHex(NamedColors[AsciiLower(value)])
    ensures AsciiLower(value) in NamedColors ==> rgba == ParseHex(NamedColors[AsciiLower(value)])
    ensures AsciiLower(value) !in NamedColors ==> rgba == None
  {
    var key := AsciiLower(value);
    if key in NamedColors then ParseHex(NamedColors[key]) else None
  }

  /** `getRgba`: the first of named, hex, rgb() and hsl() that parses; opaque black otherwise. */
  function GetRgba(value: string, parseRgb: string -> Option<Rgba>, parseHsl: string -> Option<Rgba>): (rgba: Rgba)
    ensures ParseNamedColor(value).Some? ==> rgba == ParseNamedColor(value).value
    ensures ParseNamedColor(value).None? && ParseHex(value).Some? ==> rgba == ParseHex(value).value
    ensures ParseNamedColor(value).None? && ParseHex(value).None? && parseRgb(value).Some? ==>
      rgba == parseRgb(value).value
    ensures ParseNamedColor(value).None? && ParseHex(value).None? && parseRgb(value).None? ==>
      rgba == if parseHsl(value).Some? then parseHsl(value).value else OpaqueBlack
  {
    var named := ParseNamedColor(value);
    if named.Some? then named.value
    else
      var hex := ParseHex(value);
      if hex.Some? then hex.value
      else
        var rgb := parseRgb(value);
        if rgb.Some? then rgb.value
        else
          var hsl := parseHsl(value);
          if hsl.Some? then hsl.value else OpaqueBlack
  }

  /** A hex string is parsed as hex, whatever the rgb() and hsl() parsers would say:
      no colour name starts with `#`. */
  lemma HexStringsParseAsHex(value: string, parseRgb: string -> Option<Rgba>, parseHsl: string -> Option<Rgba>)
    requires MatchesHex6(value) || MatchesHex3(value)
    ensures GetRgba(value, parseRgb, parseHsl) == ParseHex(value).value
  {
    NoNameStartsWithHash(AsciiLower(value));
  }

  /** `transparent` falls through every parser to opaque black: its table value has
      eight digits, which neither hex form accepts. */
  lemma TransparentIsOpaqueBlack(parseRgb: string -> Option<Rgba>, parseHsl: string -> Option<Rgba>)
    requires parseRgb("transparent").None? && parseHsl("transparent").None?
    ensures GetRgba("transparent", parseRgb, parseHsl) == OpaqueBlack
  {
    var key := AsciiLower("transparent");
    assert key == "transparent";
    assert key in NamedColorsTY && NamedColorsTY[key] == "#00000000";
    assert NamedColors[key] == "#00000000";
    assert ParseNamedColor("transparent") == None;
    assert ParseHex("transparent") == None;
  }

  /** The name lookup ignores letter case. */
  lemma ParseNamedColorIgnoresCase(value: string)
    ensures ParseNamedColor(AsciiLower(value)) == ParseNamedColor(value)
  {
    assert AsciiLower(AsciiLower(value)) == AsciiLower(value);
  }
}
