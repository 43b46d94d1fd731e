/** The colour codec between (r, g, b) channels and ShapeDiver's `0xRRGGBBff` strings. */
module HexColor {
  import opened Wrappers

  const LowerDigits: string := "0123456789abcdef"

  predicate IsLowerHex(c: char) {
    '0' <= c <= '9' || 'a' <= c <= 'f'
  }

  /** A digit Python's `int(_, 16)` accepts, in either case. */
  predicate IsHexDigit(c: char) {
    IsLowerHex(c) || 'A' <= c <= 'F'
  }

  function DigitValue(c: char): (d: nat)
    requires IsHexDigit(c)
    ensures d < 16
  {
    if '0' <= c <= '9' then c as nat - '0' as nat
    else if 'a' <= c <= 'f' then c as nat - 'a' as nat + 10
    else c as nat - 'A' as nat + 10
  }

  /** The number a string of hex digits denotes, most significant digit first. */
  function DigitsValue(s: string): nat
    requires forall i :: 0 <= i < |s| ==> IsHexDigit(s[i])
  {
    if s == [] then 0 else DigitsValue(s[..|s| - 1]) * 16 + DigitValue(s[|s| - 1])
  }

  /** Python's `hex(n)` without its `0x` prefix: the lowercase hex digits of n
      without leading zeros. */
  function Hex(n: nat): (r: string)
    ensures 1 <= |r|
    ensures forall i :: 0 <= i < |r| ==> IsLowerHex(r[i])
    ensures DigitsValue(r) == n
    ensures |r| == 1 <==> n < 16
    ensures n < 256 ==> |r| <= 2
    ensures r[0] == '0' ==> n == 0
    decreases n
  {
    if n < 16 then [LowerDigits[n]]
    else
      var high := Hex(n / 16);
      var r := high + [LowerDigits[n % 16]];
      assert r[..|r| - 1] == high;
      r
  }

  /** `intToTwoDigitHex`: the hex digits of i, left-padded with '0' to two characters. */
  function IntToTwoDigitHex(i: nat): (r: string)
    ensures |r| >= 2
    ensures forall k :: 0 <= k < |r| ==> IsLowerHex(r[k])
    ensures DigitsValue(r) == i
    ensures |r| == 2 <==> i < 256
    ensures i >= 256 ==> |r| >= 3 && r[0] != '0'
  {
    var h := Hex(i);
    if |h| < 2 then
      var r := "0" + h;
      assert r[..|r| - 1] == "0";
      assert DigitsValue("0") == DigitsValue("") * 16 + DigitValue('0');
      r
    else h
  }

  /** `RgbToShapeDiverColor`: "0x", the three channels, then a fixed alpha "ff". */
  function RgbToShapeDiverColor(r: nat, g: nat, b: nat): (s: string)
    ensures |s| >= 10 && s[..2] == "0x" && s[|s| - 2..] == "ff"
    ensures r < 256 && g < 256 && b < 256 ==>
      && |s| == 10
      && (forall k :: 2 <= k < 10 ==> IsLowerHex(s[k]))
      && (forall k :: 0 <= k < 2 ==> IsLowerHex(s[2..4][k]) && IsLowerHex(s[4..6][k]) && IsLowerHex(s[6..8][k]))
      && DigitsValue(s[2..4]) == r && DigitsValue(s[4..6]) == g && DigitsValue(s[6..8]) == b
  {
    var hr, hg, hb := IntToTwoDigitHex(r), IntToTwoDigitHex(g), IntToTwoDigitHex(b);
    ColorFraming(hr + hg + hb);
    if r < 256 && g < 256 && b < 256 then ColorLayout(hr, hg, hb); "0x" + hr + hg + hb + "ff"
    else "0x" + hr + hg + hb + "ff"
  }

  /** Any channel digits sit between the "0x" prefix and the "ff" alpha. */
  lemma ColorFraming(digits: string)
    ensures ("0x" + digits + "ff")[..2] == "0x"
    ensures ("0x" + digits + "ff")[|digits| + 2..] == "ff"
  {
  }

  /** Three two-digit channels fill characters 2 to 8 of the ten. */
  lemma ColorLayout(hr: string, hg: string, hb: string)
    requires |hr| == 2 && |hg| == 2 && |hb| == 2
    requires forall k :: 0 <= k < 2 ==> IsLowerHex(hr[k]) && IsLowerHex(hg[k]) && IsLowerHex(hb[k])
    ensures
      var s := "0x" + hr + hg + hb + "ff";
      && |s| == 10
      && s[2..4] == hr && s[4..6] == hg && s[6..8] == hb
      && forall k :: 2 <= k < 10 ==> IsLowerHex(s[k])
  {
    var s := "0x" + hr + hg + hb + "ff";
    assert s[2..4] == hr && s[4..6] == hg && s[6..8] == hb;
    forall k | 2 <= k < 10
      ensures IsLowerHex(s[k])
    {
      if k < 4 { assert s[k] == hr[k - 2]; }
      else if k < 6 { assert s[k] == hg[k - 4]; }
      else if k < 8 { assert s[k] == hb[k - 6]; }
      else { assert s[k] == 'f'; }
    }
  }

  // ---- Python's int(text, 16) ----

  /** The whitespace `int()` skips around a number: the ASCII space and `\t` to `\r`,
      and the non-ASCII Unicode whitespace it turns into spaces first. The ASCII
      separators U+001C to U+001F are not among them. */
  predicate IsSpace(c: char) {
    || c == ' ' || '\t' <= c <= '\r'
    || c == '\U{0085}' || c == '\U{00a0}' || c == '\U{1680}' || '\U{2000}' <= c <= '\U{200a}'
    || c == '\U{2028}' || c == '\U{2029}' || c == '\U{202f}' || c == '\U{205f}' || c == '\U{3000}'
  }

  function StripLeft(s: string): (r: string)
    ensures r == [] || !IsSpace(r[0])
  {
    if s != [] && IsSpace(s[0]) then StripLeft(s[1..]) else s
  }

  function StripRight(s: string): (r: string)
    ensures r == [] || !IsSpace(r[|r| - 1])
  {
    if s != [] && IsSpace(s[|s| - 1]) then StripRight(s[..|s| - 1]) else s
  }

  function Strip(s: string): string {
    StripRight(StripLeft(s))
  }

  /** Hex digits with single underscores between them; `leadingOk` admits one
      underscore before the first digit, as Python does after a "0x" prefix. */
  predicate WellGrouped(s: string, leadingOk: bool) {
    && s != []
    && (forall i :: 0 <= i < |s| ==> IsHexDigit(s[i]) || s[i] == '_')
    && s[|s| - 1] != '_'
    && (s[0] == '_' ==> leadingOk)
    && (forall i :: 0 <= i < |s| - 1 ==> s[i] == '_' ==> s[i + 1] != '_')
  }

  function DropUnderscores(s: string): (r: string)
    requires forall i :: 0 <= i < |s| ==> IsHexDigit(s[i]) || s[i] == '_'
    ensures forall i :: 0 <= i < |r| ==> IsHexDigit(r[i])
    ensures (forall i :: 0 <= i < |s| ==> s[i] != '_') ==> r == s
  {
    if s == [] then []
    else if s[0] == '_' then DropUnderscores(s[1..])
    else [s[0]] + DropUnderscores(s[1..])
  }

  function Grouped(s: string, leadingOk: bool): Option<nat> {
    if WellGrouped(s, leadingOk) then Some(DigitsValue(DropUnderscores(s))) else None
  }

  /** The digits after an optional sign: an optional "0x"/"0X" prefix, then grouped digits. */
  function UnsignedHex(u: string): Option<nat> {
    if |u| >= 2 && u[0] == '0' && (u[1] == 'x' || u[1] == 'X') then Grouped(u[2..], true)
    else Grouped(u, false)
  }

  function SignedHex(t: string): Option<int> {
    if t != [] && t[0] == '-' then
      match UnsignedHex(t[1..])
      case None => None
      case Some(m) => Some(-(m as int))
    else if t != [] && t[0] == '+' then
      match UnsignedHex(t[1..])
      case None => None
      case Some(m) => Some(m as int)
    else
      match UnsignedHex(t)
      case None => None
      case Some(m) => Some(m as int)
  }

  /** A character that can occur somewhere in a string `int(_, 16)` accepts:
      a digit, whitespace, a sign, an underscore or the x of the prefix. */
  predicate MayOccurInHex(c: char) {
    IsHexDigit(c) || IsSpace(c) || c == '+' || c == '-' || c == '_' || c == 'x' || c == 'X'
  }

  /** `int(text, 16)`: None where Python raises ValueError. */
  function ParseHexInt(text: string): (r: Option<int>)
    ensures Strip(text) == [] ==> r.None?
  {
    SignedHex(Strip(text))
  }

  /** Python's `s[i:j]` for 0 <= i <= j: clipped to the string's end. */
  function Slice(s: string, i: nat, j: nat): (r: string)
    requires i <= j
    ensures |r| <= j - i
    ensures j <= |s| ==> r == s[i..j]
    ensures j > |s| ==> r == (if i >= |s| then [] else s[i..])
  {
    if i >= |s| then [] else if j <= |s| then s[i..j] else s[i..]
  }

  /** `ShapeDiverColorToRgb`: reads characters [2:4], [4:6] and [6:8] as hex;
      None where one of the three `int(_, 16)` calls raises, which it always
      does for a string too short to reach the blue window or a window holding a
      character no hex literal contains. */
  function ShapeDiverColorToRgb(sdColor: string): (c: Option<(int, int, int)>)
    ensures |sdColor| <= 6 ==> c.None?
    ensures forall k :: 2 <= k < 8 && k < |sdColor| && !MayOccurInHex(sdColor[k]) ==> c.None?
    ensures |sdColor| >= 8 && (forall k :: 2 <= k < 8 ==> IsHexDigit(sdColor[k])) ==>
      && c.Some?
      && c.value == (DigitsValue(sdColor[2..4]), DigitsValue(sdColor[4..6]), DigitsValue(sdColor[6..8]))
      && 0 <= c.value.0 < 256 && 0 <= c.value.1 < 256 && 0 <= c.value.2 < 256
  {
    var red := ParseHexInt(Slice(sdColor, 2, 4));
    var green := ParseHexInt(Slice(sdColor, 4, 6));
    var blue := ParseHexInt(Slice(sdColor, 6, 8));
    var c := if red.Some? && green.Some? && blue.Some? then Some((red.value, green.value, blue.value)) else None;
    EmptyDoesNotParse();
    WindowRejectsStrayChar(sdColor, 2);
    WindowRejectsStrayChar(sdColor, 4);
    WindowRejectsStrayChar(sdColor, 6);
    if |sdColor| >= 8 && (forall k :: 2 <= k < 8 ==> IsHexDigit(sdColor[k])) then
      ChannelParses(sdColor[2..4]);
      ChannelParses(sdColor[4..6]);
      ChannelParses(sdColor[6..8]);
      c
    else c
  }

  /** An empty string, as a window past the end of the input is, is no number. */
  lemma EmptyDoesNotParse()
    ensures ParseHexInt([]) == None
  {
    assert Strip([]) == [];
  }

  /** U+001C, which `str.strip()` removes but `int()` does not skip, makes the parse fail. */
  lemma SeparatorIsNotSpace()
    ensures ParseHexInt("\U{001c}5") == None
  {
    ParseRejectsStrayChar("\U{001c}5", 0);
  }

  /** A character of `s` that is not whitespace survives stripping. */
  lemma {:induction false} StripKeeps(s: string, k: nat)
    requires k < |s| && !IsSpace(s[k])
    ensures s[k] in Strip(s)
  {
    var l := StripLeftKeeps(s, k);
    StripRightKeeps(StripLeft(s), l);
  }

  lemma {:induction false} StripLeftKeeps(s: string, k: nat) returns (l: nat)
    requires k < |s| && !IsSpace(s[k])
    ensures l < |StripLeft(s)| && StripLeft(s)[l] == s[k]
  {
    if IsSpace(s[0]) {
      l := StripLeftKeeps(s[1..], k - 1);
    } else {
      l := k;
    }
  }

  lemma {:induction false} StripRightKeeps(s: string, k: nat)
    requires k < |s| && !IsSpace(s[k])
    ensures s[k] in StripRight(s)
  {
    if IsSpace(s[|s| - 1]) {
      StripRightKeeps(s[..|s| - 1], k);
    }
  }

  /** Grouped digits reject any character that is neither a digit nor an underscore. */
  lemma GroupedRejects(u: string, c: char, leadingOk: bool)
    requires c in u && !IsHexDigit(c) && c != '_'
    ensures Grouped(u, leadingOk) == None
  {
    var i :| 0 <= i < |u| && u[i] == c;
  }

  /** After the sign and the prefix only digits and underscores remain, so a
      character no hex literal contains makes the parse fail. */
  lemma UnsignedRejects(u: string, c: char)
    requires c in u && !MayOccurInHex(c)
    ensures UnsignedHex(u) == None
  {
    if |u| >= 2 && u[0] == '0' && (u[1] == 'x' || u[1] == 'X') {
      var i :| 0 <= i < |u| && u[i] == c;
      assert u[2..][i - 2] == c;
      GroupedRejects(u[2..], c, true);
    } else {
      GroupedRejects(u, c, false);
    }
  }

  /** `int(t, 16)` raises when `t` holds a character no hex literal contains. */
  lemma ParseRejectsStrayChar(t: string, k: nat)
    requires k < |t| && !MayOccurInHex(t[k])
    ensures ParseHexInt(t) == None
  {
    StripKeeps(t, k);
    var u := Strip(t);
    var i :| 0 <= i < |u| && u[i] == t[k];
    if u != [] && (u[0] == '-' || u[0] == '+') {
      assert u[1..][i - 1] == t[k];
      UnsignedRejects(u[1..], t[k]);
    } else {
      UnsignedRejects(u, t[k]);
    }
  }

  /** The two-character window starting at `i` fails to parse when one of its characters is stray. */
  lemma WindowRejectsStrayChar(s: string, i: nat)
    ensures forall k :: i <= k < i + 2 && k < |s| && !MayOccurInHex(s[k]) ==>
      ParseHexInt(Slice(s, i, i + 2)) == None
  {
    forall k | i <= k < i + 2 && k < |s| && !MayOccurInHex(s[k])
      ensures ParseHexInt(Slice(s, i, i + 2)) == None
    {
      assert Slice(s, i, i + 2)[k - i] == s[k];
      ParseRejectsStrayChar(Slice(s, i, i + 2), k - i);
    }
  }

  /** Two hex digits parse to a channel value below 256. */
  lemma ChannelParses(s: string)
    requires |s| == 2 && IsHexDigit(s[0]) && IsHexDigit(s[1])
    ensures ParseHexInt(s) == Some(DigitsValue(s))
    ensures DigitsValue(s) < 256
  {
    PlainHexParses(s);
    assert DigitsValue(s[..1]) == DigitValue(s[0]) by { assert s[..1][..0] == []; }
  }

  /** A string made only of hex digits parses to the number its digits denote. */
  lemma PlainHexParses(s: string)
    requires s != [] && forall i :: 0 <= i < |s| ==> IsHexDigit(s[i])
    ensures ParseHexInt(s) == Some(DigitsValue(s))
  {
    PlainHexIsStripped(s);
    PlainHexIsGrouped(s);
    PlainHexIsUnsigned(s);
  }

  /** Hex digits carry no sign. */
  lemma PlainHexIsUnsigned(s: string)
    requires s != [] && forall i :: 0 <= i < |s| ==> IsHexDigit(s[i])
    requires UnsignedHex(s) == Some(DigitsValue(s))
    ensures SignedHex(s) == Some(DigitsValue(s) as int)
  {
  }

  /** Hex digits are not whitespace, so stripping keeps them. */
  lemma PlainHexIsStripped(s: string)
    requires s != [] && forall i :: 0 <= i < |s| ==> IsHexDigit(s[i])
    ensures Strip(s) == s
  {
    assert !IsSpace(s[0]);
    assert StripLeft(s) == s;
    assert !IsSpace(s[|s| - 1]);
  }

  /** Hex digits without underscores or a "0x" prefix are one well-formed group. */
  lemma PlainHexIsGrouped(s: string)
    requires s != [] && forall i :: 0 <= i < |s| ==> IsHexDigit(s[i])
    ensures UnsignedHex(s) == Some(DigitsValue(s))
  {
    assert WellGrouped(s, false);
    assert DropUnderscores(s) == s;
    assert !(|s| >= 2 && s[1] == 'x');
  }

  /** Decoding each encoded channel recovers it, for every channel value. */
  lemma TwoDigitHexRoundTrip(i: nat)
    ensures ParseHexInt(IntToTwoDigitHex(i)) == Some(i)
  {
    PlainHexParses(IntToTwoDigitHex(i));
  }

  /** Decoding an encoded colour recovers the three channels. */
  lemma ColorRoundTrip(r: nat, g: nat, b: nat)
    requires r < 256 && g < 256 && b < 256
    ensures ShapeDiverColorToRgb(RgbToShapeDiverColor(r, g, b)) == Some((r, g, b))
  {
  }

  /** Decoding looks at characters 2 to 8 only: the "0x" prefix, the alpha and
      anything after them are ignored. */
  lemma DecodeReadsOnlyChannels(s: string, t: string)
    requires Slice(s, 2, 8) == Slice(t, 2, 8)
    ensures ShapeDiverColorToRgb(s) == ShapeDiverColorToRgb(t)
  {
    ChannelWindow(s);
    ChannelWindow(t);
  }

  /** Each channel's two characters lie inside the window [2:8]. */
  lemma ChannelWindow(s: string)
    ensures Slice(s, 2, 4) == Slice(Slice(s, 2, 8), 0, 2)
    ensures Slice(s, 4, 6) == Slice(Slice(s, 2, 8), 2, 4)
    ensures Slice(s, 6, 8) == Slice(Slice(s, 2, 8), 4, 6)
  {
    SliceOfWindow(s, 0);
    SliceOfWindow(s, 2);
    SliceOfWindow(s, 4);
  }

  /** Two characters at offset `i` of the window [2:8] are the two at `i + 2` of the string. */
  lemma SliceOfWindow(s: string, i: nat)
    requires i <= 4
    ensures Slice(s, i + 2, i + 4) == Slice(Slice(s, 2, 8), i, i + 2)
  {
    var w := Slice(s, 2, 8);
    if |s| <= i + 2 {
      assert |w| <= i;
    } else if |s| < i + 4 {
      assert w[i..] == s[i + 2..];
    } else {
      assert w[i..i + 2] == s[i + 2..i + 4];
    }
  }

  /** White and black. */
  lemma EncodeExamples()
    ensures RgbToShapeDiverColor(255, 255, 255) == "0xffffffff"
    ensures RgbToShapeDiverColor(0, 0, 0) == "0x000000ff"
  {
    assert Hex(255) == Hex(15) + "f";
    assert IntToTwoDigitHex(255) == "ff";
    assert IntToTwoDigitHex(0) == "0" + Hex(0) == "00";
  }
}
