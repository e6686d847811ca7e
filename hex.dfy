/** Hexadecimal colour strings, as both `from_hex` constructors read them
    (framework/core/graphics/styles.py and app/core/styles.py): Python's
    `int(s, 16)` on the slices `[0:2]`, `[2:4]` and `[4:6]`, and the normalisation
    ('#' stripped, two digits tripled, three digits doubled) that the code computes. */
module Hex {
  import opened Wrappers
  import opened PyStr

  // ---------------------------------------------------------------------------
  // Hex digits

  predicate IsHexDigit(c: char) { '0' <= c <= '9' || 'a' <= c <= 'f' || 'A' <= c <= 'F' }

  function HexDigitValue(c: char): (v: nat)
    requires IsHexDigit(c)
    ensures v < 16
  {
    if '0' <= c <= '9' then c as int - '0' as int
    else if 'a' <= c <= 'f' then c as int - 'a' as int + 10
    else c as int - 'A' as int + 10
  }

  /** The lower-case digit for a value below 16. */
  function HexDigit(v: nat): (c: char)
    requires v < 16
    ensures IsHexDigit(c) && HexDigitValue(c) == v
  {
    if v < 10 then ('0' as int + v) as char else ('a' as int + v - 10) as char
  }

  predicate AllHexDigits(s: string) { forall k :: 0 <= k < |s| ==> IsHexDigit(s[k]) }

  /** The value of a string of hex digits, most significant first. */
  function HexDigitsValue(s: string): nat
    requires AllHexDigits(s)
    decreases |s|
  {
    if s == [] then 0 else HexDigitsValue(s[..|s| - 1]) * 16 + HexDigitValue(s[|s| - 1])
  }

  // ---------------------------------------------------------------------------
  // int(s, 16)

  /** The characters `str.strip()` and `int()` treat as white space, restricted to
      the ASCII range. */
  predicate IsSpace(c: char)
  {
    c == ' ' || '\t' <= c <= '\r' || '\U{1C}' <= c <= '\U{1F}'
  }

  /** `s.strip()`: white space removed from both ends. */
  function Strip(s: string): (r: string)
    decreases |s|
  {
    if |s| > 0 && IsSpace(s[0]) then Strip(s[1..])
    else if |s| > 0 && IsSpace(s[|s| - 1]) then Strip(s[..|s| - 1])
    else s
  }

  /** Stripping keeps a first character that is not white space. */
  lemma {:induction false} StripKeepsFirst(s: string)
    requires |s| > 0 && !IsSpace(s[0])
    ensures |Strip(s)| > 0 && Strip(s)[0] == s[0]
    decreases |s|
  {
    if IsSpace(s[|s| - 1]) {
      StripKeepsFirst(s[..|s| - 1]);
    }
  }

  /** `int(s, 16)`: surrounding white space, an optional sign, then one or more hex
      digits; anything else raises ValueError. */
  function PyHexInt(s: string): (r: Result<int>)
    ensures s == [] ==> r.Err?
  {
    var t := Strip(s);
    var neg := |t| > 0 && t[0] == '-';
    var digits := if |t| > 0 && (t[0] == '-' || t[0] == '+') then t[1..] else t;
    if |digits| > 0 && AllHexDigits(digits) then
      var v: int := HexDigitsValue(digits);
      Ok(if neg then -v else v)
    else Err(ValueError)
  }

  /** A plain run of hex digits is read as its value. */
  lemma PlainHexValue(s: string)
    requires |s| > 0 && AllHexDigits(s)
    ensures PyHexInt(s) == Ok(HexDigitsValue(s))
  {
    PlainIsStripped(s);
    var t := Strip(s);
    assert t == s;
    assert IsHexDigit(t[0]);
    assert !(t[0] == '-' || t[0] == '+');
  }

  lemma PlainIsStripped(s: string)
    requires |s| > 0 && AllHexDigits(s)
    ensures Strip(s) == s
  {
    assert !IsSpace(s[0]) && !IsSpace(s[|s| - 1]);
  }

  /** The value of two hex digits. */
  lemma PairValue(s: string)
    requires |s| == 2 && AllHexDigits(s)
    ensures HexDigitsValue(s) == 16 * HexDigitValue(s[0]) + HexDigitValue(s[1])
  {
    var h := s[..1];
    assert h[..0] == [] && h[0] == s[0];
    assert HexDigitsValue(h) == HexDigitValue(s[0]);
  }

  /** ToHex2 writes a byte as two digits of that value. */
  lemma Hex2Value(n: nat)
    requires n < 256
    ensures HexDigitsValue(ToHex2(n)) == n
  {
    PairValue(ToHex2(n));
  }

  /** A string whose first character is '#' is not a hex literal. */
  lemma LeadingHashIsInvalid(s: string)
    requires |s| > 0 && s[0] == '#'
    ensures PyHexInt(s).Err?
  {
    StripKeepsFirst(s);
  }

  // ---------------------------------------------------------------------------
  // Colour channels

  /** The lower-case two-digit form of a byte. */
  function ToHex2(n: nat): (s: string)
    requires n < 256
    ensures |s| == 2 && AllHexDigits(s) && 16 * HexDigitValue(s[0]) + HexDigitValue(s[1]) == n
  {
    [HexDigit(n / 16), HexDigit(n % 16)]
  }

  /** A colour written as six lower-case hex digits, 'rrggbb'. */
  function HexColour(r: nat, g: nat, b: nat): (s: string)
    requires r < 256 && g < 256 && b < 256
    ensures |s| == 6 && AllHexDigits(s)
  {
    ToHex2(r) + ToHex2(g) + ToHex2(b)
  }

  /** The three channels `int(x[i:i+2], 16)` for i = 0, 2, 4, the first failure
      raising: with four characters or fewer the third slice is empty, and a
      leading '#' spoils the first. */
  function DecodeChannels(x: string): (c: Result<(int, int, int)>)
    ensures |x| <= 4 ==> c.Err?
    ensures |x| > 0 && x[0] == '#' ==> c.Err?
  {
    assert |x| <= 4 ==> Slice(x, 4, 6) == [];
    assert |x| > 0 && x[0] == '#' ==> PyHexInt(Slice(x, 0, 2)).Err? by {
      if |x| > 0 && x[0] == '#' {
        var s := Slice(x, 0, 2);
        assert |s| > 0 && s[0] == '#';
        LeadingHashIsInvalid(s);
      }
    }
    var r :- PyHexInt(Slice(x, 0, 2));
    var g :- PyHexInt(Slice(x, 2, 4));
    var b :- PyHexInt(Slice(x, 4, 6));
    Ok((r, g, b))
  }

  /** `hex_color.lstrip('#')`: the leading run of '#' removed. */
  function LstripHash(s: string): (r: string)
    ensures |r| <= |s| && r == s[|s| - |r|..]
    ensures forall k :: 0 <= k < |s| - |r| ==> s[k] == '#'
    ensures |r| > 0 ==> r[0] != '#'
    decreases |s|
  {
    if |s| > 0 && s[0] == '#' then LstripHash(s[1..]) else s
  }

  /** Every character twice: `''.join(c * 2 for c in s)`. */
  function Doubled(s: string): (r: string)
    ensures |r| == 2 * |s| && forall k :: 0 <= k < |r| ==> r[k] == s[k / 2]
  {
    seq(2 * |s|, k requires 0 <= k < 2 * |s| => s[k / 2])
  }

  /** The string the code computes as `color`: '#' stripped, then two characters
      repeated three times, then three characters doubled. */
  function Normalise(hex: string): (c: string)
    ensures |LstripHash(hex)| == 2 ==> c == LstripHash(hex) + LstripHash(hex) + LstripHash(hex)
    ensures |LstripHash(hex)| == 3 ==> c == Doubled(LstripHash(hex))
    ensures |LstripHash(hex)| != 2 && |LstripHash(hex)| != 3 ==> c == LstripHash(hex)
  {
    var c0 := LstripHash(hex);
    var c1 := if |c0| == 2 then c0 + c0 + c0 else c0;
    if |c1| == 3 then Doubled(c1) else c1
  }

  /** The decoding the normalisation was written for: the channels of `color`. */
  function DecodeNormalised(hex: string): (c: Result<(int, int, int)>)
    ensures var n := |LstripHash(hex)|; n <= 1 || n == 4 ==> c.Err?
  {
    DecodeChannels(Normalise(hex))
  }

  // ---------------------------------------------------------------------------
  // What the two decodings accept

  /** Six hex digits at the front decode pairwise; whatever follows is ignored. */
  lemma SixDigitsDecode(x: string)
    requires |x| >= 6 && AllHexDigits(x[..6])
    ensures DecodeChannels(x) == Ok((HexDigitsValue(x[0..2]), HexDigitsValue(x[2..4]), HexDigitsValue(x[4..6])))
  {
    forall k | 0 <= k < 6 ensures IsHexDigit(x[k]) { assert x[..6][k] == x[k]; }
    assert AllHexDigits(x[0..2]) && AllHexDigits(x[2..4]) && AllHexDigits(x[4..6]);
    ChannelAt(x, 0);
    ChannelAt(x, 2);
    ChannelAt(x, 4);
  }

  lemma ChannelAt(x: string, i: nat)
    requires i + 2 <= |x| && AllHexDigits(x[i..i + 2])
    ensures PyHexInt(Slice(x, i, i + 2)) == Ok(HexDigitsValue(x[i..i + 2]))
  {
    PlainHexValue(x[i..i + 2]);
  }

  /** Writing three bytes as six hex digits and decoding them gives the bytes back. */
  lemma ChannelsRoundTrip(r: nat, g: nat, b: nat)
    requires r < 256 && g < 256 && b < 256
    ensures DecodeChannels(HexColour(r, g, b)) == Ok((r, g, b))
  {
    var x := HexColour(r, g, b);
    assert HexDigitsValue(x[0..2]) == r by { assert x[0..2] == ToHex2(r); Hex2Value(r); }
    assert HexDigitsValue(x[2..4]) == g by { assert x[2..4] == ToHex2(g); Hex2Value(g); }
    assert HexDigitsValue(x[4..6]) == b by { assert x[4..6] == ToHex2(b); Hex2Value(b); }
    assert AllHexDigits(x[..6]) by { assert x[..6] == x; }
    SixDigitsDecode(x);
  }

  /** The normalised decoding reads 'rrggbb' and '#rrggbb' alike. */
  lemma NormalisedRoundTrip(r: nat, g: nat, b: nat)
    requires r < 256 && g < 256 && b < 256
    ensures DecodeNormalised(HexColour(r, g, b)) == Ok((r, g, b))
    ensures DecodeNormalised("#" + HexColour(r, g, b)) == Ok((r, g, b))
  {
    var x := HexColour(r, g, b);
    assert LstripHash(x) == x by { assert x[0] != '#' by { assert IsHexDigit(x[0]); } }
    assert Normalise(x) == x;
    assert Normalise("#" + x) == x by {
      assert ("#" + x)[1..] == x;
    }
    ChannelsRoundTrip(r, g, b);
  }

  /** The two characters a doubled digit becomes read as 17 times the digit. */
  lemma DoubledDigit(x: string, i: nat)
    requires i < |x| && IsHexDigit(x[i])
    ensures var c := Doubled(x); HexDigitsValue(c[2 * i..2 * i + 2]) == 17 * HexDigitValue(x[i])
  {
    var c := Doubled(x);
    assert (2 * i) / 2 == i && (2 * i + 1) / 2 == i;
    var p := c[2 * i..2 * i + 2];
    assert p[0] == c[2 * i] == x[i];
    assert p[1] == c[2 * i + 1] == x[i];
    PairValue(p);
  }

  /** The normalised decoding reads three digits 'rgb' as 'rrggbb'. */
  lemma NormalisedShortForm(x: string)
    requires |x| == 3 && AllHexDigits(x)
    ensures DecodeNormalised(x) == Ok((17 * HexDigitValue(x[0]), 17 * HexDigitValue(x[1]), 17 * HexDigitValue(x[2])))
  {
    assert LstripHash(x) == x;
    var c := Normalise(x);
    assert c == Doubled(x);
    DoubledDigit(x, 0);
    DoubledDigit(x, 1);
    DoubledDigit(x, 2);
    assert AllHexDigits(c[..6]) by { assert c[..6] == c; }
    SixDigitsDecode(c);
  }

  /** The normalised decoding reads two digits 'vv' as 'vvvvvv', a grey. */
  lemma NormalisedGrey(x: string)
    requires |x| == 2 && AllHexDigits(x)
    ensures DecodeNormalised(x) == Ok((HexDigitsValue(x), HexDigitsValue(x), HexDigitsValue(x)))
  {
    assert LstripHash(x) == x;
    var c := Normalise(x);
    assert c == x + x + x;
    assert c[..6] == c;
    assert c[0..2] == x && c[2..4] == x && c[4..6] == x;
    SixDigitsDecode(c);
  }

  /** '#ffffff': the normalised decoding gives white, the decoding of the argument
      as written raises. */
  lemma HashWhiteDiscrepancy()
    ensures DecodeChannels("#ffffff").Err?
    ensures DecodeNormalised("#ffffff") == Ok((255, 255, 255))
  {
    assert "#" + HexColour(255, 255, 255) == "#ffffff" by {
      assert ToHex2(255) == "ff";
    }
    NormalisedRoundTrip(255, 255, 255);
  }

  /** 'fff': the normalised decoding gives white, the decoding of the argument as
      written raises on its empty third slice. */
  lemma ShortWhiteDiscrepancy()
    ensures DecodeChannels("fff").Err?
    ensures DecodeNormalised("fff") == Ok((255, 255, 255))
  {
    NormalisedShortForm("fff");
  }
}
