/** ECMA-48 control sequences (app/core/tools.py): the CSI builder of section 5.4,
    SGR (section 8.3.117) as a CSI with final byte 'm', and a recogniser for the
    shape that `_csi_regex` and `_sgr_regex` describe:
    ESC '[' [ digits { ';' digits } ] letter. */
module Tools {
  import opened Wrappers
  import opened PyStr

  /** The escape character, '\033' in the source. */
  const ESC: char := '\U{1B}'

  /** Control Sequence Introducer: ESC followed by '['. */
  const CSI_PREFIX: string := [ESC, '[']

  /** `map(str, args)`. */
  function DecimalStrs(args: seq<int>): (r: seq<string>)
    ensures |r| == |args| && forall k :: 0 <= k < |args| ==> r[k] == IntToStr(args[k])
  {
    seq(|args|, k requires 0 <= k < |args| => IntToStr(args[k]))
  }

  /** `_csi(sign, *args)`: the introducer, the arguments in decimal joined by ';',
      then the final sign; with no arguments only the introducer and the sign. */
  function Csi(sign: string, args: seq<int>): (r: string)
    ensures |r| >= 2 + |sign| && r[..2] == CSI_PREFIX && r[|r| - |sign|..] == sign
    ensures |args| == 0 ==> r == CSI_PREFIX + sign
  {
    CSI_PREFIX + Join(DecimalStrs(args), ";") + sign
  }

  /** `_sgr(*args)`: Select Graphic Rendition, a CSI with final 'm'. */
  function Sgr(args: seq<int>): (r: string)
    ensures |r| >= 3 && r[..2] == CSI_PREFIX && r[|r| - 1] == 'm'
    ensures args == [] ==> r == CSI_PREFIX + "m"
  {
    Csi("m", args)
  }

  // ---------------------------------------------------------------------------
  // Recognising the shape of a control sequence

  predicate IsLetter(c: char) { 'a' <= c <= 'z' || 'A' <= c <= 'Z' }

  /** The numeric parameters and the final letter of a control sequence. */
  datatype CsiParts = CsiParts(params: seq<nat>, final: char)

  /** Position of the first ';' in `s`, or `|s|` when there is none. */
  function SemicolonIndex(s: string): (i: nat)
    ensures i <= |s| && ';' !in s[..i] && (i < |s| ==> s[i] == ';')
  {
    if |s| == 0 then 0
    else if s[0] == ';' then 0
    else 1 + SemicolonIndex(s[1..])
  }

  /** Parses `\d+(;\d+)*` into the values of the digit groups. */
  function ParseParams(body: string): (r: Option<seq<nat>>)
    ensures r.Some? ==> |r.value| > 0 && forall k :: 0 <= k < |body| ==> IsDigit(body[k]) || body[k] == ';'
    decreases |body|
  {
    var i := SemicolonIndex(body);
    var head := body[..i];
    if head == "" || !AllDigits(head) then None
    else if i == |body| then Some([DigitsValue(head)])
    else match ParseParams(body[i + 1..])
      case None => None
      case Some(rest) =>
        assert forall k :: i + 1 <= k < |body| ==> body[k] == body[i + 1..][k - i - 1];
        Some([DigitsValue(head)] + rest)
  }

  /** Reads a whole string as ESC '[' [params] letter; None when it has another shape. */
  function ParseCsi(s: string): (r: Option<CsiParts>)
    ensures r.Some? ==> '-' !in s
  {
    if |s| < 3 || s[0] != ESC || s[1] != '[' || !IsLetter(s[|s| - 1]) then None
    else
      var body := s[2..|s| - 1];
      assert forall k :: 2 <= k < |s| - 1 ==> s[k] == body[k - 2];
      if body == "" then Some(CsiParts([], s[|s| - 1]))
      else match ParseParams(body)
        case None => None
        case Some(ps) => Some(CsiParts(ps, s[|s| - 1]))
  }

  /** The strings `_csi_regex` accepts as a whole. */
  predicate MatchesCsiPattern(s: string) { ParseCsi(s).Some? }

  /** The strings `_sgr_regex` accepts as a whole. */
  predicate MatchesSgrPattern(s: string) { ParseCsi(s).Some? && ParseCsi(s).value.final == 'm' }

  // ---------------------------------------------------------------------------
  // Round trip: what Csi writes, ParseCsi reads back

  lemma {:induction false} ParseParamsOfJoin(args: seq<nat>)
    requires |args| > 0
    ensures ParseParams(Join(DecimalStrs(args), ";")) == Some(args)
    decreases |args|
  {
    var strs := DecimalStrs(args);
    var head := NatToStr(args[0]);
    DigitsValueOfNatToStr(args[0]);
    assert ';' !in head by {
      forall k | 0 <= k < |head| ensures head[k] != ';' { assert IsDigit(head[k]); }
    }
    if |args| == 1 {
      assert Join(strs, ";") == head;
      assert SemicolonIndex(head) == |head| by { SemicolonAbsent(head); }
      assert head[..|head|] == head;
      assert AllDigits(head) && head != "";
      assert args == [args[0]];
    } else {
      var tail := Join(strs[1..], ";");
      var body := head + ";" + tail;
      assert Join(strs, ";") == body;
      assert SemicolonIndex(body) == |head| by { SemicolonAfter(head, tail); }
      assert body[..|head|] == head;
      assert body[|head| + 1..] == tail;
      assert strs[1..] == DecimalStrs(args[1..]);
      ParseParamsOfJoin(args[1..]);
      assert [args[0]] + args[1..] == args;
    }
  }

  lemma {:induction false} SemicolonAbsent(s: string)
    requires ';' !in s
    ensures SemicolonIndex(s) == |s|
    decreases |s|
  {
    if |s| > 0 {
      assert ';' !in s[1..] by { assert forall k :: 0 <= k < |s| - 1 ==> s[1..][k] == s[k + 1]; }
      SemicolonAbsent(s[1..]);
    }
  }

  lemma {:induction false} SemicolonAfter(head: string, tail: string)
    requires ';' !in head
    ensures SemicolonIndex(head + ";" + tail) == |head|
    decreases |head|
  {
    if |head| > 0 {
      assert (head + ";" + tail)[1..] == head[1..] + ";" + tail;
      assert ';' !in head[1..] by { assert forall k :: 0 <= k < |head| - 1 ==> head[1..][k] == head[k + 1]; }
      SemicolonAfter(head[1..], tail);
    }
  }

  /** For non-negative arguments and a one-letter final, the sequence `_csi` builds
      is read back as exactly those parameters and that letter. */
  lemma CsiRoundTrip(sign: char, args: seq<nat>)
    requires IsLetter(sign)
    ensures ParseCsi(Csi([sign], args)) == Some(CsiParts(args, sign))
  {
    var s := Csi([sign], args);
    var j := Join(DecimalStrs(args), ";");
    assert s == CSI_PREFIX + j + [sign];
    assert s[2..|s| - 1] == j;
    if |args| > 0 {
      ParseParamsOfJoin(args);
    } else {
      assert j == "";
    }
  }

  /** `_csi` output has the shape `_csi_regex` describes. */
  lemma CsiMatchesPattern(sign: char, args: seq<nat>)
    requires IsLetter(sign)
    ensures MatchesCsiPattern(Csi([sign], args))
  {
    CsiRoundTrip(sign, args);
  }

  /** `_sgr` output has the shape `_sgr_regex` describes, with the same parameters. */
  lemma SgrRoundTrip(args: seq<nat>)
    ensures ParseCsi(Sgr(args)) == Some(CsiParts(args, 'm'))
    ensures MatchesSgrPattern(Sgr(args))
  {
    CsiRoundTrip('m', args);
  }

  /** A negative argument is written with '-', which neither pattern admits. */
  lemma NegativeArgumentBreaksPattern(sign: string, args: seq<int>, k: nat)
    requires k < |args| && args[k] < 0
    ensures !MatchesCsiPattern(Csi(sign, args)) && !MatchesSgrPattern(Sgr(args))
  {
    var strs := DecimalStrs(args);
    assert '-' in strs[k];
    JoinContainsParts(strs, ";", k, '-');
    var j := Join(strs, ";");
    assert '-' in Csi(sign, args) by {
      var p :| 0 <= p < |j| && j[p] == '-';
      assert Csi(sign, args)[2 + p] == '-';
    }
    assert '-' in Sgr(args) by {
      var p :| 0 <= p < |j| && j[p] == '-';
      assert Sgr(args)[2 + p] == '-';
    }
  }
}
