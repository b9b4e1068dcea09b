/** The colour codec of UserIO: style options become an ECMA-48 control
    sequence (section 5.4 of ECMA-48) for Select Graphic Rendition (section
    8.3.117), `ESC [ p1;p2;... m`. Beside the encoder stand a decoder of such
    sequences and the effect their parameters have on a terminal, so that
    what an escape sequence does is stated independently of how it is built. */
module Sgr {
  import opened TextOps

  datatype Option<T> = None | Some(value: T)

  /** Ruby's `color:` option: the seven hues, `:none`, and any other symbol
      (which text_color accepts but maps to no parameter). */
  datatype Color = Red | Green | Yellow | Blue | Purple | Cyan | White | Uncolored | Unrecognised

  /** The colour options of tell, tell_line and tell_pty_stream; None is nil.
      Ruby treats any non-nil, non-false value as true, hence Option<bool>. */
  datatype Style = Style(
    color: Option<Color>,
    bright: Option<bool>,
    faint: Option<bool>,
    italic: Option<bool>,
    underline: Option<bool>)

  /** No colour option at all, as `tell(msg)` and `<<` pass. */
  const Plain := Style(None, None, None, None, None)

  /** `text_color(color: :none, bright: false)`, the style of every postfix. */
  const ResetStyle := Style(Some(Uncolored), Some(false), None, None, None)

  const ESC: char := '\U{1B}'

  // ---------------------------------------------------------------------
  // Decimal parameters (Integer#to_s and its inverse)

  predicate IsDigit(c: char)
  {
    '0' <= c <= '9'
  }

  function DigitChar(d: nat): (c: char)
    requires d < 10
    ensures IsDigit(c)
  {
    (48 + d) as char
  }

  function Decimal(n: nat): (r: string)
    ensures |r| >= 1
    ensures forall i :: 0 <= i < |r| ==> IsDigit(r[i])
  {
    if n < 10 then [DigitChar(n)] else Decimal(n / 10) + [DigitChar(n % 10)]
  }

  function DigitValue(c: char): nat
    requires IsDigit(c)
  {
    c as int - '0' as int
  }

  function ParseDecimal(s: string): nat
    requires forall i :: 0 <= i < |s| ==> IsDigit(s[i])
  {
    if s == [] then 0
    else ParseDecimal(s[..|s| - 1]) * 10 + DigitValue(s[|s| - 1])
  }

  lemma {:induction false} DecimalRoundTrip(n: nat)
    ensures ParseDecimal(Decimal(n)) == n
  {
    if n >= 10 {
      DecimalRoundTrip(n / 10);
      var d := Decimal(n);
      assert d[..|d| - 1] == Decimal(n / 10);
    }
  }

  // ---------------------------------------------------------------------
  // Encoder: control_sequence, sgr_sequence, text_color, compute_color

  /** The parameters rendered in decimal, as `parameters.join(";")` does. */
  function ParameterString(ps: seq<nat>): string
  {
    JoinWith(seq(|ps|, i requires 0 <= i < |ps| => Decimal(ps[i])), ";")
  }

  /** `control_sequence(*parameters, function)`: CSI, the parameters, the
      final character(s). */
  function ControlSequence(ps: seq<nat>, final: string): (r: string)
    ensures |r| >= 2 + |final| && r[..2] == [ESC, '['] && r[|r| - |final|..] == final
  {
    [ESC, '['] + ParameterString(ps) + final
  }

  /** `sgr_sequence(*parameters)`: a control sequence with final `m`. */
  function SgrSequence(ps: seq<nat>): (r: string)
    ensures |r| >= 3 && r[..2] == [ESC, '['] && r[|r| - 1] == 'm'
  {
    ControlSequence(ps, "m")
  }

  /** The weight parameter: present when `bright` or `faint` is given. */
  function WeightParams(s: Style): seq<nat>
  {
    if s.bright.None? && s.faint.None? then []
    else if s.bright == Some(true) then [1]
    else if s.faint == Some(true) then [2]
    else [22]
  }

  function SwitchParams(o: Option<bool>, on: nat, off: nat): seq<nat>
  {
    match o
    case None => []
    case Some(b) => if b then [on] else [off]
  }

  function HueParams(c: Option<Color>): seq<nat>
  {
    match c
    case Some(Red) => [31]
    case Some(Green) => [32]
    case Some(Yellow) => [33]
    case Some(Blue) => [34]
    case Some(Purple) => [35]
    case Some(Cyan) => [36]
    case Some(White) => [37]
    case Some(Uncolored) => [39]
    case _ => []
  }

  /** The `sequence` text_color collects: weight, italic, underline, hue. */
  function SgrParameters(s: Style): (r: seq<nat>)
    ensures |r| <= 4
    ensures r == [] <==> s.bright.None? && s.faint.None? && s.italic.None? && s.underline.None?
                         && (s.color.None? || s.color == Some(Unrecognised))
    ensures forall p :: p in r ==> p in {1, 2, 22, 3, 23, 4, 24, 39} || 31 <= p <= 37
  {
    WeightParams(s) + SwitchParams(s.italic, 3, 23) + SwitchParams(s.underline, 4, 24) + HueParams(s.color)
  }

  /** The body of text_color as it runs: the parameter array grows by one
      append per option that was given, in the order weight, italic,
      underline, hue. */
  method CollectParameters(s: Style) returns (sequence: seq<nat>)
    ensures sequence == SgrParameters(s)
    ensures |sequence| <= 4
  {
    sequence := [];
    if !(s.bright.None? && s.faint.None?) {
      sequence := sequence + [if s.bright == Some(true) then 1 else if s.faint == Some(true) then 2 else 22];
    }
    assert sequence == WeightParams(s);
    if s.italic.Some? {
      sequence := sequence + [if s.italic.value then 3 else 23];
    }
    assert sequence == WeightParams(s) + SwitchParams(s.italic, 3, 23);
    if s.underline.Some? {
      sequence := sequence + [if s.underline.value then 4 else 24];
    }
    ghost var head := sequence;
    assert head == WeightParams(s) + SwitchParams(s.italic, 3, 23) + SwitchParams(s.underline, 4, 24);
    match s.color {
      case Some(Red) => sequence := sequence + [31];
      case Some(Green) => sequence := sequence + [32];
      case Some(Yellow) => sequence := sequence + [33];
      case Some(Blue) => sequence := sequence + [34];
      case Some(Purple) => sequence := sequence + [35];
      case Some(Cyan) => sequence := sequence + [36];
      case Some(White) => sequence := sequence + [37];
      case Some(Uncolored) => sequence := sequence + [39];
      case _ =>
    }
    assert sequence == head + HueParams(s.color);
  }

  /** `text_color`: nothing unless a colour or `bright` is given (even when
      faint, italic or underline are), else the SGR sequence. */
  function TextColor(s: Style): (r: Option<string>)
    ensures r.None? <==> s.color.None? && s.bright.None?
    ensures r.Some? ==> |r.value| >= 3 && r.value[..2] == [ESC, '['] && r.value[|r.value| - 1] == 'm'
  {
    if s.color.None? && s.bright.None? then None else Some(SgrSequence(SgrParameters(s)))
  }

  /** The colour prefix and postfix of one tell_line or tell_pty_stream. */
  datatype ColorPair = ColorPair(prefix: Option<string>, postfix: Option<string>)

  /** `compute_color`: no colour off a terminal or when text_color yields
      nothing; otherwise the requested sequence and, whatever was requested,
      the fixed postfix `ESC [22;39m`. */
  function ComputeColor(tty: bool, s: Style): (r: ColorPair)
    ensures r.prefix.None? <==> !tty || (s.color.None? && s.bright.None?)
    ensures r.postfix.None? <==> r.prefix.None?
    ensures r.prefix.Some? ==> r.prefix == TextColor(s)
    ensures r.postfix.Some? ==> r.postfix.value == [ESC] + "[22;39m"
  {
    ResetSequence();
    if tty && TextColor(s).Some? then ColorPair(TextColor(s), TextColor(ResetStyle))
    else ColorPair(None, None)
  }

  lemma ResetSequence()
    ensures TextColor(ResetStyle) == Some([ESC] + "[22;39m")
  {
    assert SgrParameters(ResetStyle) == [22, 39];
    assert Decimal(22) == "22" by {
      assert Decimal(2) == "2";
    }
    assert Decimal(39) == "39" by {
      assert Decimal(3) == "3";
    }
    var ds := seq(2, i requires 0 <= i < 2 => Decimal([22, 39][i]));
    assert ds == ["22", "39"];
    assert ds[1..] == ["39"];
    assert JoinWith(ds, ";") == ds[0] + ";" + JoinWith(ds[1..], ";");
    assert ParameterString([22, 39]) == "22;39";
    assert SgrSequence([22, 39]) == [ESC, '['] + "22;39" + "m";
    assert [ESC, '['] + "22;39" + "m" == [ESC] + "[22;39m";
  }

  // ---------------------------------------------------------------------
  // Decoder

  /** The parameter string of a control sequence read back: empty means no
      parameter; an empty sub-string stands for the default value 0. */
  function ParseParameters(s: string): Option<seq<nat>>
  {
    if s == "" then Some([])
    else
      var pieces := Pieces(s, ';');
      if forall i, j :: 0 <= i < |pieces| && 0 <= j < |pieces[i]| ==> IsDigit(pieces[i][j])
      then Some(seq(|pieces|, i requires 0 <= i < |pieces| => ParseDecimal(pieces[i])))
      else None
  }

  /** The parameters of an SGR sequence, or None for anything else. */
  function ParseSgr(t: string): Option<seq<nat>>
  {
    if |t| >= 3 && t[0] == ESC && t[1] == '[' && t[|t| - 1] == 'm' then ParseParameters(t[2..|t| - 1])
    else None
  }

  /** The parameter string reads back as the parameters it was built from. */
  lemma ParametersRoundTrip(ps: seq<nat>)
    ensures ParseParameters(ParameterString(ps)) == Some(ps)
  {
    var body := ParameterString(ps);
    if ps != [] {
      var ds := seq(|ps|, i requires 0 <= i < |ps| => Decimal(ps[i]));
      forall i | 0 <= i < |ds| ensures ';' !in ds[i] {
        assert forall j :: 0 <= j < |ds[i]| ==> IsDigit(ds[i][j]);
      }
      JoinPieces(ds, ';');
      assert Pieces(body, ';') == ds;
      assert |body| >= 1 by {
        JoinWithLength(ds, ";");
      }
      forall i | 0 <= i < |ds| ensures ParseDecimal(ds[i]) == ps[i] {
        DecimalRoundTrip(ps[i]);
      }
      assert seq(|ds|, i requires 0 <= i < |ds| => ParseDecimal(ds[i])) == ps;
    }
  }

  /** Encoding then decoding gives back the parameters. */
  lemma SgrRoundTrip(ps: seq<nat>)
    ensures ParseSgr(SgrSequence(ps)) == Some(ps)
  {
    var t := SgrSequence(ps);
    var body := ParameterString(ps);
    assert t == [ESC, '['] + body + "m";
    assert t[2..|t| - 1] == body;
    ParametersRoundTrip(ps);
  }

  lemma JoinWithLength(ls: seq<string>, sep: string)
    requires |ls| >= 1 && |ls[0]| >= 1
    ensures |JoinWith(ls, sep)| >= 1
  {
  }

  // ---------------------------------------------------------------------
  // What a terminal does with the parameters (ECMA-48, section 8.3.117)

  datatype Weight = Normal | Bold | Faint
  datatype Foreground = DefaultColor | Palette(index: nat)

  /** The graphic rendition a terminal applies to the characters that follow. */
  datatype Rendition = Rendition(weight: Weight, italic: bool, underline: bool, foreground: Foreground)

  const DefaultRendition := Rendition(Normal, false, false, DefaultColor)

  /** One SGR parameter: 0 default rendition, 1 bold, 2 faint, 22 normal
      intensity, 3/23 italicized on/off, 4/24 underlined on/off, 30-37 a
      display colour, 39 the default display colour; others are not used
      here and leave the rendition as it is. */
  function ApplyParameter(p: nat, r: Rendition): Rendition
  {
    if p == 0 then DefaultRendition
    else if p == 1 then r.(weight := Bold)
    else if p == 2 then r.(weight := Faint)
    else if p == 22 then r.(weight := Normal)
    else if p == 3 then r.(italic := true)
    else if p == 23 then r.(italic := false)
    else if p == 4 then r.(underline := true)
    else if p == 24 then r.(underline := false)
    else if 30 <= p <= 37 then r.(foreground := Palette(p - 30))
    else if p == 39 then r.(foreground := DefaultColor)
    else r
  }

  function ApplyParameters(ps: seq<nat>, r: Rendition): Rendition
  {
    if ps == [] then r else ApplyParameters(ps[1..], ApplyParameter(ps[0], r))
  }

  /** The rendition after the terminal reads `t` in rendition `r`, when `t`
      is an SGR sequence; an empty parameter list means parameter 0. */
  function Display(t: string, r: Rendition): Option<Rendition>
  {
    match ParseSgr(t)
    case None => None
    case Some(ps) => Some(if ps == [] then DefaultRendition else ApplyParameters(ps, r))
  }

  /** The palette entry each named hue denotes in ECMA-48. */
  function PaletteIndex(c: Color): Option<nat>
  {
    match c
    case Red => Some(1)
    case Green => Some(2)
    case Yellow => Some(3)
    case Blue => Some(4)
    case Purple => Some(5)
    case Cyan => Some(6)
    case White => Some(7)
    case _ => None
  }

  /** What the options ask of the terminal, stated on renditions: a true
      `bright` wins over `faint`, false weight options mean normal intensity, and
      each attribute that is not mentioned stays as it was. */
  function Requested(s: Style, r: Rendition): Rendition
  {
    Rendition(
      weight := if s.bright == Some(true) then Bold
                else if s.faint == Some(true) then Faint
                else if s.bright.Some? || s.faint.Some? then Normal
                else r.weight,
      italic := if s.italic.Some? then s.italic.value else r.italic,
      underline := if s.underline.Some? then s.underline.value else r.underline,
      foreground := if s.color == Some(Uncolored) then DefaultColor
                    else if s.color.Some? && PaletteIndex(s.color.value).Some? then Palette(PaletteIndex(s.color.value).value)
                    else r.foreground)
  }

  /** Options that name no recognised attribute: an unknown colour and
      nothing else. */
  predicate AsksNothing(s: Style)
  {
    s.color == Some(Unrecognised) && s.bright.None? && s.faint.None? && s.italic.None? && s.underline.None?
  }

  lemma {:induction false} ApplyParametersAppend(a: seq<nat>, b: seq<nat>, r: Rendition)
    ensures ApplyParameters(a + b, r) == ApplyParameters(b, ApplyParameters(a, r))
  {
    if a == [] {
      assert a + b == b;
    } else {
      assert (a + b)[0] == a[0];
      assert (a + b)[1..] == a[1..] + b;
      ApplyParametersAppend(a[1..], b, ApplyParameter(a[0], r));
    }
  }

  lemma WeightDisplay(s: Style, r: Rendition)
    ensures ApplyParameters(WeightParams(s), r) == r.(weight := Requested(s, r).weight)
  {
  }

  lemma ItalicDisplay(s: Style, r: Rendition)
    ensures ApplyParameters(SwitchParams(s.italic, 3, 23), r) == r.(italic := Requested(s, r).italic)
  {
  }

  lemma UnderlineDisplay(s: Style, r: Rendition)
    ensures ApplyParameters(SwitchParams(s.underline, 4, 24), r) == r.(underline := Requested(s, r).underline)
  {
  }

  lemma HueDisplay(s: Style, r: Rendition)
    ensures ApplyParameters(HueParams(s.color), r) == r.(foreground := Requested(s, r).foreground)
  {
    match s.color
    case None =>
    case Some(c) =>
      match c
      case Red => assert ApplyParameters([31], r) == ApplyParameter(31, r);
      case Green => assert ApplyParameters([32], r) == ApplyParameter(32, r);
      case Yellow => assert ApplyParameters([33], r) == ApplyParameter(33, r);
      case Blue => assert ApplyParameters([34], r) == ApplyParameter(34, r);
      case Purple => assert ApplyParameters([35], r) == ApplyParameter(35, r);
      case Cyan => assert ApplyParameters([36], r) == ApplyParameter(36, r);
      case White => assert ApplyParameters([37], r) == ApplyParameter(37, r);
      case Uncolored => assert ApplyParameters([39], r) == ApplyParameter(39, r);
      case Unrecognised =>
  }

  /** The parameters text_color collects, applied in order, set each
      attribute the options name and leave the others. */
  lemma ParametersDisplay(s: Style, r: Rendition)
    ensures ApplyParameters(SgrParameters(s), r) == Requested(s, r)
  {
    var w, it, ul, hue := WeightParams(s), SwitchParams(s.italic, 3, 23), SwitchParams(s.underline, 4, 24), HueParams(s.color);
    ApplyParametersAppend(w + it + ul, hue, r);
    ApplyParametersAppend(w + it, ul, r);
    ApplyParametersAppend(w, it, r);
    var r1 := ApplyParameters(w, r);
    WeightDisplay(s, r);
    var r2 := ApplyParameters(it, r1);
    ItalicDisplay(s, r1);
    var r3 := ApplyParameters(ul, r2);
    UnderlineDisplay(s, r2);
    HueDisplay(s, r3);
  }

  /** The sequence text_color builds does to the terminal exactly what the
      options ask; the one exception is an unknown colour alone, whose
      sequence `ESC [m` resets every attribute. */
  lemma TextColorDisplay(s: Style, r: Rendition)
    requires TextColor(s).Some?
    ensures Display(TextColor(s).value, r) == Some(if AsksNothing(s) then DefaultRendition else Requested(s, r))
  {
    var ps := SgrParameters(s);
    SgrRoundTrip(ps);
    assert ParseSgr(TextColor(s).value) == Some(ps);
    if AsksNothing(s) {
      assert ps == [];
    } else {
      assert ps != [];
      ParametersDisplay(s, r);
    }
  }

  /** The postfix resets intensity and colour and nothing else: italics and
      underlining asked for in the prefix outlast it. */
  lemma PostfixDisplay(r: Rendition)
    ensures Display([ESC] + "[22;39m", r) == Some(r.(weight := Normal, foreground := DefaultColor))
  {
    ResetSequence();
    TextColorDisplay(ResetStyle, r);
  }

  /** A full prefix/postfix pair as compute_color hands it out leaves the
      terminal in normal intensity and default colour, with the italic and
      underline state the prefix set. */
  lemma ColorPairDisplay(tty: bool, s: Style, r: Rendition)
    requires ComputeColor(tty, s).prefix.Some?
    ensures var pair := ComputeColor(tty, s);
            var mid := Display(pair.prefix.value, r);
            mid.Some? && Display(pair.postfix.value, mid.value)
              == Some(mid.value.(weight := Normal, foreground := DefaultColor))
  {
    TextColorDisplay(s, r);
    var mid := Display(ComputeColor(tty, s).prefix.value, r);
    PostfixDisplay(mid.value);
  }
}
