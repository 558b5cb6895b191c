/** Filter stages of the transcoding engine's video filter graph and their
    textual form.  Both front ends build their `-vf` argument from these
    stages; the blur graph differs slightly between them. */
module Filters {
  import opened Common

  /** Target aspect ratio of a run: 9:16 (vertical) or 16:9 (horizontal). */
  datatype Ratio = Vertical | Horizontal
  {
    /** Output canvas: 1080x1920 for 9:16, 1920x1080 for 16:9. */
    function Width(): nat { if Vertical? then 1080 else 1920 }
    function Height(): nat { if Vertical? then 1920 else 1080 }
  }

  /** One term of the colour-adjustment stage. */
  datatype EqPart = Brightness(v: real) | Contrast(v: real) | Saturation(v: real)
  {
    /** Position of the term in the stage: brightness, contrast, saturation. */
    function Rank(): nat
    {
      match this
      case Brightness(_) => 0
      case Contrast(_) => 1
      case Saturation(_) => 2
    }
  }

  /** A quarter turn: `transpose=1` (clockwise) or `transpose=2`. */
  datatype Turn = Clockwise | CounterClockwise

  /** Which front end's blur graph: the Tk variant writes the background
      scale for 16:9 as `1920:1080`, the Qt variant as `1920:-1` and labels
      the input pad `[0:v]`. */
  datatype Graph = TkGraph | QtGraph

  datatype Stage =
    | Eq(parts: seq<EqPart>)
    | Rotate(turns: seq<Turn>)
    | Scale(ratio: Ratio)
    | ScalePad(ratio: Ratio)
    | BlurOverlay(ratio: Ratio, sigma: int, graph: Graph)
    | PixelFormat
  {
    /** The stage that fits the frame to the output canvas. */
    predicate IsLayout() { Scale? || ScalePad? || BlurOverlay? }
  }

  function Dims(r: Ratio): string
  {
    NatToString(r.Width()) + ":" + NatToString(r.Height())
  }

  function RenderEqPart(p: EqPart): string
  {
    match p
    case Brightness(v) => "brightness=" + Fixed(v, 2)
    case Contrast(v) => "contrast=" + Fixed(v, 2)
    case Saturation(v) => "saturation=" + Fixed(v, 2)
  }

  function RenderTurn(t: Turn): string
  {
    if t == Clockwise then "transpose=1" else "transpose=2"
  }

  function MapEqParts(ps: seq<EqPart>): (r: seq<string>)
    ensures |r| == |ps|
  {
    if |ps| == 0 then [] else [RenderEqPart(ps[0])] + MapEqParts(ps[1..])
  }

  function MapTurns(ts: seq<Turn>): (r: seq<string>)
    ensures |r| == |ts|
  {
    if |ts| == 0 then [] else [RenderTurn(ts[0])] + MapTurns(ts[1..])
  }

  /** The overlay that centres the fitted frame on the blurred background. */
  const CentredOverlay: string := "[bgblur][fg]overlay=(W-w)/2:(H-h)/2"

  /** The input pad label: only the Qt graph names it. */
  function GraphInput(g: Graph): string
  {
    if g == QtGraph then "[0:v]" else ""
  }

  /** Split the frame and scale one copy to cover the canvas, then crop it
      to the canvas. */
  function CoverPart(r: Ratio, g: Graph): (c: string)
    ensures |c| > 0 && c[0] == 's'
  {
    var w := NatToString(r.Width());
    var h := NatToString(r.Height());
    var background :=
      if r.Vertical? then "-1:" + h
      else if g == TkGraph then w + ":" + h
      else w + ":-1";
    "split=2[main][bg];[bg]scale=" + background
      + ":force_original_aspect_ratio=increase,crop=" + w + ":" + h + ","
  }

  /** Blur the covering copy. */
  function BlurPart(sigma: int): string
  {
    "gblur=sigma=" + IntToString(sigma) + "[bgblur]"
  }

  /** Fit the other copy inside the canvas. */
  function FitPart(r: Ratio): string
  {
    var w := NatToString(r.Width());
    var h := NatToString(r.Height());
    var foreground := if r.Vertical? then w + ":-2" else "-2:" + h;
    ";[main]scale=" + foreground + ":force_original_aspect_ratio=decrease[fg];"
  }

  /** The blurred-background graph: the frame is split, one copy scaled to
      cover the canvas, cropped and blurred, the other fitted inside it and
      overlaid in the centre. */
  function BlurGraphText(r: Ratio, sigma: int, g: Graph): (t: string)
    ensures StartsWith(t, "[0:v]") <==> g == QtGraph
    ensures Contains(t, "gblur=sigma=" + IntToString(sigma) + "[bgblur]")
    ensures EndsWith(t, CentredOverlay)
  {
    var a, b, c, d, e := GraphInput(g), CoverPart(r, g), BlurPart(sigma), FitPart(r), CentredOverlay;
    FiveParts(a, b, c, d, e);
    a + b + c + d + e
  }

  /** The rotation text starts with its first turn. */
  lemma TurnsStartWithFirst(turns: seq<Turn>)
    ensures |turns| >= 1 ==> StartsWith(JoinWith(MapTurns(turns), ","), RenderTurn(turns[0]))
  {
    if |turns| >= 1 {
      JoinWithStartsWithFirst(MapTurns(turns), ",");
    }
  }

  /** A text starts with what is put first. */
  lemma PrefixThenRest(p: string, rest: string)
    ensures StartsWith(p + rest, p)
  {
    assert (p + rest)[..|p|] == p;
  }

  /** A text glued from four pieces starts with the first and holds the
      third. */
  lemma FourParts(a: string, b: string, c: string, d: string)
    ensures StartsWith(a + b + c + d, a) && Contains(a + b + c + d, c)
  {
    assert a + b + c + d == a + (b + c + d);
    PrefixThenRest(a, b + c + d);
    ContainsInside(a + b, c, d);
  }

  /** What a text glued from five pieces starts with, holds and ends with. */
  lemma FiveParts(a: string, b: string, c: string, d: string, e: string)
    requires |b| > 0
    ensures var t := a + b + c + d + e;
            && StartsWith(t, a) && |t| > |a| && t[|a|] == b[0]
            && Contains(t, c) && EndsWith(t, e)
  {
    var t := a + b + c + d + e;
    assert t[..|a|] == a;
    assert t == (a + b) + c + (d + e);
    ContainsInside(a + b, c, d + e);
    assert t == (a + b + c + d) + e;
    assert t[|t| - |e|..] == e;
  }

  /** For 9:16 the two front ends' graphs differ only in the input label. */
  lemma VerticalGraphsDifferInLabel(r: Ratio, sigma: int)
    requires r.Vertical?
    ensures BlurGraphText(r, sigma, QtGraph) == "[0:v]" + BlurGraphText(r, sigma, TkGraph)
  {
    var b, c, d, e := CoverPart(r, TkGraph), BlurPart(sigma), FitPart(r), CentredOverlay;
    assert CoverPart(r, QtGraph) == b;
    PrefixOfFive(GraphInput(QtGraph), GraphInput(TkGraph), b, c, d, e);
  }

  lemma PrefixOfFive(p: string, q: string, b: string, c: string, d: string, e: string)
    requires q == []
    ensures p + b + c + d + e == p + (q + b + c + d + e)
  {
  }

  /** One stage as text.  Each kind starts with, or holds, the filter that
      does its work. */
  function RenderStage(s: Stage): (t: string)
    ensures s.Eq? ==> StartsWith(t, "eq=")
    ensures s.Rotate? && |s.turns| >= 1 ==> StartsWith(t, RenderTurn(s.turns[0]))
    ensures s.Scale? || s.ScalePad? ==> StartsWith(t, "scale=" + Dims(s.ratio))
    ensures s.ScalePad? ==> Contains(t, "pad=" + Dims(s.ratio))
    ensures s.BlurOverlay? ==> Contains(t, "gblur=sigma=" + IntToString(s.sigma) + "[bgblur]")
    ensures s.BlurOverlay? ==> (StartsWith(t, "[0:v]") <==> s.graph == QtGraph)
    ensures s.PixelFormat? ==> t == "format=yuv420p"
  {
    match s
    case Eq(parts) => EqText(parts)
    case Rotate(turns) => RotateText(turns)
    case Scale(r) => ScaleText(r)
    case ScalePad(r) => ScalePadText(r)
    case BlurOverlay(r, sigma, g) => BlurGraphText(r, sigma, g)
    case PixelFormat => "format=yuv420p"
  }

  /** The colour stage: `eq=` and the terms joined by ":". */
  function EqText(parts: seq<EqPart>): (t: string)
    ensures StartsWith(t, "eq=")
  {
    var terms := JoinWith(MapEqParts(parts), ":");
    PrefixThenRest("eq=", terms);
    "eq=" + terms
  }

  /** The rotation stage: the turns joined by ",". */
  function RotateText(turns: seq<Turn>): (t: string)
    ensures |turns| >= 1 ==> StartsWith(t, RenderTurn(turns[0]))
  {
    TurnsStartWithFirst(turns);
    JoinWith(MapTurns(turns), ",")
  }

  /** Plain scaling to the canvas. */
  function ScaleText(r: Ratio): (t: string)
    ensures StartsWith(t, "scale=" + Dims(r))
  {
    var scale := "scale=" + Dims(r);
    PrefixThenRest(scale, "");
    scale + ""
  }

  /** Fitting inside the canvas and padding to it with black, centred. */
  function ScalePadText(r: Ratio): (t: string)
    ensures StartsWith(t, "scale=" + Dims(r)) && Contains(t, "pad=" + Dims(r))
  {
    var scale, pad := "scale=" + Dims(r), "pad=" + Dims(r);
    var fit, centre := ":force_original_aspect_ratio=decrease,", ":(ow-iw)/2:(oh-ih)/2:black";
    FourParts(scale, fit, pad, centre);
    scale + fit + pad + centre
  }

  function MapStages(ss: seq<Stage>): (r: seq<string>)
    ensures |r| == |ss|
    ensures forall i :: 0 <= i < |ss| ==> r[i] == RenderStage(ss[i])
  {
    if |ss| == 0 then [] else [RenderStage(ss[0])] + MapStages(ss[1..])
  }

  /** The `-vf` argument: the stages joined with ",". */
  function RenderChain(ss: seq<Stage>): string
  {
    JoinWith(MapStages(ss), ",")
  }

  /** Two stages render as the first, a comma and the second. */
  lemma TwoStageChain(ss: seq<Stage>)
    requires |ss| == 2
    ensures RenderChain(ss) == RenderStage(ss[0]) + ("," + RenderStage(ss[1]))
  {
    var parts := MapStages(ss);
    assert parts == [parts[0], parts[1]];
    JoinWithTwo(parts[0], parts[1], ",");
  }

  /** A chain whose last stage is the pixel-format stage ends, as text, with
      `format=yuv420p`. */
  lemma RenderChainEndsWithFormat(ss: seq<Stage>)
    requires |ss| >= 1 && ss[|ss| - 1] == PixelFormat
    ensures EndsWith(RenderChain(ss), "format=yuv420p")
  {
    var parts := MapStages(ss);
    assert parts[|parts| - 1] == "format=yuv420p";
    JoinWithEndsWithLast(parts, ",");
  }
}
