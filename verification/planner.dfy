/** The Tk front end's filter planner (main1.py `_run_ffmpeg`, lines
    374-408): colour stage, rotation stage, one layout stage chosen by an
    aspect test, and the trailing pixel-format stage. */
module Planner {
  import opened Common
  import opened Filters

  /** The options the planner reads, after the entry texts were parsed.
      `angle` is the raw text of the rotation entry. */
  datatype Look = Look(
    sigma: int,
    rotateOn: bool, angle: string,
    blurOn: bool,
    brightnessOn: bool, brightness: real,
    contrastOn: bool, contrast: real,
    saturationOn: bool, saturation: real)
  {
    predicate AnyColour() { brightnessOn || contrastOn || saturationOn }

    /** A rotation by 90 or 270 degrees turns the frame on its side. */
    predicate SwapsSides() { rotateOn && (angle == "90" || angle == "270") }

    predicate RotationKnown() { rotateOn && (angle == "90" || angle == "180" || angle == "270") }
  }

  /** main1.py:378: the Tk variant targets 9:16 exactly when the mode is "9:16". */
  function RatioOfMode(mode: string): (r: Ratio)
    ensures r.Vertical? <==> mode == "9:16"
  {
    if mode == "9:16" then Vertical else Horizontal
  }

  /** Frame height as seen by the aspect test (width and height swap for
      quarter turns). */
  function EffectiveWidth(look: Look, w: nat, h: nat): nat { if look.SwapsSides() then h else w }
  function EffectiveHeight(look: Look, w: nat, h: nat): nat { if look.SwapsSides() then w else h }

  /** `abs(w/h - tw/th) <= 0.01`, on exact rationals. */
  predicate AspectMatches(w: nat, h: nat, r: Ratio)
    requires h > 0
  {
    RealAbs((w as real) / (h as real) - (r.Width() as real) / (r.Height() as real)) <= 0.01
  }

  function EqParts(look: Look): (parts: seq<EqPart>)
    ensures |parts| > 0 <==> look.AnyColour()
    ensures RankOrdered(parts) && CarriesEnabled(parts, look)
  {
    var b := if look.brightnessOn then [Brightness(look.brightness)] else [];
    var c := if look.contrastOn then [Contrast(look.contrast)] else [];
    var s := if look.saturationOn then [Saturation(look.saturation)] else [];
    var parts := b + c + s;
    PartsInOrder(b, c, s, parts);
    parts
  }

  /** Where each term of `b + c + s` comes from. */
  predicate PartsFrom(b: seq<EqPart>, c: seq<EqPart>, s: seq<EqPart>, parts: seq<EqPart>)
  {
    && |b| <= 1 && |c| <= 1 && |s| <= 1
    && (forall i :: 0 <= i < |b| ==> b[i].Brightness?)
    && (forall i :: 0 <= i < |c| ==> c[i].Contrast?)
    && (forall i :: 0 <= i < |s| ==> s[i].Saturation?)
    && parts == b + c + s
  }

  /** The shape of the Eq stage's terms: at most one of each kind, in the
      order brightness, contrast, saturation. */
  lemma PartsInOrder(b: seq<EqPart>, c: seq<EqPart>, s: seq<EqPart>, parts: seq<EqPart>)
    requires PartsFrom(b, c, s, parts)
    ensures RankOrdered(parts)
    ensures (exists i :: 0 <= i < |parts| && parts[i].Brightness?) <==> |b| == 1
    ensures (exists i :: 0 <= i < |parts| && parts[i].Contrast?) <==> |c| == 1
    ensures (exists i :: 0 <= i < |parts| && parts[i].Saturation?) <==> |s| == 1
    ensures forall i :: 0 <= i < |parts| && parts[i].Brightness? ==> parts[i] == b[0]
    ensures forall i :: 0 <= i < |parts| && parts[i].Contrast? ==> parts[i] == c[0]
    ensures forall i :: 0 <= i < |parts| && parts[i].Saturation? ==> parts[i] == s[0]
  {
    PartsOrdered(b, c, s, parts);
    PartsKinds(b, c, s, parts);
    PartsValues(b, c, s, parts);
  }

  lemma PartsPositions(b: seq<EqPart>, c: seq<EqPart>, s: seq<EqPart>, parts: seq<EqPart>)
    requires PartsFrom(b, c, s, parts)
    ensures forall i :: 0 <= i < |b| ==> parts[i] == b[i]
    ensures forall i :: |b| <= i < |b| + |c| ==> parts[i] == c[i - |b|]
    ensures forall i :: |b| + |c| <= i < |parts| ==> parts[i] == s[i - |b| - |c|]
  {
  }

  lemma PartsOrdered(b: seq<EqPart>, c: seq<EqPart>, s: seq<EqPart>, parts: seq<EqPart>)
    requires PartsFrom(b, c, s, parts)
    ensures RankOrdered(parts)
  {
    PartsPositions(b, c, s, parts);
  }

  lemma PartsKinds(b: seq<EqPart>, c: seq<EqPart>, s: seq<EqPart>, parts: seq<EqPart>)
    requires PartsFrom(b, c, s, parts)
    ensures (exists i :: 0 <= i < |parts| && parts[i].Brightness?) <==> |b| == 1
    ensures (exists i :: 0 <= i < |parts| && parts[i].Contrast?) <==> |c| == 1
    ensures (exists i :: 0 <= i < |parts| && parts[i].Saturation?) <==> |s| == 1
  {
    PartsPositions(b, c, s, parts);
    if |b| == 1 { assert parts[0] == b[0]; }
    if |c| == 1 { assert parts[|b|] == c[0]; }
    if |s| == 1 { assert parts[|b| + |c|] == s[0]; }
  }

  lemma PartsValues(b: seq<EqPart>, c: seq<EqPart>, s: seq<EqPart>, parts: seq<EqPart>)
    requires PartsFrom(b, c, s, parts)
    ensures forall i :: 0 <= i < |parts| && parts[i].Brightness? ==> parts[i] == b[0]
    ensures forall i :: 0 <= i < |parts| && parts[i].Contrast? ==> parts[i] == c[0]
    ensures forall i :: 0 <= i < |parts| && parts[i].Saturation? ==> parts[i] == s[0]
  {
    PartsPositions(b, c, s, parts);
  }

  function ColourStages(look: Look): (ss: seq<Stage>)
    ensures |ss| > 0 <==> look.AnyColour()
    ensures |ss| <= 1 && forall i :: 0 <= i < |ss| ==> ss[i] == Eq(EqParts(look))
  {
    var parts := EqParts(look);
    if |parts| > 0 then [Eq(parts)] else []
  }

  function RotationStages(look: Look): (ss: seq<Stage>)
    ensures |ss| > 0 <==> look.RotationKnown()
    ensures forall i :: 0 <= i < |ss| ==> ss[i].Rotate?
    ensures forall i :: 0 <= i < |ss| ==>
              && (look.angle == "90" ==> ss[i].turns == [Clockwise])
              && (look.angle == "180" ==> ss[i].turns == [Clockwise, Clockwise])
              && (look.angle == "270" ==> ss[i].turns == [CounterClockwise])
  {
    if !look.rotateOn then []
    else if look.angle == "90" then [Rotate([Clockwise])]
    else if look.angle == "180" then [Rotate([Clockwise, Clockwise])]
    else if look.angle == "270" then [Rotate([CounterClockwise])]
    else []
  }

  function LayoutStage(look: Look, r: Ratio, matches: bool): Stage
  {
    if !matches then
      if look.blurOn then BlurOverlay(r, look.sigma, TkGraph) else ScalePad(r)
    else Scale(r)
  }

  /** Eq terms appear in the order brightness, contrast, saturation. */
  predicate RankOrdered(parts: seq<EqPart>)
  {
    forall i, j :: 0 <= i < j < |parts| ==> parts[i].Rank() < parts[j].Rank()
  }

  /** The Eq terms are exactly the enabled toggles, with their values. */
  predicate CarriesEnabled(parts: seq<EqPart>, look: Look)
  {
    && ((exists i :: 0 <= i < |parts| && parts[i].Brightness?) <==> look.brightnessOn)
    && ((exists i :: 0 <= i < |parts| && parts[i].Contrast?) <==> look.contrastOn)
    && ((exists i :: 0 <= i < |parts| && parts[i].Saturation?) <==> look.saturationOn)
    && (forall i :: 0 <= i < |parts| && parts[i].Brightness? ==> parts[i].v == look.brightness)
    && (forall i :: 0 <= i < |parts| && parts[i].Contrast? ==> parts[i].v == look.contrast)
    && (forall i :: 0 <= i < |parts| && parts[i].Saturation? ==> parts[i].v == look.saturation)
  }

  /** The planner's stage list once the aspect test has been decided:
      colour, rotation, the layout, then the pixel format. */
  function PlanWith(look: Look, r: Ratio, matches: bool): (stages: seq<Stage>)
    // the pixel-format stage closes the chain
    ensures |stages| >= 2 && stages[|stages| - 1] == PixelFormat
    // exactly one layout stage, just before it, for the requested canvas
    ensures stages[|stages| - 2].IsLayout() && stages[|stages| - 2].ratio == r
    ensures forall i :: 0 <= i < |stages| && i != |stages| - 2 ==> !stages[i].IsLayout()
    // the aspect verdict chooses the layout
    ensures stages[|stages| - 2].Scale? <==> matches
    ensures stages[|stages| - 2].ScalePad? <==> !matches && !look.blurOn
    ensures stages[|stages| - 2].BlurOverlay? <==> !matches && look.blurOn
    ensures stages[|stages| - 2].BlurOverlay? ==>
              stages[|stages| - 2].sigma == look.sigma && stages[|stages| - 2].graph == TkGraph
    // a colour stage exists iff a toggle is on; it comes first
    ensures (exists i :: 0 <= i < |stages| && stages[i].Eq?) <==> look.AnyColour()
    ensures look.AnyColour() ==>
              && stages[0].Eq?
              && RankOrdered(stages[0].parts)
              && CarriesEnabled(stages[0].parts, look)
    // a rotation stage exists iff the angle is one of 90, 180, 270
    ensures (exists i :: 0 <= i < |stages| && stages[i].Rotate?) <==> look.RotationKnown()
    ensures forall i :: 0 <= i < |stages| && stages[i].Rotate? ==>
              && (look.angle == "90" ==> stages[i].turns == [Clockwise])
              && (look.angle == "180" ==> stages[i].turns == [Clockwise, Clockwise])
              && (look.angle == "270" ==> stages[i].turns == [CounterClockwise])
  {
    var layout := LayoutStage(look, r, matches);
    var colour := ColourStages(look);
    var rotation := RotationStages(look);
    var stages := colour + rotation + [layout, PixelFormat];
    StagesOfParts(colour, rotation, layout, stages);
    stages
  }

  /** Where the pieces of a plan end up once concatenated: the colour
      stages first, the rotation stages after them, the layout and the
      pixel format last. */
  lemma StagesOfParts(colour: seq<Stage>, rotation: seq<Stage>, layout: Stage, ss: seq<Stage>)
    requires forall i :: 0 <= i < |colour| ==> colour[i].Eq?
    requires forall i :: 0 <= i < |rotation| ==> rotation[i].Rotate?
    requires layout.IsLayout()
    requires ss == colour + rotation + [layout, PixelFormat]
    ensures |ss| >= 2 && ss[|ss| - 1] == PixelFormat && ss[|ss| - 2] == layout
    ensures forall i :: 0 <= i < |ss| && i != |ss| - 2 ==> !ss[i].IsLayout()
    ensures (exists i :: 0 <= i < |ss| && ss[i].Eq?) <==> |colour| > 0
    ensures (exists i :: 0 <= i < |ss| && ss[i].Rotate?) <==> |rotation| > 0
    ensures forall i :: 0 <= i < |ss| && ss[i].Rotate? ==> ss[i] in rotation
    ensures |colour| > 0 ==> ss[0] == colour[0]
  {
    assert forall i :: 0 <= i < |colour| ==> ss[i] == colour[i];
    assert forall i :: |colour| <= i < |ss| - 2 ==> ss[i] == rotation[i - |colour|];
    if |colour| > 0 {
      assert ss[0] == colour[0];
    }
    if |rotation| > 0 {
      assert ss[|colour|] == rotation[0];
    }
  }

  /** The planner's stage list for one job: the aspect test on the
      effective (rotated) size decides between scaling and fitting. */
  function Plan(look: Look, r: Ratio, w: nat, h: nat): (stages: seq<Stage>)
    requires EffectiveHeight(look, w, h) > 0
    ensures |stages| >= 2 && stages[|stages| - 1] == PixelFormat
    ensures var m := AspectMatches(EffectiveWidth(look, w, h), EffectiveHeight(look, w, h), r);
            && (stages[|stages| - 2].Scale? <==> m)
            && (stages[|stages| - 2].ScalePad? <==> !m && !look.blurOn)
            && (stages[|stages| - 2].BlurOverlay? <==> !m && look.blurOn)
  {
    PlanWith(look, r, AspectMatches(EffectiveWidth(look, w, h), EffectiveHeight(look, w, h), r))
  }

  lemma DivTimes(a: real, b: real, e: real)
    requires b > 0.0
    ensures (a / b) * (b * e) == a * e
  {
    var q := a / b;
    assert q * b == a;
    assert q * (b * e) == (q * b) * e;
  }

  lemma AbsTimes(d: real, k: real)
    requires k > 0.0
    ensures RealAbs(d) * k == RealAbs(d * k)
  {
    if d < 0.0 {
      assert d * k < 0.0;
    } else {
      assert d * k >= 0.0;
    }
  }

  lemma ScaleLe(x: real, k: real, p: real)
    requires k > 0.0 && x >= 0.0 && p == x * k
    ensures x <= 0.01 <==> 100.0 * p <= k
  {
    if x <= 0.01 {
      assert x * k <= 0.01 * k;
    } else {
      assert x * k > 0.01 * k;
    }
  }

  /** For positive b and e: |a/b - c/e| <= 1/100 iff 100*|a*e - c*b| <= b*e. */
  lemma CrossMultiply(a: real, b: real, c: real, e: real)
    requires b > 0.0 && e > 0.0
    ensures RealAbs(a / b - c / e) <= 0.01 <==> 100.0 * RealAbs(a * e - c * b) <= b * e
  {
    var k := b * e;
    assert k > 0.0;
    DivTimes(a, b, e);
    DivTimes(c, e, b);
    assert e * b == k;
    var d := a / b - c / e;
    assert d * k == (a / b) * k - (c / e) * k;
    assert d * k == a * e - c * b;
    AbsTimes(d, k);
    var x := RealAbs(a * e - c * b);
    assert RealAbs(d) * k == x;
    ScaleLe(RealAbs(d), k, x);
  }

  /** The aspect test on rationals is the integer test
      `100 * |w*th - tw*h| <= h*th`. */
  lemma AspectMatchesCross(w: nat, h: nat, r: Ratio)
    requires h > 0
    ensures AspectMatches(w, h, r) <==>
              100 * IntAbs(w * r.Height() - r.Width() * h) <= h * r.Height()
  {
    var th := r.Height();
    var tw := r.Width();
    CrossMultiply(w as real, h as real, tw as real, th as real);
    var n := w * th - tw * h;
    assert (n as real) == (w as real) * (th as real) - (tw as real) * (h as real);
    assert (IntAbs(n) as real) == RealAbs(n as real);
    assert ((h * th) as real) == (h as real) * (th as real);
  }

  function IntAbs(x: int): nat { if x < 0 then -x else x }

  /** A 1080x1920 source targeting 9:16 is only scaled, never padded. */
  lemma MatchingSourceIsOnlyScaled(look: Look)
    requires !look.rotateOn
    ensures var s := Plan(look, Vertical, 1080, 1920);
            s[|s| - 2] == Scale(Vertical)
  {
    AspectMatchesCross(1080, 1920, Vertical);
    assert IntAbs(1080 * 1920 - 1080 * 1920) == 0;
    assert AspectMatches(1080, 1920, Vertical);
    assert EffectiveWidth(look, 1080, 1920) == 1080 && EffectiveHeight(look, 1080, 1920) == 1920;
  }

  /** A landscape 1920x1080 source rotated by 90 degrees has the 9:16
      aspect, so it is only scaled. */
  lemma RotatedLandscapeIsOnlyScaled(look: Look)
    requires look.rotateOn && look.angle == "90"
    ensures var s := Plan(look, Vertical, 1920, 1080);
            s[|s| - 2] == Scale(Vertical)
  {
    AspectMatchesCross(1080, 1920, Vertical);
    assert IntAbs(1080 * 1920 - 1080 * 1920) == 0;
    assert AspectMatches(1080, 1920, Vertical);
    assert EffectiveWidth(look, 1920, 1080) == 1080 && EffectiveHeight(look, 1920, 1080) == 1920;
  }

  /** Unrotated landscape 1920x1080 into 9:16 needs a fitted layout. */
  lemma LandscapeIntoVerticalIsFitted(look: Look)
    requires !look.rotateOn
    ensures var s := Plan(look, Vertical, 1920, 1080);
            s[|s| - 2] == (if look.blurOn then BlurOverlay(Vertical, look.sigma, TkGraph) else ScalePad(Vertical))
  {
    AspectMatchesCross(1920, 1080, Vertical);
    assert IntAbs(1920 * 1920 - 1080 * 1080) == 2520000;
    assert !AspectMatches(1920, 1080, Vertical);
    assert EffectiveWidth(look, 1920, 1080) == 1920 && EffectiveHeight(look, 1920, 1080) == 1080;
  }

  /** As text, every plan ends with `format=yuv420p`. */
  lemma PlanTextEndsWithFormat(look: Look, r: Ratio, w: nat, h: nat)
    requires EffectiveHeight(look, w, h) > 0
    ensures EndsWith(RenderChain(Plan(look, r, w, h)), "format=yuv420p")
  {
    RenderChainEndsWithFormat(Plan(look, r, w, h));
  }
}
