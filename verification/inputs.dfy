/** Option normalisation in both front ends: the Qt `NumberInput` entry
    (ui.py lines 278-309) and the Tk wheel handlers and concurrency entry
    (main1.py lines 240-253 and 289-317). */
module Inputs {
  import opened Common

  /** `min_v <= value <= max_v` for an integer text. */
  predicate IntIn(text: string, lo: int, hi: int)
  {
    ParseInt(text).Some? && lo <= ParseInt(text).value <= hi
  }

  // ---------------------------------------------------------------------
  // Qt NumberInput
  // ---------------------------------------------------------------------

  /** `NumberInput._validate`: the entry text after an edit.  Empty text is
      left alone, an integer is pulled into range, anything else becomes
      the lower bound. */
  function Validate(text: string, lo: int, hi: int): (r: string)
    ensures r == "" <==> text == ""
    ensures IntIn(text, lo, hi) ==> r == text
    ensures ParseInt(text).None? && text != "" ==> r == IntToString(lo)
    ensures ParseInt(text).Some? && ParseInt(text).value < lo ==> r == IntToString(lo)
    ensures ParseInt(text).Some? && ParseInt(text).value > hi && lo <= hi ==> r == IntToString(hi)
  {
    if text == "" then text
    else match ParseInt(text)
      case None => IntToString(lo)
      case Some(v) =>
        if v < lo then IntToString(lo)
        else if v > hi then IntToString(hi)
        else text
  }

  /** After validation the entry is empty or holds an integer in range. */
  lemma ValidateInRange(text: string, lo: int, hi: int)
    requires lo <= hi
    ensures var r := Validate(text, lo, hi);
            r == "" || IntIn(r, lo, hi)
  {
    ParseIntOfIntToString(lo);
    ParseIntOfIntToString(hi);
  }

  /** Validating a validated text changes nothing, so the re-entrant
      `setText` inside `_validate` settles after one round. */
  lemma ValidateIdempotent(text: string, lo: int, hi: int)
    requires lo <= hi
    ensures Validate(Validate(text, lo, hi), lo, hi) == Validate(text, lo, hi)
  {
    ValidateInRange(text, lo, hi);
  }

  /** `NumberInput.wheelEvent`: one notch up or down, clamped; a disabled
      entry or unparsable text is left as it is. */
  function NumberWheel(text: string, enabled: bool, up: bool, lo: int, hi: int): (r: string)
    ensures !enabled || ParseInt(text).None? ==> r == text
    ensures enabled && ParseInt(text).Some? ==>
              ParseInt(r) == Some(Clamp(ParseInt(text).value + (if up then 1 else -1), lo, hi))
    ensures enabled && ParseInt(text).Some? && lo <= hi ==> IntIn(r, lo, hi)
  {
    if !enabled then text
    else match ParseInt(text)
      case None => text
      case Some(v) =>
        ParseIntOfIntToString(Clamp(if up then v + 1 else v - 1, lo, hi));
        IntToString(Clamp(if up then v + 1 else v - 1, lo, hi))
  }

  /** The wheel never leaves text the validator would change. */
  lemma WheelTextIsValid(text: string, up: bool, lo: int, hi: int)
    requires lo <= hi && ParseInt(text).Some?
    ensures var r := NumberWheel(text, true, up, lo, hi);
            Validate(r, lo, hi) == r
  {
  }

  /** Away from the bounds a notch up and a notch down cancel. */
  lemma {:induction false} WheelUpThenDown(v: int, lo: int, hi: int)
    requires lo <= v < hi
    ensures NumberWheel(NumberWheel(IntToString(v), true, true, lo, hi), true, false, lo, hi)
            == IntToString(v)
  {
    ParseIntOfIntToString(v);
    ParseIntOfIntToString(v + 1);
  }

  // ---------------------------------------------------------------------
  // Tk numeric wheel (`_bind_scroll_event`)
  // ---------------------------------------------------------------------

  /** The value an empty or unreadable entry is taken to hold. */
  function WheelDefault(lo: real): real { if lo > 0.0 then lo else 0.0 }

  /** The number the Tk wheel writes: the entry's value (or the default)
      moved by one step and kept within [lo, hi]. */
  function WheelNumber(text: string, lo: real, hi: real, step: real, up: bool): (v: real)
    ensures lo <= hi ==> lo <= v <= hi
  {
    var current := match ParseDecimal(text) case Some(c) => c case None => WheelDefault(lo);
    var moved := if up then current + step else current - step;
    var m := if hi < moved then hi else moved;
    if m < lo then lo else m
  }

  /** The text the Tk wheel writes: one decimal for fractional steps,
      otherwise the truncated integer. */
  function WheelText(text: string, lo: real, hi: real, step: real, up: bool): string
  {
    var v := WheelNumber(text, lo, hi, step, up);
    if step < 1.0 then Fixed(v, 1) else IntToString(Trunc(v))
  }

  /** On an integer scale the written text is an integer within bounds. */
  lemma WheelTextIntegerInRange(text: string, lo: int, hi: int, up: bool)
    requires lo <= hi
    ensures var r := WheelText(text, lo as real, hi as real, 1.0, up);
            IntIn(r, lo, hi)
  {
    var v := WheelNumber(text, lo as real, hi as real, 1.0, up);
    ParseIntOfIntToString(Trunc(v));
    assert lo <= Trunc(v) <= hi by {
      if v >= 0.0 {
        assert v.Floor <= hi;
        assert (lo as real) <= v ==> lo <= v.Floor;
      } else {
        assert -((-v).Floor) >= lo;
      }
    }
  }

  /** On an integer scale a notch up and a notch down cancel away from the
      bounds. */
  lemma {:induction false} WheelTextUpThenDown(v: int, lo: int, hi: int)
    requires lo <= v < hi
    ensures WheelText(WheelText(IntToString(v), lo as real, hi as real, 1.0, true),
                      lo as real, hi as real, 1.0, false)
            == IntToString(v)
  {
    var lr, hr := lo as real, hi as real;
    ParseDecimalOfIntToString(v);
    assert WheelNumber(IntToString(v), lr, hr, 1.0, true) == (v + 1) as real;
    assert Trunc((v + 1) as real) == v + 1;
    var t1 := WheelText(IntToString(v), lr, hr, 1.0, true);
    assert t1 == IntToString(v + 1);
    ParseDecimalOfIntToString(v + 1);
    assert WheelNumber(t1, lr, hr, 1.0, false) == v as real;
    assert Trunc(v as real) == v;
  }

  // ---------------------------------------------------------------------
  // Tk rotation wheel (`_bind_rotate_scroll`)
  // ---------------------------------------------------------------------

  const Angles: seq<string> := ["90", "180", "270", "360"]

  /** `angles.index(text)`, or 0 when the text is not one of them. */
  function AngleIndex(text: string): (i: nat)
    ensures i < 4
    ensures text in Angles ==> Angles[i] == text
    ensures text !in Angles ==> i == 0
  {
    if text == "90" then 0
    else if text == "180" then 1
    else if text == "270" then 2
    else if text == "360" then 3
    else 0
  }

  /** One notch of the rotation wheel: the next or previous angle, cyclically. */
  function RotateWheel(text: string, up: bool): (r: string)
    ensures r in Angles
  {
    Angles[(AngleIndex(text) + (if up then 1 else -1)) % 4]
  }

  /** For a listed angle a notch up and a notch down cancel. */
  lemma RotateUpThenDown(text: string)
    requires text in Angles
    ensures RotateWheel(RotateWheel(text, true), false) == text
  {
  }

  /** Four notches in one direction come back to the start. */
  lemma RotateFullTurn(text: string, up: bool)
    requires text in Angles
    ensures RotateWheel(RotateWheel(RotateWheel(RotateWheel(text, up), up), up), up) == text
  {
    var t1 := RotateWheel(text, up);
    var t2 := RotateWheel(t1, up);
    var t3 := RotateWheel(t2, up);
    RotateStep(text, up);
    RotateStep(t1, up);
    RotateStep(t2, up);
    RotateStep(t3, up);
  }

  /** The position one notch away, without modular arithmetic. */
  function NextIndex(i: nat, up: bool): (j: nat)
    requires i < 4
    ensures j < 4
  {
    if up then (if i == 3 then 0 else i + 1) else (if i == 0 then 3 else i - 1)
  }

  /** A notch moves the angle's position by one, cyclically. */
  lemma RotateStep(text: string, up: bool)
    ensures AngleIndex(RotateWheel(text, up)) == NextIndex(AngleIndex(text), up)
  {
    var i: int := AngleIndex(text);
    var j := (i + (if up then 1 else -1)) % 4;
    assert j == NextIndex(i, up);
    AngleIndexOf(j);
  }

  /** Each listed angle is found at its own position. */
  lemma AngleIndexOf(j: nat)
    requires j < 4
    ensures AngleIndex(Angles[j]) == j
  {
  }

  /** An unlisted text counts as "90": up gives "180", down gives "360". */
  lemma RotateFromUnknown(text: string)
    requires text !in Angles
    ensures RotateWheel(text, true) == "180" && RotateWheel(text, false) == "360"
  {
  }

  // ---------------------------------------------------------------------
  // Tk concurrency entry
  // ---------------------------------------------------------------------

  /** `validate_concurrent`: which texts a keystroke may leave in the entry. */
  predicate ConcurrentAccepts(v: string)
  {
    v == "" || IntIn(v, 1, 8)
  }

  /** `scroll_concurrent`: the new text of the concurrency variable. */
  function ConcurrentWheel(varText: string, up: bool): (r: string)
    ensures ConcurrentAccepts(r)
    ensures var v := if ParseInt(varText).Some? then ParseInt(varText).value else 2;
            ParseInt(r) == Some(Clamp(if up then v + 1 else v - 1, 1, 8))
  {
    var v := if varText == "" then 2
             else match ParseInt(varText) case Some(n) => n case None => 2;
    var n := Clamp(if up then v + 1 else v - 1, 1, 8);
    ParseIntOfIntToString(n);
    IntToString(n)
  }

  /** `_run_all`: the number of parallel jobs, clamped to 1..8 with 2 when
      the variable does not hold an integer. */
  function WorkerCount(varText: string): (n: int)
    ensures 1 <= n <= 8
    ensures IntIn(varText, 1, 8) ==> n == ParseInt(varText).value
    ensures ParseInt(varText).None? ==> n == 2
    ensures ParseInt(varText).Some? && ParseInt(varText).value < 1 ==> n == 1
    ensures ParseInt(varText).Some? && ParseInt(varText).value > 8 ==> n == 8
  {
    match ParseInt(varText)
    case Some(v) => Clamp(v, 1, 8)
    case None => 2
  }

  /** Whatever the wheel writes is taken literally as the job count. */
  lemma WheelSetsWorkerCount(varText: string, up: bool)
    ensures var r := ConcurrentWheel(varText, up);
            r != "" && WorkerCount(r) == ParseInt(r).value
  {
  }
}
