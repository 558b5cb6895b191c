/** Progress read from the transcoding engine's diagnostic lines: the
    `time=(\d+):(\d+):(\d+\.\d+)` marker (main1.py:419-427, core.py:92-100)
    and the running percentage `min(int(elapsed / duration * 100), 99)`. */
module Progress {
  import opened Common

  /** Every character of s[j..k] is a decimal digit. */
  predicate DigitRun(s: string, j: nat, k: nat)
  {
    k <= |s| && forall x :: j <= x < k ==> IsDigit(s[x])
  }

  /** End (exclusive) of the run of digits that starts at i. */
  function DigitRunEnd(s: string, i: nat): (k: nat)
    requires i <= |s|
    ensures i <= k <= |s|
    ensures DigitRun(s, i, k)
    ensures k < |s| ==> !IsDigit(s[k])
    decreases |s| - i
  {
    if i < |s| && IsDigit(s[i]) then DigitRunEnd(s, i + 1) else i
  }

  /** The three captured groups, read as numbers the way float() reads them. */
  datatype Clock = Clock(hours: nat, minutes: nat, seconds: real)
  {
    function Elapsed(): real
    {
      (hours * 3600 + minutes * 60) as real + seconds
    }
  }

  /** The literal `time=` starts at i. */
  predicate TimeTagAt(s: string, i: nat)
  {
    && i + 5 <= |s|
    && s[i] == 't' && s[i + 1] == 'i' && s[i + 2] == 'm' && s[i + 3] == 'e' && s[i + 4] == '='
  }

  /** Value of the digits s[j..k], read in place. */
  function DigitsIn(s: string, j: nat, k: nat): nat
    requires j <= k <= |s|
    requires DigitRun(s, j, k)
    decreases k - j
  {
    if k == j then 0 else DigitsIn(s, j, k - 1) * 10 + DigitValue(s[k - 1])
  }

  /** `\d+` at j followed by the character `stop`: the end of the digits. */
  function Group(s: string, j: nat, stop: char): (r: Option<nat>)
    requires j <= |s|
    ensures r.Some? ==> j < r.value < |s| && s[r.value] == stop
    ensures r.Some? ==> DigitRun(s, j, r.value)
  {
    var k := DigitRunEnd(s, j);
    if j < k < |s| && s[k] == stop then Some(k) else None
  }

  /** The final greedy `\d+` at j: the end of a non-empty run of digits. */
  function LastGroup(s: string, j: nat): (r: Option<nat>)
    requires j <= |s|
    ensures r.Some? ==> j < r.value <= |s|
    ensures r.Some? ==> DigitRun(s, j, r.value)
  {
    var k := DigitRunEnd(s, j);
    if j < k then Some(k) else None
  }

  /** Where the four digit runs of a marker at i end: hours before k1,
      minutes before k2, whole seconds before k3, fraction before k4. */
  datatype Ends = Ends(k1: nat, k2: nat, k3: nat, k4: nat)

  /** The layout of a marker: `time=` at i, then the digit runs separated
      by `:`, `:` and `.`. */
  predicate MarkerLayout(s: string, i: nat, e: Ends)
  {
    && i + 5 < e.k1 && e.k1 + 1 < e.k2 && e.k2 + 1 < e.k3 && e.k3 + 1 < e.k4 <= |s|
    && TimeTagAt(s, i)
    && s[e.k1] == ':' && s[e.k2] == ':' && s[e.k3] == '.'
    && DigitRun(s, i + 5, e.k1)
    && DigitRun(s, e.k1 + 1, e.k2)
    && DigitRun(s, e.k2 + 1, e.k3)
    && DigitRun(s, e.k3 + 1, e.k4)
  }

  /** The greedy match of the pattern at i.  Every `\d+` is followed by a
      non-digit or the end of the pattern, so each group is a maximal run of
      digits. */
  function MarkerEnds(s: string, i: nat): (r: Option<Ends>)
    requires i <= |s|
    ensures r.Some? ==> MarkerLayout(s, i, r.value)
  {
    if !TimeTagAt(s, i) then None
    else
      match Group(s, i + 5, ':')
      case None => None
      case Some(k1) =>
        match Group(s, k1 + 1, ':')
        case None => None
        case Some(k2) =>
          match Group(s, k2 + 1, '.')
          case None => None
          case Some(k3) =>
            match LastGroup(s, k3 + 1)
            case None => None
            case Some(k4) => Some(Ends(k1, k2, k3, k4))
  }

  /** The captured groups read as numbers. */
  function ClockOf(s: string, i: nat, e: Ends): (c: Clock)
    requires MarkerLayout(s, i, e)
    ensures c.seconds >= 0.0
  {
    Clock(DigitsIn(s, i + 5, e.k1), DigitsIn(s, e.k1 + 1, e.k2),
          Fraction(DigitsIn(s, e.k2 + 1, e.k3), DigitsIn(s, e.k3 + 1, e.k4), e.k4 - e.k3 - 1))
  }

  /** The marker matched at position i, if any. */
  function MatchAt(s: string, i: nat): (r: Option<Clock>)
    requires i <= |s|
    ensures r.Some? <==> MarkerEnds(s, i).Some?
    ensures r.Some? ==> r.value.seconds >= 0.0
  {
    match MarkerEnds(s, i)
    case None => None
    case Some(e) => Some(ClockOf(s, i, e))
  }

  /** Which positions of s start a marker. */
  function Hits(s: string): (h: seq<bool>)
    ensures |h| == |s| + 1
    ensures forall k :: 0 <= k <= |s| ==> h[k] == MatchAt(s, k).Some?
  {
    seq(|s| + 1, k requires 0 <= k <= |s| => MatchAt(s, k).Some?)
  }

  /** Position of the leftmost set flag at or after i, or |h| when there
      is none. */
  function FirstTrue(h: seq<bool>, i: nat): (j: nat)
    requires i <= |h|
    ensures i <= j <= |h|
    ensures j < |h| ==> h[j]
    decreases |h| - i
  {
    if i == |h| then |h|
    else if h[i] then i
    else FirstTrue(h, i + 1)
  }

  /** No flag before the one found is set. */
  lemma {:induction false} FirstTrueIsFirst(h: seq<bool>, i: nat, k: nat)
    requires i <= k <= |h| && k < FirstTrue(h, i)
    ensures !h[k]
    decreases |h| - i
  {
    if k > i {
      FirstTrueIsFirst(h, i + 1, k);
    }
  }

  /** Position of the leftmost marker at or after i, or |s| + 1 when there
      is none. */
  function FirstMatch(s: string, i: nat): (j: nat)
    requires i <= |s|
    ensures i <= j <= |s| + 1
    ensures j <= |s| ==> MatchAt(s, j).Some?
  {
    FirstTrue(Hits(s), i)
  }

  /** No marker starts before the one found. */
  lemma FirstMatchIsFirst(s: string, i: nat, k: nat)
    requires i <= k <= |s| && k < FirstMatch(s, i)
    ensures MatchAt(s, k).None?
  {
    FirstTrueIsFirst(Hits(s), i, k);
  }

  /** re.search from position i: the clock of the leftmost match. */
  function SearchFrom(s: string, i: nat): (r: Option<Clock>)
    requires i <= |s|
    ensures r.None? <==> forall k :: i <= k <= |s| ==> MatchAt(s, k).None?
    ensures r.Some? ==> FirstMatch(s, i) <= |s| && r == MatchAt(s, FirstMatch(s, i)) && r.value.seconds >= 0.0
  {
    var j := FirstMatch(s, i);
    assert forall k :: i <= k < j && k <= |s| ==> MatchAt(s, k).None? by {
      forall k | i <= k <= |s| && k < j { FirstMatchIsFirst(s, i, k); }
    }
    if j <= |s| then MatchAt(s, j) else None
  }

  function FindClock(line: string): (r: Option<Clock>)
    ensures r.Some? ==> r.value.seconds >= 0.0 && r.value.Elapsed() >= 0.0
  {
    SearchFrom(line, 0)
  }

  /** `min(int(elapsed / duration * 100), 99)` for a positive duration. */
  function Percent(elapsed: real, duration: real): (p: nat)
    requires elapsed >= 0.0 && duration > 0.0
    ensures p <= 99
    ensures (p as real) * duration <= 100.0 * elapsed
    ensures p < 99 ==> 100.0 * elapsed < ((p + 1) as real) * duration
  {
    var x := elapsed / duration * 100.0;
    ScaledBack(elapsed, duration);
    var q := x.Floor;
    assert q as real <= x < (q + 1) as real;
    var p: nat := if q > 99 then 99 else q;
    ScaledBounds(elapsed, duration, x, p as real, (p + 1) as real);
    p
  }

  /** Dividing by a positive duration and scaling by 100 undoes itself. */
  lemma ScaledBack(e: real, d: real)
    requires e >= 0.0 && d > 0.0
    ensures e / d * 100.0 >= 0.0
    ensures (e / d * 100.0) * d == 100.0 * e
  {
    assert (e / d) * d == e;
  }

  /** Bounds on a scaled quotient carry over to the product it undoes. */
  lemma ScaledBounds(e: real, d: real, x: real, lo: real, hi: real)
    requires d > 0.0 && x * d == 100.0 * e
    ensures lo <= x ==> lo * d <= 100.0 * e
    ensures x < hi ==> 100.0 * e < hi * d
  {
    MulLe(lo, x, d);
    MulLt(x, hi, d);
  }

  lemma MulLe(a: real, b: real, d: real)
    requires d > 0.0
    ensures a <= b ==> a * d <= b * d
  {
  }

  lemma MulLt(a: real, b: real, d: real)
    requires d > 0.0
    ensures a < b ==> a * d < b * d
  {
  }

  /** The percentage a located clock gives for a probed duration; none
      unless the duration is positive. */
  function ClockProgress(c: Clock, duration: real): (r: Option<nat>)
    requires c.seconds >= 0.0
    ensures r.Some? <==> duration > 0.0
    ensures r.Some? ==>
      && r.value <= 99
      && (r.value as real) * duration <= 100.0 * c.Elapsed()
      && (r.value < 99 ==> 100.0 * c.Elapsed() < ((r.value + 1) as real) * duration)
  {
    if duration > 0.0 then Some(Percent(c.Elapsed(), duration)) else None
  }

  /** The progress a line yields, if any: a marker must be present and the
      probed duration positive. */
  function LineProgress(line: string, duration: real): (r: Option<nat>)
    ensures r.Some? <==> FindClock(line).Some? && duration > 0.0
    ensures FindClock(line).Some? ==> r == ClockProgress(FindClock(line).value, duration)
  {
    match FindClock(line)
    case None => None
    case Some(c) => ClockProgress(c, duration)
  }

  /** The progress one line contributes: its value, or nothing. */
  function LineValues(line: string, duration: real): (ps: seq<nat>)
    ensures |ps| <= 1
    ensures ps == [] <==> LineProgress(line, duration).None?
    ensures ps != [] ==> ps[0] == LineProgress(line, duration).value && ps[0] <= 99
  {
    match LineProgress(line, duration) case Some(p) => [p] case None => []
  }

  /** The progress values produced while reading a stream of lines. */
  function ProgressValues(lines: seq<string>, duration: real): (ps: seq<nat>)
    ensures |ps| <= |lines|
    ensures forall i :: 0 <= i < |ps| ==> ps[i] <= 99
    ensures duration <= 0.0 ==> ps == []
  {
    if |lines| == 0 then []
    else
      var head, rest := LineValues(lines[0], duration), ProgressValues(lines[1..], duration);
      BoundedConcat(head, rest, 99);
      head + rest
  }

  /** Two lists bounded by m make a list bounded by m. */
  lemma BoundedConcat(a: seq<nat>, b: seq<nat>, m: nat)
    requires forall i :: 0 <= i < |a| ==> a[i] <= m
    requires forall i :: 0 <= i < |b| ==> b[i] <= m
    ensures forall i :: 0 <= i < |a + b| ==> (a + b)[i] <= m
  {
  }

  /** Reading one more line appends that line's progress, if it has any:
      the values come out in the order the lines arrive, one per line with
      a marker. */
  lemma {:induction false} ProgressValuesAppend(lines: seq<string>, line: string, duration: real)
    ensures ProgressValues(lines + [line], duration)
            == ProgressValues(lines, duration) + LineValues(line, duration)
    decreases |lines|
  {
    if |lines| == 0 {
      assert lines + [line] == [line];
      assert [line][1..] == [];
    } else {
      assert (lines + [line])[0] == lines[0];
      assert (lines + [line])[1..] == lines[1..] + [line];
      ProgressValuesAppend(lines[1..], line, duration);
    }
  }

  /** Later elapsed times never give a smaller percentage. */
  lemma PercentMonotone(e1: real, e2: real, duration: real)
    requires 0.0 <= e1 <= e2 && duration > 0.0
    ensures Percent(e1, duration) <= Percent(e2, duration)
  {
    var p1 := Percent(e1, duration);
    var p2 := Percent(e2, duration);
    if p2 < 99 {
      BetweenCancel(p1 as real, (p2 + 1) as real, duration, 100.0 * e1, 100.0 * e2);
    }
  }

  /** a * d <= x <= y < b * d with d positive forces a < b. */
  lemma BetweenCancel(a: real, b: real, d: real, x: real, y: real)
    requires d > 0.0 && a * d <= x && x <= y && y < b * d
    ensures a < b
  {
    assert (b - a) * d == b * d - a * d;
    PositiveFactor(b - a, d);
  }

  lemma PositiveFactor(u: real, d: real)
    requires d > 0.0 && u * d > 0.0
    ensures u > 0.0
  {
  }

  lemma DigitRunEndIs(s: string, i: nat, k: nat)
    requires i <= k <= |s|
    requires DigitRun(s, i, k)
    requires k == |s| || !IsDigit(s[k])
    ensures DigitRunEnd(s, i) == k
  {
  }

  /** A marker laid out at i is matched there, with the runs it was laid
      out with. */
  lemma MarkerEndsAt(line: string, i: nat, e: Ends)
    requires MarkerLayout(line, i, e)
    requires e.k4 == |line| || !IsDigit(line[e.k4])
    ensures MarkerEnds(line, i) == Some(e)
  {
    assert !IsDigit(':') && !IsDigit('.');
    GroupIs(line, i + 5, e.k1, ':');
    GroupIs(line, e.k1 + 1, e.k2, ':');
    GroupIs(line, e.k2 + 1, e.k3, '.');
    LastGroupIs(line, e.k3 + 1, e.k4);
    assert MarkerEnds(line, i) == Some(Ends(e.k1, e.k2, e.k3, e.k4));
  }

  lemma GroupIs(line: string, j: nat, k: nat, stop: char)
    requires j < k < |line| && line[k] == stop && !IsDigit(stop)
    requires DigitRun(line, j, k)
    ensures Group(line, j, stop) == Some(k)
  {
    DigitRunEndIs(line, j, k);
  }

  lemma LastGroupIs(line: string, j: nat, k: nat)
    requires j < k <= |line| && (k == |line| || !IsDigit(line[k]))
    requires DigitRun(line, j, k)
    ensures LastGroup(line, j) == Some(k)
  {
    DigitRunEndIs(line, j, k);
  }

  /** The j-th element of a slice is the element j places after its start. */
  lemma SliceAt(line: string, a: nat, k: nat, j: nat)
    requires a + j < k <= |line|
    ensures line[a..k][j] == line[a + j]
  {
  }

  /** Digits copied into a line at a..k are read back in place. */
  lemma {:induction false} DigitsInOf(line: string, a: nat, k: nat, h: string)
    requires k == a + |h| <= |line| && AllDigits(h)
    requires line[a..k] == h
    ensures DigitRun(line, a, k)
    ensures DigitsIn(line, a, k) == DigitsValue(h)
    decreases |h|
  {
    forall x | a <= x < k
      ensures IsDigit(line[x])
    {
      SliceAt(line, a, k, x - a);
      assert IsDigit(h[x - a]);
    }
    if |h| > 0 {
      var p := h[..|h| - 1];
      assert line[a..k - 1] == line[a..k][..|p|];
      DigitsInOf(line, a, k - 1, p);
      assert line[k - 1] == h[|h| - 1];
    }
  }

  /** A line holding `time=H:M:S.F` at i, followed by a non-digit or the
      end of the line, is matched at i with those numbers. */
  lemma MarkerReadAt(line: string, i: nat, e: Ends, h: string, m: string, s: string, f: string)
    requires |h| > 0 && |m| > 0 && |s| > 0 && |f| > 0
    requires AllDigits(h) && AllDigits(m) && AllDigits(s) && AllDigits(f)
    requires e.k1 == i + 5 + |h| && e.k2 == e.k1 + 1 + |m| && e.k3 == e.k2 + 1 + |s| && e.k4 == e.k3 + 1 + |f|
    requires e.k4 <= |line|
    requires line[i..i + 5] == "time="
    requires line[e.k1] == ':' && line[e.k2] == ':' && line[e.k3] == '.'
    requires e.k4 == |line| || !IsDigit(line[e.k4])
    requires line[i + 5..e.k1] == h && line[e.k1 + 1..e.k2] == m
    requires line[e.k2 + 1..e.k3] == s && line[e.k3 + 1..e.k4] == f
    ensures MatchAt(line, i) == Some(Clock(DigitsValue(h), DigitsValue(m), DecimalValue(s, f)))
  {
    TimeTagOf(line, i);
    var hv := RunValue(line, i + 5, e.k1, h);
    MarkerReadMinutes(line, i, e, hv, m, s, f);
  }

  /** The read once the hours are known. */
  lemma MarkerReadMinutes(line: string, i: nat, e: Ends, hv: nat, m: string, s: string, f: string)
    requires |m| > 0 && |s| > 0 && |f| > 0
    requires AllDigits(m) && AllDigits(s) && AllDigits(f)
    requires i + 5 < e.k1 && e.k2 == e.k1 + 1 + |m| && e.k3 == e.k2 + 1 + |s| && e.k4 == e.k3 + 1 + |f|
    requires e.k4 <= |line|
    requires TimeTagAt(line, i)
    requires line[e.k1] == ':' && line[e.k2] == ':' && line[e.k3] == '.'
    requires e.k4 == |line| || !IsDigit(line[e.k4])
    requires DigitRun(line, i + 5, e.k1) && hv == DigitsIn(line, i + 5, e.k1)
    requires line[e.k1 + 1..e.k2] == m
    requires line[e.k2 + 1..e.k3] == s && line[e.k3 + 1..e.k4] == f
    ensures MatchAt(line, i) == Some(Clock(hv, DigitsValue(m), DecimalValue(s, f)))
  {
    var mv := RunValue(line, e.k1 + 1, e.k2, m);
    MarkerReadSeconds(line, i, e, hv, mv, s, f);
  }

  /** The read once the hours and minutes are known. */
  lemma MarkerReadSeconds(line: string, i: nat, e: Ends, hv: nat, mv: nat, s: string, f: string)
    requires |s| > 0 && |f| > 0
    requires AllDigits(s) && AllDigits(f)
    requires i + 5 < e.k1 && e.k1 + 1 < e.k2 && e.k3 == e.k2 + 1 + |s| && e.k4 == e.k3 + 1 + |f|
    requires e.k4 <= |line|
    requires TimeTagAt(line, i)
    requires line[e.k1] == ':' && line[e.k2] == ':' && line[e.k3] == '.'
    requires e.k4 == |line| || !IsDigit(line[e.k4])
    requires DigitRun(line, i + 5, e.k1) && hv == DigitsIn(line, i + 5, e.k1)
    requires DigitRun(line, e.k1 + 1, e.k2) && mv == DigitsIn(line, e.k1 + 1, e.k2)
    requires line[e.k2 + 1..e.k3] == s && line[e.k3 + 1..e.k4] == f
    ensures MatchAt(line, i) == Some(Clock(hv, mv, DecimalValue(s, f)))
  {
    var sv := RunValue(line, e.k2 + 1, e.k3, s);
    var fv := RunValue(line, e.k3 + 1, e.k4, f);
    MarkerFromRuns(line, i, e, hv, mv, sv, fv);
    SameFraction(sv, fv, e.k4 - e.k3 - 1, s, f);
  }

  /** The value of digits copied into a line at a..k, read in place. */
  lemma RunValue(line: string, a: nat, k: nat, h: string) returns (v: nat)
    requires k == a + |h| <= |line| && AllDigits(h)
    requires line[a..k] == h
    ensures DigitRun(line, a, k) && v == DigitsIn(line, a, k) && v == DigitsValue(h)
  {
    DigitsInOf(line, a, k, h);
    v := DigitsValue(h);
  }

  /** The literal `time=` copied into a line at i is found there. */
  lemma TimeTagOf(line: string, i: nat)
    requires i + 5 <= |line| && line[i..i + 5] == "time="
    ensures TimeTagAt(line, i)
  {
    assert line[i..i + 5][0] == 't' && line[i..i + 5][1] == 'i' && line[i..i + 5][2] == 'm';
    assert line[i..i + 5][3] == 'e' && line[i..i + 5][4] == '=';
  }

  /** Once the runs are located and their values known, the match reads them. */
  lemma MarkerFromRuns(line: string, i: nat, e: Ends, hv: nat, mv: nat, sv: nat, fv: nat)
    requires i + 5 < e.k1 && e.k1 + 1 < e.k2 && e.k2 + 1 < e.k3 && e.k3 + 1 < e.k4 <= |line|
    requires TimeTagAt(line, i)
    requires line[e.k1] == ':' && line[e.k2] == ':' && line[e.k3] == '.'
    requires DigitRun(line, i + 5, e.k1) && DigitRun(line, e.k1 + 1, e.k2)
    requires DigitRun(line, e.k2 + 1, e.k3) && DigitRun(line, e.k3 + 1, e.k4)
    requires e.k4 == |line| || !IsDigit(line[e.k4])
    requires hv == DigitsIn(line, i + 5, e.k1) && mv == DigitsIn(line, e.k1 + 1, e.k2)
    requires sv == DigitsIn(line, e.k2 + 1, e.k3) && fv == DigitsIn(line, e.k3 + 1, e.k4)
    ensures MatchAt(line, i) == Some(Clock(hv, mv, Fraction(sv, fv, e.k4 - e.k3 - 1)))
  {
    MatchAtRuns(line, i, e);
  }

  lemma SameFraction(whole: nat, frac: nat, places: nat, ws: string, fs: string)
    requires AllDigits(ws) && AllDigits(fs)
    requires whole == DigitsValue(ws) && frac == DigitsValue(fs) && places == |fs|
    ensures Fraction(whole, frac, places) == DecimalValue(ws, fs)
  {
  }

  /** Once the runs are located, the match reads them. */
  lemma MatchAtRuns(line: string, i: nat, e: Ends)
    requires i + 5 < e.k1 && e.k1 + 1 < e.k2 && e.k2 + 1 < e.k3 && e.k3 + 1 < e.k4 <= |line|
    requires TimeTagAt(line, i)
    requires line[e.k1] == ':' && line[e.k2] == ':' && line[e.k3] == '.'
    requires DigitRun(line, i + 5, e.k1) && DigitRun(line, e.k1 + 1, e.k2)
    requires DigitRun(line, e.k2 + 1, e.k3) && DigitRun(line, e.k3 + 1, e.k4)
    requires e.k4 == |line| || !IsDigit(line[e.k4])
    ensures MatchAt(line, i) == Some(Clock(DigitsIn(line, i + 5, e.k1), DigitsIn(line, e.k1 + 1, e.k2),
                                            Fraction(DigitsIn(line, e.k2 + 1, e.k3), DigitsIn(line, e.k3 + 1, e.k4), e.k4 - e.k3 - 1)))
  {
    MarkerEndsAt(line, i, e);
  }

  /** Extending a string keeps every slice within it. */
  lemma SliceOfPrefix(a: string, b: string, x: nat, y: nat)
    requires x <= y <= |a|
    ensures (a + b)[x..y] == a[x..y]
  {
  }

  /** The part appended last sits at the end. */
  lemma SliceOfSuffix(a: string, b: string)
    ensures (a + b)[|a|..|a| + |b|] == b
  {
  }

  /** Where the pieces of `pre + "time=" + H + ":" + M + ":" + S + "." + F + rest` sit. */
  lemma MarkerText(pre: string, h: string, m: string, s: string, f: string, rest: string, line: string, e: Ends)
    requires line == pre + "time=" + h + ":" + m + ":" + s + "." + f + rest
    requires e.k1 == |pre| + 5 + |h| && e.k2 == e.k1 + 1 + |m|
    requires e.k3 == e.k2 + 1 + |s| && e.k4 == e.k3 + 1 + |f|
    ensures |line| == e.k4 + |rest|
    ensures line[|pre|..|pre| + 5] == "time="
    ensures line[|pre| + 5..e.k1] == h && line[e.k1] == ':'
    ensures line[e.k1 + 1..e.k2] == m && line[e.k2] == ':'
    ensures line[e.k2 + 1..e.k3] == s && line[e.k3] == '.'
    ensures line[e.k3 + 1..e.k4] == f
    ensures |rest| > 0 ==> line[e.k4] == rest[0]
  {
    var l0 := pre + "time=";
    var l1 := l0 + h;
    var l2 := l1 + ":";
    var l3 := l2 + m;
    var l4 := l3 + ":";
    var l5 := l4 + s;
    var l6 := l5 + ".";
    var l7 := l6 + f;
    // each piece, read in the string it was appended to
    SliceOfSuffix(pre, "time=");
    SliceOfSuffix(l0, h);
    SliceOfSuffix(l2, m);
    SliceOfSuffix(l4, s);
    SliceOfSuffix(l6, f);
    // and carried out to the whole line
    SliceOfPrefix(l6, f, |pre|, |pre| + 5);
    SliceOfPrefix(l7, rest, |pre|, |pre| + 5);
    SliceOfPrefix(l5, ".", |pre|, |pre| + 5);
    SliceOfPrefix(l4, s, |pre|, |pre| + 5);
    SliceOfPrefix(l3, ":", |pre|, |pre| + 5);
    SliceOfPrefix(l2, m, |pre|, |pre| + 5);
    SliceOfPrefix(l1, ":", |pre|, |pre| + 5);
    SliceOfPrefix(l0, h, |pre|, |pre| + 5);
    SliceOfPrefix(l7, rest, |l0|, |l1|);
    SliceOfPrefix(l6, f, |l0|, |l1|);
    SliceOfPrefix(l5, ".", |l0|, |l1|);
    SliceOfPrefix(l4, s, |l0|, |l1|);
    SliceOfPrefix(l3, ":", |l0|, |l1|);
    SliceOfPrefix(l2, m, |l0|, |l1|);
    SliceOfPrefix(l1, ":", |l0|, |l1|);
    SliceOfPrefix(l7, rest, |l2|, |l3|);
    SliceOfPrefix(l6, f, |l2|, |l3|);
    SliceOfPrefix(l5, ".", |l2|, |l3|);
    SliceOfPrefix(l4, s, |l2|, |l3|);
    SliceOfPrefix(l3, ":", |l2|, |l3|);
    SliceOfPrefix(l7, rest, |l4|, |l5|);
    SliceOfPrefix(l6, f, |l4|, |l5|);
    SliceOfPrefix(l5, ".", |l4|, |l5|);
    SliceOfPrefix(l7, rest, |l6|, |l7|);
  }

  /** A marker written as `time=H:M:S.F` and followed by a non-digit (or
      the end of the line) is read back as those numbers. */
  lemma MarkerReadBack(pre: string, h: string, m: string, s: string, f: string, rest: string)
    requires |h| > 0 && |m| > 0 && |s| > 0 && |f| > 0
    requires AllDigits(h) && AllDigits(m) && AllDigits(s) && AllDigits(f)
    requires |rest| == 0 || !IsDigit(rest[0])
    ensures var line := pre + "time=" + h + ":" + m + ":" + s + "." + f + rest;
            MatchAt(line, |pre|) == Some(Clock(DigitsValue(h), DigitsValue(m), DecimalValue(s, f)))
  {
    var line := pre + "time=" + h + ":" + m + ":" + s + "." + f + rest;
    var k1 := |pre| + 5 + |h|;
    var k2 := k1 + 1 + |m|;
    var k3 := k2 + 1 + |s|;
    var e := Ends(k1, k2, k3, k2 + 1 + |s| + 1 + |f|);
    MarkerText(pre, h, m, s, f, rest, line, e);
    MarkerReadAt(line, |pre|, e, h, m, s, f);
  }
}
