/** The Qt front end's persisted settings (ui.py `save_settings` and
    `load_settings`, lines 184-201): five controls written to a JSON object
    and read back at start-up. */
module Settings {
  import opened Common
  import opened Inputs

  /** A JSON value as `json.load` returns it, as far as the reader cares. */
  datatype Json = JInt(i: int) | JBool(b: bool) | JStr(s: string) | JOther

  /** The controls that are saved, plus whether the blur entry is enabled. */
  datatype Form = Form(
    modeIndex: int, presetIndex: int,
    blurChecked: bool, blurEnabled: bool,
    blurText: string, crfText: string)

  const ModeCount: nat := 2
  const PresetCount: nat := 3
  const BlurRange: (int, int) := (0, 100)
  const CrfRange: (int, int) := (0, 51)

  /** The controls at start-up, before settings are loaded. */
  function Initial(): Form
  {
    Form(0, 0, false, false, "60", "25")
  }

  /** Both number entries hold text their validator leaves alone. */
  predicate EntriesValid(f: Form)
  {
    && Validate(f.blurText, BlurRange.0, BlurRange.1) == f.blurText
    && Validate(f.crfText, CrfRange.0, CrfRange.1) == f.crfText
  }

  /** The entries hold validated text and the indices name items. */
  predicate Consistent(f: Form)
  {
    && 0 <= f.modeIndex < ModeCount && 0 <= f.presetIndex < PresetCount
    && f.blurEnabled == f.blurChecked
    && EntriesValid(f)
  }

  /** `save_settings`: the object written to the settings file. */
  function Save(f: Form): (m: map<string, Json>)
    ensures m.Keys == {"mode_index", "preset_index", "blur_checked", "blur_sigma", "crf"}
    ensures m["mode_index"] == JInt(f.modeIndex) && m["preset_index"] == JInt(f.presetIndex)
    ensures m["blur_checked"] == JBool(f.blurChecked)
    ensures m["blur_sigma"] == JStr(f.blurText) && m["crf"] == JStr(f.crfText)
  {
    map["mode_index" := JInt(f.modeIndex), "preset_index" := JInt(f.presetIndex),
        "blur_checked" := JBool(f.blurChecked),
        "blur_sigma" := JStr(f.blurText), "crf" := JStr(f.crfText)]
  }

  /** `s.get(key, default)`. */
  function Get(m: map<string, Json>, key: string, default: Json): Json
  {
    if key in m then m[key] else default
  }

  /** `QComboBox.setCurrentIndex`: an index outside the items selects nothing. */
  function ComboIndex(i: int, count: nat): (r: int)
    ensures 0 <= i < count ==> r == i
    ensures !(0 <= i < count) ==> r == -1
  {
    if 0 <= i < count then i else -1
  }

  /** `NumberInput.setText`: a new text is validated, the same text is left
      as it is (no change is signalled). */
  function SetNumberText(current: string, t: string, lo: int, hi: int): string
  {
    if t == current then current else Validate(t, lo, hi)
  }

  /** Setting a number entry keeps it validated. */
  lemma SetNumberTextValid(current: string, t: string, lo: int, hi: int)
    requires lo <= hi
    ensures Validate(current, lo, hi) == current ==>
              var r := SetNumberText(current, t, lo, hi);
              Validate(r, lo, hi) == r
  {
    ValidateIdempotent(t, lo, hi);
  }

  /** The two number entries of `load_settings`, in order; a value that is
      not a string makes `setText` raise and ends the load. */
  function LoadTexts(f: Form, m: map<string, Json>): (r: Form)
    ensures r == f.(blurText := r.blurText, crfText := r.crfText)
    ensures EntriesValid(f) ==> EntriesValid(r)
    ensures !Get(m, "blur_sigma", JStr("60")).JStr? ==> r == f
    ensures var b := Get(m, "blur_sigma", JStr("60"));
            EntriesValid(f) && b.JStr? ==> r.blurText == Validate(b.s, BlurRange.0, BlurRange.1)
    ensures var b, c := Get(m, "blur_sigma", JStr("60")), Get(m, "crf", JStr("25"));
            b.JStr? && !c.JStr? ==> r.crfText == f.crfText
    ensures var b, c := Get(m, "blur_sigma", JStr("60")), Get(m, "crf", JStr("25"));
            EntriesValid(f) && b.JStr? && c.JStr? ==> r.crfText == Validate(c.s, CrfRange.0, CrfRange.1)
  {
    match Get(m, "blur_sigma", JStr("60"))
    case JStr(bs) =>
      var f4 := f.(blurText := SetNumberText(f.blurText, bs, BlurRange.0, BlurRange.1));
      SetNumberTextValid(f.blurText, bs, BlurRange.0, BlurRange.1);
      (match Get(m, "crf", JStr("25"))
       case JStr(cs) =>
         SetNumberTextValid(f.crfText, cs, CrfRange.0, CrfRange.1);
         f4.(crfText := SetNumberText(f4.crfText, cs, CrfRange.0, CrfRange.1))
       case _ => f4)
    case _ => f
  }

  /** `load_settings`.  None is a missing or unreadable file.  A value of
      the wrong type makes its setter raise; the `except: pass` keeps what
      was applied before and skips the rest. */
  function Load(f: Form, file: Option<map<string, Json>>): (r: Form)
    ensures file.None? ==> r == f
    ensures EntriesValid(f) ==> EntriesValid(r)
  {
    match file
    case None => f
    case Some(m) =>
      match Get(m, "mode_index", JInt(0))
      case JInt(mi) =>
        var f1 := f.(modeIndex := ComboIndex(mi, ModeCount));
        (match Get(m, "preset_index", JInt(0))
         case JInt(pi) =>
           var f2 := f1.(presetIndex := ComboIndex(pi, PresetCount));
           (match Get(m, "blur_checked", JBool(false))
            case JBool(bc) => LoadTexts(f2.(blurChecked := bc, blurEnabled := bc), m)
            case _ => f2)
         case _ => f1)
      case _ => f
  }

  /** Saving and loading at the next start-up restores every saved control. */
  lemma SaveLoadRoundTrip(f: Form)
    requires Consistent(f)
    ensures Load(Initial(), Some(Save(f))) == f
  {
    var m := Save(f);
    var f2 := Initial().(modeIndex := f.modeIndex, presetIndex := f.presetIndex,
                         blurChecked := f.blurChecked, blurEnabled := f.blurChecked);
    assert Load(Initial(), Some(m)) == LoadTexts(f2, m);
    assert SetNumberText(f2.blurText, f.blurText, BlurRange.0, BlurRange.1) == f.blurText;
    assert SetNumberText(f2.crfText, f.crfText, CrfRange.0, CrfRange.1) == f.crfText;
  }

  /** Loading an object without any of the keys gives the defaults. */
  lemma LoadEmptyGivesDefaults(f: Form)
    requires Consistent(f)
    ensures var r := Load(f, Some(map[]));
            && r.modeIndex == 0 && r.presetIndex == 0 && !r.blurChecked && !r.blurEnabled
            && r.blurText == "60" && r.crfText == "25"
  {
    DefaultsValid();
    var f2 := f.(modeIndex := 0, presetIndex := 0, blurChecked := false, blurEnabled := false);
    assert LoadTexts(f2, map[]) == f2.(blurText := "60", crfText := "25");
  }

  /** The default entry texts pass their validators unchanged. */
  lemma DefaultsValid()
    ensures Validate("60", BlurRange.0, BlurRange.1) == "60"
    ensures Validate("25", CrfRange.0, CrfRange.1) == "25"
  {
    assert IntToString(60) == "60" && IntToString(25) == "25";
    ParseIntOfIntToString(60);
    ParseIntOfIntToString(25);
  }

  /** A mistyped mode stops the load before anything is applied. */
  lemma WrongTypeAbortsLoad(f: Form, m: map<string, Json>)
    requires "mode_index" in m && m["mode_index"] == JStr("0")
    ensures Load(f, Some(m)) == f
  {
  }

  /** An out-of-range text in the file is clamped on the way in. */
  lemma LoadClampsQuality(f: Form)
    requires Consistent(f)
    ensures Load(f, Some(Save(f)["crf" := JStr("99")])).crfText == "51"
  {
    QualityClamp();
    var m := Save(f)["crf" := JStr("99")];
    assert Load(f, Some(m)) == LoadTexts(f, m);
    assert LoadTexts(f, m).crfText == SetNumberText(f.crfText, "99", CrfRange.0, CrfRange.1);
  }

  /** A quality of 99 is above the encoder's range and validates to 51. */
  lemma QualityClamp()
    ensures Validate("99", CrfRange.0, CrfRange.1) == "51"
  {
    assert IntToString(99) == "99" && IntToString(51) == "51";
    ParseIntOfIntToString(99);
  }
}
