/** One job of the Tk front end (main1.py `_run_ffmpeg`, lines 354-430, and
    the batch settings of `_run_all`, lines 473-481): reading the parameter
    row, planning the filter chain, allocating the output, building the
    command and turning the engine's run into row updates. */
module TkJob {
  import opened Common
  import opened Paths
  import opened Filters
  import opened Planner
  import opened Progress
  import opened Worker

  /** The parameter row as `_run_ffmpeg` finds it: entry texts and toggles. */
  datatype Params = Params(
    blurText: string, qualText: string,
    rotateOn: bool, rotateText: string,
    blurOn: bool,
    brightnessOn: bool, brightnessText: string,
    contrastOn: bool, contrastText: string,
    saturationOn: bool, saturationText: string)

  /** A parsed parameter row: the quality and the planner's options. */
  datatype Reading = Reading(crf: int, look: Look)

  /** The values the guarded read falls back to when any entry is unreadable. */
  const FallbackSigma: int := 80
  const FallbackCrf: int := 25

  /** An optional colour entry: its parsed value scaled by `scale` when the
      toggle is on, `neutral` without parsing when it is off. */
  function ColourValue(on: bool, text: string, scale: real, neutral: real): Option<real>
    requires scale > 0.0
  {
    if !on then Some(neutral)
    else match ParseDecimal(text) case Some(v) => Some(v / scale) case None => None
  }

  /** All entries the read parses are readable. */
  predicate Readable(p: Params)
  {
    && ParseInt(p.blurText).Some?
    && ParseInt(p.qualText).Some?
    && ColourValue(p.brightnessOn, p.brightnessText, 100.0, 0.0).Some?
    && ColourValue(p.contrastOn, p.contrastText, 1.0, 1.0).Some?
    && ColourValue(p.saturationOn, p.saturationText, 1.0, 1.0).Some?
  }

  /** The reading of a fully readable row. */
  function ParsedReading(p: Params): Reading
    requires Readable(p)
  {
    Reading(
      ParseInt(p.qualText).value,
      Look(ParseInt(p.blurText).value,
           p.rotateOn, p.rotateText, p.blurOn,
           p.brightnessOn, ColourValue(p.brightnessOn, p.brightnessText, 100.0, 0.0).value,
           p.contrastOn, ColourValue(p.contrastOn, p.contrastText, 1.0, 1.0).value,
           p.saturationOn, ColourValue(p.saturationOn, p.saturationText, 1.0, 1.0).value))
  }

  /** The read as written (lines 355-372).  The fallback rebinds sigma,
      quality, rotation, blur and the three colour values, but not the three
      colour toggles: a toggle the read had not reached yet stays unbound
      and the job dies on the first `if do_...` that needs it.  None is that
      crash. */
  function ReadAsWritten(p: Params): (r: Option<Reading>)
    ensures Readable(p) ==> r == Some(ParsedReading(p))
    ensures r.None? <==>
      || ParseInt(p.blurText).None? || ParseInt(p.qualText).None?
      || ColourValue(p.brightnessOn, p.brightnessText, 100.0, 0.0).None?
      || ColourValue(p.contrastOn, p.contrastText, 1.0, 1.0).None?
    ensures r.Some? && !Readable(p) ==>
      var rd := r.value;
      && rd.crf == FallbackCrf && rd.look.sigma == FallbackSigma
      && !rd.look.rotateOn && rd.look.angle == "90" && !rd.look.blurOn
      && rd.look.brightnessOn == p.brightnessOn && rd.look.brightness == 0.0
      && rd.look.contrastOn == p.contrastOn && rd.look.contrast == 1.0
      && rd.look.saturationOn == p.saturationOn && rd.look.saturation == 1.0
  {
    if Readable(p) then Some(ParsedReading(p))
    else if ParseInt(p.blurText).None? || ParseInt(p.qualText).None?
         || ColourValue(p.brightnessOn, p.brightnessText, 100.0, 0.0).None?
         || ColourValue(p.contrastOn, p.contrastText, 1.0, 1.0).None? then
      None
    else
      // only the saturation entry failed: every toggle was already bound
      Some(Reading(FallbackCrf,
        Look(FallbackSigma, false, "90", false,
             p.brightnessOn, 0.0, p.contrastOn, 1.0, p.saturationOn, 1.0)))
  }


  /** The read with the fallback completed: the neutral colour values come
      with their toggles off, so a failed read plans a plain job. */
  function Read(p: Params): (r: Reading)
    ensures Readable(p) ==> r == ParsedReading(p)
    ensures !Readable(p) ==>
      && r.crf == FallbackCrf && r.look.sigma == FallbackSigma
      && !r.look.rotateOn && !r.look.blurOn && !r.look.AnyColour()
  {
    if Readable(p) then ParsedReading(p)
    else Reading(FallbackCrf, Look(FallbackSigma, false, "90", false, false, 0.0, false, 1.0, false, 1.0))
  }

  /** The corrected read always yields a reading, and agrees with the read
      as written wherever that one survives with every toggle as entered. */
  lemma ReadAgreesWhenReadable(p: Params)
    ensures Readable(p) ==> ReadAsWritten(p) == Some(Read(p))
    ensures !Readable(p) ==> Plan(Read(p).look, Vertical, 1080, 1920)
                             == [Scale(Vertical), PixelFormat]
  {
  }

  /** The probed facts of a row. */
  datatype Row = Row(path: string, width: nat, height: nat, duration: real)

  /** `_run_all`'s configuration: the mode text and the engine preset. */
  datatype BatchConfig = BatchConfig(mode: string, preset: string)

  /** The engine preset for the selected preset label. */
  function PresetFor(choice: string): (preset: string)
    ensures preset == "ultrafast" <==> Contains(choice, "极快")
    ensures preset == "ultrafast" || preset == "medium"
  {
    if Contains(choice, "极快") then "ultrafast" else "medium"
  }

  function MakeBatchConfig(ratioLabel: string, presetLabel: string): BatchConfig
  {
    BatchConfig(ratioLabel, PresetFor(presetLabel))
  }

  /** A row update: a running percentage or a final status text. */
  datatype RowUpdate = Percent(value: nat) | Final(value: nat, text: string)
  {
    /** The text the progress cell shows afterwards. */
    function Shown(): string
    {
      match this
      case Percent(v) => IntToString(v) + "%"
      case Final(_, t) => t
    }
  }

  const DoneText: string := "✓ 完成"
  const FailedText: string := "失败"
  const ErrorText: string := "错误"

  /** The final status of a run. */
  function FinalUpdate(l: Launch): (u: RowUpdate)
    ensures u.Final?
    ensures u.value == 100 <==> Succeeded(l)
    ensures u.text == DoneText <==> Succeeded(l)
    ensures u.text == FailedText <==> l.Exited? && l.code != 0
    ensures u.text == ErrorText <==> l.Raised?
  {
    match l
    case Exited(_, code) => if code == 0 then Final(100, DoneText) else Final(0, FailedText)
    case Raised(_, _) => Final(0, ErrorText)
  }

  function Percents(ps: seq<nat>): (r: seq<RowUpdate>)
    ensures |r| == |ps|
    ensures forall i :: 0 <= i < |r| ==> r[i] == Percent(ps[i])
  {
    if |ps| == 0 then [] else [Percent(ps[0])] + Percents(ps[1..])
  }

  /** The updates a row receives from one run. */
  function RowUpdates(duration: real, l: Launch): (r: seq<RowUpdate>)
    ensures |r| >= 1 && r[|r| - 1] == FinalUpdate(l)
    ensures forall i :: 0 <= i < |r| - 1 ==> r[i].Percent? && r[i].value <= 99
    ensures r[..|r| - 1] == Percents(ProgressValues(l.lines, duration))
  {
    var running := Percents(ProgressValues(l.lines, duration));
    var r := running + [FinalUpdate(l)];
    assert r[..|r| - 1] == running;
    r
  }

  /** The folder the output goes to: the chosen save folder, or the
      source's own folder. */
  function TkOutputDir(saveDir: string, path: string): string
  {
    if saveDir != "" then saveDir else Dirname(path)
  }

  /** The options passed after `ffmpeg -y`, in order. */
  function TkOptions(path: string, filter: string, cfg: BatchConfig, crf: int): seq<(string, string)>
  {
    [("-i", path), ("-vf", filter), ("-c:v", "libx264"),
     ("-preset", cfg.preset), ("-crf", IntToString(crf)), ("-c:a", "aac")]
  }

  function TkCommand(path: string, filter: string, cfg: BatchConfig, crf: int, output: string): (cmd: seq<string>)
    ensures |cmd| >= 2 && cmd[0] == "ffmpeg" && cmd[|cmd| - 1] == output
    ensures Follows(cmd, "-i", path) && Follows(cmd, "-vf", filter)
    ensures Follows(cmd, "-preset", cfg.preset) && Follows(cmd, "-crf", IntToString(crf))
  {
    var opts := TkOptions(path, filter, cfg, crf);
    OptionFollows(["ffmpeg", "-y"], opts, 0, [output]);
    OptionFollows(["ffmpeg", "-y"], opts, 1, [output]);
    OptionFollows(["ffmpeg", "-y"], opts, 3, [output]);
    OptionFollows(["ffmpeg", "-y"], opts, 4, [output]);
    ["ffmpeg", "-y"] + Flatten(opts) + [output]
  }

  /** How a job ends: it died before launching (a zero effective height
      divides by zero in the aspect test), or it ran. */
  datatype JobOutcome =
    | Crashed
    | Ran(output: string, command: seq<string>, updates: seq<RowUpdate>)

  /** A job that ran as a reading plans it: its output is fresh and
      allocated in the output folder with the mode's `:` turned into `_`, its
      command carries the planned filter and the quality read, and the row
      gets the run's updates. */
  predicate RanAsPlanned(o: JobOutcome, fs: set<string>, saveDir: string, row: Row, rd: Reading, cfg: BatchConfig, l: Launch)
    requires o.Ran?
  {
    var dir := TkOutputDir(saveDir, row.path);
    && EffectiveHeight(rd.look, row.width, row.height) > 0
    && o.output !in fs
    && o.output == PathOf(dir, Allocate(fs, dir, Stem(row.path), ReplaceChar(cfg.mode, ':', '_'), ".mp4"))
    && Follows(o.command, "-vf", RenderChain(Plan(rd.look, RatioOfMode(cfg.mode), row.width, row.height)))
    && Follows(o.command, "-crf", IntToString(rd.crf))
    && o.updates == RowUpdates(row.duration, l)
  }

  /** The job from a reading on: the aspect test, the filter chain, the
      output allocation, the command and the row updates. */
  function JobWith(fs: set<string>, saveDir: string, row: Row, rd: Reading, cfg: BatchConfig, l: Launch): (o: JobOutcome)
    ensures o.Crashed? <==> EffectiveHeight(rd.look, row.width, row.height) == 0
    ensures o.Ran? ==> RanAsPlanned(o, fs, saveDir, row, rd, cfg, l)
  {
    if EffectiveHeight(rd.look, row.width, row.height) == 0 then Crashed
    else
      var filter := RenderChain(Plan(rd.look, RatioOfMode(cfg.mode), row.width, row.height));
      var dir := TkOutputDir(saveDir, row.path);
      var out := PathOf(dir, Allocate(fs, dir, Stem(row.path), ReplaceChar(cfg.mode, ':', '_'), ".mp4"));
      Ran(out, TkCommand(row.path, filter, cfg, rd.crf, out), RowUpdates(row.duration, l))
  }

  /** One whole job of the Tk front end as written: a read that leaves a
      colour toggle unbound kills it before the aspect test. */
  function RunJobAsWritten(fs: set<string>, saveDir: string, row: Row, p: Params, cfg: BatchConfig, l: Launch): (o: JobOutcome)
    ensures ReadAsWritten(p).None? ==> o.Crashed?
    ensures ReadAsWritten(p).Some? ==>
      (o.Crashed? <==> EffectiveHeight(ReadAsWritten(p).value.look, row.width, row.height) == 0)
  {
    match ReadAsWritten(p)
    case None => Crashed
    case Some(rd) => JobWith(fs, saveDir, row, rd, cfg, l)
  }

  /** One whole job of the Tk front end, with the corrected read. */
  function RunJob(fs: set<string>, saveDir: string, row: Row, p: Params, cfg: BatchConfig, l: Launch): (o: JobOutcome)
    ensures var rd := Read(p);
      o.Crashed? <==> EffectiveHeight(rd.look, row.width, row.height) == 0
    ensures o.Ran? ==> RanAsPlanned(o, fs, saveDir, row, Read(p), cfg, l)
  {
    JobWith(fs, saveDir, row, Read(p), cfg, l)
  }

  /** Where the read as written survives, the two jobs are the same job. */
  lemma RunJobAgreesWhenReadable(fs: set<string>, saveDir: string, row: Row, p: Params, cfg: BatchConfig, l: Launch)
    requires Readable(p)
    ensures RunJobAsWritten(fs, saveDir, row, p, cfg, l) == RunJob(fs, saveDir, row, p, cfg, l)
  {
  }

  /** An empty blur entry kills the job as written, while the corrected job
      runs a plain conversion of any frame with a height. */
  lemma EmptyBlurEntryCrashes(fs: set<string>, saveDir: string, row: Row, p: Params, cfg: BatchConfig, l: Launch)
    requires p.blurText == "" && row.height > 0
    ensures ReadAsWritten(p).None?
    ensures RunJobAsWritten(fs, saveDir, row, p, cfg, l).Crashed?
    ensures RunJob(fs, saveDir, row, p, cfg, l).Ran?
  {
  }

  /** A row ends showing "✓ 完成" exactly when the engine exited with 0,
      and 100 is never shown before that. */
  lemma DoneOnlyOnSuccess(fs: set<string>, saveDir: string, row: Row, p: Params, cfg: BatchConfig, l: Launch)
    requires RunJob(fs, saveDir, row, p, cfg, l).Ran?
    ensures var u := RunJob(fs, saveDir, row, p, cfg, l).updates;
            && (u[|u| - 1].Shown() == DoneText <==> Succeeded(l))
            && (forall i :: 0 <= i < |u| && u[i].value >= 100 ==> i == |u| - 1 && Succeeded(l))
  {
    RowShowsDoneOnlyOnSuccess(row.duration, l);
  }

  /** The row updates of one run end in "✓ 完成" exactly on success, and
      only that final update can carry 100. */
  lemma RowShowsDoneOnlyOnSuccess(duration: real, l: Launch)
    ensures var u := RowUpdates(duration, l);
            && (u[|u| - 1].Shown() == DoneText <==> Succeeded(l))
            && (forall i :: 0 <= i < |u| && u[i].value >= 100 ==> i == |u| - 1 && Succeeded(l))
  {
    FinalShowsDone(l);
  }

  /** The final update shows "✓ 完成" exactly on success. */
  lemma FinalShowsDone(l: Launch)
    ensures FinalUpdate(l).Shown() == DoneText <==> Succeeded(l)
  {
    assert FinalUpdate(l).Shown() == FinalUpdate(l).text;
  }

  /** Two jobs of the same batch on the same source, run one after the
      other, never write to the same file. */
  lemma SecondJobGetsFreshOutput(fs: set<string>, saveDir: string, row: Row, p: Params, cfg: BatchConfig, l1: Launch, l2: Launch)
    requires RunJob(fs, saveDir, row, p, cfg, l1).Ran?
    ensures var first := RunJob(fs, saveDir, row, p, cfg, l1).output;
            RunJob(fs + {first}, saveDir, row, p, cfg, l2).output != first
  {
    var dir := TkOutputDir(saveDir, row.path);
    AllocateAfterCreateDiffers(fs, dir, Stem(row.path), ReplaceChar(cfg.mode, ':', '_'), ".mp4");
  }
}
