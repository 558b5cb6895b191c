/** The Qt variant's background job (core.py `VideoWorker.run`, lines
    40-108): where the output goes, the filter chain and command it builds,
    and the signals it emits while and after the engine runs.  The engine
    itself is an input: the diagnostic lines it writes and how it ends. */
module Worker {
  import opened Common
  import opened Paths
  import opened Filters
  import opened Progress

  /** The job's configuration dictionary; a missing key is None. */
  datatype WorkerConfig = WorkerConfig(
    mode: string,
    blur: Option<bool>,
    blurSigma: Option<int>,
    preset: Option<string>,
    crf: Option<int>)
  {
    /** `config.get(key, default)` for each key the job reads. */
    predicate BlurOn() { blur == Some(true) }
    function Sigma(): int { if blurSigma.Some? then blurSigma.value else 60 }
    function Preset(): string { if preset.Some? then preset.value else "ultrafast" }
    function Crf(): int { if crf.Some? then crf.value else 23 }
    function TargetRatio(): Ratio { if mode == "9:16" then Vertical else Horizontal }
  }

  const OutputFolder: string := "Converted_Videos"

  /** `9-16` for the 9:16 mode, `16-9` for anything else. */
  function ModeTag(mode: string): (tag: string)
    ensures tag == "9-16" <==> mode == "9:16"
    ensures tag == "9-16" || tag == "16-9"
  {
    if mode == "9:16" then "9-16" else "16-9"
  }

  /** The sub-folder next to the source file that receives the output. */
  function OutputDir(file: string): string
  {
    Join(Dirname(file), OutputFolder)
  }

  /** The output name: the first unused `base_tag.mp4` or `base_tag_N.mp4`
      inside the output folder. */
  function OutputFor(fs: set<string>, file: string, cfg: WorkerConfig): (out: string)
    ensures out !in fs
    ensures exists n: OutputName ::
              && n.base == Stem(file) && n.tag == ModeTag(cfg.mode) && n.ext == ".mp4"
              && out == PathOf(OutputDir(file), n)
    ensures var plain := OutputName(Stem(file), ModeTag(cfg.mode), None, ".mp4");
            PathOf(OutputDir(file), plain) !in fs ==> out == PathOf(OutputDir(file), plain)
    ensures PathOf(OutputDir(file), OutputName(Stem(file), ModeTag(cfg.mode), None, ".mp4")) in fs ==>
              exists c: nat ::
                && c >= 1
                && out == PathOf(OutputDir(file), Numbered(Stem(file), ModeTag(cfg.mode), c, ".mp4"))
                && forall k: nat :: 1 <= k < c ==>
                     PathOf(OutputDir(file), Numbered(Stem(file), ModeTag(cfg.mode), k, ".mp4")) in fs
  {
    var n := Allocate(fs, OutputDir(file), Stem(file), ModeTag(cfg.mode), ".mp4");
    PathOf(OutputDir(file), n)
  }

  /** The filter stages: one layout stage and the pixel format.  There is no
      aspect test: without blur the frame is always fitted and padded. */
  function WorkerStages(cfg: WorkerConfig): (ss: seq<Stage>)
    ensures |ss| == 2 && ss[1] == PixelFormat
    ensures ss[0].IsLayout() && ss[0].ratio == cfg.TargetRatio()
    ensures ss[0].ScalePad? <==> !cfg.BlurOn()
    ensures ss[0].BlurOverlay? <==> cfg.BlurOn()
    ensures ss[0].BlurOverlay? ==> ss[0].sigma == cfg.Sigma() && ss[0].graph == QtGraph
  {
    var r := cfg.TargetRatio();
    [if cfg.BlurOn() then BlurOverlay(r, cfg.Sigma(), QtGraph) else ScalePad(r), PixelFormat]
  }

  /** The `-vf` argument: with blur, the Qt blur graph at the target
      canvas; without, a fit-and-pad to it; in both cases the pixel format
      last. */
  function WorkerFilter(cfg: WorkerConfig): (f: string)
    ensures EndsWith(f, "format=yuv420p")
    ensures cfg.BlurOn() ==> StartsWith(f, "[0:v]")
    ensures cfg.BlurOn() ==> Contains(f, "gblur=sigma=" + IntToString(cfg.Sigma()) + "[bgblur]")
    ensures !cfg.BlurOn() ==> StartsWith(f, "scale=" + Dims(cfg.TargetRatio()))
    ensures !cfg.BlurOn() ==> Contains(f, "pad=" + Dims(cfg.TargetRatio()))
  {
    var ss := WorkerStages(cfg);
    RenderChainEndsWithFormat(ss);
    var first := RenderStage(ss[0]);
    TwoStageChain(ss);
    StartsWithExtend(first, "," + "format=yuv420p", if cfg.BlurOn() then "[0:v]" else "scale=" + Dims(cfg.TargetRatio()));
    var inner := if cfg.BlurOn() then "gblur=sigma=" + IntToString(cfg.Sigma()) + "[bgblur]" else "pad=" + Dims(cfg.TargetRatio());
    ContainsExtend(first, "," + "format=yuv420p", inner);
    RenderChain(ss)
  }

  /** args holds `flag value` as two consecutive arguments. */
  predicate Follows(args: seq<string>, flag: string, value: string)
  {
    exists i :: 0 <= i < |args| - 1 && PairAt(args, i) == (flag, value)
  }

  /** The argument at i and the one after it. */
  function PairAt(args: seq<string>, i: nat): (string, string)
    requires i + 1 < |args|
  {
    (args[i], args[i + 1])
  }

  /** Flag/value pairs laid out as consecutive arguments. */
  function Flatten(opts: seq<(string, string)>): (r: seq<string>)
    ensures |r| == 2 * |opts|
  {
    if |opts| == 0 then [] else [opts[0].0, opts[0].1] + Flatten(opts[1..])
  }

  /** The k-th pair sits at positions 2k and 2k + 1. */
  lemma {:induction false} FlattenAt(opts: seq<(string, string)>, k: nat)
    requires k < |opts|
    ensures Flatten(opts)[2 * k] == opts[k].0 && Flatten(opts)[2 * k + 1] == opts[k].1
    decreases k
  {
    if k > 0 {
      FlattenAt(opts[1..], k - 1);
      var rest := Flatten(opts[1..]);
      assert Flatten(opts) == [opts[0].0, opts[0].1] + rest;
      assert Flatten(opts)[2 * k] == rest[2 * k - 2];
      assert Flatten(opts)[2 * k + 1] == rest[2 * k - 1];
    }
  }

  /** The options the job passes after `ffmpeg -y`, in order, for a given
      filter text, preset and quality text. */
  function WorkerOptions(file: string, vf: string, preset: string, crf: string): seq<(string, string)>
  {
    [("-i", file),
     ("-vf", vf),
     ("-c:v", "libx264"),
     ("-preset", preset),
     ("-crf", crf),
     ("-pix_fmt", "yuv420p"),
     ("-c:a", "aac"),
     ("-b:a", "192k"),
     ("-map", "0:v?"),
     ("-map", "0:a?"),
     ("-threads", "0")]
  }

  /** The engine's command line. */
  function WorkerCommand(file: string, cfg: WorkerConfig, output: string): (cmd: seq<string>)
    ensures |cmd| >= 2 && cmd[0] == "ffmpeg" && cmd[|cmd| - 1] == output
    ensures Follows(cmd, "-i", file) && Follows(cmd, "-vf", WorkerFilter(cfg))
    ensures Follows(cmd, "-preset", cfg.Preset()) && Follows(cmd, "-crf", IntToString(cfg.Crf()))
    ensures Follows(cmd, "-map", "0:v?") && Follows(cmd, "-map", "0:a?")
    ensures Follows(cmd, "-pix_fmt", "yuv420p")
  {
    var vf, preset, crf := WorkerFilter(cfg), cfg.Preset(), IntToString(cfg.Crf());
    CommandCarriesOptions(file, vf, preset, crf, output);
    ["ffmpeg", "-y"] + Flatten(WorkerOptions(file, vf, preset, crf)) + [output]
  }

  /** The command line carries each option as a flag and its value. */
  lemma CommandCarriesOptions(file: string, vf: string, preset: string, crf: string, output: string)
    ensures var cmd := ["ffmpeg", "-y"] + Flatten(WorkerOptions(file, vf, preset, crf)) + [output];
            && |cmd| >= 2 && cmd[0] == "ffmpeg" && cmd[|cmd| - 1] == output
            && Follows(cmd, "-i", file) && Follows(cmd, "-vf", vf)
            && Follows(cmd, "-preset", preset) && Follows(cmd, "-crf", crf)
            && Follows(cmd, "-map", "0:v?") && Follows(cmd, "-map", "0:a?")
            && Follows(cmd, "-pix_fmt", "yuv420p")
  {
    var opts := WorkerOptions(file, vf, preset, crf);
    OptionFollows(["ffmpeg", "-y"], opts, 0, [output]);
    OptionFollows(["ffmpeg", "-y"], opts, 1, [output]);
    OptionFollows(["ffmpeg", "-y"], opts, 3, [output]);
    OptionFollows(["ffmpeg", "-y"], opts, 4, [output]);
    OptionFollows(["ffmpeg", "-y"], opts, 5, [output]);
    OptionFollows(["ffmpeg", "-y"], opts, 8, [output]);
    OptionFollows(["ffmpeg", "-y"], opts, 9, [output]);
  }

  /** Every listed option appears as a flag followed by its value, whatever
      comes before and after the options. */
  lemma OptionFollows(head: seq<string>, opts: seq<(string, string)>, k: nat, tail: seq<string>)
    requires k < |opts|
    ensures Follows(head + Flatten(opts) + tail, opts[k].0, opts[k].1)
  {
    FlattenAt(opts, k);
    PairInside(head, Flatten(opts), tail, 2 * k);
  }

  /** A pair of the middle part of a concatenation is a pair of the whole. */
  lemma PairInside(head: seq<string>, mid: seq<string>, tail: seq<string>, j: nat)
    requires j + 1 < |mid|
    ensures Follows(head + mid + tail, mid[j], mid[j + 1])
  {
    var args := head + mid + tail;
    assert PairAt(args, |head| + j) == (mid[j], mid[j + 1]);
  }

  /** How the engine run ended: it exited with a code after writing its
      lines, or launching or reading raised an exception (with the lines
      read before it). */
  datatype Launch =
    | Exited(lines: seq<string>, code: int)
    | Raised(lines: seq<string>, message: string)

  /** What the job emits. */
  datatype Signal =
    | Progress(path: string, value: nat)
    | Finished(output: string)
    | Error(path: string, message: string)
  {
    predicate IsTerminal() { Finished? || Error? }
  }

  function ProgressSignals(path: string, ps: seq<nat>): (r: seq<Signal>)
    ensures |r| == |ps|
    ensures forall i :: 0 <= i < |r| ==> r[i] == Progress(path, ps[i])
  {
    if |ps| == 0 then [] else [Progress(path, ps[0])] + ProgressSignals(path, ps[1..])
  }

  /** The message carried by the error signal of a failed run. */
  function FailureMessage(l: Launch): string
  {
    match l
    case Exited(_, code) => "ffmpeg 返回码 " + IntToString(code)
    case Raised(_, message) => "执行异常: " + message
  }

  predicate Succeeded(l: Launch) { l.Exited? && l.code == 0 }

  /** The signals of one run, in order. */
  function RunSignals(file: string, output: string, duration: real, l: Launch): (r: seq<Signal>)
    // running percentages first, one per line that carries a marker
    ensures var ps := ProgressValues(l.lines, duration);
            && |r| == |ps| + (if Succeeded(l) then 2 else 1)
            && r[..|ps|] == ProgressSignals(file, ps)
    // exactly one terminal signal, and it comes last
    ensures r[|r| - 1].IsTerminal()
    ensures forall i :: 0 <= i < |r| - 1 ==> !r[i].IsTerminal()
    // success: 100 and then the output path
    ensures r[|r| - 1].Finished? <==> Succeeded(l)
    ensures Succeeded(l) ==> r[|r| - 1] == Finished(output) && r[|r| - 2] == Progress(file, 100)
    // 100 is reserved for success
    ensures forall i :: 0 <= i < |r| && r[i].Progress? && r[i].value >= 100 ==> Succeeded(l)
    // failure: the error names the file and says why
    ensures !Succeeded(l) ==> r[|r| - 1] == Error(file, FailureMessage(l))
  {
    var ps := ProgressValues(l.lines, duration);
    var running := ProgressSignals(file, ps);
    var tail := if Succeeded(l) then [Progress(file, 100), Finished(output)]
                else [Error(file, FailureMessage(l))];
    AppendTerminal(running, tail);
    running + tail
  }

  /** Appending a terminal tail to running percentages below 100. */
  lemma AppendTerminal(running: seq<Signal>, tail: seq<Signal>)
    requires forall i :: 0 <= i < |running| ==> running[i].Progress? && running[i].value <= 99
    requires |tail| >= 1 && tail[|tail| - 1].IsTerminal()
    requires forall i :: 0 <= i < |tail| - 1 ==> !tail[i].IsTerminal()
    ensures var r := running + tail;
            && r[..|running|] == running
            && r[|r| - 1] == tail[|tail| - 1]
            && (forall i :: 0 <= i < |r| - 1 ==> !r[i].IsTerminal())
            && (forall i :: 0 <= i < |r| && r[i].Progress? && r[i].value >= 100 ==>
                  exists k :: 0 <= k < |tail| && tail[k] == r[i])
  {
    var r := running + tail;
    assert r[..|running|] == running;
    forall i | 0 <= i < |r| && r[i].Progress? && r[i].value >= 100
      ensures exists k :: 0 <= k < |tail| && tail[k] == r[i]
    {
      assert tail[i - |running|] == r[i];
    }
  }

  /** The whole job: allocate the output, build the command, run. */
  datatype Job = Job(output: string, command: seq<string>, signals: seq<Signal>)

  function RunWorker(fs: set<string>, file: string, cfg: WorkerConfig, duration: real, l: Launch): (j: Job)
    ensures j.output !in fs && j.output == OutputFor(fs, file, cfg)
    ensures j.command == WorkerCommand(file, cfg, j.output)
    ensures j.signals == RunSignals(file, j.output, duration, l)
  {
    var out := OutputFor(fs, file, cfg);
    Job(out, WorkerCommand(file, cfg, out), RunSignals(file, out, duration, l))
  }

  /** The running percentages never reach 100. */
  lemma RunningProgressBelowHundred(file: string, output: string, duration: real, l: Launch, i: nat)
    requires i < |ProgressValues(l.lines, duration)|
    ensures RunSignals(file, output, duration, l)[i].Progress?
    ensures RunSignals(file, output, duration, l)[i].value <= 99
  {
    var ps := ProgressValues(l.lines, duration);
    var r := RunSignals(file, output, duration, l);
    assert r[..|ps|][i] == r[i];
  }
}
