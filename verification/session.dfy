/** The Tk front end's start-button state (main1.py `start_conversion`,
    `_run_all`'s end, `_update_start_button_state`, `_on_param_changed`,
    `on_drop`, `remove_task` and `clear_all`, lines 447-571): a snapshot of
    the options taken at start, compared after every change with the live
    options to tell whether anything is new since the last batch. */
module Session {
  import opened Common
  import opened TaskList

  /** Every option the snapshot records, as the widgets hold them. */
  datatype Options = Options(
    ratio: string, preset: string,
    blurOn: bool, blurText: string,
    rotateOn: bool, rotateText: string,
    qualText: string, concurrent: string,
    brightnessOn: bool, brightnessText: string,
    contrastOn: bool, contrastText: string,
    saturationOn: bool, saturationText: string)

  /** The snapshot dictionary: the options and the number of tasks. */
  datatype Snap = Snap(opts: Options, tasks: nat)

  /** The options as the live dictionary records them: the text of a
      disabled colour entry reads as its neutral value. */
  function Normalise(o: Options): (n: Options)
    ensures n.brightnessText == (if o.brightnessOn then o.brightnessText else "0")
    ensures n.contrastText == (if o.contrastOn then o.contrastText else "1.0")
    ensures n.saturationText == (if o.saturationOn then o.saturationText else "1.0")
    ensures n.(brightnessText := o.brightnessText, contrastText := o.contrastText,
               saturationText := o.saturationText) == o
  {
    o.(brightnessText := if o.brightnessOn then o.brightnessText else "0",
       contrastText := if o.contrastOn then o.contrastText else "1.0",
       saturationText := if o.saturationOn then o.saturationText else "1.0")
  }

  /** The live dictionary of `_update_start_button_state`. */
  function Live(o: Options, tasks: nat): Snap { Snap(Normalise(o), tasks) }

  /** The snapshot `start_conversion` stores as written: the raw options. */
  function SnapshotAsWritten(o: Options, tasks: nat): (s: Snap)
    ensures s.opts == o && s.tasks == tasks
  {
    Snap(o, tasks)
  }

  /** The snapshot normalised like the live side. */
  function Snapshot(o: Options, tasks: nat): (s: Snap)
    ensures s.tasks == tasks
    ensures IsClean(Some(s), o, tasks)
  {
    Live(o, tasks)
  }

  /** The raw snapshot matches the live options it was taken from only when
      every disabled colour entry already holds its neutral text. */
  lemma RawSnapshotCleanIff(o: Options, tasks: nat)
    ensures IsClean(Some(SnapshotAsWritten(o, tasks)), o, tasks) <==>
      && (!o.brightnessOn ==> o.brightnessText == "0")
      && (!o.contrastOn ==> o.contrastText == "1.0")
      && (!o.saturationOn ==> o.saturationText == "1.0")
  {
    if IsClean(Some(SnapshotAsWritten(o, tasks)), o, tasks) {
      assert Normalise(o) == o;
      assert Normalise(o).brightnessText == o.brightnessText;
      assert Normalise(o).contrastText == o.contrastText;
      assert Normalise(o).saturationText == o.saturationText;
    }
  }

  /** The button shows "nothing new" exactly when the stored snapshot
      equals the live dictionary. */
  predicate IsClean(snapshot: Option<Snap>, o: Options, tasks: nat)
  {
    snapshot == Some(Live(o, tasks))
  }

  /** Two option sets look the same to the tracker exactly when they agree
      on everything but the text of disabled colour entries. */
  lemma CleanIffSameOptions(o1: Options, n1: nat, o2: Options, n2: nat)
    ensures IsClean(Some(Snapshot(o1, n1)), o2, n2) <==>
      && n1 == n2
      && o1.(brightnessText := "", contrastText := "", saturationText := "")
         == o2.(brightnessText := "", contrastText := "", saturationText := "")
      && (o1.brightnessOn ==> o1.brightnessText == o2.brightnessText)
      && (o1.contrastOn ==> o1.contrastText == o2.contrastText)
      && (o1.saturationOn ==> o1.saturationText == o2.saturationText)
  {
    var a, b := Normalise(o1), Normalise(o2);
    if IsClean(Some(Snapshot(o1, n1)), o2, n2) {
      assert a == b;
      assert a.(brightnessText := "", contrastText := "", saturationText := "")
          == b.(brightnessText := "", contrastText := "", saturationText := "");
    }
  }

  /** What the start button shows. */
  datatype Button = Converting | Clean | Dirty

  /** The Tk application's bookkeeping. */
  datatype App = App(
    opts: Options,
    rows: seq<Task>,
    running: bool,
    snapshot: Option<Snap>,
    button: Button)

  /** The state at launch: 9:16, the default preset, no tasks, no snapshot. */
  function Initial(): (a: App)
    ensures !a.running && a.rows == [] && a.snapshot.None?
  {
    App(Options("9:16", "快 1080p30", false, "80", false, "0", "25", "2",
                false, "0", false, "1.0", false, "1.0"),
        [], false, None, Dirty)
  }

  /** `_update_start_button_state`: compare and show. */
  function Refresh(a: App): App
  {
    a.(button := if IsClean(a.snapshot, a.opts, |a.rows|) then Clean else Dirty)
  }

  /** `_on_param_changed`: nothing is compared while a batch runs. */
  function ParamChanged(a: App): (r: App)
    ensures a.running ==> r == a
    ensures !a.running ==> r == Refresh(a)
  {
    if a.running then a else Refresh(a)
  }

  /** An option edit. */
  function Edit(a: App, o: Options): App { ParamChanged(a.(opts := o)) }

  /** `on_drop`: the files are queued even while a batch runs; the button
      is compared again only when none runs. */
  function Drop(a: App, files: seq<string>): (r: App)
    ensures r.rows == AddFiles(a.rows, files)
    ensures r.opts == a.opts && r.running == a.running && r.snapshot == a.snapshot
    ensures a.running ==> r.button == a.button
    ensures !a.running ==> (r.button == Clean <==> IsClean(a.snapshot, a.opts, |r.rows|))
  {
    ParamChanged(a.(rows := AddFiles(a.rows, files)))
  }

  /** `remove_task`: ignored while a batch runs; otherwise the path's row
      goes, the rest are renumbered in order, and the button is compared. */
  function Remove(a: App, p: string): (r: App)
    ensures a.running ==> r == a
    ensures !a.running ==> r.rows == RemoveTask(a.rows, false, p)
    ensures !a.running ==> PathsOf(r.rows) == Without(PathsOf(a.rows), p)
    ensures !a.running ==> r.opts == a.opts && r.snapshot == a.snapshot && !r.running
    ensures !a.running ==> (r.button == Clean <==> IsClean(a.snapshot, a.opts, |r.rows|))
  {
    if a.running then a else ParamChanged(a.(rows := RemoveTask(a.rows, false, p)))
  }

  /** `clear_all`. */
  function Clear(a: App): (r: App)
    ensures a.running ==> r == a
    ensures !a.running ==> r.rows == [] && r.snapshot.None? && r.button == Dirty
  {
    if a.running then a else ParamChanged(a.(rows := [], snapshot := None))
  }

  /** `start_conversion`, storing the normalised snapshot when `corrected`
      and the raw one otherwise. */
  function StartWith(a: App, corrected: bool): (r: App)
    ensures a.running || a.rows == [] ==> r == a
    ensures !a.running && a.rows != [] ==> r.running && r.button == Converting && r.rows == a.rows
    ensures !a.running && a.rows != [] ==> r.opts == a.opts
    ensures !a.running && a.rows != [] ==>
              r.snapshot == Some(if corrected then Snapshot(a.opts, |a.rows|)
                                 else SnapshotAsWritten(a.opts, |a.rows|))
  {
    if a.running || a.rows == [] then a
    else
      var snap := if corrected then Snapshot(a.opts, |a.rows|) else SnapshotAsWritten(a.opts, |a.rows|);
      a.(running := true, snapshot := Some(snap), button := Converting)
  }

  function Start(a: App): App { StartWith(a, true) }

  /** The end of `_run_all`: not running any more, then compare. */
  function Finish(a: App): (r: App)
    ensures !r.running
    ensures r.opts == a.opts && r.rows == a.rows && r.snapshot == a.snapshot
    ensures r.button == Clean <==> IsClean(a.snapshot, a.opts, |a.rows|)
  {
    Refresh(a.(running := false))
  }

  /** With the snapshot normalised, a batch that finishes with the options
      untouched leaves the button showing "nothing new". */
  lemma UntouchedBatchIsClean(a: App)
    requires !a.running && a.rows != []
    ensures Finish(Start(a)).button == Clean
  {
  }

  /** As written, the snapshot keeps the raw text of a disabled colour
      entry: a batch run with brightness off and "50" in its entry finishes
      showing "changed" although nothing was touched. */
  lemma UntouchedBatchIsDirtyAsWritten(a: App)
    requires !a.running && a.rows != []
    requires !a.opts.brightnessOn && a.opts.brightnessText == "50"
    ensures Finish(StartWith(a, false)).button == Dirty
  {
    assert Normalise(a.opts).brightnessText == "0";
  }

  /** Edits made while a batch runs leave the button alone. */
  lemma EditsWhileRunningIgnored(a: App, o: Options)
    requires a.running
    ensures Edit(a, o).button == a.button
  {
  }

  /** After clearing, no option change makes the button clean before the
      next start. */
  lemma ClearedStaysDirty(a: App, o: Options, files: seq<string>)
    requires !a.running
    ensures Edit(Clear(a), o).button == Dirty
    ensures Drop(Clear(a), files).button == Dirty
  {
  }

  /** A finished batch whose options were then edited in a disabled colour
      entry only still shows "nothing new". */
  lemma DisabledEntryEditKeepsClean(a: App, t: string)
    requires !a.running && a.rows != [] && !a.opts.contrastOn
    ensures var done := Finish(Start(a));
            Edit(done, done.opts.(contrastText := t)).button == Clean
  {
  }
}
