/** The Qt front end's batch bookkeeping (ui.py lines 180-270, and
    `VideoCard.update_progress` in core.py lines 212-217): the cards in
    insertion order, what a drop adds, which cards a start targets, how the
    workers' signals move a card, and the countdown that announces the end
    of a batch. */
module Cards {
  import opened Common
  import opened Paths
  import opened Worker
  import opened Inputs

  const Waiting: string := "等待"
  const Processing: string := "处理中..."
  const DoneText: string := "✓ 完成"
  const FailedText: string := "失败"

  /** A card: the widget's identity, the source path, its status text and
      progress value.  A worker's signals are bound to the card widget, not
      to its path, so the identity is what they are routed by. */
  datatype Card = Card(id: nat, path: string, status: string, percent: nat)

  /** A fresh card waits at 0%. */
  function NewCard(id: nat, path: string): Card { Card(id, path, Waiting, 0) }

  /** The handler's state: cards in insertion order, the identity the next
      new card gets, the folder the output button opens ("" while unset),
      the number of jobs still running, the start button and how many times
      the end-of-batch notice was shown. */
  datatype Batch = Batch(
    cards: seq<Card>,
    nextId: nat,
    outputDir: string,
    count: int,
    startEnabled: bool,
    notices: nat)

  function Initial(): (b: Batch)
    ensures b.cards == [] && b.startEnabled && b.count == 0
  {
    Batch([], 0, "", 0, true, 0)
  }

  /** path is the path of some card. */
  predicate HasCard(cs: seq<Card>, path: string)
  {
    exists i :: 0 <= i < |cs| && cs[i].path == path
  }

  /** Every card was made before the next identity was handed out, so a
      card made from now on is a different widget from all of them. */
  predicate IdsBelow(b: Batch)
  {
    forall i :: 0 <= i < |b.cards| ==> b.cards[i].id < b.nextId
  }

  /** No path has two cards. */
  predicate DistinctCards(cs: seq<Card>)
  {
    forall i, j :: 0 <= i < j < |cs| ==> cs[i].path != cs[j].path
  }

  // ---------------------------------------------------------------------
  // Adding and removing cards
  // ---------------------------------------------------------------------

  /** The extensions a drop accepts, compared after lower-casing. */
  const QtExtensions: seq<string> := [".mp4", ".mov", ".mkv", ".avi", ".flv"]

  predicate QtAccepted(f: string)
  {
    exists i :: 0 <= i < |QtExtensions| && EndsWith(Lower(f), QtExtensions[i])
  }

  /** One file of `process_files`: a new card unless the path has one; the
      output folder is taken from the first file added while it is unset. */
  function AddCard(b: Batch, path: string): (r: Batch)
    ensures |r.cards| >= |b.cards| && r.cards[..|b.cards|] == b.cards
    ensures HasCard(r.cards, path)
    ensures forall i :: |b.cards| <= i < |r.cards| ==> r.cards[i] == NewCard(b.nextId, path)
    ensures HasCard(b.cards, path) ==> r == b
    ensures r.nextId >= b.nextId && (IdsBelow(b) ==> IdsBelow(r))
    ensures DistinctCards(b.cards) ==> DistinctCards(r.cards)
    ensures b.outputDir != "" ==> r.outputDir == b.outputDir
    ensures b.outputDir == "" && !HasCard(b.cards, path) ==> r.outputDir == Dirname(path)
    ensures r.count == b.count && r.startEnabled == b.startEnabled && r.notices == b.notices
  {
    if HasCard(b.cards, path) then
      assert b.cards[..|b.cards|] == b.cards;
      b
    else
      var cs := b.cards + [NewCard(b.nextId, path)];
      assert cs[..|b.cards|] == b.cards;
      assert cs[|b.cards|].path == path;
      b.(cards := cs, nextId := b.nextId + 1,
         outputDir := if b.outputDir == "" then Dirname(path) else b.outputDir)
  }

  /** `process_files`. */
  function ProcessFiles(b: Batch, files: seq<string>): (r: Batch)
    ensures |r.cards| >= |b.cards| && r.cards[..|b.cards|] == b.cards
    ensures forall i :: |b.cards| <= i < |r.cards| ==> r.cards[i].status == Waiting && r.cards[i].percent == 0
    ensures forall i :: |b.cards| <= i < |r.cards| ==> b.nextId <= r.cards[i].id < r.nextId
    ensures r.nextId >= b.nextId && (IdsBelow(b) ==> IdsBelow(r))
    ensures DistinctCards(b.cards) ==> DistinctCards(r.cards)
    ensures b.outputDir != "" ==> r.outputDir == b.outputDir
    ensures r.count == b.count && r.startEnabled == b.startEnabled && r.notices == b.notices
    decreases |files|
  {
    if |files| == 0 then b
    else
      var next := AddCard(b, files[0]);
      var r := ProcessFiles(next, files[1..]);
      assert r.cards[..|b.cards|] == r.cards[..|next.cards|][..|b.cards|];
      assert forall i :: |b.cards| <= i < |next.cards| ==> r.cards[i] == next.cards[i];
      r
  }

  /** Every file of a call ends up with a card. */
  lemma {:induction false} ProcessFilesListsAll(b: Batch, files: seq<string>, i: nat)
    requires i < |files|
    ensures HasCard(ProcessFiles(b, files).cards, files[i])
    decreases |files|
  {
    var next := AddCard(b, files[0]);
    var r := ProcessFiles(next, files[1..]);
    if i == 0 {
      var k :| 0 <= k < |next.cards| && next.cards[k].path == files[0];
      assert r.cards[k] == r.cards[..|next.cards|][k];
    } else {
      assert files[1..][i - 1] == files[i];
      ProcessFilesListsAll(next, files[1..], i - 1);
    }
  }

  /** The output folder is the folder of the first file that got a card,
      and later files do not move it. */
  lemma FirstNewFileSetsOutputDir(b: Batch, files: seq<string>)
    requires b.outputDir == "" && |files| > 0 && !HasCard(b.cards, files[0])
    requires Dirname(files[0]) != ""
    ensures ProcessFiles(b, files).outputDir == Dirname(files[0])
  {
  }

  /** Keep the files a drop accepts. */
  function FilterAccepted(paths: seq<string>): (r: seq<string>)
    ensures forall i :: 0 <= i < |r| ==> QtAccepted(r[i]) && r[i] in paths
    ensures forall i :: 0 <= i < |paths| && QtAccepted(paths[i]) ==> paths[i] in r
  {
    if |paths| == 0 then []
    else
      var rest := FilterAccepted(paths[1..]);
      assert forall q :: q in paths[1..] ==> q in paths;
      assert forall i :: 1 <= i < |paths| ==> paths[i] == paths[1..][i - 1];
      if QtAccepted(paths[0]) then [paths[0]] + rest else rest
  }

  /** The filter keeps the dropped order: one more dropped path adds
      itself at the end exactly when it is accepted. */
  lemma {:induction false} FilterAcceptedAppend(paths: seq<string>, q: string)
    ensures FilterAccepted(paths + [q]) == FilterAccepted(paths) + (if QtAccepted(q) then [q] else [])
    decreases |paths|
  {
    if |paths| == 0 {
      assert paths + [q] == [q];
      assert [q][1..] == [];
    } else {
      assert (paths + [q])[0] == paths[0];
      assert (paths + [q])[1..] == paths[1..] + [q];
      FilterAcceptedAppend(paths[1..], q);
    }
  }

  /** `dropEvent`: only accepted files reach `process_files`; a drop with
      none changes nothing. */
  function DropEvent(b: Batch, paths: seq<string>): (r: Batch)
    ensures |r.cards| >= |b.cards| && r.cards[..|b.cards|] == b.cards
    ensures DistinctCards(b.cards) ==> DistinctCards(r.cards)
    ensures IdsBelow(b) ==> IdsBelow(r)
    ensures (forall i :: 0 <= i < |paths| ==> !QtAccepted(paths[i])) ==> r == b
    ensures r.count == b.count && r.startEnabled == b.startEnabled && r.notices == b.notices
  {
    var valid := FilterAccepted(paths);
    if |valid| == 0 then
      assert b.cards[..|b.cards|] == b.cards;
      b
    else
      assert valid[0] in paths;
      ProcessFiles(b, valid)
  }

  /** Every accepted file of a drop has a card afterwards. */
  lemma DropListsEveryAccepted(b: Batch, paths: seq<string>, i: nat)
    requires i < |paths| && QtAccepted(paths[i])
    ensures HasCard(DropEvent(b, paths).cards, paths[i])
  {
    var valid := FilterAccepted(paths);
    assert paths[i] in valid;
    var j :| 0 <= j < |valid| && valid[j] == paths[i];
    ProcessFilesListsAll(b, valid, j);
  }

  /** Every card a drop adds holds an accepted file of that drop. */
  lemma {:induction false} DropAddsOnlyAccepted(b: Batch, paths: seq<string>, i: nat)
    requires |b.cards| <= i < |DropEvent(b, paths).cards|
    ensures QtAccepted(DropEvent(b, paths).cards[i].path)
    ensures DropEvent(b, paths).cards[i].path in paths
  {
    var valid := FilterAccepted(paths);
    ProcessFilesNewCards(b, valid, i);
  }

  lemma {:induction false} ProcessFilesNewCards(b: Batch, files: seq<string>, i: nat)
    requires |b.cards| <= i < |ProcessFiles(b, files).cards|
    ensures ProcessFiles(b, files).cards[i].path in files
    decreases |files|
  {
    var next := AddCard(b, files[0]);
    var r := ProcessFiles(next, files[1..]);
    if i < |next.cards| {
      assert r.cards[i] == r.cards[..|next.cards|][i] == next.cards[i];
    } else {
      ProcessFilesNewCards(next, files[1..], i);
      var j :| 0 <= j < |files| - 1 && files[1..][j] == r.cards[i].path;
      assert files[j + 1] == r.cards[i].path;
    }
  }

  /** `remove_card`: delete the card of that path, if any. */
  function RemoveCard(b: Batch, path: string): (r: Batch)
    ensures !HasCard(r.cards, path)
    ensures forall c :: c in r.cards <==> c in b.cards && c.path != path
    ensures !HasCard(b.cards, path) ==> r == b
    ensures r == b.(cards := r.cards)
    ensures IdsBelow(b) ==> IdsBelow(r)
  {
    var r := b.(cards := WithoutCard(b.cards, path));
    assert IdsBelow(b) ==> IdsBelow(r) by {
      if IdsBelow(b) {
        forall i | 0 <= i < |r.cards|
          ensures r.cards[i].id < b.nextId
        {
          assert r.cards[i] in b.cards;
        }
      }
    }
    r
  }

  /** Removal keeps the order of the other cards: a card at the end stays
      at the end unless it is the one removed. */
  lemma RemoveCardKeepsOrder(b: Batch, c: Card, path: string)
    ensures RemoveCard(b.(cards := b.cards + [c]), path).cards
            == RemoveCard(b, path).cards + (if c.path == path then [] else [c])
  {
    WithoutCardAppend(b.cards, c, path);
  }

  lemma {:induction false} WithoutCardAppend(cs: seq<Card>, c: Card, path: string)
    ensures WithoutCard(cs + [c], path) == WithoutCard(cs, path) + (if c.path == path then [] else [c])
    decreases |cs|
  {
    if |cs| == 0 {
      assert cs + [c] == [c];
      assert [c][1..] == [];
    } else {
      assert (cs + [c])[0] == cs[0];
      assert (cs + [c])[1..] == cs[1..] + [c];
      WithoutCardAppend(cs[1..], c, path);
    }
  }

  function WithoutCard(cs: seq<Card>, path: string): (r: seq<Card>)
    ensures forall c :: c in r <==> c in cs && c.path != path
    ensures !HasCard(r, path)
    ensures !HasCard(cs, path) ==> r == cs
  {
    if |cs| == 0 then []
    else
      var rest := WithoutCard(cs[1..], path);
      ConsCards(cs, path);
      if cs[0].path == path then rest
      else
        ConsCards([cs[0]] + rest, path);
        assert ([cs[0]] + rest)[1..] == rest;
        [cs[0]] + rest
  }

  /** A non-empty list is its head followed by its tail, for membership
      and for holding a card of the given path. */
  lemma ConsCards(cs: seq<Card>, path: string)
    requires |cs| > 0
    ensures forall c :: c in cs <==> c == cs[0] || c in cs[1..]
    ensures HasCard(cs, path) <==> cs[0].path == path || HasCard(cs[1..], path)
  {
    if HasCard(cs, path) && cs[0].path != path {
      var i :| 0 <= i < |cs| && cs[i].path == path;
      assert cs[1..][i - 1] == cs[i];
    }
    if HasCard(cs[1..], path) {
      var i :| 0 <= i < |cs[1..]| && cs[1..][i].path == path;
      assert cs[i + 1] == cs[1..][i];
    }
  }

  /** `clear_list`: every card removed, nothing else touched. */
  function ClearList(b: Batch): (r: Batch)
    ensures r.cards == []
    ensures r == b.(cards := r.cards)
  {
    b.(cards := [])
  }

  // ---------------------------------------------------------------------
  // Option changes and starting a batch
  // ---------------------------------------------------------------------

  /** A card whose status says it is over. */
  predicate IsOver(c: Card) { Contains(c.status, "完成") || Contains(c.status, FailedText) }

  /** `on_param_changed`: finished and failed cards wait again at 0%. */
  function ResetCard(c: Card): (r: Card)
    ensures IsOver(c) ==> r == c.(status := Waiting, percent := 0)
    ensures !IsOver(c) ==> r == c
  {
    if IsOver(c) then c.(status := Waiting, percent := 0) else c
  }

  function OnParamChanged(b: Batch): (r: Batch)
    ensures |r.cards| == |b.cards|
    ensures forall i :: 0 <= i < |b.cards| ==> r.cards[i] == ResetCard(b.cards[i])
    ensures r == b.(cards := r.cards)
  {
    b.(cards := seq(|b.cards|, i requires 0 <= i < |b.cards| => ResetCard(b.cards[i])))
  }

  predicate IsTarget(c: Card) { Contains(c.status, Waiting) }

  /** The positions of the cards `start_all` targets. */
  function TargetIndices(cs: seq<Card>): set<nat>
  {
    set i: nat | i < |cs| && IsTarget(cs[i])
  }

  /** `len(targets)`: the number of waiting cards. */
  function CountTargets(cs: seq<Card>): (n: nat)
    ensures n == |TargetIndices(cs)|
    ensures n <= |cs|
    ensures n == 0 <==> forall i :: 0 <= i < |cs| ==> !IsTarget(cs[i])
    decreases |cs|
  {
    if |cs| == 0 then 0
    else
      TargetIndicesSnoc(cs);
      CountTargets(cs[..|cs| - 1]) + (if IsTarget(cs[|cs| - 1]) then 1 else 0)
  }

  /** The targets of a list are those of all but its last card, plus the
      last card when it waits. */
  lemma TargetIndicesSnoc(cs: seq<Card>)
    requires |cs| > 0
    ensures var k := |cs| - 1;
            TargetIndices(cs) == TargetIndices(cs[..k]) + (if IsTarget(cs[k]) then {k} else {})
  {
    var k := |cs| - 1;
    forall i: nat | i < k
      ensures cs[..k][i] == cs[i]
    {
    }
  }

  /** The controls `start_all` reads. */
  datatype Controls = Controls(
    modeText: string, presetText: string,
    blurChecked: bool, blurText: string, crfText: string)

  /** `int(text or default)`: an empty entry stands for the default, any
      other text is read by `int()`. */
  function IntOr(text: string, default: int): (r: Option<int>)
    ensures text == "" ==> r == Some(default)
    ensures |text| >= 1 && AllDigits(text) ==> r == Some(DigitsValue(text))
    ensures r.None? <==> text != "" && ParseInt(text).None?
    ensures r.Some? && text != "" ==> r == ParseInt(text)
  {
    if text == "" then Some(default) else ParseInt(text)
  }

  /** An entry holding a written-out integer gives that integer, whatever
      the default. */
  lemma IntOrOfIntToString(n: int, default: int)
    ensures IntOr(IntToString(n), default) == Some(n)
  {
    ParseIntOfIntToString(n);
  }

  /** The configuration dictionary `start_all` builds; None when a number
      entry holds text `int()` refuses. */
  function ConfigOf(ctl: Controls): (cfg: Option<WorkerConfig>)
    ensures cfg.Some? <==> IntOr(ctl.blurText, 60).Some? && IntOr(ctl.crfText, 25).Some?
    ensures cfg.Some? ==>
      && (cfg.value.mode == "9:16" <==> Contains(ctl.modeText, "9:16"))
      && (!Contains(ctl.modeText, "9:16") ==> cfg.value.mode == "16:9")
      && cfg.value.BlurOn() == ctl.blurChecked
      && (ctl.blurText == "" ==> cfg.value.Sigma() == 60)
      && (ctl.crfText == "" ==> cfg.value.Crf() == 25)
      && (ctl.blurText != "" ==> cfg.value.Sigma() == ParseInt(ctl.blurText).value)
      && (ctl.crfText != "" ==> cfg.value.Crf() == ParseInt(ctl.crfText).value)
      && (cfg.value.Preset() == "ultrafast" <==> Contains(ctl.presetText, "ultrafast"))
      && (!Contains(ctl.presetText, "ultrafast") ==> cfg.value.Preset() == "fast")
  {
    match (IntOr(ctl.blurText, 60), IntOr(ctl.crfText, 25))
    case (Some(sigma), Some(crf)) =>
      Some(WorkerConfig(
        if Contains(ctl.modeText, "9:16") then "9:16" else "16:9",
        Some(ctl.blurChecked), Some(sigma),
        Some(if Contains(ctl.presetText, "ultrafast") then "ultrafast" else "fast"),
        Some(crf)))
    case _ => None
  }

  /** The number entries only ever hold text that `int()` accepts, so the
      configuration is always built. */
  lemma ValidatedEntriesGiveConfig(ctl: Controls)
    requires Validate(ctl.blurText, 0, 100) == ctl.blurText
    requires Validate(ctl.crfText, 0, 51) == ctl.crfText
    ensures ConfigOf(ctl).Some?
  {
    ValidateInRange(ctl.blurText, 0, 100);
    ValidateInRange(ctl.crfText, 0, 51);
  }

  function StartCard(c: Card): (r: Card)
    ensures IsTarget(c) ==> r == c.(status := Processing)
    ensures !IsTarget(c) ==> r == c
  {
    if IsTarget(c) then c.(status := Processing) else c
  }

  /** A worker `start_all` starts: the card its signals are bound to and
      the file it converts. */
  datatype Binding = Binding(id: nat, path: string)

  /** The workers for a card list: one per waiting card, in card order. */
  function Bindings(cs: seq<Card>): (r: seq<Binding>)
    ensures |r| == CountTargets(cs)
    decreases |cs|
  {
    if |cs| == 0 then []
    else
      var last := cs[|cs| - 1];
      Bindings(cs[..|cs| - 1]) + (if IsTarget(last) then [Binding(last.id, last.path)] else [])
  }

  /** A worker is started for a card exactly when the card waits. */
  lemma {:induction false} BindingsAreTargets(cs: seq<Card>)
    ensures forall w :: w in Bindings(cs) ==>
              exists i :: 0 <= i < |cs| && IsTarget(cs[i]) && w == Binding(cs[i].id, cs[i].path)
    ensures forall i :: 0 <= i < |cs| && IsTarget(cs[i]) ==> Binding(cs[i].id, cs[i].path) in Bindings(cs)
    decreases |cs|
  {
    if |cs| > 0 {
      var front := cs[..|cs| - 1];
      BindingsAreTargets(front);
      assert forall i :: 0 <= i < |front| ==> front[i] == cs[i];
    }
  }

  /** What `start_all` leaves behind, the configuration its workers get and
      the workers it starts. */
  datatype Started = Started(batch: Batch, config: Option<WorkerConfig>, jobs: seq<Binding>)

  /** `start_all`.  With no waiting card nothing happens; otherwise the
      button is disabled and the countdown set before the configuration is
      read, and the waiting cards turn to "处理中..." once it is. */
  function StartAll(b: Batch, ctl: Controls): (s: Started)
    ensures CountTargets(b.cards) == 0 ==> s == Started(b, None, [])
    ensures CountTargets(b.cards) > 0 ==>
      && s.config == ConfigOf(ctl)
      && s.jobs == (if s.config.Some? then Bindings(b.cards) else [])
      && s.batch == b.(cards := s.batch.cards, count := s.batch.count, startEnabled := false)
      && s.batch.count == CountTargets(b.cards)
      && !s.batch.startEnabled
      && |s.batch.cards| == |b.cards|
      && forall i :: 0 <= i < |b.cards| ==>
           s.batch.cards[i] == (if s.config.Some? then StartCard(b.cards[i]) else b.cards[i])
  {
    var n := CountTargets(b.cards);
    if n == 0 then Started(b, None, [])
    else
      var armed := b.(count := n, startEnabled := false);
      match ConfigOf(ctl)
      case None => Started(armed, None, [])
      case Some(cfg) =>
        Started(armed.(cards := seq(|b.cards|, i requires 0 <= i < |b.cards| => StartCard(b.cards[i]))),
                Some(cfg), Bindings(b.cards))
  }

  /** The positions at which two card lists differ. */
  function ChangedIndices(before: seq<Card>, after: seq<Card>): set<nat>
  {
    set i: nat | i < |before| && i < |after| && before[i] != after[i]
  }

  /** Once the configuration is built, `start_all` starts exactly the
      waiting cards, one worker each, and the countdown is their number. */
  lemma StartAllStartsTargets(b: Batch, ctl: Controls)
    requires CountTargets(b.cards) > 0 && ConfigOf(ctl).Some?
    ensures var s := StartAll(b, ctl).batch;
            && ChangedIndices(b.cards, s.cards) == TargetIndices(b.cards)
            && s.count == |ChangedIndices(b.cards, s.cards)|
            && |StartAll(b, ctl).jobs| == s.count
  {
    var st := StartAll(b, ctl);
    StartedCardsChange(b.cards, st.batch.cards);
  }

  /** Starting every card of a list changes exactly the waiting ones. */
  lemma StartedCardsChange(before: seq<Card>, after: seq<Card>)
    requires |after| == |before|
    requires forall i :: 0 <= i < |before| ==> after[i] == StartCard(before[i])
    ensures ChangedIndices(before, after) == TargetIndices(before)
  {
    NotContainsProcessing();
    forall i: nat | i < |before|
      ensures after[i] != before[i] <==> IsTarget(before[i])
    {
      if IsTarget(before[i]) {
        assert before[i].status != Processing;
      }
    }
  }

  // ---------------------------------------------------------------------
  // Signals from the workers and the countdown
  // ---------------------------------------------------------------------

  /** `VideoCard.update_progress`: the value is shown; from 100 on the card
      says it is done. */
  function UpdateProgress(c: Card, value: nat): (r: Card)
    ensures r.path == c.path && r.percent == value
    ensures value >= 100 ==> r.status == DoneText
    ensures value < 100 ==> r.status == c.status
  {
    var c1 := c.(percent := value);
    if value >= 100 then c1.(status := DoneText) else c1
  }

  /** The card a signal is bound to, after a progress value or a failure;
      every other card, whatever its path, is left alone. */
  function MapCard(cs: seq<Card>, id: nat, value: nat, fail: bool): (r: seq<Card>)
    ensures |r| == |cs|
    ensures forall i :: 0 <= i < |cs| && cs[i].id != id ==> r[i] == cs[i]
    ensures forall i :: 0 <= i < |cs| && cs[i].id == id ==>
              r[i] == (if fail then cs[i].(status := FailedText) else UpdateProgress(cs[i], value))
  {
    seq(|cs|, i requires 0 <= i < |cs| =>
      if cs[i].id != id then cs[i]
      else if fail then cs[i].(status := FailedText) else UpdateProgress(cs[i], value))
  }

  /** A progress signal of the worker bound to card id: that card shows the
      value; the other cards and the countdown are untouched, and a signal
      whose card was removed changes nothing. */
  function OnProgress(b: Batch, id: nat, value: nat): (r: Batch)
    ensures |r.cards| == |b.cards| && r == b.(cards := r.cards)
    ensures forall i :: 0 <= i < |b.cards| ==>
              r.cards[i] == (if b.cards[i].id == id then UpdateProgress(b.cards[i], value) else b.cards[i])
    ensures IdsBelow(b) && id >= b.nextId ==> r == b
  {
    b.(cards := MapCard(b.cards, id, value, false))
  }

  /** `check_finish`. */
  function CheckFinish(b: Batch): (r: Batch)
    ensures b.count <= 0 ==> r == b.(startEnabled := true, notices := b.notices + 1)
    ensures b.count > 0 ==> r == b
  {
    if b.count <= 0 then b.(startEnabled := true, notices := b.notices + 1) else b
  }

  /** r is b one ended job later: the countdown moved down by one, and the
      notice was shown and the button enabled exactly when it reached 0 or
      below. */
  predicate CountedDown(b: Batch, r: Batch)
  {
    && r.count == b.count - 1 && r.outputDir == b.outputDir
    && (r.count <= 0 ==> r.startEnabled && r.notices == b.notices + 1)
    && (r.count > 0 ==> r.startEnabled == b.startEnabled && r.notices == b.notices)
  }

  /** `on_ok`: the card was already moved by its progress signals. */
  function OnOk(b: Batch): (r: Batch)
    ensures CountedDown(b, r) && r.cards == b.cards
  {
    CheckFinish(b.(count := b.count - 1))
  }

  /** `on_fail` as written: the countdown moves, the card does not. */
  function OnFailAsWritten(b: Batch, id: nat): (r: Batch)
    ensures CountedDown(b, r) && r.cards == b.cards
  {
    CheckFinish(b.(count := b.count - 1))
  }

  /** `on_fail` with the card marked failed, as `on_param_changed`
      expects. */
  function OnFail(b: Batch, id: nat): (r: Batch)
    ensures CountedDown(b, r) && |r.cards| == |b.cards| && r.nextId == b.nextId
    ensures forall i :: 0 <= i < |b.cards| ==>
              r.cards[i] == (if b.cards[i].id == id then b.cards[i].(status := FailedText) else b.cards[i])
  {
    CheckFinish(b.(count := b.count - 1, cards := MapCard(b.cards, id, 0, true)))
  }

  /** A terminal signal of one job. */
  datatype Outcome = Ok(id: nat) | Failed(id: nat)

  /** One job's end, with the corrected `on_fail`. */
  function Conclude(b: Batch, o: Outcome): (r: Batch)
    ensures CountedDown(b, r) && |r.cards| == |b.cards|
    ensures o.Ok? ==> r.cards == b.cards
    ensures o.Failed? ==> forall i :: 0 <= i < |b.cards| && b.cards[i].id == o.id ==>
              r.cards[i].status == FailedText
  {
    match o
    case Ok(_) => OnOk(b)
    case Failed(id) => OnFail(b, id)
  }

  /** The jobs' ends in the order they arrive. */
  function ConcludeAll(b: Batch, os: seq<Outcome>): (r: Batch)
    ensures r.count == b.count - |os| && |r.cards| == |b.cards|
    ensures r.notices >= b.notices
    decreases |os|
  {
    if |os| == 0 then b else ConcludeAll(Conclude(b, os[0]), os[1..])
  }

  /** The countdown: after k of the n jobs of a batch have ended, in any
      order and with any outcomes, the notice has not been shown and the
      start button is off while k < n; the n-th shows it exactly once and
      turns the button back on. */
  lemma {:induction false} CountdownFiresOnce(b: Batch, os: seq<Outcome>)
    requires b.count >= |os| && !b.startEnabled
    ensures var r := ConcludeAll(b, os);
            && r.count == b.count - |os|
            && (|os| < b.count ==> r.notices == b.notices && !r.startEnabled)
            && (|os| == b.count && |os| > 0 ==> r.notices == b.notices + 1 && r.startEnabled)
    decreases |os|
  {
    if |os| > 0 {
      var next := Conclude(b, os[0]);
      assert next.count == b.count - 1;
      if |os| == 1 {
        assert ConcludeAll(next, os[1..]) == next;
      } else {
        assert next.notices == b.notices && !next.startEnabled;
        CountdownFiresOnce(next, os[1..]);
      }
    }
  }

  /** A started batch, given one end signal per card it started, announces
      its end once, with the last of them. */
  lemma StartedBatchAnnouncesOnce(b: Batch, ctl: Controls, os: seq<Outcome>)
    requires CountTargets(b.cards) > 0 && ConfigOf(ctl).Some?
    requires |os| == |ChangedIndices(b.cards, StartAll(b, ctl).batch.cards)|
    ensures var s := StartAll(b, ctl).batch;
            ConcludeAll(s, os).notices == s.notices + 1 && ConcludeAll(s, os).startEnabled
  {
    StartAllStartsTargets(b, ctl);
    CountdownFiresOnce(StartAll(b, ctl).batch, os);
  }

  /** With `on_fail` as written, a card whose job failed keeps saying
      "处理中..." after an option change, so the next start skips it. */
  lemma FailedCardNeverRetriedAsWritten(path: string)
    ensures var b := Batch([Card(0, path, Processing, 37)], 1, "", 1, false, 0);
            var after := OnParamChanged(OnFailAsWritten(b, 0));
            after.cards[0].status == Processing && CountTargets(after.cards) == 0
  {
    var b := Batch([Card(0, path, Processing, 37)], 1, "", 1, false, 0);
    var after := OnParamChanged(OnFailAsWritten(b, 0));
    assert !Contains(Processing, "完成") && !Contains(Processing, FailedText) by {
      NotContainsProcessing();
    }
    assert !Contains(Processing, Waiting) by {
      NotContainsProcessing();
    }
  }

  lemma NotContainsProcessing()
    ensures !Contains(Processing, "完成") && !Contains(Processing, FailedText)
    ensures !Contains(Processing, Waiting)
  {
    if Contains(Processing, "完成") { ContainsFirstChar(Processing, "完成"); }
    if Contains(Processing, FailedText) { ContainsFirstChar(Processing, FailedText); }
    if Contains(Processing, Waiting) { ContainsFirstChar(Processing, Waiting); }
  }

  /** With the card marked failed, an option change makes it wait again and
      the next start takes it up. */
  lemma FailedCardRetried(b: Batch, id: nat)
    ensures var after := OnParamChanged(OnFail(b, id));
            forall i :: 0 <= i < |b.cards| && b.cards[i].id == id ==>
              after.cards[i].status == Waiting && IsTarget(after.cards[i])
  {
    var after := OnParamChanged(OnFail(b, id));
    forall i | 0 <= i < |b.cards| && b.cards[i].id == id
      ensures after.cards[i].status == Waiting && IsTarget(after.cards[i])
    {
      assert Contains(FailedText, FailedText) by {
        assert FailedText[0..|FailedText|] == FailedText;
      }
      assert Contains(Waiting, Waiting) by {
        assert Waiting[0..|Waiting|] == Waiting;
      }
    }
  }

  /** A job keeps reporting to the card it was started for.  When that card
      is removed and the same file dropped again, the new card is a new
      widget, so the old job's progress and failure leave it waiting at 0%. */
  lemma ReaddedCardIgnoresOldJob(b: Batch, path: string, id: nat, value: nat)
    requires IdsBelow(b) && id < b.nextId
    ensures var a := AddCard(RemoveCard(b, path), path);
            && |a.cards| > 0 && a.cards[|a.cards| - 1] == NewCard(b.nextId, path)
            && OnProgress(a, id, value).cards[|a.cards| - 1] == NewCard(b.nextId, path)
            && OnFail(a, id).cards[|a.cards| - 1] == NewCard(b.nextId, path)
  {
  }
}
