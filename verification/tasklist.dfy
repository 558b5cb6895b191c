/** The Tk front end's task list (main1.py `on_drop`, `remove_task` and
    `clear_all`, lines 550-571): the rows in display order, each showing
    its 1-based position. */
module TaskList {
  import opened Common

  /** A row: the source path and the index shown in its first column. */
  datatype Task = Task(path: string, index: nat)

  /** The extensions a drop accepts, compared after lower-casing. */
  const TkExtensions: seq<string> := [".mp4", ".mov", ".mkv", ".avi", ".ts"]

  predicate HasExtension(f: string, exts: seq<string>)
  {
    exists i :: 0 <= i < |exts| && EndsWith(Lower(f), exts[i])
  }

  predicate Accepted(f: string) { HasExtension(f, TkExtensions) }

  function PathsOf(rows: seq<Task>): (ps: seq<string>)
    ensures |ps| == |rows|
    ensures forall i :: 0 <= i < |rows| ==> ps[i] == rows[i].path
  {
    if |rows| == 0 then [] else [rows[0].path] + PathsOf(rows[1..])
  }

  /** Every row shows its own 1-based position. */
  predicate Numbered(rows: seq<Task>)
  {
    forall i :: 0 <= i < |rows| ==> rows[i].index == i + 1
  }

  /** No path is listed twice. */
  predicate Distinct(ps: seq<string>)
  {
    forall i, j :: 0 <= i < j < |ps| ==> ps[i] != ps[j]
  }

  /** Well-formed lists: numbered, without duplicates. */
  predicate Valid(rows: seq<Task>) { Numbered(rows) && Distinct(PathsOf(rows)) }

  /** f is the path of some row. */
  predicate Listed(rows: seq<Task>, f: string)
  {
    exists i :: 0 <= i < |rows| && rows[i].path == f
  }

  lemma ListedIsIn(rows: seq<Task>, f: string)
    ensures Listed(rows, f) <==> f in PathsOf(rows)
  {
    if f in PathsOf(rows) {
      var i :| 0 <= i < |rows| && PathsOf(rows)[i] == f;
    }
  }

  /** One dropped file: appended with the next index when it has an
      accepted extension and is not listed yet. */
  function AddFile(rows: seq<Task>, f: string): (r: seq<Task>)
    ensures |r| >= |rows| && r[..|rows|] == rows
    ensures Valid(rows) ==> Valid(r)
    ensures Accepted(f) ==> Listed(r, f)
    ensures forall i :: |rows| <= i < |r| ==> r[i].path == f && Accepted(f)
  {
    if Accepted(f) && !Listed(rows, f) then
      AppendRow(rows, f);
      rows + [Task(f, |rows| + 1)]
    else
      assert rows[..|rows|] == rows;
      rows
  }

  /** Appending an unlisted path with the next index keeps the list valid
      and lists the path. */
  lemma AppendRow(rows: seq<Task>, f: string)
    requires !Listed(rows, f)
    ensures (rows + [Task(f, |rows| + 1)])[..|rows|] == rows
    ensures Listed(rows + [Task(f, |rows| + 1)], f)
    ensures Valid(rows) ==> Valid(rows + [Task(f, |rows| + 1)])
  {
    var r := rows + [Task(f, |rows| + 1)];
    assert r[..|rows|] == rows;
    assert r[|rows|].path == f;
    ListedIsIn(rows, f);
    PathsOfAppend(rows, Task(f, |rows| + 1));
  }

  /** A row that is listed stays listed in any extension of the list. */
  lemma ListedInExtension(rows: seq<Task>, r: seq<Task>, f: string)
    requires |r| >= |rows| && r[..|rows|] == rows && Listed(rows, f)
    ensures Listed(r, f)
  {
    var i :| 0 <= i < |rows| && rows[i].path == f;
    assert r[i] == rows[i];
  }

  /** A drop of several files, handled one after the other. */
  function AddFiles(rows: seq<Task>, files: seq<string>): (r: seq<Task>)
    ensures |r| >= |rows| && r[..|rows|] == rows
    ensures Valid(rows) ==> Valid(r)
    decreases |files|
  {
    if |files| == 0 then rows
    else
      var next := AddFile(rows, files[0]);
      var r := AddFiles(next, files[1..]);
      assert r[..|rows|] == next[..|next|][..|rows|];
      r
  }

  /** Every accepted dropped file ends up listed. */
  lemma {:induction false} AddFilesListsAccepted(rows: seq<Task>, files: seq<string>, i: nat)
    requires i < |files| && Accepted(files[i])
    ensures Listed(AddFiles(rows, files), files[i])
    decreases |files|
  {
    var next := AddFile(rows, files[0]);
    var r := AddFiles(next, files[1..]);
    if i == 0 {
      ListedInExtension(next, r, files[0]);
    } else {
      assert files[1..][i - 1] == files[i];
      AddFilesListsAccepted(next, files[1..], i - 1);
    }
  }

  /** Every row a drop adds holds an accepted file of that drop. */
  lemma {:induction false} AddFilesNewRows(rows: seq<Task>, files: seq<string>, i: nat)
    requires |rows| <= i < |AddFiles(rows, files)|
    ensures Accepted(AddFiles(rows, files)[i].path) && AddFiles(rows, files)[i].path in files
    decreases |files|
  {
    var next := AddFile(rows, files[0]);
    var r := AddFiles(next, files[1..]);
    if i < |next| {
      assert r[i] == r[..|next|][i] == next[i];
    } else {
      AddFilesNewRows(next, files[1..], i);
      var j :| 0 <= j < |files| - 1 && files[1..][j] == r[i].path;
      assert files[j + 1] == r[i].path;
    }
  }

  /** `paths` without every occurrence of p, order kept. */
  function Without(ps: seq<string>, p: string): (r: seq<string>)
    ensures forall q :: q in r <==> q in ps && q != p
    ensures Distinct(ps) ==> Distinct(r)
    ensures Distinct(ps) && p in ps ==> |r| == |ps| - 1
    ensures p !in ps ==> r == ps
  {
    if |ps| == 0 then []
    else
      var rest := Without(ps[1..], p);
      assert forall q :: q in ps[1..] ==> q in ps;
      if ps[0] == p then rest
      else
        var r := [ps[0]] + rest;
        assert Distinct(ps) ==> ps[0] !in ps[1..];
        r
  }

  /** Removal keeps the order of what remains: it works element by
      element from the end as well as from the front. */
  lemma {:induction false} WithoutAppend(ps: seq<string>, q: string, p: string)
    ensures Without(ps + [q], p) == Without(ps, p) + (if q == p then [] else [q])
    decreases |ps|
  {
    if |ps| == 0 {
      assert ps + [q] == [q];
      assert [q][1..] == [];
    } else {
      assert (ps + [q])[0] == ps[0];
      assert (ps + [q])[1..] == ps[1..] + [q];
      WithoutAppend(ps[1..], q, p);
    }
  }

  /** Removing "b" from the rows a, b, c leaves a and c, numbered 1 and 2. */
  lemma RemoveMiddleExample()
    ensures RemoveTask([Task("a", 1), Task("b", 2), Task("c", 3)], false, "b")
            == [Task("a", 1), Task("c", 2)]
  {
    var rows := [Task("a", 1), Task("b", 2), Task("c", 3)];
    assert PathsOf(rows) == ["a", "b", "c"];
    assert Without(["c"], "b") == ["c"];
    assert Without(["b", "c"], "b") == ["c"];
    assert Without(["a", "b", "c"], "b") == ["a", "c"];
  }

  /** Rows for the given paths, numbered 1..N in order. */
  function Renumber(ps: seq<string>): (rows: seq<Task>)
    ensures Numbered(rows) && PathsOf(rows) == ps
  {
    seq(|ps|, i requires 0 <= i < |ps| => Task(ps[i], i + 1))
  }

  /** Removing a row, refused while a batch runs; the rest are renumbered. */
  function RemoveTask(rows: seq<Task>, running: bool, p: string): (r: seq<Task>)
    ensures running ==> r == rows
    ensures !running ==> Numbered(r) && PathsOf(r) == Without(PathsOf(rows), p)
    ensures !running ==> forall q :: q in PathsOf(r) <==> q in PathsOf(rows) && q != p
    ensures !running && Valid(rows) ==> Valid(r)
    ensures !running && Valid(rows) && p in PathsOf(rows) ==> |r| == |rows| - 1
  {
    if running then rows else Renumber(Without(PathsOf(rows), p))
  }

  /** Emptying the list, refused while a batch runs. */
  function ClearTasks(rows: seq<Task>, running: bool): (r: seq<Task>)
    ensures running ==> r == rows
    ensures !running ==> r == []
  {
    if running then rows else []
  }

  /** Removing a file just dropped onto a valid list restores the list. */
  lemma RemoveUndoesAdd(rows: seq<Task>, f: string)
    requires Valid(rows) && Accepted(f) && !Listed(rows, f)
    ensures RemoveTask(AddFiles(rows, [f]), false, f) == rows
  {
    ListedIsIn(rows, f);
    var t := Task(f, |rows| + 1);
    AddOneFile(rows, f);
    PathsOfAppend(rows, t);
    WithoutAppended(PathsOf(rows), f);
    RenumberPaths(rows);
  }

  /** A single new accepted file is appended with the next index. */
  lemma AddOneFile(rows: seq<Task>, f: string)
    requires Accepted(f) && !Listed(rows, f)
    ensures AddFiles(rows, [f]) == rows + [Task(f, |rows| + 1)]
  {
    var next := AddFile(rows, f);
    assert next == rows + [Task(f, |rows| + 1)];
    assert [f][1..] == [];
    assert AddFiles(rows, [f]) == AddFiles(next, []);
  }

  lemma PathsOfAppend(rows: seq<Task>, t: Task)
    ensures PathsOf(rows + [t]) == PathsOf(rows) + [t.path]
  {
    var r := rows + [t];
    assert forall i :: 0 <= i < |rows| ==> r[i] == rows[i];
  }

  /** Renumbering the paths of a numbered list gives the list back. */
  lemma RenumberPaths(rows: seq<Task>)
    requires Numbered(rows)
    ensures Renumber(PathsOf(rows)) == rows
  {
    var r := Renumber(PathsOf(rows));
    forall i | 0 <= i < |rows| ensures r[i] == rows[i] {
      assert r[i].path == PathsOf(rows)[i];
    }
  }

  /** Dropping the last element of a list that was not elsewhere in it. */
  lemma {:induction false} WithoutAppended(ps: seq<string>, f: string)
    requires f !in ps
    ensures Without(ps + [f], f) == ps
    decreases |ps|
  {
    if |ps| == 0 {
      assert Without([f], f) == Without([], f);
    } else {
      assert (ps + [f])[1..] == ps[1..] + [f];
      WithoutAppended(ps[1..], f);
      assert [ps[0]] + ps[1..] == ps;
    }
  }

  /** Dropping the same files twice adds nothing the second time. */
  lemma DropTwiceAddsNothing(rows: seq<Task>, files: seq<string>)
    ensures var once := AddFiles(rows, files);
            AddFiles(once, files) == once
  {
    var once := AddFiles(rows, files);
    forall i | 0 <= i < |files| && Accepted(files[i])
      ensures Listed(once, files[i])
    {
      AddFilesListsAccepted(rows, files, i);
    }
    AllPresentAddsNothing(once, files);
  }

  /** Files that are all listed already, or rejected, change nothing. */
  lemma {:induction false} AllPresentAddsNothing(rows: seq<Task>, files: seq<string>)
    requires forall i :: 0 <= i < |files| && Accepted(files[i]) ==> Listed(rows, files[i])
    ensures AddFiles(rows, files) == rows
    decreases |files|
  {
    if |files| > 0 {
      assert AddFile(rows, files[0]) == rows;
      assert forall i :: 0 <= i < |files| - 1 ==> files[1..][i] == files[i + 1];
      AllPresentAddsNothing(rows, files[1..]);
    }
  }
}
