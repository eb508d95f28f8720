/**
 * The per-file choices of src/components/DiffViewer.tsx over the files
 * `parseDiff` produced: the change counts, the file to scroll to, the path
 * to link, whether a file starts open and the heading it shows.
 */
module DiffViewer {
  import opened Wrappers

  /** A diff line; `kind` is its `type` ("insert", "delete", "normal", ...). */
  datatype Line = Line(kind: string)

  /** A hunk: its `type` and its `lines`, which may be missing. */
  datatype Hunk = Hunk(kind: string, lines: Option<seq<Line>>)

  /** A parsed file. */
  datatype File = File(oldPath: string, newPath: string, hunks: seq<Hunk>)

  const DevNull := "/dev/null"

  /** A hunk `calculateStats` looks into: of type "hunk" and with lines. */
  predicate Counted(h: Hunk)
  {
    h.kind == "hunk" && h.lines.Some?
  }

  /** The lines of type `kind`. */
  function LinesOfKind(lines: seq<Line>, kind: string): nat
    decreases |lines|
  {
    if lines == [] then 0
    else LinesOfKind(lines[..|lines| - 1], kind) + (if lines[|lines| - 1].kind == kind then 1 else 0)
  }

  /** The lines of type `kind` in the counted hunks. */
  function CountKind(hunks: seq<Hunk>, kind: string): nat
    decreases |hunks|
  {
    if hunks == [] then 0
    else
      var h := hunks[|hunks| - 1];
      CountKind(hunks[..|hunks| - 1], kind) + (if Counted(h) then LinesOfKind(h.lines.value, kind) else 0)
  }

  /** All the lines of the counted hunks. */
  function CountedLines(hunks: seq<Hunk>): nat
    decreases |hunks|
  {
    if hunks == [] then 0
    else
      var h := hunks[|hunks| - 1];
      CountedLines(hunks[..|hunks| - 1]) + (if Counted(h) then |h.lines.value| else 0)
  }

  datatype Stats = Stats(additions: nat, deletions: nat)

  /** `calculateStats(file)`: two counters bumped in nested `forEach` loops. */
  method CalculateStats(file: File) returns (stats: Stats)
    ensures stats.additions == CountKind(file.hunks, "insert")
    ensures stats.deletions == CountKind(file.hunks, "delete")
  {
    var additions := 0;
    var deletions := 0;
    var i := 0;
    while i < |file.hunks|
      invariant 0 <= i <= |file.hunks|
      invariant additions == CountKind(file.hunks[..i], "insert")
      invariant deletions == CountKind(file.hunks[..i], "delete")
    {
      var hunk := file.hunks[i];
      assert file.hunks[..i + 1][..i] == file.hunks[..i];
      if hunk.kind == "hunk" && hunk.lines.Some? {
        var lines := hunk.lines.value;
        var j := 0;
        var a0, d0 := additions, deletions;
        while j < |lines|
          invariant 0 <= j <= |lines|
          invariant additions == a0 + LinesOfKind(lines[..j], "insert")
          invariant deletions == d0 + LinesOfKind(lines[..j], "delete")
        {
          assert lines[..j + 1][..j] == lines[..j];
          if lines[j].kind == "insert" {
            additions := additions + 1;
          }
          if lines[j].kind == "delete" {
            deletions := deletions + 1;
          }
          j := j + 1;
        }
        assert lines[..j] == lines;
      }
      i := i + 1;
    }
    assert file.hunks[..i] == file.hunks;
    stats := Stats(additions, deletions);
  }

  lemma {:induction false} LinesBounded(lines: seq<Line>)
    ensures LinesOfKind(lines, "insert") + LinesOfKind(lines, "delete") <= |lines|
    decreases |lines|
  {
    if lines != [] {
      LinesBounded(lines[..|lines| - 1]);
    }
  }

  /** Additions and deletions together never exceed the lines of the counted hunks. */
  lemma {:induction false} StatsBounded(hunks: seq<Hunk>)
    ensures CountKind(hunks, "insert") + CountKind(hunks, "delete") <= CountedLines(hunks)
    decreases |hunks|
  {
    if hunks != [] {
      StatsBounded(hunks[..|hunks| - 1]);
      var h := hunks[|hunks| - 1];
      if Counted(h) {
        LinesBounded(h.lines.value);
      }
    }
  }

  /** The counts of two runs of hunks add up: each hunk contributes on its own. */
  lemma {:induction false} CountAppend(a: seq<Hunk>, b: seq<Hunk>, kind: string)
    ensures CountKind(a + b, kind) == CountKind(a, kind) + CountKind(b, kind)
    decreases |b|
  {
    if b == [] {
      assert a + b == a;
    } else {
      assert (a + b)[..|a + b| - 1] == a + b[..|b| - 1];
      CountAppend(a, b[..|b| - 1], kind);
    }
  }

  /** A hunk that is not of type "hunk", or has no lines, contributes nothing. */
  lemma UncountedAddsNothing(hunks: seq<Hunk>, h: Hunk, kind: string)
    requires !Counted(h)
    ensures CountKind(hunks + [h], kind) == CountKind(hunks, kind)
  {
    assert (hunks + [h])[..|hunks|] == hunks;
  }

  predicate Matches(f: File, path: string)
  {
    f.newPath == path || f.oldPath == path
  }

  /** `files.findIndex(...)`: the first file whose new or old path is `path`, or -1. */
  function FindIndex(files: seq<File>, path: string): (r: int)
    ensures -1 <= r < |files|
    ensures r == -1 <==> forall i :: 0 <= i < |files| ==> !Matches(files[i], path)
    ensures r >= 0 ==> Matches(files[r], path) && forall i :: 0 <= i < r ==> !Matches(files[i], path)
    decreases |files|
  {
    if files == [] then -1
    else if Matches(files[0], path) then 0
    else
      var r := FindIndex(files[1..], path);
      if r == -1 then -1 else r + 1
  }

  /** `targetIndex`: -1 without a (non-empty) `scrollToFile`. */
  function TargetIndex(files: seq<File>, scrollToFile: Option<string>): (r: int)
    ensures !Truthy(scrollToFile) ==> r == -1
    ensures Truthy(scrollToFile) ==> r == FindIndex(files, scrollToFile.value)
  {
    if !Truthy(scrollToFile) then -1 else FindIndex(files, scrollToFile.value)
  }

  /** `linkPath`: the old path of a deleted file, the new path otherwise. */
  function LinkPath(f: File): (p: string)
    ensures f.newPath == DevNull ==> p == f.oldPath
    ensures f.newPath != DevNull ==> p == f.newPath
  {
    if f.newPath == DevNull then f.oldPath else f.newPath
  }

  /** Whether the "Full file diff" link is offered: a link path and a URL builder. */
  predicate OffersFullDiff(f: File, hasUrlBuilder: bool)
  {
    LinkPath(f) != "" && hasUrlBuilder
  }

  /** `defaultOpen` of the file at `index`. */
  predicate DefaultOpen(files: seq<File>, scrollToFile: Option<string>, index: int)
    requires 0 <= index < |files|
  {
    index == TargetIndex(files, scrollToFile) || files[index].newPath != DevNull
  }

  /**
   * The target file starts open; any other file starts open exactly when
   * it is not deleted.
   */
  lemma OpenFiles(files: seq<File>, scrollToFile: Option<string>, index: int)
    requires 0 <= index < |files|
    ensures index == TargetIndex(files, scrollToFile) ==> DefaultOpen(files, scrollToFile, index)
    ensures index != TargetIndex(files, scrollToFile) ==>
              (DefaultOpen(files, scrollToFile, index) <==> files[index].newPath != DevNull)
  {
  }

  /** A deleted file is open only when it is the file asked for. */
  lemma DeletedFileOpensOnlyAsTarget(files: seq<File>, scrollToFile: Option<string>, index: int)
    requires 0 <= index < |files| && files[index].newPath == DevNull
    ensures DefaultOpen(files, scrollToFile, index) <==>
              Truthy(scrollToFile) && index == FindIndex(files, scrollToFile.value)
  {
  }

  /** What the heading shows: one path, or the old path and where it went. */
  datatype Heading = SamePath(path: string) | Moved(from: string, to: string)

  function HeadingOf(f: File): (h: Heading)
    ensures f.oldPath == f.newPath ==> h == SamePath(f.newPath)
    ensures f.oldPath != f.newPath ==> h.Moved? && h.from == f.oldPath
    ensures f.oldPath != f.newPath && f.newPath == DevNull ==> h.to == "DELETED"
    ensures f.oldPath != f.newPath && f.newPath != DevNull ==> h.to == f.newPath
  {
    if f.oldPath == f.newPath then SamePath(f.newPath)
    else Moved(f.oldPath, if f.newPath == DevNull then "DELETED" else f.newPath)
  }

  /**
   * When the paths differ, "DELETED" is shown for a deleted file, and
   * otherwise only for a file whose new path is itself "DELETED".
   */
  lemma DeletedLabel(f: File)
    requires f.oldPath != f.newPath
    ensures HeadingOf(f).to == "DELETED" <==> f.newPath == DevNull || f.newPath == "DELETED"
  {
  }
}
