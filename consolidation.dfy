/**
 * The consolidation script: read each listed extract in order, skip the
 * ones that are not there, stop at any other read failure, and concatenate
 * what was read into one frame labelled 0 .. n - 1. Reading a file is a
 * parameter `read` giving the outcome of `pd.read_excel` for each name.
 */
module Consolidation {
  import opened Results
  import opened Frames

  /** The extracts the script reads, in the order it reads them. */
  const FileNames: seq<string> := ["mock_monthly_data.xlsx", "mock_last_week_data.xlsx", "mock_this_week_data.xlsx"]

  /** How reading one file ended: a frame, FileNotFoundError, or any other exception. */
  datatype ReadOutcome = Loaded(frame: Frame) | FileNotFound | ReadError(reason: string)

  /** The exceptions that end the script. */
  datatype ProcessError =
    | ReadFailed(file: string, reason: string)  // a read failure other than a missing file
    | NoObjectsToConcatenate                    // `pd.concat([])` raises ValueError

  // ---------------------------------------------------------------------
  // Reading and collecting

  /**
   * The frames the loop collects from `files`: each loaded frame in list
   * order, nothing for a missing file, and the first other failure ends it.
   */
  function Collect(files: seq<string>, read: string -> ReadOutcome): (r: Result<seq<Frame>, ProcessError>)
  {
    if files == [] then Success([])
    else
      var last := files[|files| - 1];
      match Collect(files[..|files| - 1], read)
      case Failure(e) => Failure(e)
      case Success(frames) =>
        match read(last)
        case Loaded(f) => Success(frames + [f])
        case FileNotFound => Success(frames)
        case ReadError(reason) => Failure(ReadFailed(last, reason))
  }

  /** The read-and-collect loop, appending to `list_of_dfs`. */
  method CollectFrames(files: seq<string>, read: string -> ReadOutcome) returns (r: Result<seq<Frame>, ProcessError>)
    ensures r == Collect(files, read)
  {
    var listOfDfs: seq<Frame> := [];
    for i := 0 to |files|
      invariant Collect(files[..i], read) == Success(listOfDfs)
    {
      var file := files[i];
      assert files[..i + 1][..i] == files[..i];
      match read(file)
      case Loaded(df) =>
        listOfDfs := listOfDfs + [df];
      case FileNotFound =>
        // the script prints a warning and goes on with the next file
      case ReadError(reason) =>
        CollectAppend(files[..i + 1], files[i + 1..], read);
        assert files[..i + 1] + files[i + 1..] == files;
        return Failure(ReadFailed(file, reason));
    }
    assert files[..|files|] == files;
    return Success(listOfDfs);
  }

  /** The positions in `files` whose read loaded a frame, in increasing order. */
  function LoadedPositions(files: seq<string>, read: string -> ReadOutcome): (ps: seq<int>)
    ensures |ps| <= |files|
    ensures forall j :: 0 <= j < |ps| ==> 0 <= ps[j] < |files| && read(files[ps[j]]).Loaded?
    ensures forall j, k :: 0 <= j < k < |ps| ==> ps[j] < ps[k]
    ensures forall i :: 0 <= i < |files| && read(files[i]).Loaded? ==> i in ps
  {
    if files == [] then []
    else
      var n := |files| - 1;
      var prefix := files[..n];
      assert forall i :: 0 <= i < n ==> files[i] == prefix[i];
      LoadedPositions(prefix, read) + (if read(files[n]).Loaded? then [n] else [])
  }

  /**
   * When the loop finishes, it has collected exactly the loaded frames:
   * one per loaded file, in the files' order, and no more than were listed.
   */
  lemma {:induction false} CollectKeepsLoadedInOrder(files: seq<string>, read: string -> ReadOutcome)
    requires Collect(files, read).Success?
    ensures var frames := Collect(files, read).value; var ps := LoadedPositions(files, read);
      && |frames| == |ps| <= |files|
      && forall j :: 0 <= j < |ps| ==> read(files[ps[j]]) == Loaded(frames[j])
  {
    if files != [] {
      var n := |files| - 1;
      var prefix := files[..n];
      CollectKeepsLoadedInOrder(prefix, read);
      assert forall i :: 0 <= i < n ==> files[i] == prefix[i];
    }
  }

  /**
   * The loop fails exactly when some read fails other than by a missing
   * file, and then with the first such file's failure.
   */
  lemma {:induction false} CollectFailsAtFirstError(files: seq<string>, read: string -> ReadOutcome)
    ensures Collect(files, read).Failure? <==> exists i :: 0 <= i < |files| && read(files[i]).ReadError?
    ensures Collect(files, read).Failure? ==>
      exists i :: && 0 <= i < |files| && read(files[i]).ReadError?
                  && (forall j :: 0 <= j < i ==> !read(files[j]).ReadError?)
                  && Collect(files, read).error == ReadFailed(files[i], read(files[i]).reason)
  {
    if files != [] {
      var n := |files| - 1;
      var prefix := files[..n];
      CollectFailsAtFirstError(prefix, read);
      assert forall i :: 0 <= i < n ==> files[i] == prefix[i];
      if Collect(prefix, read).Success? && read(files[n]).ReadError? {
        assert forall j :: 0 <= j < n ==> !read(files[j]).ReadError?;
      }
    }
  }

  /** Collecting from `a + b` is collecting from `a`, then from `b`. */
  lemma {:induction false} CollectAppend(a: seq<string>, b: seq<string>, read: string -> ReadOutcome)
    ensures Collect(a + b, read) ==
      match Collect(a, read)
      case Failure(e) => Failure(e)
      case Success(x) =>
        match Collect(b, read)
        case Failure(e) => Failure(e)
        case Success(y) => Success(x + y)
    decreases |b|
  {
    if b == [] {
      assert a + b == a;
      if Collect(a, read).Success? {
        assert Collect(a, read).value + [] == Collect(a, read).value;
      }
    } else {
      var n := |b| - 1;
      assert (a + b)[..|a + b| - 1] == a + b[..n];
      CollectAppend(a, b[..n], read);
      match Collect(a, read)
      case Failure(e) =>
      case Success(x) =>
        match Collect(b[..n], read)
        case Failure(e) =>
        case Success(y) =>
          if read(b[n]).Loaded? {
            assert x + y + [read(b[n]).frame] == x + (y + [read(b[n]).frame]);
          }
    }
  }

  /** A missing file changes nothing: the loop goes on as if it were not listed. */
  lemma SkipsMissingFile(a: seq<string>, file: string, b: seq<string>, read: string -> ReadOutcome)
    requires read(file) == FileNotFound
    ensures Collect(a + [file] + b, read) == Collect(a + b, read)
  {
    CollectAppend(a + [file], b, read);
    CollectAppend(a, [file], read);
    CollectAppend(a, b, read);
    assert [file][..0] == [];
    if Collect(a, read).Success? {
      assert Collect(a, read).value + [] == Collect(a, read).value;
    }
  }

  // ---------------------------------------------------------------------
  // Concatenation

  /** The rows of all frames added up. */
  function TotalRows(frames: seq<Frame>): (n: nat) {
    if frames == [] then 0 else |frames[0].rows| + TotalRows(frames[1..])
  }

  /** The frames' rows one after another, in list order. */
  function ConcatRows(frames: seq<Frame>): (rows: seq<Row>)
    ensures |rows| == TotalRows(frames)
  {
    if frames == [] then [] else frames[0].rows + ConcatRows(frames[1..])
  }

  /** Row `k` of frame `j` is row `k` after all rows of the frames before `j`. */
  lemma {:induction false} ConcatRowAt(frames: seq<Frame>, j: int, k: int)
    requires 0 <= j < |frames| && 0 <= k < |frames[j].rows|
    ensures TotalRows(frames[..j]) + k < TotalRows(frames)
    ensures ConcatRows(frames)[TotalRows(frames[..j]) + k] == frames[j].rows[k]
  {
    if j > 0 {
      ConcatRowAt(frames[1..], j - 1, k);
      assert frames[..j][1..] == frames[1..][..j - 1];
    }
  }

  /** Concatenation is associative: the rows of `a + b` are those of `a`, then those of `b`. */
  lemma {:induction false} ConcatRowsAppend(a: seq<Frame>, b: seq<Frame>)
    ensures ConcatRows(a + b) == ConcatRows(a) + ConcatRows(b)
    ensures TotalRows(a + b) == TotalRows(a) + TotalRows(b)
  {
    if a != [] {
      ConcatRowsAppend(a[1..], b);
      assert (a + b)[1..] == a[1..] + b;
    } else {
      assert a + b == b;
    }
  }

  /**
   * `pd.concat(frames, ignore_index=True)`: all rows in list order with the
   * labels 0 .. n - 1; an empty list raises ValueError.
   */
  function Concat(frames: seq<Frame>): (r: Result<Frame, ProcessError>)
    ensures r.Failure? <==> frames == []
    ensures r.Failure? ==> r.error == NoObjectsToConcatenate
    ensures r.Success? ==> r.value.rows == ConcatRows(frames) && |r.value.rows| == TotalRows(frames)
    ensures r.Success? ==> |r.value.index| == |r.value.rows| && forall k :: 0 <= k < |r.value.index| ==> r.value.index[k] == k
  {
    if frames == [] then Failure(NoObjectsToConcatenate) else Success(FromRecords(ConcatRows(frames)))
  }

  /** The labels of the inputs play no part: frames with the same rows concatenate alike. */
  lemma {:induction false} ConcatIgnoresIndex(a: seq<Frame>, b: seq<Frame>)
    requires |a| == |b| && forall j :: 0 <= j < |a| ==> a[j].rows == b[j].rows
    ensures Concat(a) == Concat(b)
  {
    RowsOnly(a, b);
  }

  lemma {:induction false} RowsOnly(a: seq<Frame>, b: seq<Frame>)
    requires |a| == |b| && forall j :: 0 <= j < |a| ==> a[j].rows == b[j].rows
    ensures ConcatRows(a) == ConcatRows(b)
  {
    if a != [] {
      RowsOnly(a[1..], b[1..]);
    }
  }

  // ---------------------------------------------------------------------
  // The script

  /** What the script ends with: the master frame, or the exception that stopped it. */
  function Consolidated(files: seq<string>, read: string -> ReadOutcome): (r: Result<Frame, ProcessError>)
  {
    match Collect(files, read)
    case Failure(e) => Failure(e)
    case Success(frames) => Concat(frames)
  }

  /** The script: collect from the fixed file list, then concatenate. */
  method ProcessAbData(read: string -> ReadOutcome) returns (r: Result<Frame, ProcessError>)
    ensures r == Consolidated(FileNames, read)
  {
    var collected := CollectFrames(FileNames, read);
    if collected.Failure? {
      return Failure(collected.error);
    }
    r := Concat(collected.value);
  }

  /** The frames of the files that loaded, in file order. */
  function LoadedFrames(files: seq<string>, read: string -> ReadOutcome): (frames: seq<Frame>)
    ensures |frames| <= |files|
  {
    if files == [] then []
    else (if read(files[0]).Loaded? then [read(files[0]).frame] else []) + LoadedFrames(files[1..], read)
  }

  lemma {:induction false} LoadedFramesAppend(a: seq<string>, b: seq<string>, read: string -> ReadOutcome)
    ensures LoadedFrames(a + b, read) == LoadedFrames(a, read) + LoadedFrames(b, read)
  {
    if a == [] {
      assert a + b == b;
    } else {
      var head := if read(a[0]).Loaded? then [read(a[0]).frame] else [];
      LoadedFramesAppend(a[1..], b, read);
      assert (a + b)[0] == a[0] && (a + b)[1..] == a[1..] + b;
      assert LoadedFrames(a + b, read) == head + LoadedFrames(a[1..] + b, read);
      assert head + (LoadedFrames(a[1..], read) + LoadedFrames(b, read))
          == (head + LoadedFrames(a[1..], read)) + LoadedFrames(b, read);
    }
  }

  /** No frame loaded exactly when no file loaded. */
  lemma {:induction false} LoadedFramesEmpty(files: seq<string>, read: string -> ReadOutcome)
    ensures LoadedFrames(files, read) == [] <==> forall i :: 0 <= i < |files| ==> !read(files[i]).Loaded?
  {
    if files != [] {
      LoadedFramesEmpty(files[1..], read);
      assert forall i :: 1 <= i < |files| ==> files[i] == files[1..][i - 1];
    }
  }

  /** A loop that runs to the end has collected exactly the loaded frames. */
  lemma {:induction false} CollectIsLoadedFrames(files: seq<string>, read: string -> ReadOutcome)
    requires Collect(files, read).Success?
    ensures Collect(files, read).value == LoadedFrames(files, read)
  {
    if files != [] {
      var n := |files| - 1;
      CollectIsLoadedFrames(files[..n], read);
      LoadedFramesAppend(files[..n], [files[n]], read);
      assert files[..n] + [files[n]] == files;
      assert [files[n]][1..] == [];
    }
  }

  /**
   * For any read outcomes: the script succeeds exactly when no read fails
   * other than by a missing file and at least one file loads, and the master
   * frame then holds the loaded frames' rows in file order, labelled 0 .. n - 1.
   */
  lemma ConsolidatedRows(files: seq<string>, read: string -> ReadOutcome)
    ensures Consolidated(files, read).Success? <==>
      && (forall i :: 0 <= i < |files| ==> !read(files[i]).ReadError?)
      && (exists i :: 0 <= i < |files| && read(files[i]).Loaded?)
    ensures Consolidated(files, read).Success? ==>
      Consolidated(files, read).value == FromRecords(ConcatRows(LoadedFrames(files, read)))
  {
    CollectFailsAtFirstError(files, read);
    LoadedFramesEmpty(files, read);
    if Collect(files, read).Success? {
      CollectIsLoadedFrames(files, read);
    }
  }

  /** Nothing guards the case where every file is missing: `pd.concat` then raises. */
  lemma NothingFound(files: seq<string>, read: string -> ReadOutcome)
    requires forall i :: 0 <= i < |files| ==> read(files[i]) == FileNotFound
    ensures Consolidated(files, read) == Failure(NoObjectsToConcatenate)
  {
    CollectFailsAtFirstError(files, read);
    CollectKeepsLoadedInOrder(files, read);
  }

  /**
   * Three listed files, the first missing: the master frame holds the
   * second file's rows, then the third's, relabelled 0 .. n - 1.
   */
  lemma FirstFileMissing(read: string -> ReadOutcome, lastWeek: Frame, thisWeek: Frame)
    requires read(FileNames[0]) == FileNotFound
    requires read(FileNames[1]) == Loaded(lastWeek) && read(FileNames[2]) == Loaded(thisWeek)
    ensures Consolidated(FileNames, read) == Success(FromRecords(lastWeek.rows + thisWeek.rows))
  {
    var f0, f1, f2 := FileNames[0], FileNames[1], FileNames[2];
    assert [f0][..0] == [] && [f0, f1][..1] == [f0] && [f0, f1, f2][..2] == [f0, f1];
    assert Collect([f0], read) == Success([]);
    assert [] + [lastWeek] == [lastWeek] && [lastWeek] + [thisWeek] == [lastWeek, thisWeek];
    assert Collect([f0, f1], read) == Success([lastWeek]);
    assert Collect([f0, f1, f2], read) == Success([lastWeek, thisWeek]);
    assert FileNames == [f0, f1, f2];
    assert ConcatRows([lastWeek, thisWeek]) == lastWeek.rows + (thisWeek.rows + []);
    assert thisWeek.rows + [] == thisWeek.rows;
  }

  /** All three listed files present: the master frame holds their rows in list order. */
  lemma AllFilesLoaded(read: string -> ReadOutcome, monthly: Frame, lastWeek: Frame, thisWeek: Frame)
    requires read(FileNames[0]) == Loaded(monthly)
    requires read(FileNames[1]) == Loaded(lastWeek) && read(FileNames[2]) == Loaded(thisWeek)
    ensures Consolidated(FileNames, read) == Success(FromRecords(monthly.rows + lastWeek.rows + thisWeek.rows))
  {
    var f0, f1, f2 := FileNames[0], FileNames[1], FileNames[2];
    assert [f0][..0] == [] && [f0, f1][..1] == [f0] && [f0, f1, f2][..2] == [f0, f1];
    assert [] + [monthly] == [monthly] && [monthly] + [lastWeek] == [monthly, lastWeek];
    assert [monthly, lastWeek] + [thisWeek] == [monthly, lastWeek, thisWeek];
    assert Collect([f0], read) == Success([monthly]);
    assert Collect([f0, f1], read) == Success([monthly, lastWeek]);
    assert Collect([f0, f1, f2], read) == Success([monthly, lastWeek, thisWeek]);
    assert FileNames == [f0, f1, f2];
    assert [monthly, lastWeek, thisWeek][1..] == [lastWeek, thisWeek] && [lastWeek, thisWeek][1..] == [thisWeek];
    assert ConcatRows([thisWeek]) == thisWeek.rows + [] == thisWeek.rows;
    assert ConcatRows([lastWeek, thisWeek]) == lastWeek.rows + thisWeek.rows;
    assert ConcatRows([monthly, lastWeek, thisWeek]) == monthly.rows + (lastWeek.rows + thisWeek.rows)
                                                     == monthly.rows + lastWeek.rows + thisWeek.rows;
    assert Concat([monthly, lastWeek, thisWeek]) == Success(FromRecords(monthly.rows + lastWeek.rows + thisWeek.rows));
  }
}
