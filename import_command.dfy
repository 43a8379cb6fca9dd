/**
 * The `import_incidents_from_csvs` management command: a loop over the
 * input paths that announces each one, hands the abandoned-vehicle files to
 * their importer and skips every other file, then writes one summary line.
 *
 * Standard output is the `stdout` field (one entry per written line); the
 * importer's CSV reading is not modelled, only which paths reach it
 * (`imported`) and whether `pd.read_csv` of a path raises, which is the
 * parameter `readable`. A raising read ends the whole command: no later
 * path is handled and no summary is written. The elapsed time is read
 * from a clock and so is a parameter, already formatted with two decimals.
 */
module ImportCommand {
  import opened Common

  /** The only file name ending the command knows how to import. */
  const VehiclesSuffix := "abandoned-vehicles.csv"

  const SkipLine := "File cannot be processed, skipping."
  const VehiclesLine := "Getting requests for abandoned vehicles"

  const ProcessingPrefix := "Processing file "
  const SummaryPrefix := "Finished " + "importing competing products prices data data, took "

  function ProcessingLine(path: string): string {
    ProcessingPrefix + path
  }

  function SummaryLine(took: string): string {
    SummaryPrefix + took + " seconds"
  }

  /** The dispatch test: a case-sensitive suffix match on the whole path. */
  predicate IsVehiclesFile(path: string) {
    EndsWith(path, VehiclesSuffix)
  }

  /** The two lines written for one path: the announcement, then the importer's first line or the skip notice. */
  function FileLines(path: string): seq<string> {
    [ProcessingLine(path), if IsVehiclesFile(path) then VehiclesLine else SkipLine]
  }

  /** The per-file lines for `paths`, in the order the paths were given. */
  function AllFileLines(paths: seq<string>): (r: seq<string>)
    ensures |r| == 2 * |paths|
  {
    if |paths| == 0 then [] else AllFileLines(paths[..|paths| - 1]) + FileLines(paths[|paths| - 1])
  }

  /**
   * Paths are handled in the order given: the lines for the i-th path are
   * at 2i and 2i + 1, so a skipped path does not stop the ones after it.
   */
  lemma {:induction false} LinesInOrder(paths: seq<string>, i: nat)
    requires i < |paths|
    ensures AllFileLines(paths)[2 * i] == ProcessingLine(paths[i])
    ensures AllFileLines(paths)[2 * i + 1] == (if IsVehiclesFile(paths[i]) then VehiclesLine else SkipLine)
  {
    var init := paths[..|paths| - 1];
    if i < |paths| - 1 {
      LinesInOrder(init, i);
      assert init[i] == paths[i];
    }
  }

  /** A path whose import raises: it is handed to the importer, and reading it as CSV fails. */
  predicate Unreadable(path: string, readable: string -> bool) {
    IsVehiclesFile(path) && !readable(path)
  }

  /** The position of the first path whose import raises, if any (see `FirstUnreadableIsFirst`). */
  function FirstUnreadable(paths: seq<string>, readable: string -> bool): (r: Option<nat>)
    ensures r.Some? ==> r.value < |paths|
  {
    if |paths| == 0 then None
    else
      var r := FirstUnreadable(paths[..|paths| - 1], readable);
      if r.Some? then r
      else if Unreadable(paths[|paths| - 1], readable) then Some(|paths| - 1)
      else None
  }

  /**
   * `FirstUnreadable` finds the first path whose import raises, and finds
   * none only when every import succeeds.
   */
  lemma {:induction false} FirstUnreadableIsFirst(paths: seq<string>, readable: string -> bool)
    ensures var r := FirstUnreadable(paths, readable);
            && (r.Some? ==> Unreadable(paths[r.value], readable))
            && (r.Some? ==> forall j :: 0 <= j < r.value ==> !Unreadable(paths[j], readable))
            && (r.None? ==> forall j :: 0 <= j < |paths| ==> !Unreadable(paths[j], readable))
  {
    if |paths| > 0 {
      var init := paths[..|paths| - 1];
      FirstUnreadableIsFirst(init, readable);
      assert forall j :: 0 <= j < |init| ==> init[j] == paths[j];
    }
  }

  /** The paths `handle` reaches: all of them, or those up to and including the first whose import raises. */
  function Handled(paths: seq<string>, readable: string -> bool): seq<string> {
    match FirstUnreadable(paths, readable)
    case None => paths
    case Some(k) => paths[..k + 1]
  }

  /**
   * Everything `handle` writes: the lines of the paths it reaches, then the
   * summary only when no import raised. The path whose read raises has
   * already been announced, and so has the importer.
   */
  function Output(paths: seq<string>, readable: string -> bool, took: string): seq<string> {
    if FirstUnreadable(paths, readable).None? then AllFileLines(paths) + [SummaryLine(took)]
    else AllFileLines(Handled(paths, readable))
  }

  /**
   * Once the first path is found unreadable, every path before it has
   * been handled in full, and its own lines end the output.
   */
  lemma {:induction false} FirstUnreadableAt(paths: seq<string>, readable: string -> bool, i: nat)
    requires i < |paths| && FirstUnreadable(paths[..i], readable).None? && Unreadable(paths[i], readable)
    ensures FirstUnreadable(paths, readable) == Some(i)
  {
    var init := paths[..|paths| - 1];
    if i < |paths| - 1 {
      assert init[..i] == paths[..i] && init[i] == paths[i];
      FirstUnreadableAt(init, readable, i);
    } else {
      assert init == paths[..i];
    }
  }

  /** Handling one more path adds its two lines, and the path itself when it is imported. */
  lemma HandledStep(paths: seq<string>, i: nat)
    requires i < |paths|
    ensures AllFileLines(paths[..i + 1]) == AllFileLines(paths[..i]) + FileLines(paths[i])
    ensures Imported(paths[..i + 1]) == Imported(paths[..i]) + (if IsVehiclesFile(paths[i]) then [paths[i]] else [])
  {
    assert paths[..i + 1][..i] == paths[..i];
  }

  /** When no import raises, every path is handled and the summary follows. */
  lemma AllReadableOutput(paths: seq<string>, readable: string -> bool, took: string)
    requires FirstUnreadable(paths, readable).None?
    ensures Output(paths, readable, took) == AllFileLines(paths) + [SummaryLine(took)]
    ensures Handled(paths, readable) == paths
  {
  }

  /** A path whose import succeeds, or that is skipped, keeps the handled prefix free of failures. */
  lemma FirstUnreadableExtend(paths: seq<string>, readable: string -> bool, i: nat)
    requires i < |paths| && FirstUnreadable(paths[..i], readable).None? && !Unreadable(paths[i], readable)
    ensures FirstUnreadable(paths[..i + 1], readable).None?
  {
    assert paths[..i + 1][..i] == paths[..i];
  }

  /**
   * An import that raises ends the command: nothing is written for the
   * later paths and there is no summary; the output ends with that path's
   * announcement and the importer's.
   */
  lemma UnreadableFileStopsCommand(paths: seq<string>, readable: string -> bool, took: string, k: nat)
    requires FirstUnreadable(paths, readable) == Some(k)
    ensures Output(paths, readable, took) == AllFileLines(paths[..k]) + [ProcessingLine(paths[k]), VehiclesLine]
    ensures |Output(paths, readable, took)| == 2 * k + 2
    ensures SummaryLine(took) !in Output(paths, readable, took)
    ensures Imported(Handled(paths, readable)) == Imported(paths[..k]) + [paths[k]]
  {
    UnreadableHandled(paths, readable, k);
    FirstUnreadableFound(paths, readable, k);
    HandledStep(paths, k);
    SummaryNotAFileLine(paths[..k + 1], took);
  }

  /** The paths reached when the k-th import raises: those up to the k-th. */
  lemma UnreadableHandled(paths: seq<string>, readable: string -> bool, k: nat)
    requires FirstUnreadable(paths, readable) == Some(k)
    ensures k < |paths| && Handled(paths, readable) == paths[..k + 1]
  {
  }

  /** The position `FirstUnreadable` returns is a path whose import raises. */
  lemma {:induction false} FirstUnreadableFound(paths: seq<string>, readable: string -> bool, k: nat)
    requires FirstUnreadable(paths, readable) == Some(k)
    ensures k < |paths| && Unreadable(paths[k], readable)
  {
    var init := paths[..|paths| - 1];
    if FirstUnreadable(init, readable).Some? {
      FirstUnreadableFound(init, readable, k);
      assert init[k] == paths[k];
    }
  }

  /** The paths handed to `import_abandoned_vehicles`, in order (see `ImportedFiles`). */
  function Imported(paths: seq<string>): seq<string> {
    if |paths| == 0 then []
    else
      var init := Imported(paths[..|paths| - 1]);
      if IsVehiclesFile(paths[|paths| - 1]) then init + [paths[|paths| - 1]] else init
  }

  /** Exactly the paths ending in the vehicles suffix are imported, and none twice over. */
  lemma {:induction false} ImportedFiles(paths: seq<string>)
    ensures |Imported(paths)| <= |paths|
    ensures forall p :: p in Imported(paths) <==> p in paths && IsVehiclesFile(p)
  {
    if |paths| > 0 {
      ImportedFiles(paths[..|paths| - 1]);
      assert paths == paths[..|paths| - 1] + [paths[|paths| - 1]];
    }
  }

  /** No per-file line can be mistaken for the summary, whatever the paths are called. */
  lemma {:induction false} SummaryNotAFileLine(paths: seq<string>, took: string)
    ensures SummaryLine(took) !in AllFileLines(paths)
  {
    if |paths| > 0 {
      SummaryNotAFileLine(paths[..|paths| - 1], took);
      var summary := SummaryLine(took);
      var last := FileLines(paths[|paths| - 1]);
      assert summary[0] == SummaryPrefix[0] == 'F' && summary[2] == SummaryPrefix[2] == 'n';
      assert last[0][0] == ProcessingPrefix[0] == 'P';
      assert VehiclesLine[0] == 'G' && SkipLine[2] == 'l';
      assert last == [last[0], last[1]];
      assert last[1] == VehiclesLine || last[1] == SkipLine;
    }
  }

  /**
   * The summary is written once, as the last line, when every import
   * succeeds, and not at all when one raises.
   */
  lemma SummaryWrittenOnce(paths: seq<string>, readable: string -> bool, took: string)
    ensures FirstUnreadable(paths, readable).None? ==>
              Output(paths, readable, took)[|Output(paths, readable, took)| - 1] == SummaryLine(took)
    ensures Count(Output(paths, readable, took), SummaryLine(took)) == if FirstUnreadable(paths, readable).None? then 1 else 0
  {
    var summary := SummaryLine(took);
    var handled := Handled(paths, readable);
    SummaryNotAFileLine(handled, took);
    CountAbsent(AllFileLines(handled), summary);
    if FirstUnreadable(paths, readable).None? {
      CountAppend(AllFileLines(paths), [summary], summary);
      assert [summary][1..] == [];
    }
  }

  /** The importer announces itself once per imported file and never for a skipped one. */
  lemma {:induction false} ImporterLinePerImportedFile(paths: seq<string>)
    ensures Count(AllFileLines(paths), VehiclesLine) == |Imported(paths)|
  {
    if |paths| > 0 {
      var last := paths[|paths| - 1];
      ImporterLinePerImportedFile(paths[..|paths| - 1]);
      CountAppend(AllFileLines(paths[..|paths| - 1]), FileLines(last), VehiclesLine);
      var two := FileLines(last);
      assert two[0][0] == ProcessingPrefix[0];
      assert two[0] != VehiclesLine && SkipLine != VehiclesLine;
      assert two[1..] == [two[1]] && two[1..][1..] == [];
      assert Count(two[1..], VehiclesLine) == (if two[1] == VehiclesLine then 1 else 0) + Count(two[1..][1..], VehiclesLine);
    }
  }

  /** Suffix matching is exact and case-sensitive. */
  lemma SuffixMatchExamples()
    ensures IsVehiclesFile("x-abandoned-vehicles.csv")
    ensures IsVehiclesFile("abandoned-vehicles.csv")
    ensures !IsVehiclesFile("abandoned-vehicles.CSV")
    ensures !IsVehiclesFile("abandoned-vehicles.csv.bak")
    ensures !IsVehiclesFile("graffiti.csv")
  {
    assert "x-abandoned-vehicles.csv"[2..] == VehiclesSuffix;
    assert "abandoned-vehicles.csv"[0..] == VehiclesSuffix;
    DiffersAt("abandoned-vehicles.CSV", VehiclesSuffix, 19);
    DiffersAt("abandoned-vehicles.csv.bak", VehiclesSuffix, 0);
  }

  /** One differing character in the last `|suffix|` positions rules the suffix out. */
  lemma DiffersAt(s: string, suffix: string, i: nat)
    requires |suffix| <= |s| && i < |suffix| && s[|s| - |suffix| + i] != suffix[i]
    ensures !EndsWith(s, suffix)
  {
    assert s[|s| - |suffix|..][i] == s[|s| - |suffix| + i];
  }

  /** The command object and the stream it writes to. */
  class Command {
    var stdout: seq<string>
    var imported: seq<string>

    constructor ()
      ensures stdout == [] && imported == []
    {
      stdout := [];
      imported := [];
    }

    method Write(line: string)
      modifies this
      ensures stdout == old(stdout) + [line] && imported == old(imported)
    {
      stdout := stdout + [line];
    }

    /**
     * `import_abandoned_vehicles`: announces itself, then reads the file;
     * `ok` is false when the read raises. The CSV rows it then prints are
     * not modelled.
     */
    method ImportAbandonedVehicles(path: string, readable: string -> bool) returns (ok: bool)
      modifies this
      ensures ok == readable(path)
      ensures stdout == old(stdout) + [VehiclesLine] && imported == old(imported) + [path]
    {
      Write(VehiclesLine);
      imported := imported + [path];
      ok := readable(path);
    }

    /**
     * One turn of the loop in `handle`: the announcement, then the import
     * or the skip notice. `ok` is false when the import raised, after its
     * line was written.
     */
    method HandleFile(path: string, readable: string -> bool) returns (ok: bool)
      modifies this
      ensures ok == !Unreadable(path, readable)
      ensures stdout == old(stdout) + FileLines(path)
      ensures imported == old(imported) + (if IsVehiclesFile(path) then [path] else [])
    {
      Write(ProcessingLine(path));
      if IsVehiclesFile(path) {
        ok := ImportAbandonedVehicles(path, readable);
      } else {
        Write(SkipLine);
        ok := true;
      }
    }

    /**
     * The loop of `handle`: every path in turn, until an import raises;
     * `failed` is the path whose read raised.
     */
    method HandleFiles(paths: seq<string>, readable: string -> bool) returns (failed: Option<string>)
      modifies this
      ensures failed == match FirstUnreadable(paths, readable) case None => None case Some(k) => Some(paths[k])
      ensures stdout == old(stdout) + AllFileLines(Handled(paths, readable))
      ensures imported == old(imported) + Imported(Handled(paths, readable))
    {
      for i := 0 to |paths|
        invariant FirstUnreadable(paths[..i], readable).None?
        invariant stdout == old(stdout) + AllFileLines(paths[..i])
        invariant imported == old(imported) + Imported(paths[..i])
      {
        HandledStep(paths, i);
        var ok := HandleFile(paths[i], readable);
        if !ok {
          FirstUnreadableAt(paths, readable, i);
          return Some(paths[i]);
        }
        FirstUnreadableExtend(paths, readable, i);
      }
      assert paths[..|paths|] == paths;
      AllReadableOutput(paths, readable, "");
      return None;
    }

    /**
     * `handle`: the loop over the paths, then the summary, which an import
     * that raised leaves unwritten.
     */
    method Handle(paths: seq<string>, readable: string -> bool, took: string) returns (failed: Option<string>)
      modifies this
      ensures failed == match FirstUnreadable(paths, readable) case None => None case Some(k) => Some(paths[k])
      ensures stdout == old(stdout) + Output(paths, readable, took)
      ensures imported == old(imported) + Imported(Handled(paths, readable))
    {
      failed := HandleFiles(paths, readable);
      if failed.None? {
        AllReadableOutput(paths, readable, took);
        Write(SummaryLine(took));
      }
    }
  }
}
