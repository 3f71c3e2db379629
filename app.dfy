/**
 * The batch driver of the tool: the list of files to process, adding to and
 * clearing it, and processing every file in order while counting successes.
 */
module App {
  import opened Pipeline
  import opened Paths

  /** One line of the result list: the written file's name, or the source file's name and the error. */
  datatype ResultLine = Succeeded(outputName: string) | FailedLine(inputName: string, error: string)

  /** What a press of the start button produces. */
  datatype Report =
    | NoFiles  // the list was empty: a warning is shown and nothing is processed
    | Finished(lines: seq<ResultLine>, successCount: nat, total: nat)

  /** The result line for one processed file. */
  function LineFor(file: string, r: ProcessResult): (line: ResultLine)
    ensures line.Succeeded? <==> r.Written?
    ensures line.Succeeded? ==> line.outputName == Basename(r.path)
    ensures line.FailedLine? ==> line.inputName == Basename(file) && line.error == r.message
  {
    match r
    case Written(p) => Succeeded(Basename(p))
    case Failed(m) => FailedLine(Basename(file), m)
  }

  /** A per-file step applied to every file, in order. */
  function ProcessAll(process: string -> ProcessResult, files: seq<string>): (rs: seq<ProcessResult>)
    ensures |rs| == |files|
    ensures forall k :: 0 <= k < |files| ==> rs[k] == process(files[k])
  {
    if files == [] then []
    else ProcessAll(process, files[..|files| - 1]) + [process(files[|files| - 1])]
  }

  /** process_image applied to every file, in order. */
  function BatchResults(cfg: Config, codec: Codec, files: seq<string>): (rs: seq<ProcessResult>)
    ensures |rs| == |files|
  {
    ProcessAll(path => ProcessImage(cfg, codec, path), files)
  }

  /** The k-th result is process_image of the k-th file. */
  lemma BatchResultsAt(cfg: Config, codec: Codec, files: seq<string>, k: nat)
    requires k < |files|
    ensures BatchResults(cfg, codec, files)[k] == ProcessImage(cfg, codec, files[k])
  {
    var process := path => ProcessImage(cfg, codec, path);
    assert ProcessAll(process, files)[k] == process(files[k]);
  }

  /** The result lines for the files and their results, in order. */
  function BatchLines(files: seq<string>, results: seq<ProcessResult>): (lines: seq<ResultLine>)
    requires |results| == |files|
    ensures |lines| == |files|
    ensures forall k :: 0 <= k < |files| ==> lines[k] == LineFor(files[k], results[k])
  {
    if files == [] then []
    else BatchLines(files[..|files| - 1], results[..|files| - 1]) + [LineFor(files[|files| - 1], results[|files| - 1])]
  }

  /** How many results are written files. */
  function CountWritten(rs: seq<ProcessResult>): (n: nat)
    ensures n <= |rs|
    ensures n == |rs| <==> forall i :: 0 <= i < |rs| ==> rs[i].Written?
  {
    if rs == [] then 0
    else CountWritten(rs[..|rs| - 1]) + (if rs[|rs| - 1].Written? then 1 else 0)
  }

  /** How many result lines report a success. */
  function CountSucceeded(lines: seq<ResultLine>): (n: nat)
    ensures n <= |lines|
  {
    if lines == [] then 0
    else CountSucceeded(lines[..|lines| - 1]) + (if lines[|lines| - 1].Succeeded? then 1 else 0)
  }

  lemma CountWrittenAppend(rs: seq<ProcessResult>, r: ProcessResult)
    ensures CountWritten(rs + [r]) == CountWritten(rs) + (if r.Written? then 1 else 0)
  {
    assert (rs + [r])[..|rs|] == rs;
  }

  /** The count of success lines equals the count of written files. */
  lemma {:induction false} SucceededLinesMatchWritten(files: seq<string>, results: seq<ProcessResult>)
    requires |results| == |files|
    ensures CountSucceeded(BatchLines(files, results)) == CountWritten(results)
  {
    if files != [] {
      var n := |files| - 1;
      var lines := BatchLines(files, results);
      assert lines[..n] == BatchLines(files[..n], results[..n]);
      SucceededLinesMatchWritten(files[..n], results[..n]);
    }
  }

  /**
   * The lines of a batch: one per file, in input order, each a success line
   * naming the written file exactly when that file's result is a written file,
   * a failure line naming that file and carrying its error otherwise; the number of success lines is the success count,
   * which is at most the number of files.
   */
  lemma BatchLinesFacts(files: seq<string>, results: seq<ProcessResult>)
    requires |results| == |files|
    ensures var lines := BatchLines(files, results);
      && |lines| == |files|
      && (forall i :: 0 <= i < |files| ==> (lines[i].Succeeded? <==> results[i].Written?))
      && (forall i :: 0 <= i < |files| && lines[i].Succeeded? ==> lines[i].outputName == Basename(results[i].path))
      && (forall i :: 0 <= i < |files| && lines[i].FailedLine? ==>
            lines[i].inputName == Basename(files[i]) && lines[i].error == results[i].message)
      && CountSucceeded(lines) == CountWritten(results) <= |files|
  {
    SucceededLinesMatchWritten(files, results);
  }

  /** Processing one more file extends the results and the lines by that file's entry. */
  lemma BatchStep(cfg: Config, codec: Codec, files: seq<string>, i: nat,
                  results: seq<ProcessResult>, lines: seq<ResultLine>)
    requires i < |files|
    requires results == BatchResults(cfg, codec, files[..i])
    requires lines == BatchLines(files[..i], results)
    ensures var r := ProcessImage(cfg, codec, files[i]);
      && BatchResults(cfg, codec, files[..i + 1]) == results + [r]
      && BatchLines(files[..i + 1], results + [r]) == lines + [LineFor(files[i], r)]
  {
    var prefix := files[..i + 1];
    assert prefix[..i] == files[..i];
    assert (results + [ProcessImage(cfg, codec, files[i])])[..i] == results;
  }

  class ImageProcessorApp {
    /** The files waiting to be processed, in the order they were added. */
    var files: seq<string>

    constructor ()
      ensures files == []
    {
      files := [];
    }

    /** add_files: the files picked in the dialog are appended to the list. */
    method AddFiles(chosen: seq<string>)
      modifies this
      ensures files == old(files) + chosen
    {
      if chosen != [] {
        files := files + chosen;
      }
    }

    /** clear_list: the list becomes empty. */
    method ClearList()
      modifies this
      ensures files == []
    {
      files := [];
    }

    /**
     * process_images: with an empty list, only a warning; otherwise every
     * file is processed in order, one result line per file, successes are
     * counted, and the list is emptied.
     */
    method ProcessImages(cfg: Config, codec: Codec) returns (report: Report)
      modifies this
      ensures files == []
      ensures old(files) == [] ==> report == NoFiles
      ensures old(files) != [] ==>
        var results := BatchResults(cfg, codec, old(files));
        report == Finished(BatchLines(old(files), results), CountWritten(results), |old(files)|)
    {
      if files == [] {
        report := NoFiles;
        return;
      }
      var queue := files;
      var total := |queue|;
      var successCount := 0;
      var lines: seq<ResultLine> := [];
      ghost var results: seq<ProcessResult> := [];
      for i := 0 to total
        invariant results == BatchResults(cfg, codec, queue[..i])
        invariant lines == BatchLines(queue[..i], results)
        invariant successCount == CountWritten(results)
      {
        var filePath := queue[i];
        var r := ProcessImage(cfg, codec, filePath);
        CountWrittenAppend(results, r);
        BatchStep(cfg, codec, queue, i, results, lines);
        if r.Written? {
          lines := lines + [Succeeded(Basename(r.path))];
          successCount := successCount + 1;
        } else {
          lines := lines + [FailedLine(Basename(filePath), r.message)];
        }
        results := results + [r];
      }
      assert queue[..total] == queue;
      report := Finished(lines, successCount, total);
      files := [];
    }
  }
}
