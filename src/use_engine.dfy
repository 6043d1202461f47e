/** The text the USE tool is given when a set of snapshots is checked
    against a model (`pyalaocl/useocl/useengine.py`): the batch driver
    that loads and checks each state file in turn, and the shell command
    that runs it. Running the command, the temporary files and reading
    the output back are not part of this model. */
module UseEngine {
  import opened Wrappers
  import opened Text

  /** The three driver commands for one state file. */
  function FileCommands(file: string): seq<string> {
    ["reset", "open " + file, "check -d"]
  }

  /** `reduce(operator.add, groups)` without an initial value: the groups
      concatenated from the left. */
  function ConcatAll(groups: seq<seq<string>>): (r: Result<seq<string>>)
    ensures r.Err? <==> groups == []
  {
    if groups == [] then Err(TypeError("reduce() of empty sequence with no initial value"))
    else Ok(Concat(groups))
  }

  /** The left fold of `+` over at least one group. */
  function Concat(groups: seq<seq<string>>): seq<string>
    requires groups != []
  {
    if |groups| == 1 then groups[0]
    else Concat(groups[..|groups| - 1]) + groups[|groups| - 1]
  }

  /** The lines of `__generateSoilValidationDriver`: the commands of every
      file, then `quit`. */
  function DriverLines(files: seq<string>): (r: Result<seq<string>>)
  {
    var commands :- ConcatAll(seq(|files|, i requires 0 <= i < |files| => FileCommands(files[i])));
    Ok(commands + ["quit"])
  }

  /** The driver text: its lines joined by line breaks. */
  function Driver(files: seq<string>): (r: Result<string>)
  {
    var lines :- DriverLines(files);
    Ok(Join(lines, "\n"))
  }

  /** The commands of the first `n` files, concatenated, are three lines
      per file in submission order. */
  lemma {:induction false} CommandsLayout(files: seq<string>, n: nat)
    requires 1 <= n <= |files|
    ensures var groups := seq(|files|, i requires 0 <= i < |files| => FileCommands(files[i]));
      var c := Concat(groups[..n]);
      |c| == 3 * n &&
      forall i :: 0 <= i < n ==>
        c[3 * i] == "reset" && c[3 * i + 1] == "open " + files[i] && c[3 * i + 2] == "check -d"
  {
    var groups := seq(|files|, i requires 0 <= i < |files| => FileCommands(files[i]));
    if n > 1 {
      CommandsLayout(files, n - 1);
      assert groups[..n][..n - 1] == groups[..n - 1];
    }
  }

  /** For at least one file the driver has `3n + 1` lines: `reset`,
      `open <file>`, `check -d` for each file in order, then `quit`; with
      no file, `reduce` raises `TypeError`. */
  lemma DriverLayout(files: seq<string>)
    ensures DriverLines(files).Err? <==> files == []
    ensures files == [] ==> DriverLines(files).error.TypeError?
    ensures files != [] ==>
      var lines := DriverLines(files).value;
      |lines| == 3 * |files| + 1 && lines[3 * |files|] == "quit" &&
      forall i :: 0 <= i < |files| ==>
        lines[3 * i] == "reset" && lines[3 * i + 1] == "open " + files[i] && lines[3 * i + 2] == "check -d"
  {
    if files != [] {
      CommandsLayout(files, |files|);
      var groups := seq(|files|, i requires 0 <= i < |files| => FileCommands(files[i]));
      assert groups[..|files|] == groups;
    }
  }

  /** When no file name holds a line break, the driver text splits back
      into exactly the driver lines. */
  lemma DriverSplitsIntoLines(files: seq<string>)
    requires files != []
    requires forall i :: 0 <= i < |files| ==> '\n' !in files[i]
    ensures Driver(files).Ok? && Split(Driver(files).value, "\n") == DriverLines(files).value
  {
    DriverLayout(files);
    var lines := DriverLines(files).value;
    forall k | 0 <= k < |lines| ensures '\n' !in lines[k] {
      if k < 3 * |files| {
        var i := k / 3;
        assert k == 3 * i || k == 3 * i + 1 || k == 3 * i + 2;
        if k == 3 * i + 1 {
          assert lines[k] == "open " + files[i];
        }
      }
    }
    SplitJoin(lines, '\n');
  }

  /** The batch command `<use> -nogui <model> <driver> ><output> 2>&1`. */
  function Command(useCommand: string, modelFile: string, driverFile: string, outputFile: string): string {
    useCommand + " -nogui " + modelFile + " " + driverFile + " >" + outputFile + " 2>&1"
  }

  /** With paths free of spaces the command is six words: the tool, the
      `-nogui` flag, the model, the driver, the redirection of the output
      and the redirection of the errors into it. */
  lemma CommandWords(useCommand: string, modelFile: string, driverFile: string, outputFile: string)
    requires ' ' !in useCommand && ' ' !in modelFile && ' ' !in driverFile && ' ' !in outputFile
    ensures Split(Command(useCommand, modelFile, driverFile, outputFile), " ") ==
      [useCommand, "-nogui", modelFile, driverFile, ">" + outputFile, "2>&1"]
  {
    var words := [useCommand, "-nogui", modelFile, driverFile, ">" + outputFile, "2>&1"];
    assert Join(words[4..], " ") == ">" + outputFile + " " + "2>&1";
    assert Join(words[3..], " ") == driverFile + " " + Join(words[4..], " ");
    assert Join(words[2..], " ") == modelFile + " " + Join(words[3..], " ");
    assert Join(words[1..], " ") == "-nogui" + " " + Join(words[2..], " ");
    assert Join(words, " ") == Command(useCommand, modelFile, driverFile, outputFile);
    assert ' ' !in ">" + outputFile;
    SplitJoin(words, ' ');
  }

  /** The analysis command `<use> -nogui <model> <soil> ><output> 2><errors>`
      of `analyzeUSEModel`, whose SOIL file is the helper that prints the
      model's information and quits. */
  function AnalyzeCommand(useCommand: string, useFile: string, soilFile: string,
                          outputFile: string, errorsFile: string): string {
    useCommand + " -nogui " + useFile + " " + soilFile + " >" + outputFile + " 2>" + errorsFile
  }

  /** With paths free of spaces the analysis command is six words: the tool,
      the `-nogui` flag, the model, the helper SOIL file and the two
      redirections, the errors going to a file of their own. */
  lemma AnalyzeCommandWords(useCommand: string, useFile: string, soilFile: string,
                            outputFile: string, errorsFile: string)
    requires ' ' !in useCommand && ' ' !in useFile && ' ' !in soilFile
    requires ' ' !in outputFile && ' ' !in errorsFile
    ensures Split(AnalyzeCommand(useCommand, useFile, soilFile, outputFile, errorsFile), " ") ==
      [useCommand, "-nogui", useFile, soilFile, ">" + outputFile, "2>" + errorsFile]
  {
    var words := [useCommand, "-nogui", useFile, soilFile, ">" + outputFile, "2>" + errorsFile];
    AnalyzeCommandJoin(useCommand, useFile, soilFile, outputFile, errorsFile);
    assert ' ' !in ">" + outputFile;
    assert ' ' !in "2>" + errorsFile;
    SplitJoin(words, ' ');
  }

  /** The analysis command is its six words joined by spaces. */
  lemma AnalyzeCommandJoin(useCommand: string, useFile: string, soilFile: string,
                           outputFile: string, errorsFile: string)
    ensures Join([useCommand, "-nogui", useFile, soilFile, ">" + outputFile, "2>" + errorsFile], " ") ==
      AnalyzeCommand(useCommand, useFile, soilFile, outputFile, errorsFile)
  {
    var redirections := " >" + outputFile + " 2>" + errorsFile;
    var words := [">" + outputFile, "2>" + errorsFile];
    JoinCons(">" + outputFile, ["2>" + errorsFile], " ");
    assert Join(words, " ") == redirections[1..];
    var fromSoil := soilFile + redirections;
    JoinCons(soilFile, words, " ");
    assert Join([soilFile] + words, " ") == fromSoil;
    var fromModel := useFile + " " + fromSoil;
    JoinCons(useFile, [soilFile] + words, " ");
    assert [useFile] + ([soilFile] + words) == [useFile, soilFile] + words;
    var fromFlag := "-nogui " + fromModel;
    JoinCons("-nogui", [useFile, soilFile] + words, " ");
    assert ["-nogui"] + ([useFile, soilFile] + words) == ["-nogui", useFile, soilFile] + words;
    JoinCons(useCommand, ["-nogui", useFile, soilFile] + words, " ");
    assert [useCommand] + (["-nogui", useFile, soilFile] + words) ==
      [useCommand, "-nogui", useFile, soilFile, ">" + outputFile, "2>" + errorsFile];
    assert Join([useCommand, "-nogui", useFile, soilFile, ">" + outputFile, "2>" + errorsFile], " ") ==
      useCommand + " " + fromFlag;
    assert useCommand + " -nogui " + useFile + " " + soilFile + redirections ==
      AnalyzeCommand(useCommand, useFile, soilFile, outputFile, errorsFile);
  }

  /** What `evaluateSoilFilesWithUSEModel` returns: `outAndErr`, which is
      `None` after a non-zero exit code and the whole transcript otherwise. */
  function BatchReturn(exitCode: int, transcript: string): (r: Option<string>)
    ensures r.None? <==> exitCode != 0
    ensures r.Some? ==> r.value == transcript
  {
    if exitCode != 0 then None else Some(transcript)
  }
}
