/** Errors of a USE specification (`pyalaocl/useocl/errors.py`): a plain
    error has a message; a localized one also a file name, a line, a
    column and the source line it points into, taken from the
    specification's lines when the error is built. */
module UseErrors {
  import opened Wrappers
  import opened Text

  datatype UseOclError =
    | UseOclError(message: string)
    | LocalizedError(message: string, filename: string, line: int, column: int, sourceLine: string)

  /** The `LocalizedError` constructor. The source line is empty past the
      last line of the specification and `source_lines[line - 1]`
      otherwise: Python counts a negative index from the end, so line 0
      shows the last line, and raises `IndexError` when there is no line
      at all. */
  function NewLocalizedError(sourceLines: seq<string>, message: string, filename: string, line: int, column: int)
    : (r: Result<UseOclError>)
    ensures r.Ok? ==> r.value.LocalizedError?
    ensures r.Ok? ==> r.value.message == message && r.value.filename == filename && r.value.line == line && r.value.column == column
    ensures line > |sourceLines| ==> r.Ok? && r.value.sourceLine == ""
    ensures 1 <= line <= |sourceLines| ==> r.Ok? && r.value.sourceLine == sourceLines[line - 1]
    ensures line == 0 && |sourceLines| > 0 ==> r.Ok? && r.value.sourceLine == sourceLines[|sourceLines| - 1]
    ensures r.Err? <==> line < 1 - |sourceLines|
    ensures r.Err? ==> r.error == IndexError
  {
    if line > |sourceLines| then Ok(LocalizedError(message, filename, line, column, ""))
    else
      var sourceLine :- PyIndex(sourceLines, line - 1);
      Ok(LocalizedError(message, filename, line, column, sourceLine))
  }

  /** The line under the source line: `column - 1` spaces and a caret. */
  function Caret(column: int): (r: string)
    ensures column >= 1 ==> |r| == column && r[column - 1] == '^'
    ensures forall i :: 0 <= i < |r| - 1 ==> r[i] == ' '
  {
    RepeatSpaces(column - 1);
    Repeat(" ", column - 1) + "^"
  }

  /** `file:line:column: message` */
  function LocationText(filename: string, line: int, column: int, message: string): string {
    filename + ":" + IntToString(line) + ":" + IntToString(column) + ": " + message
  }

  /** `str(error)`: `ERROR:` and the message for a plain error; for a
      localized one the source line, the caret line and the location
      text, one per line. */
  function Str(e: UseOclError): (r: string)
    ensures e.UseOclError? ==> r == "ERROR:" + e.message
  {
    match e
    case UseOclError(message) => "ERROR:" + message
    case LocalizedError(message, filename, line, column, sourceLine) =>
      Join([sourceLine, Caret(column), LocationText(filename, line, column, message)], "\n")
  }

  lemma {:induction false} RepeatSpaces(n: int)
    ensures forall i :: 0 <= i < |Repeat(" ", n)| ==> Repeat(" ", n)[i] == ' '
    decreases if n < 0 then 0 else n
  {
    if n > 0 {
      RepeatSpaces(n - 1);
      assert Repeat(" ", n) == " " + Repeat(" ", n - 1);
    }
  }

  lemma NoNewlineInNumber(n: int)
    ensures '\n' !in IntToString(n)
  {
  }

  /** A localized error prints as exactly three lines when its parts hold
      no line break: the source line, the caret under the column, and
      the location text. */
  lemma LocalizedStrLines(e: UseOclError)
    requires e.LocalizedError?
    requires '\n' !in e.sourceLine && '\n' !in e.filename && '\n' !in e.message
    ensures Split(Str(e), "\n") == [e.sourceLine, Caret(e.column), LocationText(e.filename, e.line, e.column, e.message)]
  {
    var caret := Caret(e.column);
    var location := LocationText(e.filename, e.line, e.column, e.message);
    assert '\n' !in caret by {
      assert forall i :: 0 <= i < |caret| ==> caret[i] != '\n';
    }
    NoNewlineInNumber(e.line);
    NoNewlineInNumber(e.column);
    assert '\n' !in location;
    SplitJoin([e.sourceLine, caret, location], '\n');
  }
}
