/** Errors attached to a source file (`pyalaocl/utils/errors.py`): a
    plain error carries a message, a localized one also a line, a column
    and an optional file name. Building either kind registers it in the
    error list of its source file. */
module SourceErrors {
  import opened Wrappers
  import opened Text

  datatype SourceError =
    | SourceError(message: string)
    | LocalizedError(message: string, line: int, column: int, fileName: Option<string>)

  /** An entry of a source file's error list. The canonical-form parser
      appends plain message strings to the same list as error objects. */
  datatype ErrorEntry = ErrorObject(error: SourceError) | ErrorText(text: string)

  /** The part of a source file that errors use: its name, its lines and
      its error list. Reading the file is not part of this model: the
      text is given. */
  class SourceFile {
    var fileName: string
    var sourceLines: seq<string>
    var errors: seq<ErrorEntry>

    constructor(fileName: string, text: string)
      ensures this.fileName == fileName && sourceLines == SplitLines(text) && errors == []
    {
      this.fileName := fileName;
      sourceLines := SplitLines(text);
      errors := [];
    }

    /** `addError`: appends, keeping the earlier entries. */
    method AddError(e: ErrorEntry)
      modifies this
      ensures errors == old(errors) + [e]
      ensures fileName == old(fileName) && sourceLines == old(sourceLines)
    {
      errors := errors + [e];
    }

    /** `addError` for each entry in turn. */
    method AddErrors(es: seq<ErrorEntry>)
      modifies this
      ensures errors == old(errors) + es
      ensures fileName == old(fileName) && sourceLines == old(sourceLines)
    {
      errors := errors + es;
    }
  }

  /** The `SourceError` constructor: the new error is appended once to
      the error list of its source file. */
  method NewSourceError(sourceFile: SourceFile, message: string) returns (e: SourceError)
    modifies sourceFile
    ensures e == SourceError(message)
    ensures sourceFile.errors == old(sourceFile.errors) + [ErrorObject(e)]
    ensures sourceFile.fileName == old(sourceFile.fileName) && sourceFile.sourceLines == old(sourceFile.sourceLines)
  {
    e := SourceError(message);
    sourceFile.AddError(ErrorObject(e));
  }

  /** The `LocalizedError` constructor: it registers itself through the
      base constructor, once, and keeps line, column and file name as
      given. */
  method NewLocalizedError(sourceFile: SourceFile, message: string, line: int, column: int, fileName: Option<string>)
    returns (e: SourceError)
    modifies sourceFile
    ensures e == LocalizedError(message, line, column, fileName)
    ensures sourceFile.errors == old(sourceFile.errors) + [ErrorObject(e)]
    ensures sourceFile.fileName == old(sourceFile.fileName) && sourceFile.sourceLines == old(sourceFile.sourceLines)
  {
    e := LocalizedError(message, line, column, fileName);
    sourceFile.AddError(ErrorObject(e));
  }

  /** `str(x)` of an optional string: `None` prints as `None`. */
  function OptionText(s: Option<string>): string {
    if s.Some? then s.value else "None"
  }

  /** The text of an error (`__str__`): the default description
      `ERROR:{message}` of a plain error, `file:line:column: message` for
      a localized one. */
  function Str(e: SourceError): (r: string)
    ensures e.SourceError? ==> r == "ERROR:" + e.message
    ensures e.LocalizedError? ==>
      r == OptionText(e.fileName) + ":" + IntToString(e.line) + ":" + IntToString(e.column) + ": " + e.message
  {
    match e
    case SourceError(message) => PlainDescription(message)
    case LocalizedError(message, line, column, fileName) => LocationText(message, line, column, fileName)
  }

  /** `SourceError.description()` with its default pattern. */
  function PlainDescription(message: string): string {
    "ERROR:" + message
  }

  /** `{file}:{line}:{column}: {message}`, the default pattern of a
      localized error's description and the text of its `__str__`. */
  function LocationText(message: string, line: int, column: int, fileName: Option<string>): string {
    OptionText(fileName) + ":" + IntToString(line) + ":" + IntToString(column) + ": " + message
  }

  /** One list entry per character: what `list += str` adds in Python. */
  function Chars(s: string): (r: seq<string>)
    ensures |r| == |s|
    ensures forall i :: 0 <= i < |s| ==> r[i] == [s[i]]
  {
    seq(|s|, i requires 0 <= i < |s| => [s[i]])
  }

  /** The line under the source line that marks the error column with
      `|` and pads with `_`. */
  function CursorLine(sourceLine: string, column: int): (r: string)
    ensures 1 <= column <= |sourceLine| ==> |r| == |sourceLine| && r[column - 1] == '|'
  {
    Repeat("_", column - 1) + "|" + Repeat("_", |sourceLine| - column)
  }

  /** The source lines shown before the cursor line. */
  function LinesBefore(sourceLines: seq<string>, line: int, linesBefore: int): seq<string> {
    if linesBefore >= 1 then
      PySlice(sourceLines, if line - linesBefore > 0 then line - linesBefore else 0, line)
    else []
  }

  /** The source lines shown after the cursor line. */
  function LinesAfter(sourceLines: seq<string>, line: int, linesAfter: int): seq<string> {
    if linesAfter != 0 then
      PySlice(sourceLines, line - 1, if |sourceLines| - 1 > line + linesAfter - 1 then |sourceLines| - 1 else line + linesAfter - 1)
    else []
  }

  /** `LocalizedError.description` with its default pattern, as written:
      the cursor line and the error text are added to the list of lines
      with `+=`, which adds them one character at a time, so each of
      their characters ends up on a line of its own. The source line
      under the cursor is read at `max(0, line - 1)`, which raises
      `IndexError` past the end of the file. */
  function LocalizedDescription(e: SourceError, sourceLines: seq<string>, showSource: bool, linesBefore: int, linesAfter: int)
    : (r: Result<string>)
    requires e.LocalizedError?
    ensures !showSource ==> r == Ok(Join(Chars(Str(e)), "\n"))
    ensures showSource ==> (r.Err? <==> !(0 <= (if e.line - 1 > 0 then e.line - 1 else 0) < |sourceLines|))
  {
    var error := Chars(LocationText(e.message, e.line, e.column, e.fileName));
    if !showSource then Ok(Join(error, "\n"))
    else
      var cursorIndex := if e.line - 1 > 0 then e.line - 1 else 0;
      if cursorIndex >= |sourceLines| then Err(IndexError)
      else
        var cursor := CursorLine(sourceLines[cursorIndex], e.column);
        Ok(Join(LinesBefore(sourceLines, e.line, linesBefore) + Chars(cursor) +
                LinesAfter(sourceLines, e.line, linesAfter) + error, "\n"))
  }

  /** The description the method evidently means to build: the cursor
      line and the error text each on one line. */
  function IntendedLocalizedDescription(e: SourceError, sourceLines: seq<string>, showSource: bool, linesBefore: int, linesAfter: int)
    : (r: Result<string>)
    requires e.LocalizedError?
    ensures showSource ==> (r.Err? <==> !(0 <= (if e.line - 1 > 0 then e.line - 1 else 0) < |sourceLines|))
  {
    var error := LocationText(e.message, e.line, e.column, e.fileName);
    if !showSource then Ok(error)
    else
      var cursorIndex := if e.line - 1 > 0 then e.line - 1 else 0;
      if cursorIndex >= |sourceLines| then Err(IndexError)
      else
        var cursor := CursorLine(sourceLines[cursorIndex], e.column);
        Ok(Join(LinesBefore(sourceLines, e.line, linesBefore) + [cursor] +
                LinesAfter(sourceLines, e.line, linesAfter) + [error], "\n"))
  }

  /** The last line of a joined list is its last element when no
      element holds the separator. */
  lemma {:induction false} JoinLast(parts: seq<string>, last: string)
    requires '\n' !in last
    ensures Split(Join(parts + [last], "\n"), "\n")[|Split(Join(parts + [last], "\n"), "\n")| - 1] == last
    decreases |parts|
  {
    if |parts| == 0 {
      assert parts + [last] == [last];
      NoNewlineSplit(last);
    } else {
      var rest := parts[1..] + [last];
      assert parts + [last] == [parts[0]] + rest;
      JoinLast(parts[1..], last);
      var j := Join(rest, "\n");
      assert Join(parts + [last], "\n") == parts[0] + "\n" + j;
      SplitAfterNewline(parts[0], j);
    }
  }

  lemma NoNewlineSplit(s: string)
    requires '\n' !in s
    ensures Split(s, "\n") == [s]
  {
    NoOccurrence(s, '\n');
  }

  /** Splitting `a + "\n" + b` ends with the pieces of `b`. */
  lemma {:induction false} SplitAfterNewline(a: string, b: string)
    ensures var p := Split(a + "\n" + b, "\n"); var q := Split(b, "\n"); p[|p| - 1] == q[|q| - 1]
    decreases |a|
  {
    var s := a + "\n" + b;
    match Find(s, "\n", 0)
    case None =>
      assert OccursAt(s, "\n", |a|) by { assert s[|a|..|a| + 1] == "\n"; }
    case Some(i) =>
      if i < |a| {
        assert s[i..] == a[i..] + "\n" + b;
        assert s[i + 1..] == a[i + 1..] + "\n" + b;
        SplitAfterNewline(a[i + 1..], b);
      } else {
        if i > |a| {
          assert OccursAt(s, "\n", |a|) by { assert s[|a|..|a| + 1] == "\n"; }
          assert false;
        }
        assert s[i + 1..] == b;
      }
  }

  /** The lines of an intended description before its location text. */
  function IntendedFront(e: SourceError, sourceLines: seq<string>, linesBefore: int, linesAfter: int): (r: seq<string>)
    requires e.LocalizedError?
    requires 0 <= (if e.line - 1 > 0 then e.line - 1 else 0) < |sourceLines|
    ensures IntendedLocalizedDescription(e, sourceLines, true, linesBefore, linesAfter) == Ok(Join(r + [Str(e)], "\n"))
  {
    var cursorIndex := if e.line - 1 > 0 then e.line - 1 else 0;
    var cursor := CursorLine(sourceLines[cursorIndex], e.column);
    LinesBefore(sourceLines, e.line, linesBefore) + [cursor] + LinesAfter(sourceLines, e.line, linesAfter)
  }

  /** A localized error's intended description ends with its location
      text, the same line as its `__str__`; without the source part it
      is that line alone. */
  lemma IntendedDescriptionEndsWithStr(e: SourceError, sourceLines: seq<string>, showSource: bool, linesBefore: int, linesAfter: int)
    requires e.LocalizedError? && '\n' !in Str(e)
    ensures var r := IntendedLocalizedDescription(e, sourceLines, showSource, linesBefore, linesAfter);
      r.Ok? ==> var lines := Split(r.value, "\n"); lines[|lines| - 1] == Str(e)
    ensures !showSource ==> IntendedLocalizedDescription(e, sourceLines, showSource, linesBefore, linesAfter) == Ok(Str(e))
  {
    var r := IntendedLocalizedDescription(e, sourceLines, showSource, linesBefore, linesAfter);
    if r.Ok? {
      if showSource {
        var front := IntendedFront(e, sourceLines, linesBefore, linesAfter);
        JoinLast(front, Str(e));
      } else {
        NoNewlineSplit(Str(e));
      }
    }
  }

  /** As written, a description without the source part puts every
      character of the location text on a line of its own. */
  lemma {:induction false} DescriptionOneCharacterPerLine(e: SourceError, sourceLines: seq<string>, linesBefore: int, linesAfter: int)
    requires e.LocalizedError? && '\n' !in Str(e)
    ensures LocalizedDescription(e, sourceLines, false, linesBefore, linesAfter).Ok?
    ensures Split(LocalizedDescription(e, sourceLines, false, linesBefore, linesAfter).value, "\n") == Chars(Str(e))
  {
    var parts := Chars(Str(e));
    forall i | 0 <= i < |parts| ensures '\n' !in parts[i] {
      assert parts[i] == [Str(e)[i]];
      assert Str(e)[i] in Str(e);
    }
    SplitJoin(parts, '\n');
  }

  /** For the error `m` at line 1, column 2 of file `f`, the text
      `f:1:2: m` comes out over eight lines. */
  lemma DescriptionLinesExample()
    ensures var e := LocalizedError("m", 1, 2, Some("f"));
      Str(e) == "f:1:2: m" &&
      |Split(LocalizedDescription(e, [], false, 1, 0).value, "\n")| == 8
  {
    var e := LocalizedError("m", 1, 2, Some("f"));
    assert IntToString(1) == "1" && IntToString(2) == "2";
    assert Str(e) == "f:1:2: m";
    DescriptionOneCharacterPerLine(e, [], 1, 0);
  }
}
