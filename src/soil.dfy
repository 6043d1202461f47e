/** The SOIL side of `pyalaocl/useocl/soil.py`: recognising a snapshot
    file that holds no command, and interpreting the statements of a
    snapshot, line by line, into a `State` (`UseSoilSpecification.execute`).
    File reading is left to the caller: every operation here takes the
    file's text or its lines. */
module Soil {
  import opened Wrappers
  import opened Text
  import opened CanonicalLines
  import opened OrderedMaps
  import opened SnapshotState

  predicate IsBlank(c: char) { c == ' ' }

  /** `^ *!` or `^ *open` matches at the start of this line. */
  predicate StartsCommand(line: string) {
    var (_, t) := TakeWhile(line, IsBlank);
    StartsWith(t, "!") || StartsWith(t, "open")
  }

  /** Some line starts a command. */
  function HasCommandLine(lines: seq<string>): (r: bool)
    ensures r <==> exists i :: 0 <= i < |lines| && StartsCommand(lines[i])
  {
    if lines == [] then false
    else StartsCommand(lines[0]) || HasCommandLine(lines[1..])
  }

  /** `isEmptySoilFile`, on the file's text: the multi-line search for
      `^ *!` or `^ *open` finds nothing. With `re.MULTILINE`, `^` matches
      at the start of the text and after every `\n`, that is at the start
      of every piece of `content.split('\n')`. */
  predicate IsEmptySoilFile(content: string) {
    !HasCommandLine(Split(content, "\n"))
  }

  /** A text made of lines is empty exactly when none of its lines starts
      (after spaces) with `!` or `open`. */
  lemma EmptySoilFileOfLines(lines: seq<string>)
    requires |lines| >= 1
    requires forall i :: 0 <= i < |lines| ==> '\n' !in lines[i]
    ensures IsEmptySoilFile(Join(lines, "\n")) <==> forall i :: 0 <= i < |lines| ==> !StartsCommand(lines[i])
  {
    SplitJoin(lines, '\n');
  }

  /** An empty text is an empty snapshot file. */
  lemma EmptyTextIsEmptySoilFile()
    ensures IsEmptySoilFile("")
  {
    EmptySoilFileOfLines([""]);
    assert Join([""], "\n") == "";
  }

  // ---- the statements of `execute` ---------------------------------------------------

  /** The statements `execute` recognises, with the groups its regular
      expressions capture. */
  datatype Statement =
    | CreateObject(name: string, className: string)
    | AssignAttribute(name: string, attribute: string, value: string)
    | InsertLink(objectList: string, associationName: string)
    | CreateLinkObject(name: string, className: string, objectList: string)
    | DestroyElement(name: string)
    | DeleteLink(objectList: string, associationName: string)
    | BlankLine
    | UnknownLine

  predicate IsListChar(c: char) { IsWordChar(c) || c == ',' || c == ' ' }

  /** A match of `[\w, ]+`. */
  predicate IsObjectList(s: string) { |s| > 0 && AllChars(s, IsListChar) }

  /** What follows a greedy ` *`. */
  function Skip(s: string): string { TakeWhile(s, IsBlank).1 }

  /** ` +`: the text after at least one space. */
  function Spaces(s: string): (r: Option<string>)
    ensures r.Some? <==> s != [] && IsBlank(s[0])
  {
    if s != [] && IsBlank(s[0]) then Some(Skip(s)) else None
  }

  /** `\w+`: the word and what follows it. */
  function Word(s: string): (r: Option<(string, string)>)
    ensures r.Some? ==> IsWord(r.value.0) && s == r.value.0 + r.value.1
  {
    var (w, rest) := TakeWord(s);
    if w == [] then None else Some((w, rest))
  }

  /** `[\w, ]+`: the list and what follows it. */
  function ObjectList(s: string): (r: Option<(string, string)>)
    ensures r.Some? ==> IsObjectList(r.value.0) && s == r.value.0 + r.value.1
  {
    var (l, rest) := TakeWhile(s, IsListChar);
    if l == [] then None else Some((l, rest))
  }

  /** `^ *!`: the text after the bang. */
  function AfterBang(line: string): (r: Option<string>)
  {
    Expect(Skip(line), "!")
  }

  // Parts that several patterns share; each returns its groups and the
  // text after it.

  /** `(\w+) *: *(\w+)`: a name and its class. */
  function TypedName(s: string): (r: Option<(string, string, string)>)
    ensures r.Some? ==> IsWord(r.value.0) && IsWord(r.value.1)
  {
    match Word(s)
    case None => None
    case Some((name, c)) =>
      match ColonWord(c)
      case None => None
      case Some((className, e)) => Some((name, className, e))
  }

  /** ` *: *(\w+)` */
  function ColonWord(s: string): (r: Option<(string, string)>)
    ensures r.Some? ==> IsWord(r.value.0)
  {
    match Expect(Skip(s), ":")
    case None => None
    case Some(d) => Word(Skip(d))
  }

  /** `\(([\w, ]+)\)`: the list between the parentheses. */
  function ParenList(s: string): (r: Option<(string, string)>)
    ensures r.Some? ==> IsObjectList(r.value.0)
  {
    match Expect(s, "(")
    case None => None
    case Some(a) =>
      match ObjectList(a)
      case None => None
      case Some((list, b)) =>
        match Expect(b, ")")
        case None => None
        case Some(c) => Some((list, c))
  }

  /** ` +(\w+) *$`: the name that ends a line. */
  function FinalName(s: string): (r: Option<string>)
    ensures r.Some? ==> IsWord(r.value)
  {
    match Spaces(s)
    case None => None
    case Some(a) =>
      match Word(a)
      case None => None
      case Some((name, b)) => if AllChars(b, IsBlank) then Some(name) else None
  }

  /** `create +(\w+) *: *(\w+)`, the head shared by object and link object
      creation: the two names and the rest of the line. */
  function MatchCreateHead(w: string): (r: Option<(string, string, string)>)
    ensures r.Some? ==> IsWord(r.value.0) && IsWord(r.value.1)
  {
    match Expect(w, "create")
    case None => None
    case Some(a) =>
      match Spaces(a)
      case None => None
      case Some(b) => TypedName(b)
  }

  /** `create +(\w+) *: *(\w+) *$` */
  function MatchCreate(w: string): (r: Option<(string, string)>)
    ensures r.Some? ==> IsWord(r.value.0) && IsWord(r.value.1)
  {
    match MatchCreateHead(w)
    case None => None
    case Some((name, className, e)) => if AllChars(e, IsBlank) then Some((name, className)) else None
  }

  /** `(set)? +(\w+) *\. *(\w+) *:= *(.*) *$` after the bang, whose ` *`
      comes first: the backtracking matcher first tries `set` after all
      the spaces, then a plain assignment after at least one space. */
  function MatchAssignment(u: string): (r: Option<(string, string, string)>)
    ensures r.Some? ==> IsWord(r.value.0) && IsWord(r.value.1)
  {
    var withSet :=
      match Expect(Skip(u), "set")
      case None => None
      case Some(a) =>
        match Spaces(a)
        case None => None
        case Some(t) => MatchAssignmentTail(t);
    if withSet.Some? then withSet
    else
      match Spaces(u)
      case None => None
      case Some(t) => MatchAssignmentTail(t)
  }

  /** `(\w+) *\. *(\w+) *:= *(.*) *$` */
  function MatchAssignmentTail(t: string): (r: Option<(string, string, string)>)
    ensures r.Some? ==> IsWord(r.value.0) && IsWord(r.value.1)
  {
    match Word(t)
    case None => None
    case Some((name, a)) =>
      match DottedValue(a)
      case None => None
      case Some((attribute, value)) => Some((name, attribute, value))
  }

  /** ` *\. *(\w+) *:= *(.*) *$` */
  function DottedValue(s: string): (r: Option<(string, string)>)
    ensures r.Some? ==> IsWord(r.value.0)
  {
    match Expect(Skip(s), ".")
    case None => None
    case Some(b) => AssignedValue(Skip(b))
  }

  /** `(\w+) *:= *(.*) *$`: the greedy `.*` keeps trailing spaces in the
      value. */
  function AssignedValue(s: string): (r: Option<(string, string)>)
    ensures r.Some? ==> IsWord(r.value.0)
  {
    match Word(s)
    case None => None
    case Some((attribute, c)) =>
      match Expect(Skip(c), ":=")
      case None => None
      case Some(d) => Some((attribute, Skip(d)))
  }

  /** `insert *\(([\w, ]+)\) *into +(\w+) *$` */
  function MatchInsert(w: string): (r: Option<(string, string)>)
    ensures r.Some? ==> IsObjectList(r.value.0) && IsWord(r.value.1)
  {
    match Expect(w, "insert")
    case None => None
    case Some(a) =>
      match ParenList(Skip(a))
      case None => None
      case Some((list, c)) =>
        match Expect(Skip(c), "into")
        case None => None
        case Some(e) =>
          match FinalName(e)
          case None => None
          case Some(association) => Some((list, association))
  }

  /** `create +(\w+) *: *(\w+) +between +\(([\w, ]+)\) *$` */
  function MatchCreateBetween(w: string): (r: Option<(string, string, string)>)
    ensures r.Some? ==> IsWord(r.value.0) && IsWord(r.value.1) && IsObjectList(r.value.2)
  {
    match MatchCreateHead(w)
    case None => None
    case Some((name, className, e)) =>
      match BetweenList(e)
      case None => None
      case Some(list) => Some((name, className, list))
  }

  /** ` +between +\(([\w, ]+)\) *$` */
  function BetweenList(s: string): (r: Option<string>)
    ensures r.Some? ==> IsObjectList(r.value)
  {
    match Spaces(s)
    case None => None
    case Some(f) =>
      match Expect(f, "between")
      case None => None
      case Some(g) =>
        match Spaces(g)
        case None => None
        case Some(h) =>
          match ParenList(h)
          case None => None
          case Some((list, k)) => if AllChars(k, IsBlank) then Some(list) else None
  }

  /** `destroy +(\w+) *$` */
  function MatchDestroy(w: string): (r: Option<string>)
    ensures r.Some? ==> IsWord(r.value)
  {
    match Expect(w, "destroy")
    case None => None
    case Some(a) => FinalName(a)
  }

  /** `delete *\(([\w, ]+)\) +from +(\w+) *$` */
  function MatchDelete(w: string): (r: Option<(string, string)>)
    ensures r.Some? ==> IsObjectList(r.value.0) && IsWord(r.value.1)
  {
    match Expect(w, "delete")
    case None => None
    case Some(a) =>
      match ParenList(Skip(a))
      case None => None
      case Some((list, c)) =>
        match Spaces(c)
        case None => None
        case Some(d) =>
          match Expect(d, "from")
          case None => None
          case Some(e) =>
            match FinalName(e)
            case None => None
            case Some(association) => Some((list, association))
  }

  /** The patterns of `execute`, tried in its order on the text after
      `^ *!`. */
  function ParseCommand(u: string): (r: Statement)
    ensures !r.BlankLine?
    ensures r.CreateObject? ==> IsWord(r.name) && IsWord(r.className)
    ensures r.AssignAttribute? ==> IsWord(r.name) && IsWord(r.attribute)
    ensures r.InsertLink? ==> IsObjectList(r.objectList) && IsWord(r.associationName)
    ensures r.CreateLinkObject? ==> IsWord(r.name) && IsWord(r.className) && IsObjectList(r.objectList)
    ensures r.DestroyElement? ==> IsWord(r.name)
    ensures r.DeleteLink? ==> IsObjectList(r.objectList) && IsWord(r.associationName)
  {
    var w := Skip(u);
    match MatchCreate(w)
    case Some((name, className)) => CreateObject(name, className)
    case None =>
    match MatchAssignment(u)
    case Some((name, attribute, value)) => AssignAttribute(name, attribute, value)
    case None =>
    match MatchInsert(w)
    case Some((list, association)) => InsertLink(list, association)
    case None => ParseLaterCommand(w)
  }

  /** The commands `ParseCommand` tries after `insert`, on the text after
      the blanks. */
  function ParseLaterCommand(w: string): (r: Statement)
    ensures !r.BlankLine? && !r.CreateObject? && !r.AssignAttribute? && !r.InsertLink?
    ensures r.CreateLinkObject? ==> IsWord(r.name) && IsWord(r.className) && IsObjectList(r.objectList)
    ensures r.DestroyElement? ==> IsWord(r.name)
    ensures r.DeleteLink? ==> IsObjectList(r.objectList) && IsWord(r.associationName)
  {
    match MatchCreateBetween(w)
    case Some((name, className, list)) => CreateLinkObject(name, className, list)
    case None =>
    match MatchDestroy(w)
    case Some(name) => DestroyElement(name)
    case None =>
    match MatchDelete(w)
    case Some((list, association)) => DeleteLink(list, association)
    case None => UnknownLine
  }

  /** The statement a line of a snapshot holds: a line without `^ *!` is
      blank when it matches `^ *$` and unknown otherwise. */
  function Parse(line: string): (r: Statement)
    ensures r.BlankLine? <==> AllChars(line, IsBlank)
    ensures r.CreateObject? ==> IsWord(r.name) && IsWord(r.className)
    ensures r.AssignAttribute? ==> IsWord(r.name) && IsWord(r.attribute)
    ensures r.InsertLink? ==> IsObjectList(r.objectList) && IsWord(r.associationName)
    ensures r.CreateLinkObject? ==> IsWord(r.name) && IsWord(r.className) && IsObjectList(r.objectList)
    ensures r.DestroyElement? ==> IsWord(r.name)
    ensures r.DeleteLink? ==> IsObjectList(r.objectList) && IsWord(r.associationName)
  {
    if AllChars(line, IsBlank) then BlankLine
    else
      match AfterBang(line)
      case None => UnknownLine
      case Some(u) => ParseCommand(u)
  }

  // ---- the state changes -------------------------------------------------------------

  /** `objectList.replace(' ', '').split(',')` */
  function ObjectNames(list: string): (r: seq<string>)
    ensures |r| >= 1
  {
    Split(Remove(list, ' '), ",")
  }

  /** `[state.objects[n] for n in names]`: the first missing name raises
      `KeyError`. */
  function LookupObjects(v: StateValue, names: seq<string>): (r: Result<seq<ElementRef>>)
    ensures r.Ok? <==> forall i :: 0 <= i < |names| ==> v.objects.Contains(names[i])
    ensures r.Ok? ==> |r.value| == |names|
    ensures r.Ok? ==> forall i :: 0 <= i < |names| ==> v.objects.Get(names[i]) == Some(r.value[i])
    ensures r.Err? ==> r.error.KeyError? && r.error.key in names && !v.objects.Contains(r.error.key)
  {
    if names == [] then Ok([])
    else
      match v.objects.Get(names[0])
      case None => Err(KeyError(names[0]))
      case Some(o) =>
        match LookupObjects(v, names[1..])
        case Err(e) => Err(e)
        case Ok(rest) => Ok([o] + rest)
  }

  /** A statement of `execute` applied to a state: the state after it,
      and the exception it raises, if any. As written, a matched `delete`
      deletes the link and then, lacking a `continue`, falls through to the
      blank-line test, which fails, and raises `NotImplementedError`;
      `asWritten == false` gives the `continue` it evidently lacks. */
  function Apply(v: StateValue, s: Statement, line: string, asWritten: bool): (r: (StateValue, Option<PyError>))
    requires Valid(v)
    ensures Valid(r.0)
  {
    match s
    case CreateObject(name, className) =>
      ObjectStored(v, className, name);
      (WithObject(v, className, name).0, None)
    case AssignAttribute(name, attribute, value) => ApplyAssignment(v, name, attribute, value)
    case InsertLink(list, association) => ApplyInsert(v, list, association)
    case CreateLinkObject(name, className, list) => ApplyCreateLinkObject(v, name, className, list)
    case DestroyElement(name) => ApplyDestroy(v, name)
    case DeleteLink(list, _) => ApplyDelete(v, list, line, asWritten)
    case BlankLine => (v, None)
    case UnknownLine => (v, Some(NotImplementedError(line)))
  }

  /** `set name.attribute := value` */
  function ApplyAssignment(v: StateValue, name: string, attribute: string, value: string): (r: (StateValue, Option<PyError>))
    requires Valid(v)
    ensures Valid(r.0)
  {
    match v.objects.Get(name)
    case None => (v, Some(KeyError(name)))
    case Some(o) =>
      assert (name, o) in v.objects.items;
      AttributeSet(v, o, attribute, value);
      (WithAttribute(v, o, attribute, value), None)
  }

  /** `destroy name`: an object first, then a link object. */
  function ApplyDestroy(v: StateValue, name: string): (r: (StateValue, Option<PyError>))
    requires Valid(v)
    ensures Valid(r.0)
  {
    if v.objects.Contains(name) then (v.(objects := v.objects.Remove(name)), None)
    else if v.linkObject.Contains(name) then (v.(linkObject := v.linkObject.Remove(name)), None)
    else (v, Some(KeyError(name)))
  }

  /** `delete (objectList) from associationName`: as written, the link is
      removed and the line then falls through to `NotImplementedError`. */
  function ApplyDelete(v: StateValue, list: string, line: string, asWritten: bool): (r: (StateValue, Option<PyError>))
    requires Valid(v)
    ensures Valid(r.0)
  {
    var key := Join(ObjectNames(list), "_");
    if v.links.Contains(key) then
      (v.(links := v.links.Remove(key)), if asWritten then Some(NotImplementedError(line)) else None)
    else (v, Some(KeyError(key)))
  }

  /** `insert (objectList) into associationName` */
  function ApplyInsert(v: StateValue, list: string, association: string): (r: (StateValue, Option<PyError>))
    requires Valid(v)
    ensures Valid(r.0)
  {
    var names := ObjectNames(list);
    match LookupObjects(v, names)
    case Err(e) => (v, Some(e))
    case Ok(roles) =>
      LinkNameOfObjects(v, names, roles);
      LinkStored(v, association, roles);
      (WithLink(v, association, roles).0, None)
  }

  /** `create name : className between (objectList)` */
  function ApplyCreateLinkObject(v: StateValue, name: string, className: string, list: string): (r: (StateValue, Option<PyError>))
    requires Valid(v)
    ensures Valid(r.0)
  {
    var names := ObjectNames(list);
    match LookupObjects(v, names)
    case Err(e) => (v, Some(e))
    case Ok(roles) =>
      LinkNameOfObjects(v, names, roles);
      LinkObjectStored(v, className, name, roles);
      (WithLinkObject(v, className, name, roles).0, None)
  }

  /** One line of `execute`, as written or with the `continue`. */
  function StepOf(v: StateValue, line: string, asWritten: bool): (r: (StateValue, Option<PyError>))
    requires Valid(v)
    ensures Valid(r.0)
  {
    Apply(v, Parse(line), line, asWritten)
  }

  /** `execute` over the lines of a snapshot: the lines in order, up to
      the first exception, which ends the interpretation. */
  function ExecuteLines(v: StateValue, lines: seq<string>, asWritten: bool): (r: (StateValue, Option<PyError>))
    requires Valid(v)
    ensures Valid(r.0)
    decreases |lines|
  {
    if lines == [] then (v, None)
    else
      var (w, error) := StepOf(v, lines[0], asWritten);
      if error.Some? then (w, error) else ExecuteLines(w, lines[1..], asWritten)
  }

  // ---- the canonical text of a statement ---------------------------------------------

  /** A statement whose groups are what its pattern captures: names are
      words, object lists are `[\w, ]+`, a value does not start with a
      space (the pattern's ` *` would take it). */
  predicate WellFormed(s: Statement) {
    match s
    case CreateObject(n, c) => IsWord(n) && IsWord(c)
    case AssignAttribute(n, a, value) => IsWord(n) && IsWord(a) && (value == [] || !IsBlank(value[0]))
    case InsertLink(l, a) => IsObjectList(l) && IsWord(a)
    case CreateLinkObject(n, c, l) => IsWord(n) && IsWord(c) && IsObjectList(l)
    case DestroyElement(n) => IsWord(n)
    case DeleteLink(l, a) => IsObjectList(l) && IsWord(a)
    case BlankLine => true
    case UnknownLine => true
  }

  /** The statement written with single spaces, as USE's own snapshots
      write it; an unknown line is a comment. */
  function Render(s: Statement): string {
    match s
    case CreateObject(n, c) => "!create " + n + " : " + c
    case AssignAttribute(n, a, value) => "!set " + n + "." + a + " := " + value
    case InsertLink(l, a) => "!insert (" + l + ") into " + a
    case CreateLinkObject(n, c, l) => "!create " + n + " : " + c + " between (" + l + ")"
    case DestroyElement(n) => "!destroy " + n
    case DeleteLink(l, a) => "!delete (" + l + ") from " + a
    case BlankLine => ""
    case UnknownLine => "--"
  }

  lemma SkipRun(sp: string, rest: string)
    requires AllChars(sp, IsBlank) && (rest == [] || !IsBlank(rest[0]))
    ensures Skip(sp + rest) == rest
  {
    TakeWhileUnique(sp, rest, IsBlank);
  }

  lemma WordRun(w: string, rest: string)
    requires IsWord(w) && (rest == [] || !IsWordChar(rest[0]))
    ensures Word(w + rest) == Some((w, rest))
  {
    TakeWhileUnique(w, rest, IsWordChar);
  }

  lemma ListRun(l: string, rest: string)
    requires IsObjectList(l) && rest != [] && rest[0] == ')'
    ensures ObjectList(l + rest) == Some((l, rest))
  {
    TakeWhileUnique(l, rest, IsListChar);
  }

  /** A literal part that the text differs from at position `i` does not
      match. */
  lemma Mismatch(s: string, token: string, i: nat)
    requires i < |s| && i < |token| && s[i] != token[i]
    ensures Expect(s, token).None?
  {
    assert !StartsWith(s, token) by {
      if |token| <= |s| {
        assert s[..|token|][i] == s[i];
      }
    }
  }

  /** The bang and what follows it. */
  lemma BangRun(w: string)
    requires w != [] && !IsBlank(w[0])
    ensures AfterBang("!" + w) == Some(w) && Skip(w) == w
  {
    SkipRun("", "!" + w);
    assert "" + ("!" + w) == "!" + w;
    ExpectToken("!", w);
    SkipRun("", w);
    assert "" + w == w;
  }

  /** A line starting with neither `create` nor `set` nor a space is no
      object creation and no assignment. */
  lemma NeitherCreateNorSet(w: string)
    requires |w| >= 1 && w[0] != 'c' && w[0] != 's' && !IsBlank(w[0])
    ensures MatchCreate(w).None? && MatchCreateHead(w).None? && MatchAssignment(w).None?
  {
    Mismatch(w, "create", 0);
    SkipRun("", w);
    assert "" + w == w;
    Mismatch(w, "set", 0);
  }

  /** What a bang followed by a command parses to. */
  lemma CommandOfBang(w: string)
    requires w != [] && !IsBlank(w[0])
    ensures Parse("!" + w) == ParseCommand(w) && Skip(w) == w
  {
    BangRun(w);
    assert ("!" + w)[0] == '!';
  }

  // Each statement in turn: its pattern matches its canonical text, the
  // patterns tried before it do not, so `ParseCommand` reaches it.

  lemma TypedNameMatched(n: string, c: string, e: string)
    requires IsWord(n) && IsWord(c) && (e == [] || !IsWordChar(e[0]))
    ensures TypedName(n + (" " + (":" + (" " + (c + e))))) == Some((n, c, e))
  {
    var colon := ":" + (" " + (c + e));
    assert Word(n + (" " + colon)) == Some((n, " " + colon)) by { WordRun(n, " " + colon); }
    assert ColonWord(" " + colon) == Some((c, e)) by {
      SkipRun(" ", colon);
      ExpectToken(":", " " + (c + e));
      SkipRun(" ", c + e);
      WordRun(c, e);
    }
  }

  lemma CreateHeadMatched(n: string, c: string, e: string)
    requires IsWord(n) && IsWord(c) && (e == [] || !IsWordChar(e[0]))
    ensures MatchCreateHead("create" + (" " + (n + (" " + (":" + (" " + (c + e))))))) == Some((n, c, e))
  {
    var typed := n + (" " + (":" + (" " + (c + e))));
    assert Expect("create" + (" " + typed), "create") == Some(" " + typed) by { ExpectToken("create", " " + typed); }
    assert Spaces(" " + typed) == Some(typed) by { SkipRun(" ", typed); }
    TypedNameMatched(n, c, e);
  }

  lemma ParenListMatched(l: string, rest: string)
    requires IsObjectList(l)
    ensures ParenList("(" + (l + (")" + rest))) == Some((l, rest))
  {
    assert Expect("(" + (l + (")" + rest)), "(") == Some(l + (")" + rest)) by { ExpectToken("(", l + (")" + rest)); }
    assert ObjectList(l + (")" + rest)) == Some((l, ")" + rest)) by { ListRun(l, ")" + rest); }
    ExpectToken(")", rest);
  }

  lemma FinalNameMatched(n: string)
    requires IsWord(n)
    ensures FinalName(" " + n) == Some(n)
  {
    assert Spaces(" " + n) == Some(n) by { SkipRun(" ", n); }
    WordRun(n, "");
    assert n + "" == n;
  }

  lemma CommandCreateObject(w: string, n: string, c: string)
    requires Skip(w) == w && MatchCreate(w) == Some((n, c))
    ensures ParseCommand(w) == CreateObject(n, c)
  {
  }

  lemma {:induction false} ParseCreateObject(n: string, c: string)
    requires IsWord(n) && IsWord(c)
    ensures Parse(Render(CreateObject(n, c))) == CreateObject(n, c)
  {
    var w := "create" + (" " + (n + (" " + (":" + (" " + (c + ""))))));
    assert Render(CreateObject(n, c)) == "!" + w;
    assert Parse("!" + w) == CreateObject(n, c) by {
      assert Skip(w) == w && MatchCreate(w) == Some((n, c)) by {
        CommandOfBang(w);
        CreateHeadMatched(n, c, "");
      }
      CommandCreateObject(w, n, c);
      CommandOfBang(w);
    }
  }

  lemma AssignmentTailMatched(n: string, a: string, value: string)
    requires IsWord(n) && IsWord(a) && (value == [] || !IsBlank(value[0]))
    ensures MatchAssignmentTail(n + ("." + (a + (" " + (":=" + (" " + value)))))) == Some((n, a, value))
  {
    var dot := "." + (a + (" " + (":=" + (" " + value))));
    DottedValueMatched(a, value);
    WordBeforeDot(n, dot);
    WordThen(n, dot, (a, value));
  }

  lemma WordBeforeDot(n: string, dot: string)
    requires IsWord(n) && dot != [] && dot[0] == '.'
    ensures Word(n + dot) == Some((n, dot))
  {
    WordRun(n, dot);
  }

  /** A name followed by a dotted assignment. */
  lemma WordThen(n: string, dot: string, m: (string, string))
    requires Word(n + dot) == Some((n, dot)) && DottedValue(dot) == Some(m)
    ensures MatchAssignmentTail(n + dot) == Some((n, m.0, m.1))
  {
  }

  lemma DottedValueMatched(a: string, value: string)
    requires IsWord(a) && (value == [] || !IsBlank(value[0]))
    ensures DottedValue("." + (a + (" " + (":=" + (" " + value))))) == Some((a, value))
  {
    var attrValue := a + (" " + (":=" + (" " + value)));
    assert Skip("." + attrValue) == "." + attrValue by { SkipRun("", "." + attrValue); assert "" + ("." + attrValue) == "." + attrValue; }
    assert Expect("." + attrValue, ".") == Some(attrValue) by { ExpectToken(".", attrValue); }
    assert Skip(attrValue) == attrValue by { SkipRun("", attrValue); assert "" + attrValue == attrValue; }
    AssignedValueMatched(a, value);
  }

  lemma AssignedValueMatched(a: string, value: string)
    requires IsWord(a) && (value == [] || !IsBlank(value[0]))
    ensures AssignedValue(a + (" " + (":=" + (" " + value)))) == Some((a, value))
  {
    var assign := ":=" + (" " + value);
    assert Word(a + (" " + assign)) == Some((a, " " + assign)) by { WordRun(a, " " + assign); }
    assert Skip(" " + assign) == assign by { SkipRun(" ", assign); }
    assert Expect(assign, ":=") == Some(" " + value) by { ExpectToken(":=", " " + value); }
    SkipRun(" ", value);
  }

  lemma AssignmentMatched(n: string, a: string, value: string)
    requires IsWord(n) && IsWord(a) && (value == [] || !IsBlank(value[0]))
    ensures var w := "set" + (" " + (n + ("." + (a + (" " + (":=" + (" " + value)))))));
      Skip(w) == w && MatchCreate(w).None? && MatchAssignment(w) == Some((n, a, value))
  {
    var tail := n + ("." + (a + (" " + (":=" + (" " + value)))));
    var w := "set" + (" " + tail);
    assert Skip(w) == w by { SkipRun("", w); assert "" + w == w; }
    assert MatchCreate(w).None? by { Mismatch(w, "create", 0); }
    assert Expect(w, "set") == Some(" " + tail) by { ExpectToken("set", " " + tail); }
    assert Spaces(" " + tail) == Some(tail) by { SkipRun(" ", tail); }
    AssignmentTailMatched(n, a, value);
  }

  lemma CommandAssignAttribute(w: string, n: string, a: string, value: string)
    requires Skip(w) == w && MatchCreate(w).None? && MatchAssignment(w) == Some((n, a, value))
    ensures ParseCommand(w) == AssignAttribute(n, a, value)
  {
  }

  lemma {:induction false} ParseAssignAttribute(n: string, a: string, value: string)
    requires IsWord(n) && IsWord(a) && (value == [] || !IsBlank(value[0]))
    ensures Parse(Render(AssignAttribute(n, a, value))) == AssignAttribute(n, a, value)
  {
    var w := "set" + (" " + (n + ("." + (a + (" " + (":=" + (" " + value)))))));
    assert Render(AssignAttribute(n, a, value)) == "!" + w;
    assert Parse("!" + w) == AssignAttribute(n, a, value) by {
      AssignmentMatched(n, a, value);
      CommandAssignAttribute(w, n, a, value);
      CommandOfBang(w);
    }
  }

  lemma InsertMatched(l: string, a: string)
    requires IsObjectList(l) && IsWord(a)
    ensures MatchInsert("insert" + (" " + ("(" + (l + (")" + (" " + ("into" + (" " + a)))))))) == Some((l, a))
  {
    var into := "into" + (" " + a);
    var open := "(" + (l + (")" + (" " + into)));
    assert Expect("insert" + (" " + open), "insert") == Some(" " + open) by { ExpectToken("insert", " " + open); }
    assert Skip(" " + open) == open by { SkipRun(" ", open); }
    assert ParenList(open) == Some((l, " " + into)) by { ParenListMatched(l, " " + into); }
    assert Skip(" " + into) == into by { SkipRun(" ", into); }
    assert Expect(into, "into") == Some(" " + a) by { ExpectToken("into", " " + a); }
    FinalNameMatched(a);
  }

  lemma CommandInsertLink(w: string, l: string, a: string)
    requires Skip(w) == w && MatchCreate(w).None? && MatchAssignment(w).None? && MatchInsert(w) == Some((l, a))
    ensures ParseCommand(w) == InsertLink(l, a)
  {
  }

  lemma {:induction false} ParseInsertLink(l: string, a: string)
    requires IsObjectList(l) && IsWord(a)
    ensures Parse(Render(InsertLink(l, a))) == InsertLink(l, a)
  {
    var w := "insert" + (" " + ("(" + (l + (")" + (" " + ("into" + (" " + a)))))));
    assert Render(InsertLink(l, a)) == "!" + w;
    assert Parse("!" + w) == InsertLink(l, a) by {
      assert Skip(w) == w && MatchCreate(w).None? && MatchAssignment(w).None? && MatchInsert(w) == Some((l, a)) by {
        CommandOfBang(w);
        NeitherCreateNorSet(w);
        InsertMatched(l, a);
      }
      CommandInsertLink(w, l, a);
      CommandOfBang(w);
    }
  }

  lemma CreateBetweenMatched(n: string, c: string, l: string)
    requires IsWord(n) && IsWord(c) && IsObjectList(l)
    ensures MatchCreateBetween("create" + (" " + (n + (" " + (":" + (" " + (c + (" " + ("between" + (" " + ("(" + (l + ")")))))))))))) == Some((n, c, l))
  {
    CreateHeadMatched(n, c, " " + ("between" + (" " + ("(" + (l + ")")))));
    BetweenListMatched(l);
  }

  /** The head of a link object creation is followed by more than spaces. */
  lemma CreateBetweenIsNoCreate(n: string, c: string, l: string)
    requires IsWord(n) && IsWord(c) && IsObjectList(l)
    ensures MatchCreate("create" + (" " + (n + (" " + (":" + (" " + (c + (" " + ("between" + (" " + ("(" + (l + ")")))))))))))).None?
  {
    var between := " " + ("between" + (" " + ("(" + (l + ")"))));
    var w := "create" + (" " + (n + (" " + (":" + (" " + (c + between))))));
    assert MatchCreateHead(w) == Some((n, c, between)) by { CreateHeadMatched(n, c, between); }
    assert !AllChars(between, IsBlank) by { NotAllBlank(" ", "between" + (" " + ("(" + (l + ")")))); }
  }

  lemma NotAllBlank(sp: string, rest: string)
    requires rest != [] && !IsBlank(rest[0])
    ensures !AllChars(sp + rest, IsBlank)
  {
    assert (sp + rest)[|sp|] == rest[0];
  }

  lemma BetweenListMatched(l: string)
    requires IsObjectList(l)
    ensures BetweenList(" " + ("between" + (" " + ("(" + (l + ")"))))) == Some(l)
  {
    var list := "(" + (l + ")");
    assert Spaces(" " + ("between" + (" " + list))) == Some("between" + (" " + list)) by { SkipRun(" ", "between" + (" " + list)); }
    assert Expect("between" + (" " + list), "between") == Some(" " + list) by { ExpectToken("between", " " + list); }
    assert Spaces(" " + list) == Some(list) by { SkipRun(" ", list); }
    assert ParenList(list) == Some((l, "")) by { ParenListMatched(l, ""); assert ")" + "" == ")"; }
  }

  lemma CommandCreateLinkObject(w: string, n: string, c: string, l: string)
    requires Skip(w) == w && MatchCreate(w).None? && MatchAssignment(w).None? && MatchInsert(w).None?
    requires MatchCreateBetween(w) == Some((n, c, l))
    ensures ParseCommand(w) == CreateLinkObject(n, c, l)
  {
  }

  lemma {:induction false} ParseCreateLinkObject(n: string, c: string, l: string)
    requires IsWord(n) && IsWord(c) && IsObjectList(l)
    ensures Parse(Render(CreateLinkObject(n, c, l))) == CreateLinkObject(n, c, l)
  {
    var w := "create" + (" " + (n + (" " + (":" + (" " + (c + (" " + ("between" + (" " + ("(" + (l + ")")))))))))));
    assert Render(CreateLinkObject(n, c, l)) == "!" + w;
    assert Parse("!" + w) == CreateLinkObject(n, c, l) by {
      assert Skip(w) == w && MatchCreate(w).None? && MatchAssignment(w).None? && MatchInsert(w).None? &&
        MatchCreateBetween(w) == Some((n, c, l)) by {
        CommandOfBang(w);
        CreateBetweenMatched(n, c, l);
        CreateBetweenIsNoCreate(n, c, l);
        Mismatch(w, "set", 0);
        Mismatch(w, "insert", 0);
      }
      CommandCreateLinkObject(w, n, c, l);
      CommandOfBang(w);
    }
  }

  lemma DestroyMatched(n: string)
    requires IsWord(n)
    ensures MatchDestroy("destroy" + (" " + n)) == Some(n)
  {
    ExpectToken("destroy", " " + n);
    FinalNameMatched(n);
  }

  lemma CommandDestroyElement(w: string, n: string)
    requires Skip(w) == w && MatchCreate(w).None? && MatchAssignment(w).None? && MatchInsert(w).None?
    requires MatchCreateBetween(w).None? && MatchDestroy(w) == Some(n)
    ensures ParseCommand(w) == DestroyElement(n)
  {
  }

  lemma {:induction false} ParseDestroyElement(n: string)
    requires IsWord(n)
    ensures Parse(Render(DestroyElement(n))) == DestroyElement(n)
  {
    var w := "destroy" + (" " + n);
    assert Render(DestroyElement(n)) == "!" + w;
    assert Parse("!" + w) == DestroyElement(n) by {
      assert Skip(w) == w && MatchCreate(w).None? && MatchAssignment(w).None? && MatchInsert(w).None? &&
        MatchCreateBetween(w).None? && MatchDestroy(w) == Some(n) by {
        CommandOfBang(w);
        NeitherCreateNorSet(w);
        Mismatch(w, "insert", 0);
        DestroyMatched(n);
      }
      CommandDestroyElement(w, n);
      CommandOfBang(w);
    }
  }

  lemma DeleteMatched(l: string, a: string)
    requires IsObjectList(l) && IsWord(a)
    ensures MatchDelete("delete" + (" " + ("(" + (l + (")" + (" " + ("from" + (" " + a)))))))) == Some((l, a))
  {
    var from := "from" + (" " + a);
    var open := "(" + (l + (")" + (" " + from)));
    assert Expect("delete" + (" " + open), "delete") == Some(" " + open) by { ExpectToken("delete", " " + open); }
    assert Skip(" " + open) == open by { SkipRun(" ", open); }
    assert ParenList(open) == Some((l, " " + from)) by { ParenListMatched(l, " " + from); }
    assert Spaces(" " + from) == Some(from) by { SkipRun(" ", from); }
    assert Expect(from, "from") == Some(" " + a) by { ExpectToken("from", " " + a); }
    FinalNameMatched(a);
  }

  lemma CommandDeleteLink(w: string, l: string, a: string)
    requires Skip(w) == w && MatchCreate(w).None? && MatchAssignment(w).None? && MatchInsert(w).None?
    requires MatchCreateBetween(w).None? && MatchDestroy(w).None? && MatchDelete(w) == Some((l, a))
    ensures ParseCommand(w) == DeleteLink(l, a)
  {
  }

  /** No pattern tried before `delete` matches a `delete` line. */
  lemma DeleteIsNoEarlierCommand(w: string)
    requires |w| >= 3 && w[0] == 'd' && w[2] == 'l'
    ensures MatchCreate(w).None? && MatchAssignment(w).None? && MatchCreateBetween(w).None?
    ensures MatchInsert(w).None? && MatchDestroy(w).None?
  {
    NeitherCreateNorSet(w);
    Mismatch(w, "insert", 0);
    Mismatch(w, "destroy", 2);
  }

  lemma {:induction false} ParseDeleteLink(l: string, a: string)
    requires IsObjectList(l) && IsWord(a)
    ensures Parse(Render(DeleteLink(l, a))) == DeleteLink(l, a)
  {
    var w := "delete" + (" " + ("(" + (l + (")" + (" " + ("from" + (" " + a)))))));
    assert Render(DeleteLink(l, a)) == "!" + w;
    assert Parse("!" + w) == DeleteLink(l, a) by {
      DeleteIsNoEarlierCommand(w);
      DeleteMatched(l, a);
      CommandOfBang(w);
      CommandDeleteLink(w, l, a);
    }
  }

  /** Every well-formed statement written out is read back as itself. */
  lemma ParseRender(s: Statement)
    requires WellFormed(s)
    ensures Parse(Render(s)) == s
  {
    match s
    case CreateObject(n, c) => ParseCreateObject(n, c);
    case AssignAttribute(n, a, value) => ParseAssignAttribute(n, a, value);
    case InsertLink(l, a) => ParseInsertLink(l, a);
    case CreateLinkObject(n, c, l) => ParseCreateLinkObject(n, c, l);
    case DestroyElement(n) => ParseDestroyElement(n);
    case DeleteLink(l, a) => ParseDeleteLink(l, a);
    case BlankLine =>
    case UnknownLine =>
      Mismatch("--", "!", 0);
      SkipRun("", "--");
      assert "" + "--" == "--";
  }

  // ---- what execution does ------------------------------------------------------------

  /** Lines executed one after the other: the first part either raises,
      and the rest is never reached, or leaves the state the rest starts
      from. */
  lemma {:induction false} ExecuteAppend(v: StateValue, a: seq<string>, b: seq<string>, asWritten: bool)
    requires Valid(v)
    ensures var (w, error) := ExecuteLines(v, a, asWritten);
      ExecuteLines(v, a + b, asWritten) == if error.Some? then (w, error) else ExecuteLines(w, b, asWritten)
    decreases |a|
  {
    if a == [] {
      assert a + b == b;
    } else {
      assert (a + b)[0] == a[0] && (a + b)[1..] == a[1..] + b;
      var (w, error) := StepOf(v, a[0], asWritten);
      if error.None? {
        ExecuteAppend(w, a[1..], b, asWritten);
      }
    }
  }

  /** The first line of several. */
  lemma ExecuteOne(v: StateValue, line: string, rest: seq<string>, asWritten: bool)
    requires Valid(v)
    ensures var (w, error) := StepOf(v, line, asWritten);
      ExecuteLines(v, [line] + rest, asWritten) == if error.Some? then (w, error) else ExecuteLines(w, rest, asWritten)
  {
    assert ([line] + rest)[0] == line && ([line] + rest)[1..] == rest;
  }

  /** After the step of line `i`, `execute` on the lines from `i` has
      either stopped with that step's error or goes on from line `i + 1`. */
  lemma ExecuteAdvances(v: StateValue, lines: seq<string>, i: nat, w: StateValue, error: Option<PyError>, asWritten: bool)
    requires Valid(v) && i < |lines|
    requires (w, error) == Apply(v, Parse(lines[i]), lines[i], asWritten)
    ensures Valid(w)
    ensures error.Some? ==> ExecuteLines(v, lines[i..], asWritten) == (w, error)
    ensures error.None? ==> ExecuteLines(v, lines[i..], asWritten) == ExecuteLines(w, lines[i + 1..], asWritten)
  {
    assert lines[i..][0] == lines[i] && lines[i..][1..] == lines[i + 1..];
  }

  /** Blank lines change nothing and raise nothing. */
  lemma {:induction false} BlankLinesDoNothing(v: StateValue, lines: seq<string>, asWritten: bool)
    requires Valid(v)
    requires forall i :: 0 <= i < |lines| ==> AllChars(lines[i], IsBlank)
    ensures ExecuteLines(v, lines, asWritten) == (v, None)
    decreases |lines|
  {
    if lines != [] {
      assert Parse(lines[0]).BlankLine?;
      BlankLinesDoNothing(v, lines[1..], asWritten);
    }
  }

  /** A line `execute` does not know stops it with `NotImplementedError`
      and changes nothing. */
  lemma UnknownLineRaises(v: StateValue, line: string, rest: seq<string>, asWritten: bool)
    requires Valid(v) && Parse(line).UnknownLine?
    ensures ExecuteLines(v, [line] + rest, asWritten) == (v, Some(NotImplementedError(line)))
  {
    ExecuteOne(v, line, rest, asWritten);
  }

  /** As written, every matched `delete` stops the execution: with a
      `KeyError` when no link has the joined names, otherwise with
      `NotImplementedError` after the link is deleted. */
  lemma DeleteAlwaysRaises(v: StateValue, line: string, rest: seq<string>)
    requires Valid(v) && Parse(line).DeleteLink?
    ensures ExecuteLines(v, [line] + rest, true) == StepOf(v, line, true)
    ensures var key := Join(ObjectNames(Parse(line).objectList), "_");
      StepOf(v, line, true) ==
        if v.links.Contains(key) then (v.(links := v.links.Remove(key)), Some(NotImplementedError(line)))
        else (v, Some(KeyError(key)))
  {
    DeleteStepOf(v, line, true);
    ExecuteOne(v, line, rest, true);
  }

  /** What a `delete` line does. */
  lemma DeleteStepOf(v: StateValue, line: string, asWritten: bool)
    requires Valid(v) && Parse(line).DeleteLink?
    ensures var key := Join(ObjectNames(Parse(line).objectList), "_");
      StepOf(v, line, asWritten) ==
        if v.links.Contains(key) then (v.(links := v.links.Remove(key)), if asWritten then Some(NotImplementedError(line)) else None)
        else (v, Some(KeyError(key)))
  {
  }

  /** With the `continue`, a deleted link lets the following lines run. */
  lemma DeleteContinues(v: StateValue, line: string, rest: seq<string>)
    requires Valid(v) && Parse(line).DeleteLink?
    requires v.links.Contains(Join(ObjectNames(Parse(line).objectList), "_"))
    ensures var key := Join(ObjectNames(Parse(line).objectList), "_");
      StepOf(v, line, false) == (v.(links := v.links.Remove(key)), None) &&
      ExecuteLines(v, [line] + rest, false) == ExecuteLines(v.(links := v.links.Remove(key)), rest, false)
  {
    DeleteStepOf(v, line, false);
    ExecuteOne(v, line, rest, false);
  }

  /** Two lines, the first of which raises nothing. */
  lemma ExecuteTwo(v: StateValue, first: string, second: string, asWritten: bool)
    requires Valid(v) && StepOf(v, first, asWritten).1.None?
    ensures ExecuteLines(v, [first, second], asWritten) == StepOf(StepOf(v, first, asWritten).0, second, asWritten)
  {
    var w := StepOf(v, first, asWritten).0;
    ExecuteOne(v, first, [second], asWritten);
    assert [first] + [second] == [first, second];
    ExecuteOne(w, second, [], asWritten);
    assert [second] + [] == [second];
  }

  // The canonical text of each statement, stepped.

  lemma CreateStep(v: StateValue, name: string, className: string, asWritten: bool)
    requires Valid(v) && IsWord(name) && IsWord(className)
    ensures StepOf(v, Render(CreateObject(name, className)), asWritten) == (WithObject(v, className, name).0, None)
  {
    ParseCreateObject(name, className);
  }

  lemma DestroyStep(v: StateValue, name: string, asWritten: bool)
    requires Valid(v) && IsWord(name) && v.objects.Contains(name)
    ensures StepOf(v, Render(DestroyElement(name)), asWritten) == (v.(objects := v.objects.Remove(name)), None)
  {
    ParseDestroyElement(name);
  }

  lemma InsertStep(v: StateValue, list: string, association: string, asWritten: bool)
    requires Valid(v) && IsObjectList(list) && IsWord(association)
    requires forall i :: 0 <= i < |ObjectNames(list)| ==> v.objects.Contains(ObjectNames(list)[i])
    ensures LookupObjects(v, ObjectNames(list)).Ok?
    ensures var roles := LookupObjects(v, ObjectNames(list)).value;
      StepOf(v, Render(InsertLink(list, association)), asWritten) == (WithLink(v, association, roles).0, None) &&
      LinkName(v, roles) == Join(ObjectNames(list), "_") &&
      forall j :: 0 <= j < |roles| ==> roles[j] < |v.heap|
  {
    ParseInsertLink(list, association);
    var names := ObjectNames(list);
    LinkNameOfObjects(v, names, LookupObjects(v, names).value);
  }

  lemma DeleteStep(v: StateValue, list: string, association: string, asWritten: bool)
    requires Valid(v) && IsObjectList(list) && IsWord(association)
    requires v.links.Contains(Join(ObjectNames(list), "_"))
    ensures var line := Render(DeleteLink(list, association));
      StepOf(v, line, asWritten) ==
        (v.(links := v.links.Remove(Join(ObjectNames(list), "_"))), if asWritten then Some(NotImplementedError(line)) else None)
  {
    ParseDeleteLink(list, association);
  }

  /** Creating an object under a new name and destroying it gives the
      tables back. */
  lemma CreateThenDestroy(v: StateValue, name: string, className: string, asWritten: bool)
    requires Valid(v) && IsWord(name) && IsWord(className) && !v.objects.Contains(name)
    ensures var (w, error) := ExecuteLines(v, [Render(CreateObject(name, className)), Render(DestroyElement(name))], asWritten);
      error.None? && w.objects == v.objects && w.links == v.links && w.linkObject == v.linkObject
  {
    var (u, o) := WithObject(v, className, name);
    ObjectStored(v, className, name);
    CreateStep(v, name, className, asWritten);
    DestroyStep(u, name, asWritten);
    ExecuteTwo(v, Render(CreateObject(name, className)), Render(DestroyElement(name)), asWritten);
    PutRemove(v.objects, name, o);
  }

  /** An assignment to an existing object sets the attribute on that
      object and on nothing else. */
  lemma AssignmentSets(v: StateValue, name: string, attribute: string, value: string, asWritten: bool)
    requires Valid(v) && WellFormed(AssignAttribute(name, attribute, value)) && v.objects.Contains(name)
    ensures var line := Render(AssignAttribute(name, attribute, value));
      var (w, error) := ExecuteLines(v, [line], asWritten);
      var o := v.objects.Get(name).value;
      error.None? && w.objects == v.objects && |w.heap| == |v.heap| &&
      w.heap[o].attributes.Get(attribute) == Some(value) &&
      forall i :: 0 <= i < |v.heap| && i != o ==> w.heap[i] == v.heap[i]
  {
    var line := Render(AssignAttribute(name, attribute, value));
    ParseAssignAttribute(name, attribute, value);
    var o := v.objects.Get(name).value;
    assert (name, o) in v.objects.items;
    assert [line][1..] == [];
  }

  /** An assignment to a name with no object raises `KeyError` and changes
      nothing. */
  lemma AssignmentToUnknownObject(v: StateValue, line: string, asWritten: bool)
    requires Valid(v) && Parse(line).AssignAttribute? && !v.objects.Contains(Parse(line).name)
    ensures ExecuteLines(v, [line], asWritten) == (v, Some(KeyError(Parse(line).name)))
  {
  }

  /** Destroying a name that is neither an object nor a link object
      raises `KeyError` and changes nothing. */
  lemma DestroyUnknown(v: StateValue, line: string, asWritten: bool)
    requires Valid(v) && Parse(line).DestroyElement?
    requires !v.objects.Contains(Parse(line).name) && !v.linkObject.Contains(Parse(line).name)
    ensures ExecuteLines(v, [line], asWritten) == (v, Some(KeyError(Parse(line).name)))
  {
  }

  /** The link an `insert` creates is filed under the object names joined
      by `_`, and refers to those objects in order. */
  lemma InsertFilesLink(v: StateValue, list: string, association: string, asWritten: bool)
    requires Valid(v) && IsObjectList(list) && IsWord(association)
    requires forall i :: 0 <= i < |ObjectNames(list)| ==> v.objects.Contains(ObjectNames(list)[i])
    ensures var (w, error) := ExecuteLines(v, [Render(InsertLink(list, association))], asWritten);
      var names := ObjectNames(list);
      var l := |v.heap|;
      error.None? && w.links == v.links.Put(Join(names, "_"), l) && |w.heap| == l + 1 && w.heap[l].LinkElement? &&
      w.heap[l].associationName == association &&
      |w.heap[l].roles| == |names| &&
      (forall j :: 0 <= j < |names| ==> v.objects.Get(names[j]) == Some(w.heap[l].roles[j])) &&
      w.objects == v.objects && w.linkObject == v.linkObject
  {
    var line := Render(InsertLink(list, association));
    assert LookupObjects(v, ObjectNames(list)).Ok? by {
      InsertStep(v, list, association, asWritten);
    }
    var roles := LookupObjects(v, ObjectNames(list)).value;
    assert ExecuteLines(v, [line], asWritten) == (WithLink(v, association, roles).0, None) by {
      InsertStep(v, list, association, asWritten);
      ExecuteOne(v, line, [], asWritten);
      assert [line] + [] == [line];
    }
    LinkFiled(v, association, ObjectNames(list), roles);
  }

  /** The link made from looked-up objects, as `InsertFilesLink` states it. */
  lemma LinkFiled(v: StateValue, association: string, names: seq<string>, roles: seq<ElementRef>)
    requires Valid(v) && LookupObjects(v, names) == Ok(roles)
    ensures var w := WithLink(v, association, roles).0;
      var l := |v.heap|;
      w.links == v.links.Put(Join(names, "_"), l) && |w.heap| == l + 1 && w.heap[l].LinkElement? &&
      w.heap[l].associationName == association &&
      |w.heap[l].roles| == |names| &&
      (forall j :: 0 <= j < |names| ==> v.objects.Get(names[j]) == Some(w.heap[l].roles[j])) &&
      w.objects == v.objects && w.linkObject == v.linkObject
  {
    LinkNameOfObjects(v, names, roles);
  }

  /** As written, inserting a link and deleting it again stops with
      `NotImplementedError` on the `delete` line. */
  lemma InsertThenDeleteAsWritten(v: StateValue, list: string, association: string)
    requires Valid(v) && IsObjectList(list) && IsWord(association)
    requires forall i :: 0 <= i < |ObjectNames(list)| ==> v.objects.Contains(ObjectNames(list)[i])
    ensures var delete := Render(DeleteLink(list, association));
      ExecuteLines(v, [Render(InsertLink(list, association)), delete], true).1 == Some(NotImplementedError(delete))
  {
    InsertThenDeleteSteps(v, list, association, true);
  }

  /** With the `continue`, inserting a link under a new name and deleting
      it again gives the tables back. */
  lemma InsertThenDelete(v: StateValue, list: string, association: string)
    requires Valid(v) && IsObjectList(list) && IsWord(association)
    requires forall i :: 0 <= i < |ObjectNames(list)| ==> v.objects.Contains(ObjectNames(list)[i])
    requires !v.links.Contains(Join(ObjectNames(list), "_"))
    ensures var (w, error) := ExecuteLines(v, [Render(InsertLink(list, association)), Render(DeleteLink(list, association))], false);
      error.None? && w.links == v.links && w.objects == v.objects && w.linkObject == v.linkObject
  {
    InsertThenDeleteSteps(v, list, association, false);
    PutRemove(v.links, Join(ObjectNames(list), "_"), |v.heap|);
  }

  /** The two lines of an insertion followed by its deletion. */
  lemma InsertThenDeleteSteps(v: StateValue, list: string, association: string, asWritten: bool)
    requires Valid(v) && IsObjectList(list) && IsWord(association)
    requires forall i :: 0 <= i < |ObjectNames(list)| ==> v.objects.Contains(ObjectNames(list)[i])
    ensures var delete := Render(DeleteLink(list, association));
      var key := Join(ObjectNames(list), "_");
      ExecuteLines(v, [Render(InsertLink(list, association)), delete], asWritten) ==
        (v.(heap := ExecuteLines(v, [Render(InsertLink(list, association)), delete], asWritten).0.heap,
            links := v.links.Put(key, |v.heap|).Remove(key)),
         if asWritten then Some(NotImplementedError(delete)) else None)
  {
    var insert := Render(InsertLink(list, association));
    var delete := Render(DeleteLink(list, association));
    var key := Join(ObjectNames(list), "_");
    InsertStep(v, list, association, asWritten);
    var roles := LookupObjects(v, ObjectNames(list)).value;
    var w := WithLink(v, association, roles).0;
    LinkStored(v, association, roles);
    DeleteStep(w, list, association, asWritten);
    ExecuteTwo(v, insert, delete, asWritten);
  }

  // ---- the interpreter -------------------------------------------------------------------

  /** One statement of `execute`, read from `line`, on the state object. */
  method ExecuteStatement(state: State, statement: Statement, line: string, asWritten: bool) returns (error: Option<PyError>)
    requires Valid(state.Value())
    modifies state
    ensures (state.Value(), error) == Apply(old(state.Value()), statement, line, asWritten)
  {
    match statement
    case CreateObject(name, className) =>
      var o := state.NewObject(className, name);
      error := None;
    case AssignAttribute(name, attribute, value) =>
      match state.objects.Get(name) {
        case None =>
          error := Some(KeyError(name));
        case Some(o) =>
          assert (name, o) in state.objects.items;
          state.SetAttribute(o, attribute, value);
          error := None;
      }
    case InsertLink(list, association) =>
      match LookupObjects(state.Value(), ObjectNames(list)) {
        case Err(e) =>
          error := Some(e);
        case Ok(roles) =>
          var l := state.NewLink(association, roles);
          error := None;
      }
    case CreateLinkObject(name, className, list) =>
      match LookupObjects(state.Value(), ObjectNames(list)) {
        case Err(e) =>
          error := Some(e);
        case Ok(roles) =>
          var l := state.NewLinkObject(className, name, roles);
          error := None;
      }
    case DestroyElement(name) =>
      if state.objects.Contains(name) {
        state.objects := state.objects.Remove(name);
        error := None;
      } else if state.linkObject.Contains(name) {
        state.linkObject := state.linkObject.Remove(name);
        error := None;
      } else {
        error := Some(KeyError(name));
      }
    case DeleteLink(list, association) =>
      var key := Join(ObjectNames(list), "_");
      if state.links.Contains(key) {
        state.links := state.links.Remove(key);
        error := if asWritten then Some(NotImplementedError(line)) else None;
      } else {
        error := Some(KeyError(key));
      }
    case BlankLine =>
      error := None;
    case UnknownLine =>
      error := Some(NotImplementedError(line));
  }

  /** A `UseSoilSpecification`: the lines of a snapshot file and the state
      they build. */
  class UseSoilSpecification {
    const fileName: string
    const sourceLines: seq<string>
    const state: State

    /** `UseSoilSpecification(useSoilFile)`, given the file's text. */
    constructor (fileName: string, content: string)
      ensures this.fileName == fileName && sourceLines == SplitLines(content)
      ensures fresh(state) && state.Value() == EmptyState
    {
      this.fileName := fileName;
      sourceLines := SplitLines(content);
      state := new State();
    }

    /** `execute()` as written: the lines in order until the first
        exception, which is returned rather than raised. */
    method ExecuteAsWritten() returns (error: Option<PyError>)
      requires Valid(state.Value())
      modifies state
      ensures (state.Value(), error) == ExecuteLines(old(state.Value()), sourceLines, true)
    {
      error := Run(true);
    }

    /** `execute()` with the `continue` after a deleted link. */
    method Execute() returns (error: Option<PyError>)
      requires Valid(state.Value())
      modifies state
      ensures (state.Value(), error) == ExecuteLines(old(state.Value()), sourceLines, false)
    {
      error := Run(false);
    }

    method Run(asWritten: bool) returns (error: Option<PyError>)
      requires Valid(state.Value())
      modifies state
      ensures (state.Value(), error) == ExecuteLines(old(state.Value()), sourceLines, asWritten)
    {
      var i := 0;
      error := None;
      while i < |sourceLines|
        invariant 0 <= i <= |sourceLines|
        invariant Valid(state.Value()) && error.None?
        invariant ExecuteLines(state.Value(), sourceLines[i..], asWritten) == ExecuteLines(old(state.Value()), sourceLines, asWritten)
      {
        ghost var before := state.Value();
        error := ExecuteStatement(state, Parse(sourceLines[i]), sourceLines[i], asWritten);
        ExecuteAdvances(before, sourceLines, i, state.Value(), error, asWritten);
        if error.Some? {
          return;
        }
        i := i + 1;
      }
      assert sourceLines[i..] == [];
    }
  }
}