# PyAlaOCL in Dafny

A model of the core of PyAlaOCL, a Python library that brings OCL
(the Object Constraint Language of UML) to Python and drives the USE
tool (UML-based Specification Environment). The model covers:

- **the OCL collections** of `alaocl/__init__.py`: `Set`, `Bag` and `Seq`, and the
  iterators (`forAll`, `exists`, `one`, `any`, `select`, `reject`, `collect`,
  `closure`, `isUnique`). These are modules `OclValues`, `OclSets`, `OclBags`,
  `OclSeqs` and `OclIterators`.
- **the USE OCL model** (`pyalaocl/useocl/model.py`): the registry of enumerations,
  classes, associations, association classes, operations, invariants and
  pre/post-conditions. This is module `UseModel`, on top of `OrderedMaps`
  (Python's `OrderedDict`).
- **the analyzer** of USE model files (`pyalaocl/useocl/analyzer.py`). It keeps the
  canonical lines printed by the USE tool, parses them into a model line by line,
  and resolves the names in that model. It also turns the tool's error lines into
  source-file errors. These are modules `CanonicalLines` (the line patterns),
  `CanonicalParser` (one line at a time), `ModelResolver`, `Analyzer` and
  `SourceErrors`.
- **the older analyzer** `alaocl/useocl/__init__.py` (module `LegacyAnalyzer`) and its
  error classes `pyalaocl/useocl/errors.py` (module `UseErrors`).
- **the USE engine driver** `pyalaocl/useocl/useengine.py` (module `UseEngine`): the
  two command lines it builds, for the analysis of a model and for a batch of
  state files. Running the tool is not modelled; its answers are
  parameters.
- **the evaluator of SOIL state files** (`pyalaocl/useocl/evaluator.py`,
  `evaluation.py`). It filters the empty files, runs the tool on a batch of files and
  splits its transcript. It then reads each file's structure check and invariant
  check into model evaluations. These are modules `Transcript`, `CheckBlocks`,
  `Evaluation` and `Evaluator`.
- **the test support**: the `@assert` markers of `assertion.py` (module `Assertions`)
  and the per-file assertion results and zip test suites of `tester.py` (module
  `Tester`).
- **the SOIL interpreter** of `soil.py` with the object state of `state.py` (modules
  `Soil` and `SnapshotState`), and the printer of `printer.py` (module `Printer`).
- **the OCL-to-Python converter** of `converter.py` (module `Converter`).
- **the fragmenter** of `pyalaocl/utils/fragments.py` (modules `Fragments` and
  `FragmentQueries`) and the symbol tables of `pyalaocl/utils/symbols.py` (module
  `Symbols`).

Python exceptions are modelled as the `Err` case of `Wrappers.Result`, with a
`PyError` saying which exception is raised. Python object identity is kept where
the source relies on it: USE model entities live in a `Store` and are referred to
by index, and classes whose fields the source updates in place are Dafny classes.
Regular expressions are written as recognisers of their fixed patterns, one piece
at a time. Python's `\w` is taken as `[A-Za-z0-9_]`.

## Model

| member | source | states |
|---|---|---|
| UseModel.NewModel | pyalaocl/useocl/model.py:24-47 | a new model has the given name and every table (enumerations, classes, associations, association classes, operations, basic types, invariants, conditions) empty |
| UseModel.AddEnumeration | pyalaocl/useocl/model.py:140-144 | the enumeration is stored under its name, replacing an earlier one; every other name and every other table is unchanged |
| UseModel.AddClass | pyalaocl/useocl/model.py:151-160 | a new class element is allocated at the next index with the superclasses as names, and registered under its name in `classes`; other names, operations and invariants are unchanged |
| UseModel.AddAttribute | pyalaocl/useocl/model.py:163-168 | the attribute, with its type as a name, is stored in the owning class under its name; other attributes and the class's other fields are unchanged |
| UseModel.AddOperation | pyalaocl/useocl/model.py:175-189 | a new operation is allocated with full signature `Class::signature`; it is stored in its class's operations under its name and in the model's operations under the full signature |
| UseModel.AddCondition | pyalaocl/useocl/model.py:193-214 | the condition is appended to the model's conditions and stored in the operation's conditions under its name; the operation's other fields are unchanged |
| UseModel.AddInvariant | pyalaocl/useocl/model.py:217-228 | a new invariant is allocated with its class as a name and no expression, and its id is appended to the model's invariants; elements and operations are unchanged |
| UseModel.AddAssociation | pyalaocl/useocl/model.py:239-246 | a new association element is allocated with arity 0, `isBinary` None and no roles, and registered under its name in `associations` |
| UseModel.AddRole | pyalaocl/useocl/model.py:250-267 | the role is stored in its association under its name with no opposite; other roles and the association's other fields are unchanged |
| UseModel.AddAssociationClass | pyalaocl/useocl/model.py:273-283 | a new association-class element is allocated and registered only in `associationClasses`; the name is removed from `classes` and `associations` |
| UseModel.FindAssociationOrAssociationClass | pyalaocl/useocl/model.py:50-58 | succeeds exactly when the name is an association or an association class; associations are looked up first; otherwise it raises |
| UseModel.FindRole | pyalaocl/useocl/model.py:61-73 | succeeds exactly when the association (or association class) is found and has the role; the result is that role |
| UseModel.FindClassOrAssociationClass | pyalaocl/useocl/model.py:76-83 | succeeds exactly when the name is a class or an association class; classes are looked up first |
| UseModel.FindInvariant | pyalaocl/useocl/model.py:85-92 | succeeds exactly when the class is found and holds an invariant of that name; the result is that invariant |
| UseModel.FindRoleAfterAddRole | pyalaocl/useocl/model.py:61-73 | a role stored in a registered association is what `findRole` returns for the two names |
| UseModel.FindClassAfterAddClass | pyalaocl/useocl/model.py:76-83 | the class registered last is what `findClassOrAssociationClass` returns for its name |
| UseModel.FindAfterAddAssociationClass | pyalaocl/useocl/model.py:273-283 | an association class is found both as a class and as an association, through its own table |
| UseModel.InStoreGrows | pyalaocl/useocl/model.py:24-47 | adding entities keeps every reference of the model's tables valid |
| CanonicalLines.MatchModel | pyalaocl/useocl/analyzer.py:124-125 | a match gives a `\w+` name with the line exactly `model <name>`, and every such line matches with its own name |
| CanonicalLines.MatchEnum | pyalaocl/useocl/analyzer.py:133-134 | a match gives a `\w+` name and literals with the line `enum <name> { <literals> }`, with or without the closing `;` |
| CanonicalLines.MatchClassHeader | pyalaocl/useocl/analyzer.py:144-146 | a match reassembles into the line: the optional `abstract `, the keyword, a `\w+` name, and optional non-empty superclasses of word characters and commas |
| CanonicalLines.MatchClassBody | pyalaocl/useocl/analyzer.py:144-145 | the part after an optional `abstract ` matches with that flag kept, a `\w+` name, and the text reassembles from its groups |
| CanonicalLines.MatchSuperclasses | pyalaocl/useocl/analyzer.py:163-165 | the optional ` < <superclasses>` part, then the trailer, reassembles into the text; the superclasses are non-empty word characters and commas |
| CanonicalLines.MatchAttribute | pyalaocl/useocl/analyzer.py:185-186 | a match gives two `\w+` groups with the line exactly `  <name> : <type>` |
| CanonicalLines.MatchOperation | pyalaocl/useocl/analyzer.py:198-205 | a match gives a `\w+` name and a signature holding no `=`; the line is the name, the signature and an optional ` = ` |
| CanonicalLines.MatchOperationExpression | pyalaocl/useocl/analyzer.py:229-230 | matches exactly when the line is four spaces then a non-space; the expression is the rest |
| CanonicalLines.MatchAssociation | pyalaocl/useocl/analyzer.py:238-240 | a match gives one of the three kinds and a `\w+` name with the line `<kind> <name> between` |
| CanonicalLines.MatchAssociationName | pyalaocl/useocl/analyzer.py:238-239 | with the kind fixed, a match gives a `\w+` name and the line `<kind> <name> between` |
| CanonicalLines.MatchRole | pyalaocl/useocl/analyzer.py:250-257 | a match reassembles into the line; type and name are `\w+` and the cardinality is non-empty without `]` |
| CanonicalLines.MatchRoleTail | pyalaocl/useocl/analyzer.py:252-256 | what follows the role name (qualifiers, subsets and flags) reassembles from the groups found |
| CanonicalLines.MatchRoleOptions | pyalaocl/useocl/analyzer.py:253-256 | the repeated ` subsets <name>` parts, ` union`, ` ordered` and ` derived = <expression>`, in this order, reassemble into the text |
| CanonicalLines.MatchRoleFlags | pyalaocl/useocl/analyzer.py:254-256 | with the subsets known, the three optional flags reassemble into the text |
| CanonicalLines.MatchInvariantHeader | pyalaocl/useocl/analyzer.py:302-304 | a match reassembles into the line; the variables are non-empty word characters, spaces and commas; class and name are `\w+` |
| CanonicalLines.MatchInvariantRest | pyalaocl/useocl/analyzer.py:302-303 | the part from ` : ` to the final colon reassembles from a `\w+` class, the existential flag and a `\w+` name |
| CanonicalLines.MatchInvariantExpression | pyalaocl/useocl/analyzer.py:320-321 | a match is the line less two leading spaces and starts with a non-space |
| CanonicalLines.MatchConditionHeader | pyalaocl/useocl/analyzer.py:329-331 | a match gives a `\w+` class and a signature starting with a word character, with the line `context <class>::<signature>` |
| CanonicalLines.MatchConditionBody | pyalaocl/useocl/analyzer.py:344-346 | a match gives `pre` or `post`, a `\w+` name and the expression, reassembling into the line |
| CanonicalLines.MatchConditionRest | pyalaocl/useocl/analyzer.py:344-345 | with the kind fixed, a match gives a `\w+` name and the expression, reassembling into the line |
| CanonicalLines.MatchErrorLine | pyalaocl/useocl/analyzer.py:67-70 | a match reassembles into the line; the separator is one of `:`, `:line `, ` line `; line and column are digits; the message is non-empty |
| CanonicalLines.MatchSound | pyalaocl/useocl/analyzer.py:67-70 | the longest-file-name-first search only finds parts that reassemble into the line |
| CanonicalLines.MatchWellFormed | pyalaocl/useocl/analyzer.py:67-69 | what the search finds has a separator of the three, digit line and column, and a non-empty message |
| CanonicalLines.MatchErrorLineAt | pyalaocl/useocl/analyzer.py:68-69 | for a fixed file name, the separators are tried in their order and a match keeps that file name and reassembles |
| CanonicalLines.MatchLocationAfter | pyalaocl/useocl/analyzer.py:68-69 | after a given separator, a match keeps file name and separator, reassembles, and has digit line and column |
| CanonicalLines.MatchLocation | pyalaocl/useocl/analyzer.py:68-69 | `<line>:<column>`, an optional colon and a non-empty message reassemble into the text |
| CanonicalLines.MatchColumn | pyalaocl/useocl/analyzer.py:68-69 | the column digits, optional colon and non-empty message reassemble into the text |
| CanonicalLines.ErrorLineRecognised | pyalaocl/useocl/analyzer.py:67-70 | every line built from well-formed parts is matched (the greedy file name may take more of it) |
| CanonicalLines.LocationRecognised | pyalaocl/useocl/analyzer.py:68-69 | every well-formed `<line>:<column>[:]<message>` is matched |
| CanonicalLines.LocationAfterRecognised | pyalaocl/useocl/analyzer.py:68-69 | when the location is matched, it is matched after any of the three separators |
| CanonicalLines.LongestFirstFound | pyalaocl/useocl/analyzer.py:67 | what the greedy search finds is the success at some file-name length |
| CanonicalLines.LongestFirstFinds | pyalaocl/useocl/analyzer.py:67 | the greedy search succeeds when any file-name length succeeds |
| CanonicalParser.ModelInStoreGrows | pyalaocl/useocl/model.py:24-47 | a model whose references are valid in a store stays valid in any store that grew from it |
| CanonicalParser.Step | pyalaocl/useocl/analyzer.py:108-371 | one line of the loop: an ignorable line leaves the state alone; the line is left unprocessed exactly when no pattern claims it in the current context; the state stays valid and only grows; the only exceptions are a registration before any `model` line (AttributeError), an unknown operation (KeyError) and a non-integer cardinality (ValueError) |
| CanonicalParser.StepHeader | pyalaocl/useocl/analyzer.py:124-183 | the `model`, `enum`, `class` and `associationclass` lines are tried first; the line is unclaimed exactly when no remaining pattern claims it |
| CanonicalParser.StepClassMember | pyalaocl/useocl/analyzer.py:185-235 | attribute and operation lines inside a class, and operation bodies after an operation ending in ` = `; the line is unclaimed exactly when no remaining pattern claims it |
| CanonicalParser.StepAttribute | pyalaocl/useocl/analyzer.py:185-194 | the new state is the old one with the attribute added to the current class |
| CanonicalParser.StepOperationExpression | pyalaocl/useocl/analyzer.py:229-235 | the new state is the old one with the current operation's expression set; the operation stays current |
| CanonicalParser.StepAssociationPart | pyalaocl/useocl/analyzer.py:238-298 | association headers, and role lines inside an association; the line is unclaimed exactly when no remaining pattern claims it |
| CanonicalParser.StepConstraintPart | pyalaocl/useocl/analyzer.py:302-371 | invariant headers and expressions, condition headers and bodies, and `end`; the line is unclaimed exactly when none of them claims it |
| CanonicalParser.ModelFor | pyalaocl/useocl/analyzer.py:126-128 | succeeds exactly when a `model` line came first, giving that model; otherwise AttributeError on the table touched |
| CanonicalParser.StepEnum | pyalaocl/useocl/analyzer.py:133-141 | an enumeration line always changes the state (or raises when no model exists) |
| CanonicalParser.StepClass | pyalaocl/useocl/analyzer.py:144-161 | a class line always changes the state (or raises when no model exists) |
| CanonicalParser.StepAssociationClass | pyalaocl/useocl/analyzer.py:163-183 | an association-class line always changes the state; with no model it raises AttributeError on `associations`, the first table `Association.__init__` touches |
| CanonicalParser.StepOperation | pyalaocl/useocl/analyzer.py:198-225 | an operation line always changes the state (or raises when no model exists) |
| CanonicalParser.StepAssociation | pyalaocl/useocl/analyzer.py:238-247 | an association line always changes the state (or raises when no model exists) |
| CanonicalParser.ParseCardinality | pyalaocl/useocl/analyzer.py:265-274 | a cardinality either gives bounds or raises ValueError, never another exception |
| CanonicalParser.CardinalityOf | pyalaocl/useocl/analyzer.py:265-274 | the bounds from the pieces of `split('..')`: ValueError is the only failure |
| CanonicalParser.IntOf | pyalaocl/useocl/analyzer.py:267-273 | `int(s)` is the value of a digit string, and otherwise raises ValueError |
| CanonicalParser.RoleOf | pyalaocl/useocl/analyzer.py:276-298 | a parsed role has no opposite yet |
| CanonicalParser.StepRole | pyalaocl/useocl/analyzer.py:250-298 | a role line always changes the state, or raises ValueError on its cardinality |
| CanonicalParser.StepInvariant | pyalaocl/useocl/analyzer.py:302-316 | an invariant header always changes the state (or raises when no model exists) |
| CanonicalParser.StepConditionHeader | pyalaocl/useocl/analyzer.py:329-340 | a condition header always changes the state, or raises KeyError for an unknown operation |
| CanonicalParser.StepConditionBody | pyalaocl/useocl/analyzer.py:344-358 | a condition body always changes the state (or raises when no model exists) |
| CanonicalParser.IndentedLine | pyalaocl/useocl/analyzer.py:124-363 | a line starting with a space matches no declaration pattern and is not `end` |
| CanonicalParser.EndLine | pyalaocl/useocl/analyzer.py:362-367 | `end` closes the current class and association and nothing else |
| CanonicalParser.EndLineShape | pyalaocl/useocl/analyzer.py:111-363 | `end` matches no pattern except its own |
| CanonicalParser.ModelLine | pyalaocl/useocl/analyzer.py:124-130 | a `model` line starts a new empty model and keeps the context and the store |
| CanonicalParser.InvariantExpressionLine | pyalaocl/useocl/analyzer.py:320-325 | outside a class and an association, an indented line after an invariant header sets that invariant's expression and closes it |
| CanonicalParser.AssociationClassRoleLine | pyalaocl/useocl/analyzer.py:198-257 | inside an association class, a plain role line is taken by the operation pattern (tried first) and registers an operation, not a role |
| CanonicalParser.OperationLineStep | pyalaocl/useocl/analyzer.py:198-225 | a non-header, non-attribute line that the operation pattern matches is read as an operation of the current class |
| CanonicalParser.OperationWithModel | pyalaocl/useocl/analyzer.py:206-225 | with a model, an operation without a body is added and is not left open for an expression |
| CanonicalParser.RoleLineShape | pyalaocl/useocl/analyzer.py:198-257 | a plain role line is not ignorable, no header, no attribute, matches the operation pattern and does not end with ` = ` |
| CanonicalParser.IndentedWordLine | pyalaocl/useocl/analyzer.py:185-205 | an indented word followed by `[` is an operation line, neither an attribute line nor an ignorable one |
| CanonicalParser.CardinalityForms | pyalaocl/useocl/analyzer.py:265-274 | `*` is 0 to unbounded; `n` is exactly n; `n..*` is at least n; `n..m` is n to m |
| CanonicalParser.CardinalityNotANumber | pyalaocl/useocl/analyzer.py:267-273 | a bound that is not an integer makes the cardinality raise ValueError |
| CanonicalParser.ParseLines | pyalaocl/useocl/analyzer.py:84-371 | the loop over all lines: the state stays valid and grows; the unprocessed lines are lines of the input that no declaration pattern accepts in any context |
| ModelResolver.ResolveSimpleType | pyalaocl/useocl/analyzer.py:376-386 | the result is an enumeration or a basic type: the enumeration of that name if there is one, else the registered basic type, else a new basic type registered under the name; only `basicTypes` changes, and not at all when the name was known |
| ModelResolver.ResolveClassType | pyalaocl/useocl/analyzer.py:388-394 | succeeds exactly when `findClassOrAssociationClass` does, with the same element, which is in `classes` or `associationClasses` under that name; otherwise KeyError naming a missing class |
| ModelResolver.ClassTypeStable | pyalaocl/useocl/analyzer.py:388-394 | registering basic types changes no class lookup |
| ModelResolver.ResolveClassTypes | pyalaocl/useocl/analyzer.py:404-407 | the superclass list resolves exactly when every name does; the result is the class reference of each name in order; otherwise KeyError naming a missing class |
| ModelResolver.ResolveAttributes | pyalaocl/useocl/analyzer.py:396-398 | every attribute keeps its key and name and gets its resolved type; only `basicTypes` changes |
| ModelResolver.SimpleTypeStable | pyalaocl/useocl/analyzer.py:376-386 | registering basic types does not change what a name resolves to |
| ModelResolver.ResolveClass | pyalaocl/useocl/analyzer.py:404-413 | succeeds exactly when the superclasses resolve; the class gets the resolved superclasses and attribute types, every other element is unchanged, and the store only grows; failure is KeyError naming a missing class |
| ModelResolver.ResolveQualifiers | pyalaocl/useocl/analyzer.py:419-433 | succeeds exactly when every qualifier is a name and a type, and then every qualifier is typed; otherwise ValueError |
| ModelResolver.Opposites | pyalaocl/useocl/analyzer.py:435-439 | in a binary association each role's opposite is the other role's name; otherwise each keeps its own |
| ModelResolver.ResolveRoles | pyalaocl/useocl/analyzer.py:419-439 | keys, names and order of the roles are kept, each role gets its class type, typed qualifiers and opposite |
| ModelResolver.RolesResolvable | pyalaocl/useocl/analyzer.py:419-439 | the roles resolve exactly when each of them does, and a missing class is the only key that can be reported |
| ModelResolver.RolesResolved | pyalaocl/useocl/analyzer.py:419-433 | every resolved role refers to the class its type names, and its qualifiers are typed |
| ModelResolver.RolesStable | pyalaocl/useocl/analyzer.py:419-433 | registering basic types changes neither which roles resolve nor to what |
| ModelResolver.ResolveRole | pyalaocl/useocl/analyzer.py:419-433 | a resolved role is the role with its class type, typed qualifiers and given opposite; name kept |
| ModelResolver.ResolveAssociation | pyalaocl/useocl/analyzer.py:435-439 | arity is the number of roles, binary exactly with two; succeeds exactly when every role resolves; the roles are written back; failure is KeyError for a missing class or ValueError for a qualifier |
| ModelResolver.ResolveInvariant | pyalaocl/useocl/analyzer.py:441-444 | succeeds exactly when the invariant's class resolves; the invariant then refers to that class and is stored in its `invariants` under its name |
| ModelResolver.ResolveClasses | pyalaocl/useocl/analyzer.py:446-450 | the class loop: only `basicTypes` of the model changes, the store grows, failure is KeyError naming a missing class |
| ModelResolver.ResolveAssociations | pyalaocl/useocl/analyzer.py:452-456 | the association loop: the class parts of every element are kept; failures are KeyError for a missing class or ValueError |
| ModelResolver.ResolveInvariants | pyalaocl/useocl/analyzer.py:458-462 | the invariant loop: class parts and roles of every element are kept |
| ModelResolver.ResolveModel | pyalaocl/useocl/analyzer.py:374-462 | classes, then associations, then invariants; only `basicTypes` of the model changes; the first exception aborts, and it is KeyError naming a missing class or ValueError |
| ModelResolver.SimpleTypeCreatedOnce | pyalaocl/useocl/analyzer.py:376-386 | a basic type is created on the first resolution of its name and returned again, with no new registration, afterwards |
| ModelResolver.BinaryOpposites | pyalaocl/useocl/analyzer.py:435-439 | with exactly two roles, each role's opposite is the other and the association is binary with arity 2 |
| ModelResolver.NonBinaryOpposites | pyalaocl/useocl/analyzer.py:435-439 | with any other number of roles no opposite is set and the association is not binary |
| ModelResolver.InvariantRegistered | pyalaocl/useocl/analyzer.py:441-444 | after resolution an invariant refers to its class and `findInvariant` finds it there under its name |
| ModelResolver.EveryInvariantRegistered | pyalaocl/useocl/analyzer.py:458-462 | after the invariant loop every invariant refers to a class that holds an invariant of its name |
| ModelResolver.LastRegistered | pyalaocl/useocl/analyzer.py:441-444 | one invariant step registers its invariant |
| ModelResolver.RegisteredKept | pyalaocl/useocl/analyzer.py:441-444 | one invariant step keeps the earlier registrations |
| ModelResolver.ClassesResolved | pyalaocl/useocl/analyzer.py:446-450 | after the class loop every visited class has class superclasses and no attribute type left as a name |
| ModelResolver.AssociationsResolved | pyalaocl/useocl/analyzer.py:452-456 | after the association loop every visited association has roles typed by classes of the model |
| ModelResolver.ModelResolved | pyalaocl/useocl/analyzer.py:374-462 | after a successful resolution every class and association class is resolved, every association's roles are typed by classes, and every invariant is held by its class |
| Analyzer.CanonicalSlice | pyalaocl/useocl/analyzer.py:60-62 | the canonical lines are the output's lines less the first two and the last two; with four lines or fewer there are none |
| Analyzer.ReportStopsAtFailure | pyalaocl/useocl/analyzer.py:53-55 | once the error-line loop has raised, later lines are not looked at |
| Analyzer.ParseErrorLine | pyalaocl/useocl/analyzer.py:66-82 | a located line raises TypeError (the file name passed as the base of `int`) and registers nothing; any other line becomes a plain error registered in the source; the source's name and lines are unchanged |
| Analyzer.ReportErrors | pyalaocl/useocl/analyzer.py:49-56 | the loop over the error lines registers exactly what the error-line loop function gives, and answers with its exception |
| Analyzer.Twice | pyalaocl/useocl/analyzer.py:53-55 | every plain error line appears twice in a row |
| Analyzer.ReportFailsOnLocatedLine | pyalaocl/useocl/analyzer.py:53-82 | the loop raises exactly when some line has a location; otherwise every line is registered twice |
| Analyzer.ReportExamples | pyalaocl/useocl/analyzer.py:53-82 | `a:1:2: m` makes the analysis raise; a line without a location is registered twice |
| Analyzer.LocatedLineHasDigit | pyalaocl/useocl/analyzer.py:67-69 | a line that carries a location has a digit |
| Analyzer.IntendedErrorOf | pyalaocl/useocl/analyzer.py:66-82 | intended: a located error with the message, line, column and file name of a located line, a plain error with the whole line otherwise |
| Analyzer.IntendedReportErrorLines | pyalaocl/useocl/analyzer.py:53-55 | intended: one error per line, registered once, in order |
| Analyzer.IntendedLocatedError | pyalaocl/useocl/analyzer.py:66-82 | intended: a located error keeps its message and its text names the file, line and column |
| Analyzer.CannotProcessAll | pyalaocl/useocl/analyzer.py:370-371 | one `cannot process` error per unprocessed line, in order |
| Analyzer.ParseLinesFailsAfter | pyalaocl/useocl/analyzer.py:84-371 | once a prefix of the lines has raised, parsing more lines raises the same |
| Analyzer.ParseLinesErrorStays | pyalaocl/useocl/analyzer.py:84-371 | one more line after a failed parse fails the same way |
| Analyzer.ResolveClassesFailsAfter | pyalaocl/useocl/analyzer.py:446-450 | once a prefix of the class loop has raised, the whole loop raises the same |
| Analyzer.ResolveClassesErrorStays | pyalaocl/useocl/analyzer.py:446-450 | one more class after a failure fails the same way |
| Analyzer.ResolveAssociationsFailsAfter | pyalaocl/useocl/analyzer.py:452-456 | once a prefix of the association loop has raised, the whole loop raises the same |
| Analyzer.ResolveAssociationsErrorStays | pyalaocl/useocl/analyzer.py:452-456 | one more association after a failure fails the same way |
| Analyzer.ResolveInvariantsFailsAfter | pyalaocl/useocl/analyzer.py:458-462 | once a prefix of the invariant loop has raised, the whole loop raises the same |
| Analyzer.ResolveInvariantsErrorStays | pyalaocl/useocl/analyzer.py:458-462 | one more invariant after a failure fails the same way |
| Analyzer.AnalysisRegistersInvariants | pyalaocl/useocl/analyzer.py:15-34 | after a successful analysis every invariant refers to its class, and the class holds it under its name |
| Analyzer.UseOclModel.constructor | pyalaocl/useocl/analyzer.py:15-22 | the fields before the analysis: the source file read, nothing known, no errors, no model |
| Analyzer.UseOclModel.Analyze | pyalaocl/useocl/analyzer.py:15-34 | a rejected model is invalid, has no model and registers the error-line report (succeeding exactly when the loop did not raise); an accepted one keeps the canonical slice and succeeds exactly when parsing and resolution do, leaving the resolved store and model, one error per unprocessed line, and valid exactly when no line was unprocessed |
| Analyzer.UseOclModel.ParseAndResolve | pyalaocl/useocl/analyzer.py:29-34 | the canonical lines are parsed, then resolved; succeeds exactly when the analysis of those lines does |
| Analyzer.UseOclModel.CreateCanonicalForm | pyalaocl/useocl/analyzer.py:49-64 | records the exit code; a non-zero code makes the model invalid with the error-line report; zero makes it valid with the canonical slice and its length and no errors |
| Analyzer.UseOclModel.ParseCanonicalLines | pyalaocl/useocl/analyzer.py:84-371 | the state after the loop is what `ParseLines` gives; an unprocessed line makes the model invalid and is reported; an exception ends the loop |
| Analyzer.UseOclModel.Resolve | pyalaocl/useocl/analyzer.py:374-462 | without a model it raises AttributeError on `None`; with one, the store and model are what `ResolveModel` gives |
| Analyzer.ParseLinesLoop | pyalaocl/useocl/analyzer.py:84-371 | the line-by-line loop computes `ParseLines` |
| Analyzer.ResolveModelLoops | pyalaocl/useocl/analyzer.py:446-462 | the three loops compute `ResolveModel` |
| Analyzer.ResolveClassesLoop | pyalaocl/useocl/analyzer.py:446-450 | the class loop computes `ResolveClasses` |
| Analyzer.ResolveAssociationsLoop | pyalaocl/useocl/analyzer.py:452-456 | the association loop computes `ResolveAssociations` |
| Analyzer.ResolveInvariantsLoop | pyalaocl/useocl/analyzer.py:458-462 | the invariant loop computes `ResolveInvariants` |
| SourceErrors.SourceFile.constructor | pyalaocl/utils/sources.py:12-29 | a source file has the given name, the lines of its text and no errors |
| SourceErrors.SourceFile.AddError | pyalaocl/utils/sources.py:32-33 | the error is appended; earlier errors, the name and the lines are kept |
| SourceErrors.SourceFile.AddErrors | pyalaocl/utils/sources.py:32-33 | `addError` of each error in turn appends them all, in order |
| SourceErrors.NewSourceError | pyalaocl/utils/errors.py:11-27 | a new error carries its message and is appended once to its source file's errors; nothing else of the file changes |
| SourceErrors.NewLocalizedError | pyalaocl/utils/errors.py:51-79 | a new located error carries message, line, column and file name, and is appended once (by the base constructor) to its source file's errors |
| SourceErrors.Str | pyalaocl/utils/errors.py:30-40 | a plain error prints as `ERROR:<message>`; a located one as `<file>:<line>:<column>: <message>` |
| SourceErrors.CursorLine | pyalaocl/utils/errors.py:91-95 | for a column inside the source line, the cursor line is as long as the source line and has `\|` at the column |
| SourceErrors.LocalizedDescription | pyalaocl/utils/errors.py:82-107 | as written: without the source part the description is the characters of the location text, one per line; with it, it raises IndexError exactly when the error's line is outside the file |
| SourceErrors.IntendedLocalizedDescription | pyalaocl/utils/errors.py:82-107 | intended: with the source part it raises exactly when the error's line is outside the file |
| SourceErrors.IntendedFront | pyalaocl/utils/errors.py:84-107 | intended: the description is the lines before the location text, then that text |
| SourceErrors.IntendedDescriptionEndsWithStr | pyalaocl/utils/errors.py:103-107 | intended: the last line of the description is the location text, and without the source part the description is that line alone |
| SourceErrors.DescriptionOneCharacterPerLine | pyalaocl/utils/errors.py:103-107 | as written, without the source part every character of the location text is on a line of its own |
| SourceErrors.DescriptionLinesExample | pyalaocl/utils/errors.py:103-107 | the error `m` at line 1, column 2 of file `f` is described over eight lines |
| LegacyAnalyzer.ErrorOfAgreesWithIntended | alaocl/useocl/__init__.py:70-84 | this copy builds the error the current analyzer means to build (same kind, message, file name, line and column); it raises only for a location on line 0 of an empty file |
| LegacyAnalyzer.CollectErrors | alaocl/useocl/__init__.py:53-57 | the loop over the error lines computes the error-line report |
| LegacyAnalyzer.ReportOnePerLine | alaocl/useocl/__init__.py:53-57 | each error line gives exactly the error `_parseErrorLine` builds, in order, and the loop raises exactly when one of them does |
| LegacyAnalyzer.ReportFailsAfter | alaocl/useocl/__init__.py:53-57 | once a prefix of the error lines has raised, the whole loop raises the same |
| LegacyAnalyzer.Entries | alaocl/useocl/__init__.py:53-57 | the error list holds the errors in order |
| LegacyAnalyzer.Unprocessed | alaocl/useocl/__init__.py:370-373 | one `cannot process` text per unprocessed line, in order |
| LegacyAnalyzer.UseOclSpecification.constructor | alaocl/useocl/__init__.py:15-33 | the file's name and lines, nothing known yet, no errors, no model |
| LegacyAnalyzer.UseOclSpecification.CreateCanonicalForm | alaocl/useocl/__init__.py:39-68 | records the exit code; non-zero makes the specification invalid with one error per error line; zero makes it valid with the canonical slice |
| LegacyAnalyzer.UseOclSpecification.ParseCanonicalLines | alaocl/useocl/__init__.py:86-373 | the state after the loop is what `ParseLines` gives; each unprocessed line makes it invalid and records its text |
| LegacyAnalyzer.UseOclSpecification.Resolve | alaocl/useocl/__init__.py:376-461 | without a model it raises AttributeError; with one, store and model are what `ResolveModel` gives; errors unchanged |
| LegacyAnalyzer.UseOclSpecification.Analyze | alaocl/useocl/__init__.py:26-37 | a rejected specification is invalid, has no model and lists the error-line report; an accepted one ends with the same store and model as the current analyzer's analysis, and is valid exactly when no line was unprocessed |
| UseErrors.NewLocalizedError | pyalaocl/useocl/errors.py:16-24 | the error keeps message, file name, line and column; its source line is the line of the file, or empty past the end |
| UseErrors.Caret | pyalaocl/useocl/errors.py:29 | `column - 1` spaces then a caret at the column |
| UseErrors.Str | pyalaocl/useocl/errors.py:8-9 | a plain error prints as `ERROR:<message>` |
| UseErrors.LocalizedStrLines | pyalaocl/useocl/errors.py:26-30 | a located error prints as three lines: the source line, the caret line and the location text |
| UseEngine.ConcatAll | pyalaocl/useocl/useengine.py:88-92 | `reduce(operator.add, …)` with no initial value raises exactly on an empty list |
| UseEngine.CommandsLayout | pyalaocl/useocl/useengine.py:88-92 | the commands of the first n files are `reset`, `open <file>`, `check -d` per file, in order |
| UseEngine.DriverLayout | pyalaocl/useocl/useengine.py:64-94 | the driver is three lines per file then `quit`; with no file it raises TypeError |
| UseEngine.DriverSplitsIntoLines | pyalaocl/useocl/useengine.py:93-94 | when no file name holds a line break, the driver text splits back into the driver lines |
| UseEngine.AnalyzeCommandWords | pyalaocl/useocl/useengine.py:39-41 | with paths free of spaces the analysis command is six words: the tool, `-nogui`, the model, the helper SOIL file, the output redirection and the error redirection to its own file |
| UseEngine.CommandWords | pyalaocl/useocl/useengine.py:110-112 | with paths free of spaces the batch command is six words: the tool, `-nogui`, the model, the driver, the output redirection and `2>&1` |
| UseEngine.BatchReturn | pyalaocl/useocl/useengine.py:115-125 | `evaluateSoilFilesWithUSEModel` returns None after a non-zero exit code and the whole transcript otherwise |
| Transcript.OpenLineRecognised | pyalaocl/useocl/evaluator.py:179 | a prompt and a path ending in `.soil` make a line the open pattern accepts |
| Transcript.CheckedLineRecognised | pyalaocl/useocl/evaluator.py:186 | every `checked <n> invariants…` line closes the invariant part |
| Transcript.DelimitersDistinct | pyalaocl/useocl/evaluator.py:179-186 | none of the fixed delimiter lines of a section is taken for another one |
| Transcript.FirstLine | pyalaocl/useocl/evaluator.py:179-186 | the index found for a delimiter is at or after the starting line and inside the transcript |
| Transcript.FirstLineFirst | pyalaocl/useocl/evaluator.py:179-186 | the line found is a delimiter line, none before it is, and when none is found no line is |
| Transcript.FirstCheckPair | pyalaocl/useocl/evaluator.py:181-182 | the check line found is followed by another line, at or after the start |
| Transcript.FirstCheckPairFirst | pyalaocl/useocl/evaluator.py:181-182 | the check pair found is one, none before it is, and when none is found no line starts one |
| Transcript.SectionsAt | pyalaocl/useocl/evaluator.py:188-195 | one section per match |
| Transcript.Matches | pyalaocl/useocl/evaluator.py:188 | the matches `finditer` finds are ordered inside the transcript |
| Transcript.NextMatch | pyalaocl/useocl/evaluator.py:179-188 | the next match starts at or after the starting line and is ordered |
| Transcript.NextMatchSound | pyalaocl/useocl/evaluator.py:179-188 | what the search finds is a match of the section pattern: delimiters in order, each the first after the previous |
| Transcript.NextMatchAt | pyalaocl/useocl/evaluator.py:179-188 | conversely, searching from the open line of a match finds it |
| Transcript.MatchesSound | pyalaocl/useocl/evaluator.py:188 | every match found is a match of the pattern |
| Transcript.SectionsDelimited | pyalaocl/useocl/evaluator.py:179-186 | every section stops at the first delimiter of each of its parts (the non-greedy groups) |
| Transcript.SectionAtDelimited | pyalaocl/useocl/evaluator.py:179-186 | the groups of a match hold no delimiter that would have ended them earlier |
| Transcript.FirstLineAt | pyalaocl/useocl/evaluator.py:179-186 | the first delimiter at or after a line is at k when line k is one and none before it is |
| Transcript.RenderLayout | pyalaocl/useocl/evaluator.py:179-186 | a snapshot printed as the tool prints it sits in the transcript where it was put |
| Transcript.RenderAllLayout | pyalaocl/useocl/evaluator.py:179-186 | printed snapshots followed by lines with no open line lie one after the other |
| Transcript.RenderedIsMatch | pyalaocl/useocl/evaluator.py:179-188 | a snapshot printed as the tool prints it is a match, ending on its last line |
| Transcript.RenderedSectionOf | pyalaocl/useocl/evaluator.py:189-195 | the groups of that match are the printed snapshot's three parts |
| Transcript.MatchesRecognised | pyalaocl/useocl/evaluator.py:188 | the search finds exactly the matches of snapshots laid out one after the other |
| Transcript.SectionsAtRecognised | pyalaocl/useocl/evaluator.py:188-195 | the groups of those matches are the snapshots' sections, in order |
| Transcript.NoOpenLine | pyalaocl/useocl/evaluator.py:188 | lines holding no open line hold no match |
| Transcript.TranscriptSections | pyalaocl/useocl/evaluator.py:166-196 | round trip: the sections split out of a transcript printed from well-formed snapshots, with a preamble and a tail holding no open line, are exactly the snapshots' sections, in order |
| Transcript.SectionsAfterPreamble | pyalaocl/useocl/evaluator.py:166-196 | lines with no open line before the first snapshot do not change the sections |
| Transcript.SkipNoOpen | pyalaocl/useocl/evaluator.py:188 | lines with no open line before the first match can be skipped |
| Evaluation.LastIndexOf | pyalaocl/useocl/evaluation.py:35 | the last position of the character, with none after it; none when it does not occur |
| Evaluation.BaseName | pyalaocl/useocl/evaluation.py:35 | `os.path.basename`: the suffix after the last `/`, holding no `/` |
| Evaluation.SplitExtRoot | pyalaocl/useocl/evaluation.py:35 | `os.path.splitext(...)[0]`: a prefix ending before the last dot that follows a non-dot, or the whole name |
| Evaluation.BaseNameOf | pyalaocl/useocl/evaluation.py:35 | the base name of `<dir>/<name>` is `<name>` |
| Evaluation.SplitExtRootOf | pyalaocl/useocl/evaluation.py:35 | the root of `<name>.<ext>` is `<name>` when the extension has no dot and the name does not start with one |
| Evaluation.StateShortNameOfFile | pyalaocl/useocl/evaluation.py:35 | a snapshot stored as `<dir>/<name>.<ext>` is known by `<name>` |
| Evaluation.StateShortNameNoExtension | pyalaocl/useocl/evaluation.py:35 | a snapshot stored as `<dir>/<name>` with no dot is known by `<name>` |
| Evaluation.FindRoleKey | pyalaocl/useocl/model.py:61-73 | the role's identity is found exactly when `findRole` finds it, with the role's name |
| Evaluation.TotalAppend | pyalaocl/useocl/evaluation.py:157-161 | the number of cardinality violations of two tables joined is the sum |
| Evaluation.TotalUpdate | pyalaocl/useocl/evaluation.py:157-161 | replacing one role's list changes the total by the difference of the lengths |
| Evaluation.CardinalityViolationStored | pyalaocl/useocl/evaluation.py:157-161 | a violation goes to the end of its role's list, created empty when the role has none; the other roles are kept; the table holds one violation more |
| Evaluation.ModelEvaluation.constructor | pyalaocl/useocl/evaluation.py:30-42 | the model, the state and its short name, validated, and empty invariant and cardinality tables |
| Evaluation.ModelEvaluation.AddInvariantEvaluation | pyalaocl/useocl/evaluation.py:98-101 | the evaluation is stored under its invariant, replacing an earlier one; cardinality violations unchanged |
| Evaluation.ModelEvaluation.AddCardinalityViolation | pyalaocl/useocl/evaluation.py:157-161 | the violation is appended to its role's list; invariant evaluations unchanged |
| Evaluation.ModelEvaluation.GetInvariantEvaluation | pyalaocl/useocl/evaluation.py:45-49 | succeeds exactly when `findInvariant` does and an evaluation is stored for it (else KeyError), giving that evaluation |
| CheckBlocks.MatchAssociationLine | pyalaocl/useocl/evaluator.py:199-200 | a match is a `\w+` association name, with the line exactly the association header of that name |
| CheckBlocks.MatchConnectedLine | pyalaocl/useocl/evaluator.py:201-204 | a match gives `\w+` object, source and target class names and a digit count, and reassembles into the line |
| CheckBlocks.MatchConnectedCount | pyalaocl/useocl/evaluator.py:203-204 | the count is digits, the target class a `\w+` word, and they reassemble into the rest of the line |
| CheckBlocks.MatchEndLine | pyalaocl/useocl/evaluator.py:205-206 | a match gives a `\w+` role and a non-empty cardinality without quotes, and the line is the association-end line with one last character for the `.` wildcard |
| CheckBlocks.MatchCardinality | pyalaocl/useocl/evaluator.py:206 | the cardinality is non-empty and quote-free, followed by the closing quote and one last character |
| CheckBlocks.StructureLines | pyalaocl/useocl/evaluator.py:199-206 | one classification per line |
| CheckBlocks.BlockOfLines | pyalaocl/useocl/evaluator.py:207-211 | three consecutive lines make a violation exactly when they are its association, connection and association-end lines, and then they make that violation |
| CheckBlocks.AssociationLineRecognised | pyalaocl/useocl/evaluator.py:199-200 | every association header of a `\w+` name is matched with that name |
| CheckBlocks.ConnectedLineRecognised | pyalaocl/useocl/evaluator.py:201-204 | every connection line of a well-formed violation is matched with its groups |
| CheckBlocks.ConnectedCountRecognised | pyalaocl/useocl/evaluator.py:203-204 | every well-formed count and target class are matched back |
| CheckBlocks.EndLineRecognised | pyalaocl/useocl/evaluator.py:205-206 | every association-end line of a well-formed violation is matched with its role and cardinality |
| CheckBlocks.StructureRoundTrip | pyalaocl/useocl/evaluator.py:198-212 | round trip: the violation blocks printed in a structure part are found back, in order, and the other lines are skipped |
| CheckBlocks.ViolationFound | pyalaocl/useocl/evaluator.py:207-211 | a violation's three lines at the head are found, followed by the blocks after them |
| CheckBlocks.NoteSkipped | pyalaocl/useocl/evaluator.py:207-211 | a first line that is no association header starts no block and is skipped |
| CheckBlocks.MatchCheckTail | pyalaocl/useocl/evaluator.py:224-229 | the part after `checking invariant (` is a well-formed number, class and invariant, and reassembles with what follows |
| CheckBlocks.MatchCheckNames | pyalaocl/useocl/evaluator.py:225 | `<class>::<invariant>': ` with two `\w+` words, and what follows |
| CheckBlocks.CheckTailRecognised | pyalaocl/useocl/evaluator.py:224-229 | every well-formed check tail is matched back with its verdict |
| CheckBlocks.MatchOkLine | pyalaocl/useocl/evaluator.py:224-225 | a match is a well-formed check whose line is its check text followed by `OK.` and anything (the pattern has no `$`) |
| CheckBlocks.MatchFailedLine | pyalaocl/useocl/evaluator.py:228-229 | a match is a well-formed check whose check text ending in `FAILED.` ends the line (the pattern has no `^`) |
| CheckBlocks.MatchInstancesLine | pyalaocl/useocl/evaluator.py:231 | a match is a `\w+` class with the line exactly `Instances of <class> violating the invariant:`, ending at the colon as the next line of the joined pattern demands |
| CheckBlocks.SetLineSound | pyalaocl/useocl/evaluator.py:232 | a set line match gives a non-empty object list of word characters, `@`, commas and spaces and a `\w+` class, and reassembles into the line up to the class |
| CheckBlocks.SetClassSound | pyalaocl/useocl/evaluator.py:232 | the class after `} : Set(` is a `\w+` word stopping where the word does |
| CheckBlocks.InvariantLines | pyalaocl/useocl/evaluator.py:224-233 | one classification per line |
| CheckBlocks.ObjectsOfList | pyalaocl/useocl/evaluator.py:241-243 | the object names of a FAILED block, joined back with commas, are its object list without `@`, and none holds `@` |
| CheckBlocks.InvariantRoundTrip | pyalaocl/useocl/evaluator.py:222-245 | round trip: the OK checks and FAILED blocks printed in an invariant part are found back, in order, with their groups |
| CheckBlocks.OkRoundTrip | pyalaocl/useocl/evaluator.py:236-238 | the OK checks found are the passed checks printed, in order |
| CheckBlocks.FailedRoundTrip | pyalaocl/useocl/evaluator.py:241-243 | the FAILED blocks found are the failures printed, in order |
| CheckBlocks.FailedBlockLines | pyalaocl/useocl/evaluator.py:228-233 | the four lines of a FAILED block are classified as its four parts, and none is an OK line |
| CheckBlocks.KindsBlock | pyalaocl/useocl/evaluator.py:233-243 | four classified lines holding the four parts of a FAILED block make that block |
| CheckBlocks.OkLineRecognised | pyalaocl/useocl/evaluator.py:224-225 | every well-formed OK check line is matched with its check |
| CheckBlocks.FailedLineNotOk | pyalaocl/useocl/evaluator.py:224-229 | a FAILED check line is not an OK line |
| CheckBlocks.FailedLineRecognised | pyalaocl/useocl/evaluator.py:228-229 | every well-formed FAILED check line is matched with its check |
| CheckBlocks.InstancesLineRecognised | pyalaocl/useocl/evaluator.py:231 | every instances line of a `\w+` class is matched with that class |
| CheckBlocks.SetLineRecognised | pyalaocl/useocl/evaluator.py:232 | every set line is matched up to its closing parenthesis with its list and class |
| CheckBlocks.ScanFailedBlock | pyalaocl/useocl/evaluator.py:241-243 | a block found on the first four lines is followed by the scan after it |
| CheckBlocks.ScanFailedSkip | pyalaocl/useocl/evaluator.py:241-243 | a line that starts no FAILED block is skipped |
| Evaluator.RemoveFirst | pyalaocl/useocl/evaluator.py:141 | `list.remove(x)`: a list without `x` is unchanged, and the result is never longer |
| Evaluator.RemoveFirstAt | pyalaocl/useocl/evaluator.py:141 | removing `x` from `p + [x] + q` with `x` not in `p` gives `p + q` |
| Evaluator.KeepMembers | pyalaocl/useocl/evaluator.py:143-161 | a file is kept exactly when it is listed and not dropped, and dropped exactly when it is listed and dropped |
| Evaluator.KeepPartition | pyalaocl/useocl/evaluator.py:143-161 | filtering splits the files: the kept and the dropped ones together are the files, as a multiset |
| Evaluator.SkippingFilterKeepsEmptyFile | pyalaocl/useocl/evaluator.py:133-141 | as written, with two empty files `a.soil` and `b.soil`, `b.soil` is kept and only `a.soil` is listed as empty |
| Evaluator.SkippingFilterKeepsPrefix | pyalaocl/useocl/evaluator.py:133-141 | as written, files before the visited slot never change while the loop runs over a list without repeated names |
| Evaluator.RemoveAt | pyalaocl/useocl/evaluator.py:141 | removing the file in slot i of a list without repeated names removes exactly that slot |
| Evaluator.SkippingFilterFrom | pyalaocl/useocl/evaluator.py:133-141 | as written, the loop passes over the files in front of the first one it removes |
| Evaluator.FileAfterRemovalKept | pyalaocl/useocl/evaluator.py:133-141 | as written, when the first empty file is removed, the file right after it is never examined and is kept, empty or not |
| Evaluator.ErrorsOfMeaning | pyalaocl/useocl/evaluator.py:143-161 | a file has an error entry exactly when it had one or it is checked and fails; the entry is its error text; an unvisited file keeps what it had |
| Evaluator.ParseCount | pyalaocl/useocl/evaluator.py:216 | `int(...)` succeeds exactly on a number, giving its value |
| Evaluator.WithCardinalities | pyalaocl/useocl/evaluator.py:214-219 | `__buildCardinalityViolation` for each block in order succeeds exactly when every block's association, role and count resolve |
| Evaluator.WithCardinalitiesAdds | pyalaocl/useocl/evaluator.py:214-219 | the multiplicity blocks add one cardinality violation each and leave the rest of the evaluation as it was |
| Evaluator.WithViolations | pyalaocl/useocl/evaluator.py:253-258 | succeeds exactly when every FAILED block's invariant is found; state, kind and cardinality violations are kept |
| Evaluator.WithViolationsStores | pyalaocl/useocl/evaluator.py:253-258 | after the FAILED blocks, an invariant one of them names is violated with an empty object list, and any other keeps what it had |
| Evaluator.WithValidationsStores | pyalaocl/useocl/evaluator.py:249-251 | after the OK lines, an invariant one of them names is validated, and any other keeps what it had |
| Evaluator.PutKeepsObjectsDiscarded | pyalaocl/useocl/evaluator.py:253-258 | storing a validation or an object-free violation keeps every stored violation object-free |
| Evaluator.WithValidations | pyalaocl/useocl/evaluator.py:249-251 | succeeds exactly when every OK line's invariant is found; state, kind and cardinality violations are kept |
| Evaluator.AllBlocks | pyalaocl/useocl/evaluator.py:261-273 | one set of blocks per section, in order |
| Evaluator.PrintedSectionBlocks | pyalaocl/useocl/evaluator.py:268-273 | read back from the printed check of a snapshot, the blocks are the violations and invariant results that were printed |
| Evaluator.EvaluationOfBlocksOk | pyalaocl/useocl/evaluator.py:268-290 | the evaluation of a snapshot fails exactly when a name it looks up is missing or a count is not a number; the multiplicity and FAILED blocks are only looked at when there is one |
| Evaluator.EvaluationOfBlocksKind | pyalaocl/useocl/evaluator.py:274-283 | a snapshot is a ModelValidation exactly when its check reports no multiplicity violation and no FAILED invariant |
| Evaluator.EvaluationOfBlocksTotal | pyalaocl/useocl/evaluator.py:285-287 | a ModelViolation holds one cardinality violation per multiplicity block |
| Evaluator.EvaluationOfBlocksStores | pyalaocl/useocl/evaluator.py:285-292 | every OK line gives a validation, stored last, so it wins over a FAILED block of the same invariant; an invariant only FAILED blocks name is violated with no object; no other invariant has a result |
| Evaluator.EvaluationOfBlocksDiscards | pyalaocl/useocl/evaluator.py:253-258 | no stored invariant violation keeps its objects |
| Evaluator.EvaluationsFrom | pyalaocl/useocl/evaluator.py:262-293 | the loop over the sections succeeds exactly when there are no more sections than files and every section's evaluation succeeds; otherwise IndexError or the evaluation's error |
| Evaluator.EvaluationsFromContains | pyalaocl/useocl/evaluator.py:262-293 | the files evaluated are those of the sections visited |
| Evaluator.EvaluationsFromFrame | pyalaocl/useocl/evaluator.py:262-293 | a file no visited section belongs to keeps what it had |
| Evaluator.EvaluationsFromLast | pyalaocl/useocl/evaluator.py:262-293 | a file's evaluation is that of the last section belonging to it |
| Evaluator.EvaluationsFromKeys | pyalaocl/useocl/evaluator.py:262-293 | distinct new files are added in section order |
| Evaluator.OneEvaluationPerFile | pyalaocl/useocl/evaluator.py:262-293 | with one section per file and no file named twice, there is one evaluation per file, in file order |
| Evaluator.MirrorsPut | pyalaocl/useocl/evaluator.py:293 | storing an evaluation object keeps the objects' table equal to the table of values |
| Evaluator.AddCardinalities | pyalaocl/useocl/evaluator.py:285-287 | the loop creating one CardinalityViolation per block fails exactly when `WithCardinalities` does, and otherwise leaves its result |
| Evaluator.AddViolations | pyalaocl/useocl/evaluator.py:289-291 | the loop creating one InvariantViolation per FAILED block fails exactly when `WithViolations` does, and otherwise leaves its result |
| Evaluator.AddValidations | pyalaocl/useocl/evaluator.py:292-293 | the loop creating one InvariantValidation per OK line fails exactly when `WithValidations` does, and otherwise leaves its result |
| Evaluator.BuildEvaluation | pyalaocl/useocl/evaluator.py:274-293 | a fresh ModelValidation or ModelViolation holding what `EvaluationOfBlocks` gives, exactly when that succeeds |
| Evaluator.BuildEvaluations | pyalaocl/useocl/evaluator.py:261-294 | one evaluation object per section, under the file of the same position, mirroring `EvaluationsFrom` |
| Evaluator.SkipEmptyFiles | pyalaocl/useocl/evaluator.py:133-141 | the loop as written, removing from the list it iterates, leaves and lists what `SkippingFilter` gives |
| Evaluator.SeparateEmptyFiles | pyalaocl/useocl/evaluator.py:133-141 | intended: over a copy of the list, the non-empty files are left and the empty ones listed, in order |
| Evaluator.SeparateErroneousFiles | pyalaocl/useocl/evaluator.py:143-161 | the files whose check fails are removed, and their error text is recorded under their name |
| Evaluator.StringList.constructor | pyalaocl/useocl/evaluator.py:80 | a list object holding the given names |
| Evaluator.UseEvaluationResults.constructor | pyalaocl/useocl/evaluator.py:74-90 | the fields before the filters: the model, the model file, `allStateFiles` and `stateFiles` both the caller's list, no empty file, no error, no evaluation |
| Evaluator.UseEvaluationResults.FilterNonEmptyStateFilesAsWritten | pyalaocl/useocl/evaluator.py:133-141 | as written: the state files and empty files are those of `SkippingFilter`; nothing else changes |
| Evaluator.UseEvaluationResults.FilterNonEmptyStateFiles | pyalaocl/useocl/evaluator.py:133-141 | intended: the non-empty files are kept and the empty ones appended to `emptyStateFiles`; nothing else changes |
| Evaluator.UseEvaluationResults.FilterErroneousStateFilesAsWritten | pyalaocl/useocl/evaluator.py:143-149 | as written: `checkSoilFileWithUSEModel` does not exist, so AttributeError is raised exactly when some file is left |
| Evaluator.UseEvaluationResults.FilterErroneousStateFiles | pyalaocl/useocl/evaluator.py:143-161 | intended: the files whose check fails are removed and recorded with their error text |
| Evaluator.UseEvaluationResults.FilterStateFiles | pyalaocl/useocl/evaluator.py:93-95 | both intended filters in turn: non-empty files that pass the check are left; empty files listed; failing ones recorded |
| Evaluator.UseEvaluationResults.RunBatchAsWritten | pyalaocl/useocl/evaluator.py:104-121 | as written: `commandExitCode` receives None or the transcript, so the run is never correct, the output text is `INCORRECT EXECUTION: errCode=` with that value, and the transcript is never read |
| Evaluator.UseEvaluationResults.RunBatch | pyalaocl/useocl/evaluator.py:104-121 | intended: correct exactly when files are left and the batch exits with 0; then the transcript is parsed into the evaluation table; otherwise the output text says why nothing was read |
| Evaluator.UseEvaluationResults.ParseValidationOutput | pyalaocl/useocl/evaluator.py:164-294 | one evaluation object per section of the transcript, under the file of the same position; fails exactly when `Evaluations` does |
| Evaluator.FilesAccountedFor | pyalaocl/useocl/evaluator.py:93-95 | every file is checked in the batch, listed as empty, or recorded as erroneous, and only one of these |
| Evaluator.EvaluateAsWritten | pyalaocl/useocl/evaluator.py:63-121 | as written: the caller's list is left filtered by the skipping loop; the constructor raises AttributeError exactly when a file is left; otherwise no batch runs |
| Evaluator.Evaluate | pyalaocl/useocl/evaluator.py:63-121 | intended: the caller's list ends holding the checked files; empty and erroneous files are recorded; the run is correct exactly when files are left and the batch exits with 0, and then the evaluations are those of the transcript |
| Fragments.ValueAt | pyalaocl/utils/fragments.py:175-177 | a match of `marker *(?P<value>[^ \n]+) *$` at an index captures a non-empty value without spaces or line breaks |
| Fragments.SearchValue | pyalaocl/utils/fragments.py:232-237 | `re.search` finds a value exactly when the pattern matches at some index from the start on, and then the value of such a match |
| Fragments.SearchClosing | pyalaocl/utils/fragments.py:239-246 | the closing search succeeds exactly when `--oo>> *$` matches somewhere in the line |
| Fragments.MarkerValue | pyalaocl/utils/fragments.py:175-177 | a line of text without `-`, then the opening or here marker, spaces and a value, yields exactly that value |
| Fragments.ClosingLine | pyalaocl/utils/fragments.py:176 | a line ending with `--oo>>` and spaces is recognised as closing |
| Fragments.AddFragmentWellFormed | pyalaocl/utils/fragments.py:8-25 | a new fragment with a parent becomes its parent's last child, nothing else changes, and the tree stays well formed |
| Fragments.OpenStepEffect | pyalaocl/utils/fragments.py:133-138 | an opening marker pushes a new open child of the innermost open fragment; `IndexError` exactly when no fragment is open; no marker, no change |
| Fragments.CloseStepEffect | pyalaocl/utils/fragments.py:140-144 | a closing marker ends the innermost open fragment here and pops it, nothing else changes; `IndexError` exactly when no fragment is open |
| Fragments.HereStepEffect | pyalaocl/utils/fragments.py:146-150 | a here marker adds a one-position child of the innermost open fragment and leaves the stack alone; `IndexError` exactly when no fragment is open |
| Fragments.StepKeepsInv | pyalaocl/utils/fragments.py:131-152 | one element's opening, closing and here steps keep the tree well formed, the stack ordered from the root, and the root's start and value |
| Fragments.Initial | pyalaocl/utils/fragments.py:121-130 | the root alone, spanning the sequence, with the stack holding it, satisfies the invariant |
| Fragments.RunKeepsInv | pyalaocl/utils/fragments.py:129-152 | every prefix of the loop keeps the invariant and the root |
| Fragments.RunLoop | pyalaocl/utils/fragments.py:129-152 | the loop's result is the element-by-element run, stopping at the first exception |
| Fragments.DoFragment | pyalaocl/utils/fragments.py:108-152 | the fragmentation of the lines fails exactly when the run fails; otherwise the result is a well-formed tree whose root starts at the first position |
| Fragments.RootSpan | pyalaocl/utils/fragments.py:121-124 | unless a closing marker popped it, the root spans `firstPosition` to `len(sequence) - 1 + firstPosition` and keeps the main value |
| FragmentQueries.AncestorBelow | pyalaocl/utils/fragments.py:19-22 | ancestors are created before their descendants |
| FragmentQueries.AtPosition | pyalaocl/utils/fragments.py:64-71 | `fragmentAtPosition` is None exactly when the fragment does not cover the position; otherwise a descendant covering it none of whose children covers it |
| FragmentQueries.FragmentsAtPosition | pyalaocl/utils/fragments.py:73-80 | empty exactly when the position is not covered; otherwise a parent chain ending at the fragment whose first element is what `fragmentAtPosition` finds |
| FragmentQueries.AncestorsAsWrittenFails | pyalaocl/utils/fragments.py:38-42 | below the root `ancestors` calls the missing `parents` and raises `AttributeError`; at the root it agrees with `Ancestors` |
| FragmentQueries.Ancestors | pyalaocl/utils/fragments.py:38-42 | the intended `ancestors`: the parent chain from the root down, each an ancestor of the fragment |
| FragmentQueries.UpwardPathIsAncestors | pyalaocl/utils/fragments.py:38-42 | a parent chain up to the root, read backwards, is the fragment's ancestors and itself |
| FragmentQueries.PositionChainIsAncestors | pyalaocl/utils/fragments.py:73-80 | `fragmentsAtPosition` from the root, reversed, is the intended ancestors of the innermost fragment at that position |
| FragmentQueries.Descendants | pyalaocl/utils/fragments.py:44-48 | everything listed descends from the fragment, and the fragment itself only when `includingSelf` |
| FragmentQueries.DescendantsComplete | pyalaocl/utils/fragments.py:44-48 | every proper descendant is listed |
| FragmentQueries.DescendantsExactly | pyalaocl/utils/fragments.py:44-48 | a fragment is listed exactly when it descends from the fragment (itself only when asked) |
| FragmentQueries.DepthBound | pyalaocl/utils/fragments.py:50-54 | no descendant lies deeper below the fragment than `depth` |
| FragmentQueries.DepthAttained | pyalaocl/utils/fragments.py:50-54 | some descendant lies exactly `depth` levels below: the depth is the height of the subtree |
| FragmentQueries.DepthOfLeaf | pyalaocl/utils/fragments.py:50-54 | the depth is 0 exactly for a leaf, and `includingSelf` only lifts 0 to 1 |
| FragmentQueries.FragmentsOfValue | pyalaocl/utils/fragments.py:56-62 | everything found descends from the fragment and has the value |
| FragmentQueries.FragmentsOfValueComplete | pyalaocl/utils/fragments.py:56-62 | every fragment of the value with no fragment of the value above it is found |
| FragmentQueries.FragmentsOfValueTopmost | pyalaocl/utils/fragments.py:56-62 | nothing found has a fragment of the value above it |
| FragmentQueries.AncestorsOrdered | pyalaocl/utils/fragments.py:19-22 | two ancestors of one fragment lie on one chain: the younger descends from the older |
| Assertions.MatchAt | pyalaocl/useocl/assertion.py:99-102 | a match of `--\ *@\s*(?:assert\|validate)\s+(?:(\w+)[:_][:_])?(\w+)\s+(OK\|KO\|Failed)` (any case) at the start of the text gives a word for the invariant, a word or nothing for the class, and a shorter rest containing the `@` |
| Assertions.ExtractedNamesAreWords | pyalaocl/useocl/assertion.py:99-104 | every triple `re.findall` yields names its invariant with a word and its class with a word or not at all |
| Assertions.NoAtSignNoAssertion | pyalaocl/useocl/assertion.py:99-104 | a text without `@` yields no triple |
| Assertions.MatchRendered | pyalaocl/useocl/assertion.py:94-104 | `-- @assert [Class::]Invariant OK\|Failed` is read back as that class, invariant and boolean, and the scan goes on after it |
| Assertions.ExtractRenderAll | pyalaocl/useocl/assertion.py:85-104 | markers written one per line are all extracted, in order, with their expected results: extraction inverts rendering |
| Assertions.DoubleUnderscoreQualifies | pyalaocl/useocl/assertion.py:100 | `[:_][:_]` also accepts `__`, so `Class__invariant` names the class `Class` |
| Assertions.ResolvedAll | pyalaocl/useocl/assertion.py:71-82 | when `findInvariant` succeeds for every triple, there is one `InvariantAssertion` per triple, in order, on the file, with its invariant and expected result |
| Assertions.ResolvedFirstFailure | pyalaocl/useocl/assertion.py:74-79 | the first triple whose invariant is not found raises `error with assertion in <file>: <class>::<name> not found` |
| Assertions.ResolveAssertions | pyalaocl/useocl/assertion.py:71-82 | the loop computes exactly the resolved list or the first failure |
| Assertions.ExtractAssertions | pyalaocl/useocl/assertion.py:60-82 | the assertions of a file are its extracted triples, resolved against the model |
| Assertions.Assess | pyalaocl/useocl/assertion.py:29-33 | the evaluation keeps the assertion and the actual result, and is OK exactly when the actual result is the expected one |
| Tester.AssertionEvaluationsAll | pyalaocl/useocl/tester.py:53-68 | when every asserted invariant has a result in the file's model evaluation, there is one assertion evaluation per assertion, in order, judged against that result |
| Tester.AssertionEvaluationsFirstMissing | pyalaocl/useocl/tester.py:63-65 | the first assertion whose invariant has no result raises `KeyError` on that invariant |
| Tester.AssertionHoldsIff | pyalaocl/useocl/tester.py:63-67 | an assertion evaluation is OK exactly when the engine's verdict on its invariant is the expected one |
| Tester.EvaluateAssertions | pyalaocl/useocl/tester.py:53-68 | the loop of `__evaluateAssertionsForState`, over the mutable evaluation objects, computes exactly the assertion evaluations of the file |
| Tester.ByFileOk | pyalaocl/useocl/tester.py:42-44 | the per-file loop fails exactly when some file's assertions fail |
| Tester.ByFileKeys | pyalaocl/useocl/tester.py:59 | the results are keyed by the state files, in the order of the files |
| Tester.ByFileGet | pyalaocl/useocl/tester.py:59-68 | each state file holds its own assertion evaluations |
| Tester.AssertionsByFileMeaning | pyalaocl/useocl/tester.py:42-44 | the assertions of all files succeed exactly when each file's do, and then each file's entry is its own evaluations |
| Tester.EvaluateAllAssertions | pyalaocl/useocl/tester.py:42-44 | the loop over the state files computes exactly the per-file assertion evaluations |
| Tester.Failures | pyalaocl/useocl/tester.py:72-77 | the failed evaluations of a list, in order, and no more than there are evaluations |
| Tester.AssertionViolationsExactly | pyalaocl/useocl/tester.py:71-77 | `assertionViolations` holds exactly the evaluations of some file that are not OK |
| Tester.UseEvaluationAndAssertionResults.constructor | pyalaocl/useocl/tester.py:46-51 | the summary and the counts: the violations, their number, whether there are any, and the number of evaluations |
| Tester.HasViolatedAssertionsIff | pyalaocl/useocl/tester.py:48-49 | `hasViolatedAssertions` holds exactly when some assertion of some file does not hold |
| Tester.EvaluateWithAssertionsAsWritten | pyalaocl/useocl/tester.py:29-46 | as written the constructor always raises: the evaluation calls the missing `checkSoilFileWithUSEModel`, or else `wasExecutionValid` is never set |
| Tester.EvaluateWithAssertions | pyalaocl/useocl/tester.py:29-51 | on the intended evaluation: the assertions of every file are checked when the run was correct, and the results, violations and counts are those of the files |
| Tester.ZipRemoteScheme | pyalaocl/useocl/tester.py:151-153 | an archive is remote exactly when its name starts with `http`, `https`, `ftp` or `ftps` followed by `://` |
| Tester.ExtensionOf | pyalaocl/useocl/tester.py:204 | `os.path.splitext` gives `.<ext>` for a file `<dir>/<name>.<ext>` |
| Tester.DefaultSelection | pyalaocl/useocl/tester.py:196-208 | by default exactly the `.soil` and `.use` entries are selected |
| Tester.RecordEntryFiles | pyalaocl/useocl/tester.py:249-254 | an extracted entry is listed under its extension exactly when it is a file, and its place is added to the entries |
| Tester.ExtractEntriesFiles | pyalaocl/useocl/tester.py:231-254 | the files listed under an extension are exactly the places of the selected entries of that extension that are files |
| Tester.ComputeUseFile | pyalaocl/useocl/tester.py:178-184 | the one `.use` file; `KeyError` without any, an exception with more than one |
| Tester.ComputeStateFiles | pyalaocl/useocl/tester.py:187-194 | the `.soil` files of the archive, `KeyError` without any |
| Tester.SuiteFilesFromArchive | pyalaocl/useocl/tester.py:113-117 | the model and snapshot files the suite evaluates are extracted entries with the `.use` and `.soil` extensions |
| Tester.ExistingTargetRefused | pyalaocl/useocl/tester.py:219-222 | as written an existing target directory is refused with the message that it is not a directory, and a missing one accepted |
| Tester.ExtractionDirectory | pyalaocl/useocl/tester.py:216-222 | as the message means it: a temporary directory without a target, the target when it is a directory, the error otherwise |
| Tester.ZipTestSuite.constructor | pyalaocl/useocl/tester.py:102-109 | the archive's name and selection are kept, with no entry and no file listed yet |
| Tester.ZipTestSuite.ComputeZipFile | pyalaocl/useocl/tester.py:145-161 | `isZipRemote` is set from the name, and the zip file is the download for a remote archive and the name otherwise |
| Tester.ZipTestSuite.ExtractZipFile | pyalaocl/useocl/tester.py:214-254 | the directory is chosen, and the entries and files by extension are those of the entry-by-entry extraction |
| Soil.HasCommandLine | pyalaocl/useocl/soil.py:21 | some line starts, after spaces, with `!` or `open` |
| Soil.EmptySoilFileOfLines | pyalaocl/useocl/soil.py:18-22 | a snapshot text is empty exactly when none of its lines starts (after spaces) with `!` or `open` |
| Soil.EmptyTextIsEmptySoilFile | pyalaocl/useocl/soil.py:18-22 | an empty text is an empty snapshot file |
| Soil.MatchCreate | pyalaocl/useocl/soil.py:64 | `create +(\w+) *: *(\w+) *$` captures two words |
| Soil.MatchAssignment | pyalaocl/useocl/soil.py:72-76 | `(set)? +(\w+) *\. *(\w+) *:= *(.*) *$` captures a name and an attribute that are words |
| Soil.MatchInsert | pyalaocl/useocl/soil.py:86-90 | `insert *\(([\w, ]+)\) *into +(\w+) *$` captures an object list and an association name |
| Soil.MatchCreateBetween | pyalaocl/useocl/soil.py:102-105 | `create +(\w+) *: *(\w+) +between +\(([\w, ]+)\) *$` captures two words and an object list |
| Soil.MatchDestroy | pyalaocl/useocl/soil.py:117 | `destroy +(\w+) *$` captures a word |
| Soil.MatchDelete | pyalaocl/useocl/soil.py:129-132 | `delete *\(([\w, ]+)\) +from +(\w+) *$` captures an object list and an association name |
| Soil.ParseCommand | pyalaocl/useocl/soil.py:58-138 | the patterns tried in `execute`'s order after `^ *! *`: each statement carries the words and lists its pattern captures |
| Soil.Parse | pyalaocl/useocl/soil.py:58-148 | a line is blank exactly when it is spaces only; statements carry what their patterns capture |
| Soil.ParseRender | pyalaocl/useocl/soil.py:58-148 | every well-formed statement written out as a snapshot line is read back as itself |
| Soil.ObjectNames | pyalaocl/useocl/soil.py:95 | `objectList.replace(' ', '').split(',')` gives at least one name |
| Soil.LookupObjects | pyalaocl/useocl/soil.py:96-97 | the objects of the names, in order, when all are known; `KeyError` on a missing name otherwise |
| Soil.ExecuteAdvances | pyalaocl/useocl/soil.py:61-148 | after the step of one line, `execute` has either stopped with that step's exception or goes on with the next line |
| Soil.BlankLinesDoNothing | pyalaocl/useocl/soil.py:141-145 | blank lines change nothing and raise nothing |
| Soil.UnknownLineRaises | pyalaocl/useocl/soil.py:147-148 | a line no pattern matches stops `execute` with `NotImplementedError(line)` and changes nothing |
| Soil.DeleteAlwaysRaises | pyalaocl/useocl/soil.py:133-148 | as written a `delete` line removes the link and then falls through to `NotImplementedError` |
| Soil.DeleteContinues | pyalaocl/useocl/soil.py:133-138 | with the `continue`, the link filed under the joined names is removed and the following lines run |
| Soil.CreateThenDestroy | pyalaocl/useocl/soil.py:64-126 | creating an object under a new name and destroying it gives the tables back |
| Soil.AssignmentSets | pyalaocl/useocl/soil.py:72-83 | an assignment to an existing object sets that attribute of that object and nothing else |
| Soil.AssignmentToUnknownObject | pyalaocl/useocl/soil.py:81 | an assignment to an unknown name raises `KeyError` and changes nothing |
| Soil.DestroyUnknown | pyalaocl/useocl/soil.py:122-125 | destroying a name that is neither an object nor a link object raises `KeyError` and changes nothing |
| Soil.InsertFilesLink | pyalaocl/useocl/soil.py:86-99 | an `insert` files a new link under the object names joined by `_`, with those objects as roles in order |
| Soil.InsertThenDeleteAsWritten | pyalaocl/useocl/soil.py:133-148 | as written inserting a link and deleting it stops with `NotImplementedError` on the `delete` line |
| Soil.InsertThenDelete | pyalaocl/useocl/soil.py:86-138 | with the `continue`, inserting a link under a new name and deleting it gives the tables back |
| Soil.ExecuteStatement | pyalaocl/useocl/soil.py:61-148 | one statement updates the mutable state as the value-level step says |
| Soil.UseSoilSpecification.constructor | pyalaocl/useocl/soil.py:26-38 | the file name is kept, the source lines are the text's lines, and the state is a fresh empty state |
| Soil.UseSoilSpecification.ExecuteAsWritten | pyalaocl/useocl/soil.py:58-148 | `execute` as written runs the lines in order until the first exception, leaving the state the value-level run gives |
| Soil.UseSoilSpecification.Execute | pyalaocl/useocl/soil.py:58-148 | the same with the `continue` after a deleted link |
| SnapshotState.WithObject | pyalaocl/useocl/state.py:28-33 | a new object with no attributes is filed under its name in `objects`, replacing any earlier one; the other tables are unchanged |
| SnapshotState.WithLink | pyalaocl/useocl/state.py:41-46 | a new link is filed in `links` under its objects' names joined by `_`; the other tables are unchanged |
| SnapshotState.WithLinkObject | pyalaocl/useocl/state.py:51-57 | a new link object with no attributes is filed under its name in `linkObject`; the other tables are unchanged |
| SnapshotState.WithAttribute | pyalaocl/useocl/state.py:35-36 | `set` changes only that attribute of that element |
| SnapshotState.ObjectStored | pyalaocl/useocl/state.py:28-33 | the new object is found under its name with its class and no attributes, and the state stays valid |
| SnapshotState.LinkStored | pyalaocl/useocl/state.py:41-46 | the new link is found under the joined names with its association and roles, and the state stays valid |
| SnapshotState.LinkObjectStored | pyalaocl/useocl/state.py:51-57 | the new link object is found under its name with no attributes, and the state stays valid |
| SnapshotState.AttributeSet | pyalaocl/useocl/state.py:35-36 | reading the attribute back gives the value set, and every other attribute keeps its value |
| SnapshotState.LinkNameOfObjects | pyalaocl/useocl/state.py:43 | the link name of objects found in `objects` is their names joined by `_` |
| SnapshotState.State.constructor | pyalaocl/useocl/state.py:15-18 | three empty tables |
| SnapshotState.State.NewObject | pyalaocl/useocl/state.py:28-33 | the object is added as `WithObject` says, keeping the state valid |
| SnapshotState.State.NewLink | pyalaocl/useocl/state.py:41-46 | the link is added as `WithLink` says, keeping the state valid |
| SnapshotState.State.NewLinkObject | pyalaocl/useocl/state.py:51-57 | the link object is added as `WithLinkObject` says, keeping the state valid |
| SnapshotState.State.SetAttribute | pyalaocl/useocl/state.py:35-36 | the attribute is set as `WithAttribute` says, keeping the state valid |
| Printer.TypeNameOf | pyalaocl/useocl/printer.py:54 | `t.name` succeeds exactly for a resolved type, and raises `AttributeError` on a type still given by its bare name |
| Printer.SuperclassNames | pyalaocl/useocl/printer.py:53-56 | the superclass names in order when every superclass is resolved, `AttributeError` otherwise |
| Printer.AssociationClassHeader | pyalaocl/useocl/printer.py:84-89 | as written a non-empty superclass list is asked for `values()` and raises `AttributeError`; the intended header names the superclasses |
| Printer.BlocksOk | pyalaocl/useocl/printer.py:34-44 | a run of printing steps raises exactly when one of its steps does |
| Printer.BlocksStop | pyalaocl/useocl/printer.py:34-44 | once a step has raised, the later steps are not run |
| Printer.ClassBlockOk | pyalaocl/useocl/printer.py:52-73 | printing a class raises exactly when one of its superclasses is unresolved |
| Printer.AssociationBlockOk | pyalaocl/useocl/printer.py:76-80 | printing an association raises exactly when one of its role types is unresolved |
| Printer.AssociationClassBlockOk | pyalaocl/useocl/printer.py:83-104 | printing an association class raises exactly when its header or one of its role types cannot be printed |
| Printer.PrintedOk | pyalaocl/useocl/printer.py:31-44 | printing a model raises exactly when some type it names is unresolved or, as written, some association class has superclasses |
| Printer.ResolvedPrintable | pyalaocl/useocl/printer.py:31-127 | once classes and associations are resolved every name the printer asks for exists; as written, only association classes with superclasses still fail |
| Printer.ResolvedModelPrints | pyalaocl/useocl/printer.py:31-127 | a model resolved by the analyzer prints as intended; as written it prints exactly when no association class has superclasses |
| Printer.AsWrittenAgrees | pyalaocl/useocl/printer.py:84-87 | without association-class superclasses, the printer as written and as intended print the same text |
| Printer.AsWrittenRefusesSuperclasses | pyalaocl/useocl/printer.py:84-85 | as written any association class with superclasses makes the printing of a printable model raise `AttributeError` on `values` |
| Printer.EnumerationLineRoundTrip | pyalaocl/useocl/printer.py:47-49 | an enumeration line is `enum { `, the literals joined by commas, and ` };`, and splitting at commas gives the literals back |
| Printer.UseOclPrinter.constructor | pyalaocl/useocl/printer.py:16-18 | the model is kept and the output is empty |
| Printer.UseOclPrinter.Do | pyalaocl/useocl/printer.py:21-24 | `do()` as written: the output is reset and becomes the printed model, or the exception raised |
| Printer.UseOclPrinter.DoIntended | pyalaocl/useocl/printer.py:21-24 | `do()` with association-class superclasses printed by name |
| Printer.UseOclPrinter.Out | pyalaocl/useocl/printer.py:27-28 | the text is appended to the output |
| Printer.UseOclPrinter.PrintModel | pyalaocl/useocl/printer.py:31-44 | `model(m)` appends the model's printout and reports its exception |
| Printer.UseOclPrinter.PrintHeader | pyalaocl/useocl/printer.py:32-35 | the model line and one `enum` line per enumeration are appended |
| Printer.UseOclPrinter.PrintClasses | pyalaocl/useocl/printer.py:37-38 | the classes are printed in order, up to the first exception |
| Printer.UseOclPrinter.PrintAssociations | pyalaocl/useocl/printer.py:40-41 | the associations are printed in order, up to the first exception |
| Printer.UseOclPrinter.PrintAssociationClasses | pyalaocl/useocl/printer.py:43-44 | the association classes are printed in order, up to the first exception |
| Printer.UseOclPrinter.PrintClass | pyalaocl/useocl/printer.py:52-73 | `class_(c)` appends the class block or stops at its exception |
| Printer.UseOclPrinter.PrintAssociation | pyalaocl/useocl/printer.py:76-80 | `association(a)` appends the association block or stops at its exception |
| Printer.UseOclPrinter.PrintAssociationClass | pyalaocl/useocl/printer.py:83-104 | `associationClass(ac)` appends the block or stops at its exception |
| Printer.UseOclPrinter.PrintRoles | pyalaocl/useocl/printer.py:120-127 | `role(r)` for every role: `<type>[<min>..<max or *>] role <name>` lines, up to the first exception |
| Printer.UseOclPrinter.PrintFeatures | pyalaocl/useocl/printer.py:59-67 | the attributes section, then the operations section |
| Printer.UseOclPrinter.PrintAttributes | pyalaocl/useocl/printer.py:59-62 | `attributes` and one line per attribute, only when there is one |
| Printer.UseOclPrinter.PrintOperations | pyalaocl/useocl/printer.py:64-67 | `operations` and one signature line per operation, only when there is one |
| Converter.SubStep | pyalaocl/useocl/converter.py:51-52 | `re.sub` replaces a match at the start of the text and goes on after it |
| Converter.SubSkips | pyalaocl/useocl/converter.py:51-52 | text before the first match is copied unchanged |
| Converter.LiteralSubIsReplace | pyalaocl/useocl/converter.py:34-39 | a literal rule such as ` = ` to ` == ` is `str.replace`: the pieces between occurrences joined by the target |
| Converter.SubUntriggered | pyalaocl/useocl/converter.py:51-52 | a rule whose first character does not occur leaves the text as it is |
| Converter.PlainExpression | pyalaocl/useocl/converter.py:49-54 | an expression with no blank, `-` or `$` is only prefixed with `return ` |
| Converter.RuleTrigger | pyalaocl/useocl/converter.py:33-46 | every rule of the table starts at a blank, a `-` or a `$` |
| Converter.CollectionOperatorsPrefixFree | pyalaocl/useocl/converter.py:22-31 | no zero-argument operator name is a prefix of another, so the alternation picks the operator written |
| Converter.OperatorRewrite | pyalaocl/useocl/converter.py:40-41 | `->size` and the other zero-argument operators become `.size()` and the like, whatever follows |
| Converter.LambdaHeadOf | pyalaocl/useocl/converter.py:42 | `\(\$([a-z0-9]+) : \w+ \| ` reads the variable of `($v : T \| ` |
| Converter.LambdaRewrite | pyalaocl/useocl/converter.py:42-43 | `->select($x : T \| ` and the other iterators become `.select(lambda x: ` |
| Converter.HeaderConverted | pyalaocl/useocl/converter.py:57-62 | `context self : C inv n:` becomes `@invariant(C)`, a line break and `def invariant_n(self):` |
| Converter.FirstIndex | pyalaocl/useocl/converter.py:66 | `list.index`: the first position holding the value, and None exactly when it is absent |
| Converter.ConvertedInvariants | pyalaocl/useocl/converter.py:65-75 | the conversion fails exactly when no line is `constraints` |
| Converter.InvariantsConverted | pyalaocl/useocl/converter.py:65-75 | without `constraints` it raises `ValueError`; otherwise the result is every line from the first `constraints` on, each converted |
| Converter.ConvertedLinesAt | pyalaocl/useocl/converter.py:68-74 | one converted line per line, in order |
| Converter.ConvertExpression | pyalaocl/useocl/converter.py:49-54 | the loop over the rule table computes the rule-by-rule rewriting, prefixed with `return ` |
| Converter.ConvertLine | pyalaocl/useocl/converter.py:69-74 | the loop body: lines starting with two spaces are expressions, lines starting with `context ` are headers, others are kept |
| Converter.ConvertInvariants | pyalaocl/useocl/converter.py:65-75 | the loop appending one converted line at a time computes the conversion of the specification |
| Symbols.IsValidNewIdentifier | pyalaocl/utils/symbols.py:15-32 | an accepted name has identifier syntax and is neither a keyword nor a builtin; without `allowRedefinition` it is also absent from the existing identifiers, the object's attributes and the scope that are given |
| Symbols.RedefinitionWidens | pyalaocl/utils/symbols.py:25-31 | allowing redefinition only widens the accepted names, and then the object, scope and existing names do not matter |
| Symbols.TrailingLineBreakAccepted | pyalaocl/utils/symbols.py:22 | `re.match` with `$` accepts an identifier followed by one line break, which a whole-name match refuses |
| Symbols.SyntaxAgreesWithoutLineBreak | pyalaocl/utils/symbols.py:22 | on names without a line break the pattern as written and the whole-name match agree |
| Symbols.StartUpper | pyalaocl/utils/symbols.py:35-38 | the first character upper-cased and the rest unchanged; the empty name and a non-letter start are kept |
| Symbols.StartLower | pyalaocl/utils/symbols.py:40-43 | the first character lower-cased and the rest unchanged; the empty name and a non-letter start are kept |
| Symbols.StartCaseRoundTrip | pyalaocl/utils/symbols.py:35-43 | each is idempotent, and each undoes the other on the first character's case |
| Symbols.SymbolChanges | pyalaocl/utils/symbols.py:50-57 | exactly the logged changes the filter selects (`None` matching anything, targets compared by contents), in log order |
| Symbols.AllChangesSelected | pyalaocl/utils/symbols.py:50-57 | without a filter every change is selected, in order |
| Symbols.SymbolChangesSnoc | pyalaocl/utils/symbols.py:50-57 | logging a change extends the selection by it exactly when the filter selects it |
| Symbols.CountBy | pyalaocl/utils/symbols.py:60-64 | the counter counts every logged change once |
| Symbols.CountByKind | pyalaocl/utils/symbols.py:60-64 | the count of a kind is the number of changes selected by that kind |
| Symbols.SymbolsOf | pyalaocl/utils/symbols.py:67-72 | the symbols are exactly those of the selected changes, each mapped to the value one of them set |
| Symbols.ScopeAfterUndo | pyalaocl/utils/symbols.py:130-134 | undoing restores the earlier value or deletes the symbol, leaving every other symbol; `del` of a missing symbol raises `KeyError` |
| Symbols.UndoRestoresScope | pyalaocl/utils/symbols.py:117-134 | undoing the change just made gives the scope back |
| Symbols.RemoveFirst | pyalaocl/utils/symbols.py:89 | `list.remove` takes out exactly one logged change, and a missing one leaves the log |
| Symbols.RemoveLogged | pyalaocl/utils/symbols.py:83-89 | removing the change logged last gives the log as it was |
| Symbols.RemoveAsWritten | pyalaocl/utils/symbols.py:87-89 | as written `change in cls.symbolChanges` tests membership in a method and raises `TypeError` |
| Symbols.RemoveIntended | pyalaocl/utils/symbols.py:87-89 | the intended removal always succeeds |
| Symbols.RemoveAfterRecord | pyalaocl/utils/symbols.py:83-89 | removing the change just logged fails as written, and as intended gives the old log back |
| Symbols.UndoneAll | pyalaocl/utils/symbols.py:75-80 | undoing the selected changes in log order keeps the set of scopes, never grows the log, and can only stop on `KeyError` |
| Symbols.TwiceChangedNotRestored | pyalaocl/utils/symbols.py:75-80 | a symbol changed twice ends with the value the first change set, not its original one, since the undo runs in log order |
| Symbols.SymbolManager.constructor | pyalaocl/utils/symbols.py:46-47 | an empty log over the given scopes |
| Symbols.SymbolManager.Selected | pyalaocl/utils/symbols.py:50-57 | exactly the logged changes the filter selects |
| Symbols.SymbolManager.Symbols | pyalaocl/utils/symbols.py:67-72 | the symbols of the selected changes and values they set |
| Symbols.SymbolManager.ScopeSymbolChange | pyalaocl/utils/symbols.py:97-128 | the change is logged with a new identity, records whether and how the symbol was defined, and defines it in the scope |
| Symbols.SymbolManager.UndoAsWritten | pyalaocl/utils/symbols.py:130-135 | as written the scope is restored (or `KeyError` raised) and then the removal raises `TypeError`, leaving the change logged |
| Symbols.SymbolManager.Undo | pyalaocl/utils/symbols.py:130-135 | the scope is restored and the change taken out of the log, or `KeyError` with nothing changed |
| Symbols.SymbolManager.UndoSelectedAsWritten | pyalaocl/utils/symbols.py:75-80 | as written `undo` raises as soon as a change is selected, and the log is unchanged; the error raised and the new scopes are those of undoing the first selected change as written |
| Symbols.SymbolManager.UndoSelected | pyalaocl/utils/symbols.py:75-80 | with the intended removal every selected change is undone in log order, as `UndoneAll` says |
| OclValues.Flat | alaocl/__init__.py:270-291 | `flatten(value)` yields plain values only, and a plain value flattens to itself alone |
| OclValues.FlatAll | alaocl/__init__.py:1625-1635 | the items flattened one after the other are plain values, and a listing of plain values flattens to itself |
| OclValues.FlatAllAppend | alaocl/__init__.py:1625-1635 | flattening distributes over concatenation |
| OclValues.FlatAllIdempotent | alaocl/__init__.py:1625-1635 | flattening twice is flattening once |
| OclValues.CountOf | alaocl/__init__.py:1581-1582 | `list.count(v)` is the multiplicity of `v` in the listing |
| OclSets.SetOf | alaocl/__init__.py:763-790 | `Set(*args)` and `Set.new` hold exactly the listed values, no more of them than were listed |
| OclSets.SetSizeIsDistinctCount | alaocl/__init__.py:763-806 | the set is as large as its listing exactly when no value is listed twice |
| OclSets.IsEmptyAsWritten | alaocl/__init__.py:808-809 | as written `Set.isEmpty` is true exactly for a non-empty set |
| OclSets.IsEmpty | alaocl/__init__.py:330-331 | `isEmpty` of the other collections, `size() == 0`: true exactly for the empty set |
| OclSets.EmptinessInverted | alaocl/__init__.py:808-809 | `Set.isEmpty` as written is the negation of emptiness, so `notEmpty` holds exactly on the empty set |
| OclSets.SetCount | alaocl/__init__.py:811-824 | `count` is 1 exactly when the value is present, else 0 |
| OclSets.SetIncluding | alaocl/__init__.py:829-844 | a fresh set holding the receiver's values and the value, one larger unless it was present |
| OclSets.SetExcluding | alaocl/__init__.py:846-861 | a fresh set holding every other value of the receiver, one smaller when the value was present |
| OclSets.IncludingExcluding | alaocl/__init__.py:829-861 | including then excluding a value is excluding it, and the reverse; each undoes the other when the value was absent, resp. present |
| OclSets.SetUnion | alaocl/__init__.py:863-886 | the values of either operand |
| OclSets.SetIntersection | alaocl/__init__.py:891-916 | the values of both operands |
| OclSets.SetDifference | alaocl/__init__.py:921-945 | the receiver's values absent from the argument |
| OclSets.SetSymmetricDifference | alaocl/__init__.py:950-972 | the values in exactly one operand |
| OclSets.SetAlgebra | alaocl/__init__.py:863-972 | union and intersection sizes add up to the operands' sizes, the symmetric difference is the two differences, and difference and intersection rebuild the receiver |
| OclSets.SetDuplicates | alaocl/__init__.py:974-987 | a set has no duplicates: the empty bag |
| OclSets.SetSelect | alaocl/__init__.py:1022-1037 | exactly the values that satisfy the predicate |
| OclSets.SetReject | alaocl/__init__.py:442-457 | exactly the values that do not satisfy the predicate |
| OclSets.SelectRejectPartition | alaocl/__init__.py:1022-1037 | `select` and `reject` split the set into two disjoint parts |
| OclSets.SetFlatten | alaocl/__init__.py:989-1020 | the union of the elements' flattenings holds only plain values |
| OclSets.SetFlattenMembers | alaocl/__init__.py:1013-1020 | a value is in the flattened set exactly when the flattening of some element holds it |
| OclSets.FlattenScalars | alaocl/__init__.py:1013-1020 | a set of plain values flattens to itself |
| OclSets.SetAsBag | alaocl/__init__.py:1069-1070 | every value once |
| OclBags.BagOf | alaocl/__init__.py:1186-1200 | `Bag(*args)` and `Bag.new(listing)`: each value counted as often as it is listed |
| OclBags.BagCount | alaocl/__init__.py:1219-1233 | `count` is 0 exactly for an absent value, and never more than the size |
| OclBags.BagIncluding | alaocl/__init__.py:1238-1257 | one more occurrence of the value, the other counts unchanged |
| OclBags.BagExcluding | alaocl/__init__.py:1259-1278 | every occurrence of the value removed, the other counts unchanged |
| OclBags.BagSizeCounts | alaocl/__init__.py:1205-1278 | the size is the number of values listed; `including` adds one; `excluding` removes the value's count |
| OclBags.BagUnion | alaocl/__init__.py:1280-1304 | the counts of the argument's listing are added |
| OclBags.BagIntersection | alaocl/__init__.py:1306-1322 | each value counted as often as the smaller of its two counts |
| OclBags.BagUnionIntersection | alaocl/__init__.py:1280-1322 | taking the argument's occurrences back out of a union gives the receiver, and an intersection lies within both operands |
| OclBags.BagDuplicates | alaocl/__init__.py:1438-1449 | the values counted at least twice, with their counts |
| OclBags.DuplicatesShowDuplication | alaocl/__init__.py:1416-1449 | `hasDuplicates` holds exactly when `duplicates` is not empty |
| OclBags.BagSelect | alaocl/__init__.py:1369-1386 | the values that satisfy the predicate keep their counts, the others are gone |
| OclBags.BagCollectNested | alaocl/__init__.py:1388-1414 | each value's image counted as often as the value, so the size is kept, and every image is the image of a value |
| OclBags.BagAsSet | alaocl/__init__.py:1460-1461 | the values present |
| OclBags.BagFlatPick | alaocl/__init__.py:1358-1366 | the flattened bag does not depend on the order in which the elements are visited |
| OclBags.BagFlatItem | alaocl/__init__.py:1358-1366 | all `n` occurrences of an element contribute `n` copies of its flattening |
| OclBags.BagFlatListing | alaocl/__init__.py:1344-1367 | flattening a bag built from a listing gives the bag of the flattened listing |
| OclBags.AddOccurrences | alaocl/__init__.py:1364-1365 | the inner loop adds `n` occurrences of each value of the element's flattening |
| OclBags.Bag.constructor | alaocl/__init__.py:1168-1186 | the counter is the bag of the arguments |
| OclBags.Bag.Flatten | alaocl/__init__.py:1344-1367 | the receiver's counts are replaced by those of the flattened elements, and the receiver is returned |
| OclSeqs.SeqIsEmptyAsWritten | alaocl/__init__.py:1578-1579 | as written `Seq.isEmpty` is true exactly for a non-empty sequence |
| OclSeqs.SeqIsEmpty | alaocl/__init__.py:330-331 | `size() == 0`: true exactly for the empty sequence |
| OclSeqs.SeqEmptinessInverted | alaocl/__init__.py:1578-1579 | `Seq.isEmpty` as written is the negation of emptiness, so `notEmpty` holds exactly on the empty sequence |
| OclSeqs.SeqIncludes | alaocl/__init__.py:1584-1585 | `includes` holds exactly when the value is counted at least once |
| OclSeqs.SeqSelect | alaocl/__init__.py:1608-1610 | no longer than the sequence, and every element satisfies the predicate |
| OclSeqs.SelectCounts | alaocl/__init__.py:1608-1610 | the selected values keep their multiplicities, the others are gone |
| OclSeqs.SelectMembers | alaocl/__init__.py:1608-1610 | a value is selected exactly when it is listed and satisfies the predicate |
| OclSeqs.SelectAppend | alaocl/__init__.py:1608-1610 | selecting from a concatenation selects from each part in turn, so the order is kept |
| OclSeqs.SeqReject | alaocl/__init__.py:442-457 | every element kept fails the predicate |
| OclSeqs.SelectRejectShare | alaocl/__init__.py:442-457 | `select` and `reject` share out the elements: their lengths add up and their bags make up the sequence's bag |
| OclSeqs.SeqExcluding | alaocl/__init__.py:1591-1606 | every occurrence of the value dropped and the rest kept with their multiplicities |
| OclSeqs.ExcludingUnion | alaocl/__init__.py:1591-1606 | excluding from a union excludes from each operand |
| OclSeqs.SeqDuplicatesIffRepeated | alaocl/__init__.py:1612-1620 | `hasDuplicates` holds exactly when some value is listed at two positions |
| OclSeqs.SeqDuplicates | alaocl/__init__.py:1622-1623 | the bag of the values listed at least twice, with their counts |
| OclSeqs.SeqUnion | alaocl/__init__.py:1644-1647 | the argument's listing appended: lengths add up and the bag is the bag union |
| OclSeqs.Append | alaocl/__init__.py:1652-1655 | a fresh sequence, the receiver's elements then the value |
| OclSeqs.Prepend | alaocl/__init__.py:1657-1660 | a fresh sequence, the value then the receiver's elements |
| OclSeqs.SeqCollectNested | alaocl/__init__.py:1637-1638 | the image of every element, in order |
| OclSeqs.CollectNestedUnion | alaocl/__init__.py:1637-1647 | collecting distributes over union |
| OclSeqs.AtAsWritten | alaocl/__init__.py:1669-1695 | as written `theList[index - 1]`: positions 1 to `size()` are right, but 0 and negative indices down to `-size() + 1` reach the end of the list instead of failing |
| OclSeqs.At | alaocl/__init__.py:1669-1695 | `at` as its comment says: succeeds exactly on positions 1 to `size()`, else `Invalid` |
| OclSeqs.AtZeroReturnsLast | alaocl/__init__.py:1692-1693 | both agree on allowed positions, and as written `at(0)` returns the last element |
| OclSeqs.First | alaocl/__init__.py:1710-1714 | the first element, `Invalid` exactly on the empty sequence |
| OclSeqs.Last | alaocl/__init__.py:1717-1721 | the last element, `Invalid` exactly on the empty sequence |
| OclSeqs.EndsOfSequence | alaocl/__init__.py:1652-1721 | `first` and `last` are `at` of the end positions, and `prepend` and `append` put their value there |
| OclSeqs.SubSequenceAsWritten | alaocl/__init__.py:1662-1667 | as written slicing never fails, so the handler is never reached, and valid bounds give the positions `lower` to `upper` |
| OclSeqs.SubSequence | alaocl/__init__.py:1662-1667 | as OCL defines it: succeeds exactly when `1 <= lower <= upper <= size()`, with the elements at those positions, else `Invalid` |
| OclSeqs.SubSequenceBadBounds | alaocl/__init__.py:1662-1667 | both agree on valid bounds; as written bounds OCL refuses still succeed, e.g. `subSequence(0, 3)` of three elements gives the last only |
| OclSeqs.ConversionsAgree | alaocl/__init__.py:1701-1705 | `asSet` and `asBag` agree: the set of the bag is the set of the elements |
| OclSeqs.SeqCollect | alaocl/__init__.py:459-460 | `collect` is `collectNested` then `flatten`: only plain values, and `collectNested` itself when the images are plain |
| OclSeqs.IsUniqueScalar | alaocl/__init__.py:624-630 | with plain images, `isUnique` holds exactly when no two elements have the same image |
| OclSeqs.Seq.constructor | alaocl/__init__.py:1544-1570 | the list is the arguments, or the collection's listing |
| OclSeqs.Seq.Including | alaocl/__init__.py:1587-1589 | as written `including` appends to the receiver's own list and returns the receiver |
| OclSeqs.Seq.IncludingFresh | alaocl/__init__.py:1652-1655 | as intended, the way `append` is written: a fresh sequence with the value at the end, the receiver unchanged |
| OclSeqs.Seq.Flatten | alaocl/__init__.py:1625-1634 | the receiver's list becomes the concatenation of its elements' flattenings, and the receiver is returned |
| OclSeqs.IncludingChangesReceiver | alaocl/__init__.py:1587-1589 | `including` on an empty sequence as written leaves that sequence with one element |
| OclSeqs.IncludingFreshKeepsReceiver | alaocl/__init__.py:1652-1655 | including as intended leaves the receiver empty |
| OclIterators.ForAll | alaocl/__init__.py:483-509 | the loop returns true exactly when every element satisfies the predicate (so true on an empty collection) |
| OclIterators.Exists | alaocl/__init__.py:511-536 | the loop returns true exactly when some element satisfies the predicate (so false on an empty collection) |
| OclIterators.One | alaocl/__init__.py:538-571 | the loop returns true exactly when one element and no other satisfies the predicate |
| OclIterators.Any | alaocl/__init__.py:391-416 | the first element in iteration order satisfying the predicate when there is one, otherwise `Invalid` with the message of the source |
| OclIterators.IncludesAll | alaocl/__init__.py:375-379 | true exactly when every given element is in the receiver |
| OclIterators.ExcludesAll | alaocl/__init__.py:381-385 | true exactly when no given element is in the receiver |
| OclIterators.Dedup | alaocl/__init__.py:604-618 | the first occurrences of the sources: distinct, holding exactly the listed values |
| OclIterators.Enqueue | alaocl/__init__.py:614-616 | the successors not yet visited join the back of the queue, in order |
| OclIterators.Closure | alaocl/__init__.py:573-618 | the breadth-first walk visits each element once, starts with the sources in order without repeats, is closed under the successors, and visits only what the sources reach |
| OclIterators.IsUniqueOnBag | alaocl/__init__.py:624-625 | `isUnique` holds exactly when the bag of the flattened images has no duplicates |

## Left out

- Running the USE tool is not modelled. Its answers are parameters: `run` for `analyzeUSEModel`, `check` for the per-file check and `batch` for `evaluateSoilFilesWithUSEModel`. Process execution, temporary files and the output files are left out. `UseEngine` models only the driver text and the two command lines (analysis and batch).
- Reading files is not modelled. Each file appears as its text (`content`) or its lines. This covers `isEmptySoilFile`, the assertion markers, the `UseSoilSpecification` constructor and the model file of the analyzers.
- `AnnotatedSourceFile` and the reading constructor of `pyalaocl/utils/sources.py` are not modelled; `SourceErrors.SourceFile` keeps only the name, the lines and the error list that `addError` extends.
- Downloading and extracting archives are not modelled (`urlretrieve`, `mkstemp`, `zipfile`, `free` and `rmtree` in `tester.py`, and `pyalaocl/utils/zip.py`). The archive appears as its entry names. `ExtractEntries` records what extraction writes, and `ZipTestSuite.ExtractZipFile` takes the file system's answers (which paths exist, which are files) as parameters.
- `TestSuite.__init__` (pyalaocl/useocl/tester.py:83-88) only analyzes the `.use` file and runs the evaluation; `Tester.UseEvaluationAndAssertionResults` takes that evaluation as a parameter. `_computeTestId` returns its argument, `_checkZipTestSuite` does nothing and `CrossTestSuite` is empty, so none of them has a counterpart.
- Python's regular-expression engine is not modelled. Each fixed pattern is a hand-written recogniser over `seq<char>`. `\w` is `[A-Za-z0-9_]`, `\s` is Python 2's `string.whitespace`, and `re.IGNORECASE` folds ASCII letters only.
- Python 2 `str.upper`/`lower` in `startUpper`/`startLower` are taken on ASCII letters; other characters are unchanged.
- `ObjectSymbolChange` (pyalaocl/utils/symbols.py:139-159), `unload` and the `sys.modules` lookups are reflection, and `isBuiltin`'s `__builtin__` names and `hasattr(object, ...)` names are parameters of `Symbols.IsValidNewIdentifier`.
- Symbols.SymbolsOf: Python builds the dictionary from a set of pairs, so when two selected changes give one symbol different values the survivor depends on set order; the model keeps the later change, and unhashable values are not modelled.
- Printer.TypeText: a class-typed attribute prints in Python as the default text of the object (with its memory address); the model prints the class name. `repr` of enumeration literals is modelled for names without quotes or backslashes.
- The printer's `invariant` does nothing and has no counterpart.
- The resolver stubs for operations and subsets (pyalaocl/useocl/analyzer.py:400-430) and `ExpressionPath` (pyalaocl/useocl/model.py:290-298) do nothing and are not modelled.
- The violating objects of a FAILED invariant block are parsed and then dropped, because the source builds every `InvariantViolation` with `[]` (pyalaocl/useocl/evaluator.py:253-258). The model does the same (`Evaluator.WithViolationsStores`, `Evaluator.EvaluationOfBlocksDiscards`) and does not build the list the source leaves unfinished.
- The `alaocl` collections hold Python values. `OclValues.Value` has scalars and nested collections given by their listing, so a nested `Seq` or `Bag` is a value: `Seq.flatten` and `Bag.flatten` calling `flatten` on a nested collection, which changes that collection in place, is not modelled.
- OclValues.Flat: `flatten(value)` calls `value.flatten()` and catches only `NameError`, so on a plain Python list it raises `AttributeError`; the model flattens a nested collection whatever its kind.
- OclValues.Flat: a nested Set's own `flatten` removes duplicates, which the listing-based flattening keeps: `Seq(Set(Bag(2,2))).flatten()` is `Seq(2)` in Python, but `[2, 2]` through `OclSeqs.Seq.Flatten` and `OclBags.Bag.Flatten`.
- CheckBlocks.MatchEndLine: the cardinality is read within one line. Under `re.MULTILINE` the pattern's `[^']+` also matches a line break, so Python would capture `0..1\nX` from an association-end line that stops right after its cardinality `0..1`, followed by the line `X'.`. USE prints each cardinality on one line, so a cardinality holding a line break is not modelled.
- Soil.UseSoilSpecification.ExecuteAsWritten: `prefix` is fixed to its default `^`; a regular expression prefix given by the caller is not modelled. The same holds for `Soil.UseSoilSpecification.Execute`.
- SourceErrors.LocalizedDescription: only the default `pattern` `{file}:{line}:{column}: {message}` is modelled; a caller-given pattern is not. The same holds for `SourceErrors.IntendedLocalizedDescription`.
- A `Set` and a `Bag` are iterated in hash order; the iterators (`OclIterators`) take the receiver's listing instead, so `any` and `closure` are stated over a given iteration order.
- OclIterators.Closure: requires a finite set holding the sources and closed under the successors. Where the reachable values are infinite the source never stops, and that case is not modelled.
- Predicates and expressions are Dafny functions. `evaluate`/`evaluatePredicate` (`getattr`/`eval` on strings) and the `Invalid` raised for a predicate that does not return a boolean are not modelled.
- `Bag.new(bag)` reads `anyCollection.theBag`, which a `Bag` does not have (alaocl/__init__.py:1197). `OclBags.BagOf` models the listing case; the `Bag` case, which raises `AttributeError`, and the `Counter` case are not modelled.
- `subSequence`'s `except` is unreachable because slicing never raises; `OclSeqs.SubSequenceAsWritten` has no failure case for that reason.
- `Set.collectNested` builds a `Bag` of the images of the set's elements. It is `OclBags.BagCollectNested` applied to the set taken as a bag (`OclSets.SetAsBag`), and has no member of its own.
- Not modelled in `alaocl/__init__.py`:
  - `sortedBy`, `sum`, `max`, `min` and `floor` (these need an order or floating point);
  - `selectByKind`/`selectByType`, `oclIsKindOf`/`oclIsTypeOf` and the `Converter` dispatch on Python and Java types;
  - `__str__`, `__repr__`, `__hash__`, `__eq__` and `__getattr__`;
  - `iterate`, which raises `NotImplementedError`.
- `alaocl/useocl/__init__.py` builds the errors of `pyalaocl/useocl/errors.py` (module `UseErrors`). `alaocl/useocl/errors.py` is not part of this model.
- `saveCanonicalModelFile` and the other file writers are not modelled.
- Python's `OrderedDict` is `OrderedMaps.OrderedMap`: the keys in insertion order and a map. A re-assigned key keeps its place.

## Findings

| source | as written | input that shows it | evidently intended | confidence | as-written member | corrected member |
|---|---|---|---|---|---|---|
| pyalaocl/useocl/analyzer.py:53-82 | a closing parenthesis out of place makes the located-error branch call `int(column, filename)`, which raises `TypeError`; a plain error is appended to the file's errors by its constructor and again by the loop | the error line `a:1:2: m` | one error per error line, located when the line has a location, registered once | not executed | Analyzer.ReportFailsOnLocatedLine | Analyzer.IntendedReportErrorLines |
| pyalaocl/utils/errors.py:103-107 | `_ += error` extends the list of lines with the characters of the location text | the error `m` at line 1, column 2 of file `f`, described without the source part, takes eight lines | the location text as the last line of the description | not executed | SourceErrors.DescriptionOneCharacterPerLine | SourceErrors.IntendedDescriptionEndsWithStr |
| pyalaocl/utils/fragments.py:38-42 | `ancestors` calls `self.parents`, which `Fragment` does not define | `ancestors()` of any fragment below the root raises `AttributeError` | the chain of enclosing fragments up to the root | not executed | FragmentQueries.AncestorsAsWrittenFails | FragmentQueries.UpwardPathIsAncestors |
| pyalaocl/useocl/evaluator.py:133-141 | the empty files are removed from the list being iterated, so the file after a removed one is skipped | two empty state files `a.soil`, `b.soil`: `b.soil` stays a state file | every empty file moved to `emptyStateFiles` | not executed | Evaluator.FileAfterRemovalKept | Evaluator.SeparateEmptyFiles |
| pyalaocl/useocl/evaluator.py:143-149 | `USEEngine.checkSoilFileWithUSEModel` does not exist | one non-empty state file: the constructor raises `AttributeError` | the per-file check of the USE engine, dropping the files it rejects | not executed | Evaluator.UseEvaluationResults.FilterErroneousStateFilesAsWritten | Evaluator.UseEvaluationResults.FilterErroneousStateFiles |
| pyalaocl/useocl/evaluator.py:104-121 | `isCorrect` compares the transcript returned by `evaluateSoilFilesWithUSEModel` (None on failure) with 0 | any batch: `isCorrect` is False and the transcript is never parsed | correct exactly when the batch exits with 0, then parse the transcript | not executed | Evaluator.UseEvaluationResults.RunBatchAsWritten | Evaluator.UseEvaluationResults.RunBatch |
| pyalaocl/useocl/tester.py:29-46 | the constructor reads `wasExecutionValid`, which no class sets, after an evaluation that raises as above | any model and state files: the constructor raises | check each file's assertions when the run was correct | not executed | Tester.EvaluateWithAssertionsAsWritten | Tester.EvaluateWithAssertions |
| pyalaocl/useocl/tester.py:219-222 | the target directory is refused when it exists, with the message that it is not a directory | an existing target directory | refuse a target that exists and is not a directory | not executed | Tester.ExistingTargetRefused | Tester.ExtractionDirectory |
| pyalaocl/useocl/printer.py:84-85 | the superclasses of an association class, a list, are read with `.values()` | a resolved model with an association class that has a superclass: `do()` raises `AttributeError` | the superclass names, as for a class | not executed | Printer.AsWrittenRefusesSuperclasses | Printer.UseOclPrinter.DoIntended |
| alaocl/__init__.py:808-809 | `Set.isEmpty` returns the truth of `theSet` | `Set().isEmpty()` is False | true exactly on the empty set | not executed | OclSets.EmptinessInverted | OclSets.IsEmpty |
| alaocl/__init__.py:1578-1579 | `Seq.isEmpty` returns the truth of `theList` | `Seq().isEmpty()` is False | true exactly on the empty sequence | not executed | OclSeqs.SeqEmptinessInverted | OclSeqs.SeqIsEmpty |
| alaocl/__init__.py:1669-1695 | `at(0)` reads `theList[-1]` | `Seq(1,2,3).at(0)` is 3 | `Invalid` for an index outside 1 to the size | not executed | OclSeqs.AtZeroReturnsLast | OclSeqs.At |
| alaocl/__init__.py:1662-1667 | the slice `theList[lower - 1:upper]` never raises, so bad bounds are accepted | `Seq(1,2,3).subSequence(0, 3)` is `Seq(3)` | `Invalid` unless 1 <= lower <= upper <= size | not executed | OclSeqs.SubSequenceBadBounds | OclSeqs.SubSequence |
| alaocl/__init__.py:1587-1589 | `Seq.including` appends to the receiver's own list and returns it | `s = Seq(); s.including(1)` leaves `s` with one element | a new sequence, the receiver unchanged, as `Set.including` and `Bag.including` do | not executed | OclSeqs.IncludingChangesReceiver | OclSeqs.IncludingFreshKeepsReceiver |
| pyalaocl/utils/symbols.py:87-89 | `change in cls.symbolChanges` tests membership in a method, which raises `TypeError` | undoing any recorded scope change | remove the change from the log | not executed | Symbols.RemoveAfterRecord | Symbols.SymbolManager.Undo |
| pyalaocl/useocl/soil.py:129-148 | the `delete` branch has no `continue` and falls through to `NotImplementedError` | a link inserted then deleted | remove the link and go on with the next line | not executed | Soil.InsertThenDeleteAsWritten | Soil.InsertThenDelete |
