/** Recognisers for the line patterns of the canonical form that the USE
    tool prints for a model, one per regular expression of the parser.
    Each recogniser returns the captured groups exactly as Python's
    `re.match` does on a line without line breaks (canonical lines come
    from `splitlines()`), including the choices the backtracking matcher
    makes; its contract says that the line is the pattern's text with
    those groups filled in. */
module CanonicalLines {
  import opened Wrappers
  import opened Text

  // Scanning steps. Each one consumes a part of a pattern and says how
  // the text splits around it; the recognisers chain them.

  /** The text after a literal part of a pattern. */
  function Expect(s: string, token: string): (r: Option<string>)
    ensures r.Some? <==> StartsWith(s, token)
    ensures r.Some? ==> s == token + r.value
  {
    if StartsWith(s, token) then
      Peel(s, token);
      Some(s[|token|..])
    else None
  }

  /** The text before a literal part that ends the line. */
  function ExpectEnd(s: string, token: string): (r: Option<string>)
    ensures r.Some? <==> EndsWith(s, token)
    ensures r.Some? ==> s == r.value + token
  {
    if EndsWith(s, token) then
      PeelEnd(s, token);
      Some(s[..|s| - |token|])
    else None
  }

  /** Whether `s` starts with an optional literal part, and what follows it. */
  function OptionalToken(s: string, token: string): (r: (bool, string))
    ensures r.0 ==> s == token + r.1
    ensures !r.0 ==> r.1 == s && !StartsWith(s, token)
  {
    if StartsWith(s, token) then
      Peel(s, token);
      (true, s[|token|..])
    else (false, s)
  }

  /** A greedy `[...]+` over the characters satisfying `p`: the match
      (empty when there is none) and the rest. */
  function TakeWhile(s: string, p: char -> bool): (r: (string, string))
    ensures s == r.0 + r.1
    ensures AllChars(r.0, p)
    ensures r.1 != [] ==> !p(r.1[0])
  {
    var n := Span(s, p);
    assert s == s[..n] + s[n..];
    (s[..n], s[n..])
  }

  /** A greedy `\w+`. */
  function TakeWord(s: string): (r: (string, string))
    ensures s == r.0 + r.1
    ensures r.0 == [] || IsWord(r.0)
    ensures r.1 != [] ==> !IsWordChar(r.1[0])
  {
    TakeWhile(s, IsWordChar)
  }

  /** A line that starts with the token is accepted by `Expect`, which
      returns what follows the token. */
  lemma ExpectToken(token: string, rest: string)
    ensures Expect(token + rest, token) == Some(rest)
  {
    assert (token + rest)[..|token|] == token;
  }

  /** A greedy run stops exactly at the first character outside it. */
  lemma TakeWhileUnique(a: string, b: string, p: char -> bool)
    requires AllChars(a, p) && (b == [] || !p(b[0]))
    ensures TakeWhile(a + b, p) == (a, b)
  {
    SpanOfRun(a, b, p);
    assert (a + b)[..|a|] == a;
    assert (a + b)[|a|..] == b;
  }

  lemma {:induction false} SpanOfRun(a: string, b: string, p: char -> bool)
    requires AllChars(a, p) && (b == [] || !p(b[0]))
    ensures Span(a + b, p) == |a|
    decreases |a|
  {
    if a == [] {
      assert a + b == b;
    } else {
      assert (a + b)[1..] == a[1..] + b;
      assert (a + b)[0] == a[0];
      SpanOfRun(a[1..], b, p);
    }
  }

  /** `^(constraints|attributes|operations|    begin|    end||( *@(Test|Monitor)\(.*\)))$`:
      the empty alternative makes blank lines ignorable too. */
  predicate IsIgnorable(line: string) {
    line in {"constraints", "attributes", "operations", "    begin", "    end", ""} ||
    IsAnnotation(line[SpaceSpan(line)..])
  }

  /** `@Test(...)` or `@Monitor(...)` */
  predicate IsAnnotation(t: string) {
    (StartsWith(t, "@Test(") && |t| >= 7 && t[|t| - 1] == ')') ||
    (StartsWith(t, "@Monitor(") && |t| >= 10 && t[|t| - 1] == ')')
  }

  /** `^model (?P<name>\w+)$` */
  function MatchModel(line: string): (r: Option<string>)
    ensures r.Some? ==> IsWord(r.value) && line == "model " + r.value
    ensures forall n :: IsWord(n) && line == "model " + n ==> r == Some(n)
  {
    match Expect(line, "model ")
    case Some(n) => if IsWord(n) then Some(n) else None
    case None => None
  }

  datatype EnumMatch = EnumMatch(name: string, literals: string)

  /** `^enum (?P<name>\w+) { (?P<literals>.*) };?$`: the greedy `.*`
      leaves ` }` or ` };` at the end of the line. */
  function MatchEnum(line: string): (r: Option<EnumMatch>)
    ensures r.Some? ==> IsWord(r.value.name)
    ensures r.Some? ==>
      (line == "enum " + (r.value.name + (" { " + (r.value.literals + " }"))) ||
       line == "enum " + (r.value.name + (" { " + (r.value.literals + " };"))))
  {
    var t := Expect(line, "enum ");
    if t.None? then None
    else
      var (name, u) := TakeWord(t.value);
      var v := Expect(u, " { ");
      if name == [] || v.None? then None
      else
        var closing := if EndsWith(v.value, " };") then " };" else " }";
        var literals := ExpectEnd(v.value, closing);
        if literals.None? then None else Some(EnumMatch(name, literals.value))
  }

  datatype ClassMatch = ClassMatch(isAbstract: bool, name: string, superclasses: Option<string>)

  predicate IsSuperclassChar(c: char) { IsWordChar(c) || c == ',' }

  /** The line a class header with these groups reads. */
  function ClassHeader(keyword: string, trailer: string, m: ClassMatch): string {
    (if m.isAbstract then "abstract " else "") + ClassHeaderBody(keyword, trailer, m)
  }

  function ClassHeaderBody(keyword: string, trailer: string, m: ClassMatch): string {
    keyword + (" " + (m.name + ((if m.superclasses.Some? then " < " + m.superclasses.value else "") + trailer)))
  }

  /** `^((?P<abstract>abstract) )?<keyword> (?P<name>\w+)( < (?P<superclasses>(\w+|,)+))?<trailer>$`
      with keyword `class` and no trailer, or keyword `associationclass`
      and trailer ` between`. */
  function MatchClassHeader(line: string, keyword: string, trailer: string): (r: Option<ClassMatch>)
    ensures r.Some? ==> IsWord(r.value.name) && line == ClassHeader(keyword, trailer, r.value)
    ensures r.Some? && r.value.superclasses.Some? ==>
      |r.value.superclasses.value| > 0 && AllChars(r.value.superclasses.value, IsSuperclassChar)
  {
    var (isAbstract, t) := OptionalToken(line, "abstract ");
    MatchClassBody(t, keyword, trailer, isAbstract)
  }

  function MatchClassBody(t: string, keyword: string, trailer: string, isAbstract: bool): (r: Option<ClassMatch>)
    ensures r.Some? ==> r.value.isAbstract == isAbstract && IsWord(r.value.name)
    ensures r.Some? ==> t == ClassHeaderBody(keyword, trailer, r.value)
    ensures r.Some? && r.value.superclasses.Some? ==>
      |r.value.superclasses.value| > 0 && AllChars(r.value.superclasses.value, IsSuperclassChar)
  {
    var k := Expect(t, keyword);
    var u := if k.Some? then Expect(k.value, " ") else None;
    if u.None? then None
    else
      var (name, v) := TakeWord(u.value);
      var sc := MatchSuperclasses(v, trailer);
      if name == [] || sc.None? then None else Some(ClassMatch(isAbstract, name, sc.value))
  }

  /** The optional ` < <superclasses>` part and the trailer. */
  function MatchSuperclasses(v: string, trailer: string): (r: Option<Option<string>>)
    ensures r.Some? ==> v == (if r.value.Some? then " < " + r.value.value else "") + trailer
    ensures r.Some? && r.value.Some? ==> |r.value.value| > 0 && AllChars(r.value.value, IsSuperclassChar)
  {
    if v == trailer then Some(None)
    else
      var w := Expect(v, " < ");
      if w.None? then None
      else
        var (sc, rest) := TakeWhile(w.value, IsSuperclassChar);
        if sc != [] && rest == trailer then Some(Some(sc)) else None
  }

  datatype AttributeMatch = AttributeMatch(name: string, typeName: string)

  /** `^  (?P<name>\w+) : (?P<type>\w+)$` */
  function MatchAttribute(line: string): (r: Option<AttributeMatch>)
    ensures r.Some? ==> IsWord(r.value.name) && IsWord(r.value.typeName)
    ensures r.Some? ==> line == "  " + (r.value.name + (" : " + r.value.typeName))
  {
    var t := Expect(line, "  ");
    if t.None? then None
    else
      var (name, u) := TakeWord(t.value);
      var typeName := Expect(u, " : ");
      if name != [] && typeName.Some? && IsWord(typeName.value) then
        Some(AttributeMatch(name, typeName.value))
      else None
  }

  datatype OperationMatch = OperationMatch(name: string, paramsAndResult: string)

  /** `^  (?P<name>\w+)(?P<params_and_result>[^=]*)( = )?$`: the name is
      the whole leading word; the rest holds no `=`, except for a final
      ` = ` that backtracking leaves out of the signature. */
  function MatchOperation(line: string): (r: Option<OperationMatch>)
    ensures r.Some? ==> IsWord(r.value.name) && '=' !in r.value.paramsAndResult
    ensures r.Some? ==>
      line == "  " + (r.value.name + r.value.paramsAndResult) ||
      line == "  " + (r.value.name + (r.value.paramsAndResult + " = "))
  {
    var t := Expect(line, "  ");
    if t.None? then None
    else
      var (name, u) := TakeWord(t.value);
      if name == [] then None
      else if '=' !in u then Some(OperationMatch(name, u))
      else
        var p := ExpectEnd(u, " = ");
        if p.Some? && '=' !in p.value then Some(OperationMatch(name, p.value)) else None
  }

  /** `^    (?P<expression>[^ ].*)$`: four spaces, then a non-space. */
  function MatchOperationExpression(line: string): (r: Option<string>)
    ensures r.Some? ==> line == "    " + r.value && |r.value| > 0 && r.value[0] != ' '
    ensures r.Some? <==> |line| > 4 && line[..4] == "    " && line[4] != ' '
  {
    var e := Expect(line, "    ");
    if e.Some? && |e.value| > 0 && e.value[0] != ' ' then e else None
  }

  datatype AssociationMatch = AssociationMatch(kind: string, name: string)

  /** `^(?P<kind>association|composition|aggregation) (?P<name>\w+) between$` */
  function MatchAssociation(line: string): (r: Option<AssociationMatch>)
    ensures r.Some? ==> r.value.kind in {"association", "composition", "aggregation"} && IsWord(r.value.name)
    ensures r.Some? ==> line == r.value.kind + (" " + (r.value.name + " between"))
  {
    var a := MatchAssociationName(line, "association");
    var c := MatchAssociationName(line, "composition");
    if a.Some? then a
    else if c.Some? then c
    else MatchAssociationName(line, "aggregation")
  }

  function MatchAssociationName(line: string, kind: string): (r: Option<AssociationMatch>)
    ensures r.Some? ==> r.value.kind == kind && IsWord(r.value.name)
    ensures r.Some? ==> line == kind + (" " + (r.value.name + " between"))
  {
    var k := Expect(line, kind);
    var t := if k.Some? then Expect(k.value, " ") else None;
    if t.None? then None
    else
      var name := ExpectEnd(t.value, " between");
      if name.Some? && IsWord(name.value) then Some(AssociationMatch(kind, name.value)) else None
  }

  /** The groups of a role line. */
  datatype RoleMatch = RoleMatch(
    typeName: string,
    cardinality: string,
    name: string,
    qualifiers: Option<string>,
    subsets: string,
    isUnion: bool,
    isOrdered: bool,
    expression: Option<string>)

  predicate IsQualifierChar(c: char) { IsWordChar(c) || c == ' ' || c == ':' || c == ',' }

  predicate IsCardinalityChar(c: char) { c != ']' }

  /** The line a role with these groups reads. */
  function RoleLine(m: RoleMatch): string {
    "  " + (m.typeName + ("[" + (m.cardinality + ("] role " + (m.name + RoleTail(m))))))
  }

  function RoleTail(m: RoleMatch): string {
    if m.qualifiers.Some? then " qualifier (" + (m.qualifiers.value + (")" + RoleOptions(m))) else RoleOptions(m)
  }

  function RoleOptions(m: RoleMatch): string {
    m.subsets + RoleFlags(m)
  }

  function RoleFlags(m: RoleMatch): string {
    (if m.isUnion then " union" else "") +
    ((if m.isOrdered then " ordered" else "") +
     (if m.expression.Some? then " derived = " + m.expression.value else ""))
  }

  /** `^  (?P<type>\w+)\[(?P<cardinality>[^\]]+)\] role (?P<name>\w+)
      ( qualifier \((?P<qualifiers>(\w| |:|,)*)\))?(?P<subsets>( subsets \w+)*)
      ( (?P<union>union))?( (?P<ordered>ordered))?( (derived = (?P<expression>.*)))?$` */
  function MatchRole(line: string): (r: Option<RoleMatch>)
    ensures r.Some? ==> line == RoleLine(r.value)
    ensures r.Some? ==>
      IsWord(r.value.typeName) && IsWord(r.value.name) && |r.value.cardinality| > 0 && ']' !in r.value.cardinality
  {
    var t := Expect(line, "  ");
    if t.None? then None
    else
      var (typeName, u) := TakeWord(t.value);
      var v := Expect(u, "[");
      if typeName == [] || v.None? then None
      else
        var (cardinality, w) := TakeWhile(v.value, IsCardinalityChar);
        var x := Expect(w, "] role ");
        if cardinality == [] || x.None? then None
        else
          var (name, y) := TakeWord(x.value);
          var tail := MatchRoleTail(y);
          if name == [] || tail.None? then None
          else
            var m := tail.value.(typeName := typeName, cardinality := cardinality, name := name);
            NoClosingBracket(cardinality);
            TailIgnoresHead(tail.value, m);
            Some(m)
  }

  lemma TailIgnoresHead(o: RoleMatch, m: RoleMatch)
    requires m == o.(typeName := m.typeName, cardinality := m.cardinality, name := m.name)
    ensures RoleTail(m) == RoleTail(o)
  {
    assert RoleFlags(m) == RoleFlags(o);
  }

  lemma NoClosingBracket(s: string)
    requires AllChars(s, IsCardinalityChar)
    ensures ']' !in s
  {
    forall i | 0 <= i < |s| ensures s[i] != ']' {
      assert IsCardinalityChar(s[i]);
    }
  }

  /** What follows the role name; the first three fields of the result
      are left empty. */
  function MatchRoleTail(tail: string): (r: Option<RoleMatch>)
    ensures r.Some? ==> RoleTail(r.value) == tail
  {
    var y := Expect(tail, " qualifier (");
    if y.None? then MatchRoleOptions(tail)
    else
      var (qualifiers, z) := TakeWhile(y.value, IsQualifierChar);
      var rest := Expect(z, ")");
      if rest.None? then None
      else
        var r := MatchRoleOptions(rest.value);
        if r.None? then None
        else
          var o := r.value;
          var m := RoleMatch("", "", "", Some(qualifiers), o.subsets, o.isUnion, o.isOrdered, o.expression);
          assert RoleOptions(m) == RoleOptions(o) by {
            assert RoleFlags(m) == RoleFlags(o);
          }
          Some(m)
  }

  /** The ` subsets`, ` union`, ` ordered` and ` derived = ` parts, in
      this order, each optional; ` subsets <name>` may repeat. */
  function MatchRoleOptions(s: string): (r: Option<RoleMatch>)
    ensures r.Some? ==> r.value.qualifiers.None? && RoleOptions(r.value) == s
  {
    var k := SubsetsSpan(s);
    assert s == s[..k] + s[k..];
    MatchRoleFlags(s[..k], s[k..])
  }

  /** The options once the ` subsets` parts are known. */
  function MatchRoleFlags(subsets: string, a: string): (r: Option<RoleMatch>)
    ensures r.Some? ==> r.value.qualifiers.None? && r.value.subsets == subsets && RoleFlags(r.value) == a
  {
    var (isUnion, b) := OptionalToken(a, " union");
    var (isOrdered, c) := OptionalToken(b, " ordered");
    var (derived, e) := OptionalToken(c, " derived = ");
    if derived || e == "" then
      var m := RoleMatch("", "", "", None, subsets, isUnion, isOrdered, if derived then Some(e) else None);
      RoleOptionsParts(m, a, b, c);
      Some(m)
    else None
  }

  lemma RoleOptionsParts(m: RoleMatch, a: string, b: string, c: string)
    requires m.isUnion ==> a == " union" + b
    requires !m.isUnion ==> a == b
    requires m.isOrdered ==> b == " ordered" + c
    requires !m.isOrdered ==> b == c
    requires m.expression.Some? ==> c == " derived = " + m.expression.value
    requires m.expression.None? ==> c == ""
    ensures RoleFlags(m) == a
  {
  }

  /** Length of the longest prefix of `s` made of ` subsets <word>` parts. */
  function SubsetsSpan(s: string): (k: nat)
    ensures k <= |s|
    decreases |s|
  {
    if StartsWith(s, " subsets ") && WordSpan(s[9..]) > 0 then
      9 + WordSpan(s[9..]) + SubsetsSpan(s[9 + WordSpan(s[9..])..])
    else 0
  }

  datatype InvariantMatch = InvariantMatch(variables: string, className: string, isExistential: bool, name: string)

  predicate IsVariablesChar(c: char) { IsWordChar(c) || c == ' ' || c == ',' }

  function InvariantHeader(m: InvariantMatch): string {
    "context " + (m.variables + InvariantHeaderRest(m))
  }

  function InvariantHeaderRest(m: InvariantMatch): string {
    " : " + (m.className + ((if m.isExistential then " existential" else "") + (" inv " + (m.name + ":"))))
  }

  /** `^context (?P<vars>(\w| |,)+) : (?P<class>\w+)( (?P<existential>existential))? inv (?P<name>\w+):$`:
      the variables cannot hold a colon, so they end one character
      before the first colon of the line. */
  function MatchInvariantHeader(line: string): (r: Option<InvariantMatch>)
    ensures r.Some? ==>
      IsWord(r.value.className) && IsWord(r.value.name) &&
      |r.value.variables| > 0 && AllChars(r.value.variables, IsVariablesChar)
    ensures r.Some? ==> line == InvariantHeader(r.value)
  {
    var t := Expect(line, "context ");
    if t.None? then None
    else
      var (run, u) := TakeWhile(t.value, IsVariablesChar);
      if |run| < 2 || run[|run| - 1] != ' ' then None
      else
        var variables := run[..|run| - 1];
        var rest := MatchInvariantRest(" " + u);
        if rest.None? then None
        else
          var o := rest.value;
          var m := InvariantMatch(variables, o.className, o.isExistential, o.name);
          DropLastSpace(run, u);
          assert InvariantHeaderRest(m) == InvariantHeaderRest(o);
          Some(m)
  }

  lemma DropLastSpace(run: string, u: string)
    requires |run| > 0 && run[|run| - 1] == ' ' && AllChars(run, IsVariablesChar)
    ensures run + u == run[..|run| - 1] + (" " + u)
    ensures AllChars(run[..|run| - 1], IsVariablesChar)
  {
    assert run == run[..|run| - 1] + " ";
  }

  /** From the ` : ` after the variables to the end of the header; the
      variables are left empty. */
  function MatchInvariantRest(u: string): (r: Option<InvariantMatch>)
    ensures r.Some? ==> IsWord(r.value.className) && IsWord(r.value.name) && u == InvariantHeaderRest(r.value)
  {
    var w := Expect(u, " : ");
    if w.None? then None
    else
      var (className, x) := TakeWord(w.value);
      var (isExistential, y) := OptionalToken(x, " existential");
      var z := Expect(y, " inv ");
      if className == [] || z.None? then None
      else
        var (name, colon) := TakeWord(z.value);
        if name != [] && colon == ":" then
          var m := InvariantMatch("", className, isExistential, name);
          assert x == (if isExistential then " existential" else "") + y;
          Some(m)
        else None
  }

  /** `^  (?P<expression>[^ ].*)$`: two spaces, then a non-space. */
  function MatchInvariantExpression(line: string): (r: Option<string>)
    ensures r.Some? ==> line == "  " + r.value && |r.value| > 0 && r.value[0] != ' '
  {
    var e := Expect(line, "  ");
    if e.Some? && |e.value| > 0 && e.value[0] != ' ' then e else None
  }

  datatype ConditionHeaderMatch = ConditionHeaderMatch(className: string, signature: string)

  /** `^context (?P<class>\w+)::(?P<signature>\w+.*)$` */
  function MatchConditionHeader(line: string): (r: Option<ConditionHeaderMatch>)
    ensures r.Some? ==> IsWord(r.value.className) && |r.value.signature| > 0 && IsWordChar(r.value.signature[0])
    ensures r.Some? ==> line == "context " + (r.value.className + ("::" + r.value.signature))
  {
    var t := Expect(line, "context ");
    if t.None? then None
    else
      var (className, u) := TakeWord(t.value);
      var signature := Expect(u, "::");
      if className != [] && signature.Some? && |signature.value| > 0 && IsWordChar(signature.value[0]) then
        Some(ConditionHeaderMatch(className, signature.value))
      else None
  }

  datatype ConditionBodyMatch = ConditionBodyMatch(kind: string, name: string, expression: string)

  /** `^  (?P<kind>(pre|post)) (?P<name>\w+): (?P<expression>.*)$` */
  function MatchConditionBody(line: string): (r: Option<ConditionBodyMatch>)
    ensures r.Some? ==> r.value.kind in {"pre", "post"} && IsWord(r.value.name)
    ensures r.Some? ==> line == "  " + (r.value.kind + (" " + (r.value.name + (": " + r.value.expression))))
  {
    var pre := MatchConditionRest(line, "pre");
    if pre.Some? then pre else MatchConditionRest(line, "post")
  }

  function MatchConditionRest(line: string, kind: string): (r: Option<ConditionBodyMatch>)
    ensures r.Some? ==> r.value.kind == kind && IsWord(r.value.name)
    ensures r.Some? ==> line == "  " + (kind + (" " + (r.value.name + (": " + r.value.expression))))
  {
    var k := Expect(line, "  ");
    var k2 := if k.Some? then Expect(k.value, kind) else None;
    var t := if k2.Some? then Expect(k2.value, " ") else None;
    if t.None? then None
    else
      var (name, u) := TakeWord(t.value);
      var expression := Expect(u, ": ");
      if name != [] && expression.Some? then Some(ConditionBodyMatch(kind, name, expression.value)) else None
  }

  /** The groups of an error line of the USE tool; `separator` is the
      alternative that matched and `colon` whether the optional colon
      after the column did. */
  datatype ErrorLineMatch = ErrorLineMatch(
    fileName: string, separator: string, line: string, column: string, colon: bool, message: string)

  function ErrorLineText(m: ErrorLineMatch): string {
    m.fileName + (m.separator + (m.line + (":" + (m.column + ((if m.colon then ":" else "") + m.message)))))
  }

  /** `^(?P<filename>.*)(:|:line | line )(?P<line>\d+):(?P<column>\d+)(:)?(?P<message>.+)$`.
      The greedy file name makes the matcher try the longest file name
      first, and the three separators in their order at each length. */
  function MatchErrorLine(line: string): (r: Option<ErrorLineMatch>)
    ensures r.Some? ==> line == ErrorLineText(r.value)
    ensures r.Some? ==>
      r.value.separator in {":", ":line ", " line "} && IsDigits(r.value.line) && IsDigits(r.value.column) &&
      |r.value.message| > 0
  {
    MatchSound(line);
    MatchWellFormed(line);
    LongestFirst(MatchAtLength(line), |line|)
  }

  /** What the search finds reassembles into the line. */
  lemma MatchSound(line: string)
    ensures var r := LongestFirst(MatchAtLength(line), |line|);
      r.Some? ==> line == ErrorLineText(r.value)
  {
    var r := LongestFirst(MatchAtLength(line), |line|);
    if r.Some? {
      var g := LongestFirstFound(MatchAtLength(line), |line|);
      MatchAtLengthSound(line, g);
    }
  }

  lemma MatchAtLengthSound(line: string, g: nat)
    requires g <= |line|
    ensures MatchAtLength(line)(g).Some? ==> line == ErrorLineText(MatchAtLength(line)(g).value)
  {
    MatchAtSound(line[..g], line[g..]);
    assert line[..g] + line[g..] == line;
  }

  /** What the search finds has the parts the pattern describes. */
  lemma MatchWellFormed(line: string)
    ensures var r := LongestFirst(MatchAtLength(line), |line|);
      r.Some? ==> WellFormedErrorLine(r.value)
  {
    var r := LongestFirst(MatchAtLength(line), |line|);
    if r.Some? {
      var g := LongestFirstFound(MatchAtLength(line), |line|);
      assert r == MatchErrorLineAt(line[..g], line[g..]);
    }
  }

  /** The match whose file name is the first `g` characters of the line. */
  function MatchAtLength(line: string): nat -> Option<ErrorLineMatch> {
    (g: nat) => if g <= |line| then MatchErrorLineAt(line[..g], line[g..]) else None
  }

  lemma MatchAtSound(fileName: string, t: string)
    ensures MatchErrorLineAt(fileName, t).Some? ==> fileName + t == ErrorLineText(MatchErrorLineAt(fileName, t).value)
  {
  }

  /** The first success of `at` at `f`, `f - 1`, ..., `0`: the search a
      greedy prefix makes, longest first. */
  function LongestFirst<T>(at: nat -> Option<T>, f: nat): Option<T>
    decreases f
  {
    if at(f).Some? then at(f)
    else if f == 0 then None
    else LongestFirst(at, f - 1)
  }

  /** What the search finds is the success at some length up to `f`. */
  lemma {:induction false} LongestFirstFound<T>(at: nat -> Option<T>, f: nat) returns (g: nat)
    requires LongestFirst(at, f).Some?
    ensures g <= f && at(g) == LongestFirst(at, f)
    decreases f
  {
    if at(f).Some? {
      g := f;
    } else {
      g := LongestFirstFound(at, f - 1);
    }
  }

  /** The search succeeds when `at` succeeds at some length up to `f`. */
  lemma {:induction false} LongestFirstFinds<T>(at: nat -> Option<T>, f: nat, n: nat)
    requires n <= f && at(n).Some?
    ensures LongestFirst(at, f).Some?
    decreases f
  {
    if f > n && at(f).None? {
      LongestFirstFinds(at, f - 1, n);
    }
  }

  /** A match with this file name, trying the separators in order. */
  function MatchErrorLineAt(fileName: string, t: string): (r: Option<ErrorLineMatch>)
    ensures r.Some? ==> r.value.fileName == fileName
    ensures r.Some? ==>
      r.value.separator in {":", ":line ", " line "} && IsDigits(r.value.line) && IsDigits(r.value.column) &&
      |r.value.message| > 0
  {
    var a := MatchLocationAfter(fileName, t, ":");
    var b := MatchLocationAfter(fileName, t, ":line ");
    if a.Some? then a
    else if b.Some? then b
    else MatchLocationAfter(fileName, t, " line ")
  }

  function MatchLocationAfter(fileName: string, t: string, separator: string): (r: Option<ErrorLineMatch>)
    ensures r.Some? ==> r.value.fileName == fileName && r.value.separator == separator
    ensures r.Some? ==> fileName + t == ErrorLineText(r.value)
    ensures r.Some? ==> IsDigits(r.value.line) && IsDigits(r.value.column) && |r.value.message| > 0
  {
    var rest := Expect(t, separator);
    if rest.None? then None
    else
      var l := MatchLocation(rest.value);
      if l.None? then None
      else Some(l.value.(fileName := fileName, separator := separator))
  }

  /** `(?P<line>\d+):(?P<column>\d+)(:)?(?P<message>.+)$`. */
  function MatchLocation(s: string): (r: Option<ErrorLineMatch>)
    ensures r.Some? ==> r.value.fileName == "" && r.value.separator == ""
    ensures r.Some? ==> s == r.value.line + (":" + (r.value.column + ((if r.value.colon then ":" else "") + r.value.message)))
    ensures r.Some? ==> IsDigits(r.value.line) && IsDigits(r.value.column) && |r.value.message| > 0
  {
    var (line, u) := TakeWhile(s, IsDigit);
    var v := Expect(u, ":");
    if line == [] || v.None? then None
    else
      var c := MatchColumn(v.value);
      if c.None? then None
      else Some(ErrorLineMatch("", "", line, c.value.0, c.value.1, c.value.2))
  }

  /** `(?P<column>\d+)(:)?(?P<message>.+)$` with the matcher's
      backtracking: when nothing follows the column, its last digit
      becomes the message. */
  function MatchColumn(s: string): (r: Option<(string, bool, string)>)
    ensures r.Some? ==> s == r.value.0 + ((if r.value.1 then ":" else "") + r.value.2)
    ensures r.Some? ==> IsDigits(r.value.0) && |r.value.2| > 0
  {
    var (column, w) := TakeWhile(s, IsDigit);
    if column == [] then None
    else if |w| > 0 then
      if w[0] == ':' && |w| > 1 then
        assert w == ":" + w[1..];
        Some((column, true, w[1..]))
      else Some((column, false, w))
    else if |column| >= 2 then
      assert column == column[..|column| - 1] + [column[|column| - 1]];
      Some((column[..|column| - 1], false, [column[|column| - 1]]))
    else None
  }

  /** The parts of an error line that the pattern describes. */
  predicate WellFormedErrorLine(m: ErrorLineMatch) {
    m.separator in {":", ":line ", " line "} && IsDigits(m.line) && IsDigits(m.column) && |m.message| > 0
  }

  /** Every line assembled from well-formed parts is recognised (perhaps
      with other parts: the greedy file name may take more of the line). */
  lemma ErrorLineRecognised(m: ErrorLineMatch)
    requires WellFormedErrorLine(m)
    ensures MatchErrorLine(ErrorLineText(m)).Some?
  {
    var line := ErrorLineText(m);
    var loc := m.line + (":" + (m.column + ((if m.colon then ":" else "") + m.message)));
    LocationRecognised(m.line, m.column, m.colon, m.message);
    LocationAfterRecognised(m.fileName, m.separator, loc);
    assert line[..|m.fileName|] == m.fileName;
    assert line[|m.fileName|..] == m.separator + loc;
    assert MatchAtLength(line)(|m.fileName|).Some?;
    LongestFirstFinds(MatchAtLength(line), |line|, |m.fileName|);
  }

  lemma LocationRecognised(line: string, column: string, colon: bool, message: string)
    requires IsDigits(line) && IsDigits(column) && |message| > 0
    ensures MatchLocation(line + (":" + (column + ((if colon then ":" else "") + message)))).Some?
  {
    var tail := (if colon then ":" else "") + message;
    var rest := column + tail;
    TakeWhileUnique(line, ":" + rest, IsDigit);
    ExpectToken(":", rest);
    var (c, w) := TakeWhile(rest, IsDigit);
    assert c != [] by { assert IsDigit(rest[0]); }
    if w == [] {
      assert |c| == |rest| >= 2;
    }
  }

  lemma LocationAfterRecognised(fileName: string, separator: string, loc: string)
    requires separator in {":", ":line ", " line "} && MatchLocation(loc).Some?
    ensures MatchErrorLineAt(fileName, separator + loc).Some?
  {
    var t := separator + loc;
    ExpectToken(separator, loc);
    if separator == " line " {
      assert !StartsWith(t, ":") by { assert t[0] == ' '; }
    }
  }
}
