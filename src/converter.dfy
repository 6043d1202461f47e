/** `UseOCLConverter`: turns canonical USE OCL invariants into Python
    text through an ordered table of regular-expression substitutions,
    each written here as a recogniser of one match at the start of a
    string. */
module Converter {
  import opened Wrappers
  import opened Text
  import opened CanonicalLines

  const Iterators: seq<string> :=
    ["select", "reject", "forAll", "exists", "one", "any", "isUnique", "closure", "collect", "collectNested"]

  const CollectionOperators0: seq<string> := ["size", "sum", "max", "min", "asSet", "asBag", "asSequence"]

  /** One substitution of the table. */
  datatype Rewrite =
    | Literal(pattern: string, target: string)   // a pattern without special characters
    | CollectionOperator                         // `->(size|sum|...)` to `.\1()`
    | IteratorLambda                             // `->(select|...)\(\$([a-z0-9]+) : \w+ \| ` to `.\1(lambda \2: `
    | ElementVariable                            // `\$(elem[0-9]+)` to `\1`
    | InvariantHeader                            // `context self : (\w+) inv (\w+):`

  /** A match at the start of the text: how much it covers and what
      replaces it. */
  datatype Match = Match(length: nat, replacement: string)

  /** `oclExpressionReplacements`, in order. */
  const Rules: seq<Rewrite> := [
    Literal(" = ", " == "),
    Literal(" implies ", " |implies| "),
    Literal(" xor ", " ^ "),
    Literal(" div ", " / "),
    Literal("->notEmpty", " is not None"),
    Literal("->isEmpty", " is None"),
    CollectionOperator,
    IteratorLambda,
    Literal("$e", "e"),
    ElementVariable
  ]

  predicate IsLowerOrDigit(c: char) { 'a' <= c <= 'z' || IsDigit(c) }

  predicate AllLetters(w: string) {
    forall i :: 0 <= i < |w| ==> IsLetter(w[i])
  }

  /** The first of `words` the text starts with: the alternative a
      regular-expression alternation tries first. */
  function FirstPrefix(words: seq<string>, s: string): (r: Option<string>)
    ensures r.Some? ==> StartsWith(s, r.value)
    decreases |words|
  {
    if words == [] then None
    else if StartsWith(s, words[0]) then Some(words[0])
    else FirstPrefix(words[1..], s)
  }

  /** `\(\$([a-z0-9]+) : \w+ \| ` at the start of `u`: the variable and
      the text after the match. */
  function LambdaHead(u: string): (r: Option<(string, string)>)
    ensures r.Some? ==> |r.value.1| < |u| && u[0] == '('
  {
    match Expect(u, "($")
    case None => None
    case Some(body) =>
      var (v, tail1) := TakeWhile(body, IsLowerOrDigit);
      if v == [] then None
      else
        match Expect(tail1, " : ")
        case None => None
        case Some(tail2) =>
          var (t, tail3) := TakeWord(tail2);
          if t == [] then None
          else
            match Expect(tail3, " | ")
            case None => None
            case Some(rest) => Some((v, rest))
  }

  /** The first iterator after which the lambda head matches, with the
      variable and the text after the head: the alternation backtracks
      from `collect` to `collectNested`. */
  function FirstIterator(words: seq<string>, s: string): (r: Option<(string, string, string)>)
    ensures r.Some? ==> |r.value.2| < |s|
    decreases |words|
  {
    if words == [] then None
    else if StartsWith(s, words[0]) && LambdaHead(s[|words[0]|..]).Some? then
      var h := LambdaHead(s[|words[0]|..]).value;
      Some((words[0], h.0, h.1))
    else FirstIterator(words[1..], s)
  }

  /** The character every match of a rule begins with. */
  function Trigger(rule: Rewrite): char {
    match rule
    case Literal(p, _) => if p == [] then ' ' else p[0]
    case CollectionOperator => '-'
    case IteratorLambda => '-'
    case ElementVariable => '$'
    case InvariantHeader => 'c'
  }

  function LiteralMatch(p: string, t: string, s: string): (r: Option<Match>)
    ensures r.Some? ==> 0 < r.value.length <= |s| && p != [] && s[0] == p[0]
  {
    if p != [] && StartsWith(s, p) then Some(Match(|p|, t)) else None
  }

  function OperatorMatch(s: string): (r: Option<Match>)
    ensures r.Some? ==> 0 < r.value.length <= |s| && s[0] == '-'
  {
    match Expect(s, "->")
    case None => None
    case Some(u) =>
      match FirstPrefix(CollectionOperators0, u)
      case None => None
      case Some(w) => Some(Match(2 + |w|, "." + w + "()"))
  }

  function LambdaMatch(s: string): (r: Option<Match>)
    ensures r.Some? ==> 0 < r.value.length <= |s| && s[0] == '-'
  {
    match Expect(s, "->")
    case None => None
    case Some(u) =>
      match FirstIterator(Iterators, u)
      case None => None
      case Some((w, v, rest)) => Some(Match(|s| - |rest|, "." + w + "(lambda " + v + ": "))
  }

  function ElementMatch(s: string): (r: Option<Match>)
    ensures r.Some? ==> 0 < r.value.length <= |s| && s[0] == '$'
  {
    match Expect(s, "$elem")
    case None => None
    case Some(u) =>
      var (d, _) := TakeWhile(u, IsDigit);
      if d == [] then None else Some(Match(5 + |d|, "elem" + d))
  }

  function HeaderMatch(s: string): (r: Option<Match>)
    ensures r.Some? ==> 0 < r.value.length <= |s| && s[0] == 'c'
  {
    match Expect(s, "context self : ")
    case None => None
    case Some(u) =>
      var (c, tail1) := TakeWord(u);
      if c == [] then None
      else
        match Expect(tail1, " inv ")
        case None => None
        case Some(v) =>
          var (n, tail2) := TakeWord(v);
          if n == [] then None
          else
            match Expect(tail2, ":")
            case None => None
            case Some(rest) => Some(Match(|s| - |rest|, "@invariant(" + c + ")\ndef invariant_" + n + "(self):"))
  }

  /** The match of `rule` at the start of `s`, if any. */
  function MatchRule(rule: Rewrite, s: string): (r: Option<Match>)
    ensures r.Some? ==> 0 < r.value.length <= |s| && s[0] == Trigger(rule)
  {
    match rule
    case Literal(p, t) => LiteralMatch(p, t, s)
    case CollectionOperator => OperatorMatch(s)
    case IteratorLambda => LambdaMatch(s)
    case ElementVariable => ElementMatch(s)
    case InvariantHeader => HeaderMatch(s)
  }

  /** `re.sub(pattern, target, s)`: every match, leftmost first and
      without overlap, replaced. */
  function Sub(rule: Rewrite, s: string): string
    decreases |s|
  {
    if s == [] then []
    else
      match MatchRule(rule, s)
      case Some(m) => m.replacement + Sub(rule, s[m.length..])
      case None => [s[0]] + Sub(rule, s[1..])
  }

  /** One step of `re.sub` at a match. */
  lemma SubStep(rule: Rewrite, s: string, m: Match)
    requires s != [] && MatchRule(rule, s) == Some(m)
    ensures Sub(rule, s) == m.replacement + Sub(rule, s[m.length..])
  {
  }

  /** The first `|rules|` substitutions, one after another. */
  function Rewritten(rules: seq<Rewrite>, s: string): string
    decreases |rules|
  {
    if rules == [] then s else Sub(rules[|rules| - 1], Rewritten(rules[..|rules| - 1], s))
  }

  /** `convertCanonicalOCLExpression` */
  function ConvertedExpression(e: string): string {
    "return " + Rewritten(Rules, e)
  }

  /** `convertCanonicalOCLInvariantHeader` */
  function ConvertedHeader(line: string): string {
    Sub(InvariantHeader, line)
  }

  /** How `convertCanonicalOCLInvariants` treats one line. */
  function ConvertedLine(line: string): string {
    if StartsWith(line, "  ") then ConvertedExpression(line)
    else if StartsWith(line, "context ") then ConvertedHeader(line)
    else line
  }

  function FirstIndex(lines: seq<string>, x: string): (r: Option<nat>)
    ensures r.Some? ==> r.value < |lines| && lines[r.value] == x && x !in lines[..r.value]
    ensures r.None? <==> x !in lines
    decreases |lines|
  {
    if lines == [] then None
    else if lines[0] == x then Some(0)
    else
      match FirstIndex(lines[1..], x)
      case None => None
      case Some(i) =>
        assert lines[..i + 1] == [lines[0]] + lines[1..][..i];
        Some(i + 1)
  }

  /** `convertCanonicalOCLInvariants`: from the first `constraints` line
      on, every line converted; a specification without one raises. */
  function ConvertedInvariants(lines: seq<string>): (r: Result<seq<string>>)
    ensures r.Err? <==> "constraints" !in lines
  {
    match FirstIndex(lines, "constraints")
    case None => Err(ValueError("'constraints' is not in list"))
    case Some(i) => Ok(ConvertedLines(lines[i..]))
  }

  /** Every line converted, in order. */
  function ConvertedLines(lines: seq<string>): seq<string> {
    MapLines(ConvertedLine, lines)
  }

  /** `f` applied to every line, in order. */
  function MapLines(f: string -> string, lines: seq<string>): seq<string>
    decreases |lines|
  {
    if lines == [] then [] else MapLines(f, lines[..|lines| - 1]) + [f(lines[|lines| - 1])]
  }

  lemma MapLinesStep(f: string -> string, lines: seq<string>, i: nat, j: nat)
    requires i <= j < |lines|
    ensures MapLines(f, lines[i..j + 1]) == MapLines(f, lines[i..j]) + [f(lines[j])]
  {
    var next := lines[i..j + 1];
    assert next[..|next| - 1] == lines[i..j];
  }

  lemma {:induction false} ConvertedLinesAt(lines: seq<string>)
    ensures |ConvertedLines(lines)| == |lines|
    ensures forall k :: 0 <= k < |lines| ==> ConvertedLines(lines)[k] == ConvertedLine(lines[k])
  {
    MapLinesAt(ConvertedLine, lines);
  }

  lemma {:induction false} MapLinesAt(f: string -> string, lines: seq<string>)
    ensures |MapLines(f, lines)| == |lines|
    ensures forall k :: 0 <= k < |lines| ==> MapLines(f, lines)[k] == f(lines[k])
    decreases |lines|
  {
    if lines != [] {
      MapLinesAt(f, lines[..|lines| - 1]);
    }
  }

  /** Without a `constraints` line the conversion raises `ValueError`;
      with one, the result is the converted lines from the first of them
      to the end. */
  lemma InvariantsConverted(lines: seq<string>)
    ensures var r := ConvertedInvariants(lines);
            && (r.Err? ==> r.error == ValueError("'constraints' is not in list"))
            && (r.Ok? ==> 0 < |r.value| <= |lines| && lines[|lines| - |r.value|] == "constraints")
            && (r.Ok? ==> "constraints" !in lines[..|lines| - |r.value|])
            && (r.Ok? ==> forall k :: 0 <= k < |r.value| ==> r.value[k] == ConvertedLine(lines[|lines| - |r.value| + k]))
  {
    match FirstIndex(lines, "constraints")
    case None =>
    case Some(i) =>
      ConvertedLinesAt(lines[i..]);
      var converted := ConvertedInvariants(lines).value;
      assert |lines| - |converted| == i;
  }

  /** `convertCanonicalOCLExpression`, applying the table rule by rule. */
  method ConvertExpression(e: string) returns (r: string)
    ensures r == ConvertedExpression(e)
  {
    var result := e;
    for i := 0 to |Rules|
      invariant result == Rewritten(Rules[..i], e)
    {
      assert Rules[..i + 1][..i] == Rules[..i];
      result := Sub(Rules[i], result);
    }
    assert Rules[..|Rules|] == Rules;
    r := "return " + result;
  }

  /** The body of the loop of `convertCanonicalOCLInvariants`. */
  method ConvertLine(line: string) returns (r: string)
    ensures r == ConvertedLine(line)
  {
    if StartsWith(line, "  ") {
      r := ConvertExpression(line);
    } else if StartsWith(line, "context ") {
      r := ConvertedHeader(line);
    } else {
      r := line;
    }
  }

  /** `convertCanonicalOCLInvariants`, appending one converted line at a
      time. */
  method ConvertInvariants(lines: seq<string>) returns (r: Result<seq<string>>)
    ensures r == ConvertedInvariants(lines)
  {
    var start := FirstIndex(lines, "constraints");
    if start.None? {
      return Err(ValueError("'constraints' is not in list"));
    }
    var converted := ConvertFrom(lines, start.value);
    return Ok(converted);
  }

  /** The loop of `convertCanonicalOCLInvariants` over the lines from
      index `i` on. */
  method ConvertFrom(lines: seq<string>, i: nat) returns (converted: seq<string>)
    requires i <= |lines|
    ensures converted == ConvertedLines(lines[i..])
  {
    converted := MapFrom(lines, i, ConvertedLine);
  }

  /** A loop appending `f` of each line from index `i` on. */
  method MapFrom(lines: seq<string>, i: nat, f: string -> string) returns (r: seq<string>)
    requires i <= |lines|
    ensures r == MapLines(f, lines[i..])
  {
    r := [];
    for j := i to |lines|
      invariant r == MapLines(f, lines[i..j])
    {
      MapLinesStep(f, lines, i, j);
      r := r + [f(lines[j])];
    }
    assert lines[i..|lines|] == lines[i..];
  }

  // ---------------------------------------------------------------
  // Properties of the substitutions

  /** Text before the first match is copied unchanged. */
  lemma {:induction false} SubSkips(p: string, t: string, s: string, i: nat)
    requires p != [] && i <= |s|
    requires forall j :: 0 <= j < i ==> !OccursAt(s, p, j)
    ensures Sub(Literal(p, t), s) == s[..i] + Sub(Literal(p, t), s[i..])
    decreases i
  {
    if i > 0 {
      assert !OccursAt(s, p, 0);
      assert !StartsWith(s, p) by {
        if |p| <= |s| { assert s[0..|p|] == s[..|p|]; }
      }
      forall j | 0 <= j < i - 1 ensures !OccursAt(s[1..], p, j) {
        assert !OccursAt(s, p, j + 1);
        if j + |p| <= |s| - 1 {
          assert s[1..][j..j + |p|] == s[j + 1..j + 1 + |p|];
        }
      }
      SubSkips(p, t, s[1..], i - 1);
      assert s[1..][i - 1..] == s[i..];
      assert s[..i] == [s[0]] + s[1..][..i - 1];
    }
  }

  /** A literal substitution is `str.replace`: the pieces between the
      occurrences of the pattern, joined by the target. */
  lemma {:induction false} LiteralSubIsReplace(p: string, t: string, s: string)
    requires p != []
    ensures Sub(Literal(p, t), s) == Join(Split(s, p), t)
    decreases |s|
  {
    match Find(s, p, 0)
    case None =>
      SubSkips(p, t, s, |s|);
      assert s[..|s|] == s && s[|s|..] == [];
    case Some(i) =>
      LiteralSubIsReplace(p, t, s[i + |p|..]);
      LiteralSubAt(p, t, s, i);
  }

  /** The step of `LiteralSubIsReplace` at the first occurrence, given
      the property for the text after it. */
  lemma LiteralSubAt(p: string, t: string, s: string, i: nat)
    requires p != [] && Find(s, p, 0) == Some(i)
    requires Sub(Literal(p, t), s[i + |p|..]) == Join(Split(s[i + |p|..], p), t)
    ensures Sub(Literal(p, t), s) == Join(Split(s, p), t)
  {
    var rule := Literal(p, t);
    var rest := s[i + |p|..];
    var tail := Join(Split(rest, p), t);
    calc {
      Sub(rule, s);
    == { SubSkips(p, t, s, i); }
      s[..i] + Sub(rule, s[i..]);
    == { LiteralStep(p, t, s, i); }
      s[..i] + (t + tail);
    == { Regroup(s[..i], t, tail); }
      s[..i] + t + tail;
    == { JoinCons(s[..i], Split(rest, p), t); }
      Join([s[..i]] + Split(rest, p), t);
    == { SplitAt(s, p, i); }
      Join(Split(s, p), t);
    }
  }

  lemma Regroup(a: string, b: string, c: string)
    ensures a + (b + c) == a + b + c
  {
  }

  /** At an occurrence, a literal substitution emits the target and goes
      on after the occurrence. */
  lemma LiteralStep(p: string, t: string, s: string, i: nat)
    requires p != [] && OccursAt(s, p, i)
    ensures Sub(Literal(p, t), s[i..]) == t + Sub(Literal(p, t), s[i + |p|..])
  {
    var u := s[i..];
    assert u[..|p|] == s[i..i + |p|];
    assert u[|p|..] == s[i + |p|..];
    SubStep(Literal(p, t), u, Match(|p|, t));
  }

  lemma SplitAt(s: string, p: string, i: nat)
    requires p != [] && Find(s, p, 0) == Some(i)
    ensures Split(s, p) == [s[..i]] + Split(s[i + |p|..], p)
  {
    SplitParts(s, p, i, s[..i], s[i + |p|..]);
  }

  lemma SplitParts(s: string, p: string, i: nat, head: string, rest: string)
    requires p != [] && Find(s, p, 0) == Some(i) && head == s[..i] && rest == s[i + |p|..]
    ensures Split(s, p) == [head] + Split(rest, p)
  {
  }

  /** A rule whose first character does not occur leaves the text as it
      is. */
  lemma {:induction false} SubUntriggered(rule: Rewrite, s: string)
    requires Trigger(rule) !in s
    ensures Sub(rule, s) == s
    decreases |s|
  {
    if s != [] {
      assert MatchRule(rule, s).None?;
      assert s[0] !in s[1..] || Trigger(rule) !in s[1..];
      SubUntriggered(rule, s[1..]);
    }
  }

  /** An expression with no blank, `-` or `$` is only prefixed with
      `return `. */
  lemma PlainExpression(e: string)
    requires ' ' !in e && '-' !in e && '$' !in e
    ensures ConvertedExpression(e) == "return " + e
  {
    forall k | 0 <= k < |Rules| ensures Trigger(Rules[k]) !in e {
      RuleTrigger(k);
    }
    Untriggered(Rules, e);
  }

  /** Rules none of whose first characters occur leave the text as it
      is. */
  lemma {:induction false} Untriggered(rules: seq<Rewrite>, e: string)
    requires forall k :: 0 <= k < |rules| ==> Trigger(rules[k]) !in e
    ensures Rewritten(rules, e) == e
    decreases |rules|
  {
    if rules != [] {
      var init := rules[..|rules| - 1];
      Untriggered(init, e);
      SubUntriggered(rules[|rules| - 1], e);
    }
  }

  /** Every rule of the table starts at a blank, a `-` or a `$`. */
  lemma RuleTrigger(k: nat)
    requires k < |Rules|
    ensures Trigger(Rules[k]) == ' ' || Trigger(Rules[k]) == '-' || Trigger(Rules[k]) == '$'
  {
  }

  /** No operator name is a prefix of another. */
  predicate PrefixFree(words: seq<string>) {
    forall i, j :: 0 <= i < |words| && 0 <= j < |words| && i != j ==> !StartsWith(words[j], words[i])
  }

  lemma {:induction false} FirstPrefixOf(words: seq<string>, w: string, rest: string)
    requires PrefixFree(words) && w in words
    ensures FirstPrefix(words, w + rest) == Some(w)
    decreases |words|
  {
    assert StartsWith(w + rest, w) by { assert (w + rest)[..|w|] == w; }
    if words[0] != w {
      var x := words[0];
      assert !StartsWith(w, x) && !StartsWith(x, w) by {
        var j :| 0 <= j < |words| && words[j] == w;
      }
      if |x| <= |w| {
        assert (w + rest)[..|x|] == w[..|x|];
      } else if |x| <= |w + rest| {
        assert (w + rest)[..|x|][..|w|] == w;
      }
      forall i, j | 0 <= i < |words[1..]| && 0 <= j < |words[1..]| && i != j ensures !StartsWith(words[1..][j], words[1..][i]) {
        assert words[1..][j] == words[j + 1] && words[1..][i] == words[i + 1];
      }
      FirstPrefixOf(words[1..], w, rest);
    }
  }

  lemma CollectionOperatorsPrefixFree()
    ensures PrefixFree(CollectionOperators0)
  {
    var ws := CollectionOperators0;
    forall i, j | 0 <= i < |ws| && 0 <= j < |ws| && i != j ensures !StartsWith(ws[j], ws[i]) {
      assert ws[i][0] != ws[j][0] || ws[i][1] != ws[j][1] || ws[i][2] != ws[j][2] || ws[i][3] != ws[j][3] || ws[i][4] != ws[j][4];
    }
  }

  /** `->size` and the other zero-argument operators become method
      calls, whatever follows. */
  lemma OperatorRewrite(w: string, rest: string)
    requires w in CollectionOperators0
    ensures MatchRule(CollectionOperator, "->" + w + rest) == Some(Match(2 + |w|, "." + w + "()"))
  {
    var s := "->" + w + rest;
    assert s[..2] == "->" && s[2..] == w + rest;
    CollectionOperatorsPrefixFree();
    FirstPrefixOf(CollectionOperators0, w, rest);
  }

  /** The OCL text `($v : t | rest` that follows an iterator name. */
  function LambdaText(v: string, t: string, rest: string): string {
    "($" + (v + (" : " + (t + (" | " + rest))))
  }

  /** The lambda head of `($v : T | `. */
  lemma LambdaHeadOf(v: string, t: string, rest: string)
    requires |v| > 0 && AllChars(v, IsLowerOrDigit)
    requires IsWord(t)
    ensures LambdaHead(LambdaText(v, t, rest)) == Some((v, rest))
  {
    var tail3 := " | " + rest;
    var tail2 := t + tail3;
    var tail1 := " : " + tail2;
    var body := v + tail1;
    ExpectToken("($", body);
    TakeWhileUnique(v, tail1, IsLowerOrDigit);
    ExpectToken(" : ", tail2);
    TakeWhileUnique(t, tail3, IsWordChar);
    ExpectToken(" | ", rest);
  }

  /** Of letter-only alternatives, only `w` itself is followed by the
      lambda head `(`. */
  lemma {:induction false} FirstIteratorOf(words: seq<string>, w: string, u: string)
    requires forall i :: 0 <= i < |words| ==> AllLetters(words[i])
    requires w in words && LambdaHead(u).Some?
    ensures FirstIterator(words, w + u) == Some((w, LambdaHead(u).value.0, LambdaHead(u).value.1))
    decreases |words|
  {
    var s := w + u;
    assert s[..|w|] == w && s[|w|..] == u;
    if words[0] != w {
      var x := words[0];
      assert AllLetters(w) by { var j :| 0 <= j < |words| && words[j] == w; }
      if |x| < |w| {
        assert s[|x|..][0] == w[|x|] && IsLetter(w[|x|]);
      } else if |x| == |w| {
        assert s[..|x|] == w;
      } else if |x| <= |s| {
        assert s[|w|] == u[0] == '(';
        assert s[..|x|][|w|] == s[|w|] && IsLetter(x[|w|]);
      }
      FirstIteratorOf(words[1..], w, u);
    } else {
      assert StartsWith(s, w);
    }
  }

  /** The OCL text `->w($v : t | rest`. */
  function IteratorCall(w: string, v: string, t: string, rest: string): string {
    "->" + (w + LambdaText(v, t, rest))
  }

  /** `->select($x : T | ` and the other iterators become a call with a
      Python lambda over the variable. */
  lemma LambdaRewrite(w: string, v: string, t: string, rest: string)
    requires w in Iterators
    requires |v| > 0 && AllChars(v, IsLowerOrDigit)
    requires IsWord(t)
    ensures MatchRule(IteratorLambda, IteratorCall(w, v, t, rest)) ==
            Some(Match(|IteratorCall(w, v, t, rest)| - |rest|, "." + w + "(lambda " + v + ": "))
  {
    LambdaHeadOf(v, t, rest);
    LambdaRewriteFromHead(w, v, t, rest);
  }

  /** `LambdaRewrite` once the lambda head is known to match. */
  lemma LambdaRewriteFromHead(w: string, v: string, t: string, rest: string)
    requires w in Iterators
    requires LambdaHead(LambdaText(v, t, rest)) == Some((v, rest))
    ensures MatchRule(IteratorLambda, IteratorCall(w, v, t, rest)) ==
            Some(Match(|IteratorCall(w, v, t, rest)| - |rest|, "." + w + "(lambda " + v + ": "))
  {
    LambdaRewriteParts(IteratorCall(w, v, t, rest), w, LambdaText(v, t, rest), v, rest);
  }

  /** `LambdaMatchAt` for the text `->`, then `w`, then `u`. */
  lemma LambdaRewriteParts(s: string, w: string, u: string, v: string, rest: string)
    requires w in Iterators && LambdaHead(u) == Some((v, rest)) && s == "->" + (w + u)
    ensures MatchRule(IteratorLambda, s) == Some(Match(|s| - |rest|, "." + w + "(lambda " + v + ": "))
  {
    FirstIteratorIn(w, u);
    ExpectToken("->", w + u);
    LambdaMatchAt(s, w + u, w, v, rest);
  }

  lemma FirstIteratorIn(w: string, u: string)
    requires w in Iterators && LambdaHead(u).Some?
    ensures FirstIterator(Iterators, w + u) == Some((w, LambdaHead(u).value.0, LambdaHead(u).value.1))
  {
    IteratorsAreLetters();
    FirstIteratorOf(Iterators, w, u);
  }

  /** `LambdaMatch` from the results of its two steps. */
  lemma LambdaMatchAt(s: string, u: string, w: string, v: string, rest: string)
    requires Expect(s, "->") == Some(u) && FirstIterator(Iterators, u) == Some((w, v, rest))
    ensures MatchRule(IteratorLambda, s) == Some(Match(|s| - |rest|, "." + w + "(lambda " + v + ": "))
  {
  }

  lemma IteratorsAreLetters()
    ensures forall i :: 0 <= i < |Iterators| ==> AllLetters(Iterators[i])
  {
    var ws := Iterators;
    assert AllLetters(ws[0]) && AllLetters(ws[1]) && AllLetters(ws[2]) && AllLetters(ws[3]) && AllLetters(ws[4]);
    assert AllLetters(ws[5]) && AllLetters(ws[6]) && AllLetters(ws[7]) && AllLetters(ws[8]) && AllLetters(ws[9]);
  }

  /** The OCL text `context self : c inv n:`. */
  function InvariantHeaderLine(c: string, n: string): string {
    "context self : " + (c + (" inv " + (n + ":")))
  }

  /** An invariant header becomes a decorated Python function. */
  lemma HeaderConverted(c: string, n: string)
    requires IsWord(c) && IsWord(n)
    ensures ConvertedHeader(InvariantHeaderLine(c, n)) ==
            "@invariant(" + c + ")\ndef invariant_" + n + "(self):"
  {
    HeaderMatchOf(c, n);
    HeaderConvertedFromMatch(c, n);
  }

  /** `HeaderConverted` once the whole line is known to match. */
  lemma HeaderConvertedFromMatch(c: string, n: string)
    requires var s := InvariantHeaderLine(c, n);
             MatchRule(InvariantHeader, s) == Some(Match(|s|, "@invariant(" + c + ")\ndef invariant_" + n + "(self):"))
    ensures ConvertedHeader(InvariantHeaderLine(c, n)) ==
            "@invariant(" + c + ")\ndef invariant_" + n + "(self):"
  {
    SubWhole(InvariantHeader, InvariantHeaderLine(c, n), "@invariant(" + c + ")\ndef invariant_" + n + "(self):");
  }

  /** A match covering the whole text replaces all of it. */
  lemma SubWhole(rule: Rewrite, s: string, text: string)
    requires MatchRule(rule, s) == Some(Match(|s|, text))
    ensures Sub(rule, s) == text
  {
    SubStep(rule, s, Match(|s|, text));
    assert s[|s|..] == [];
  }

  lemma HeaderMatchOf(c: string, n: string)
    requires IsWord(c) && IsWord(n)
    ensures var s := InvariantHeaderLine(c, n);
            MatchRule(InvariantHeader, s) == Some(Match(|s|, "@invariant(" + c + ")\ndef invariant_" + n + "(self):"))
  {
    HeaderContext(c, n);
    WordBefore(c, " inv " + (n + ":"));
    HeaderName(n);
    HeaderMatchFromSteps(c, n);
  }

  /** `HeaderMatchOf` from the results of the steps of `HeaderMatch`. */
  lemma HeaderMatchFromSteps(c: string, n: string)
    requires c != [] && n != []
    requires Expect(InvariantHeaderLine(c, n), "context self : ") == Some(c + (" inv " + (n + ":")))
    requires TakeWord(c + (" inv " + (n + ":"))) == (c, " inv " + (n + ":"))
    requires Expect(" inv " + (n + ":"), " inv ") == Some(n + ":")
    requires TakeWord(n + ":") == (n, ":")
    requires Expect(":", ":") == Some([])
    ensures var s := InvariantHeaderLine(c, n);
            MatchRule(InvariantHeader, s) == Some(Match(|s|, "@invariant(" + c + ")\ndef invariant_" + n + "(self):"))
  {
    var tail1 := " inv " + (n + ":");
    HeaderMatchAt(InvariantHeaderLine(c, n), c + tail1, c, tail1, n + ":", n, ":", []);
  }

  lemma HeaderContext(c: string, n: string)
    ensures Expect(InvariantHeaderLine(c, n), "context self : ") == Some(c + (" inv " + (n + ":")))
  {
    ExpectToken("context self : ", c + (" inv " + (n + ":")));
  }

  lemma WordBefore(c: string, tail: string)
    requires IsWord(c) && StartsWith(tail, " ")
    ensures TakeWord(c + tail) == (c, tail)
  {
    TakeWhileUnique(c, tail, IsWordChar);
  }

  lemma HeaderName(n: string)
    requires IsWord(n)
    ensures Expect(" inv " + (n + ":"), " inv ") == Some(n + ":")
    ensures TakeWord(n + ":") == (n, ":")
    ensures Expect(":", ":") == Some([])
  {
    ExpectToken(" inv ", n + ":");
    TakeWhileUnique(n, ":", IsWordChar);
    ExpectToken(":", []);
    assert ":" + [] == ":";
  }

  /** `HeaderMatch` from the results of its steps. */
  lemma HeaderMatchAt(s: string, u: string, c: string, tail1: string, v: string, n: string, tail2: string, rest: string)
    requires Expect(s, "context self : ") == Some(u) && TakeWord(u) == (c, tail1) && c != []
    requires Expect(tail1, " inv ") == Some(v) && TakeWord(v) == (n, tail2) && n != []
    requires Expect(tail2, ":") == Some(rest)
    ensures MatchRule(InvariantHeader, s) == Some(Match(|s| - |rest|, "@invariant(" + c + ")\ndef invariant_" + n + "(self):"))
  {
  }
}
