/** `pyalaocl.utils.symbols`: the predicates that decide whether a name
    may be introduced, and the global log of symbols defined in scopes
    together with their undo. */
module Symbols {
  import opened Wrappers
  import opened Text

  // ---------------------------------------------------------------
  // Identifier predicates

  /** `keyword.kwlist` of Python 2.7. */
  const Keywords: set<string> := {
    "and", "as", "assert", "break", "class", "continue", "def", "del",
    "elif", "else", "except", "exec", "finally", "for", "from", "global",
    "if", "import", "in", "is", "lambda", "not", "or", "pass", "print",
    "raise", "return", "try", "while", "with", "yield"
  }

  predicate IsIdentifierStart(c: char) { IsLetter(c) || c == '_' }

  /** The pattern `[_A-Za-z][_a-zA-Z0-9]*$` under `re.match`: the match is
      anchored at the start only, and `$` also matches just before a line
      break that ends the string. */
  predicate IdentifierSyntax(name: string) {
    |name| > 0 && IsIdentifierStart(name[0]) &&
    (AllChars(name[1..], IsWordChar) ||
     (|name| >= 2 && name[|name| - 1] == '\n' && AllChars(name[1..|name| - 1], IsWordChar)))
  }

  /** The same pattern matched against the whole name. */
  predicate IdentifierSyntaxIntended(name: string) {
    |name| > 0 && IsIdentifierStart(name[0]) && AllChars(name[1..], IsWordChar)
  }

  /** `isValidNewIdentifier`: `builtins` are the names of `__builtin__`,
      `objectAttributes` the names `hasattr` finds on `object`, `scope` the
      keys of the scope dictionary; `None` stands for an omitted argument. */
  function IsValidNewIdentifier(name: string, allowRedefinition: bool,
                                objectAttributes: Option<set<string>>,
                                scope: Option<set<string>>,
                                existingIdentifiers: Option<set<string>>,
                                builtins: set<string>): (r: bool)
    ensures r ==> IdentifierSyntax(name) && name !in Keywords && name !in builtins
    ensures r && !allowRedefinition && existingIdentifiers.Some? ==> name !in existingIdentifiers.value
    ensures r && !allowRedefinition && objectAttributes.Some? ==> name !in objectAttributes.value
    ensures r && !allowRedefinition && scope.Some? ==> name !in scope.value
  {
    IdentifierSyntax(name) && name !in Keywords && name !in builtins &&
    (allowRedefinition ||
     ((existingIdentifiers.None? || name !in existingIdentifiers.value) &&
      (objectAttributes.None? || name !in objectAttributes.value) &&
      (scope.None? || name !in scope.value)))
  }

  /** Allowing redefinition only widens the accepted names, and with it a
      name is accepted whatever the object, scope and existing names. */
  lemma RedefinitionWidens(name: string, objectAttributes: Option<set<string>>,
                           scope: Option<set<string>>,
                           existingIdentifiers: Option<set<string>>,
                           builtins: set<string>)
    ensures IsValidNewIdentifier(name, false, objectAttributes, scope, existingIdentifiers, builtins)
            ==> IsValidNewIdentifier(name, true, objectAttributes, scope, existingIdentifiers, builtins)
    ensures IsValidNewIdentifier(name, true, objectAttributes, scope, existingIdentifiers, builtins)
            == IsValidNewIdentifier(name, true, None, None, None, builtins)
  {
  }

  /** A name ending with a line break passes the pattern as written, and
      never the pattern matched against the whole name. */
  lemma TrailingLineBreakAccepted(name: string)
    requires IdentifierSyntaxIntended(name)
    ensures IdentifierSyntax(name + "\n")
    ensures !IdentifierSyntaxIntended(name + "\n")
  {
    var s := name + "\n";
    assert s[1..|s| - 1] == name[1..];
    assert s[|s| - 1] == '\n';
    assert !IsWordChar(s[1..][|s| - 2]);
  }

  /** The two readings of the pattern agree on names without a line break. */
  lemma SyntaxAgreesWithoutLineBreak(name: string)
    requires forall i :: 0 <= i < |name| ==> name[i] != '\n'
    ensures IdentifierSyntax(name) == IdentifierSyntaxIntended(name)
  {
  }

  function UpperChar(c: char): char {
    if 'a' <= c <= 'z' then (c as int - 32) as char else c
  }

  /** `startUpper`: the first character of a byte string upper-cased. */
  function StartUpper(name: string): (r: string)
    ensures |r| == |name|
    ensures forall i :: 1 <= i < |name| ==> r[i] == name[i]
    ensures |name| > 0 && IsLetter(name[0]) ==> 'A' <= r[0] <= 'Z' && LowerChar(r[0]) == LowerChar(name[0])
    ensures |name| > 0 && !IsLetter(name[0]) ==> r == name
  {
    if name == "" then name else [UpperChar(name[0])] + name[1..]
  }

  /** `startLower`: the first character of a byte string lower-cased. */
  function StartLower(name: string): (r: string)
    ensures |r| == |name|
    ensures forall i :: 1 <= i < |name| ==> r[i] == name[i]
    ensures |name| > 0 && IsLetter(name[0]) ==> 'a' <= r[0] <= 'z' && UpperChar(r[0]) == UpperChar(name[0])
    ensures |name| > 0 && !IsLetter(name[0]) ==> r == name
  {
    if name == "" then name else [LowerChar(name[0])] + name[1..]
  }

  /** Capitalising twice is capitalising once, and lower-casing the start
      undoes capitalising it when the name started in lower case. */
  lemma StartCaseRoundTrip(name: string)
    ensures StartUpper(StartUpper(name)) == StartUpper(name)
    ensures StartLower(StartLower(name)) == StartLower(name)
    ensures StartLower(StartUpper(name)) == StartLower(name)
    ensures StartUpper(StartLower(name)) == StartUpper(name)
    ensures |name| > 0 && !('A' <= name[0] <= 'Z') ==> StartLower(StartUpper(name)) == name
  {
  }

  // ---------------------------------------------------------------
  // The log of symbol changes

  /** A scope dictionary is identified by its position in the store of
      dictionaries the program has created. */
  type ScopeId = nat

  /** A `ScopeSymbolChange`; `id` is the object's identity, `module` is the
      module found for the scope, never looked up here. */
  datatype Change<V> = Change(
    id: nat,
    kind: string,
    group: string,
    moduleName: Option<string>,
    target: ScopeId,
    symbol: string,
    wasDefined: bool,
    valueBefore: Option<V>,
    valueAfter: V)

  /** The keyword arguments of `symbolChanges`, `symbols` and `undo`;
      `None` is the default that matches any change. */
  datatype Filter = Filter(kind: Option<string>, group: Option<string>,
                           moduleName: Option<string>, target: Option<ScopeId>)

  const AnyChange := Filter(None, None, None, None)

  /** Targets are compared with `==`, which on dictionaries compares
      their contents. */
  predicate SameScope<V(==,!new)>(scopes: map<ScopeId, map<string, V>>, a: ScopeId, b: ScopeId) {
    a == b || (a in scopes && b in scopes && scopes[a] == scopes[b])
  }

  predicate Selects<V(==,!new)>(f: Filter, scopes: map<ScopeId, map<string, V>>, c: Change<V>) {
    (f.kind.None? || c.kind == f.kind.value) &&
    (f.group.None? || c.group == f.group.value) &&
    (f.moduleName.None? || c.moduleName == f.moduleName) &&
    (f.target.None? || SameScope(scopes, c.target, f.target.value))
  }

  /** `symbolChanges`: the logged changes the filter selects, in log order. */
  function SymbolChanges<V(==,!new)>(changes: seq<Change<V>>, scopes: map<ScopeId, map<string, V>>,
                                f: Filter): (r: seq<Change<V>>)
    ensures |r| <= |changes|
    ensures forall c :: c in r <==> c in changes && Selects(f, scopes, c)
  {
    if changes == [] then []
    else
      var init := SymbolChanges(changes[..|changes| - 1], scopes, f);
      var last := changes[|changes| - 1];
      assert changes == changes[..|changes| - 1] + [last];
      if Selects(f, scopes, last) then init + [last] else init
  }

  /** Without a filter every change is selected, in order. */
  lemma {:induction false} AllChangesSelected<V(!new)>(changes: seq<Change<V>>, scopes: map<ScopeId, map<string, V>>)
    ensures SymbolChanges(changes, scopes, AnyChange) == changes
  {
    if changes != [] {
      AllChangesSelected(changes[..|changes| - 1], scopes);
    }
  }

  /** Logging a change extends the selection by it exactly when the filter
      selects it. */
  lemma SymbolChangesSnoc<V(!new)>(changes: seq<Change<V>>, scopes: map<ScopeId, map<string, V>>,
                                 f: Filter, c: Change<V>)
    ensures SymbolChanges(changes + [c], scopes, f) ==
            SymbolChanges(changes, scopes, f) + (if Selects(f, scopes, c) then [c] else [])
  {
    assert (changes + [c])[..|changes|] == changes;
  }

  /** `count` over the attribute that `key` reads: a `Counter`, as a
      multiset of the attribute's values over all logged changes. */
  function CountBy<V, K(==)>(changes: seq<Change<V>>, key: Change<V> -> K): (r: multiset<K>)
    ensures |r| == |changes|
  {
    if changes == [] then multiset{}
    else CountBy(changes[..|changes| - 1], key) + multiset{key(changes[|changes| - 1])}
  }

  function KindOf<V>(c: Change<V>): string { c.kind }

  /** Counting by `kind` agrees with selecting by `kind`. */
  lemma {:induction false} CountByKind<V(!new)>(changes: seq<Change<V>>, scopes: map<ScopeId, map<string, V>>, kind: string)
    ensures CountBy(changes, KindOf)[kind] == |SymbolChanges(changes, scopes, Filter(Some(kind), None, None, None))|
  {
    if changes != [] {
      CountByKind(changes[..|changes| - 1], scopes, kind);
    }
  }

  /** `symbols`: the dictionary of symbol and value defined by the
      selected changes. Python builds it from a set of pairs, so which of
      two values given to one symbol survives is left to set order; here
      the later change wins. */
  function SymbolsOf<V(!new)>(selected: seq<Change<V>>): (r: map<string, V>)
    ensures forall s :: s in r <==> exists c :: c in selected && c.symbol == s
    ensures forall s :: s in r ==> exists c :: c in selected && c.symbol == s && c.valueAfter == r[s]
  {
    if selected == [] then map[]
    else
      var init := selected[..|selected| - 1];
      var last := selected[|selected| - 1];
      var m := SymbolsOf(init);
      assert selected == init + [last];
      m[last.symbol := last.valueAfter]
  }

  // ---------------------------------------------------------------
  // Recording and undoing a change on a scope

  /** The change `ScopeSymbolChange` records for `symbol := value` in the
      scope `target` whose contents are `scope`. */
  function ScopeChange<V>(id: nat, group: string, target: ScopeId, scope: map<string, V>,
                          symbol: string, value: V): Change<V> {
    Change(id, "scope", group, None, target, symbol, symbol in scope,
           if symbol in scope then Some(scope[symbol]) else None, value)
  }

  /** The scope after the change's `undo` put the previous value back or,
      when there was none, deleted the symbol; `del` of a symbol no longer
      there raises `KeyError`. */
  function ScopeAfterUndo<V>(scope: map<string, V>, c: Change<V>): (r: Result<map<string, V>>)
    ensures r.Err? <==> !c.wasDefined && c.symbol !in scope
    ensures r.Ok? ==> r.value.Keys == if c.wasDefined then scope.Keys + {c.symbol} else scope.Keys - {c.symbol}
    ensures r.Ok? ==> forall s :: s in scope && s != c.symbol ==> s in r.value && r.value[s] == scope[s]
  {
    if c.wasDefined then
      Ok(scope[c.symbol := if c.valueBefore.Some? then c.valueBefore.value else c.valueAfter])
    else if c.symbol in scope then Ok(map s | s in scope && s != c.symbol :: scope[s])
    else Err(KeyError(c.symbol))
  }

  /** Undoing the change just recorded gives the scope back. */
  lemma {:induction false} UndoRestoresScope<V>(id: nat, group: string, target: ScopeId,
                                                scope: map<string, V>, symbol: string, value: V)
    ensures ScopeAfterUndo(scope[symbol := value], ScopeChange(id, group, target, scope, symbol, value)) == Ok(scope)
  {
    var after := ScopeAfterUndo(scope[symbol := value], ScopeChange(id, group, target, scope, symbol, value));
    assert after.Ok?;
    assert after.value.Keys == scope.Keys;
    forall s | s in scope
      ensures after.value[s] == scope[s]
    {
      if s != symbol {
        assert scope[symbol := value][s] == scope[s];
      }
    }
    assert after.value == scope;
  }

  /** `list.remove`: the first change with this identity taken out. */
  function RemoveFirst<V>(changes: seq<Change<V>>, id: nat): (r: seq<Change<V>>)
    ensures (exists i :: 0 <= i < |changes| && changes[i].id == id) ==> |r| == |changes| - 1
    ensures (forall i :: 0 <= i < |changes| ==> changes[i].id != id) ==> r == changes
  {
    if changes == [] then []
    else if changes[0].id == id then changes[1..]
    else [changes[0]] + RemoveFirst(changes[1..], id)
  }

  /** Removing a change that was logged last and whose identity is new
      gives the log as it was before. */
  lemma {:induction false} RemoveLogged<V>(changes: seq<Change<V>>, c: Change<V>)
    requires forall i :: 0 <= i < |changes| ==> changes[i].id != c.id
    ensures RemoveFirst(changes + [c], c.id) == changes
  {
    if changes != [] {
      assert (changes + [c])[1..] == changes[1..] + [c];
      RemoveLogged(changes[1..], c);
    }
  }

  /** `_removeSymbolChange` as written tests `change in cls.symbolChanges`,
      where `symbolChanges` is the bound class method, so the test raises
      before anything is removed. */
  function RemoveAsWritten<V>(changes: seq<Change<V>>, c: Change<V>): (r: Result<seq<Change<V>>>)
    ensures r.Err? && r.error.TypeError?
  {
    Err(TypeError("argument of type 'instancemethod' is not iterable"))
  }

  /** The evidently intended `_removeSymbolChange`: remove it if logged. */
  function RemoveIntended<V>(changes: seq<Change<V>>, c: Change<V>): (r: Result<seq<Change<V>>>)
    ensures r.Ok?
  {
    Ok(RemoveFirst(changes, c.id))
  }

  /** Removing the change just logged fails as written and gives the old
      log back as intended. */
  lemma RemoveAfterRecord<V>(changes: seq<Change<V>>, c: Change<V>)
    requires forall i :: 0 <= i < |changes| ==> changes[i].id != c.id
    ensures RemoveAsWritten(changes + [c], c).Err?
    ensures RemoveIntended(changes + [c], c) == Ok(changes)
  {
    RemoveLogged(changes, c);
  }

  /** The effect of `undo` over a list of selected changes, in list order,
      with the intended removal; the first failing `del` stops it. */
  function UndoneAll<V>(scopes: map<ScopeId, map<string, V>>, changes: seq<Change<V>>,
                        selected: seq<Change<V>>): (r: (map<ScopeId, map<string, V>>, seq<Change<V>>, Option<PyError>))
    requires forall i :: 0 <= i < |selected| ==> selected[i].target in scopes
    ensures r.0.Keys == scopes.Keys
    ensures |r.1| <= |changes|
    ensures r.2.Some? ==> r.2.value.KeyError?
    decreases |selected|
  {
    if selected == [] then (scopes, changes, None)
    else
      var c := selected[0];
      match ScopeAfterUndo(scopes[c.target], c)
      case Err(e) => (scopes, changes, Some(e))
      case Ok(scope) =>
        var rest := selected[1..];
        assert forall i :: 0 <= i < |rest| ==> rest[i] == selected[i + 1];
        UndoneAll(scopes[c.target := scope], RemoveFirst(changes, c.id), rest)
  }

  /** One step of `UndoneAll`. */
  lemma UndoneAllStep<V>(scopes: map<ScopeId, map<string, V>>, changes: seq<Change<V>>,
                         selected: seq<Change<V>>)
    requires forall i :: 0 <= i < |selected| ==> selected[i].target in scopes
    requires selected != []
    ensures var c := selected[0];
            match ScopeAfterUndo(scopes[c.target], c)
            case Err(e) => UndoneAll(scopes, changes, selected) == (scopes, changes, Some(e))
            case Ok(scope) => UndoneAll(scopes, changes, selected) ==
                              UndoneAll(scopes[c.target := scope], RemoveFirst(changes, c.id), selected[1..])
  {
  }

  /** A symbol changed twice does not get its first value
      back: the undo runs in log order, so the second change's undo
      restores the value the first change set. */
  lemma TwiceChangedNotRestored(a: Change<int>, b: Change<int>)
    requires a == ScopeChange(0, "g", 0, map["x" := 0], "x", 1)
    requires b == ScopeChange(1, "g", 0, map["x" := 1], "x", 2)
    ensures UndoneAll(map[0 := map["x" := 2]], [a, b], [a, b]).0 == map[0 := map["x" := 1]]
  {
    var s := [a, b];
    assert s[1..] == [b];
    var first := map[0 := map["x" := 2]][0 := map["x" := 2]["x" := 0]];
    assert ScopeAfterUndo(map["x" := 2], a) == Ok(map["x" := 2]["x" := 0]);
    assert UndoneAll(map[0 := map["x" := 2]], s, s) == UndoneAll(first, RemoveFirst(s, 0), [b]);
    assert first[0] == map["x" := 0];
    assert ScopeAfterUndo(first[0], b) == Ok(map["x" := 0]["x" := 1]);
    assert [b][1..] == [];
    assert map["x" := 0]["x" := 1] == map["x" := 1];
  }

  /** The global log `SymbolManager.__symbolChanges`, together with the
      scope dictionaries the changes write to. */
  class SymbolManager<V(==,!new)> {
    var changes: seq<Change<V>>
    var scopes: map<ScopeId, map<string, V>>
    var nextId: nat

    /** Change objects are distinct and their scopes exist. */
    ghost predicate Valid()
      reads this
    {
      (forall i :: 0 <= i < |changes| ==> changes[i].id < nextId) &&
      (forall c :: c in changes ==> c.target in scopes)
    }

    constructor(scopes: map<ScopeId, map<string, V>>)
      ensures Valid()
      ensures this.changes == [] && this.scopes == scopes
    {
      this.changes := [];
      this.scopes := scopes;
      this.nextId := 0;
    }

    /** `symbolChanges(kind, group, module, target)` */
    function Selected(f: Filter): (r: seq<Change<V>>)
      reads this
      ensures forall c :: c in r <==> c in changes && Selects(f, scopes, c)
    {
      SymbolChanges(changes, scopes, f)
    }

    /** `symbols(kind, group, module, target)` */
    function Symbols(f: Filter): (r: map<string, V>)
      reads this
      ensures forall s :: s in r <==> exists c :: c in changes && Selects(f, scopes, c) && c.symbol == s
      ensures forall s :: s in r ==> exists c :: c in changes && Selects(f, scopes, c) && c.symbol == s && c.valueAfter == r[s]
    {
      SymbolsOf(SymbolChanges(changes, scopes, f))
    }

    /** `ScopeSymbolChange(group, scope, symbol, value)`: log the change,
        remember what `symbol` meant in the scope, and define it. */
    method ScopeSymbolChange(group: string, target: ScopeId, symbol: string, value: V)
      returns (c: Change<V>)
      requires Valid() && target in scopes
      modifies this
      ensures Valid()
      ensures c == ScopeChange(old(nextId), group, target, old(scopes)[target], symbol, value)
      ensures forall i :: 0 <= i < |old(changes)| ==> old(changes)[i].id != c.id
      ensures changes == old(changes) + [c]
      ensures scopes == old(scopes)[target := old(scopes)[target][symbol := value]]
    {
      var scope := scopes[target];
      c := ScopeChange(nextId, group, target, scope, symbol, value);
      changes := changes + [c];
      scopes := scopes[target := scope[symbol := value]];
      nextId := nextId + 1;
    }

    /** `ScopeSymbolChange.undo` as written: the scope is restored (or the
        `del` raises `KeyError`), then `_removeSymbolChange` raises
        `TypeError` and the change stays logged. */
    method UndoAsWritten(c: Change<V>) returns (error: PyError)
      requires Valid() && c.target in scopes
      modifies this
      ensures Valid()
      ensures changes == old(changes)
      ensures match ScopeAfterUndo(old(scopes)[c.target], c)
              case Err(e) => error == e && scopes == old(scopes)
              case Ok(scope) => error == RemoveAsWritten(old(changes), c).error && scopes == old(scopes)[c.target := scope]
    {
      var undone := ScopeAfterUndo(scopes[c.target], c);
      if undone.Err? {
        error := undone.error;
      } else {
        scopes := scopes[c.target := undone.value];
        error := RemoveAsWritten(changes, c).error;
      }
    }

    /** `ScopeSymbolChange.undo` with the intended removal from the log. */
    method Undo(c: Change<V>) returns (error: Option<PyError>)
      requires Valid() && c.target in scopes
      modifies this
      ensures Valid()
      ensures match ScopeAfterUndo(old(scopes)[c.target], c)
              case Err(e) => error == Some(e) && scopes == old(scopes) && changes == old(changes)
              case Ok(scope) => error == None && scopes == old(scopes)[c.target := scope]
                                && changes == RemoveIntended(old(changes), c).value
    {
      var undone := ScopeAfterUndo(scopes[c.target], c);
      if undone.Err? {
        error := Some(undone.error);
      } else {
        var remaining := RemoveIntended(changes, c).value;
        assert remaining == RemoveFirst(changes, c.id);
        RemoveKeepsValid(changes, c.id, nextId);
        assert forall i :: 0 <= i < |remaining| ==> remaining[i].id < nextId;
        scopes := scopes[c.target := undone.value];
        changes := remaining;
        error := None;
      }
    }

    /** `SymbolManager.undo(kind, group, module, target)` as written: the
        first selected change is undone and its removal from the log
        raises, so nothing else is undone. */
    method UndoSelectedAsWritten(f: Filter) returns (error: Option<PyError>)
      requires Valid()
      modifies this
      ensures Valid()
      ensures changes == old(changes)
      ensures error.None? <==> SymbolChanges(old(changes), old(scopes), f) == []
      ensures error.None? ==> scopes == old(scopes)
      ensures var selected := SymbolChanges(old(changes), old(scopes), f);
              selected != [] ==>
                selected[0].target in old(scopes) &&
                match ScopeAfterUndo(old(scopes)[selected[0].target], selected[0])
                case Err(e) => error == Some(e) && scopes == old(scopes)
                case Ok(scope) => error == Some(RemoveAsWritten(old(changes), selected[0]).error)
                                  && scopes == old(scopes)[selected[0].target := scope]
    {
      var selected := SymbolChanges(changes, scopes, f);
      if selected == [] {
        error := None;
      } else {
        assert selected[0] in changes;
        var e := UndoAsWritten(selected[0]);
        error := Some(e);
      }
    }

    /** The loop step of `undo`: the first of the remaining changes undone. */
    method UndoFirst(selected: seq<Change<V>>) returns (error: Option<PyError>)
      requires Valid() && selected != []
      requires forall k :: 0 <= k < |selected| ==> selected[k].target in scopes
      modifies this
      ensures Valid() && scopes.Keys == old(scopes).Keys
      ensures error.Some? ==> UndoneAll(old(scopes), old(changes), selected) == (scopes, changes, error)
      ensures error.None? ==> UndoneAll(old(scopes), old(changes), selected) == UndoneAll(scopes, changes, selected[1..])
    {
      UndoneAllStep(scopes, changes, selected);
      error := Undo(selected[0]);
    }

    /** `SymbolManager.undo(kind, group, module, target)` with the intended
        removal: every selected change is undone in log order. */
    method UndoSelected(f: Filter) returns (error: Option<PyError>)
      requires Valid()
      modifies this
      ensures Valid()
      ensures var r := UndoneAll(old(scopes), old(changes), SymbolChanges(old(changes), old(scopes), f));
              scopes == r.0 && changes == r.1 && error == r.2
    {
      var selected := SymbolChanges(changes, scopes, f);
      assert forall k :: 0 <= k < |selected| ==> selected[k] in changes;
      ghost var keys := scopes.Keys;
      ghost var goal := UndoneAll(scopes, changes, selected);
      var rest := selected;
      error := None;
      while rest != []
        invariant Valid()
        invariant scopes.Keys == keys
        invariant forall k :: 0 <= k < |rest| ==> rest[k].target in keys
        invariant UndoneAll(scopes, changes, rest) == goal
        invariant error.None?
        decreases |rest|
      {
        error := UndoFirst(rest);
        if error.Some? {
          return;
        }
        rest := rest[1..];
      }
    }
  }

  /** Taking a change out of the log leaves changes that were logged. */
  lemma {:induction false} RemoveKeepsValid<V>(changes: seq<Change<V>>, id: nat, nextId: nat)
    requires forall i :: 0 <= i < |changes| ==> changes[i].id < nextId
    ensures var r := RemoveFirst(changes, id);
            (forall i :: 0 <= i < |r| ==> r[i].id < nextId) && (forall c :: c in r ==> c in changes)
  {
    if changes != [] && changes[0].id != id {
      RemoveKeepsValid(changes[1..], id, nextId);
      var r := RemoveFirst(changes, id);
      assert r == [changes[0]] + RemoveFirst(changes[1..], id);
      assert forall i :: 1 <= i < |r| ==> r[i] == RemoveFirst(changes[1..], id)[i - 1];
    }
  }
}
