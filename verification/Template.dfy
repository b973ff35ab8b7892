/**
  The `${...}` template expander (resolveVarsFunc, findTopLevelPattern and
  resolveVarExpression of internal/config/config.go), proved against a syntax
  tree with a meaning.
 */
module Template {
  import opened Wrappers

  // `lookup` answers for variables; `hostname` stands for parsing a URL and
  // taking its host, with "" when that fails.
  datatype Env = Env(lookup: string -> Option<string>, hostname: string -> string)

  const Hostname: string := "|hostname"

  function StartsWith(s: string, prefix: string): bool {
    |prefix| <= |s| && s[..|prefix|] == prefix
  }

  // The value of a variable when it is set and not empty.
  function NonEmpty(env: Env, name: string): Option<string> {
    var v := env.lookup(name);
    if v.Some? && v.value != "" then v else None
  }

  /* ----- what the code computes ----- */

  function Plus(n: nat, found: Option<nat>): Option<nat> {
    if found.Some? then Some(n + found.value) else None
  }

  // How far the brace scanner gets from nesting depth `depth` until the
  // depth is zero; None when the text ends first.
  function Closing(s: string, depth: nat): Option<nat> {
    if depth == 0 then Some(0)
    else if s == "" then None
    else if StartsWith(s, "${") then Plus(2, Closing(s[2..], depth + 1))
    else if s[0] == '}' then Plus(1, Closing(s[1..], depth - 1))
    else Plus(1, Closing(s[1..], depth))
  }

  // Position of the first occurrence of the pattern outside nested braces.
  function TopLevel(s: string, pattern: string, depth: nat): Option<nat> {
    if s == "" then None
    else if StartsWith(s, "${") then Plus(2, TopLevel(s[2..], pattern, depth + 1))
    else if s[0] == '}' && depth > 0 then Plus(1, TopLevel(s[1..], pattern, depth - 1))
    else if depth == 0 && StartsWith(s, pattern) then Some(0)
    else Plus(1, TopLevel(s[1..], pattern, depth))
  }

  lemma {:induction false} ClosingBound(s: string, depth: nat)
    ensures Closing(s, depth).Some? ==> Closing(s, depth).value <= |s| && (depth > 0 ==> Closing(s, depth).value > 0)
    decreases |s|
  {
    if depth > 0 && s != "" {
      if StartsWith(s, "${") {
        ClosingBound(s[2..], depth + 1);
      } else {
        ClosingBound(s[1..], if s[0] == '}' then depth - 1 else depth);
      }
    }
  }

  lemma {:induction false} TopLevelHit(s: string, pattern: string, depth: nat)
    ensures TopLevel(s, pattern, depth).Some? ==>
              var at := TopLevel(s, pattern, depth).value; at < |s| && StartsWith(s[at..], pattern)
    decreases |s|
  {
    if s != "" && TopLevel(s, pattern, depth).Some? {
      if StartsWith(s, "${") {
        TopLevelHit(s[2..], pattern, depth + 1);
      } else if s[0] == '}' && depth > 0 {
        TopLevelHit(s[1..], pattern, depth - 1);
      } else if !(depth == 0 && StartsWith(s, pattern)) {
        TopLevelHit(s[1..], pattern, depth);
      }
    }
  }

  function Expand(s: string, env: Env): string
    decreases |s|, 1
  {
    if s == "" then ""
    else if StartsWith(s, "$$") then "$" + Expand(s[2..], env)
    else if StartsWith(s, "${") && Closing(s[2..], 1).Some? then
      ClosingBound(s[2..], 1);
      var n := Closing(s[2..], 1).value;
      Evaluate(s[2..][..n - 1], env) + Expand(s[2..][n..], env)
    else [s[0]] + Expand(s[1..], env)
  }

  // Which operator the text between braces is split at, if any: a modifier at
  // the very end, else whichever of the other two comes first.
  datatype Operator = HostAt(at: nat) | DefaultAt(at: nat) | IfSetAt(at: nat) | NoOperator

  function OperatorOf(inner: string): (o: Operator)
    ensures o.HostAt? ==> o.at + |Hostname| == |inner|
    ensures o.DefaultAt? || o.IfSetAt? ==> o.at + 2 <= |inner|
  {
    var dflt := TopLevel(inner, ":-", 0);
    var cond := TopLevel(inner, ":+", 0);
    TopLevelHit(inner, ":-", 0);
    TopLevelHit(inner, ":+", 0);
    if ModifierAtEnd(inner) then HostAt(TopLevel(inner, Hostname, 0).value)
    else if dflt.Some? && (cond.None? || dflt.value < cond.value) then DefaultAt(dflt.value)
    else if cond.Some? then IfSetAt(cond.value)
    else NoOperator
  }

  // The text between the braces of one `${...}`.
  function Evaluate(inner: string, env: Env): string
    decreases |inner|, 0
  {
    match OperatorOf(inner)
    case HostAt(at) => (
      match NonEmpty(env, inner[..at])
      case Some(v) => env.hostname(v)
      case None => "")
    case DefaultAt(at) => (
      match NonEmpty(env, inner[..at])
      case Some(v) => v
      case None => Expand(inner[at + 2..], env))
    case IfSetAt(at) => (
      match NonEmpty(env, inner[..at])
      case Some(_) => Expand(inner[at + 2..], env)
      case None => "")
    case NoOperator =>
      match env.lookup(inner)
      case Some(v) => v
      case None => ""
  }

  /* ----- the loops of the source ----- */

  // The same scans by position, as the loops make them.
  function ClosingAt(s: string, j: nat, depth: nat): Option<nat>
    requires j <= |s|
    decreases |s| - j
  {
    if depth == 0 then Some(j)
    else if j == |s| then None
    else if j + 1 < |s| && s[j] == '$' && s[j + 1] == '{' then ClosingAt(s, j + 2, depth + 1)
    else ClosingAt(s, j + 1, if s[j] == '}' then depth - 1 else depth)
  }

  function TopLevelAt(s: string, i: nat, pattern: string, depth: nat): Option<nat>
    requires i <= |s|
    decreases |s| - i
  {
    if i == |s| then None
    else if i + 1 < |s| && s[i] == '$' && s[i + 1] == '{' then TopLevelAt(s, i + 2, pattern, depth + 1)
    else if s[i] == '}' && depth > 0 then TopLevelAt(s, i + 1, pattern, depth - 1)
    else if depth == 0 && StartsWith(s[i..], pattern) then Some(i)
    else TopLevelAt(s, i + 1, pattern, depth)
  }

  lemma OpensAt(s: string, i: nat)
    requires i < |s|
    ensures StartsWith(s[i..], "${") <==> i + 1 < |s| && s[i] == '$' && s[i + 1] == '{'
    ensures s[i..][1..] == s[i + 1..] && (i + 1 < |s| ==> s[i..][2..] == s[i + 2..])
  {
    if i + 1 < |s| {
      assert s[i..][..2] == [s[i], s[i + 1]];
    }
  }

  lemma {:induction false} ClosingByPosition(s: string, j: nat, depth: nat)
    requires j <= |s|
    ensures ClosingAt(s, j, depth) == Plus(j, Closing(s[j..], depth))
    decreases |s| - j
  {
    if depth > 0 && j < |s| {
      OpensAt(s, j);
      if StartsWith(s[j..], "${") {
        ClosingByPosition(s, j + 2, depth + 1);
      } else {
        ClosingByPosition(s, j + 1, if s[j] == '}' then depth - 1 else depth);
      }
    }
  }

  lemma {:induction false} TopLevelByPosition(s: string, i: nat, pattern: string, depth: nat)
    requires i <= |s|
    ensures TopLevelAt(s, i, pattern, depth) == Plus(i, TopLevel(s[i..], pattern, depth))
    decreases |s| - i
  {
    if i < |s| {
      OpensAt(s, i);
      if StartsWith(s[i..], "${") {
        TopLevelByPosition(s, i + 2, pattern, depth + 1);
      } else if s[i] == '}' && depth > 0 {
        TopLevelByPosition(s, i + 1, pattern, depth - 1);
      } else if !(depth == 0 && StartsWith(s[i..], pattern)) {
        TopLevelByPosition(s, i + 1, pattern, depth);
      }
    }
  }

  method FindTopLevelPattern(s: string, pattern: string) returns (at: int)
    ensures at == match TopLevel(s, pattern, 0) case Some(n) => n case None => -1
  {
    TopLevelByPosition(s, 0, pattern, 0);
    assert s[0..] == s;
    var depth := 0;
    var i := 0;
    while i < |s|
      invariant 0 <= i <= |s| && depth >= 0
      invariant TopLevelAt(s, 0, pattern, 0) == TopLevelAt(s, i, pattern, depth)
    {
      if i + 1 < |s| && s[i] == '$' && s[i + 1] == '{' {
        depth := depth + 1;
        i := i + 2;
        continue;
      }
      if s[i] == '}' && depth > 0 {
        depth := depth - 1;
        i := i + 1;
        continue;
      }
      if depth == 0 && StartsWith(s[i..], pattern) {
        return i;
      }
      i := i + 1;
    }
    return -1;
  }

  // The three ways one turn of the loop consumes text at position i.
  lemma StepEscape(s: string, i: nat, env: Env)
    requires i + 1 < |s| && s[i] == '$' && s[i + 1] == '$'
    ensures Expand(s[i..], env) == "$" + Expand(s[i + 2..], env)
  {
    assert s[i..][2..] == s[i + 2..];
  }

  lemma ExpandGroup(s: string, n: nat, env: Env)
    requires StartsWith(s, "${") && Closing(s[2..], 1) == Some(n) && 0 < n <= |s| - 2
    ensures Expand(s, env) == Evaluate(s[2..][..n - 1], env) + Expand(s[2..][n..], env)
  {
    assert !StartsWith(s, "$$");
  }

  lemma StepGroup(s: string, i: nat, j: nat, env: Env)
    requires i + 2 < j <= |s| && s[i] == '$' && s[i + 1] == '{'
    requires Closing(s[i + 2..], 1) == Some(j - i - 2)
    ensures Expand(s[i..], env) == Evaluate(s[i + 2..j - 1], env) + Expand(s[j..], env)
  {
    var t, n := s[i..], j - i - 2;
    assert t[2..] == s[i + 2..];
    assert t[2..][..n - 1] == s[i + 2..j - 1] && t[2..][n..] == s[j..];
    ExpandGroup(t, n, env);
  }

  lemma StepPlain(s: string, i: nat, env: Env)
    requires i < |s|
    requires i + 1 < |s| && s[i] == '$' ==> s[i + 1] != '$' && (s[i + 1] == '{' ==> Closing(s[i + 2..], 1).None?)
    ensures Expand(s[i..], env) == [s[i]] + Expand(s[i + 1..], env)
  {
    assert s[i..][1..] == s[i + 1..];
    if i + 1 < |s| {
      assert s[i..][2..] == s[i + 2..];
    }
  }

  lemma Moves(done: string, piece: string, rest: string, left: string, whole: string)
    requires done + left == whole && left == piece + rest
    ensures (done + piece) + rest == whole
  {
  }

  method ResolveVarsFunc(s: string, env: Env) returns (result: string)
    ensures result == Expand(s, env)
    decreases |s|, 1
  {
    result := "";
    var i := 0;
    ghost var whole := Expand(s, env);
    assert s[0..] == s;
    while i < |s|
      invariant 0 <= i <= |s|
      invariant result + Expand(s[i..], env) == whole
    {
      ghost var left := Expand(s[i..], env);
      if i + 1 < |s| && s[i] == '$' && s[i + 1] == '$' {
        StepEscape(s, i, env);
        Moves(result, "$", Expand(s[i + 2..], env), left, whole);
        result := result + "$";
        i := i + 2;
        continue;
      }
      if i + 1 < |s| && s[i] == '$' && s[i + 1] == '{' {
        var found, resolved, j := ResolveGroup(s, i, env);
        if found {
          Moves(result, resolved, Expand(s[j..], env), left, whole);
          result := result + resolved;
          i := j;
          continue;
        }
      }
      StepPlain(s, i, env);
      Moves(result, [s[i]], Expand(s[i + 1..], env), left, whole);
      result := result + [s[i]];
      i := i + 1;
    }
  }

  // A `${` at position i with a matching brace before position j.
  method ResolveGroup(s: string, i: nat, env: Env) returns (found: bool, resolved: string, j: nat)
    requires i + 1 < |s| && s[i] == '$' && s[i + 1] == '{'
    ensures found <==> Closing(s[i + 2..], 1).Some?
    ensures found ==> i < j <= |s| && Expand(s[i..], env) == resolved + Expand(s[j..], env)
    decreases |s|, 0
  {
    var depth, k := ScanBraces(s, i + 2);
    found, resolved, j := depth == 0, "", k;
    if found {
      StepGroup(s, i, j, env);
      resolved := ResolveVarExpression(s[i + 2..j - 1], env);
    }
  }

  // The inner loop that looks for the matching brace.
  method ScanBraces(s: string, start: nat) returns (depth: nat, j: nat)
    requires start <= |s|
    ensures depth == 0 <==> Closing(s[start..], 1).Some?
    ensures depth == 0 ==> Closing(s[start..], 1) == Some(j - start) && start < j <= |s|
  {
    ClosingByPosition(s, start, 1);
    depth, j := 1, start;
    while j < |s| && depth > 0
      invariant start <= j <= |s|
      invariant depth == 0 ==> start < j
      invariant ClosingAt(s, start, 1) == ClosingAt(s, j, depth)
    {
      if j + 1 < |s| && s[j] == '$' && s[j + 1] == '{' {
        depth := depth + 1;
        j := j + 2;
      } else {
        if s[j] == '}' {
          depth := depth - 1;
        }
        j := j + 1;
      }
    }
  }

  method ResolveVarExpression(inner: string, env: Env) returns (r: string)
    ensures r == Evaluate(inner, env)
    decreases |inner|, 0
  {
    ghost var o := OperatorOf(inner);
    var idx := FindTopLevelPattern(inner, Hostname);
    if idx >= 0 && idx + |Hostname| == |inner| {
      assert o == HostAt(idx);
      var val := env.lookup(inner[..idx]);
      if val.Some? && val.value != "" {
        return env.hostname(val.value);
      }
      return "";
    }
    var idxDefault := FindTopLevelPattern(inner, ":-");
    var idxConditional := FindTopLevelPattern(inner, ":+");
    if idxDefault >= 0 && (idxConditional < 0 || idxDefault < idxConditional) {
      assert o == DefaultAt(idxDefault);
      var val := env.lookup(inner[..idxDefault]);
      if val.Some? && val.value != "" {
        return val.value;
      }
      r := ResolveVarsFunc(inner[idxDefault + 2..], env);
    } else if idxConditional >= 0 {
      assert o == IfSetAt(idxConditional);
      var val := env.lookup(inner[..idxConditional]);
      if val.Some? && val.value != "" {
        r := ResolveVarsFunc(inner[idxConditional + 2..], env);
      } else {
        r := "";
      }
    } else {
      assert o == NoOperator;
      var val := env.lookup(inner);
      r := if val.Some? then val.value else "";
    }
  }

  /* ----- what templates mean ----- */

  // A template as its author thinks of it: pieces of text, escaped dollars
  // and `${...}` references, which may hold templates again.
  datatype Template =
    | End
    | Text(text: string, rest: Template)
    | Dollar(rest: Template)
    | Group(ref: Ref, rest: Template)

  datatype Ref =
    | Var(name: string)
    | Default(name: string, body: Template)
    | IfSet(name: string, body: Template)
    | Host(name: string)

  function Print(t: Template): string {
    match t
    case End => ""
    case Text(s, rest) => s + Print(rest)
    case Dollar(rest) => "$$" + Print(rest)
    case Group(ref, rest) => "${" + (PrintRef(ref) + ("}" + Print(rest)))
  }

  function PrintRef(ref: Ref): string {
    match ref
    case Var(n) => n
    case Default(n, body) => n + (":-" + Print(body))
    case IfSet(n, body) => n + (":+" + Print(body))
    case Host(n) => n + Hostname
  }

  function Meaning(t: Template, env: Env): string {
    match t
    case End => ""
    case Text(s, rest) => s + Meaning(rest, env)
    case Dollar(rest) => "$" + Meaning(rest, env)
    case Group(ref, rest) => MeaningRef(ref, env) + Meaning(rest, env)
  }

  function MeaningRef(ref: Ref, env: Env): string {
    match ref
    case Var(n) => if env.lookup(n).Some? then env.lookup(n).value else ""
    case Default(n, body) => if NonEmpty(env, n).Some? then NonEmpty(env, n).value else Meaning(body, env)
    case IfSet(n, body) => if NonEmpty(env, n).Some? then Meaning(body, env) else ""
    case Host(n) => if NonEmpty(env, n).Some? then env.hostname(NonEmpty(env, n).value) else ""
  }

  predicate PlainName(n: string) {
    '$' !in n && '}' !in n && ':' !in n && '|' !in n
  }

  predicate EndsWith(s: string, suffix: string) {
    |suffix| <= |s| && s[|s| - |suffix|..] == suffix
  }

  // A class that is easily recognised: inside braces a closing brace cannot be
  // written as text, the scanners do not know `$$` (so an escaped dollar must
  // not be followed by an opening brace), and a body must not end in the
  // hostname modifier.
  predicate Expressible(t: Template, nested: bool) {
    match t
    case End => true
    case Text(s, rest) => '$' !in s && (nested ==> '}' !in s) && Expressible(rest, nested)
    case Dollar(rest) => (nested ==> !StartsWith(Print(rest), "{")) && Expressible(rest, nested)
    case Group(ref, rest) => ExpressibleRef(ref) && Expressible(rest, nested)
  }

  predicate ExpressibleRef(ref: Ref) {
    && PlainName(ref.name)
    && (ref.Default? || ref.IfSet? ==> Expressible(ref.body, true) && !EndsWith(Print(ref.body), Hostname))
  }

  /* ----- reading text as a template ----- */

  // The tree the code walks through, piece by piece.
  function Read(s: string): Template
    decreases |s|, 1
  {
    if s == "" then End
    else if StartsWith(s, "$$") then Dollar(Read(s[2..]))
    else if StartsWith(s, "${") && Closing(s[2..], 1).Some? then
      ClosingBound(s[2..], 1);
      var n := Closing(s[2..], 1).value;
      Group(ReadRef(s[2..][..n - 1]), Read(s[2..][n..]))
    else Text([s[0]], Read(s[1..]))
  }

  function ReadRef(inner: string): Ref
    decreases |inner|, 0
  {
    match OperatorOf(inner)
    case HostAt(at) => Host(inner[..at])
    case DefaultAt(at) => Default(inner[..at], Read(inner[at + 2..]))
    case IfSetAt(at) => IfSet(inner[..at], Read(inner[at + 2..]))
    case NoOperator => Var(inner)
  }

  // The first modifier outside nested braces stands at the end.
  predicate ModifierAtEnd(inner: string) {
    var host := TopLevel(inner, Hostname, 0); host.Some? && host.value + |Hostname| == |inner|
  }

  // Every text is read as some template, and means what that template means.
  lemma {:induction false} ExpandIsReading(s: string, env: Env)
    ensures Expand(s, env) == Meaning(Read(s), env)
    decreases |s|, 1
  {
    if s != "" {
      if StartsWith(s, "$$") {
        ExpandIsReading(s[2..], env);
      } else if StartsWith(s, "${") && Closing(s[2..], 1).Some? {
        ClosingBound(s[2..], 1);
        var n := Closing(s[2..], 1).value;
        EvaluateIsReading(s[2..][..n - 1], env);
        ExpandIsReading(s[2..][n..], env);
      } else {
        ExpandIsReading(s[1..], env);
      }
    }
  }

  lemma {:induction false} EvaluateIsReading(inner: string, env: Env)
    ensures Evaluate(inner, env) == MeaningRef(ReadRef(inner), env)
    decreases |inner|, 0
  {
    match OperatorOf(inner)
    case DefaultAt(at) => ExpandIsReading(inner[at + 2..], env);
    case IfSetAt(at) => ExpandIsReading(inner[at + 2..], env);
    case _ =>
  }

  // Reading loses nothing.
  lemma {:induction false} PrintOfRead(s: string)
    ensures Print(Read(s)) == s
    decreases |s|, 1
  {
    if s != "" {
      if StartsWith(s, "$$") {
        PrintOfRead(s[2..]);
        assert s == "$$" + s[2..];
      } else if StartsWith(s, "${") && Closing(s[2..], 1).Some? {
        ClosingBound(s[2..], 1);
        var n := Closing(s[2..], 1).value;
        ClosingIsBrace(s[2..], 1);
        PrintOfReadRef(s[2..][..n - 1]);
        PrintOfRead(s[2..][n..]);
        GroupText(s, n);
      } else {
        PrintOfRead(s[1..]);
        assert s == [s[0]] + s[1..];
      }
    }
  }

  lemma GroupText(s: string, n: nat)
    requires StartsWith(s, "${") && 0 < n <= |s| - 2 && s[2..][n - 1] == '}'
    ensures s == "${" + (s[2..][..n - 1] + ("}" + s[2..][n..]))
  {
    var u := s[2..];
    assert u == u[..n - 1] + ([u[n - 1]] + u[n..]);
    assert s == "${" + u;
  }

  lemma {:induction false} ClosingIsBrace(s: string, depth: nat)
    requires depth > 0 && Closing(s, depth).Some?
    ensures var n := Closing(s, depth).value; 0 < n <= |s| && s[n - 1] == '}'
    decreases |s|
  {
    if StartsWith(s, "${") {
      ClosingIsBrace(s[2..], depth + 1);
    } else if s[0] == '}' {
      if depth > 1 {
        ClosingIsBrace(s[1..], depth - 1);
      }
    } else {
      ClosingIsBrace(s[1..], depth);
    }
  }

  lemma {:induction false} PrintOfReadRef(inner: string)
    ensures PrintRef(ReadRef(inner)) == inner
    decreases |inner|, 0
  {
    OperatorSplits(inner);
    match OperatorOf(inner)
    case DefaultAt(at) => PrintOfRead(inner[at + 2..]);
    case IfSetAt(at) => PrintOfRead(inner[at + 2..]);
    case _ =>
  }

  // The operator stands where the text is split.
  lemma OperatorSplits(inner: string)
    ensures match OperatorOf(inner)
            case HostAt(at) => inner == inner[..at] + Hostname
            case DefaultAt(at) => inner == inner[..at] + (":-" + inner[at + 2..])
            case IfSetAt(at) => inner == inner[..at] + (":+" + inner[at + 2..])
            case NoOperator => true
  {
    TopLevelHit(inner, Hostname, 0);
    TopLevelHit(inner, ":-", 0);
    TopLevelHit(inner, ":+", 0);
    match OperatorOf(inner)
    case HostAt(at) => SplitAt(inner, at, Hostname);
    case DefaultAt(at) => SplitAt(inner, at, ":-");
    case IfSetAt(at) => SplitAt(inner, at, ":+");
    case NoOperator =>
  }

  lemma SplitAt(s: string, at: nat, pattern: string)
    requires at <= |s| && StartsWith(s[at..], pattern)
    ensures at + |pattern| <= |s| && s == s[..at] + (pattern + s[at + |pattern|..])
    ensures at + |pattern| == |s| ==> s == s[..at] + pattern
  {
    assert s[at..] == pattern + s[at..][|pattern|..];
    assert s[at..][|pattern|..] == s[at + |pattern|..];
    assert s == s[..at] + s[at..];
  }

  /* ----- when the tree is read back ----- */

  // The tree with its texts cut into characters.
  function Spelled(t: Template): Template {
    match t
    case End => End
    case Text(s, rest) => Characters(s, Spelled(rest))
    case Dollar(rest) => Dollar(Spelled(rest))
    case Group(ref, rest) => Group(SpelledRef(ref), Spelled(rest))
  }

  function SpelledRef(ref: Ref): Ref {
    match ref
    case Var(_) => ref
    case Default(n, body) => Default(n, Spelled(body))
    case IfSet(n, body) => IfSet(n, Spelled(body))
    case Host(_) => ref
  }

  function Characters(s: string, rest: Template): Template {
    if s == "" then rest else Text([s[0]], Characters(s[1..], rest))
  }

  // A text before `after` is copied: at none of its characters an escape or a
  // reference with a closing brace begins.
  predicate Copied(s: string, after: string) {
    s != "" ==> CopiedFirst(s + after) && Copied(s[1..], after)
  }

  predicate CopiedFirst(s: string) {
    !StartsWith(s, "$$") && !(StartsWith(s, "${") && Closing(s[2..], 1).Some?)
  }

  // Every text is copied, every reference closes at its own brace, and its
  // name ends at the first pattern found.
  predicate Readable(t: Template) {
    match t
    case End => true
    case Text(s, rest) => Copied(s, Print(rest)) && Readable(rest)
    case Dollar(rest) => Readable(rest)
    case Group(ref, rest) =>
      Closing(PrintRef(ref) + ("}" + Print(rest)), 1) == Some(|PrintRef(ref)| + 1) && ReadableRef(ref) && Readable(rest)
  }

  predicate ReadableRef(ref: Ref) {
    var inner := PrintRef(ref);
    var dflt, cond := TopLevel(inner, ":-", 0), TopLevel(inner, ":+", 0);
    match ref
    case Var(_) => !ModifierAtEnd(inner) && dflt.None? && cond.None?
    case Default(n, body) => !ModifierAtEnd(inner) && dflt == Some(|n|) && (cond.None? || |n| < cond.value) && Readable(body)
    case IfSet(n, body) => !ModifierAtEnd(inner) && cond == Some(|n|) && (dflt.None? || |n| <= dflt.value) && Readable(body)
    case Host(n) => TopLevel(inner, Hostname, 0) == Some(|n|)
  }

  lemma {:induction false} PrintOfSpelled(t: Template)
    ensures Print(Spelled(t)) == Print(t)
  {
    match t
    case End =>
    case Text(s, rest) =>
      PrintOfSpelled(rest);
      PrintOfCharacters(s, Spelled(rest));
    case Dollar(rest) => PrintOfSpelled(rest);
    case Group(ref, rest) =>
      PrintOfSpelledRef(ref);
      PrintOfSpelled(rest);
  }

  lemma {:induction false} PrintOfSpelledRef(ref: Ref)
    ensures PrintRef(SpelledRef(ref)) == PrintRef(ref)
  {
    match ref
    case Var(_) =>
    case Default(_, body) => PrintOfSpelled(body);
    case IfSet(_, body) => PrintOfSpelled(body);
    case Host(_) =>
  }

  lemma Rejoined(s: string, after: string)
    ensures if s == "" then s + after == after else [s[0]] + (s[1..] + after) == s + after
  {
  }

  lemma {:induction false} PrintOfCharacters(s: string, rest: Template)
    ensures Print(Characters(s, rest)) == s + Print(rest)
  {
    Rejoined(s, Print(rest));
    if s != "" {
      PrintOfCharacters(s[1..], rest);
    }
  }

  lemma {:induction false} MeaningOfSpelled(t: Template, env: Env)
    ensures Meaning(Spelled(t), env) == Meaning(t, env)
  {
    match t
    case End =>
    case Text(s, rest) =>
      MeaningOfSpelled(rest, env);
      MeaningOfCharacters(s, Spelled(rest), env);
    case Dollar(rest) => MeaningOfSpelled(rest, env);
    case Group(ref, rest) =>
      MeaningOfSpelledRef(ref, env);
      MeaningOfSpelled(rest, env);
  }

  lemma {:induction false} MeaningOfSpelledRef(ref: Ref, env: Env)
    ensures MeaningRef(SpelledRef(ref), env) == MeaningRef(ref, env)
  {
    match ref
    case Var(_) =>
    case Default(_, body) => MeaningOfSpelled(body, env);
    case IfSet(_, body) => MeaningOfSpelled(body, env);
    case Host(_) =>
  }

  lemma {:induction false} MeaningOfCharacters(s: string, rest: Template, env: Env)
    ensures Meaning(Characters(s, rest), env) == s + Meaning(rest, env)
  {
    Rejoined(s, Meaning(rest, env));
    if s != "" {
      MeaningOfCharacters(s[1..], rest, env);
    }
  }

  // The code reads a printed tree as that very tree exactly when the tree is
  // readable.
  lemma {:induction false} ReadBackIff(t: Template)
    ensures Read(Print(t)) == Spelled(t) <==> Readable(t)
    decreases t
  {
    match t
    case End =>
    case Text(s, rest) =>
      ReadBackIff(rest);
      CharactersReadIff(s, Print(rest), Spelled(rest));
    case Dollar(rest) =>
      ReadBackIff(rest);
      assert Print(t)[2..] == Print(rest) && StartsWith(Print(t), "$$");
    case Group(ref, rest) =>
      ReadBackIff(rest);
      RefReadBackIff(ref);
      PrintOfSpelledRef(ref);
      GroupReadIff(PrintRef(ref), Print(rest), SpelledRef(ref), Spelled(rest));
  }

  lemma {:induction false} CharactersReadIff(s: string, after: string, rest: Template)
    ensures Read(s + after) == Characters(s, rest) <==> Copied(s, after) && Read(after) == rest
  {
    var u := s + after;
    if s == "" {
      assert u == after;
    } else {
      assert u[1..] == s[1..] + after && u[0] == s[0];
      CharactersReadIff(s[1..], after, rest);
    }
  }

  lemma GroupReadIff(inner: string, after: string, ref: Ref, rest: Template)
    requires PrintRef(ref) == inner
    ensures Read("${" + (inner + ("}" + after))) == Group(ref, rest) <==>
            Closing(inner + ("}" + after), 1) == Some(|inner| + 1) && ReadRef(inner) == ref && Read(after) == rest
  {
    var u := inner + ("}" + after);
    var s := "${" + u;
    assert s[2..] == u;
    GroupReadAt(s, u, inner, after, ref, rest);
  }

  lemma GroupReadAt(s: string, u: string, inner: string, after: string, ref: Ref, rest: Template)
    requires StartsWith(s, "${") && s[2..] == u && u == inner + ("}" + after) && PrintRef(ref) == inner
    ensures Read(s) == Group(ref, rest) <==> Closing(u, 1) == Some(|inner| + 1) && ReadRef(inner) == ref && Read(after) == rest
  {
    ReadsGroup(s);
    GroupDecides(Read(s), u, inner, after, Closing(u, 1), ref, rest);
  }

  lemma GroupDecides(read: Template, u: string, inner: string, after: string, closing: Option<nat>, ref: Ref, rest: Template)
    requires u == inner + ("}" + after) && PrintRef(ref) == inner
    requires match closing
             case Some(n) => 0 < n <= |u| && read == Group(ReadRef(u[..n - 1]), Read(u[n..]))
             case None => read.Text?
    ensures read == Group(ref, rest) <==> closing == Some(|inner| + 1) && ReadRef(inner) == ref && Read(after) == rest
  {
    if closing.Some? {
      GroupCut(u, inner, after, closing.value, ref, rest);
    }
  }

  lemma GroupCut(u: string, inner: string, after: string, n: nat, ref: Ref, rest: Template)
    requires u == inner + ("}" + after) && 0 < n <= |u| && PrintRef(ref) == inner
    ensures Group(ReadRef(u[..n - 1]), Read(u[n..])) == Group(ref, rest) <==> n == |inner| + 1 && ReadRef(inner) == ref && Read(after) == rest
  {
    var got, gotRest := ReadRef(u[..n - 1]), Read(u[n..]);
    CutAt(u, inner, after, n, got, gotRest);
    SameGroup(got, gotRest, ref, rest, inner);
  }

  lemma SameGroup(got: Ref, gotRest: Template, ref: Ref, rest: Template, inner: string)
    requires PrintRef(ref) == inner
    ensures Group(got, gotRest) == Group(ref, rest) <==> PrintRef(got) == inner && got == ref && gotRest == rest
  {
  }

  lemma ReadsGroup(s: string)
    requires StartsWith(s, "${")
    ensures var u := s[2..]; var n := Closing(u, 1);
            if n.Some? then 0 < n.value <= |u| && Read(s) == Group(ReadRef(u[..n.value - 1]), Read(u[n.value..])) else Read(s).Text?
  {
    ClosingBound(s[2..], 1);
    assert !StartsWith(s, "$$");
  }

  // Only the cut behind its own brace gives the reference back.
  lemma CutAt(u: string, inner: string, after: string, n: nat, got: Ref, gotRest: Template)
    requires u == inner + ("}" + after) && 0 < n <= |u| && got == ReadRef(u[..n - 1]) && gotRest == Read(u[n..])
    ensures n == |inner| + 1 ==> got == ReadRef(inner) && PrintRef(got) == inner && gotRest == Read(after)
    ensures n != |inner| + 1 ==> PrintRef(got) != inner
  {
    PrintOfReadRef(u[..n - 1]);
    assert |u[..n - 1]| == n - 1;
    assert n == |inner| + 1 ==> u[..n - 1] == inner && u[n..] == after;
  }

  lemma {:induction false} RefReadBackIff(ref: Ref)
    ensures ReadRef(PrintRef(ref)) == SpelledRef(ref) <==> ReadableRef(ref)
    decreases ref
  {
    match ref
    case Var(_) =>
    case Default(n, body) =>
      ReadBackIff(body);
      DefaultReadIff(n, Print(body), Spelled(body));
    case IfSet(n, body) =>
      ReadBackIff(body);
      IfSetReadIff(n, Print(body), Spelled(body));
    case Host(n) =>
      HostReadIff(n);
  }

  lemma DefaultReadIff(n: string, body: string, tree: Template)
    ensures var inner := n + (":-" + body);
            var dflt, cond := TopLevel(inner, ":-", 0), TopLevel(inner, ":+", 0);
            ReadRef(inner) == Default(n, tree) <==>
            !ModifierAtEnd(inner) && dflt == Some(|n|) && (cond.None? || |n| < cond.value) && Read(body) == tree
  {
    var inner := n + (":-" + body);
    var o := OperatorOf(inner);
    NameEnds(n, ":-", body);
    if o.DefaultAt? {
      assert |inner[..o.at]| == o.at;
    }
  }

  lemma IfSetReadIff(n: string, body: string, tree: Template)
    ensures var inner := n + (":+" + body);
            var dflt, cond := TopLevel(inner, ":-", 0), TopLevel(inner, ":+", 0);
            ReadRef(inner) == IfSet(n, tree) <==>
            !ModifierAtEnd(inner) && cond == Some(|n|) && (dflt.None? || |n| <= dflt.value) && Read(body) == tree
  {
    var inner := n + (":+" + body);
    var o := OperatorOf(inner);
    NameEnds(n, ":+", body);
    if o.IfSetAt? {
      assert |inner[..o.at]| == o.at;
    }
  }

  lemma HostReadIff(n: string)
    ensures ReadRef(n + Hostname) == Host(n) <==> TopLevel(n + Hostname, Hostname, 0) == Some(|n|)
  {
    var inner := n + Hostname;
    TopLevelHit(inner, Hostname, 0);
    assert inner[..|n|] == n;
  }

  lemma NameEnds(n: string, pattern: string, body: string)
    ensures var inner := n + (pattern + body);
            |n| + |pattern| <= |inner| && inner[..|n|] == n && inner[|n| + |pattern|..] == body
  {
  }

  /* ----- scanning printed text ----- */

  // Plain text is skipped by the brace scanner.
  lemma {:induction false} ClosingSkips(s: string, after: string, depth: nat)
    requires '$' !in s && '}' !in s && depth > 0
    ensures Closing(s + after, depth) == Plus(|s|, Closing(after, depth))
  {
    if s == "" {
      assert s + after == after;
    } else {
      assert (s + after)[1..] == s[1..] + after && (s + after)[0] == s[0];
      ClosingSkips(s[1..], after, depth);
    }
  }

  lemma ClosingOpens(s: string, depth: nat)
    requires depth > 0
    ensures Closing("${" + s, depth) == Plus(2, Closing(s, depth + 1))
  {
    assert ("${" + s)[2..] == s;
  }

  lemma ClosingCloses(s: string, depth: nat)
    requires depth > 0
    ensures Closing("}" + s, depth) == Plus(1, Closing(s, depth - 1))
  {
    assert ("}" + s)[1..] == s;
  }

  // The scanner passes over `s` as a whole, whatever it holds.
  ghost predicate Passes(s: string, after: string, depth: nat) {
    Closing(s + after, depth) == Plus(|s|, Closing(after, depth))
  }

  lemma PassText(s: string, p: string, after: string, depth: nat)
    requires '$' !in s && '}' !in s && depth > 0 && Passes(p, after, depth)
    ensures Passes(s + p, after, depth)
  {
    var u := p + after;
    assert (s + p) + after == s + u;
    ClosingSkips(s, u, depth);
  }

  // An escaped dollar is two plain characters to the brace scanner, unless a
  // brace follows.
  lemma PassDollar(p: string, after: string, depth: nat)
    requires depth > 0 && Passes(p, after, depth) && !StartsWith(p, "{") && after != "" && after[0] == '}'
    ensures Passes("$$" + p, after, depth)
  {
    var u := p + after;
    assert u[0] != '{' by {
      if p != "" { assert p[..1] == [u[0]]; }
    }
    PlainDollar(u, depth);
    PlainDollar("$" + u, depth);
    assert ("$$" + p) + after == "$" + ("$" + u);
  }

  lemma PlainDollar(u: string, depth: nat)
    requires depth > 0 && u != "" && u[0] != '{'
    ensures Closing("$" + u, depth) == Plus(1, Closing(u, depth))
  {
    assert ("$" + u)[1..] == u && ("$" + u)[1] == u[0];
  }

  lemma PassInner(inner: string, u: string, depth: nat)
    requires depth > 0 && Passes(inner, "}" + u, depth + 1)
    ensures Closing("${" + (inner + ("}" + u)), depth) == Plus(|inner| + 3, Closing(u, depth))
  {
    ClosingOpens(inner + ("}" + u), depth);
    ClosingCloses(u, depth + 1);
  }

  lemma Regroup(a: string, b: string, c: string, d: string, e: string)
    ensures (a + (b + (c + d))) + e == a + (b + (c + (d + e)))
    ensures |a + (b + (c + d))| == |a| + |b| + |c| + |d|
  {
  }

  lemma PassGroup(inner: string, p: string, after: string, depth: nat)
    requires depth > 0 && Passes(p, after, depth) && Passes(inner, "}" + (p + after), depth + 1)
    ensures Passes("${" + (inner + ("}" + p)), after, depth)
  {
    PassInner(inner, p + after, depth);
    Regroup("${", inner, "}", p, after);
  }

  // The brace scanner passes over a printed nested template as a whole.
  lemma {:induction false} ClosingPrinted(t: Template, after: string, depth: nat)
    requires Expressible(t, true) && depth > 0 && after != "" && after[0] == '}'
    ensures Passes(Print(t), after, depth)
    decreases t
  {
    match t
    case End =>
      assert "" + after == after;
    case Text(s, rest) =>
      ClosingPrinted(rest, after, depth);
      PassText(s, Print(rest), after, depth);
    case Dollar(rest) =>
      ClosingPrinted(rest, after, depth);
      PassDollar(Print(rest), after, depth);
    case Group(ref, rest) =>
      ClosingPrinted(rest, after, depth);
      ClosingRef(ref, Print(rest) + after, depth + 1);
      PassGroup(PrintRef(ref), Print(rest), after, depth);
  }

  lemma {:induction false} ClosingRef(ref: Ref, after: string, depth: nat)
    requires ExpressibleRef(ref) && depth > 0
    ensures Passes(PrintRef(ref), "}" + after, depth)
    decreases ref
  {
    var n, end := ref.name, "}" + after;
    match ref
    case Var(_) =>
      ClosingSkips(n, end, depth);
    case Default(_, body) =>
      ClosingPrinted(body, end, depth);
      PassText(n + ":-", Print(body), end, depth);
      assert (n + ":-") + Print(body) == PrintRef(ref);
    case IfSet(_, body) =>
      ClosingPrinted(body, end, depth);
      PassText(n + ":+", Print(body), end, depth);
      assert (n + ":+") + Print(body) == PrintRef(ref);
    case Host(_) =>
      ClosingSkips(n + Hostname, end, depth);
  }

  // The pattern search walks over plain text.
  lemma {:induction false} TopLevelSkips(name: string, after: string, pattern: string)
    requires '$' !in name && '}' !in name && pattern != "" && pattern[0] !in name
    ensures TopLevel(name + after, pattern, 0) == Plus(|name|, TopLevel(after, pattern, 0))
  {
    if name == "" {
      assert name + after == after;
    } else {
      assert (name + after)[1..] == name[1..] + after;
      assert (name + after)[0] == name[0];
      TopLevelSkips(name[1..], after, pattern);
    }
  }

  // A group whose body does not end in the modifier is not taken for one.
  lemma NoHostname(name: string, op: string, body: string)
    requires PlainName(name) && |op| == 2 && '|' !in op && !EndsWith(body, Hostname)
    ensures var inner := name + (op + body); var at := TopLevel(inner, Hostname, 0);
            !(at.Some? && at.value + |Hostname| == |inner|)
  {
    var inner := name + (op + body);
    TopLevelHit(inner, Hostname, 0);
    if EndsWith(inner, Hostname) {
      ModifierInBody(name, op, body);
    }
  }

  lemma ModifierInBody(name: string, op: string, body: string)
    requires PlainName(name) && |op| == 2 && '|' !in op && EndsWith(name + (op + body), Hostname)
    ensures EndsWith(body, Hostname)
  {
    var inner := name + (op + body);
    var at := |inner| - |Hostname|;
    assert inner[at] == inner[at..][0] == '|';
    assert at >= |name| + 2;
    assert inner[at..] == body[at - |name| - 2..];
  }

  /* ----- expansion preserves meaning ----- */

  // Expanding the text of a readable template gives what the template means,
  // in any environment. Values are inserted as they are, never expanded again.
  lemma ExpandMeansTemplate(t: Template, env: Env)
    requires Readable(t)
    ensures Expand(Print(t), env) == Meaning(t, env)
  {
    ReadBackIff(t);
    ExpandIsReading(Print(t), env);
    MeaningOfSpelled(t, env);
  }

  lemma EvaluateMeansRef(ref: Ref, env: Env)
    requires ReadableRef(ref)
    ensures Evaluate(PrintRef(ref), env) == MeaningRef(ref, env)
  {
    RefReadBackIff(ref);
    EvaluateIsReading(PrintRef(ref), env);
    MeaningOfSpelledRef(ref, env);
  }

  // Expressible templates are readable, at any nesting depth.
  lemma {:induction false} ExpressibleIsReadable(t: Template, nested: bool)
    requires Expressible(t, nested)
    ensures Readable(t)
    decreases t
  {
    match t
    case End =>
    case Text(s, rest) =>
      PlainIsCopied(s, Print(rest));
      ExpressibleIsReadable(rest, nested);
    case Dollar(rest) =>
      ExpressibleIsReadable(rest, nested);
    case Group(ref, rest) =>
      ClosingRef(ref, Print(rest), 1);
      ClosingCloses(Print(rest), 1);
      ExpressibleRefIsReadable(ref);
      ExpressibleIsReadable(rest, nested);
  }

  lemma {:induction false} PlainIsCopied(s: string, after: string)
    requires '$' !in s
    ensures Copied(s, after)
  {
    if s != "" {
      assert (s + after)[0] == s[0];
      PlainIsCopied(s[1..], after);
    }
  }

  lemma {:induction false} ExpressibleRefIsReadable(ref: Ref)
    requires ExpressibleRef(ref)
    ensures ReadableRef(ref)
    decreases ref
  {
    match ref
    case Var(n) =>
      PlainNameAlone(n);
    case Default(n, body) =>
      ExpressibleIsReadable(body, true);
      PlainNameBefore(n, ":-", Print(body));
    case IfSet(n, body) =>
      ExpressibleIsReadable(body, true);
      PlainNameBefore(n, ":+", Print(body));
    case Host(n) =>
      TopLevelSkips(n, Hostname, Hostname);
      assert StartsWith(Hostname, Hostname);
  }

  lemma PlainNameAlone(n: string)
    requires PlainName(n)
    ensures !ModifierAtEnd(n) && TopLevel(n, ":-", 0).None? && TopLevel(n, ":+", 0).None?
  {
    assert n + "" == n;
    TopLevelSkips(n, "", Hostname);
    TopLevelSkips(n, "", ":-");
    TopLevelSkips(n, "", ":+");
  }

  // Behind a plain name the operator is the first pattern found.
  lemma PlainNameBefore(n: string, op: string, body: string)
    requires PlainName(n) && (op == ":-" || op == ":+")
    ensures var inner := n + (op + body);
            var other := TopLevel(inner, if op == ":-" then ":+" else ":-", 0);
            && TopLevel(inner, op, 0) == Some(|n|) && (other.None? || |n| < other.value)
            && (!EndsWith(body, Hostname) ==> !ModifierAtEnd(inner))
  {
    var tail := op + body;
    TopLevelSkips(n, tail, ":-");
    TopLevelSkips(n, tail, ":+");
    assert StartsWith(tail, op);
    if !EndsWith(body, Hostname) {
      NoHostname(n, op, body);
    }
  }

  /* ----- the exact condition ----- */

  // A tree with every choice made: characters, and the values of variables
  // that are set, as they are or through their host.
  datatype Piece = Char(c: char) | Value(name: string) | HostOf(name: string)

  // What a tree comes to when exactly the names of `set_` are set.
  function Pieces(t: Template, set_: set<string>): seq<Piece> {
    match t
    case End => []
    case Text(s, rest) => Chars(s) + Pieces(rest, set_)
    case Dollar(rest) => [Char('$')] + Pieces(rest, set_)
    case Group(ref, rest) => RefPieces(ref, set_) + Pieces(rest, set_)
  }

  function RefPieces(ref: Ref, set_: set<string>): seq<Piece> {
    match ref
    case Var(n) => if n in set_ then [Value(n)] else []
    case Default(n, body) => if n in set_ then [Value(n)] else Pieces(body, set_)
    case IfSet(n, body) => if n in set_ then Pieces(body, set_) else []
    case Host(n) => if n in set_ then [HostOf(n)] else []
  }

  function Chars(s: string): seq<Piece> {
    seq(|s|, i requires 0 <= i < |s| => Char(s[i]))
  }

  function Names(t: Template): set<string> {
    match t
    case End => {}
    case Text(_, rest) => Names(rest)
    case Dollar(rest) => Names(rest)
    case Group(ref, rest) => RefNames(ref) + Names(rest)
  }

  function RefNames(ref: Ref): set<string> {
    match ref
    case Var(n) => {n}
    case Default(n, body) => {n} + Names(body)
    case IfSet(n, body) => {n} + Names(body)
    case Host(n) => {n}
  }

  function ValueOf(env: Env, n: string): string {
    if NonEmpty(env, n).Some? then NonEmpty(env, n).value else ""
  }

  function SpellPiece(p: Piece, env: Env): string {
    match p
    case Char(c) => [c]
    case Value(n) => ValueOf(env, n)
    case HostOf(n) => env.hostname(ValueOf(env, n))
  }

  function Spell(ps: seq<Piece>, env: Env): string {
    if ps == [] then "" else SpellPiece(ps[0], env) + Spell(ps[1..], env)
  }

  lemma {:induction false} SpellAppend(ps: seq<Piece>, more: seq<Piece>, env: Env)
    ensures Spell(ps + more, env) == Spell(ps, env) + Spell(more, env)
  {
    if ps == [] {
      assert ps + more == more;
    } else {
      assert (ps + more)[0] == ps[0] && (ps + more)[1..] == ps[1..] + more;
      SpellAppend(ps[1..], more, env);
    }
  }

  lemma {:induction false} SpellChars(s: string, env: Env)
    ensures Spell(Chars(s), env) == s
  {
    if s != "" {
      assert Chars(s)[1..] == Chars(s[1..]);
      SpellChars(s[1..], env);
      assert s == [s[0]] + s[1..];
    }
  }

  ghost predicate SetIn(env: Env, names: set<string>, set_: set<string>) {
    forall n :: n in names ==> (n in set_ <==> NonEmpty(env, n).Some?)
  }

  lemma {:induction false} MeaningIsPieces(t: Template, env: Env, set_: set<string>)
    requires SetIn(env, Names(t), set_)
    ensures Meaning(t, env) == Spell(Pieces(t, set_), env)
    decreases t
  {
    match t
    case End =>
    case Text(s, rest) =>
      MeaningIsPieces(rest, env, set_);
      SpellChars(s, env);
      SpellAppend(Chars(s), Pieces(rest, set_), env);
    case Dollar(rest) =>
      MeaningIsPieces(rest, env, set_);
      SpellAppend([Char('$')], Pieces(rest, set_), env);
    case Group(ref, rest) =>
      MeaningRefIsPieces(ref, env, set_);
      MeaningIsPieces(rest, env, set_);
      SpellAppend(RefPieces(ref, set_), Pieces(rest, set_), env);
  }

  lemma {:induction false} MeaningRefIsPieces(ref: Ref, env: Env, set_: set<string>)
    requires SetIn(env, RefNames(ref), set_)
    ensures MeaningRef(ref, env) == Spell(RefPieces(ref, set_), env)
    decreases ref
  {
    assert ref.name in RefNames(ref);
    SpellOne(Value(ref.name), env);
    SpellOne(HostOf(ref.name), env);
    match ref
    case Var(_) =>
    case Default(_, body) => MeaningIsPieces(body, env, set_);
    case IfSet(_, body) => MeaningIsPieces(body, env, set_);
    case Host(_) =>
  }

  lemma SpellOne(p: Piece, env: Env)
    ensures Spell([p], env) == SpellPiece(p, env)
  {
    assert [p][1..] == [];
  }

  function Url(scheme: char, host: char): string {
    [scheme] + "://" + [host]
  }

  // All that is assumed of the parser of URLs: it finds a host of one letter
  // behind a scheme of one letter.
  ghost predicate ReadsUrls(host: string -> string) {
    forall c, h :: 'a' <= c <= 'z' && 'a' <= h <= 'z' ==> host(Url(c, h)) == [h]
  }

  // An environment that sets the names of `set_`, to values told apart by one
  // name.
  function Telling(set_: set<string>, special: string, value: string, others: string): string -> Option<string> {
    n => if n in set_ then Some(if n == special then value else others) else None
  }

  predicate NamesSet(ps: seq<Piece>, set_: set<string>) {
    forall i :: 0 <= i < |ps| && !ps[i].Char? ==> ps[i].name in set_
  }

  // No piece is spelled as nothing.
  ghost predicate Speaks(env: Env, set_: set<string>) {
    && (forall n :: n in set_ ==> NonEmpty(env, n).Some? && env.hostname(ValueOf(env, n)) != "")
    && (forall n :: n !in set_ ==> NonEmpty(env, n).None?)
  }

  lemma SpellStarts(ps: seq<Piece>, set_: set<string>, env: Env)
    requires ps != [] && NamesSet(ps, set_) && Speaks(env, set_)
    ensures SpellPiece(ps[0], env) != "" && Spell(ps, env) != "" && Spell(ps, env)[0] == SpellPiece(ps[0], env)[0]
  {
  }

  // Two pieces that differ are told apart by their first character.
  lemma TellPieces(p: Piece, q: Piece, set_: set<string>, host: string -> string) returns (env: Env)
    requires ReadsUrls(host) && p != q && NamesSet([p], set_) && NamesSet([q], set_)
    ensures env.hostname == host && Speaks(env, set_)
    ensures SpellPiece(p, env) != "" && SpellPiece(q, env) != "" && SpellPiece(p, env)[0] != SpellPiece(q, env)[0]
  {
    assert !p.Char? ==> [p][0].name in set_;
    assert !q.Char? ==> [q][0].name in set_;
    var free := if Char('a') == p || Char('a') == q then 'b' else 'a';
    if p.Char? || q.Char? {
      env := Env(Telling(set_, "", Url(free, free), Url(free, free)), host);
    } else if p.HostOf? != q.HostOf? {
      env := Env(Telling(set_, "", Url('a', 'b'), Url('a', 'b')), host);
    } else {
      env := Env(Telling(set_, p.name, Url('a', 'a'), Url('b', 'b')), host);
    }
  }

  // Different pieces are told apart by some environment.
  lemma {:induction false} TellApart(ps: seq<Piece>, qs: seq<Piece>, set_: set<string>, host: string -> string) returns (env: Env)
    requires ReadsUrls(host) && NamesSet(ps, set_) && NamesSet(qs, set_)
    ensures env.hostname == host && Speaks(env, set_) && (ps != qs ==> Spell(ps, env) != Spell(qs, env))
  {
    if ps != [] && qs != [] && ps[0] == qs[0] {
      assert ps == [ps[0]] + ps[1..] && qs == [qs[0]] + qs[1..];
      env := TellApart(ps[1..], qs[1..], set_, host);
      Cancels(SpellPiece(ps[0], env), Spell(ps[1..], env), Spell(qs[1..], env));
    } else if ps != [] && qs != [] {
      env := TellPieces(ps[0], qs[0], set_, host);
      SpellStarts(ps, set_, env);
      SpellStarts(qs, set_, env);
    } else {
      env := Env(Telling(set_, "", Url('a', 'a'), Url('a', 'a')), host);
      if ps != [] {
        SpellStarts(ps, set_, env);
      } else if qs != [] {
        SpellStarts(qs, set_, env);
      }
    }
  }

  lemma Cancels(front: string, a: string, b: string)
    ensures front + a == front + b ==> a == b
  {
    assert a == (front + a)[|front|..] && b == (front + b)[|front|..];
  }

  lemma {:induction false} PiecesAreSet(t: Template, set_: set<string>)
    ensures NamesSet(Pieces(t, set_), set_)
    decreases t
  {
    match t
    case End =>
    case Text(_, rest) => PiecesAreSet(rest, set_);
    case Dollar(rest) => PiecesAreSet(rest, set_);
    case Group(ref, rest) =>
      PiecesAreSet(rest, set_);
      if ref.Default? || ref.IfSet? {
        PiecesAreSet(ref.body, set_);
      }
  }

  // For every choice of which variables are set, two trees come to the same
  // pieces.
  ghost predicate SamePieces(t: Template, r: Template) {
    forall set_: set<string> :: set_ <= Names(t) + Names(r) ==> Pieces(t, set_) == Pieces(r, set_)
  }

  predicate MeanSame(t: Template, r: Template, env: Env) {
    Meaning(t, env) == Meaning(r, env)
  }

  lemma SamePiecesMeanSame(t: Template, r: Template, env: Env)
    requires SamePieces(t, r)
    ensures MeanSame(t, r, env)
  {
    var set_ := set n | n in Names(t) + Names(r) && NonEmpty(env, n).Some?;
    MeaningIsPieces(t, env, set_);
    MeaningIsPieces(r, env, set_);
  }

  lemma MeanSameSamePieces(t: Template, r: Template, set_: set<string>, host: string -> string)
    requires ReadsUrls(host) && forall lookup: string -> Option<string> :: MeanSame(t, r, Env(lookup, host))
    ensures Pieces(t, set_) == Pieces(r, set_)
  {
    PiecesAreSet(t, set_);
    PiecesAreSet(r, set_);
    var env := TellApart(Pieces(t, set_), Pieces(r, set_), set_, host);
    MeaningIsPieces(t, env, set_);
    MeaningIsPieces(r, env, set_);
    assert MeanSame(t, r, Env(env.lookup, host));
  }

  // Two trees mean the same, whatever the variables hold, exactly when they
  // come to the same pieces.
  lemma SameMeaningIff(t: Template, r: Template, host: string -> string)
    requires ReadsUrls(host)
    ensures (forall lookup: string -> Option<string> :: MeanSame(t, r, Env(lookup, host))) <==> SamePieces(t, r)
  {
    forall lookup: string -> Option<string> | SamePieces(t, r) ensures MeanSame(t, r, Env(lookup, host)) {
      SamePiecesMeanSame(t, r, Env(lookup, host));
    }
    if forall lookup: string -> Option<string> :: MeanSame(t, r, Env(lookup, host)) {
      forall set_: set<string> ensures Pieces(t, set_) == Pieces(r, set_) {
        MeanSameSamePieces(t, r, set_, host);
      }
    }
  }

  // Expanding the printed tree gives what the tree means.
  predicate Faithful(t: Template, env: Env) {
    Expand(Print(t), env) == Meaning(t, env)
  }

  // The exact condition, for all trees: expansion is faithful whatever the
  // variables hold if and only if, whichever of them are set, the tree and what
  // the scanners read come to the same pieces.
  lemma MeansTemplateIff(t: Template, host: string -> string)
    requires ReadsUrls(host)
    ensures (forall lookup: string -> Option<string> :: Faithful(t, Env(lookup, host))) <==> SamePieces(t, Read(Print(t)))
  {
    var r := Read(Print(t));
    SameMeaningIff(t, r, host);
    forall lookup: string -> Option<string> ensures Faithful(t, Env(lookup, host)) <==> MeanSame(t, r, Env(lookup, host)) {
      ExpandIsReading(Print(t), Env(lookup, host));
    }
  }

  /* ----- where the syntax stops expressing ----- */

  // Where a modifier stands at the end of the text between braces, the rest of
  // it is taken for a name.
  lemma EvaluateModifier(name: string, env: Env)
    requires '$' !in name && '}' !in name && '|' !in name
    ensures Evaluate(name + Hostname, env) == if NonEmpty(env, name).Some? then env.hostname(NonEmpty(env, name).value) else ""
  {
    TopLevelSkips(name, Hostname, Hostname);
    assert TopLevel(Hostname, Hostname, 0) == Some(0);
    var inner := name + Hostname;
    assert TopLevel(inner, Hostname, 0) == Some(|name|);
    assert inner[..|name|] == name;
  }

  function OnlySet(name: string, value: string): string -> Option<string> {
    n => if n == name then Some(value) else None
  }

  // What a default and a conditional behind a name should come to.
  predicate DefaultMeans(n: string, body: string, env: Env) {
    Evaluate(n + (":-" + body), env) == if NonEmpty(env, n).Some? then NonEmpty(env, n).value else Expand(body, env)
  }

  predicate IfSetMeans(n: string, body: string, env: Env) {
    Evaluate(n + (":+" + body), env) == if NonEmpty(env, n).Some? then Expand(body, env) else ""
  }

  // A default behind a plain name is honoured, whatever the text of its body
  // and the parser of URLs, exactly when the first modifier does not stand at
  // its end.
  lemma DefaultMeansIff(n: string, body: string, host: string -> string)
    requires PlainName(n)
    ensures (forall lookup: string -> Option<string> :: DefaultMeans(n, body, Env(lookup, host))) <==> !ModifierAtEnd(n + (":-" + body))
  {
    var inner := n + (":-" + body);
    PlainNameBefore(n, ":-", body);
    NameEnds(n, ":-", body);
    if ModifierAtEnd(inner) {
      var at := TopLevel(inner, Hostname, 0).value;
      LongerName(n, ":-", body, at);
      var env := Env(OnlySet(n, "a"), host);
      assert Evaluate(inner, env) == "";
      assert NonEmpty(env, n) == Some("a");
      assert !DefaultMeans(n, body, Env(env.lookup, host));
    }
  }

  // Likewise a conditional.
  lemma IfSetMeansIff(n: string, body: string, host: string -> string)
    requires PlainName(n) && ReadsUrls(host)
    ensures (forall lookup: string -> Option<string> :: IfSetMeans(n, body, Env(lookup, host))) <==> !ModifierAtEnd(n + (":+" + body))
  {
    var inner := n + (":+" + body);
    PlainNameBefore(n, ":+", body);
    NameEnds(n, ":+", body);
    if ModifierAtEnd(inner) {
      var at := TopLevel(inner, Hostname, 0).value;
      LongerName(n, ":+", body, at);
      var env := Env(OnlySet(inner[..at], Url('a', 'a')), host);
      assert Evaluate(inner, env) == "a";
      assert NonEmpty(env, n) == None;
      assert !IfSetMeans(n, body, Env(env.lookup, host));
    }
  }

  // The modifier is found behind the plain name.
  lemma LongerName(n: string, op: string, body: string, at: nat)
    requires PlainName(n) && |op| == 2 && '|' !in op && TopLevel(n + (op + body), Hostname, 0) == Some(at)
    ensures |n| < at <= |n + (op + body)| && (n + (op + body))[..at] != n
  {
    var inner := n + (op + body);
    TopLevelHit(inner, Hostname, 0);
    assert inner[at] == inner[at..][0] == '|';
    assert |inner[..at]| == at;
  }

  // A default that ends in the hostname modifier is taken for a hostname
  // reference to a variable with an impossible name, and is lost.
  lemma HostnameSuffixIsCaptured(n: string, x: string, env: Env)
    requires PlainName(n) && PlainName(x)
    requires NonEmpty(env, n).None? && NonEmpty(env, n + (":-" + x)).None?
    ensures var ref := Default(n, Text(x + Hostname, End));
            Evaluate(PrintRef(ref), env) == "" != MeaningRef(ref, env)
  {
    var body := Text(x + Hostname, End);
    PrintText(x + Hostname, env);
    assert n + (":-" + (x + Hostname)) == (n + (":-" + x)) + Hostname;
    EvaluateModifier(n + (":-" + x), env);
    assert MeaningRef(Default(n, body), env) == x + Hostname;
  }

  lemma PrintText(s: string, env: Env)
    ensures Print(Text(s, End)) == s == Meaning(Text(s, End), env)
  {
    assert Print(Template.End) == "" && s + "" == s;
  }

  // Inside braces `$${` opens a group, so the escape is not honoured: the
  // reference has one closing brace too few and is left unexpanded.
  lemma EscapeFailsInsideBraces(n: string, x: string, env: Env)
    requires PlainName(n) && '$' !in x && '}' !in x && NonEmpty(env, n).None?
    ensures var ref := Default(n, Dollar(Text("{" + x, End)));
            Closing(PrintRef(ref) + "}", 1).None? && MeaningRef(ref, env) == "${" + x
  {
    var body := Dollar(Text("{" + x, End));
    PrintText("{" + x, env);
    assert Print(body) == "$$" + ("{" + x);
    assert (n + (":-" + Print(body))) + "}" == (n + ":-") + ("$" + ("${" + (x + "}")));
    ClosingSkips(n + ":-", "$" + ("${" + (x + "}")), 1);
    Unclosed(x);
    assert Meaning(body, env) == "$" + ("{" + x);
  }

  lemma Unclosed(x: string)
    requires '$' !in x && '}' !in x
    ensures Closing("$" + ("${" + (x + "}")), 1) == None
  {
    var tail := "${" + (x + "}");
    assert ("$" + tail)[1..] == tail && ("$" + tail)[1] == '$';
    ClosingOpens(x + "}", 1);
    ClosingSkips(x, "}", 2);
    assert "}" + "" == "}";
    ClosingCloses("", 2);
  }

  // A reference that never closes loses nothing: its two characters are kept
  // and what follows is expanded as if they were not there.
  lemma UnclosedIsCopied(u: string, env: Env)
    requires Closing(u, 1).None?
    ensures Expand("${" + u, env) == "${" + Expand(u, env)
  {
    assert ("${" + u)[2..] == u && ("${" + u)[1..] == "{" + u;
    assert StartsWith("${" + u, "${") && !StartsWith("${" + u, "$$");
    ExpandPlain('{', u, env);
    assert "$" + ("{" + Expand(u, env)) == "${" + Expand(u, env);
  }

  lemma ExpandPlain(c: char, after: string, env: Env)
    requires c != '$'
    ensures Expand([c] + after, env) == [c] + Expand(after, env)
  {
    var s := [c] + after;
    assert s[1..] == after && s[0] == c;
    assert !StartsWith(s, "$$") && !StartsWith(s, "${");
  }

  // A text stands for itself exactly when it holds no escape and no reference
  // that closes.
  lemma TextStandsIff(s: string, host: string -> string)
    ensures (forall lookup: string -> Option<string> :: Stands(s, Env(lookup, host))) <==> Copied(s, "")
  {
    forall lookup: string -> Option<string> | Copied(s, "") ensures Stands(s, Env(lookup, host)) {
      CopiedStands(s, Env(lookup, host));
    }
    var nothing := NothingSet(host);
    assert nothing == Env(nothing.lookup, host);
    OnlyCopiedStands(s, host);
  }

  predicate Stands(s: string, env: Env) {
    Expand(s, env) == s
  }

  lemma {:induction false} CopiedStands(s: string, env: Env)
    requires Copied(s, "")
    ensures Expand(s, env) == s
  {
    if s != "" {
      assert s + "" == s;
      CopiedStands(s[1..], env);
      assert [s[0]] + s[1..] == s;
    }
  }

  function NothingSet(host: string -> string): Env {
    Env(n => None, host)
  }

  // With nothing set, expansion never adds a character, and drops some at each
  // escape and each reference.
  lemma {:induction false} OnlyCopiedStands(s: string, host: string -> string)
    ensures |Expand(s, NothingSet(host))| <= |s| && (|Expand(s, NothingSet(host))| == |s| ==> Copied(s, ""))
    decreases |s|, 1
  {
    if s != "" {
      assert s + "" == s;
      if StartsWith(s, "$$") {
        OnlyCopiedStands(s[2..], host);
      } else if StartsWith(s, "${") && Closing(s[2..], 1).Some? {
        ClosingBound(s[2..], 1);
        var n := Closing(s[2..], 1).value;
        ReferenceShrinks(s[2..][..n - 1], host);
        OnlyCopiedStands(s[2..][n..], host);
      } else {
        OnlyCopiedStands(s[1..], host);
      }
    }
  }

  lemma {:induction false} ReferenceShrinks(inner: string, host: string -> string)
    ensures |Evaluate(inner, NothingSet(host))| <= |inner|
    decreases |inner|, 0
  {
    var o := OperatorOf(inner);
    if o.DefaultAt? {
      OnlyCopiedStands(inner[o.at + 2..], host);
    }
  }

  // The guards of Readable are more than is needed where a branch is never
  // taken: what the default of n holds does not matter where n is set.
  lemma DeadBranchHides(n: string)
    requires PlainName(n)
    ensures var t := Group(IfSet(n, Group(Default(n, Text("$$", End)), End)), End);
            !Readable(t) && forall env: Env :: Faithful(t, env)
  {
    var broken, whole := Default(n, Text("$$", End)), Default(n, Dollar(End));
    assert "$$" + "" == "$$" && Print(Template.End) == "";
    assert Print(whole.body) == "$$" == Print(broken.body);
    assert CopiedFirst("$$" + "") == false;
    assert |Hostname| == 9 && !EndsWith("$$", Hostname);
    assert !Readable(broken.body) && Expressible(whole.body, true) && ExpressibleRef(whole);
    DeadDefaultHides(n, broken, whole);
  }

  lemma DeadDefaultHides(n: string, broken: Ref, whole: Ref)
    requires PlainName(n) && broken.Default? && whole.Default? && broken.name == n == whole.name
    requires Print(broken.body) == Print(whole.body) && !Readable(broken.body) && ExpressibleRef(whole)
    ensures var t := Group(IfSet(n, Group(broken, End)), End);
            !Readable(t) && forall env: Env :: Faithful(t, env)
  {
    var tb, tw := Group(broken, End), Group(whole, End);
    var t, r := Group(IfSet(n, tb), End), Group(IfSet(n, tw), End);
    assert PrintRef(broken) == PrintRef(whole);
    assert Print(tb) == Print(tw);
    assert PrintRef(IfSet(n, tb)) == PrintRef(IfSet(n, tw));
    assert Print(t) == Print(r);
    assert !ReadableRef(broken) && !Readable(tb) && !ReadableRef(IfSet(n, tb));
    EndsInBrace(whole);
    OneGroup(whole);
    assert ExpressibleRef(IfSet(n, tw));
    OneGroup(IfSet(n, tw));
    ExpressibleIsReadable(r, true);
    forall env: Env ensures Faithful(t, env) {
      ExpandMeansTemplate(r, env);
      assert NonEmpty(env, n).Some? ==> Meaning(tb, env) == Meaning(tw, env);
      assert MeaningRef(IfSet(n, tb), env) == MeaningRef(IfSet(n, tw), env);
    }
  }

  lemma OneGroup(ref: Ref)
    ensures Expressible(Group(ref, End), true) <==> ExpressibleRef(ref)
  {
  }

  lemma EndsInBrace(ref: Ref)
    ensures !EndsWith(Print(Group(ref, End)), Hostname)
  {
    var p := Print(Group(ref, End));
    assert Print(Template.End) == "" && p[|p| - 1] == '}';
    LastOfSuffix(p, Hostname);
  }

  lemma LastOfSuffix(s: string, suffix: string)
    ensures EndsWith(s, suffix) && suffix != "" ==> s != "" && s[|s| - 1] == suffix[|suffix| - 1]
  {
    if EndsWith(s, suffix) && suffix != "" {
      assert s[|s| - 1] == s[|s| - |suffix|..][|suffix| - 1];
    }
  }

  // Without a closing brace only the escapes matter.
  function Unescaped(s: string): string {
    if s == "" then "" else if StartsWith(s, "$$") then "$" + Unescaped(s[2..]) else [s[0]] + Unescaped(s[1..])
  }

  lemma {:induction false} NoBraceOnlyUnescapes(s: string, env: Env)
    requires '}' !in s
    ensures Expand(s, env) == Unescaped(s)
    decreases |s|
  {
    if s != "" {
      if StartsWith(s, "$$") {
        NoBraceOnlyUnescapes(s[2..], env);
      } else {
        if StartsWith(s, "${") {
          NeverCloses(s[2..], 1);
        }
        NoBraceOnlyUnescapes(s[1..], env);
      }
    }
  }

  lemma {:induction false} NeverCloses(s: string, depth: nat)
    requires '}' !in s && depth > 0
    ensures Closing(s, depth).None?
    decreases |s|
  {
    if s != "" {
      if StartsWith(s, "${") {
        NeverCloses(s[2..], depth + 1);
      } else {
        NeverCloses(s[1..], depth);
      }
    }
  }

  /* ----- escaping ----- */

  function DoubleDollars(s: string): string {
    if s == "" then "" else (if s[0] == '$' then "$$" else [s[0]]) + DoubleDollars(s[1..])
  }

  // Doubling every dollar sign protects any text from expansion.
  lemma {:induction false} DoublingProtects(s: string, env: Env)
    ensures Expand(DoubleDollars(s), env) == s
  {
    if s != "" {
      DoublingProtects(s[1..], env);
      var d := DoubleDollars(s[1..]);
      if s[0] == '$' {
        assert ("$$" + d)[2..] == d;
      } else {
        ExpandPlain(s[0], d, env);
      }
      assert s == [s[0]] + s[1..];
    }
  }
}
