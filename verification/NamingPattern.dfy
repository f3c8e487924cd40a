/**
 * Naming-convention patterns: validation, and conversion by successive string
 * replacement, compared with substituting all placeholders at once.
 */
module NamingPattern {
  import opened Common

  function Count(s: string, c: char): nat {
    if s == "" then 0 else (if s[0] == c then 1 else 0) + Count(s[1..], c)
  }

  predicate BraceFree(s: string) {
    '{' !in s && '}' !in s
  }

  /** The first closing brace. */
  function Close(s: string): (j: Option<nat>)
    ensures j.Some? ==> j.value < |s| && s[j.value] == '}' && '}' !in s[..j.value]
    ensures j == None ==> '}' !in s
  {
    if s == "" then None
    else if s[0] == '}' then Some(0)
    else match Close(s[1..])
      case None => None
      case Some(j) => Some(j + 1)
  }

  /**
   * All groups of \{([^}]*)\}, or of \{([^}]+)\} when empty groups do not match. A match starts
   * at an opening brace and runs to the next closing one; scanning goes on behind it.
   */
  function FindAll(s: string, allowEmpty: bool): seq<string>
    decreases |s|
  {
    if s == "" then []
    else if s[0] != '{' then FindAll(s[1..], allowEmpty)
    else match Close(s[1..])
      case None => FindAll(s[1..], allowEmpty)
      case Some(j) =>
        if j == 0 && !allowEmpty then FindAll(s[1..], allowEmpty)
        else [s[1..j + 1]] + FindAll(s[j + 2..], allowEmpty)
  }

  predicate IdentifierChar(c: char) {
    'a' <= c <= 'z' || 'A' <= c <= 'Z' || '0' <= c <= '9' || c == '_' || c == '-'
  }

  /** ^[a-zA-Z0-9_-]+$, where the dollar also matches before a final newline. */
  predicate Identifier(s: string) {
    Core(s) != "" && forall i :: 0 <= i < |Core(s)| ==> IdentifierChar(Core(s)[i])
  }

  function Core(s: string): string {
    if s != "" && s[|s| - 1] == '\n' then s[..|s| - 1] else s
  }

  /** The patterns the schema validator lets through. */
  predicate Accepted(s: string) {
    BraceFree(s) ||
    (&& Count(s, '{') == Count(s, '}')
     && FindAll(s, true) != []
     && forall i :: 0 <= i < |FindAll(s, true)| ==> Identifier(FindAll(s, true)[i]))
  }

  /** By their places in ASCII: the minus sign, digits, capitals, the underscore, small letters. */
  lemma IdentifierChars(c: char)
    ensures var code := c as int;
            IdentifierChar(c) <==> code == 45 || 48 <= code < 58 || 65 <= code < 91 || code == 95 || 97 <= code < 123
  {
  }

  /** Identifier characters, at least one, and after them perhaps a newline. */
  lemma IdentifierIff(s: string)
    ensures Identifier(s) <==>
      s != "" && IdentifierChar(s[0]) && forall i :: 0 < i < |s| ==> IdentifierChar(s[i]) || (i == |s| - 1 && s[i] == '\n')
  {
    assert !IdentifierChar('\n');
    var core := Core(s);
    assert forall i :: 0 <= i < |core| ==> core[i] == s[i];
    if Identifier(s) {
      assert IdentifierChar(core[0]);
      assert forall i :: 0 <= i < |core| ==> IdentifierChar(s[i]);
    }
  }

  /** str.replace: every occurrence, from left to right, without overlaps. */
  function Replace(s: string, target: string, text: string): string
    requires target != ""
    decreases |s|
  {
    if s == "" then ""
    else if target <= s then text + Replace(s[|target|..], target, text)
    else [s[0]] + Replace(s[1..], target, text)
  }

  /** The substring test. */
  predicate Contains(s: string, t: string) {
    t <= s || (s != "" && Contains(s[1..], t))
  }

  /** A name that may stand in a pattern, with the text of its value. */
  datatype Binding = Binding(name: string, text: string)

  datatype Parent = Parent(outputs: seq<Binding>, dependencyConfig: seq<Binding>)

  datatype PatternError = MismatchedBraces | UnreplacedVariable

  predicate IsPlaceholder(value: string, name: string) {
    value == Placeholder(name) && BraceFree(name) && name != ""
  }

  /** Binding k is the first of its name. */
  predicate FirstNamed(bindings: seq<Binding>, k: int, name: string) {
    0 <= k < |bindings| && bindings[k].name == name && Unnamed(bindings[..k], name)
  }

  predicate Unnamed(bindings: seq<Binding>, name: string) {
    forall k :: 0 <= k < |bindings| ==> bindings[k].name != name
  }

  /** Output j of parent i is the first of its name, parent by parent. */
  predicate FirstOutput(parents: seq<Parent>, i: int, j: int, name: string) {
    && 0 <= i < |parents| && FirstNamed(parents[i].outputs, j, name)
    && forall h :: 0 <= h < i ==> Unnamed(parents[h].outputs, name)
  }

  predicate FirstConfig(parents: seq<Parent>, i: int, j: int, name: string) {
    && 0 <= i < |parents| && FirstNamed(parents[i].dependencyConfig, j, name)
    && forall h :: 0 <= h < i ==> Unnamed(parents[h].dependencyConfig, name)
  }

  predicate NoOutput(parents: seq<Parent>, name: string) {
    forall i :: 0 <= i < |parents| ==> Unnamed(parents[i].outputs, name)
  }

  predicate NoConfig(parents: seq<Parent>, name: string) {
    forall i :: 0 <= i < |parents| ==> Unnamed(parents[i].dependencyConfig, name)
  }

  /** The text of the first variable of this name, else of the first parent's output, else of the first parent's configuration. */
  ghost predicate StandsFor(variables: seq<Binding>, parents: seq<Parent>, name: string, text: string) {
    || (exists k :: FirstNamed(variables, k, name) && variables[k].text == text)
    || (Unnamed(variables, name)
        && exists i, j :: FirstOutput(parents, i, j, name) && parents[i].outputs[j].text == text)
    || (Unnamed(variables, name) && NoOutput(parents, name)
        && exists i, j :: FirstConfig(parents, i, j, name) && parents[i].dependencyConfig[j].text == text)
  }

  predicate Unbound(variables: seq<Binding>, parents: seq<Parent>, name: string) {
    Unnamed(variables, name) && NoOutput(parents, name) && NoConfig(parents, name)
  }

  function Placeholder(name: string): (p: string)
    ensures |p| == |name| + 2 && p[0] == '{' && p[|p| - 1] == '}' && p[1..|p| - 1] == name
  {
    "{" + name + "}"
  }

  function Bind(s: string, binding: Binding): string {
    Replace(s, Placeholder(binding.name), binding.text)
  }

  /** One replacement pass per binding, in order. */
  function BindAll(s: string, bindings: seq<Binding>): string {
    if bindings == [] then s else Bind(BindAll(s, bindings[..|bindings| - 1]), bindings[|bindings| - 1])
  }

  function Outputs(parents: seq<Parent>): seq<Binding> {
    if parents == [] then [] else Outputs(parents[..|parents| - 1]) + parents[|parents| - 1].outputs
  }

  function Configs(parents: seq<Parent>): seq<Binding> {
    if parents == [] then [] else Configs(parents[..|parents| - 1]) + parents[|parents| - 1].dependencyConfig
  }

  /** The variables whose name is among the placeholders found beforehand. */
  function Matching(variables: seq<Binding>, matches: seq<string>): seq<Binding> {
    if variables == [] then []
    else
      var n := |variables| - 1;
      Matching(variables[..n], matches) + if variables[n].name in matches then [variables[n]] else []
  }

  /** The bindings in the order the passes apply them. */
  function Applied(value: string, variables: seq<Binding>, parents: seq<Parent>): seq<Binding> {
    Matching(variables, FindAll(value, false)) + Outputs(parents) + Configs(parents)
  }

  function Converted(value: string, variables: seq<Binding>, parents: seq<Parent>): Result<string, PatternError> {
    if BraceFree(value) then Success(value)
    else if Count(value, '{') != Count(value, '}') then Failure(MismatchedBraces)
    else
      var text := BindAll(value, Applied(value, variables, parents));
      if BraceFree(text) then Success(text) else Failure(UnreplacedVariable)
  }

  lemma MatchingStep(variables: seq<Binding>, matches: seq<string>, k: nat)
    requires k < |variables|
    ensures Matching(variables[..k + 1], matches) ==
      if variables[k].name in matches then Matching(variables[..k], matches) + [variables[k]]
      else Matching(variables[..k], matches)
  {
    assert variables[..k + 1][..k] == variables[..k];
    assert Matching(variables[..k], matches) + [] == Matching(variables[..k], matches);
  }

  lemma BindAllConcat(s: string, a: seq<Binding>, b: seq<Binding>)
    ensures BindAll(s, a + b) == BindAll(BindAll(s, a), b)
  {
    if b == [] {
      assert a + b == a;
    } else {
      var n := |b| - 1;
      assert (a + b)[..|a + b| - 1] == a + b[..n];
      BindAllConcat(s, a, b[..n]);
    }
  }

  lemma BindAllSnoc(s: string, a: seq<Binding>, b: Binding)
    ensures BindAll(s, a + [b]) == Bind(BindAll(s, a), b)
  {
    assert (a + [b])[..|a|] == a;
  }

  /** Replacing something that does not occur changes nothing. */
  lemma ReplaceAbsent(s: string, target: string, text: string)
    requires target != "" && !Contains(s, target)
    ensures Replace(s, target, text) == s
  {
  }

  lemma PlaceholderParts(s: string, name: string)
    requires Contains(s, Placeholder(name))
    ensures Contains(s, name) && '{' in s
  {
    if Placeholder(name) <= s {
      assert name <= s[1..];
    } else {
      PlaceholderParts(s[1..], name);
    }
  }

  /** The guards on the parent passes never matter: without the name, or without braces, there is no placeholder. */
  lemma GuardedBind(s: string, binding: Binding)
    requires !Contains(s, binding.name) || BraceFree(s)
    ensures Bind(s, binding) == s
  {
    if Contains(s, Placeholder(binding.name)) {
      PlaceholderParts(s, binding.name);
    }
    ReplaceAbsent(s, Placeholder(binding.name), binding.text);
  }

  lemma BraceFreeBindAll(s: string, bindings: seq<Binding>)
    requires BraceFree(s)
    ensures BindAll(s, bindings) == s
  {
    if bindings != [] {
      BraceFreeBindAll(s, bindings[..|bindings| - 1]);
      GuardedBind(s, bindings[|bindings| - 1]);
    }
  }

  /** The replacements for one parent's outputs or configuration. */
  method BindVars(value: string, vars: seq<Binding>) returns (text: string)
    ensures text == BindAll(value, vars)
  {
    text := value;
    for i := 0 to |vars|
      invariant text == BindAll(value, vars[..i])
    {
      assert vars[..i + 1][..i] == vars[..i];
      if Contains(text, vars[i].name) {
        text := Bind(text, vars[i]);
      } else {
        GuardedBind(text, vars[i]);
      }
    }
    assert vars[..|vars|] == vars;
  }

  method BindOutputs(value: string, parents: seq<Parent>) returns (text: string)
    ensures text == BindAll(value, Outputs(parents))
  {
    text := value;
    if BraceFree(text) {
      BraceFreeBindAll(text, Outputs(parents));
      return;
    }
    for k := 0 to |parents|
      invariant text == BindAll(value, Outputs(parents[..k]))
    {
      assert parents[..k + 1][..k] == parents[..k];
      BindAllConcat(value, Outputs(parents[..k]), parents[k].outputs);
      text := BindVars(text, parents[k].outputs);
    }
    assert parents[..|parents|] == parents;
  }

  method BindConfigs(value: string, parents: seq<Parent>) returns (text: string)
    ensures text == BindAll(value, Configs(parents))
  {
    text := value;
    if BraceFree(text) {
      BraceFreeBindAll(text, Configs(parents));
      return;
    }
    for k := 0 to |parents|
      invariant text == BindAll(value, Configs(parents[..k]))
    {
      assert parents[..k + 1][..k] == parents[..k];
      BindAllConcat(value, Configs(parents[..k]), parents[k].dependencyConfig);
      text := BindVars(text, parents[k].dependencyConfig);
    }
    assert parents[..|parents|] == parents;
  }

  method ConvertField(value: string, variables: seq<Binding>, parents: seq<Parent>)
    returns (r: Result<string, PatternError>)
    ensures r == Converted(value, variables, parents)
    ensures forall name, text :: IsPlaceholder(value, name) && StandsFor(variables, parents, name, text) && BraceFree(text) ==>
      r == Success(text)
    ensures forall name :: IsPlaceholder(value, name) && Unbound(variables, parents, name) ==> r == Failure(UnreplacedVariable)
  {
    PlaceholderConverted(value, variables, parents);
    if BraceFree(value) {
      return Success(value);
    }
    if Count(value, '{') != Count(value, '}') {
      return Failure(MismatchedBraces);
    }
    var matches := FindAll(value, false);
    var text := value;
    for k := 0 to |variables|
      invariant text == BindAll(value, Matching(variables[..k], matches))
    {
      MatchingStep(variables, matches, k);
      if variables[k].name in matches {
        BindAllSnoc(value, Matching(variables[..k], matches), variables[k]);
        text := Bind(text, variables[k]);
      }
    }
    assert variables[..|variables|] == variables;
    text := BindOutputs(text, parents);
    BindAllConcat(value, Matching(variables, matches), Outputs(parents));
    text := BindConfigs(text, parents);
    BindAllConcat(value, Matching(variables, matches) + Outputs(parents), Configs(parents));
    if !BraceFree(text) {
      return Failure(UnreplacedVariable);
    }
    return Success(text);
  }

  /** A pattern taken apart: placeholders, and the characters between them. */
  datatype Token = Char(c: char) | Hole(name: string)

  function Parse(s: string): seq<Token>
    decreases |s|
  {
    if s == "" then []
    else if s[0] != '{' then [Char(s[0])] + Parse(s[1..])
    else match Close(s[1..])
      case None => [Char(s[0])] + Parse(s[1..])
      case Some(j) => [Hole(s[1..j + 1])] + Parse(s[j + 2..])
  }

  function Text(token: Token): string {
    match token
    case Char(c) => [c]
    case Hole(name) => Placeholder(name)
  }

  function Render(tokens: seq<Token>): string {
    if tokens == [] then "" else Text(tokens[0]) + Render(tokens[1..])
  }

  function Lookup(bindings: seq<Binding>, name: string): Option<string> {
    if bindings == [] then None
    else if bindings[0].name == name then Some(bindings[0].text)
    else Lookup(bindings[1..], name)
  }

  /** All placeholders at once, each by its first binding; None if one is unbound or a brace is left over. */
  function Substitute(tokens: seq<Token>, bindings: seq<Binding>): Option<string> {
    if tokens == [] then Some("")
    else match Substitute(tokens[1..], bindings)
      case None => None
      case Some(rest) =>
        match tokens[0]
        case Char(c) => if c == '{' || c == '}' then None else Some([c] + rest)
        case Hole(name) =>
          match Lookup(bindings, name)
          case None => None
          case Some(text) => Some(text + rest)
  }

  /** What a conversion is meant to give: variables first, then parent outputs, then parent configuration. */
  function Intended(value: string, variables: seq<Binding>, parents: seq<Parent>): Option<string> {
    Substitute(Parse(value), variables + Outputs(parents) + Configs(parents))
  }

  lemma {:induction false} ParseRender(s: string)
    ensures Render(Parse(s)) == s
    decreases |s|
  {
    if s == "" {
    } else if s[0] == '{' && Close(s[1..]).Some? {
      var j := Close(s[1..]).value;
      ParseRender(s[j + 2..]);
      RenderCons(Hole(s[1..j + 1]), Parse(s[j + 2..]));
      PlaceholderInside(s, j);
    } else {
      ParseRender(s[1..]);
      RenderCons(Char(s[0]), Parse(s[1..]));
    }
  }

  lemma PlaceholderInside(s: string, j: nat)
    requires j + 1 < |s| && s[0] == '{' && s[j + 1] == '}'
    ensures s == Placeholder(s[1..j + 1]) + s[j + 2..]
  {
  }

  lemma RenderCons(token: Token, tokens: seq<Token>)
    ensures Render([token] + tokens) == Text(token) + Render(tokens)
  {
    assert ([token] + tokens)[1..] == tokens;
  }

  /** No stray brace, and no brace inside a placeholder. */
  predicate Clean(token: Token) {
    match token
    case Char(c) => c != '{' && c != '}'
    case Hole(name) => BraceFree(name)
  }

  predicate AllClean(tokens: seq<Token>) {
    forall i :: 0 <= i < |tokens| ==> Clean(tokens[i])
  }

  /** Scanning passes over text without an opening brace. */
  lemma ReplaceSkip(u: string, rest: string, name: string, text: string)
    requires '{' !in u
    ensures Replace(u + rest, Placeholder(name), text) == u + Replace(rest, Placeholder(name), text)
  {
    if u == "" {
      assert u + rest == rest;
    } else {
      assert (u + rest)[1..] == u[1..] + rest;
      assert (u + rest)[0] != '{';
      ReplaceSkip(u[1..], rest, name, text);
    }
  }

  /** A different placeholder is passed over as a whole. */
  lemma ReplaceOther(other: string, rest: string, name: string, text: string)
    requires BraceFree(other) && BraceFree(name) && other != name
    ensures Replace(Placeholder(other) + rest, Placeholder(name), text)
         == Placeholder(other) + Replace(rest, Placeholder(name), text)
  {
    var s := Placeholder(other) + rest;
    if Placeholder(name) <= s {
      SamePlaceholder(other, rest, name);
    }
    var tail := other + "}";
    assert s[1..] == tail + rest;
    ReplaceSkip(tail, rest, name, text);
    assert Placeholder(other) == ['{'] + tail;
  }

  lemma SamePlaceholder(other: string, rest: string, name: string)
    requires BraceFree(other) && BraceFree(name)
    requires Placeholder(name) <= Placeholder(other) + rest
    ensures other == name
  {
    var s := Placeholder(other) + rest;
    var p := Placeholder(name);
    assert s[..|p|] == p;
    assert forall i :: 0 <= i < |other| ==> s[i + 1] == other[i];
    assert forall i :: 0 <= i < |name| ==> s[i + 1] == p[i + 1] == name[i];
    assert s[|name| + 1] == '}' && s[|other| + 1] == '}';
    assert |name| == |other|;
  }

  function Chars(text: string): seq<Token> {
    seq(|text|, i requires 0 <= i < |text| => Char(text[i]))
  }

  /** One binding filled in, token by token. */
  function Fill(tokens: seq<Token>, binding: Binding): seq<Token> {
    if tokens == [] then []
    else (if tokens[0] == Hole(binding.name) then Chars(binding.text) else [tokens[0]]) + Fill(tokens[1..], binding)
  }

  lemma RenderConcat(a: seq<Token>, b: seq<Token>)
    ensures Render(a + b) == Render(a) + Render(b)
  {
    if a == [] {
      assert a + b == b;
    } else {
      assert (a + b)[1..] == a[1..] + b;
      RenderConcat(a[1..], b);
    }
  }

  lemma RenderChars(text: string)
    ensures Render(Chars(text)) == text
  {
    if text != "" {
      assert Chars(text)[1..] == Chars(text[1..]);
      RenderChars(text[1..]);
    }
  }

  /** A replacement pass is a fill of the tokens. */
  lemma BindIsFill(tokens: seq<Token>, binding: Binding)
    requires AllClean(tokens) && BraceFree(binding.name)
    ensures Bind(Render(tokens), binding) == Render(Fill(tokens, binding))
  {
    if tokens != [] {
      var rest := Render(tokens[1..]);
      BindIsFill(tokens[1..], binding);
      assert Clean(tokens[0]);
      match tokens[0] {
        case Char(c) =>
          ReplaceSkip([c], rest, binding.name, binding.text);
          RenderConcat([tokens[0]], Fill(tokens[1..], binding));
        case Hole(name) =>
          if name == binding.name {
            RenderConcat(Chars(binding.text), Fill(tokens[1..], binding));
            RenderChars(binding.text);
            assert (Placeholder(name) + rest)[|Placeholder(name)|..] == rest;
          } else {
            ReplaceOther(name, rest, binding.name, binding.text);
            RenderConcat([tokens[0]], Fill(tokens[1..], binding));
          }
      }
    }
  }

  /** The values the placeholders of these tokens receive contain no brace. */
  predicate UsedBraceFree(tokens: seq<Token>, bindings: seq<Binding>) {
    forall i :: 0 <= i < |tokens| && tokens[i].Hole? && Lookup(bindings, tokens[i].name).Some? ==>
      BraceFree(Lookup(bindings, tokens[i].name).value)
  }

  lemma SubstituteChars(text: string, tokens: seq<Token>, bindings: seq<Binding>)
    requires BraceFree(text)
    ensures Substitute(Chars(text) + tokens, bindings) ==
      match Substitute(tokens, bindings) case None => None case Some(rest) => Some(text + rest)
  {
    if text == "" {
      assert Chars(text) + tokens == tokens;
      var r := Substitute(tokens, bindings);
      assert r.Some? ==> text + r.value == r.value;
    } else {
      assert (Chars(text) + tokens)[1..] == Chars(text[1..]) + tokens;
      SubstituteChars(text[1..], tokens, bindings);
      assert BraceFree(text) && text[0] in text;
      match Substitute(tokens, bindings) {
        case None =>
        case Some(rest) => assert [text[0]] + (text[1..] + rest) == text + rest;
      }
    }
  }

  /** Filling in the first binding, then substituting the rest, is substituting all. */
  lemma FillSubstitute(tokens: seq<Token>, binding: Binding, rest: seq<Binding>)
    requires AllClean(tokens) && UsedBraceFree(tokens, [binding] + rest)
    ensures AllClean(Fill(tokens, binding)) && UsedBraceFree(Fill(tokens, binding), rest)
    ensures Substitute(Fill(tokens, binding), rest) == Substitute(tokens, [binding] + rest)
  {
    if tokens != [] {
      assert ([binding] + rest)[1..] == rest;
      FillSubstitute(tokens[1..], binding, rest);
      if tokens[0] == Hole(binding.name) {
        SubstituteChars(binding.text, Fill(tokens[1..], binding), rest);
      } else {
        assert ([tokens[0]] + Fill(tokens[1..], binding))[1..] == Fill(tokens[1..], binding);
      }
    }
  }

  predicate NamesBraceFree(bindings: seq<Binding>) {
    forall i :: 0 <= i < |bindings| ==> BraceFree(bindings[i].name)
  }

  lemma NothingBound(tokens: seq<Token>)
    requires AllClean(tokens)
    ensures match Substitute(tokens, [])
            case Some(text) => Render(tokens) == text && BraceFree(text)
            case None => !BraceFree(Render(tokens))
  {
  }

  /** With brace-free values, the successive passes compute the simultaneous substitution. */
  lemma {:induction false} PassesSubstitute(tokens: seq<Token>, bindings: seq<Binding>)
    requires AllClean(tokens) && NamesBraceFree(bindings) && UsedBraceFree(tokens, bindings)
    ensures match Substitute(tokens, bindings)
            case Some(text) => BindAll(Render(tokens), bindings) == text && BraceFree(text)
            case None => !BraceFree(BindAll(Render(tokens), bindings))
    decreases |bindings|
  {
    if bindings == [] {
      NothingBound(tokens);
    } else {
      var binding, rest := bindings[0], bindings[1..];
      assert bindings == [binding] + rest;
      FillSubstitute(tokens, binding, rest);
      BindIsFill(tokens, binding);
      BindAllConcat(Render(tokens), [binding], rest);
      BindAllSnoc(Render(tokens), [], binding);
      assert [] + [binding] == [binding];
      PassesSubstitute(Fill(tokens, binding), rest);
    }
  }

  /** A brace in a substituted value shows in the result. */
  lemma UsedBraceShows(tokens: seq<Token>, bindings: seq<Binding>)
    requires Substitute(tokens, bindings).Some? && !UsedBraceFree(tokens, bindings)
    ensures !BraceFree(Substitute(tokens, bindings).value)
  {
    var i :| 0 <= i < |tokens| && tokens[i].Hole? && Lookup(bindings, tokens[i].name).Some?
      && !BraceFree(Lookup(bindings, tokens[i].name).value);
    if i > 0 {
      assert tokens[1..][i - 1] == tokens[i];
      UsedBraceShows(tokens[1..], bindings);
    }
  }

  /** An opening brace that nothing after it closes. */
  predicate OpenTail(s: string) {
    s != "" && ((s[0] == '{' && '}' !in s) || OpenTail(s[1..]))
  }

  lemma OpenTailHasBrace(s: string)
    requires OpenTail(s)
    ensures '{' in s
  {
  }

  lemma OpenTailPrepend(u: string, s: string)
    requires OpenTail(s)
    ensures OpenTail(u + s)
  {
    if u == "" {
      assert u + s == s;
    } else {
      assert (u + s)[1..] == u[1..] + s;
    }
  }

  lemma OpenTailBehind(u: string, s: string)
    requires u != "" && u[|u| - 1] == '}' && OpenTail(u + s)
    ensures OpenTail(s)
  {
    assert (u + s)[1..] == u[1..] + s;
    assert (u + s)[|u| - 1] == '}';
    if |u| == 1 {
      assert u[1..] + s == s;
    } else {
      OpenTailBehind(u[1..], s);
    }
  }

  lemma {:induction false} ReplaceKeepsTail(s: string, name: string, text: string)
    requires OpenTail(s)
    ensures OpenTail(Replace(s, Placeholder(name), text))
    decreases |s|
  {
    var p := Placeholder(name);
    if p <= s {
      assert s == p + s[|p|..];
      OpenTailBehind(p, s[|p|..]);
      ReplaceKeepsTail(s[|p|..], name, text);
      OpenTailPrepend(text, Replace(s[|p|..], p, text));
    } else if s[0] == '{' && '}' !in s {
      if Contains(s, p) {
        ContainedClose(s, name);
      }
      ReplaceAbsent(s, p, text);
    } else {
      ReplaceKeepsTail(s[1..], name, text);
      assert ([s[0]] + Replace(s[1..], p, text))[1..] == Replace(s[1..], p, text);
    }
  }

  lemma ContainedClose(s: string, name: string)
    requires Contains(s, Placeholder(name))
    ensures '}' in s
  {
    var p := Placeholder(name);
    if p <= s {
      assert s[|p| - 1] == p[|p| - 1];
    }
  }

  lemma PassesKeepTail(s: string, bindings: seq<Binding>)
    requires OpenTail(s)
    ensures OpenTail(BindAll(s, bindings))
  {
    if bindings != [] {
      PassesKeepTail(s, bindings[..|bindings| - 1]);
      var binding := bindings[|bindings| - 1];
      ReplaceKeepsTail(BindAll(s, bindings[..|bindings| - 1]), binding.name, binding.text);
    }
  }

  lemma ContainsPrepend(u: string, s: string, t: string)
    requires Contains(s, t)
    ensures Contains(u + s, t)
  {
    if u == "" {
      assert u + s == s;
    } else {
      assert (u + s)[1..] == u[1..] + s;
    }
  }

  lemma ContainsBehind(u: string, s: string, name: string)
    requires '{' !in u && Contains(u + s, Placeholder(name))
    ensures Contains(s, Placeholder(name))
  {
    if u == "" {
      assert u + s == s;
    } else {
      assert (u + s)[1..] == u[1..] + s && (u + s)[0] != '{';
      ContainsBehind(u[1..], s, name);
    }
  }

  /** A pass for one name leaves the placeholders of another in place, whatever the text. */
  lemma {:induction false} ReplaceKeepsOther(s: string, other: string, name: string, text: string)
    requires BraceFree(other) && BraceFree(name) && other != name
    requires Contains(s, Placeholder(other))
    ensures Contains(Replace(s, Placeholder(name), text), Placeholder(other))
    decreases |s|
  {
    var p, q := Placeholder(name), Placeholder(other);
    if p <= s {
      var rest := s[|p|..];
      assert s == p + rest;
      if q <= s {
        SamePlaceholder(name, rest, other);
      }
      assert s[1..] == (name + "}") + rest;
      ContainsBehind(name + "}", rest, other);
      ReplaceKeepsOther(rest, other, name, text);
      ContainsPrepend(text, Replace(rest, p, text), q);
    } else if q <= s {
      var rest := s[|q|..];
      assert s == q + rest;
      ReplaceOther(other, rest, name, text);
    } else {
      ReplaceKeepsOther(s[1..], other, name, text);
      ContainsPrepend([s[0]], Replace(s[1..], p, text), q);
    }
  }

  lemma {:induction false} PassesKeepUnbound(s: string, name: string, bindings: seq<Binding>)
    requires BraceFree(name) && NamesBraceFree(bindings)
    requires Contains(s, Placeholder(name)) && forall i :: 0 <= i < |bindings| ==> bindings[i].name != name
    ensures Contains(BindAll(s, bindings), Placeholder(name))
  {
    if bindings != [] {
      var n := |bindings| - 1;
      PassesKeepUnbound(s, name, bindings[..n]);
      ReplaceKeepsOther(BindAll(s, bindings[..n]), name, bindings[n].name, bindings[n].text);
    }
  }

  lemma LookupNone(bindings: seq<Binding>, name: string)
    requires Lookup(bindings, name) == None
    ensures forall i :: 0 <= i < |bindings| ==> bindings[i].name != name
  {
    if bindings != [] {
      LookupNone(bindings[1..], name);
      assert forall i :: 1 <= i < |bindings| ==> bindings[i] == bindings[1..][i - 1];
    }
  }

  /** If the tokens are clean and cannot be substituted, some placeholder has no binding and stays. */
  lemma UnboundStays(tokens: seq<Token>, bindings: seq<Binding>) returns (name: string)
    requires AllClean(tokens) && Substitute(tokens, bindings) == None
    ensures BraceFree(name) && Lookup(bindings, name) == None
    ensures Contains(Render(tokens), Placeholder(name))
  {
    if tokens[0].Hole? && Lookup(bindings, tokens[0].name) == None {
      name := tokens[0].name;
      assert Clean(tokens[0]);
      assert Placeholder(name) <= Render(tokens);
    } else {
      name := UnboundStays(tokens[1..], bindings);
      ContainsPrepend(Text(tokens[0]), Render(tokens[1..]), Placeholder(name));
    }
  }

  /** How often a character stands by itself in the parsed pattern. */
  function Strays(tokens: seq<Token>, c: char): nat {
    if tokens == [] then 0 else (if tokens[0] == Char(c) then 1 else 0) + Strays(tokens[1..], c)
  }

  predicate HolesBraceFree(tokens: seq<Token>) {
    forall i :: 0 <= i < |tokens| && tokens[i].Hole? ==> BraceFree(tokens[i].name)
  }

  lemma CountConcat(a: string, b: string, c: char)
    ensures Count(a + b, c) == Count(a, c) + Count(b, c)
  {
    if a == "" {
      assert a + b == b;
    } else {
      assert (a + b)[1..] == a[1..] + b;
    }
  }

  lemma CountAbsent(s: string, c: char)
    requires c !in s
    ensures Count(s, c) == 0
  {
  }

  lemma CountPlaceholder(name: string)
    requires BraceFree(name)
    ensures Count(Placeholder(name), '{') == Count(Placeholder(name), '}') == 1
  {
    assert Placeholder(name) == "{" + (name + "}");
    CountConcat("{", name + "}", '{');
    CountConcat("{", name + "}", '}');
    CountConcat(name, "}", '{');
    CountConcat(name, "}", '}');
    CountAbsent(name, '{');
    CountAbsent(name, '}');
  }

  /** Placeholders are balanced, so any imbalance of the pattern is one of stray braces. */
  lemma StrayBalance(tokens: seq<Token>)
    requires HolesBraceFree(tokens)
    ensures Count(Render(tokens), '{') - Count(Render(tokens), '}') == Strays(tokens, '{') - Strays(tokens, '}')
  {
    if tokens != [] {
      assert forall i :: 0 <= i < |tokens[1..]| ==> tokens[1..][i] == tokens[i + 1];
      StrayBalance(tokens[1..]);
      CountConcat(Text(tokens[0]), Render(tokens[1..]), '{');
      CountConcat(Text(tokens[0]), Render(tokens[1..]), '}');
      if tokens[0].Hole? {
        CountPlaceholder(tokens[0].name);
      }
    }
  }

  lemma StrayUnclean(tokens: seq<Token>)
    requires HolesBraceFree(tokens)
    ensures AllClean(tokens) <==> Strays(tokens, '{') == Strays(tokens, '}') == 0
  {
    if tokens != [] {
      assert forall i :: 0 <= i < |tokens[1..]| ==> tokens[1..][i] == tokens[i + 1];
      StrayUnclean(tokens[1..]);
      assert AllClean(tokens) <==> Clean(tokens[0]) && AllClean(tokens[1..]) by {
        assert forall i :: 1 <= i < |tokens| ==> tokens[i] == tokens[1..][i - 1];
      }
    }
  }

  lemma UncleanUnsubstitutable(tokens: seq<Token>, bindings: seq<Binding>)
    requires HolesBraceFree(tokens) && !AllClean(tokens)
    ensures Substitute(tokens, bindings) == None
  {
    if Clean(tokens[0]) {
      assert forall i :: 1 <= i < |tokens| ==> tokens[i] == tokens[1..][i - 1];
      UncleanUnsubstitutable(tokens[1..], bindings);
    }
  }

  /** The parser leaves an opening brace by itself only when nothing closes it. */
  lemma {:induction false} StrayIsOpenTail(s: string)
    requires Strays(Parse(s), '{') > 0
    ensures OpenTail(s)
    decreases |s|
  {
    if s[0] == '{' && Close(s[1..]).Some? {
      var j := Close(s[1..]).value;
      StraysCons(Hole(s[1..j + 1]), Parse(s[j + 2..]), '{');
      StrayIsOpenTail(s[j + 2..]);
      OpenTailPrepend(s[..j + 2], s[j + 2..]);
      assert s[..j + 2] + s[j + 2..] == s;
    } else if s[0] != '{' {
      StraysCons(Char(s[0]), Parse(s[1..]), '{');
      StrayIsOpenTail(s[1..]);
    }
  }

  lemma StraysCons(token: Token, tokens: seq<Token>, c: char)
    ensures Strays([token] + tokens, c) == (if token == Char(c) then 1 else 0) + Strays(tokens, c)
  {
    assert ([token] + tokens)[1..] == tokens;
  }

  /** The parser and the regular expression see the same placeholders. */
  lemma {:induction false} HolesAreFound(s: string, name: string)
    ensures Hole(name) in Parse(s) <==> name in FindAll(s, true)
    decreases |s|
  {
    if s != "" {
      if s[0] == '{' && Close(s[1..]).Some? {
        HolesAreFound(s[Close(s[1..]).value + 2..], name);
      } else {
        HolesAreFound(s[1..], name);
      }
    }
  }

  /** The conversion looks up exactly the placeholders that are not empty, whether the pattern is accepted or not. */
  lemma {:induction false} GroupsFound(s: string, name: string)
    ensures name in FindAll(s, false) <==> name != "" && Hole(name) in Parse(s)
    decreases |s|
  {
    if s != "" {
      if s[0] == '{' && Close(s[1..]).Some? {
        var j := Close(s[1..]).value;
        GroupsFound(s[j + 2..], name);
        if j == 0 {
          assert s[1..][1..] == s[j + 2..];
        }
      } else {
        GroupsFound(s[1..], name);
      }
    }
  }

  /** The patterns accepted: no braces, or as many of each kind, some placeholder, and identifiers in all of them. */
  lemma AcceptedIff(s: string)
    ensures Accepted(s) <==>
      || BraceFree(s)
      || (&& Count(s, '{') == Count(s, '}') && (exists name :: Hole(name) in Parse(s))
          && forall name :: Hole(name) in Parse(s) ==> Identifier(name))
  {
    var found := FindAll(s, true);
    forall name
      ensures Hole(name) in Parse(s) <==> name in found
    {
      HolesAreFound(s, name);
    }
    if found != [] {
      assert found[0] in found && Hole(found[0]) in Parse(s);
    }
    if forall name :: Hole(name) in Parse(s) ==> Identifier(name) {
      forall i | 0 <= i < |found|
        ensures Identifier(found[i])
      {
        assert found[i] in found && Hole(found[i]) in Parse(s);
      }
    }
  }

  lemma {:induction false} NonEmptyGroups(s: string)
    requires forall i :: 0 <= i < |FindAll(s, true)| ==> FindAll(s, true)[i] != ""
    ensures FindAll(s, false) == FindAll(s, true)
    decreases |s|
  {
    if s != "" {
      if s[0] == '{' && Close(s[1..]).Some? {
        var j := Close(s[1..]).value;
        var rest := FindAll(s[j + 2..], true);
        assert FindAll(s, true) == [s[1..j + 1]] + rest;
        assert FindAll(s, true)[0] == s[1..j + 1];
        assert forall i :: 0 <= i < |rest| ==> rest[i] == FindAll(s, true)[i + 1];
        NonEmptyGroups(s[j + 2..]);
      } else {
        assert FindAll(s, true) == FindAll(s[1..], true);
        NonEmptyGroups(s[1..]);
      }
    }
  }

  lemma IdentifierBraceFree(s: string)
    requires Identifier(s)
    ensures BraceFree(s) && s != ""
  {
    var core := Core(s);
    forall i | 0 <= i < |s|
      ensures s[i] != '{' && s[i] != '}'
    {
      if i < |core| {
        assert IdentifierChar(core[i]);
      }
    }
  }

  lemma LookupConcat(a: seq<Binding>, b: seq<Binding>, name: string)
    ensures Lookup(a + b, name) == if Lookup(a, name).Some? then Lookup(a, name) else Lookup(b, name)
  {
    if a == [] {
      assert a + b == b;
    } else {
      assert (a + b)[1..] == a[1..] + b;
    }
  }

  /** Dropping variables that are no placeholder does not change what a placeholder is bound to. */
  lemma LookupMatching(variables: seq<Binding>, matches: seq<string>, name: string)
    requires name in matches
    ensures Lookup(Matching(variables, matches), name) == Lookup(variables, name)
  {
    if variables != [] {
      var n := |variables| - 1;
      LookupMatching(variables[..n], matches, name);
      assert variables == variables[..n] + [variables[n]];
      LookupConcat(variables[..n], [variables[n]], name);
      LookupConcat(Matching(variables[..n], matches), [variables[n]], name);
      assert Matching(variables[..n], matches) + [] == Matching(variables[..n], matches);
    }
  }

  lemma SubstituteAgrees(tokens: seq<Token>, a: seq<Binding>, b: seq<Binding>)
    requires forall i :: 0 <= i < |tokens| && tokens[i].Hole? ==> Lookup(a, tokens[i].name) == Lookup(b, tokens[i].name)
    ensures Substitute(tokens, a) == Substitute(tokens, b)
    ensures UsedBraceFree(tokens, a) <==> UsedBraceFree(tokens, b)
  {
    if tokens != [] {
      assert forall i :: 0 <= i < |tokens[1..]| ==> tokens[1..][i] == tokens[i + 1];
      SubstituteAgrees(tokens[1..], a, b);
    }
  }

  lemma MatchingNames(variables: seq<Binding>, matches: seq<string>)
    requires forall m :: m in matches ==> BraceFree(m)
    ensures NamesBraceFree(Matching(variables, matches))
  {
  }

  /** No pass finds a placeholder for a name that contains a brace. */
  predicate Idle(s: string, bindings: seq<Binding>)
    decreases |bindings|
  {
    bindings == [] ||
    ((BraceFree(bindings[0].name) || !Contains(s, Placeholder(bindings[0].name))) && Idle(Bind(s, bindings[0]), bindings[1..]))
  }

  /** The bindings whose name has no brace. */
  function Ordinary(bindings: seq<Binding>): seq<Binding> {
    if bindings == [] then []
    else (if BraceFree(bindings[0].name) then [bindings[0]] else []) + Ordinary(bindings[1..])
  }

  lemma BindAllFirst(s: string, binding: Binding, rest: seq<Binding>)
    ensures BindAll(s, [binding] + rest) == BindAll(Bind(s, binding), rest)
  {
    BindAllConcat(s, [binding], rest);
    BindAllSnoc(s, [], binding);
    assert [] + [binding] == [binding];
  }

  lemma OrdinaryNames(bindings: seq<Binding>)
    ensures NamesBraceFree(Ordinary(bindings))
  {
  }

  lemma OrdinaryFirst(binding: Binding, rest: seq<Binding>)
    ensures Ordinary([binding] + rest) == if BraceFree(binding.name) then [binding] + Ordinary(rest) else Ordinary(rest)
  {
    assert ([binding] + rest)[1..] == rest;
    assert [] + Ordinary(rest) == Ordinary(rest);
  }

  /** Passes that find nothing can be left out. */
  lemma {:induction false} IdleOrdinary(s: string, bindings: seq<Binding>)
    requires Idle(s, bindings)
    ensures BindAll(s, bindings) == BindAll(s, Ordinary(bindings))
    decreases |bindings|
  {
    if bindings != [] {
      var binding, rest := bindings[0], bindings[1..];
      assert bindings == [binding] + rest;
      BindAllFirst(s, binding, rest);
      OrdinaryFirst(binding, rest);
      IdleOrdinary(Bind(s, binding), rest);
      if BraceFree(binding.name) {
        BindAllFirst(s, binding, Ordinary(rest));
      } else {
        ReplaceAbsent(s, Placeholder(binding.name), binding.text);
      }
    }
  }

  lemma LookupOrdinary(bindings: seq<Binding>, name: string)
    requires BraceFree(name)
    ensures Lookup(Ordinary(bindings), name) == Lookup(bindings, name)
  {
    if bindings != [] {
      LookupOrdinary(bindings[1..], name);
      if BraceFree(bindings[0].name) {
        assert ([bindings[0]] + Ordinary(bindings[1..]))[1..] == Ordinary(bindings[1..]);
      } else {
        assert [] + Ordinary(bindings[1..]) == Ordinary(bindings[1..]);
      }
    }
  }

  /** A name with braces that never matches in the course of this conversion, or cannot matter to it. */
  predicate NamesIdle(value: string, variables: seq<Binding>, parents: seq<Parent>) {
    BraceFree(value) || !AllClean(Parse(value)) || Idle(value, Applied(value, variables, parents))
  }

  /** Read from inside or outside a placeholder, do braces open and close in turn, and where does it end? */
  function Scan(s: string, inside: bool): Option<bool> {
    if s == "" then Some(inside)
    else if s[0] == '{' then if inside then None else Scan(s[1..], true)
    else if s[0] == '}' then if inside then Scan(s[1..], false) else None
    else Scan(s[1..], inside)
  }

  lemma ScanConcat(a: string, b: string, inside: bool)
    ensures Scan(a + b, inside) == match Scan(a, inside) case None => None case Some(end) => Scan(b, end)
  {
    if a == "" {
      assert a + b == b;
    } else {
      assert (a + b)[1..] == a[1..] + b;
      ScanConcat(a[1..], b, if a[0] == '{' then true else if a[0] == '}' then false else inside);
    }
  }

  lemma ScanBraceFree(s: string, inside: bool)
    requires BraceFree(s)
    ensures Scan(s, inside) == Some(inside)
  {
    if s != "" {
      assert s[0] in s && BraceFree(s[1..]);
    }
  }

  lemma ScanPlaceholder(name: string, inside: bool)
    ensures Scan(Placeholder(name), inside) == Some(false) ==> !inside && Scan(name, true) == Some(true)
    ensures !inside && Scan(name, true) == Some(true) ==> Scan(Placeholder(name), inside) == Some(false)
    ensures Scan(Placeholder(name), inside).Some? ==> Scan(Placeholder(name), inside) == Some(false)
  {
    var p := Placeholder(name);
    assert p[1..] == name + "}";
    if !inside {
      ScanConcat(name, "}", true);
      assert Scan("}", true) == Some(false) by {
        assert "}"[1..] == "";
      }
      assert Scan("}", false) == None;
    }
  }

  lemma ScanRender(tokens: seq<Token>)
    requires AllClean(tokens)
    ensures Scan(Render(tokens), false) == Some(false)
  {
    if tokens != [] {
      assert Clean(tokens[0]);
      ScanRender(tokens[1..]);
      ScanConcat(Text(tokens[0]), Render(tokens[1..]), false);
      match tokens[0] {
        case Char(c) =>
          assert [c][1..] == "";
        case Hole(name) =>
          ScanBraceFree(name, true);
          ScanPlaceholder(name, false);
      }
    }
  }

  lemma ContainsSplit(s: string, t: string) returns (u: string, r: string)
    requires Contains(s, t)
    ensures s == u + t + r
  {
    if t <= s {
      u, r := "", s[|t|..];
    } else {
      u, r := ContainsSplit(s[1..], t);
      u := [s[0]] + u;
    }
  }

  /** Its braces cannot be those between adjacent placeholders. */
  predicate Harmless(name: string) {
    BraceFree(name) || Scan(name, true) != Some(true)
  }

  /** In a pattern without stray braces, a harmless name with braces has no placeholder. */
  lemma HarmlessAbsent(tokens: seq<Token>, name: string)
    requires AllClean(tokens) && Scan(name, true) != Some(true)
    ensures !Contains(Render(tokens), Placeholder(name))
  {
    if Contains(Render(tokens), Placeholder(name)) {
      var u, r := ContainsSplit(Render(tokens), Placeholder(name));
      ScanRender(tokens);
      ScanConcat(u + Placeholder(name), r, false);
      ScanConcat(u, Placeholder(name), false);
      if Scan(u, false).Some? {
        ScanPlaceholder(name, Scan(u, false).value);
      }
    }
  }

  /** With harmless names and brace-free values, no pass finds a name with a brace. */
  lemma {:induction false} HarmlessIdle(tokens: seq<Token>, bindings: seq<Binding>)
    requires AllClean(tokens) && UsedBraceFree(tokens, bindings)
    requires forall i :: 0 <= i < |bindings| ==> Harmless(bindings[i].name)
    ensures Idle(Render(tokens), bindings)
    decreases |bindings|
  {
    if bindings != [] {
      var binding, rest := bindings[0], bindings[1..];
      assert bindings == [binding] + rest;
      if BraceFree(binding.name) {
        FillSubstitute(tokens, binding, rest);
        BindIsFill(tokens, binding);
        HarmlessIdle(Fill(tokens, binding), rest);
      } else {
        HarmlessAbsent(tokens, binding.name);
        ReplaceAbsent(Render(tokens), Placeholder(binding.name), binding.text);
        assert forall i :: 0 <= i < |tokens| && tokens[i].Hole? ==> Clean(tokens[i]) && tokens[i].name != binding.name;
        HarmlessIdle(tokens, rest);
      }
    }
  }

  /** What an accepted pattern with a brace looks like to the conversion. */
  lemma AcceptedShape(value: string)
    requires Accepted(value) && !BraceFree(value)
    ensures Count(value, '{') == Count(value, '}')
    ensures HolesBraceFree(Parse(value)) && FindAll(value, false) == FindAll(value, true)
    ensures forall m :: m in FindAll(value, false) ==> BraceFree(m)
    ensures AllClean(Parse(value)) || OpenTail(value)
  {
    var found := FindAll(value, true);
    var tokens := Parse(value);
    forall m | m in found
      ensures BraceFree(m) && m != ""
    {
      var i :| 0 <= i < |found| && found[i] == m;
      IdentifierBraceFree(found[i]);
    }
    assert forall i :: 0 <= i < |found| ==> found[i] in found;
    NonEmptyGroups(value);
    forall i | 0 <= i < |tokens| && tokens[i].Hole?
      ensures BraceFree(tokens[i].name)
    {
      assert Hole(tokens[i].name) in tokens;
      HolesAreFound(value, tokens[i].name);
    }
    ParseRender(value);
    StrayBalance(tokens);
    StrayUnclean(tokens);
    if !AllClean(tokens) {
      StrayIsOpenTail(value);
    }
  }

  lemma AppliedAgrees(value: string, variables: seq<Binding>, parents: seq<Parent>)
    requires Accepted(value) && !BraceFree(value)
    ensures var all := variables + Outputs(parents) + Configs(parents);
            && Substitute(Parse(value), Applied(value, variables, parents)) == Intended(value, variables, parents)
            && (UsedBraceFree(Parse(value), Applied(value, variables, parents)) <==> UsedBraceFree(Parse(value), all))
  {
    AcceptedShape(value);
    var tokens, matches := Parse(value), FindAll(value, false);
    var all := variables + Outputs(parents) + Configs(parents);
    forall i | 0 <= i < |tokens| && tokens[i].Hole?
      ensures Lookup(Applied(value, variables, parents), tokens[i].name) == Lookup(all, tokens[i].name)
    {
      var name := tokens[i].name;
      assert Hole(name) in tokens;
      HolesAreFound(value, name);
      LookupMatching(variables, matches, name);
      LookupConcat(Matching(variables, matches), Outputs(parents), name);
      LookupConcat(Matching(variables, matches) + Outputs(parents), Configs(parents), name);
      LookupConcat(variables, Outputs(parents), name);
      LookupConcat(variables + Outputs(parents), Configs(parents), name);
    }
    SubstituteAgrees(tokens, Applied(value, variables, parents), all);
  }

  /** The bindings with ordinary names do the same, and mean the same for this pattern. */
  lemma OrdinaryAgrees(value: string, variables: seq<Binding>, parents: seq<Parent>)
    requires Accepted(value) && !BraceFree(value) && Idle(value, Applied(value, variables, parents))
    ensures var applied, all := Applied(value, variables, parents), variables + Outputs(parents) + Configs(parents);
            && NamesBraceFree(Ordinary(applied)) && BindAll(value, applied) == BindAll(value, Ordinary(applied))
            && Substitute(Parse(value), Ordinary(applied)) == Intended(value, variables, parents)
            && (UsedBraceFree(Parse(value), Ordinary(applied)) <==> UsedBraceFree(Parse(value), all))
  {
    var applied, tokens := Applied(value, variables, parents), Parse(value);
    AcceptedShape(value);
    AppliedAgrees(value, variables, parents);
    IdleOrdinary(value, applied);
    OrdinaryNames(applied);
    forall i | 0 <= i < |tokens| && tokens[i].Hole?
      ensures Lookup(Ordinary(applied), tokens[i].name) == Lookup(applied, tokens[i].name)
    {
      LookupOrdinary(applied, tokens[i].name);
    }
    SubstituteAgrees(tokens, Ordinary(applied), applied);
  }

  /** A pattern that cannot be resolved is always refused, whatever the values contain. */
  lemma UnresolvableRefused(value: string, variables: seq<Binding>, parents: seq<Parent>)
    requires Accepted(value) && !BraceFree(value) && NamesIdle(value, variables, parents)
    requires Intended(value, variables, parents) == None
    ensures Converted(value, variables, parents).Failure?
  {
    var bindings := Applied(value, variables, parents);
    AcceptedShape(value);
    ParseRender(value);
    if AllClean(Parse(value)) {
      OrdinaryAgrees(value, variables, parents);
      var name := UnboundStays(Parse(value), Ordinary(bindings));
      LookupNone(Ordinary(bindings), name);
      PassesKeepUnbound(value, name, Ordinary(bindings));
      PlaceholderParts(BindAll(value, bindings), name);
    } else {
      PassesKeepTail(value, bindings);
      OpenTailHasBrace(BindAll(value, bindings));
    }
  }

  lemma BraceFreeIntended(value: string, bindings: seq<Binding>)
    requires BraceFree(value)
    ensures Substitute(Parse(value), bindings) == Some(value)
    ensures UsedBraceFree(Parse(value), bindings)
  {
    if value != "" {
      assert Parse(value)[1..] == Parse(value[1..]);
      BraceFreeIntended(value[1..], bindings);
      assert value == [value[0]] + value[1..];
    }
  }

  predicate Meets(r: Result<string, PatternError>, intended: Option<string>) {
    match intended
    case None => r.Failure?
    case Some(text) => r == Success(text)
  }

  /**
   * For every pattern the validator accepts, converting by successive replacements gives exactly the
   * simultaneous substitution (or the refusal) that is meant, if and only if the pattern cannot be
   * resolved anyway or none of the values it uses contains a brace. Names may contain braces, as long as
   * no pass finds a placeholder for one that does.
   */
  lemma ConversionExact(value: string, variables: seq<Binding>, parents: seq<Parent>)
    requires Accepted(value) && NamesIdle(value, variables, parents)
    ensures var intended := Intended(value, variables, parents);
            Meets(Converted(value, variables, parents), intended)
            <==> intended == None || UsedBraceFree(Parse(value), variables + Outputs(parents) + Configs(parents))
  {
    var all := variables + Outputs(parents) + Configs(parents);
    if BraceFree(value) {
      BraceFreeIntended(value, all);
    } else if Intended(value, variables, parents) == None {
      UnresolvableRefused(value, variables, parents);
    } else {
      AcceptedShape(value);
      ParseRender(value);
      if !AllClean(Parse(value)) {
        UncleanUnsubstitutable(Parse(value), all);
      } else if UsedBraceFree(Parse(value), all) {
        OrdinaryAgrees(value, variables, parents);
        PassesSubstitute(Parse(value), Ordinary(Applied(value, variables, parents)));
      } else {
        UsedBraceShows(Parse(value), all);
      }
    }
  }

  /** So the conversion is right whenever no value used has a brace, and no name could span placeholders. */
  lemma HarmlessNamesConvert(value: string, variables: seq<Binding>, parents: seq<Parent>)
    requires Accepted(value) && UsedBraceFree(Parse(value), variables + Outputs(parents) + Configs(parents))
    requires forall b :: b in Outputs(parents) + Configs(parents) ==> Harmless(b.name)
    ensures Meets(Converted(value, variables, parents), Intended(value, variables, parents))
  {
    if !BraceFree(value) && AllClean(Parse(value)) {
      HarmlessNamesIdle(value, variables, parents);
    }
    ConversionExact(value, variables, parents);
  }

  lemma HarmlessNamesIdle(value: string, variables: seq<Binding>, parents: seq<Parent>)
    requires Accepted(value) && UsedBraceFree(Parse(value), variables + Outputs(parents) + Configs(parents))
    requires forall b :: b in Outputs(parents) + Configs(parents) ==> Harmless(b.name)
    requires !BraceFree(value) && AllClean(Parse(value))
    ensures Idle(value, Applied(value, variables, parents))
  {
    AppliedAgrees(value, variables, parents);
    AppliedHarmless(value, variables, parents);
    ParseRender(value);
    HarmlessIdle(Parse(value), Applied(value, variables, parents));
  }

  /** The variables that are applied have names found in the pattern. */
  lemma AppliedHarmless(value: string, variables: seq<Binding>, parents: seq<Parent>)
    requires Accepted(value) && !BraceFree(value)
    requires forall b :: b in Outputs(parents) + Configs(parents) ==> Harmless(b.name)
    ensures var applied := Applied(value, variables, parents);
            forall i :: 0 <= i < |applied| ==> Harmless(applied[i].name)
  {
    var matching := Matching(variables, FindAll(value, false));
    var applied, others := Applied(value, variables, parents), Outputs(parents) + Configs(parents);
    AcceptedShape(value);
    MatchingNames(variables, FindAll(value, false));
    assert applied == matching + others;
    forall i | 0 <= i < |applied|
      ensures Harmless(applied[i].name)
    {
      assert applied[i] == if i < |matching| then matching[i] else others[i - |matching|];
    }
  }

  lemma PlaceholderOnly(name: string, binding: Binding)
    requires BraceFree(name) && name != ""
    ensures Parse(Placeholder(name)) == [Hole(name)]
    ensures FindAll(Placeholder(name), true) == FindAll(Placeholder(name), false) == [name]
    ensures binding.name == name ==> Bind(Placeholder(name), binding) == binding.text
  {
    var s := Placeholder(name);
    assert s[1..] == name + "}";
    CloseBehind(name, "}");
    assert s[1..|name| + 1] == name && s[|name| + 2..] == "";
    if binding.name == name {
      assert s <= s && Replace("", s, binding.text) == "" && binding.text + "" == binding.text;
    }
  }

  lemma LookupNamed(bindings: seq<Binding>, name: string)
    ensures Lookup(bindings, name) == None <==> Unnamed(bindings, name)
    ensures forall k :: FirstNamed(bindings, k, name) ==> Lookup(bindings, name) == Some(bindings[k].text)
    ensures Lookup(bindings, name).Some? ==> exists k :: FirstNamed(bindings, k, name)
  {
    if bindings != [] {
      LookupNamed(bindings[1..], name);
      if bindings[0].name == name {
        assert FirstNamed(bindings, 0, name);
      } else {
        forall k
          ensures FirstNamed(bindings, k, name) <==> FirstNamed(bindings[1..], k - 1, name)
        {
          FirstNamedBehind(bindings, k, name);
        }
        if k :| FirstNamed(bindings[1..], k, name) {
          assert FirstNamed(bindings[1..], k + 1 - 1, name) && FirstNamed(bindings, k + 1, name);
        }
      }
    }
  }

  lemma FirstNamedBehind(bindings: seq<Binding>, k: int, name: string)
    requires bindings != [] && bindings[0].name != name
    ensures FirstNamed(bindings, k, name) <==> FirstNamed(bindings[1..], k - 1, name)
  {
    if 1 <= k <= |bindings| {
      assert bindings[..k] == [bindings[0]] + bindings[1..][..k - 1];
    }
  }

  /** The outputs of all parents, in their order, looked up by parent and position. */
  lemma {:induction false} OutputsNamed(parents: seq<Parent>, name: string)
    ensures Lookup(Outputs(parents), name) == None <==> NoOutput(parents, name)
    ensures forall i, j :: FirstOutput(parents, i, j, name) ==> Lookup(Outputs(parents), name) == Some(parents[i].outputs[j].text)
    ensures Lookup(Outputs(parents), name).Some? ==> exists i, j :: FirstOutput(parents, i, j, name)
  {
    if parents != [] {
      var n := |parents| - 1;
      OutputsNamed(parents[..n], name);
      LookupConcat(Outputs(parents[..n]), parents[n].outputs, name);
      LookupNamed(parents[n].outputs, name);
      OutputsNamedBefore(parents, name);
      if NoOutput(parents[..n], name) {
        if k :| FirstNamed(parents[n].outputs, k, name) {
          assert FirstOutput(parents, n, k, name);
        }
      } else {
        var i, j :| FirstOutput(parents[..n], i, j, name);
        assert FirstOutput(parents, i, j, name);
      }
    }
  }

  lemma OutputsNamedBefore(parents: seq<Parent>, name: string)
    requires parents != []
    ensures var n := |parents| - 1;
            && (NoOutput(parents, name) <==> NoOutput(parents[..n], name) && Unnamed(parents[n].outputs, name))
            && (forall i, j :: FirstOutput(parents[..n], i, j, name) ==> FirstOutput(parents, i, j, name))
            && (forall i, j :: FirstOutput(parents, i, j, name) && i < n ==> FirstOutput(parents[..n], i, j, name))
            && (forall j :: FirstOutput(parents, n, j, name) ==> NoOutput(parents[..n], name))
            && (forall j :: NoOutput(parents[..n], name) && FirstNamed(parents[n].outputs, j, name) ==> FirstOutput(parents, n, j, name))
  {
    assert forall h :: 0 <= h < |parents| - 1 ==> parents[..|parents| - 1][h] == parents[h];
  }

  /** And their configuration. */
  lemma {:induction false} ConfigsNamed(parents: seq<Parent>, name: string)
    ensures Lookup(Configs(parents), name) == None <==> NoConfig(parents, name)
    ensures forall i, j :: FirstConfig(parents, i, j, name) ==> Lookup(Configs(parents), name) == Some(parents[i].dependencyConfig[j].text)
    ensures Lookup(Configs(parents), name).Some? ==> exists i, j :: FirstConfig(parents, i, j, name)
  {
    if parents != [] {
      var n := |parents| - 1;
      ConfigsNamed(parents[..n], name);
      LookupConcat(Configs(parents[..n]), parents[n].dependencyConfig, name);
      LookupNamed(parents[n].dependencyConfig, name);
      ConfigsNamedBefore(parents, name);
      if NoConfig(parents[..n], name) {
        if k :| FirstNamed(parents[n].dependencyConfig, k, name) {
          assert FirstConfig(parents, n, k, name);
        }
      } else {
        var i, j :| FirstConfig(parents[..n], i, j, name);
        assert FirstConfig(parents, i, j, name);
      }
    }
  }

  lemma ConfigsNamedBefore(parents: seq<Parent>, name: string)
    requires parents != []
    ensures var n := |parents| - 1;
            && (NoConfig(parents, name) <==> NoConfig(parents[..n], name) && Unnamed(parents[n].dependencyConfig, name))
            && (forall i, j :: FirstConfig(parents[..n], i, j, name) ==> FirstConfig(parents, i, j, name))
            && (forall i, j :: FirstConfig(parents, i, j, name) && i < n ==> FirstConfig(parents[..n], i, j, name))
            && (forall j :: FirstConfig(parents, n, j, name) ==> NoConfig(parents[..n], name))
            && (forall j :: NoConfig(parents[..n], name) && FirstNamed(parents[n].dependencyConfig, j, name) ==> FirstConfig(parents, n, j, name))
  {
    assert forall h :: 0 <= h < |parents| - 1 ==> parents[..|parents| - 1][h] == parents[h];
  }

  /** What a name is bound to, by variable, parent and position. */
  lemma BoundByPosition(variables: seq<Binding>, parents: seq<Parent>, name: string)
    ensures var all := variables + Outputs(parents) + Configs(parents);
            && (Lookup(all, name) == None <==> Unbound(variables, parents, name))
            && forall text :: Lookup(all, name) == Some(text) <==> StandsFor(variables, parents, name, text)
  {
    LookupConcat(variables, Outputs(parents), name);
    LookupConcat(variables + Outputs(parents), Configs(parents), name);
    LookupNamed(variables, name);
    OutputsNamed(parents, name);
    ConfigsNamed(parents, name);
  }

  /** A placeholder without braces inside contains no other one. */
  lemma PlaceholderContains(name: string, other: string)
    requires BraceFree(name) && Contains(Placeholder(name), Placeholder(other))
    ensures other == name
  {
    var s, t := Placeholder(name), Placeholder(other);
    var u, rest := ContainsSplit(s, t);
    assert s[|u|] == t[0] == '{' && s[|u| + |t| - 1] == t[|t| - 1] == '}';
    assert forall i :: 0 < i < |s| - 1 ==> s[i] == name[i - 1];
    assert u == "" && |t| == |s|;
    assert t == s;
  }

  /** The passes leave a placeholder alone until the first binding of its name. */
  lemma {:induction false} PlaceholderPasses(name: string, bindings: seq<Binding>)
    requires BraceFree(name) && name != ""
    ensures match Lookup(bindings, name)
            case None => BindAll(Placeholder(name), bindings) == Placeholder(name)
            case Some(text) => BraceFree(text) ==> BindAll(Placeholder(name), bindings) == text
  {
    if bindings != [] {
      var n := |bindings| - 1;
      PlaceholderPasses(name, bindings[..n]);
      assert bindings == bindings[..n] + [bindings[n]];
      LookupConcat(bindings[..n], [bindings[n]], name);
      if Lookup(bindings[..n], name) == None {
        if bindings[n].name == name {
          PlaceholderOnly(name, bindings[n]);
        } else {
          if Contains(Placeholder(name), Placeholder(bindings[n].name)) {
            PlaceholderContains(name, bindings[n].name);
          }
          ReplaceAbsent(Placeholder(name), Placeholder(bindings[n].name), bindings[n].text);
        }
      } else if BraceFree(Lookup(bindings[..n], name).value) {
        GuardedBind(Lookup(bindings[..n], name).value, bindings[n]);
      }
    }
  }

  lemma AppliedToPlaceholder(name: string, variables: seq<Binding>, parents: seq<Parent>)
    requires BraceFree(name) && name != ""
    ensures Lookup(Applied(Placeholder(name), variables, parents), name) == Lookup(variables + Outputs(parents) + Configs(parents), name)
  {
    PlaceholderOnly(name, Binding(name, ""));
    var matches := FindAll(Placeholder(name), false);
    LookupMatching(variables, matches, name);
    LookupConcat(Matching(variables, matches), Outputs(parents), name);
    LookupConcat(Matching(variables, matches) + Outputs(parents), Configs(parents), name);
    LookupConcat(variables, Outputs(parents), name);
    LookupConcat(variables + Outputs(parents), Configs(parents), name);
  }

  /** A single placeholder is replaced by the first variable, output or configuration entry of its name, or refused. */
  lemma PlaceholderConverted(value: string, variables: seq<Binding>, parents: seq<Parent>)
    ensures forall name, text :: IsPlaceholder(value, name) && StandsFor(variables, parents, name, text) && BraceFree(text) ==>
      Converted(value, variables, parents) == Success(text)
    ensures forall name :: IsPlaceholder(value, name) && Unbound(variables, parents, name) ==>
      Converted(value, variables, parents) == Failure(UnreplacedVariable)
  {
    forall name | IsPlaceholder(value, name)
      ensures forall text :: StandsFor(variables, parents, name, text) && BraceFree(text) ==>
        Converted(value, variables, parents) == Success(text)
      ensures Unbound(variables, parents, name) ==> Converted(value, variables, parents) == Failure(UnreplacedVariable)
    {
      BoundByPosition(variables, parents, name);
      AppliedToPlaceholder(name, variables, parents);
      PlaceholderPasses(name, Applied(value, variables, parents));
      CountPlaceholder(name);
      assert value[0] == '{';
    }
  }

  function Joined(texts: seq<string>): string {
    if texts == [] then "" else texts[0] + Joined(texts[1..])
  }

  /** One text for each token: itself for a character that is no brace, what the name stands for in a placeholder. */
  ghost predicate Texts(tokens: seq<Token>, variables: seq<Binding>, parents: seq<Parent>, texts: seq<string>) {
    |texts| == |tokens| && forall i :: 0 <= i < |tokens| ==>
      match tokens[i]
      case Char(c) => c != '{' && c != '}' && texts[i] == [c]
      case Hole(name) => StandsFor(variables, parents, name, texts[i])
  }

  /** A stray brace, or a placeholder bound to nothing. */
  predicate Unresolvable(token: Token, variables: seq<Binding>, parents: seq<Parent>) {
    match token
    case Char(c) => c == '{' || c == '}'
    case Hole(name) => Unbound(variables, parents, name)
  }

  ghost predicate SomeUnresolvable(tokens: seq<Token>, variables: seq<Binding>, parents: seq<Parent>) {
    exists i :: 0 <= i < |tokens| && Unresolvable(tokens[i], variables, parents)
  }

  lemma {:induction false} SubstitutedByPosition(tokens: seq<Token>, variables: seq<Binding>, parents: seq<Parent>, texts: seq<string>)
    ensures var substituted := Substitute(tokens, variables + Outputs(parents) + Configs(parents));
            && (Texts(tokens, variables, parents, texts) ==> substituted == Some(Joined(texts)))
            && (SomeUnresolvable(tokens, variables, parents) <==> substituted == None)
  {
    if tokens != [] {
      var rest := if texts == [] then [] else texts[1..];
      SubstitutedByPosition(tokens[1..], variables, parents, rest);
      assert forall i :: 0 <= i < |tokens[1..]| ==> tokens[1..][i] == tokens[i + 1];
      if tokens[0].Hole? {
        BoundByPosition(variables, parents, tokens[0].name);
      }
      if i :| 0 <= i < |tokens[1..]| && Unresolvable(tokens[1..][i], variables, parents) {
        assert Unresolvable(tokens[i + 1], variables, parents);
      }
      if Texts(tokens, variables, parents, texts) {
        assert Texts(tokens[1..], variables, parents, rest);
      }
    }
  }

  /** What a conversion is meant to give, placeholder by placeholder and position by position. */
  lemma IntendedByPosition(value: string, variables: seq<Binding>, parents: seq<Parent>, texts: seq<string>)
    ensures Texts(Parse(value), variables, parents, texts) ==> Intended(value, variables, parents) == Some(Joined(texts))
    ensures SomeUnresolvable(Parse(value), variables, parents) <==> Intended(value, variables, parents) == None
  {
    SubstitutedByPosition(Parse(value), variables, parents, texts);
  }

  ghost predicate AllHarmless(parents: seq<Parent>) {
    forall i, b :: 0 <= i < |parents| && (b in parents[i].outputs || b in parents[i].dependencyConfig) ==> Harmless(b.name)
  }

  lemma {:induction false} BindingsFromParents(parents: seq<Parent>)
    ensures forall b :: b in Outputs(parents) + Configs(parents) ==>
      exists i :: 0 <= i < |parents| && (b in parents[i].outputs || b in parents[i].dependencyConfig)
  {
    if parents != [] {
      var n := |parents| - 1;
      BindingsFromParents(parents[..n]);
      forall b | b in Outputs(parents) + Configs(parents)
        ensures exists i :: 0 <= i < |parents| && (b in parents[i].outputs || b in parents[i].dependencyConfig)
      {
        if b !in parents[n].outputs && b !in parents[n].dependencyConfig {
          assert b in Outputs(parents[..n]) + Configs(parents[..n]);
          var i :| 0 <= i < n && (b in parents[..n][i].outputs || b in parents[..n][i].dependencyConfig);
          assert parents[i] == parents[..n][i];
        }
      }
    }
  }

  /** Accepted patterns convert position by position: each placeholder to the brace-free text it stands for. */
  lemma ConvertedByPosition(value: string, variables: seq<Binding>, parents: seq<Parent>, texts: seq<string>)
    requires Accepted(value) && AllHarmless(parents)
    requires Texts(Parse(value), variables, parents, texts) && forall i :: 0 <= i < |texts| ==> BraceFree(texts[i])
    ensures Converted(value, variables, parents) == Success(Joined(texts))
  {
    var all, tokens := variables + Outputs(parents) + Configs(parents), Parse(value);
    IntendedByPosition(value, variables, parents, texts);
    BindingsFromParents(parents);
    forall i | 0 <= i < |tokens| && tokens[i].Hole? && Lookup(all, tokens[i].name).Some?
      ensures BraceFree(Lookup(all, tokens[i].name).value)
    {
      BoundByPosition(variables, parents, tokens[i].name);
      assert Lookup(all, tokens[i].name) == Some(texts[i]);
    }
    HarmlessNamesConvert(value, variables, parents);
  }

  lemma {:induction false} CloseBehind(u: string, s: string)
    requires '}' !in u && s != "" && s[0] == '}'
    ensures Close(u + s) == Some(|u|)
  {
    if u == "" {
      assert u + s == s;
    } else {
      assert u[0] in u && (u + s)[1..] == u[1..] + s;
      CloseBehind(u[1..], s);
    }
  }

  lemma PlaceholderAccepted(name: string)
    requires Identifier(name)
    ensures Accepted(Placeholder(name))
  {
    IdentifierBraceFree(name);
    PlaceholderOnly(name, Binding(name, ""));
    CountPlaceholder(name);
  }

  /** A value that reads like a placeholder is expanded again: the concrete case. */
  lemma BracedValueExpandsAgain(a: string, b: string, text: string)
    requires Identifier(a) && Identifier(b) && a != b && BraceFree(text)
    ensures var variables, parents := [Binding(a, Placeholder(b))], [Parent([Binding(b, text)], [])];
            && Accepted(Placeholder(a))
            && Intended(Placeholder(a), variables, parents) == Some(Placeholder(b))
            && Converted(Placeholder(a), variables, parents) == Success(text)
  {
    var first, second := Binding(a, Placeholder(b)), Binding(b, text);
    PlaceholderAccepted(a);
    IdentifierBraceFree(a);
    PlaceholderOnly(a, first);
    OneParent(second);
    assert [first] + [second] + [] == [first, second];
    assert Substitute([Hole(a)][1..], [first, second]) == Some("");
    assert Placeholder(b) + "" == Placeholder(b);
    ExpandsAgain(first, second);
  }

  lemma ExpandsAgain(first: Binding, second: Binding)
    requires Identifier(first.name) && Identifier(second.name) && BraceFree(second.text)
    requires first.text == Placeholder(second.name)
    ensures Converted(Placeholder(first.name), [first], [Parent([second], [])]) == Success(second.text)
  {
    IdentifierBraceFree(first.name);
    IdentifierBraceFree(second.name);
    PlaceholderOnly(first.name, first);
    PlaceholderOnly(second.name, second);
    CountPlaceholder(first.name);
    OneParent(second);
    MatchingOne(first);
    assert [first] + [second] + [] == [first, second];
    TwoPasses(Placeholder(first.name), first, second);
    assert Placeholder(first.name)[0] == '{';
  }

  lemma MatchingOne(binding: Binding)
    ensures Matching([binding], [binding.name]) == [binding]
  {
    assert [binding][..0] == [] && [] + [binding] == [binding];
  }

  lemma OneParent(output: Binding)
    ensures Outputs([Parent([output], [])]) == [output] && Configs([Parent([output], [])]) == []
  {
    var parents := [Parent([output], [])];
    assert parents[..0] == [];
  }

  lemma TwoPasses(s: string, first: Binding, second: Binding)
    ensures BindAll(s, [first, second]) == Bind(Bind(s, first), second)
  {
    BindAllSnoc(s, [], first);
    BindAllSnoc(s, [first], second);
    assert [] + [first] == [first] && [first] + [second] == [first, second];
  }

  lemma LeadingPlaceholder(name: string, rest: string)
    requires BraceFree(name) && name != ""
    ensures Parse(Placeholder(name) + rest) == [Hole(name)] + Parse(rest)
    ensures FindAll(Placeholder(name) + rest, true) == [name] + FindAll(rest, true)
  {
    LeadingParts(Placeholder(name) + rest, name, rest);
  }

  /** The same for a text given by its parts. */
  lemma LeadingParts(s: string, name: string, rest: string)
    requires BraceFree(name) && name != "" && s == Placeholder(name) + rest
    ensures Parse(s) == [Hole(name)] + Parse(rest)
    ensures FindAll(s, true) == [name] + FindAll(rest, true)
  {
    var tail := "}" + rest;
    assert s[1..] == name + tail;
    CloseBehind(name, tail);
    assert s[0] == '{' && Close(s[1..]) == Some(|name|);
    assert s[1..|name| + 1] == name && s[|name| + 2..] == rest;
  }

  /** The name whose placeholder reads like two adjacent ones. */
  function Spanning(a: string, b: string): string {
    a + "}{" + b
  }

  lemma LeadingAccepted(name: string, rest: string)
    requires Identifier(name) && Count(rest, '{') == Count(rest, '}')
    requires forall i :: 0 <= i < |FindAll(rest, true)| ==> Identifier(FindAll(rest, true)[i])
    ensures Accepted(Placeholder(name) + rest)
  {
    IdentifierBraceFree(name);
    LeadingPlaceholder(name, rest);
    CountPlaceholder(name);
    CountConcat(Placeholder(name), rest, '{');
    CountConcat(Placeholder(name), rest, '}');
    AcceptedBy(Placeholder(name) + rest, [name] + FindAll(rest, true));
  }

  lemma AdjacentAccepted(a: string, b: string)
    requires Identifier(a) && Identifier(b)
    ensures Accepted(Placeholder(a) + Placeholder(b))
  {
    IdentifierBraceFree(b);
    PlaceholderOnly(b, Binding(b, ""));
    CountPlaceholder(b);
    LeadingAccepted(a, Placeholder(b));
  }

  lemma AcceptedBy(s: string, names: seq<string>)
    requires Count(s, '{') == Count(s, '}') && FindAll(s, true) == names != []
    requires forall i :: 0 <= i < |names| ==> Identifier(names[i])
    ensures Accepted(s)
  {
  }

  /** A binding whose name is the inside of the whole text replaces all of it. */
  lemma WholeReplaced(value: string, binding: Binding)
    requires value == Placeholder(binding.name)
    ensures BindAll(value, [binding]) == binding.text
  {
    BindAllSnoc(value, [], binding);
    assert [] + [binding] == [binding];
    assert value[|value|..] == "";
    assert value <= value && Replace("", value, binding.text) == "" && binding.text + "" == binding.text;
    assert Replace(value, value, binding.text) == binding.text + Replace(value[|value|..], value, binding.text);
  }

  lemma OneConfig(config: Binding)
    ensures Outputs([Parent([], [config])]) == [] && Configs([Parent([], [config])]) == [config]
  {
    var parents := [Parent([], [config])];
    assert parents[..0] == [];
  }

  lemma OnlyConfig(value: string, config: Binding)
    ensures Applied(value, [], [Parent([], [config])]) == [config]
  {
    OneConfig(config);
    assert [] + [] + [config] == [config];
  }

  /**
   * The names of configuration entries are free text and matter as well: one with braces whose placeholder
   * is itself an accepted pattern resolves that pattern, although its placeholders are bound to nothing.
   */
  lemma BracedNameHarms(name: string, text: string)
    requires !BraceFree(name) && Accepted(Placeholder(name)) && BraceFree(text)
    ensures Intended(Placeholder(name), [], [Parent([], [Binding(name, text)])]) == None
    ensures Converted(Placeholder(name), [], [Parent([], [Binding(name, text)])]) == Success(text)
  {
    var value, config := Placeholder(name), Binding(name, text);
    assert value[0] == '{';
    OnlyConfig(value, config);
    WholeReplaced(value, config);
    OneConfig(config);
    assert [] + [] + [config] == [config];
    FirstHole(name);
    var hole := Parse(value)[0];
    assert Lookup([config], hole.name) == None;
  }

  /** The first placeholder found in the placeholder of such a name is another one. */
  lemma FirstHole(name: string)
    requires !BraceFree(name) && Accepted(Placeholder(name))
    ensures var tokens := Parse(Placeholder(name)); tokens != [] && tokens[0].Hole? && tokens[0].name != name
  {
    var value := Placeholder(name);
    assert value[1..] == name + "}" && '}' in value[1..] by {
      assert value[1..][|name|] == '}';
    }
    var j := Close(value[1..]).value;
    var rest := Parse(value[j + 2..]);
    assert Parse(value) == [Hole(value[1..j + 1])] + rest;
    assert Hole(value[1..j + 1]) in Parse(value);
    AcceptedShape(value);
    assert BraceFree(Parse(value)[0].name);
  }

  /** Such a name for any two placeholders next to each other. */
  lemma BracedNameSpans(a: string, b: string, text: string)
    requires Identifier(a) && Identifier(b) && BraceFree(text)
    ensures var value, parents := Placeholder(a) + Placeholder(b), [Parent([], [Binding(Spanning(a, b), text)])];
            && Accepted(value) && !Harmless(Spanning(a, b))
            && Intended(value, [], parents) == None
            && Converted(value, [], parents) == Success(text)
  {
    AdjacentAccepted(a, b);
    IdentifierBraceFree(a);
    IdentifierBraceFree(b);
    SpanningWhole(a, b);
    SpanningHarms(a, b);
    BracedNameHarms(Spanning(a, b), text);
  }

  lemma SpanningHarms(a: string, b: string)
    requires BraceFree(a) && BraceFree(b)
    ensures !Harmless(Spanning(a, b))
  {
    ScanBraceFree(a, true);
    ScanBraceFree(b, true);
    ScanConcat("}{", b, true);
    ScanConcat(a, "}{" + b, true);
    assert "}{"[1..] == "{" && "{"[1..] == "";
    assert Spanning(a, b) == a + ("}{" + b) && Spanning(a, b)[|a|] == '}';
  }

  lemma SpanningWhole(a: string, b: string)
    ensures Placeholder(a) + Placeholder(b) == Placeholder(Spanning(a, b))
  {
  }
}
