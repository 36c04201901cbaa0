/** The lexer of the restricted Groovy subset: one scan step on what is left of a source, the token list it builds
    up, and the loop that computes it. */
module GroovyLexer {
  import opened Wrappers

  const MAX_BYTES: nat := 4 * 1024 * 1024
  const MAX_TOKENS: nat := 200_000
  const MAX_DEPTH: nat := 128

  const FORBIDDEN: set<string> :=
    {"apply", "includeBuild", "import", "class", "interface", "trait", "def", "evaluate", "metaClass", "getMetaClass", "setMetaClass"}

  const PLUGIN := "io.reproof.instrumentation"
  const LOGIC := "reproof-build-logic"

  datatype Kind = Text | Name | Open | Close | Punct

  datatype Token = Token(kind: Kind, value: string, start: nat, end: nat, depth: nat)

  // ---------------------------------------------------------------------------------------------
  // Characters and searches
  // ---------------------------------------------------------------------------------------------

  predicate IsBlank(c: char) {
    c == ' ' || c == '\t' || c == '\n'
  }

  predicate IsNameStart(c: char) {
    'a' <= c <= 'z' || 'A' <= c <= 'Z' || c == '_'
  }

  predicate IsNameChar(c: char) {
    IsNameStart(c) || '0' <= c <= '9'
  }

  predicate IsOpen(c: char) {
    c == '(' || c == '{' || c == '['
  }

  predicate IsClose(c: char) {
    c == ')' || c == '}' || c == ']'
  }

  function Opening(c: char): char {
    if c == ')' then '(' else if c == '}' then '{' else '['
  }

  /** Not allowed inside a string. */
  predicate IsRefused(c: char) {
    c == '\n' || c == '\r' || c == '$' || c as int < 32
  }

  predicate StartsWith(s: string, prefix: string) {
    |prefix| <= |s| && s[..|prefix|] == prefix
  }

  /** `find` of a character. */
  function FindChar(s: string, c: char, from: nat): (r: nat)
    requires from <= |s|
    ensures from <= r <= |s| && (r < |s| ==> s[r] == c) && forall k :: from <= k < r ==> s[k] != c
    decreases |s| - from
  {
    if from == |s| || s[from] == c then from else FindChar(s, c, from + 1)
  }

  predicate PairAt(s: string, k: nat, a: char, b: char) {
    k + 1 < |s| && s[k] == a && s[k + 1] == b
  }

  /** `find` of two characters in a row. */
  function FindPair(s: string, a: char, b: char, from: nat): (r: Option<nat>)
    ensures r.Some? ==> from <= r.value && PairAt(s, r.value, a, b) && forall k: nat :: from <= k < r.value ==> !PairAt(s, k, a, b)
    ensures r.None? ==> forall k: nat :: from <= k ==> !PairAt(s, k, a, b)
    decreases |s| - from
  {
    if from + 1 >= |s| then None else if PairAt(s, from, a, b) then Some(from) else FindPair(s, a, b, from + 1)
  }

  predicate OccursAt(s: string, part: string, k: nat) {
    k + |part| <= |s| && s[k..k + |part|] == part
  }

  predicate Contains(s: string, part: string) {
    exists k :: 0 <= k <= |s| && OccursAt(s, part, k)
  }

  // ---------------------------------------------------------------------------------------------
  // One step
  // ---------------------------------------------------------------------------------------------

  /** What a source starts with: blank text or a lexeme, and its length. */
  datatype Piece = Blank(length: nat) | Lexeme(kind: Kind, length: nat) | Bad

  function NameLength(s: string, n: nat): (r: nat)
    requires n <= |s|
    ensures n <= r <= |s| && (r < |s| ==> !IsNameChar(s[r])) && forall k :: n <= k < r ==> IsNameChar(s[k])
    decreases |s| - n
  {
    if n < |s| && IsNameChar(s[n]) then NameLength(s, n + 1) else n
  }

  /** The length of a quoted string, from a position inside it on. */
  function TextLength(s: string, quote: char, n: nat): (r: Option<nat>)
    ensures r.Some? ==> n < r.value <= |s|
    decreases |s| - n
  {
    if n >= |s| then None
    else if s[n] == quote then Some(n + 1)
    else if IsRefused(s[n]) then None
    else if s[n] == '\\' then
      if n + 1 < |s| && s[n + 1] in "\\'\"" then TextLength(s, quote, n + 2) else None
    else TextLength(s, quote, n + 1)
  }

  function CommentLength(s: string): (r: Option<nat>)
    requires |s| >= 2
    ensures r.Some? ==> 4 <= r.value <= |s|
  {
    var end := FindPair(s, '*', '/', 2);
    if end.None? || FindPair(s[..end.value], '/', '*', 2).Some? then None else Some(end.value + 2)
  }

  function Scan(s: string): (r: Piece)
    requires s != ""
    ensures !r.Bad? ==> 0 < r.length <= |s|
  {
    var c := s[0];
    if IsBlank(c) then Blank(1)
    else if PairAt(s, 0, '/', '/') then
      var end := FindChar(s, '\n', 2);
      Blank(if end == |s| then |s| else end + 1)
    else if PairAt(s, 0, '/', '*') then
      var length := CommentLength(s);
      if length.None? then Bad else Blank(length.value)
    else if c == '\'' || c == '"' then
      if StartsWith(s, [c, c, c]) then Bad
      else
        var length := TextLength(s, c, 1);
        if length.None? then Bad else Lexeme(Text, length.value)
    else if IsNameStart(c) then Lexeme(Name, NameLength(s, 1))
    else if IsOpen(c) then Lexeme(Open, 1)
    else if IsClose(c) then Lexeme(Close, 1)
    else if c in "0123456789.,:=+-*!?&|<>%;" then Lexeme(Punct, 1)
    else Bad
  }

  // ---------------------------------------------------------------------------------------------
  // All tokens
  // ---------------------------------------------------------------------------------------------

  /** The token of a lexeme at the start of `s`, and the open brackets after it; none for a bracket that closes nothing. */
  function Tokenize(s: string, at: nat, stack: string, kind: Kind, length: nat): Option<(Token, string)>
    requires 0 < length <= |s|
  {
    match kind
    case Open => Some((Token(Open, s[..length], at, at + length, |stack|), stack + [s[0]]))
    case Close =>
      if stack != [] && stack[|stack| - 1] == Opening(s[0]) then
        Some((Token(Close, s[..length], at, at + length, |stack| - 1), stack[..|stack| - 1]))
      else None
    case _ => Some((Token(kind, s[..length], at, at + length, |stack|), stack))
  }

  function Prepend(tokens: seq<Token>, rest: Option<seq<Token>>): Option<seq<Token>> {
    match rest
    case None => None
    case Some(more) => Some(tokens + more)
  }

  /** The tokens of what is left of a source from a position on, without the checks of policy and size. */
  function Lex(s: string, at: nat, stack: string): Option<seq<Token>>
    decreases |s|
  {
    if s == "" then (if stack == [] then Some([]) else None)
    else
      match Scan(s)
      case Bad => None
      case Blank(n) => Lex(s[n..], at + n, stack)
      case Lexeme(kind, n) =>
        var step := Tokenize(s, at, stack, kind, n);
        if step.None? then None else Prepend([step.value.0], Lex(s[n..], at + n, step.value.1))
  }

  // ---------------------------------------------------------------------------------------------
  // Policy and size
  // ---------------------------------------------------------------------------------------------

  /** What a string or a name may not be, and where a string may not stand. */
  predicate Allowed(tokens: seq<Token>, k: nat)
    requires k < |tokens|
  {
    var t := tokens[k];
    match t.kind
    case Text =>
      && !Contains(t.value, PLUGIN) && !Contains(t.value, LOGIC)
      && (|t.value| >= 2 ==> t.value[1..|t.value| - 1] !in FORBIDDEN)
      && (k > 0 ==> tokens[k - 1].value != ".")
    case Name => t.value !in FORBIDDEN
    case Open => t.depth < MAX_DEPTH
    case _ => true
  }

  predicate PolicyOk(tokens: seq<Token>) {
    |tokens| <= MAX_TOKENS && forall k :: 0 <= k < |tokens| ==> Allowed(tokens, k)
  }

  function Utf8Length(s: string): nat {
    if s == "" then 0
    else Utf8Length(s[1..]) + (var c := s[0] as int; if c < 0x80 then 1 else if c < 0x800 then 2 else if c < 0x1_0000 then 3 else 4)
  }

  predicate SourceOk(s: string) {
    Utf8Length(s) <= MAX_BYTES && '\0' !in s && '\r' !in s && FindPair(s, '\\', 'u', 0).None?
  }

  /** `_tokens`: the tokens of an acceptable source. */
  function Tokens(s: string): Option<seq<Token>> {
    if !SourceOk(s) then None
    else
      match Lex(s, 0, [])
      case None => None
      case Some(tokens) => if PolicyOk(tokens) then Some(tokens) else None
  }

  /** Policy holds of every beginning of an acceptable token list. */
  lemma PolicyOfPrefix(tokens: seq<Token>, k: nat)
    requires k <= |tokens| && PolicyOk(tokens)
    ensures PolicyOk(tokens[..k])
  {
    forall i | 0 <= i < k ensures Allowed(tokens[..k], i) { assert Allowed(tokens, i); }
  }

  lemma PolicyBroken(tokens: seq<Token>, rest: Option<seq<Token>>)
    requires !PolicyOk(tokens)
    ensures Prepend(tokens, rest).Some? ==> !PolicyOk(Prepend(tokens, rest).value)
  {
    if rest.Some? {
      assert (tokens + rest.value)[..|tokens|] == tokens;
      if PolicyOk(tokens + rest.value) { PolicyOfPrefix(tokens + rest.value, |tokens|); }
    }
  }

  lemma PrependTwice(a: seq<Token>, b: seq<Token>, rest: Option<seq<Token>>)
    ensures Prepend(a, Prepend(b, rest)) == Prepend(a + b, rest)
  {
    if rest.Some? { assert a + (b + rest.value) == a + b + rest.value; }
  }

  // ---------------------------------------------------------------------------------------------
  // The loop
  // ---------------------------------------------------------------------------------------------

  /** The end of the quoted string at a position, found character by character. */
  method ScanText(source: string, start: nat) returns (end: Option<nat>)
    requires start < |source| && (source[start] == '\'' || source[start] == '"')
    ensures end.Some? ==> start + 2 <= end.value <= |source|
    ensures Scan(source[start..]) == if end.None? then Bad else Lexeme(Text, end.value - start)
  {
    var s, quote := source[start..], source[start];
    assert !PairAt(s, 0, '/', '/') && !PairAt(s, 0, '/', '*') && s[0] == quote;
    if StartsWith(s, [quote, quote, quote]) { return None; }
    var i := start + 1;
    while i < |source| && source[i] != quote
      invariant start + 1 <= i <= |source|
      invariant TextLength(s, quote, i - start) == TextLength(s, quote, 1)
      decreases |source| - i
    {
      assert s[i - start] == source[i] && (i + 1 < |source| ==> s[i - start + 1] == source[i + 1]);
      if IsRefused(source[i]) { return None; }
      if source[i] == '\\' {
        i := i + 1;
        if i >= |source| || source[i] !in "\\'\"" { return None; }
      }
      i := i + 1;
    }
    if i >= |source| { return None; }
    assert s[i - start] == quote;
    end := Some(i + 1);
  }

  /** The end of the name at a position. */
  method ScanName(source: string, start: nat) returns (end: nat)
    requires start < |source| && IsNameStart(source[start])
    ensures start < end <= |source| && Scan(source[start..]) == Lexeme(Name, end - start)
  {
    var s := source[start..];
    assert s[0] == source[start] && !PairAt(s, 0, '/', '/') && !PairAt(s, 0, '/', '*');
    end := start + 1;
    while end < |source| && IsNameChar(source[end])
      invariant start < end <= |source| && NameLength(s, end - start) == NameLength(s, 1)
      decreases |source| - end
    {
      assert s[end - start] == source[end];
      end := end + 1;
    }
    assert end < |source| ==> s[end - start] == source[end];
  }

  /** The end of the blank text at a position: one blank character or a comment. */
  method ScanBlank(source: string, start: nat) returns (end: Option<nat>)
    requires start < |source|
    requires IsBlank(source[start]) || PairAt(source[start..], 0, '/', '/') || PairAt(source[start..], 0, '/', '*')
    ensures end.Some? ==> start < end.value <= |source|
    ensures Scan(source[start..]) == if end.None? then Bad else Blank(end.value - start)
  {
    var s := source[start..];
    if IsBlank(source[start]) { return Some(start + 1); }
    if PairAt(s, 0, '/', '/') {
      var newline := FindChar(s, '\n', 2);
      return Some(if newline == |s| then |source| else start + newline + 1);
    }
    var close := FindPair(s, '*', '/', 2);
    if close.None? || FindPair(s[..close.value], '/', '*', 2).Some? { return None; }
    end := Some(start + close.value + 2);
  }

  /** The tokens read so far are the beginning of all of them. */
  ghost predicate ReadSoFar(source: string, result: seq<Token>, i: nat, stack: string) {
    i <= |source| && PolicyOk(result) && Lex(source, 0, []) == Prepend(result, Lex(source[i..], i, stack))
  }

  lemma NothingRead(source: string)
    ensures ReadSoFar(source, [], 0, [])
  {
    assert source[0..] == source;
    var all := Lex(source, 0, []);
    if all.Some? { assert [] + all.value == all.value; }
  }

  lemma StepBad(source: string, result: seq<Token>, i: nat, stack: string)
    requires ReadSoFar(source, result, i, stack) && i < |source| && Scan(source[i..]).Bad?
    ensures Tokens(source).None?
  {
    hide Scan;
  }

  lemma StepBlank(source: string, result: seq<Token>, i: nat, stack: string, end: nat)
    requires ReadSoFar(source, result, i, stack) && i < end <= |source| && Scan(source[i..]) == Blank(end - i)
    ensures ReadSoFar(source, result, end, stack)
  {
    hide Scan, PolicyOk;
    assert source[i..][end - i..] == source[end..];
  }

  lemma StepToken(source: string, result: seq<Token>, i: nat, stack: string, kind: Kind, end: nat)
    requires ReadSoFar(source, result, i, stack) && i < end <= |source| && Scan(source[i..]) == Lexeme(kind, end - i)
    ensures var step := Tokenize(source[i..], i, stack, kind, end - i);
            if step.None? || !PolicyOk(result + [step.value.0]) then Tokens(source).None?
            else ReadSoFar(source, result + [step.value.0], end, step.value.1)
  {
    hide Scan, PolicyOk;
    var s := source[i..];
    assert s[end - i..] == source[end..];
    var step := Tokenize(s, i, stack, kind, end - i);
    if step.Some? {
      var rest := Lex(source[end..], end, step.value.1);
      PrependTwice(result, [step.value.0], rest);
      if !PolicyOk(result + [step.value.0]) { PolicyBroken(result + [step.value.0], rest); }
    }
  }

  lemma StepEnd(source: string, result: seq<Token>, stack: string)
    requires SourceOk(source) && ReadSoFar(source, result, |source|, stack)
    ensures Tokens(source) == if stack == [] then Some(result) else None
  {
    assert source[|source|..] == "";
    assert result + [] == result;
  }

  method ReadTokens(source: string) returns (r: Option<seq<Token>>)
    ensures r == Tokens(source)
  {
    hide Scan, PolicyOk, ReadSoFar, Tokens, SourceOk, Lex;
    if !SourceOk(source) {
      NotASource(source);
      return None;
    }
    var result: seq<Token>, stack: string, i: nat := [], [], 0;
    NothingRead(source);
    while i < |source|
      invariant i <= |source| && ReadSoFar(source, result, i, stack)
      decreases |source| - i
    {
      var s, c := source[i..], source[i];
      if IsBlank(c) || PairAt(s, 0, '/', '/') || PairAt(s, 0, '/', '*') {
        var blank := ScanBlank(source, i);
        if blank.None? {
          StepBad(source, result, i, stack);
          return None;
        }
        StepBlank(source, result, i, stack, blank.value);
        i := blank.value;
        continue;
      }
      var kind, end;
      if c == '\'' || c == '"' {
        var text := ScanText(source, i);
        if text.None? {
          StepBad(source, result, i, stack);
          return None;
        }
        kind, end := Text, text.value;
      } else if IsNameStart(c) {
        end := ScanName(source, i);
        kind := Name;
      } else {
        SingleScan(s);
        if IsOpen(c) { kind := Open; }
        else if IsClose(c) { kind := Close; }
        else if c in "0123456789.,:=+-*!?&|<>%;" { kind := Punct; }
        else {
          StepBad(source, result, i, stack);
          return None;
        }
        end := i + 1;
      }
      StepToken(source, result, i, stack, kind, end);
      var step := Tokenize(s, i, stack, kind, end - i);
      if step.None? || !PolicyOk(result + [step.value.0]) { return None; }
      result, stack, i := result + [step.value.0], step.value.1, end;
    }
    StepEnd(source, result, stack);
    if stack != [] { return None; }
    r := Some(result);
  }

  lemma NotASource(source: string)
    requires !SourceOk(source)
    ensures Tokens(source).None?
  {
  }

  lemma SingleScan(s: string)
    requires s != "" && !IsBlank(s[0]) && !PairAt(s, 0, '/', '/') && !PairAt(s, 0, '/', '*') && s[0] != '\'' && s[0] != '"' && !IsNameStart(s[0])
    ensures Scan(s) == if IsOpen(s[0]) then Lexeme(Open, 1) else if IsClose(s[0]) then Lexeme(Close, 1)
                       else if s[0] in "0123456789.,:=+-*!?&|<>%;" then Lexeme(Punct, 1) else Bad
  {
  }
}
