/** The insertion into Groovy build files, and what it leaves of the tokens that were there. */
module GroovyInsertion {
  import opened Wrappers
  import opened GroovyLexer

  // ---------------------------------------------------------------------------------------------
  // The insertion
  // ---------------------------------------------------------------------------------------------

  datatype Block = Denied | Absent | Inside(at: nat)

  /** The positions at which a name stands outside all brackets. */
  function Matches(tokens: seq<Token>, name: string, k: nat): (r: seq<nat>)
    requires k <= |tokens|
    ensures forall i :: 0 <= i < |r| ==> r[i] < k && tokens[r[i]].kind.Name? && tokens[r[i]].value == name && tokens[r[i]].depth == 0
  {
    if k == 0 then []
    else
      var t := tokens[k - 1];
      Matches(tokens, name, k - 1) + if t.kind.Name? && t.value == name && t.depth == 0 then [k - 1] else []
  }

  /** `_block`: the place right after the brace of the block that a source must start with. */
  function FindBlock(source: string, name: string, required: bool): (r: Block)
    ensures r.Inside? ==>
              var tokens := Lex(source, 0, []);
              && Tokens(source).Some? && tokens.Some? && |tokens.value| >= 2
              && tokens.value[0].kind.Name? && tokens.value[0].value == name && tokens.value[0].depth == 0
              && tokens.value[1].kind.Open? && tokens.value[1].value == "{" && tokens.value[1].depth == 0 && tokens.value[1].end == r.at
    ensures r.Absent? ==> Tokens(source).Some?
  {
    var tokens := Tokens(source);
    if tokens.None? then Denied
    else
      var t := tokens.value;
      var matches := Matches(t, name, |t|);
      if |matches| > 1 || (|matches| == 0 && required) then Denied
      else if |matches| == 0 then Absent
      else if matches[0] == 0 && 1 < |t| && t[1].kind.Open? && t[1].value == "{" && t[1].depth == 0 then Inside(t[1].end)
      else Denied
  }

  const SETTINGS_BODY := "includeBuild"
  const MODULE_BODY := "id"

  function SettingsInsert(): string {
    "\n    " + (SETTINGS_BODY + ("(" + ("'" + LOGIC + "'" + (")" + "\n"))))
  }

  function ModuleInsert(): string {
    "\n    " + (MODULE_BODY + (" " + ("'" + PLUGIN + "'" + "\n")))
  }

  function InsertAt(source: string, at: nat, insert: string): string
    requires at <= |source|
  {
    source[..at] + insert + source[at..]
  }

  /** `configure_groovy`: the two files with their insertion. */
  function Configure(settings: string, module_: string): Option<(string, string)> {
    var settingsBlock := FindBlock(settings, "pluginManagement", false);
    var moduleBlock := FindBlock(module_, "plugins", true);
    if settingsBlock.Denied? || !moduleBlock.Inside? then None
    else
      EndsInside(module_, moduleBlock.at);
      var newModule := InsertAt(module_, moduleBlock.at, ModuleInsert());
      if settingsBlock.Absent? then Some(("pluginManagement {" + SettingsInsert() + "}\n" + settings, newModule))
      else
        EndsInside(settings, settingsBlock.at);
        Some((InsertAt(settings, settingsBlock.at, SettingsInsert()), newModule))
  }

  lemma EndsInside(source: string, at: nat)
    requires Lex(source, 0, []).Some? && |Lex(source, 0, []).value| >= 2 && Lex(source, 0, []).value[1].end == at
    ensures at <= |source|
  {
    TokensInBounds(source, 0, []);
  }

  /** A token lies in the text, which starts at a position, and is what stands there. */
  predicate InText(t: Token, s: string, at: nat) {
    at <= t.start < t.end <= at + |s| && t.value == s[t.start - at..t.end - at]
  }

  lemma InSuffix(t: Token, s: string, at: nat, n: nat)
    requires n <= |s| && InText(t, s[n..], at + n)
    ensures InText(t, s, at) && t.start >= at + n
  {
  }

  lemma {:induction false} TokensInBounds(s: string, at: nat, stack: string)
    requires Lex(s, at, stack).Some?
    ensures forall k :: 0 <= k < |Lex(s, at, stack).value| ==> InText(Lex(s, at, stack).value[k], s, at)
    decreases |s|
  {
    hide Scan, InText;
    if s != "" {
      var p, tokens := Scan(s), Lex(s, at, stack).value;
      if p.Blank? {
        TokensInBounds(s[p.length..], at + p.length, stack);
        forall k | 0 <= k < |tokens| ensures InText(tokens[k], s, at) { InSuffix(tokens[k], s, at, p.length); }
      } else {
        var step := Tokenize(s, at, stack, p.kind, p.length).value;
        TokensInBounds(s[p.length..], at + p.length, step.1);
        FirstInText(s, at, stack, p.kind, p.length);
        forall k | 0 < k < |tokens| ensures InText(tokens[k], s, at) { InSuffix(tokens[k], s, at, p.length); }
      }
    }
  }

  lemma FirstInText(s: string, at: nat, stack: string, kind: Kind, n: nat)
    requires 0 < n <= |s| && Tokenize(s, at, stack, kind, n).Some?
    ensures var t := Tokenize(s, at, stack, kind, n).value.0; InText(t, s, at) && t.start == at && t.end == at + n && t.kind == kind
  {
  }

  // ---------------------------------------------------------------------------------------------
  // Locality and shifting
  // ---------------------------------------------------------------------------------------------

  function Shift(t: Token, offset: int): Token
    requires t.start + offset >= 0 && t.end + offset >= 0
  {
    t.(start := t.start + offset, end := t.end + offset)
  }

  function ShiftAll(tokens: seq<Token>, offset: nat): seq<Token> {
    seq(|tokens|, i requires 0 <= i < |tokens| => Shift(tokens[i], offset))
  }

  function ShiftResult(r: Option<seq<Token>>, offset: nat): Option<seq<Token>> {
    match r
    case None => None
    case Some(tokens) => Some(ShiftAll(tokens, offset))
  }

  /** Tokens do not depend on where in a file the text stands. */
  lemma {:induction false} LexShifts(s: string, at: nat, offset: nat, stack: string)
    ensures Lex(s, at + offset, stack) == ShiftResult(Lex(s, at, stack), offset)
    decreases |s|
  {
    hide Scan;
    if s == "" {
      assert ShiftAll([], offset) == [];
    } else {
      var p := Scan(s);
      if p.Blank? {
        LexShifts(s[p.length..], at + p.length, offset, stack);
      } else if p.Lexeme? {
        var step := Tokenize(s, at, stack, p.kind, p.length);
        if step.Some? {
          LexShifts(s[p.length..], at + p.length, offset, step.value.1);
          assert Tokenize(s, at + offset, stack, p.kind, p.length) == Some((Shift(step.value.0, offset), step.value.1));
          ShiftPrepends(step.value.0, Lex(s[p.length..], at + p.length, step.value.1), offset);
        }
      }
    }
  }

  lemma ShiftPrepends(t: Token, rest: Option<seq<Token>>, offset: nat)
    ensures ShiftResult(Prepend([t], rest), offset) == Prepend([Shift(t, offset)], ShiftResult(rest, offset))
  {
    if rest.Some? { assert ShiftAll([t] + rest.value, offset) == [Shift(t, offset)] + ShiftAll(rest.value, offset); }
  }

  /** A piece is found again in any text that agrees on it and on the character after it; a bracket needs only itself. */
  lemma ScanIsLocal(s: string, t: string, m: nat)
    requires s != "" && 0 < m <= |s| && m <= |t| && s[..m] == t[..m] && !Scan(s).Bad?
    requires Scan(s).length < m || (Scan(s).length == m && (Scan(s).Blank? || (Scan(s).kind.Open? && Scan(s).length == 1)))
    requires Scan(s).Blank? && Scan(s).length == m ==> m < |s|
    ensures Scan(t) == Scan(s)
  {
    assert forall k :: 0 <= k < m ==> s[k] == t[k];
    var c := s[0];
    if IsBlank(c) {
    } else if PairAt(s, 0, '/', '/') {
      LineIsLocal(s, t, m);
    } else if PairAt(s, 0, '/', '*') {
      BlockIsLocal(s, t, m);
    } else if c == '\'' || c == '"' {
      TextIsLocal(s, t, c, m, 1);
      assert StartsWith(s, [c, c, c]) <==> StartsWith(t, [c, c, c]) by { TripleIsLocal(s, t, c, m); }
    } else if IsNameStart(c) {
      NameIsLocal(s, t, m, 1);
    }
  }

  lemma TripleIsLocal(s: string, t: string, c: char, m: nat)
    requires 3 <= m <= |s| && m <= |t| && s[..m] == t[..m]
    ensures StartsWith(s, [c, c, c]) <==> StartsWith(t, [c, c, c])
  {
    assert s[..3] == s[..m][..3] && t[..3] == t[..m][..3];
  }

  lemma LineIsLocal(s: string, t: string, m: nat)
    requires 2 <= m <= |s| && m <= |t| && s[..m] == t[..m] && PairAt(s, 0, '/', '/')
    requires Scan(s).length <= m && (Scan(s).length == m ==> m < |s|)
    ensures Scan(t) == Scan(s)
  {
    assert forall k :: 0 <= k < m ==> s[k] == t[k];
    var end := FindChar(s, '\n', 2);
    assert end < m && t[end] == '\n';
    var other := FindChar(t, '\n', 2);
    assert other == end;
  }

  lemma BlockIsLocal(s: string, t: string, m: nat)
    requires 2 <= m <= |s| && m <= |t| && s[..m] == t[..m] && PairAt(s, 0, '/', '*') && !Scan(s).Bad? && Scan(s).length <= m
    ensures Scan(t) == Scan(s)
  {
    assert forall k :: 0 <= k < m ==> s[k] == t[k];
    var end := FindPair(s, '*', '/', 2).value;
    assert PairAt(t, end, '*', '/');
    var other := FindPair(t, '*', '/', 2);
    assert forall k: nat :: 2 <= k < end ==> (PairAt(t, k, '*', '/') <==> PairAt(s, k, '*', '/'));
    assert other == Some(end);
    assert t[..end] == s[..end];
  }

  lemma {:induction false} TextIsLocal(s: string, t: string, quote: char, m: nat, n: nat)
    requires m <= |s| && m <= |t| && s[..m] == t[..m] && TextLength(s, quote, n).Some? && TextLength(s, quote, n).value <= m
    ensures TextLength(t, quote, n) == TextLength(s, quote, n)
    decreases |s| - n
  {
    assert forall k :: 0 <= k < m ==> s[k] == t[k];
    if s[n] != quote {
      if s[n] == '\\' { TextIsLocal(s, t, quote, m, n + 2); } else { TextIsLocal(s, t, quote, m, n + 1); }
    }
  }

  lemma {:induction false} NameIsLocal(s: string, t: string, m: nat, n: nat)
    requires n <= m <= |s| && m <= |t| && s[..m] == t[..m] && NameLength(s, n) < m
    ensures NameLength(t, n) == NameLength(s, n)
    decreases |s| - n
  {
    assert forall k :: 0 <= k < m ==> s[k] == t[k];
    if n < |s| && IsNameChar(s[n]) { NameIsLocal(s, t, m, n + 1); }
  }

  // ---------------------------------------------------------------------------------------------
  // Cutting a source after a brace
  // ---------------------------------------------------------------------------------------------

  /** The open brackets after some tokens. */
  function StackAfter(stack: string, tokens: seq<Token>): string
    decreases |tokens|
  {
    if tokens == [] then stack
    else StackAfter(StackNext(stack, tokens[0]), tokens[1..])
  }

  function StackNext(stack: string, t: Token): string {
    if t.kind.Open? && t.value != "" then stack + [t.value[0]]
    else if t.kind.Close? && stack != [] then stack[..|stack| - 1]
    else stack
  }

  lemma TokenizeStack(s: string, at: nat, stack: string, kind: Kind, n: nat)
    requires 0 < n <= |s| && Tokenize(s, at, stack, kind, n).Some?
    ensures Tokenize(s, at, stack, kind, n).value.1 == StackNext(stack, Tokenize(s, at, stack, kind, n).value.0)
  {
  }

  /** Some token of the text, an opening bracket, ends where the head does. */
  ghost predicate OpensAt(head: string, tail: string, at: nat, stack: string, k: nat) {
    var tokens := Lex(head + tail, at, stack);
    tokens.Some? && 0 < k <= |tokens.value| && tokens.value[k - 1].kind.Open? && tokens.value[k - 1].end == at + |head|
  }

  /** What comes after an opening bracket can be replaced: the tokens up to it stay, and what follows is read with
      the brackets open there. */
  ghost predicate Cuts(head: string, tail: string, other: string, at: nat, stack: string, k: nat) {
    var tokens := Lex(head + tail, at, stack);
    && tokens.Some? && k <= |tokens.value|
    && var after := StackAfter(stack, tokens.value[..k]);
       Lex(tail, at + |head|, after) == Some(tokens.value[k..])
       && Lex(head + other, at, stack) == Prepend(tokens.value[..k], Lex(other, at + |head|, after))
  }

  lemma {:induction false} CutAfterOpen(head: string, tail: string, other: string, at: nat, stack: string, k: nat)
    requires OpensAt(head, tail, at, stack, k)
    ensures Cuts(head, tail, other, at, stack, k)
    decreases |head|
  {
    hide Scan, Cuts;
    TokensInBounds(head + tail, at, stack);
    var p := Scan(head + tail);
    var n := p.length;
    if p.Blank? {
      CutAtBlank(head, tail, other, at, stack, k);
      CutAfterOpen(head[n..], tail, other, at + n, stack, k);
      CutsBlank(head, tail, other, at, stack, k);
    } else {
      CutAtLexeme(head, tail, other, at, stack, k);
      if k > 1 {
        CutAfterOpen(head[n..], tail, other, at + n, Tokenize(head + tail, at, stack, p.kind, n).value.1, k - 1);
        CutsLexeme(head, tail, other, at, stack, k);
      } else {
        CutsHere(head, tail, other, at, stack);
      }
    }
  }

  /** A blank before the bracket is the same whatever follows, and leaves the rest of the head. */
  lemma CutAtBlank(head: string, tail: string, other: string, at: nat, stack: string, k: nat)
    requires OpensAt(head, tail, at, stack, k) && head + tail != "" && Scan(head + tail).Blank?
    ensures var n := Scan(head + tail).length;
            && n < |head| && Scan(head + other) == Scan(head + tail)
            && (head + tail)[n..] == head[n..] + tail && (head + other)[n..] == head[n..] + other
            && OpensAt(head[n..], tail, at + n, stack, k)
  {
    hide Scan;
    var s, t, n := head + tail, head + other, Scan(head + tail).length;
    TokensInBounds(s[n..], at + n, stack);
    assert InText(Lex(s[n..], at + n, stack).value[k - 1], s[n..], at + n);
    assert s[..|head|] == head == t[..|head|];
    ScanIsLocal(s, t, |head|);
  }

  lemma CutsBlank(head: string, tail: string, other: string, at: nat, stack: string, k: nat)
    requires head + tail != "" && Scan(head + tail).Blank? && Scan(head + tail).length < |head|
    requires head + other != "" && Scan(head + other) == Scan(head + tail)
    requires var n := Scan(head + tail).length;
             (head + tail)[n..] == head[n..] + tail && (head + other)[n..] == head[n..] + other && Cuts(head[n..], tail, other, at + n, stack, k)
    ensures Cuts(head, tail, other, at, stack, k)
  {
    hide Scan;
  }

  /** The first lexeme is the same whatever follows, and leaves the rest of the head. */
  lemma CutAtLexeme(head: string, tail: string, other: string, at: nat, stack: string, k: nat)
    requires OpensAt(head, tail, at, stack, k) && head + tail != "" && Scan(head + tail).Lexeme?
    ensures var p := Scan(head + tail);
            var n := p.length;
            var step := Tokenize(head + tail, at, stack, p.kind, n);
            && step.Some? && n <= |head| && head + other != "" && Scan(head + other) == p
            && Tokenize(head + other, at, stack, p.kind, n) == step
            && (head + tail)[n..] == head[n..] + tail && (head + other)[n..] == head[n..] + other
            && (if k > 1 then n < |head| && OpensAt(head[n..], tail, at + n, step.value.1, k - 1) else n == |head|)
  {
    hide Scan, Tokenize, Lex;
    var s, t, p := head + tail, head + other, Scan(head + tail);
    var n := p.length;
    LexemeReached(head, tail, at, stack, k);
    assert s[..|head|] == head == t[..|head|];
    if p.kind.Open? { OpenIsOne(s); }
    ScanIsLocal(s, t, |head|);
    assert t[..n] == head[..n] == s[..n];
    SameStep(s, t, at, stack, p.kind, n);
    assert s[n..] == head[n..] + tail;
  }

  lemma SameStep(s: string, t: string, at: nat, stack: string, kind: Kind, n: nat)
    requires 0 < n <= |s| && n <= |t| && s[..n] == t[..n]
    ensures Tokenize(s, at, stack, kind, n) == Tokenize(t, at, stack, kind, n)
  {
    assert s[0] == s[..n][0] == t[0];
  }

  /** The bracket at the end of the head is the first lexeme, or lies beyond it. */
  lemma LexemeReached(head: string, tail: string, at: nat, stack: string, k: nat)
    requires OpensAt(head, tail, at, stack, k) && head + tail != "" && Scan(head + tail).Lexeme?
    ensures var s, p := head + tail, Scan(head + tail);
            var step := Tokenize(s, at, stack, p.kind, p.length);
            && step.Some? && p.length <= |head| && (k == 1 ==> p.length == |head| && p.kind.Open?)
            && (k > 1 ==> p.length < |head| && (s[p.length..] == head[p.length..] + tail ==>
                            OpensAt(head[p.length..], tail, at + p.length, step.value.1, k - 1)))
  {
    hide Scan, Tokenize;
    var s, p := head + tail, Scan(head + tail);
    var n := p.length;
    var step := Tokenize(s, at, stack, p.kind, n).value;
    FirstInText(s, at, stack, p.kind, n);
    TokensInBounds(s[n..], at + n, step.1);
    var tokens, rest := Lex(s, at, stack).value, Lex(s[n..], at + n, step.1).value;
    assert tokens == [step.0] + rest;
    if k > 1 { assert tokens[k - 1] == rest[k - 2] && InText(rest[k - 2], s[n..], at + n); }
  }

  lemma CutsLexeme(head: string, tail: string, other: string, at: nat, stack: string, k: nat)
    requires k > 1 && head + tail != "" && head + other != "" && Scan(head + tail).Lexeme? && Scan(head + other) == Scan(head + tail)
    requires var p := Scan(head + tail);
             var n := p.length;
             var step := Tokenize(head + tail, at, stack, p.kind, n);
             && step.Some? && n <= |head| && Tokenize(head + other, at, stack, p.kind, n) == step
             && (head + tail)[n..] == head[n..] + tail && (head + other)[n..] == head[n..] + other
             && Cuts(head[n..], tail, other, at + n, step.value.1, k - 1)
    ensures Cuts(head, tail, other, at, stack, k)
  {
    hide Scan;
    var p := Scan(head + tail);
    var n := p.length;
    var step := Tokenize(head + tail, at, stack, p.kind, n).value;
    TokenizeStack(head + tail, at, stack, p.kind, n);
    var rest := Lex(head[n..] + tail, at + n, step.1).value;
    var tokens := [step.0] + rest;
    assert tokens[..k] == [step.0] + rest[..k - 1] && tokens[k..] == rest[k - 1..] && tokens[..k][1..] == rest[..k - 1];
    PrependTwice([step.0], rest[..k - 1], Lex(other, at + |head|, StackAfter(step.1, rest[..k - 1])));
  }

  lemma CutsHere(head: string, tail: string, other: string, at: nat, stack: string)
    requires head + tail != "" && head + other != "" && Scan(head + tail).Lexeme? && Scan(head + other) == Scan(head + tail)
    requires var p := Scan(head + tail);
             var step := Tokenize(head + tail, at, stack, p.kind, p.length);
             && step.Some? && p.length == |head| && Tokenize(head + other, at, stack, p.kind, p.length) == step
    requires Lex(head + tail, at, stack).Some?
    ensures Cuts(head, tail, other, at, stack, 1)
  {
    hide Scan;
    var p := Scan(head + tail);
    var step := Tokenize(head + tail, at, stack, p.kind, p.length).value;
    TokenizeStack(head + tail, at, stack, p.kind, p.length);
    assert (head + tail)[p.length..] == tail && (head + other)[p.length..] == other;
    var rest := Lex(tail, at + |head|, step.1).value;
    assert ([step.0] + rest)[..1] == [step.0] && ([step.0] + rest)[1..] == rest && [step.0][1..] == [];
    assert StackAfter(step.1, []) == step.1;
  }

  lemma OpenIsOne(s: string)
    requires s != "" && Scan(s).Lexeme? && Scan(s).kind.Open?
    ensures Scan(s).length == 1
  {
  }
}
