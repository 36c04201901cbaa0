/** What the tokens of an accepted Groovy source are, and what an insertion does to them. */
module GroovyTheorems {
  import opened Wrappers
  import opened GroovyLexer
  import opened GroovyInsertion

  // ---------------------------------------------------------------------------------------------
  // Every character is in a token, blank, or in a comment
  // ---------------------------------------------------------------------------------------------

  predicate LineComment(c: string) {
    |c| >= 2 && c[0] == '/' && c[1] == '/' && forall k :: 0 <= k < |c| - 1 ==> c[k] != '\n'
  }

  predicate BlockComment(c: string) {
    && |c| >= 4 && c[0] == '/' && c[1] == '*' && c[|c| - 2] == '*' && c[|c| - 1] == '/'
    && (forall k: nat :: 2 <= k < |c| - 2 ==> !PairAt(c, k, '*', '/'))
    && (forall k: nat :: 2 <= k < |c| - 3 ==> !PairAt(c, k, '/', '*'))
  }

  predicate Comment(c: string) {
    LineComment(c) || BlockComment(c)
  }

  /** No token overlaps a range. */
  predicate Outside(tokens: seq<Token>, low: nat, high: nat) {
    forall k :: 0 <= k < |tokens| ==> tokens[k].end <= low || high <= tokens[k].start
  }

  predicate Holds(tokens: seq<Token>, position: nat) {
    exists k :: 0 <= k < |tokens| && tokens[k].start <= position < tokens[k].end
  }

  predicate CommentAt(s: string, at: nat, tokens: seq<Token>, p: nat, a: nat, b: nat) {
    a <= p < b <= |s| && Comment(s[a..b]) && Outside(tokens, at + a, at + b)
  }

  ghost predicate CoveredAt(s: string, at: nat, tokens: seq<Token>, p: nat)
    requires p < |s|
  {
    Holds(tokens, at + p) || IsBlank(s[p]) || exists a: nat, b: nat :: CommentAt(s, at, tokens, p, a, b)
  }

  predicate Ordered(tokens: seq<Token>) {
    forall i, j :: 0 <= i < j < |tokens| ==> tokens[i].end <= tokens[j].start
  }

  lemma BlankIsComment(s: string)
    requires s != "" && Scan(s).Blank?
    ensures (Scan(s).length == 1 && IsBlank(s[0])) || Comment(s[..Scan(s).length])
  {
    if !IsBlank(s[0]) && !PairAt(s, 0, '/', '/') {
      var end := FindPair(s, '*', '/', 2).value;
      var c := s[..end + 2];
      forall k: nat | 2 <= k < |c| - 2 ensures !PairAt(c, k, '*', '/') { assert PairAt(c, k, '*', '/') ==> PairAt(s, k, '*', '/'); }
      forall k: nat | 2 <= k < |c| - 3 ensures !PairAt(c, k, '/', '*') { assert PairAt(c, k, '/', '*') ==> PairAt(s[..end], k, '/', '*'); }
    }
  }

  lemma LiftCovered(s: string, at: nat, n: nat, rest: seq<Token>, tokens: seq<Token>, p: nat)
    requires n <= p < |s| && CoveredAt(s[n..], at + n, rest, p - n)
    requires forall k :: 0 <= k < |rest| ==> rest[k] in tokens
    requires forall t :: t in tokens ==> t in rest || t.end <= at + n
    ensures CoveredAt(s, at, tokens, p)
  {
    if Holds(rest, at + p) {
      var k :| 0 <= k < |rest| && rest[k].start <= at + p < rest[k].end;
      var j :| 0 <= j < |tokens| && tokens[j] == rest[k];
      assert Holds(tokens, at + p);
    } else if !IsBlank(s[p]) {
      var a: nat, b: nat :| CommentAt(s[n..], at + n, rest, p - n, a, b);
      assert s[n..][a..b] == s[n + a..n + b];
      forall k | 0 <= k < |tokens| ensures tokens[k].end <= at + n + a || at + n + b <= tokens[k].start {
        if tokens[k] in rest { var j :| 0 <= j < |rest| && rest[j] == tokens[k]; }
      }
      assert CommentAt(s, at, tokens, p, n + a, n + b);
    }
  }

  /** Tokens are in order, and every other character is blank or in a comment. */
  lemma {:induction false} LexCovers(s: string, at: nat, stack: string)
    requires Lex(s, at, stack).Some?
    ensures Ordered(Lex(s, at, stack).value)
    ensures forall p :: 0 <= p < |s| ==> CoveredAt(s, at, Lex(s, at, stack).value, p)
    decreases |s|
  {
    hide Scan, CoveredAt, Comment, InText;
    if s != "" {
      var piece, tokens := Scan(s), Lex(s, at, stack).value;
      var n := piece.length;
      if piece.Blank? {
        LexCovers(s[n..], at + n, stack);
        TokensInBounds(s[n..], at + n, stack);
        BlankCovered(s, at, tokens, stack);
        forall p | 0 <= p < |s| ensures CoveredAt(s, at, tokens, p) { if p >= n { LiftCovered(s, at, n, tokens, tokens, p); } }
      } else {
        var step := Tokenize(s, at, stack, piece.kind, n).value;
        var rest := Lex(s[n..], at + n, step.1).value;
        LexCovers(s[n..], at + n, step.1);
        FirstInText(s, at, stack, piece.kind, n);
        TokensInBounds(s[n..], at + n, step.1);
        StartsAfter(s[n..], at + n, rest);
        assert tokens == [step.0] + rest;
        forall p | 0 <= p < |s| ensures CoveredAt(s, at, tokens, p) {
          if p < n { HeldByFirst(s, at, tokens, p); } else { LiftCovered(s, at, n, rest, tokens, p); }
        }
      }
    }
  }

  lemma StartsAfter(s: string, at: nat, tokens: seq<Token>)
    requires forall k :: 0 <= k < |tokens| ==> InText(tokens[k], s, at)
    ensures forall k :: 0 <= k < |tokens| ==> tokens[k].start >= at
  {
  }

  lemma HeldByFirst(s: string, at: nat, tokens: seq<Token>, p: nat)
    requires p < |s| && tokens != [] && tokens[0].start <= at + p < tokens[0].end
    ensures CoveredAt(s, at, tokens, p)
  {
    assert Holds(tokens, at + p);
  }

  lemma BlankCovered(s: string, at: nat, tokens: seq<Token>, stack: string)
    requires s != "" && Scan(s).Blank?
    requires forall k :: 0 <= k < |tokens| ==> InText(tokens[k], s[Scan(s).length..], at + Scan(s).length)
    ensures forall p :: 0 <= p < Scan(s).length ==> CoveredAt(s, at, tokens, p)
  {
    hide Scan, Comment;
    BlankIsComment(s);
    var n := Scan(s).length;
    if n != 1 || !IsBlank(s[0]) {
      assert s[..n] == s[0..n];
      forall p | 0 <= p < n ensures CoveredAt(s, at, tokens, p) { assert CommentAt(s, at, tokens, p, 0, n); }
    }
  }

  // ---------------------------------------------------------------------------------------------
  // Brackets are balanced
  // ---------------------------------------------------------------------------------------------

  /** The bracket at i is closed by the one at j, and everything between is deeper. */
  predicate Pairs(tokens: seq<Token>, i: nat, j: nat) {
    && i < j < |tokens| && tokens[i].kind.Open? && tokens[j].kind.Close? && tokens[i].depth == tokens[j].depth
    && tokens[i].value != "" && tokens[j].value != "" && tokens[i].value[0] == Opening(tokens[j].value[0])
    && forall k :: i < k < j ==> tokens[k].depth > tokens[i].depth
  }

  /** The bracket at j closes one that was open before the tokens. */
  predicate Closes(stack: string, tokens: seq<Token>, j: nat) {
    && j < |tokens| && tokens[j].kind.Close? && tokens[j].depth < |stack|
    && tokens[j].value != "" && stack[tokens[j].depth] == Opening(tokens[j].value[0])
    && forall k :: 0 <= k < j ==> tokens[k].depth > tokens[j].depth
  }

  ghost predicate OpenMatched(tokens: seq<Token>, i: nat)
    requires i < |tokens|
  {
    tokens[i].kind.Open? ==> exists j :: Pairs(tokens, i, j)
  }

  ghost predicate CloseMatched(stack: string, tokens: seq<Token>, j: nat)
    requires j < |tokens|
  {
    tokens[j].kind.Close? ==> Closes(stack, tokens, j) || exists i :: Pairs(tokens, i, j)
  }

  ghost predicate LevelClosed(stack: string, tokens: seq<Token>, d: nat) {
    exists j: nat :: Closes(stack, tokens, j) && tokens[j].depth == d
  }

  ghost predicate Balanced(stack: string, tokens: seq<Token>) {
    && (forall i :: 0 <= i < |tokens| ==> OpenMatched(tokens, i) && CloseMatched(stack, tokens, i))
    && (forall d :: 0 <= d < |stack| ==> LevelClosed(stack, tokens, d))
  }

  lemma PairsLater(t: Token, rest: seq<Token>, i: nat, j: nat)
    requires Pairs(rest, i, j)
    ensures Pairs([t] + rest, i + 1, j + 1)
  {
    var tokens := [t] + rest;
    forall k | i + 1 < k < j + 1 ensures tokens[k].depth > tokens[i + 1].depth { assert tokens[k] == rest[k - 1]; }
  }

  lemma OpenStays(t: Token, rest: seq<Token>, i: nat)
    requires i < |rest| && OpenMatched(rest, i)
    ensures OpenMatched([t] + rest, i + 1)
  {
    if rest[i].kind.Open? {
      var j :| Pairs(rest, i, j);
      PairsLater(t, rest, i, j);
    }
  }

  /** A token before the others, and the brackets open before and after it. */
  predicate Follows(t: Token, stack: string, next: string) {
    match t.kind
    case Open => t.depth == |stack| && t.value != "" && next == stack + [t.value[0]]
    case Close => stack != [] && t.depth == |stack| - 1 && t.value != "" && stack[|stack| - 1] == Opening(t.value[0]) && next == stack[..|stack| - 1]
    case _ => t.depth == |stack| && next == stack
  }

  lemma ClosesLater(t: Token, stack: string, next: string, rest: seq<Token>, j: nat)
    requires Follows(t, stack, next) && Closes(next, rest, j)
    ensures if rest[j].depth < |stack| then Closes(stack, [t] + rest, j + 1) else t.kind.Open? && Pairs([t] + rest, 0, j + 1)
  {
    var tokens := [t] + rest;
    forall k | 0 < k < j + 1 ensures tokens[k].depth > rest[j].depth { assert tokens[k] == rest[k - 1]; }
  }

  lemma CloseStays(t: Token, stack: string, next: string, rest: seq<Token>, j: nat)
    requires Follows(t, stack, next) && j < |rest| && CloseMatched(next, rest, j)
    ensures CloseMatched(stack, [t] + rest, j + 1)
  {
    if rest[j].kind.Close? {
      if Closes(next, rest, j) { ClosesLater(t, stack, next, rest, j); }
      else {
        var i :| Pairs(rest, i, j);
        PairsLater(t, rest, i, j);
      }
    }
  }

  lemma BalancedNext(t: Token, stack: string, next: string, rest: seq<Token>)
    requires Follows(t, stack, next) && Balanced(next, rest)
    ensures Balanced(stack, [t] + rest)
  {
    hide Pairs, Closes;
    var tokens := [t] + rest;
    forall i | 0 <= i < |tokens| ensures OpenMatched(tokens, i) && CloseMatched(stack, tokens, i) {
      if i > 0 {
        OpenStays(t, rest, i - 1);
        CloseStays(t, stack, next, rest, i - 1);
      } else {
        FirstMatched(t, stack, next, rest);
      }
    }
    forall d | 0 <= d < |stack| ensures LevelClosed(stack, tokens, d) { LevelStays(t, stack, next, rest, d); }
  }

  lemma FirstMatched(t: Token, stack: string, next: string, rest: seq<Token>)
    requires Follows(t, stack, next) && Balanced(next, rest)
    ensures OpenMatched([t] + rest, 0) && CloseMatched(stack, [t] + rest, 0)
  {
    if t.kind.Open? {
      assert LevelClosed(next, rest, |stack|);
      var j: nat :| Closes(next, rest, j) && rest[j].depth == |stack|;
      ClosesLater(t, stack, next, rest, j);
    }
    if t.kind.Close? { assert Closes(stack, [t] + rest, 0); }
  }

  lemma LevelStays(t: Token, stack: string, next: string, rest: seq<Token>, d: nat)
    requires Follows(t, stack, next) && Balanced(next, rest) && d < |stack|
    ensures LevelClosed(stack, [t] + rest, d)
  {
    if t.kind.Close? && d == |stack| - 1 {
      assert Closes(stack, [t] + rest, 0);
    } else {
      assert LevelClosed(next, rest, d);
      var j: nat :| Closes(next, rest, j) && rest[j].depth == d;
      ClosesLater(t, stack, next, rest, j);
      assert ([t] + rest)[j + 1].depth == d;
    }
  }

  lemma {:induction false} LexBalances(s: string, at: nat, stack: string)
    requires Lex(s, at, stack).Some?
    ensures Balanced(stack, Lex(s, at, stack).value)
    decreases |s|
  {
    hide Scan, Balanced;
    if s == "" {
      NothingBalanced();
    } else {
      var p := Scan(s);
      if p.Blank? {
        LexBalances(s[p.length..], at + p.length, stack);
      } else {
        var step := Tokenize(s, at, stack, p.kind, p.length).value;
        LexBalances(s[p.length..], at + p.length, step.1);
        BalancedNext(step.0, stack, step.1, Lex(s[p.length..], at + p.length, step.1).value);
      }
    }
  }

  lemma NothingBalanced()
    ensures Balanced([], [])
  {
  }

  /** The tokens of an accepted source: in order, each what stands in its place, everything else blank or comment, and
      every bracket paired with one of its kind around deeper tokens only. */
  lemma TokensAreTheSource(s: string)
    requires Tokens(s).Some?
    ensures var tokens := Tokens(s).value;
            && Ordered(tokens)
            && (forall k :: 0 <= k < |tokens| ==> tokens[k].start < tokens[k].end <= |s| && tokens[k].value == s[tokens[k].start..tokens[k].end])
            && (forall p :: 0 <= p < |s| ==> CoveredAt(s, 0, tokens, p))
            && (forall i :: 0 <= i < |tokens| && tokens[i].kind.Open? ==> exists j :: Pairs(tokens, i, j))
            && (forall j :: 0 <= j < |tokens| && tokens[j].kind.Close? ==> exists i :: Pairs(tokens, i, j))
  {
    hide Pairs, CoveredAt, Ordered;
    LexCovers(s, 0, []);
    TokensInBounds(s, 0, []);
    LexBalances(s, 0, []);
    var tokens := Tokens(s).value;
    forall k | 0 <= k < |tokens| ensures tokens[k].start < tokens[k].end <= |s| && tokens[k].value == s[tokens[k].start..tokens[k].end] {
      assert InText(tokens[k], s, 0);
    }
    forall i | 0 <= i < |tokens| && tokens[i].kind.Open? ensures exists j :: Pairs(tokens, i, j) { assert OpenMatched(tokens, i); }
    forall j | 0 <= j < |tokens| && tokens[j].kind.Close? ensures exists i :: Pairs(tokens, i, j) { assert CloseMatched([], tokens, j); }
  }

  // ---------------------------------------------------------------------------------------------
  // Tokens are whole
  // ---------------------------------------------------------------------------------------------

  /** A name is as long as it can be; a string is quoted and stays on its line; anything else is one character. */
  predicate Whole(t: Token, s: string, at: nat)
    requires InText(t, s, at)
  {
    var v := t.value;
    match t.kind
    case Name =>
      && IsNameStart(v[0]) && (forall k :: 0 <= k < |v| ==> IsNameChar(v[k]))
      && (t.end - at < |s| ==> !IsNameChar(s[t.end - at]))
    case Text =>
      && |v| >= 2 && v[0] == v[|v| - 1] && (v[0] == '\'' || v[0] == '"')
      && forall k :: 1 <= k < |v| - 1 ==> !IsRefused(v[k])
    case Open => |v| == 1 && IsOpen(v[0])
    case Close => |v| == 1 && IsClose(v[0])
    case Punct => |v| == 1 && !IsBlank(v[0]) && !IsNameStart(v[0]) && v[0] in "0123456789.,:=+-*!?&|<>%;"
  }

  lemma {:induction false} TextStaysInside(s: string, quote: char, n: nat)
    requires TextLength(s, quote, n).Some?
    ensures var end := TextLength(s, quote, n).value; s[end - 1] == quote && forall k :: n <= k < end - 1 ==> !IsRefused(s[k])
    decreases |s| - n
  {
    if s[n] != quote {
      if s[n] == '\\' {
        assert s[n + 1] in "\\'\"" && !IsRefused(s[n + 1]);
        TextStaysInside(s, quote, n + 2);
      } else {
        TextStaysInside(s, quote, n + 1);
      }
    }
  }

  lemma FirstIsWhole(s: string, at: nat, stack: string, kind: Kind, n: nat)
    requires s != "" && Scan(s) == Lexeme(kind, n) && Tokenize(s, at, stack, kind, n).Some?
    ensures var t := Tokenize(s, at, stack, kind, n).value.0; InText(t, s, at) && Whole(t, s, at)
  {
    if s[0] == '\'' || s[0] == '"' { TextStaysInside(s, s[0], 1); }
  }

  lemma WholeInSuffix(t: Token, s: string, at: nat, n: nat)
    requires n <= |s| && InText(t, s[n..], at + n) && Whole(t, s[n..], at + n)
    ensures InText(t, s, at) && Whole(t, s, at)
  {
    if t.end - at < |s| { assert s[n..][t.end - at - n] == s[t.end - at]; }
  }

  lemma {:induction false} TokensAreWhole(s: string, at: nat, stack: string)
    requires Lex(s, at, stack).Some?
    ensures forall k :: 0 <= k < |Lex(s, at, stack).value| ==>
              InText(Lex(s, at, stack).value[k], s, at) && Whole(Lex(s, at, stack).value[k], s, at)
    decreases |s|
  {
    hide Scan, InText, Whole;
    if s != "" {
      var p, tokens := Scan(s), Lex(s, at, stack).value;
      if p.Blank? {
        TokensAreWhole(s[p.length..], at + p.length, stack);
        forall k | 0 <= k < |tokens| ensures InText(tokens[k], s, at) && Whole(tokens[k], s, at) { WholeInSuffix(tokens[k], s, at, p.length); }
      } else {
        var step := Tokenize(s, at, stack, p.kind, p.length).value;
        TokensAreWhole(s[p.length..], at + p.length, step.1);
        FirstIsWhole(s, at, stack, p.kind, p.length);
        forall k | 0 < k < |tokens| ensures InText(tokens[k], s, at) && Whole(tokens[k], s, at) { WholeInSuffix(tokens[k], s, at, p.length); }
      }
    }
  }

  // ---------------------------------------------------------------------------------------------
  // The inserted text
  // ---------------------------------------------------------------------------------------------

  lemma {:induction false} BlankHead(blank: string, rest: string, at: nat, stack: string)
    requires forall k :: 0 <= k < |blank| ==> IsBlank(blank[k])
    ensures Lex(blank + rest, at, stack) == Lex(rest, at + |blank|, stack)
    decreases |blank|
  {
    if blank == "" {
      assert blank + rest == rest;
    } else {
      assert (blank + rest)[1..] == blank[1..] + rest;
      BlankHead(blank[1..], rest, at + 1, stack);
    }
  }

  lemma {:induction false} NameRuns(s: string, n: nat, m: nat)
    requires n <= m <= |s| && (forall k :: n <= k < m ==> IsNameChar(s[k])) && (m < |s| ==> !IsNameChar(s[m]))
    ensures NameLength(s, n) == m
    decreases m - n
  {
    if n < m { NameRuns(s, n + 1, m); }
  }

  lemma NameHead(name: string, rest: string, at: nat, stack: string)
    requires name != "" && IsNameStart(name[0]) && forall k :: 0 <= k < |name| ==> IsNameChar(name[k])
    requires rest != "" && !IsNameChar(rest[0])
    ensures Lex(name + rest, at, stack) == Prepend([Token(Name, name, at, at + |name|, |stack|)], Lex(rest, at + |name|, stack))
  {
    hide Scan;
    var s := name + rest;
    NameScan(name, rest);
    assert s[..|name|] == name && s[|name|..] == rest;
  }

  lemma NameScan(name: string, rest: string)
    requires name != "" && IsNameStart(name[0]) && forall k :: 0 <= k < |name| ==> IsNameChar(name[k])
    requires rest != "" && !IsNameChar(rest[0])
    ensures Scan(name + rest) == Lexeme(Name, |name|)
  {
    var s := name + rest;
    assert s[|name|] == rest[0] && forall k :: 0 <= k < |name| ==> s[k] == name[k];
    NameRuns(s, 1, |name|);
  }

  predicate Plain(c: char) {
    c != '\'' && c != '\\' && !IsRefused(c)
  }

  lemma {:induction false} TextRuns(s: string, n: nat, m: nat)
    requires n <= m < |s| && (forall k :: n <= k < m ==> Plain(s[k])) && s[m] == '\''
    ensures TextLength(s, '\'', n) == Some(m + 1)
    decreases m - n
  {
    if n < m { TextRuns(s, n + 1, m); }
  }

  lemma TextHead(body: string, rest: string, at: nat, stack: string)
    requires body != "" && forall k :: 0 <= k < |body| ==> Plain(body[k])
    ensures Lex("'" + body + "'" + rest, at, stack)
            == Prepend([Token(Text, "'" + body + "'", at, at + |body| + 2, |stack|)], Lex(rest, at + |body| + 2, stack))
  {
    var quoted := "'" + body + "'";
    var s := quoted + rest;
    assert s[0] == '\'' && s[|body| + 1] == '\'' && forall k :: 1 <= k < |body| + 1 ==> s[k] == body[k - 1];
    assert !StartsWith(s, ['\'', '\'', '\'']) by { assert s[1] == body[0]; }
    TextRuns(s, 1, |body| + 1);
    assert s[..|quoted|] == quoted && s[|quoted|..] == rest;
  }

  lemma OpenHead(c: char, rest: string, at: nat, stack: string)
    requires IsOpen(c)
    ensures Lex([c] + rest, at, stack) == Prepend([Token(Open, [c], at, at + 1, |stack|)], Lex(rest, at + 1, stack + [c]))
  {
    var s := [c] + rest;
    assert s[..1] == [c] && s[1..] == rest;
  }

  lemma CloseHead(c: char, rest: string, at: nat, stack: string)
    requires IsClose(c)
    ensures Lex([c] + rest, at, stack + [Opening(c)]) == Prepend([Token(Close, [c], at, at + 1, |stack|)], Lex(rest, at + 1, stack))
  {
    var s, full := [c] + rest, stack + [Opening(c)];
    assert s[..1] == [c] && s[1..] == rest && full[..|full| - 1] == stack;
  }

  function ModuleTokens(at: nat, depth: nat): seq<Token> {
    [Token(Name, MODULE_BODY, at + 5, at + 7, depth), Token(Text, "'" + PLUGIN + "'", at + 8, at + 10 + |PLUGIN|, depth)]
  }

  lemma PluginIsPlain()
    ensures |PLUGIN| == 26 && forall k :: 0 <= k < |PLUGIN| ==> Plain(PLUGIN[k])
  {
  }

  lemma LogicIsPlain()
    ensures |LOGIC| == 19 && forall k :: 0 <= k < |LOGIC| ==> Plain(LOGIC[k])
  {
  }

  lemma BodiesAreNames()
    ensures forall k :: 0 <= k < |MODULE_BODY| ==> IsNameChar(MODULE_BODY[k])
    ensures forall k :: 0 <= k < |SETTINGS_BODY| ==> IsNameChar(SETTINGS_BODY[k])
    ensures |MODULE_BODY| == 2 && |SETTINGS_BODY| == 12 && IsNameStart(MODULE_BODY[0]) && IsNameStart(SETTINGS_BODY[0])
  {
  }

  lemma ModuleInsertLexes(tail: string, at: nat, stack: string)
    ensures |ModuleInsert()| == 37
    ensures Lex(ModuleInsert() + tail, at, stack) == Prepend(ModuleTokens(at, |stack|), Lex(tail, at + 37, stack))
  {
    hide Lex;
    PluginIsPlain();
    BodiesAreNames();
    var last := "\n" + tail;
    var quoted := "'" + PLUGIN + "'" + last;
    var spaced := " " + quoted;
    assert ModuleInsert() + tail == "\n    " + (MODULE_BODY + spaced);
    BlankHead("\n    ", MODULE_BODY + spaced, at, stack);
    NameHead(MODULE_BODY, spaced, at + 5, stack);
    BlankHead(" ", quoted, at + 7, stack);
    TextHead(PLUGIN, last, at + 8, stack);
    BlankHead("\n", tail, at + 36, stack);
    PrependTwice([ModuleTokens(at, |stack|)[0]], [ModuleTokens(at, |stack|)[1]], Lex(tail, at + 37, stack));
    assert ModuleTokens(at, |stack|) == [ModuleTokens(at, |stack|)[0]] + [ModuleTokens(at, |stack|)[1]];
  }

  function SettingsTokens(at: nat, depth: nat): seq<Token> {
    [Token(Name, SETTINGS_BODY, at + 5, at + 17, depth), Token(Open, "(", at + 17, at + 18, depth),
     Token(Text, "'" + LOGIC + "'", at + 18, at + 39, depth + 1), Token(Close, ")", at + 39, at + 40, depth)]
  }

  lemma SettingsInsertLexes(tail: string, at: nat, stack: string)
    ensures |SettingsInsert()| == 41
    ensures Lex(SettingsInsert() + tail, at, stack) == Prepend(SettingsTokens(at, |stack|), Lex(tail, at + 41, stack))
  {
    hide Lex;
    LogicIsPlain();
    BodiesAreNames();
    var last := "\n" + tail;
    var closed := ")" + last;
    var quoted := "'" + LOGIC + "'" + closed;
    var opened_ := "(" + quoted;
    assert SettingsInsert() + tail == "\n    " + (SETTINGS_BODY + opened_);
    BlankHead("\n    ", SETTINGS_BODY + opened_, at, stack);
    NameHead(SETTINGS_BODY, opened_, at + 5, stack);
    OpenHead('(', quoted, at + 17, stack);
    TextHead(LOGIC, closed, at + 18, stack + ['(']);
    CloseHead(')', last, at + 39, stack);
    BlankHead("\n", tail, at + 40, stack);
    Chain(SettingsTokens(at, |stack|), Lex(tail, at + 41, stack));
  }

  lemma Chain(t: seq<Token>, rest: Option<seq<Token>>)
    requires |t| == 4
    ensures Prepend([t[0]], Prepend([t[1]], Prepend([t[2]], Prepend([t[3]], rest)))) == Prepend(t, rest)
  {
    PrependTwice([t[2]], [t[3]], rest);
    PrependTwice([t[1]], [t[2]] + [t[3]], rest);
    PrependTwice([t[0]], [t[1]] + ([t[2]] + [t[3]]), rest);
    assert t == [t[0]] + ([t[1]] + ([t[2]] + [t[3]]));
  }

  // ---------------------------------------------------------------------------------------------
  // Insertion
  // ---------------------------------------------------------------------------------------------

  /** What replaces the rest of a source after its block brace is read inside that block. */
  lemma AfterBrace(source: string, name: string, required: bool, other: string)
    requires FindBlock(source, name, required).Inside?
    ensures var at, tokens := FindBlock(source, name, required).at, Tokens(source).value;
            && at <= |source| && |tokens| >= 2
            && Lex(source[at..], at, "{") == Some(tokens[2..])
            && Lex(source[..at] + other, 0, []) == Prepend(tokens[..2], Lex(other, at, "{"))
  {
    hide Lex;
    var at, tokens := FindBlock(source, name, required).at, Tokens(source).value;
    EndsInside(source, at);
    assert source == source[..at] + source[at..];
    CutAfterOpen(source[..at], source[at..], other, 0, [], 2);
    assert tokens[..2][1..] == [tokens[1]] && [tokens[1]][1..] == [] && [] + ['{'] == ['{'];
    assert StackAfter([], tokens[..2]) == StackAfter([], [tokens[1]]);
    assert StackAfter([], [tokens[1]]) == StackAfter("{", []);
  }

  /** The module file after the insertion: the file before with one piece of text put in, whose tokens are those of
      the file before, around the two tokens of the insertion. */
  lemma ModuleKeepsTokens(module_: string)
    requires FindBlock(module_, "plugins", true).Inside?
    ensures var at, tokens := FindBlock(module_, "plugins", true).at, Tokens(module_).value;
            && at <= |module_| && |tokens| >= 2
            && var changed := InsertAt(module_, at, ModuleInsert());
               && changed[..at] + changed[at + 37..] == module_ && changed[at..at + 37] == ModuleInsert()
               && Lex(changed, 0, []) == Some(tokens[..2] + ModuleTokens(at, 1) + ShiftAll(tokens[2..], 37))
  {
    hide Lex;
    var at, tokens := FindBlock(module_, "plugins", true).at, Tokens(module_).value;
    EndsInside(module_, at);
    var tail := module_[at..];
    AfterBrace(module_, "plugins", true, ModuleInsert() + tail);
    assert InsertAt(module_, at, ModuleInsert()) == module_[..at] + (ModuleInsert() + tail);
    ModuleInsertLexes(tail, at, "{");
    LexShifts(tail, at, 37, "{");
    PrependTwice(tokens[..2], ModuleTokens(at, 1), Lex(tail, at + 37, "{"));
  }

  /** The settings file after an insertion into its block. */
  lemma SettingsKeepTokens(settings: string)
    requires FindBlock(settings, "pluginManagement", false).Inside?
    ensures var at, tokens := FindBlock(settings, "pluginManagement", false).at, Tokens(settings).value;
            && at <= |settings| && |tokens| >= 2
            && var changed := InsertAt(settings, at, SettingsInsert());
               && changed[..at] + changed[at + 41..] == settings && changed[at..at + 41] == SettingsInsert()
               && Lex(changed, 0, []) == Some(tokens[..2] + SettingsTokens(at, 1) + ShiftAll(tokens[2..], 41))
  {
    hide Lex;
    var at, tokens := FindBlock(settings, "pluginManagement", false).at, Tokens(settings).value;
    EndsInside(settings, at);
    var tail := settings[at..];
    AfterBrace(settings, "pluginManagement", false, SettingsInsert() + tail);
    assert InsertAt(settings, at, SettingsInsert()) == settings[..at] + (SettingsInsert() + tail);
    SettingsInsertLexes(tail, at, "{");
    LexShifts(tail, at, 41, "{");
    PrependTwice(tokens[..2], SettingsTokens(at, 1), Lex(tail, at + 41, "{"));
  }

  function NewBlock(): seq<Token> {
    BlockTokens() + SettingsTokens(18, 1) + [CloseToken()]
  }

  function BlockTokens(): seq<Token> {
    [Token(Name, "pluginManagement", 0, 16, 0), Token(Open, "{", 17, 18, 0)]
  }

  lemma BlockHead(inner: string)
    ensures Lex("pluginManagement {" + inner, 0, []) == Prepend(BlockTokens(), Lex(inner, 18, "{"))
  {
    hide Lex;
    var block, braced := "pluginManagement", "{" + inner;
    var spaced := " " + braced;
    assert "pluginManagement {" == block + " " + "{";
    assert "pluginManagement {" + inner == block + spaced;
    NameHead(block, spaced, 0, []);
    BlankHead(" ", braced, 16, []);
    OpenHead('{', inner, 17, []);
    assert [] + ['{'] == "{";
    PrependTwice([BlockTokens()[0]], [BlockTokens()[1]], Lex(inner, 18, "{"));
    assert BlockTokens() == [BlockTokens()[0]] + [BlockTokens()[1]];
  }

  function CloseToken(): Token {
    Token(Close, "}", 59, 60, 0)
  }

  lemma BlockTail(settings: string)
    ensures Lex("}" + ("\n" + settings), 59, "{") == Prepend([CloseToken()], ShiftResult(Lex(settings, 0, []), 61))
  {
    hide Lex;
    assert [] + [Opening('}')] == "{";
    CloseHead('}', "\n" + settings, 59, []);
    BlankHead("\n", settings, 60, []);
    LexShifts(settings, 0, 61, []);
  }

  /** A settings file without the block gets it in front of everything. */
  lemma SettingsGetABlock(settings: string)
    requires FindBlock(settings, "pluginManagement", false).Absent?
    ensures var changed := "pluginManagement {" + SettingsInsert() + "}\n" + settings;
            Lex(changed, 0, []) == Some(NewBlock() + ShiftAll(Tokens(settings).value, 61))
  {
    hide Lex, Scan, Allowed, PolicyOk, SourceOk;
    var closed := "}" + ("\n" + settings);
    assert "}\n" == "}" + "\n";
    assert "pluginManagement {" + SettingsInsert() + "}\n" + settings == "pluginManagement {" + (SettingsInsert() + closed);
    BlockHead(SettingsInsert() + closed);
    SettingsInsertLexes(closed, 18, "{");
    BlockTail(settings);
    var all := ShiftResult(Lex(settings, 0, []), 61);
    PrependTwice(SettingsTokens(18, 1), [CloseToken()], all);
    PrependTwice(BlockTokens(), SettingsTokens(18, 1) + [CloseToken()], all);
    assert NewBlock() == BlockTokens() + (SettingsTokens(18, 1) + [CloseToken()]);
  }

  // ---------------------------------------------------------------------------------------------
  // The two files
  // ---------------------------------------------------------------------------------------------

  /** A name outside all brackets. */
  predicate Outermost(t: Token, name: string) {
    t.kind.Name? && t.value == name && t.depth == 0
  }

  predicate Lacks(tokens: seq<Token>, name: string) {
    forall i :: 0 <= i < |tokens| ==> !Outermost(tokens[i], name)
  }

  /** A block of this name comes first, and no other. */
  predicate Leads(tokens: seq<Token>, name: string) {
    && |tokens| >= 2 && Outermost(tokens[0], name)
    && tokens[1].kind.Open? && tokens[1].value == "{" && tokens[1].depth == 0
    && forall i :: 1 <= i < |tokens| ==> !Outermost(tokens[i], name)
  }

  lemma {:induction false} MatchesAre(tokens: seq<Token>, name: string, k: nat)
    requires k <= |tokens|
    ensures forall i :: i in Matches(tokens, name, k) <==> 0 <= i < k && Outermost(tokens[i], name)
    ensures forall i, j :: 0 <= i < j < |Matches(tokens, name, k)| ==> Matches(tokens, name, k)[i] < Matches(tokens, name, k)[j]
  {
    if k > 0 { MatchesAre(tokens, name, k - 1); }
  }

  /** A block is found where it leads, is absent where the name is, and every other source is denied. */
  lemma FoundBlock(source: string, name: string, required: bool)
    ensures var t := Tokens(source);
            match FindBlock(source, name, required)
            case Inside(at) => t.Some? && Leads(t.value, name) && at == t.value[1].end
            case Absent => !required && t.Some? && Lacks(t.value, name)
            case Denied => t.None? || (!Leads(t.value, name) && (required || !Lacks(t.value, name)))
  {
    hide Tokens, Lex, Matches, Leads, Lacks;
    var tokens := Tokens(source);
    if tokens.Some? { LeadingMatch(tokens.value, name); }
  }

  lemma LeadingMatch(t: seq<Token>, name: string)
    ensures var matches := Matches(t, name, |t|);
            && (|matches| == 0 <==> Lacks(t, name))
            && (Leads(t, name) <==> |matches| == 1 && matches[0] == 0 && 1 < |t| && t[1].kind.Open? && t[1].value == "{" && t[1].depth == 0)
  {
    hide Matches;
    MatchesAre(t, name, |t|);
    var matches := Matches(t, name, |t|);
    if |matches| > 0 { assert matches[0] in matches; }
    if |matches| > 1 { assert matches[1] in matches && matches[1] >= 1 && Outermost(t[matches[1]], name); }
    forall i | 0 <= i < |t| && Outermost(t[i], name) ensures i in matches { }
  }

  /** The configuration succeeds exactly for a module that leads with its only outermost `plugins` block and settings
      that lead with their only outermost `pluginManagement` block or have none; the files are then the two given ones
      with one insertion each, in this order. */
  lemma ConfigurationIsExact(settings: string, module_: string)
    ensures var s, m := Tokens(settings), Tokens(module_);
            Configure(settings, module_).Some? <==>
              && s.Some? && m.Some? && Leads(m.value, "plugins")
              && (Lacks(s.value, "pluginManagement") || Leads(s.value, "pluginManagement"))
    ensures Configure(settings, module_).Some? ==>
              var (newSettings, newModule) := Configure(settings, module_).value;
              var s, m := Tokens(settings).value, Tokens(module_).value;
              var put := "\n    " + ("includeBuild" + ("(" + ("'" + "reproof-build-logic" + "'" + (")" + "\n"))));
              var add := "\n    " + ("id" + (" " + ("'" + "io.reproof.instrumentation" + "'" + "\n")));
              && |m| >= 2 && m[1].end <= |module_| && newModule == module_[..m[1].end] + add + module_[m[1].end..]
              && (if Lacks(s, "pluginManagement") then newSettings == "pluginManagement {" + put + "}\n" + settings
                  else |s| >= 2 && s[1].end <= |settings| && newSettings == settings[..s[1].end] + put + settings[s[1].end..])
  {
    hide Tokens, Lex;
    FoundBlock(settings, "pluginManagement", false);
    FoundBlock(module_, "plugins", true);
    var found := FindBlock(module_, "plugins", true);
    if found.Inside? { EndsInside(module_, found.at); }
    var block := FindBlock(settings, "pluginManagement", false);
    if block.Inside? { EndsInside(settings, block.at); }
  }

  /** Taking the insertion out of either file gives the file back, and lexing it with policy and size checks off gives
      the tokens of the file around those of the insertion. */
  lemma ConfigurationKeepsTokens(settings: string, module_: string)
    requires Configure(settings, module_).Some?
    ensures Tokens(module_).Some? && |Tokens(module_).value| >= 2
    ensures var newModule, m := Configure(settings, module_).value.1, Tokens(module_).value;
            var at := m[1].end;
            && at + 37 <= |newModule| && newModule[..at] + newModule[at + 37..] == module_
            && Lex(newModule, 0, []) == Some(m[..2] + ModuleTokens(at, 1) + ShiftAll(m[2..], 37))
    ensures Tokens(settings).Some?
    ensures var newSettings, s := Configure(settings, module_).value.0, Tokens(settings).value;
            if Lacks(s, "pluginManagement") then
              && 61 <= |newSettings| && newSettings[61..] == settings
              && Lex(newSettings, 0, []) == Some(NewBlock() + ShiftAll(s, 61))
            else
              && |s| >= 2
              && var at := s[1].end;
                 && at + 41 <= |newSettings| && newSettings[..at] + newSettings[at + 41..] == settings
                 && Lex(newSettings, 0, []) == Some(s[..2] + SettingsTokens(at, 1) + ShiftAll(s[2..], 41))
  {
    hide Tokens, Lex, ShiftAll;
    FoundBlock(settings, "pluginManagement", false);
    FoundBlock(module_, "plugins", true);
    ModuleKeepsTokens(module_);
    if FindBlock(settings, "pluginManagement", false).Inside? {
      LeadsOrLacks(Tokens(settings).value, "pluginManagement");
      SettingsKeepTokens(settings);
    } else {
      SettingsGetABlock(settings);
      NewBlockLength(settings);
    }
  }

  lemma LeadsOrLacks(tokens: seq<Token>, name: string)
    requires Leads(tokens, name)
    ensures !Lacks(tokens, name) && |tokens| >= 2
  {
  }

  lemma NewBlockLength(settings: string)
    ensures var changed := "pluginManagement {" + SettingsInsert() + "}\n" + settings; 61 <= |changed| && changed[61..] == settings
  {
    SettingsInsertLexes("", 0, []);
    var head := "pluginManagement {" + SettingsInsert() + "}\n";
    assert |head| == 61 && (head + settings)[61..] == settings;
  }

  lemma NotAllowed(s: string, tokens: seq<Token>, k: nat)
    requires Lex(s, 0, []) == Some(tokens) && k < |tokens| && !Allowed(tokens, k)
    ensures Tokens(s).None?
  {
  }

  /** A configured file is never configured again: neither of the two is accepted, whatever the other one is. */
  lemma SecondApplicationIsRefused(settings: string, module_: string, other: string)
    requires Configure(settings, module_).Some?
    ensures Configure(Configure(settings, module_).value.0, other).None?
    ensures Configure(other, Configure(settings, module_).value.1).None?
  {
    hide Lex, Tokens, Allowed, Scan;
    var changed := Configure(settings, module_).value;
    ChangedModuleIsRefused(module_);
    ChangedSettingsAreRefused(settings);
    assert FindBlock(changed.1, "plugins", true).Denied?;
    assert FindBlock(changed.0, "pluginManagement", false).Denied?;
  }

  lemma ChangedModuleIsRefused(module_: string)
    requires FindBlock(module_, "plugins", true).Inside?
    ensures var at := FindBlock(module_, "plugins", true).at;
            at <= |module_| && Tokens(InsertAt(module_, at, ModuleInsert())).None?
  {
    hide Lex;
    ModuleKeepsTokens(module_);
    var at, tokens := FindBlock(module_, "plugins", true).at, Tokens(module_).value;
    var all := tokens[..2] + ModuleTokens(at, 1) + ShiftAll(tokens[2..], 37);
    assert all[3] == ModuleTokens(at, 1)[1];
    var value := "'" + PLUGIN + "'";
    assert value[1..1 + |PLUGIN|] == PLUGIN;
    assert OccursAt(value, PLUGIN, 1);
    NotAllowed(InsertAt(module_, at, ModuleInsert()), all, 3);
  }

  lemma ChangedSettingsAreRefused(settings: string)
    requires !FindBlock(settings, "pluginManagement", false).Denied?
    ensures match FindBlock(settings, "pluginManagement", false)
            case Inside(at) => at <= |settings| && Tokens(InsertAt(settings, at, SettingsInsert())).None?
            case Absent => Tokens("pluginManagement {" + SettingsInsert() + "}\n" + settings).None?
            case Denied => true
  {
    hide Lex, Scan, PolicyOk, SourceOk, Tokens;
    match FindBlock(settings, "pluginManagement", false)
    case Inside(at) =>
      SettingsKeepTokens(settings);
      var tokens := Tokens(settings).value;
      var all := tokens[..2] + SettingsTokens(at, 1) + ShiftAll(tokens[2..], 41);
      assert all[2] == SettingsTokens(at, 1)[0];
      NotAllowed(InsertAt(settings, at, SettingsInsert()), all, 2);
    case Denied =>
    case Absent =>
      SettingsGetABlock(settings);
      var all := NewBlock() + ShiftAll(Tokens(settings).value, 61);
      assert all[2] == SettingsTokens(18, 1)[0];
      NotAllowed("pluginManagement {" + SettingsInsert() + "}\n" + settings, all, 2);
  }
}
