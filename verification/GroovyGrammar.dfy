/** The accepted sources, said without the lexer: how each piece is spelled, and what policy and size allow. */
module GroovyGrammar {
  import opened Wrappers
  import opened GroovyLexer

  // ---------------------------------------------------------------------------------------------
  // Pieces
  // ---------------------------------------------------------------------------------------------

  predicate Letter(c: char) {
    ('a' <= c && c <= 'z') || ('A' <= c && c <= 'Z') || c == '_'
  }

  predicate WordChar(c: char) {
    Letter(c) || ('0' <= c && c <= '9')
  }

  /** A comment to the end of its line. */
  predicate Line(text: string, rest: string) {
    && |text| >= 2 && text[0] == '/' && text[1] == '/'
    && (forall k :: 0 <= k < |text| - 1 ==> text[k] != '\n') && (text[|text| - 1] == '\n' || rest == "")
  }

  /** A comment that ends at its first end, without another beginning inside. */
  predicate Enclosed(text: string) {
    && |text| >= 4 && text[0] == '/' && text[1] == '*' && text[|text| - 2] == '*' && text[|text| - 1] == '/'
    && (forall k :: 2 <= k < |text| - 2 ==> !(text[k] == '*' && text[k + 1] == '/'))
    && (forall k :: 2 <= k < |text| - 3 ==> !(text[k] == '/' && text[k + 1] == '*'))
  }

  /** What may stand between the quotes of a string: no line ends, control characters or "$", and three escapes. */
  predicate Inner(body: string, quote: char)
    decreases |body|
  {
    body == "" ||
    if body[0] == '\\' then |body| >= 2 && (body[1] == '\\' || body[1] == '\'' || body[1] == '"') && Inner(body[2..], quote)
    else body[0] != quote && body[0] != '$' && body[0] as int >= 32 && Inner(body[1..], quote)
  }

  /** Two quotes are the empty string only where a third does not follow. */
  predicate Quoted(text: string, rest: string) {
    && |text| >= 2 && (text[0] == '\'' || text[0] == '"') && text[|text| - 1] == text[0]
    && Inner(text[1..|text| - 1], text[0]) && (|text| == 2 && rest != "" ==> rest[0] != text[0])
  }

  /** The text, followed by the rest of a source, is a piece of this kind. */
  predicate Spells(text: string, rest: string, piece: Piece) {
    text != "" &&
    match piece
    case Bad => false
    case Blank(n) => n == |text| && (text[..] == " " || text[..] == "\t" || text[..] == "\n" || Line(text, rest) || Enclosed(text))
    case Lexeme(kind, n) =>
      && n == |text|
      && match kind
         case Text => Quoted(text, rest)
         case Name => Letter(text[0]) && (forall k :: 0 <= k < |text| ==> WordChar(text[k])) && (rest != "" ==> !WordChar(rest[0]))
         case Open => |text| == 1 && text[0] in {'(', '{', '['}
         case Close => |text| == 1 && text[0] in {')', '}', ']'}
         case Punct => |text| == 1 && text[0] in "0123456789.,:=+-*!?&|<>%;"
  }

  lemma {:induction false} TextIsInner(s: string, quote: char, n: nat)
    requires TextLength(s, quote, n).Some? && (quote == '\'' || quote == '"')
    ensures var end := TextLength(s, quote, n).value; n < end <= |s| && s[end - 1] == quote && Inner(s[n..end - 1], quote)
    decreases |s| - n
  {
    var end := TextLength(s, quote, n).value;
    if s[n] == quote {
      assert s[n..end - 1] == "";
    } else if s[n] == '\\' {
      TextIsInner(s, quote, n + 2);
      assert s[n..end - 1][2..] == s[n + 2..end - 1];
    } else {
      TextIsInner(s, quote, n + 1);
      assert s[n..end - 1][1..] == s[n + 1..end - 1];
    }
  }

  lemma {:induction false} InnerIsText(s: string, quote: char, n: nat, m: nat)
    requires n <= m < |s| && Inner(s[n..m], quote) && s[m] == quote && (quote == '\'' || quote == '"')
    ensures TextLength(s, quote, n) == Some(m + 1)
    decreases m - n
  {
    if n < m {
      if s[n] == '\\' {
        assert s[n..m][1] == s[n + 1] && s[n..m][2..] == s[n + 2..m];
        InnerIsText(s, quote, n + 2, m);
      } else {
        assert s[n..m][1..] == s[n + 1..m];
        InnerIsText(s, quote, n + 1, m);
      }
    }
  }

  lemma NameIsWord(s: string)
    requires s != "" && IsNameStart(s[0])
    ensures var n := NameLength(s, 1); Spells(s[..n], s[n..], Lexeme(Name, n))
  {
  }

  lemma {:induction false} WordRuns(s: string, n: nat, m: nat)
    requires n <= m <= |s| && (forall k :: n <= k < m ==> WordChar(s[k])) && (m < |s| ==> !WordChar(s[m]))
    ensures NameLength(s, n) == m
    decreases m - n
  {
    if n < m { WordRuns(s, n + 1, m); }
  }

  lemma CommentIsEnclosed(s: string)
    requires |s| >= 2 && s[0] == '/' && s[1] == '*' && CommentLength(s).Some?
    ensures Enclosed(s[..CommentLength(s).value])
  {
    var end := FindPair(s, '*', '/', 2).value;
    var c := s[..end + 2];
    forall k | 2 <= k < |c| - 2 ensures !(c[k] == '*' && c[k + 1] == '/') { assert !PairAt(s, k, '*', '/'); }
    forall k | 2 <= k < |c| - 3 ensures !(c[k] == '/' && c[k + 1] == '*') { assert !PairAt(s[..end], k, '/', '*'); }
  }

  lemma EnclosedIsComment(text: string, rest: string)
    requires Enclosed(text)
    ensures CommentLength(text + rest) == Some(|text|)
  {
    var s, m := text + rest, |text| - 2;
    assert s[..m] == text[..m];
    assert PairAt(s, m, '*', '/');
    forall k: nat | 2 <= k < m ensures !PairAt(s, k, '*', '/') { assert s[k] == text[k] && s[k + 1] == text[k + 1]; }
    forall k: nat | 2 <= k ensures !PairAt(s[..m], k, '/', '*') { }
  }

  lemma TextIsQuoted(s: string)
    requires s != "" && (s[0] == '\'' || s[0] == '"') && TextLength(s, s[0], 1).Some? && !StartsWith(s, [s[0], s[0], s[0]])
    ensures var n := TextLength(s, s[0], 1).value; Quoted(s[..n], s[n..])
  {
    var n := TextLength(s, s[0], 1).value;
    TextIsInner(s, s[0], 1);
    StartsTriple(s, s[0]);
    assert s[..n][1..n - 1] == s[1..n - 1];
  }

  /** What is scanned is spelled as its kind says. */
  lemma ScannedIsSpelled(s: string)
    requires s != "" && !Scan(s).Bad?
    ensures Spells(s[..Scan(s).length], s[Scan(s).length..], Scan(s))
  {
    hide Quoted, Enclosed, StartsWith;
    var p, c := Scan(s), s[0];
    var text, rest := s[..p.length], s[p.length..];
    if IsBlank(c) {
      assert text == [c];
    } else if PairAt(s, 0, '/', '*') {
      CommentIsEnclosed(s);
    } else if c == '\'' || c == '"' {
      TextIsQuoted(s);
    } else if IsNameStart(c) {
      NameIsWord(s);
    }
  }

  lemma LineScans(text: string, rest: string)
    requires Line(text, rest)
    ensures Scan(text + rest) == Blank(|text|)
  {
    var s := text + rest;
    assert PairAt(s, 0, '/', '/');
    assert forall k :: 0 <= k < |text| ==> s[k] == text[k];
    var end := FindChar(s, '\n', 2);
  }

  lemma EnclosedScans(text: string, rest: string)
    requires Enclosed(text)
    ensures Scan(text + rest) == Blank(|text|)
  {
    hide CommentLength;
    var s := text + rest;
    assert s[0] == text[0] && s[1] == text[1];
    EnclosedIsComment(text, rest);
  }

  lemma QuotedScans(text: string, rest: string)
    requires Quoted(text, rest)
    ensures Scan(text + rest) == Lexeme(Text, |text|)
  {
    hide StartsWith;
    var s := text + rest;
    assert s[0] == text[0] && s[1..|text| - 1] == text[1..|text| - 1] && s[|text| - 1] == text[|text| - 1];
    InnerIsText(s, text[0], 1, |text| - 1);
    NotTriple(text, rest);
  }

  lemma WordScans(text: string, rest: string)
    requires text != "" && Letter(text[0]) && (forall k :: 0 <= k < |text| ==> WordChar(text[k])) && (rest != "" ==> !WordChar(rest[0]))
    ensures Scan(text + rest) == Lexeme(Name, |text|)
  {
    var s := text + rest;
    assert s[0] == text[0] && forall k :: 0 <= k < |text| ==> s[k] == text[k];
    WordRuns(s, 1, |text|);
  }

  /** What is spelled as a kind is scanned as it. */
  lemma SpelledIsScanned(text: string, rest: string, p: Piece)
    requires Spells(text, rest, p)
    ensures Scan(text + rest) == p
  {
    hide Line, Enclosed, Quoted, WordChar, Letter, Scan;
    match p
    case Blank(n) =>
      if Line(text, rest) { LineScans(text, rest); }
      else if Enclosed(text) { EnclosedScans(text, rest); }
      else { BlankScans(text[0], text, rest); }
    case Lexeme(kind, n) =>
      match kind
      case Text => QuotedScans(text, rest);
      case Name => WordScans(text, rest);
      case _ => MarkScans(kind, text[0], text, rest);
  }

  lemma BlankScans(c: char, text: string, rest: string)
    requires text == [c] && (c == ' ' || c == '\t' || c == '\n')
    ensures Scan(text + rest) == Blank(1)
  {
    assert (text + rest)[0] == c;
  }

  lemma MarkScans(kind: Kind, c: char, text: string, rest: string)
    requires text == [c]
    requires (kind == Open && c in {'(', '{', '['}) || (kind == Close && c in {')', '}', ']'}) || (kind == Punct && c in "0123456789.,:=+-*!?&|<>%;")
    ensures Scan(text + rest) == Lexeme(kind, 1)
  {
    assert (text + rest)[0] == c;
    if kind == Punct { PunctIsNothingElse(c); }
  }

  lemma PunctIsNothingElse(c: char)
    requires c in "0123456789.,:=+-*!?&|<>%;"
    ensures c != '/' && c != '\'' && c != '"' && !IsBlank(c) && !IsNameStart(c) && !IsOpen(c) && !IsClose(c)
  {
  }

  lemma StartsTriple(s: string, c: char)
    ensures StartsWith(s, [c, c, c]) <==> |s| >= 3 && s[0] == c && s[1] == c && s[2] == c
  {
    if |s| >= 3 { assert s[..3] == [s[0], s[1], s[2]]; }
  }

  lemma NotTriple(text: string, rest: string)
    requires Quoted(text, rest)
    ensures !StartsWith(text + rest, [text[0], text[0], text[0]])
  {
    StartsTriple(text + rest, text[0]);
    assert |text| > 2 ==> text[1..|text| - 1][0] == text[1];
  }

  /** The lexer reads a piece at the start of a source exactly when the source starts with text that is spelled so. */
  lemma ScanIsExact(s: string, p: Piece)
    requires s != "" && !p.Bad? && 0 < p.length <= |s|
    ensures Scan(s) == p <==> Spells(s[..p.length], s[p.length..], p)
  {
    if Scan(s) == p { ScannedIsSpelled(s); }
    if Spells(s[..p.length], s[p.length..], p) {
      SpelledIsScanned(s[..p.length], s[p.length..], p);
      assert s[..p.length] + s[p.length..] == s;
    }
  }

  // ---------------------------------------------------------------------------------------------
  // Policy and size
  // ---------------------------------------------------------------------------------------------

  /** The UTF-8 encoding of a character. */
  function Encode(c: char): seq<int> {
    var n := c as int;
    if n <= 0x7F then [n]
    else if n <= 0x7FF then [0xC0 + n / 0x40, 0x80 + n % 0x40]
    else if n <= 0xFFFF then [0xE0 + n / 0x1000, 0x80 + n / 0x40 % 0x40, 0x80 + n % 0x40]
    else [0xF0 + n / 0x4_0000, 0x80 + n / 0x1000 % 0x40, 0x80 + n / 0x40 % 0x40, 0x80 + n % 0x40]
  }

  function EncodeAll(s: string): seq<int> {
    if s == "" then [] else Encode(s[0]) + EncodeAll(s[1..])
  }

  lemma {:induction false} EncodedLength(s: string)
    ensures Utf8Length(s) == |EncodeAll(s)|
  {
    if s != "" { EncodedLength(s[1..]); }
  }

  predicate Mentions(s: string, part: string) {
    exists i :: 0 <= i <= |s| && part <= s[i..]
  }

  lemma ContainsIsMentions(s: string, part: string)
    ensures Contains(s, part) <==> Mentions(s, part)
  {
    if Contains(s, part) {
      var k :| 0 <= k <= |s| && OccursAt(s, part, k);
      assert s[k..][..|part|] == part;
    }
    if Mentions(s, part) {
      var i :| 0 <= i <= |s| && part <= s[i..];
      assert s[i..i + |part|] == s[i..][..|part|];
      assert OccursAt(s, part, i);
    }
  }

  predicate Reserved(word: string) {
    || word == "apply" || word == "includeBuild" || word == "import" || word == "class" || word == "interface" || word == "trait"
    || word == "def" || word == "evaluate" || word == "metaClass" || word == "getMetaClass" || word == "setMetaClass"
  }

  /** No string mentions the inserted names, is a reserved word or follows a point; no name is a reserved word; brackets
      are at most 128 deep. */
  predicate Permitted(tokens: seq<Token>, k: nat)
    requires k < |tokens|
  {
    var t := tokens[k];
    && (t.kind == Text ==> !Mentions(t.value, "io.reproof.instrumentation") && !Mentions(t.value, "reproof-build-logic"))
    && (t.kind == Text && |t.value| >= 2 ==> !Reserved(t.value[1..|t.value| - 1]))
    && (t.kind == Text && k >= 1 ==> tokens[k - 1].value != ".")
    && (t.kind == Name ==> !Reserved(t.value)) && (t.kind == Open ==> t.depth <= 127)
  }

  lemma AllowedIsPermitted(tokens: seq<Token>, k: nat)
    requires k < |tokens|
    ensures Allowed(tokens, k) <==> Permitted(tokens, k)
  {
    hide Contains, Mentions;
    ContainsIsMentions(tokens[k].value, PLUGIN);
    ContainsIsMentions(tokens[k].value, LOGIC);
  }

  lemma NoEscapedU(s: string)
    ensures FindPair(s, '\\', 'u', 0).None? <==> forall i :: 0 <= i < |s| - 1 ==> !(s[i] == '\\' && s[i + 1] == 'u')
  {
    var found := FindPair(s, '\\', 'u', 0);
    if found.None? {
      forall i | 0 <= i < |s| - 1 ensures !(s[i] == '\\' && s[i + 1] == 'u') { assert !PairAt(s, i, '\\', 'u'); }
    }
  }

  /** A source is accepted, with the tokens the lexer reads, exactly when it lexes, is at most four mebibytes of UTF-8
      without zero, carriage return or unicode escape, and has at most 200000 tokens, all permitted. */
  lemma AcceptanceIsExact(s: string)
    ensures var lexed := Lex(s, 0, []);
            Tokens(s) ==
              if && |EncodeAll(s)| <= 4_194_304
                 && (forall i :: 0 <= i < |s| ==> s[i] != '\0' && s[i] != '\r')
                 && (forall i :: 0 <= i < |s| - 1 ==> !(s[i] == '\\' && s[i + 1] == 'u'))
                 && lexed.Some? && |lexed.value| <= 200_000 && forall k :: 0 <= k < |lexed.value| ==> Permitted(lexed.value, k)
              then lexed else None
  {
    hide Lex, Allowed, Permitted, Utf8Length, EncodeAll, FindPair;
    EncodedLength(s);
    NoEscapedU(s);
    var lexed := Lex(s, 0, []);
    if lexed.Some? {
      forall k | 0 <= k < |lexed.value| ensures Allowed(lexed.value, k) <==> Permitted(lexed.value, k) { AllowedIsPermitted(lexed.value, k); }
    }
  }
}
