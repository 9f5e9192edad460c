/** The YANG reader's tokenizer and recursive-descent parser, and the printer they invert. */
module YangSyntax {
  import opened Text

  datatype Token = Token(text: string, quoted: bool)

  datatype Stmt = Stmt(keyword: string, arg: Option<string>, children: seq<Stmt>)

  const OPEN := Token("{", false)
  const CLOSE := Token("}", false)
  const SEMI := Token(";", false)
  const PLUS := Token("+", false)

  // ---------------------------------------------------------------- tokens

  function Unescape(c: char): char {
    if c == 'n' then '\n' else if c == 't' then '\t' else c
  }

  /** Position of the quote that closes a string whose contents start at `j`. */
  function QuoteEnd(t: string, j: nat, q: char): (r: nat)
    ensures j <= r
    decreases |t| - j
  {
    if j >= |t| || t[j] == q then j
    else QuoteEnd(t, if q == '"' && t[j] == '\\' && j + 1 < |t| then j + 2 else j + 1, q)
  }

  /** The contents of that string, escapes resolved. */
  function QuoteText(t: string, j: nat, q: char): string
    decreases |t| - j
  {
    if j >= |t| || t[j] == q then ""
    else if q == '"' && t[j] == '\\' && j + 1 < |t| then [Unescape(t[j + 1])] + QuoteText(t, j + 2, q)
    else [t[j]] + QuoteText(t, j + 1, q)
  }

  predicate EndsWord(c: char) { IsSpace(c) || c == '{' || c == '}' || c == ';' }

  function WordEnd(t: string, j: nat): (r: nat)
    requires j <= |t|
    ensures j <= r <= |t|
    decreases |t| - j
  {
    if j < |t| && !EndsWord(t[j]) then WordEnd(t, j + 1) else j
  }

  /** What the tokenizer does at the start of a text: how far it moves, and the token it yields, if any. */
  function Bite(t: string): (r: (seq<Token>, nat))
    requires t != ""
    ensures 1 <= r.1
  {
    var c := t[0];
    if IsSpace(c) then ([], 1)
    else if At(t, 0, "//") then var j := Find(t, "\n", 0); ([], if j < 1 then |t| else j)
    else if At(t, 0, "/*") then var j := Find(t, "*/", 2); ([], if j < 0 then |t| else j + 2)
    else if c == '{' || c == '}' || c == ';' || c == '+' then ([Token([c], false)], 1)
    else if c == '"' || c == '\'' then ([Token(QuoteText(t, 1, c), true)], QuoteEnd(t, 1, c) + 1)
    else var j := WordEnd(t, 1); ([Token(t[..j], false)], j)
  }

  function Drop(t: string, n: nat): string { if n <= |t| then t[n..] else "" }

  function Lex(t: string): seq<Token>
    decreases |t|
  {
    if t == "" then [] else Bite(t).0 + Lex(Drop(t, Bite(t).1))
  }

  // ---------------------------------------------------------------- spelling tokens, with white space and comments between them

  datatype Gap = Blank(c: char) | LineRemark(text: string) | BlockRemark(text: string)

  datatype QuotedChar = Raw(c: char) | Escaped(c: char)

  datatype Lexeme = Skip(gap: Gap) | Mark(c: char) | Quote(q: char, body: seq<QuotedChar>) | Word(w: string)

  predicate LegalGap(g: Gap) {
    match g
    case Blank(c) => IsSpace(c)
    case LineRemark(s) => '\n' !in s
    case BlockRemark(s) => forall j: nat :: j < |s| ==> !At(s + "*/", j, "*/")
  }

  /** A name or an unquoted argument: it would be read as nothing else. */
  predicate LegalWord(w: string) {
    && w != "" && (forall i :: 0 <= i < |w| ==> !EndsWord(w[i]))
    && w[0] != '+' && w[0] != '"' && w[0] != '\'' && !At(w, 0, "//") && !At(w, 0, "/*")
  }

  predicate LegalLexeme(l: Lexeme) {
    match l
    case Skip(g) => LegalGap(g)
    case Mark(c) => c == '{' || c == '}' || c == ';' || c == '+'
    case Quote(q, body) =>
      && (q == '"' || q == '\'')
      && forall x :: x in body ==> (if q == '"' then x.Raw? ==> x.c != '"' && x.c != '\\' else x.Raw? && x.c != '\'')
    case Word(w) => LegalWord(w)
  }

  function SpellBody(body: seq<QuotedChar>): string {
    if body == [] then ""
    else (match body[0] case Raw(c) => [c] case Escaped(c) => ['\\', c]) + SpellBody(body[1..])
  }

  function Meaning(body: seq<QuotedChar>): string {
    if body == [] then ""
    else [match body[0] case Raw(c) => c case Escaped(c) => Unescape(c)] + Meaning(body[1..])
  }

  function Spell(l: Lexeme): string {
    match l
    case Skip(Blank(c)) => [c]
    case Skip(LineRemark(s)) => "//" + s + "\n"
    case Skip(BlockRemark(s)) => "/*" + s + "*/"
    case Mark(c) => [c]
    case Quote(q, body) => [q] + SpellBody(body) + [q]
    case Word(w) => w
  }

  function TokenOf(l: Lexeme): seq<Token> {
    match l
    case Skip(_) => []
    case Mark(c) => [Token([c], false)]
    case Quote(_, body) => [Token(Meaning(body), true)]
    case Word(w) => [Token(w, false)]
  }

  function SpellAll(ls: seq<Lexeme>): string { if ls == [] then "" else Spell(ls[0]) + SpellAll(ls[1..]) }

  function TokensOf(ls: seq<Lexeme>): seq<Token> { if ls == [] then [] else TokenOf(ls[0]) + TokensOf(ls[1..]) }

  /** A word runs on until white space, a brace or a semicolon, so one of these must come next. */
  predicate Separated(l: Lexeme, next: string) {
    l.Word? && next != "" ==> EndsWord(next[0])
  }

  predicate LegalLayout(ls: seq<Lexeme>) {
    ls != [] ==> LegalLexeme(ls[0]) && Separated(ls[0], SpellAll(ls[1..])) && LegalLayout(ls[1..])
  }

  lemma {:induction false} QuoteReads(t: string, j: nat, q: char, body: seq<QuotedChar>)
    requires LegalLexeme(Quote(q, body)) && j <= |t| && SpellBody(body) + [q] <= t[j..]
    ensures QuoteEnd(t, j, q) == j + |SpellBody(body)| && QuoteText(t, j, q) == Meaning(body)
    decreases |body|
  {
    var s := SpellBody(body) + [q];
    assert forall i :: 0 <= i < |s| ==> t[j + i] == t[j..][i] == s[i];
    if body != [] {
      var n := if body[0].Raw? then 1 else 2;
      assert SpellBody(body)[n..] == SpellBody(body[1..]);
      assert t[j + n..] == t[j..][n..] && s[n..] == SpellBody(body[1..]) + [q];
      QuoteReads(t, j + n, q, body[1..]);
    }
  }

  lemma {:induction false} WordReads(w: string, next: string, j: nat)
    requires LegalWord(w) && j <= |w| && Separated(Word(w), next)
    ensures WordEnd(w + next, j) == |w|
    decreases |w| - j
  {
    if j < |w| { WordReads(w, next, j + 1); }
  }

  lemma WordBite(w: string, next: string)
    requires LegalWord(w) && Separated(Word(w), next)
    ensures Bite(w + next) == ([Token(w, false)], |w|)
  {
    var t := w + next;
    assert t[0] == w[0];
    if At(t, 0, "//") || At(t, 0, "/*") {
      AtFirst(t, if At(t, 0, "//") then "//" else "/*");
      assert |w| >= 2;
      assert w[0..2] == t[0..2];
    }
    WordReads(w, next, 1);
    assert t[..|w|] == w;
  }

  lemma QuoteBite(q: char, body: seq<QuotedChar>, next: string)
    requires LegalLexeme(Quote(q, body))
    ensures Bite(Spell(Quote(q, body)) + next) == ([Token(Meaning(body), true)], |Spell(Quote(q, body))|)
  {
    var t := Spell(Quote(q, body)) + next;
    assert t[0] == q && t[1..] == SpellBody(body) + [q] + next;
    if At(t, 0, "//") { AtFirst(t, "//"); }
    if At(t, 0, "/*") { AtFirst(t, "/*"); }
    QuoteReads(t, 1, q, body);
  }

  lemma MarkBite(c: char, next: string)
    requires LegalLexeme(Mark(c))
    ensures Bite([c] + next) == ([Token([c], false)], 1)
  {
    var t := [c] + next;
    if At(t, 0, "//") { AtFirst(t, "//"); }
    if At(t, 0, "/*") { AtFirst(t, "/*"); }
  }

  lemma BlockRemarkBite(s: string, next: string)
    requires LegalGap(BlockRemark(s))
    ensures Bite("/*" + s + "*/" + next) == ([], |s| + 4)
  {
    var t := "/*" + s + "*/" + next;
    assert t[0..2] == "/*" && t[0] == '/' && t[1] == '*';
    forall j: nat | 2 <= j < 2 + |s| ensures !At(t, j, "*/") {
      var i: nat := j - 2;
      assert t[j..j + 2] == (s + "*/")[i..i + 2];
      assert !At(s + "*/", i, "*/");
    }
    assert t[2 + |s|..4 + |s|] == "*/";
    FindIs(t, "*/", 2, 2 + |s|);
    if At(t, 0, "//") { AtFirst(t, "//"); }
  }

  /** The tokenizer leaves the line break of a `//` comment to be skipped as white space. */
  lemma LineRemarkBite(s: string, next: string)
    requires '\n' !in s
    ensures Bite("//" + s + "\n" + next) == ([], |s| + 2)
    ensures Drop("//" + s + "\n" + next, |s| + 2) == "\n" + next
  {
    var t, n := "//" + s + "\n" + next, |s| + 2;
    assert t[0..2] == "//" && t[0] == '/';
    assert forall i :: 0 <= i < n ==> t[i] == ("//" + s)[i] && t[i] != '\n';
    forall j: nat | j < n ensures !At(t, j, "\n") { assert t[j..j + 1][0] == t[j]; }
    assert t[n..n + 1] == "\n";
    FindIs(t, "\n", 0, n);
  }

  /** One lexeme is read as its token, and reading goes on right after it. */
  lemma LexOne(l: Lexeme, next: string)
    requires LegalLexeme(l) && Separated(l, next)
    ensures Lex(Spell(l) + next) == TokenOf(l) + Lex(next)
  {
    var t := Spell(l) + next;
    hide LegalGap, LegalWord, SpellBody, Meaning, QuoteText, QuoteEnd, WordEnd, Find, At;
    match l
    case Skip(Blank(c)) =>
      assert LegalGap(Blank(c)) ==> IsSpace(c) by { BlankIsSpace(c); }
      assert t[1..] == next && [] + Lex(next) == Lex(next);
    case Skip(LineRemark(s)) =>
      LineRemarkIsLegal(s);
      LineRemarkBite(s, next);
      assert ("\n" + next)[1..] == next && [] + Lex(next) == Lex(next);
      LexBlank('\n', next);
      hide Bite, Drop;
    case Skip(BlockRemark(s)) =>
      BlockRemarkBite(s, next);
      assert t[|s| + 4..] == next && [] + Lex(next) == Lex(next);
    case Mark(c) => MarkBite(c, next); assert t[1..] == next;
    case Quote(q, body) => QuoteBite(q, body, next); assert t[|Spell(l)|..] == next;
    case Word(w) => WordBite(w, next); assert t[|w|..] == next;
  }

  lemma BlankIsSpace(c: char)
    ensures LegalGap(Blank(c)) == IsSpace(c)
  {
  }

  lemma LineRemarkIsLegal(s: string)
    ensures LegalGap(LineRemark(s)) == ('\n' !in s)
  {
  }

  lemma LexBlank(c: char, next: string)
    requires IsSpace(c)
    ensures Lex([c] + next) == Lex(next)
  {
    assert ([c] + next)[1..] == next && [] + Lex(next) == Lex(next);
  }

  /** Tokenizing any legal layout of tokens gives the tokens. */
  lemma {:induction false} LexReads(ls: seq<Lexeme>)
    requires LegalLayout(ls)
    ensures Lex(SpellAll(ls)) == TokensOf(ls)
  {
    if ls != [] {
      LexReads(ls[1..]);
      LexOne(ls[0], SpellAll(ls[1..]));
    }
  }

  // ---------------------------------------------------------------- the parser

  /** The rest of an argument: `+` and the token after it, as long as both are there. */
  function ParseArg(a: string, ts: seq<Token>): (r: (string, seq<Token>))
    ensures |r.1| <= |ts|
    decreases |ts|
  {
    if |ts| >= 2 && ts[0] == PLUS then ParseArg(a + ts[1].text, ts[2..]) else (a, ts)
  }

  function Tail(ts: seq<Token>): seq<Token> { if ts == [] then [] else ts[1..] }

  /** One statement: keyword, argument, and a block, a semicolon or nothing. */
  function ParseStmt(ts: seq<Token>): (r: (Stmt, seq<Token>))
    requires ts != []
    ensures |r.1| < |ts|
    decreases |ts|, 0
  {
    var (arg, body) := ParseHead(ts[1..]);
    if body != [] && body[0] == OPEN then
      var (children, left) := Parse(body[1..]);
      (Stmt(ts[0].text, arg, children), Tail(left))
    else (Stmt(ts[0].text, arg, []), if body != [] && body[0] == SEMI then body[1..] else body)
  }

  /** `statements()` on the tokens from the cursor on: the statements and the tokens left. */
  function Parse(ts: seq<Token>): (r: (seq<Stmt>, seq<Token>))
    ensures |r.1| <= |ts|
    decreases |ts|, 1
  {
    if ts == [] || ts[0] == CLOSE then ([], ts)
    else
      var (s, left) := ParseStmt(ts);
      var (more, rest) := Parse(left);
      ([s] + more, rest)
  }

  function ParseHead(ts: seq<Token>): (r: (Option<string>, seq<Token>))
    ensures |r.1| <= |ts|
  {
    if ts == [] || ts[0] == OPEN || ts[0] == SEMI then (None, ts)
    else var (a, rest) := ParseArg(ts[0].text, ts[1..]); (Some(a), rest)
  }

  /** `parse(text)` */
  function ParseText(t: string): seq<Stmt> { Parse(Lex(t)).0 }

  // ---------------------------------------------------------------- concrete trees: how an argument is pieced together, and which ending

  datatype Node = Node(keyword: string, pieces: seq<Token>, children: seq<Node>, braces: bool)

  function Concat(pieces: seq<Token>): string { if pieces == [] then "" else pieces[0].text + Concat(pieces[1..]) }

  function ArgOf(pieces: seq<Token>): Option<string> { if pieces == [] then None else Some(Concat(pieces)) }

  function EraseAll(ns: seq<Node>): seq<Stmt> {
    if ns == [] then [] else [Stmt(ns[0].keyword, ArgOf(ns[0].pieces), EraseAll(ns[0].children))] + EraseAll(ns[1..])
  }

  predicate LegalTree(ns: seq<Node>) {
    ns != [] ==>
      && LegalWord(ns[0].keyword) && LegalPieces(ns[0].pieces)
      && (ns[0].children != [] ==> ns[0].braces) && LegalTree(ns[0].children) && LegalTree(ns[1..])
  }

  predicate LegalPieces(pieces: seq<Token>) {
    forall p :: p in pieces ==> p.quoted || LegalWord(p.text)
  }

  function Joined(pieces: seq<Token>): seq<Token> {
    if pieces == [] then [] else [PLUS, pieces[0]] + Joined(pieces[1..])
  }

  function ArgTokens(pieces: seq<Token>): seq<Token> { Tail(Joined(pieces)) }

  function BodyTokens(n: Node): seq<Token> {
    if n.braces then [OPEN] + (TreeTokens(n.children) + [CLOSE]) else [SEMI]
  }

  function TreeTokens(ns: seq<Node>): seq<Token> {
    if ns == [] then []
    else [Token(ns[0].keyword, false)] + (ArgTokens(ns[0].pieces) + (BodyTokens(ns[0]) + TreeTokens(ns[1..])))
  }

  lemma WordIsNotMark(w: string)
    requires LegalWord(w)
    ensures w != "{" && w != "}" && w != ";" && w != "+"
  {
  }

  lemma {:induction false} ArgJoins(a: string, pieces: seq<Token>, rest: seq<Token>)
    requires rest != [] && rest[0] != PLUS
    ensures ParseArg(a, Joined(pieces) + rest) == (a + Concat(pieces), rest)
    decreases |pieces|
  {
    var ts := Joined(pieces) + rest;
    if pieces == [] {
      assert ts == rest && a + "" == a;
    } else {
      assert ts[2..] == Joined(pieces[1..]) + rest;
      ArgJoins(a + pieces[0].text, pieces[1..], rest);
      assert a + pieces[0].text + Concat(pieces[1..]) == a + Concat(pieces);
    }
  }

  lemma HeadParses(pieces: seq<Token>, rest: seq<Token>)
    requires LegalPieces(pieces) && rest != [] && (rest[0] == OPEN || rest[0] == SEMI)
    ensures ParseHead(ArgTokens(pieces) + rest) == (ArgOf(pieces), rest)
  {
    if pieces == [] {
      assert ArgTokens(pieces) + rest == rest;
    } else {
      var p, joined := pieces[0], Joined(pieces[1..]);
      if !p.quoted { WordIsNotMark(p.text); }
      assert p != OPEN && p != SEMI;
      assert ArgTokens(pieces) == [p] + joined;
      assert ArgOf(pieces) == Some(p.text + Concat(pieces[1..]));
      HeadUnfolds(p, joined + rest);
      ArgJoins(p.text, pieces[1..], rest);
      hide *;
      Assoc([p], joined, rest);
    }
  }

  lemma HeadUnfolds(p: Token, ts: seq<Token>)
    requires p != OPEN && p != SEMI
    ensures ParseHead([p] + ts) == (Some(ParseArg(p.text, ts).0), ParseArg(p.text, ts).1)
  {
    assert ([p] + ts)[1..] == ts;
  }

  /** Parsing the tokens of a tree gives the tree, and stops right after it. */
  lemma {:induction false} ParseTree(ns: seq<Node>, rest: seq<Token>)
    requires LegalTree(ns) && (rest != [] ==> rest[0] == CLOSE)
    ensures Parse(TreeTokens(ns) + rest) == (EraseAll(ns), rest)
    decreases ns
  {
    if ns == [] {
      assert TreeTokens(ns) + rest == rest;
    } else {
      var n := ns[0];
      var tail := TreeTokens(ns[1..]) + rest;
      var body := BodyTokens(n) + tail;
      var ts := TreeTokens(ns) + rest;
      assert EraseAll(ns) == [Stmt(n.keyword, ArgOf(n.pieces), EraseAll(n.children))] + EraseAll(ns[1..]);
      assert ns == [n] + ns[1..];
      ParseTree(ns[1..], rest);
      if n.braces { ParseTree(n.children, [CLOSE] + tail); }
      WordIsNotMark(n.keyword);
      hide *;
      TreeTokensCons(n, ns[1..], rest);
      BodyShape(n, tail);
      HeadParses(n.pieces, body);
      assert ts[1..] == ArgTokens(n.pieces) + body;
      ParseStep(ts, n, body, tail, rest, EraseAll(ns[1..]));
    }
  }

  lemma BodyShape(n: Node, tail: seq<Token>)
    ensures var body := BodyTokens(n) + tail;
      && body != []
      && (if n.braces then body[0] == OPEN && body[1..] == TreeTokens(n.children) + ([CLOSE] + tail)
          else body[0] == SEMI && body[1..] == tail)
  {
    if n.braces {
      assert (BodyTokens(n) + tail)[1..] == TreeTokens(n.children) + ([CLOSE] + tail);
    } else {
      assert (BodyTokens(n) + tail)[1..] == tail;
    }
  }

  lemma ParseStep(ts: seq<Token>, n: Node, body: seq<Token>, tail: seq<Token>, rest: seq<Token>, more: seq<Stmt>)
    requires ts != [] && ts[0] == Token(n.keyword, false) && n.keyword != "}"
    requires ParseHead(ts[1..]) == (ArgOf(n.pieces), body) && body != [] && Parse(tail) == (more, rest)
    requires if n.braces then body[0] == OPEN && Parse(body[1..]) == (EraseAll(n.children), [CLOSE] + tail)
             else body[0] == SEMI && body[1..] == tail && n.children == []
    ensures Parse(ts) == ([Stmt(n.keyword, ArgOf(n.pieces), EraseAll(n.children))] + more, rest)
  {
    assert ([CLOSE] + tail)[1..] == tail;
  }

  /**
   * Round trip: every legal layout of the tokens of a tree, with any white space, comments, quoting and splitting with `+`,
   * parses to the tree.
   */
  lemma {:induction false} RoundTrip(ns: seq<Node>, ls: seq<Lexeme>)
    requires LegalTree(ns) && LegalLayout(ls) && TokensOf(ls) == TreeTokens(ns)
    ensures ParseText(SpellAll(ls)) == EraseAll(ns)
  {
    LexReads(ls);
    ParseTree(ns, []);
    assert TreeTokens(ns) + [] == TreeTokens(ns);
  }

  // ---------------------------------------------------------------- a printer for every tree

  function EscapeAll(s: string): seq<QuotedChar> {
    if s == "" then [] else [if s[0] == '"' || s[0] == '\\' then Escaped(s[0]) else Raw(s[0])] + EscapeAll(s[1..])
  }

  function ArgLayout(a: Option<string>): seq<Lexeme> { match a case None => [] case Some(s) => [Quote('"', EscapeAll(s))] }

  function ArgPieces(a: Option<string>): seq<Token> { match a case None => [] case Some(s) => [Token(s, true)] }

  /** The lexemes of a list of statements followed by `rest`. */
  function Layout(ss: seq<Stmt>, rest: seq<Lexeme>): seq<Lexeme>
    decreases ss
  {
    if ss == [] then rest
    else
      [Word(ss[0].keyword), Skip(Blank(' '))]
      + (ArgLayout(ss[0].arg)
         + (var tail := Layout(ss[1..], rest);
            if ss[0].children == [] then [Mark(';')] + tail
            else [Mark('{')] + Layout(ss[0].children, [Mark('}')] + tail)))
  }

  function Print(ss: seq<Stmt>): string { SpellAll(Layout(ss, [])) }

  predicate LegalKeywords(ss: seq<Stmt>) {
    ss != [] ==> LegalWord(ss[0].keyword) && LegalKeywords(ss[0].children) && LegalKeywords(ss[1..])
  }

  function PlainOne(s: Stmt): Node {
    Node(s.keyword, ArgPieces(s.arg), Plain(s.children), s.children != [])
  }

  function Plain(ss: seq<Stmt>): seq<Node> {
    if ss == [] then [] else [PlainOne(ss[0])] + Plain(ss[1..])
  }

  lemma {:induction false} PlainIsLegal(ss: seq<Stmt>)
    requires LegalKeywords(ss)
    ensures LegalTree(Plain(ss)) && EraseAll(Plain(ss)) == ss
    decreases ss
  {
    if ss != [] {
      PlainIsLegal(ss[0].children);
      PlainIsLegal(ss[1..]);
      var n := Plain(ss)[0];
      assert Plain(ss)[1..] == Plain(ss[1..]);
      match ss[0].arg
      case None =>
      case Some(a) =>
        assert n.pieces[1..] == [] && Concat(n.pieces) == a + "" == a;
    }
  }

  lemma {:induction false} EscapeReads(s: string)
    ensures Meaning(EscapeAll(s)) == s && LegalLexeme(Quote('"', EscapeAll(s)))
  {
    if s != "" { EscapeReads(s[1..]); }
  }

  lemma LegalCons(l: Lexeme, ls: seq<Lexeme>)
    requires LegalLexeme(l) && !l.Word? && LegalLayout(ls)
    ensures LegalLayout([l] + ls) && TokensOf([l] + ls) == TokenOf(l) + TokensOf(ls)
  {
    assert ([l] + ls)[1..] == ls;
  }

  lemma LegalWordBlank(w: string, ls: seq<Lexeme>)
    requires LegalWord(w) && LegalLayout(ls)
    ensures LegalLayout([Word(w), Skip(Blank(' '))] + ls)
    ensures TokensOf([Word(w), Skip(Blank(' '))] + ls) == [Token(w, false)] + TokensOf(ls)
  {
    hide LegalWord;
    LegalCons(Skip(Blank(' ')), ls);
    var all := [Word(w), Skip(Blank(' '))] + ls;
    assert all[1..] == [Skip(Blank(' '))] + ls;
    assert SpellAll(all[1..]) == " " + SpellAll(ls) by { assert all[1..][1..] == ls; }
    assert [] + TokensOf(ls) == TokensOf(ls);
  }

  lemma {:induction false} LayoutIsLegal(ss: seq<Stmt>, rest: seq<Lexeme>)
    requires LegalKeywords(ss) && LegalLayout(rest)
    ensures LegalLayout(Layout(ss, rest))
    ensures TokensOf(Layout(ss, rest)) == TreeTokens(Plain(ss)) + TokensOf(rest)
    decreases ss
  {
    if ss == [] {
      assert [] + TokensOf(rest) == TokensOf(rest);
    } else {
      var tail := Layout(ss[1..], rest);
      var inner := [Mark('}')] + tail;
      LayoutIsLegal(ss[1..], rest);
      LegalCons(Mark('}'), tail);
      if ss[0].children != [] { LayoutIsLegal(ss[0].children, inner); }
      BodyIsLegal(ss[0], tail);
      ArgIsLegal(ss[0].arg, BodyLayout(ss[0], tail));
      LayoutCons(ss, rest);
      assert Plain(ss) == [PlainOne(ss[0])] + Plain(ss[1..]);
      assert PlainOne(ss[0]).keyword == ss[0].keyword && PlainOne(ss[0]).pieces == ArgPieces(ss[0].arg);
      hide *;
      LegalWordBlank(ss[0].keyword, ArgLayout(ss[0].arg) + BodyLayout(ss[0], tail));
      TreeTokensCons(PlainOne(ss[0]), Plain(ss[1..]), TokensOf(rest));
    }
  }

  function BodyLayout(s: Stmt, tail: seq<Lexeme>): seq<Lexeme> {
    if s.children == [] then [Mark(';')] + tail else [Mark('{')] + Layout(s.children, [Mark('}')] + tail)
  }

  lemma LayoutCons(ss: seq<Stmt>, rest: seq<Lexeme>)
    requires ss != []
    ensures Layout(ss, rest) == [Word(ss[0].keyword), Skip(Blank(' '))] + (ArgLayout(ss[0].arg) + BodyLayout(ss[0], Layout(ss[1..], rest)))
  {
  }

  lemma BodyIsLegal(s: Stmt, tail: seq<Lexeme>)
    requires LegalLayout(tail)
    requires s.children != [] ==>
      var inner := Layout(s.children, [Mark('}')] + tail);
      LegalLayout(inner) && TokensOf(inner) == TreeTokens(Plain(s.children)) + ([CLOSE] + TokensOf(tail))
    ensures LegalLayout(BodyLayout(s, tail))
    ensures TokensOf(BodyLayout(s, tail)) == BodyTokens(PlainOne(s)) + TokensOf(tail)
  {
    if s.children == [] {
      LegalCons(Mark(';'), tail);
    } else {
      var inner := Layout(s.children, [Mark('}')] + tail);
      assert BodyTokens(PlainOne(s)) == [OPEN] + (TreeTokens(Plain(s.children)) + [CLOSE]);
      assert BodyLayout(s, tail) == [Mark('{')] + inner;
      assert TokenOf(Mark('{')) == [OPEN];
      LegalCons(Mark('{'), inner);
      hide *;
      Assoc(TreeTokens(Plain(s.children)), [CLOSE], TokensOf(tail));
      Assoc([OPEN], TreeTokens(Plain(s.children)) + [CLOSE], TokensOf(tail));
    }
  }

  lemma ArgIsLegal(a: Option<string>, ls: seq<Lexeme>)
    requires LegalLayout(ls)
    ensures LegalLayout(ArgLayout(a) + ls)
    ensures TokensOf(ArgLayout(a) + ls) == ArgTokens(ArgPieces(a)) + TokensOf(ls)
  {
    match a
    case None =>
      assert [] + ls == ls && [] + TokensOf(ls) == TokensOf(ls);
    case Some(s) =>
      EscapeReads(s);
      LegalCons(Quote('"', EscapeAll(s)), ls);
      assert [Token(s, true)][1..] == [];
      assert Joined([Token(s, true)]) == [PLUS, Token(s, true)];
      assert ArgTokens([Token(s, true)]) == [Token(s, true)];
  }

  lemma TreeTokensCons(n: Node, ns: seq<Node>, rest: seq<Token>)
    ensures TreeTokens([n] + ns) + rest
         == [Token(n.keyword, false)] + (ArgTokens(n.pieces) + (BodyTokens(n) + (TreeTokens(ns) + rest)))
  {
    assert ([n] + ns)[1..] == ns;
  }

  /** Every tree with legal keywords, whatever its arguments, survives printing and parsing. */
  lemma PrintRoundTrip(ss: seq<Stmt>)
    requires LegalKeywords(ss)
    ensures ParseText(Print(ss)) == ss
  {
    LayoutIsLegal(ss, []);
    PlainIsLegal(ss);
    var nothing: seq<Lexeme> := [];
    assert TokensOf(nothing) == [] && TreeTokens(Plain(ss)) + [] == TreeTokens(Plain(ss));
    RoundTrip(Plain(ss), Layout(ss, []));
  }

  // ---------------------------------------------------------------- the loops

  method ReadQuoted(text: string, i: nat) returns (contents: string, next: nat)
    requires i < |text|
    ensures contents == QuoteText(text[i..], 1, text[i]) && next == i + QuoteEnd(text[i..], 1, text[i]) + 1
  {
    ghost var t := text[i..];
    var c := text[i];
    var j := i + 1;
    contents := "";
    assert "" + QuoteText(t, 1, c) == QuoteText(t, 1, c);
    while j < |text| && text[j] != c
      invariant i < j
      invariant QuoteEnd(t, j - i, c) == QuoteEnd(t, 1, c)
      invariant contents + QuoteText(t, j - i, c) == QuoteText(t, 1, c)
      decreases |text| - j
    {
      if c == '"' && text[j] == '\\' && j + 1 < |text| {
        Assoc(contents, [Unescape(text[j + 1])], QuoteText(t, j + 2 - i, c));
        contents := contents + [Unescape(text[j + 1])];
        j := j + 2;
      } else {
        Assoc(contents, [text[j]], QuoteText(t, j + 1 - i, c));
        contents := contents + [text[j]];
        j := j + 1;
      }
    }
    next := j + 1;
  }

  method ReadWord(text: string, i: nat) returns (next: nat)
    requires i < |text|
    ensures next == i + WordEnd(text[i..], 1) && i < next <= |text|
  {
    ghost var t := text[i..];
    next := i + 1;
    while next < |text| && !EndsWord(text[next])
      invariant i < next <= |text|
      invariant WordEnd(t, next - i) == WordEnd(t, 1)
    {
      next := next + 1;
    }
  }

  method ReadToken(text: string, i: nat) returns (token: seq<Token>, next: nat)
    requires i < |text|
    ensures (token, next - i) == Bite(text[i..])
  {
    ghost var t := text[i..];
    hide Find, At, QuoteText, QuoteEnd, WordEnd;
    AtShift(text, i, i, "//");
    AtShift(text, i, i, "/*");
    var c := text[i];
    token := [];
    if IsSpace(c) {
      next := i + 1;
    } else if At(text, i, "//") {
      FindShift(text, i, "\n", i);
      var j := Find(text, "\n", i);
      assert j != i by { LineBreakIsLater(text, i); }
      next := if j < 0 then |text| else j;
    } else if At(text, i, "/*") {
      FindShift(text, i, "*/", i + 2);
      var j := Find(text, "*/", i + 2);
      next := if j < 0 then |text| else j + 2;
    } else if c == '{' || c == '}' || c == ';' || c == '+' {
      token, next := [Token([c], false)], i + 1;
    } else if c == '"' || c == '\'' {
      var contents;
      contents, next := ReadQuoted(text, i);
      token := [Token(contents, true)];
    } else {
      next := ReadWord(text, i);
      assert text[i..next] == t[..next - i];
      token := [Token(text[i..next], false)];
    }
  }

  lemma LineBreakIsLater(text: string, i: nat)
    requires i < |text| && At(text, i, "//")
    ensures Find(text, "\n", i) != i
  {
    assert text[i] == text[i..i + 2][0];
    assert text[i..i + 1] == [text[i]];
  }

  method Tokens(text: string) returns (toks: seq<Token>)
    ensures toks == Lex(text)
  {
    hide Bite;
    var i := 0;
    toks := [];
    assert text[0..] == text;
    while i < |text|
      invariant toks + Lex(Drop(text, i)) == Lex(text)
      decreases |text| - i
    {
      var token, next := ReadToken(text, i);
      assert Drop(text[i..], next - i) == Drop(text, next);
      Assoc(toks, token, Lex(Drop(text, next)));
      toks := toks + token;
      i := next;
    }
  }

  /** The parser: a token list and the cursor its nested calls share. */
  class Parser {
    const toks: seq<Token>
    var pos: nat

    constructor (toks: seq<Token>)
      ensures this.toks == toks && pos == 0
    {
      this.toks := toks;
      pos := 0;
    }

    /** The tokens from the cursor on. */
    ghost function Left(): seq<Token>
      reads this
    {
      if pos <= |toks| then toks[pos..] else []
    }

    method Argument() returns (arg: Option<string>)
      modifies this`pos
      ensures old(pos) <= pos
      ensures (arg, Left()) == ParseHead(old(Left()))
    {
      arg := None;
      if pos < |toks| && toks[pos] != OPEN && toks[pos] != SEMI {
        var a := toks[pos].text;
        pos := pos + 1;
        ghost var whole := ParseArg(a, Left());
        while pos + 1 < |toks| && toks[pos] == PLUS
          invariant old(pos) <= pos
          invariant ParseArg(a, Left()) == whole
          decreases |toks| - pos
        {
          assert Left()[2..] == toks[pos + 2..];
          a := a + toks[pos + 1].text;
          pos := pos + 2;
        }
        arg := Some(a);
      }
    }

    method Statement() returns (s: Stmt)
      requires pos < |toks|
      modifies this`pos
      ensures old(pos) < pos
      ensures (s, Left()) == ParseStmt(old(Left()))
      decreases |toks| - pos, 0
    {
      hide Parse, ParseHead;
      var keyword := toks[pos].text;
      ghost var ts := Left();
      pos := pos + 1;
      assert Left() == ts[1..];
      var arg := Argument();
      ghost var body := Left();
      var children := [];
      if pos < |toks| && toks[pos] == OPEN {
        pos := pos + 1;
        assert Left() == body[1..];
        children := Statements();
        ghost var left := Left();
        pos := pos + 1;  // the closing brace
        assert Left() == Tail(left);
      } else if pos < |toks| && toks[pos] == SEMI {
        pos := pos + 1;
        assert Left() == body[1..];
      }
      s := Stmt(keyword, arg, children);
    }

    method Statements() returns (out: seq<Stmt>)
      modifies this`pos
      ensures old(pos) <= pos
      ensures (out, Left()) == Parse(old(Left()))
      decreases |toks| - pos, 1
    {
      hide ParseStmt;
      out := [];
      ghost var all := Parse(Left());
      assert [] + all.0 == all.0;
      while pos < |toks| && toks[pos] != CLOSE
        invariant old(pos) <= pos
        invariant out + Parse(Left()).0 == all.0 && Parse(Left()).1 == all.1
        decreases |toks| - pos
      {
        ghost var ts := Left();
        var s := Statement();
        ParseUnfolds(ts);
        Assoc(out, [s], Parse(Left()).0);
        out := out + [s];
      }
      assert Parse(Left()) == ([], Left()) && out + [] == out;
      assert all == (out, Left());
    }
  }

  lemma ParseUnfolds(ts: seq<Token>)
    requires ts != [] && ts[0] != CLOSE
    ensures var (s, left) := ParseStmt(ts); Parse(ts) == ([s] + Parse(left).0, Parse(left).1)
  {
  }

  method ParseFile(text: string) returns (out: seq<Stmt>)
    ensures out == ParseText(text)
  {
    var toks := Tokens(text);
    var parser := new Parser(toks);
    out := parser.Statements();
  }
}
