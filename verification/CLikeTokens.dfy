/** The token lists by which the documentation check compares two versions of a Java or SQL file. */
module CLikeTokens {
  import opened Text
  import opened CLikeLexer
  import opened CLikeBlank
  import opened CLikeSegments
  import opened CLikeInsert
  import opened CLikeLiterals

  /** `\w` of the token patterns, which depends on the Unicode tables: any class that excludes white space. */
  ghost predicate WordClass(word: char -> bool) {
    forall c :: word(c) ==> !IsSpace(c)
  }

  function WordRun(t: string, j: nat, word: char -> bool): (r: nat)
    requires j <= |t|
    ensures j <= r <= |t|
    ensures r < |t| ==> !word(t[r])
    ensures forall k :: j <= k < r ==> word(t[k])
    decreases |t| - j
  {
    if j < |t| && word(t[j]) then WordRun(t, j + 1, word) else j
  }

  predicate Has(t: string, i: nat, c: char) { i < |t| && t[i] == c }

  /** The Java operators of two characters that the pattern lists before words. */
  predicate PairOp(c: char, d: char) {
    || (d == '=' && c in "=!<>+-*/%&|^")
    || (c == d && c in ":+-&|")
    || (c == '-' && d == '>')
  }

  /** Length of the token the pattern matches at a character that is not white space. */
  function TokenLength(t: string, sql: bool, word: char -> bool): (n: nat)
    requires t != ""
    ensures 1 <= n <= |t|
  {
    if !sql && |t| >= 2 && PairOp(t[0], t[1]) then 2
    else if !sql && t[0] == '<' && Has(t, 1, '<') then (if Has(t, 2, '=') then 3 else 2)
    else if !sql && t[0] == '.' && Has(t, 1, '.') && Has(t, 2, '.') then 3
    else if word(t[0]) then WordRun(t, 0, word)
    else 1
  }

  /** `findall` of the token pattern over a run of code. */
  function CodeTokens(t: string, sql: bool, word: char -> bool): seq<string>
    decreases |t|
  {
    if t == "" then []
    else if IsSpace(t[0]) then CodeTokens(t[1..], sql, word)
    else var n := TokenLength(t, sql, word); [t[..n]] + CodeTokens(t[n..], sql, word)
  }

  /** Tokens of atoms that follow the pending run of code. */
  function Tokens(a: seq<Atom>, run: string, sql: bool, word: char -> bool): seq<string> {
    if a == [] then CodeTokens(run, sql, word)
    else match a[0]
      case Code(c) => Tokens(a[1..], run + [c], sql, word)
      case Piece(k, s) => CodeTokens(run, sql, word) + ((if k == Literal then [s] else []) + Tokens(a[1..], "", sql, word))
  }

  /** `norm_sql(text)` when `sql`, otherwise `norm_java(text)`. */
  function Norm(text: string, sql: bool, word: char -> bool): seq<string> {
    Tokens(Atoms(text, sql), "", sql, word)
  }

  // ---------------------------------------------------------------- tokens never span white space

  lemma TokenLengthIsLocal(t: string, u: string, sql: bool, word: char -> bool)
    requires WordClass(word)
    requires t != "" && !IsSpace(t[0]) && u != "" && IsSpace(u[0])
    ensures TokenLength(t + u, sql, word) == TokenLength(t, sql, word)
  {
    assert |t| == 1 ==> (t + u)[1] == u[0];
    assert |t| == 2 ==> (t + u)[2] == u[0];
    WordRunIsLocal(t, u, 0, word);
  }

  lemma {:induction false} WordRunIsLocal(t: string, u: string, j: nat, word: char -> bool)
    requires WordClass(word) && j <= |t| && u != "" && IsSpace(u[0])
    ensures WordRun(t + u, j, word) == WordRun(t, j, word)
    decreases |t| - j
  {
    if j < |t| && word(t[j]) { WordRunIsLocal(t, u, j + 1, word); }
  }

  lemma {:induction false} CodeTokensOfSpace(w: string, t: string, sql: bool, word: char -> bool)
    requires AllSpace(w)
    ensures CodeTokens(w + t, sql, word) == CodeTokens(t, sql, word)
  {
    if w == "" {
      assert w + t == t;
    } else {
      assert (w + t)[1..] == w[1..] + t;
      CodeTokensOfSpace(w[1..], t, sql, word);
    }
  }

  /** White space splits a run of code into two independent runs. */
  lemma {:induction false} CodeTokensSplit(t: string, w: string, u: string, sql: bool, word: char -> bool)
    requires WordClass(word) && w != "" && AllSpace(w)
    ensures CodeTokens(t + w + u, sql, word) == CodeTokens(t, sql, word) + CodeTokens(u, sql, word)
    decreases |t|
  {
    var all := t + w + u;
    if t == "" {
      assert all == w + u;
      CodeTokensOfSpace(w, u, sql, word);
    } else {
      var n := if IsSpace(t[0]) then 1 else TokenLength(t, sql, word);
      assert all == t + (w + u) && all[..n] == t[..n] && all[n..] == t[n..] + w + u;
      CodeTokensSplit(t[n..], w, u, sql, word);
      if !IsSpace(t[0]) {
        TokenLengthIsLocal(t, w + u, sql, word);
        assert CodeTokens(all, sql, word) == [t[..n]] + CodeTokens(all[n..], sql, word);
        assert CodeTokens(t, sql, word) == [t[..n]] + CodeTokens(t[n..], sql, word);
        hide *;
        Assoc([t[..n]], CodeTokens(t[n..], sql, word), CodeTokens(u, sql, word));
      }
    }
  }

  /** The same, with the second run still pending. */
  lemma {:induction false} TokensSplit(a: seq<Atom>, t: string, w: string, u: string, sql: bool, word: char -> bool)
    requires WordClass(word) && w != "" && AllSpace(w)
    ensures Tokens(a, t + w + u, sql, word) == CodeTokens(t, sql, word) + Tokens(a, u, sql, word)
    decreases |a|
  {
    if a == [] {
      CodeTokensSplit(t, w, u, sql, word);
    } else {
      match a[0]
      case Code(c) =>
        assert t + w + u + [c] == t + w + (u + [c]);
        TokensSplit(a[1..], t, w, u + [c], sql, word);
      case Piece(k, s) =>
        CodeTokensSplit(t, w, u, sql, word);
        Assoc(CodeTokens(t, sql, word), CodeTokens(u, sql, word), (if k == Literal then [s] else []) + Tokens(a[1..], "", sql, word));
    }
  }

  lemma {:induction false} TokensOfCodes(s: string, a: seq<Atom>, run: string, sql: bool, word: char -> bool)
    ensures Tokens(Codes(s) + a, run, sql, word) == Tokens(a, run + s, sql, word)
    decreases |s|
  {
    if s == "" {
      assert Codes(s) + a == a && run + s == run;
    } else {
      assert (Codes(s) + a)[1..] == Codes(s[1..]) + a;
      assert run + [s[0]] + s[1..] == run + s;
      TokensOfCodes(s[1..], a, run + [s[0]], sql, word);
    }
  }

  // ---------------------------------------------------------------- comments and tokens

  lemma {:induction false} BlankKeepsTokens(a: seq<Atom>, run: string, sql: bool, word: char -> bool)
    requires WordClass(word) && Cut(a)
    ensures Tokens(BlankAtoms(a), run, sql, word) == Tokens(a, run, sql, word)
    decreases |a|
  {
    if a != [] {
      assert a == [a[0]] + a[1..] && Cut(a[1..]);
      BlankCons(a[0], a[1..]);
      match a[0]
      case Code(c) =>
        BlankKeepsTokens(a[1..], run + [c], sql, word);
        TokensOfCodes([c], BlankAtoms(a[1..]), run, sql, word);
        assert Codes([c]) == [Code(c)];
      case Piece(k, s) =>
        BlankKeepsTokens(a[1..], "", sql, word);
        if k == Literal {
          assert BlankAtoms(a)[1..] == BlankAtoms(a[1..]);
        } else {
          TokensOfCodes(Blanked(s), BlankAtoms(a[1..]), run, sql, word);
          TokensSplit(BlankAtoms(a[1..]), run, Blanked(s), "", sql, word);
          assert run + Blanked(s) + "" == run + Blanked(s);
          assert [] + Tokens(a[1..], "", sql, word) == Tokens(a[1..], "", sql, word);
        }
    }
  }

  /** A file and its blanked form have the same tokens. */
  lemma NormIgnoresBlanking(text: string, sql: bool, word: char -> bool)
    requires WordClass(word)
    ensures Norm(Blank(text, sql), sql, word) == Norm(text, sql, word)
  {
    hide Atoms, BlankAtoms, Tokens, Cut, Blank;
    BlankIsInvisible(text, sql);
    AtomsAreCut(text, sql);
    BlankKeepsTokens(Atoms(text, sql), "", sql, word);
  }

  lemma CommentedCuts(k: string, a: seq<Atom>, run: string, sql: bool, word: char -> bool)
    ensures Tokens(Commented(k) + a, run, sql, word) == CodeTokens(run + " ", sql, word) + Tokens(a, " ", sql, word)
  {
    var b := [Code(' ')] + a;
    var c := [Piece(BlockComment, Comment(k))] + b;
    assert Commented(k) + a == [Code(' ')] + c;
    hide Commented, CodeTokens;
    TokensOfCode(' ', c, run, sql, word);
    TokensOfCode(' ', a, "", sql, word);
    assert c[1..] == b && "" + [' '] == " ";
    assert Tokens(c, run + " ", sql, word) == CodeTokens(run + " ", sql, word) + ([] + Tokens(b, "", sql, word));
  }

  lemma NoRun(sql: bool, word: char -> bool)
    ensures CodeTokens("", sql, word) == []
  {
  }

  lemma CommentedTokens(k: string, w: char, a: seq<Atom>, run: string, sql: bool, word: char -> bool)
    requires WordClass(word) && AllSpace([w]) && AllSpace(" ")
    ensures Tokens(Commented(k) + a, run, sql, word) == Tokens([Code(w)] + a, run, sql, word)
  {
    hide *;
    CommentedCuts(k, a, run, sql, word);
    TokensOfCode(w, a, run, sql, word);
    NoRun(sql, word);
    CodeTokensSplit(run, " ", "", sql, word);
    assert run + " " + "" == run + " ";
    TokensSplit(a, "", " ", "", sql, word);
    assert "" + " " + "" == " ";
    TokensSplit(a, run, [w], "", sql, word);
    assert run + [w] + "" == run + [w];
  }

  lemma TokensOfCode(c: char, a: seq<Atom>, run: string, sql: bool, word: char -> bool)
    ensures Tokens([Code(c)] + a, run, sql, word) == Tokens(a, run + [c], sql, word)
  {
    assert ([Code(c)] + a)[1..] == a;
  }

  lemma {:induction false} TokensAfter(p: seq<Atom>, x: seq<Atom>, y: seq<Atom>, run: string, sql: bool, word: char -> bool)
    requires forall r: string :: Tokens(x, r, sql, word) == Tokens(y, r, sql, word)
    ensures Tokens(p + x, run, sql, word) == Tokens(p + y, run, sql, word)
    decreases |p|
  {
    if p == [] {
      assert p + x == x && p + y == y;
    } else {
      assert (p + x)[1..] == p[1..] + x && (p + y)[1..] == p[1..] + y;
      TokensAfter(p[1..], x, y, if p[0].Code? then run + [p[0].c] else "", sql, word);
    }
  }

  lemma CommentedInPlace(a: seq<Atom>, q: nat, k: string, sql: bool, word: char -> bool)
    requires WordClass(word) && q < |a| && a[q].Code? && IsSpace(a[q].c)
    ensures Tokens(a[..q] + Commented(k) + a[q + 1..], "", sql, word) == Tokens(a, "", sql, word)
  {
    var x, y := Commented(k) + a[q + 1..], [Code(a[q].c)] + a[q + 1..];
    assert AllSpace([a[q].c]) && AllSpace(" ");
    hide *;
    forall r: string ensures Tokens(x, r, sql, word) == Tokens(y, r, sql, word) {
      CommentedTokens(k, a[q].c, a[q + 1..], r, sql, word);
    }
    TokensAfter(a[..q], x, y, "", sql, word);
    assert a == a[..q] + y;
    assert a[..q] + Commented(k) + a[q + 1..] == a[..q] + x;
  }

  /** A comment put in place of white space is invisible to the check, unless that white space ends a line comment. */
  lemma InsertKeepsTokens(t: string, q: nat, k: string, sql: bool, word: char -> bool)
    requires WordClass(word) && Inert(k, sql) && q < |Atoms(t, sql)|
    requires var a := Atoms(t, sql); a[q].Code? && IsSpace(a[q].c) && !AfterLineComment(a, q)
    ensures var p := |Spell(Atoms(t, sql)[..q])|;
      p < |t| && IsSpace(t[p]) && Norm(Insert(t, p, k), sql, word) == Norm(t, sql, word)
  {
    hide Atoms, Spell, Inert, Insert, Commented, Tokens, AfterLineComment, WordClass, IsSpace;
    InsertComment(t, q, k, sql);
    CommentedInPlace(Atoms(t, sql), q, k, sql, word);
  }

  lemma AtomsOfExample()
    ensures Atoms("//a\nb", false) == [Piece(LineComment, "//a"), Code('\n'), Code('b')]
  {
    assert Atoms("b", false) == [Code('b')];
    hide LeadOf, First, Width, Atoms;
    AtomsOfSpace("\n", "b", false);
    assert "\n" + "b" == "\nb" && Codes("\n") == [Code('\n')];
    LineCommentIsWhole("a", "\nb", false);
    assert "//" + "a" == "//a" && "//a" + "\nb" == "//a\nb";
    AtomsOfWhole("//a", "\nb", LineComment, false);
  }

  lemma AtomsOfEditedExample()
    ensures Atoms("//a /*k*/ b", false) == [Piece(LineComment, "//a /*k*/ b")]
  {
    hide LeadOf, First, Width, Atoms;
    var u := "//a /*k*/ b";
    LineCommentIsWhole("a /*k*/ b", "", false);
    assert "//" + "a /*k*/ b" == u && u + "" == u;
    AtomsOfWhole(u, "", LineComment, false);
    NoAtoms(false);
  }

  /** The line break after a line comment is not replaceable: the code after it becomes part of the comment. */
  lemma LineBreakMatters(word: char -> bool)
    ensures Norm("//a\nb", false, word) == ["b"]
    ensures Insert("//a\nb", 3, "k") == "//a /*k*/ b" && Norm("//a /*k*/ b", false, word) == []
  {
    hide Atoms;
    AtomsOfExample();
    AtomsOfEditedExample();
    var a := Atoms("//a\nb", false);
    assert a[1..] == [Code('\n'), Code('b')] && a[1..][1..] == [Code('b')];
    assert "\nb"[1..] == "b" && |"b"| == 1;
    assert TokenLength("b", false, word) == 1;
    assert "b"[..1] == "b" && "b"[1..] == "";
    assert CodeTokens("b", false, word) == ["b"] + CodeTokens("", false, word);
    assert CodeTokens("\nb", false, word) == ["b"];
    assert Tokens(a, "", false, word) == CodeTokens("\nb", false, word);
  }

  /** The shortest such text, in front of a text that closes no comment. */
  lemma SlashMatters(v: string)
    requires forall j: nat :: !At(v, j, "*/")
    ensures !Inert("/", true) && Inert("/", false)
    ensures LeadOf(Comment("/") + v, true) == Opens(BlockComment, |Comment("/") + v|)
  {
    assert ("/" + "*")[0..2] == "/*";
    assert At("/" + "*", 0, "/*");
    var t := Comment("/") + v;
    assert t[0..2] == "/*" && t[2..4] == "/*" && t[0] == '/' && t[1] == '*';
    assert At(t, 2, "/*");
    forall j: nat | 4 <= j ensures !At(t, j, "*/") {
      if j + 2 <= |t| {
        if j == 4 {
          assert t[j..j + 2][0] == '/';
        } else {
          var i: nat := j - 5;
          assert t[j..j + 2] == v[i..i + 2];
          assert !At(v, i, "*/");
        }
      }
    }
    NeverClosed(t, 4, 2);
  }

  lemma {:induction false} NeverClosed(t: string, j: nat, depth: nat)
    requires j <= |t| && depth > 0 && forall i: nat :: j <= i ==> !At(t, i, "*/")
    ensures NestedEnd(t, j, depth) == |t|
    decreases |t| - j
  {
    if j < |t| {
      if At(t, j, "/*") { NeverClosed(t, j + 2, depth + 1); } else { NeverClosed(t, j + 1, depth); }
    }
  }

  // ---------------------------------------------------------------- the two exceptions, exactly

  /** A text without a comment delimiter. */
  predicate Undelimited(k: string) {
    forall j: nat :: j < |k| ==> !At(k, j, "*/") && !At(k, j, "/*")
  }

  lemma AtInside(k: string, j: nat, p: string)
    requires |p| == 2 && j < |k|
    ensures j + 1 < |k| ==> At(k + "*", j, p) == At(k, j, p)
    ensures j + 1 == |k| ==> At(k + "*", j, p) == (p == [k[j], '*'])
  {
    if j + 1 < |k| {
      assert (k + "*")[j..j + 2] == k[j..j + 2];
    } else {
      assert (k + "*")[j..j + 2] == [k[j], '*'];
    }
  }

  /** A text without delimiters can stand in any Java comment, and in an SQL one exactly when it does not end in a slash. */
  lemma InertIsNoSlash(k: string)
    requires Undelimited(k)
    ensures Inert(k, false)
    ensures Inert(k, true) <==> (k == "" || k[|k| - 1] != '/')
  {
    forall j: nat | j < |k|
      ensures !At(k + "*", j, "*/") && (At(k + "*", j, "/*") <==> j + 1 == |k| && k[j] == '/')
    {
      AtInside(k, j, "*/");
      AtInside(k, j, "/*");
    }
    if k != "" { AtInside(k, |k| - 1, "/*"); }
  }

  /** Such a text that ends in a slash reopens the comment with its closing mark: the comment runs on, one level deeper. */
  lemma SlashReopens(k: string, v: string)
    requires Undelimited(k) && k != "" && k[|k| - 1] == '/'
    ensures var t := Comment(k) + v;
      && LeadOf(t, true) == Opens(BlockComment, NestedEnd(t, |k| + 3, 2))
      && (v != "" ==> NestedEnd(t, |k| + 3, 2) > |Comment(k)|)
  {
    var t := Comment(k) + v;
    assert t[0..2] == "/*" && t[0] == '/' && t[1] == '*';
    ReachesSlash(k, v, 2);
    assert t[|k| + 3] == '/';
    if v != "" {
      if At(t, |k| + 3, "/*") {
        EndsLater(t, |k| + 5, 3);
      } else {
        AtFirstOf(t, |k| + 3, "*/");
        EndsLater(t, |k| + 4, 2);
      }
    }
  }

  lemma AtFirstOf(t: string, j: nat, p: string)
    requires p != ""
    ensures At(t, j, p) ==> t[j] == p[0]
  {
    if At(t, j, p) { assert t[j..j + |p|][0] == t[j]; }
  }

  lemma EndsLater(t: string, j: nat, depth: nat)
    requires j <= |t| && depth > 0
    ensures j < |t| ==> NestedEnd(t, j, depth) > j
  {
  }

  lemma {:induction false} ReachesSlash(k: string, v: string, j: nat)
    requires Undelimited(k) && k != "" && k[|k| - 1] == '/' && 2 <= j <= |k| + 1
    ensures NestedEnd(Comment(k) + v, j, 1) == NestedEnd(Comment(k) + v, |k| + 3, 2)
    decreases |k| + 1 - j
  {
    var t := Comment(k) + v;
    if j == |k| + 1 {
      assert t[j..j + 2] == "/*";
    } else {
      assert t[j..j + 2] == k[j - 2..j];
      assert !At(k, j - 2, "*/") && !At(k, j - 2, "/*");
      ReachesSlash(k, v, j + 1);
    }
  }

  /** Length of the first line of a text. */
  function FirstLine(t: string): (e: nat)
    ensures e <= |t| && '\n' !in t[..e] && (e < |t| ==> t[e] == '\n')
  {
    if t == "" || t[0] == '\n' then 0
    else
      var e := FirstLine(t[1..]);
      assert t[..e + 1] == [t[0]] + t[1..][..e];
      e + 1
  }

  lemma LineCommentEnds(t: string, n: nat, sql: bool)
    requires t != "" && LeadOf(t, sql) == Opens(LineComment, n) && n < |t|
    ensures 2 <= n && t[..2] == (if sql then "--" else "//") && t[n] == '\n' && '\n' !in t[..n]
  {
    var p := if sql then "--" else "//";
    assert t[0..2] == p && Find(t, "\n", 0) == n;
    assert t[n..n + 1] == "\n";
    forall i | 0 <= i < n ensures t[i] != '\n' {
      assert !At(t, i, "\n");
      assert t[i..i + 1] == [t[i]];
    }
    assert t[0] == p[0] && t[1] == p[1] && p[0] != '\n' && p[1] != '\n';
  }

  lemma CommentHasNoBreak(k: string)
    requires '\n' !in k
    ensures '\n' !in (" " + Comment(k) + " ")
  {
  }

  /** Where the edit takes away the end of a line comment, the comment runs to the next line break. */
  lemma CommentSwallows(t: string, n: nat, k: string, sql: bool)
    requires t != "" && LeadOf(t, sql) == Opens(LineComment, n) && n < |t| && '\n' !in k
    ensures var rest := t[n + 1..]; var e := FirstLine(rest); var u := Insert(t, n, k);
      t[n] == '\n' && exists c :: Atoms(u, sql) == [Piece(LineComment, c)] + Atoms(rest[e..], sql)
  {
    var p := if sql then "--" else "//";
    LineCommentEnds(t, n, sql);
    var rest := t[n + 1..];
    var e := FirstLine(rest);
    var body := t[2..n] + (" " + Comment(k) + " ") + rest[..e];
    CommentHasNoBreak(k);
    assert '\n' !in body by { NoBreak(t, n, k, rest, e); }
    hide LeadOf, Atoms, Comment;
    LineCommentIsWhole(body, rest[e..], sql);
    EditedText(t, n, k, e);
    AtomsOfWhole(t[..2] + body, rest[e..], LineComment, sql);
  }

  lemma NoBreak(t: string, n: nat, k: string, rest: string, e: nat)
    requires 2 <= n <= |t| && '\n' !in t[..n] && '\n' !in (" " + Comment(k) + " ") && e <= |rest| && '\n' !in rest[..e]
    ensures '\n' !in t[2..n] + (" " + Comment(k) + " ") + rest[..e]
  {
    assert t[2..n] == t[..n][2..];
    hide Comment;
  }

  lemma EditedText(t: string, n: nat, k: string, e: nat)
    requires 2 <= n < |t| && e <= |t[n + 1..]|
    ensures var rest := t[n + 1..];
      Insert(t, n, k) == (t[..2] + (t[2..n] + (" " + Comment(k) + " ") + rest[..e])) + rest[e..]
  {
    hide Comment;
    assert t[..n] == t[..2] + t[2..n];
    assert t[n + 1..] == t[n + 1..][..e] + t[n + 1..][e..];
  }

  /** The tokens before a comment and after it are independent. */
  lemma {:induction false} TokensAround(p: seq<Atom>, c: string, b: seq<Atom>, run: string, sql: bool, word: char -> bool)
    ensures Tokens(p + ([Piece(LineComment, c)] + b), run, sql, word) == Tokens(p, run, sql, word) + Tokens(b, "", sql, word)
    decreases |p|
  {
    hide CodeTokens;
    var x := [Piece(LineComment, c)] + b;
    if p == [] {
      assert p + x == x && x[1..] == b;
      assert [] + Tokens(b, "", sql, word) == Tokens(b, "", sql, word);
    } else {
      assert (p + x)[1..] == p[1..] + x;
      TokensAround(p[1..], c, b, if p[0].Code? then run + [p[0].c] else "", sql, word);
      if p[0].Piece? {
        var own := if p[0].kind == Literal then [p[0].text] else [];
        Assoc(own, Tokens(p[1..], "", sql, word), Tokens(b, "", sql, word));
        Assoc(CodeTokens(run, sql, word), own + Tokens(p[1..], "", sql, word), Tokens(b, "", sql, word));
      }
    }
  }

  lemma BreakIsNoToken(rest: string, sql: bool, word: char -> bool)
    requires WordClass(word)
    ensures Norm("\n" + rest, sql, word) == Norm(rest, sql, word)
  {
    AtomsOfSpace("\n", rest, sql);
    assert Codes("\n") == [Code('\n')] && "" + ['\n'] == "\n" && "" + "\n" + "" == "\n";
    hide Atoms, CodeTokens;
    TokensOfCode('\n', Atoms(rest, sql), "", sql, word);
    TokensSplit(Atoms(rest, sql), "", "\n", "", sql, word);
    NoRun(sql, word);
  }

  /** The place of a line break behind a piece, and the scan of what follows the piece. */
  ghost predicate Broken(t: string, q: nat, p: nat, sql: bool) {
    var a := Atoms(t, sql);
    && 0 < q <= |a|
    && p == |Spell(a[..q])| && 0 < p < |t| && t[p] == '\n'
    && a == a[..q - 1] + ([a[q - 1]] + Atoms("\n" + t[p + 1..], sql))
  }

  /** The scan of the edited text: all before the comment as it was, a longer comment `c`, and the scan from the next line on. */
  ghost predicate Swallowed(t: string, q: nat, p: nat, c: string, k: string, sql: bool) {
    && Broken(t, q, p, sql)
    && var rest := t[p + 1..];
      Atoms(Insert(t, p, k), sql) == Atoms(t, sql)[..q - 1] + ([Piece(LineComment, c)] + Atoms(rest[FirstLine(rest)..], sql))
  }

  lemma {:induction false} InsertAfterComment(t: string, q: nat, k: string, sql: bool) returns (p: nat, c: string)
    requires '\n' !in k && q < |Atoms(t, sql)| && AfterLineComment(Atoms(t, sql), q) && Atoms(t, sql)[q].Code?
    ensures Swallowed(t, q, p, c, k, sql)
    decreases q
  {
    hide LeadOf;
    var n := Width(t, sql);
    assert Atoms(t, sql) == [First(t, sql)] + Atoms(t[n..], sql);
    if q == 1 {
      hide First, Width, Insert, FirstLine, Swallowed, Broken;
      c := SwallowedFirst(t, k, sql);
      p := n;
    } else {
      hide First, Width, Insert, FirstLine, Swallowed, Broken, Atoms;
      CommentLater(Atoms(t, sql), First(t, sql), Atoms(t[n..], sql), q);
      var r;
      r, c := InsertAfterComment(t[n..], q - 1, k, sql);
      SwallowedLater(t, q, r, c, k, sql);
      p := n + r;
    }
  }

  /** Where a piece stands, seen from the text and from its rest behind the first piece. */
  lemma PlaceLater(t: string, q: nat, sql: bool)
    requires t != "" && 0 < q <= |Atoms(t, sql)|
    ensures var n := Width(t, sql); var b := Atoms(t[n..], sql);
      && Atoms(t, sql) == [First(t, sql)] + b && |Spell(Atoms(t, sql)[..q])| == n + |Spell(b[..q - 1])|
  {
    hide LeadOf;
    var n, x := Width(t, sql), First(t, sql);
    var b := Atoms(t[n..], sql);
    assert Atoms(t, sql) == [x] + b;
    WidthOfFirst(t, sql);
    hide Atoms, First, Width;
    assert ([x] + b)[..q] == [x] + b[..q - 1];
    SpellCons(x, b[..q - 1]);
  }

  /** The edit at a place behind the first piece leaves that piece alone. */
  lemma InsertLater(t: string, r: nat, k: string, sql: bool)
    requires t != "" && var n := Width(t, sql); n + r < |t| && IsSpace(t[n + r])
    requires r > 0 || !First(t, sql).Piece? || First(t, sql).kind != LineComment
    ensures var n := Width(t, sql);
      Atoms(Insert(t, n + r, k), sql) == [First(t, sql)] + Atoms(Insert(t[n..], r, k), sql)
  {
    var n := Width(t, sql);
    hide LeadOf, Atoms, First, Width;
    FirstSurvives(t, n + r, k, sql);
    InsertInRest(t, n, r, k);
    AtomsCons(Insert(t, n + r, k), sql);
  }

  lemma SwallowedFirst(t: string, k: string, sql: bool) returns (c: string)
    requires '\n' !in k && 1 < |Atoms(t, sql)| && AfterLineComment(Atoms(t, sql), 1)
    ensures Swallowed(t, 1, Width(t, sql), c, k, sql)
  {
    hide LeadOf, Insert, FirstLine, First, Width;
    var n := Width(t, sql);
    PlaceLater(t, 1, sql);
    assert Atoms(t[n..], sql)[..0] == [] && Spell([]) == "";
    WidthOfFirst(t, sql);
    CommentAtFirst(t, sql);
    hide Atoms, Spell;
    c := InsertRightAfter(t, n, k, sql);
    var rest := t[n + 1..];
    NothingBefore(Atoms(t, sql), First(t, sql), Atoms("\n" + rest, sql));
    NothingBefore([Piece(LineComment, c)] + Atoms(rest[FirstLine(rest)..], sql), Piece(LineComment, c), Atoms(rest[FirstLine(rest)..], sql));
  }

  lemma CommentAtFirst(t: string, sql: bool)
    requires 1 < |Atoms(t, sql)| && AfterLineComment(Atoms(t, sql), 1)
    ensures t != "" && First(t, sql).Piece? && First(t, sql).kind == LineComment && Width(t, sql) < |t|
  {
    hide First, Width;
    if Width(t, sql) == |t| { NoAtoms(sql); }
  }

  lemma NothingBefore(a: seq<Atom>, x: Atom, b: seq<Atom>)
    requires a == [x] + b
    ensures a[..0] == [] && a[..0] + ([x] + b) == a && a[0] == x
  {
  }

  lemma CommentLater(a: seq<Atom>, x: Atom, b: seq<Atom>, q: nat)
    requires a == [x] + b && 1 < q < |a|
    ensures b[q - 1] == a[q] && AfterLineComment(b, q - 1) == AfterLineComment(a, q)
  {
  }

  lemma BrokenLater(t: string, q: nat, r: nat, sql: bool)
    requires 1 < q < |Atoms(t, sql)| && t != "" && Broken(t[Width(t, sql)..], q - 1, r, sql)
    ensures Broken(t, q, Width(t, sql) + r, sql)
  {
    hide LeadOf, First, Width, Atoms, Spell;
    var n, x := Width(t, sql), First(t, sql);
    var s := t[n..];
    var b := Atoms(s, sql);
    PlaceLater(t, q, sql);
    assert t[n + r] == s[r] && s[r + 1..] == t[n + r + 1..];
    BehindOne(Atoms(t, sql), x, b, q, b[q - 2], Atoms("\n" + s[r + 1..], sql));
  }

  lemma BehindOne(a: seq<Atom>, x: Atom, b: seq<Atom>, q: nat, y: Atom, more: seq<Atom>)
    requires a == [x] + b && 1 < q <= |a|
    ensures [x] + (b[..q - 2] + ([y] + more)) == a[..q - 1] + ([y] + more) && a[q - 1] == b[q - 2]
  {
    assert a[..q - 1] == [x] + b[..q - 2];
    Assoc([x], b[..q - 2], [y] + more);
  }

  lemma SwallowedLater(t: string, q: nat, r: nat, c: string, k: string, sql: bool)
    requires 1 < q < |Atoms(t, sql)| && t != "" && Swallowed(t[Width(t, sql)..], q - 1, r, c, k, sql)
    ensures Swallowed(t, q, Width(t, sql) + r, c, k, sql)
  {
    hide Broken, Width, First, LeadOf, Insert, Atoms, FirstLine;
    BrokenLater(t, q, r, sql);
    SwallowedBehind(t, q, r, c, k, sql);
  }

  lemma SwallowedBehind(t: string, q: nat, r: nat, c: string, k: string, sql: bool)
    requires 1 < q < |Atoms(t, sql)| && t != "" && Swallowed(t[Width(t, sql)..], q - 1, r, c, k, sql)
    ensures Width(t, sql) + r < |t|
    ensures Atoms(Insert(t, Width(t, sql) + r, k), sql)
         == Atoms(t, sql)[..q - 1] + ([Piece(LineComment, c)] + AtomsOfNext(t, Width(t, sql) + r, sql))
  {
    hide *;
    var n, x := Width(t, sql), First(t, sql);
    var s := t[n..];
    var b := Atoms(s, sql);
    SwallowedIs(s, q - 1, r, c, k, sql);
    BrokenPlace(s, q - 1, r, sql);
    AtomsCons(t, sql);
    InsertLater(t, r, k, sql);
    NextOfRest(t, n, r, sql);
    BehindOneIs(Atoms(t, sql), x, b, q, Piece(LineComment, c), AtomsOfNext(s, r, sql), Atoms(Insert(s, r, k), sql), Atoms(Insert(t, n + r, k), sql));
  }

  lemma BehindOneIs(a: seq<Atom>, x: Atom, b: seq<Atom>, q: nat, y: Atom, more: seq<Atom>, v: seq<Atom>, u: seq<Atom>)
    requires a == [x] + b && 1 < q <= |a| && v == b[..q - 2] + ([y] + more) && u == [x] + v
    ensures u == a[..q - 1] + ([y] + more)
  {
    BehindOne(a, x, b, q, y, more);
  }

  /** The scan from the line after a place on. */
  ghost function AtomsOfNext(t: string, p: nat, sql: bool): seq<Atom>
    requires p < |t|
  {
    var rest := t[p + 1..]; Atoms(rest[FirstLine(rest)..], sql)
  }

  lemma NextOfRest(t: string, n: nat, r: nat, sql: bool)
    requires n + r < |t|
    ensures AtomsOfNext(t[n..], r, sql) == AtomsOfNext(t, n + r, sql)
  {
    hide Atoms, FirstLine;
    assert t[n..][r + 1..] == t[n + r + 1..];
  }

  lemma BrokenPlace(t: string, q: nat, p: nat, sql: bool)
    requires Broken(t, q, p, sql)
    ensures 0 < q <= |Atoms(t, sql)| && 0 < p < |t| && t[p] == '\n' && IsSpace(t[p])
  {
    hide Atoms, Spell;
  }

  lemma SwallowedIs(t: string, q: nat, p: nat, c: string, k: string, sql: bool)
    requires Swallowed(t, q, p, c, k, sql)
    ensures Broken(t, q, p, sql) && 0 < q <= |Atoms(t, sql)| && p < |t|
    ensures Atoms(Insert(t, p, k), sql) == Atoms(t, sql)[..q - 1] + ([Piece(LineComment, c)] + AtomsOfNext(t, p, sql))
  {
    hide Atoms, Insert, FirstLine, Spell;
  }

  lemma InsertRightAfter(t: string, n: nat, k: string, sql: bool) returns (c: string)
    requires '\n' !in k && t != "" && n == Width(t, sql) && First(t, sql).Piece? && First(t, sql).kind == LineComment && n < |t|
    ensures t[n] == '\n' && t[n..] == "\n" + t[n + 1..]
    ensures var rest := t[n + 1..];
      Atoms(Insert(t, n, k), sql) == [Piece(LineComment, c)] + Atoms(rest[FirstLine(rest)..], sql)
  {
    hide Atoms, Insert, FirstLine;
    CommentSwallows(t, n, k, sql);
    var rest := t[n + 1..];
    c :| Atoms(Insert(t, n, k), sql) == [Piece(LineComment, c)] + Atoms(rest[FirstLine(rest)..], sql);
  }

  /**
   * Replacing the line break that ends a line comment leaves the tokens unchanged exactly when the line after it adds none:
   * when the file has the same tokens from that line on as from the line after.
   */
  lemma LineBreakIsExact(t: string, q: nat, k: string, sql: bool, word: char -> bool)
    requires WordClass(word) && '\n' !in k && q < |Atoms(t, sql)|
    requires AfterLineComment(Atoms(t, sql), q) && Atoms(t, sql)[q].Code?
    ensures var p := |Spell(Atoms(t, sql)[..q])|; p < |t| && t[p] == '\n'
    ensures var p := |Spell(Atoms(t, sql)[..q])|; var rest := t[p + 1..];
      Norm(Insert(t, p, k), sql, word) == Norm(t, sql, word) <==> Norm(rest[FirstLine(rest)..], sql, word) == Norm(rest, sql, word)
  {
    hide Atoms, Tokens, Insert, Spell, FirstLine, AfterLineComment;
    CommentBefore(Atoms(t, sql), q);
    var p, c := InsertAfterComment(t, q, k, sql);
    var a := Atoms(t, sql);
    var rest := t[p + 1..];
    var more := rest[FirstLine(rest)..];
    TokensAround(a[..q - 1], c, Atoms(more, sql), "", sql, word);
    TokensAround(a[..q - 1], a[q - 1].text, Atoms("\n" + rest, sql), "", sql, word);
    BreakIsNoToken(rest, sql, word);
    ConsSameTokens(Tokens(a[..q - 1], "", sql, word), Norm(more, sql, word), Norm(rest, sql, word));
  }

  lemma CommentBefore(a: seq<Atom>, q: nat)
    requires q < |a| && AfterLineComment(a, q)
    ensures q > 0 && a[q - 1] == Piece(LineComment, a[q - 1].text)
  {
  }

  lemma ConsSameTokens(x: seq<string>, a: seq<string>, b: seq<string>)
    ensures x + a == x + b <==> a == b
  {
    assert (x + a)[|x|..] == a && (x + b)[|x|..] == b;
  }

  // ---------------------------------------------------------------- the normalisers' loop

  function SegTokens(text: string, segs: seq<Seg>, sql: bool, word: char -> bool): seq<string> {
    if segs == [] then []
    else (match segs[0].kind
          case CommentSeg => []
          case StringSeg => [TextOf(text, segs[0])]
          case CodeSeg => CodeTokens(TextOf(text, segs[0]), sql, word))
         + SegTokens(text, segs[1..], sql, word)
  }

  lemma SegTokensFirst(text: string, x: Seg, segs: seq<Seg>, sql: bool, word: char -> bool)
    ensures SegTokens(text, [x] + segs, sql, word) == SegTokens(text, [x], sql, word) + SegTokens(text, segs, sql, word)
  {
    assert ([x] + segs)[1..] == segs && [x][1..] == [];
  }

  lemma SegTokensFlush(text: string, from: nat, upto: nat, segs: seq<Seg>, sql: bool, word: char -> bool)
    requires from <= upto <= |text|
    ensures SegTokens(text, Flush(from, upto) + segs, sql, word) == CodeTokens(text[from..upto], sql, word) + SegTokens(text, segs, sql, word)
  {
    if from < upto {
      var x := Seg(CodeSeg, from, upto);
      SegTokensFirst(text, x, segs, sql, word);
      assert [x][1..] == [];
    } else {
      assert Flush(from, upto) + segs == segs && text[from..upto] == "";
      assert CodeTokens("", sql, word) == [];
    }
  }

  /** Token by token over segments is token by token over atoms. */
  lemma {:induction false} SegTokensAreTokens(text: string, a: seq<Atom>, at: nat, codeStart: nat, sql: bool, word: char -> bool)
    requires codeStart <= at <= |text| && text[at..] == Spell(a)
    ensures SegTokens(text, Group(a, at, codeStart), sql, word) == Tokens(a, text[codeStart..at], sql, word)
    decreases |a|
  {
    hide *;
    if a == [] {
      SegTokensEnd(text, at, codeStart, sql, word);
    } else {
      SpellHead(text, a, at);
      if a[0].Code? {
        SegTokensAreTokens(text, a[1..], at + 1, codeStart, sql, word);
        SegTokensCode(text, a, at, codeStart, sql, word);
      } else {
        var e := at + |a[0].text|;
        SegTokensAreTokens(text, a[1..], e, e, sql, word);
        SegTokensPiece(text, a[0], a[1..], at, codeStart, sql, word);
        assert [a[0]] + a[1..] == a;
      }
    }
  }

  lemma SegTokensEnd(text: string, at: nat, codeStart: nat, sql: bool, word: char -> bool)
    requires codeStart <= at <= |text|
    ensures SegTokens(text, Group([], at, codeStart), sql, word) == Tokens([], text[codeStart..at], sql, word)
  {
    SegTokensFlush(text, codeStart, at, [], sql, word);
    assert Flush(codeStart, at) + [] == Flush(codeStart, at);
  }

  lemma SegTokensCode(text: string, a: seq<Atom>, at: nat, codeStart: nat, sql: bool, word: char -> bool)
    requires a != [] && a[0].Code? && codeStart <= at < |text| && text[at..at + 1] == [a[0].c]
    ensures Group(a, at, codeStart) == Group(a[1..], at + 1, codeStart)
    ensures Tokens(a, text[codeStart..at], sql, word) == Tokens(a[1..], text[codeStart..at + 1], sql, word)
  {
    assert text[at] == text[at..at + 1][0];
    assert text[codeStart..at + 1] == text[codeStart..at] + [a[0].c];
  }

  lemma PieceTokens(text: string, p: Atom, x: Seg, sql: bool, word: char -> bool)
    requires p.Piece? && x.start + |p.text| == x.end <= |text| && text[x.start..x.end] == p.text
    requires x.kind == if p.kind == Literal then StringSeg else CommentSeg
    ensures SegTokens(text, [x], sql, word) == if p.kind == Literal then [p.text] else []
  {
    assert [x][1..] == [];
  }

  lemma PieceThenTokens(p: Atom, a: seq<Atom>, run: string, sql: bool, word: char -> bool)
    requires p.Piece?
    ensures Tokens([p] + a, run, sql, word)
         == CodeTokens(run, sql, word) + ((if p.kind == Literal then [p.text] else []) + Tokens(a, "", sql, word))
  {
    hide CodeTokens;
    assert ([p] + a)[1..] == a;
  }

  lemma SegTokensPiece(text: string, p: Atom, a: seq<Atom>, at: nat, codeStart: nat, sql: bool, word: char -> bool)
    requires p.Piece? && codeStart <= at && at + |p.text| <= |text| && text[at..at + |p.text|] == p.text
    requires var e := at + |p.text|; SegTokens(text, Group(a, e, e), sql, word) == Tokens(a, text[e..e], sql, word)
    ensures SegTokens(text, Group([p] + a, at, codeStart), sql, word) == Tokens([p] + a, text[codeStart..at], sql, word)
  {
    var e := at + |p.text|;
    var x, rest := Seg(if p.kind == Literal then StringSeg else CommentSeg, at, e), Group(a, e, e);
    GroupPiece(p, a, at, codeStart);
    hide *;
    assert text[e..e] == "";
    PieceTokens(text, p, x, sql, word);
    PieceThenTokens(p, a, text[codeStart..at], sql, word);
    SegTokensFirst(text, x, rest, sql, word);
    SegTokensFlush(text, codeStart, at, [x] + rest, sql, word);
  }

  lemma SegTokensOfScan(text: string, sql: bool, word: char -> bool)
    ensures SegTokens(text, Segments(text, sql), sql, word) == Norm(text, sql, word)
  {
    hide Atoms, Group, Tokens, SegTokens, Spell;
    SpellAtoms(text, sql);
    SegTokensAreTokens(text, Atoms(text, sql), 0, 0, sql, word);
  }

  lemma SegTokensStep(text: string, segs: seq<Seg>, k: nat, sql: bool, word: char -> bool)
    requires k < |segs|
    ensures SegTokens(text, segs[k..], sql, word) == SegTokens(text, [segs[k]], sql, word) + SegTokens(text, segs[k + 1..], sql, word)
  {
    assert segs[k..] == [segs[k]] + segs[k + 1..];
    SegTokensFirst(text, segs[k], segs[k + 1..], sql, word);
  }

  method SegmentTokens(text: string, x: Seg, sql: bool, word: char -> bool) returns (toks: seq<string>)
    ensures toks == SegTokens(text, [x], sql, word)
  {
    assert [x][1..] == [];
    if x.kind == CommentSeg {
      toks := [];
    } else if x.kind == StringSeg {
      toks := [TextOf(text, x)];
    } else {
      toks := CodeTokens(TextOf(text, x), sql, word);
    }
  }

  method Normalise(text: string, sql: bool, word: char -> bool) returns (toks: seq<string>)
    ensures toks == Norm(text, sql, word)
  {
    hide Segments, Norm, SegTokens;
    var segs := ScanCLike(text, sql);
    SegTokensOfScan(text, sql, word);
    ghost var all := Norm(text, sql, word);
    toks := [];
    assert segs[0..] == segs;
    for k := 0 to |segs|
      invariant toks + SegTokens(text, segs[k..], sql, word) == all
    {
      var more := SegmentTokens(text, segs[k], sql, word);
      SegTokensStep(text, segs, k, sql, word);
      Assoc(toks, more, SegTokens(text, segs[k + 1..], sql, word));
      toks := toks + more;
    }
    SegTokensNone(text, sql, word);
    assert segs[|segs|..] == [];
  }

  lemma SegTokensNone(text: string, sql: bool, word: char -> bool)
    ensures SegTokens(text, [], sql, word) == []
  {
  }
}
