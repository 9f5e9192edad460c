/** The comment-aware lexer for Java and SQL and the in-place blanking built on it. */
module CLikeLexer {
  import opened Text

  datatype Kind = LineComment | BlockComment | Literal

  /** What opens at the first character of a text: its kind and its length. */
  datatype Lead = Plain | Opens(kind: Kind, len: nat)

  /** One character of code, or one whole comment or literal. */
  datatype Atom = Code(c: char) | Piece(kind: Kind, text: string)

  // ---------------------------------------------------------------- where a comment or a literal ends

  function Min(a: nat, b: nat): nat { if a <= b then a else b }

  function EndOfFind(t: string, p: string, from: nat): nat {
    var j := Find(t, p, from);
    if j < 0 then |t| else j + |p|
  }

  /** Scan position at which a nested comment that is `depth` deep at `j` is closed, or the end of the text. */
  function NestedEnd(t: string, j: nat, depth: nat): (r: nat)
    requires j <= |t|
    ensures j <= r <= |t|
    decreases |t| - j
  {
    if depth == 0 || j == |t| then j
    else if At(t, j, "/*") then NestedEnd(t, j + 2, depth + 1)
    else if At(t, j, "*/") then NestedEnd(t, j + 2, depth - 1)
    else NestedEnd(t, j + 1, depth)
  }

  /** Position of the closing triple quote; a backslash hides the character after it. */
  function TripleEnd(t: string, j: nat): (r: nat)
    ensures j <= r
    ensures r < |t| ==> At(t, r, "\"\"\"")
    decreases |t| - j
  {
    if j >= |t| || At(t, j, "\"\"\"") then j
    else TripleEnd(t, if t[j] == '\\' then j + 2 else j + 1)
  }

  /** Position of the quote or the line break that ends a Java string or char. */
  function JavaQuoteEnd(t: string, j: nat, q: char): (r: nat)
    ensures j <= r
    ensures r < |t| ==> t[r] == q || t[r] == '\n'
    decreases |t| - j
  {
    if j >= |t| then j
    else if t[j] == '\\' then JavaQuoteEnd(t, j + 2, q)
    else if t[j] == q || t[j] == '\n' then j
    else JavaQuoteEnd(t, j + 1, q)
  }

  /** Position of the quote that ends an SQL literal or identifier; a doubled quote does not. */
  function SqlQuoteEnd(t: string, j: nat, q: char): (r: nat)
    requires j <= |t|
    ensures j <= r <= |t|
    ensures r < |t| ==> t[r] == q && !(r + 1 < |t| && t[r + 1] == q)
    decreases |t| - j
  {
    if j == |t| then j
    else if t[j] != q then SqlQuoteEnd(t, j + 1, q)
    else if j + 1 < |t| && t[j + 1] == q then SqlQuoteEnd(t, j + 2, q)
    else j
  }

  predicate TagChar(c: char) { 'A' <= c <= 'Z' || 'a' <= c <= 'z' || c == '_' }

  function TagRun(t: string, j: nat): (r: nat)
    ensures j <= r
    ensures r < |t| ==> !TagChar(t[r])
    ensures forall k :: j <= k < r ==> k < |t| && TagChar(t[k])
    decreases |t| - j
  {
    if j < |t| && TagChar(t[j]) then TagRun(t, j + 1) else j
  }

  /** Length of the `$tag$` at the start of `t`, 0 when there is none. */
  function DollarTag(t: string): (r: nat)
    ensures r <= |t|
  {
    if t == "" || t[0] != '$' then 0
    else var k := TagRun(t, 1); if k < |t| && t[k] == '$' then k + 1 else 0
  }

  // ---------------------------------------------------------------- the lexer's decision at one position

  function LeadOf(t: string, sql: bool): (r: Lead)
    requires t != ""
    ensures r.Opens? ==> 1 <= r.len <= |t|
  {
    if (sql && At(t, 0, "--")) || (!sql && At(t, 0, "//")) then
      AtFirst(t, if sql then "--" else "//");
      var j := Find(t, "\n", 0);
      Opens(LineComment, if j < 0 then |t| else j)
    else if At(t, 0, "/*") then
      Opens(BlockComment, if sql then NestedEnd(t, 2, 1) else EndOfFind(t, "*/", 2))
    else if !sql && At(t, 0, "\"\"\"") then
      Opens(Literal, Min(|t|, TripleEnd(t, 3) + 3))
    else if t[0] == '"' || t[0] == '\'' then
      Opens(Literal, Min(|t|, (if sql then SqlQuoteEnd(t, 1, t[0]) else JavaQuoteEnd(t, 1, t[0])) + 1))
    else if sql && DollarTag(t) > 0 then
      Opens(Literal, EndOfFind(t, t[..DollarTag(t)], DollarTag(t)))
    else Plain
  }

  lemma OpensAtInk(t: string, sql: bool)
    requires t != "" && LeadOf(t, sql).Opens?
    ensures !IsSpace(t[0])
  {
    if At(t, 0, "--") { AtFirst(t, "--"); }
    if At(t, 0, "//") { AtFirst(t, "//"); }
    if At(t, 0, "/*") { AtFirst(t, "/*"); }
    if At(t, 0, "\"\"\"") { AtFirst(t, "\"\"\""); }
  }

  /** Length of the first atom of a text. */
  function Width(t: string, sql: bool): (n: nat)
    requires t != ""
    ensures 1 <= n <= |t|
  {
    match LeadOf(t, sql) case Plain => 1 case Opens(_, n) => n
  }

  function First(t: string, sql: bool): Atom
    requires t != ""
  {
    match LeadOf(t, sql) case Plain => Code(t[0]) case Opens(k, n) => Piece(k, t[..n])
  }

  function Atoms(t: string, sql: bool): seq<Atom>
    decreases |t|
  {
    if t == "" then [] else [First(t, sql)] + Atoms(t[Width(t, sql)..], sql)
  }

  function Spell(a: seq<Atom>): string {
    if a == [] then "" else (if a[0].Code? then [a[0].c] else a[0].text) + Spell(a[1..])
  }

  lemma SpellCons(x: Atom, a: seq<Atom>)
    ensures Spell([x] + a) == (if x.Code? then [x.c] else x.text) + Spell(a)
  {
    assert ([x] + a)[1..] == a;
  }

  lemma {:induction false} SpellPlus(a: seq<Atom>, b: seq<Atom>)
    ensures Spell(a + b) == Spell(a) + Spell(b)
  {
    if a == [] {
      assert a + b == b;
    } else {
      SpellPlus(a[1..], b);
      var s := if a[0].Code? then [a[0].c] else a[0].text;
      assert Spell(a) == s + Spell(a[1..]);
      hide *;
      assert a + b == [a[0]] + (a[1..] + b);
      SpellCons(a[0], a[1..] + b);
      Assoc(s, Spell(a[1..]), Spell(b));
    }
  }

  lemma AtomsCons(t: string, sql: bool)
    requires t != ""
    ensures Atoms(t, sql) == [First(t, sql)] + Atoms(t[Width(t, sql)..], sql)
    ensures var x := First(t, sql); (if x.Code? then [x.c] else x.text) == t[..Width(t, sql)]
  {
    hide LeadOf;
  }

  lemma NoAtoms(sql: bool)
    ensures Atoms("", sql) == [] && Spell([]) == ""
  {
  }

  lemma {:induction false} SpellAtoms(t: string, sql: bool)
    ensures Spell(Atoms(t, sql)) == t
    decreases |t|
  {
    hide *;
    if t == "" {
      NoAtoms(sql);
    } else {
      var n := Width(t, sql);
      SpellAtoms(t[n..], sql);
      AtomsCons(t, sql);
      SpellCons(First(t, sql), Atoms(t[n..], sql));
      assert t == t[..n] + t[n..];
    }
  }

  // ---------------------------------------------------------------- locality: a decision depends only on a short prefix

  lemma AtIsLocal(t: string, u: string, m: nat, p: string)
    requires 0 < m <= |t| && m <= |u| && t[..m] == u[..m]
    requires m == |u| || IsSpace(u[m])
    requires forall k :: 0 <= k < |p| ==> !IsSpace(p[k])
    ensures At(u, 0, p) ==> At(t, 0, p)
  {
    if At(u, 0, p) {
      assert forall k :: 0 <= k < |p| ==> u[k] == p[k];
      assert t[..|p|] == t[..m][..|p|] == u[..m][..|p|];
    }
  }

  lemma TagIsLocal(t: string, u: string, m: nat)
    requires 0 < m <= |t| && m <= |u| && t[..m] == u[..m]
    requires m == |u| || IsSpace(u[m])
    ensures DollarTag(u) > 0 ==> DollarTag(t) == DollarTag(u) <= m
  {
    assert forall k :: 0 <= k < m ==> t[k] == u[k] by {
      assert forall k :: 0 <= k < m ==> t[k] == t[..m][k] && u[k] == u[..m][k];
    }
    if DollarTag(u) > 0 {
      TagRunIs(t, 1, TagRun(u, 1));
    }
  }

  lemma TagRunIs(t: string, j: nat, k: nat)
    requires j <= k < |t| && !TagChar(t[k])
    requires forall i :: j <= i < k ==> TagChar(t[i])
    ensures TagRun(t, j) == k
    decreases k - j
  {
    if j < k { TagRunIs(t, j + 1, k); }
  }

  /** Where nothing opens, nothing opens in a text that agrees up to a white-space character or the end. */
  lemma PlainIsLocal(t: string, u: string, m: nat, sql: bool)
    requires 0 < m <= |t| && m <= |u| && t[..m] == u[..m]
    requires m == |u| || IsSpace(u[m])
    requires LeadOf(t, sql).Plain?
    ensures LeadOf(u, sql).Plain?
  {
    assert t[0] == t[..m][0] == u[..m][0] == u[0];
    AtIsLocal(t, u, m, "--");
    AtIsLocal(t, u, m, "//");
    AtIsLocal(t, u, m, "/*");
    TagIsLocal(t, u, m);
  }

  lemma FindIsLocal(t: string, u: string, n: nat, p: string, from: nat)
    requires n <= |t| && n <= |u| && t[..n] == u[..n]
    requires Find(t, p, from) >= 0 && Find(t, p, from) + |p| <= n
    ensures Find(u, p, from) == Find(t, p, from)
  {
    var r := Find(t, p, from);
    forall k: nat | k <= r ensures At(u, k, p) == At(t, k, p) {
      assert u[k..k + |p|] == u[..n][k..k + |p|] == t[..n][k..k + |p|] == t[k..k + |p|];
    }
    FindIs(u, p, from, r);
  }

  predicate Agree(t: string, u: string, n: nat) {
    n <= |t| && n <= |u| && forall k :: 0 <= k < n ==> t[k] == u[k]
  }

  lemma {:induction false} NestedIsLocal(t: string, u: string, j: nat, depth: nat, n: nat)
    requires j <= n < |t| && Agree(t, u, n) && NestedEnd(t, j, depth) == n
    ensures NestedEnd(u, j, depth) == n
    decreases n - j
  {
    if depth > 0 {
      if At(t, j, "/*") {
        AtSame(t, u, j, "/*");
        NestedIsLocal(t, u, j + 2, depth + 1, n);
      } else if At(t, j, "*/") {
        AtSame(t, u, j, "/*");
        AtSame(t, u, j, "*/");
        NestedIsLocal(t, u, j + 2, depth - 1, n);
      } else {
        NestedIsLocal(t, u, j + 1, depth, n);
        assert j + 1 < n;
        AtSame(t, u, j, "/*");
        AtSame(t, u, j, "*/");
      }
    }
  }

  lemma {:induction false} TripleIsLocal(t: string, u: string, j: nat, n: nat)
    requires Agree(t, u, n) && TripleEnd(t, j) + 3 == n
    ensures TripleEnd(u, j) + 3 == n
    decreases n - j
  {
    assert At(t, j, "\"\"\"") == At(u, j, "\"\"\"") by {
      assert t[j..j + 3] == u[j..j + 3];
    }
    if !At(t, j, "\"\"\"") {
      TripleIsLocal(t, u, if t[j] == '\\' then j + 2 else j + 1, n);
    }
  }

  lemma {:induction false} JavaQuoteIsLocal(t: string, u: string, j: nat, q: char, n: nat)
    requires Agree(t, u, n) && JavaQuoteEnd(t, j, q) + 1 == n
    ensures JavaQuoteEnd(u, j, q) + 1 == n
    decreases n - j
  {
    if t[j] == '\\' {
      JavaQuoteIsLocal(t, u, j + 2, q, n);
    } else if t[j] != q && t[j] != '\n' {
      JavaQuoteIsLocal(t, u, j + 1, q, n);
    }
  }

  lemma {:induction false} SqlQuoteIsLocal(t: string, u: string, j: nat, q: char, n: nat)
    requires j <= n <= |t| && Agree(t, u, n) && SqlQuoteEnd(t, j, q) + 1 == n
    requires n < |u| ==> u[n] != q
    ensures SqlQuoteEnd(u, j, q) + 1 == n
    decreases n - j
  {
    if t[j] != q {
      SqlQuoteIsLocal(t, u, j + 1, q, n);
    } else if j + 1 < |t| && t[j + 1] == q {
      SqlQuoteIsLocal(t, u, j + 2, q, n);
    }
  }

  /** The text after a comment or literal is not looked at: only that it does not continue it. */
  predicate SameTail(t: string, u: string, n: nat, kind: Kind) {
    || (n == |t| && u == t)
    || (n < |t| && n < |u| && (u[n] == t[n] || (IsSpace(u[n]) && kind != LineComment)))
  }

  lemma AtSame(t: string, u: string, i: nat, p: string)
    requires Agree(t, u, i + |p|)
    ensures At(u, i, p) == At(t, i, p)
  {
    assert t[i..i + |p|] == u[i..i + |p|];
  }

  /** A comment or literal opens, and ends, the same way in a text that agrees on it. */
  lemma OpensIsLocal(t: string, u: string, sql: bool)
    requires t != "" && u != "" && LeadOf(t, sql).Opens?
    requires var l := LeadOf(t, sql); Agree(t, u, l.len) && SameTail(t, u, l.len, l.kind)
    ensures LeadOf(u, sql) == LeadOf(t, sql)
  {
    var n := LeadOf(t, sql).len;
    if n < |t| {
      assert t[..n] == u[..n];
      if (sql && At(t, 0, "--")) || (!sql && At(t, 0, "//")) {
        LineIsLocal(t, u, sql);
      } else if At(t, 0, "/*") {
        BlockIsLocal(t, u, sql);
      } else if t[0] == '$' {
        DollarIsLocal(t, u);
      } else {
        QuoteIsLocal(t, u, sql);
      }
    }
  }

  lemma LineIsLocal(t: string, u: string, sql: bool)
    requires (sql && At(t, 0, "--")) || (!sql && At(t, 0, "//"))
    requires var l := LeadOf(t, sql); l.len < |t| && Agree(t, u, l.len) && SameTail(t, u, l.len, LineComment)
    ensures LeadOf(u, sql) == LeadOf(t, sql)
  {
    var n := LeadOf(t, sql).len;
    assert t[n] == t[n..n + 1][0] == '\n';
    assert t[1] == t[0..2][1] && t[0] == t[0..2][0];
    assert t[..n + 1] == u[..n + 1];
    FindIsLocal(t, u, n + 1, "\n", 0);
    AtSame(t, u, 0, if sql then "--" else "//");
  }

  lemma BlockIsLocal(t: string, u: string, sql: bool)
    requires At(t, 0, "/*") && LeadOf(t, sql).Opens? && LeadOf(t, sql).kind.BlockComment?
    requires var l := LeadOf(t, sql); l.len < |t| && Agree(t, u, l.len)
    ensures LeadOf(u, sql) == LeadOf(t, sql)
  {
    var n := LeadOf(t, sql).len;
    assert t[0] == t[0..2][0] && t[1] == t[0..2][1];
    assert t[..n] == u[..n];
    if sql {
      NestedIsLocal(t, u, 2, 1, n);
    } else {
      FindIsLocal(t, u, n, "*/", 2);
    }
    AtSame(t, u, 0, "/*");
    assert u[0] == '/' && u[1] == '*';
  }

  lemma DollarIsLocal(t: string, u: string)
    requires t != "" && t[0] == '$' && LeadOf(t, true).Opens?
    requires var l := LeadOf(t, true); l.len < |t| && Agree(t, u, l.len)
    ensures LeadOf(u, true) == LeadOf(t, true)
  {
    var n := LeadOf(t, true).len;
    var d := DollarTag(t);
    assert t[..n] == u[..n];
    TagRunIs(u, 1, d - 1);
    assert t[..d] == u[..d];
    FindIsLocal(t, u, n, t[..d], d);
  }

  lemma AtTriple(t: string)
    ensures At(t, 0, "\"\"\"") <==> |t| >= 3 && t[0] == t[1] == t[2] == '"'
  {
    if At(t, 0, "\"\"\"") {
      assert forall k :: 0 <= k < 3 ==> t[k] == t[0..3][k];
    }
  }

  lemma QuoteIsLocal(t: string, u: string, sql: bool)
    requires t != "" && (t[0] == '"' || t[0] == '\'')
    requires var l := LeadOf(t, sql); l.len < |t| && Agree(t, u, l.len) && SameTail(t, u, l.len, Literal)
    ensures LeadOf(u, sql) == LeadOf(t, sql)
  {
    AtTriple(t);
    AtTriple(u);
    hide At, DollarTag, TripleEnd, JavaQuoteEnd, SqlQuoteEnd;
    var n := LeadOf(t, sql).len;
    NoCommentAtQuote(t);
    NoCommentAtQuote(u);
    if sql {
      SqlQuoteIsLocal(t, u, 1, t[0], n);
    } else if At(t, 0, "\"\"\"") {
      TripleIsLocal(t, u, 3, n);
    } else {
      JavaQuoteIsLocal(t, u, 1, t[0], n);
    }
  }

  lemma NoCommentAtQuote(t: string)
    requires t != "" && (t[0] == '"' || t[0] == '\'')
    ensures !At(t, 0, "--") && !At(t, 0, "//") && !At(t, 0, "/*")
  {
    if At(t, 0, "--") { AtFirst(t, "--"); }
    if At(t, 0, "//") { AtFirst(t, "//"); }
    if At(t, 0, "/*") { AtFirst(t, "/*"); }
  }
}
