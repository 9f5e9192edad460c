/** Putting a comment where white space was. */
module CLikeInsert {
  import opened Text
  import opened CLikeLexer
  import opened CLikeBlank

  /** A comment text that a block comment can hold: it does not close the comment and, where comments nest, opens none. */
  predicate Inert(k: string, sql: bool) {
    forall j: nat :: j < |k| ==> !At(k + "*", j, "*/") && (sql ==> !At(k + "*", j, "/*"))
  }

  function Comment(k: string): string { "/*" + k + "*/" }

  /** `t` with the character at `p` replaced by ` /*k*/ `. */
  function Insert(t: string, p: nat, k: string): string
    requires p < |t|
  {
    t[..p] + (" " + Comment(k) + " ") + t[p + 1..]
  }

  function Commented(k: string): seq<Atom> { [Code(' '), Piece(BlockComment, Comment(k)), Code(' ')] }

  predicate AfterLineComment(a: seq<Atom>, q: nat)
    requires q < |a|
  {
    q > 0 && a[q - 1].Piece? && a[q - 1].kind == LineComment
  }

  lemma {:induction false} NestedInert(k: string, v: string, j: nat)
    requires Inert(k, true) && 2 <= j <= 2 + |k|
    ensures NestedEnd(Comment(k) + v, j, 1) == |k| + 4
    decreases |k| + 2 - j
  {
    var t := Comment(k) + v;
    if j == 2 + |k| {
      assert t[j..j + 2] == "*/";
      assert At(t, j, "*/") && !At(t, j, "/*");
    } else {
      InertHere(k, v, j, true);
      NestedInert(k, v, j + 1);
    }
  }

  lemma InertHere(k: string, v: string, j: nat, sql: bool)
    requires Inert(k, sql) && 2 <= j < 2 + |k|
    ensures var t := Comment(k) + v; !At(t, j, "*/") && (sql ==> !At(t, j, "/*"))
  {
    var t, i := Comment(k) + v, j - 2;
    assert t[j..j + 2] == (k + "*")[i..i + 2];
    assert !At(k + "*", i, "*/") && (sql ==> !At(k + "*", i, "/*"));
  }

  /** An inert comment is one comment whatever follows it. */
  lemma CommentIsWhole(k: string, v: string, sql: bool)
    requires Inert(k, sql)
    ensures LeadOf(Comment(k) + v, sql) == Opens(BlockComment, |Comment(k)|)
  {
    var t := Comment(k) + v;
    assert t[0..2] == "/*";
    assert t[0] == '/' && t[1] == '*';
    if sql {
      NestedInert(k, v, 2);
    } else {
      forall j: nat | 2 <= j < 2 + |k| ensures !At(t, j, "*/") { InertHere(k, v, j, false); }
      assert t[2 + |k|..4 + |k|] == "*/";
      FindIs(t, "*/", 2, 2 + |k|);
    }
  }

  lemma AtomsOfWhole(c: string, v: string, kind: Kind, sql: bool)
    requires c != "" && LeadOf(c + v, sql) == Opens(kind, |c|)
    ensures Atoms(c + v, sql) == [Piece(kind, c)] + Atoms(v, sql)
  {
    hide LeadOf;
    assert (c + v)[..|c|] == c && (c + v)[|c|..] == v;
  }

  lemma AtomsOfComment(k: string, v: string, sql: bool)
    requires Inert(k, sql)
    ensures Atoms(" " + Comment(k) + " " + v, sql) == Commented(k) + Atoms(v, sql)
  {
    hide LeadOf, First, Width, Atoms, Inert;
    var c := Comment(k);
    CommentIsWhole(k, " " + v, sql);
    AtomsOfWhole(c, " " + v, BlockComment, sql);
    hide Comment;
    AtomsOfSpace(" ", v, sql);
    AtomsOfSpace(" ", c + (" " + v), sql);
    assert " " + c + " " + v == " " + (c + (" " + v));
    assert Codes(" ") == [Code(' ')];
  }

  /** Edits of the rest of a text keep its first atom, unless they take away the line break that ends a line comment. */
  lemma FirstSurvives(t: string, p: nat, k: string, sql: bool)
    requires t != "" && Width(t, sql) <= p < |t| && IsSpace(t[p])
    ensures var u := Insert(t, p, k);
      if p == Width(t, sql) && First(t, sql).Piece? && First(t, sql).kind == LineComment then First(u, sql) != First(t, sql)
      else First(u, sql) == First(t, sql) && Width(u, sql) == Width(t, sql)
  {
    var u, n := Insert(t, p, k), Width(t, sql);
    assert forall i :: 0 <= i < p ==> t[i] == u[i];
    assert t[..p] == u[..p] && u[p] == ' ';
    assert t[..n] == u[..n];
    if LeadOf(t, sql).Plain? {
      hide LeadOf;
      PlainIsLocal(t, u, p, sql);
    } else if p == n && LeadOf(t, sql).kind == LineComment {
      LineCommentGrows(t, u, n, sql);
    } else {
      hide LeadOf;
      assert p > n ==> u[n] == t[n];
      OpensIsLocal(t, u, sql);
    }
  }

  lemma LineCommentGrows(t: string, u: string, n: nat, sql: bool)
    requires t != "" && LeadOf(t, sql) == Opens(LineComment, n) && n < |u| && Agree(t, u, n) && u[n] == ' '
    ensures LeadOf(u, sql).Opens? && LeadOf(u, sql).kind == LineComment && LeadOf(u, sql).len > n
  {
    var p := if sql then "--" else "//";
    assert n >= 2 && At(t, 0, p) by { AtFirst(t, p); }
    AtSame(t, u, 0, p);
    forall j: nat | j <= n ensures !At(u, j, "\n") {
      if j < n { AtSame(t, u, j, "\n"); } else { assert u[j..j + 1][0] == ' '; }
    }
  }

  /**
   * Replacing white space of the code by a block comment changes nothing but that place, exactly when the white space is
   * not the line break that ends a line comment.
   */
  lemma {:induction false} InsertComment(t: string, q: nat, k: string, sql: bool)
    requires Inert(k, sql) && q < |Atoms(t, sql)|
    requires Atoms(t, sql)[q].Code? && IsSpace(Atoms(t, sql)[q].c)
    ensures var a := Atoms(t, sql);
      var p := |Spell(a[..q])|;
      && p < |t| && t[p] == a[q].c
      && (Atoms(Insert(t, p, k), sql) == a[..q] + Commented(k) + a[q + 1..] <==> !AfterLineComment(a, q))
    decreases |t|
  {
    hide LeadOf;
    var a, n := Atoms(t, sql), Width(t, sql);
    if q == 0 {
      assert Insert(t, 0, k) == " " + Comment(k) + " " + t[1..];
      AtomsOfComment(k, t[1..], sql);
      assert a[..0] + Commented(k) + a[1..] == Commented(k) + Atoms(t[1..], sql);
    } else {
      InsertComment(t[n..], q - 1, k, sql);
      InsertStep(t, q, k, sql);
    }
  }

  lemma InsertStep(t: string, q: nat, k: string, sql: bool)
    requires 0 < q < |Atoms(t, sql)|
    requires var s := t[Width(t, sql)..];
      var a := Atoms(s, sql);
      var p := |Spell(a[..q - 1])|;
      && a[q - 1].Code? && p < |s| && s[p] == a[q - 1].c && IsSpace(s[p])
      && (Atoms(Insert(s, p, k), sql) == a[..q - 1] + Commented(k) + a[q..] <==> !AfterLineComment(a, q - 1))
    ensures var a := Atoms(t, sql);
      var p := |Spell(a[..q])|;
      && p < |t| && t[p] == a[q].c
      && (Atoms(Insert(t, p, k), sql) == a[..q] + Commented(k) + a[q + 1..] <==> !AfterLineComment(a, q))
  {
    hide LeadOf, First, Width, Commented, Comment;
    var n := Width(t, sql);
    var s, x, b := t[n..], First(t, sql), Atoms(t[n..], sql);
    var a, r := Atoms(t, sql), |Spell(b[..q - 1])|;
    assert a == [x] + b;
    AtomsAreCut(t, sql);
    PlaceOfAtom(x, b, q);
    assert |Spell(a[..q])| == n + r by { WidthOfFirst(t, sql); }
    FirstSurvives(t, n + r, k, sql);
    InsertInRest(t, n, r, k);
    var u, v := Insert(t, n + r, k), Insert(s, r, k);
    var want := b[..q - 1] + Commented(k) + b[q..];
    assert a[..q] + Commented(k) + a[q + 1..] == [x] + want;
    assert Atoms(u, sql) == [First(u, sql)] + Atoms(u[Width(u, sql)..], sql);
    if First(u, sql) == x && Width(u, sql) == n {
      ConsSame(x, Atoms(v, sql), want);
    } else {
      assert Atoms(u, sql)[0] != ([x] + want)[0];
    }
  }

  lemma WidthOfFirst(t: string, sql: bool)
    requires t != ""
    ensures Width(t, sql) == if First(t, sql).Code? then 1 else |First(t, sql).text|
  {
  }

  lemma ConsSame<T>(x: T, a: seq<T>, b: seq<T>)
    ensures [x] + a == [x] + b <==> a == b
  {
    assert ([x] + a)[1..] == a && ([x] + b)[1..] == b;
  }

  lemma InsertInRest(t: string, n: nat, r: nat, k: string)
    requires n + r < |t|
    ensures Insert(t, n + r, k) == t[..n] + Insert(t[n..], r, k)
    ensures Insert(t, n + r, k)[n..] == Insert(t[n..], r, k)
  {
  }

  lemma PlaceOfAtom(x: Atom, b: seq<Atom>, q: nat)
    requires 0 < q <= |b| && Cut([x] + b)
    ensures ([x] + b)[..q] == [x] + b[..q - 1]
    ensures |Spell(([x] + b)[..q])| == (if x.Code? then 1 else |x.text|) + |Spell(b[..q - 1])|
    ensures q > 1 ==> |Spell(b[..q - 1])| > 0
  {
    SpellCons(x, b[..q - 1]);
    assert ([x] + b)[..q] == [x] + b[..q - 1];
    if q > 1 { assert b[0] == ([x] + b)[1]; }
  }
}
