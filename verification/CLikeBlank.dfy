/** Blanking comments in place, and why a second scan cannot tell. */
module CLikeBlank {
  import opened Text
  import opened CLikeLexer

  function Blanked(s: string): (r: string)
    ensures |r| == |s|
    ensures forall i :: 0 <= i < |s| ==> r[i] == if s[i] == '\n' then '\n' else ' '
  {
    seq(|s|, i requires 0 <= i < |s| => if s[i] == '\n' then '\n' else ' ')
  }

  function Codes(s: string): (r: seq<Atom>)
    ensures |r| == |s|
    ensures forall i :: 0 <= i < |s| ==> r[i] == Code(s[i])
  {
    seq(|s|, i requires 0 <= i < |s| => Code(s[i]))
  }

  function BlankAtoms(a: seq<Atom>): seq<Atom> {
    if a == [] then []
    else (if a[0].Piece? && a[0].kind != Literal then Codes(Blanked(a[0].text)) else [a[0]]) + BlankAtoms(a[1..])
  }

  /** `blank_c_like(text, sql, keep_strings=True)` */
  function Blank(t: string, sql: bool): string {
    Spell(BlankAtoms(Atoms(t, sql)))
  }

  lemma BlankCons(x: Atom, a: seq<Atom>)
    ensures BlankAtoms([x] + a) == (if x.Piece? && x.kind != Literal then Codes(Blanked(x.text)) else [x]) + BlankAtoms(a)
  {
    assert ([x] + a)[1..] == a;
  }

  lemma {:induction false} SpellCodes(s: string)
    ensures Spell(Codes(s)) == s
  {
    if s != "" {
      SpellCodes(s[1..]);
      assert Codes(s)[1..] == Codes(s[1..]);
    }
  }

  /** Every piece is non-empty and does not start with white space. */
  predicate Cut(a: seq<Atom>) {
    forall i :: 0 <= i < |a| && a[i].Piece? ==> a[i].text != "" && !IsSpace(a[i].text[0])
  }

  lemma {:induction false} AtomsAreCut(t: string, sql: bool)
    ensures Cut(Atoms(t, sql))
    decreases |t|
  {
    if t != "" {
      AtomsAreCut(t[Width(t, sql)..], sql);
      hide LeadOf;
      if LeadOf(t, sql).Opens? { OpensAtInk(t, sql); }
    }
  }

  /** Length of the text before the first comment. */
  function Intact(a: seq<Atom>): nat {
    if a == [] || (a[0].Piece? && a[0].kind != Literal) then 0
    else (if a[0].Code? then 1 else |a[0].text|) + Intact(a[1..])
  }

  /** Blanking keeps the length, every line break, and the text before the first comment. */
  predicate Faded(t: string, u: string, m: nat) {
    && |u| == |t| && m <= |t|
    && (forall i :: 0 <= i < |t| ==> u[i] == t[i] || (u[i] == ' ' && t[i] != '\n'))
    && u[..m] == t[..m] && (m < |t| ==> IsSpace(u[m]))
  }

  lemma FadedAfter(s: string, t: string, u: string, m: nat)
    requires Faded(t, u, m)
    ensures Faded(s + t, s + u, |s| + m)
  {
    assert (s + t)[..|s| + m] == s + t[..m];
    assert (s + u)[..|s| + m] == s + u[..m];
  }

  lemma {:induction false} BlankKeeps(a: seq<Atom>)
    requires Cut(a)
    ensures Faded(Spell(a), Spell(BlankAtoms(a)), Intact(a))
  {
    if a != [] {
      BlankKeeps(a[1..]);
      assert Cut(a[1..]) && a == [a[0]] + a[1..];
      BlankCons(a[0], a[1..]);
      if a[0].Piece? && a[0].kind != Literal {
        SpellPlus(Codes(Blanked(a[0].text)), BlankAtoms(a[1..]));
        SpellCodes(Blanked(a[0].text));
      } else {
        var s := if a[0].Code? then [a[0].c] else a[0].text;
        SpellCons(a[0], BlankAtoms(a[1..]));
        FadedAfter(s, Spell(a[1..]), Spell(BlankAtoms(a[1..])), Intact(a[1..]));
        hide Faded, BlankAtoms;
      }
    }
  }

  lemma SpaceIsPlain(t: string, sql: bool)
    requires t != "" && IsSpace(t[0])
    ensures First(t, sql) == Code(t[0]) && Width(t, sql) == 1
  {
    hide LeadOf;
    if LeadOf(t, sql).Opens? { OpensAtInk(t, sql); }
  }

  /** White space is code wherever a scan reaches it. */
  lemma {:induction false} AtomsOfSpace(w: string, v: string, sql: bool)
    requires AllSpace(w)
    ensures Atoms(w + v, sql) == Codes(w) + Atoms(v, sql)
    decreases |w|
  {
    hide First, Width;
    if w == "" {
      assert w + v == v;
    } else {
      assert (w + v)[1..] == w[1..] + v;
      SpaceIsPlain(w + v, sql);
      AtomsOfSpace(w[1..], v, sql);
      assert Codes(w) == [Code(w[0])] + Codes(w[1..]);
    }
  }

  /** Main result: scanning the blanked text gives the same code and literals, each comment replaced by white space in place. */
  lemma {:induction false} BlankIsInvisible(t: string, sql: bool)
    ensures Atoms(Blank(t, sql), sql) == BlankAtoms(Atoms(t, sql))
    decreases |t|
  {
    if t != "" {
      BlankIsInvisible(t[Width(t, sql)..], sql);
      BlankIsInvisibleStep(t, sql);
    }
  }

  lemma BlankIsInvisibleStep(t: string, sql: bool)
    requires t != "" && Atoms(Blank(t[Width(t, sql)..], sql), sql) == BlankAtoms(Atoms(t[Width(t, sql)..], sql))
    ensures Atoms(Blank(t, sql), sql) == BlankAtoms(Atoms(t, sql))
  {
    hide LeadOf;
    var x, n := First(t, sql), Width(t, sql);
    var a, b := Atoms(t, sql), BlankAtoms(Atoms(t[n..], sql));
    BlankCons(x, Atoms(t[n..], sql));
    AtomsAreCut(t, sql);
    SpellAtoms(t, sql);
    BlankKeeps(a);
    if x.Piece? && x.kind != Literal {
      SpellPlus(Codes(Blanked(t[..n])), b);
      SpellCodes(Blanked(t[..n]));
      AtomsOfSpace(Blanked(t[..n]), Spell(b), sql);
    } else {
      SpellCons(x, b);
      FirstIsLocal(t, Spell([x] + b), Intact(a), sql);
    }
  }

  /** A text that keeps the first atom and then has either the same character or white space starts with the same atom. */
  lemma FirstIsLocal(t: string, u: string, m: nat, sql: bool)
    requires t != "" && Width(t, sql) <= m <= |t| == |u| && t[..m] == u[..m] && (m < |u| ==> IsSpace(u[m]))
    requires First(t, sql).Piece? ==> First(t, sql).kind == Literal
    ensures u != "" && First(u, sql) == First(t, sql) && Width(u, sql) == Width(t, sql)
  {
    hide LeadOf;
    assert forall i :: 0 <= i < m ==> t[i] == t[..m][i] == u[..m][i] == u[i];
    if LeadOf(t, sql).Plain? {
      PlainIsLocal(t, u, m, sql);
    } else {
      var n := Width(t, sql);
      assert u[..n] == t[..n];
      assert n == |t| ==> u == t;
      OpensIsLocal(t, u, sql);
    }
  }

  /** The blanked text has no comment left, so blanking it again changes nothing. */
  lemma BlankIsIdempotent(t: string, sql: bool)
    ensures Blank(Blank(t, sql), sql) == Blank(t, sql)
    ensures forall x :: x in Atoms(Blank(t, sql), sql) && x.Piece? ==> x.kind == Literal
  {
    BlankIsInvisible(t, sql);
    BlankAtomsTwice(Atoms(t, sql));
  }

  lemma {:induction false} BlankAtomsTwice(a: seq<Atom>)
    ensures BlankAtoms(BlankAtoms(a)) == BlankAtoms(a)
    ensures forall x :: x in BlankAtoms(a) && x.Piece? ==> x.kind == Literal
  {
    if a != [] {
      BlankAtomsTwice(a[1..]);
      var x := a[0];
      if x.Piece? && x.kind != Literal {
        BlankCodes(Blanked(x.text), BlankAtoms(a[1..]));
      } else {
        BlankCons(x, BlankAtoms(a[1..]));
      }
    }
  }

  lemma {:induction false} BlankCodes(s: string, a: seq<Atom>)
    ensures BlankAtoms(Codes(s) + a) == Codes(s) + BlankAtoms(a)
  {
    if s == "" {
      assert Codes(s) + a == a;
      assert Codes(s) + BlankAtoms(a) == BlankAtoms(a);
    } else {
      BlankCodes(s[1..], a);
      CodesCons(s, a);
      CodesCons(s, BlankAtoms(a));
      hide BlankAtoms, Codes;
      BlankCons(Code(s[0]), Codes(s[1..]) + a);
    }
  }

  lemma CodesCons(s: string, a: seq<Atom>)
    requires s != ""
    ensures Codes(s) + a == [Code(s[0])] + (Codes(s[1..]) + a)
  {
    assert Codes(s) == [Code(s[0])] + Codes(s[1..]);
  }
}
