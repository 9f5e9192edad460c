/** Segments with offsets, as the scanner reports them. */
module CLikeSegments {
  import opened Text
  import opened CLikeLexer
  import opened CLikeBlank

  datatype SegKind = CodeSeg | CommentSeg | StringSeg

  datatype Seg = Seg(kind: SegKind, start: nat, end: nat)

  function Flush(from: nat, upto: nat): seq<Seg> {
    if upto > from then [Seg(CodeSeg, from, upto)] else []
  }

  /** The segments of atoms that start at offset `at`, with code pending since `codeStart`. */
  function Group(a: seq<Atom>, at: nat, codeStart: nat): seq<Seg> {
    if a == [] then Flush(codeStart, at)
    else match a[0]
      case Code(_) => Group(a[1..], at + 1, codeStart)
      case Piece(k, s) =>
        Flush(codeStart, at) + [Seg(if k == Literal then StringSeg else CommentSeg, at, at + |s|)]
        + Group(a[1..], at + |s|, at + |s|)
  }

  function Segments(t: string, sql: bool): seq<Seg> {
    Group(Atoms(t, sql), 0, 0)
  }

  /** Non-empty segments that follow each other from `from` to `to`, code segments never side by side. */
  predicate Tiles(segs: seq<Seg>, from: nat, to: nat) {
    if segs == [] then from == to
    else
      && segs[0].start == from && segs[0].start < segs[0].end
      && (segs[0].kind == CodeSeg && |segs| > 1 ==> segs[1].kind != CodeSeg)
      && Tiles(segs[1..], segs[0].end, to)
  }

  lemma TilesCons(x: Seg, segs: seq<Seg>, to: nat)
    requires x.start < x.end && Tiles(segs, x.end, to)
    requires x.kind == CodeSeg && segs != [] ==> segs[0].kind != CodeSeg
    ensures Tiles([x] + segs, x.start, to)
  {
    assert ([x] + segs)[1..] == segs;
  }

  lemma {:induction false} GroupTiles(a: seq<Atom>, at: nat, codeStart: nat)
    requires Cut(a) && codeStart <= at
    ensures Tiles(Group(a, at, codeStart), codeStart, at + |Spell(a)|)
    ensures codeStart == at && a != [] && a[0].Piece? ==> Group(a, at, codeStart)[0].kind != CodeSeg
    decreases |a|
  {
    if a == [] {
    } else if a[0].Code? {
      GroupTiles(a[1..], at + 1, codeStart);
    } else {
      var e := at + |a[0].text|;
      GroupTiles(a[1..], e, e);
      var x := Seg(if a[0].kind == Literal then StringSeg else CommentSeg, at, e);
      var rest := Group(a[1..], e, e);
      TilesCons(x, rest, at + |Spell(a)|);
      if codeStart < at {
        TilesCons(Seg(CodeSeg, codeStart, at), [x] + rest, at + |Spell(a)|);
        assert Group(a, at, codeStart) == [Seg(CodeSeg, codeStart, at)] + ([x] + rest);
      } else {
        assert Group(a, at, codeStart) == [x] + rest;
      }
    }
  }

  /** The segments cover the text completely, without overlap and without empty pieces. */
  lemma {:induction false} SegmentsTile(t: string, sql: bool)
    ensures Tiles(Segments(t, sql), 0, |t|)
  {
    hide Atoms, Group, Tiles, Spell, Cut;
    AtomsAreCut(t, sql);
    SpellAtoms(t, sql);
    GroupTiles(Atoms(t, sql), 0, 0);
  }

  function Strings(segs: seq<Seg>): seq<Seg> {
    if segs == [] then [] else (if segs[0].kind == StringSeg then [segs[0]] else []) + Strings(segs[1..])
  }

  lemma {:induction false} StringsPlus(a: seq<Seg>, b: seq<Seg>)
    ensures Strings(a + b) == Strings(a) + Strings(b)
  {
    if a == [] {
      assert a + b == b;
    } else {
      StringsPlus(a[1..], b);
      assert (a + b)[1..] == a[1..] + b;
      var x := if a[0].kind == StringSeg then [a[0]] else [];
      assert Strings(a + b) == x + Strings(a[1..] + b) && Strings(a) == x + Strings(a[1..]);
      hide *;
      Assoc(x, Strings(a[1..]), Strings(b));
    }
  }

  lemma {:induction false} GroupOfCodes(s: string, a: seq<Atom>, at: nat, codeStart: nat)
    ensures Group(Codes(s) + a, at, codeStart) == Group(a, at + |s|, codeStart)
    decreases |s|
  {
    if s == "" {
      assert Codes(s) + a == a;
    } else {
      assert (Codes(s) + a)[1..] == Codes(s[1..]) + a;
      GroupOfCodes(s[1..], a, at + 1, codeStart);
    }
  }

  lemma StringsOfPiece(k: Kind, s: string, a: seq<Atom>, at: nat, c: nat)
    ensures Strings(Group([Piece(k, s)] + a, at, c))
         == (if k == Literal then [Seg(StringSeg, at, at + |s|)] else []) + Strings(Group(a, at + |s|, at + |s|))
  {
    var x := [Seg(if k == Literal then StringSeg else CommentSeg, at, at + |s|)];
    GroupPiece(Piece(k, s), a, at, c);
    assert x[1..] == [] && Strings(x) == if k == Literal then x else [];
    assert Strings(Flush(c, at)) == [] by { if c < at { assert Flush(c, at)[1..] == []; } }
    hide *;
    StringsPlus(Flush(c, at), x + Group(a, at + |s|, at + |s|));
    StringsPlus(x, Group(a, at + |s|, at + |s|));
  }

  /** The pending start of a code run does not change which strings follow. */
  lemma {:induction false} BlankKeepsStrings(a: seq<Atom>, at: nat, c: nat, d: nat)
    ensures Strings(Group(BlankAtoms(a), at, c)) == Strings(Group(a, at, d))
    decreases |a|
  {
    if a != [] {
      if a[0].Code? {
        assert BlankAtoms(a)[1..] == BlankAtoms(a[1..]);
        BlankKeepsStrings(a[1..], at + 1, c, d);
      } else {
        var e := at + |a[0].text|;
        BlankKeepsStrings(a[1..], e, if a[0].kind == Literal then e else c, e);
        BlankKeepsStringsOfPiece(a[0].kind, a[0].text, a[1..], at, c, d);
        assert a == [a[0]] + a[1..];
      }
    }
  }

  lemma BlankKeepsStringsOfPiece(k: Kind, s: string, a: seq<Atom>, at: nat, c: nat, d: nat)
    requires var e := at + |s|; Strings(Group(BlankAtoms(a), e, if k == Literal then e else c)) == Strings(Group(a, e, e))
    ensures Strings(Group(BlankAtoms([Piece(k, s)] + a), at, c)) == Strings(Group([Piece(k, s)] + a, at, d))
  {
    StringsOfPiece(k, s, a, at, d);
    BlankCons(Piece(k, s), a);
    if k == Literal {
      StringsOfPiece(k, s, BlankAtoms(a), at, c);
    } else {
      GroupOfCodes(Blanked(s), BlankAtoms(a), at, c);
    }
  }

  /** Rescanning the blanked text finds exactly the original string segments, at the same offsets, with the same text. */
  lemma {:induction false} BlankSegments(t: string, sql: bool)
    ensures |Blank(t, sql)| == |t|
    ensures Strings(Segments(Blank(t, sql), sql)) == Strings(Segments(t, sql))
  {
    BlankIsInvisible(t, sql);
    AtomsAreCut(t, sql);
    SpellAtoms(t, sql);
    BlankKeeps(Atoms(t, sql));
    BlankKeepsStrings(Atoms(t, sql), 0, 0, 0);
  }

  /** Every line break stays where it was, so offsets and line numbers of the blanked text are those of the original. */
  lemma BlankKeepsPlaces(t: string, sql: bool)
    ensures |Blank(t, sql)| == |t|
    ensures forall i :: 0 <= i < |t| ==> (Blank(t, sql)[i] == '\n' <==> t[i] == '\n')
    ensures forall i :: 0 <= i < |t| && Blank(t, sql)[i] != t[i] ==> Blank(t, sql)[i] == ' ' && t[i] != '\n'
  {
    AtomsAreCut(t, sql);
    SpellAtoms(t, sql);
    BlankKeeps(Atoms(t, sql));
  }

  // ---------------------------------------------------------------- the scanner's loops

  method FindEnd(text: string, i: nat, p: string, from: nat) returns (end: nat)
    requires i <= from && i <= |text|
    ensures end == i + EndOfFind(text[i..], p, from - i)
  {
    FindShift(text, i, p, from);
    var j := Find(text, p, from);
    end := if j < 0 then |text| else j + |p|;
  }

  method NestedCommentEnd(text: string, i: nat) returns (end: nat)
    requires i + 2 <= |text|
    ensures end == i + NestedEnd(text[i..], 2, 1)
  {
    hide At;
    ghost var t := text[i..];
    var depth, j := 1, i + 2;
    while j < |text| && depth > 0
      invariant i + 2 <= j <= |text|
      invariant NestedEnd(t, j - i, depth) == NestedEnd(t, 2, 1)
      decreases |text| - j
    {
      AtShift(text, i, j, "/*");
      AtShift(text, i, j, "*/");
      if At(text, j, "/*") {
        depth, j := depth + 1, j + 2;
      } else if At(text, j, "*/") {
        depth, j := depth - 1, j + 2;
      } else {
        j := j + 1;
      }
    }
    end := j;
  }

  method TextBlockEnd(text: string, i: nat) returns (end: nat)
    requires i < |text|
    ensures end == i + Min(|text[i..]|, TripleEnd(text[i..], 3) + 3)
  {
    ghost var t := text[i..];
    var j := i + 3;
    AtShift(text, i, j, "\"\"\"");
    while j < |text| && !At(text, j, "\"\"\"")
      invariant i + 3 <= j
      invariant TripleEnd(t, j - i) == TripleEnd(t, 3)
      invariant At(text, j, "\"\"\"") == At(t, j - i, "\"\"\"")
      decreases |text| - j
    {
      j := if text[j] == '\\' then j + 2 else j + 1;
      AtShift(text, i, j, "\"\"\"");
    }
    end := Min(|text|, j + 3);
  }

  method QuotedEnd(text: string, i: nat, sql: bool) returns (end: nat)
    requires i < |text|
    ensures var t, q := text[i..], text[i];
      end == i + Min(|t|, (if sql then SqlQuoteEnd(t, 1, q) else JavaQuoteEnd(t, 1, q)) + 1)
  {
    ghost var t := text[i..];
    var c := text[i];
    var j := i + 1;
    while j < |text|
      invariant i + 1 <= j && (sql ==> j <= |text|)
      invariant if sql then SqlQuoteEnd(t, j - i, c) == SqlQuoteEnd(t, 1, c) else JavaQuoteEnd(t, j - i, c) == JavaQuoteEnd(t, 1, c)
      decreases |text| - j
    {
      if sql {
        if text[j] == c {
          if j + 1 < |text| && text[j + 1] == c {
            j := j + 2;
            continue;
          }
          break;
        }
        j := j + 1;
      } else {
        if text[j] == '\\' {
          j := j + 2;
          continue;
        }
        if text[j] == c || text[j] == '\n' {
          break;
        }
        j := j + 1;
      }
    }
    end := Min(|text|, j + 1);
  }

  /** What opens at `text[i]`, decided in the order of the scanner's branches. */
  method LeadAt(text: string, i: nat, sql: bool) returns (lead: Lead)
    requires i < |text|
    ensures lead == LeadOf(text[i..], sql)
  {
    ghost var t := text[i..];
    AtShift(text, i, i, "--");
    AtShift(text, i, i, "//");
    AtShift(text, i, i, "/*");
    AtShift(text, i, i, "\"\"\"");
    var c := text[i];
    if (At(text, i, "--") && sql) || (At(text, i, "//") && !sql) {
      FindShift(text, i, "\n", i);
      var j := Find(text, "\n", i);
      var end := if j < 0 then |text| else j;
      lead := Opens(LineComment, end - i);
    } else if At(text, i, "/*") {
      var end;
      if sql {
        end := NestedCommentEnd(text, i);
      } else {
        end := FindEnd(text, i, "*/", i + 2);
      }
      lead := Opens(BlockComment, end - i);
    } else if !sql && At(text, i, "\"\"\"") {
      var end := TextBlockEnd(text, i);
      lead := Opens(Literal, end - i);
    } else if c == '"' || c == '\'' {
      var end := QuotedEnd(text, i, sql);
      lead := Opens(Literal, end - i);
    } else if sql && c == '$' && DollarTag(text[i..]) > 0 {
      var tag := text[i..][..DollarTag(text[i..])];
      var end := FindEnd(text, i, tag, i + |tag|);
      lead := Opens(Literal, end - i);
    } else {
      lead := Plain;
    }
  }

  lemma GroupStep(t: string, sql: bool, at: nat, codeStart: nat)
    requires t != ""
    ensures Group(Atoms(t, sql), at, codeStart) == match LeadOf(t, sql)
      case Plain => Group(Atoms(t[1..], sql), at + 1, codeStart)
      case Opens(k, n) =>
        Flush(codeStart, at) + [Seg(if k == Literal then StringSeg else CommentSeg, at, at + n)] + Group(Atoms(t[n..], sql), at + n, at + n)
  {
    hide LeadOf;
  }

  method ScanCLike(text: string, sql: bool) returns (segs: seq<Seg>)
    ensures segs == Segments(text, sql)
  {
    hide LeadOf, Group, Atoms;
    var n, i, codeStart := |text|, 0, 0;
    segs := [];
    ghost var all := Segments(text, sql);
    assert text[0..] == text;
    while i < n
      invariant codeStart <= i <= n
      invariant segs + Group(Atoms(text[i..], sql), i, codeStart) == all
    {
      var lead := LeadAt(text, i, sql);
      GroupStep(text[i..], sql, i, codeStart);
      match lead
      case Opens(kind, len) =>
        assert text[i..][len..] == text[i + len..];
        segs := segs + (Flush(codeStart, i) + [Seg(if kind == Literal then StringSeg else CommentSeg, i, i + len)]);
        codeStart := i + len;
        i := codeStart;
      case Plain =>
        assert text[i..][1..] == text[i + 1..];
        i := i + 1;
    }
    EmptyGroup(text[i..], sql, n, codeStart);
    segs := segs + Flush(codeStart, n);
  }

  lemma EmptyGroup(t: string, sql: bool, at: nat, codeStart: nat)
    requires t == ""
    ensures Group(Atoms(t, sql), at, codeStart) == Flush(codeStart, at)
  {
  }

  // ---------------------------------------------------------------- blanking segment by segment

  /** What `blank_c_like` makes of one segment's text. */
  function Mask(kind: SegKind, s: string, keepStrings: bool): string {
    if kind == CodeSeg || (kind == StringSeg && keepStrings) then s
    else if kind == CommentSeg then Blanked(s)
    else if |s| >= 2 then [s[0]] + Blanked(s[1..|s| - 1]) + [s[|s| - 1]]
    else s
  }

  function MaskAtoms(a: seq<Atom>, keepStrings: bool): string {
    if a == [] then ""
    else (match a[0] case Code(c) => [c] case Piece(k, s) => Mask(if k == Literal then StringSeg else CommentSeg, s, keepStrings))
         + MaskAtoms(a[1..], keepStrings)
  }

  /** The text of a segment; every segment of a scan lies inside the text. */
  function TextOf(text: string, x: Seg): string {
    if x.start <= x.end <= |text| then text[x.start..x.end] else ""
  }

  function MaskSegs(text: string, segs: seq<Seg>, keepStrings: bool): string {
    if segs == [] then ""
    else Mask(segs[0].kind, TextOf(text, segs[0]), keepStrings) + MaskSegs(text, segs[1..], keepStrings)
  }

  /** `blank_c_like(text, sql, keep_strings)` */
  function BlankCLike(text: string, sql: bool, keepStrings: bool): string {
    MaskAtoms(Atoms(text, sql), keepStrings)
  }

  lemma {:induction false} MaskKeepIsBlank(a: seq<Atom>)
    ensures MaskAtoms(a, true) == Spell(BlankAtoms(a))
  {
    if a != [] {
      MaskKeepIsBlank(a[1..]);
      if a[0].Piece? && a[0].kind != Literal {
        SpellPlus(Codes(Blanked(a[0].text)), BlankAtoms(a[1..]));
        SpellCodes(Blanked(a[0].text));
      } else {
        SpellCons(a[0], BlankAtoms(a[1..]));
      }
    }
  }

  /** With the strings kept, the text is the one whose rescan `CLikeBlank.BlankIsInvisible` describes. */
  lemma KeepingStringsIsBlank(text: string, sql: bool)
    ensures BlankCLike(text, sql, true) == Blank(text, sql)
  {
    MaskKeepIsBlank(Atoms(text, sql));
  }

  predicate SameLines(s: string, t: string) {
    |s| == |t| && forall i :: 0 <= i < |s| ==> (s[i] == '\n' <==> t[i] == '\n')
  }

  lemma MaskKeepsLines(kind: SegKind, s: string, keepStrings: bool)
    ensures SameLines(Mask(kind, s, keepStrings), s)
  {
    if kind == StringSeg && !keepStrings && |s| >= 2 {
      var m := Blanked(s[1..|s| - 1]);
      assert Mask(kind, s, keepStrings) == [s[0]] + m + [s[|s| - 1]];
      assert forall i :: 1 <= i < |s| - 1 ==> s[1..|s| - 1][i - 1] == s[i] && ([s[0]] + m + [s[|s| - 1]])[i] == m[i - 1];
    }
  }

  lemma SameLinesPlus(a: string, b: string, c: string, d: string)
    requires SameLines(a, b) && SameLines(c, d)
    ensures SameLines(a + c, b + d)
  {
  }

  lemma {:induction false} MaskKeepsPlaces(a: seq<Atom>, keepStrings: bool)
    ensures SameLines(MaskAtoms(a, keepStrings), Spell(a))
  {
    if a != [] {
      MaskKeepsPlaces(a[1..], keepStrings);
      match a[0]
      case Code(c) =>
        SameLinesPlus([c], [c], MaskAtoms(a[1..], keepStrings), Spell(a[1..]));
      case Piece(k, s) =>
        var kind := if k == Literal then StringSeg else CommentSeg;
        MaskKeepsLines(kind, s, keepStrings);
        SameLinesPlus(Mask(kind, s, keepStrings), s, MaskAtoms(a[1..], keepStrings), Spell(a[1..]));
    }
  }

  /** Whether or not strings are kept, the length and the place of every line break stay, so line numbers do. */
  lemma LinesStay(text: string, sql: bool, keepStrings: bool)
    ensures SameLines(BlankCLike(text, sql, keepStrings), text)
  {
    hide Atoms;
    SpellAtoms(text, sql);
    MaskKeepsPlaces(Atoms(text, sql), keepStrings);
  }

  lemma {:induction false} SegmentsInside(segs: seq<Seg>, from: nat, to: nat)
    requires Tiles(segs, from, to)
    ensures from <= to && forall x :: x in segs ==> from <= x.start < x.end <= to
  {
    if segs != [] { SegmentsInside(segs[1..], segs[0].end, to); }
  }

  lemma SpellHead(text: string, a: seq<Atom>, at: nat)
    requires a != [] && at <= |text| && text[at..] == Spell(a)
    ensures var s := if a[0].Code? then [a[0].c] else a[0].text;
      at + |s| <= |text| && text[at..at + |s|] == s && text[at + |s|..] == Spell(a[1..])
  {
    var s := if a[0].Code? then [a[0].c] else a[0].text;
    assert text[at..][..|s|] == s;
    assert text[at..][|s|..] == Spell(a[1..]);
  }

  lemma MaskFirst(text: string, x: Seg, segs: seq<Seg>, keepStrings: bool)
    ensures MaskSegs(text, [x] + segs, keepStrings) == Mask(x.kind, TextOf(text, x), keepStrings) + MaskSegs(text, segs, keepStrings)
  {
    assert ([x] + segs)[1..] == segs;
  }

  lemma MaskFlush(text: string, from: nat, upto: nat, segs: seq<Seg>, keepStrings: bool)
    requires from <= upto <= |text|
    ensures MaskSegs(text, Flush(from, upto) + segs, keepStrings) == text[from..upto] + MaskSegs(text, segs, keepStrings)
  {
    if from < upto {
      MaskFirst(text, Seg(CodeSeg, from, upto), segs, keepStrings);
    } else {
      assert Flush(from, upto) + segs == segs;
      assert text[from..upto] == "";
    }
  }

  /** Masking segment by segment is masking atom by atom; `codeStart` is where the pending code began. */
  lemma {:induction false} MaskSegments(text: string, a: seq<Atom>, at: nat, codeStart: nat, keepStrings: bool)
    requires codeStart <= at <= |text| && text[at..] == Spell(a)
    ensures MaskSegs(text, Group(a, at, codeStart), keepStrings) == text[codeStart..at] + MaskAtoms(a, keepStrings)
    decreases |a|
  {
    hide *;
    if a == [] {
      MaskEnd(text, at, codeStart, keepStrings);
    } else {
      SpellHead(text, a, at);
      if a[0].Code? {
        MaskSegments(text, a[1..], at + 1, codeStart, keepStrings);
        MaskCode(text, a, at, codeStart, keepStrings);
      } else {
        var e := at + |a[0].text|;
        MaskSegments(text, a[1..], e, e, keepStrings);
        MaskPiece(text, a[0], a[1..], at, codeStart, keepStrings);
        assert [a[0]] + a[1..] == a;
      }
    }
  }

  lemma MaskEnd(text: string, at: nat, codeStart: nat, keepStrings: bool)
    requires codeStart <= at <= |text|
    ensures MaskSegs(text, Group([], at, codeStart), keepStrings) == text[codeStart..at] + MaskAtoms([], keepStrings)
  {
    MaskFlush(text, codeStart, at, [], keepStrings);
    MaskNothing(text, keepStrings);
    assert Flush(codeStart, at) + [] == Flush(codeStart, at);
  }

  lemma MaskCode(text: string, a: seq<Atom>, at: nat, codeStart: nat, keepStrings: bool)
    requires a != [] && a[0].Code? && codeStart <= at < |text| && text[at..at + 1] == [a[0].c]
    ensures Group(a, at, codeStart) == Group(a[1..], at + 1, codeStart)
    ensures text[codeStart..at + 1] + MaskAtoms(a[1..], keepStrings) == text[codeStart..at] + MaskAtoms(a, keepStrings)
  {
    assert text[at] == text[at..at + 1][0];
    assert text[codeStart..at + 1] == text[codeStart..at] + [a[0].c];
    Assoc(text[codeStart..at], [a[0].c], MaskAtoms(a[1..], keepStrings));
  }

  lemma MaskPiece(text: string, p: Atom, a: seq<Atom>, at: nat, codeStart: nat, keepStrings: bool)
    requires p.Piece? && codeStart <= at && at + |p.text| <= |text| && text[at..at + |p.text|] == p.text
    requires var e := at + |p.text|; MaskSegs(text, Group(a, e, e), keepStrings) == text[e..e] + MaskAtoms(a, keepStrings)
    ensures MaskSegs(text, Group([p] + a, at, codeStart), keepStrings) == text[codeStart..at] + MaskAtoms([p] + a, keepStrings)
  {
    hide *;
    var e := at + |p.text|;
    var x, rest := Seg(if p.kind == Literal then StringSeg else CommentSeg, at, e), Group(a, e, e);
    assert MaskSegs(text, rest, keepStrings) == MaskAtoms(a, keepStrings) by {
      assert text[e..e] + MaskAtoms(a, keepStrings) == MaskAtoms(a, keepStrings);
    }
    assert TextOf(text, x) == p.text by { TextOfPiece(text, x); }
    GroupPiece(p, a, at, codeStart);
    MaskAtomsPiece(p, a, keepStrings);
    MaskFirst(text, x, rest, keepStrings);
    MaskFlush(text, codeStart, at, [x] + rest, keepStrings);
  }

  lemma TextOfPiece(text: string, x: Seg)
    requires x.start <= x.end <= |text|
    ensures TextOf(text, x) == text[x.start..x.end]
  {
  }

  lemma GroupPiece(p: Atom, a: seq<Atom>, at: nat, codeStart: nat)
    requires p.Piece?
    ensures var e := at + |p.text|;
      Group([p] + a, at, codeStart)
      == Flush(codeStart, at) + ([Seg(if p.kind == Literal then StringSeg else CommentSeg, at, e)] + Group(a, e, e))
  {
    assert ([p] + a)[1..] == a;
    var e := at + |p.text|;
    Assoc(Flush(codeStart, at), [Seg(if p.kind == Literal then StringSeg else CommentSeg, at, e)], Group(a, e, e));
  }

  lemma MaskAtomsPiece(p: Atom, a: seq<Atom>, keepStrings: bool)
    requires p.Piece?
    ensures MaskAtoms([p] + a, keepStrings)
         == Mask(if p.kind == Literal then StringSeg else CommentSeg, p.text, keepStrings) + MaskAtoms(a, keepStrings)
  {
    assert ([p] + a)[1..] == a;
  }

  lemma MaskIsBlank(text: string, sql: bool, keepStrings: bool)
    ensures forall x :: x in Segments(text, sql) ==> x.start < x.end <= |text|
    ensures MaskSegs(text, Segments(text, sql), keepStrings) == BlankCLike(text, sql, keepStrings)
  {
    hide Atoms, Group, MaskSegs, MaskAtoms, Tiles, Spell;
    SegmentsTile(text, sql);
    SegmentsInside(Segments(text, sql), 0, |text|);
    SpellAtoms(text, sql);
    MaskSegments(text, Atoms(text, sql), 0, 0, keepStrings);
  }

  lemma MaskSegsStep(text: string, segs: seq<Seg>, k: nat, keepStrings: bool)
    requires k < |segs|
    ensures MaskSegs(text, segs[k..], keepStrings)
         == Mask(segs[k].kind, TextOf(text, segs[k]), keepStrings) + MaskSegs(text, segs[k + 1..], keepStrings)
  {
    assert segs[k..][1..] == segs[k + 1..];
  }

  method MaskSegment(kind: SegKind, seg: string, keepStrings: bool) returns (piece: string)
    ensures piece == Mask(kind, seg, keepStrings) && SameLines(piece, seg)
  {
    MaskKeepsLines(kind, seg, keepStrings);
    if kind == CodeSeg || (kind == StringSeg && keepStrings) {
      piece := seg;
    } else if kind == CommentSeg {
      piece := Blanked(seg);
    } else {
      piece := if |seg| >= 2 then [seg[0]] + Blanked(seg[1..|seg| - 1]) + [seg[|seg| - 1]] else seg;
    }
  }

  method BlankInPlace(text: string, sql: bool, keepStrings: bool) returns (out: string)
    ensures out == BlankCLike(text, sql, keepStrings)
  {
    hide Segments, BlankCLike, MaskSegs, Mask;
    var segs := ScanCLike(text, sql);
    MaskIsBlank(text, sql, keepStrings);
    out := "";
    ghost var all := BlankCLike(text, sql, keepStrings);
    assert segs[0..] == segs;
    for k := 0 to |segs|
      invariant out + MaskSegs(text, segs[k..], keepStrings) == all
    {
      var piece := MaskSegment(segs[k].kind, text[segs[k].start..segs[k].end], keepStrings);
      MaskSegsStep(text, segs, k, keepStrings);
      Assoc(out, piece, MaskSegs(text, segs[k + 1..], keepStrings));
      out := out + piece;
    }
    MaskNothing(text, keepStrings);
    assert segs[|segs|..] == [];
  }

  lemma MaskNothing(text: string, keepStrings: bool)
    ensures MaskSegs(text, [], keepStrings) == ""
  {
  }
}
