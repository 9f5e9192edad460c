/** `norm_shell`: shell source without comments and blank lines, with quotes and here-documents left alone. */
module ShellNormalizer {
  import opened Text

  /** A here-document's delimiter, and whether leading tabs of its lines are ignored. */
  type Doc = (string, bool)

  // ---------------------------------------------------------------- the delimiter after `<<`

  predicate NameStart(c: char) {
    'A' <= c <= 'Z' || 'a' <= c <= 'z' || c == '_'
  }

  predicate NameChar(c: char) {
    NameStart(c) || '0' <= c <= '9'
  }

  function SkipBlanks(line: string, k: nat): (e: nat)
    requires k <= |line|
    ensures k <= e <= |line|
    decreases |line| - k
  {
    if k < |line| && (line[k] == ' ' || line[k] == '\t') then SkipBlanks(line, k + 1) else k
  }

  function NameEnd(line: string, k: nat): (e: nat)
    requires k <= |line|
    ensures k <= e <= |line|
    decreases |line| - k
  {
    if k < |line| && NameChar(line[k]) then NameEnd(line, k + 1) else k
  }

  /** One character further when `c` is there. */
  function Skip(line: string, k: nat, c: char): (e: nat)
    requires k <= |line|
    ensures k <= e <= |line|
  {
    if k < |line| && line[k] == c then k + 1 else k
  }

  /** The name at `k`, between quotes when one stands there. */
  function NameAt(line: string, k: nat): Option<string>
    requires k <= |line|
  {
    var quoted := k < |line| && (line[k] == '"' || line[k] == '\'');
    var start := if quoted then k + 1 else k;
    var end := NameEnd(line, start);
    if start == |line| || !NameStart(line[start]) then None
    else if quoted && !(end < |line| && line[end] == line[k]) then None
    else Some(line[start..end])
  }

  /** The match of `<<(-?)[ \t]*\\?(["']?)([A-Za-z_][A-Za-z0-9_]*)\2` at `j`, where `<<` stands. */
  function DocAt(line: string, j: nat): seq<Doc>
    requires j + 2 <= |line|
  {
    var k := Skip(line, j + 2, '-');
    var name := NameAt(line, Skip(line, SkipBlanks(line, k), '\\'));
    if name.Some? then [(name.value, k > j + 2)] else []
  }

  // ---------------------------------------------------------------- one line

  /** Where the comment of a line starts (its length without one), the quotes it ends in, and the here-documents it announces. */
  datatype Scanned = Scanned(cut: nat, sq: bool, dq: bool, docs: seq<Doc>)

  predicate StartsComment(line: string, j: nat)
    requires j < |line|
  {
    line[j] == '#' &&
    (j == 0 || line[j - 1] == ' ' || line[j - 1] == '\t' || line[j - 1] == ';' || line[j - 1] == '&' || line[j - 1] == '|' || line[j - 1] == '(')
  }

  predicate StartsDoc(line: string, j: nat)
    requires j < |line|
  {
    At(line, j, "<<") && !At(line, j, "<<<") && (j == 0 || line[j - 1] != '<')
  }

  function DocsHere(line: string, j: nat): seq<Doc>
    requires j < |line|
  {
    if StartsDoc(line, j) then DocAt(line, j) else []
  }

  /** The scan of a line from position `j` on, in the given quotes. */
  function Scan(line: string, j: nat, sq: bool, dq: bool): (r: Scanned)
    ensures r.cut <= |line|
    ensures r.cut < |line| ==> j <= r.cut && line[r.cut] == '#'
    decreases |line| - j
  {
    if j >= |line| then Scanned(|line|, sq, dq, [])
    else if sq then Scan(line, j + 1, line[j] != '\'', dq)
    else if dq then if line[j] == '\\' then Scan(line, j + 2, sq, dq) else Scan(line, j + 1, sq, line[j] != '"')
    else if line[j] == '\\' then Scan(line, j + 2, sq, dq)
    else if line[j] == '\'' then Scan(line, j + 1, true, dq)
    else if line[j] == '"' then Scan(line, j + 1, sq, true)
    else if StartsComment(line, j) then Scanned(j, sq, dq, [])
    else
      var rest := Scan(line, j + 1, sq, dq);
      rest.(docs := DocsHere(line, j) + rest.docs)
  }

  function Rstrip(s: string): (r: string)
    ensures r <= s && (|r| > 0 ==> !IsSpace(r[|r| - 1]))
    ensures forall i :: |r| <= i < |s| ==> IsSpace(s[i])
  {
    if s != "" && IsSpace(s[|s| - 1]) then Rstrip(s[..|s| - 1]) else s
  }

  // ---------------------------------------------------------------- the lines of a file

  datatype State = State(sq: bool, dq: bool, docs: seq<Doc>, body: Option<Doc>)

  const QUIET := State(false, false, [], None)

  function LstripTabs(s: string): string {
    if s != "" && s[0] == '\t' then LstripTabs(s[1..]) else s
  }

  predicate Ends(line: string, d: Doc) {
    (if d.1 then LstripTabs(line) else line) == d.0
  }

  /** The next here-document, if one is waiting. */
  function Pop(s: State): State {
    if s.docs == [] then s.(body := None) else s.(docs := s.docs[1..], body := Some(s.docs[0]))
  }

  predicate Shebang(first: bool, line: string) {
    first && At(line, 0, "#!")
  }

  function After(s: State, line: string): State
    requires s.body.None?
  {
    var r := Scan(line, 0, s.sq, s.dq);
    Pop(State(r.sq, r.dq, s.docs + r.docs, None))
  }

  /** What one line contributes: its text without the comment; trailing blanks go unless the line began inside a quote. */
  function Kept(s: State, line: string): seq<string> {
    var text := line[..Scan(line, 0, s.sq, s.dq).cut];
    if s.sq || s.dq then [text] else if AllSpace(text) then [] else [Rstrip(text)]
  }

  /** What one line contributes, and the state after it. */
  function Line(first: bool, s: State, line: string): (seq<string>, State) {
    if s.body.Some? then ([line], if Ends(line, s.body.value) then Pop(s) else s)
    else if Shebang(first, line) then ([line], s)
    else (Kept(s, line), After(s, line))
  }

  /** The normal form of the lines, from a state; `first` says that the first of them opens the file. */
  function Norm(lines: seq<string>, first: bool, s: State): seq<string>
    decreases |lines|
  {
    if lines == [] then []
    else if s.body.Some? then
      [lines[0]] + Norm(lines[1..], false, if Ends(lines[0], s.body.value) then Pop(s) else s)
    else if Shebang(first, lines[0]) then [lines[0]] + Norm(lines[1..], false, s)
    else Kept(s, lines[0]) + Norm(lines[1..], false, After(s, lines[0]))
  }

  // ---------------------------------------------------------------- a line and its stripped text are scanned alike

  /** `m` is where a line's text may be cut: nothing but blanks up to the comment or the end. */
  predicate Cuttable(line: string, m: nat, cut: nat) {
    m <= cut <= |line| && (forall i :: m <= i < cut ==> IsSpace(line[i])) && (cut < |line| ==> line[cut] == '#')
  }

  lemma {:induction false} BlanksStop(line: string, k: nat, m: nat, cut: nat)
    requires k <= m && Cuttable(line, m, cut)
    ensures var e, f := SkipBlanks(line[..m], k), SkipBlanks(line, k);
      if e < m then f == e else m <= f <= cut
    decreases |line| - k
  {
    if k < m && (line[k] == ' ' || line[k] == '\t') {
      BlanksStop(line, k + 1, m, cut);
    } else if k == m {
      BlanksInside(line, m, cut);
    }
  }

  lemma {:induction false} BlanksInside(line: string, k: nat, cut: nat)
    requires k <= cut <= |line| && (cut < |line| ==> line[cut] == '#')
    ensures SkipBlanks(line, k) <= cut
    decreases cut - k
  {
    if k < cut { BlanksInside(line, k + 1, cut); }
  }

  lemma {:induction false} NameStops(line: string, k: nat, m: nat, cut: nat)
    requires k <= m && Cuttable(line, m, cut)
    ensures NameEnd(line, k) == NameEnd(line[..m], k)
    decreases m - k
  {
    if k < m {
      NameStops(line, k + 1, m, cut);
    } else if m < |line| {
      assert IsSpace(line[m]) || line[m] == '#';
    }
  }

  /** Past the text there is no quote, no backslash and no name. */
  lemma Nothing(line: string, k: nat, m: nat, cut: nat)
    requires m <= k <= cut && Cuttable(line, m, cut)
    ensures k < |line| ==> IsSpace(line[k]) || line[k] == '#'
    ensures Skip(line, k, '\\') == k && Skip(line, k, '-') == k && NameAt(line, k) == None
  {
  }

  lemma NameAtPrefix(line: string, k: nat, m: nat, cut: nat)
    requires k <= m && Cuttable(line, m, cut)
    ensures NameAt(line[..m], k) == NameAt(line, k)
  {
    if k == m {
      Nothing(line, m, m, cut);
    } else {
      var quoted := line[k] == '"' || line[k] == '\'';
      var start := if quoted then k + 1 else k;
      NameStops(line, start, m, cut);
      if start < m {
        var end := NameEnd(line, start);
        assert line[..m][start..end] == line[start..end];
        assert end == m < |line| ==> IsSpace(line[m]) || line[m] == '#';
      } else {
        Nothing(line, m, m, cut);
      }
    }
  }

  lemma DocAtPrefix(line: string, j: nat, m: nat, cut: nat)
    requires j + 2 <= m && Cuttable(line, m, cut)
    ensures DocAt(line[..m], j) == DocAt(line, j)
  {
    var p := line[..m];
    var k := Skip(p, j + 2, '-');
    assert Skip(line, j + 2, '-') == k by { if j + 2 == m { Nothing(line, m, m, cut); } }
    BlanksStop(line, k, m, cut);
    var e, f := SkipBlanks(p, k), SkipBlanks(line, k);
    if e < m {
      NameAtPrefix(line, Skip(p, e, '\\'), m, cut);
    } else {
      Nothing(line, m, m, cut);
      Nothing(line, f, m, cut);
      NameAtPrefix(line, m, m, cut);
    }
  }

  lemma AtPrefix(line: string, j: nat, m: nat, p: string)
    requires m <= |line| && j + |p| <= m
    ensures At(line[..m], j, p) == At(line, j, p)
  {
    assert line[..m][j..j + |p|] == line[j..j + |p|];
  }

  lemma DocsHerePrefix(line: string, j: nat, m: nat, cut: nat)
    requires j < m && Cuttable(line, m, cut)
    ensures DocsHere(line[..m], j) == DocsHere(line, j)
  {
    var p := line[..m];
    if m < |line| { assert IsSpace(line[m]) || line[m] == '#'; }
    if j + 2 <= m {
      AtPrefix(line, j, m, "<<");
      assert At(p, j, "<<<") == At(line, j, "<<<") by {
        if j + 3 <= m { AtPrefix(line, j, m, "<<<"); } else { LastOf(line, j, "<<<"); }
      }
      DocAtPrefix(line, j, m, cut);
    } else {
      LastOf(line, j, "<<");
    }
  }

  lemma AtHere(line: string, j: nat, p: string)
    requires p != ""
    ensures At(line, j, p) ==> line[j] == p[0]
  {
    if At(line, j, p) { assert line[j..j + |p|][0] == line[j]; }
  }

  lemma LastOf(line: string, j: nat, p: string)
    requires p != ""
    ensures At(line, j, p) ==> line[j + |p| - 1] == p[|p| - 1]
  {
    if At(line, j, p) { assert line[j..j + |p|][|p| - 1] == line[j + |p| - 1]; }
  }

  /** From a position past the text, only blanks follow: the quotes stay as they are and nothing is announced. */
  lemma {:induction false} ScanBlanks(line: string, j: nat, sq: bool, dq: bool, m: nat)
    requires m <= j && Cuttable(line, m, Scan(line, j, sq, dq).cut)
    ensures Scan(line, j, sq, dq) == Scanned(Scan(line, j, sq, dq).cut, sq, dq, [])
    decreases |line| - j
  {
    hide DocsHere, DocAt, StartsDoc;
    var cut := Scan(line, j, sq, dq).cut;
    if j < cut {
      BlankIsPlain(line[j]);
      NoDoc(line, j);
      ScanBlanks(line, j + 1, sq, dq, m);
    }
  }

  lemma BlankIsPlain(c: char)
    ensures IsSpace(c) ==> c != '\\' && c != '\'' && c != '"' && c != '#' && c != '<'
  {
  }

  lemma NoDoc(line: string, j: nat)
    requires j < |line| && line[j] != '<'
    ensures DocsHere(line, j) == []
  {
    AtHere(line, j, "<<");
  }

  /** A line cut where only blanks follow is scanned like the whole line. */
  lemma {:induction false} ScanPrefix(line: string, j: nat, sq: bool, dq: bool, m: nat)
    requires Cuttable(line, m, Scan(line, j, sq, dq).cut)
    ensures var r := Scan(line, j, sq, dq); Scan(line[..m], j, sq, dq) == Scanned(m, r.sq, r.dq, r.docs)
    decreases |line| - j
  {
    hide StartsDoc, DocAt;
    var p, cut := line[..m], Scan(line, j, sq, dq).cut;
    if j >= m {
      ScanBlanks(line, j, sq, dq, m);
    } else {
      DocsHerePrefix(line, j, m, cut);
      if sq {
        ScanPrefix(line, j + 1, line[j] != '\'', dq, m);
      } else if line[j] == '\\' {
        ScanPrefix(line, j + 2, sq, dq, m);
      } else if dq {
        ScanPrefix(line, j + 1, sq, line[j] != '"', m);
      } else if line[j] == '\'' {
        ScanPrefix(line, j + 1, true, dq, m);
      } else if line[j] == '"' {
        ScanPrefix(line, j + 1, sq, true, m);
      } else {
        ScanPrefix(line, j + 1, sq, dq, m);
      }
    }
  }

  lemma {:induction false} RstripAgain(s: string)
    ensures Rstrip(Rstrip(s)) == Rstrip(s) && (Rstrip(s) == "" <==> AllSpace(s)) && (AllSpace(Rstrip(s)) <==> AllSpace(s))
  {
    var r := Rstrip(s);
    if r == "" {
      assert forall i :: 0 <= i < |s| ==> IsSpace(s[i]);
    } else {
      assert !IsSpace(r[|r| - 1]) && s[|r| - 1] == r[|r| - 1];
    }
  }

  /** What a line keeps is kept again, and leaves the same state. */
  lemma KeptAgain(s: State, line: string)
    requires s.body.None? && Kept(s, line) != []
    ensures var t := Kept(s, line)[0]; Kept(s, line) == [t] && t <= line && Kept(s, t) == [t] && After(s, t) == After(s, line)
  {
    var r := Scan(line, 0, s.sq, s.dq);
    var text := line[..r.cut];
    RstripAgain(text);
    var m := if s.sq || s.dq then r.cut else |Rstrip(text)|;
    var t := line[..m];
    assert t == Kept(s, line)[0] by { if !(s.sq || s.dq) { assert text[..m] == Rstrip(text) && text[..m] == line[..m]; } }
    assert Cuttable(line, m, r.cut);
    hide Cuttable, AllSpace, IsSpace;
    ScanPrefix(line, 0, s.sq, s.dq, m);
    assert t[..m] == t;
  }

  /** A line that is dropped leaves the state alone. */
  lemma DroppedIsNothing(s: State, line: string)
    requires s.body.None? && s.docs == [] && Kept(s, line) == []
    ensures After(s, line) == s
  {
    var r := Scan(line, 0, s.sq, s.dq);
    assert forall i :: 0 <= i < r.cut ==> line[..r.cut][i] == line[i];
    ScanPrefix(line, 0, s.sq, s.dq, 0);
    assert Scan("", 0, s.sq, s.dq) == Scanned(0, s.sq, s.dq, []);
    assert line[..0] == "";
  }

  lemma CommentKeepsNothing(s: State, line: string)
    requires !s.sq && !s.dq
    ensures line != "" && line[0] == '#' ==> Kept(s, line) == []
  {
    if line != "" && line[0] == '#' {
      assert StartsComment(line, 0);
      assert Scan(line, 0, s.sq, s.dq).cut == 0 && line[..0] == "";
    }
  }

  /** Outside quotes a kept text never starts with `#!`: its line would be a comment. */
  lemma NoShebang(s: State, line: string)
    requires !s.sq && !s.dq && Kept(s, line) != []
    ensures !At(Kept(s, line)[0], 0, "#!")
  {
    CommentKeepsNothing(s, line);
    var t := Kept(s, line)[0];
    AtHere(t, 0, "#!");
    assert t != "" ==> t[0] == line[0];
  }

  /** Normalising the result changes nothing; `again` says whether it is read from the start of a file. */
  lemma {:induction false} NormAgain(lines: seq<string>, first: bool, again: bool, s: State)
    requires (s.body.None? ==> s.docs == []) && (first ==> again) && (again ==> s == QUIET)
    ensures Norm(Norm(lines, first, s), again, s) == Norm(lines, first, s)
    decreases |lines|
  {
    hide Kept, After, Ends, Scan;
    if lines != [] {
      var line, rest := lines[0], lines[1..];
      if s.body.Some? {
        var s1 := if Ends(line, s.body.value) then Pop(s) else s;
        NormAgain(rest, false, false, s1);
        assert ([line] + Norm(rest, false, s1))[1..] == Norm(rest, false, s1);
      } else if Shebang(first, line) {
        NormAgain(rest, false, false, s);
        assert ([line] + Norm(rest, false, s))[1..] == Norm(rest, false, s);
      } else if Kept(s, line) == [] {
        DroppedIsNothing(s, line);
        NormAgain(rest, false, again, s);
        assert [] + Norm(rest, false, s) == Norm(rest, false, s);
      } else {
        KeptAgain(s, line);
        AfterIsOpen(s, line);
        var t, s1 := Kept(s, line)[0], After(s, line);
        if again { NoShebang(s, line); }
        NormAgain(rest, false, false, s1);
        assert ([t] + Norm(rest, false, s1))[1..] == Norm(rest, false, s1);
      }
    }
  }

  lemma AfterIsOpen(s: State, line: string)
    requires s.body.None?
    ensures After(s, line).body.None? ==> After(s, line).docs == []
  {
  }

  // ---------------------------------------------------------------- comments are invisible

  predicate Separator(c: char) {
    c == ' ' || c == '\t' || c == ';' || c == '&' || c == '|' || c == '('
  }

  /** A `#` after a separator outside quotes starts a comment, whatever the comment says. */
  lemma {:induction false} CommentStarts(code: string, rest: string, j: nat, sq: bool, dq: bool)
    requires j <= |code| && (code != "" ==> Separator(code[|code| - 1]))
    requires var r := Scan(code, j, sq, dq); r.cut == |code| && !r.sq && !r.dq
    ensures Scan(code + ("#" + rest), j, sq, dq).cut == |code|
    decreases |code| - j
  {
    hide StartsDoc, DocAt, DocsHere;
    var line := code + ("#" + rest);
    if j == |code| {
      assert StartsComment(line, j);
    } else {
      assert line[j] == code[j] && (j > 0 ==> line[j - 1] == code[j - 1]);
      if !sq && code[j] == '\\' {
        assert j + 2 <= |code|;
        CommentStarts(code, rest, j + 2, sq, dq);
      } else if sq {
        CommentStarts(code, rest, j + 1, code[j] != '\'', dq);
      } else if dq {
        CommentStarts(code, rest, j + 1, sq, code[j] != '"');
      } else if code[j] == '\'' {
        CommentStarts(code, rest, j + 1, true, dq);
      } else if code[j] == '"' {
        CommentStarts(code, rest, j + 1, sq, true);
      } else {
        CommentStarts(code, rest, j + 1, sq, dq);
      }
    }
  }

  /** Adding a comment to a line of code changes neither what is kept nor the state after it. */
  lemma CommentIsInvisible(s: State, code: string, rest: string)
    requires s.body.None? && (code != "" ==> Separator(code[|code| - 1]))
    requires var r := Scan(code, 0, s.sq, s.dq); r.cut == |code| && !r.sq && !r.dq
    ensures Kept(s, code + ("#" + rest)) == Kept(s, code) && After(s, code + ("#" + rest)) == After(s, code)
  {
    var line := code + ("#" + rest);
    CommentStarts(code, rest, 0, s.sq, s.dq);
    ScanPrefix(line, 0, s.sq, s.dq, |code|);
    assert line[..|code|] == code && code[..|code|] == code;
  }

  /** The state in which the line after the first `n` is read. */
  function StateAfter(lines: seq<string>, first: bool, s: State): State
    decreases |lines|
  {
    if lines == [] then s else StateAfter(lines[1..], false, Line(first, s, lines[0]).1)
  }

  lemma {:induction false} NormPlus(a: seq<string>, b: seq<string>, first: bool, s: State)
    ensures Norm(a + b, first, s) == Norm(a, first, s) + Norm(b, first && a == [], StateAfter(a, first, s))
    decreases |a|
  {
    hide Line;
    if a == [] {
      assert a + b == b;
    } else {
      assert (a + b)[1..] == a[1..] + b;
      var (kept, next) := Line(first, s, a[0]);
      NormCons(a + b, first, s);
      NormCons(a, first, s);
      NormPlus(a[1..], b, false, next);
      Assoc(kept, Norm(a[1..], false, next), Norm(b, false, StateAfter(a[1..], false, next)));
    }
  }

  lemma NormCons(lines: seq<string>, first: bool, s: State)
    requires lines != []
    ensures var (kept, next) := Line(first, s, lines[0]); Norm(lines, first, s) == kept + Norm(lines[1..], false, next)
  {
    hide Kept, After, Ends, Shebang;
  }

  /** At the start of a file, a `#!` in front of a comment stands at the start of its line, where the code is empty. */
  lemma ShebangIsComment(code: string, rest: string)
    requires Scan(code, 0, false, false).cut == |code|
    ensures At(code + ("#" + rest), 0, "#!") ==> code == ""
    ensures !At(code, 0, "#!")
  {
    var line := code + ("#" + rest);
    AtHere(line, 0, "#!");
    AtHere(code, 0, "#!");
    if code != "" {
      assert line[0] == code[0];
      if code[0] == '#' { assert StartsComment(code, 0); }
    }
  }

  lemma LineWithComment(first: bool, s: State, code: string, rest: string)
    requires s.body.None? && (code != "" ==> Separator(code[|code| - 1])) && (first ==> s == QUIET)
    requires var r := Scan(code, 0, s.sq, s.dq); r.cut == |code| && !r.sq && !r.dq
    ensures var line := code + ("#" + rest);
      if Shebang(first, line) then Line(first, s, line) == ([line], s) && Line(first, s, code) == ([], s)
      else Line(first, s, line) == Line(first, s, code)
  {
    CommentIsInvisible(s, code, rest);
    if first { ShebangIsComment(code, rest); }
    if code == "" { NothingKept(s); }
    hide Scan, Kept, After, At, Separator;
  }

  lemma NothingKept(s: State)
    ensures s == QUIET ==> Kept(s, "") == [] && After(s, "") == s
  {
  }

  /**
   * A comment added to a line anywhere in a file, outside quotes and here-documents, leaves the normal form unchanged exactly
   * when it does not make the first line one that starts with `#!`.
   */
  lemma CommentsDoNotCount(above: seq<string>, code: string, rest: string, below: seq<string>)
    requires var s := StateAfter(above, true, QUIET); s.body.None?
    requires code != "" ==> Separator(code[|code| - 1])
    requires var s := StateAfter(above, true, QUIET); var r := Scan(code, 0, s.sq, s.dq); r.cut == |code| && !r.sq && !r.dq
    ensures Norm(above + ([code + ("#" + rest)] + below), true, QUIET) == Norm(above + ([code] + below), true, QUIET)
       <==> !Shebang(above == [], code + ("#" + rest))
  {
    var s, first := StateAfter(above, true, QUIET), above == [];
    var line := code + ("#" + rest);
    assert first ==> s == QUIET;
    LineWithComment(first, s, code, rest);
    hide *;
    NormPlus(above, [line] + below, true, QUIET);
    NormPlus(above, [code] + below, true, QUIET);
    NormCons([line] + below, first, s);
    NormCons([code] + below, first, s);
    assert ([line] + below)[1..] == below && ([code] + below)[1..] == below;
    if Shebang(first, line) {
      OneLonger(Norm(above, true, QUIET), line, Norm(below, false, s));
    }
  }

  lemma OneLonger(a: seq<string>, line: string, b: seq<string>)
    ensures a + ([line] + b) != a + ([] + b)
  {
    assert |a + ([line] + b)| == |a| + 1 + |b| && |a + ([] + b)| == |a| + |b|;
  }

  // ---------------------------------------------------------------- texts

  predicate OneLine(s: string) {
    forall i :: 0 <= i < |s| ==> s[i] != '\n'
  }

  /** `text.split("\n")` */
  function Split(text: string): (ls: seq<string>)
    ensures |ls| >= 1 && forall i :: 0 <= i < |ls| ==> OneLine(ls[i])
  {
    if text == "" then [""]
    else
      var rest := Split(text[1..]);
      if text[0] == '\n' then [""] + rest
      else
        var first := [text[0]] + rest[0];
        assert OneLine(first);
        [first] + rest[1..]
  }

  /** `"\n".join(lines)` */
  function Join(lines: seq<string>): string {
    if lines == [] then "" else if |lines| == 1 then lines[0] else lines[0] + "\n" + Join(lines[1..])
  }

  lemma {:induction false} SplitLine(line: string, rest: string)
    requires OneLine(line)
    ensures Split(line + "\n" + rest) == [line] + Split(rest)
    decreases |line|
  {
    var text := line + "\n" + rest;
    if line == "" {
      assert text == ['\n'] + rest && text[1..] == rest;
    } else {
      assert OneLine(line[1..]);
      SplitLine(line[1..], rest);
      assert text[1..] == line[1..] + "\n" + rest && text[0] == line[0];
      var tail := [line[1..]] + Split(rest);
      assert tail[0] == line[1..] && tail[1..] == Split(rest);
      assert [line[0]] + line[1..] == line;
    }
  }

  lemma {:induction false} SplitOne(line: string)
    requires OneLine(line)
    ensures Split(line) == [line]
    decreases |line|
  {
    if line != "" {
      assert OneLine(line[1..]);
      SplitOne(line[1..]);
      assert [line[0]] + line[1..] == line;
    }
  }

  lemma {:induction false} SplitJoin(lines: seq<string>)
    requires lines != [] && forall l :: l in lines ==> OneLine(l)
    ensures Split(Join(lines)) == lines
    decreases |lines|
  {
    assert lines[0] in lines;
    if |lines| == 1 {
      SplitOne(lines[0]);
    } else {
      SplitJoin(lines[1..]);
      SplitLine(lines[0], Join(lines[1..]));
      assert [lines[0]] + lines[1..] == lines;
    }
  }

  lemma {:induction false} NormLines(lines: seq<string>, first: bool, s: State)
    requires forall l :: l in lines ==> OneLine(l)
    ensures forall l :: l in Norm(lines, first, s) ==> OneLine(l)
    decreases |lines|
  {
    hide Scan, After, Ends;
    if lines != [] {
      assert lines[0] in lines && OneLine(lines[0]);
      if s.body.Some? {
        NormLines(lines[1..], false, if Ends(lines[0], s.body.value) then Pop(s) else s);
      } else if Shebang(first, lines[0]) {
        NormLines(lines[1..], false, s);
      } else {
        NormLines(lines[1..], false, After(s, lines[0]));
        KeptIsPrefix(s, lines[0]);
      }
    }
  }

  lemma KeptIsPrefix(s: State, line: string)
    ensures forall t :: t in Kept(s, line) ==> t <= line
  {
  }

  /** `norm_shell` */
  function NormShell(text: string): seq<string> {
    Norm(Split(text), true, QUIET)
  }

  /** Normalising the joined result gives the same lines again. */
  lemma {:induction false} NormShellTwice(text: string)
    ensures NormShell(Join(NormShell(text))) == NormShell(text)
  {
    var out := NormShell(text);
    assert forall l :: l in Split(text) ==> OneLine(l);
    NormLines(Split(text), true, QUIET);
    NormAgain(Split(text), true, true, QUIET);
    hide Norm;
    if out == [] {
      NormNothing();
    } else {
      SplitJoin(out);
    }
  }

  lemma NormNothing()
    ensures Norm([""], true, QUIET) == []
  {
    assert Scan("", 0, false, false) == Scanned(0, false, false, []);
  }

  // ---------------------------------------------------------------- what passes through untouched

  /** A here-document is copied line by line, its delimiter included. */
  lemma {:induction false} BodyIsVerbatim(lines: seq<string>, first: bool, s: State, k: nat)
    requires s.body.Some? && k < |lines| && Ends(lines[k], s.body.value)
    requires forall i :: 0 <= i < k ==> !Ends(lines[i], s.body.value)
    ensures Norm(lines, first, s) == lines[..k + 1] + Norm(lines[k + 1..], false, Pop(s))
    decreases k
  {
    hide Ends, Kept, After;
    if k > 0 {
      assert forall i :: 0 <= i < k - 1 ==> lines[1..][i] == lines[i + 1];
      BodyIsVerbatim(lines[1..], false, s, k - 1);
      assert lines[1..][k..] == lines[k + 1..];
      assert lines[..k + 1] == [lines[0]] + lines[1..][..k];
    } else {
      assert lines[..1] == [lines[0]];
    }
  }

  /** A comment starts outside quotes only, so a scan that ends in a quote has read the whole line. */
  lemma {:induction false} CommentsStandOutside(line: string, j: nat, sq: bool, dq: bool)
    ensures var r := Scan(line, j, sq, dq); r.cut == |line| || (StartsComment(line, r.cut) && !r.sq && !r.dq)
    decreases |line| - j
  {
    hide StartsComment, DocsHere;
    if j < |line| {
      if !sq && line[j] == '\\' {
        CommentsStandOutside(line, j + 2, sq, dq);
      } else if sq {
        CommentsStandOutside(line, j + 1, line[j] != '\'', dq);
      } else if dq {
        CommentsStandOutside(line, j + 1, sq, line[j] != '"');
      } else if line[j] == '\'' {
        CommentsStandOutside(line, j + 1, true, dq);
      } else if line[j] == '"' {
        CommentsStandOutside(line, j + 1, sq, true);
      } else {
        CommentsStandOutside(line, j + 1, sq, dq);
      }
    }
  }

  /**
   * A line that starts inside a quote, of either kind, passes through unstripped: all of it, unless the quote closes and a
   * comment follows, and then all up to the comment.
   */
  lemma QuotedIsVerbatim(lines: seq<string>, s: State)
    requires s.body.None? && (s.sq || s.dq) && lines != []
    ensures var line := lines[0]; var r := Scan(line, 0, s.sq, s.dq);
      && Norm(lines, false, s) == [line[..r.cut]] + Norm(lines[1..], false, After(s, line))
      && (r.cut == |line| ==> line[..r.cut] == line)
      && (r.cut == |line| || (StartsComment(line, r.cut) && !r.sq && !r.dq))
  {
    CommentsStandOutside(lines[0], 0, s.sq, s.dq);
    hide Scan, After, StartsComment;
  }

  /** A line that opens a quote and ends inside it is kept as it is exactly when it does not end in white space. */
  lemma OpeningLineIsKept(s: State, line: string)
    requires s.body.None? && !s.sq && !s.dq
    requires var r := Scan(line, 0, s.sq, s.dq); r.sq || r.dq
    ensures line != "" && (Kept(s, line) == [line] <==> !IsSpace(line[|line| - 1]))
  {
    CommentsStandOutside(line, 0, s.sq, s.dq);
    assert Scan("", 0, false, false) == Scanned(0, false, false, []);
    hide Scan, StartsComment, IsSpace;
    assert line[..|line|] == line;
    if !IsSpace(line[|line| - 1]) {
      assert Rstrip(line) == line;
    } else {
      assert |Rstrip(line)| < |line|;
    }
  }

  /** So the opening line can lose blanks that are part of the quoted string. */
  lemma OpeningLineLosesBlanks()
    ensures NormShell("a='b \nc'") == ["a='b", "c'"]
  {
    SplitExample();
    KeptExample();
    AtHere("a='b ", 0, "#!");
    hide Kept, After, Split, Scan, Norm;
    TwoLines("a='b ", "c'", "a='b", "c'", State(true, false, [], None));
  }

  lemma SplitExample()
    ensures Split("a='b \nc'") == ["a='b ", "c'"]
  {
    hide Split;
    SplitLine("a='b ", "c'");
    SplitOne("c'");
    assert "a='b " + "\n" + "c'" == "a='b \nc'";
  }

  lemma KeptExample()
    ensures var open := State(true, false, [], None);
      Kept(QUIET, "a='b ") == ["a='b"] && After(QUIET, "a='b ") == open && Kept(open, "c'") == ["c'"]
  {
    OpenQuote();
    CloseQuote();
    hide Scan, Rstrip, AllSpace;
    assert "a='b "[..5] == "a='b " && "c'"[..2] == "c'";
  }

  lemma TwoLines(one: string, two: string, first: string, second: string, open: State)
    requires !At(one, 0, "#!") && Kept(QUIET, one) == [first] && After(QUIET, one) == open
    requires open.body.None? && Kept(open, two) == [second]
    ensures Norm([one, two], true, QUIET) == [first, second]
  {
    hide Kept, After;
    assert [one, two][1..] == [two] && [two][1..] == [];
    assert Norm([two], false, open) == [second] + Norm([], false, After(open, two));
  }

  lemma OpenQuote()
    ensures Scan("a='b ", 0, false, false) == Scanned(5, true, false, []) && Rstrip("a='b ") == "a='b" && !AllSpace("a='b ")
  {
    hide Scan, DocsHere, StartsDoc, StartsComment;
    QuoteOpens("a='b ");
    assert "a='b "[..4] == "a='b" && "a='b "[4] == ' ';
    assert !IsSpace("a='b "[0]) && IsSpace(' ') && !IsSpace("a='b"[3]);
  }

  lemma QuoteOpens(t: string)
    requires t == "a='b "
    ensures Scan(t, 0, false, false) == Scanned(5, true, false, [])
  {
    hide IsSpace;
    StaysOpen(t);
    NoDoc(t, 0);
    NoDoc(t, 1);
    assert Scan(t, 2, false, false) == Scan(t, 3, true, false);
    assert Scan(t, 1, false, false) == Scan(t, 2, false, false).(docs := []);
  }

  lemma StaysOpen(t: string)
    requires t == "a='b "
    ensures Scan(t, 3, true, false) == Scanned(5, true, false, [])
  {
    assert Scan(t, 4, true, false) == Scan(t, 5, true, false);
  }

  lemma CloseQuote()
    ensures Scan("c'", 0, true, false) == Scanned(2, false, false, [])
  {
    assert Scan("c'", 1, true, false) == Scan("c'", 2, false, false);
  }

  // ---------------------------------------------------------------- the program

  /** The inner loop: one line from its start, in the given quotes. */
  method ScanLine(line: string, sq: bool, dq: bool) returns (r: Scanned)
    ensures r == Scan(line, 0, sq, dq)
  {
    hide StartsComment, DocsHere;
    var j, inSq, inDq, docs: seq<Doc> := 0, sq, dq, [];
    while j < |line|
      invariant var rest := Scan(line, j, inSq, inDq); Scan(line, 0, sq, dq) == rest.(docs := docs + rest.docs)
      decreases |line| - j
    {
      var c := line[j];
      if inSq {
        inSq := c != '\'';
      } else if inDq {
        if c == '\\' {
          j := j + 2;
          continue;
        }
        inDq := c != '"';
      } else if c == '\\' {
        j := j + 2;
        continue;
      } else if c == '\'' {
        inSq := true;
      } else if c == '"' {
        inDq := true;
      } else if StartsComment(line, j) {
        assert docs + [] == docs;
        return Scanned(j, inSq, inDq, docs);
      } else {
        Assoc(docs, DocsHere(line, j), Scan(line, j + 1, inSq, inDq).docs);
        docs := docs + DocsHere(line, j);
      }
      j := j + 1;
    }
    assert docs + [] == docs;
    return Scanned(|line|, inSq, inDq, docs);
  }

  lemma NormStep(lines: seq<string>, i: nat, s: State)
    requires i < |lines|
    ensures var (kept, next) := Line(i == 0, s, lines[i]); Norm(lines[i..], i == 0, s) == kept + Norm(lines[i + 1..], false, next)
  {
    hide Kept, After, Ends, Shebang;
    assert lines[i..][0] == lines[i] && lines[i..][1..] == lines[i + 1..];
  }

  /** The body of the loop over the lines. */
  method NormLine(first: bool, state: State, line: string) returns (kept: seq<string>, s: State)
    ensures (kept, s) == Line(first, state, line)
  {
    hide Scan, Ends, Rstrip, AllSpace;
    kept, s := [], state;
    if s.body.Some? {
      kept := [line];
      if Ends(line, s.body.value) { s := Pop(s); }
    } else if first && At(line, 0, "#!") {
      kept := [line];
    } else {
      var quoted := s.sq || s.dq;
      var r := ScanLine(line, s.sq, s.dq);
      var textLine := line[..r.cut];
      s := Pop(State(r.sq, r.dq, s.docs + r.docs, None));
      if quoted {
        kept := [textLine];
      } else if !AllSpace(textLine) {
        kept := [Rstrip(textLine)];
      }
    }
  }

  /** `norm_shell`'s loop over the lines. */
  method Normalise(text: string) returns (out: seq<string>)
    ensures out == NormShell(text)
  {
    hide Norm, Line;
    var lines := Split(text);
    out := [];
    var s := QUIET;
    assert lines[0..] == lines && [] + Norm(lines, true, QUIET) == Norm(lines, true, QUIET);
    for i := 0 to |lines|
      invariant out + Norm(lines[i..], i == 0, s) == Norm(lines, true, QUIET)
    {
      var kept, next := NormLine(i == 0, s, lines[i]);
      NormStep(lines, i, s);
      Assoc(out, kept, Norm(lines[i + 1..], false, next));
      out, s := out + kept, next;
    }
    NormEmpty(lines[|lines|..], false, s);
    assert out + [] == out;
  }

  lemma NormEmpty(lines: seq<string>, first: bool, s: State)
    requires lines == []
    ensures Norm(lines, first, s) == []
  {
  }
}
