/** Every literal and comment that is spelled as its language asks is recognised whole, whatever follows it. */
module CLikeLiterals {
  import opened Text
  import opened CLikeLexer

  /** The contents of a Java string or text block with backslashes and quotes escaped. */
  function JavaEscape(s: string, q: char): string {
    if s == "" then "" else (if s[0] == '\\' || s[0] == q then ['\\', s[0]] else [s[0]]) + JavaEscape(s[1..], q)
  }

  /** The contents of an SQL literal with quotes doubled. */
  function SqlEscape(s: string, q: char): string {
    if s == "" then "" else (if s[0] == q then [q, q] else [s[0]]) + SqlEscape(s[1..], q)
  }

  lemma {:induction false} JavaEscapeRuns(t: string, j: nat, s: string, q: char)
    requires q != '\\' && q != '\n' && '\n' !in s
    requires j <= |t| && JavaEscape(s, q) + [q] <= t[j..]
    ensures JavaQuoteEnd(t, j, q) == j + |JavaEscape(s, q)|
    decreases |s|
  {
    var e := JavaEscape(s, q);
    assert t[j] == t[j..][0] == (e + [q])[0];
    if s != "" {
      var n := if s[0] == '\\' || s[0] == q then 2 else 1;
      assert e[n..] == JavaEscape(s[1..], q);
      assert t[j + n..] == t[j..][n..];
      assert (e + [q])[n..] == e[n..] + [q];
      JavaEscapeRuns(t, j + n, s[1..], q);
    }
  }

  /** A Java string or char. An empty string must not be followed by a third quote, which would open a text block. */
  lemma JavaLiteralIsWhole(q: char, s: string, v: string)
    requires (q == '"' || q == '\'') && '\n' !in s
    requires s == "" && q == '"' && v != "" ==> v[0] != '"'
    ensures var c := [q] + JavaEscape(s, q) + [q]; LeadOf(c + v, false) == Opens(Literal, |c|)
  {
    var e := JavaEscape(s, q);
    var t := [q] + e + [q] + v;
    assert t[0] == q && t[1..] == e + [q] + v;
    JavaEscapeRuns(t, 1, s, q);
    AtTriple(t);
    if At(t, 0, "//") { AtFirst(t, "//"); }
    if At(t, 0, "/*") { AtFirst(t, "/*"); }
    assert e != "" ==> e[0] != q;
    assert t[1] == (e + [q] + v)[0];
    assert e == "" && v != "" ==> t[2] == v[0];
  }

  lemma {:induction false} SqlEscapeRuns(t: string, j: nat, s: string, q: char)
    requires j <= |t| && SqlEscape(s, q) + [q] <= t[j..]
    requires var k := j + |SqlEscape(s, q)| + 1; k < |t| ==> t[k] != q
    ensures SqlQuoteEnd(t, j, q) == j + |SqlEscape(s, q)|
    decreases |s|
  {
    var e := SqlEscape(s, q);
    assert t[j] == t[j..][0] == (e + [q])[0];
    if s != "" {
      var n := if s[0] == q then 2 else 1;
      assert n == 2 ==> t[j + 1] == t[j..][1] == (e + [q])[1] == q;
      assert e[n..] == SqlEscape(s[1..], q);
      assert t[j + n..] == t[j..][n..];
      assert (e + [q])[n..] == e[n..] + [q];
      SqlEscapeRuns(t, j + n, s[1..], q);
    }
  }

  /** An SQL string or quoted identifier that is not followed by its own quote. */
  lemma SqlLiteralIsWhole(q: char, s: string, v: string)
    requires (q == '"' || q == '\'') && (v != "" ==> v[0] != q)
    ensures var c := [q] + SqlEscape(s, q) + [q]; LeadOf(c + v, true) == Opens(Literal, |c|)
  {
    var e := SqlEscape(s, q);
    var t := [q] + e + [q] + v;
    assert t[0] == q && t[1..] == e + [q] + v;
    assert v != "" ==> t[|e| + 2] == v[0];
    SqlEscapeRuns(t, 1, s, q);
    if At(t, 0, "--") { AtFirst(t, "--"); }
    if At(t, 0, "/*") { AtFirst(t, "/*"); }
  }

  lemma TagIsWhole(name: string, v: string)
    requires forall i :: 0 <= i < |name| ==> TagChar(name[i])
    ensures var tag := "$" + name + "$"; DollarTag(tag + v) == |tag| && (tag + v)[..|tag|] == tag
  {
    var t, d := "$" + name + "$" + v, |name| + 2;
    assert forall i :: 1 <= i < d - 1 ==> t[i] == name[i - 1];
    assert t[d - 1] == '$';
    TagRunIs(t, 1, d - 1);
  }

  lemma FindAfter(tag: string, body: string, v: string)
    requires forall j: nat :: j < |body| ==> !At(body + tag, j, tag)
    ensures Find(tag + body + tag + v, tag, |tag|) == |tag| + |body|
  {
    var t, d := tag + body + tag + v, |tag|;
    forall j: nat | d <= j < d + |body| ensures !At(t, j, tag) {
      var i: nat := j - d;
      assert t[j..j + d] == (body + tag)[i..i + d];
      assert !At(body + tag, i, tag);
    }
    assert t[d + |body|..d + |body| + d] == tag;
    FindIs(t, tag, d, d + |body|);
  }

  /** A dollar-quoted body, which holds anything but its own tag. */
  lemma DollarLiteralIsWhole(name: string, body: string, v: string)
    requires forall i :: 0 <= i < |name| ==> TagChar(name[i])
    requires var tag := "$" + name + "$"; forall j: nat :: j < |body| ==> !At(body + tag, j, tag)
    ensures var tag := "$" + name + "$"; LeadOf(tag + body + tag + v, true) == Opens(Literal, |tag + body + tag|)
  {
    var tag := "$" + name + "$";
    var t := tag + body + tag + v;
    assert t == tag + (body + tag + v);
    TagIsWhole(name, body + tag + v);
    FindAfter(tag, body, v);
    hide Find, DollarTag;
    if At(t, 0, "--") { AtFirst(t, "--"); }
    if At(t, 0, "/*") { AtFirst(t, "/*"); }
  }

  /** A line comment runs up to, not over, the line break. */
  lemma LineCommentIsWhole(k: string, v: string, sql: bool)
    requires '\n' !in k && (v != "" ==> v[0] == '\n')
    ensures var c := (if sql then "--" else "//") + k; LeadOf(c + v, sql) == Opens(LineComment, |c|)
  {
    var p := if sql then "--" else "//";
    var t, n := p + k + v, 2 + |k|;
    assert t[0..2] == p;
    assert forall i :: 0 <= i < n ==> t[i] == (p + k)[i] && t[i] != '\n';
    assert forall i: nat :: i < n ==> !At(t, i, "\n") by {
      forall i: nat | i < n ensures !At(t, i, "\n") {
        if i + 1 <= |t| { assert t[i..i + 1][0] == t[i]; }
      }
    }
    if v == "" {
      FindNone(t, "\n", 0);
    } else {
      assert t[n] == '\n' && t[n..n + 1] == "\n";
      FindIs(t, "\n", 0, n);
    }
  }
}
