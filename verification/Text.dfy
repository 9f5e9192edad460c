/** Text helpers shared by the models: Python's notion of white space, searching, splitting and joining. */
module Text {

  datatype Option<+T> = None | Some(value: T)

  /** The characters `str.isspace`, `str.strip` and the regular-expression class `\s` treat as white space. */
  predicate IsSpace(c: char) {
    var n := c as int;
    || 9 <= n <= 13 || 28 <= n <= 32 || n == 0x85 || n == 0xA0 || n == 0x1680
    || 0x2000 <= n <= 0x200A || n == 0x2028 || n == 0x2029 || n == 0x202F || n == 0x205F || n == 0x3000
  }

  predicate AllSpace(s: string) {
    forall i :: 0 <= i < |s| ==> IsSpace(s[i])
  }

  /** `t.startswith(p, i)` */
  predicate At(t: string, i: nat, p: string) {
    i + |p| <= |t| && t[i..i + |p|] == p
  }

  /** `t.find(p, from)` */
  function Find(t: string, p: string, from: nat): (r: int)
    ensures r < 0 ==> forall k: nat :: from <= k ==> !At(t, k, p)
    ensures r >= 0 ==> from <= r && At(t, r, p) && forall k: nat :: from <= k < r ==> !At(t, k, p)
    decreases |t| - from
  {
    if At(t, from, p) then from
    else if from >= |t| then -1
    else Find(t, p, from + 1)
  }

  lemma FindIs(t: string, p: string, from: nat, r: nat)
    requires from <= r && At(t, r, p)
    requires forall k: nat :: from <= k < r ==> !At(t, k, p)
    ensures Find(t, p, from) == r
  {
  }

  lemma FindNone(t: string, p: string, from: nat)
    requires forall k: nat :: from <= k ==> !At(t, k, p)
    ensures Find(t, p, from) == -1
    decreases |t| - from
  {
    if from < |t| { FindNone(t, p, from + 1); }
  }

  lemma Assoc<T>(a: seq<T>, b: seq<T>, c: seq<T>)
    ensures (a + b) + c == a + (b + c)
  {
  }

  lemma AtFirst(t: string, p: string)
    requires p != "" && At(t, 0, p)
    ensures t[0] == p[0] && (|p| >= 2 ==> t[1] == p[1])
  {
    assert t[0] == t[0..|p|][0] && (|p| >= 2 ==> t[1] == t[0..|p|][1]);
  }

  lemma AtShift(text: string, i: nat, j: nat, p: string)
    requires i <= j && i <= |text|
    ensures At(text[i..], j - i, p) == At(text, j, p)
  {
    if j + |p| <= |text| {
      assert text[i..][j - i..j - i + |p|] == text[j..j + |p|];
    }
  }

  lemma FindShift(text: string, i: nat, p: string, from: nat)
    requires i <= from && i <= |text|
    ensures var r := Find(text[i..], p, from - i); Find(text, p, from) == if r < 0 then -1 else i + r
  {
    var r := Find(text[i..], p, from - i);
    forall j: nat | from <= j ensures At(text[i..], j - i, p) == At(text, j, p) { AtShift(text, i, j, p); }
    if r < 0 {
      FindNone(text, p, from);
    } else {
      FindIs(text, p, from, i + r);
    }
  }
}
