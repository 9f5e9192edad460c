/** The descriptor entry of a YANG `type`: typedefs followed, ranges and lengths laid on top of each other. */
module YangTypes {
  import opened Text
  import opened YangSyntax

  datatype Kind = Integer | Number | Boolean | Str | Array | Object | Any

  /** A closed interval; None is unbounded. */
  datatype Interval = Interval(lo: Option<int>, hi: Option<int>)

  /** A decimal range stays text here: its bounds are floating-point numbers. */
  datatype Entry = Entry(
    kind: Kind, enums: Option<seq<string>>, range: Option<seq<Interval>>, decimalRange: Option<string>,
    fractionDigits: Option<int>, length: Option<seq<Interval>>, patterns: seq<string>)

  function Bare(kind: Kind): Entry { Entry(kind, None, None, None, None, None, []) }

  /** The typedefs found by name, and what Python's `int` makes of the text of a bound. */
  datatype Types = Types(typedefs: map<string, Stmt>, number: string -> int)

  // ---------------------------------------------------------------- statements

  /** The argument of a statement, "" when it has none. */
  function Name(s: Stmt): string { if s.arg.Some? then s.arg.value else "" }

  /** A name without its prefix: the text after the first colon. */
  function Local(name: string): string {
    var j := Find(name, ":", 0);
    if j < 0 then name else name[j + 1..]
  }

  function ChildrenOf(ss: seq<Stmt>, keyword: string): seq<Stmt> {
    if ss == [] then [] else (if ss[0].keyword == keyword then [ss[0]] else []) + ChildrenOf(ss[1..], keyword)
  }

  function Children(s: Stmt, keyword: string): seq<Stmt> { ChildrenOf(s.children, keyword) }

  /** A restriction given twice counts once, the last one. */
  function Own(s: Stmt, keyword: string): Option<string> {
    var found := Children(s, keyword);
    if found == [] then None else Some(Name(found[|found| - 1]))
  }

  function Names(ss: seq<Stmt>): seq<string> { if ss == [] then [] else [Name(ss[0])] + Names(ss[1..]) }

  predicate Inverted(s: Stmt) {
    exists i :: 0 <= i < |s.children| && s.children[i].keyword == "modifier" && Name(s.children[i]) == "invert-match"
  }

  function Patterns(ss: seq<Stmt>): seq<string> {
    if ss == [] then [] else (if Inverted(ss[0]) then [] else [Name(ss[0])]) + Patterns(ss[1..])
  }

  // ---------------------------------------------------------------- intervals

  function Split(t: string, sep: string): (r: seq<string>)
    requires sep != ""
    ensures r != []
    decreases |t|
  {
    var j := Find(t, sep, 0);
    if j < 0 then [t] else [t[..j]] + Split(t[j + |sep|..], sep)
  }

  function Strip(t: string): string
    decreases |t|
  {
    if t == "" then "" else if IsSpace(t[0]) then Strip(t[1..]) else if IsSpace(t[|t| - 1]) then Strip(t[..|t| - 1]) else t
  }

  /** The ends one part of a range names, in order, empty pieces dropped. */
  function Ends(pieces: seq<string>, low: Option<int>, high: Option<int>, number: string -> int): seq<Option<int>> {
    if pieces == [] then []
    else
      var b := Strip(pieces[0]);
      (if b == "" then [] else [if b == "min" then low else if b == "max" then high else Some(number(b))])
      + Ends(pieces[1..], low, high, number)
  }

  function PartIntervals(parts: seq<string>, low: Option<int>, high: Option<int>, number: string -> int): seq<Interval> {
    if parts == [] then []
    else
      var ends := Ends(Split(parts[0], ".."), low, high, number);
      (if ends == [] then [] else [Interval(ends[0], ends[|ends| - 1])]) + PartIntervals(parts[1..], low, high, number)
  }

  /** `parse_intervals(text, low, high)` */
  function Intervals(text: string, low: Option<int>, high: Option<int>, number: string -> int): seq<Interval> {
    PartIntervals(Split(text, "|"), low, high, number)
  }

  /** The least lower bound, None when there is none. */
  function LowOf(rs: seq<Interval>): Option<int> {
    if rs == [] then None
    else if |rs| == 1 then rs[0].lo
    else match (rs[0].lo, LowOf(rs[1..]))
      case (Some(a), Some(b)) => Some(if a <= b then a else b)
      case _ => None
  }

  function HighOf(rs: seq<Interval>): Option<int> {
    if rs == [] then None
    else if |rs| == 1 then rs[0].hi
    else match (rs[0].hi, HighOf(rs[1..]))
      case (Some(a), Some(b)) => Some(if a >= b then a else b)
      case _ => None
  }

  // ---------------------------------------------------------------- type_of

  function Native(name: string): Option<Interval> {
    if name == "int8" then Some(Interval(Some(-0x80), Some(0x7f)))
    else if name == "int16" then Some(Interval(Some(-0x8000), Some(0x7fff)))
    else if name == "int32" then Some(Interval(Some(-0x8000_0000), Some(0x7fff_ffff)))
    else if name == "int64" then Some(Interval(Some(-0x8000_0000_0000_0000), Some(0x7fff_ffff_ffff_ffff)))
    else if name == "uint8" then Some(Interval(Some(0), Some(0xff)))
    else if name == "uint16" then Some(Interval(Some(0), Some(0xffff)))
    else if name == "uint32" then Some(Interval(Some(0), Some(0xffff_ffff)))
    else if name == "uint64" then Some(Interval(Some(0), Some(0xffff_ffff_ffff_ffff)))
    else None
  }

  /** The built-in types whose values are described as unrestricted text. */
  predicate IsText(name: string) {
    || name == "binary" || name == "bits" || name == "identityref"
    || name == "leafref" || name == "instance-identifier" || name == "union"
  }

  /** A statement's own restrictions on top of what its base gave. */
  function Restrict(d: Types, s: Stmt, base: Entry): Entry {
    var e1 := if Local(Name(s)) == "decimal64" && Own(s, "fraction-digits").Some?
              then base.(fractionDigits := Some(d.number(Own(s, "fraction-digits").value))) else base;
    var e2 := if Own(s, "range").None? then e1
              else if e1.kind == Integer then
                var bounds := if e1.range.Some? then e1.range.value else [];
                e1.(range := Some(Intervals(Own(s, "range").value, LowOf(bounds), HighOf(bounds), d.number)))
              else if e1.kind == Number then e1.(decimalRange := Own(s, "range"))
              else e1;
    if e2.kind != Str then e2
    else
      var e3 := if Own(s, "length").Some? then e2.(length := Some(Intervals(Own(s, "length").value, Some(0), None, d.number))) else e2;
      e3.(patterns := e3.patterns + Patterns(Children(s, "pattern")))
  }

  function TypeOf(d: Types, s: Stmt, depth: nat): Entry
    decreases 11 - depth
  {
    var name := Local(Name(s));
    if Native(name).Some? then Restrict(d, s, Bare(Integer).(range := Some([Native(name).value])))
    else if name == "decimal64" then Restrict(d, s, Bare(Number))
    else if name == "boolean" || name == "empty" then Bare(Boolean)
    else if name == "enumeration" then Bare(Str).(enums := Some(Names(Children(s, "enum"))))
    else if name == "string" then Restrict(d, s, Bare(Str))
    else if IsText(name) then Bare(Str)
    else if name !in d.typedefs || depth >= 10 then Bare(Any)
    else
      var inner := Children(d.typedefs[name], "type");
      Restrict(d, s, if inner == [] then Bare(Any) else TypeOf(d, inner[0], depth + 1))
  }

  // ---------------------------------------------------------------- what the emitted intervals of an integer accept

  predicate Accepts(rs: seq<Interval>, n: int) {
    exists i :: 0 <= i < |rs| && (rs[i].lo.Some? ==> rs[i].lo.value <= n) && (rs[i].hi.Some? ==> n <= rs[i].hi.value)
  }

  /** Non-empty lists of proper, bounded intervals. */
  predicate Proper(rs: seq<Interval>) {
    rs != [] && forall i :: 0 <= i < |rs| ==> rs[i].lo.Some? && rs[i].hi.Some? && rs[i].lo.value <= rs[i].hi.value
  }

  predicate BuiltIn(name: string) {
    || Native(name).Some? || name == "decimal64" || name == "boolean" || name == "empty"
    || name == "enumeration" || name == "string" || IsText(name)
  }

  /** `s` names an integer type through exactly `k` typedefs. */
  predicate IntegerChain(d: Types, s: Stmt, k: nat)
    decreases k
  {
    var name := Local(Name(s));
    if k == 0 then Native(name).Some?
    else !BuiltIn(name) && name in d.typedefs && Children(d.typedefs[name], "type") != []
         && IntegerChain(d, Children(d.typedefs[name], "type")[0], k - 1)
  }

  function Inner(d: Types, s: Stmt): Stmt
    requires Local(Name(s)) in d.typedefs && Children(d.typedefs[Local(Name(s))], "type") != []
  {
    Children(d.typedefs[Local(Name(s))], "type")[0]
  }

  /** The intervals a chain inherits, before the statement's own range. */
  function BaseRange(d: Types, s: Stmt, k: nat): seq<Interval>
    requires IntegerChain(d, s, k)
    decreases k, 0
  {
    if k == 0 then [Native(Local(Name(s))).value] else FullRange(d, Inner(d, s), k - 1)
  }

  /** The intervals of the chain's most derived range, with `min` and `max` the extremes of what it restricts. */
  function FullRange(d: Types, s: Stmt, k: nat): seq<Interval>
    requires IntegerChain(d, s, k)
    decreases k, 1
  {
    var base := BaseRange(d, s, k);
    if Own(s, "range").None? then base else Intervals(Own(s, "range").value, LowOf(base), HighOf(base), d.number)
  }

  /** Section 9.2.4 of RFC 7950: every range in the chain restricts the one it is laid on. */
  ghost predicate Restricting(d: Types, s: Stmt, k: nat)
    requires IntegerChain(d, s, k)
    decreases k
  {
    && (forall n :: Accepts(FullRange(d, s, k), n) ==> Accepts(BaseRange(d, s, k), n))
    && (k > 0 ==> Restricting(d, Inner(d, s), k - 1))
  }

  /** In the native bounds and in every range of the chain. */
  ghost predicate InEveryRange(d: Types, s: Stmt, k: nat, n: int)
    requires IntegerChain(d, s, k)
    decreases k
  {
    && (Own(s, "range").Some? ==> Accepts(FullRange(d, s, k), n))
    && (if k == 0 then Accepts([Native(Local(Name(s))).value], n) else InEveryRange(d, Inner(d, s), k - 1, n))
  }

  lemma NativeIsNotDecimal(name: string)
    ensures Native(name).Some? ==> name != "decimal64"
  {
  }

  lemma RestrictAny(d: Types, s: Stmt, base: Entry)
    requires base.kind == Any
    ensures Restrict(d, s, base).kind == Any && Restrict(d, s, base).range == base.range
  {
  }

  /** An integer behind at most ten typedefs keeps its most derived range; a longer chain is `any`. */
  lemma {:induction false} ChainEntry(d: Types, s: Stmt, k: nat, depth: nat)
    requires IntegerChain(d, s, k)
    ensures k + depth <= 10 ==> TypeOf(d, s, depth) == Bare(Integer).(range := Some(FullRange(d, s, k)))
    ensures k + depth > 10 && depth <= 10 ==> TypeOf(d, s, depth).kind == Any && TypeOf(d, s, depth).range.None?
    decreases k
  {
    hide Children, Intervals, LowOf, HighOf, Patterns, Local, Own, Native;
    NativeIsNotDecimal(Local(Name(s)));
    if k > 0 && depth < 10 {
      ChainEntry(d, Inner(d, s), k - 1, depth + 1);
    }
    if k + depth > 10 && depth < 10 { RestrictAny(d, s, TypeOf(d, Inner(d, s), depth + 1)); }
  }

  lemma {:induction false} MostDerivedIsIntersection(d: Types, s: Stmt, k: nat, n: int)
    requires IntegerChain(d, s, k) && Restricting(d, s, k)
    ensures Accepts(FullRange(d, s, k), n) <==> InEveryRange(d, s, k, n)
    decreases k
  {
    hide Children, Intervals, Accepts;
    if k > 0 { MostDerivedIsIntersection(d, Inner(d, s), k - 1, n); }
  }

  /** The emitted intervals accept exactly the native bounds intersected with every range of the chain. */
  lemma EmittedRange(d: Types, s: Stmt, k: nat)
    requires IntegerChain(d, s, k) && k <= 10 && Restricting(d, s, k)
    ensures var e := TypeOf(d, s, 0);
      e.kind == Integer && e.range.Some? && forall n :: Accepts(e.range.value, n) <==> InEveryRange(d, s, k, n)
  {
    hide Accepts, InEveryRange, Restricting, TypeOf, FullRange;
    ChainEntry(d, s, k, 0);
    forall n ensures Accepts(FullRange(d, s, k), n) <==> InEveryRange(d, s, k, n) {
      MostDerivedIsIntersection(d, s, k, n);
    }
  }

  /** `min` and `max` are the least and the greatest value the base accepts. */
  lemma {:induction false} ExtremesOfBase(rs: seq<Interval>)
    requires Proper(rs)
    ensures LowOf(rs).Some? && HighOf(rs).Some?
    ensures Accepts(rs, LowOf(rs).value) && Accepts(rs, HighOf(rs).value)
    ensures forall n :: Accepts(rs, n) ==> LowOf(rs).value <= n <= HighOf(rs).value
    decreases |rs|
  {
    if |rs| == 1 {
      assert Accepts(rs, rs[0].lo.value);
    } else {
      ExtremesOfBase(rs[1..]);
      forall n ensures Accepts(rs, n) <==> Accepts(rs[..1], n) || Accepts(rs[1..], n) { AcceptsSplit(rs, n); }
      assert Accepts(rs[..1], rs[0].lo.value) && Accepts(rs[..1], rs[0].hi.value);
    }
  }

  lemma AcceptsSplit(rs: seq<Interval>, n: int)
    requires rs != []
    ensures Accepts(rs, n) <==> Accepts(rs[..1], n) || Accepts(rs[1..], n)
  {
    if Accepts(rs, n) {
      var i :| 0 <= i < |rs| && (rs[i].lo.Some? ==> rs[i].lo.value <= n) && (rs[i].hi.Some? ==> n <= rs[i].hi.value);
      if i > 0 { assert rs[1..][i - 1] == rs[i]; } else { assert rs[..1][0] == rs[0]; }
    }
    if Accepts(rs[1..], n) {
      var i :| 0 <= i < |rs[1..]| && (rs[1..][i].lo.Some? ==> rs[1..][i].lo.value <= n) && (rs[1..][i].hi.Some? ==> n <= rs[1..][i].hi.value);
      assert rs[i + 1] == rs[1..][i];
    }
    if Accepts(rs[..1], n) { assert rs[..1][0] == rs[0]; }
  }

  /** Without the rule of section 9.2.4 the intervals accept more than the intersection: the derived range simply replaces the base's. */
  lemma WideningReplaces(number: string -> int)
    requires number("0") == 0 && number("300") == 300
    ensures var s := Stmt("type", Some("uint8"), [Stmt("range", Some("0..300"), [])]);
      var d := Types(map[], number);
      IntegerChain(d, s, 0) && TypeOf(d, s, 0).range == Some([Interval(Some(0), Some(300))]) && !InEveryRange(d, s, 0, 300)
  {
    var s := Stmt("type", Some("uint8"), [Stmt("range", Some("0..300"), [])]);
    var d := Types(map[], number);
    LocalOfPlain("uint8");
    OwnOfOne(s);
    hide Own, Local, Intervals, Children, TypeOf, Accepts;
    var native := [Interval(Some(0), Some(0xff))];
    assert BaseRange(d, s, 0) == native && LowOf(native) == Some(0) && HighOf(native) == Some(0xff);
    RangeText(number);
    ChainEntry(d, s, 0, 0);
    OutOfByte(300);
  }

  lemma OutOfByte(n: int)
    requires n > 0xff
    ensures !Accepts([Interval(Some(0), Some(0xff))], n)
  {
  }

  lemma LocalOfPlain(name: string)
    requires ':' !in name
    ensures Local(name) == name
  {
    forall j: nat | 0 <= j ensures !At(name, j, ":") {
      if j + 1 <= |name| { assert name[j..j + 1][0] == name[j]; }
    }
    FindNone(name, ":", 0);
  }

  lemma OwnOfOne(s: Stmt)
    requires |s.children| == 1 && s.children[0].keyword == "range"
    ensures Own(s, "range") == Some(Name(s.children[0]))
  {
    assert s.children[1..] == [];
    assert ChildrenOf(s.children, "range") == [s.children[0]];
  }

  lemma SplitNothing(t: string, sep: string)
    requires |sep| > 0 && forall i :: 0 <= i < |t| ==> t[i] != sep[0]
    ensures Split(t, sep) == [t]
  {
    forall j: nat ensures !At(t, j, sep) {
      if j + |sep| <= |t| { assert t[j..j + |sep|][0] == t[j]; }
    }
    FindNone(t, sep, 0);
  }

  lemma RangeText(number: string -> int)
    requires number("0") == 0 && number("300") == 300
    ensures Intervals("0..300", Some(0), Some(0xff), number) == [Interval(Some(0), Some(300))]
  {
    var low, high := Some(0), Some(0xff);
    SplitNothing("0..300", "|");
    SplitNothing("300", "..");
    assert "0..300"[0..2] == "0." && "0..300"[1..3] == "..";
    FindIs("0..300", "..", 0, 1);
    assert "0..300"[..1] == "0" && "0..300"[3..] == "300";
    assert Split("0..300", "..") == ["0"] + ["300"] == ["0", "300"];
    hide Split, Find;
    assert Strip("0") == "0" && Strip("300") == "300";
    hide Strip;
    var none: seq<string> := [];
    assert ["0", "300"][1..] == ["300"] && ["300"][1..] == none && ["0..300"][1..] == none;
    assert Ends(none, low, high, number) == [];
    assert Ends(["300"], low, high, number) == [Some(300)];
    assert Ends(["0", "300"], low, high, number) == [Some(0), Some(300)];
    hide Ends;
    assert PartIntervals(none, low, high, number) == [];
    assert PartIntervals(["0..300"], low, high, number) == [Interval(Some(0), Some(300))];
  }
}
