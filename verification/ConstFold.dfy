/** The constant folder behind the configuration reference, against what Python computes when the expression runs. */
module ConstFold {
  import opened Text

  // ---------------------------------------------------------------- values and expressions

  /** Floats are opaque; a dict is the list of its items as given, the last item of a key counting. */
  datatype Value = NoneValue | Int(n: int) | Bool(b: bool) | Str(s: string) | Float(id: int) | Dict(items: seq<(Value, Value)>)

  datatype Op = Add | Sub | Mult | FloorDiv | Div | Pow | OtherOp

  datatype Expr =
    | Const(v: Value)
    | Name(id: string)
    | DictOf(entries: seq<(Option<Expr>, Expr)>)  // a `None` key is a `**` entry
    | Subscript(table: Expr, key: Expr)
    | Joined(pieces: seq<Piece>)
    | Neg(operand: Expr)
    | Bin(op: Op, left: Expr, right: Expr)
    | Call(func: string, args: seq<Expr>, hasKeywords: bool)
    | Starred(inner: Expr)
    | Opaque(tag: int)                            // every other expression

  datatype Piece = Literal(text: string) | Formatted(e: Expr, conversion: Option<char>, spec: Option<string>)

  type Env = map<string, Value>

  /** What a conversion comes to: a value, an exception the folder catches (`TypeError`, `ValueError`), or another one. */
  datatype Converted = Gives(v: Value) | Caught | Escapes

  /** What Python does where the folder calls Python itself, or does not look; `None` is an exception. */
  datatype Python = Python(
    str: Value -> string, printable: char -> bool, escape: char -> string, arith: (Op, Value, Value) -> Option<Value>, negate: Value -> Option<Value>,
    convert: (string, Value) -> Converted,
    format: (Value, Option<char>, Option<string>) -> Option<string>,
    other: (Expr, Env) -> Option<Value>)

  function Floor(a: int, b: int): (q: int)
    requires b != 0
    ensures b > 0 ==> q * b <= a < q * b + b
    ensures b < 0 ==> q * b >= a > q * b + b
  {
    if b > 0 then a / b else if a % b == 0 then a / b else a / b - 1
  }

  function Power(a: int, k: nat): int
    decreases k
  {
    if k == 0 then 1 else a * Power(a, k - 1)
  }

  /** A binary operator: exact on integers where the result is one, concatenation on strings, else whatever Python says. */
  function Apply(py: Python, op: Op, l: Value, r: Value): Option<Value> {
    if l.Int? && r.Int? && op == Add then Some(Int(l.n + r.n))
    else if l.Int? && r.Int? && op == Sub then Some(Int(l.n - r.n))
    else if l.Int? && r.Int? && op == Mult then Some(Int(l.n * r.n))
    else if l.Int? && r.Int? && op == FloorDiv then if r.n == 0 then None else Some(Int(Floor(l.n, r.n)))
    else if l.Int? && r.Int? && op == Pow && r.n >= 0 then Some(Int(Power(l.n, r.n)))
    else if l.Str? && r.Str? && op == Add then Some(Str(l.s + r.s))
    else py.arith(op, l, r)
  }

  function Negate(py: Python, v: Value): Option<Value> {
    if v.Int? then Some(Int(-v.n)) else py.negate(v)
  }

  /** Equal keys in Python: numbers by value, so `True` is `1`; floats are left apart. */
  predicate SameKey(a: Value, b: Value) {
    a == b || (a.Int? && b.Bool? && a.n == (if b.b then 1 else 0)) || (a.Bool? && b.Int? && b.n == (if a.b then 1 else 0))
  }

  function Find(items: seq<(Value, Value)>, key: Value): Option<Value>
    decreases |items|
  {
    if items == [] then None
    else
      var last := items[|items| - 1];
      if SameKey(last.0, key) then Some(last.1) else Find(items[..|items| - 1], key)
  }

  predicate Hashable(v: Value) {
    !v.Dict?
  }

  predicate HashableKeys(d: Value) {
    d.Dict? && forall x :: x in d.items ==> Hashable(x.0)
  }

  // ---------------------------------------------------------------- formatting

  /** `str(v)` */
  function StrOf(py: Python, v: Value): string {
    if v.Str? then v.s else py.str(v)
  }

  /** A character of a string as `repr` and, when `ascii`, `ascii` write it between quotes `q`. */
  function EscapeOne(py: Python, q: char, ascii: bool, c: char): (r: string)
    ensures r != ""
  {
    if c == q || c == '\\' then ['\\', c]
    else if py.printable(c) && (ascii ==> c as int < 128) then [c]
    else ['\\'] + py.escape(c)
  }

  function EscapeAll(py: Python, q: char, ascii: bool, s: string): (r: string)
    ensures |r| >= |s|
  {
    if s == "" then "" else EscapeOne(py, q, ascii, s[0]) + EscapeAll(py, q, ascii, s[1..])
  }

  /** `repr` of a string: quoted, and never the string itself. */
  function Quoted(py: Python, ascii: bool, s: string): (r: string)
    ensures |r| > |s|
  {
    var q := if '\'' in s && '"' !in s then '"' else '\'';
    [q] + EscapeAll(py, q, ascii, s) + [q]
  }

  predicate NoSpec(spec: Option<string>) {
    spec.None? || spec == Some("")
  }

  /** One formatted piece: without a format spec `str`, `repr` or `ascii` of the value, which differ on strings. */
  function Shown(py: Python, v: Value, conversion: Option<char>, spec: Option<string>): Option<string> {
    if !NoSpec(spec) then py.format(v, conversion, spec)
    else if conversion.None? || conversion == Some('s') then Some(StrOf(py, v))
    else if conversion == Some('r') || (conversion == Some('a') && !v.Dict?) then
      Some(if v.Str? then Quoted(py, conversion == Some('a'), v.s) else py.str(v))
    else py.format(v, conversion, spec)
  }

  /** The piece is one of those `Shown` gives a meaning. */
  predicate Meant(v: Value, conversion: Option<char>, spec: Option<string>) {
    NoSpec(spec) && (conversion.None? || conversion == Some('s') || conversion == Some('r') || (conversion == Some('a') && !v.Dict?))
  }

  /** The piece shows the value as `str` does: no format spec, and no `!r` or `!a` on a string. */
  predicate LikeStr(v: Value, conversion: Option<char>, spec: Option<string>) {
    Meant(v, conversion, spec) && (v.Str? ==> conversion.None? || conversion == Some('s'))
  }

  lemma ShownLikeStr(py: Python, v: Value, conversion: Option<char>, spec: Option<string>)
    requires Meant(v, conversion, spec)
    ensures Shown(py, v, conversion, spec).Some?
    ensures |Shown(py, v, conversion, spec).value| >= |StrOf(py, v)|
    ensures LikeStr(v, conversion, spec) ==> Shown(py, v, conversion, spec).value == StrOf(py, v)
    ensures !LikeStr(v, conversion, spec) ==> |Shown(py, v, conversion, spec).value| > |StrOf(py, v)|
  {
  }

  function ToOption(c: Converted): Option<Value> {
    if c.Gives? then Some(c.v) else None
  }

  // ---------------------------------------------------------------- evaluation

  function Eval(py: Python, e: Expr, env: Env): Option<Value>
    decreases e, 1
  {
    match e
    case Const(v) => Some(v)
    case Name(id) => if id in env then Some(env[id]) else None
    case DictOf(entries) =>
      if !Keyed(entries) then py.other(e, env) else EvalEntries(py, e, 0, env)
    case Subscript(table, key) =>
      var t, k := Eval(py, table, env), Eval(py, key, env);
      if t.None? || k.None? then None
      else if t.value.Dict? then if Hashable(k.value) then Find(t.value.items, k.value) else None
      else py.other(e, env)
    case Joined(_) => var s := EvalPieces(py, e, 0, env); if s.None? then None else Some(Str(s.value))
    case Neg(x) => var v := Eval(py, x, env); if v.None? then None else Negate(py, v.value)
    case Bin(op, l, r) =>
      var a, b := Eval(py, l, env), Eval(py, r, env);
      if a.None? || b.None? then None else Apply(py, op, a.value, b.value)
    case Call(func, args, hasKeywords) =>
      if Conversion(func) && func !in env && |args| == 1 && !hasKeywords && !args[0].Starred? then
        var v := Eval(py, args[0], env);
        if v.None? then None else ToOption(py.convert(func, v.value))
      else py.other(e, env)
    case Starred(_) => None
    case Opaque(_) => py.other(e, env)
  }

  predicate Conversion(func: string) {
    func == "str" || func == "int" || func == "float"
  }

  /** Every entry has a key of its own. */
  predicate Keyed(entries: seq<(Option<Expr>, Expr)>) {
    forall i :: 0 <= i < |entries| ==> entries[i].0.Some?
  }

  /** The entries of a dict display from number `i` on. */
  function EvalEntries(py: Python, e: Expr, i: nat, env: Env): Option<Value>
    requires e.DictOf? && Keyed(e.entries) && i <= |e.entries|
    decreases e, 0, |e.entries| - i
  {
    if i == |e.entries| then Some(Dict([]))
    else
      var k, v := Eval(py, e.entries[i].0.value, env), Eval(py, e.entries[i].1, env);
      var rest := EvalEntries(py, e, i + 1, env);
      if k.None? || v.None? || rest.None? || !Hashable(k.value) || !rest.value.Dict? then None
      else Some(Dict([(k.value, v.value)] + rest.value.items))
  }

  /** The text of a f-string from piece number `i` on. */
  function EvalPieces(py: Python, e: Expr, i: nat, env: Env): Option<string>
    requires e.Joined? && i <= |e.pieces|
    decreases e, 0, |e.pieces| - i
  {
    if i == |e.pieces| then Some("")
    else
      var rest := EvalPieces(py, e, i + 1, env);
      match e.pieces[i]
      case Literal(text) => if rest.None? then None else Some(text + rest.value)
      case Formatted(x, conversion, spec) =>
        var v := Eval(py, x, env);
        if v.None? then None
        else
          var s := Shown(py, v.value, conversion, spec);
          if s.None? || rest.None? then None else Some(s.value + rest.value)
  }

  // ---------------------------------------------------------------- fold

  /** `Crash` stands for an exception `fold` does not catch. */
  datatype Folded = Known(v: Value) | Unknown | Crash

  type Consts = map<string, Folded>

  function FromPython(v: Option<Value>): Folded {
    if v.Some? then Known(v.value) else Unknown
  }

  /** `int(float("inf"))` raises `OverflowError`, which the conversion's own handler does not catch. */
  function FromConversion(c: Converted): Folded {
    match c
    case Gives(v) => Known(v)
    case Caught => Unknown
    case Escapes => Crash
  }

  predicate Number(v: Value) {
    v.Int? || v.Float?
  }

  function FoldBin(py: Python, op: Op, l: Folded, r: Folded): Folded {
    if l.Crash? || r.Crash? then Crash
    else if !l.Known? || !r.Known? || l.v.Bool? || r.v.Bool? then Unknown
    else if op == Add && ((Number(l.v) && Number(r.v)) || (l.v.Str? && r.v.Str?)) then FromPython(Apply(py, op, l.v, r.v))
    else if Number(l.v) && Number(r.v) && (op == Sub || op == Mult || op == FloorDiv || op == Div || op == Pow) then
      FromPython(Apply(py, op, l.v, r.v))
    else Unknown
  }

  function Fold(py: Python, e: Expr, consts: Consts): Folded
    decreases e, 1
  {
    match e
    case Const(v) => Known(v)
    case Name(id) => if id in consts then consts[id] else Unknown
    case DictOf(entries) =>
      if Keyed(entries) then
        var d := FoldEntries(py, e, 0, consts);
        if d.Known? && !HashableKeys(d.v) then Crash else d
      else Unknown
    case Subscript(table, key) =>
      var t, k := Fold(py, table, consts), Fold(py, key, consts);
      if t.Crash? || k.Crash? then Crash
      else if t.Known? && t.v.Dict? && k.Known? then if Hashable(k.v) then FromPython(Find(t.v.items, k.v)) else Crash
      else Unknown
    case Joined(_) => FoldPieces(py, e, 0, consts)
    case Neg(x) =>
      var v := Fold(py, x, consts);
      if v.Known? && Number(v.v) then FromPython(Negate(py, v.v)) else if v.Crash? then Crash else Unknown
    case Bin(op, l, r) => FoldBin(py, op, Fold(py, l, consts), Fold(py, r, consts))
    case Call(func, args, hasKeywords) =>
      if Conversion(func) && |args| == 1 && !hasKeywords then
        var v := Fold(py, args[0], consts);
        if v.Known? then FromConversion(py.convert(func, v.v)) else v
      else Unknown
    case _ => Unknown
  }

  /** The keys and values, folded before any key is hashed. */
  function FoldEntries(py: Python, e: Expr, i: nat, consts: Consts): (r: Folded)
    requires e.DictOf? && Keyed(e.entries) && i <= |e.entries|
    ensures r.Known? ==> r.v.Dict?
    decreases e, 0, |e.entries| - i
  {
    if i == |e.entries| then Known(Dict([]))
    else
      var k, v := Fold(py, e.entries[i].0.value, consts), Fold(py, e.entries[i].1, consts);
      var rest := FoldEntries(py, e, i + 1, consts);
      if k.Crash? || v.Crash? || rest.Crash? then Crash
      else if k.Unknown? || v.Unknown? || rest.Unknown? then Unknown
      else Known(Dict([(k.v, v.v)] + rest.v.items))
  }

  /** The text of a f-string; conversions and format specs are not looked at. */
  function FoldPieces(py: Python, e: Expr, i: nat, consts: Consts): (r: Folded)
    requires e.Joined? && i <= |e.pieces|
    ensures r.Known? ==> r.v.Str?
    decreases e, 0, |e.pieces| - i
  {
    if i == |e.pieces| then Known(Str(""))
    else
      var first := match e.pieces[i]
        case Literal(text) => Known(Str(text))
        case Formatted(x, _, _) => (var v := Fold(py, x, consts); if v.Known? then Known(Str(StrOf(py, v.v))) else v);
      if !first.Known? then first
      else
        var rest := FoldPieces(py, e, i + 1, consts);
        if rest.Known? then Known(Str(first.v.s + rest.v.s)) else rest
  }

  // ---------------------------------------------------------------- soundness

  /** The environment has the value of every constant known but the stale ones, and the three built-in conversions are not shadowed. */
  ghost predicate Agrees(consts: Consts, env: Env, stale: set<string>) {
    && (forall id :: id in consts && consts[id].Known? && id !in stale ==> id in env && env[id] == consts[id].v)
    && (forall id :: Conversion(id) ==> id !in env)
  }

  /** The expression names no stale constant, and every f-string in it shows the values folded for its pieces as `str` does. */
  predicate Readable(py: Python, e: Expr, consts: Consts, stale: set<string>)
    decreases e
  {
    match e
    case Name(id) => id !in stale
    case DictOf(entries) =>
      forall i :: 0 <= i < |entries| ==>
        (entries[i].0.Some? ==> Readable(py, entries[i].0.value, consts, stale)) && Readable(py, entries[i].1, consts, stale)
    case Subscript(table, key) => Readable(py, table, consts, stale) && Readable(py, key, consts, stale)
    case Joined(pieces) =>
      forall i :: 0 <= i < |pieces| ==> (pieces[i].Formatted? ==>
        && Readable(py, pieces[i].e, consts, stale)
        && (Fold(py, pieces[i].e, consts).Known? ==> LikeStr(Fold(py, pieces[i].e, consts).v, pieces[i].conversion, pieces[i].spec)))
    case Neg(x) => Readable(py, x, consts, stale)
    case Bin(_, l, r) => Readable(py, l, consts, stale) && Readable(py, r, consts, stale)
    case Call(_, args, _) => forall i :: 0 <= i < |args| ==> Readable(py, args[i], consts, stale)
    case _ => true
  }

  /** Whatever `fold` finds is what the expression evaluates to in every environment that agrees with the constants it names. */
  lemma {:induction false} FoldSound(py: Python, e: Expr, consts: Consts, env: Env, stale: set<string>)
    requires Agrees(consts, env, stale) && Readable(py, e, consts, stale) && Fold(py, e, consts).Known?
    ensures Eval(py, e, env) == Some(Fold(py, e, consts).v)
    decreases e, 1
  {
    match e
    case DictOf(_) => EntriesSound(py, e, 0, consts, env, stale);
    case Subscript(table, key) =>
      FoldSound(py, table, consts, env, stale);
      FoldSound(py, key, consts, env, stale);
    case Joined(_) => PiecesSound(py, e, 0, consts, env, stale);
    case Neg(x) => FoldSound(py, x, consts, env, stale);
    case Bin(_, l, r) =>
      FoldSound(py, l, consts, env, stale);
      FoldSound(py, r, consts, env, stale);
    case Call(_, args, _) => FoldSound(py, args[0], consts, env, stale);
    case _ =>
  }

  lemma {:induction false} EntriesSound(py: Python, e: Expr, i: nat, consts: Consts, env: Env, stale: set<string>)
    requires e.DictOf? && Keyed(e.entries) && i <= |e.entries| && Readable(py, e, consts, stale)
    requires Agrees(consts, env, stale) && FoldEntries(py, e, i, consts).Known?
    ensures var d := FoldEntries(py, e, i, consts).v; EvalEntries(py, e, i, env) == if HashableKeys(d) then Some(d) else None
    decreases e, 0, |e.entries| - i
  {
    if i < |e.entries| {
      FoldSound(py, e.entries[i].0.value, consts, env, stale);
      FoldSound(py, e.entries[i].1, consts, env, stale);
      EntriesSound(py, e, i + 1, consts, env, stale);
      var k, v := Fold(py, e.entries[i].0.value, consts).v, Fold(py, e.entries[i].1, consts).v;
      MoreKeys(k, v, FoldEntries(py, e, i + 1, consts).v.items);
    }
  }

  lemma MoreKeys(k: Value, v: Value, items: seq<(Value, Value)>)
    ensures HashableKeys(Dict([(k, v)] + items)) <==> Hashable(k) && HashableKeys(Dict(items))
  {
    assert (k, v) in [(k, v)] + items;
  }

  lemma {:induction false} PiecesSound(py: Python, e: Expr, i: nat, consts: Consts, env: Env, stale: set<string>)
    requires e.Joined? && i <= |e.pieces| && Readable(py, e, consts, stale)
    requires Agrees(consts, env, stale) && FoldPieces(py, e, i, consts).Known?
    ensures EvalPieces(py, e, i, env) == Some(FoldPieces(py, e, i, consts).v.s)
    decreases e, 0, |e.pieces| - i
  {
    if i < |e.pieces| {
      PiecesSound(py, e, i + 1, consts, env, stale);
      if e.pieces[i].Formatted? {
        FoldSound(py, e.pieces[i].e, consts, env, stale);
        ShownLikeStr(py, Fold(py, e.pieces[i].e, consts).v, e.pieces[i].conversion, e.pieces[i].spec);
      }
    }
  }

  /** Where `fold` itself raises, so does the expression: no exception of its own making. */
  lemma {:induction false} CrashSound(py: Python, e: Expr, consts: Consts, env: Env, stale: set<string>)
    requires Agrees(consts, env, stale) && Readable(py, e, consts, stale) && Fold(py, e, consts).Crash?
    requires forall id :: id in consts ==> !consts[id].Crash?
    ensures Eval(py, e, env) == None
    decreases e, 1
  {
    match e
    case DictOf(_) =>
      if FoldEntries(py, e, 0, consts).Known? { EntriesSound(py, e, 0, consts, env, stale); } else { EntriesCrash(py, e, 0, consts, env, stale); }
    case Subscript(table, key) =>
      if Fold(py, table, consts).Crash? {
        CrashSound(py, table, consts, env, stale);
      } else if Fold(py, key, consts).Crash? {
        CrashSound(py, key, consts, env, stale);
      } else {
        FoldSound(py, table, consts, env, stale);
        FoldSound(py, key, consts, env, stale);
      }
    case Joined(_) => PiecesCrash(py, e, 0, consts, env, stale);
    case Neg(x) => CrashSound(py, x, consts, env, stale);
    case Bin(_, l, r) => if Fold(py, l, consts).Crash? { CrashSound(py, l, consts, env, stale); } else { CrashSound(py, r, consts, env, stale); }
    case Call(_, args, _) =>
      if Fold(py, args[0], consts).Crash? { CrashSound(py, args[0], consts, env, stale); } else { FoldSound(py, args[0], consts, env, stale); }
    case _ =>
  }

  lemma {:induction false} EntriesCrash(py: Python, e: Expr, i: nat, consts: Consts, env: Env, stale: set<string>)
    requires e.DictOf? && Keyed(e.entries) && i <= |e.entries| && Readable(py, e, consts, stale)
    requires Agrees(consts, env, stale) && FoldEntries(py, e, i, consts).Crash?
    requires forall id :: id in consts ==> !consts[id].Crash?
    ensures EvalEntries(py, e, i, env) == None
    decreases e, 0, |e.entries| - i
  {
    if Fold(py, e.entries[i].0.value, consts).Crash? {
      CrashSound(py, e.entries[i].0.value, consts, env, stale);
    } else if Fold(py, e.entries[i].1, consts).Crash? {
      CrashSound(py, e.entries[i].1, consts, env, stale);
    } else {
      EntriesCrash(py, e, i + 1, consts, env, stale);
    }
  }

  lemma {:induction false} PiecesCrash(py: Python, e: Expr, i: nat, consts: Consts, env: Env, stale: set<string>)
    requires e.Joined? && i <= |e.pieces| && Readable(py, e, consts, stale)
    requires Agrees(consts, env, stale) && FoldPieces(py, e, i, consts).Crash?
    requires forall id :: id in consts ==> !consts[id].Crash?
    ensures EvalPieces(py, e, i, env) == None
    decreases e, 0, |e.pieces| - i
  {
    var p := e.pieces[i];
    if p.Formatted? && Fold(py, p.e, consts).Crash? {
      CrashSound(py, p.e, consts, env, stale);
    } else {
      PiecesCrash(py, e, i + 1, consts, env, stale);
    }
  }

  // ---------------------------------------------------------------- f-strings, exactly

  /** The formatted expressions of an f-string fold soundly, and each is shown in a way that has a meaning. */
  predicate PiecesMeant(py: Python, e: Expr, consts: Consts, stale: set<string>)
    requires e.Joined?
  {
    forall i :: 0 <= i < |e.pieces| ==> (e.pieces[i].Formatted? ==>
      && Readable(py, e.pieces[i].e, consts, stale)
      && (Fold(py, e.pieces[i].e, consts).Known? ==> Meant(Fold(py, e.pieces[i].e, consts).v, e.pieces[i].conversion, e.pieces[i].spec)))
  }

  /** Every piece from number `i` on shows its value as `str` does. */
  predicate AllLikeStr(py: Python, e: Expr, i: nat, consts: Consts)
    requires e.Joined? && i <= |e.pieces|
    decreases |e.pieces| - i
  {
    i == |e.pieces| ||
    ( && (e.pieces[i].Formatted? && Fold(py, e.pieces[i].e, consts).Known? ==>
            LikeStr(Fold(py, e.pieces[i].e, consts).v, e.pieces[i].conversion, e.pieces[i].spec))
      && AllLikeStr(py, e, i + 1, consts))
  }

  lemma {:induction false} PiecesAreExact(py: Python, e: Expr, i: nat, consts: Consts, env: Env, stale: set<string>)
    requires e.Joined? && i <= |e.pieces| && PiecesMeant(py, e, consts, stale)
    requires Agrees(consts, env, stale) && FoldPieces(py, e, i, consts).Known?
    ensures EvalPieces(py, e, i, env).Some?
    ensures var was, found := EvalPieces(py, e, i, env).value, FoldPieces(py, e, i, consts).v.s;
      if AllLikeStr(py, e, i, consts) then was == found else |was| > |found|
    decreases |e.pieces| - i
  {
    hide Fold, Eval, Readable, Agrees, Meant, LikeStr, Shown, StrOf;
    if i < |e.pieces| {
      PiecesAreExact(py, e, i + 1, consts, env, stale);
      var p := e.pieces[i];
      if p.Formatted? {
        FoldSound(py, p.e, consts, env, stale);
        ShownLikeStr(py, Fold(py, p.e, consts).v, p.conversion, p.spec);
      }
    }
  }

  /**
   * `fold` does not look at conversions: an f-string is folded right exactly when no `!r` or `!a` in it meets a string, where
   * no piece has a format spec.
   */
  lemma FormattingMatters(py: Python, e: Expr, consts: Consts, env: Env, stale: set<string>)
    requires e.Joined? && PiecesMeant(py, e, consts, stale)
    requires Agrees(consts, env, stale) && Fold(py, e, consts).Known?
    ensures Eval(py, e, env).Some?
    ensures Eval(py, e, env) == Some(Fold(py, e, consts).v) <==> AllLikeStr(py, e, 0, consts)
  {
    hide AllLikeStr, PiecesMeant, Agrees;
    PiecesAreExact(py, e, 0, consts, env, stale);
  }
}
