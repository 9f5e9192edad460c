/** Where the folder's constants come from: module-level assignments, and the arguments of a wrapper's call. */
module ConstBinding {
  import opened Text
  import opened ConstFold

  // ---------------------------------------------------------------- module-level constants

  /** A module statement; `Other` is any other kind, with what it leaves bound. */
  datatype Stmt = Assign(target: string, value: Expr) | Annotated(target: string, given: Option<Expr>) | Other(bound: map<string, Value>)

  /** The target and value of an assignment the folder looks at. */
  function Looked(s: Stmt): Option<(string, Expr)> {
    match s
    case Assign(t, v) => Some((t, v))
    case Annotated(t, v) => if v.Some? then Some((t, v.value)) else None
    case Other(_) => None
  }

  /** `_module_consts`; `None` when `fold` raises. */
  function ModuleConsts(py: Python, stmts: seq<Stmt>, consts: Consts): Option<Consts>
    decreases |stmts|
  {
    if stmts == [] then Some(consts)
    else
      var a := Looked(stmts[0]);
      var v := if a.Some? then Fold(py, a.value.1, consts) else Unknown;
      if v.Crash? then None
      else ModuleConsts(py, stmts[1..], if v.Known? then consts[a.value.0 := v] else consts)
  }

  method FoldModule(py: Python, stmts: seq<Stmt>) returns (r: Option<Consts>)
    ensures r == ModuleConsts(py, stmts, map[])
  {
    var consts: Consts := map[];
    assert stmts[0..] == stmts;
    for i := 0 to |stmts|
      invariant ModuleConsts(py, stmts[i..], consts) == ModuleConsts(py, stmts, map[])
    {
      assert stmts[i..][1..] == stmts[i + 1..];
      var a := Looked(stmts[i]);
      if a.Some? {
        var v := Fold(py, a.value.1, consts);
        if v.Crash? { return None; }
        if v.Known? { consts := consts[a.value.0 := v]; }
      }
    }
    return Some(consts);
  }

  /** Running the module; `None` when a statement raises. */
  function Run(py: Python, stmts: seq<Stmt>, env: Env): Option<Env>
    decreases |stmts|
  {
    if stmts == [] then Some(env)
    else
      var a := Looked(stmts[0]);
      if a.Some? then
        var v := Eval(py, a.value.1, env);
        if v.None? then None else Run(py, stmts[1..], env[a.value.0 := v.value])
      else if stmts[0].Other? then Run(py, stmts[1..], env + stmts[0].bound)
      else Run(py, stmts[1..], env)
  }

  /** No statement binds the name of a conversion. */
  ghost predicate Unshadowed(stmts: seq<Stmt>) {
    forall i, id :: 0 <= i < |stmts| && Rebinds(stmts[i], id) ==> !Conversion(id)
  }

  /** The statement binds the name: an assignment the folder looks at, or any other statement. */
  predicate Rebinds(s: Stmt, id: string) {
    (Looked(s).Some? && Looked(s).value.0 == id) || (s.Other? && id in s.bound)
  }

  function NextConsts(py: Python, s: Stmt, consts: Consts): Consts {
    var a := Looked(s);
    if a.Some? && Fold(py, a.value.1, consts).Known? then consts[a.value.0 := Fold(py, a.value.1, consts)] else consts
  }

  /** The statement is an assignment that folds, names nothing stale and shows no string by `repr`. */
  predicate FoldsSoundly(py: Python, s: Stmt, consts: Consts, stale: set<string>) {
    Looked(s).Some? && Fold(py, Looked(s).value.1, consts).Known? && Readable(py, Looked(s).value.1, consts, stale)
  }

  /** A name is stale after a statement that binds it, unless that is an assignment that folds soundly. */
  function NextStale(py: Python, s: Stmt, consts: Consts, stale: set<string>): set<string> {
    var a := Looked(s);
    if a.Some? then if FoldsSoundly(py, s, consts, stale) then stale - {a.value.0} else stale + {a.value.0}
    else if s.Other? then stale + s.bound.Keys
    else stale
  }

  /** The names a module leaves stale. */
  function StaleAfter(py: Python, stmts: seq<Stmt>, consts: Consts, stale: set<string>): set<string>
    decreases |stmts|
  {
    if stmts == [] then stale
    else StaleAfter(py, stmts[1..], NextConsts(py, stmts[0], consts), NextStale(py, stmts[0], consts, stale))
  }

  lemma StatementSound(py: Python, s: Stmt, consts: Consts, env: Env, stale: set<string>)
    requires Agrees(consts, env, stale) && Unshadowed([s]) && Run(py, [s], env).Some?
    ensures Agrees(NextConsts(py, s, consts), Run(py, [s], env).value, NextStale(py, s, consts, stale))
  {
    hide Fold, Eval, Readable;
    assert [s][1..] == [] && [s][0] == s;
    assert forall id :: Rebinds(s, id) ==> !Conversion(id);
    if FoldsSoundly(py, s, consts, stale) { FoldSound(py, Looked(s).value.1, consts, env, stale); }
  }

  lemma RunFirst(py: Python, stmts: seq<Stmt>, env: Env)
    requires stmts != [] && Run(py, stmts, env).Some?
    ensures Run(py, [stmts[0]], env).Some? && Run(py, stmts, env) == Run(py, stmts[1..], Run(py, [stmts[0]], env).value)
  {
    hide Eval;
    assert [stmts[0]][1..] == [] && forall e :: Run(py, [], e) == Some(e);
  }

  /** Every folded constant that is not stale is what its name is bound to once the module has run. */
  lemma {:induction false} ModuleConstsSound(py: Python, stmts: seq<Stmt>, consts: Consts, env: Env, stale: set<string>)
    requires Agrees(consts, env, stale) && Unshadowed(stmts)
    ensures var c, e := ModuleConsts(py, stmts, consts), Run(py, stmts, env);
      c.Some? && e.Some? ==> Agrees(c.value, e.value, StaleAfter(py, stmts, consts, stale))
    decreases |stmts|
  {
    hide Fold, Eval, Readable, Agrees, NextStale, Rebinds;
    if stmts != [] && ModuleConsts(py, stmts, consts).Some? && Run(py, stmts, env).Some? {
      var s := stmts[0];
      RunFirst(py, stmts, env);
      assert Unshadowed([s]) && Unshadowed(stmts[1..]);
      StatementSound(py, s, consts, env, stale);
      ModuleConstsSound(py, stmts[1..], NextConsts(py, s, consts), Run(py, [s], env).value, NextStale(py, s, consts, stale));
    }
  }

  /** Statement number `i` folds soundly with the constants known by then. */
  predicate FoldedAt(py: Python, stmts: seq<Stmt>, consts: Consts, stale: set<string>, i: nat)
    requires i < |stmts|
    decreases i
  {
    if i == 0 then FoldsSoundly(py, stmts[0], consts, stale)
    else FoldedAt(py, stmts[1..], NextConsts(py, stmts[0], consts), NextStale(py, stmts[0], consts, stale), i - 1)
  }

  lemma {:induction false} NotRebound(py: Python, stmts: seq<Stmt>, consts: Consts, stale: set<string>, id: string)
    requires forall j :: 0 <= j < |stmts| ==> !Rebinds(stmts[j], id)
    ensures id in StaleAfter(py, stmts, consts, stale) <==> id in stale
    decreases |stmts|
  {
    hide FoldsSoundly, NextConsts;
    if stmts != [] {
      assert !Rebinds(stmts[0], id);
      NotRebound(py, stmts[1..], NextConsts(py, stmts[0], consts), NextStale(py, stmts[0], consts, stale), id);
    }
  }

  lemma StaleStep(py: Python, s: Stmt, consts: Consts, stale: set<string>, id: string)
    requires Rebinds(s, id)
    ensures id !in NextStale(py, s, consts, stale) <==> FoldsSoundly(py, s, consts, stale)
  {
    hide Fold, Readable;
  }

  /** A name the module binds is free of staleness exactly when its last binding is an assignment that folds soundly. */
  lemma {:induction false} LastBindingDecides(py: Python, stmts: seq<Stmt>, consts: Consts, stale: set<string>, id: string, i: nat)
    requires i < |stmts| && Rebinds(stmts[i], id) && forall j :: i < j < |stmts| ==> !Rebinds(stmts[j], id)
    ensures id !in StaleAfter(py, stmts, consts, stale) <==> FoldedAt(py, stmts, consts, stale, i)
    decreases i
  {
    hide FoldsSoundly, NextConsts;
    var c, l := NextConsts(py, stmts[0], consts), NextStale(py, stmts[0], consts, stale);
    forall j | i <= j < |stmts[1..]| ensures !Rebinds(stmts[1..][j], id) { assert stmts[1..][j] == stmts[j + 1]; }
    if i == 0 {
      NotRebound(py, stmts[1..], c, l, id);
      StaleStep(py, stmts[0], consts, stale, id);
    } else {
      LastBindingDecides(py, stmts[1..], c, l, id, i - 1);
    }
  }

  /** Every assignment the folder looks at is readable with the constants known by then. */
  predicate AllLookedReadable(py: Python, stmts: seq<Stmt>, consts: Consts, stale: set<string>)
    decreases |stmts|
  {
    stmts == [] ||
    ( && (Looked(stmts[0]).Some? ==> Readable(py, Looked(stmts[0]).value.1, consts, stale))
      && AllLookedReadable(py, stmts[1..], NextConsts(py, stmts[0], consts), NextStale(py, stmts[0], consts, stale)))
  }

  /** A module that runs is also folded to its end: `fold` raises only where the module does. */
  lemma {:induction false} RunningModuleFolds(py: Python, stmts: seq<Stmt>, consts: Consts, env: Env, stale: set<string>)
    requires Agrees(consts, env, stale) && Unshadowed(stmts) && AllLookedReadable(py, stmts, consts, stale)
    requires Run(py, stmts, env).Some? && forall id :: id in consts ==> !consts[id].Crash?
    ensures ModuleConsts(py, stmts, consts).Some?
    decreases |stmts|
  {
    hide Fold, Eval, Readable, Agrees, NextStale, Rebinds;
    if stmts != [] {
      var s := stmts[0];
      var a := Looked(s);
      RunFirst(py, stmts, env);
      assert Unshadowed([s]) && Unshadowed(stmts[1..]);
      StatementSound(py, s, consts, env, stale);
      if a.Some? && Fold(py, a.value.1, consts).Crash? {
        CrashSound(py, a.value.1, consts, env, stale);
        assert false;
      }
      RunningModuleFolds(py, stmts[1..], NextConsts(py, s, consts), Run(py, [s], env).value, NextStale(py, s, consts, stale));
    }
  }

  /** Some value differs from any given one. */
  lemma Elsewhere(v: Value) returns (w: Value)
    ensures w != v
  {
    w := if v == NoneValue then Int(0) else NoneValue;
  }

  lemma BindingIsRight(consts: Consts, env: Env, target: string, w: Value)
    requires Agrees(consts, env, {}) && !Conversion(target)
    ensures Agrees(consts, env[target := w], {}) <==> (target !in consts || !consts[target].Known? || w == consts[target].v)
  {
  }

  /** The constants are right before the statement and after it. */
  ghost predicate KeepsRight(py: Python, s: Stmt, consts: Consts, env: Env) {
    && ModuleConsts(py, [s], consts).Some? && Run(py, [s], env).Some?
    && Agrees(ModuleConsts(py, [s], consts).value, Run(py, [s], env).value, {})
  }

  /** A Python that gives every expression the folder does not look at the value `w`. */
  function Answering(py: Python, w: Value): Python {
    py.(other := (e: Expr, n: Env) => Some(w))
  }

  lemma Rebinding(py: Python, target: string, tag: int, w: Value, consts: Consts, env: Env)
    ensures KeepsRight(Answering(py, w), Assign(target, Opaque(tag)), consts, env) <==> Agrees(consts, env[target := w], {})
    ensures KeepsRight(py, Other(map[target := w]), consts, env) <==> Agrees(consts, env[target := w], {})
  {
    hide Agrees;
    var p, a, o := Answering(py, w), Assign(target, Opaque(tag)), Other(map[target := w]);
    assert [a][1..] == [] && [o][1..] == [] && env + map[target := w] == env[target := w];
    assert Fold(p, Opaque(tag), consts) == Unknown && Eval(p, Opaque(tag), env) == Some(w);
    assert ModuleConsts(p, [a], consts) == ModuleConsts(p, [], consts) == Some(consts);
    assert Run(p, [a], env) == Run(p, [], env[target := w]) == Some(env[target := w]);
    assert ModuleConsts(py, [o], consts) == ModuleConsts(py, [], consts) == Some(consts);
    assert Run(py, [o], env) == Run(py, [], env[target := w]) == Some(env[target := w]);
  }

  /**
   * An assignment the folder cannot fold, or a statement it does not look at, keeps the constants right whatever it binds
   * exactly when its name has not been folded before.
   */
  lemma StaleConstant(py: Python, target: string, tag: int, consts: Consts, env: Env)
    requires Agrees(consts, env, {}) && !Conversion(target)
    ensures (forall w: Value :: KeepsRight(Answering(py, w), Assign(target, Opaque(tag)), consts, env))
       <==> (target !in consts || !consts[target].Known?)
    ensures (forall w: Value :: KeepsRight(py, Other(map[target := w]), consts, env)) <==> (target !in consts || !consts[target].Known?)
  {
    hide Agrees, KeepsRight, Answering;
    forall w: Value
      ensures var right := target !in consts || !consts[target].Known? || w == consts[target].v;
        && (KeepsRight(Answering(py, w), Assign(target, Opaque(tag)), consts, env) <==> right)
        && (KeepsRight(py, Other(map[target := w]), consts, env) <==> right)
    {
      Rebinding(py, target, tag, w, consts, env);
      BindingIsRight(consts, env, target, w);
    }
    if target in consts && consts[target].Known? {
      var w := Elsewhere(consts[target].v);
      assert !KeepsRight(Answering(py, w), Assign(target, Opaque(tag)), consts, env);
      assert !KeepsRight(py, Other(map[target := w]), consts, env);
    }
  }

  // ---------------------------------------------------------------- a wrapper's default at one call

  datatype Func = Func(posonly: seq<string>, args: seq<string>, kwonly: seq<string>, defaults: seq<Expr>, kwDefaults: map<string, Expr>) {
    function Params(): seq<string> { posonly + args + kwonly }
  }

  /** A call; `receiver` when it is made on an object, which fills the first parameter. A keyword without a name is a `**`. */
  datatype CallSite = CallSite(args: seq<Expr>, keywords: seq<(Option<string>, Expr)>, receiver: bool)

  predicate IsSelf(p: string) {
    p == "self" || p == "cls"
  }

  function DropSelf(names: seq<string>): seq<string> {
    if names != [] && IsSelf(names[0]) then names[1..] else names
  }

  function IndexOf(names: seq<string>, p: string): (i: nat)
    requires p in names
    ensures i < |names| && names[i] == p
  {
    if names[0] == p then 0 else 1 + IndexOf(names[1..], p)
  }

  function Keyword(ks: seq<(Option<string>, Expr)>, p: string): Option<Expr> {
    if ks == [] then None else if ks[0].0 == Some(p) then Some(ks[0].1) else Keyword(ks[1..], p)
  }

  /** The default the folder finds for a parameter: only regular ones have any, counted back from their own end. */
  function FoundDefault(f: Func, p: string): Option<Expr> {
    if p !in f.args then None
    else
      var i, pad := IndexOf(f.args, p), |f.args| - |f.defaults|;
      if pad < 0 then Some(f.defaults[i]) else if i < pad then None else Some(f.defaults[i - pad])
  }

  function ParamValue(py: Python, f: Func, c: CallSite, i: nat, caller: Consts, owner: Consts): Folded
    requires i < |DropSelf(f.Params())|
  {
    var p := DropSelf(f.Params())[i];
    if i < |c.args| then Fold(py, c.args[i], caller)
    else
      var k := Keyword(c.keywords, p);
      if k.Some? then Fold(py, k.value, caller)
      else
        var d := FoundDefault(f, p);
        if d.Some? then Fold(py, d.value, owner) else Unknown
  }

  /** The constants with the first `n` parameters laid over them. */
  function Overlay(py: Python, f: Func, c: CallSite, n: nat, caller: Consts, owner: Consts): Consts
    requires n <= |DropSelf(f.Params())|
  {
    if n == 0 then owner
    else Overlay(py, f, c, n - 1, caller, owner)[DropSelf(f.Params())[n - 1] := ParamValue(py, f, c, n - 1, caller, owner)]
  }

  function HelperDefault(py: Python, f: Func, expr: Expr, c: CallSite, caller: Consts, owner: Consts): Folded {
    Fold(py, expr, Overlay(py, f, c, |DropSelf(f.Params())|, caller, owner))
  }

  /** `_helper_default` */
  method FoldDefault(py: Python, f: Func, expr: Expr, c: CallSite, caller: Consts, owner: Consts) returns (r: Folded)
    ensures r == HelperDefault(py, f, expr, c, caller, owner)
  {
    var overlay := owner;
    var positional := DropSelf(f.Params());
    for i := 0 to |positional|
      invariant overlay == Overlay(py, f, c, i, caller, owner)
    {
      var value := Unknown;
      if i < |c.args| {
        value := Fold(py, c.args[i], caller);
      } else {
        var k := Keyword(c.keywords, positional[i]);
        if k.Some? {
          value := Fold(py, k.value, caller);
        } else {
          var d := FoundDefault(f, positional[i]);
          if d.Some? { value := Fold(py, d.value, owner); }
        }
      }
      overlay := overlay[positional[i] := value];
    }
    r := Fold(py, expr, overlay);
  }

  // ---------------------------------------------------------------- what Python binds

  /** The parameters a positional argument may fill. */
  function Positional(f: Func): seq<string> {
    f.posonly + f.args
  }

  /** The parameters positional arguments fill, in order. */
  function Slots(f: Func, c: CallSite): seq<string> {
    if c.receiver && Positional(f) != [] then Positional(f)[1..] else Positional(f)
  }

  /** What a call's unpacked arguments hold when it runs: a list for each `*`, and all that the `**` mappings give. */
  datatype Unpacking = Unpacking(lists: seq<seq<Value>>, extra: map<string, Value>)

  /** Where a parameter's value comes from: an argument, a keyword, a default, or something unpacked. */
  datatype Origin = Given(e: Expr) | Named(e: Expr) | Default(e: Expr) | Unpacked(v: Value)

  ghost function ValueOf(py: Python, o: Origin, callerEnv: Env, ownerEnv: Env): Option<Value> {
    match o
    case Given(e) => Eval(py, e, callerEnv)
    case Named(e) => Eval(py, e, callerEnv)
    case Default(e) => Eval(py, e, ownerEnv)
    case Unpacked(v) => Some(v)
  }

  function Each(vs: seq<Value>): (r: seq<Origin>)
    ensures |r| == |vs| && forall i :: 0 <= i < |r| ==> r[i] == Unpacked(vs[i])
  {
    seq(|vs|, i requires 0 <= i < |vs| => Unpacked(vs[i]))
  }

  /** The positional arguments the first `n` written ones come to. */
  function Spread(c: CallSite, u: Unpacking, n: nat): seq<Origin>
    requires |u.lists| == |c.args| && n <= |c.args|
  {
    if n == 0 then []
    else Spread(c, u, n - 1) + if c.args[n - 1].Starred? then Each(u.lists[n - 1]) else [Given(c.args[n - 1])]
  }

  /** What Python binds a parameter to. */
  function Source(f: Func, c: CallSite, u: Unpacking, p: string): Option<Origin>
    requires |u.lists| == |c.args|
  {
    var slots, all, given := Slots(f, c), Positional(f), Spread(c, u, |c.args|);
    if p in slots && IndexOf(slots, p) < |given| then Some(given[IndexOf(slots, p)])
    else if p !in f.posonly && Keyword(c.keywords, p).Some? then Some(Named(Keyword(c.keywords, p).value))
    else if p !in f.posonly && p in u.extra then Some(Unpacked(u.extra[p]))
    else if p in all then
      var j := IndexOf(all, p) - (|all| - |f.defaults|);
      if 0 <= j < |f.defaults| then Some(Default(f.defaults[j])) else None
    else if p in f.kwDefaults then Some(Default(f.kwDefaults[p]))
    else None
  }

  /** What the folder takes parameter number `i` for; `None` when it leaves it unknown. */
  function Found(f: Func, c: CallSite, i: nat): Option<Origin>
    requires i < |DropSelf(f.Params())|
  {
    var p := DropSelf(f.Params())[i];
    if i < |c.args| then if c.args[i].Starred? then None else Some(Given(c.args[i]))
    else if Keyword(c.keywords, p).Some? then Some(Named(Keyword(c.keywords, p).value))
    else if FoundDefault(f, p).Some? then Some(Default(FoundDefault(f, p).value))
    else None
  }

  /** `env` is the wrapper's scope: the owner's names, and each parameter bound to the value of its source. */
  ghost predicate Binds(py: Python, f: Func, c: CallSite, u: Unpacking, callerEnv: Env, ownerEnv: Env, env: Env)
    requires |u.lists| == |c.args|
  {
    && (forall id :: id !in f.Params() ==> (id in env <==> id in ownerEnv) && (id in env ==> env[id] == ownerEnv[id]))
    && (forall p :: p in DropSelf(f.Params()) && Source(f, c, u, p).Some? ==>
          p in env && ValueOf(py, Source(f, c, u, p).value, callerEnv, ownerEnv) == Some(env[p]))
  }

  predicate Distinct(names: seq<string>) {
    forall i, j :: 0 <= i < j < |names| ==> names[i] != names[j]
  }

  lemma DistinctPart(names: seq<string>, lo: nat, hi: nat)
    requires Distinct(names) && lo <= hi <= |names|
    ensures Distinct(names[lo..hi])
  {
  }

  /** The folder's count of the defaults fits the regular parameters. */
  predicate LinedUp(f: Func) {
    f.args == [] || |f.defaults| <= |f.args|
  }

  /** A wrapper and a call of the ordinary kind: distinct parameters, defaults lined up, and a receiver exactly for a method. */
  ghost predicate Ordinary(f: Func, c: CallSite) {
    && LinedUp(f) && |f.defaults| <= |Positional(f)|
    && Distinct(f.Params())
    && (forall p :: p in f.Params() ==> !Conversion(p))
    && (c.receiver <==> Positional(f) != [] && IsSelf(Positional(f)[0]))
    && (Positional(f) == [] ==> f.kwonly == [] || !IsSelf(f.kwonly[0]))
  }

  /** Python accepts the call: nothing is given twice. */
  ghost predicate Accepted(f: Func, c: CallSite, u: Unpacking)
    requires |u.lists| == |c.args|
  {
    && (forall i :: 0 <= i < |Slots(f, c)| && i < |Spread(c, u, |c.args|)| && Slots(f, c)[i] !in f.posonly ==>
          Keyword(c.keywords, Slots(f, c)[i]).None? && Slots(f, c)[i] !in u.extra)
    && (forall p :: p in u.extra ==> Keyword(c.keywords, p).None?)
  }

  /**
   * What is unpacked, and what is left over, disturbs nothing the folder relies on: each written argument that stands for a
   * parameter stays in its place, no keyword goes by the name of a positional-only parameter, and no parameter that the folder
   * gives its default is filled from a list or a mapping.
   */
  ghost predicate Undisturbed(f: Func, c: CallSite, u: Unpacking)
    requires |u.lists| == |c.args|
  {
    && (forall i :: 0 <= i < |c.args| && i < |DropSelf(f.Params())| && !c.args[i].Starred? ==>
          i < |Slots(f, c)| && |Spread(c, u, i)| == i)
    && (forall i :: |c.args| <= i < |DropSelf(f.Params())| ==>
          var p := DropSelf(f.Params())[i];
          if Keyword(c.keywords, p).Some? then p !in f.posonly
          else FoundDefault(f, p).Some? ==> i >= |Spread(c, u, |c.args|)| && p !in u.extra)
  }

  /** No two written arguments are the same expression. */
  predicate DistinctArgs(c: CallSite) {
    forall i, j :: 0 <= i < j < |c.args| ==> c.args[i] != c.args[j]
  }

  /** Every expression involved is readable where it is evaluated. */
  predicate AllReadable(py: Python, f: Func, expr: Expr, c: CallSite, caller: Consts, owner: Consts, cs: set<string>, os: set<string>) {
    && Readable(py, expr, Overlay(py, f, c, |DropSelf(f.Params())|, caller, owner), StaleInside(f, os))
    && (forall e :: e in c.args ==> Readable(py, e, caller, cs))
    && (forall k :: k in c.keywords ==> Readable(py, k.1, caller, cs))
    && (forall e :: e in f.defaults ==> Readable(py, e, owner, os))
  }

  /** A parameter hides a stale name of the wrapper's file. */
  function StaleInside(f: Func, os: set<string>): set<string> {
    set id | id in os && id !in DropSelf(f.Params())
  }

  /** The default Python gives a parameter that may be filled by position: the defaults belong to the last of them. */
  function OwnDefault(f: Func, p: string): Option<Expr>
    requires p in Positional(f) && |f.defaults| <= |Positional(f)|
  {
    var i, pad := IndexOf(Positional(f), p), |Positional(f)| - |f.defaults|;
    if i < pad then None else Some(f.defaults[i - pad])
  }

  predicate DistinctDefaults(f: Func) {
    forall i, j :: 0 <= i < j < |f.defaults| ==> f.defaults[i] != f.defaults[j]
  }

  lemma {:induction false} IndexBehind(front: seq<string>, names: seq<string>, p: string)
    requires p in names && Distinct(front + names)
    ensures p in front + names && IndexOf(front + names, p) == |front| + IndexOf(names, p)
  {
    var i := |front| + IndexOf(names, p);
    assert (front + names)[i] == p;
    IndexIs(front + names, i);
  }

  /**
   * The folder counts the defaults back from the end of the regular parameters and never reaches the positional-only ones:
   * the defaults it finds for regular parameters are Python's own exactly when no default belongs to a positional-only one.
   */
  lemma DefaultsLineUp(f: Func)
    requires Distinct(f.Params()) && DistinctDefaults(f) && |f.defaults| <= |Positional(f)|
    ensures (forall p :: p in f.args ==> p in Positional(f) && FoundDefault(f, p) == OwnDefault(f, p)) <==> LinedUp(f)
  {
    var all, n := f.Params(), |Positional(f)|;
    assert all[0..n] == Positional(f);
    DistinctPart(all, 0, n);
    forall p | p in f.args
      ensures p in Positional(f) && IndexOf(Positional(f), p) == |f.posonly| + IndexOf(f.args, p)
    {
      IndexBehind(f.posonly, f.args, p);
    }
    if !LinedUp(f) {
      var p := f.args[0];
      assert FoundDefault(f, p) != OwnDefault(f, p);
    }
  }

  lemma {:induction false} KeywordIn(ks: seq<(Option<string>, Expr)>, p: string)
    ensures Keyword(ks, p).Some? ==> (Some(p), Keyword(ks, p).value) in ks
  {
    if ks != [] && ks[0].0 != Some(p) { KeywordIn(ks[1..], p); }
  }

  lemma {:induction false} IndexIs(names: seq<string>, i: nat)
    requires i < |names| && Distinct(names)
    ensures names[i] in names && IndexOf(names, names[i]) == i
    decreases |names|
  {
    if i > 0 { IndexIs(names[1..], i - 1); }
  }

  lemma SlotsFirst(f: Func, c: CallSite)
    requires Ordinary(f, c)
    ensures DropSelf(f.Params()) == Slots(f, c) + f.kwonly
    ensures Slots(f, c) == if c.receiver then Positional(f)[1..] else Positional(f)
    ensures Distinct(DropSelf(f.Params())) && Distinct(Slots(f, c)) && Distinct(Positional(f))
  {
    var all := f.Params();
    assert all == Positional(f) + f.kwonly;
    hide Distinct;
    var d := if c.receiver then 1 else 0;
    DistinctPart(all, d, |all|);
    DistinctPart(all, d, |Positional(f)|);
    DistinctPart(all, 0, |Positional(f)|);
    assert all[d..|all|] == DropSelf(all);
    assert all[d..|Positional(f)|] == Slots(f, c);
    assert all[0..|Positional(f)|] == Positional(f);
  }

  /** A parameter past the positional arguments is not one of the slots they fill. */
  lemma Unfilled(slots: seq<string>, more: seq<string>, i: nat, n: nat)
    requires Distinct(slots + more) && Distinct(slots) && n <= i < |slots + more|
    ensures var p := (slots + more)[i]; p in slots ==> IndexOf(slots, p) >= n
  {
    var p := (slots + more)[i];
    if p in slots {
      var k := IndexOf(slots, p);
      assert (slots + more)[k] == p;
    }
  }

  lemma {:induction false} SpreadOf(c: CallSite, u: Unpacking, n: nat, j: nat)
    requires |u.lists| == |c.args| && j < n <= |c.args| && !c.args[j].Starred?
    ensures |Spread(c, u, j)| < |Spread(c, u, n)| && Spread(c, u, n)[|Spread(c, u, j)|] == Given(c.args[j])
    decreases n
  {
    if j < n - 1 { SpreadOf(c, u, n - 1, j); }
  }

  lemma {:induction false} SpreadFrom(c: CallSite, u: Unpacking, n: nat, k: nat) returns (j: nat)
    requires |u.lists| == |c.args| && n <= |c.args| && k < |Spread(c, u, n)| && Spread(c, u, n)[k].Given?
    ensures j < n && !c.args[j].Starred? && Spread(c, u, n)[k] == Given(c.args[j]) && k == |Spread(c, u, j)|
    decreases n
  {
    if k < |Spread(c, u, n - 1)| { j := SpreadFrom(c, u, n - 1, k); } else { j := n - 1; }
  }

  /** A regular parameter is not positional-only, and its place among all that may be filled by position. */
  lemma RegularPlace(f: Func, p: string)
    requires Distinct(Positional(f)) && p in f.args
    ensures p !in f.posonly && p in Positional(f) && IndexOf(Positional(f), p) == |f.posonly| + IndexOf(f.args, p)
  {
    IndexBehind(f.posonly, f.args, p);
    assert Positional(f)[|f.posonly| + IndexOf(f.args, p)] == p;
    forall i | 0 <= i < |f.posonly| ensures f.posonly[i] != p { assert Positional(f)[i] == f.posonly[i]; }
  }

  /** The source of a parameter that no argument fills. */
  lemma UnfilledSource(f: Func, c: CallSite, u: Unpacking, p: string)
    requires LinedUp(f) && |f.defaults| <= |Positional(f)| && Distinct(Positional(f)) && |u.lists| == |c.args|
    requires p in Slots(f, c) ==> IndexOf(Slots(f, c), p) >= |Spread(c, u, |c.args|)|
    ensures p !in f.posonly && Keyword(c.keywords, p).Some? ==> Source(f, c, u, p) == Some(Named(Keyword(c.keywords, p).value))
    ensures Keyword(c.keywords, p).None? && FoundDefault(f, p).Some? ==>
      (Source(f, c, u, p) == Some(Default(FoundDefault(f, p).value)) <==> p !in u.extra)
  {
    if p in f.args { RegularPlace(f, p); }
    hide IndexOf, Keyword, Slots, Spread;
  }

  /** Where a parameter stands among the slots. */
  lemma SlotOf(f: Func, c: CallSite, i: nat)
    requires Ordinary(f, c) && i < |DropSelf(f.Params())|
    ensures var p := DropSelf(f.Params())[i];
      (p in Slots(f, c) <==> i < |Slots(f, c)|) && (p in Slots(f, c) ==> IndexOf(Slots(f, c), p) == i)
    ensures |Slots(f, c)| <= i ==> DropSelf(f.Params())[i] !in f.posonly && DropSelf(f.Params())[i] !in f.args
    ensures i < |Slots(f, c)| ==> DropSelf(f.Params())[i] == Slots(f, c)[i] && DropSelf(f.Params())[i] in Positional(f)
  {
    SlotsFirst(f, c);
    var slots, ps := Slots(f, c), DropSelf(f.Params());
    var p := ps[i];
    if i < |slots| {
      IndexIs(slots, i);
      assert p == slots[i];
    } else {
      Unfilled(slots, f.kwonly, i, |slots|);
      KeywordOnly(f, i - |slots|);
    }
    hide Distinct, IndexOf, DropSelf;
  }

  lemma KeywordOnly(f: Func, k: nat)
    requires Distinct(f.Params()) && k < |f.kwonly|
    ensures f.kwonly[k] !in f.posonly && f.kwonly[k] !in f.args
  {
    var all, n := f.Params(), |f.posonly| + |f.args|;
    assert all[n + k] == f.kwonly[k];
    forall j | 0 <= j < n ensures all[j] != f.kwonly[k] {}
    forall j | 0 <= j < |f.posonly| ensures f.posonly[j] == all[j] {}
    forall j | 0 <= j < |f.args| ensures f.args[j] == all[|f.posonly| + j] {}
  }

  /** An argument's parameter: the folder is right about it when the argument stays in its place. */
  lemma GivenSource(f: Func, c: CallSite, u: Unpacking, i: nat)
    requires Ordinary(f, c) && |u.lists| == |c.args| && Accepted(f, c, u) && i < |DropSelf(f.Params())| && i < |c.args| && !c.args[i].Starred?
    ensures var right := Source(f, c, u, DropSelf(f.Params())[i]) == Found(f, c, i);
      && (i < |Slots(f, c)| && |Spread(c, u, i)| == i ==> right)
      && (right && DistinctArgs(c) ==> i < |Slots(f, c)| && |Spread(c, u, i)| == i)
  {
    hide *;
    SlotOf(f, c, i);
    SpreadOf(c, u, |c.args|, i);
    FoundGiven(f, c, i);
    GivenIsFilled(f, c, u, i);
    if i < |Slots(f, c)| && i < |Spread(c, u, |c.args|)| && Spread(c, u, |c.args|)[i] == Given(c.args[i]) {
      var j := SpreadFrom(c, u, |c.args|, i);
      SameArg(c, i, j);
    }
  }

  lemma SameArg(c: CallSite, i: nat, j: nat)
    requires i < |c.args| && j < |c.args| && c.args[i] == c.args[j]
    ensures DistinctArgs(c) ==> i == j
  {
  }

  lemma FoundGiven(f: Func, c: CallSite, i: nat)
    requires i < |DropSelf(f.Params())| && i < |c.args| && !c.args[i].Starred?
    ensures Found(f, c, i) == Some(Given(c.args[i]))
  {
  }

  /** Only a slot is ever bound to an argument, and to the one that reaches it. */
  lemma GivenIsFilled(f: Func, c: CallSite, u: Unpacking, i: nat)
    requires Ordinary(f, c) && |u.lists| == |c.args| && i < |DropSelf(f.Params())|
    ensures var s := Source(f, c, u, DropSelf(f.Params())[i]);
      if i < |Slots(f, c)| && i < |Spread(c, u, |c.args|)| then s == Some(Spread(c, u, |c.args|)[i]) else s.Some? ==> !s.value.Given?
  {
    SlotOf(f, c, i);
    hide IndexOf, Keyword, DropSelf, Slots, Spread, Ordinary;
  }

  /** Any other parameter: the folder is right about it when nothing unpacked fills it. */
  lemma RestSource(f: Func, c: CallSite, u: Unpacking, i: nat)
    requires Ordinary(f, c) && |u.lists| == |c.args| && Accepted(f, c, u) && |c.args| <= i < |DropSelf(f.Params())| && Found(f, c, i).Some?
    ensures var p := DropSelf(f.Params())[i];
      Source(f, c, u, p) == Found(f, c, i) <==>
        if Keyword(c.keywords, p).Some? then p !in f.posonly else i >= |Spread(c, u, |c.args|)| && p !in u.extra
  {
    var p := DropSelf(f.Params())[i];
    SlotOf(f, c, i);
    SlotsFirst(f, c);
    if i >= |Spread(c, u, |c.args|)| || i >= |Slots(f, c)| {
      UnfilledSource(f, c, u, p);
    } else {
      FilledSource(f, c, u, i);
    }
    if p in f.args { RegularPlace(f, p); }
    hide IndexOf, Keyword, DropSelf, Slots, Spread, Distinct;
  }

  lemma FilledSource(f: Func, c: CallSite, u: Unpacking, i: nat)
    requires Ordinary(f, c) && |u.lists| == |c.args| && Accepted(f, c, u) && i < |Slots(f, c)| && i < |Spread(c, u, |c.args|)| && i < |DropSelf(f.Params())|
    ensures var p := DropSelf(f.Params())[i];
      && Source(f, c, u, p) == Some(Spread(c, u, |c.args|)[i]) && (p !in f.posonly ==> Keyword(c.keywords, p).None?)
      && (Spread(c, u, |c.args|)[i].Given? || Spread(c, u, |c.args|)[i].Unpacked?)
  {
    SlotOf(f, c, i);
    SpreadKinds(c, u, |c.args|, i);
    hide IndexOf, Keyword, DropSelf, Slots, Spread, Ordinary;
  }

  lemma {:induction false} SpreadKinds(c: CallSite, u: Unpacking, n: nat, k: nat)
    requires |u.lists| == |c.args| && n <= |c.args| && k < |Spread(c, u, n)|
    ensures Spread(c, u, n)[k].Given? || Spread(c, u, n)[k].Unpacked?
    decreases n
  {
    if k < |Spread(c, u, n - 1)| { SpreadKinds(c, u, n - 1, k); }
  }

  /** The folder takes parameter number `i`, if it takes it for anything, for what Python binds it to. */
  ghost predicate Right(f: Func, c: CallSite, u: Unpacking, i: nat)
    requires i < |DropSelf(f.Params())| && |u.lists| == |c.args|
  {
    Found(f, c, i).Some? ==> Source(f, c, u, DropSelf(f.Params())[i]) == Found(f, c, i)
  }

  /**
   * The folder looks where Python looks, for every parameter it finds anything for, exactly when what the call unpacks or
   * leaves over disturbs nothing.
   */
  lemma SameSource(f: Func, c: CallSite, u: Unpacking)
    requires Ordinary(f, c) && |u.lists| == |c.args| && Accepted(f, c, u)
    ensures Undisturbed(f, c, u) ==> forall i :: 0 <= i < |DropSelf(f.Params())| ==> Right(f, c, u, i)
    ensures DistinctArgs(c) ==>
      (Undisturbed(f, c, u) <==> forall i :: 0 <= i < |DropSelf(f.Params())| ==> Right(f, c, u, i))
  {
    forall i | 0 <= i < |DropSelf(f.Params())| ensures Undisturbed(f, c, u) ==> Right(f, c, u, i) {
      if i >= |c.args| { if Found(f, c, i).Some? { RestSource(f, c, u, i); } }
      else if !c.args[i].Starred? { GivenSource(f, c, u, i); }
    }
    if DistinctArgs(c) && forall i :: 0 <= i < |DropSelf(f.Params())| ==> Right(f, c, u, i) {
      AllRight(f, c, u);
    }
    hide Undisturbed, Right, Ordinary, Accepted;
  }

  lemma AllRight(f: Func, c: CallSite, u: Unpacking)
    requires Ordinary(f, c) && |u.lists| == |c.args| && Accepted(f, c, u) && DistinctArgs(c)
    requires forall i :: 0 <= i < |DropSelf(f.Params())| ==> Right(f, c, u, i)
    ensures Undisturbed(f, c, u)
  {
    hide IndexOf, Keyword, DropSelf, Slots, FoundDefault, Spread, Source, Ordinary, Accepted, DistinctArgs;
    forall i | 0 <= i < |c.args| && i < |DropSelf(f.Params())| && !c.args[i].Starred?
      ensures i < |Slots(f, c)| && |Spread(c, u, i)| == i
    {
      assert Right(f, c, u, i);
      GivenSource(f, c, u, i);
    }
    forall i | |c.args| <= i < |DropSelf(f.Params())|
      ensures var p := DropSelf(f.Params())[i];
        if Keyword(c.keywords, p).Some? then p !in f.posonly
        else FoundDefault(f, p).Some? ==> i >= |Spread(c, u, |c.args|)| && p !in u.extra
    {
      assert Right(f, c, u, i);
      if Found(f, c, i).Some? { RestSource(f, c, u, i); }
    }
  }

  /** A call that unpacks nothing, with no more arguments than slots and no keyword named like a positional-only parameter. */
  lemma {:induction false} PlainCall(f: Func, c: CallSite, u: Unpacking)
    requires |u.lists| == |c.args| && Accepted(f, c, u) && |c.args| <= |Slots(f, c)| && u.extra == map[]
    requires (forall a :: a in c.args ==> !a.Starred?) && forall p :: p in f.posonly ==> Keyword(c.keywords, p).None?
    ensures Undisturbed(f, c, u)
  {
    hide Keyword, DropSelf, Slots, FoundDefault;
    forall n: nat | n <= |c.args| ensures |Spread(c, u, n)| == n { NothingSpread(c, u, n); }
    hide Spread, Accepted;
  }

  lemma {:induction false} NothingSpread(c: CallSite, u: Unpacking, n: nat)
    requires |u.lists| == |c.args| && n <= |c.args| && forall a :: a in c.args ==> !a.Starred?
    ensures |Spread(c, u, n)| == n
    decreases n
  {
    if n > 0 {
      NothingSpread(c, u, n - 1);
      assert c.args[n - 1] in c.args;
    }
  }

  lemma ParamSound(py: Python, f: Func, expr: Expr, c: CallSite, u: Unpacking, i: nat, caller: Consts, owner: Consts, cs: set<string>, os: set<string>,
                   callerEnv: Env, ownerEnv: Env, env: Env)
    requires Ordinary(f, c) && |u.lists| == |c.args| && Accepted(f, c, u) && Undisturbed(f, c, u)
    requires AllReadable(py, f, expr, c, caller, owner, cs, os) && i < |DropSelf(f.Params())|
    requires Agrees(caller, callerEnv, cs) && Agrees(owner, ownerEnv, os) && Binds(py, f, c, u, callerEnv, ownerEnv, env)
    requires ParamValue(py, f, c, i, caller, owner).Known?
    ensures var p := DropSelf(f.Params())[i]; p in env && env[p] == ParamValue(py, f, c, i, caller, owner).v
  {
    hide Eval, Readable, Agrees, Ordinary, Accepted, Undisturbed, Source, FoundDefault, Keyword, DropSelf, Overlay, StaleInside;
    SameSource(f, c, u);
    assert Right(f, c, u, i);
    var p := DropSelf(f.Params())[i];
    if i < |c.args| {
      assert c.args[i] in c.args;
      FoldSound(py, c.args[i], caller, callerEnv, cs);
    } else if Keyword(c.keywords, p).Some? {
      KeywordIn(c.keywords, p);
      FoldSound(py, Keyword(c.keywords, p).value, caller, callerEnv, cs);
    } else {
      DefaultIn(f, c, p);
      FoldSound(py, FoundDefault(f, p).value, owner, ownerEnv, os);
    }
  }

  lemma DefaultIn(f: Func, c: CallSite, p: string)
    requires Ordinary(f, c)
    ensures FoundDefault(f, p).Some? ==> FoundDefault(f, p).value in f.defaults
  {
  }

  lemma {:induction false} OverlayAt(py: Python, f: Func, c: CallSite, n: nat, caller: Consts, owner: Consts, id: string)
    requires Ordinary(f, c) && n <= |DropSelf(f.Params())|
    ensures var o := Overlay(py, f, c, n, caller, owner); id in o ==>
      (id !in DropSelf(f.Params())[..n] && id in owner && o[id] == owner[id])
      || exists i :: 0 <= i < n && DropSelf(f.Params())[i] == id && o[id] == ParamValue(py, f, c, i, caller, owner)
  {
    hide ParamValue, DropSelf, Ordinary;
    var ps := DropSelf(f.Params());
    if n > 0 {
      OverlayAt(py, f, c, n - 1, caller, owner, id);
      assert ps[..n] == ps[..n - 1] + [ps[n - 1]];
    }
  }

  /**
   * The default the folder gives for a wrapper's read is what the wrapper's default expression evaluates to inside that call,
   * in every environment that agrees with the constants of the two files.
   */
  lemma HelperDefaultSound(py: Python, f: Func, expr: Expr, c: CallSite, u: Unpacking, caller: Consts, owner: Consts, cs: set<string>, os: set<string>,
                           callerEnv: Env, ownerEnv: Env, env: Env)
    requires Ordinary(f, c) && |u.lists| == |c.args| && Accepted(f, c, u) && Undisturbed(f, c, u) && AllReadable(py, f, expr, c, caller, owner, cs, os)
    requires c.receiver ==> Positional(f)[0] !in owner
    requires Agrees(caller, callerEnv, cs) && Agrees(owner, ownerEnv, os) && Binds(py, f, c, u, callerEnv, ownerEnv, env)
    requires HelperDefault(py, f, expr, c, caller, owner).Known?
    ensures Eval(py, expr, env) == Some(HelperDefault(py, f, expr, c, caller, owner).v)
  {
    var o := Overlay(py, f, c, |DropSelf(f.Params())|, caller, owner);
    OverlayAgrees(py, f, expr, c, u, caller, owner, cs, os, callerEnv, ownerEnv, env);
    hide *;
    HelperFolds(py, f, expr, c, caller, owner);
    ReadableExpr(py, f, expr, c, caller, owner, cs, os);
    FoldSound(py, expr, o, env, StaleInside(f, os));
  }

  lemma HelperFolds(py: Python, f: Func, expr: Expr, c: CallSite, caller: Consts, owner: Consts)
    ensures HelperDefault(py, f, expr, c, caller, owner) == Fold(py, expr, Overlay(py, f, c, |DropSelf(f.Params())|, caller, owner))
  {
  }

  lemma ReadableExpr(py: Python, f: Func, expr: Expr, c: CallSite, caller: Consts, owner: Consts, cs: set<string>, os: set<string>)
    requires AllReadable(py, f, expr, c, caller, owner, cs, os)
    ensures Readable(py, expr, Overlay(py, f, c, |DropSelf(f.Params())|, caller, owner), StaleInside(f, os))
  {
  }

  lemma OverlayAgrees(py: Python, f: Func, expr: Expr, c: CallSite, u: Unpacking, caller: Consts, owner: Consts, cs: set<string>, os: set<string>,
                      callerEnv: Env, ownerEnv: Env, env: Env)
    requires Ordinary(f, c) && |u.lists| == |c.args| && Accepted(f, c, u) && Undisturbed(f, c, u)
    requires AllReadable(py, f, expr, c, caller, owner, cs, os) && (c.receiver ==> Positional(f)[0] !in owner)
    requires Agrees(caller, callerEnv, cs) && Agrees(owner, ownerEnv, os) && Binds(py, f, c, u, callerEnv, ownerEnv, env)
    ensures Agrees(Overlay(py, f, c, |DropSelf(f.Params())|, caller, owner), env, StaleInside(f, os))
  {
    hide Eval, Fold, Readable, Source, FoundDefault, Keyword, ParamValue, Overlay, AllReadable, Accepted, Undisturbed;
    var ps := DropSelf(f.Params());
    var o := Overlay(py, f, c, |ps|, caller, owner);
    assert ps[..|ps|] == ps;
    forall id | id in o && o[id].Known? && id !in StaleInside(f, os) ensures id in env && env[id] == o[id].v {
      OverlayAt(py, f, c, |ps|, caller, owner, id);
      if i :| 0 <= i < |ps| && ps[i] == id && o[id] == ParamValue(py, f, c, i, caller, owner) {
        ParamSound(py, f, expr, c, u, i, caller, owner, cs, os, callerEnv, ownerEnv, env);
      } else {
        NotAParameter(f, c, id);
      }
    }
  }

  lemma NotAParameter(f: Func, c: CallSite, id: string)
    requires Ordinary(f, c) && id !in DropSelf(f.Params()) && (c.receiver ==> Positional(f)[0] != id)
    ensures id !in f.Params()
  {
    assert f.Params() == Positional(f) + f.kwonly;
    if c.receiver { assert f.Params() == [Positional(f)[0]] + DropSelf(f.Params()); }
  }

  /** A wrapper with more defaults than regular parameters, and the wrong default the folder finds for a call of it. */
  lemma PositionalOnlyMisleads(py: Python, a: Value, b: Value, x: Value, ownerEnv: Env, env: Env)
    requires a != b
    requires var f := Func(["p", "q"], ["default"], [], [Const(a), Const(b)], map[]);
      Binds(py, f, CallSite([Const(x)], [], false), Unpacking([[]], map[]), map[], ownerEnv, env)
    ensures var f := Func(["p", "q"], ["default"], [], [Const(a), Const(b)], map[]);
      && HelperDefault(py, f, Name("default"), CallSite([Const(x)], [], false), map[], map[]) == Known(a)
      && Eval(py, Name("default"), env) == Some(b)
  {
    var f, c := Func(["p", "q"], ["default"], [], [Const(a), Const(b)], map[]), CallSite([Const(x)], [], false);
    ShiftedDefault(py, f, c, a, b, x);
    OwnDefaultBound(f, c, a, b, x);
    assert DropSelf(f.Params()) == ["p", "q", "default"];
    assert DropSelf(f.Params())[2] == "default" && Eval(py, Const(b), ownerEnv) == Some(b);
    hide HelperDefault, Source, DropSelf, Spread;
  }

  lemma ShiftedDefault(py: Python, f: Func, c: CallSite, a: Value, b: Value, x: Value)
    requires f == Func(["p", "q"], ["default"], [], [Const(a), Const(b)], map[]) && c == CallSite([Const(x)], [], false)
    ensures HelperDefault(py, f, Name("default"), c, map[], map[]) == Known(a)
  {
    assert DropSelf(f.Params()) == ["p", "q", "default"];
    assert ParamValue(py, f, c, 2, map[], map[]) == Known(a);
  }

  lemma OwnDefaultBound(f: Func, c: CallSite, a: Value, b: Value, x: Value)
    requires f == Func(["p", "q"], ["default"], [], [Const(a), Const(b)], map[]) && c == CallSite([Const(x)], [], false)
    ensures Source(f, c, Unpacking([[]], map[]), "default") == Some(Default(Const(b)))
  {
    assert f.posonly + f.args == ["p", "q", "default"];
    IndexIs(["p", "q", "default"], 2);
    assert Spread(c, Unpacking([[]], map[]), 1) == Spread(c, Unpacking([[]], map[]), 0) + [Given(Const(x))];
  }
}
