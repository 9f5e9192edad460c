/** Which definitions the class descriptors really use, so that the library files behind them can be named. */
module YangLibrary {
  import opened Text
  import opened YangSyntax
  import opened YangTypes
  import opened YangBundle

  /** A definition found by name. */
  datatype Def = GroupingDef(name: string) | TypedefDef(name: string)

  /** The typedefs followed to tell a type. */
  function TypedefsOf(d: Types, s: Stmt, depth: nat): set<string>
    decreases 11 - depth
  {
    var name := Local(Name(s));
    if BuiltIn(name) || name !in d.typedefs || depth >= 10 then {}
    else
      var inner := Children(d.typedefs[name], "type");
      {name} + if inner == [] then {} else TypedefsOf(d, inner[0], depth + 1)
  }

  function LeafDefs(d: Defs, s: Stmt): set<Def> {
    var types := Children(s, "type");
    if s.keyword == "leaf" && types != [] then set name | name in TypedefsOf(d.types, types[0], 0) :: TypedefDef(name) else {}
  }

  /** The definitions the walk over `children` uses; `seen` holds the groupings on the way to them. */
  function Used(d: Defs, children: seq<Stmt>, seen: set<string>): set<Def>
    decreases d.groupings.Keys - seen, children, 1
  {
    if children == [] then {} else UsedBy(d, children[0], seen) + Used(d, children[1..], seen)
  }

  function UsedBy(d: Defs, s: Stmt, seen: set<string>): set<Def>
    decreases d.groupings.Keys - seen, s, 0
  {
    if s.keyword == "uses" then
      var name := Local(Name(s));
      if name in d.groupings && name !in seen then
        assert d.groupings.Keys - (seen + {name}) < d.groupings.Keys - seen by {
          assert name in d.groupings.Keys - seen;
        }
        {GroupingDef(name)} + Used(d, d.groupings[name].children, seen + {name})
      else {}
    else if Transparent(s) then Used(d, s.children, seen)
    else LeafDefs(d, s)
  }

  // ---------------------------------------------------------------- used is what can be reached

  /** The typedefs used by leaves met without entering a grouping. */
  function DirectDefs(d: Defs, children: seq<Stmt>): set<Def> {
    if children == [] then {}
    else (if children[0].keyword == "uses" then {}
          else if Transparent(children[0]) then DirectDefs(d, children[0].children)
          else LeafDefs(d, children[0])) + DirectDefs(d, children[1..])
  }

  /** The definition is behind a path of `uses`: its last grouping, or a typedef of a leaf found at its end. */
  ghost predicate Behind(d: Defs, start: seq<Stmt>, p: seq<string>, k: Def) {
    && Path(d, start, p) && (forall g :: g in p ==> g in d.groupings)
    && ((p != [] && k == GroupingDef(p[|p| - 1])) || k in DirectDefs(d, EndOf(d, start, p)))
  }

  ghost predicate ReachableDef(d: Defs, start: seq<Stmt>, k: Def) {
    exists p: seq<string> :: Behind(d, start, p, k)
  }

  ghost predicate Via(d: Defs, children: seq<Stmt>, seen: set<string>, k: Def, u: string) {
    var n := Local(u);
    && u in DirectUses(children) && n in d.groupings && n !in seen
    && (k == GroupingDef(n) || k in Used(d, d.groupings[n].children, seen + {n}))
  }

  ghost predicate Here(d: Defs, children: seq<Stmt>, seen: set<string>, k: Def) {
    k in DirectDefs(d, children) || exists u :: Via(d, children, seen, k, u)
  }

  /** One step of the walk: a definition is used by a leaf here, or is or lies behind a grouping used here and not on the path. */
  lemma {:induction false} UsedStep(d: Defs, children: seq<Stmt>, seen: set<string>, k: Def)
    ensures k in Used(d, children, seen) <==> Here(d, children, seen, k)
    decreases children
  {
    if children != [] {
      var s, rest := children[0], children[1..];
      UsedStep(d, rest, seen, k);
      if Transparent(s) && s.keyword != "uses" { UsedStep(d, s.children, seen, k); }
      UsedHead(d, children, seen, k);
    }
  }

  lemma UsedHead(d: Defs, children: seq<Stmt>, seen: set<string>, k: Def)
    requires children != [] && (k in Used(d, children[1..], seen) <==> Here(d, children[1..], seen, k))
    requires var s := children[0];
      Transparent(s) && s.keyword != "uses" ==> (k in Used(d, s.children, seen) <==> Here(d, s.children, seen, k))
    ensures k in Used(d, children, seen) <==> Here(d, children, seen, k)
  {
    hide LeafDefs;
    var s, rest := children[0], children[1..];
    HereMore(d, rest, children, seen, k);
    if s.keyword == "uses" {
      if k in UsedBy(d, s, seen) { assert Via(d, children, seen, k, Name(s)); }
      forall u | Via(d, children, seen, k, u) ensures k in UsedBy(d, s, seen) || Via(d, rest, seen, k, u) {}
    } else if Transparent(s) {
      HereMore(d, s.children, children, seen, k);
      forall u | Via(d, children, seen, k, u) ensures Via(d, s.children, seen, k, u) || Via(d, rest, seen, k, u) {}
    } else {
      forall u | Via(d, children, seen, k, u) ensures Via(d, rest, seen, k, u) {}
    }
  }

  lemma HereMore(d: Defs, less: seq<Stmt>, more: seq<Stmt>, seen: set<string>, k: Def)
    requires DirectUses(less) <= DirectUses(more) && DirectDefs(d, less) <= DirectDefs(d, more)
    ensures Here(d, less, seen, k) ==> Here(d, more, seen, k)
  {
    forall u | Via(d, less, seen, k, u) ensures Via(d, more, seen, k, u) {}
  }

  lemma {:induction false} UsedIsReachable(d: Defs, children: seq<Stmt>, seen: set<string>, k: Def)
    requires k in Used(d, children, seen)
    ensures ReachableDef(d, children, k)
    decreases d.groupings.Keys - seen
  {
    hide Used, UsedBy, DirectDefs;
    UsedStep(d, children, seen, k);
    if k in DirectDefs(d, children) {
      assert Behind(d, children, [], k);
    } else {
      var u :| Via(d, children, seen, k, u);
      var n := Local(u);
      assert [n][1..] == [];
      if k == GroupingDef(n) {
        assert Path(d, d.groupings[n].children, []);
        assert Path(d, children, [n]);
        assert Behind(d, children, [n], k);
      } else {
        assert n in d.groupings.Keys - seen;
        assert d.groupings.Keys - (seen + {n}) < d.groupings.Keys - seen;
        UsedIsReachable(d, d.groupings[n].children, seen + {n}, k);
        var p: seq<string> :| Behind(d, d.groupings[n].children, p, k);
        assert ([n] + p)[1..] == p;
        assert Behind(d, children, [n] + p, k);
      }
    }
  }

  /** As for `unresolved`, a path that avoids `seen` is never cut off: its loops can be skipped. */
  lemma {:induction false} ReachableIsUsed(d: Defs, children: seq<Stmt>, seen: set<string>, p: seq<string>, k: Def)
    requires Behind(d, children, p, k) && forall g :: g in p ==> g !in seen
    ensures k in Used(d, children, seen)
    decreases |p|
  {
    hide Used, UsedBy, DirectDefs;
    UsedStep(d, children, seen, k);
    if p != [] {
      var g := p[0];
      var i := LastIndex(p, g);
      PathTail(d, children, p, i);
      var q := p[i + 1..];
      assert forall x :: x in q ==> x in p;
      assert q == [] || q[|q| - 1] == p[|p| - 1];
      var u :| u in DirectUses(children) && Local(u) == g;
      if k != GroupingDef(g) {
        assert Behind(d, d.groupings[g].children, q, k);
        ReachableIsUsed(d, d.groupings[g].children, seen + {g}, q, k);
      }
      assert Via(d, children, seen, k, u);
    }
  }

  /** With cyclic groupings or not, the definitions noted as used are precisely those reachable. */
  lemma UsedIsExact(d: Defs, children: seq<Stmt>, k: Def)
    ensures k in Used(d, children, {}) <==> ReachableDef(d, children, k)
  {
    hide Used;
    if k in Used(d, children, {}) { UsedIsReachable(d, children, {}, k); }
    if ReachableDef(d, children, k) {
      var p: seq<string> :| Behind(d, children, p, k);
      ReachableIsUsed(d, children, {}, p, k);
    }
  }

  // ---------------------------------------------------------------- the files behind them

  /** The library files of the definitions that came from one. */
  function Files(origins: map<Def, string>, ks: set<Def>): set<string> {
    set k | k in ks && k in origins :: origins[k]
  }

  lemma FilesPlus(origins: map<Def, string>, a: set<Def>, b: set<Def>)
    ensures Files(origins, a + b) == Files(origins, a) + Files(origins, b)
  {
  }
}
